/** Randomised text substitution: each switch of a question's
    `:randomization_text_switches` fills one placeholder with the text for the session's
    treatment level. */
module Randomization {
  import opened Wrappers
  import opened Questions
  import opened SurveyQuestions
  import opened TextReplace

  /** Every field except the four rewritable texts is equal, and each optional text is
      present in one exactly when it is present in the other. */
  predicate OnlyTextsDiffer(a: Question, b: Question)
  {
    && a.signature == b.signature
    && a.questionType == b.questionType
    && a.responseType == b.responseType
    && a.choices == b.choices
    && a.switches == b.switches
    && a.responses == b.responses
    && a.order == b.order
    && a.respondedAt == b.respondedAt
    && a.title.Some? == b.title.Some?
    && a.description.Some? == b.description.Some?
    && a.submitText.Some? == b.submitText.Some?
  }

  /** One switch step: every occurrence of `pattern` is replaced in the title, the
      description and the submit text when present, and in the question text always.
      The response choices are not touched: the source computes their substituted text
      and drops it. */
  function ApplyFill(q: Question, pattern: string, replacement: string): (r: Question)
    ensures OnlyTextsDiffer(q, r)
  {
    q.(title := if q.title.Some? then Some(ReplaceAll(q.title.value, pattern, replacement)) else None,
       description := if q.description.Some? then Some(ReplaceAll(q.description.value, pattern, replacement)) else None,
       text := ReplaceAll(q.text, pattern, replacement),
       submitText := if q.submitText.Some? then Some(ReplaceAll(q.submitText.value, pattern, replacement)) else None)
  }

  /** The state of a substitution: the question so far, the next placeholder index, and
      the exception if one was raised (the question then holds the steps done before). */
  datatype Rendering = Rendering(question: Question, next: nat, fault: Option<Fault>)

  /** The inner loop over one key's switches, starting at placeholder `i`. A switch
      without text for the level hands nil to `gsub`, as does a placeholder index past
      the end of the placeholder list; the replacement is checked first. */
  function RenderSwitches(q: Question, sws: seq<map<Symbol, string>>, level: Symbol,
                          fill: seq<string>, i: nat): Rendering
    decreases |sws|
  {
    if sws == [] then Rendering(q, i, None)
    else if level !in sws[0] then Rendering(q, i, Some(MissingSwitchText(level)))
    else if i >= |fill| then Rendering(q, i, Some(PlaceholderMissing(i)))
    else RenderSwitches(ApplyFill(q, fill[i], sws[0][level]), sws[1..], level, fill, i + 1)
  }

  /** The outer loop over the `key => switches` pairs; the counter carries on across
      keys. A key absent from the treatment raises before any of its switches run. */
  function RenderKeys(q: Question, kss: seq<KeySwitches>, treatment: map<Symbol, Symbol>,
                      fill: seq<string>, i: nat): Rendering
    decreases |kss|
  {
    if kss == [] then Rendering(q, i, None)
    else if kss[0].key !in treatment then Rendering(q, i, Some(MissingTreatment(kss[0].key)))
    else
      var r := RenderSwitches(q, kss[0].switches, treatment[kss[0].key], fill, i);
      if r.fault.Some? then r else RenderKeys(r.question, kss[1..], treatment, fill, r.next)
  }

  /** `render_randomization_texts` as a function of the question, the treatment and the
      placeholder list. */
  function Render(q: Question, treatment: map<Symbol, Symbol>, fill: seq<string>): Rendering
  {
    match q.switches
    case None => Rendering(q, 0, None)
    case Some(kss) => RenderKeys(q, kss, treatment, fill, 0)
  }

  /** `render_randomization_texts`: the nested loops with one shared counter, rewriting
      the question field by field. */
  method RenderRandomizationTexts(q: Question, treatment: map<Symbol, Symbol>, fill: seq<string>)
    returns (r: Question, fault: Option<Fault>)
    ensures r == Render(q, treatment, fill).question
    ensures fault == Render(q, treatment, fill).fault
  {
    r := q;
    fault := None;
    if q.switches.None? {
      return;
    }
    var kss := q.switches.value;
    var i: nat := 0;
    var k := 0;
    while k < |kss|
      invariant 0 <= k <= |kss|
      invariant RenderKeys(q, kss, treatment, fill, 0) == RenderKeys(r, kss[k..], treatment, fill, i)
    {
      assert kss[k..][0] == kss[k] && kss[k..][1..] == kss[k + 1..];
      var key := kss[k].key;
      if key !in treatment {
        fault := Some(MissingTreatment(key));
        return;
      }
      var level := treatment[key];
      var sws := kss[k].switches;
      ghost var r0, i0 := r, i;
      var j := 0;
      while j < |sws|
        invariant 0 <= j <= |sws|
        invariant RenderSwitches(r0, sws, level, fill, i0) == RenderSwitches(r, sws[j..], level, fill, i)
      {
        assert sws[j..][0] == sws[j] && sws[j..][1..] == sws[j + 1..];
        if level !in sws[j] {
          fault := Some(MissingSwitchText(level));
          return;
        }
        if i >= |fill| {
          fault := Some(PlaceholderMissing(i));
          return;
        }
        var pattern, replacement := fill[i], sws[j][level];
        if r.title.Some? {
          r := r.(title := Some(ReplaceAll(r.title.value, pattern, replacement)));
        }
        if r.description.Some? {
          r := r.(description := Some(ReplaceAll(r.description.value, pattern, replacement)));
        }
        r := r.(text := ReplaceAll(r.text, pattern, replacement));
        if r.submitText.Some? {
          r := r.(submitText := Some(ReplaceAll(r.submitText.value, pattern, replacement)));
        }
        i := i + 1;
        j := j + 1;
      }
      k := k + 1;
    }
  }

  // ---------------------------------------------------------------- reference definition

  /** A treatment key is resolvable: the treatment has a level for it and every one of
      its switches has text for that level. */
  predicate KeyResolvable(ks: KeySwitches, treatment: map<Symbol, Symbol>)
  {
    ks.key in treatment && forall j :: 0 <= j < |ks.switches| ==> treatment[ks.key] in ks.switches[j]
  }

  predicate AllResolvable(kss: seq<KeySwitches>, treatment: map<Symbol, Symbol>)
  {
    forall k :: 0 <= k < |kss| ==> KeyResolvable(kss[k], treatment)
  }

  /** The switch texts for one level, in order. */
  function SwitchTexts(sws: seq<map<Symbol, string>>, level: Symbol): (r: seq<string>)
    requires forall j :: 0 <= j < |sws| ==> level in sws[j]
    ensures |r| == |sws| && forall j :: 0 <= j < |sws| ==> r[j] == sws[j][level]
  {
    seq(|sws|, j requires 0 <= j < |sws| => sws[j][level])
  }

  /** All switch texts of all keys, in the order the placeholders are numbered. */
  function Replacements(kss: seq<KeySwitches>, treatment: map<Symbol, Symbol>): (r: seq<string>)
    requires AllResolvable(kss, treatment)
    ensures |r| == SwitchCount(kss)
  {
    if kss == [] then []
    else SwitchTexts(kss[0].switches, treatment[kss[0].key]) + Replacements(kss[1..], treatment)
  }

  /** Placeholder `patterns[n]` replaced by `replacements[n]`, one after the other. */
  function ApplyAll(q: Question, patterns: seq<string>, replacements: seq<string>): Question
    requires |patterns| == |replacements|
    decreases |patterns|
  {
    if patterns == [] then q
    else ApplyAll(ApplyFill(q, patterns[0], replacements[0]), patterns[1..], replacements[1..])
  }

  lemma {:induction false} ApplyAllConcat(q: Question, p1: seq<string>, r1: seq<string>,
                                          p2: seq<string>, r2: seq<string>)
    requires |p1| == |r1| && |p2| == |r2|
    ensures ApplyAll(q, p1 + p2, r1 + r2) == ApplyAll(ApplyAll(q, p1, r1), p2, r2)
    decreases |p1|
  {
    if p1 != [] {
      assert (p1 + p2)[0] == p1[0] && (p1 + p2)[1..] == p1[1..] + p2;
      assert (r1 + r2)[0] == r1[0] && (r1 + r2)[1..] == r1[1..] + r2;
      ApplyAllConcat(ApplyFill(q, p1[0], r1[0]), p1[1..], r1[1..], p2, r2);
    } else {
      assert p1 + p2 == p2 && r1 + r2 == r2;
    }
  }

  lemma {:induction false} ApplyAllOnlyTexts(q: Question, ps: seq<string>, rs: seq<string>)
    requires |ps| == |rs|
    ensures OnlyTextsDiffer(q, ApplyAll(q, ps, rs))
    decreases |ps|
  {
    if ps != [] {
      ApplyAllOnlyTexts(ApplyFill(q, ps[0], rs[0]), ps[1..], rs[1..]);
    }
  }

  // ---------------------------------------------------------------- properties

  /** The inner loop succeeds exactly when every switch has text for the level and
      enough placeholders remain, having then used one placeholder per switch; otherwise
      it raises one of the two `gsub` errors. Only the four texts change. */
  lemma {:induction false} RenderSwitchesOutcome(q: Question, sws: seq<map<Symbol, string>>,
                                                 level: Symbol, fill: seq<string>, i: nat)
    requires i <= |fill|
    ensures RenderSwitches(q, sws, level, fill, i).next <= |fill|
    ensures RenderSwitches(q, sws, level, fill, i).fault.None? <==>
      (forall j :: 0 <= j < |sws| ==> level in sws[j]) && i + |sws| <= |fill|
    ensures var r := RenderSwitches(q, sws, level, fill, i);
      r.fault.None? ==> r.next == i + |sws|
    ensures var f := RenderSwitches(q, sws, level, fill, i).fault;
      f.Some? ==> f.value == MissingSwitchText(level) || f.value.PlaceholderMissing?
    ensures OnlyTextsDiffer(q, RenderSwitches(q, sws, level, fill, i).question)
    decreases |sws|
  {
    if sws == [] {
    } else if level !in sws[0] {
    } else if i >= |fill| {
    } else {
      var q1 := ApplyFill(q, fill[i], sws[0][level]);
      RenderSwitchesOutcome(q1, sws[1..], level, fill, i + 1);
      assert forall j :: 1 <= j < |sws| ==> sws[1..][j - 1] == sws[j];
      assert (forall j :: 0 <= j < |sws| ==> level in sws[j]) <==>
             (forall j :: 0 <= j < |sws[1..]| ==> level in sws[1..][j]);
    }
  }

  /** On success the inner loop has replaced placeholder `i + j` by the text of switch
      `j`, one after the other. */
  lemma {:induction false} RenderSwitchesApplies(q: Question, sws: seq<map<Symbol, string>>,
                                                 level: Symbol, fill: seq<string>, i: nat)
    requires (forall j :: 0 <= j < |sws| ==> level in sws[j]) && i + |sws| <= |fill|
    ensures RenderSwitches(q, sws, level, fill, i).question ==
      ApplyAll(q, fill[i..i + |sws|], SwitchTexts(sws, level))
    decreases |sws|
  {
    if sws != [] {
      var q1 := ApplyFill(q, fill[i], sws[0][level]);
      assert forall j :: 1 <= j < |sws| ==> sws[1..][j - 1] == sws[j];
      RenderSwitchesApplies(q1, sws[1..], level, fill, i + 1);
      var ps := fill[i..i + |sws|];
      var rs := SwitchTexts(sws, level);
      assert ps[0] == fill[i] && ps[1..] == fill[i + 1..i + 1 + |sws[1..]|];
      assert rs[0] == sws[0][level] && rs[1..] == SwitchTexts(sws[1..], level);
    }
  }

  lemma AllResolvableCons(kss: seq<KeySwitches>, treatment: map<Symbol, Symbol>)
    requires kss != []
    ensures AllResolvable(kss, treatment) <==>
      KeyResolvable(kss[0], treatment) && AllResolvable(kss[1..], treatment)
  {
    var tail := kss[1..];
    assert forall k :: 1 <= k < |kss| ==> tail[k - 1] == kss[k];
  }

  /** The outer loop succeeds exactly when every key is resolvable and enough
      placeholders remain for all switches together, having then used one placeholder
      per switch across all keys. Only the four texts change. */
  lemma {:induction false} RenderKeysOutcome(q: Question, kss: seq<KeySwitches>,
                                             treatment: map<Symbol, Symbol>, fill: seq<string>, i: nat)
    requires i <= |fill|
    ensures RenderKeys(q, kss, treatment, fill, i).next <= |fill|
    ensures RenderKeys(q, kss, treatment, fill, i).fault.None? <==>
      AllResolvable(kss, treatment) && i + SwitchCount(kss) <= |fill|
    ensures var r := RenderKeys(q, kss, treatment, fill, i);
      r.fault.None? ==> r.next == i + SwitchCount(kss)
    ensures var f := RenderKeys(q, kss, treatment, fill, i).fault;
      f.Some? ==> f.value.MissingTreatment? || f.value.MissingSwitchText? || f.value.PlaceholderMissing?
    ensures OnlyTextsDiffer(q, RenderKeys(q, kss, treatment, fill, i).question)
    decreases |kss|
  {
    if kss != [] {
      AllResolvableCons(kss, treatment);
      if kss[0].key in treatment {
        var level := treatment[kss[0].key];
        RenderSwitchesOutcome(q, kss[0].switches, level, fill, i);
        var r := RenderSwitches(q, kss[0].switches, level, fill, i);
        if r.fault.None? {
          RenderKeysOutcome(r.question, kss[1..], treatment, fill, r.next);
        }
      }
    }
  }

  /** On success the outer loop has applied the replacements of all keys, in order, to
      consecutive placeholders from `i`. */
  lemma {:induction false} RenderKeysApplies(q: Question, kss: seq<KeySwitches>,
                                             treatment: map<Symbol, Symbol>, fill: seq<string>, i: nat)
    requires AllResolvable(kss, treatment) && i + SwitchCount(kss) <= |fill|
    ensures RenderKeys(q, kss, treatment, fill, i).question ==
      ApplyAll(q, fill[i..i + SwitchCount(kss)], Replacements(kss, treatment))
    decreases |kss|
  {
    if kss != [] {
      AllResolvableCons(kss, treatment);
      var level := treatment[kss[0].key];
      var sws := kss[0].switches;
      RenderSwitchesOutcome(q, sws, level, fill, i);
      RenderSwitchesApplies(q, sws, level, fill, i);
      var r := RenderSwitches(q, sws, level, fill, i);
      RenderKeysApplies(r.question, kss[1..], treatment, fill, r.next);
      var n1, n2 := |sws|, SwitchCount(kss[1..]);
      assert fill[i..i + n1 + n2] == fill[i..i + n1] + fill[i + n1..i + n1 + n2];
      ApplyAllConcat(q, fill[i..i + n1], SwitchTexts(sws, level),
                     fill[i + n1..i + n1 + n2], Replacements(kss[1..], treatment));
    }
  }

  /** Substitution on a whole question: nothing happens for a question without switches;
      otherwise it succeeds exactly when every key is resolvable and the placeholder list
      covers all switches, and its result is then the n-th placeholder replaced by the
      n-th switch text, numbered across all keys from 0. Only the four texts ever
      change, and the response choices never do. */
  lemma RenderCharacterized(q: Question, treatment: map<Symbol, Symbol>, fill: seq<string>)
    ensures q.switches.None? ==> Render(q, treatment, fill) == Rendering(q, 0, None)
    ensures q.switches.Some? ==>
      (Render(q, treatment, fill).fault.None? <==>
        AllResolvable(q.switches.value, treatment) && SwitchCount(q.switches.value) <= |fill|)
    ensures q.switches.Some? && Render(q, treatment, fill).fault.None? ==>
      var n := SwitchCount(q.switches.value);
      Render(q, treatment, fill).question == ApplyAll(q, fill[..n], Replacements(q.switches.value, treatment))
    ensures var f := Render(q, treatment, fill).fault;
      f.Some? ==> f.value.MissingTreatment? || f.value.MissingSwitchText? || f.value.PlaceholderMissing?
    ensures OnlyTextsDiffer(q, Render(q, treatment, fill).question)
    ensures Render(q, treatment, fill).question.choices == q.choices
  {
    if q.switches.Some? {
      var kss := q.switches.value;
      RenderKeysOutcome(q, kss, treatment, fill, 0);
      if AllResolvable(kss, treatment) && SwitchCount(kss) <= |fill| {
        RenderKeysApplies(q, kss, treatment, fill, 0);
        assert fill[0..SwitchCount(kss)] == fill[..SwitchCount(kss)];
      }
    }
  }

  /** A treatment as a new session gets it: one of its choices for every randomised
      dimension. */
  predicate TreatmentDrawn(treatment: map<Symbol, Symbol>)
  {
    forall d :: 0 <= d < |RandomizedTreatments| ==>
      RandomizedTreatments[d].key in treatment &&
      treatment[RandomizedTreatments[d].key] in RandomizedTreatments[d].choices
  }

  /** A question whose switches follow the authoring rule never raises for a drawn
      treatment. */
  lemma CoveredRendersCleanly(q: Question, treatment: map<Symbol, Symbol>, fill: seq<string>)
    requires SwitchesCovered(q, fill) && TreatmentDrawn(treatment)
    ensures Render(q, treatment, fill).fault.None?
  {
    if q.switches.Some? {
      var kss := q.switches.value;
      forall k | 0 <= k < |kss| ensures KeyResolvable(kss[k], treatment) {
        assert KeyCovered(kss[k]);
        var d :| 0 <= d < |RandomizedTreatments| && RandomizedTreatments[d].key == kss[k].key &&
          forall j, c :: 0 <= j < |kss[k].switches| && c in RandomizedTreatments[d].choices ==> c in kss[k].switches[j];
        assert RandomizedTreatments[d].key in treatment;
      }
      RenderCharacterized(q, treatment, fill);
    }
  }

  /** Substitution never raises on any catalog question for a drawn treatment. */
  lemma CatalogRendersCleanly(fill: seq<string>, m: Missing, treatment: map<Symbol, Symbol>)
    requires MissingWellFormed(m, fill) && |fill| >= 1 && TreatmentDrawn(treatment)
    ensures forall k :: 0 <= k < |AllQuestions(fill, m)| ==>
      Render(AllQuestions(fill, m)[k], treatment, fill).fault.None?
  {
    AllQuestionsSwitchesCovered(fill, m);
    forall k | 0 <= k < |AllQuestions(fill, m)|
      ensures Render(AllQuestions(fill, m)[k], treatment, fill).fault.None?
    {
      CoveredRendersCleanly(AllQuestions(fill, m)[k], treatment, fill);
    }
  }

  // ---------------------------------------------------------------- examples

  /** A question whose text is "a " followed by the first placeholder, under the soda
      question's `place` switch: the text becomes "a " and the level's text, e.g.
      "a fancy resort" for `place: fancy`. */
  lemma PlaceExample(signature: string, placeholder: string, level: Symbol)
    requires placeholder != [] && placeholder[0] != 'a' && placeholder[0] != ' '
    requires level in {RunDown, Fancy}
    ensures var q := Basic(signature, Normal, FreeResponseSmall, "a " + placeholder)
                       .(switches := Some(PlaceSwitches));
            var text := if level == Fancy then SodaFancyText else SodaRunDownText;
            Render(q, map[PlaceKey := level], [placeholder]) ==
              Rendering(q.(text := "a " + text), 1, None)
  {
    var text := PlaceSwitches[0].switches[0][level];
    assert text == if level == Fancy then SodaFancyText else SodaRunDownText;
    ReplaceAllSplice("a ", placeholder, "", text);
    assert "a " + placeholder + "" == "a " + placeholder;
    assert "a " + text + "" == "a " + text;
    var q := Basic(signature, Normal, FreeResponseSmall, "a " + placeholder).(switches := Some(PlaceSwitches));
    var q1 := ApplyFill(q, placeholder, text);
    assert q1 == q.(text := "a " + text);
    var t := map[PlaceKey := level];
    var sws := PlaceSwitches[0].switches;
    assert RenderSwitches(q, sws, level, [placeholder], 0) == RenderSwitches(q1, sws[1..], level, [placeholder], 1);
    assert RenderKeys(q, PlaceSwitches, t, [placeholder], 0) == RenderKeys(q1, PlaceSwitches[1..], t, [placeholder], 1);
  }

  /** No placeholder's first character occurs in any of the question's four texts. */
  predicate NoPlaceholderIn(q: Question, fill: seq<string>)
  {
    forall i :: 0 <= i < |fill| ==>
      && fill[i] != []
      && fill[i][0] !in q.text
      && (q.title.Some? ==> fill[i][0] !in q.title.value)
      && (q.description.Some? ==> fill[i][0] !in q.description.value)
      && (q.submitText.Some? ==> fill[i][0] !in q.submitText.value)
  }

  lemma ApplyFillIdentity(q: Question, fill: seq<string>, i: nat, replacement: string)
    requires NoPlaceholderIn(q, fill) && i < |fill|
    ensures ApplyFill(q, fill[i], replacement) == q
  {
    ReplaceAllAbsent(q.text, fill[i], replacement);
    if q.title.Some? { ReplaceAllAbsent(q.title.value, fill[i], replacement); }
    if q.description.Some? { ReplaceAllAbsent(q.description.value, fill[i], replacement); }
    if q.submitText.Some? { ReplaceAllAbsent(q.submitText.value, fill[i], replacement); }
  }

  lemma {:induction false} RenderSwitchesIdentity(q: Question, sws: seq<map<Symbol, string>>,
                                                  level: Symbol, fill: seq<string>, i: nat)
    requires NoPlaceholderIn(q, fill)
    ensures RenderSwitches(q, sws, level, fill, i).question == q
    decreases |sws|
  {
    if sws != [] && level in sws[0] && i < |fill| {
      ApplyFillIdentity(q, fill, i, sws[0][level]);
      RenderSwitchesIdentity(q, sws[1..], level, fill, i + 1);
    }
  }

  lemma {:induction false} RenderKeysIdentity(q: Question, kss: seq<KeySwitches>,
                                              treatment: map<Symbol, Symbol>, fill: seq<string>, i: nat)
    requires NoPlaceholderIn(q, fill)
    ensures RenderKeys(q, kss, treatment, fill, i).question == q
    decreases |kss|
  {
    if kss != [] && kss[0].key in treatment {
      var r := RenderSwitches(q, kss[0].switches, treatment[kss[0].key], fill, i);
      RenderSwitchesIdentity(q, kss[0].switches, treatment[kss[0].key], fill, i);
      if r.fault.None? {
        RenderKeysIdentity(q, kss[1..], treatment, fill, r.next);
      }
    }
  }

  /** A question that holds no placeholder comes out of substitution unchanged, whatever
      the treatment; this is the case of a question that was already rendered with
      switch texts free of placeholders. */
  lemma RenderIdentity(q: Question, treatment: map<Symbol, Symbol>, fill: seq<string>)
    requires NoPlaceholderIn(q, fill)
    ensures Render(q, treatment, fill).question == q
  {
    if q.switches.Some? {
      RenderKeysIdentity(q, q.switches.value, treatment, fill, 0);
    }
  }

  /** The soda question under either `place` level: the description gets that level's
      text where the first placeholder stood; title and text, which hold no placeholder,
      are unchanged. */
  lemma SodaQuestionRendered(fill: seq<string>, treatment: map<Symbol, Symbol>)
    requires |fill| >= 1 && fill[0] != []
    requires fill[0][0] !in SodaTitle && fill[0][0] !in SodaText
    requires fill[0][0] !in SodaDescriptionBefore && fill[0][0] !in SodaDescriptionAfter
    requires PlaceKey in treatment && treatment[PlaceKey] in {RunDown, Fancy}
    ensures var level := treatment[PlaceKey];
            var text := if level == Fancy then SodaFancyText else SodaRunDownText;
            Render(SodaQuestion(fill), treatment, fill) ==
              Rendering(SodaQuestion(fill).(description := Some(SodaDescriptionBefore + text + SodaDescriptionAfter)), 1, None)
  {
    var level := treatment[PlaceKey];
    var text := PlaceSwitches[0].switches[0][level];
    ReplaceAllSplice(SodaDescriptionBefore, fill[0], SodaDescriptionAfter, text);
    ReplaceAllAbsent(SodaTitle, fill[0], text);
    ReplaceAllAbsent(SodaText, fill[0], text);
    assert text == if level == Fancy then SodaFancyText else SodaRunDownText;
    var q := SodaQuestion(fill);
    assert q.description == Some(SodaDescriptionBefore + fill[0] + SodaDescriptionAfter);
    var q1 := ApplyFill(q, fill[0], text);
    assert q1 == q.(description := Some(SodaDescriptionBefore + text + SodaDescriptionAfter));
    var sws := PlaceSwitches[0].switches;
    assert RenderSwitches(q, sws, level, fill, 0) == RenderSwitches(q1, sws[1..], level, fill, 1);
    assert RenderKeys(q, PlaceSwitches, treatment, fill, 0) == RenderKeys(q1, PlaceSwitches[1..], treatment, fill, 1);
  }
}
