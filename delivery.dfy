/** Next-question selection over the question catalog, both as the source does it (the
    rendered text is written into the shared catalog entry) and on a copy. */
module Delivery {
  import opened Wrappers
  import opened Questions
  import opened Sessions
  import opened Randomization
  import opened TextReplace
  import SurveyQuestions

  /** The index of the first catalog question whose signature is not among `done`:
      `reject { answered }.first`. */
  function FirstUnanswered(qs: seq<Question>, done: seq<string>): (r: Option<nat>)
    ensures r.None? <==> forall k :: 0 <= k < |qs| ==> qs[k].signature in done
    ensures r.Some? ==> r.value < |qs| && qs[r.value].signature !in done
                        && forall k :: 0 <= k < r.value ==> qs[k].signature in done
  {
    if qs == [] then None
    else if qs[0].signature !in done then Some(0)
    else match FirstUnanswered(qs[1..], done)
      case None => None
      case Some(k) => Some(k + 1)
  }

  /** `get_next_question` on a catalog that is left untouched: raise when the session
      is complete, raise when every catalog question is answered (the nil reaching the
      substitution), otherwise the first unanswered question with its texts rendered
      for the session. The catalog length is `NumTotalQuestions`. */
  function NextQuestion(catalog: seq<Question>, s: Session, fill: seq<string>): Result<Question, Fault>
  {
    if Completed(s, |catalog|) then Err(AlreadyCompleted)
    else match FirstUnanswered(catalog, AnsweredSignatures(s.answers))
      case None => Err(NoQuestionLeft)
      case Some(k) =>
        var r := Render(catalog[k], s.treatment, fill);
        if r.fault.Some? then Err(r.fault.value) else Ok(r.question)
  }

  /** The catalog after `get_next_question` as written: the selected entry is the very
      hash that substitution rewrites, so the rendered texts (or the part done before an
      exception) stay in the catalog. */
  function CatalogAfterNext(catalog: seq<Question>, s: Session, fill: seq<string>): (r: seq<Question>)
    ensures |r| == |catalog|
  {
    if Completed(s, |catalog|) then catalog
    else match FirstUnanswered(catalog, AnsweredSignatures(s.answers))
      case None => catalog
      case Some(k) => catalog[k := Render(catalog[k], s.treatment, fill).question]
  }

  /** What never changes in a catalog entry: identity, types, choices and switches. */
  predicate SameEntry(a: Question, b: Question)
  {
    && a.signature == b.signature
    && a.questionType == b.questionType
    && a.responseType == b.responseType
    && a.choices == b.choices
    && a.switches == b.switches
  }

  predicate SameEntries(a: seq<Question>, b: seq<Question>)
  {
    |a| == |b| && forall k :: 0 <= k < |a| ==> SameEntry(a[k], b[k])
  }

  /** The question catalog, `SurveyOrder.flatten`, whose entries are shared mutable
      hashes: substitution and the respondent-data lookup write into them. */
  class Catalog {
    var entries: seq<Question>
    /** The entries as declared, before any write. */
    ghost const declared: seq<Question>
    /** `FillInChars`. */
    const fill: seq<string>

    ghost predicate Valid()
      reads this
    {
      SameEntries(declared, entries)
    }

    constructor (order: seq<OrderEntry>, fill: seq<string>)
      ensures entries == declared == Flatten(order) && this.fill == fill
      ensures Valid()
    {
      entries := Flatten(order);
      declared := Flatten(order);
      this.fill := fill;
    }

    /** `get_next_question` as written: the result is the rendered catalog entry, which
        stays rendered in the catalog. */
    method GetNextQuestion(s: Session) returns (r: Result<Question, Fault>)
      requires Valid()
      modifies this
      ensures Valid()
      ensures r == NextQuestion(old(entries), s, fill)
      ensures entries == CatalogAfterNext(old(entries), s, fill)
      ensures var done := AnsweredSignatures(s.answers);
        r.Ok? ==> FirstUnanswered(declared, done).Some?
                  && r.value.signature == declared[FirstUnanswered(declared, done).value].signature
    {
      SameEntriesSelectSame(entries, declared, AnsweredSignatures(s.answers));
      if Completed(s, |entries|) {
        return Err(AlreadyCompleted);
      }
      var done := AnsweredSignatures(s.answers);
      var found := FirstUnanswered(entries, done);
      if found.None? {
        return Err(NoQuestionLeft);
      }
      var k := found.value;
      var q, fault := RenderRandomizationTexts(entries[k], s.treatment, fill);
      RenderCharacterized(entries[k], s.treatment, fill);
      entries := entries[k := q];
      if fault.Some? {
        return Err(fault.value);
      }
      return Ok(q);
    }

    /** The intended `get_next_question`: substitution works on a copy, so the catalog
        is not changed. */
    method NextQuestionFromCopy(s: Session) returns (r: Result<Question, Fault>)
      ensures r == NextQuestion(entries, s, fill)
    {
      if Completed(s, |entries|) {
        return Err(AlreadyCompleted);
      }
      var found := FirstUnanswered(entries, AnsweredSignatures(s.answers));
      if found.None? {
        return Err(NoQuestionLeft);
      }
      var q, fault := RenderRandomizationTexts(entries[found.value], s.treatment, fill);
      if fault.Some? {
        return Err(fault.value);
      }
      return Ok(q);
    }

    /** `question_object_with_respondent_data`: the catalog entry with the answer's
        signature, with the response, the position and the answer time written onto it;
        raises when no entry has that signature. */
    method QuestionObjectWithRespondentData(sq: Answer, i: Option<nat>) returns (r: Result<Question, Fault>)
      requires Valid()
      modifies this
      ensures Valid()
      ensures FindBySignature(old(entries), sq.signature).None? ==>
                r == Err(UnknownSignature(sq.signature)) && entries == old(entries)
      ensures FindBySignature(old(entries), sq.signature).Some? ==>
                var k := FindBySignature(old(entries), sq.signature).value;
                var q := old(entries)[k].(responses := Some(sq.responses), order := i, respondedAt := Some(sq.createdAt));
                r == Ok(q) && entries == old(entries)[k := q]
    {
      var found := FindBySignature(entries, sq.signature);
      if found.None? {
        return Err(UnknownSignature(sq.signature));
      }
      var k := found.value;
      var q := entries[k];
      q := q.(responses := Some(sq.responses));
      q := q.(order := i);
      q := q.(respondedAt := Some(sq.createdAt));
      entries := entries[k := q];
      return Ok(q);
    }
  }

  // ---------------------------------------------------------------- properties

  /** A delivered question is the first catalog question not yet answered, rendered: it
      has that entry's signature, types and choices, and every earlier entry is answered. */
  lemma NextIsFirstUnanswered(catalog: seq<Question>, s: Session, fill: seq<string>)
    ensures NextQuestion(catalog, s, fill).Ok? ==>
      exists k :: 0 <= k < |catalog|
        && catalog[k].signature !in AnsweredSignatures(s.answers)
        && (forall j :: 0 <= j < k ==> catalog[j].signature in AnsweredSignatures(s.answers))
        && NextQuestion(catalog, s, fill).value == Render(catalog[k], s.treatment, fill).question
        && OnlyTextsDiffer(catalog[k], NextQuestion(catalog, s, fill).value)
  {
    var found := FirstUnanswered(catalog, AnsweredSignatures(s.answers));
    if NextQuestion(catalog, s, fill).Ok? {
      RenderCharacterized(catalog[found.value], s.treatment, fill);
    }
  }

  /** The converse of `NextIsFirstUnanswered`: an unfinished session with an unanswered
      catalog question is delivered a question whenever the catalog renders cleanly. */
  lemma NextDeliversUnanswered(catalog: seq<Question>, s: Session, fill: seq<string>)
    requires !Completed(s, |catalog|)
    requires exists k :: 0 <= k < |catalog| && catalog[k].signature !in AnsweredSignatures(s.answers)
    requires forall k :: 0 <= k < |catalog| ==> Render(catalog[k], s.treatment, fill).fault.None?
    ensures NextQuestion(catalog, s, fill).Ok?
  {
  }

  /** On the survey's own catalog, an unfinished session with a drawn treatment and an
      unanswered question is always delivered one. */
  lemma CatalogDeliversUnanswered(fill: seq<string>, m: SurveyQuestions.Missing, s: Session)
    requires SurveyQuestions.MissingWellFormed(m, fill) && |fill| >= 1 && TreatmentDrawn(s.treatment)
    requires !Completed(s, |SurveyQuestions.AllQuestions(fill, m)|)
    requires exists k :: 0 <= k < |SurveyQuestions.AllQuestions(fill, m)|
               && SurveyQuestions.AllQuestions(fill, m)[k].signature !in AnsweredSignatures(s.answers)
    ensures NextQuestion(SurveyQuestions.AllQuestions(fill, m), s, fill).Ok?
  {
    CatalogRendersCleanly(fill, m, s.treatment);
    NextDeliversUnanswered(SurveyQuestions.AllQuestions(fill, m), s, fill);
  }

  /** Entries that agree on their signatures select the same first unanswered index. */
  lemma SameEntriesSelectSame(a: seq<Question>, b: seq<Question>, done: seq<string>)
    requires SameEntries(a, b)
    ensures FirstUnanswered(a, done) == FirstUnanswered(b, done)
  {
    var ra, rb := FirstUnanswered(a, done), FirstUnanswered(b, done);
    if ra.Some? && rb.Some? {
      assert a[rb.value].signature == b[rb.value].signature;
      assert a[ra.value].signature == b[ra.value].signature;
    }
  }

  /** The two selection errors: "already completed" exactly for a completed session,
      and no candidate exactly for an uncompleted session that has answered every
      catalog signature. */
  lemma NextQuestionErrors(catalog: seq<Question>, s: Session, fill: seq<string>)
    ensures NextQuestion(catalog, s, fill) == Err(AlreadyCompleted) <==> Completed(s, |catalog|)
    ensures NextQuestion(catalog, s, fill) == Err(NoQuestionLeft) <==>
      !Completed(s, |catalog|) &&
      forall k :: 0 <= k < |catalog| ==> catalog[k].signature in AnsweredSignatures(s.answers)
  {
    var found := FirstUnanswered(catalog, AnsweredSignatures(s.answers));
    if found.Some? {
      RenderCharacterized(catalog[found.value], s.treatment, fill);
    }
  }

  /** The signatures of `a` are exactly the strings in `names`. */
  predicate SignaturesAre(a: seq<Question>, names: seq<string>)
  {
    Elements(Signatures(a)) == Elements(names)
  }

  /** A session that has answered precisely the catalog's signatures is completed when
      no signature repeats, so selection raises "already completed"; with a repeated
      signature it is not completed and no question is left. */
  lemma AllAnsweredOutcome(catalog: seq<Question>, s: Session, fill: seq<string>)
    requires DistinctSignatures(catalog)
    requires SignaturesAre(catalog, AnsweredSignatures(s.answers))
    ensures !HasDuplicateQuestions(s) ==> NextQuestion(catalog, s, fill) == Err(AlreadyCompleted)
    ensures HasDuplicateQuestions(s) ==> NextQuestion(catalog, s, fill) == Err(NoQuestionLeft)
  {
    var sigs := Signatures(catalog);
    var done := AnsweredSignatures(s.answers);
    ElementsCount(sigs);
    ElementsCount(done);
    assert NoDuplicates(sigs);
    NextQuestionErrors(catalog, s, fill);
    forall k | 0 <= k < |catalog| ensures catalog[k].signature in done {
      assert sigs[k] in Elements(sigs);
    }
  }

  /** Selection as written keeps every entry's signature, types, choices and switches,
      and its length. */
  lemma CatalogAfterNextSame(catalog: seq<Question>, s: Session, fill: seq<string>)
    ensures SameEntries(catalog, CatalogAfterNext(catalog, s, fill))
  {
    var found := FirstUnanswered(catalog, AnsweredSignatures(s.answers));
    if !Completed(s, |catalog|) && found.Some? {
      RenderCharacterized(catalog[found.value], s.treatment, fill);
    }
  }

  /** Asking again without a new answer, even against the catalog the first call wrote
      into, delivers a question with the same signature and again succeeds; when the
      first rendering holds no placeholder, the second delivers the same question. */
  lemma NextQuestionRepeats(catalog: seq<Question>, s: Session, fill: seq<string>)
    requires NextQuestion(catalog, s, fill).Ok?
    ensures var again := NextQuestion(CatalogAfterNext(catalog, s, fill), s, fill);
      again.Ok? && again.value.signature == NextQuestion(catalog, s, fill).value.signature
    ensures var first := NextQuestion(catalog, s, fill);
      NoPlaceholderIn(first.value, fill) ==>
        NextQuestion(CatalogAfterNext(catalog, s, fill), s, fill) == first
  {
    var done := AnsweredSignatures(s.answers);
    var k := FirstUnanswered(catalog, done).value;
    var q := catalog[k];
    var q1 := Render(q, s.treatment, fill).question;
    var c1 := catalog[k := q1];
    RenderCharacterized(q, s.treatment, fill);
    RenderCharacterized(q1, s.treatment, fill);
    assert forall j :: 0 <= j < |catalog| ==> c1[j].signature == catalog[j].signature;
    assert FirstUnanswered(c1, done) == Some(k);
    if NoPlaceholderIn(q1, fill) {
      RenderIdentity(q1, s.treatment, fill);
    }
  }

  // ---------------------------------------------------------------- the aliasing finding

  /** A one-question catalog whose text holds the first placeholder under a `place`
      switch. */
  function PlaceCatalog(): seq<Question>
  {
    [Basic("place_example", Normal, FreeResponseSmall, "a " + "{0}").(switches := Some(SurveyQuestions.PlaceSwitches))]
  }

  function SessionAt(id: nat, level: Symbol): Session
  {
    Session(id, 5, map[SurveyQuestions.PlaceKey := level], None, 0, [])
  }

  lemma FreshSessionSelectsFirst(id: nat, level: Symbol)
    ensures !Completed(SessionAt(id, level), 1)
    ensures FirstUnanswered(PlaceCatalog(), AnsweredSignatures(SessionAt(id, level).answers)) == Some(0)
  {
  }

  const ExampleFill: seq<string> := ["{0}"]

  function RenderedPlaceQuestion(level: Symbol): Question
  {
    PlaceCatalog()[0].(text := "a " + (if level == SurveyQuestions.Fancy then SurveyQuestions.SodaFancyText
                                       else SurveyQuestions.SodaRunDownText))
  }

  lemma PlaceCatalogRenders(level: Symbol)
    requires level in {SurveyQuestions.RunDown, SurveyQuestions.Fancy}
    ensures Render(PlaceCatalog()[0], SessionAt(0, level).treatment, ExampleFill) ==
            Rendering(RenderedPlaceQuestion(level), 1, None)
  {
    PlaceExample("place_example", "{0}", level);
  }

  lemma FirstCallWritesBack(id: nat, level: Symbol)
    requires level in {SurveyQuestions.RunDown, SurveyQuestions.Fancy}
    ensures CatalogAfterNext(PlaceCatalog(), SessionAt(id, level), ExampleFill) == [RenderedPlaceQuestion(level)]
    ensures NextQuestion(PlaceCatalog(), SessionAt(id, level), ExampleFill) == Ok(RenderedPlaceQuestion(level))
  {
    FreshSessionSelectsFirst(id, level);
    PlaceCatalogRenders(level);
    assert SessionAt(id, level).treatment == SessionAt(0, level).treatment;
  }

  lemma RenderedCatalogIsFixed(id: nat, level: Symbol)
    requires level in {SurveyQuestions.RunDown, SurveyQuestions.Fancy}
    ensures NextQuestion([RenderedPlaceQuestion(SurveyQuestions.Fancy)], SessionAt(id, level), ExampleFill) ==
            Ok(RenderedPlaceQuestion(SurveyQuestions.Fancy))
  {
    var q1 := RenderedPlaceQuestion(SurveyQuestions.Fancy);
    var s := SessionAt(id, level);
    assert q1.text == "a fancy resort";
    assert NoPlaceholderIn(q1, ExampleFill);
    RenderIdentity(q1, s.treatment, ExampleFill);
    RenderCharacterized(q1, s.treatment, ExampleFill);
    assert KeyResolvable(q1.switches.value[0], s.treatment);
    assert AllResolvable(q1.switches.value, s.treatment);
    assert !Completed(s, 1);
    assert FirstUnanswered([q1], AnsweredSignatures(s.answers)) == Some(0);
  }

  /** As written, a session with `place: fancy` asks first and the rendered text stays
      in the catalog; a later session with `place: run_down` is then shown the fancy
      text, where on an untouched catalog it gets its own. */
  lemma SharedCatalogLeaksTreatment()
    ensures var c1 := CatalogAfterNext(PlaceCatalog(), SessionAt(1, SurveyQuestions.Fancy), ExampleFill);
      NextQuestion(c1, SessionAt(2, SurveyQuestions.RunDown), ExampleFill).Ok? &&
      NextQuestion(c1, SessionAt(2, SurveyQuestions.RunDown), ExampleFill).value.text == "a fancy resort"
    ensures NextQuestion(PlaceCatalog(), SessionAt(2, SurveyQuestions.RunDown), ExampleFill).Ok? &&
      NextQuestion(PlaceCatalog(), SessionAt(2, SurveyQuestions.RunDown), ExampleFill).value.text == "a run-down grocery store"
  {
    FirstCallWritesBack(1, SurveyQuestions.Fancy);
    FirstCallWritesBack(2, SurveyQuestions.RunDown);
    RenderedCatalogIsFixed(2, SurveyQuestions.RunDown);
  }
}
