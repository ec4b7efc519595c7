/** Building the list of experimental runs for new HITs, and the new session record
    each run gets. */
module HitCreation {
  import opened Wrappers
  import opened Questions
  import opened SurveyQuestions
  import opened Sessions
  import Randomization

  /** `n.times { arr << x }`: `n` copies, none when `n` is zero or negative. */
  function Repeat<T>(x: T, n: int): (r: seq<T>)
    ensures |r| == (if n <= 0 then 0 else n)
  {
    seq(if n <= 0 then 0 else n, _ => x)
  }

  lemma RepeatCount<T>(x: T, n: int, y: T)
    ensures multiset(Repeat(x, n))[y] == if x == y && n > 0 then n else 0
    ensures forall i :: 0 <= i < |Repeat(x, n)| ==> Repeat(x, n)[i] == x
  {
    if n > 0 {
      RepeatCountNat(x, n, y);
    }
  }

  lemma {:induction false} RepeatCountNat<T>(x: T, n: nat, y: T)
    ensures multiset(Repeat(x, n))[y] == if x == y then n else 0
  {
    if n > 0 {
      RepeatCountNat(x, n - 1, y);
      assert Repeat(x, n) == Repeat(x, n - 1) + [x];
    } else {
      assert Repeat(x, n) == [];
    }
  }

  /** `n.times { runs << run }` on an accumulator. */
  method AppendTimes(runs: seq<Symbol>, run: Symbol, n: int) returns (r: seq<Symbol>)
    ensures r == runs + Repeat(run, n)
  {
    r := runs;
    var c := 0;
    while c < n
      invariant 0 <= c && (n > 0 ==> c <= n) && (n <= 0 ==> c == 0)
      invariant r == runs + Repeat(run, c)
    {
      assert Repeat(run, c + 1) == Repeat(run, c) + [run];
      r := r + [run];
      c := c + 1;
    }
    assert Repeat(run, c) == Repeat(run, n);
  }

  /** The runs `create_n_hit_sets` posts (before shuffling). */
  function HitSets(n: int): seq<Symbol>
  {
    Repeat(Control, n) + Repeat(Exhortation, n) + Repeat(Timing, n) + Repeat(Kapcha, n)
  }

  /** `create_n_hit_sets`, run-list part: `n` controls, then `n` exhortations, `n`
      timings and `n` KapCha runs. */
  method CreateNHitSets(n: int) returns (runs: seq<Symbol>)
    ensures runs == HitSets(n)
  {
    runs := [];
    runs := AppendTimes(runs, Control, n);
    runs := AppendTimes(runs, Exhortation, n);
    runs := AppendTimes(runs, Timing, n);
    runs := AppendTimes(runs, Kapcha, n);
  }

  /** The four experimental runs, in the order `create_hits` walks them. */
  const CreateHitsOrder: seq<Symbol> := [Control, Kapcha, Timing, Exhortation]

  /** `params["n_<run>"].to_i`, with an absent parameter read as 0. */
  function RequestedCount(counts: map<Symbol, int>, run: Symbol): int
  {
    if run in counts then counts[run] else 0
  }

  /** The accumulated list after the first runs of `order`. */
  function RunList(order: seq<Symbol>, counts: map<Symbol, int>): seq<Symbol>
  {
    if order == [] then []
    else RunList(order[..|order| - 1], counts) + Repeat(order[|order| - 1], RequestedCount(counts, order[|order| - 1]))
  }

  /** `create_hits`, run-list part: the `inject` over the four runs. */
  method CreateHitsRunList(counts: map<Symbol, int>) returns (runs: seq<Symbol>)
    ensures runs == RunList(CreateHitsOrder, counts)
  {
    runs := [];
    var k := 0;
    while k < |CreateHitsOrder|
      invariant 0 <= k <= |CreateHitsOrder|
      invariant runs == RunList(CreateHitsOrder[..k], counts)
    {
      var run := CreateHitsOrder[k];
      assert CreateHitsOrder[..k + 1][..k] == CreateHitsOrder[..k];
      runs := AppendTimes(runs, run, RequestedCount(counts, run));
      k := k + 1;
    }
    assert CreateHitsOrder[..|CreateHitsOrder|] == CreateHitsOrder;
  }

  // ---------------------------------------------------------------- properties

  lemma {:induction false} RunListCount(order: seq<Symbol>, counts: map<Symbol, int>, y: Symbol)
    requires NoDuplicates(order)
    ensures multiset(RunList(order, counts))[y] ==
      if y in order && RequestedCount(counts, y) > 0 then RequestedCount(counts, y) else 0
    decreases |order|
  {
    if order != [] {
      var init, last := order[..|order| - 1], order[|order| - 1];
      assert NoDuplicates(init) by {
        forall i, j | 0 <= i < j < |init| ensures init[i] != init[j] {
          assert init[i] == order[i] && init[j] == order[j];
        }
      }
      RunListCount(init, counts, y);
      RepeatCount(last, RequestedCount(counts, last), y);
      assert order == init + [last];
      assert y in order <==> y in init || y == last;
      if y == last {
        assert y !in init by {
          forall i | 0 <= i < |init| ensures init[i] != y {
            assert init[i] == order[i];
          }
        }
      }
    }
  }

  /** The run list holds exactly the requested number of each run (none for a missing
      or non-positive count) and nothing else; shuffling it keeps those numbers. */
  lemma CreateHitsCounts(counts: map<Symbol, int>, shuffled: seq<Symbol>, y: Symbol)
    requires multiset(shuffled) == multiset(RunList(CreateHitsOrder, counts))
    ensures multiset(shuffled)[y] ==
      if y in CreateHitsOrder && RequestedCount(counts, y) > 0 then RequestedCount(counts, y) else 0
  {
    RunListCount(CreateHitsOrder, counts, y);
  }

  /** `create_n_hit_sets` posts `max(n, 0)` HITs of each of the four runs. */
  lemma HitSetsCounts(n: int, y: Symbol)
    ensures |HitSets(n)| == 4 * (if n > 0 then n else 0)
    ensures multiset(HitSets(n))[y] == if y in {Control, Exhortation, Timing, Kapcha} && n > 0 then n else 0
  {
    RepeatCount(Control, n, y);
    RepeatCount(Exhortation, n, y);
    RepeatCount(Timing, n, y);
    RepeatCount(Kapcha, n, y);
  }

  // ---------------------------------------------------------------- new sessions

  /** `DEFAULT_SURVEY_HIT_LIFETIME`, six hours in seconds. */
  const DefaultSurveyHitLifetime: int := 60 * 60 * 6

  /** The treatment a session gets: its run, then one drawn choice per randomised
      dimension, in order. */
  function TreatmentFrom(run: Symbol, drawn: seq<Symbol>, d: nat): map<Symbol, Symbol>
    requires d <= |drawn| && d <= |RandomizedTreatments|
  {
    if d == 0 then map[RunKey := run]
    else TreatmentFrom(run, drawn, d - 1)[RandomizedTreatments[d - 1].key := drawn[d - 1]]
  }

  /** The record `create_survey_hit_and_post_it` saves for one run: current version,
      expiring six hours after `now`, not started, no answers. */
  function SessionFor(id: nat, run: Symbol, now: int, drawn: seq<Symbol>): Session
    requires |drawn| == |RandomizedTreatments|
  {
    Session(id, CurrentExperimentalVersionNo, TreatmentFrom(run, drawn, |RandomizedTreatments|),
            None, now + DefaultSurveyHitLifetime, [])
  }

  /** One iteration of `create_survey_hit_and_post_it`: the treatment is filled in a
      loop, run first. `drawn[d]` stands for `randomly_sample_one` on dimension `d`. */
  method NewSession(id: nat, run: Symbol, now: int, drawn: seq<Symbol>) returns (s: Session)
    requires |drawn| == |RandomizedTreatments|
    ensures s == SessionFor(id, run, now, drawn)
  {
    var treatment: map<Symbol, Symbol> := map[];
    treatment := treatment[RunKey := run];
    var d := 0;
    while d < |RandomizedTreatments|
      invariant 0 <= d <= |RandomizedTreatments|
      invariant treatment == TreatmentFrom(run, drawn, d)
    {
      treatment := treatment[RandomizedTreatments[d].key := drawn[d]];
      d := d + 1;
    }
    s := Session(id, CurrentExperimentalVersionNo, treatment, None, now + DefaultSurveyHitLifetime, []);
  }

  /** `create_survey_hit_and_post_it`: one new session per run of the (already
      shuffled) list, in list order; ids, creation times and draws are supplied. */
  method CreateSurveyHits(runs: seq<Symbol>, ids: seq<nat>, nows: seq<int>, draws: seq<seq<Symbol>>)
    returns (sessions: seq<Session>)
    requires |ids| == |runs| && |nows| == |runs| && |draws| == |runs|
    requires forall k :: 0 <= k < |draws| ==> |draws[k]| == |RandomizedTreatments|
    ensures |sessions| == |runs|
    ensures forall k :: 0 <= k < |runs| ==> sessions[k] == SessionFor(ids[k], runs[k], nows[k], draws[k])
    ensures forall k :: 0 <= k < |runs| ==> RunOf(sessions[k]) == Some(runs[k])
  {
    sessions := [];
    var k := 0;
    while k < |runs|
      invariant 0 <= k <= |runs| && |sessions| == k
      invariant forall j :: 0 <= j < k ==> sessions[j] == SessionFor(ids[j], runs[j], nows[j], draws[j])
      invariant forall j :: 0 <= j < k ==> RunOf(sessions[j]) == Some(runs[j])
    {
      var s := NewSession(ids[k], runs[k], nows[k], draws[k]);
      TreatmentFromContents(runs[k], draws[k], |RandomizedTreatments|);
      sessions := sessions + [s];
      k := k + 1;
    }
  }

  lemma {:induction false} TreatmentFromContents(run: Symbol, drawn: seq<Symbol>, d: nat)
    requires d <= |drawn| && d <= |RandomizedTreatments|
    ensures TreatmentFrom(run, drawn, d).Keys == {RunKey} + set e | 0 <= e < d :: RandomizedTreatments[e].key
    ensures TreatmentFrom(run, drawn, d)[RunKey] == run
    ensures forall e :: 0 <= e < d ==> TreatmentFrom(run, drawn, d)[RandomizedTreatments[e].key] == drawn[e]
  {
    RandomizedTreatmentsWellFormed();
    if d > 0 {
      TreatmentFromContents(run, drawn, d - 1);
      var t := TreatmentFrom(run, drawn, d);
      assert t.Keys == TreatmentFrom(run, drawn, d - 1).Keys + {RandomizedTreatments[d - 1].key};
      assert (set e | 0 <= e < d :: RandomizedTreatments[e].key) ==
             (set e | 0 <= e < d - 1 :: RandomizedTreatments[e].key) + {RandomizedTreatments[d - 1].key};
    }
  }

  /** A new session is of the run it was created for, holds one level per randomised
      dimension, is listed as current-version, is not expired and not started. When each
      drawn level is one of its dimension's choices, substitution never raises on any
      catalog question and the session has a default bonus. */
  lemma NewSessionProperties(id: nat, run: Symbol, now: int, drawn: seq<Symbol>,
                             fill: seq<string>, m: Missing)
    requires |drawn| == |RandomizedTreatments|
    ensures var s := SessionFor(id, run, now, drawn);
      && RunOf(s) == Some(run)
      && s.treatment.Keys == {RunKey, PlaceKey, TicketPriceKey, BonusKey}
      && (forall d :: 0 <= d < |RandomizedTreatments| ==> s.treatment[RandomizedTreatments[d].key] == drawn[d])
      && s.version in ExperimentalVersionsToShow
      && !Expired(s, now) && DidNotReadDirectionsYet(s)
      && !HasDuplicateQuestions(s)
    ensures var s := SessionFor(id, run, now, drawn);
      (forall d :: 0 <= d < |RandomizedTreatments| ==> drawn[d] in RandomizedTreatments[d].choices) ==>
        && Randomization.TreatmentDrawn(s.treatment)
        && DefaultBonusCents(s).Some?
        && (MissingWellFormed(m, fill) && |fill| >= 1 ==>
              forall k :: 0 <= k < |AllQuestions(fill, m)| ==>
                Randomization.Render(AllQuestions(fill, m)[k], s.treatment, fill).fault.None?)
  {
    var n := |RandomizedTreatments|;
    TreatmentFromContents(run, drawn, n);
    var s := SessionFor(id, run, now, drawn);
    assert (set e | 0 <= e < n :: RandomizedTreatments[e].key) == {PlaceKey, TicketPriceKey, BonusKey} by {
      assert RandomizedTreatments[0].key == PlaceKey;
      assert RandomizedTreatments[1].key == TicketPriceKey;
      assert RandomizedTreatments[2].key == BonusKey;
    }
    assert AnsweredSignatures(s.answers) == [];
    assert Elements<string>([]) == {};
    if forall d :: 0 <= d < n ==> drawn[d] in RandomizedTreatments[d].choices {
      assert s.treatment[BonusKey] == drawn[2];
      DefaultBonusLevels(s);
      if MissingWellFormed(m, fill) && |fill| >= 1 {
        Randomization.CatalogRendersCleanly(fill, m, s.treatment);
      }
    }
  }
}
