/** The admin listings: each action is a chain of `select`/`reject` filters over the
    stored sessions, with the clock and the number of catalog questions passed in. */
module AdminReports {
  import opened Wrappers
  import opened Questions
  import opened SurveyQuestions
  import opened Sessions

  /** `select`: the elements satisfying `p`, in their order. */
  function Filter<T(!new)>(xs: seq<T>, p: T -> bool): (r: seq<T>)
    ensures |r| <= |xs|
    ensures forall x :: x in r <==> x in xs && p(x)
    ensures multiset(r) <= multiset(xs)
    ensures forall x :: multiset(r)[x] == if p(x) then multiset(xs)[x] else 0
    decreases |xs|
  {
    if xs == [] then []
    else
      var rest := Filter(xs[1..], p);
      assert xs == [xs[0]] + xs[1..];
      if p(xs[0]) then [xs[0]] + rest else rest
  }

  lemma AppendAssoc<T>(x: seq<T>, y: seq<T>, z: seq<T>)
    ensures x + (y + z) == (x + y) + z
  {
  }

  lemma FilterCons<T(!new)>(xs: seq<T>, p: T -> bool)
    requires xs != []
    ensures Filter(xs, p) == (if p(xs[0]) then [xs[0]] else []) + Filter(xs[1..], p)
  {
  }

  /** `select` keeps the order: filtering a concatenation filters each part. */
  lemma {:induction false} FilterAppend<T(!new)>(a: seq<T>, b: seq<T>, p: T -> bool)
    ensures Filter(a + b, p) == Filter(a, p) + Filter(b, p)
    decreases |a|
  {
    if a == [] {
      assert a + b == b;
    } else {
      var ab := a + b;
      assert ab[0] == a[0] && ab[1..] == a[1..] + b;
      FilterCons(ab, p);
      FilterCons(a, p);
      var head := if p(a[0]) then [a[0]] else [];
      var fa, fb := Filter(a[1..], p), Filter(b, p);
      FilterAppend(a[1..], b, p);
      assert Filter(ab, p) == head + (fa + fb);
      AppendAssoc(head, fa, fb);
    }
  }

  /** Two filters in a row are one filter on the conjunction. */
  lemma {:induction false} FilterFilter<T(!new)>(xs: seq<T>, p: T -> bool, q: T -> bool)
    ensures Filter(Filter(xs, p), q) == Filter(xs, x => p(x) && q(x))
    decreases |xs|
  {
    if xs != [] {
      FilterFilter(xs[1..], p, q);
    }
  }

  predicate CurrentVersion(s: Session)
  {
    s.version in ExperimentalVersionsToShow
  }

  /** `s.treatment[:run] == run`. */
  predicate HasRun(s: Session, run: Symbol)
  {
    RunOf(s) == Some(run)
  }

  /** The optional `params[:treatment]` narrowing. */
  function NarrowToRun(ss: seq<Session>, treatment: Option<Symbol>): seq<Session>
  {
    if treatment.Some? then Filter(ss, s => HasRun(s, treatment.value)) else ss
  }

  /** `Survey.all_current_experimental_version`. */
  function AllCurrentExperimentalVersion(db: seq<Session>, now: int, total: nat): seq<Session>
  {
    Filter(Filter(db, CurrentVersion), s => !ExpiredAndUncompleted(s, now, total))
  }

  /** `Survey.all_current_experimental_version_with_abandons`. */
  function AllCurrentWithAbandons(db: seq<Session>): seq<Session>
  {
    Filter(Filter(db, CurrentVersion), s => !HasDuplicateQuestions(s))
  }

  /** `Survey.all_current_experimental_version_completed`. */
  function AllCurrentCompleted(db: seq<Session>, now: int, total: nat): seq<Session>
  {
    Filter(AllCurrentExperimentalVersion(db, now, total), s => Completed(s, total))
  }

  /** `index`: `completed` is whether that parameter is present. */
  function Index(db: seq<Session>, now: int, total: nat, completed: bool, treatment: Option<Symbol>): seq<Session>
  {
    var current := AllCurrentExperimentalVersion(db, now, total);
    var kept := if completed then Filter(current, s => Completed(s, total)) else current;
    NarrowToRun(kept, treatment)
  }

  /** `investigate_attrition`. */
  function InvestigateAttrition(db: seq<Session>, now: int, total: nat, treatment: Option<Symbol>): seq<Session>
  {
    var deserted := Filter(Filter(db, s => ExpiredAndUncompleted(s, now, total)), s => !DidNotReadDirectionsYet(s));
    NarrowToRun(deserted, treatment)
  }

  /** `buggy_hits`. */
  function BuggyHits(db: seq<Session>, treatment: Option<Symbol>): seq<Session>
  {
    NarrowToRun(Filter(db, HasDuplicateQuestions), treatment)
  }

  function Ids(ss: seq<Session>): set<nat>
  {
    set s | s in ss :: s.id
  }

  /** `dashboard`'s completed list and abandoned list; `include?` on records compares
      them by id. */
  function DashboardLists(db: seq<Session>, now: int, total: nat): (seq<Session>, seq<Session>)
  {
    var completed := AllCurrentCompleted(db, now, total);
    var abandoned := Filter(Filter(AllCurrentWithAbandons(db), (s: Session) => s.id !in Ids(completed)),
                            s => !DidNotReadDirectionsYet(s));
    (completed, abandoned)
  }

  // ---------------------------------------------------------------- listing properties

  /** The `index` listing keeps exactly the current-version sessions that are not
      expired-and-uncompleted, further restricted to completed ones and to one run when
      those parameters are given. */
  lemma IndexCharacterized(db: seq<Session>, now: int, total: nat, completed: bool, treatment: Option<Symbol>)
    ensures |Index(db, now, total, completed, treatment)| <= |db|
    ensures forall s :: s in Index(db, now, total, completed, treatment) <==>
      && s in db && CurrentVersion(s) && !ExpiredAndUncompleted(s, now, total)
      && (completed ==> Completed(s, total))
      && (treatment.Some? ==> RunOf(s) == treatment)
  {
  }

  /** `investigate_attrition` keeps exactly the expired, uncompleted sessions that read
      the directions, of the given run if one is given. */
  lemma InvestigateAttritionCharacterized(db: seq<Session>, now: int, total: nat, treatment: Option<Symbol>)
    ensures forall s :: s in InvestigateAttrition(db, now, total, treatment) <==>
      && s in db && now > s.toBeExpiredAt && !Completed(s, total) && s.readDirectionsAt.Some?
      && (treatment.Some? ==> RunOf(s) == treatment)
  {
  }

  /** `buggy_hits` keeps exactly the sessions with a repeated answer signature, of the
      given run if one is given. */
  lemma BuggyHitsCharacterized(db: seq<Session>, treatment: Option<Symbol>)
    ensures forall s :: s in BuggyHits(db, treatment) <==>
      && s in db
      && (exists i, j :: 0 <= i < j < |s.answers| && s.answers[i].signature == s.answers[j].signature)
      && (treatment.Some? ==> RunOf(s) == treatment)
  {
    forall s {
      HasDuplicateQuestionsIff(s);
    }
  }

  /** Stored sessions are identified by their ids. */
  predicate UniqueIds(db: seq<Session>)
  {
    forall i, j :: 0 <= i < |db| && 0 <= j < |db| && db[i].id == db[j].id ==> db[i] == db[j]
  }

  /** The completed list holds exactly the completed current-version sessions. */
  lemma CompletedListMembers(db: seq<Session>, now: int, total: nat)
    ensures forall s :: s in AllCurrentCompleted(db, now, total) <==> s in db && CurrentVersion(s) && Completed(s, total)
  {
  }

  /** The abandoned list with its three filters spelled out. */
  lemma AbandonedListMembers(db: seq<Session>, now: int, total: nat)
    ensures forall s :: s in DashboardLists(db, now, total).1 <==>
      && s in db && CurrentVersion(s) && !HasDuplicateQuestions(s)
      && s.id !in Ids(AllCurrentCompleted(db, now, total)) && s.readDirectionsAt.Some?
  {
  }

  /** The dashboard lists: nothing abandoned shares an id with a completed session, and
      every abandoned session has started and is not completed. */
  lemma DashboardDisjoint(db: seq<Session>, now: int, total: nat)
    ensures forall s, c :: s in DashboardLists(db, now, total).1 && c in DashboardLists(db, now, total).0 ==> s.id != c.id
    ensures forall s :: s in DashboardLists(db, now, total).1 ==> s.readDirectionsAt.Some? && !Completed(s, total)
  {
    var completed := AllCurrentCompleted(db, now, total);
    AbandonedListMembers(db, now, total);
    CompletedListMembers(db, now, total);
    forall s, c | s in DashboardLists(db, now, total).1 && c in completed ensures s.id != c.id {
      assert c.id in Ids(completed);
    }
    forall s | s in DashboardLists(db, now, total).1 ensures !Completed(s, total) {
      assert Completed(s, total) ==> s in completed;
      assert s in completed ==> s.id in Ids(completed);
    }
  }

  /** With unique ids, the abandoned list is exactly the current-version, started,
      duplicate-free, uncompleted sessions, expired or not: sessions still in progress
      count as abandoned. */
  lemma DashboardAbandonedExact(db: seq<Session>, now: int, total: nat)
    requires UniqueIds(db)
    ensures forall s :: s in DashboardLists(db, now, total).1 <==>
      s in db && CurrentVersion(s) && s.readDirectionsAt.Some? && !HasDuplicateQuestions(s) && !Completed(s, total)
  {
    var completed := AllCurrentCompleted(db, now, total);
    AbandonedListMembers(db, now, total);
    CompletedListMembers(db, now, total);
    DashboardDisjoint(db, now, total);
    forall s | s in db && CurrentVersion(s) && s.readDirectionsAt.Some? && !HasDuplicateQuestions(s) && !Completed(s, total)
      ensures s.id !in Ids(completed)
    {
      var i :| 0 <= i < |db| && db[i] == s;
      forall c | c in completed ensures c.id != s.id {
        var j :| 0 <= j < |db| && db[j] == c;
        assert db[j] != db[i];
      }
    }
  }

  // ---------------------------------------------------------------- separate_data_by_treatment

  /** One list per experimental run (`@controls`, `@exhortations`, `@timings`,
      `@kapchas` and their variants). */
  datatype RunBuckets = RunBuckets(controls: seq<Session>, exhortations: seq<Session>,
                                   timings: seq<Session>, kapchas: seq<Session>)
  {
    /** `@all_…`: the four buckets concatenated. */
    function All(): seq<Session>
    {
      controls + exhortations + timings + kapchas
    }
  }

  function ByRun(ss: seq<Session>): RunBuckets
  {
    RunBuckets(Filter(ss, s => HasRun(s, Control)), Filter(ss, s => HasRun(s, Exhortation)),
               Filter(ss, s => HasRun(s, Timing)), Filter(ss, s => HasRun(s, Kapcha)))
  }

  function Narrow(b: RunBuckets, p: Session -> bool): RunBuckets
  {
    RunBuckets(Filter(b.controls, p), Filter(b.exhortations, p), Filter(b.timings, p), Filter(b.kapchas, p))
  }

  /** `s.treatment[key] == level`. */
  predicate HasLevel(s: Session, key: Symbol, level: Symbol)
  {
    key in s.treatment && s.treatment[key] == level
  }

  /** The buckets for one list: by run, and by run and one level of `place` or
      `ticket_price`. */
  datatype Breakdown = Breakdown(byRun: RunBuckets, fancy: RunBuckets, rundown: RunBuckets,
                                 free: RunBuckets, paid: RunBuckets)

  function BreakdownOf(ss: seq<Session>): Breakdown
  {
    var b := ByRun(ss);
    Breakdown(b, Narrow(b, s => HasLevel(s, PlaceKey, Fancy)), Narrow(b, s => HasLevel(s, PlaceKey, RunDown)),
              Narrow(b, s => HasLevel(s, TicketPriceKey, Free)), Narrow(b, s => HasLevel(s, TicketPriceKey, Paid)))
  }

  /** The instance variables `separate_data_by_treatment` sets: the completed breakdown
      and, when an abandoned list is given, the abandoned one. */
  datatype Separated = Separated(completed: Breakdown, abandoned: Option<Breakdown>)

  /** `separate_data_by_treatment` as written: the run-down, free and paid "abandoned"
      buckets are narrowed from the completed run buckets. */
  function SeparateDataByTreatmentAsWritten(completed: seq<Session>, abandoned: Option<seq<Session>>): Separated
  {
    var c := BreakdownOf(completed);
    match abandoned
    case None => Separated(c, None)
    case Some(ab) =>
      var a := BreakdownOf(ab);
      Separated(c, Some(Breakdown(a.byRun, a.fancy, c.rundown, c.free, c.paid)))
  }

  /** `separate_data_by_treatment` as intended: every abandoned bucket is narrowed from
      the abandoned run buckets. */
  function SeparateDataByTreatment(completed: seq<Session>, abandoned: Option<seq<Session>>): Separated
  {
    Separated(BreakdownOf(completed), if abandoned.Some? then Some(BreakdownOf(abandoned.value)) else None)
  }

  predicate OfExperimentalRun(s: Session)
  {
    RunOf(s) in {Some(Control), Some(Exhortation), Some(Timing), Some(Kapcha)}
  }

  /** The four run buckets are disjoint, so together they hold each experimental-run
      session exactly as often as the list does. */
  lemma ByRunCount(ss: seq<Session>)
    ensures multiset(ByRun(ss).All()) == multiset(Filter(ss, OfExperimentalRun))
  {
    var b := ByRun(ss);
    var e := Filter(ss, OfExperimentalRun);
    forall x ensures multiset(b.All())[x] == multiset(e)[x] {
      calc {
        multiset(b.All())[x];
        multiset(b.controls)[x] + multiset(b.exhortations)[x] + multiset(b.timings)[x] + multiset(b.kapchas)[x];
        (if HasRun(x, Control) then multiset(ss)[x] else 0) + (if HasRun(x, Exhortation) then multiset(ss)[x] else 0)
          + (if HasRun(x, Timing) then multiset(ss)[x] else 0) + (if HasRun(x, Kapcha) then multiset(ss)[x] else 0);
        multiset(e)[x];
      }
    }
  }

  lemma ByRunMembers(ss: seq<Session>)
    ensures forall s :: s in ByRun(ss).All() <==> s in ss && OfExperimentalRun(s)
    ensures |ByRun(ss).All()| == |Filter(ss, OfExperimentalRun)|
  {
    var b := ByRun(ss);
    ByRunCount(ss);
    forall s ensures s in b.All() <==> s in ss && OfExperimentalRun(s) {
      assert s in b.All() <==> s in b.controls || s in b.exhortations || s in b.timings || s in b.kapchas;
    }
  }

  lemma NarrowMembers(b: RunBuckets, p: Session -> bool)
    ensures forall s :: s in Narrow(b, p).All() <==> s in b.All() && p(s)
    ensures |Narrow(b, p).All()| <= |b.All()|
  {
    var n := Narrow(b, p);
    forall s ensures s in n.All() <==> s in b.All() && p(s) {
      assert s in n.All() <==> s in n.controls || s in n.exhortations || s in n.timings || s in n.kapchas;
      assert s in b.All() <==> s in b.controls || s in b.exhortations || s in b.timings || s in b.kapchas;
    }
  }

  /** Each `@all_…` bucket of a breakdown holds exactly the sessions of the list that
      have one of the four runs and the bucket's level. */
  lemma BreakdownMembers(ss: seq<Session>)
    ensures forall s :: s in BreakdownOf(ss).byRun.All() <==> s in ss && OfExperimentalRun(s)
    ensures forall s :: s in BreakdownOf(ss).fancy.All() <==> s in ss && OfExperimentalRun(s) && HasLevel(s, PlaceKey, Fancy)
    ensures forall s :: s in BreakdownOf(ss).rundown.All() <==> s in ss && OfExperimentalRun(s) && HasLevel(s, PlaceKey, RunDown)
    ensures forall s :: s in BreakdownOf(ss).free.All() <==> s in ss && OfExperimentalRun(s) && HasLevel(s, TicketPriceKey, Free)
    ensures forall s :: s in BreakdownOf(ss).paid.All() <==> s in ss && OfExperimentalRun(s) && HasLevel(s, TicketPriceKey, Paid)
  {
    var b := ByRun(ss);
    ByRunMembers(ss);
    NarrowMembers(b, s => HasLevel(s, PlaceKey, Fancy));
    NarrowMembers(b, s => HasLevel(s, PlaceKey, RunDown));
    NarrowMembers(b, s => HasLevel(s, TicketPriceKey, Free));
    NarrowMembers(b, s => HasLevel(s, TicketPriceKey, Paid));
  }

  /** As intended, every abandoned bucket holds only abandoned sessions, and the two
      place buckets (and the two price buckets) never share a session. */
  lemma SeparatedAbandonedFromAbandoned(completed: seq<Session>, abandoned: seq<Session>)
    ensures var a := SeparateDataByTreatment(completed, Some(abandoned)).abandoned.value;
      && (forall s :: s in a.byRun.All() ==> s in abandoned)
      && (forall s :: s in a.fancy.All() || s in a.rundown.All() || s in a.free.All() || s in a.paid.All() ==> s in abandoned)
      && (forall s :: !(s in a.fancy.All() && s in a.rundown.All()))
      && (forall s :: !(s in a.free.All() && s in a.paid.All()))
  {
    BreakdownMembers(abandoned);
  }

  /** As written, the run-down, free and paid "abandoned" buckets are the completed
      buckets themselves. */
  lemma AsWrittenAbandonedAreCompleted(completed: seq<Session>, abandoned: seq<Session>)
    ensures var r := SeparateDataByTreatmentAsWritten(completed, Some(abandoned));
      && r.abandoned.value.rundown == r.completed.rundown
      && r.abandoned.value.free == r.completed.free
      && r.abandoned.value.paid == r.completed.paid
      && r.abandoned.value.fancy == SeparateDataByTreatment(completed, Some(abandoned)).abandoned.value.fancy
  {
  }

  function ExampleCompleted(): Session
  {
    Session(1, 5, map[RunKey := Control, PlaceKey := RunDown, TicketPriceKey := Free, BonusKey := Zero], Some(0), 0, [])
  }

  /** With one completed control session at the run-down place and no abandoned
      session, the dashboard as written lists that session as a run-down abandoned
      control; as intended that bucket is empty. */
  lemma AsWrittenListsCompletedAsAbandoned()
    ensures SeparateDataByTreatmentAsWritten([ExampleCompleted()], Some([])).abandoned.value.rundown.controls == [ExampleCompleted()]
    ensures SeparateDataByTreatment([ExampleCompleted()], Some([])).abandoned.value.rundown.controls == []
  {
    var s := ExampleCompleted();
    assert HasRun(s, Control) && HasLevel(s, PlaceKey, RunDown);
    assert Filter([s], x => HasRun(x, Control)) == [s];
  }

  /** The dashboard as the source builds it. */
  function Dashboard(db: seq<Session>, now: int, total: nat): Separated
  {
    var (completed, abandoned) := DashboardLists(db, now, total);
    SeparateDataByTreatmentAsWritten(completed, Some(abandoned))
  }

  /** The dashboard as intended: every abandoned bucket holds only abandoned sessions,
      which have started and are not completed. */
  function DashboardCorrected(db: seq<Session>, now: int, total: nat): (r: Separated)
    ensures r.abandoned.Some?
    ensures forall s :: s in r.abandoned.value.byRun.All() ==> s.readDirectionsAt.Some? && !Completed(s, total)
    ensures forall s :: s in r.abandoned.value.rundown.All() || s in r.abandoned.value.free.All()
                        || s in r.abandoned.value.paid.All() || s in r.abandoned.value.fancy.All() ==>
              s.readDirectionsAt.Some? && !Completed(s, total)
  {
    var (completed, abandoned) := DashboardLists(db, now, total);
    DashboardDisjoint(db, now, total);
    SeparatedAbandonedFromAbandoned(completed, abandoned);
    SeparateDataByTreatment(completed, Some(abandoned))
  }
}
