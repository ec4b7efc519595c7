/** A survey session (one respondent's attempt) as a plain record, and the predicates
    that classify it: duplicates, completion, expiry, KapCha controls, default bonus. */
module Sessions {
  import opened Wrappers
  import opened Questions
  import opened SurveyQuestions

  /** One stored `survey_questions` row: the signature answered, the response, and its
      creation time. */
  datatype Answer = Answer(signature: string, responses: string, createdAt: int)

  /** The persisted survey record. Times are integers on one clock (seconds). */
  datatype Session = Session(
    id: nat,
    version: int,
    treatment: map<Symbol, Symbol>,
    readDirectionsAt: Option<int>,
    toBeExpiredAt: int,
    answers: seq<Answer>)

  /** `survey_questions.map { |q| q.signature }`. */
  function AnsweredSignatures(answers: seq<Answer>): (r: seq<string>)
    ensures |r| == |answers| && forall i :: 0 <= i < |answers| ==> r[i] == answers[i].signature
  {
    if answers == [] then [] else [answers[0].signature] + AnsweredSignatures(answers[1..])
  }

  /** The distinct elements of a list (Ruby's `uniq`, ignoring order). */
  function Elements<T>(xs: seq<T>): set<T>
  {
    set x | x in xs
  }

  predicate NoDuplicates<T(==)>(xs: seq<T>)
  {
    forall i, j :: 0 <= i < j < |xs| ==> xs[i] != xs[j]
  }

  /** A list has at most as many distinct elements as entries, and exactly as many iff
      no element repeats. */
  lemma {:induction false} ElementsCount<T>(xs: seq<T>)
    ensures |Elements(xs)| <= |xs|
    ensures |Elements(xs)| == |xs| <==> NoDuplicates(xs)
  {
    if xs == [] {
      assert Elements(xs) == {};
    } else {
      var t := xs[1..];
      ElementsCount(t);
      assert Elements(xs) == {xs[0]} + Elements(t);
      if xs[0] in t {
        assert Elements(xs) == Elements(t);
        var j :| 0 <= j < |t| && t[j] == xs[0];
        assert xs[0] == xs[j + 1];
      } else {
        assert |Elements(xs)| == |Elements(t)| + 1;
        if NoDuplicates(t) {
          forall i, j | 0 <= i < j < |xs| ensures xs[i] != xs[j] {
            if i == 0 { assert xs[j] == t[j - 1]; } else { assert xs[i] == t[i - 1] && xs[j] == t[j - 1]; }
          }
        }
        if NoDuplicates(xs) {
          forall i, j | 0 <= i < j < |t| ensures t[i] != t[j] {
            assert t[i] == xs[i + 1] && t[j] == xs[j + 1];
          }
        }
      }
    }
  }

  // ---------------------------------------------------------------- classifier

  /** `has_duplicate_questions?`: more answer rows than distinct signatures. */
  predicate HasDuplicateQuestions(s: Session)
  {
    |s.answers| > |Elements(AnsweredSignatures(s.answers))|
  }

  /** `num_questions_left`, counting every answer row (duplicates included). */
  function NumQuestionsLeft(s: Session, numTotalQuestions: nat): int
  {
    numTotalQuestions - |s.answers|
  }

  /** `completed?`; version 1 had one question fewer, hence its off-by-one rule. */
  predicate Completed(s: Session, numTotalQuestions: nat)
  {
    (if s.version == 1 then NumQuestionsLeft(s, numTotalQuestions) - 1 <= 0
     else NumQuestionsLeft(s, numTotalQuestions) == 0)
    && !HasDuplicateQuestions(s)
  }

  /** `expired?` with the clock passed in. */
  predicate Expired(s: Session, now: int)
  {
    now > s.toBeExpiredAt
  }

  predicate DidNotReadDirectionsYet(s: Session)
  {
    s.readDirectionsAt.None?
  }

  predicate ExpiredAndUncompleted(s: Session, now: int, numTotalQuestions: nat)
  {
    Expired(s, now) && !Completed(s, numTotalQuestions)
  }

  predicate ExpiredAndUnstarted(s: Session, now: int)
  {
    Expired(s, now) && DidNotReadDirectionsYet(s)
  }

  /** `treatment[:run]`, nil when absent. */
  function RunOf(s: Session): Option<Symbol>
  {
    if RunKey in s.treatment then Some(s.treatment[RunKey]) else None
  }

  predicate IsKapcha(s: Session) { RunOf(s) == Some(Kapcha) }
  predicate IsTimingControl(s: Session) { RunOf(s) == Some(Timing) }
  predicate IsExhortation(s: Session) { RunOf(s) == Some(Exhortation) }

  predicate ExemptFromKapCha(q: Question)
  {
    q.questionType in QuestionTypesExemptFromKapCha
  }

  predicate HideControlsInitially(s: Session, q: Question)
  {
    RunOf(s) == Some(Kapcha) && !ExemptFromKapCha(q)
  }

  predicate DisableContinueButtonInitially(s: Session, q: Question)
  {
    RunOf(s) == Some(Timing) && !ExemptFromKapCha(q)
  }

  /** `default_bonus` in cents; nil for any other `:bonus` level or none. */
  function DefaultBonusCents(s: Session): Option<nat>
  {
    if BonusKey !in s.treatment then None
    else if s.treatment[BonusKey] == Zero then Some(0)
    else if s.treatment[BonusKey] == OneCent then Some(1)
    else if s.treatment[BonusKey] == FiveCents then Some(5)
    else None
  }

  /** `get_question_response`: the response of the first answer row with the signature. */
  function GetQuestionResponse(answers: seq<Answer>, signature: string): (r: Option<string>)
    ensures r.None? <==> forall i :: 0 <= i < |answers| ==> answers[i].signature != signature
    ensures r.Some? ==> exists k :: 0 <= k < |answers| && answers[k].signature == signature
                          && r.value == answers[k].responses
                          && forall j :: 0 <= j < k ==> answers[j].signature != signature
  {
    if answers == [] then None
    else if answers[0].signature == signature then Some(answers[0].responses)
    else
      var r := GetQuestionResponse(answers[1..], signature);
      assert r.Some? ==> exists k :: 0 <= k < |answers[1..]| && answers[1..][k].signature == signature
                          && r.value == answers[1..][k].responses
                          && forall j :: 0 <= j < k ==> answers[1..][j].signature != signature;
      if r.Some? then
        var k :| 0 <= k < |answers[1..]| && answers[1..][k].signature == signature
                 && r.value == answers[1..][k].responses
                 && forall j :: 0 <= j < k ==> answers[1..][j].signature != signature;
        assert answers[k + 1] == answers[1..][k];
        r
      else r
  }

  // ---------------------------------------------------------------- properties

  /** The duplicate test holds exactly when two answer rows share a signature. */
  lemma HasDuplicateQuestionsIff(s: Session)
    ensures HasDuplicateQuestions(s) <==>
      exists i, j :: 0 <= i < j < |s.answers| && s.answers[i].signature == s.answers[j].signature
  {
    var sigs := AnsweredSignatures(s.answers);
    ElementsCount(sigs);
    if !NoDuplicates(sigs) {
      var i, j :| 0 <= i < j < |sigs| && sigs[i] == sigs[j];
      assert s.answers[i].signature == s.answers[j].signature;
    }
  }

  /** `completed?` spelled out: no duplicates, and the raw answer count is at least one
      short of the total in version 1 and exactly the total otherwise; a completed
      session has answered that many distinct signatures. */
  lemma CompletedIff(s: Session, numTotalQuestions: nat)
    ensures Completed(s, numTotalQuestions) <==>
      && !HasDuplicateQuestions(s)
      && (s.version == 1 ==> |s.answers| >= numTotalQuestions - 1)
      && (s.version != 1 ==> |s.answers| == numTotalQuestions)
    ensures Completed(s, numTotalQuestions) ==>
      |Elements(AnsweredSignatures(s.answers))| == |s.answers|
  {
    ElementsCount(AnsweredSignatures(s.answers));
  }

  /** A session with answered signatures all distinct and the full count is completed;
      one answer fewer is not, except under version 1's rule. */
  lemma CompletedByDistinctCount(s: Session, numTotalQuestions: nat)
    requires forall i, j :: 0 <= i < j < |s.answers| ==> s.answers[i].signature != s.answers[j].signature
    ensures |s.answers| == numTotalQuestions ==> Completed(s, numTotalQuestions)
    ensures |s.answers| + 1 == numTotalQuestions ==> (Completed(s, numTotalQuestions) <==> s.version == 1)
  {
    HasDuplicateQuestionsIff(s);
  }

  /** Expiry is strict and, once reached, lasts: a session is still live at its expiry
      time, expired one second later and at every later time; a completed session is
      never expired-and-uncompleted. */
  lemma ExpiryFacts(s: Session, now: int, numTotalQuestions: nat)
    ensures !Expired(s, s.toBeExpiredAt) && Expired(s, s.toBeExpiredAt + 1)
    ensures Expired(s, now) ==> forall later :: later >= now ==> Expired(s, later)
    ensures ExpiredAndUncompleted(s, now, numTotalQuestions) ==>
              forall later :: later >= now ==> ExpiredAndUncompleted(s, later, numTotalQuestions)
    ensures Completed(s, numTotalQuestions) ==> !ExpiredAndUncompleted(s, now, numTotalQuestions)
  {
  }

  /** Demographic, need-for-cognition and feedback questions are never held back, in any
      run; controls are hidden only in the KapCha run and the button disabled only in the
      timing run, so never both. */
  lemma KapChaControls(s: Session, q: Question)
    ensures q.questionType in {Demographic, NeedForCognition, Feedback} ==>
              !HideControlsInitially(s, q) && !DisableContinueButtonInitially(s, q)
    ensures HideControlsInitially(s, q) <==> IsKapcha(s) && q.questionType in {Normal, ImcCheck}
    ensures DisableContinueButtonInitially(s, q) <==> IsTimingControl(s) && q.questionType in {Normal, ImcCheck}
    ensures !(HideControlsInitially(s, q) && DisableContinueButtonInitially(s, q))
  {
    assert ExemptFromKapCha(q) <==> q.questionType in {Demographic, NeedForCognition, Feedback};
    match q.questionType {
      case Normal =>
      case ImcCheck =>
      case _ =>
    }
  }

  /** The default bonus is defined exactly for the three `:bonus` levels and is the
      amount the feedback question's text announces. */
  lemma DefaultBonusLevels(s: Session)
    ensures DefaultBonusCents(s).Some? <==>
      BonusKey in s.treatment && s.treatment[BonusKey] in RandomizedTreatments[2].choices
    ensures DefaultBonusCents(s) == Some(0) <==> BonusKey in s.treatment && s.treatment[BonusKey] == Zero
    ensures DefaultBonusCents(s) == Some(1) <==> BonusKey in s.treatment && s.treatment[BonusKey] == OneCent
    ensures DefaultBonusCents(s) == Some(5) <==> BonusKey in s.treatment && s.treatment[BonusKey] == FiveCents
  {
  }
}
