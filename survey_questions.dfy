/** The survey catalog: version constants, the randomised treatment dimensions, the
    KapCha exemptions, the question fixtures whose text is known, and the survey order
    with its flattening into `AllQuestions`.

    `FillInChars`, `Oppenheimer99IMC1`, `CheckQuestions` and `NeedForCognitionQuestions`
    are defined in modules that are not part of this model; they are parameters here
    (`fill` and `Missing`). */
module SurveyQuestions {
  import opened Wrappers
  import opened Questions

  // ---------------------------------------------------------------- versions

  const CurrentExperimentalVersionNo: int := 5
  const ExperimentalVersionsToShow: seq<int> := [5]

  /** Sessions created with the current version number show up in the listings
      that select `ExperimentalVersionsToShow`. */
  lemma CurrentVersionIsShown()
    ensures CurrentExperimentalVersionNo in ExperimentalVersionsToShow
  {
  }

  // ---------------------------------------------------------------- symbols

  const RunKey: Symbol := "run"
  const PlaceKey: Symbol := "place"
  const TicketPriceKey: Symbol := "ticket_price"
  const BonusKey: Symbol := "bonus"

  const Control: Symbol := "control"
  const Exhortation: Symbol := "exhortation"
  const Timing: Symbol := "timing"
  const Kapcha: Symbol := "kapcha"

  const RunDown: Symbol := "run_down"
  const Fancy: Symbol := "fancy"
  const Free: Symbol := "free"
  const Paid: Symbol := "paid"
  const Zero: Symbol := "zero"
  const OneCent: Symbol := "one_cent"
  const FiveCents: Symbol := "five_cents"

  // ---------------------------------------------------------------- KapCha exemptions

  const QuestionTypesExemptFromKapCha: seq<QuestionType> := [Demographic, NeedForCognition, Feedback]

  // ---------------------------------------------------------------- randomised treatments

  /** One entry of `RandomizedTreatments`: the dimension's key, its choices and their
      probabilities (exact rationals instead of Ruby floats). */
  datatype Dimension = Dimension(key: Symbol, choices: seq<Symbol>, probabilities: seq<real>)

  const RandomizedTreatments: seq<Dimension> := [
    Dimension(PlaceKey, [RunDown, Fancy], [0.5, 0.5]),
    Dimension(TicketPriceKey, [Free, Paid], [0.5, 0.5]),
    Dimension(BonusKey, [Zero, OneCent, FiveCents], [1.0 / 3.0, 1.0 / 3.0, 1.0 / 3.0])
  ]

  function Sum(xs: seq<real>): real
  {
    if xs == [] then 0.0 else xs[0] + Sum(xs[1..])
  }

  /** What the authors require of every dimension: one probability per choice, each
      non-negative, adding up to one. */
  predicate WellFormedDimension(d: Dimension)
  {
    && |d.choices| == |d.probabilities| > 0
    && (forall i :: 0 <= i < |d.probabilities| ==> d.probabilities[i] >= 0.0)
    && Sum(d.probabilities) == 1.0
  }

  /** The keys of `RandomizedTreatments`, in hash order. */
  function TreatmentKeys(): (ks: seq<Symbol>)
    ensures |ks| == |RandomizedTreatments|
    ensures forall i :: 0 <= i < |ks| ==> ks[i] == RandomizedTreatments[i].key
  {
    seq(|RandomizedTreatments|, i requires 0 <= i < |RandomizedTreatments| => RandomizedTreatments[i].key)
  }

  /** Every dimension is well formed, the keys are distinct and none of them is `:run`
      (so the random draws never overwrite the run the caller chose). */
  lemma RandomizedTreatmentsWellFormed()
    ensures forall d :: d in RandomizedTreatments ==> WellFormedDimension(d)
    ensures forall i, j :: 0 <= i < j < |RandomizedTreatments| ==>
              RandomizedTreatments[i].key != RandomizedTreatments[j].key
    ensures forall d :: d in RandomizedTreatments ==> d.key != RunKey
  {
    var d0, d1, d2 := RandomizedTreatments[0], RandomizedTreatments[1], RandomizedTreatments[2];
    assert Sum(d0.probabilities) == 0.5 + (0.5 + 0.0);
    assert Sum(d1.probabilities) == 0.5 + (0.5 + 0.0);
    assert Sum(d2.probabilities) == 1.0 / 3.0 + (1.0 / 3.0 + (1.0 / 3.0 + 0.0));
  }

  /** A switch key is served by the treatment dimension of the same name when every
      switch names a text for every choice of that dimension. */
  predicate KeyCovered(ks: KeySwitches)
  {
    exists i :: 0 <= i < |RandomizedTreatments| && RandomizedTreatments[i].key == ks.key &&
      forall j, c :: 0 <= j < |ks.switches| && c in RandomizedTreatments[i].choices ==> c in ks.switches[j]
  }

  /** The number of placeholders a question's switches consume. */
  function SwitchCount(kss: seq<KeySwitches>): nat
  {
    if kss == [] then 0 else |kss[0].switches| + SwitchCount(kss[1..])
  }

  /** The authoring rule for randomised text: every switch key is a treatment
      dimension covering each of its choices, and there are enough placeholders. */
  predicate SwitchesCovered(q: Question, fill: seq<string>)
  {
    match q.switches
    case None => true
    case Some(kss) =>
      (forall k :: 0 <= k < |kss| ==> KeyCovered(kss[k])) && SwitchCount(kss) <= |fill|
  }

  // ---------------------------------------------------------------- fixtures

  /** `#{FillInChars[i]}`: Ruby interpolates nil as the empty string. */
  function FillIn(fill: seq<string>, i: nat): string
  {
    if i < |fill| then fill[i] else ""
  }

  const SodaDescriptionBefore: string :=
    "You are on the beach on a hot day. For\n        the last hour you have been thinking about how much you would enjoy an ice cold\n        can of soda. Your companion needs to make a phone call and offers to bring\n        back a soda from the only nearby place where drinks are sold, which happens\n        to be a "
  const SodaDescriptionAfter: string :=
    ". Your companion asks how much you are willing\n        to pay for the soda and will only buy it if it is below the price you state."
  const SodaTitle: string := "Soda Question"
  const SodaText: string := "How much are you willing to pay?"
  const SodaRunDownText: string := "run-down grocery store"
  const SodaFancyText: string := "fancy resort"

  /** The soda question's `:place` switch. */
  const PlaceSwitches: seq<KeySwitches> :=
    [KeySwitches(PlaceKey, [map[RunDown := SodaRunDownText, Fancy := SodaFancyText]])]

  function SodaQuestion(fill: seq<string>): Question
  {
    Question("beer_question_thaler_1985", Normal, FreeResponseSmall,
      Some(SodaTitle), Some(SodaDescriptionBefore + FillIn(fill, 0) + SodaDescriptionAfter),
      SodaText, None, None,
      Some(PlaceSwitches),
      None, None, None)
  }

  const FootballDescriptionBefore: string :=
    "Imagine that your favorite football team is playing an important\n        game. You have a ticket to the game that you "
  const FootballDescriptionAfter: string :=
    ". However, on the day of the\n        game, it happens to be freezing cold."

  /** The football question's `:ticket_price` switch. */
  const TicketPriceSwitches: seq<KeySwitches> :=
    [KeySwitches(TicketPriceKey, [map[Free := "have received for free from a friend", Paid := "have paid handsomely for"]])]

  function FootballQuestion(fill: seq<string>): Question
  {
    Question("football_question_thaler_1985", Normal, LikertScale,
      Some("Football Question"), Some(FootballDescriptionBefore + FillIn(fill, 0) + FootballDescriptionAfter),
      "What do you do?<br/> (1 - definitely stay at home, 9 - definitely go to the game)", None, None,
      Some(TicketPriceSwitches),
      None, None, None)
  }

  /** A list of plain-string response choices. */
  function Plains(texts: seq<string>): (cs: seq<Choice>)
  {
    seq(|texts|, i requires 0 <= i < |texts| => Plain(texts[i]))
  }

  function DemographicChoice(signature: string, text: string, rt: ResponseType, choices: seq<string>): Question
  {
    Basic(signature, Demographic, rt, text).(choices := Some(Plains(choices)))
  }

  const GenderQuestion: Question :=
    DemographicChoice("dem_02_gender", "Are you male or female?", OneOfMany, ["male", "female"])

  const Dem01: Question :=
    Basic("dem_01_birth_year", Demographic, FreeResponseSmall, "Which year were you born?")
  const Dem03: Question :=
    DemographicChoice("dem_03_education", "What is your level of education?", OneOfMany,
      ["Some High School", "High School Graduate", "Some college, no degree", "Associates degree",
       "Bachelors degree", "Graduate degree, Masters", "Graduate degree, Doctorate"])
  const Dem04: Question :=
    DemographicChoice("dem_04_why_work_on_mturk",
        "Why do you complete tasks in Mechanical Turk? Please check any of the following that apply:", MultipleOfMany,
      ["Fruitful way to spend free time and get some cash (e.g., instead of watching TV)",
       "For ''primary'' income purposes (e.g., gas, bills, groceries, credit cards)",
       "For ''secondary'' income purposes, pocket change (for hobbies, gadgets, going out)",
       "To kill time", "I find the tasks to be fun",
       "I am currently unemployed, or have only a part time job"])
  const Dem05: Question :=
    DemographicChoice("dem_05_earnings", "How much do you earn per week on Mechanical Turk?", OneOfMany,
      ["Less than $1 per week", "$1 - $5 per week", "$5 - $10 per week", "$10 - $20 per week",
       "$20 - $50 per week", "$50 - $100 per week", "$100 - $200 per week", "$200 - $500 per week",
       "More than $500 per week"])
  const Dem06: Question :=
    DemographicChoice("dem_06_hours", "How much time do you spend per week on Mechanical Turk?", OneOfMany,
      ["Less than 1 hour per week", "1 - 2 hours per week", "2 - 4 hours per week", "4 - 8 hours per week",
       "8 - 20 hours per week", "20 - 40 hours per week", "More than 40 hours per week"])
  const Dem07: Question :=
    DemographicChoice("dem_07_percent_surveys",
        "What percent of your time on MTurk do you spend answering surveys, polls, or questionnaires?", OneOfMany,
      ["Less than 20%", "20 - 40%", "40 - 60%", "60 - 80%", "80 - 100%"])
  const Dem08: Question :=
    DemographicChoice("dem_08_multitasking", "Do you generally multi-task while doing HITs?", OneOfMany,
      ["No, I do not multi-task while doing HITs",
       "Yes, I multi-task; I sometimes do more than one HIT at once",
       "Yes, I multi-task; I do HITs while doing other activities (e.g., watching television, surfing the web, sitting at work)",
       "Yes, I multitask; I do more than one HIT at a time AND do other activities while doing HITs"])

  const DemographicQuestions: seq<Question> :=
    [Dem01, GenderQuestion, Dem03, Dem04, Dem05, Dem06, Dem07, Dem08]

  const MotivationCheck: Question :=
    Basic("motivation_gauge_oppenheimer_2009", Demographic, LikertScale,
      "How motivated were you to complete this survey?<br/> (1 - not motivated at all, 9 - very motivated)")
    .(title := Some("Motivation Question"))

  /** The feedback hash's `:bonus` switch; the KapCha speed question uses the same texts. */
  const BonusSwitches: seq<KeySwitches> := [KeySwitches(BonusKey, [map[
    Zero := "",
    OneCent := "$0.01 bonus for thoughtful answers",
    FiveCents := "$0.05 bonus for thoughtful answers"]])]

  const FeedbackTitleBefore: string := "Please share your thoughts<br/>"
  const FeedbackText: string :=
    "What did you like most about this survey?<br/>What did you like least about this survey?<br/>Is there anything you would recommend to make it better?"
  const FeedbackDescription: string :=
    "We are currently piloting this survey and would greatly appreciate any feedback you have."
  const KapChaSpeedText: string :=
    "Certain respondents had to wait for each survey question to complete\n      before filling in answers. We are especially interested in knowing how this affected how you\n      took the survey. How did the time you had to wait compare to your natural reading speed?<br/>\n      (If you don't think this question applies to you, write \"N/A\".)"

  function FeedbackQuestion(fill: seq<string>): Question
  {
    Basic("feedback_question", Feedback, FreeResponseLarge, FeedbackText)
    .(title := Some(FeedbackTitleBefore + FillIn(fill, 0)),
      description := Some(FeedbackDescription),
      switches := Some(BonusSwitches))
  }

  function KapChaSpeedQuestion(fill: seq<string>): Question
  {
    Basic("kapcha_speed_question", Feedback, FreeResponseLarge, KapChaSpeedText)
    .(title := Some(FeedbackTitleBefore + FillIn(fill, 0)),
      switches := Some(BonusSwitches))
  }

  // ---------------------------------------------------------------- survey order

  /** The catalog constants that live in modules outside this model. */
  datatype Missing = Missing(imc1: Question, checkQuestions: seq<Question>, needForCognitionQuestions: seq<Question>)

  function TrueQuestions(fill: seq<string>, m: Missing): seq<Question>
  {
    [SodaQuestion(fill), FootballQuestion(fill), m.imc1]
  }

  function SurveyOrder(fill: seq<string>, m: Missing): seq<OrderEntry>
  {
    [ Group(TrueQuestions(fill, m)),
      Group(m.checkQuestions),
      Group(DemographicQuestions),
      Group(m.needForCognitionQuestions),
      Single(MotivationCheck),
      Single(FeedbackQuestion(fill)),
      Single(KapChaSpeedQuestion(fill)) ]
  }

  function AllQuestions(fill: seq<string>, m: Missing): seq<Question>
  {
    Flatten(SurveyOrder(fill, m))
  }

  function NumTotalQuestions(fill: seq<string>, m: Missing): nat
  {
    |AllQuestions(fill, m)|
  }

  /** Flattening an order of four groups followed by three single hashes. */
  lemma FlattenFourGroupsThreeSingles(a: seq<Question>, b: seq<Question>, c: seq<Question>, d: seq<Question>,
                                      e: Question, f: Question, g: Question)
    ensures Flatten([Group(a), Group(b), Group(c), Group(d), Single(e), Single(f), Single(g)])
            == a + b + c + d + [e, f, g]
  {
    var o := [Group(a), Group(b), Group(c), Group(d), Single(e), Single(f), Single(g)];
    assert Flatten(o[6..]) == [g];
    assert Flatten(o[5..]) == [f] + Flatten(o[6..]);
    assert Flatten(o[4..]) == [e] + Flatten(o[5..]);
    assert Flatten(o[3..]) == d + Flatten(o[4..]);
    assert Flatten(o[2..]) == c + Flatten(o[3..]);
    assert Flatten(o[1..]) == b + Flatten(o[2..]);
    assert Flatten(o) == a + Flatten(o[1..]);
  }

  /** The flattened order, written out group by group. */
  lemma AllQuestionsLayout(fill: seq<string>, m: Missing)
    ensures AllQuestions(fill, m) ==
      TrueQuestions(fill, m) + m.checkQuestions + DemographicQuestions + m.needForCognitionQuestions
      + [MotivationCheck, FeedbackQuestion(fill), KapChaSpeedQuestion(fill)]
  {
    FlattenFourGroupsThreeSingles(TrueQuestions(fill, m), m.checkQuestions, DemographicQuestions,
      m.needForCognitionQuestions, MotivationCheck, FeedbackQuestion(fill), KapChaSpeedQuestion(fill));
  }

  /** `NumTotalQuestions`: three true questions, eight demographic questions, three
      single hashes, plus the groups not shown (32 when those hold 18). */
  lemma NumTotalQuestionsCount(fill: seq<string>, m: Missing)
    ensures NumTotalQuestions(fill, m) == 14 + |m.checkQuestions| + |m.needForCognitionQuestions|
    ensures NumTotalQuestions(fill, m) == TotalSize(SurveyOrder(fill, m))
  {
    AllQuestionsLayout(fill, m);
    FlattenLength(SurveyOrder(fill, m));
  }

  /** The signatures of the questions whose definitions are part of this model. */
  const KnownSignatures: seq<string> := [
    "beer_question_thaler_1985", "football_question_thaler_1985",
    "dem_01_birth_year", "dem_02_gender", "dem_03_education", "dem_04_why_work_on_mturk",
    "dem_05_earnings", "dem_06_hours", "dem_07_percent_surveys", "dem_08_multitasking",
    "motivation_gauge_oppenheimer_2009", "feedback_question", "kapcha_speed_question"]

  /** The questions of the groups not shown, in catalog order of the groups. */
  function MissingQuestions(m: Missing): seq<Question>
  {
    [m.imc1] + m.checkQuestions + m.needForCognitionQuestions
  }

  /** The signature rule for the groups not shown: distinct signatures among themselves
      and none shared with a known question. */
  predicate MissingSignaturesWellFormed(m: Missing)
  {
    var qs := MissingQuestions(m);
    && DistinctSignatures(qs)
    && (forall i :: 0 <= i < |qs| ==> qs[i].signature !in KnownSignatures)
  }

  /** Both authoring rules for the groups not shown: the signature rule, and the
      switch rule for randomised text. */
  predicate MissingWellFormed(m: Missing, fill: seq<string>)
  {
    && MissingSignaturesWellFormed(m)
    && (forall i :: 0 <= i < |MissingQuestions(m)| ==> SwitchesCovered(MissingQuestions(m)[i], fill))
  }


  lemma KnownSignaturesDistinct()
    ensures forall i, j :: 0 <= i < j < |KnownSignatures| ==> KnownSignatures[i] != KnownSignatures[j]
  {
  }

  /** A list whose signatures are the names `KnownSignatures[off..off + |qs|]`. */
  predicate NamedAt(qs: seq<Question>, off: nat)
  {
    off + |qs| <= |KnownSignatures| &&
    forall i :: 0 <= i < |qs| ==> qs[i].signature == KnownSignatures[off + i]
  }

  lemma NamedAtDistinct(qs: seq<Question>, off: nat)
    requires NamedAt(qs, off)
    ensures DistinctSignatures(qs)
  {
    KnownSignaturesDistinct();
  }

  lemma NamedAtDisjoint(a: seq<Question>, offA: nat, b: seq<Question>, offB: nat)
    requires NamedAt(a, offA) && NamedAt(b, offB) && offA + |a| <= offB
    ensures DisjointSignatures(a, b)
  {
    KnownSignaturesDistinct();
  }

  /** A known list is disjoint from any list none of whose signatures is known. */
  lemma NamedAtDisjointFromUnknown(a: seq<Question>, off: nat, b: seq<Question>)
    requires NamedAt(a, off)
    requires forall j :: 0 <= j < |b| ==> b[j].signature !in KnownSignatures
    ensures DisjointSignatures(a, b) && DisjointSignatures(b, a)
  {
  }

  /** The catalog's three known pieces carry the known names, in order. */
  lemma TrueQuestionsNamed(fill: seq<string>)
    ensures NamedAt([SodaQuestion(fill), FootballQuestion(fill)], 0)
  {
  }

  lemma DemographicQuestionsNamed()
    ensures NamedAt(DemographicQuestions, 2)
  {
    assert |DemographicQuestions| == 8;
    assert forall i :: 0 <= i < 8 ==> DemographicQuestions[i].signature == KnownSignatures[i + 2];
  }

  lemma SingleQuestionsNamed(fill: seq<string>)
    ensures NamedAt([MotivationCheck, FeedbackQuestion(fill), KapChaSpeedQuestion(fill)], 10)
  {
  }

  /** Known pieces `k1`, `dq`, `k3` interleaved with unknown pieces `i1`, `cs`, `nf`. */
  lemma InterleavedDistinct(k1: seq<Question>, i1: seq<Question>, cs: seq<Question>,
                            dq: seq<Question>, nf: seq<Question>, k3: seq<Question>)
    requires NamedAt(k1, 0) && NamedAt(dq, 2) && NamedAt(k3, 10) && |k1| == 2 && |dq| == 8
    requires DistinctSignatures(i1 + cs + nf)
    requires forall j :: 0 <= j < |i1 + cs + nf| ==> (i1 + cs + nf)[j].signature !in KnownSignatures
    ensures DistinctSignatures(k1 + i1 + cs + dq + nf + k3)
  {
    NamedAtDistinct(k1, 0);
    NamedAtDistinct(dq, 2);
    NamedAtDistinct(k3, 10);
    NamedAtDisjoint(k1, 0, dq, 2);
    NamedAtDisjoint(k1, 0, k3, 10);
    NamedAtDisjoint(dq, 2, k3, 10);
    var ms := i1 + cs + nf;
    DistinctSignaturesConcat(i1 + cs, nf);
    DistinctSignaturesConcat(i1, cs);
    DisjointSignaturesConcat(i1, cs, nf);
    assert forall j :: 0 <= j < |i1| ==> i1[j] == ms[j];
    assert forall j :: 0 <= j < |cs| ==> cs[j] == ms[|i1| + j];
    assert forall j :: 0 <= j < |nf| ==> nf[j] == ms[|i1| + |cs| + j];
    NamedAtDisjointFromUnknown(k1, 0, i1);
    NamedAtDisjointFromUnknown(k1, 0, cs);
    NamedAtDisjointFromUnknown(k1, 0, nf);
    NamedAtDisjointFromUnknown(dq, 2, cs);
    NamedAtDisjointFromUnknown(dq, 2, i1);
    NamedAtDisjointFromUnknown(dq, 2, nf);
    NamedAtDisjointFromUnknown(k3, 10, i1);
    NamedAtDisjointFromUnknown(k3, 10, cs);
    NamedAtDisjointFromUnknown(k3, 10, nf);
    DistinctSignaturesConcat(k1, i1);
    DisjointSignaturesConcat(k1, i1, cs);
    DistinctSignaturesConcat(k1 + i1, cs);
    var a2 := k1 + i1 + cs;
    DisjointSignaturesConcat(k1, i1, dq);
    DisjointSignaturesConcat(k1 + i1, cs, dq);
    DistinctSignaturesConcat(a2, dq);
    var a3 := a2 + dq;
    DisjointSignaturesConcat(k1, i1, nf);
    DisjointSignaturesConcat(k1 + i1, cs, nf);
    DisjointSignaturesConcat(a2, dq, nf);
    DistinctSignaturesConcat(a3, nf);
    var a4 := a3 + nf;
    DisjointSignaturesConcat(k1, i1, k3);
    DisjointSignaturesConcat(k1 + i1, cs, k3);
    DisjointSignaturesConcat(a2, dq, k3);
    DisjointSignaturesConcat(a3, nf, k3);
    DistinctSignaturesConcat(a4, k3);
  }

  /** The authoring rule holds for the whole catalog, given that it holds for the groups
      not shown: no two questions of `AllQuestions` share a signature. */
  lemma AllQuestionsDistinct(fill: seq<string>, m: Missing)
    requires MissingSignaturesWellFormed(m)
    ensures DistinctSignatures(AllQuestions(fill, m))
  {
    AllQuestionsLayout(fill, m);
    TrueQuestionsNamed(fill);
    DemographicQuestionsNamed();
    SingleQuestionsNamed(fill);
    var k1 := [SodaQuestion(fill), FootballQuestion(fill)];
    var k3 := [MotivationCheck, FeedbackQuestion(fill), KapChaSpeedQuestion(fill)];
    assert TrueQuestions(fill, m) == k1 + [m.imc1];
    InterleavedDistinct(k1, [m.imc1], m.checkQuestions, DemographicQuestions, m.needForCognitionQuestions, k3);
  }

  /** Every question of the list satisfies the authoring rule for randomised text. */
  predicate AllCovered(qs: seq<Question>, fill: seq<string>)
  {
    forall k :: 0 <= k < |qs| ==> SwitchesCovered(qs[k], fill)
  }

  lemma AllCoveredConcat(a: seq<Question>, b: seq<Question>, fill: seq<string>)
    ensures AllCovered(a + b, fill) <==> AllCovered(a, fill) && AllCovered(b, fill)
  {
    var ab := a + b;
    if AllCovered(ab, fill) {
      assert forall k :: 0 <= k < |a| ==> ab[k] == a[k];
      assert forall k :: 0 <= k < |b| ==> ab[|a| + k] == b[k];
    }
  }

  lemma PlaceSwitchCovered()
    ensures KeyCovered(PlaceSwitches[0]) && SwitchCount(PlaceSwitches) == 1
  {
    assert RandomizedTreatments[0].key == PlaceKey;
  }

  lemma TicketPriceSwitchCovered()
    ensures KeyCovered(TicketPriceSwitches[0]) && SwitchCount(TicketPriceSwitches) == 1
  {
    assert RandomizedTreatments[1].key == TicketPriceKey;
  }

  lemma BonusSwitchCovered()
    ensures KeyCovered(BonusSwitches[0]) && SwitchCount(BonusSwitches) == 1
  {
    assert RandomizedTreatments[2].key == BonusKey;
  }

  lemma TrueQuestionsCovered(fill: seq<string>)
    requires |fill| >= 1
    ensures AllCovered([SodaQuestion(fill), FootballQuestion(fill)], fill)
  {
    PlaceSwitchCovered();
    TicketPriceSwitchCovered();
  }

  lemma DemographicQuestionsCovered(fill: seq<string>)
    ensures AllCovered(DemographicQuestions, fill)
  {
    assert forall k :: 0 <= k < |DemographicQuestions| ==> DemographicQuestions[k].switches == None;
  }

  lemma SingleQuestionsCovered(fill: seq<string>)
    requires |fill| >= 1
    ensures AllCovered([MotivationCheck, FeedbackQuestion(fill), KapChaSpeedQuestion(fill)], fill)
  {
    BonusSwitchCovered();
  }

  /** Every switch key of the catalog is a treatment dimension covering all its choices,
      and no question needs more placeholders than there are (given the same of the
      groups not shown and at least one placeholder). */
  lemma AllQuestionsSwitchesCovered(fill: seq<string>, m: Missing)
    requires MissingWellFormed(m, fill) && |fill| >= 1
    ensures AllCovered(AllQuestions(fill, m), fill)
  {
    AllQuestionsLayout(fill, m);
    TrueQuestionsCovered(fill);
    DemographicQuestionsCovered(fill);
    SingleQuestionsCovered(fill);
    var k1 := [SodaQuestion(fill), FootballQuestion(fill)];
    var k3 := [MotivationCheck, FeedbackQuestion(fill), KapChaSpeedQuestion(fill)];
    var i1, cs, nf := [m.imc1], m.checkQuestions, m.needForCognitionQuestions;
    var ms := i1 + cs + nf;
    assert AllCovered(ms, fill);
    AllCoveredConcat(i1 + cs, nf, fill);
    AllCoveredConcat(i1, cs, fill);
    assert TrueQuestions(fill, m) == k1 + i1;
    AllCoveredConcat(k1, i1, fill);
    AllCoveredConcat(k1 + i1, cs, fill);
    AllCoveredConcat(k1 + i1 + cs, DemographicQuestions, fill);
    AllCoveredConcat(k1 + i1 + cs + DemographicQuestions, nf, fill);
    AllCoveredConcat(k1 + i1 + cs + DemographicQuestions + nf, k3, fill);
  }
}
