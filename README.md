# KapCha survey engine: a verified model

KapCha is a Rails application that runs an online survey. It posts jobs on Mechanical Turk
and delivers questions one at a time. For some respondents it is a "KapCha" run: the
answer controls stay hidden until the respondent could have read the question. This
project models the engine's deterministic core in Dafny and proves properties of the
model:

- the question catalog: `SurveyOrder`, `AllQuestions`, `NumTotalQuestions`, the
  randomised treatment dimensions and the version constants;
- the next-question rule (`get_next_question`);
- the randomised text substitution (`render_randomization_texts`), with its shared
  placeholder counter;
- the classifier predicates on a session (`completed?`, `has_duplicate_questions?`, the
  expiry and KapCha predicates, `default_bonus`);
- the data-dump response coders;
- `Array#map_with_index!`;
- building the run list for new HITs, and the new session record;
- the admin listings (`index`, `investigate_attrition`, `buggy_hits`, `dashboard`,
  `separate_data_by_treatment`).

Modules, one per file:

- `Wrappers`: `Option` and `Result`.
- `TextReplace`: Ruby's `String#gsub` with a literal pattern, including the empty
  pattern.
- `Questions`: the question record, `SurveyOrder` entries and `flatten`.
- `SurveyQuestions`: the catalog constants and their authoring rules.
- `Sessions`: the stored survey record and its predicates.
- `Randomization`: substitution.
- `Delivery`: next-question selection. The catalog is a class because its entries are
  shared mutable hashes.
- `ResponseCoding`: the dump coders and the response-type tests.
- `ArrayExt`: `map_with_index!` and `map_with_index`.
- `HitCreation`: run lists and new sessions.
- `AdminReports`: the listings.

Modelling conventions:

- Ruby symbols are strings.
- A session's `treatment` hash is a `map`; `nil` is a missing key or `None`.
- Times are integers on one clock, and the current time is a parameter `now`.
- `FillInChars` is a parameter `fill`. The question groups whose definitions are not part
  of this model (`Oppenheimer99IMC1`, `CheckQuestions`, `NeedForCognitionQuestions`) are a
  parameter `Missing`, constrained by the authoring rules.
- Every exception the modelled code raises is an `Err` of the `Fault` datatype.

## Model

| member | source | states |
|---|---|---|
| SurveyQuestions.CurrentVersionIsShown | lib/survey_questions.rb:34-35 | the version new sessions get is one of the versions the listings show |
| SurveyQuestions.RandomizedTreatmentsWellFormed | lib/survey_questions.rb:60-72 | each dimension has as many choices as probabilities, non-negative probabilities summing to exactly one (as rationals); the dimension keys are distinct and none is `:run` |
| SurveyQuestions.AllQuestionsLayout | lib/survey_questions.rb:84-95 | `AllQuestions` is the true questions, check questions, demographic questions, need-for-cognition questions, then the three single hashes, in order |
| SurveyQuestions.NumTotalQuestionsCount | lib/survey_questions.rb:96 | `NumTotalQuestions` is 14 plus the sizes of the two groups not shown, and equals the summed entry sizes of `SurveyOrder` |
| SurveyQuestions.AllQuestionsDistinct | lib/survey_true_and_check_questions.rb:39-43 | if the groups not shown keep the signature rule (distinct among themselves, none a known signature), no two questions of `AllQuestions` share a signature |
| SurveyQuestions.PlaceSwitchCovered | lib/survey_true_and_check_questions.rb:171-177 | the soda question's `:place` switch names both `:place` levels and uses one placeholder |
| SurveyQuestions.TicketPriceSwitchCovered | lib/survey_true_and_check_questions.rb:189-195 | the football question's `:ticket_price` switch names both price levels and uses one placeholder |
| SurveyQuestions.BonusSwitchCovered | lib/survey_other.rb:46-53 | the feedback questions' `:bonus` switch names all three bonus levels and uses one placeholder |
| SurveyQuestions.AllQuestionsSwitchesCovered | lib/survey_questions.rb:60-72 | every switch key in the catalog is a randomised dimension whose every choice each switch names, and the placeholders suffice |
| Questions.FlattenLength | lib/survey_questions.rb:95-96 | flattening keeps one element per single hash and every element of each group |
| Questions.FlattenAppend | lib/survey_questions.rb:95 | flattening distributes over concatenation of orders |
| Questions.FindBySignature | app/models/survey.rb:110 | `detect` by signature returns the first matching index, and nothing exactly when no question has the signature |
| Questions.FindBySignatureUnique | app/models/survey.rb:110 | with distinct signatures the lookup of question k's signature finds k |
| TextReplace.ReplaceAllNoOccurrence | app/models/survey.rb:195 | `gsub` leaves a string without an occurrence of the pattern unchanged |
| TextReplace.ReplaceAllSplice | app/models/survey.rb:195 | `gsub` on text around one occurrence of the pattern (elsewhere free of its first character) puts the replacement in its place |
| Sessions.GetQuestionResponse | app/models/survey.rb:74-77 | the response of the first answer row with the signature; nil exactly when no row has it |
| Sessions.ElementsCount | app/models/survey.rb:286-288 | a list has at most as many distinct elements as entries, exactly as many iff nothing repeats |
| Sessions.HasDuplicateQuestionsIff | app/models/survey.rb:286-288 | more answer rows than distinct signatures iff two rows share a signature |
| Sessions.CompletedIff | app/models/survey.rb:245-248 | completed iff no duplicates and the raw answer count is at least `NumTotalQuestions` - 1 in version 1 and exactly `NumTotalQuestions` otherwise; a completed session has that many distinct signatures |
| Sessions.CompletedByDistinctCount | app/models/survey.rb:215-217 | with distinct answers, the full count completes a session, and one answer short completes only a version-1 session |
| Sessions.ExpiryFacts | app/models/survey.rb:266-280 | expiry is strict (live at the expiry time, expired one second later) and lasts at every later time, as does expired-and-uncompleted; a completed session is never expired-and-uncompleted |
| Sessions.KapChaControls | app/models/survey.rb:79-85 | hidden controls only in the KapCha run and a disabled button only in the timing run, in both cases only for normal and attention-check questions; never both; never for exempt types |
| Sessions.DefaultBonusLevels | app/models/survey.rb:290-296 | a default bonus (in cents) exists exactly for the three `:bonus` levels; 0 for `zero`, 1 cent for `one_cent`, 5 for `five_cents`, each iff that level |
| Randomization.ApplyFill | app/models/survey.rb:193-200 | one switch step changes only the title, description, text and submit text, keeps which of them are present, and leaves the choices alone |
| Randomization.RenderRandomizationTexts | app/models/survey.rb:177-204 | the nested loops with one shared counter compute `Render`: the rewritten question and the exception, if any |
| Randomization.RenderSwitchesOutcome | app/models/survey.rb:190-201 | one key's switches run without error iff every switch has text for the level and enough placeholders remain; one placeholder per switch; the only errors are the two nil arguments to `gsub` |
| Randomization.RenderSwitchesApplies | app/models/survey.rb:190-201 | on success placeholder i+j is replaced by switch j's text, in order |
| Randomization.RenderKeysOutcome | app/models/survey.rb:182-203 | all keys run without error iff each key has a level in the treatment, each switch has text for it, and the placeholders cover all switches of all keys |
| Randomization.RenderKeysApplies | app/models/survey.rb:182-203 | on success the switch texts of all keys, in key order, replace consecutive placeholders: the counter is shared across keys |
| Randomization.RenderCharacterized | app/models/survey.rb:177-204 | no effect without switches; success iff every key resolvable and enough placeholders; the result is placeholder n replaced by switch text n; only the four texts change; choices never change |
| Randomization.CoveredRendersCleanly | app/models/survey.rb:183-188 | a question following the switch authoring rule never raises for a treatment drawn from the dimensions |
| Randomization.CatalogRendersCleanly | app/models/survey.rb:62-66 | when the groups not shown follow the authoring rules, substitution raises on no catalog question for a drawn treatment |
| Randomization.RenderIdentity | app/models/survey.rb:193-195 | a question holding no placeholder is unchanged by substitution |
| Randomization.PlaceExample | lib/survey_true_and_check_questions.rb:171-177 | "a " followed by the placeholder under the `:place` switch becomes "a fancy resort" (or the run-down text) |
| Randomization.SodaQuestionRendered | lib/survey_true_and_check_questions.rb:155-178 | the soda question's description gets the level's place text where the placeholder stood; title and text unchanged |
| Delivery.FirstUnanswered | app/models/survey.rb:169-171 | the first catalog index whose signature is unanswered, all earlier ones answered; none exactly when all are answered |
| Delivery.Catalog.constructor | lib/survey_questions.rb:95 | the catalog starts as the flattened order |
| Delivery.Catalog.GetNextQuestion | app/models/survey.rb:167-174 | the result is `NextQuestion` of the catalog, and the selected entry is left rendered in the catalog; entries keep signature, types, choices and switches; a delivered question carries the signature of the first unanswered entry as declared, however often sessions wrote into the catalog |
| Delivery.Catalog.NextQuestionFromCopy | app/models/survey.rb:167-174 | the same selection without writing into the catalog |
| Delivery.Catalog.QuestionObjectWithRespondentData | app/models/survey.rb:108-117 | the entry with the answer's signature gets the response, position and time written onto it and is returned; an unknown signature raises and changes nothing |
| Delivery.NextIsFirstUnanswered | app/models/survey.rb:169-173 | a delivered question is the rendered first unanswered catalog entry, with its signature, types and choices |
| Delivery.NextDeliversUnanswered | app/models/survey.rb:167-173 | conversely, an unfinished session with an unanswered catalog question is delivered a question whenever the catalog renders without error |
| Delivery.CatalogDeliversUnanswered | app/models/survey.rb:167-173 | on `AllQuestions`, an unfinished session with a drawn treatment and an unanswered question is always delivered one |
| Delivery.NextQuestionErrors | app/models/survey.rb:168-178 | "already completed" iff the session is completed; no candidate iff not completed and every catalog signature answered |
| Delivery.AllAnsweredOutcome | app/models/survey.rb:168-171 | a session of any version that answered exactly the catalog's signatures raises "already completed" without duplicates and finds no question with duplicates |
| Delivery.CatalogAfterNextSame | app/models/survey.rb:171-172 | the write-back keeps every entry's signature, types, choices and switches |
| Delivery.NextQuestionRepeats | app/models/survey.rb:167-173 | asking again without a new answer, against the written-back catalog, succeeds with the same signature, and with the same question when the first rendering holds no first character of a placeholder |
| Delivery.SharedCatalogLeaksTreatment | app/models/survey.rb:171-195 | after a `place: fancy` session asks, a `place: run_down` session is shown "a fancy resort"; on an untouched catalog it is shown its own text |
| ResponseCoding.FirstMatch | app/models/survey.rb:320-322 | the first choice equal to the response; a `[text, code]` choice or a nil response never matches |
| ResponseCoding.DumpSingleCharacterized | app/models/survey.rb:317-324 | a passed check codes `'pass'`; otherwise, when a choice equals the response, exactly the 1-based position of the first equal one, and `'error'` exactly when none is equal; a question without choices raises |
| ResponseCoding.PassCodedByBoth | app/models/survey.rb:299-324 | both coders code a passed attention check as `'pass'` |
| ResponseCoding.DumpMultipleResponsesCoded | app/models/survey.rb:299-315 | the loop with the `not_contained` flag emits, per choice in order, one `'1'` per equal piece or a single `'0'` |
| ResponseCoding.ChoicesCodeBits | app/models/survey.rb:302-314 | with distinct pieces the code has one digit per choice, `'1'` exactly when that choice is a plain string among the pieces |
| ResponseCoding.ResponseTypeOf | app/models/survey.rb:326-336 | the response type of the catalog question with the signature; unknown signatures raise |
| ResponseCoding.ResponseTypeTestsExclusive | app/models/survey.rb:326-336 | the three response-type tests raise together and at most one holds |
| ArrayExt.MapWithIndexInPlace | app/models/survey.rb:354-356 | every slot becomes the block's value for its old element and index |
| ArrayExt.MapWithIndexCopy | app/models/survey.rb:358-360 | a fresh array holds the mapped elements; the receiver is unchanged |
| ArrayExt.MapWithIndexFacts | app/models/survey.rb:353-361 | an index-blind block gives the plain map; an identity block changes nothing |
| HitCreation.AppendTimes | app/models/survey.rb:44 | `n.times { arr << run }` appends max(n, 0) copies |
| HitCreation.CreateNHitSets | app/models/survey.rb:42-48 | the list is n controls, n exhortations, n timings and n KapCha runs |
| HitCreation.HitSetsCounts | app/models/survey.rb:42-48 | 4·max(n, 0) runs, max(n, 0) of each, nothing else |
| HitCreation.CreateHitsRunList | app/controllers/admin_controller.rb:92 | the `inject` builds control, KapCha, timing and exhortation copies in that order |
| HitCreation.CreateHitsCounts | app/controllers/admin_controller.rb:92 | any shuffle of the list holds exactly the requested number of each run (none for a missing or non-positive count) and nothing else |
| HitCreation.NewSession | app/models/survey.rb:54-66 | the loop fills the treatment, run first, then one level per dimension; version 5, expiry six hours after creation, not started, no answers |
| HitCreation.CreateSurveyHits | app/models/survey.rb:52-72 | one session per run, in list order, each of its run |
| HitCreation.TreatmentFromContents | app/models/survey.rb:59-66 | the treatment's keys are `:run` and the dimension keys, holding the run and the drawn levels |
| HitCreation.NewSessionProperties | app/models/survey.rb:54-66 | a new session is of its run, has one level per dimension, is listed as current, is not expired, not started, not duplicated; with levels drawn from the choices it has a default bonus and substitution never raises on the catalog |
| AdminReports.Filter | app/controllers/admin_controller.rb:33-34 | `select` keeps each element satisfying the block exactly as often as it occurs, and no other element |
| AdminReports.FilterAppend | app/controllers/admin_controller.rb:181-189 | `select` keeps order: selecting from a concatenation is the concatenation of the selections |
| AdminReports.FilterFilter | app/controllers/admin_controller.rb:32-34 | two successive selects are one select on the conjunction |
| AdminReports.IndexCharacterized | app/controllers/admin_controller.rb:30-35 | `index` keeps exactly the current-version sessions not expired-and-uncompleted, only completed ones with `completed`, only the run given with `treatment` |
| AdminReports.InvestigateAttritionCharacterized | app/controllers/admin_controller.rb:158-162 | exactly the expired, uncompleted sessions that read the directions, optionally of one run |
| AdminReports.BuggyHitsCharacterized | app/controllers/admin_controller.rb:164-168 | exactly the sessions with two answers of one signature, optionally of one run |
| AdminReports.CompletedListMembers | app/models/survey.rb:162-164 | the completed list is exactly the completed current-version sessions |
| AdminReports.AbandonedListMembers | app/controllers/admin_controller.rb:174 | the abandoned list: current, duplicate-free, id not among the completed, started |
| AdminReports.DashboardDisjoint | app/controllers/admin_controller.rb:172-174 | no abandoned session shares an id with a completed one; every abandoned session has started and is not completed |
| AdminReports.DashboardAbandonedExact | app/controllers/admin_controller.rb:172-174 | with unique ids, abandoned is exactly current, started, duplicate-free and uncompleted, so unexpired sessions in progress are included |
| AdminReports.ByRunMembers | app/controllers/admin_controller.rb:181-184 | the four run buckets together hold exactly the listed sessions of the four runs, and exactly as many as there are |
| AdminReports.ByRunCount | app/controllers/admin_controller.rb:181-184 | the run buckets are disjoint: together they hold each experimental-run session exactly as often as the list does |
| AdminReports.NarrowMembers | app/controllers/admin_controller.rb:185-188 | narrowing the run buckets keeps exactly their sessions with the level |
| AdminReports.BreakdownMembers | app/controllers/admin_controller.rb:181-204 | each `@all_…` bucket holds exactly the listed sessions of the four runs with that place or price level |
| AdminReports.SeparatedAbandonedFromAbandoned | app/controllers/admin_controller.rb:206-214 | as intended every abandoned bucket holds only abandoned sessions, and the place (or price) buckets are disjoint |
| AdminReports.AsWrittenAbandonedAreCompleted | app/controllers/admin_controller.rb:215-229 | as written the run-down, free and paid "abandoned" buckets are the completed buckets |
| AdminReports.AsWrittenListsCompletedAsAbandoned | app/controllers/admin_controller.rb:215-218 | one completed run-down control and no abandoned session: as written it lands in `@controls_rundown_abandoned`, as intended that bucket is empty |
| AdminReports.DashboardCorrected | app/controllers/admin_controller.rb:170-176 | every abandoned bucket of the corrected dashboard (the four run buckets and the fancy, run-down, free and paid ones) holds only started, uncompleted sessions |
| Questions.Flatten | lib/survey_questions.rb:95 | definition of `SurveyOrder.flatten`; properties in `Questions.FlattenLength`, `Questions.FlattenAppend` |
| TextReplace.ReplaceAll | app/models/survey.rb:193-200 | definition of `gsub` with a literal pattern; properties in `TextReplace.ReplaceAllNoOccurrence`, `TextReplace.ReplaceAllSplice` |
| Sessions.NumQuestionsLeft | app/models/survey.rb:215-217 | definition; properties in `Sessions.CompletedIff`, `Sessions.CompletedByDistinctCount` |
| Sessions.Completed | app/models/survey.rb:245-248 | definition; properties in `Sessions.CompletedIff`, `Sessions.CompletedByDistinctCount` |
| Sessions.HasDuplicateQuestions | app/models/survey.rb:286-288 | definition; properties in `Sessions.HasDuplicateQuestionsIff` |
| Sessions.Expired | app/models/survey.rb:266-268 | definition with the clock as a parameter; properties in `Sessions.ExpiryFacts` |
| Sessions.ExpiredAndUncompleted | app/models/survey.rb:274-276 | definition; properties in `Sessions.ExpiryFacts` |
| Sessions.ExpiredAndUnstarted | app/models/survey.rb:278-280 | definition; properties in `Sessions.ExpiryFacts` |
| Sessions.DidNotReadDirectionsYet | app/models/survey.rb:100-102 | definition; used by `AdminReports.InvestigateAttritionCharacterized`, `AdminReports.DashboardAbandonedExact` |
| Sessions.IsKapcha | app/models/survey.rb:88-90 | definition; properties in `Sessions.KapChaControls` |
| Sessions.IsTimingControl | app/models/survey.rb:92-94 | definition; properties in `Sessions.KapChaControls` |
| Sessions.IsExhortation | app/models/survey.rb:96-98 | definition of `exhortation?` |
| Sessions.HideControlsInitially | app/models/survey.rb:79-81 | definition; properties in `Sessions.KapChaControls` |
| Sessions.DisableContinueButtonInitially | app/models/survey.rb:83-85 | definition; properties in `Sessions.KapChaControls` |
| Sessions.DefaultBonusCents | app/models/survey.rb:290-296 | definition in cents; properties in `Sessions.DefaultBonusLevels` |
| Randomization.RenderSwitches | app/models/survey.rb:190-201 | definition of the inner loop; properties in `Randomization.RenderSwitchesOutcome`, `Randomization.RenderSwitchesApplies` |
| Randomization.RenderKeys | app/models/survey.rb:182-203 | definition of the outer loop; properties in `Randomization.RenderKeysOutcome`, `Randomization.RenderKeysApplies` |
| Randomization.Render | app/models/survey.rb:177-204 | definition; properties in `Randomization.RenderCharacterized`, `Randomization.RenderIdentity` |
| Delivery.NextQuestion | app/models/survey.rb:167-174 | definition; properties in `Delivery.NextIsFirstUnanswered`, `Delivery.NextQuestionErrors`, `Delivery.AllAnsweredOutcome` |
| Delivery.CatalogAfterNext | app/models/survey.rb:171-172 | definition of the write-back, which keeps the length; properties in `Delivery.CatalogAfterNextSame`, `Delivery.NextQuestionRepeats` |
| ResponseCoding.DumpSingleResponseCoded | app/models/survey.rb:317-324 | definition; properties in `ResponseCoding.DumpSingleCharacterized` |
| ResponseCoding.MultipleCoded | app/models/survey.rb:299-315 | definition; properties in `ResponseCoding.ChoicesCodeBits`, `ResponseCoding.PassCodedByBoth` |
| ResponseCoding.IsMultipleResponseQuestion | app/models/survey.rb:326-328 | definition; properties in `ResponseCoding.ResponseTypeTestsExclusive` |
| ResponseCoding.IsMultipleChoiceQuestion | app/models/survey.rb:330-332 | definition; properties in `ResponseCoding.ResponseTypeTestsExclusive` |
| ResponseCoding.IsFreeResponseLargeQuestion | app/models/survey.rb:334-336 | definition; properties in `ResponseCoding.ResponseTypeTestsExclusive` |
| ArrayExt.MapWithIndex | app/models/survey.rb:353-361 | definition, of the same length as its input; properties in `ArrayExt.MapWithIndexFacts` |
| HitCreation.HitSets | app/models/survey.rb:42-48 | definition; properties in `HitCreation.HitSetsCounts` |
| HitCreation.RunList | app/controllers/admin_controller.rb:92 | definition of the `inject`; properties in `HitCreation.CreateHitsCounts` |
| HitCreation.TreatmentFrom | app/models/survey.rb:59-66 | definition; properties in `HitCreation.TreatmentFromContents` |
| HitCreation.SessionFor | app/models/survey.rb:54-66 | definition; properties in `HitCreation.NewSessionProperties` |
| AdminReports.AllCurrentExperimentalVersion | app/models/survey.rb:147-149 | definition; properties in `AdminReports.IndexCharacterized` |
| AdminReports.AllCurrentWithAbandons | app/models/survey.rb:158-160 | definition; properties in `AdminReports.AbandonedListMembers` |
| AdminReports.AllCurrentCompleted | app/models/survey.rb:162-164 | definition; properties in `AdminReports.CompletedListMembers` |
| AdminReports.Index | app/controllers/admin_controller.rb:30-35 | definition; properties in `AdminReports.IndexCharacterized` |
| AdminReports.InvestigateAttrition | app/controllers/admin_controller.rb:158-162 | definition; properties in `AdminReports.InvestigateAttritionCharacterized` |
| AdminReports.BuggyHits | app/controllers/admin_controller.rb:164-168 | definition; properties in `AdminReports.BuggyHitsCharacterized` |
| AdminReports.DashboardLists | app/controllers/admin_controller.rb:172-174 | definition; properties in `AdminReports.DashboardDisjoint`, `AdminReports.DashboardAbandonedExact` |
| AdminReports.ByRun | app/controllers/admin_controller.rb:181-184 | definition; properties in `AdminReports.ByRunMembers` |
| AdminReports.Narrow | app/controllers/admin_controller.rb:185-188 | definition; properties in `AdminReports.NarrowMembers` |
| AdminReports.BreakdownOf | app/controllers/admin_controller.rb:181-204 | definition; properties in `AdminReports.BreakdownMembers` |
| AdminReports.SeparateDataByTreatmentAsWritten | app/controllers/admin_controller.rb:180-231 | definition as written; properties in `AdminReports.AsWrittenAbandonedAreCompleted`, `AdminReports.AsWrittenListsCompletedAsAbandoned` |
| AdminReports.SeparateDataByTreatment | app/controllers/admin_controller.rb:180-214 | the intended definition; properties in `AdminReports.SeparatedAbandonedFromAbandoned` |
| AdminReports.Dashboard | app/controllers/admin_controller.rb:170-177 | definition as written; the corrected form is `AdminReports.DashboardCorrected` |

## Left out

- Mechanical Turk calls (`mturk_create_survey_hit`, `cleanup_mturk`, `pay`, `reject`, `send_emails_to_workers`): network calls to a service outside the repository.
- ActiveRecord persistence (`find`, `reload`, `save!`, `update_attributes`, `destroy_all`, validations, serialisation) and the schema migration: a session is a plain record, and the database is a list of them in `find` order.
- `sort_by{rand}` and `randomly_sample_one`: randomness; the shuffled list is a parameter with the same multiset, the drawn levels are a parameter.
- Floating point: the wage is not part of the session record; probabilities are exact rationals; `default_bonus` is in cents.
- `Time.now`: time is the parameter `now`. `total_time_for_questions_in_sec` and `total_time_for_feedback_in_sec` are clock arithmetic and are not modelled.
- `pay_status_to_s`, `age_gender_to_s`, `treatment_to_s`: presentation strings.
- `true_questions_left`, `check_questions_left`, `true_responses_sorted`, `done_with_true_questions?`, the `…_randomized` and `num_…_left` helpers: they call helpers that are not part of this model.
- `true_questions_completed`, `check_questions_completed`: they select on a `response_type` column of the answer rows, which the answer record does not carry.
- `question_objects_with_respondent_data` and `passed_imc?`: with a repeated signature both list elements are the same shared hash, which a list of values cannot represent; the single-answer write is modelled (`Delivery.Catalog.QuestionObjectWithRespondentData`).
- `rejected?`, `paid?`, `emailed_type?`, `disqualified?`: fields or constants outside the modelled record.
- `FillInChars`, `Oppenheimer99IMC1`, `CheckQuestions`, `NeedForCognitionQuestions`: defined in modules that are not part of this model; they are parameters.
- TextReplace.ReplaceAll: inserts the replacement literally; Ruby's `gsub` also expands backslash sequences (`\0`, `\&`, `\1`…`\9`, `` \` ``, `\'`, `\\`) in a String replacement, which is not modelled. No switch text of the catalog contains a backslash.
- `ResponseDelimiter` and `String#split`: the multiple-response coder takes the split pieces.
- `other_response_params` and display constants (colours, words per minute): no engine logic depends on them.
- `completed_hits` and `comments_page`: `completed_hits` is `AdminReports.SeparateDataByTreatmentAsWritten` with no abandoned list; `comments_page` is the completed list narrowed to one run. Neither has a lemma of its own.
- `nuke`, `versions`, the notes updates, `investigate_survey`, `data_dump`, login filters and views: persistence and presentation.
- The duplicate-submission race: concurrency; only its after-the-fact detection (`has_duplicate_questions?`) is modelled.
- The `to_i` and `to_sym` conversions of request parameters: counts are integers (absent is 0), the run filter is an optional symbol.
- Delivery.NextQuestionRepeats: states the same text for the second call only when no placeholder's first character occurs in the first rendering; otherwise it promises the same signature only, because `gsub` can find a placeholder again in rendered text (text "aabb", placeholder "ab", switch text "" gives "ab" and then "").
- Randomization.RenderCharacterized: does not claim that no placeholder remains after substitution, which `gsub` does not guarantee when a replacement contains a placeholder or an occurrence straddles two.
- Randomization.RenderSwitchesOutcome: when a switch lacks the level and the placeholder index is past the end at once, it reports the missing text; Ruby checks the replacement argument of `gsub` before the pattern.

## Findings

| source | as written | input that shows it | evidently intended | confidence | as-written member | corrected member |
|---|---|---|---|---|---|---|
| app/models/survey.rb:171-200 | `reject` returns the catalog's own hashes, so substitution writes one session's treatment text into the shared catalog entry | a question "a " + placeholder with the `:place` switch; a `place: fancy` session asks first, then a `place: run_down` session is shown "a fancy resort" | substitute on a copy, so each session sees its own level | not executed | Delivery.SharedCatalogLeaksTreatment | Delivery.Catalog.NextQuestionFromCopy |
| app/controllers/admin_controller.rb:215-229 | the run-down, free and paid "abandoned" buckets are selected from the completed run buckets `@controls` etc. | one completed control session with `place: run_down` and no abandoned session: it appears in `@controls_rundown_abandoned` | select them from the abandoned run buckets, like the fancy ones at 210-213 | not executed | AdminReports.AsWrittenListsCompletedAsAbandoned | AdminReports.DashboardCorrected |
