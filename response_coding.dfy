/** Coding of recorded responses for the data dumps, and the response-type tests on
    catalog questions. */
module ResponseCoding {
  import opened Wrappers
  import opened Questions
  import Sessions

  /** `response == choice`: a `[text, code]` pair never equals a response string, and
      neither does a missing response. */
  predicate ChoiceMatches(c: Choice, response: string)
  {
    c.Plain? && c.text == response
  }

  /** The catalog entry's type and the true question's recorded response together say
      that the attention check was passed. */
  predicate PassedCheck(entry: Question, trueQuestion: Question)
  {
    entry.questionType == ImcCheck && trueQuestion.responses == Some("pass")
  }

  /** A single-response code: `'pass'`, the 1-based position of the chosen choice, or
      `'error'`. */
  datatype SingleCode = Pass | Position(n: nat) | NoMatch

  /** The index of the first choice equal to the response. */
  function FirstMatch(choices: seq<Choice>, response: Option<string>): (r: Option<nat>)
    ensures r.None? <==> response.None? || forall j :: 0 <= j < |choices| ==> !ChoiceMatches(choices[j], response.value)
    ensures r.Some? ==> response.Some? && r.value < |choices| && ChoiceMatches(choices[r.value], response.value)
                        && forall j :: 0 <= j < r.value ==> !ChoiceMatches(choices[j], response.value)
  {
    if response.None? || choices == [] then None
    else if ChoiceMatches(choices[0], response.value) then Some(0)
    else match FirstMatch(choices[1..], response)
      case None => None
      case Some(j) => Some(j + 1)
  }

  /** `dump_single_response_coded`. */
  function DumpSingleResponseCoded(catalog: seq<Question>, response: Option<string>, trueQuestion: Question)
    : Result<SingleCode, Fault>
  {
    match FindBySignature(catalog, trueQuestion.signature)
    case None => Err(UnknownSignature(trueQuestion.signature))
    case Some(k) =>
      if PassedCheck(catalog[k], trueQuestion) then Ok(Pass)
      else if catalog[k].choices.None? then Err(NoResponseChoices(trueQuestion.signature))
      else match FirstMatch(catalog[k].choices.value, response)
        case Some(j) => Ok(Position(j + 1))
        case None => Ok(NoMatch)
  }

  /** How many response pieces equal the choice. */
  function MatchCount(c: Choice, parts: seq<string>): (r: nat)
    ensures r <= |parts|
  {
    if parts == [] then 0
    else MatchCount(c, parts[..|parts| - 1]) + (if ChoiceMatches(c, parts[|parts| - 1]) then 1 else 0)
  }

  function Ones(n: nat): (r: string)
    ensures |r| == n && forall j :: 0 <= j < n ==> r[j] == '1'
  {
    seq(n, _ => '1')
  }

  /** One `'1'` per matching piece, or a single `'0'` when none matches. */
  function ChoiceCode(c: Choice, parts: seq<string>): string
  {
    var m := MatchCount(c, parts);
    if m == 0 then "0" else Ones(m)
  }

  /** The codes of the choices, in choice order. */
  function ChoicesCode(choices: seq<Choice>, parts: seq<string>): string
  {
    if choices == [] then ""
    else ChoicesCode(choices[..|choices| - 1], parts) + ChoiceCode(choices[|choices| - 1], parts)
  }

  /** `dump_multiple_responses_coded` as a function; `parts` is the recorded response
      already split on the response delimiter. */
  function MultipleCoded(catalog: seq<Question>, parts: seq<string>, trueQuestion: Question): Result<string, Fault>
  {
    match FindBySignature(catalog, trueQuestion.signature)
    case None => Err(UnknownSignature(trueQuestion.signature))
    case Some(k) =>
      if PassedCheck(catalog[k], trueQuestion) then Ok("pass")
      else if catalog[k].choices.None? then Err(NoResponseChoices(trueQuestion.signature))
      else Ok(ChoicesCode(catalog[k].choices.value, parts))
  }

  /** `dump_multiple_responses_coded`: for each choice a scan of the response pieces
      with a `not_contained` flag, appending to the code. */
  method DumpMultipleResponsesCoded(catalog: seq<Question>, parts: seq<string>, trueQuestion: Question)
    returns (r: Result<string, Fault>)
    ensures r == MultipleCoded(catalog, parts, trueQuestion)
  {
    var found := FindBySignature(catalog, trueQuestion.signature);
    if found.None? {
      return Err(UnknownSignature(trueQuestion.signature));
    }
    var q := catalog[found.value];
    if PassedCheck(q, trueQuestion) {
      return Ok("pass");
    }
    if q.choices.None? {
      return Err(NoResponseChoices(trueQuestion.signature));
    }
    var choices := q.choices.value;
    var code := "";
    var i := 0;
    while i < |choices|
      invariant 0 <= i <= |choices|
      invariant code == ChoicesCode(choices[..i], parts)
    {
      var choice := choices[i];
      var notContained := true;
      var j := 0;
      ghost var before := code;
      while j < |parts|
        invariant 0 <= j <= |parts|
        invariant code == before + Ones(MatchCount(choice, parts[..j]))
        invariant notContained <==> MatchCount(choice, parts[..j]) == 0
      {
        assert parts[..j + 1][..j] == parts[..j];
        if ChoiceMatches(choice, parts[j]) {
          code := code + "1";
          notContained := false;
        }
        j := j + 1;
      }
      assert parts[..|parts|] == parts;
      if notContained {
        code := code + "0";
      }
      assert choices[..i + 1][..i] == choices[..i];
      i := i + 1;
    }
    assert choices[..|choices|] == choices;
    return Ok(code);
  }

  // ---------------------------------------------------------------- properties

  /** The single-response code is the 1-based position of the first equal choice, and
      `'error'` exactly when no choice equals the response; a passed attention check
      codes as `'pass'` whatever the response. */
  lemma DumpSingleCharacterized(catalog: seq<Question>, response: Option<string>, trueQuestion: Question)
    requires FindBySignature(catalog, trueQuestion.signature).Some?
    ensures var entry := catalog[FindBySignature(catalog, trueQuestion.signature).value];
      && (PassedCheck(entry, trueQuestion) ==> DumpSingleResponseCoded(catalog, response, trueQuestion) == Ok(Pass))
      && (!PassedCheck(entry, trueQuestion) && entry.choices.Some? ==>
            (var r := DumpSingleResponseCoded(catalog, response, trueQuestion);
             r.Ok? && r.value.Position? ==>
               var n := r.value.n;
               1 <= n <= |entry.choices.value| && response.Some? &&
               ChoiceMatches(entry.choices.value[n - 1], response.value) &&
               forall j :: 0 <= j < n - 1 ==> !ChoiceMatches(entry.choices.value[j], response.value))
            && (DumpSingleResponseCoded(catalog, response, trueQuestion) == Ok(NoMatch) <==>
               response.None? || forall j :: 0 <= j < |entry.choices.value| ==> !ChoiceMatches(entry.choices.value[j], response.value)))
    ensures var entry := catalog[FindBySignature(catalog, trueQuestion.signature).value];
      !PassedCheck(entry, trueQuestion) && entry.choices.Some? && FirstMatch(entry.choices.value, response).Some? ==>
        DumpSingleResponseCoded(catalog, response, trueQuestion) == Ok(Position(FirstMatch(entry.choices.value, response).value + 1))
    ensures var entry := catalog[FindBySignature(catalog, trueQuestion.signature).value];
      !PassedCheck(entry, trueQuestion) && entry.choices.None? ==>
        DumpSingleResponseCoded(catalog, response, trueQuestion) == Err(NoResponseChoices(trueQuestion.signature))
  {
  }

  /** Both coders code a passed attention check as `'pass'`. */
  lemma PassCodedByBoth(catalog: seq<Question>, response: Option<string>, parts: seq<string>, trueQuestion: Question)
    requires FindBySignature(catalog, trueQuestion.signature).Some?
    requires PassedCheck(catalog[FindBySignature(catalog, trueQuestion.signature).value], trueQuestion)
    ensures DumpSingleResponseCoded(catalog, response, trueQuestion) == Ok(Pass)
    ensures MultipleCoded(catalog, parts, trueQuestion) == Ok("pass")
  {
  }

  lemma {:induction false} MatchCountDistinct(c: Choice, parts: seq<string>)
    requires Sessions.NoDuplicates(parts)
    ensures MatchCount(c, parts) == (if c.Plain? && c.text in parts then 1 else 0)
    decreases |parts|
  {
    if parts != [] {
      var init := parts[..|parts| - 1];
      assert Sessions.NoDuplicates(init) by {
        forall i, j | 0 <= i < j < |init| ensures init[i] != init[j] {
          assert init[i] == parts[i] && init[j] == parts[j];
        }
      }
      MatchCountDistinct(c, init);
      assert parts == init + [parts[|parts| - 1]];
      if c.Plain? && c.text == parts[|parts| - 1] {
        assert c.text !in init by {
          forall i | 0 <= i < |init| ensures init[i] != c.text {
            assert init[i] == parts[i];
          }
        }
      }
    }
  }

  /** With distinct response pieces, the multiple-response code is a bit string with
      one digit per choice: digit `j` is `'1'` exactly when choice `j` is a plain
      string among the pieces. */
  lemma {:induction false} ChoicesCodeBits(choices: seq<Choice>, parts: seq<string>)
    requires Sessions.NoDuplicates(parts)
    ensures |ChoicesCode(choices, parts)| == |choices|
    ensures forall j :: 0 <= j < |choices| ==>
      (ChoicesCode(choices, parts)[j] == '1' <==> choices[j].Plain? && choices[j].text in parts)
    ensures forall j :: 0 <= j < |choices| ==> ChoicesCode(choices, parts)[j] in "01"
    decreases |choices|
  {
    if choices != [] {
      var init := choices[..|choices| - 1];
      var last := choices[|choices| - 1];
      ChoicesCodeBits(init, parts);
      MatchCountDistinct(last, parts);
      var code := ChoicesCode(choices, parts);
      assert code == ChoicesCode(init, parts) + ChoiceCode(last, parts);
      forall j | 0 <= j < |choices|
        ensures code[j] == '1' <==> choices[j].Plain? && choices[j].text in parts
        ensures code[j] in "01"
      {
        if j < |init| {
          assert code[j] == ChoicesCode(init, parts)[j] && choices[j] == init[j];
        }
      }
    }
  }

  /** `question_is_a_multiple_response_question?`, `…_multiple_choice_question?` and
      `…_free_response_large_question?`: the response type of the catalog question with
      the signature; the lookup raises for an unknown signature. */
  function ResponseTypeOf(catalog: seq<Question>, signature: string): (r: Result<ResponseType, Fault>)
    ensures r.Err? <==> forall k :: 0 <= k < |catalog| ==> catalog[k].signature != signature
    ensures r.Err? ==> r.error == UnknownSignature(signature)
    ensures r.Ok? ==> exists k :: 0 <= k < |catalog| && catalog[k].signature == signature
                                  && catalog[k].responseType == r.value
  {
    match FindBySignature(catalog, signature)
    case None => Err(UnknownSignature(signature))
    case Some(k) => Ok(catalog[k].responseType)
  }

  function IsMultipleResponseQuestion(catalog: seq<Question>, signature: string): Result<bool, Fault>
  {
    match ResponseTypeOf(catalog, signature)
    case Err(e) => Err(e)
    case Ok(rt) => Ok(rt in {MultipleOfMany, MultipleOfManyAsBoxes})
  }

  function IsMultipleChoiceQuestion(catalog: seq<Question>, signature: string): Result<bool, Fault>
  {
    match ResponseTypeOf(catalog, signature)
    case Err(e) => Err(e)
    case Ok(rt) => Ok(rt == OneOfMany)
  }

  function IsFreeResponseLargeQuestion(catalog: seq<Question>, signature: string): Result<bool, Fault>
  {
    match ResponseTypeOf(catalog, signature)
    case Err(e) => Err(e)
    case Ok(rt) => Ok(rt == FreeResponseLarge)
  }

  /** The three tests raise together, for an unknown signature, and otherwise at most
      one of them holds. */
  lemma ResponseTypeTestsExclusive(catalog: seq<Question>, signature: string)
    ensures IsMultipleResponseQuestion(catalog, signature).Err? <==>
            forall k :: 0 <= k < |catalog| ==> catalog[k].signature != signature
    ensures IsMultipleChoiceQuestion(catalog, signature).Err? == IsMultipleResponseQuestion(catalog, signature).Err?
    ensures IsFreeResponseLargeQuestion(catalog, signature).Err? == IsMultipleResponseQuestion(catalog, signature).Err?
    ensures IsMultipleResponseQuestion(catalog, signature).Ok? ==>
      (if IsMultipleResponseQuestion(catalog, signature).value then 1 else 0) +
      (if IsMultipleChoiceQuestion(catalog, signature).value then 1 else 0) +
      (if IsFreeResponseLargeQuestion(catalog, signature).value then 1 else 0) <= 1
  {
  }
}
