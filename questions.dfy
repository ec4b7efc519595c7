/** The question-definition hashes of the survey catalog, the order they are
    delivered in, and the exceptions the survey model raises. */
module Questions {
  import opened Wrappers

  /** Ruby symbols (`:run`, `:fancy`, ...) are modelled by their names. */
  type Symbol = string

  /** `:question_type`; `Normal` stands for a hash without that key. */
  datatype QuestionType = Normal | ImcCheck | Demographic | NeedForCognition | Feedback

  /** `:response_type`. */
  datatype ResponseType =
    | MultipleOfMany | OneOfMany | RankOrder | LikertScale
    | FreeResponseSmall | FreeResponseLarge | MultipleOfManyAsBoxes | Check

  /** One entry of `:response_choices`: a plain string, or a `[text, code]` pair. */
  datatype Choice = Plain(text: string) | Coded(text: string, code: string)

  /** One `key => [switch, ...]` pair of `:randomization_text_switches`; each switch maps a
      treatment level to the text that fills one placeholder. The pairs are a
      sequence walked in the order given; every catalog question has a single key, so
      the hash's iteration order does not matter for the catalog. */
  datatype KeySwitches = KeySwitches(key: Symbol, switches: seq<map<Symbol, string>>)

  /** A question hash. `responses`, `order` and `respondedAt` are the keys that
      `question_object_with_respondent_data` writes onto the hash. */
  datatype Question = Question(
    signature: string,
    questionType: QuestionType,
    responseType: ResponseType,
    title: Option<string>,
    description: Option<string>,
    text: string,
    choices: Option<seq<Choice>>,
    submitText: Option<string>,
    switches: Option<seq<KeySwitches>>,
    responses: Option<string>,
    order: Option<nat>,
    respondedAt: Option<int>)

  /** A question with only the required keys. */
  function Basic(signature: string, qt: QuestionType, rt: ResponseType, text: string): Question
  {
    Question(signature, qt, rt, None, None, text, None, None, None, None, None, None)
  }

  /** The exceptions raised by the modelled code. */
  datatype Fault =
    | AlreadyCompleted                  // get_next_question on a completed session
    | NoQuestionLeft                    // nil handed to render_randomization_texts
    | MissingTreatment(key: Symbol)     // the session's treatment lacks a switch key
    | MissingSwitchText(level: Symbol)  // gsub with a nil replacement
    | PlaceholderMissing(index: nat)    // gsub with a nil pattern (FillInChars[i] past the end)
    | UnknownSignature(signature: string)
    | NoResponseChoices(signature: string)

  /** An element of `SurveyOrder`: an array of questions or a single question hash. */
  datatype OrderEntry = Group(members: seq<Question>) | Single(question: Question)

  /** `Array#flatten` over the survey order: arrays contribute their elements, hashes
      themselves. */
  function Flatten(order: seq<OrderEntry>): seq<Question>
  {
    if order == [] then []
    else
      (match order[0]
       case Group(qs) => qs
       case Single(q) => [q]) + Flatten(order[1..])
  }

  /** The number of questions an order entry contributes. */
  function EntrySize(e: OrderEntry): nat
  {
    match e
    case Group(qs) => |qs|
    case Single(_) => 1
  }

  function TotalSize(order: seq<OrderEntry>): nat
  {
    if order == [] then 0 else EntrySize(order[0]) + TotalSize(order[1..])
  }

  lemma {:induction false} FlattenLength(order: seq<OrderEntry>)
    ensures |Flatten(order)| == TotalSize(order)
  {
    if order != [] {
      FlattenLength(order[1..]);
    }
  }

  lemma {:induction false} FlattenAppend(a: seq<OrderEntry>, b: seq<OrderEntry>)
    ensures Flatten(a + b) == Flatten(a) + Flatten(b)
  {
    if a == [] {
      assert a + b == b;
    } else {
      assert (a + b)[0] == a[0];
      assert (a + b)[1..] == a[1..] + b;
      FlattenAppend(a[1..], b);
    }
  }

  /** Every question of every entry is in the flattened list and nothing else is. */
  lemma {:induction false} FlattenMembers(order: seq<OrderEntry>, q: Question)
    ensures q in Flatten(order) <==>
      exists i :: 0 <= i < |order| && match order[i]
        case Group(qs) => q in qs
        case Single(x) => q == x
  {
    if order != [] {
      FlattenMembers(order[1..], q);
      var head := match order[0] case Group(qs) => qs case Single(x) => [x];
      assert Flatten(order) == head + Flatten(order[1..]);
      if q in Flatten(order[1..]) {
        var i :| 0 <= i < |order[1..]| && match order[1..][i]
          case Group(qs) => q in qs
          case Single(x) => q == x;
        assert order[i + 1] == order[1..][i];
      }
      if exists i :: 0 <= i < |order| && match order[i]
        case Group(qs) => q in qs
        case Single(x) => q == x
      {
        var i :| 0 <= i < |order| && match order[i]
          case Group(qs) => q in qs
          case Single(x) => q == x;
        if i > 0 {
          assert order[1..][i - 1] == order[i];
        }
      }
    }
  }

  /** The signatures of a question list, in order. */
  function Signatures(qs: seq<Question>): (r: seq<string>)
    ensures |r| == |qs| && forall i :: 0 <= i < |qs| ==> r[i] == qs[i].signature
  {
    if qs == [] then [] else [qs[0].signature] + Signatures(qs[1..])
  }

  /** The authoring rule that no two questions share a signature. */
  predicate DistinctSignatures(qs: seq<Question>)
  {
    forall i, j :: 0 <= i < j < |qs| ==> qs[i].signature != qs[j].signature
  }

  /** `AllQuestions.detect { |q| q[:signature] == sig }`, as an index. */
  function FindBySignature(qs: seq<Question>, sig: string): (r: Option<nat>)
    ensures r.Some? ==> r.value < |qs| && qs[r.value].signature == sig
                        && forall j :: 0 <= j < r.value ==> qs[j].signature != sig
    ensures r.None? <==> forall j :: 0 <= j < |qs| ==> qs[j].signature != sig
  {
    if qs == [] then None
    else if qs[0].signature == sig then Some(0)
    else match FindBySignature(qs[1..], sig)
      case None => None
      case Some(k) => Some(k + 1)
  }

  /** With distinct signatures the lookup finds the one question with that signature. */
  lemma FindBySignatureUnique(qs: seq<Question>, k: nat)
    requires DistinctSignatures(qs) && k < |qs|
    ensures FindBySignature(qs, qs[k].signature) == Some(k)
  {
  }
  /** No signature of `a` is a signature of `b`. */
  predicate DisjointSignatures(a: seq<Question>, b: seq<Question>)
  {
    forall i, j :: 0 <= i < |a| && 0 <= j < |b| ==> a[i].signature != b[j].signature
  }

  /** Distinct signatures of a concatenation: each part distinct, the parts disjoint. */
  lemma DistinctSignaturesConcat(a: seq<Question>, b: seq<Question>)
    ensures DistinctSignatures(a + b) <==>
      DistinctSignatures(a) && DistinctSignatures(b) && DisjointSignatures(a, b)
  {
    var ab := a + b;
    if DistinctSignatures(ab) {
      forall i, j | 0 <= i < j < |a| ensures a[i].signature != a[j].signature {
        assert ab[i] == a[i] && ab[j] == a[j];
      }
      forall i, j | 0 <= i < j < |b| ensures b[i].signature != b[j].signature {
        assert ab[|a| + i] == b[i] && ab[|a| + j] == b[j];
      }
      forall i, j | 0 <= i < |a| && 0 <= j < |b| ensures a[i].signature != b[j].signature {
        assert ab[i] == a[i] && ab[|a| + j] == b[j];
      }
    }
    if DistinctSignatures(a) && DistinctSignatures(b) && DisjointSignatures(a, b) {
      forall i, j | 0 <= i < j < |ab| ensures ab[i].signature != ab[j].signature {
        if j < |a| {
          assert ab[i] == a[i] && ab[j] == a[j];
        } else if i >= |a| {
          assert ab[i] == b[i - |a|] && ab[j] == b[j - |a|];
        } else {
          assert ab[i] == a[i] && ab[j] == b[j - |a|];
        }
      }
    }
  }

  lemma DisjointSignaturesConcat(a: seq<Question>, b: seq<Question>, c: seq<Question>)
    ensures DisjointSignatures(a + b, c) <==> DisjointSignatures(a, c) && DisjointSignatures(b, c)
  {
    var ab := a + b;
    if DisjointSignatures(a, c) && DisjointSignatures(b, c) {
      forall i, j | 0 <= i < |ab| && 0 <= j < |c| ensures ab[i].signature != c[j].signature {
        if i < |a| { assert ab[i] == a[i]; } else { assert ab[i] == b[i - |a|]; }
      }
    }
    if DisjointSignatures(ab, c) {
      forall i, j | 0 <= i < |b| && 0 <= j < |c| ensures b[i].signature != c[j].signature {
        assert ab[|a| + i] == b[i];
      }
      forall i, j | 0 <= i < |a| && 0 <= j < |c| ensures a[i].signature != c[j].signature {
        assert ab[i] == a[i];
      }
    }
  }
}
