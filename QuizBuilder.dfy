/** The quiz builder of main.py: `process_generated_quizzes` and the `generate_quiz` wrapper
    around it. The text-generation reply arrives already decoded by `json.loads` (or marked
    undecodable); the module validates every decoded question record, shuffles its four answers
    in place and locates the correct one with `list.index`. */
module QuizBuilder {
  import opened Wrappers
  import Text

  /** A value as `json.loads` returns it. Objects are dictionaries: a duplicated key keeps its
      last value, which a map models directly. */
  datatype Json =
    | JNull
    | JBool(b: bool)
    | JNum(n: real)
    | JStr(s: string)
    | JArr(elems: seq<Json>)
    | JObj(fields: map<string, Json>)

  /** The Python exceptions the builder can raise on a decoded value of the wrong shape. */
  datatype PyError = AttributeError | TypeError | KeyError

  /** The reply text after `json.loads`: either it raised `JSONDecodeError` or it gave a value. */
  datatype Response = Undecodable | Decoded(value: Json)

  /** What the completion call in `generate_quiz` produced: an exception from the service, or
      the first choice's message content. */
  datatype Completion = ServiceError | Reply(response: Response)

  /** The fields of a record that passed validation: the stripped question and correct answer,
      and the incorrect answers exactly as decoded (they are not stripped). */
  datatype Record = Record(question: string, correctAnswer: string, incorrectAnswers: seq<Json>)

  /** What the loop body does with one decoded element: keep it, skip it (`continue`), or raise. */
  datatype Verdict = Accept(record: Record) | Reject | Raise(error: PyError)

  /** A built quiz: `{'question': ..., 'answers': ..., 'correct_option_id': ...}`. */
  datatype QuizItem = QuizItem(question: string, answers: seq<Json>, correctOptionId: nat)

  /** `d.get(key, default)` on a decoded JSON object. */
  function Get(fields: map<string, Json>, key: string, default: Json): Json {
    if key in fields then fields[key] else default
  }

  /** The three keys a question object is read through. */
  const QuestionKey: string := "question"
  const CorrectKey: string := "correct_answer"
  const IncorrectKey: string := "incorrect_answers"

  /** Whether Python's `len(v)` is defined on the decoded value: strings, lists and dicts have a
      length; numbers, booleans and None raise TypeError. */
  predicate HasLen(v: Json) {
    v.JStr? || v.JArr? || v.JObj?
  }

  /** Python's `len(v)`. */
  function Len(v: Json): nat
    requires HasLen(v)
  {
    match v
    case JStr(s) => |s|
    case JArr(es) => |es|
    case JObj(m) => |m|
  }

  /** The condition a kept record satisfies: non-empty stripped question and correct answer,
      exactly three incorrect answers. */
  predicate ValidRecord(rec: Record) {
    rec.question != [] && rec.correctAnswer != [] && |rec.incorrectAnswers| == 3
  }

  /** The body of the `for item in data` loop up to the append. `item.get` exists only on a dict
      (AttributeError otherwise); the question and the correct answer (default `""`) must be
      strings for `strip()` (AttributeError otherwise); the validity test short-circuits, so `len`
      is taken only when both stripped texts are non-empty (TypeError when it has no length); and
      `[correct_answer] + incorrect_answers` raises TypeError unless `incorrect_answers` is a list.
  */
  function Classify(item: Json): (v: Verdict)
    ensures v.Accept? ==> ValidRecord(v.record)
  {
    if !item.JObj? then Raise(AttributeError)
    else
      var question := Get(item.fields, QuestionKey, JStr(""));
      var correct := Get(item.fields, CorrectKey, JStr(""));
      var incorrect := Get(item.fields, IncorrectKey, JArr([]));
      if !question.JStr? || !correct.JStr? then Raise(AttributeError)
      else if Text.Strip(question.s) == [] || Text.Strip(correct.s) == [] then Reject
      else if !HasLen(incorrect) then Raise(TypeError)
      else if Len(incorrect) != 3 then Reject
      else if !incorrect.JArr? then Raise(TypeError)
      else Accept(Record(Text.Strip(question.s), Text.Strip(correct.s), incorrect.elems))
  }

  /** An element is kept exactly when it is an object whose question and correct answer are
      strings (or absent) that are not all whitespace, and whose `incorrect_answers` is a list of
      three. The accepted record carries the stripped texts and the list as decoded. */
  lemma ClassifyAcceptIff(item: Json)
    requires item.JObj?
    ensures var question := Get(item.fields, QuestionKey, JStr(""));
      var correct := Get(item.fields, CorrectKey, JStr(""));
      var incorrect := Get(item.fields, IncorrectKey, JArr([]));
      (Classify(item).Accept? <==>
        question.JStr? && !Text.AllSpace(question.s) &&
        correct.JStr? && !Text.AllSpace(correct.s) &&
        incorrect.JArr? && |incorrect.elems| == 3) &&
      (Classify(item).Accept? ==>
        Classify(item).record == Record(Text.Strip(question.s), Text.Strip(correct.s), incorrect.elems))
  {
    var question := Get(item.fields, QuestionKey, JStr(""));
    var correct := Get(item.fields, CorrectKey, JStr(""));
    if question.JStr? { Text.StripEmptyIff(question.s); }
    if correct.JStr? { Text.StripEmptyIff(correct.s); }
  }

  /** An element is skipped (logged, `continue`) exactly when it is an object with string (or
      absent) texts and either text is all whitespace, or `incorrect_answers` has a length other
      than 3. Every element that is neither kept nor skipped raises. */
  lemma ClassifyRejectIff(item: Json)
    requires item.JObj?
    ensures var question := Get(item.fields, QuestionKey, JStr(""));
      var correct := Get(item.fields, CorrectKey, JStr(""));
      var incorrect := Get(item.fields, IncorrectKey, JArr([]));
      Classify(item).Reject? <==>
        question.JStr? && correct.JStr? &&
        (Text.AllSpace(question.s) || Text.AllSpace(correct.s) ||
         (HasLen(incorrect) && Len(incorrect) != 3))
  {
    var question := Get(item.fields, QuestionKey, JStr(""));
    var correct := Get(item.fields, CorrectKey, JStr(""));
    if question.JStr? { Text.StripEmptyIff(question.s); }
    if correct.JStr? { Text.StripEmptyIff(correct.s); }
  }

  /** Anything but an object raises AttributeError at `item.get`. */
  lemma ClassifyNonObject(item: Json)
    requires !item.JObj?
    ensures Classify(item) == Raise(AttributeError)
  {
  }

  /** The outcome of the loop given the verdict on each element, in order: the records kept,
      or the exception that ended it. Defined on prefixes so that it follows the loop step by
      step. */
  function Outcome(vs: seq<Verdict>): (r: Result<seq<Record>, PyError>)
    ensures r.Success? ==> |r.value| <= |vs|
  {
    if vs == [] then Success([])
    else
      match Outcome(vs[..|vs| - 1])
      case Failure(e) => Failure(e)
      case Success(kept) =>
        match vs[|vs| - 1]
        case Raise(e) => Failure(e)
        case Reject => Success(kept)
        case Accept(rec) => Success(kept + [rec])
  }

  /** The verdict on every element of the decoded list. */
  function Classified(items: seq<Json>): (vs: seq<Verdict>)
    ensures |vs| == |items|
  {
    seq(|items|, i requires 0 <= i < |items| => Classify(items[i]))
  }

  /** What `for item in data` iterates over. A list gives its elements; an empty dict or empty
      string gives nothing; a non-empty dict or string gives string keys or characters, on which
      the first `item.get` raises AttributeError; a number, boolean or None is not iterable. */
  function Iterate(data: Json): (r: Result<seq<Json>, PyError>)
    ensures r.Success? <==> data.JArr? || data == JObj(map[]) || data == JStr([])
    ensures data.JArr? ==> r == Success(data.elems)
    ensures r.Success? && !data.JArr? ==> r.value == []
    ensures r.Failure? ==> (r.error == AttributeError <==> data.JObj? || data.JStr?)
    ensures r.Failure? ==> r.error != KeyError
  {
    match data
    case JArr(es) => Success(es)
    case JObj(m) => if m == map[] then Success([]) else Failure(AttributeError)
    case JStr(s) => if s == [] then Success([]) else Failure(AttributeError)
    case _ => Failure(TypeError)
  }

  /** What `process_generated_quizzes` does, record by record: an undecodable reply is caught
      and gives `[]`; otherwise the loop's outcome. A decoded list is walked to the end exactly
      when none of its elements raises, and whatever is kept passes the validity test. */
  function Validate(response: Response): (r: Result<seq<Record>, PyError>)
    ensures response.Undecodable? ==> r == Success([])
    ensures response.Decoded? && response.value.JArr? ==>
      (r.Success? <==> forall i :: 0 <= i < |response.value.elems| ==> !Classify(response.value.elems[i]).Raise?)
    ensures response.Decoded? && !response.value.JArr? ==> r.Failure? || r == Success([])
    ensures r.Success? ==> forall k :: 0 <= k < |r.value| ==> ValidRecord(r.value[k])
  {
    match response
    case Undecodable => Success([])
    case Decoded(data) =>
      match Iterate(data)
      case Failure(e) => Failure(e)
      case Success(items) =>
        var vs := Classified(items);
        SucceedsIff(vs);
        assert forall i :: 0 <= i < |items| ==> vs[i] == Classify(items[i]);
        if Outcome(vs).Success? then ValidatedRecords(items); Outcome(vs) else Outcome(vs)
  }

  /** `item` is what the builder makes of `rec`: it keeps the stripped question, its answers are
      a rearrangement of `[correct] + incorrect`, and `correct_option_id` is the FIRST position
      holding the correct answer (`list.index`). */
  predicate Built(rec: Record, item: QuizItem) {
    item.question == rec.question &&
    multiset(item.answers) == multiset([JStr(rec.correctAnswer)] + rec.incorrectAnswers) &&
    item.correctOptionId < |item.answers| &&
    item.answers[item.correctOptionId] == JStr(rec.correctAnswer) &&
    forall k :: 0 <= k < item.correctOptionId ==> item.answers[k] != JStr(rec.correctAnswer)
  }

  /** A quiz the bot can ask: a question, four answers, and an index in [0, 3] at which a
      non-blank string answer stands. */
  predicate WellFormed(item: QuizItem) {
    item.question != [] &&
    |item.answers| == 4 &&
    item.correctOptionId < 4 &&
    item.answers[item.correctOptionId].JStr? &&
    item.answers[item.correctOptionId].s != []
  }

  /** Every item built from a kept record has exactly four answers and `answers[correct_option_id]`
      is that record's stripped correct answer, so `correct_option_id` lies in [0, 3]. */
  lemma BuiltIsWellFormed(rec: Record, item: QuizItem)
    requires ValidRecord(rec) && Built(rec, item)
    ensures WellFormed(item)
    ensures item.answers[item.correctOptionId] == JStr(rec.correctAnswer)
  {
    calc {
      |item.answers|;
      |multiset(item.answers)|;
      |multiset([JStr(rec.correctAnswer)] + rec.incorrectAnswers)|;
      |[JStr(rec.correctAnswer)] + rec.incorrectAnswers|;
    }
  }

  /** When the correct answer also appears, verbatim, among the incorrect ones, the shuffled list
      holds it twice and `correct_option_id` names the earlier of the two positions. */
  lemma DuplicateCorrectAnswer(rec: Record, item: QuizItem)
    requires Built(rec, item) && JStr(rec.correctAnswer) in rec.incorrectAnswers
    ensures exists k :: item.correctOptionId < k < |item.answers| &&
                        item.answers[k] == JStr(rec.correctAnswer)
  {
    var c := JStr(rec.correctAnswer);
    var id := item.correctOptionId;
    var before := item.answers[..id + 1];
    var after := item.answers[id + 1..];
    assert item.answers == before + after;
    assert multiset([c] + rec.incorrectAnswers)[c] >= 2 by {
      assert multiset([c] + rec.incorrectAnswers) == multiset([c]) + multiset(rec.incorrectAnswers);
    }
    assert multiset(before)[c] == 1 by {
      assert before == item.answers[..id] + [c];
      assert c !in item.answers[..id];
    }
    assert multiset(item.answers) == multiset(before) + multiset(after);
    assert c in after;
    var j :| 0 <= j < |after| && after[j] == c;
    assert item.answers[id + 1 + j] == c;
  }

  // ---------------------------------------------------------------------------------------
  // Facts about the loop over the decoded list

  /** Once the loop has raised, the rest of the list is never looked at: the exception is the
      outcome for the whole list. */
  lemma {:induction false} FailureIsFinal(vs: seq<Verdict>, i: nat)
    requires i <= |vs| && Outcome(vs[..i]).Failure?
    ensures Outcome(vs) == Outcome(vs[..i])
    decreases |vs| - i
  {
    if i < |vs| {
      assert vs[..i + 1][..i] == vs[..i];
      FailureIsFinal(vs, i + 1);
    } else {
      assert vs[..i] == vs;
    }
  }

  /** The loop completes exactly when no element raises. */
  lemma {:induction false} SucceedsIff(vs: seq<Verdict>)
    ensures Outcome(vs).Success? <==> forall i :: 0 <= i < |vs| ==> !vs[i].Raise?
  {
    if vs != [] {
      var init := vs[..|vs| - 1];
      SucceedsIff(init);
      assert forall i :: 0 <= i < |init| ==> init[i] == vs[i];
    }
  }

  /** A rejected element is skipped without aborting the rest: removing it changes nothing. */
  lemma {:induction false} RejectedIsSkipped(p: seq<Verdict>, q: seq<Verdict>)
    ensures Outcome(p + [Reject] + q) == Outcome(p + q)
    decreases |q|
  {
    if q == [] {
      assert (p + [Reject])[..|p|] == p;
      assert p + [Reject] + [] == p + [Reject];
      assert p + [] == p;
    } else {
      var init, last := q[..|q| - 1], q[|q| - 1];
      RejectedIsSkipped(p, init);
      assert (p + [Reject] + q)[..|p + [Reject] + q| - 1] == p + [Reject] + init;
      assert (p + q)[..|p + q| - 1] == p + init;
      assert (p + [Reject] + q)[|p + [Reject] + q| - 1] == last;
      assert (p + q)[|p + q| - 1] == last;
    }
  }

  /** One more turn of the loop: an element that raises ends it, a rejected one leaves the
      records as they were, an accepted one appends its record. */
  lemma OutcomeStep(vs: seq<Verdict>, i: nat)
    requires i < |vs| && Outcome(vs[..i]).Success?
    ensures Outcome(vs[..i + 1]) ==
      match vs[i]
      case Raise(e) => Failure(e)
      case Reject => Outcome(vs[..i])
      case Accept(rec) => Success(Outcome(vs[..i]).value + [rec])
  {
    assert vs[..i + 1][..i] == vs[..i];
  }

  /** The positions of the accepted elements, in increasing order. */
  function KeptPositions(vs: seq<Verdict>): (idx: seq<nat>)
    ensures forall k :: 0 <= k < |idx| ==> idx[k] < |vs| && vs[idx[k]].Accept?
    ensures forall k, l :: 0 <= k < l < |idx| ==> idx[k] < idx[l]
    ensures forall i :: 0 <= i < |vs| && vs[i].Accept? ==> i in idx
  {
    if vs == [] then []
    else
      var init := vs[..|vs| - 1];
      var n := |vs| - 1;
      assert forall i :: 0 <= i < n ==> init[i] == vs[i];
      KeptPositions(init) + if vs[n].Accept? then [n] else []
  }

  /** The output keeps the accepted records in their original relative order: the k-th record
      returned is the one accepted at the k-th kept position, and every accepted element is kept
      (by `KeptPositions`). */
  lemma {:induction false} KeepsOrder(vs: seq<Verdict>)
    requires Outcome(vs).Success?
    ensures |KeptPositions(vs)| == |Outcome(vs).value|
    ensures forall k :: 0 <= k < |KeptPositions(vs)| ==>
              vs[KeptPositions(vs)[k]] == Accept(Outcome(vs).value[k])
  {
    if vs != [] {
      var init := vs[..|vs| - 1];
      var n := |vs| - 1;
      KeepsOrder(init);
      assert forall i :: 0 <= i < n ==> init[i] == vs[i];
    }
  }

  /** Every record the builder keeps is valid, and it is what `Classify` made of the element at
      its kept position. */
  lemma ValidatedRecords(items: seq<Json>)
    requires Outcome(Classified(items)).Success?
    ensures forall k :: 0 <= k < |Outcome(Classified(items)).value| ==>
              ValidRecord(Outcome(Classified(items)).value[k])
  {
    var vs := Classified(items);
    KeepsOrder(vs);
    forall k | 0 <= k < |Outcome(vs).value| ensures ValidRecord(Outcome(vs).value[k]) {
      var i := KeptPositions(vs)[k];
      assert vs[i] == Classify(items[i]);
    }
  }

  /** The first of the two sample objects the prompt shows the text-generation service. */
  const ExampleQuestion: Json :=
    JObj(map[QuestionKey := JStr("Сколько будет 2 + 2?"), CorrectKey := JStr("4"),
             IncorrectKey := JArr([JStr("3"), JStr("5"), JStr("6")])])

  /** The sample object's three fields, read through `get`. */
  lemma ExampleFields()
    ensures Get(ExampleQuestion.fields, QuestionKey, JStr("")) == JStr("Сколько будет 2 + 2?")
    ensures Get(ExampleQuestion.fields, CorrectKey, JStr("")) == JStr("4")
    ensures Get(ExampleQuestion.fields, IncorrectKey, JArr([])) == JArr([JStr("3"), JStr("5"), JStr("6")])
  {
  }

  /** The sample question has nothing to strip and is not blank. */
  lemma ExampleQuestionText()
    ensures Text.Stripped("Сколько будет 2 + 2?")
  {
    Text.VisibleIsNotSpace("Сколько будет 2 + 2?"[0]);
    Text.VisibleIsNotSpace("Сколько будет 2 + 2?"[19]);
  }

  /** The sample correct answer has nothing to strip and is not blank. */
  lemma ExampleAnswerText()
    ensures Text.Stripped("4")
  {
    Text.VisibleIsNotSpace("4"[0]);
  }

  /** An object whose question and correct answer are already stripped and not empty, and
      whose `incorrect_answers` is a list of three, is kept as it is. */
  lemma CleanItemKept(item: Json, question: string, correct: string, incorrect: seq<Json>)
    requires item.JObj?
    requires Get(item.fields, QuestionKey, JStr("")) == JStr(question)
    requires Get(item.fields, CorrectKey, JStr("")) == JStr(correct)
    requires Get(item.fields, IncorrectKey, JArr([])) == JArr(incorrect)
    requires question != [] && Text.Stripped(question)
    requires correct != [] && Text.Stripped(correct)
    requires |incorrect| == 3
    ensures Classify(item) == Accept(Record(question, correct, incorrect))
  {
  }

  /** The sample object is accepted as it stands: nothing to strip, three incorrect answers. */
  lemma ExampleItem()
    ensures Classify(ExampleQuestion) == Accept(Record("Сколько будет 2 + 2?", "4", [JStr("3"), JStr("5"), JStr("6")]))
  {
    ExampleFields();
    ExampleQuestionText();
    ExampleAnswerText();
    CleanItemKept(ExampleQuestion, "Сколько будет 2 + 2?", "4", [JStr("3"), JStr("5"), JStr("6")]);
  }

  /** A list of one accepted element gives that element's record. */
  lemma OutcomeOfOne(v: Verdict)
    requires v.Accept?
    ensures Outcome([v]) == Success([v.record])
  {
    assert [v][..0] == [];
    assert [] + [v.record] == [v.record];
  }

  /** A reply holding a single list element that is kept validates to that element's record. */
  lemma SingleItemReply(item: Json)
    requires Classify(item).Accept?
    ensures Validate(Decoded(JArr([item]))) == Success([Classify(item).record])
  {
    var v := Classify(item);
    assert Classified([item]) == [v];
    OutcomeOfOne(v);
  }

  // ---------------------------------------------------------------------------------------
  // The imperative builder

  /** `s` with the elements at `i` and `j` exchanged. */
  function Swap(s: seq<Json>, i: nat, j: nat): (t: seq<Json>)
    requires i < |s| && j < |s|
    ensures |t| == |s|
  {
    s[i := s[j]][j := s[i]]
  }

  /** An exchange of two elements loses none and adds none. */
  lemma SwapPermutes(s: seq<Json>, i: nat, j: nat)
    requires i < |s| && j < |s|
    ensures multiset(Swap(s, i, j)) == multiset(s)
  {
  }

  /** A random index below `bound`: the draw `rng(next)` reduced modulo `bound`, standing for
      CPython's `randbelow(bound)`. */
  function Draw(rng: nat -> nat, next: nat, bound: nat): (j: nat)
    requires bound > 0
    ensures j < bound
  {
    rng(next) % bound
  }

  /** The swaps of CPython's `random.shuffle` from position `i` down to 1: position `i` is
      exchanged with a random position in [0, i]. */
  function ShuffledFrom(s: seq<Json>, i: nat, rng: nat -> nat, next: nat): (r: seq<Json>)
    requires i < |s|
    ensures |r| == |s|
    decreases i
  {
    if i == 0 then s
    else ShuffledFrom(Swap(s, i, Draw(rng, next, i + 1)), i - 1, rng, next + 1)
  }

  /** `random.shuffle` applied to `s`, drawing `rng(from)`, `rng(from + 1)`, ... in turn. */
  function Shuffled(s: seq<Json>, rng: nat -> nat, from: nat): (r: seq<Json>)
    ensures |r| == |s|
  {
    if s == [] then [] else ShuffledFrom(s, |s| - 1, rng, from)
  }

  /** The swaps rearrange the elements and lose none. */
  lemma {:induction false} ShuffledFromIsPermutation(s: seq<Json>, i: nat, rng: nat -> nat, next: nat)
    requires i < |s|
    ensures |ShuffledFrom(s, i, rng, next)| == |s|
    ensures multiset(ShuffledFrom(s, i, rng, next)) == multiset(s)
    decreases i
  {
    if i > 0 {
      var j := Draw(rng, next, i + 1);
      SwapPermutes(s, i, j);
      ShuffledFromIsPermutation(Swap(s, i, j), i - 1, rng, next + 1);
    }
  }

  /** Shuffling is a permutation, whatever the random draws. */
  lemma ShuffledIsPermutation(s: seq<Json>, rng: nat -> nat, from: nat)
    ensures |Shuffled(s, rng, from)| == |s|
    ensures multiset(Shuffled(s, rng, from)) == multiset(s)
  {
    if s != [] {
      ShuffledFromIsPermutation(s, |s| - 1, rng, from);
    }
  }

  /** `random.shuffle(a)` in place, as CPython implements it (Fisher-Yates from the end): for i
      from |a| - 1 down to 1, swap a[i] with a[j] for a random j in [0, i]. The random numbers
      are the draws `rng(from)`, `rng(from + 1)`, ...; the result is the next unused draw. */
  method Shuffle(a: array<Json>, rng: nat -> nat, from: nat) returns (next: nat)
    modifies a
    ensures a[..] == Shuffled(old(a[..]), rng, from)
    ensures multiset(a[..]) == multiset(old(a[..]))
    ensures next == from + if a.Length == 0 then 0 else a.Length - 1
  {
    ShuffledIsPermutation(a[..], rng, from);
    next := from;
    if a.Length == 0 {
      return;
    }
    var i := a.Length - 1;
    ghost var target := Shuffled(a[..], rng, from);
    while i > 0
      invariant 0 <= i < a.Length
      invariant next == from + (a.Length - 1 - i)
      invariant ShuffledFrom(a[..], i, rng, next) == target
    {
      var j := Draw(rng, next, i + 1);
      ghost var before := a[..];
      var t := a[i];
      a[i] := a[j];
      a[j] := t;
      assert a[..] == before[i := before[j]][j := before[i]];
      next := next + 1;
      i := i - 1;
    }
  }

  /** `a.index(x)`: the first position holding `x`. The builder only asks for an answer it has
      just put into the list, so the ValueError of a missing element cannot arise. */
  method IndexOf(a: array<Json>, x: Json) returns (r: nat)
    requires x in a[..]
    ensures r < a.Length && a[r] == x
    ensures forall k :: 0 <= k < r ==> a[k] != x
  {
    r := 0;
    while a[r] != x
      invariant r < a.Length
      decreases a.Length - r
      invariant x in a[r..]
      invariant forall k :: 0 <= k < r ==> a[k] != x
    {
      assert a[r..] == [a[r]] + a[r + 1..];
      r := r + 1;
    }
  }

  /** Builds the quiz for one kept record: `answers = [correct] + incorrect`, shuffle in place,
      `correct_option_id = answers.index(correct)`. */
  method BuildItem(rec: Record, rng: nat -> nat, from: nat) returns (item: QuizItem, next: nat)
    ensures Built(rec, item)
    ensures item.answers == ShuffledFrom([JStr(rec.correctAnswer)] + rec.incorrectAnswers, |rec.incorrectAnswers|, rng, from)
    ensures next == from + |rec.incorrectAnswers|
  {
    var list := [JStr(rec.correctAnswer)] + rec.incorrectAnswers;
    var answers := new Json[|list|](k requires 0 <= k < |list| => list[k]);
    assert answers[..] == list;
    next := Shuffle(answers, rng, from);
    assert JStr(rec.correctAnswer) in multiset(answers[..]);
    var id := IndexOf(answers, JStr(rec.correctAnswer));
    item := QuizItem(rec.question, answers[..], id);
  }

  /** Pairwise, `quizzes` are the well-formed quizzes built from `recs`. */
  predicate AllBuilt(recs: seq<Record>, quizzes: seq<QuizItem>) {
    |recs| == |quizzes| &&
    forall k :: 0 <= k < |quizzes| ==> Built(recs[k], quizzes[k]) && WellFormed(quizzes[k])
  }

  /** Appending a quiz built from a valid record keeps the pairing. */
  lemma AllBuiltAppend(recs: seq<Record>, quizzes: seq<QuizItem>, rec: Record, item: QuizItem)
    requires AllBuilt(recs, quizzes) && ValidRecord(rec) && Built(rec, item)
    ensures AllBuilt(recs + [rec], quizzes + [item])
  {
    BuiltIsWellFormed(rec, item);
    forall k | 0 <= k < |quizzes| + 1
      ensures Built((recs + [rec])[k], (quizzes + [item])[k]) && WellFormed((quizzes + [item])[k])
    {
      if k < |quizzes| {
        assert (recs + [rec])[k] == recs[k] && (quizzes + [item])[k] == quizzes[k];
      }
    }
  }

  /** The `for item in data` loop of `process_generated_quizzes`: logs and skips every invalid
      element, builds a quiz for every valid one and appends it, so the quizzes come out in input
      order. An exception raised by an element ends the loop and is passed on. */
  method BuildQuizzes(items: seq<Json>, rng: nat -> nat) returns (r: Result<seq<QuizItem>, PyError>)
    ensures r.Success? <==> Outcome(Classified(items)).Success?
    ensures r.Failure? ==> r.error == Outcome(Classified(items)).error
    ensures r.Success? ==>
      |r.value| == |Outcome(Classified(items)).value| &&
      forall k :: 0 <= k < |r.value| ==> Built(Outcome(Classified(items)).value[k], r.value[k])
    ensures r.Success? ==> forall k :: 0 <= k < |r.value| ==> WellFormed(r.value[k])
  {
    ghost var vs := Classified(items);
    var quizzes: seq<QuizItem> := [];
    var draw: nat := 0;
    var i := 0;
    while i < |items|
      invariant 0 <= i <= |items|
      invariant Outcome(vs[..i]).Success?
      invariant AllBuilt(Outcome(vs[..i]).value, quizzes)
    {
      ghost var kept := Outcome(vs[..i]).value;
      var verdict := Classify(items[i]);
      assert vs[i] == verdict;
      OutcomeStep(vs, i);
      match verdict {
        case Raise(e) =>
          FailureIsFinal(vs, i + 1);
          return Failure(e);
        case Reject =>
        case Accept(rec) =>
          var item;
          item, draw := BuildItem(rec, rng, draw);
          AllBuiltAppend(kept, quizzes, rec, item);
          quizzes := quizzes + [item];
      }
      i := i + 1;
    }
    assert vs[..i] == vs;
    return Success(quizzes);
  }

  /** `process_generated_quizzes`: an undecodable reply is caught and gives `[]`; a decoded value
      is walked by the loop, and a value that cannot be walked raises. */
  method ProcessGeneratedQuizzes(response: Response, rng: nat -> nat)
    returns (r: Result<seq<QuizItem>, PyError>)
    ensures r.Success? <==> Validate(response).Success?
    ensures r.Failure? ==> r.error == Validate(response).error
    ensures r.Success? ==>
      |r.value| == |Validate(response).value| &&
      forall k :: 0 <= k < |r.value| ==> Built(Validate(response).value[k], r.value[k])
    ensures r.Success? ==> forall k :: 0 <= k < |r.value| ==> WellFormed(r.value[k])
  {
    if response.Undecodable? {
      return Success([]);
    }
    var iterated := Iterate(response.value);
    if iterated.Failure? {
      return Failure(iterated.error);
    }
    r := BuildQuizzes(iterated.value, rng);
  }

  /** What `generate_quiz` returns for a completion: `[]` when the service failed or building
      raised; otherwise, pairwise, the well-formed quizzes built from the kept records. */
  predicate GeneratedFrom(completion: Completion, quizzes: seq<QuizItem>) {
    if completion.ServiceError? || Validate(completion.response).Failure? then quizzes == []
    else AllBuilt(Validate(completion.response).value, quizzes)
  }

  /** `generate_quiz` after the completion call: a service error or any exception raised while
      building gives `[]`; otherwise the built quizzes, every one of them well-formed. The prompt
      text, which depends on the subject and difficulty, is not modelled: `completion` stands for
      the service's answer to it. */
  method GenerateQuiz(completion: Completion, rng: nat -> nat) returns (quizzes: seq<QuizItem>)
    ensures GeneratedFrom(completion, quizzes)
    ensures forall k :: 0 <= k < |quizzes| ==> WellFormed(quizzes[k])
  {
    if completion.ServiceError? {
      return [];
    }
    var r := ProcessGeneratedQuizzes(completion.response, rng);
    if r.Failure? {
      return [];
    }
    quizzes := r.value;
  }
}
