/** What the quiz renderers produce: a question object's markdown question
    block and answer block, and the two sheets rendered from a quiz set.
    A question object is a dictionary, so it is modelled as its entries in
    insertion order, which is the order the renderers visit them in. */
module Quiz {
  import opened Wrappers
  import opened Text
  import opened Decimal

  /** The JSON values a quiz object carries: a string, a list of strings, a list of integers. */
  datatype Value = Str(text: string) | StrList(items: seq<string>) | IntList(ints: seq<int>)

  datatype Entry = Entry(key: string, value: Value)

  type QuizQuestion = seq<Entry>

  /** The `ValueError` a renderer raises, carrying the offending key. */
  datatype QuizError = UnexpectedKey(key: string)

  datatype Result<T> = Ok(value: T) | Err(error: QuizError)

  /** The text of the `ValueError` raised for an unexpected key. */
  function ErrorMessage(e: QuizError): (r: string)
    ensures |r| > |e.key| && r[|r| - |e.key|..] == e.key
  {
    "Quiz question has unexpected key " + e.key
  }

  /** The only keys a quiz object may have. */
  const AllowedKeys: seq<string> := ["question", "options", "answer", "explanation", "source passage"]

  predicate IsAllowedKey(key: string)
  {
    InList(key, AllowedKeys)
  }

  /** Python's `x in xs` for a list, scanned from the front. */
  predicate InList(x: string, xs: seq<string>)
  {
    |xs| > 0 && (xs[0] == x || InList(x, xs[1..]))
  }

  /** The scan answers exactly membership in the list. */
  lemma {:induction false} InListMembership(x: string, xs: seq<string>)
    ensures InList(x, xs) <==> x in xs
    decreases |xs|
  {
    if |xs| > 0 {
      InListMembership(x, xs[1..]);
      assert xs == [xs[0]] + xs[1..];
    }
  }

  /** The keys the question renderer reads carry their quiz-format types:
      `question` a string, `options` a list of strings. */
  predicate QuestionTypedEntry(e: Entry)
  {
    && (e.key == "question" ==> e.value.Str?)
    && (e.key == "options" ==> e.value.StrList?)
  }

  /** The keys the answer renderer reads carry their quiz-format types:
      `question`, `explanation` and `source passage` strings, `answer` a list of integers. */
  predicate AnswerTypedEntry(e: Entry)
  {
    && (e.key == "question" || e.key == "explanation" || e.key == "source passage" ==> e.value.Str?)
    && (e.key == "answer" ==> e.value.IntList?)
  }

  predicate QuestionTyped(q: QuizQuestion)
  {
    forall i :: 0 <= i < |q| ==> QuestionTypedEntry(q[i])
  }

  predicate AnswerTyped(q: QuizQuestion)
  {
    forall i :: 0 <= i < |q| ==> AnswerTypedEntry(q[i])
  }

  /** Every entry carries the types both renderers read. */
  predicate WellTyped(q: QuizQuestion)
  {
    QuestionTyped(q) && AnswerTyped(q)
  }

  /** Position of the first entry whose key is not allowed, if there is one. */
  function FirstUnexpected(q: QuizQuestion): (r: Option<nat>)
    ensures r.Some? ==> r.value < |q|
  {
    if q == [] then None
    else if !IsAllowedKey(q[0].key) then Some(0)
    else match FirstUnexpected(q[1..])
      case None => None
      case Some(i) => Some(i + 1)
  }

  /** `FirstUnexpected` finds nothing exactly when every key is allowed; otherwise it
      finds a rejected key with only allowed keys before it. */
  lemma {:induction false} FirstUnexpectedSpec(q: QuizQuestion)
    ensures FirstUnexpected(q).None? <==> forall i :: 0 <= i < |q| ==> IsAllowedKey(q[i].key)
    ensures FirstUnexpected(q).Some? ==> !IsAllowedKey(q[FirstUnexpected(q).value].key)
    ensures FirstUnexpected(q).Some? ==>
              forall i :: 0 <= i < FirstUnexpected(q).value ==> IsAllowedKey(q[i].key)
    decreases |q|
  {
    if q != [] && IsAllowedKey(q[0].key) {
      FirstUnexpectedSpec(q[1..]);
      assert forall i :: 1 <= i < |q| ==> q[i] == q[1..][i - 1];
    }
  }

  /** How many entries a renderer reads: it stops at the first rejected key,
      which it checks but whose value it does not read. */
  function ReadLimit(q: QuizQuestion): (n: nat)
    ensures n <= |q|
  {
    match FirstUnexpected(q)
    case Some(i) => i
    case None => |q|
  }

  /** The entries the question renderer reads carry the types it reads. */
  predicate QuestionReadable(q: QuizQuestion)
  {
    forall i :: 0 <= i < ReadLimit(q) ==> QuestionTypedEntry(q[i])
  }

  /** The entries the answer renderer reads carry the types it reads. */
  predicate AnswerReadable(q: QuizQuestion)
  {
    forall i :: 0 <= i < ReadLimit(q) ==> AnswerTypedEntry(q[i])
  }

  /** The renderer reads entry `i` when every key up to and including its own is allowed. */
  lemma ReadsEntry(q: QuizQuestion, i: nat)
    requires i < |q| && forall j :: 0 <= j <= i ==> IsAllowedKey(q[j].key)
    ensures i < ReadLimit(q)
  {
    FirstUnexpectedSpec(q);
  }

  // ---------------------------------------------------------------- question block

  /** The option line for option `option` numbered `k`, without its newline. */
  function OptionLine(k: int, option: string): string
  {
    "- [ ] " + IntToString(k) + ": " + option
  }

  /** The option lines, numbered from 1 in list order. */
  function OptionLines(options: seq<string>): (r: seq<string>)
    ensures |r| == |options|
  {
    seq(|options|, k requires 0 <= k < |options| => OptionLine(k + 1, options[k]))
  }

  /** What the `options` entry adds to the question block: each option line and a newline. */
  function OptionsFragment(options: seq<string>): string
  {
    Concat(Terminated(OptionLines(options), '\n'))
  }

  /** What one entry adds to the question block. */
  function QuestionFragment(e: Entry): (r: string)
    requires QuestionTypedEntry(e)
  {
    if e.key == "question" then "\n\n**" + e.value.text + "**\n"
    else if e.key == "options" then OptionsFragment(e.value.items)
    else ""
  }

  function QuestionFragments(q: QuizQuestion): (r: seq<string>)
    requires QuestionTyped(q)
    ensures |r| == |q|
  {
    seq(|q|, i requires 0 <= i < |q| => QuestionFragment(q[i]))
  }

  /** `question_json_to_markdown`: rejects the first unexpected key; otherwise the
      entries' fragments in key order. */
  function QuestionMarkdown(q: QuizQuestion): (r: Result<string>)
    requires QuestionReadable(q)
    ensures r.Err? <==> exists i :: 0 <= i < |q| && !IsAllowedKey(q[i].key)
    ensures r.Err? ==> exists i :: 0 <= i < |q| && r.error == UnexpectedKey(q[i].key)
                          && !IsAllowedKey(q[i].key)
                          && forall j :: 0 <= j < i ==> IsAllowedKey(q[j].key)
  {
    FirstUnexpectedSpec(q);
    match FirstUnexpected(q)
    case Some(i) => Err(UnexpectedKey(q[i].key))
    case None => Ok(Concat(QuestionFragments(q)))
  }

  // ---------------------------------------------------------------- answer block

  /** The 1-based numbers of the correct options, as printed. */
  function OneBased(answer: seq<int>): (r: seq<string>)
    ensures |r| == |answer|
    ensures forall i :: 0 <= i < |r| ==> |r[i]| >= 1 && ',' !in r[i]
  {
    seq(|answer|, i requires 0 <= i < |answer| => IntToString(answer[i] + 1))
  }

  const CorrectAnswersHeading := "\n\n**Correct answer(s)**:"

  /** The `answer` entry: the heading, then the 1-based numbers joined by commas. */
  function CorrectAnswers(answer: seq<int>): (r: string)
    ensures |r| >= |CorrectAnswersHeading| && r[..|CorrectAnswersHeading|] == CorrectAnswersHeading
    ensures r == CorrectAnswersHeading <==> answer == []
  {
    CorrectAnswersHeading + Join(OneBased(answer), ',')
  }

  /** What one entry adds to the answer block. */
  function AnswerFragment(e: Entry): (r: string)
    requires AnswerTypedEntry(e)
  {
    if e.key == "question" then "\n\n**" + e.value.text + "**"
    else if e.key == "answer" then CorrectAnswers(e.value.ints)
    else if e.key == "explanation" then "\n\n**Explanation**: " + e.value.text
    else if e.key == "source passage" then "\n\n**Source passage**: " + e.value.text
    else ""
  }

  function AnswerFragments(q: QuizQuestion): (r: seq<string>)
    requires AnswerTyped(q)
    ensures |r| == |q|
  {
    seq(|q|, i requires 0 <= i < |q| => AnswerFragment(q[i]))
  }

  /** `answer_json_to_markdown`: the same key check as the question block; otherwise
      the entries' answer fragments in key order. */
  function AnswerMarkdown(q: QuizQuestion): (r: Result<string>)
    requires AnswerReadable(q)
    ensures r.Err? <==> exists i :: 0 <= i < |q| && !IsAllowedKey(q[i].key)
    ensures r.Err? ==> exists i :: 0 <= i < |q| && r.error == UnexpectedKey(q[i].key)
                          && !IsAllowedKey(q[i].key)
                          && forall j :: 0 <= j < i ==> IsAllowedKey(q[j].key)
  {
    FirstUnexpectedSpec(q);
    match FirstUnexpected(q)
    case Some(i) => Err(UnexpectedKey(q[i].key))
    case None => Ok(Concat(AnswerFragments(q)))
  }

  // ---------------------------------------------------------------- properties

  /** The options fragment puts every option on a line of its own, numbered by its
      position plus one, when no option contains a newline: split into lines it
      gives one line per option, then the empty text after the last newline. */
  lemma OptionsFragmentLines(options: seq<string>)
    requires forall k :: 0 <= k < |options| ==> '\n' !in options[k]
    ensures var lines := Split(OptionsFragment(options), '\n');
            && |lines| == |options| + 1
            && lines[|options|] == ""
            && forall k :: 0 <= k < |options| ==>
                 lines[k] == "- [ ] " + IntToString(k + 1) + ": " + options[k]
  {
    forall k | 0 <= k < |options|
      ensures '\n' !in OptionLines(options)[k]
    {
      var n := IntToString(k + 1);
      assert forall j :: 0 <= j < |n| ==> n[j] != '\n';
      assert OptionLines(options)[k] == "- [ ] " + n + ": " + options[k];
    }
    SplitTerminated(OptionLines(options), '\n');
  }

  /** Which entries show in the question block: the question always, the options
      when there is at least one; `answer`, `explanation` and `source passage` never. */
  lemma QuestionFragmentContributes(e: Entry)
    requires QuestionTypedEntry(e)
    ensures QuestionFragment(e) != "" <==>
            e.key == "question" || (e.key == "options" && e.value.items != [])
  {
  }

  /** Which entries show in the answer block: the question, the answer, the
      explanation and the source passage, each with its heading; `options` never. */
  lemma AnswerFragmentContributes(e: Entry)
    requires AnswerTypedEntry(e)
    ensures AnswerFragment(e) != "" <==>
            e.key == "question" || e.key == "answer" || e.key == "explanation" || e.key == "source passage"
  {
  }

  /** A question object with the five keys in the order the quiz format lists them. */
  function FullQuestion(question: string, options: seq<string>, answer: seq<int>,
                        explanation: string, passage: string): (q: QuizQuestion)
    ensures WellTyped(q) && FirstUnexpected(q) == None
  {
    var q := [Entry("question", Str(question)), Entry("options", StrList(options)),
              Entry("answer", IntList(answer)), Entry("explanation", Str(explanation)),
              Entry("source passage", Str(passage))];
    assert IsAllowedKey("question") && IsAllowedKey("options") && IsAllowedKey("answer");
    assert IsAllowedKey("explanation") && IsAllowedKey("source passage");
    FirstUnexpectedSpec(q);
    q
  }

  /** Such an object's question block: the question in bold, then its option lines. */
  lemma FullQuestionBlock(question: string, options: seq<string>, answer: seq<int>,
                          explanation: string, passage: string)
    ensures QuestionMarkdown(FullQuestion(question, options, answer, explanation, passage)) ==
            Ok("\n\n**" + question + "**\n" + OptionsFragment(options))
  {
    var q := FullQuestion(question, options, answer, explanation, passage);
    var f := QuestionFragments(q);
    assert f[0] == "\n\n**" + question + "**\n";
    assert f[1] == OptionsFragment(options);
    assert f[2] == "" && f[3] == "" && f[4] == "";
    ConcatCons(f);
    ConcatCons(f[1..]);
    ConcatCons(f[2..]);
    ConcatCons(f[3..]);
    ConcatCons(f[4..]);
    assert f[1..][1..] == f[2..] && f[2..][1..] == f[3..] && f[3..][1..] == f[4..] && f[4..][1..] == [];
    assert Concat(f) == f[0] + f[1];
    assert QuestionMarkdown(q) == Ok(Concat(f));
  }

  /** Such an object's answer block: the question in bold, the 1-based answers, the
      explanation and the supporting passage. */
  lemma FullAnswerBlock(question: string, options: seq<string>, answer: seq<int>,
                        explanation: string, passage: string)
    ensures AnswerMarkdown(FullQuestion(question, options, answer, explanation, passage)) ==
            Ok(("\n\n**" + question + "**")
               + (CorrectAnswers(answer)
               + (("\n\n**Explanation**: " + explanation)
               + ("\n\n**Source passage**: " + passage))))
  {
    var q := FullQuestion(question, options, answer, explanation, passage);
    var f := AnswerFragments(q);
    assert f[0] == "\n\n**" + question + "**";
    assert f[1] == "";
    assert f[2] == CorrectAnswers(answer);
    assert f[3] == "\n\n**Explanation**: " + explanation;
    assert f[4] == "\n\n**Source passage**: " + passage;
    ConcatCons(f);
    ConcatCons(f[1..]);
    ConcatCons(f[2..]);
    ConcatCons(f[3..]);
    ConcatCons(f[4..]);
    assert f[1..][1..] == f[2..] && f[2..][1..] == f[3..] && f[3..][1..] == f[4..] && f[4..][1..] == [];
    assert Concat(f[4..]) == f[4];
    assert Concat(f[3..]) == f[3] + f[4];
    assert Concat(f[2..]) == f[2] + (f[3] + f[4]);
    assert Concat(f[1..]) == f[2] + (f[3] + f[4]);
    assert AnswerMarkdown(q) == Ok(Concat(f));
    assert Concat(f) == f[0] + (f[2] + (f[3] + f[4]));
  }

  /** Reads the 1-based numbers back out of a rendered `answer` entry. */
  function ReadCorrectAnswers(text: string): Option<seq<int>>
  {
    if |text| < |CorrectAnswersHeading| || text[..|CorrectAnswersHeading|] != CorrectAnswersHeading then None
    else
      var list := text[|CorrectAnswersHeading|..];
      if list == "" then Some([]) else ReadZeroBased(Split(list, ','))
  }

  /** Each printed number, less one; fails if one does not read as an integer. */
  function ReadZeroBased(parts: seq<string>): Option<seq<int>>
  {
    if parts == [] then Some([])
    else match (ParseInt(parts[0]), ReadZeroBased(parts[1..]))
      case (Some(n), Some(rest)) => Some([n - 1] + rest)
      case _ => None
  }

  lemma {:induction false} ReadZeroBasedOneBased(answer: seq<int>)
    ensures ReadZeroBased(OneBased(answer)) == Some(answer)
    decreases |answer|
  {
    if answer != [] {
      OneBasedHead(answer);
      OneBasedTail(answer);
      ReadZeroBasedOneBased(answer[1..]);
      ReadZeroBasedCons(OneBased(answer), answer[0] + 1, answer[1..]);
      assert [answer[0]] + answer[1..] == answer;
    }
  }

  /** The first printed number reads back as the first answer plus one. */
  lemma OneBasedHead(answer: seq<int>)
    requires answer != []
    ensures ParseInt(OneBased(answer)[0]) == Some(answer[0] + 1)
  {
    var p := OneBased(answer)[0];
    assert p == IntToString(answer[0] + 1);
    ParseIntToString(answer[0] + 1);
  }

  /** The numbers after the first are the rest of the answers, printed. */
  lemma OneBasedTail(answer: seq<int>)
    requires answer != []
    ensures OneBased(answer)[1..] == OneBased(answer[1..])
  {
  }

  /** One printed number read back, in front of the rest. */
  lemma ReadZeroBasedCons(parts: seq<string>, n: int, rest: seq<int>)
    requires parts != [] && ParseInt(parts[0]) == Some(n)
    requires ReadZeroBased(parts[1..]) == Some(rest)
    ensures ReadZeroBased(parts) == Some([n - 1] + rest)
  {
  }

  /** The answer line records the zero-based answer list exactly: reading its
      numbers back and subtracting one gives the list again, order included. */
  lemma ReadCorrectAnswersRoundTrip(answer: seq<int>)
    ensures ReadCorrectAnswers(CorrectAnswers(answer)) == Some(answer)
  {
    var text := CorrectAnswers(answer);
    var parts := OneBased(answer);
    assert text[|CorrectAnswersHeading|..] == Join(parts, ',');
    if answer != [] {
      forall k | 0 <= k < |parts| ensures ',' !in parts[k] {
        var n := IntToString(answer[k] + 1);
        assert forall j :: 0 <= j < |n| ==> n[j] != ',';
      }
      assert |Join(parts, ',')| > 0 by {
        if |parts| > 1 {
          assert Join(parts, ',') == parts[0] + [','] + Join(parts[1..], ',');
        }
      }
      SplitJoin(parts, ',');
      ReadZeroBasedOneBased(answer);
    }
  }

  // ---------------------------------------------------------------- quiz set

  /** One sheet from the rendered blocks of a quiz set: every block followed by a
      newline, in list order; the first block that failed makes the sheet fail. */
  function SheetOf(blocks: seq<Result<string>>): Result<string>
  {
    if blocks == [] then Ok("")
    else
      var before := SheetOf(blocks[..|blocks| - 1]);
      var last := blocks[|blocks| - 1];
      if before.Err? then before
      else if last.Err? then last
      else Ok(before.value + last.value + "\n")
  }

  /** What one renderer reads of an object: the question renderer or the answer
      renderer, each up to the object's first unexpected key. */
  predicate BlockReadable(q: QuizQuestion, answers: bool)
  {
    if answers then AnswerReadable(q) else QuestionReadable(q)
  }

  function Block(q: QuizQuestion, answers: bool): Result<string>
    requires BlockReadable(q, answers)
  {
    if answers then AnswerMarkdown(q) else QuestionMarkdown(q)
  }

  /** The question blocks (or the answer blocks) of a quiz set, in list order. */
  function Blocks(qs: seq<QuizQuestion>, answers: bool): (r: seq<Result<string>>)
    requires forall i :: 0 <= i < |qs| ==> BlockReadable(qs[i], answers)
    ensures |r| == |qs|
  {
    seq(|qs|, i requires 0 <= i < |qs| => Block(qs[i], answers))
  }

  /** What `quiz_set_json_to_markdown` reads: the question pass reads every object
      up to its first unexpected key; the answer pass runs only when no object has
      an unexpected key, and then reads every entry of every object. */
  predicate SetReadable(qs: seq<QuizQuestion>)
  {
    && (forall i :: 0 <= i < |qs| ==> QuestionReadable(qs[i]))
    && ((forall i :: 0 <= i < |qs| ==> FirstUnexpected(qs[i]).None?) ==>
          forall i :: 0 <= i < |qs| ==> AnswerReadable(qs[i]))
  }

  /** `quiz_set_json_to_markdown`: the question sheet is built first; the answer
      sheet is built only when the question sheet succeeded. */
  function QuizSetMarkdown(qs: seq<QuizQuestion>): (r: Result<(string, string)>)
    requires SetReadable(qs)
    ensures r.Err? <==> SheetOf(Blocks(qs, false)).Err?
    ensures r.Err? ==> SheetOf(Blocks(qs, false)) == Err(r.error)
  {
    match SheetOf(Blocks(qs, false))
    case Err(e) => Err(e)
    case Ok(questions) =>
      QuestionSheetAccepts(qs);
      AnswerSheetAccepts(qs);
      match SheetOf(Blocks(qs, true))
      case Err(e) => Err(e)
      case Ok(answers) => Ok((questions, answers))
  }

  /** The first failure of two, or both texts one after the other. */
  function Then(x: Result<string>, y: Result<string>): Result<string>
  {
    if x.Err? then x else if y.Err? then y else Ok(x.value + y.value)
  }

  /** The first rejected key of `a + b` is `a`'s, or else `b`'s shifted past `a`. */
  lemma {:induction false} FirstUnexpectedAppend(a: QuizQuestion, b: QuizQuestion)
    ensures FirstUnexpected(a + b) ==
            if FirstUnexpected(a).Some? then FirstUnexpected(a)
            else if FirstUnexpected(b).Some? then Some(|a| + FirstUnexpected(b).value)
            else None
    decreases |a|
  {
    if a == [] {
      assert a + b == b;
    } else {
      assert (a + b)[0] == a[0];
      assert (a + b)[1..] == a[1..] + b;
      FirstUnexpectedAppend(a[1..], b);
    }
  }

  lemma QuestionFragmentsAppend(a: QuizQuestion, b: QuizQuestion)
    requires QuestionTyped(a) && QuestionTyped(b)
    ensures QuestionTyped(a + b)
    ensures QuestionFragments(a + b) == QuestionFragments(a) + QuestionFragments(b)
  {
  }

  lemma AnswerFragmentsAppend(a: QuizQuestion, b: QuizQuestion)
    requires AnswerTyped(a) && AnswerTyped(b)
    ensures AnswerTyped(a + b)
    ensures AnswerFragments(a + b) == AnswerFragments(a) + AnswerFragments(b)
  {
  }

  /** Rendering follows insertion order: an object whose entries are those of `a`
      followed by those of `b` renders `a`'s block then `b`'s, and a rejected key
      in `a` is reported before one in `b`. Each renderer needs only its own types. */
  lemma BlockAppend(a: QuizQuestion, b: QuizQuestion, answers: bool)
    requires if answers then AnswerTyped(a) && AnswerTyped(b) else QuestionTyped(a) && QuestionTyped(b)
    ensures if answers then AnswerTyped(a + b) else QuestionTyped(a + b)
    ensures Block(a + b, answers) == Then(Block(a, answers), Block(b, answers))
  {
    var ab := a + b;
    if answers {
      AnswerFragmentsAppend(a, b);
    } else {
      QuestionFragmentsAppend(a, b);
    }
    FirstUnexpectedAppend(a, b);
    var fa := FirstUnexpected(a);
    var fb := FirstUnexpected(b);
    if fa.Some? {
      assert ab[fa.value] == a[fa.value];
    } else if fb.Some? {
      assert ab[|a| + fb.value] == b[fb.value];
    } else if answers {
      ConcatAppend(AnswerFragments(a), AnswerFragments(b));
    } else {
      ConcatAppend(QuestionFragments(a), QuestionFragments(b));
    }
  }

  /** The sheet of two runs of blocks is the two sheets joined; a failure in the
      first run is the one reported. */
  lemma {:induction false} SheetOfAppend(x: seq<Result<string>>, y: seq<Result<string>>)
    ensures SheetOf(x + y) == Then(SheetOf(x), SheetOf(y))
    decreases |y|
  {
    if y == [] {
      assert x + y == x;
      if SheetOf(x).Ok? {
        assert SheetOf(x).value + "" == SheetOf(x).value;
      }
    } else {
      var y' := y[..|y| - 1];
      assert (x + y)[..|x + y| - 1] == x + y';
      var last := y[|y| - 1];
      assert (x + y)[|x + y| - 1] == last;
      SheetOfAppend(x, y');
      if SheetOf(x).Ok? && SheetOf(y').Ok? && last.Ok? {
        assert SheetOf(x).value + SheetOf(y').value + last.value + "\n"
            == SheetOf(x).value + (SheetOf(y').value + last.value + "\n");
      }
    }
  }

  /** Once some prefix of the blocks fails, the whole sheet fails the same way. */
  lemma SheetOfPrefixFails(blocks: seq<Result<string>>, i: nat)
    requires i <= |blocks| && SheetOf(blocks[..i]).Err?
    ensures SheetOf(blocks) == SheetOf(blocks[..i])
  {
    assert blocks == blocks[..i] + blocks[i..];
    SheetOfAppend(blocks[..i], blocks[i..]);
  }

  /** One more block on a sheet built so far: its text is appended with a newline,
      or, if it failed, the whole sheet fails with its error. */
  lemma SheetOfStep(blocks: seq<Result<string>>, i: nat)
    requires i < |blocks| && SheetOf(blocks[..i]).Ok?
    ensures blocks[i].Ok? ==>
              SheetOf(blocks[..i + 1]) == Ok(SheetOf(blocks[..i]).value + blocks[i].value + "\n")
    ensures blocks[i].Err? ==> SheetOf(blocks) == blocks[i]
  {
    assert blocks[..i + 1][..i] == blocks[..i];
    if blocks[i].Err? {
      SheetOfPrefixFails(blocks, i + 1);
    }
  }

  /** A sheet fails exactly when a block failed, and then with the error of the
      first block that failed. */
  lemma {:induction false} SheetOfFails(blocks: seq<Result<string>>)
    ensures SheetOf(blocks).Err? <==> exists i :: 0 <= i < |blocks| && blocks[i].Err?
    ensures SheetOf(blocks).Err? ==>
              exists i :: 0 <= i < |blocks| && SheetOf(blocks) == blocks[i]
                          && forall j :: 0 <= j < i ==> blocks[j].Ok?
    decreases |blocks|
  {
    if blocks != [] {
      var init := blocks[..|blocks| - 1];
      SheetOfFails(init);
      if SheetOf(init).Err? {
        var i :| 0 <= i < |init| && SheetOf(init) == init[i] && forall j :: 0 <= j < i ==> init[j].Ok?;
        assert blocks[i] == init[i];
        assert forall j :: 0 <= j < i ==> blocks[j] == init[j];
      } else {
        assert forall j :: 0 <= j < |init| ==> blocks[j] == init[j];
      }
    }
  }

  /** The text of a sheet whose blocks all succeeded: each block and a newline. */
  lemma {:induction false} SheetOfText(blocks: seq<Result<string>>)
    requires forall i :: 0 <= i < |blocks| ==> blocks[i].Ok?
    ensures SheetOf(blocks).Ok?
    ensures SheetOf(blocks).value ==
            Concat(seq(|blocks|, i requires 0 <= i < |blocks| => blocks[i].value + "\n"))
    decreases |blocks|
  {
    if blocks != [] {
      var init := blocks[..|blocks| - 1];
      SheetOfText(init);
      var lines := seq(|blocks|, i requires 0 <= i < |blocks| => blocks[i].value + "\n");
      assert lines[..|blocks| - 1] == seq(|init|, i requires 0 <= i < |init| => init[i].value + "\n");
    }
  }

  /** A question sheet that succeeded means no object has an unexpected key. */
  lemma QuestionSheetAccepts(qs: seq<QuizQuestion>)
    requires forall i :: 0 <= i < |qs| ==> QuestionReadable(qs[i])
    requires SheetOf(Blocks(qs, false)).Ok?
    ensures forall i :: 0 <= i < |qs| ==> FirstUnexpected(qs[i]).None?
  {
    SheetOfFails(Blocks(qs, false));
    forall i | 0 <= i < |qs|
      ensures FirstUnexpected(qs[i]).None?
    {
      assert Blocks(qs, false)[i] == QuestionMarkdown(qs[i]);
    }
  }

  /** The answer sheet never fails once the question sheet succeeded: with no
      unexpected key anywhere, every answer block renders. */
  lemma AnswerSheetAccepts(qs: seq<QuizQuestion>)
    requires forall i :: 0 <= i < |qs| ==> FirstUnexpected(qs[i]).None? && AnswerReadable(qs[i])
    ensures SheetOf(Blocks(qs, true)).Ok?
  {
    SheetOfFails(Blocks(qs, true));
    forall i | 0 <= i < |qs|
      ensures Blocks(qs, true)[i].Ok?
    {
      assert Blocks(qs, true)[i] == AnswerMarkdown(qs[i]);
    }
  }

  /** `quiz_set_json_to_markdown` fails exactly when some object has an unexpected
      key; the error is then that of the first such object's question block, which
      names its first unexpected key. */
  lemma QuizSetRejects(qs: seq<QuizQuestion>)
    requires SetReadable(qs)
    ensures QuizSetMarkdown(qs).Err? <==>
            exists i, j :: 0 <= i < |qs| && 0 <= j < |qs[i]| && !IsAllowedKey(qs[i][j].key)
    ensures QuizSetMarkdown(qs).Err? ==>
              exists i :: 0 <= i < |qs| && QuestionMarkdown(qs[i]).Err? && QuizSetMarkdown(qs).error == QuestionMarkdown(qs[i]).error
                          && forall j :: 0 <= j < i ==> QuestionMarkdown(qs[j]).Ok?
  {
    var questions := Blocks(qs, false);
    SheetOfFails(questions);
    forall i | 0 <= i < |qs|
      ensures questions[i] == QuestionMarkdown(qs[i])
    {
    }
  }

  /** The question sheet of a set whose question blocks all rendered. */
  lemma QuestionSheetText(qs: seq<QuizQuestion>)
    requires forall i :: 0 <= i < |qs| ==> QuestionReadable(qs[i]) && QuestionMarkdown(qs[i]).Ok?
    ensures SheetOf(Blocks(qs, false)) ==
            Ok(Concat(seq(|qs|, i requires 0 <= i < |qs| => QuestionMarkdown(qs[i]).value + "\n")))
  {
    var questions := Blocks(qs, false);
    forall i | 0 <= i < |qs|
      ensures questions[i] == QuestionMarkdown(qs[i])
    {
    }
    SheetOfText(questions);
    assert seq(|questions|, i requires 0 <= i < |questions| => questions[i].value + "\n")
        == seq(|qs|, i requires 0 <= i < |qs| => QuestionMarkdown(qs[i]).value + "\n");
  }

  /** The answer sheet of a set whose answer blocks all rendered. */
  lemma AnswerSheetText(qs: seq<QuizQuestion>)
    requires forall i :: 0 <= i < |qs| ==> AnswerReadable(qs[i]) && AnswerMarkdown(qs[i]).Ok?
    ensures SheetOf(Blocks(qs, true)) ==
            Ok(Concat(seq(|qs|, i requires 0 <= i < |qs| => AnswerMarkdown(qs[i]).value + "\n")))
  {
    var answers := Blocks(qs, true);
    forall i | 0 <= i < |qs|
      ensures answers[i] == AnswerMarkdown(qs[i])
    {
    }
    SheetOfText(answers);
    assert seq(|answers|, i requires 0 <= i < |answers| => answers[i].value + "\n")
        == seq(|qs|, i requires 0 <= i < |qs| => AnswerMarkdown(qs[i]).value + "\n");
  }

  /** For an accepted quiz set, each sheet holds one block per object, each followed
      by a newline, in list order; an empty set gives two empty sheets. */
  lemma QuizSetSheets(qs: seq<QuizQuestion>)
    requires SetReadable(qs) && QuizSetMarkdown(qs).Ok?
    ensures forall i :: 0 <= i < |qs| ==> FirstUnexpected(qs[i]).None?
    ensures forall i :: 0 <= i < |qs| ==> QuestionMarkdown(qs[i]).Ok? && AnswerMarkdown(qs[i]).Ok?
    ensures QuizSetMarkdown(qs).value.0 ==
            Concat(seq(|qs|, i requires 0 <= i < |qs| => QuestionMarkdown(qs[i]).value + "\n"))
    ensures QuizSetMarkdown(qs).value.1 ==
            Concat(seq(|qs|, i requires 0 <= i < |qs| => AnswerMarkdown(qs[i]).value + "\n"))
  {
    QuestionSheetAccepts(qs);
    AnswerSheetAccepts(qs);
    SheetOfFails(Blocks(qs, false));
    SheetOfFails(Blocks(qs, true));
    forall i | 0 <= i < |qs|
      ensures QuestionMarkdown(qs[i]).Ok? && AnswerMarkdown(qs[i]).Ok?
    {
      assert Blocks(qs, false)[i] == QuestionMarkdown(qs[i]);
      assert Blocks(qs, true)[i] == AnswerMarkdown(qs[i]);
    }
    QuestionSheetText(qs);
    AnswerSheetText(qs);
  }

  lemma QuizSetEmpty()
    ensures QuizSetMarkdown([]) == Ok(("", ""))
  {
  }
}
