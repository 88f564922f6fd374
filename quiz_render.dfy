/** The renderers as the program runs them: each walks the object's keys in
    insertion order, appending markdown to an accumulator and leaving early
    with the error on the first key it does not recognise. */
module QuizRender {
  import opened Text
  import opened Decimal
  import opened Quiz

  /** `question_json_to_markdown`: the question in bold, then one unchecked box
      per option, numbered from 1. */
  method QuestionJsonToMarkdown(q: QuizQuestion) returns (r: Result<string>)
    requires QuestionReadable(q)
    ensures r == QuestionMarkdown(q)
  {
    var md := "";
    for i := 0 to |q|
      invariant forall j :: 0 <= j < i ==> IsAllowedKey(q[j].key)
      invariant QuestionTyped(q[..i])
      invariant md == Concat(QuestionFragments(q[..i]))
    {
      var key := q[i].key;
      if !IsAllowedKey(key) {
        RejectedAt(q, i);
        return Err(UnexpectedKey(key));
      }
      ReadsEntry(q, i);
      ghost var fragment := QuestionFragment(q[i]);
      QuestionPrefixStep(q, i);
      if key == "question" {
        assert fragment == "\n\n**" + q[i].value.text + "**\n";
        md := md + ("\n\n**" + q[i].value.text + "**\n");
      } else if key == "options" {
        var options := q[i].value.items;
        assert fragment == OptionsFragment(options);
        md := AppendOptionLines(md, options);
      } else {
        assert fragment == "";
      }
    }
    assert q[..|q|] == q;
    FirstUnexpectedSpec(q);
    return Ok(md);
  }

  /** The inner loop over `enumerate(options)`: one unchecked box per option,
      numbered by its position plus one, appended to `md`. */
  method AppendOptionLines(md: string, options: seq<string>) returns (r: string)
    ensures r == md + OptionsFragment(options)
  {
    r := md;
    for k := 0 to |options|
      invariant r == md + OptionsFragment(options[..k])
    {
      var line := "- [ ] " + IntToString(k + 1) + ": " + options[k] + "\n";
      OptionsFragmentStep(options, k);
      assert (md + OptionsFragment(options[..k])) + line == md + (OptionsFragment(options[..k]) + line);
      r := r + line;
    }
    assert options[..|options|] == options;
  }

  /** The fragments rendered so far, one more. */
  lemma FragmentStep(fragments: seq<string>, i: nat)
    requires i < |fragments|
    ensures Concat(fragments[..i + 1]) == Concat(fragments[..i]) + fragments[i]
  {
    assert fragments[..i + 1][..i] == fragments[..i];
  }

  /** The question fragments of the first `i + 1` entries are those of the first
      `i`, then entry `i`'s. */
  lemma QuestionPrefixStep(q: QuizQuestion, i: nat)
    requires i < |q| && QuestionTyped(q[..i]) && QuestionTypedEntry(q[i])
    ensures QuestionTyped(q[..i + 1])
    ensures Concat(QuestionFragments(q[..i + 1])) == Concat(QuestionFragments(q[..i])) + QuestionFragment(q[i])
  {
    assert q[..i + 1][..i] == q[..i];
    var f := QuestionFragments(q[..i + 1]);
    assert f[..i] == QuestionFragments(q[..i]);
    FragmentStep(f, i);
  }

  /** The answer fragments of the first `i + 1` entries are those of the first
      `i`, then entry `i`'s. */
  lemma AnswerPrefixStep(q: QuizQuestion, i: nat)
    requires i < |q| && AnswerTyped(q[..i]) && AnswerTypedEntry(q[i])
    ensures AnswerTyped(q[..i + 1])
    ensures Concat(AnswerFragments(q[..i + 1])) == Concat(AnswerFragments(q[..i])) + AnswerFragment(q[i])
  {
    assert q[..i + 1][..i] == q[..i];
    var f := AnswerFragments(q[..i + 1]);
    assert f[..i] == AnswerFragments(q[..i]);
    FragmentStep(f, i);
  }

  /** The renderers' error: the first key outside the allowed ones, at `i`. */
  lemma RejectedAt(q: QuizQuestion, i: nat)
    requires i < |q| && !IsAllowedKey(q[i].key)
    requires forall j :: 0 <= j < i ==> IsAllowedKey(q[j].key)
    ensures QuestionReadable(q) ==> QuestionMarkdown(q) == Err(UnexpectedKey(q[i].key))
    ensures AnswerReadable(q) ==> AnswerMarkdown(q) == Err(UnexpectedKey(q[i].key))
  {
  }

  /** The option lines of the first `k + 1` options are those of the first `k`,
      then line `k + 1`. */
  lemma OptionsFragmentStep(options: seq<string>, k: nat)
    requires k < |options|
    ensures OptionsFragment(options[..k + 1]) ==
            OptionsFragment(options[..k]) + ("- [ ] " + IntToString(k + 1) + ": " + options[k] + "\n")
  {
    var lines := Terminated(OptionLines(options[..k + 1]), '\n');
    assert lines[..k] == Terminated(OptionLines(options[..k]), '\n');
    assert lines[k] == "- [ ] " + IntToString(k + 1) + ": " + options[k] + "\n";
  }

  /** `answer_json_to_markdown`: the question in bold, the 1-based correct answers,
      the explanation and the supporting passage, each in key order. */
  method AnswerJsonToMarkdown(q: QuizQuestion) returns (r: Result<string>)
    requires AnswerReadable(q)
    ensures r == AnswerMarkdown(q)
  {
    var md := "";
    for i := 0 to |q|
      invariant forall j :: 0 <= j < i ==> IsAllowedKey(q[j].key)
      invariant AnswerTyped(q[..i])
      invariant md == Concat(AnswerFragments(q[..i]))
    {
      var key := q[i].key;
      if !IsAllowedKey(key) {
        RejectedAt(q, i);
        return Err(UnexpectedKey(key));
      }
      ReadsEntry(q, i);
      ghost var fragment := AnswerFragment(q[i]);
      AnswerPrefixStep(q, i);
      if key == "question" {
        assert fragment == "\n\n**" + q[i].value.text + "**";
        md := md + ("\n\n**" + q[i].value.text + "**");
      } else if key == "answer" {
        var answersStr := OneBased(q[i].value.ints);
        assert fragment == "\n\n**Correct answer(s)**:" + Join(answersStr, ',');
        md := md + ("\n\n**Correct answer(s)**:" + Join(answersStr, ','));
      } else if key == "explanation" {
        assert fragment == "\n\n**Explanation**: " + q[i].value.text;
        md := md + ("\n\n**Explanation**: " + q[i].value.text);
      } else if key == "source passage" {
        assert fragment == "\n\n**Source passage**: " + q[i].value.text;
        md := md + ("\n\n**Source passage**: " + q[i].value.text);
      } else {
        assert fragment == "";
      }
    }
    assert q[..|q|] == q;
    FirstUnexpectedSpec(q);
    return Ok(md);
  }

  /** `quiz_set_json_to_markdown`: the whole question sheet first, then the whole
      answer sheet, each block followed by a newline. */
  method QuizSetJsonToMarkdown(qs: seq<QuizQuestion>) returns (r: Result<(string, string)>)
    requires SetReadable(qs)
    ensures r == QuizSetMarkdown(qs)
  {
    var questionsMd := "";
    for i := 0 to |qs|
      invariant SheetOf(Blocks(qs, false)[..i]) == Ok(questionsMd)
    {
      var block := QuestionJsonToMarkdown(qs[i]);
      assert Blocks(qs, false)[i] == block;
      SheetOfStep(Blocks(qs, false), i);
      if block.Err? {
        return Err(block.error);
      }
      questionsMd := questionsMd + block.value;
      questionsMd := questionsMd + "\n";
    }
    assert Blocks(qs, false)[..|qs|] == Blocks(qs, false);
    QuestionSheetAccepts(qs);

    var answersMd := "";
    for i := 0 to |qs|
      invariant SheetOf(Blocks(qs, true)[..i]) == Ok(answersMd)
    {
      var block := AnswerJsonToMarkdown(qs[i]);
      assert Blocks(qs, true)[i] == block;
      SheetOfStep(Blocks(qs, true), i);
      match block
      case Err(_) =>
        // Unreachable: the question pass has already rejected every unexpected key.
        assert false;
      case Ok(text) =>
        answersMd := answersMd + text;
        answersMd := answersMd + "\n";
    }
    assert Blocks(qs, true)[..|qs|] == Blocks(qs, true);
    return Ok((questionsMd, answersMd));
  }
}
