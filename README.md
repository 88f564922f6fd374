# study_buddai quiz rendering and prompt templates, in Dafny

study_buddai is a study helper. It asks a language model for a summary, a glossary or a
multiple-choice revision quiz about a source text, and shows the result on a web page.
The part of it that is plain, deterministic logic is `helpers.py`. This project models
that file and proves what it does:

- **Prompt builders** (`revision_quiz_json_builder`, `plaintext_summary_builder`,
  `get_glossary_builder`). Each returns a fixed preamble, then the caller's source text
  verbatim, then a fixed closing part. They are module `Prompts`. The preambles and
  closings are the source's own strings, with their indentation and trailing spaces.
- **Quiz renderers** (`question_json_to_markdown`, `answer_json_to_markdown`,
  `quiz_set_json_to_markdown`). A quiz question is a JSON object with the keys
  `question`, `options`, `answer`, `explanation` and `source passage`. The renderers
  turn a list of such objects into a markdown question sheet (bold questions,
  unchecked option boxes numbered from 1) and an answer sheet (bold question, the
  correct option numbers, the explanation, the supporting passage). Any other key
  raises `ValueError`.

Modules:

- `Wrappers` (wrappers.dfy): `Option`.
- `Text` (text.dfy): the `+=` accumulation (`Concat`), Python's `sep.join` and
  `s.split(sep)` for a one-character separator, and the fact that split undoes join.
- `Decimal` (decimal.dfy): Python's `str(n)` for integers, and a parser that reads it back.
- `Prompts` (prompts.dfy): the three prompt builders, as a template filled with the
  source text, and `SourceTextOf`, which takes the source text back out of a prompt.
- `Quiz` (quiz.dfy): the specification. A question object is a `seq<Entry>` holding
  the dictionary's (key, value) pairs in insertion order, which is the order the
  renderers visit them in. Values are `Str`, `StrList` or `IntList`. `ValueError`
  becomes `Err(UnexpectedKey(key))`. The module defines the question block, the answer
  block and the two sheets as functions, and proves their properties as lemmas.
- `QuizRender` (quiz_render.dfy): the three renderers as the program runs them. Each
  is a method that walks the keys with a loop, appends to an accumulator, and returns
  the error on the first unrecognised key. Each is proved equal to its specification
  function in `Quiz`. The inner `for i, option in enumerate(...)` loop of
  `question_json_to_markdown` is its own method, `AppendOptionLines`, called where the
  source nests it.

The quiz prompt asks for `answer` as a list of integers, the indices of the correct
options (helpers.py:15-16). The answer renderer iterates it as a list, so the model keeps
the list's order and any repeats, as the code does.

## Model

| member | source | states |
|---|---|---|
| `Prompts.RevisionQuizPrompt` | helpers.py:4-60 | reading the source text back out of the quiz prompt gives exactly the input, so the prompt is the fixed preamble, the text verbatim, then the fixed closing |
| `Prompts.PlaintextSummaryPrompt` | helpers.py:63-86 | reading the source text back out of the summary prompt gives exactly the input, so the prompt is its preamble, the text verbatim, then its closing |
| `Prompts.GlossaryPrompt` | helpers.py:89-109 | reading the source text back out of the glossary prompt gives exactly the input, so the prompt is its preamble, the text verbatim, then its closing |
| `Prompts.FillParts` | helpers.py:55 | a filled template is the prefix, then the source text at offset \|prefix\|, then the suffix, with length the sum of the three |
| `Prompts.SourceTextOfFill` | helpers.py:55 | a prompt yields source text `s` exactly when it is the template filled with `s` (both directions) |
| `Prompts.FillInjective` | helpers.py:55 | two different source texts never give the same prompt |
| `Decimal.NatToString` | helpers.py:121 | `str` of a natural number is a non-empty string of digits with no leading zero |
| `Decimal.IntToString` | helpers.py:134 | `str(i)` is non-empty, starts with `-` exactly when `i` is negative, and is otherwise all digits; its digits have no leading zero (only `0` itself starts with `0`, and after a `-` the first digit is never `0`) |
| `Decimal.ParseIntToString` | helpers.py:134 | reading back what `str(i)` printed gives `i` |
| `Decimal.IntToStringInjective` | helpers.py:121 | distinct integers print as distinct strings, so distinct option numbers are distinguishable |
| `Text.Join` | helpers.py:135 | `sep.join(parts)` of a non-empty list is the parts one after the other with one separator between each pair, so its length is their total length plus one less than the number of parts |
| `Text.SplitJoin` | helpers.py:135 | splitting `sep.join(parts)` on `sep` gives `parts` back when no part contains `sep` |
| `Text.SplitTerminated` | helpers.py:121 | splitting lines that each end in the separator gives the lines back, then one empty piece |
| `Quiz.InListMembership` | helpers.py:115 | the key check scans the list of allowed keys and answers exactly whether the key is one of them (both directions) |
| `Quiz.FirstUnexpectedSpec` | helpers.py:114-116 | finds the first entry, in key order, whose key is outside the five allowed keys, or reports that every key is allowed |
| `Quiz.ReadsEntry` | helpers.py:114-116 | a renderer reaches the value of entry `i` whenever every key up to and including entry `i` is allowed |
| `Quiz.ErrorMessage` | helpers.py:116 | the `ValueError` text ends with the offending key |
| `Quiz.QuestionFragmentContributes` | helpers.py:117-121 | in the question block the question always shows and the options show when there is at least one; `answer`, `explanation` and `source passage` add nothing |
| `Quiz.QuestionMarkdown` | helpers.py:112-123 | the question block fails exactly when some key is not allowed, and then names the first such key in key order |
| `Quiz.OneBased` | helpers.py:134 | one printed number per answer index, each non-empty and without a comma, so the comma join can be split again |
| `Quiz.CorrectAnswers` | helpers.py:133-135 | the answer line starts with the heading `\n\n**Correct answer(s)**:` and is only the heading exactly when the answer list is empty |
| `Quiz.AnswerFragmentContributes` | helpers.py:131-139 | in the answer block the question, the answer, the explanation and the source passage always show, each with its heading; `options` adds nothing |
| `Quiz.AnswerMarkdown` | helpers.py:126-141 | the answer block fails exactly when some key is not allowed, and then names the first such key in key order, as the question block does |
| `Quiz.FullQuestion` | helpers.py:114-115 | an object with the five keys in the format's order is well-typed and has no rejected key |
| `Quiz.FullQuestionBlock` | helpers.py:117-121 | such an object's question block is the question in bold with a trailing newline, then its option lines; `answer`, `explanation` and `source passage` add nothing |
| `Quiz.FullAnswerBlock` | helpers.py:131-139 | such an object's answer block is the bold question with no trailing newline, the correct-answers line, `\n\n**Explanation**: ` with the text, and `\n\n**Source passage**: ` with the text; `options` adds nothing |
| `Quiz.OptionsFragmentLines` | helpers.py:119-121 | when no option contains a newline, the options fragment has exactly one line per option, and line k is `- [ ] ` + str(k+1) + `: ` + option k |
| `Quiz.ReadCorrectAnswersRoundTrip` | helpers.py:133-135 | the answers line is the heading with no space after the colon, then the indices plus one joined by commas; reading the numbers back and subtracting one gives the original list, order included |
| `Quiz.FirstUnexpectedAppend` | helpers.py:114-116 | the first rejected key of entries `a` followed by `b` is `a`'s, or else `b`'s at its shifted position |
| `Quiz.BlockAppend` | helpers.py:114-141 | rendering follows insertion order: for halves `a` and `b` whose entries carry the types of the renderer in question (question types for the question block, answer types for the answer block), the object `a` then `b` renders `a`'s block then `b`'s, and a bad key in `a` is reported before one in `b` |
| `Quiz.SheetOfAppend` | helpers.py:146-153 | the sheet of two runs of blocks is the two sheets joined, or the first failure |
| `Quiz.SheetOfPrefixFails` | helpers.py:146-153 | once a prefix of the blocks fails, the whole sheet fails with that error |
| `Quiz.SheetOfStep` | helpers.py:146-153 | one more block either appends its text and a newline, or fails the whole sheet with its error |
| `Quiz.SheetOfFails` | helpers.py:146-153 | a sheet fails exactly when some block failed, and then with the error of the first failed block |
| `Quiz.SheetOfText` | helpers.py:146-153 | a sheet whose blocks all succeed is each block followed by a newline, in list order |
| `Quiz.QuizSetRejects` | helpers.py:144-155 | the set renderer fails exactly when some object has a key that is not allowed; the error is the question block's error for the first such object |
| `Quiz.QuizSetSheets` | helpers.py:144-155 | for an accepted set, every object renders in both sheets; the question sheet is the question blocks each followed by a newline, and the answer sheet is the answer blocks each followed by a newline, in list order |
| `Quiz.QuestionSheetAccepts` | helpers.py:146-148 | once the question pass has finished without raising, no object of the set has an unexpected key |
| `Quiz.AnswerSheetAccepts` | helpers.py:150-153 | when no object has an unexpected key, the answer pass renders every object, so it never raises after the question pass succeeded |
| `Quiz.QuestionSheetText` | helpers.py:145-148 | when every question block renders, the question sheet is those blocks each followed by a newline, in list order |
| `Quiz.AnswerSheetText` | helpers.py:150-153 | when every answer block renders, the answer sheet is those blocks each followed by a newline, in list order |
| `Quiz.QuizSetMarkdown` | helpers.py:144-155 | the set fails exactly when the question sheet, built first, fails, and with that sheet's error; the answer sheet is built only after the question sheet succeeded |
| `Quiz.QuizSetEmpty` | helpers.py:145-155 | an empty quiz set renders to two empty sheets |
| `QuizRender.QuestionJsonToMarkdown` | helpers.py:112-123 | the loop over the keys returns exactly the question block of the specification, including the error for the first unexpected key; only the entries before that key need to hold the types the renderer reads |
| `QuizRender.AppendOptionLines` | helpers.py:120-121 | the enumerate loop appends exactly the option lines, numbered from 1, to the accumulator |
| `QuizRender.AnswerJsonToMarkdown` | helpers.py:126-141 | the loop over the keys returns exactly the answer block of the specification, including the error for the first unexpected key; only the entries before that key need to hold the types the renderer reads |
| `QuizRender.QuizSetJsonToMarkdown` | helpers.py:144-155 | builds the whole question sheet, then the whole answer sheet, and returns exactly the specification's pair or its error; the answer pass's error branch is proved unreachable |
| `QuizRender.OptionsFragmentStep` | helpers.py:120-121 | one more pass of the enumerate loop appends option line `k + 1` to the lines of the first `k` options |
| `QuizRender.RejectedAt` | helpers.py:115-116 | when every key before position `i` is allowed and key `i` is not, both renderers fail naming key `i`, whatever the entries from `i` on hold |

## Left out

- main.py is not part of this model. It holds the Streamlit page, the OpenAI chat calls, an HTTP request to a local service, and a function that only prints.
- db.py is not part of this model. It is a thin wrapper over an embedded Weaviate client, with schema creation, inserts, batches and queries, and record identities from a library UUID hash. None of this logic is in `helpers.py`.
- No cache-first generation, batch-flush counting or integrity check exists in the modelled file, so none is modelled.
- QuizRender.QuestionJsonToMarkdown: requires `QuestionReadable`. Among the entries before the first unexpected key, `question` must hold a string and `options` a list of strings. Entries from the first unexpected key on, and keys this renderer does not read, may hold anything. Not modelled: Python's `str()` of a non-string `question` in the f-string (helpers.py:118), of a non-string option element in `{option}` (helpers.py:121), and `enumerate` over an `options` value that is not a list (a string's characters, or the `TypeError` of a non-iterable).
- QuizRender.AnswerJsonToMarkdown: requires `AnswerReadable`. Among the entries before the first unexpected key, `question`, `explanation` and `source passage` must hold strings and `answer` a list of integers. Not modelled: `str()` of a non-string value in the f-strings; an `answer` element that is not an integer, where a float or a bool prints `str(x+1)` (so `1.5` prints `2.5`) and a string or `None` makes `i+1` raise `TypeError` (helpers.py:134).
- QuizRender.QuizSetJsonToMarkdown: requires `SetReadable`. Every object must be question-readable. Objects must be answer-readable only when no object has an unexpected key, because otherwise the question pass raises first and the answer pass never runs (helpers.py:146-152). The requirement still covers objects after the first object with an unexpected key, which the question pass never reaches.
- A Python dictionary has distinct keys, but the model accepts any sequence of entries. The renderers do not depend on distinctness, so this only admits more inputs.
- Strings are sequences of characters. Unicode details of Python strings are not modelled.
- The `ValueError` is modelled by its key. `Quiz.ErrorMessage` gives its text; no exception machinery is modelled.
