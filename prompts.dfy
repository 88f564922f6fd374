/** The three prompt builders: each wraps the caller's source text between a
    fixed preamble and a fixed closing line, and none of them can fail. */
module Prompts {

  import opened Wrappers

  /** A prompt template: the text that goes before and after the source text. */
  datatype Template = Template(prefix: string, suffix: string)

  /** `s` occurs in `text` starting at position `at`. */
  predicate OccursAt(text: string, s: string, at: nat) {
    at + |s| <= |text| && text[at..at + |s|] == s
  }

  /** The source text a prompt was built around, if the prompt has the template's shape. */
  function SourceTextOf(t: Template, prompt: string): (r: Option<string>)
    ensures r.Some? ==> |prompt| == |t.prefix| + |r.value| + |t.suffix|
  {
    if |t.prefix| + |t.suffix| <= |prompt|
       && prompt[..|t.prefix|] == t.prefix
       && prompt[|prompt| - |t.suffix|..] == t.suffix
    then Some(prompt[|t.prefix|..|prompt| - |t.suffix|])
    else None
  }

  /** Filling a template: the prefix, the source text verbatim, then the suffix. */
  function Fill(t: Template, sourceText: string): string
  {
    t.prefix + sourceText + t.suffix
  }

  /** Where each part sits in a filled template. */
  lemma FillParts(t: Template, sourceText: string)
    ensures var prompt := Fill(t, sourceText);
            && |prompt| == |t.prefix| + |sourceText| + |t.suffix|
            && prompt[..|t.prefix|] == t.prefix
            && OccursAt(prompt, sourceText, |t.prefix|)
            && prompt[|t.prefix| + |sourceText|..] == t.suffix
  {
  }

  /** Reading the source text back out of a filled template recovers it, and
      a prompt yields `s` exactly when it is the template filled with `s`. */
  lemma SourceTextOfFill(t: Template, prompt: string, s: string)
    ensures SourceTextOf(t, prompt) == Some(s) <==> prompt == Fill(t, s)
  {
  }

  /** Two source texts give the same prompt only if they are the same text. */
  lemma FillInjective(t: Template, s1: string, s2: string)
    requires Fill(t, s1) == Fill(t, s2)
    ensures s1 == s2
  {
    SourceTextOfFill(t, Fill(t, s1), s1);
    SourceTextOfFill(t, Fill(t, s1), s2);
  }

  /** The preamble of `revision_quiz_json_builder`, line by line, with its
      indentation and trailing spaces. Long lines are written as several shorter
      literals; the text is the same. */
  const QuizPrefix: string :=
    "\n"
    + "        Write a set of multiple-choice quiz " + "questions with three to four options each " + "\n"
    + "        to review and internalise the following " + "information.\n"
    + "\n"
    + "        The quiz should be returned in a " + "JSON format so that it can be displayed " + "and undertaken by the user.\n"
    + "        The answer should be a list of integers " + "corresponding to the indices of the correct " + "answers.\n"
    + "        If there is only one correct answer, " + "the answer should be a list of one integer.\n"
    + "        Also return an explanation for each " + "answer, and a quote from the source text " + "to support the answer.\n"
    + "\n"
    + "        The goal of the quiz is to provide " + "a revision exercise, \n"
    + "        so that the user can internalise " + "the information presented in this passage.\n"
    + "        The quiz questions should only cover " + "information explicitly presented in this " + "passage. \n"
    + "        The number of questions can be anything " + "from one to 10, depending on the volume " + "of information presented.     \n"
    + "\n"
    + "        Sample quiz question:\n"
    + "\n"
    + "        {\n"
    + "            \"question\": \"What is the capital " + "of France?\",\n"
    + "            \"options\": [\"Paris\", \"London\", " + "\"Berlin\", \"Madrid\"],\n"
    + "            \"answer\": [0],\n"
    + "            \"explanation\": \"Paris is the " + "capital of France\",\n"
    + "            \"source passage\": \"SOME PASSAGE " + "EXTRACTED FROM THE INPUT TEXT\"\n"
    + "        }\n"
    + "\n"
    + "        Sample quiz set:\n"
    + "\n"
    + "        [\n"
    + "            {\n"
    + "                \"question\": \"What is the " + "capital of France?\",\n"
    + "                \"options\": [\"Paris\", \"London\", " + "\"Berlin\", \"Madrid\"],\n"
    + "                \"answer\": [0],\n"
    + "                \"explanation\": \"Paris is " + "the capital of France\",\n"
    + "                \"source passage\": \"SOME " + "PASSAGE EXTRACTED FROM THE INPUT TEXT\"\n"
    + "            },\n"
    + "            {\n"
    + "                \"question\": \"What is the " + "capital of Spain?\",\n"
    + "                \"options\": [\"Paris\", \"London\", " + "\"Berlin\", \"Madrid\"],\n"
    + "                \"answer\": [3],\n"
    + "                \"explanation\": \"Madrid is " + "the capital of Spain\",\n"
    + "                \"source passage\": \"SOME " + "PASSAGE EXTRACTED FROM THE INPUT TEXT\"\n"
    + "            }\n"
    + "        ]\n"
    + "\n"
    + "        ======= Source Text =======\n"
    + "\n"
    + "        "

  const QuizSuffix: string :=
    "\n"
    + "\n"
    + "        ======= Questions =======\n"
    + "\n"
    + "    "

  const SummaryPrefix: string :=
    "\n"
    + "    Summarize the following into bullet " + "points that presents the core concepts.\n"
    + "    This should be in plain language that " + "will help the reader best understand the " + "core concepts,\n"
    + "    so that they can internalise the ideas " + "presented in this passage.\n"
    + "\n"
    + "    The bullet points should start at a " + "high level,\n"
    + "    and nested to go into further details " + "if necessary\n"
    + "\n"
    + "    ==============\n"
    + "\n"
    + "    "

  const SummarySuffix: string :=
    "\n"
    + "\n"
    + "    ==============\n"
    + "\n"
    + "    Summary:\n"
    + "\n"
    + "    "

  const GlossaryPrefix: string :=
    "\n"
    + "    Return a glossary of key terms or jargon " + "from the source text\n"
    + "    to help someone reading this material " + "understand the text.\n"
    + "    Each explanation should be in as plain " + "and clear language as possible.\n"
    + "    For this task, it is acceptable to rely " + "on information outside of the source text.\n"
    + "\n"
    + "    The output should be in the following " + "Markdown format:\n"
    + "\n"
    + "    - **TERM A**: EXPLANATION A \n"
    + "    - **TERM B**: EXPLANATION B\n"
    + "    - ...\n"
    + "\n"
    + "    ====== Source text =======\n"
    + "\n"
    + "    "

  const GlossarySuffix: string :=
    "\n"
    + "\n"
    + "    ====== Glossary =======\n"
    + "\n"
    + "    "

  const RevisionQuiz := Template(QuizPrefix, QuizSuffix)
  const PlaintextSummary := Template(SummaryPrefix, SummarySuffix)
  const Glossary := Template(GlossaryPrefix, GlossarySuffix)

  /** `revision_quiz_json_builder`: asks for a JSON quiz on the source text. */
  function RevisionQuizPrompt(sourceText: string): (prompt: string)
    ensures SourceTextOf(RevisionQuiz, prompt) == Some(sourceText)
  {
    SourceTextOfFill(RevisionQuiz, Fill(RevisionQuiz, sourceText), sourceText);
    Fill(RevisionQuiz, sourceText)
  }

  /** `plaintext_summary_builder`: asks for a bullet-point summary of the source text. */
  function PlaintextSummaryPrompt(sourceText: string): (prompt: string)
    ensures SourceTextOf(PlaintextSummary, prompt) == Some(sourceText)
  {
    SourceTextOfFill(PlaintextSummary, Fill(PlaintextSummary, sourceText), sourceText);
    Fill(PlaintextSummary, sourceText)
  }

  /** `get_glossary_builder`: asks for a markdown glossary of the source text. */
  function GlossaryPrompt(sourceText: string): (prompt: string)
    ensures SourceTextOf(Glossary, prompt) == Some(sourceText)
  {
    SourceTextOfFill(Glossary, Fill(Glossary, sourceText), sourceText);
    Fill(Glossary, sourceText)
  }
}
