/** The two prompt templates (`rag_prompt`, chatbot.py:196-209, and
    `motivation_prompt`, chatbot.py:211-288) and their filling. A template is
    fixed literal text around two holes, `{context}` and `{question}`, in that
    order; filling is plain substitution. The literal segments keep the
    templates' structural lines verbatim: the role lines, the headings other
    than `MISI UTAMA:` (chatbot.py:215, dropped with its text), the section
    markers, the mandated fallback phrase and the placeholder. Of the
    instruction prose only the lines next to these are kept (chatbot.py:222,
    225-226, the start of 276, and 287); the rest is not reproduced. */
module Prompts {
  import opened Text

  /** A template: `beforeContext {context} betweenHoles {question} afterQuestion`. */
  datatype Template = Template(beforeContext: string, betweenHoles: string, afterQuestion: string)

  /** Which of the two templates a query gets. */
  datatype PromptKind = Standard | Motivational

  /** Template filling: the context and the question land verbatim in their
      holes and the template text around them is unchanged. */
  function Compose(t: Template, context: string, question: string): (p: string)
    ensures |p| == |t.beforeContext| + |context| + |t.betweenHoles| + |question| + |t.afterQuestion|
    ensures p[..|t.beforeContext|] == t.beforeContext
    ensures p[|t.beforeContext|..|t.beforeContext| + |context|] == context
    ensures p[|t.beforeContext| + |context|..|t.beforeContext| + |context| + |t.betweenHoles|] == t.betweenHoles
    ensures p[|p| - |t.afterQuestion| - |question|..|p| - |t.afterQuestion|] == question
    ensures p[|p| - |t.afterQuestion|..] == t.afterQuestion
  {
    t.beforeContext + context + t.betweenHoles + question + t.afterQuestion
  }

  /** Reads the two hole values back out of a prompt, given the length of the
      context: None when `p` is not an instance of `t` with such a context. */
  function Holes(t: Template, p: string, contextLength: nat): Option<(string, string)> {
    var b := |t.beforeContext|;
    var m := |t.betweenHoles|;
    var a := |t.afterQuestion|;
    if b + contextLength + m + a <= |p|
       && p[..b] == t.beforeContext
       && p[b + contextLength..b + contextLength + m] == t.betweenHoles
       && p[|p| - a..] == t.afterQuestion
    then Some((p[b..b + contextLength], p[b + contextLength + m..|p| - a]))
    else None
  }

  /** Filling a template and reading the holes back gives the context and the
      question that went in. */
  lemma HolesOfCompose(t: Template, context: string, question: string)
    ensures Holes(t, Compose(t, context, question), |context|) == Some((context, question))
  {
  }

  /** Conversely, a prompt from which the holes can be read is the template
      filled with them. */
  lemma ComposeOfHoles(t: Template, p: string, contextLength: nat)
    requires Holes(t, p, contextLength).Some?
    ensures Compose(t, Holes(t, p, contextLength).value.0, Holes(t, p, contextLength).value.1) == p
  {
    var b := |t.beforeContext|;
    var m := |t.betweenHoles|;
    var a := |t.afterQuestion|;
    var n := contextLength;
    assert p[..b] + p[b..b + n] == p[..b + n];
    assert p[..b + n] + p[b + n..b + n + m] == p[..b + n + m];
    assert p[..b + n + m] + p[b + n + m..|p| - a] == p[..|p| - a];
    assert p[..|p| - a] + p[|p| - a..] == p;
  }

  /** Text in any literal segment of a template is in every prompt made from it. */
  lemma ComposeKeeps(t: Template, context: string, question: string, w: string)
    requires Contains(t.beforeContext, w) || Contains(t.betweenHoles, w) || Contains(t.afterQuestion, w)
    ensures Contains(Compose(t, context, question), w)
  {
    var b, m, q := t.beforeContext, t.betweenHoles, question;
    if Contains(b, w) {
      ContainsAppend(b, context, w);
      ContainsAppend(b + context, m, w);
    } else if Contains(m, w) {
      ContainsPrepend(b + context, m, w);
    }
    if Contains(b + context + m, w) {
      ContainsAppend(b + context + m, q, w);
      ContainsAppend(b + context + m + q, t.afterQuestion, w);
    } else {
      ContainsPrepend(b + context + m + q, t.afterQuestion, w);
    }
  }

  // ---------------------------------------------------------------------
  // The standard (knowledge-base) template, chatbot.py:196-209.

  const RagRole: string := "\nKamu adalah Branch Learning Assistant Bank Mandiri.\n\n"
  const RagContextHeading: string := "KONTEKS:\n"
  const RagQuestionHeading: string := "PERTANYAAN:\n"
  const RagAnswerHeading: string := "JAWABAN:\n"

  const RagPrompt: Template := Template(
    RagRole + RagContextHeading,
    "\n\n" + RagQuestionHeading,
    "\n\n" + RagAnswerHeading)

  // ---------------------------------------------------------------------
  // The motivation template, chatbot.py:211-288.

  /** The sentence the model must say when the context is insufficient. */
  const FallbackPhrase: string := "Knowledge saya terbatas mengenai kisah yang relevan untuk kondisi ini."

  /** The placeholder for a missing current-performance figure. */
  const Placeholder: string := "pencapaian saat ini: __"

  const MarkerA: string := "A)"
  const MarkerB: string := "B)"
  const MarkerC: string := "C)"
  const MarkerD: string := "D)"

  const Rule: string := "==================================================\n"
  const Divider: string := "--------------------------------------------------\n"

  const MotivationIntro: string :=
    "\nKamu adalah **Branch Learning Assistant Bank Mandiri**\n"
    + "dalam peran: **Sales Motivation & People Empowerment Coach (Branch Manager Style)**.\n\n"

  const RulesHead: string :=
    Rule + "ATURAN KETAT (WAJIB):\n"
    + "- **DILARANG mengarang kisah, angka, atau detail baru.**\n"
    + "- Jika konteks tidak cukup detail atau tidak relevan:\n  katakan secara eksplisit:\n  **\""
  const RulesTail: string := "\"**\n\n"
  const MotivationRules: string := RulesHead + FallbackPhrase + RulesTail

  const TitleA: string := " **Study Case Inspiratif Berbasis Kisah Nyata (150\U{2013}250 kata)**  \n\n"
  const TitleB: string := " **Lesson Learned yang Menguatkan Mental Sales (3 poin)**  \n\n"
  const TitleC: string :=
    " **Aksi Hari Ini \U{2013} Target & Eksekusi (Naratif, Tanpa Tabel)**  \n"
    + "gunakan placeholder seperti: *"
  const PlaceholderTail: string := "*.\n\n"
  const TitleD: string := " **Kalimat Penutup yang Menggerakkan**\n\n"

  const SectionA: string := MarkerA + TitleA
  const SectionB: string := MarkerB + TitleB
  const SectionC: string := MarkerC + TitleC + Placeholder + PlaceholderTail
  const SectionD: string := MarkerD + TitleD

  const OutputHead: string := "\n\n" + Rule + "OUTPUT (WAJIB ikuti struktur berikut):\n\n"
  const OutputTail: string := "Mulai jawab sekarang.\n"
  // The output part, built from its end so that each section is a direct
  // operand of a concatenation.
  const FromD: string := SectionD + OutputTail
  const FromC: string := SectionC + (Divider + FromD)
  const FromB: string := SectionB + (Divider + FromC)
  const FromA: string := SectionA + (Divider + FromB)
  const MotivationOutput: string := OutputHead + FromA

  const ContextHeading: string := Rule + "KONTEKS (Kisah Inspiratif dari Knowledge Base):\n"
  const QuestionHeading: string := Rule + "PERTANYAAN USER:\n"

  const MotivationPrompt: Template := Template(
    MotivationIntro + MotivationRules + ContextHeading,
    "\n\n" + QuestionHeading,
    MotivationOutput)

  /** The two templates differ, so the template used reveals the kind. */
  lemma TemplatesDiffer()
    ensures RagPrompt != MotivationPrompt
  {
    assert |RagPrompt.afterQuestion| != |MotivationPrompt.afterQuestion|;
  }

  /** The template for each kind of query: the motivation template for a
      motivational query and the standard one for any other. */
  function TemplateFor(kind: PromptKind): (t: Template)
    ensures t == MotivationPrompt <==> kind == Motivational
    ensures t == RagPrompt <==> kind == Standard
  {
    TemplatesDiffer();
    match kind
    case Standard => RagPrompt
    case Motivational => MotivationPrompt
  }

  /** In a filled template whose context hole follows heading `h1` and whose
      question hole follows heading `h2`, each value sits right after its
      heading. */
  lemma HeadedHoles(t: Template, x: string, h1: string, y: string, h2: string, context: string, question: string)
    requires t.beforeContext == x + h1 && t.betweenHoles == y + h2
    ensures Contains(Compose(t, context, question), h1 + context)
    ensures Contains(Compose(t, context, question), h2 + question)
  {
    var p := Compose(t, context, question);
    var a := t.afterQuestion;
    assert p == x + (h1 + context) + (y + h2 + question + a);
    ContainsMiddle(x, h1 + context, y + h2 + question + a);
    assert p == x + h1 + context + y + (h2 + question) + a;
    ContainsMiddle(x + h1 + context + y, h2 + question, a);
  }

  /** A standard prompt gives the context right after `KONTEKS:`, the question
      right after `PERTANYAAN:`, and ends with the `JAWABAN:` heading. */
  lemma RagPromptLayout(context: string, question: string)
    ensures Contains(Compose(RagPrompt, context, question), RagContextHeading + context)
    ensures Contains(Compose(RagPrompt, context, question), RagQuestionHeading + question)
    ensures var p := Compose(RagPrompt, context, question);
      |p| >= |RagAnswerHeading| && p[|p| - |RagAnswerHeading|..] == RagAnswerHeading
  {
    HeadedHoles(RagPrompt, RagRole, RagContextHeading, "\n\n", RagQuestionHeading, context, question);
    var p := Compose(RagPrompt, context, question);
    var x := RagPrompt.beforeContext + context + RagPrompt.betweenHoles + question + "\n\n";
    assert p == x + RagAnswerHeading;
    assert (x + RagAnswerHeading)[|x|..] == RagAnswerHeading;
  }

  /** A motivation prompt gives the context right after the knowledge-base
      heading, the question right after `PERTANYAAN USER:`, and ends with the
      output structure. */
  lemma MotivationPromptLayout(context: string, question: string)
    ensures Contains(Compose(MotivationPrompt, context, question), ContextHeading + context)
    ensures Contains(Compose(MotivationPrompt, context, question), QuestionHeading + question)
    ensures var p := Compose(MotivationPrompt, context, question);
      |p| >= |MotivationOutput| && p[|p| - |MotivationOutput|..] == MotivationOutput
  {
    HeadedHoles(MotivationPrompt, MotivationIntro + MotivationRules, ContextHeading, "\n\n", QuestionHeading,
      context, question);
  }

  /** Each output section carries its marker, and section C) the placeholder. */
  lemma SectionsHaveMarkers()
    ensures Contains(SectionA, MarkerA) && Contains(SectionB, MarkerB) && Contains(SectionD, MarkerD)
    ensures Contains(SectionC, MarkerC) && Contains(SectionC, Placeholder)
  {
    ContainsMiddle("", MarkerA, TitleA);
    assert "" + MarkerA + TitleA == SectionA;
    ContainsMiddle("", MarkerB, TitleB);
    assert "" + MarkerB + TitleB == SectionB;
    ContainsMiddle("", MarkerD, TitleD);
    assert "" + MarkerD + TitleD == SectionD;
    ContainsMiddle("", MarkerC, TitleC + Placeholder + PlaceholderTail);
    assert "" + MarkerC + (TitleC + Placeholder + PlaceholderTail) == SectionC;
    ContainsMiddle(MarkerC + TitleC, Placeholder, PlaceholderTail);
  }

  /** Text in any section is in the output part of the motivation template. */
  lemma OutputKeepsSections(w: string)
    requires Contains(SectionA, w) || Contains(SectionB, w) || Contains(SectionC, w) || Contains(SectionD, w)
    ensures Contains(MotivationOutput, w)
  {
    if Contains(SectionD, w) {
      ContainsAppend(SectionD, OutputTail, w);
      ContainsPrepend(Divider, FromD, w);
    }
    if Contains(SectionC, w) {
      ContainsAppend(SectionC, Divider + FromD, w);
    } else if Contains(Divider + FromD, w) {
      ContainsPrepend(SectionC, Divider + FromD, w);
    }
    if Contains(SectionB, w) {
      ContainsAppend(SectionB, Divider + FromC, w);
    } else if Contains(FromC, w) {
      ContainsPrepend(Divider, FromC, w);
      ContainsPrepend(SectionB, Divider + FromC, w);
    }
    if Contains(SectionA, w) {
      ContainsAppend(SectionA, Divider + FromB, w);
    } else if Contains(FromB, w) {
      ContainsPrepend(Divider, FromB, w);
      ContainsPrepend(SectionA, Divider + FromB, w);
    }
    ContainsPrepend(OutputHead, FromA, w);
  }

  /** The rules before the context hole carry the fallback phrase. */
  lemma RulesHaveFallback()
    ensures Contains(MotivationPrompt.beforeContext, FallbackPhrase)
  {
    ContainsMiddle(RulesHead, FallbackPhrase, RulesTail);
    ContainsPrepend(MotivationIntro, MotivationRules, FallbackPhrase);
    ContainsAppend(MotivationIntro + MotivationRules, ContextHeading, FallbackPhrase);
  }

  /** Whatever the context and question, a motivation prompt contains the four
      output-section markers, the fallback phrase and the placeholder. */
  lemma MotivationPromptStructure(context: string, question: string)
    ensures var p := Compose(MotivationPrompt, context, question);
      Contains(p, MarkerA) && Contains(p, MarkerB) && Contains(p, MarkerC) && Contains(p, MarkerD) &&
      Contains(p, FallbackPhrase) && Contains(p, Placeholder)
  {
    var t := MotivationPrompt;
    SectionsHaveMarkers();
    OutputKeepsSections(MarkerA);
    OutputKeepsSections(MarkerB);
    OutputKeepsSections(MarkerC);
    OutputKeepsSections(Placeholder);
    OutputKeepsSections(MarkerD);
    RulesHaveFallback();
    ComposeKeeps(t, context, question, MarkerA);
    ComposeKeeps(t, context, question, MarkerB);
    ComposeKeeps(t, context, question, MarkerC);
    ComposeKeeps(t, context, question, MarkerD);
    ComposeKeeps(t, context, question, Placeholder);
    ComposeKeeps(t, context, question, FallbackPhrase);
  }
}
