/** The response pipeline (chatbot.py:332-355): classify the query, retrieve
    chunks, join them into the context, fill the chosen template, and hand the
    prompt to the language model. The retriever and the model are parameters:
    their internals (vector search, the hosted model) are outside the core. */
module Pipeline {
  import opened Text
  import opened Intent
  import opened Context
  import opened Prompts

  /** The retriever's `k` (chatbot.py:180). */
  const TopK: nat := 3

  /** A retriever: the ranked chunks for a query, never more than `TopK`. */
  type Retriever = f: string -> seq<Document> | forall q :: |f(q)| <= TopK
    witness (q: string) => []

  /** What one model call yields after `StrOutputParser`: its text, or the
      failure that the call raised. */
  datatype Reply = Generated(text: string) | Failed(error: string)

  /** The language model with its output parser. */
  type Model = string -> Reply

  /** The template kind chosen for a query (chatbot.py:332). */
  function KindOf(query: string): (k: PromptKind)
    ensures k == Motivational <==> IsMotivationIntent(query)
    ensures k == Standard <==> !IsMotivationIntent(query)
  {
    if IsMotivationIntent(query) then Motivational else Standard
  }

  /** The template selected for a query is the motivation template exactly
      when the motivation intent is detected, and the standard one otherwise. */
  lemma TemplateSelection(query: string)
    ensures TemplateFor(KindOf(query)) == MotivationPrompt <==> IsMotivationIntent(query)
    ensures TemplateFor(KindOf(query)) == RagPrompt <==> !IsMotivationIntent(query)
  {
    TemplatesDiffer();
  }

  /** The prompt the chain builds for `query`: the chosen template filled with
      the joined contents of at most `TopK` retrieved chunks and the query
      itself, both readable back verbatim. */
  function BuildPrompt(query: string, retrieve: Retriever): (p: string)
    ensures Holes(TemplateFor(KindOf(query)), p, |FormatDocs(retrieve(query))|)
         == Some((FormatDocs(retrieve(query)), query))
  {
    var t := TemplateFor(KindOf(query));
    var context := FormatDocs(retrieve(query));
    HolesOfCompose(t, context, query);
    Compose(t, context, query)
  }

  /** `chain.invoke(user_input)`: the model's reply to the built prompt. */
  function Respond(query: string, retrieve: Retriever, llm: Model): Reply {
    llm(BuildPrompt(query, retrieve))
  }

  /** The reply is the model applied to the selected template filled with the
      joined retrieved chunks and the query: the chain shape
      `llm(compose(kind(q), format_docs(retrieve(q)), q))`. */
  lemma RespondIsChain(query: string, retrieve: Retriever, llm: Model)
    ensures Respond(query, retrieve, llm) ==
      llm(Compose(TemplateFor(KindOf(query)), FormatDocs(retrieve(query)), query))
  {
  }

  /** The two chains of the source: a motivational query is answered by the
      model on the filled motivation template, any other query on the filled
      standard template, the context being the joined retrieved chunks. */
  lemma RespondBranches(query: string, retrieve: Retriever, llm: Model)
    ensures IsMotivationIntent(query) ==>
      Respond(query, retrieve, llm) == llm(Compose(MotivationPrompt, FormatDocs(retrieve(query)), query))
    ensures !IsMotivationIntent(query) ==>
      Respond(query, retrieve, llm) == llm(Compose(RagPrompt, FormatDocs(retrieve(query)), query))
  {
  }

  /** A motivational query gets a prompt carrying the four section markers, the
      fallback phrase and the placeholder, even when nothing was retrieved. */
  lemma MotivationalPromptStructure(query: string, retrieve: Retriever)
    requires IsMotivationIntent(query)
    ensures var p := BuildPrompt(query, retrieve);
      Contains(p, MarkerA) && Contains(p, MarkerB) && Contains(p, MarkerC) && Contains(p, MarkerD) &&
      Contains(p, FallbackPhrase) && Contains(p, Placeholder)
  {
    MotivationPromptStructure(FormatDocs(retrieve(query)), query);
  }

  /** With nothing retrieved, the context hole is empty and the prompt is the
      chosen template around the query alone. */
  lemma EmptyRetrievalPrompt(query: string, retrieve: Retriever)
    requires retrieve(query) == []
    ensures BuildPrompt(query, retrieve) == Compose(TemplateFor(KindOf(query)), "", query)
  {
  }
}
