# Branch Learning Assistant — verified model of the chat core

`chatbot.py` is a Streamlit chat assistant for Bank Mandiri branch staff. Its
deterministic core is modelled here in Dafny and proved against its contracts:

* **Intent classifier** (`text.dfy`, `intent.dfy`). `is_motivation_intent`
  lower-cases the query. It then asks whether any of the eleven patterns
  `\bkeyword\b` of `MOTIVATION_PATTERNS` matches. `re.search` is modelled as a
  leftmost-match scan. Python's `\b` is modelled by its own definition: the
  two neighbouring characters differ in being word characters, and a string
  edge counts as non-word.
* **Context assembly** (`context.dfy`). `format_docs` joins the retrieved
  chunks' page contents in rank order, with `"\n\n"` between them. The
  model uses Python's `str.join`.
* **Prompt composition** (`prompts.dfy`). The two `ChatPromptTemplate`s are
  literal text around the holes `{context}` and `{question}`. Filling a
  template is substitution.
* **Pipeline** (`pipeline.dfy`).
  - The classifier picks the template.
  - The retriever (at most `k = 3` chunks) feeds `format_docs`.
  - The language model receives the filled prompt.
  - The retriever and the model are function parameters.
* **Session transcript** (`session.dfy`). `st.session_state` keeps
  `chat_history` and `booted` across Streamlit script runs.
  - A pure step function over the session state describes one script run.
    `Run` folds it over a sequence of user events.
  - The class `ChatSession` holds the same state in mutable fields. Its
    methods `InitHistory`, `Boot`, `Clear` and `Answer` are the script's
    statements. `RunScript` is one whole run, proved equal to the step
    function.

`chatbot.py` does not handle a failing retrieval or model call: any exception
from the chain aborts the script run. The model covers the two cases as
follows:

* A failed model call is the `Failed` reply. That run appends nothing.
* Retrieval is total, and an empty retrieval is allowed. `EmptyRetrievalPrompt`
  states the prompt that an empty retrieval gives.

## Model

| member | source | states |
|---|---|---|
| Text.Lower | chatbot.py:162 | `text.lower()` on ASCII: same length, each character lower-cased on its own, result has no upper-case letter |
| Text.LowerIdempotent | chatbot.py:162 | lower-casing twice is lower-casing once |
| Text.Join | chatbot.py:326 | `sep.join(parts)`: empty for no parts; otherwise the total part length plus one separator per gap |
| Text.JoinPlacesPart | chatbot.py:326 | part k sits verbatim in the join, between the join of the parts before it and the join of those after it |
| Intent.Search | chatbot.py:162 | `re.search(r"\bw\b", s)`: returns the leftmost index where `\bw\b` matches; returns None exactly when there is no match at or after the start |
| Intent.MotivationPatternsShape | chatbot.py:155-159 | `MotivationPatterns`: eleven different keywords, each a non-empty lower-case run of word characters |
| Intent.AnyPatternIff | chatbot.py:162 | `AnyPattern`, i.e. `any(re.search(p, s) for p in patterns)`, is true iff some pattern matches at some index |
| Intent.MatchAtIsWholeWord | chatbot.py:155-159 | for a keyword of word characters, `\b` on both sides means a string edge or a non-word character on both sides |
| Intent.MotivationIntentIff | chatbot.py:161-162 | `IsMotivationIntent(text)`: the query is motivational iff one of the eleven keywords occurs as a whole word in the lower-cased query |
| Intent.IgnoresCase | chatbot.py:162 | classifying `lower(t)` gives the same answer as classifying `t` |
| Intent.UpperCaseKeywordTriggers | chatbot.py:158-162 | "TARGET" is motivational |
| Intent.EmptyIsStandard | chatbot.py:161-162 | the empty query is standard |
| Intent.SingleWordIntent | chatbot.py:155-162 | a query of word characters only is motivational iff its lower-cased form is one of the keywords |
| Intent.EmbeddedMotivasiIsStandard | chatbot.py:156-162 | "motivasinya" is standard: the keyword inside a longer word does not trigger |
| Intent.EmbeddedTargetIsStandard | chatbot.py:158-162 | "targeting" is standard |
| Intent.SpacedKeywordTriggers | chatbot.py:155-162 | any keyword between two spaces makes the query motivational, whatever surrounds it |
| Intent.SeparatorSplitsIntent | chatbot.py:155-162 | with a non-word character between two parts, the query is motivational iff one of the parts is |
| Intent.JoinedIntent | chatbot.py:155-162 | parts joined by a non-word character give a motivational query iff some part is motivational |
| Intent.ExampleMotivational | chatbot.py:157-162 | "saya capek ditolak terus" is motivational |
| Intent.ExampleStandard | chatbot.py:155-162 | the five words "apa", "syarat", "kartu", "kredit", "Mandiri?" joined by spaces make a standard query |
| Text.JoinExample | chatbot.py:326 | that space-join is exactly the query "apa syarat kartu kredit Mandiri?" |
| Context.Contents | chatbot.py:326 | the page contents of the documents, in order |
| Context.FormatDocs | chatbot.py:325-326 | no documents give `""`; one document gives its content unchanged; n ≥ 1 documents give total content length plus 2·(n−1) |
| Context.FormatDocsPlacesDocument | chatbot.py:325-326 | document k's content is verbatim in the context, after the earlier-ranked ones and before the later ones, with one `"\n\n"` on each inner side |
| Context.FormatDocsAppend | chatbot.py:325-326 | one more retrieved chunk extends the context by `"\n\n"` and its content; the earlier context is unchanged |
| Prompts.Compose | chatbot.py:196-209 | filling a template puts the context and the question verbatim in their holes and leaves the template text unchanged around them |
| Prompts.HolesOfCompose | chatbot.py:203-206 | the context and the question read back out of a filled template equal the ones put in |
| Prompts.ComposeOfHoles | chatbot.py:236-240 | a prompt whose holes can be read is that template filled with them |
| Prompts.ComposeKeeps | chatbot.py:211-288 | text of the template itself is in every prompt made from it |
| Prompts.TemplatesDiffer | chatbot.py:196-288 | the standard and motivation templates are different |
| Prompts.TemplateFor | chatbot.py:339-351 | the template is the motivation template exactly for the Motivational kind and the standard one exactly for the Standard kind |
| Prompts.HeadedHoles | chatbot.py:202-240 | in a filled template each hole value sits right after the heading that precedes its hole |
| Prompts.RagPromptLayout | chatbot.py:196-209 | `RagPrompt`: the context comes right after `KONTEKS:`, the question right after `PERTANYAAN:`, and the prompt ends with `JAWABAN:` |
| Prompts.MotivationPromptLayout | chatbot.py:234-288 | `MotivationPrompt`: the context comes right after the knowledge-base heading, the question right after `PERTANYAAN USER:`, and the prompt ends with the output structure A)–D) |
| Prompts.MotivationPromptStructure | chatbot.py:227-279 | every motivation prompt contains A), B), C), D), the fallback phrase and the `pencapaian saat ini: __` placeholder, whatever the context and question |
| Pipeline.KindOf | chatbot.py:332 | the query kind is Motivational iff the classifier fires, and Standard otherwise |
| Pipeline.TemplateSelection | chatbot.py:332-355 | the motivation template is used iff the classifier fires; the standard template is used otherwise |
| Pipeline.BuildPrompt | chatbot.py:334-351 | the prompt is the selected template; its context hole reads back as `format_docs(retrieve(q))` and its question hole as `q` |
| Pipeline.MotivationalPromptStructure | chatbot.py:332-343 | a motivational query's prompt has the four section markers, the fallback phrase and the placeholder, whatever was retrieved |
| Pipeline.EmptyRetrievalPrompt | chatbot.py:336-348 | with nothing retrieved the context hole is empty and the pipeline still builds the prompt |
| Pipeline.RespondIsChain | chatbot.py:334-355 | the chain's definition unfolded one level, not a derived property: `Respond(q)` is defined as `llm(compose(kind(q), format_docs(retrieve(q)), q))`; the properties proved of this wiring are those of BuildPrompt, RespondBranches, MotivationalPromptStructure and ScriptAnswer |
| Pipeline.RespondBranches | chatbot.py:332-355 | `Respond`: a motivational query is answered by the model on the filled motivation template, any other on the filled standard template, with the joined retrieved chunks as context |
| Session.ScriptAnswer | chatbot.py:328-360 | end to end: in a booted session a non-empty query run through the script's own pipeline appends exactly `(q, answer)`, where the answer is the model's reply to the selected template filled with `format_docs(retrieve(q))` and `q`; a failed model call appends nothing |
| Session.SinceLastClear | chatbot.py:111-113 | the events after the last Clear: a suffix of the events with no Clear in it, preceded by a Clear when there was one |
| Session.InitializedOnce | chatbot.py:294-295 | `Initialized`: the history key then exists, a second creation changes nothing, and an existing history keeps its entries |
| Session.SeededOnce | chatbot.py:297-303 | `Seeded`: sets `booted`, appends the greeting only if `booted` was unset, and seeding twice is seeding once |
| Session.ClearedForgets | chatbot.py:111-113 | `Cleared`: the history is empty, `booted` is kept, and in a booted session the following run does not re-add the greeting |
| Session.AnsweredAppends | chatbot.py:328-360 | `Answered`: earlier entries are kept and at most the one answered pair is appended; an empty input changes nothing |
| Session.StepHistory | chatbot.py:111-360 | `Step` from any reachable state: the old history (none after Clear), then the greeting if not booted yet, then the entry the input adds |
| Session.RunConsistent | chatbot.py:111-360 | `Run`: any number of runs keeps the state reachable, and after at least one run the session is booted |
| Session.StepConsistent | chatbot.py:294-303 | after any run `booted` is set, and a booted session has a history |
| Session.FirstRunSeeds | chatbot.py:294-303 | the first run leaves exactly the greeting pair, followed by the pair its input adds |
| Session.BootedStep | chatbot.py:297-360 | once booted, a run never re-seeds (297); Clear (111-113) empties the history; an answered non-empty input appends exactly its pair; anything else leaves the history unchanged |
| Session.BootedRunStaysBooted | chatbot.py:297-298 | once booted, a session stays booted over any runs |
| Session.BootedRun | chatbot.py:328-360 | over any runs of a booted session, with Clear as at 111-113, the history is the answered turns since the last Clear, in order, after the earlier history if there was no Clear |
| Session.SessionTranscript | chatbot.py:294-360 | a whole session's transcript: the greeting once at the front unless a later Clear removed it, then the answered turns since the last Clear in chronological order |
| Session.ChatSession.constructor | chatbot.py:294-297 | a new session has neither `chat_history` nor `booted`; that state is consistent |
| Session.ChatSession.InitHistory | chatbot.py:294-295 | creates an empty `chat_history` only if there is none; nothing else changes |
| Session.ChatSession.Boot | chatbot.py:297-303 | on the first run sets `booted` and appends exactly the greeting; later runs change nothing |
| Session.ChatSession.Clear | chatbot.py:111-112 | the history becomes empty and `booted` is unchanged |
| Session.ChatSession.Answer | chatbot.py:328-360 | an empty input is ignored; otherwise the reply is returned, and a generated answer appends exactly `(input, answer)` after the unchanged earlier entries |
| Session.ChatSession.RunScript | chatbot.py:111-360 | one script run changes the session exactly as the step function says, so the session stays booted and consistent after every run |

## Left out

- Streamlit layout is not modelled: page configuration, CSS, images, columns and the chat display (chatbot.py:1-110, 114-149, 309-313, 329-330, 357-358), and the loading spinners around the two chains (chatbot.py:333, 345). All of it is presentation only. The Clear handler inside the header (chatbot.py:111-113) is modelled.
- The chat input widget is not modelled (chatbot.py:319). An event carries its value instead; a falsy value is `Submit("")`.
- The real retriever is not modelled: FAISS index loading and HuggingFace embeddings (chatbot.py:168-180). It is a foreign library doing floating-point similarity search, so `Retriever` is any function that returns at most 3 documents.
- Retrieval failure is not modelled. The source does not handle it: the exception ends the script run after the history was created and seeded (chatbot.py:294-303), so only the append (chatbot.py:360) is skipped.
- The Groq client, its secret and its network behaviour (timeouts included) are not modelled (chatbot.py:186-190). `Model` is any function from prompt to reply.
- The LangChain plumbing is reduced to plain function composition: `RunnablePassthrough`, `|` composition and `StrOutputParser` (chatbot.py:334-355). The prompt value is modelled as one string, not a list of chat messages.
- Text.Lower: lower-cases only ASCII `A`–`Z`, because full Unicode `str.lower()` is outside the model. Likewise `IsWordChar` is ASCII letters, digits and `_`, not Unicode `\w`.
- Prompts.RagPrompt and Prompts.MotivationPrompt: keep the structural lines of the templates verbatim, with their trailing spaces: the role lines; the headings `KONTEKS:`, `PERTANYAAN:` and `JAWABAN:` (chatbot.py:202-208) and `ATURAN KETAT (WAJIB):`, `KONTEKS (Kisah Inspiratif dari Knowledge Base):`, `PERTANYAAN USER:` and `OUTPUT (WAJIB ikuti struktur berikut):` (chatbot.py:221, 235, 239, 243), each after its rule line; the section lines A)–D); the fallback phrase; and the placeholder. The heading `MISI UTAMA:` (chatbot.py:215) is dropped together with its text (216-218). A few instruction lines next to the kept ones are kept too: the first rule and the lead-in to the fallback phrase (chatbot.py:222, 225-226), the start of the placeholder line (276) and the closing line (287). The rest of the instruction prose is dropped, including the lead-in lines inside the sections (chatbot.py:228, 248, 261, 270, 284). All properties proved are about the holes and the kept lines.
- Session.ChatSession.Answer and Session.ChatSession.RunScript: take the pipeline as a `Responder` parameter. The script's own responder is `PipelineFor(retrieve, llm)`, and `ScriptAnswer` states what a run with it appends.
- A failed model call is modelled as a `Failed` reply. The source raises an exception, which aborts the run. In the model that run appends nothing, and the error display is left out.
- An empty generated answer is passed through and appended like any other. The source does the same.
- `st.rerun()` after Clear is modelled as one run that clears and then completes without input, which is what the rerun amounts to.
- Concurrency between browser sessions and Streamlit's resource caching are not modelled. Each `ChatSession` object is one session.
