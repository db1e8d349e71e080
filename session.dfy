/** The session transcript (chatbot.py:111-113, 294-303, 328, 360). Streamlit
    runs the whole script again on every interaction, keeping only
    `st.session_state`; here that state is `chat_history` (which may not exist
    yet) and the `booted` flag. One script run is a step driven by what the
    user did: nothing, pressing Clear, or submitting a chat input. */
module Session {
  import opened Text
  import opened Context
  import opened Prompts
  import opened Pipeline

  /** The whole pipeline seen from the transcript: the reply to a query. */
  type Responder = string -> Reply

  /** The pipeline of chatbot.py:332-355 for a given retriever and model. */
  function PipelineFor(retrieve: Retriever, llm: Model): (respond: Responder)
    ensures forall q :: respond(q) == Respond(q, retrieve, llm)
  {
    q => Respond(q, retrieve, llm)
  }

  /** One transcript entry: a user turn and the assistant's answer. */
  datatype Turn = Turn(query: string, answer: string)

  /** The pair seeded into every new session (chatbot.py:299-303). */
  const Greeting: Turn := Turn(
    "Halo, saya mulai belajar dari mana?",
    "Mulai dari selling skill dasar atau langsung tanya produk. "
    + "Jika butuh motivasi, cukup ketik: *butuh motivasi*.")

  /** The session state the core touches: whether `chat_history` exists, its
      contents, and whether `booted` exists. */
  datatype SessionState = SessionState(hasHistory: bool, history: seq<Turn>, booted: bool)

  /** A new session: neither key is set. */
  const Fresh: SessionState := SessionState(false, [], false)

  /** What triggered a script run. `Submit("")` stands for a chat input that
      is falsy, which the script ignores. */
  datatype Event = Idle | ClearPressed | Submit(input: string)

  /** A state the script can reach: a booted session has a history, and an
      absent history is empty. */
  predicate Consistent(s: SessionState) {
    (s.booted ==> s.hasHistory) && (!s.hasHistory ==> s.history == [])
  }

  /** chatbot.py:294-295: create `chat_history` if it is missing. */
  function Initialized(s: SessionState): SessionState {
    if s.hasHistory then s else s.(hasHistory := true, history := [])
  }

  /** chatbot.py:297-303: on the first run, set `booted` and append the greeting. */
  function Seeded(s: SessionState): SessionState {
    if s.booted then s else s.(booted := true, history := s.history + [Greeting])
  }

  /** chatbot.py:111-112: Clear replaces the history by an empty list. */
  function Cleared(s: SessionState): SessionState {
    s.(hasHistory := true, history := [])
  }

  /** chatbot.py:328-360: a truthy input is answered and the pair appended; a
      failing model call aborts the run before the append. */
  function Answered(s: SessionState, input: string, respond: Responder): SessionState {
    if input == "" then s
    else match respond(input)
      case Generated(answer) => s.(history := s.history + [Turn(input, answer)])
      case Failed(_) => s
  }

  /** One script run. Pressing Clear empties the history and calls
      `st.rerun()`, so the rest of that run is skipped and a new run without
      input follows. */
  function Step(s: SessionState, e: Event, respond: Responder): SessionState {
    match e
    case Idle => Seeded(Initialized(s))
    case ClearPressed => Seeded(Initialized(Cleared(s)))
    case Submit(input) => Answered(Seeded(Initialized(s)), input, respond)
  }

  /** A sequence of script runs. */
  function Run(s: SessionState, events: seq<Event>, respond: Responder): SessionState
    decreases |events|
  {
    if events == [] then s else Run(Step(s, events[0], respond), events[1..], respond)
  }

  /** The entry an event adds to the transcript, if any. */
  function TurnOf(e: Event, respond: Responder): seq<Turn> {
    match e
    case Submit(input) =>
      if input == "" then []
      else (match respond(input)
        case Generated(answer) => [Turn(input, answer)]
        case Failed(_) => [])
    case _ => []
  }

  /** The entries a sequence of events adds, in order. */
  function TurnsOf(events: seq<Event>, respond: Responder): seq<Turn> {
    if events == [] then [] else TurnOf(events[0], respond) + TurnsOf(events[1..], respond)
  }

  /** The events after the last Clear (all of them if there was none). */
  function SinceLastClear(events: seq<Event>): (r: seq<Event>)
    ensures ClearPressed !in r
    ensures ClearPressed !in events ==> r == events
    ensures |r| <= |events| && r == events[|events| - |r|..]
    ensures ClearPressed in events ==> events[|events| - |r| - 1] == ClearPressed
  {
    if events == [] then []
    else if events[0] == ClearPressed || ClearPressed in events[1..] then SinceLastClear(events[1..])
    else [events[0]] + SinceLastClear(events[1..])
  }

  /** Creating `chat_history` happens once: afterwards the key exists, a second
      creation changes nothing, and an existing history keeps its entries. */
  lemma InitializedOnce(s: SessionState)
    ensures Initialized(s).hasHistory && Initialized(s).booted == s.booted
    ensures Initialized(Initialized(s)) == Initialized(s)
    ensures Consistent(s) ==> Initialized(s).history == s.history
  {
  }

  /** Seeding happens once: it sets `booted`, appends the greeting only when
      `booted` was not yet set, and a second seeding changes nothing. */
  lemma SeededOnce(s: SessionState)
    ensures Seeded(s).booted && Seeded(s).hasHistory == s.hasHistory
    ensures Seeded(s).history == s.history + (if s.booted then [] else [Greeting])
    ensures Seeded(Seeded(s)) == Seeded(s)
  {
  }

  /** Clear forgets every entry, and in a booted session the seeding that
      follows does not bring the greeting back. */
  lemma ClearedForgets(s: SessionState)
    ensures Cleared(s).hasHistory && Cleared(s).history == [] && Cleared(s).booted == s.booted
    ensures Cleared(Cleared(s)) == Cleared(s)
    ensures s.booted ==> Seeded(Initialized(Cleared(s))).history == []
  {
  }

  /** Answering keeps every earlier entry and appends at most the one pair the
      input produces; an empty input changes nothing. */
  lemma AnsweredAppends(s: SessionState, input: string, respond: Responder)
    ensures Answered(s, input, respond).history == s.history + TurnOf(Submit(input), respond)
    ensures Answered(s, input, respond).hasHistory == s.hasHistory
    ensures Answered(s, input, respond).booted == s.booted
    ensures input == "" ==> Answered(s, input, respond) == s
  {
  }

  /** One run from any reachable state: the history is the old one (none after
      a Clear), then the greeting if the session was not booted yet, then the
      entry the input adds. */
  lemma StepHistory(s: SessionState, e: Event, respond: Responder)
    requires Consistent(s)
    ensures Step(s, e, respond).history ==
      (if e == ClearPressed then [] else s.history) + (if s.booted then [] else [Greeting]) + TurnOf(e, respond)
  {
  }

  /** Every run keeps the state consistent. */
  lemma StepConsistent(s: SessionState, e: Event, respond: Responder)
    ensures Consistent(Step(s, e, respond))
    ensures Step(s, e, respond).booted
  {
  }

  /** The first run of a session leaves exactly the greeting, followed by the
      entry its input adds. */
  lemma FirstRunSeeds(e: Event, respond: Responder)
    ensures Step(Fresh, e, respond).booted
    ensures Step(Fresh, e, respond).history == [Greeting] + TurnOf(e, respond)
  {
  }

  /** Once booted, a run never seeds again: Clear empties the history, a
      truthy answered input appends exactly its pair, and anything else
      leaves the history as it was. */
  lemma BootedStep(s: SessionState, e: Event, respond: Responder)
    requires s.booted && s.hasHistory
    ensures Step(s, e, respond).booted && Step(s, e, respond).hasHistory
    ensures Step(s, e, respond).history ==
      (if e == ClearPressed then [] else s.history) + TurnOf(e, respond)
  {
  }

  /** How the events since the last Clear relate to those of a shorter tail. */
  lemma SinceLastClearCons(e: Event, rest: seq<Event>)
    ensures ClearPressed in rest ==> SinceLastClear([e] + rest) == SinceLastClear(rest)
    ensures ClearPressed !in rest && e == ClearPressed ==> SinceLastClear([e] + rest) == rest
    ensures ClearPressed !in rest && e != ClearPressed ==> SinceLastClear([e] + rest) == [e] + rest
  {
    assert ([e] + rest)[0] == e && ([e] + rest)[1..] == rest;
  }

  /** The turns of a longer event list start with those of its first event. */
  lemma TurnsOfCons(e: Event, rest: seq<Event>, respond: Responder)
    ensures TurnsOf([e] + rest, respond) == TurnOf(e, respond) + TurnsOf(rest, respond)
  {
    assert ([e] + rest)[0] == e && ([e] + rest)[1..] == rest;
  }

  /** Any number of runs keeps a reachable state reachable, and after at
      least one run the session is booted. */
  lemma {:induction false} RunConsistent(s: SessionState, events: seq<Event>, respond: Responder)
    requires Consistent(s)
    ensures Consistent(Run(s, events, respond))
    ensures events != [] ==> Run(s, events, respond).booted
    decreases |events|
  {
    if events != [] {
      StepConsistent(s, events[0], respond);
      RunConsistent(Step(s, events[0], respond), events[1..], respond);
    }
  }

  /** Once booted, a session stays booted over any runs. */
  lemma {:induction false} BootedRunStaysBooted(s: SessionState, events: seq<Event>, respond: Responder)
    requires s.booted && s.hasHistory
    ensures Run(s, events, respond).booted && Run(s, events, respond).hasHistory
    decreases |events|
  {
    if events != [] {
      BootedStep(s, events[0], respond);
      BootedRunStaysBooted(Step(s, events[0], respond), events[1..], respond);
    }
  }

  /** Over any runs of a booted session the transcript is the answered turns
      since the last Clear, in order, after what was there when there was
      no Clear. */
  lemma {:induction false} BootedRun(s: SessionState, events: seq<Event>, respond: Responder)
    requires s.booted && s.hasHistory
    ensures Run(s, events, respond).history ==
      (if ClearPressed in events then [] else s.history) + TurnsOf(SinceLastClear(events), respond)
    decreases |events|
  {
    if events != [] {
      var e, rest := events[0], events[1..];
      assert events == [e] + rest;
      var s' := Step(s, e, respond);
      BootedStep(s, e, respond);
      BootedRun(s', rest, respond);
      SinceLastClearCons(e, rest);
      TurnsOfCons(e, rest, respond);
    }
  }

  /** A whole session: the greeting is seeded once, in the first run, and is
      gone for good after a Clear; the rest of the transcript is the answered
      turns since the last Clear, in chronological order. */
  lemma SessionTranscript(events: seq<Event>, respond: Responder)
    requires events != []
    ensures Run(Fresh, events, respond).history ==
      (if ClearPressed in events[1..] then [] else [Greeting] + TurnOf(events[0], respond))
      + TurnsOf(SinceLastClear(events[1..]), respond)
  {
    var first := Step(Fresh, events[0], respond);
    FirstRunSeeds(events[0], respond);
    BootedRun(first, events[1..], respond);
  }

  /** End to end: in a booted session, a non-empty query submitted to the
      script's own pipeline appends exactly one pair, the query with the
      model's answer on the selected template filled with the joined
      retrieved chunks, or nothing when the model call fails. */
  lemma ScriptAnswer(s: SessionState, q: string, retrieve: Retriever, llm: Model)
    requires s.booted && s.hasHistory && q != ""
    ensures var reply := llm(Compose(TemplateFor(KindOf(q)), FormatDocs(retrieve(q)), q));
      Step(s, Submit(q), PipelineFor(retrieve, llm)).history ==
        s.history + (if reply.Generated? then [Turn(q, reply.text)] else [])
  {
    var respond := PipelineFor(retrieve, llm);
    RespondIsChain(q, retrieve, llm);
    BootedStep(s, Submit(q), respond);
  }

  /** The session object: one per browser session, holding the two keys of
      `st.session_state` the core uses. The pipeline is passed in as a
      `Responder`; the script's own is `PipelineFor(retriever, llm)`. */
  class ChatSession {
    var hasHistory: bool
    var chatHistory: seq<Turn>
    var booted: bool

    /** The abstract state these fields represent. */
    function Snapshot(): SessionState
      reads this
    {
      SessionState(hasHistory, chatHistory, booted)
    }

    /** A new session, before its first script run. */
    constructor ()
      ensures Snapshot() == Fresh
      ensures Consistent(Snapshot())
    {
      hasHistory, chatHistory, booted := false, [], false;
    }

    /** chatbot.py:294-295. */
    method InitHistory()
      modifies this
      ensures hasHistory && booted == old(booted)
      ensures chatHistory == if old(hasHistory) then old(chatHistory) else []
      ensures Snapshot() == Initialized(old(Snapshot()))
    {
      if !hasHistory {
        chatHistory := [];
        hasHistory := true;
      }
    }

    /** chatbot.py:297-303. */
    method Boot()
      requires hasHistory
      modifies this
      ensures booted && hasHistory == old(hasHistory)
      ensures chatHistory == if old(booted) then old(chatHistory) else old(chatHistory) + [Greeting]
      ensures Snapshot() == Seeded(old(Snapshot()))
    {
      if !booted {
        booted := true;
        chatHistory := chatHistory + [Greeting];
      }
    }

    /** chatbot.py:111-112. */
    method Clear()
      modifies this
      ensures hasHistory && chatHistory == [] && booted == old(booted)
      ensures Snapshot() == Cleared(old(Snapshot()))
    {
      chatHistory := [];
      hasHistory := true;
    }

    /** chatbot.py:328-360: answer a truthy input and append the pair; the
      reply is None when the input was ignored. A failed model call leaves the
      history as it was. */
    method Answer(userInput: string, respond: Responder) returns (reply: Option<Reply>)
      requires hasHistory
      modifies this
      ensures reply == if userInput == "" then None else Some(respond(userInput))
      ensures hasHistory == old(hasHistory) && booted == old(booted)
      ensures chatHistory == if reply.Some? && reply.value.Generated?
        then old(chatHistory) + [Turn(userInput, reply.value.text)]
        else old(chatHistory)
      ensures Snapshot() == Answered(old(Snapshot()), userInput, respond)
    {
      if userInput == "" {
        reply := None;
      } else {
        var r := respond(userInput);
        reply := Some(r);
        if r.Generated? {
          chatHistory := chatHistory + [Turn(userInput, r.text)];
        }
      }
    }

    /** One script run for the event `e`. */
    method RunScript(e: Event, respond: Responder) returns (reply: Option<Reply>)
      modifies this
      ensures reply == if e.Submit? && e.input != "" then Some(respond(e.input)) else None
      ensures Snapshot() == Step(old(Snapshot()), e, respond)
      ensures Consistent(Snapshot()) && booted
    {
      reply := None;
      if e == ClearPressed {
        Clear();
        // st.rerun(): a new run without input follows.
      }
      InitHistory();
      Boot();
      if e.Submit? {
        reply := Answer(e.input, respond);
      }
    }
  }
}
