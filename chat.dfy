/** The chat routes: a store of chat sessions and their messages, the conversation
    prompt built from a session's history, and the streamed reply, cut into chunks of
    five characters and framed by a session event and a completion event. The
    language model is a parameter; server-sent-event framing and JSON encoding of the
    events are not modelled. */
module Chat {
  import opened Wrappers
  import opened Strings
  import opened JsonData
  import Sorting

  datatype Session = Session(id: int, name: string, createdAt: int, updatedAt: int)

  datatype Message = Message(id: int, sessionId: int, role: string, content: string, createdAt: int)

  /** The events of the stream: `session_id`, `chunk`, `done` and `error`. */
  datatype Event = SessionStarted(sessionId: int) | Chunk(content: string) | Done(messageId: int) | Failure

  /** The language model behind `ollama_client.generate`, given the prompt and the system
      prompt. */
  type Model = (string, string) -> Object

  // ------------------------------------------------------------------------------
  // Chunking

  const ChunkSize: nat := 5

  function Min(a: int, b: int): int {
    if a < b then a else b
  }

  /** The number of chunks `range(0, len(text), 5)` gives. */
  function ChunkCount(n: nat): nat {
    (n + ChunkSize - 1) / ChunkSize
  }

  /** `text[i:i+5]` for `i = 5 * k`. */
  function Piece(text: string, k: nat): string
    requires k < ChunkCount(|text|)
  {
    text[ChunkSize * k..Min(ChunkSize * k + ChunkSize, |text|)]
  }

  /** The chunks of a reply, in order. */
  function Chunks(text: string): seq<string> {
    seq(ChunkCount(|text|), k requires 0 <= k < ChunkCount(|text|) => Piece(text, k))
  }

  /** The texts one after the other. */
  function Concat(parts: seq<string>): string {
    if parts == [] then [] else Concat(parts[..|parts| - 1]) + parts[|parts| - 1]
  }

  /** The first `k` chunks make up the first `5 * k` characters. */
  lemma {:induction false} ChunksPrefix(text: string, k: nat)
    requires k <= ChunkCount(|text|)
    ensures Concat(Chunks(text)[..k]) == text[..Min(ChunkSize * k, |text|)]
  {
    if k > 0 {
      ChunksPrefix(text, k - 1);
      assert Chunks(text)[..k][..k - 1] == Chunks(text)[..k - 1];
      assert ChunkSize * (k - 1) < |text|;
      assert text[..Min(ChunkSize * k, |text|)] ==
        text[..ChunkSize * (k - 1)] + text[ChunkSize * (k - 1)..Min(ChunkSize * k, |text|)];
    }
  }

  /** The chunks concatenate to exactly the reply. */
  lemma ChunksConcat(text: string)
    ensures Concat(Chunks(text)) == text
  {
    var n := ChunkCount(|text|);
    ChunksPrefix(text, n);
    assert Chunks(text)[..n] == Chunks(text);
    assert ChunkSize * n >= |text|;
  }

  /** Every chunk has one to five characters and all but the last exactly five; an
      empty reply has no chunk. */
  lemma ChunkSizes(text: string)
    ensures Chunks(text) == [] <==> text == []
    ensures forall k :: 0 <= k < |Chunks(text)| ==> 1 <= |Chunks(text)[k]| <= ChunkSize
    ensures forall k :: 0 <= k < |Chunks(text)| - 1 ==> |Chunks(text)[k]| == ChunkSize
  {
  }

  /** The chunking loop of `generate_stream`: the chunks it sends and the
      `full_response` it accumulates. */
  method StreamChunks(text: string) returns (chunks: seq<string>, full: string)
    ensures chunks == Chunks(text)
    ensures full == text
  {
    chunks := [];
    full := "";
    var i := 0;
    while i < |text|
      invariant i == ChunkSize * |chunks|
      invariant |chunks| <= ChunkCount(|text|)
      invariant chunks == Chunks(text)[..|chunks|]
      invariant full == text[..Min(i, |text|)]
      decreases |text| - i
    {
      var chunk := text[i..Min(i + ChunkSize, |text|)];
      ChunksPrefix(text, |chunks| + 1);
      ChunksPrefix(text, |chunks|);
      assert chunk == Piece(text, |chunks|);
      full := full + chunk;
      chunks := chunks + [chunk];
      i := i + ChunkSize;
    }
    assert |chunks| == ChunkCount(|text|);
    assert chunks == Chunks(text);
  }

  // ------------------------------------------------------------------------------
  // Events

  function ChunkEvents(chunks: seq<string>): (r: seq<Event>)
    ensures |r| == |chunks|
    ensures forall k :: 0 <= k < |r| ==> r[k] == Chunk(chunks[k])
  {
    seq(|chunks|, k requires 0 <= k < |chunks| => Chunk(chunks[k]))
  }

  /** The events of one request: the session first; then, when the reply has a text,
      its chunks and the completion event carrying the stored message's id; otherwise
      the error event. */
  function Events(sessionId: int, reply: Option<string>, messageId: int): seq<Event> {
    [SessionStarted(sessionId)]
    + match reply
      case None => [Failure]
      case Some(text) => ChunkEvents(Chunks(text)) + [Done(messageId)]
  }

  /** The event order: the session event first, a completion or error event last, and
      between them the chunks, which spell out the reply. */
  lemma EventsOrder(sessionId: int, reply: Option<string>, messageId: int)
    ensures var e := Events(sessionId, reply, messageId);
      && |e| >= 2
      && e[0] == SessionStarted(sessionId)
      && (e[|e| - 1] == Failure <==> reply.None?)
      && (reply.Some? ==> e[|e| - 1] == Done(messageId))
      && (forall k :: 0 < k < |e| - 1 ==> e[k].Chunk?)
      && (reply.None? ==> |e| == 2)
      && (reply.Some? ==> Concat(seq(|e| - 2, k requires 0 <= k < |e| - 2 => e[k + 1].content)) == reply.value)
  {
    if reply.Some? {
      var e := Events(sessionId, reply, messageId);
      ChunksConcat(reply.value);
      assert seq(|e| - 2, k requires 0 <= k < |e| - 2 => e[k + 1].content) == Chunks(reply.value);
    }
  }

  // ------------------------------------------------------------------------------
  // The prompt

  function Line(m: Message): string {
    m.role + ": " + m.content
  }

  function Lines(ms: seq<Message>): (r: seq<string>)
    ensures |r| == |ms|
    ensures forall i :: 0 <= i < |ms| ==> r[i] == Line(ms[i])
  {
    seq(|ms|, i requires 0 <= i < |ms| => Line(ms[i]))
  }

  /** `"\n".join(f"{msg.role}: {msg.content}" for msg in messages)` */
  function Conversation(ms: seq<Message>): string {
    Join(Lines(ms), "\n")
  }

  /** When no role and no content holds a line break, the prompt's lines are exactly the
      messages, one "role: content" line each, in order. */
  lemma ConversationLines(ms: seq<Message>)
    requires ms != []
    requires forall i :: 0 <= i < |ms| ==> '\n' !in ms[i].role && '\n' !in ms[i].content
    ensures Split(Conversation(ms), '\n') == Lines(ms)
  {
    forall i | 0 <= i < |ms| ensures '\n' !in Line(ms[i]) {
      assert Line(ms[i]) == ms[i].role + ": " + ms[i].content;
    }
    SplitJoin(Lines(ms), '\n');
  }

  /** The assistant prompt the chat routes fall back on, written in short pieces (the
      verifier handles a few short literals far more cheaply than one long one). */
  function DefaultSystemPrompt(): string {
    "You are a helpful " + "AI assistant specializing " + "in data quality, "
    + "\n    data science, " + "and analytics. " + "Provide clear, "
    + "concise, and accurate " + "responses. Use " + "markdown formatting "
    + "for better readability."
  }

  /** `request.system_prompt or <the default assistant prompt>` */
  function SystemPrompt(requested: Option<string>): string {
    if requested.Some? && requested.value != "" then requested.value else DefaultSystemPrompt()
  }

  /** `result.get('response', '')` as the stream reads it. A text streams as itself. An
      empty list or dict has length 0, so the chunk loop never runs and the empty reply
      is stored. Any other value is `None`: `len` of a number, a boolean or null raises,
      and so do slicing a dict and `+=` of a list chunk onto the text. */
  function StreamText(reply: Object): Option<string> {
    if "response" !in reply then Some("")
    else
      match reply["response"]
      case JStr(s) => Some(s)
      case JArr(items) => if items == [] then Some("") else None
      case JObj(fields) => if fields == map[] then Some("") else None
      case _ => None
  }

  /** `result.get('response', 'Sorry, I could not generate a response.')` as the
      non-streaming route reads it: `None` when the value is not a text, since
      `ChatResponse` then rejects it. */
  function ReplyText(reply: Object): Option<string> {
    if "response" !in reply then Some("Sorry, I could not " + "generate a response.")
    else if reply["response"].JStr? then Some(reply["response"].s)
    else None
  }

  // ------------------------------------------------------------------------------
  // Store queries

  /** `filter(ChatSession.id == id).first()`, as an index. */
  function Lookup(sessions: seq<Session>, id: int): (r: Option<nat>)
    ensures r.None? <==> forall i :: 0 <= i < |sessions| ==> sessions[i].id != id
    ensures r.Some? ==> r.value < |sessions| && sessions[r.value].id == id
    ensures r.Some? ==> forall i :: 0 <= i < r.value ==> sessions[i].id != id
  {
    if sessions == [] then None
    else if sessions[0].id == id then Some(0)
    else
      var rest := Lookup(sessions[1..], id);
      if rest.Some? then Some(rest.value + 1) else None
  }

  /** The sessions paired with their update time, the sort key of `get_chat_sessions`. */
  function ByUpdate(sessions: seq<Session>): seq<(Session, real)> {
    seq(|sessions|, i requires 0 <= i < |sessions| => (sessions[i], sessions[i].updatedAt as real))
  }

  /** `get_chat_sessions`: the sessions ordered by `updated_at` descending; sessions
      updated at the same moment keep their creation order. */
  function ListSessions(sessions: seq<Session>): seq<Session> {
    var sorted := Sorting.SortDesc(ByUpdate(sessions));
    seq(|sorted|, k requires 0 <= k < |sorted| => sorted[k].0)
  }

  /** The listing holds every session once and only sessions, most recently updated
      first. */
  lemma ListSessionsOrder(sessions: seq<Session>)
    ensures |ListSessions(sessions)| == |sessions|
    ensures forall s :: s in ListSessions(sessions) <==> s in sessions
    ensures forall i, j :: 0 <= i < j < |ListSessions(sessions)| ==>
      ListSessions(sessions)[i].updatedAt >= ListSessions(sessions)[j].updatedAt
  {
    var pairs := ByUpdate(sessions);
    var sorted := Sorting.SortDesc(pairs);
    var r := ListSessions(sessions);
    Sorting.SortDescSameEntries(pairs);
    forall k | 0 <= k < |sorted| ensures sorted[k].1 == sorted[k].0.updatedAt as real {
      assert sorted[k] in pairs;
    }
    forall s | s in sessions ensures s in r {
      var i :| 0 <= i < |sessions| && sessions[i] == s;
      assert pairs[i] in sorted;
      var k :| 0 <= k < |sorted| && sorted[k] == pairs[i];
      assert r[k] == s;
    }
    forall s | s in r ensures s in sessions {
      var k :| 0 <= k < |r| && r[k] == s;
      assert sorted[k] in pairs;
    }
  }

  /** A session's messages in creation order. */
  function History(ms: seq<Message>, sessionId: int): seq<Message> {
    if ms == [] then []
    else History(ms[..|ms| - 1], sessionId) + (if ms[|ms| - 1].sessionId == sessionId then [ms[|ms| - 1]] else [])
  }

  /** A session's history holds exactly the stored messages of that session. */
  lemma {:induction false} HistoryMembers(ms: seq<Message>, sessionId: int)
    ensures forall m :: m in History(ms, sessionId) <==> m in ms && m.sessionId == sessionId
  {
    if ms != [] {
      var init, last := ms[..|ms| - 1], ms[|ms| - 1];
      HistoryMembers(init, sessionId);
      assert ms == init + [last];
    }
  }

  /** The messages of every other session. */
  function DropSession(ms: seq<Message>, sessionId: int): seq<Message> {
    if ms == [] then []
    else DropSession(ms[..|ms| - 1], sessionId) + (if ms[|ms| - 1].sessionId != sessionId then [ms[|ms| - 1]] else [])
  }

  /** Dropping a session keeps exactly the messages of the other sessions. */
  lemma {:induction false} DropSessionMembers(ms: seq<Message>, sessionId: int)
    ensures forall m :: m in DropSession(ms, sessionId) <==> m in ms && m.sessionId != sessionId
  {
    if ms != [] {
      var init, last := ms[..|ms| - 1], ms[|ms| - 1];
      DropSessionMembers(init, sessionId);
      assert ms == init + [last];
    }
  }

  /** After the messages of a session are dropped, it has no history. */
  lemma {:induction false} DropSessionEmpties(ms: seq<Message>, sessionId: int)
    ensures History(DropSession(ms, sessionId), sessionId) == []
  {
    if ms != [] {
      var init, last := ms[..|ms| - 1], ms[|ms| - 1];
      DropSessionEmpties(init, sessionId);
      var d := DropSession(init, sessionId);
      if last.sessionId != sessionId {
        assert DropSession(ms, sessionId) == d + [last];
        assert (d + [last])[..|d|] == d;
        assert History(d + [last], sessionId) == History(d, sessionId);
      } else {
        assert DropSession(ms, sessionId) == d;
      }
    }
  }

  /** Every other session keeps its whole history, in order. */
  lemma {:induction false} DropSessionKeepsOthers(ms: seq<Message>, sessionId: int, other: int)
    requires other != sessionId
    ensures History(DropSession(ms, sessionId), other) == History(ms, other)
  {
    if ms != [] {
      var init, last := ms[..|ms| - 1], ms[|ms| - 1];
      DropSessionKeepsOthers(init, sessionId, other);
      var d := DropSession(init, sessionId);
      assert History(ms, other) == History(init, other) + (if last.sessionId == other then [last] else []);
      if last.sessionId != sessionId {
        assert DropSession(ms, sessionId) == d + [last];
        assert (d + [last])[..|d|] == d;
        assert History(d + [last], other) == History(d, other) + (if last.sessionId == other then [last] else []);
      } else {
        assert DropSession(ms, sessionId) == d;
      }
    }
  }

  /** A new message extends its session's history and no other. */
  lemma HistoryAppend(ms: seq<Message>, m: Message, sessionId: int)
    ensures History(ms + [m], sessionId) == History(ms, sessionId) + (if m.sessionId == sessionId then [m] else [])
  {
    assert (ms + [m])[..|ms|] == ms;
  }

  /** The prompt of one turn: the session's stored history followed by the new user
      message, as the history query reads it once that message is stored. */
  function TurnPrompt(ms: seq<Message>, user: Message): string {
    Conversation(History(ms, user.sessionId) + [user])
  }

  /** Once the user message is stored, the session's history is the turn's prompt. */
  lemma TurnPromptStored(ms: seq<Message>, user: Message)
    ensures Conversation(History(ms + [user], user.sessionId)) == TurnPrompt(ms, user)
  {
    HistoryAppend(ms, user, user.sessionId);
  }

  /** The model's answer in one turn, asked with the turn's prompt and the system
      prompt in force. */
  function Ask(model: Model, ms: seq<Message>, user: Message, system: string): Object {
    Generate(model, TurnPrompt(ms, user), system)
  }

  /** `ollama_client.generate(prompt, system_prompt)` */
  function Generate(model: Model, prompt: string, system: string): Object {
    model(prompt, system)
  }

  /** The message table after one turn: the user message, then the assistant's reply
      with the next id when there is one. */
  function AfterTurn(ms: seq<Message>, user: Message, reply: Option<string>): seq<Message> {
    ms + [user] + (if reply.Some? then [Message(user.id + 1, user.sessionId, "assistant", reply.value, user.createdAt)] else [])
  }

  /** The session a turn uses (`chat.py` get-or-create): a truthy id must name a stored
      session, which the turn continues, and gives 404 otherwise; no id, or 0, appends a
      new session with the next id. The result is the session list and the position of
      the turn's session in it. */
  function Opened(sessions: seq<Session>, requested: Option<int>, name: string, nextId: int, now: int)
    : (r: Result<(seq<Session>, nat)>)
    ensures r.Err? <==> requested.Some? && requested.value != 0 && Lookup(sessions, requested.value).None?
    ensures r.Err? ==> r.status == 404
    ensures r.Ok? ==> r.value.1 < |r.value.0|
    ensures r.Ok? && requested.Some? && requested.value != 0 ==>
      r.value.0 == sessions && r.value.0[r.value.1].id == requested.value
    ensures requested.None? || requested.value == 0 ==>
      r == Ok((sessions + [Session(nextId, name, now, now)], |sessions|))
  {
    if requested.Some? && requested.value != 0 then
      match Lookup(sessions, requested.value)
      case None => Err(404)
      case Some(k) => Ok((sessions, k))
    else Ok((sessions + [Session(nextId, name, now, now)], |sessions|))
  }

  /** The sessions after a turn in session `k`: `updated_at` is set when a reply is
      stored, and nothing else changes. */
  function Touched(sessions: seq<Session>, k: nat, reply: Option<string>, now: int): (r: seq<Session>)
    requires k < |sessions|
    ensures |r| == |sessions|
    ensures forall i :: 0 <= i < |r| && i != k ==> r[i] == sessions[i]
    ensures r[k].id == sessions[k].id && r[k].name == sessions[k].name && r[k].createdAt == sessions[k].createdAt
    ensures r[k].updatedAt == if reply.Some? then now else sessions[k].updatedAt
  {
    if reply.Some? then sessions[k := sessions[k].(updatedAt := now)] else sessions
  }

  /** `session.name = name` followed by a commit: `updated_at` carries
      `onupdate=datetime.utcnow`, so it becomes `now` when the name actually changes;
      an unchanged name is no change and nothing is written. */
  function Renamed(sessions: seq<Session>, k: nat, name: string, now: int): (r: seq<Session>)
    requires k < |sessions|
    ensures |r| == |sessions|
    ensures forall i :: 0 <= i < |r| && i != k ==> r[i] == sessions[i]
    ensures r[k].id == sessions[k].id && r[k].name == name && r[k].createdAt == sessions[k].createdAt
    ensures r[k].updatedAt == if name != sessions[k].name then now else sessions[k].updatedAt
  {
    if name != sessions[k].name then sessions[k := sessions[k].(name := name, updatedAt := now)]
    else sessions
  }

  /** The sessions other than the one with the given id, in order. */
  function RemoveSession(sessions: seq<Session>, id: int): (r: seq<Session>)
    ensures forall s {:trigger s in r} :: s in r <==> s in sessions && s.id != id
  {
    if sessions == [] then []
    else
      var last := sessions[|sessions| - 1];
      RemoveSession(sessions[..|sessions| - 1], id) + (if last.id != id then [last] else [])
  }

  predicate DistinctIds(sessions: seq<Session>) {
    forall i, j :: 0 <= i < j < |sessions| ==> sessions[i].id != sessions[j].id
  }

  lemma {:induction false} RemoveSessionDistinct(sessions: seq<Session>, id: int)
    requires DistinctIds(sessions)
    ensures DistinctIds(RemoveSession(sessions, id))
    ensures Lookup(RemoveSession(sessions, id), id).None?
  {
    if sessions != [] {
      var init, last := sessions[..|sessions| - 1], sessions[|sessions| - 1];
      RemoveSessionDistinct(init, id);
      var r := RemoveSession(init, id);
      if last.id != id {
        assert RemoveSession(sessions, id) == r + [last];
        assert forall i :: 0 <= i < |r| ==> r[i].id != last.id by {
          forall i | 0 <= i < |r| ensures r[i].id != last.id {
            assert r[i] in r;
            var k :| 0 <= k < |init| && init[k] == r[i];
            assert sessions[k] == init[k];
          }
        }
      } else {
        assert RemoveSession(sessions, id) == r;
      }
    }
  }

  // ------------------------------------------------------------------------------
  // The store

  /** The only change from `before` to `after` is one user message with the given
      content, appended. */
  predicate UserMessageOnly(before: seq<Message>, after: seq<Message>, content: string) {
    && |after| == |before| + 1
    && after[..|before|] == before
    && after[|before|].role == "user" && after[|before|].content == content
  }

  /** The `chat_sessions` and `chat_messages` tables, with their auto-increment
      counters. */
  class ChatStore {
    var sessions: seq<Session>
    var messages: seq<Message>
    var nextSessionId: int
    var nextMessageId: int

    /** Session ids are distinct, positive and below the counter; so are message ids. */
    predicate Valid()
      reads this
    {
      && nextSessionId >= 1 && nextMessageId >= 1
      && (forall i :: 0 <= i < |sessions| ==> 1 <= sessions[i].id < nextSessionId)
      && DistinctIds(sessions)
      && (forall i :: 0 <= i < |messages| ==> 1 <= messages[i].id < nextMessageId)
    }

    constructor ()
      ensures Valid() && sessions == [] && messages == []
    {
      sessions := [];
      messages := [];
      nextSessionId := 1;
      nextMessageId := 1;
    }

    /** A new session with the next id. */
    method CreateSession(name: string, now: int) returns (s: Session)
      requires Valid()
      modifies this
      ensures Valid()
      ensures s == Session(old(nextSessionId), name, now, now)
      ensures sessions == old(sessions) + [s] && messages == old(messages)
      ensures nextSessionId == old(nextSessionId) + 1 && nextMessageId == old(nextMessageId)
    {
      s := Session(nextSessionId, name, now, now);
      sessions := sessions + [s];
      nextSessionId := nextSessionId + 1;
    }

    /** `create_empty_session` */
    method CreateEmptySession(now: int) returns (s: Session)
      requires Valid()
      modifies this
      ensures Valid()
      ensures s == Session(old(nextSessionId), "New Chat", now, now)
      ensures sessions == old(sessions) + [s] && messages == old(messages)
    {
      s := CreateSession("New Chat", now);
    }

    /** Get or create: a truthy id must name a session (404 otherwise); no id, or 0,
        creates a session with the given name. */
    method GetOrCreate(requested: Option<int>, name: string, now: int) returns (r: Result<Session>)
      requires Valid()
      modifies this
      ensures Valid() && messages == old(messages)
      ensures requested.Some? && requested.value != 0 ==>
        && sessions == old(sessions)
        && (Lookup(sessions, requested.value).None? ==> r == Err(404))
        && (Lookup(sessions, requested.value).Some? ==> r == Ok(sessions[Lookup(sessions, requested.value).value]))
      ensures (requested.None? || requested.value == 0) ==>
        r == Ok(Session(old(nextSessionId), name, now, now)) && sessions == old(sessions) + [r.value]
      ensures nextMessageId == old(nextMessageId)
      ensures r.Ok? ==> Lookup(sessions, r.value.id).Some?
      ensures var o := Opened(old(sessions), requested, name, old(nextSessionId), now);
        && (r.Err? <==> o.Err?)
        && (r.Ok? ==> sessions == o.value.0 && r.value == sessions[o.value.1])
    {
      if requested.Some? && requested.value != 0 {
        var k := Lookup(sessions, requested.value);
        if k.None? {
          return Err(404);
        }
        return Ok(sessions[k.value]);
      }
      var s := CreateSession(name, now);
      assert sessions[|sessions| - 1] == s;
      return Ok(s);
    }

    /** Stores a message with the next id. */
    method AddMessage(sessionId: int, role: string, content: string, now: int) returns (m: Message)
      requires Valid()
      modifies this
      ensures Valid()
      ensures m == Message(old(nextMessageId), sessionId, role, content, now)
      ensures messages == old(messages) + [m] && sessions == old(sessions)
      ensures nextMessageId == old(nextMessageId) + 1 && nextSessionId == old(nextSessionId)
    {
      m := Message(nextMessageId, sessionId, role, content, now);
      messages := messages + [m];
      nextMessageId := nextMessageId + 1;
    }

    /** `chat_session.updated_at = now` */
    method Touch(k: nat, now: int)
      requires Valid() && k < |sessions|
      modifies this
      ensures Valid()
      ensures sessions == old(sessions)[k := old(sessions)[k].(updatedAt := now)]
      ensures messages == old(messages)
      ensures nextSessionId == old(nextSessionId) && nextMessageId == old(nextMessageId)
    {
      sessions := sessions[k := sessions[k].(updatedAt := now)];
    }

    /** `chat_stream`: the user message is stored in the session the request names (or
        a new one), the model is asked with the whole history, and the reply is streamed
        and stored. */
    method ChatStream(requested: Option<int>, message: string, systemPrompt: Option<string>, name: string, now: int, model: Model)
      returns (r: Result<seq<Event>>)
      requires Valid()
      modifies this
      ensures Valid()
      ensures var o := Opened(old(sessions), requested, name, old(nextSessionId), now);
        && (r.Err? <==> o.Err?)
        && (r.Err? ==> r == Err(404) && sessions == old(sessions) && messages == old(messages))
        && (r.Ok? ==>
              var ss, k := o.value.0, o.value.1;
              var user := Message(old(nextMessageId), ss[k].id, "user", message, now);
              var text := StreamText(Ask(model, old(messages), user, SystemPrompt(systemPrompt)));
              && r.value == Events(ss[k].id, text, old(nextMessageId) + 1)
              && messages == AfterTurn(old(messages), user, text)
              && sessions == Touched(ss, k, text, now))
      ensures requested.Some? && requested.value != 0 ==>
        (r.Ok? <==> Lookup(old(sessions), requested.value).Some?) && (r.Ok? ==> r.value[0].sessionId == requested.value)
      ensures requested.None? || requested.value == 0 ==> r.Ok? && r.value[0].sessionId == old(nextSessionId)
    {
      ghost var o := Opened(sessions, requested, name, nextSessionId, now);
      var got := GetOrCreate(requested, name, now);
      if got.Err? {
        return Err(404);
      }
      var k := Lookup(sessions, got.value.id).value;
      assert k == o.value.1;
      assert messages == old(messages) && nextMessageId == old(nextMessageId);
      var events := StreamExchange(k, message, systemPrompt, now, model);
      r := Ok(events);
    }

    /** The part of `chat_stream` after the session is known: the user message is
        stored, the model is asked with the whole history, and a text reply is streamed
        in chunks and stored. */
    method StreamExchange(k: nat, message: string, systemPrompt: Option<string>, now: int, model: Model)
      returns (events: seq<Event>)
      requires Valid() && k < |sessions|
      modifies this
      ensures Valid()
      ensures |events| >= 2 && events[0] == SessionStarted(old(sessions)[k].id)
      ensures
        var sid := events[0].sessionId;
        var user := Message(old(nextMessageId), sid, "user", message, now);
        var text := StreamText(Ask(model, old(messages), user, SystemPrompt(systemPrompt)));
        && events == Events(sid, text, old(nextMessageId) + 1)
        && messages == AfterTurn(old(messages), user, text)
        && sessions == Touched(old(sessions), k, text, now)
    {
      var sid := sessions[k].id;
      var user := AddMessage(sid, "user", message, now);
      ghost var before := old(messages);
      var prompt := Conversation(History(messages, sid));
      assert prompt == TurnPrompt(before, user) by { TurnPromptStored(before, user); }
      var text := StreamText(Generate(model, prompt, SystemPrompt(systemPrompt)));
      if text.None? {
        events := [SessionStarted(sid), Failure];
        assert sessions[k].id == sid;
        assert messages == AfterTurn(before, user, text);
        return;
      }
      var chunks, full := StreamChunks(text.value);
      var answer := AddMessage(sid, "assistant", full, now);
      Touch(k, now);
      events := [SessionStarted(sid)] + ChunkEvents(chunks) + [Done(answer.id)];
      assert sessions[k].id == sid;
      assert answer == Message(user.id + 1, sid, "assistant", text.value, now);
      assert messages == AfterTurn(before, user, text) == before + [user] + [answer];
      assert events == Events(sid, text, user.id + 1) by {
        assert chunks == Chunks(text.value);
      }
    }

    /** `chat_with_gemma`, the non-streaming route: the reply text and the session id, or
        404 for an unknown session and 500 for a reply that is not text, in which case
        the user message stays stored. */
    method ChatOnce(requested: Option<int>, message: string, systemPrompt: Option<string>, name: string, now: int, model: Model)
      returns (r: Result<(string, int)>)
      requires Valid()
      modifies this
      ensures Valid()
      ensures r.Err? ==> r.status in {404, 500}
      ensures var o := Opened(old(sessions), requested, name, old(nextSessionId), now);
        && (r == Err(404) <==> o.Err?)
        && (r == Err(404) ==> sessions == old(sessions) && messages == old(messages))
        && (o.Ok? ==>
              var ss, k := o.value.0, o.value.1;
              var user := Message(old(nextMessageId), ss[k].id, "user", message, now);
              var text := ReplyText(Ask(model, old(messages), user, SystemPrompt(systemPrompt)));
              && (r == Err(500) <==> text.None?)
              && (r.Ok? ==> r.value == (text.value, ss[k].id))
              && messages == AfterTurn(old(messages), user, text)
              && sessions == Touched(ss, k, text, now))
      ensures r.Err? && r.status == 500 ==> UserMessageOnly(old(messages), messages, message)
      ensures requested.Some? && requested.value != 0 ==>
        (r != Err(404) <==> Lookup(old(sessions), requested.value).Some?) && (r.Ok? ==> r.value.1 == requested.value)
      ensures (requested.None? || requested.value == 0) ==> r != Err(404) && (r.Ok? ==> r.value.1 == old(nextSessionId))
    {
      ghost var o := Opened(sessions, requested, name, nextSessionId, now);
      var got := GetOrCreate(requested, name, now);
      if got.Err? {
        return Err(404);
      }
      var k := Lookup(sessions, got.value.id).value;
      assert k == o.value.1;
      assert messages == old(messages) && nextMessageId == old(nextMessageId);
      r := Exchange(k, message, systemPrompt, now, model);
    }

    /** The part of `chat_with_gemma` after the session is known: the user message is
        stored, the model is asked with the whole history, and a text reply is stored
        and returned. */
    method Exchange(k: nat, message: string, systemPrompt: Option<string>, now: int, model: Model)
      returns (r: Result<(string, int)>)
      requires Valid() && k < |sessions|
      modifies this
      ensures Valid()
      ensures
        var user := Message(old(nextMessageId), old(sessions)[k].id, "user", message, now);
        var text := ReplyText(Ask(model, old(messages), user, SystemPrompt(systemPrompt)));
        && (text.None? <==> r.Err?)
        && (r.Err? ==> r == Err(500))
        && (r.Ok? ==> r.value == (text.value, user.sessionId))
        && messages == AfterTurn(old(messages), user, text)
        && sessions == Touched(old(sessions), k, text, now)
      ensures r.Err? ==> UserMessageOnly(old(messages), messages, message)
    {
      var sid := sessions[k].id;
      var user := AddMessage(sid, "user", message, now);
      ghost var before := old(messages);
      var prompt := Conversation(History(messages, sid));
      assert prompt == TurnPrompt(before, user) by { TurnPromptStored(before, user); }
      var text := ReplyText(Generate(model, prompt, SystemPrompt(systemPrompt)));
      if text.None? {
        assert messages == AfterTurn(before, user, text);
        return Err(500);
      }
      var answer := AddMessage(sid, "assistant", text.value, now);
      Touch(k, now);
      r := Ok((text.value, sid));
      assert messages == AfterTurn(before, user, text);
    }

    /** `delete_chat_session`: the session and every message of it go; 404 for an
        unknown id. */
    method DeleteSession(id: int) returns (r: Result<string>)
      requires Valid()
      modifies this
      ensures Valid()
      ensures Lookup(old(sessions), id).None? ==> r == Err(404) && sessions == old(sessions) && messages == old(messages)
      ensures Lookup(old(sessions), id).Some? ==>
        && r == Ok("Chat session deleted successfully")
        && sessions == RemoveSession(old(sessions), id)
        && messages == DropSession(old(messages), id)
    {
      if Lookup(sessions, id).None? {
        return Err(404);
      }
      RemoveSessionDistinct(sessions, id);
      DropSessionMembers(messages, id);
      var kept := DropSession(messages, id);
      forall i | 0 <= i < |kept| ensures 1 <= kept[i].id < nextMessageId {
        assert kept[i] in messages;
      }
      var rest := RemoveSession(sessions, id);
      forall i | 0 <= i < |rest| ensures 1 <= rest[i].id < nextSessionId {
        assert rest[i] in rest;
      }
      messages := kept;
      sessions := rest;
      r := Ok("Chat session deleted successfully");
    }

    /** `rename_chat_session` at time `now`: sets the name; 404 for an unknown id. */
    method RenameSession(id: int, name: string, now: int) returns (r: Result<string>)
      requires Valid()
      modifies this
      ensures Valid() && messages == old(messages)
      ensures Lookup(old(sessions), id).None? ==> r == Err(404) && sessions == old(sessions)
      ensures Lookup(old(sessions), id).Some? ==>
        var k := Lookup(old(sessions), id).value;
        r == Ok("Chat session renamed successfully") && sessions == Renamed(old(sessions), k, name, now)
    {
      var k := Lookup(sessions, id);
      if k.None? {
        return Err(404);
      }
      if name != sessions[k.value].name {
        sessions := sessions[k.value := sessions[k.value].(name := name, updatedAt := now)];
      }
      r := Ok("Chat session renamed successfully");
    }
  }

  /** Deleting a session leaves no trace of it: it is no longer found and has no
      history, while every other session keeps its history. */
  lemma DeleteLeavesNoTrace(sessions: seq<Session>, ms: seq<Message>, id: int, other: int)
    requires DistinctIds(sessions)
    ensures Lookup(RemoveSession(sessions, id), id).None?
    ensures History(DropSession(ms, id), id) == []
    ensures other != id ==> History(DropSession(ms, id), other) == History(ms, other)
  {
    RemoveSessionDistinct(sessions, id);
    DropSessionEmpties(ms, id);
    if other != id {
      DropSessionKeepsOthers(ms, id, other);
    }
  }

  /** Renaming keeps the session at its place under its id and changes its name; a new
      name also stamps it as updated now, while the other sessions stay as they were. */
  lemma RenameKeepsSession(sessions: seq<Session>, id: int, name: string, now: int)
    requires Lookup(sessions, id).Some?
    ensures var k := Lookup(sessions, id).value;
      var renamed := Renamed(sessions, k, name, now);
      && Lookup(renamed, id) == Some(k)
      && renamed[k].name == name && renamed[k].id == id
      && renamed[k].createdAt == sessions[k].createdAt
      && (name != sessions[k].name ==> renamed[k].updatedAt == now)
      && (name == sessions[k].name ==> renamed == sessions)
      && (forall i :: 0 <= i < |sessions| && i != k ==> renamed[i] == sessions[i])
  {
    var k := Lookup(sessions, id).value;
    LookupFirst(Renamed(sessions, k, name, now), id, k);
  }

  /** A session given a new name at a time later than every other session's update
      heads the listing. */
  lemma RenameListedFirst(sessions: seq<Session>, k: nat, name: string, now: int)
    requires k < |sessions| && name != sessions[k].name
    requires forall i :: 0 <= i < |sessions| && i != k ==> sessions[i].updatedAt < now
    ensures ListSessions(Renamed(sessions, k, name, now))[0] == Renamed(sessions, k, name, now)[k]
  {
    var renamed := Renamed(sessions, k, name, now);
    var listed := ListSessions(renamed);
    ListSessionsOrder(renamed);
    assert renamed[k] in renamed;
    var j :| 0 <= j < |listed| && listed[j] == renamed[k];
    assert listed[0].updatedAt >= now;
    assert listed[0] in renamed;
    var i :| 0 <= i < |renamed| && renamed[i] == listed[0];
  }

  /** The lookup finds the first session with the id. */
  lemma {:induction false} LookupFirst(sessions: seq<Session>, id: int, k: nat)
    requires k < |sessions| && sessions[k].id == id
    requires forall i :: 0 <= i < k ==> sessions[i].id != id
    ensures Lookup(sessions, id) == Some(k)
  {
    if k > 0 {
      LookupFirst(sessions[1..], id, k - 1);
    }
  }
}
