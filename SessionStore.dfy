/**
 * The agent session store: a per-project conversation of at most fifty
 * messages plus a small memory. Loading falls back to a fresh session,
 * saving keeps the last fifty messages, and appending a message updates
 * the session in place.
 */
module SessionStore {
  import opened Common

  const MaxMessages := 50

  datatype Role = SystemRole | Assistant | User

  /** `AgentMessage`; the card and link payloads are carried as JSON. */
  datatype Message = Message(
    id: string,
    role: Role,
    content: string,
    ts: int,
    intent: Option<string>,
    action: Option<string>,
    card: Option<Json>,
    link: Option<Json>)

  /** `AgentMemory`; the tone profile and design locks are carried as JSON. */
  datatype SessionMemory = SessionMemory(
    focusAreas: seq<string>,
    lastIntent: Option<string>,
    lastView: Option<string>,
    lastMode: Option<string>,
    toneProfile: Option<Json>,
    designLocks: Option<Json>)

  /** `AgentSession` as a value. */
  datatype SessionData = SessionData(projectId: string, messages: seq<Message>, memory: SessionMemory, updatedAt: string)

  /** `xs.slice(-n)`: the last `n` values, or all of them when there are fewer. */
  function LastN<T>(xs: seq<T>, n: nat): seq<T>
  {
    if |xs| <= n then xs else xs[|xs| - n..]
  }

  /** The kept values are a suffix of the input, as many as fit. */
  lemma LastNFacts<T>(xs: seq<T>, n: nat)
    ensures var r := LastN(xs, n);
            |r| == MinInt(|xs|, n) && r == xs[|xs| - |r|..] &&
            (|xs| > 0 && n > 0 ==> r[|r| - 1] == xs[|xs| - 1])
  {
  }

  // ---------------------------------------------------------------- loading

  /** The memory part of a stored session after `JSON.parse`; absent fields are None. */
  datatype StoredMemory = StoredMemory(
    focusAreas: Option<seq<string>>,
    lastIntent: Option<string>,
    lastView: Option<string>,
    lastMode: Option<string>,
    toneProfile: Option<Json>)

  /** A stored session after `JSON.parse`; `messages` is None when it is not an array. */
  datatype StoredSession = StoredSession(
    updatedAt: Option<string>,
    messages: Option<seq<Message>>,
    memory: Option<StoredMemory>)

  const Greeting := "Let's focus the enterprise map. Which platforms are you assessing today? (ERP, CRM, Commerce, Data, Finance...)"

  /** The session used when nothing can be read: one assistant greeting and an empty memory. */
  function FreshSession(projectId: string, newId: string, now: int, nowIso: string): (s: SessionData)
    ensures s.projectId == projectId && |s.messages| == 1 && s.messages[0].role == Assistant
    ensures s.memory.focusAreas == [] && s.memory.lastIntent.None?
  {
    SessionData(projectId, [Message(newId, Assistant, Greeting, now, None, None, None, None)],
                SessionMemory([], None, None, None, None, None), nowIso)
  }

  /**
   * `loadAgentSession`: `raw` is the file's text (None when it cannot be
   * read), `parse` is `JSON.parse` (None when it throws or yields null,
   * which makes the field access throw); `newId`, `now` and `nowIso` stand
   * for `randomUUID()`, `Date.now()` and the current ISO time. The flag
   * tells whether a stored session was found.
   */
  function LoadSession(projectId: string, raw: Option<string>, parse: string -> Option<StoredSession>,
                       newId: string, now: int, nowIso: string): (r: (SessionData, bool))
    ensures r.0.projectId == projectId
  {
    if raw.None? then (FreshSession(projectId, newId, now, nowIso), false)
    else match parse(raw.value)
      case None => (FreshSession(projectId, newId, now, nowIso), false)
      case Some(p) =>
        var m := p.memory.GetOr(StoredMemory(None, None, None, None, None));
        (SessionData(projectId, p.messages.GetOr([]),
                     SessionMemory(m.focusAreas.GetOr([]), m.lastIntent, m.lastView, m.lastMode, m.toneProfile, None),
                     p.updatedAt.GetOr(nowIso)),
         true)
  }

  /**
   * A session that cannot be read or parsed is the fresh one; a stored
   * one keeps its messages and updatedAt, and is never given design locks
   * (they are not read back).
   */
  lemma LoadSessionFacts(projectId: string, raw: Option<string>, parse: string -> Option<StoredSession>,
                         newId: string, now: int, nowIso: string)
    ensures var (s, existing) := LoadSession(projectId, raw, parse, newId, now, nowIso);
            (!existing <==> raw.None? || parse(raw.value).None?) &&
            (!existing ==> s == FreshSession(projectId, newId, now, nowIso)) &&
            (existing ==> s.messages == parse(raw.value).value.messages.GetOr([]) &&
                          s.memory.designLocks.None? &&
                          (parse(raw.value).value.updatedAt.Some? ==> s.updatedAt == parse(raw.value).value.updatedAt.value))
  {
  }

  // ---------------------------------------------------------------- saving

  /** The record `saveAgentSession` writes: the session with only its last fifty messages. */
  function Saved(session: SessionData): (r: SessionData)
    ensures |r.messages| <= MaxMessages
    ensures r == session.(messages := r.messages)
  {
    session.(messages := LastN(session.messages, MaxMessages))
  }

  /** Saving keeps exactly the last fifty messages, in order. */
  lemma SavedFacts(session: SessionData)
    ensures var kept := Saved(session).messages;
            |kept| == MinInt(|session.messages|, MaxMessages) &&
            kept == session.messages[|session.messages| - |kept|..]
  {
    LastNFacts(session.messages, MaxMessages);
  }

  // ---------------------------------------------------------------- appending

  /** The message given to `appendSessionMessage`: `id` and `ts` may be missing. */
  datatype Draft = Draft(
    id: Option<string>,
    ts: Option<int>,
    role: Role,
    content: string,
    intent: Option<string>,
    action: Option<string>,
    card: Option<Json>,
    link: Option<Json>)

  /** The stored entry: a missing id or time is filled in, a supplied one is kept. */
  function Entry(draft: Draft, newId: string, now: int): (m: Message)
    ensures m.id == (if draft.id.Some? then draft.id.value else newId)
    ensures m.ts == (if draft.ts.Some? then draft.ts.value else now)
    ensures m.role == draft.role && m.content == draft.content
  {
    Message(draft.id.GetOr(newId), draft.role, draft.content, draft.ts.GetOr(now),
            draft.intent, draft.action, draft.card, draft.link)
  }

  /** `[...messages, entry].slice(-50)` */
  function Appended(messages: seq<Message>, entry: Message): seq<Message>
  {
    LastN(messages + [entry], MaxMessages)
  }

  /** The new entry is last, at most fifty are kept, and the others are the latest of the old ones in order. */
  lemma AppendedFacts(messages: seq<Message>, entry: Message)
    ensures var r := Appended(messages, entry);
            1 <= |r| <= MaxMessages && r[|r| - 1] == entry &&
            r[..|r| - 1] == messages[|messages| - (|r| - 1)..] &&
            (|messages| < MaxMessages ==> r == messages + [entry])
  {
    var all := messages + [entry];
    LastNFacts(all, MaxMessages);
    var r := Appended(messages, entry);
    assert r[..|r| - 1] == all[|all| - |r|..|all| - 1];
    assert all[|all| - |r|..|all| - 1] == messages[|messages| - (|r| - 1)..];
  }

  /** An `AgentSession` object, which `appendSessionMessage` updates in place. */
  class Session {
    var projectId: string
    var messages: seq<Message>
    var memory: SessionMemory
    var updatedAt: string

    function Data(): SessionData
      reads this
    {
      SessionData(projectId, messages, memory, updatedAt)
    }

    constructor(data: SessionData)
      ensures Data() == data
    {
      projectId := data.projectId;
      messages := data.messages;
      memory := data.memory;
      updatedAt := data.updatedAt;
    }

    /** `appendSessionMessage`; `newId`, `now` and `nowIso` stand for `randomUUID()`, `Date.now()` and the ISO time. */
    method AppendMessage(draft: Draft, newId: string, now: int, nowIso: string)
      modifies this
      ensures messages == Appended(old(messages), Entry(draft, newId, now))
      ensures updatedAt == nowIso
      ensures projectId == old(projectId) && memory == old(memory)
    {
      var entry := Entry(draft, newId, now);
      messages := LastN(messages + [entry], MaxMessages);
      updatedAt := nowIso;
    }
  }
}
