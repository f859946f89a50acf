/** The chat store (src/stores/chat-store.ts): sessions, the archive, the
    current-session pointer, messages, the streaming buffer and the list
    of tools an agent is running. Each action is a pure function from the
    store state to the next state. */
module ChatStore {
  import opened Common
  import opened Json
  import opened Text
  import opened StreamDecoder

  datatype Role = USER | ASSISTANT | SYSTEM

  datatype ChatMessage = ChatMessage(
    id: string,
    sessionId: string,
    role: Role,
    content: string,
    createdAt: string)

  datatype ChatSession = ChatSession(
    id: string,
    userId: string,
    toolId: string,
    title: string,
    isActive: bool,
    createdAt: string,
    updatedAt: string,
    messages: seq<ChatMessage>)

  /** A `Partial<ChatSession>`: None leaves the field as it is. */
  datatype SessionPatch = SessionPatch(
    id: Option<string>,
    userId: Option<string>,
    toolId: Option<string>,
    title: Option<string>,
    isActive: Option<bool>,
    createdAt: Option<string>,
    updatedAt: Option<string>,
    messages: Option<seq<ChatMessage>>)

  /** A `Partial<ChatMessage>`. */
  datatype MessagePatch = MessagePatch(
    id: Option<string>,
    sessionId: Option<string>,
    role: Option<Role>,
    content: Option<string>,
    createdAt: Option<string>)

  /** A running tool as reported by the stream; `startedAt` is the clock
      reading at the time it was added. */
  datatype ActiveToolCall = ActiveToolCall(
    name: Json,
    description: Option<Json>,
    nodeType: Option<Json>,
    startedAt: int)

  datatype ChatState = ChatState(
    sessions: seq<ChatSession>,
    archivedSessions: seq<ChatSession>,
    currentSessionId: Option<string>,
    isLoadingSessions: bool,
    showArchive: bool,
    isLoadingMessages: bool,
    isSendingMessage: bool,
    streamingMessageId: Option<string>,
    streamingContent: string,
    isThinking: bool,
    activeToolCalls: seq<ActiveToolCall>,
    error: Option<string>)

  const Initial := ChatState([], [], None, false, false, false, false, None, "", false, [], None)

  /** `{...s, ...updates}` */
  function PatchSession(s: ChatSession, p: SessionPatch): ChatSession {
    ChatSession(
      p.id.GetOr(s.id), p.userId.GetOr(s.userId), p.toolId.GetOr(s.toolId),
      p.title.GetOr(s.title), p.isActive.GetOr(s.isActive),
      p.createdAt.GetOr(s.createdAt), p.updatedAt.GetOr(s.updatedAt),
      p.messages.GetOr(s.messages))
  }

  /** `{...m, ...updates}` */
  function PatchMessage(m: ChatMessage, p: MessagePatch): ChatMessage {
    ChatMessage(
      p.id.GetOr(m.id), p.sessionId.GetOr(m.sessionId), p.role.GetOr(m.role),
      p.content.GetOr(m.content), p.createdAt.GetOr(m.createdAt))
  }

  predicate HasId(ss: seq<ChatSession>, id: string) {
    exists s :: s in ss && s.id == id
  }

  function IdIs(id: string): ChatSession -> bool {
    (s: ChatSession) => s.id == id
  }

  function IdIsNot(id: string): ChatSession -> bool {
    (s: ChatSession) => s.id != id
  }

  // ----- sessions ------------------------------------------------------------

  function SetSessions(st: ChatState, ss: seq<ChatSession>): (r: ChatState)
    ensures r.sessions == ss && r.(sessions := st.sessions) == st
  {
    st.(sessions := ss)
  }

  function SetArchivedSessions(st: ChatState, ss: seq<ChatSession>): (r: ChatState)
    ensures r.archivedSessions == ss && r.(archivedSessions := st.archivedSessions) == st
  {
    st.(archivedSessions := ss)
  }

  /** A new session goes in front of the active list. */
  function AddSession(st: ChatState, s: ChatSession): (r: ChatState)
    ensures |r.sessions| == |st.sessions| + 1
    ensures r.sessions[0] == s && r.sessions[1..] == st.sessions
    ensures r.(sessions := st.sessions) == st
  {
    st.(sessions := [s] + st.sessions)
  }

  /** Merges the patch into every session with that id, active or archived;
      nothing else changes. */
  function UpdateSession(st: ChatState, id: string, p: SessionPatch): (r: ChatState)
    ensures |r.sessions| == |st.sessions| && |r.archivedSessions| == |st.archivedSessions|
    ensures forall i :: 0 <= i < |st.sessions| ==>
              r.sessions[i] == if st.sessions[i].id == id then PatchSession(st.sessions[i], p) else st.sessions[i]
    ensures forall i :: 0 <= i < |st.archivedSessions| ==>
              r.archivedSessions[i] == if st.archivedSessions[i].id == id
                                       then PatchSession(st.archivedSessions[i], p) else st.archivedSessions[i]
    ensures r.(sessions := st.sessions, archivedSessions := st.archivedSessions) == st
  {
    var f := (s: ChatSession) => PatchSession(s, p);
    st.(sessions := MapWhere(st.sessions, IdIs(id), f),
        archivedSessions := MapWhere(st.archivedSessions, IdIs(id), f))
  }

  /** `sessions.filter((s) => s.id !== id)`: the sessions without the id,
      in their order. */
  function WithoutId(ss: seq<ChatSession>, id: string): (r: seq<ChatSession>)
    ensures !HasId(r, id)
    ensures forall s :: s in r <==> s in ss && s.id != id
    ensures KeptInOrder(r, ss, IdIsNot(id))
  {
    FilterIsKept(ss, IdIsNot(id));
    Filter(ss, IdIsNot(id))
  }

  /** Removes the id from both lists and forgets it as current. */
  function DeleteSession(st: ChatState, id: string): (r: ChatState)
    ensures !HasId(r.sessions, id) && !HasId(r.archivedSessions, id)
    ensures forall s :: s in r.sessions <==> s in st.sessions && s.id != id
    ensures forall s :: s in r.archivedSessions <==> s in st.archivedSessions && s.id != id
    ensures KeptInOrder(r.sessions, st.sessions, IdIsNot(id))
    ensures KeptInOrder(r.archivedSessions, st.archivedSessions, IdIsNot(id))
    ensures r.currentSessionId == if st.currentSessionId == Some(id) then None else st.currentSessionId
    ensures r.(sessions := st.sessions, archivedSessions := st.archivedSessions,
               currentSessionId := st.currentSessionId) == st
  {
    st.(sessions := WithoutId(st.sessions, id),
        archivedSessions := WithoutId(st.archivedSessions, id),
        currentSessionId := if st.currentSessionId == Some(id) then None else st.currentSessionId)
  }

  /** Deleting a session that was just added, under an id no other session
      has and that is not current, restores the store. */
  lemma DeleteUndoesAdd(st: ChatState, x: ChatSession)
    requires !HasId(st.sessions, x.id) && !HasId(st.archivedSessions, x.id)
    requires st.currentSessionId != Some(x.id)
    ensures DeleteSession(AddSession(st, x), x.id) == st
  {
    var a := AddSession(st, x);
    assert a.sessions == [x] + st.sessions;
    assert Filter(a.sessions, IdIsNot(x.id)) == Filter(st.sessions, IdIsNot(x.id));
    assert forall i :: 0 <= i < |st.sessions| ==> IdIsNot(x.id)(st.sessions[i]);
    FilterKeepsAll(st.sessions, IdIsNot(x.id));
    assert forall i :: 0 <= i < |st.archivedSessions| ==> IdIsNot(x.id)(st.archivedSessions[i]);
    FilterKeepsAll(st.archivedSessions, IdIsNot(x.id));
  }

  /** Moves the first active session with that id, messages and all, to
      the front of the archive; every active session with the id leaves the
      active list; an absent id changes nothing. */
  function ArchiveSession(st: ChatState, id: string): (r: ChatState)
    ensures !HasId(st.sessions, id) ==> r == st
    ensures HasId(st.sessions, id) ==>
              && |r.archivedSessions| == |st.archivedSessions| + 1
              && r.archivedSessions[1..] == st.archivedSessions
              && r.archivedSessions[0] in st.sessions && r.archivedSessions[0].id == id
              && (exists i :: 0 <= i < |st.sessions| && r.archivedSessions[0] == st.sessions[i]
                              && forall j :: 0 <= j < i ==> st.sessions[j].id != id)
              && !HasId(r.sessions, id)
              && (forall s :: s in r.sessions <==> s in st.sessions && s.id != id)
              && KeptInOrder(r.sessions, st.sessions, IdIsNot(id))
              && r.currentSessionId == (if st.currentSessionId == Some(id) then None else st.currentSessionId)
    ensures r.(sessions := st.sessions, archivedSessions := st.archivedSessions,
               currentSessionId := st.currentSessionId) == st
  {
    match Find(st.sessions, IdIs(id))
    case None => st
    case Some(session) =>
      st.(sessions := WithoutId(st.sessions, id),
          archivedSessions := [session] + st.archivedSessions,
          currentSessionId := if st.currentSessionId == Some(id) then None else st.currentSessionId)
  }

  /** Moves the first archived session with that id back to the front of
      the active list; the current-session pointer is never touched. */
  function UnarchiveSession(st: ChatState, id: string): (r: ChatState)
    ensures !HasId(st.archivedSessions, id) ==> r == st
    ensures HasId(st.archivedSessions, id) ==>
              && |r.sessions| == |st.sessions| + 1
              && r.sessions[1..] == st.sessions
              && r.sessions[0] in st.archivedSessions && r.sessions[0].id == id
              && (exists i :: 0 <= i < |st.archivedSessions| && r.sessions[0] == st.archivedSessions[i]
                              && forall j :: 0 <= j < i ==> st.archivedSessions[j].id != id)
              && !HasId(r.archivedSessions, id)
              && (forall s :: s in r.archivedSessions <==> s in st.archivedSessions && s.id != id)
              && KeptInOrder(r.archivedSessions, st.archivedSessions, IdIsNot(id))
    ensures r.(sessions := st.sessions, archivedSessions := st.archivedSessions) == st
  {
    match Find(st.archivedSessions, IdIs(id))
    case None => st
    case Some(session) =>
      st.(archivedSessions := WithoutId(st.archivedSessions, id),
          sessions := [session] + st.sessions)
  }

  function SetCurrentSession(st: ChatState, id: Option<string>): (r: ChatState)
    ensures r.currentSessionId == id && r.(currentSessionId := st.currentSessionId) == st
  {
    st.(currentSessionId := id)
  }

  function SetShowArchive(st: ChatState, show: bool): (r: ChatState)
    ensures r.showArchive == show && r.(showArchive := st.showArchive) == st
  {
    st.(showArchive := show)
  }

  /** Archiving a session and unarchiving it again puts the very record
      back in front of the active list, keeps the other active sessions in
      their order, and leaves the archive as it was (for ids that occur
      once and are not already archived). */
  lemma {:induction false} ArchiveThenUnarchive(st: ChatState, id: string, i: nat)
    requires i < |st.sessions| && st.sessions[i].id == id
    requires forall j :: 0 <= j < |st.sessions| && j != i ==> st.sessions[j].id != id
    requires !HasId(st.archivedSessions, id)
    ensures UnarchiveSession(ArchiveSession(st, id), id).sessions
            == [st.sessions[i]] + st.sessions[..i] + st.sessions[i + 1..]
    ensures UnarchiveSession(ArchiveSession(st, id), id).archivedSessions == st.archivedSessions
    ensures UnarchiveSession(ArchiveSession(st, id), id).currentSessionId
            == if st.currentSessionId == Some(id) then None else st.currentSessionId
  {
    var x := st.sessions[i];
    ArchiveOnly(st, id, i);
    var a := ArchiveSession(st, id);
    UnarchiveFront(a, x, st.archivedSessions);
  }

  /** Archiving an id held only at index i moves exactly that session to
      the front of the archive. */
  lemma ArchiveOnly(st: ChatState, id: string, i: nat)
    requires i < |st.sessions| && st.sessions[i].id == id
    requires forall j :: 0 <= j < |st.sessions| && j != i ==> st.sessions[j].id != id
    ensures ArchiveSession(st, id).sessions == st.sessions[..i] + st.sessions[i + 1..]
    ensures ArchiveSession(st, id).archivedSessions == [st.sessions[i]] + st.archivedSessions
    ensures ArchiveSession(st, id).currentSessionId
            == if st.currentSessionId == Some(id) then None else st.currentSessionId
  {
    FindFirst(st.sessions, i, id);
    FilterSkipsOne(st.sessions, i, id);
  }

  /** Unarchiving the id of the archive's front session, when no other
      archived session has it, moves that session back and nothing else. */
  lemma UnarchiveFront(a: ChatState, x: ChatSession, rest: seq<ChatSession>)
    requires a.archivedSessions == [x] + rest && !HasId(rest, x.id)
    ensures UnarchiveSession(a, x.id).sessions == [x] + a.sessions
    ensures UnarchiveSession(a, x.id).archivedSessions == rest
    ensures UnarchiveSession(a, x.id).currentSessionId == a.currentSessionId
  {
    var id := x.id;
    FindFirst(a.archivedSessions, 0, id);
    assert a.archivedSessions[1..] == rest;
    assert Filter(a.archivedSessions, IdIsNot(id)) == Filter(rest, IdIsNot(id));
    forall k | 0 <= k < |rest| ensures IdIsNot(id)(rest[k]) {
      assert rest[k] in rest;
    }
    FilterKeepsAll(rest, IdIsNot(id));
  }

  /** Find returns the element at i when i is the first index with the id. */
  lemma FindFirst(ss: seq<ChatSession>, i: nat, id: string)
    requires i < |ss| && ss[i].id == id
    requires forall j :: 0 <= j < i ==> ss[j].id != id
    ensures Find(ss, IdIs(id)) == Some(ss[i])
  {
    var r := FindIndex(ss, IdIs(id));
    assert r.Some?;
    if r.value < i {
      assert false;
    }
    if r.value > i {
      assert false;
    }
  }

  /** A session that is already at the front of the active list comes back
      to exactly the same list. */
  lemma ArchiveThenUnarchiveFront(st: ChatState, id: string)
    requires |st.sessions| > 0 && st.sessions[0].id == id
    requires forall j :: 0 < j < |st.sessions| ==> st.sessions[j].id != id
    requires !HasId(st.archivedSessions, id)
    ensures UnarchiveSession(ArchiveSession(st, id), id).sessions == st.sessions
    ensures UnarchiveSession(ArchiveSession(st, id), id).archivedSessions == st.archivedSessions
  {
    ArchiveThenUnarchive(st, id, 0);
    assert [st.sessions[0]] + st.sessions[..0] + st.sessions[1..] == st.sessions;
  }

  /** Filtering out an id that occurs only at index i removes exactly that
      element. */
  lemma FilterSkipsOne(ss: seq<ChatSession>, i: nat, id: string)
    requires i < |ss| && ss[i].id == id
    requires forall j :: 0 <= j < |ss| && j != i ==> ss[j].id != id
    ensures Filter(ss, IdIsNot(id)) == ss[..i] + ss[i + 1..]
  {
    FilterDropsOne(ss, i, IdIsNot(id));
  }

  // ----- messages -------------------------------------------------------------

  /** Appends the message to every active session with that id; archived
      sessions and all other fields are untouched. */
  function AddMessage(st: ChatState, sessionId: string, m: ChatMessage): (r: ChatState)
    ensures |r.sessions| == |st.sessions|
    ensures forall i :: 0 <= i < |st.sessions| ==>
              r.sessions[i] == if st.sessions[i].id == sessionId
                               then st.sessions[i].(messages := st.sessions[i].messages + [m])
                               else st.sessions[i]
    ensures r.(sessions := st.sessions) == st
  {
    st.(sessions := MapWhere(st.sessions, IdIs(sessionId),
                             (s: ChatSession) => s.(messages := s.messages + [m])))
  }

  /** `s.messages.map(m => m.id === messageId ? {...m, ...updates} : m)` */
  function PatchMessages(ms: seq<ChatMessage>, messageId: string, p: MessagePatch): (r: seq<ChatMessage>)
    ensures |r| == |ms|
    ensures forall k :: 0 <= k < |ms| ==>
              r[k] == if ms[k].id == messageId then PatchMessage(ms[k], p) else ms[k]
  {
    MapWhere(ms, (m: ChatMessage) => m.id == messageId, (m: ChatMessage) => PatchMessage(m, p))
  }

  /** Patches the messages with that id inside the active sessions with
      that id; count and order of messages are kept. */
  function UpdateMessage(st: ChatState, sessionId: string, messageId: string, p: MessagePatch): (r: ChatState)
    ensures |r.sessions| == |st.sessions|
    ensures forall i :: 0 <= i < |st.sessions| ==>
              r.sessions[i] == if st.sessions[i].id == sessionId
                               then st.sessions[i].(messages := PatchMessages(st.sessions[i].messages, messageId, p))
                               else st.sessions[i]
    ensures r.(sessions := st.sessions) == st
  {
    st.(sessions := MapWhere(st.sessions, IdIs(sessionId),
                             (s: ChatSession) => s.(messages := PatchMessages(s.messages, messageId, p))))
  }

  /** A patch without an id keeps every message id in place, and a message
      whose id differs from the target keeps all its fields. */
  lemma PatchKeepsIds(ms: seq<ChatMessage>, messageId: string, p: MessagePatch)
    requires p.id.None?
    ensures forall k :: 0 <= k < |ms| ==> PatchMessages(ms, messageId, p)[k].id == ms[k].id
    ensures forall k :: 0 <= k < |ms| && ms[k].id != messageId ==> PatchMessages(ms, messageId, p)[k] == ms[k]
  {
  }

  // ----- streaming --------------------------------------------------------------

  /** Points the streaming view at a message (or at none); the buffer
      defaults to the empty string. */
  function SetStreamingMessage(st: ChatState, messageId: Option<string>, content: Option<string>): (r: ChatState)
    ensures r.streamingMessageId == messageId
    ensures r.streamingContent == if content.Some? then content.value else ""
    ensures r.(streamingMessageId := st.streamingMessageId, streamingContent := st.streamingContent) == st
  {
    st.(streamingMessageId := messageId, streamingContent := content.GetOr(""))
  }

  function AppendStreamingContent(st: ChatState, c: string): (r: ChatState)
    ensures |r.streamingContent| == |st.streamingContent| + |c|
    ensures r.streamingContent[..|st.streamingContent|] == st.streamingContent
    ensures r.streamingContent[|st.streamingContent|..] == c
    ensures r.(streamingContent := st.streamingContent) == st
  {
    st.(streamingContent := st.streamingContent + c)
  }

  function AppendEach(st: ChatState, cs: seq<string>): ChatState
    decreases |cs|
  {
    if |cs| == 0 then st else AppendEach(AppendStreamingContent(st, cs[0]), cs[1..])
  }

  /** Appending chunks one at a time leaves their concatenation, in order,
      after what the buffer held. */
  lemma {:induction false} AppendEachConcat(st: ChatState, cs: seq<string>)
    ensures AppendEach(st, cs).streamingContent == st.streamingContent + Concat(cs)
    ensures AppendEach(st, cs).(streamingContent := st.streamingContent) == st
    decreases |cs|
  {
    if |cs| > 0 {
      AppendEachConcat(AppendStreamingContent(st, cs[0]), cs[1..]);
      assert st.streamingContent + cs[0] + Concat(cs[1..]) == st.streamingContent + (cs[0] + Concat(cs[1..]));
    }
  }

  function SetThinking(st: ChatState, thinking: bool): (r: ChatState)
    ensures r.isThinking == thinking && r.(isThinking := st.isThinking) == st
  {
    st.(isThinking := thinking)
  }

  // ----- tool calls -----------------------------------------------------------------

  /** Appends the tool, stamped with the clock reading `now`; no
      de-duplication. */
  function AddToolCall(st: ChatState, info: ToolCallInfo, now: int): (r: ChatState)
    ensures |r.activeToolCalls| == |st.activeToolCalls| + 1
    ensures r.activeToolCalls[..|st.activeToolCalls|] == st.activeToolCalls
    ensures r.activeToolCalls[|st.activeToolCalls|]
            == ActiveToolCall(info.name, info.description, info.nodeType, now)
    ensures r.(activeToolCalls := st.activeToolCalls) == st
  {
    st.(activeToolCalls := st.activeToolCalls + [ActiveToolCall(info.name, info.description, info.nodeType, now)])
  }

  function NameIsNot(name: Json): ActiveToolCall -> bool {
    (t: ActiveToolCall) => !StrictEquals(t.name, name)
  }

  /** Drops every entry whose name is strictly equal to `name`. */
  function RemoveToolCall(st: ChatState, name: Json): (r: ChatState)
    ensures forall t :: t in r.activeToolCalls <==> t in st.activeToolCalls && !StrictEquals(t.name, name)
    ensures |r.activeToolCalls| <= |st.activeToolCalls|
    ensures KeptInOrder(r.activeToolCalls, st.activeToolCalls, NameIsNot(name))
    ensures r.(activeToolCalls := st.activeToolCalls) == st
  {
    FilterIsKept(st.activeToolCalls, NameIsNot(name));
    st.(activeToolCalls := Filter(st.activeToolCalls, NameIsNot(name)))
  }

  /** Removing a name no entry carries changes nothing; in particular a
      name that is an array or object never matches. */
  lemma RemoveAbsentToolCall(st: ChatState, name: Json)
    requires forall i :: 0 <= i < |st.activeToolCalls| ==> !StrictEquals(st.activeToolCalls[i].name, name)
    ensures RemoveToolCall(st, name) == st
  {
    FilterKeepsAll(st.activeToolCalls, NameIsNot(name));
  }

  /** A started tool is listed until the matching end removes it, for
      names that are primitives. */
  lemma AddThenRemoveToolCall(st: ChatState, info: ToolCallInfo, now: int)
    requires !info.name.JArr? && !info.name.JObj?
    requires forall i :: 0 <= i < |st.activeToolCalls| ==> st.activeToolCalls[i].name != info.name
    ensures RemoveToolCall(AddToolCall(st, info, now), info.name) == st
  {
    var t := ActiveToolCall(info.name, info.description, info.nodeType, now);
    FilterAppend(st.activeToolCalls, [t], NameIsNot(info.name));
    FilterKeepsAll(st.activeToolCalls, NameIsNot(info.name));
    assert Filter([t], NameIsNot(info.name)) == [];
  }

  function ClearToolCalls(st: ChatState): (r: ChatState)
    ensures r.activeToolCalls == [] && r.(activeToolCalls := st.activeToolCalls) == st
  {
    st.(activeToolCalls := [])
  }

  function SetLoadingSessions(st: ChatState, loading: bool): (r: ChatState)
    ensures r.isLoadingSessions == loading && r.(isLoadingSessions := st.isLoadingSessions) == st
  {
    st.(isLoadingSessions := loading)
  }

  function SetLoadingMessages(st: ChatState, loading: bool): (r: ChatState)
    ensures r.isLoadingMessages == loading && r.(isLoadingMessages := st.isLoadingMessages) == st
  {
    st.(isLoadingMessages := loading)
  }

  function SetSendingMessage(st: ChatState, sending: bool): (r: ChatState)
    ensures r.isSendingMessage == sending && r.(isSendingMessage := st.isSendingMessage) == st
  {
    st.(isSendingMessage := sending)
  }

  function SetError(st: ChatState, error: Option<string>): (r: ChatState)
    ensures r.error == error && r.(error := st.error) == st
  {
    st.(error := error)
  }

  // ----- queries ----------------------------------------------------------------------

  /** The first active session whose id is the current one; none while no
      session is current. */
  function GetCurrentSession(st: ChatState): (r: Option<ChatSession>)
    ensures st.currentSessionId.None? ==> r.None?
    ensures r.Some? ==> r.value in st.sessions && Some(r.value.id) == st.currentSessionId
    ensures r.None? && st.currentSessionId.Some? ==> !HasId(st.sessions, st.currentSessionId.value)
    ensures r.Some? ==> exists i :: 0 <= i < |st.sessions| && st.sessions[i] == r.value
                                    && forall j :: 0 <= j < i ==> Some(st.sessions[j].id) != st.currentSessionId
  {
    Find(st.sessions, (s: ChatSession) => Some(s.id) == st.currentSessionId)
  }

  /** The messages of the first active session with that id, or none. */
  function GetSessionMessages(st: ChatState, id: string): (r: seq<ChatMessage>)
    ensures !HasId(st.sessions, id) ==> r == []
    ensures HasId(st.sessions, id) ==> exists i :: 0 <= i < |st.sessions| && st.sessions[i].id == id
                                                   && r == st.sessions[i].messages
                                                   && forall j :: 0 <= j < i ==> st.sessions[j].id != id
  {
    match Find(st.sessions, IdIs(id))
    case None => []
    case Some(s) => s.messages
  }

  /** After a session is added and made current, it is the current session
      and its messages are the ones the store returns for its id. */
  lemma AddedSessionIsCurrent(st: ChatState, s: ChatSession)
    ensures GetCurrentSession(SetCurrentSession(AddSession(st, s), Some(s.id))) == Some(s)
    ensures GetSessionMessages(AddSession(st, s), s.id) == s.messages
  {
    var a := AddSession(st, s);
    assert a.sessions[0] == s;
  }
}
