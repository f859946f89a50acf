/** Sending a chat message (`handleSend` in
    src/components/chat/chat-interface.tsx, lines 138-237) and the
    callbacks it hands to the stream. The server's answers (the created
    session, the saved messages) and the clock are inputs; the requests
    the component makes are recorded in order. */
module ChatSend {
  import opened Common
  import opened Json
  import opened Text
  import opened StreamDecoder
  import opened StreamController
  import opened ChatStore
  import CreditStore

  /** The part of the component's world a send touches. */
  datatype Ui = Ui(chat: ChatState, credits: CreditStore.CreditState, input: string)

  datatype Tool = Tool(id: string, creditCost: int)

  datatype Request =
    | CreateSession(toolId: string, title: string)
    | SaveUserMessage(sessionId: string, content: string)
    | OpenStream(sessionId: string, messageId: string)
    | SaveAssistantMessage(sessionId: string, content: string)

  /** What the server and the clock answer during one send: None for a
      request that throws. */
  datatype SendEnv = SendEnv(
    createdSession: Option<ChatSession>,
    savedUserMessage: Option<ChatMessage>,
    now: int,
    timestamp: string,
    streamSetupThrows: bool)

  /** Where the stream's callbacks write: the session and the placeholder's
      temporary id. */
  datatype Target = Target(sessionId: string, tempId: string)

  datatype SendResult = SendResult(
    ui: Ui,
    requests: seq<Request>,
    alerted: bool,
    stream: Option<Target>)

  const Apology := "Sorry, an error occurred. Please try again."
  const TitleLength := 50

  function TempId(now: int): string {
    "temp-" + IntToString(now)
  }

  /** `message.slice(0, 50)` */
  function Title(message: string): (t: string)
    ensures |t| <= TitleLength
    ensures |message| <= TitleLength ==> t == message
    ensures |message| > TitleLength ==> t == message[..TitleLength]
  {
    JsSlice(message, 0, TitleLength)
  }

  /** `message.slice(0, 50)` as JavaScript computes it, on UTF-16 code
      units. */
  function TitleUnits(message: string): (u: seq<int>)
    ensures |u| == if |Utf16(message)| < TitleLength then |Utf16(message)| else TitleLength
    ensures u == Utf16(message)[..|u|]
  {
    JsSlice(Utf16(message), 0, TitleLength)
  }

  /** On text in the Basic Multilingual Plane the title the model keeps is
      exactly the code units JavaScript keeps. */
  lemma TitleOnBmp(message: string)
    requires InBmp(message)
    ensures Utf16(Title(message)) == TitleUnits(message)
  {
  }

  /** Beyond that plane they differ: after 49 ASCII characters an emoji
      is kept whole by the model, while JavaScript keeps only its high
      surrogate. */
  lemma TitleCutsSurrogatePair(pre: string, emoji: char)
    requires |pre| == 49 && InBmp(pre) && emoji == '\U{1F600}'
    ensures Title(pre + [emoji]) == pre + [emoji]
    ensures |TitleUnits(pre + [emoji])| == TitleLength
    ensures TitleUnits(pre + [emoji])[49] == 0xD83D
    ensures Utf16(Title(pre + [emoji])) != TitleUnits(pre + [emoji])
  {
    Utf16Concat(pre, [emoji]);
    assert [emoji][1..] == [];
  }

  function Placeholder(sessionId: string, tempId: string, timestamp: string): ChatMessage {
    ChatMessage(tempId, sessionId, ASSISTANT, "", timestamp)
  }

  /** A send may start: the input is not blank and no send is running. */
  predicate MaySend(ui: Ui) {
    Trim(ui.input) != "" && !ui.chat.isSendingMessage
  }

  /** From the flags onward: marks the send as running, clears the input,
      saves the user message, appends it and an empty assistant
      placeholder, and points the streaming view at the placeholder. An
      exception resets both flags. */
  function SendInSession(ui: Ui, tool: Tool, sessionId: string, env: SendEnv): (r: SendResult)
    ensures |r.requests| >= 1 && r.requests[0] == SaveUserMessage(sessionId, ui.input)
    ensures !r.alerted
  {
    var chat1 := ClearToolCalls(SetThinking(SetSendingMessage(ui.chat, true), true));
    var ui1 := Ui(chat1, ui.credits, "");
    var save := SaveUserMessage(sessionId, ui.input);
    match env.savedUserMessage
    case None =>
      SendResult(ui1.(chat := SetThinking(SetSendingMessage(chat1, false), false)), [save], false, None)
    case Some(userMsg) =>
      var tempId := TempId(env.now);
      var chat4 := StreamingChat(chat1, sessionId, userMsg, tempId, env.timestamp);
      if env.streamSetupThrows then
        SendResult(ui1.(chat := SetThinking(SetSendingMessage(chat4, false), false)), [save], false, None)
      else
        SendResult(ui1.(chat := chat4), [save, OpenStream(sessionId, userMsg.id)], false,
                   Some(Target(sessionId, tempId)))
  }

  /** The store after the user message and the placeholder are appended
      and the streaming view points at the placeholder: the session with
      that id gains exactly those two messages, every other session and
      the pointer stay, and thinking is over. */
  function StreamingChat(chat: ChatState, sessionId: string, userMsg: ChatMessage, tempId: string,
                         timestamp: string): (r: ChatState)
    ensures |r.sessions| == |chat.sessions|
    ensures forall i :: 0 <= i < |chat.sessions| ==>
              r.sessions[i] == if chat.sessions[i].id == sessionId
                               then chat.sessions[i].(messages := chat.sessions[i].messages
                                      + [userMsg, Placeholder(sessionId, tempId, timestamp)])
                               else chat.sessions[i]
    ensures r.streamingMessageId == Some(tempId) && r.streamingContent == "" && !r.isThinking
    ensures r.(sessions := chat.sessions, streamingMessageId := chat.streamingMessageId,
               streamingContent := chat.streamingContent, isThinking := chat.isThinking) == chat
  {
    var chat2 := AddMessage(chat, sessionId, userMsg);
    var chat3 := AddMessage(chat2, sessionId, Placeholder(sessionId, tempId, timestamp));
    forall i | 0 <= i < |chat.sessions| && chat.sessions[i].id == sessionId
      ensures chat3.sessions[i].messages
              == chat.sessions[i].messages + [userMsg, Placeholder(sessionId, tempId, timestamp)]
    {
      var ms := chat.sessions[i].messages;
      assert ms + [userMsg] + [Placeholder(sessionId, tempId, timestamp)]
             == ms + [userMsg, Placeholder(sessionId, tempId, timestamp)];
    }
    SetThinking(SetStreamingMessage(chat3, Some(tempId), Some("")), false)
  }

  /** Where `handleSend` stands at its first await: refused before it
      (with the credit alert or silently), waiting for a new session, or
      sending in the current one. Nothing in the store changes before that
      await. */
  datatype Start = Refused(alerted: bool) | Creating | Ready(sessionId: string)

  function StartSend(ui: Ui, tool: Tool): (r: Start)
    ensures r.Refused? <==> !MaySend(ui) || !CreditStore.HasEnoughCredits(ui.credits, tool.creditCost)
    ensures r.Refused? ==> (r.alerted <==> MaySend(ui))
    ensures r.Creating? <==> !r.Refused? && (ui.chat.currentSessionId.None? || ui.chat.currentSessionId == Some(""))
    ensures r.Ready? ==> ui.chat.currentSessionId == Some(r.sessionId) && r.sessionId != ""
  {
    if !MaySend(ui) then Refused(false)
    else if !CreditStore.HasEnoughCredits(ui.credits, tool.creditCost) then Refused(true)
    else
      var current := ui.chat.currentSessionId;
      if current.None? || current.value == "" then Creating
      else Ready(current.value)
  }

  /** After the create request returns: the new session is put in front
      and made current, and `message`, the text the handler captured when
      it was called, is sent in it. If the request throws, nothing
      changes. */
  function ResumeCreated(ui: Ui, message: string, tool: Tool, env: SendEnv): (r: SendResult)
    ensures |r.requests| >= 1 && r.requests[0] == CreateSession(tool.id, Title(message))
    ensures !r.alerted
    ensures env.createdSession.None? ==> r == SendResult(ui, [CreateSession(tool.id, Title(message))], false, None)
    ensures env.createdSession.Some? ==>
              && |r.ui.chat.sessions| == |ui.chat.sessions| + 1
              && r.ui.chat.sessions[0].id == env.createdSession.value.id
              && (forall i :: 0 <= i < |ui.chat.sessions| ==> r.ui.chat.sessions[i + 1].id == ui.chat.sessions[i].id)
              && r.ui.chat.currentSessionId == Some(env.createdSession.value.id)
              && |r.requests| >= 2 && r.requests[1] == SaveUserMessage(env.createdSession.value.id, message)
  {
    var create := CreateSession(tool.id, Title(message));
    match env.createdSession
    case None => SendResult(ui, [create], false, None)
    case Some(s) =>
      var chat := SetCurrentSession(AddSession(ui.chat, s), Some(s.id));
      var sent := ui.(chat := chat, input := message);
      SendKeepsSessions(sent, tool, s.id, env);
      var r := SendInSession(sent, tool, s.id, env);
      r.(requests := [create] + r.requests)
  }

  function HandleSend(ui: Ui, tool: Tool, env: SendEnv): (r: SendResult)
    ensures !MaySend(ui) ==> r == SendResult(ui, [], false, None)
    ensures MaySend(ui) && !CreditStore.HasEnoughCredits(ui.credits, tool.creditCost) ==>
              r == SendResult(ui, [], true, None)
    ensures r.alerted ==> r.ui == ui
    ensures r.stream.Some? ==> MaySend(ui) && CreditStore.HasEnoughCredits(ui.credits, tool.creditCost)
  {
    match StartSend(ui, tool)
    case Refused(alerted) => SendResult(ui, [], alerted, None)
    case Creating => ResumeCreated(ui, ui.input, tool, env)
    case Ready(sessionId) => SendInSession(ui, tool, sessionId, env)
  }

  /** The create request is awaited before the send is marked as running,
      and the store is unchanged while it is pending, so a second press in
      that window passes the guard on the same state. Both presses then
      resume: two sessions are created, the second one ends up current,
      and the same text is saved in each. */
  lemma SecondPressWhileCreating(ui: Ui, tool: Tool, env1: SendEnv, env2: SendEnv)
    requires StartSend(ui, tool) == Creating
    requires env1.createdSession.Some? && env2.createdSession.Some?
    ensures var r1 := ResumeCreated(ui, ui.input, tool, env1);
            var r2 := ResumeCreated(r1.ui, ui.input, tool, env2);
            && r1.requests[0] == CreateSession(tool.id, Title(ui.input))
            && r2.requests[0] == CreateSession(tool.id, Title(ui.input))
            && r1.requests[1] == SaveUserMessage(env1.createdSession.value.id, ui.input)
            && r2.requests[1] == SaveUserMessage(env2.createdSession.value.id, ui.input)
            && |r2.ui.chat.sessions| == |ui.chat.sessions| + 2
            && r2.ui.chat.sessions[0].id == env2.createdSession.value.id
            && r2.ui.chat.sessions[1].id == env1.createdSession.value.id
            && r2.ui.chat.currentSessionId == Some(env2.createdSession.value.id)
  {
    var r1 := ResumeCreated(ui, ui.input, tool, env1);
    var r2 := ResumeCreated(r1.ui, ui.input, tool, env2);
    assert |r2.ui.chat.sessions| == |r1.ui.chat.sessions| + 1;
    assert r2.ui.chat.sessions[0 + 1].id == r1.ui.chat.sessions[0].id;
  }

  /** What the server answers while the stream's callbacks run. */
  datatype CallbackEnv = CallbackEnv(savedAssistant: Option<ChatMessage>, now: int)

  /** One stream callback. onComplete awaits the save of the assistant
      message; when that save throws, the rejection is never handled and
      nothing further happens. */
  function React(ui: Ui, tool: Tool, t: Target, out: Output, env: CallbackEnv): (r: Ui)
    ensures r.input == ui.input
  {
    match out
    case Chunk(text) => ui.(chat := AppendStreamingContent(ui.chat, text))
    case Complete(m) =>
      (match env.savedAssistant
       case None => ui
       case Some(saved) =>
         var patch := MessagePatch(Some(saved.id), None, None, Some(m), None);
         var chat := UpdateMessage(ui.chat, t.sessionId, t.tempId, patch);
         var chat2 := SetSendingMessage(SetStreamingMessage(chat, None, None), false);
         Ui(chat2, CreditStore.DeductCredits(ui.credits, tool.creditCost), ui.input))
    case Error(_) =>
      var patch := MessagePatch(None, None, None, Some(Apology), None);
      var chat := UpdateMessage(ui.chat, t.sessionId, t.tempId, patch);
      ui.(chat := SetSendingMessage(SetStreamingMessage(chat, None, None), false))
    case ToolStart(info) => ui.(chat := AddToolCall(ui.chat, info, env.now))
    case ToolEnd(info) => ui.(chat := RemoveToolCall(ui.chat, info.name))
    case Node(_, _) => ui
  }

  /** The callbacks of a whole trace, each with its own server answers. */
  function ReactAll(ui: Ui, tool: Tool, t: Target, outs: seq<Output>, envs: seq<CallbackEnv>): Ui
    requires |envs| == |outs|
    decreases |outs|
  {
    if |outs| == 0 then ui
    else ReactAll(React(ui, tool, t, outs[0], envs[0]), tool, t, outs[1..], envs[1..])
  }

  // ----- the send -------------------------------------------------------------------

  /** Without a current session a session titled with the first 50
      characters of the input is created, put in front and made current;
      if that request throws, nothing changes and no send starts. */
  lemma SessionCreation(ui: Ui, tool: Tool, env: SendEnv)
    requires MaySend(ui) && CreditStore.HasEnoughCredits(ui.credits, tool.creditCost)
    requires ui.chat.currentSessionId.None? || ui.chat.currentSessionId == Some("")
    ensures |HandleSend(ui, tool, env).requests| >= 1
    ensures HandleSend(ui, tool, env).requests[0] == CreateSession(tool.id, Title(ui.input))
    ensures env.createdSession.None? ==> HandleSend(ui, tool, env) == SendResult(ui, [CreateSession(tool.id, Title(ui.input))], false, None)
    ensures env.createdSession.Some? ==>
              var r := HandleSend(ui, tool, env);
              && |r.ui.chat.sessions| >= 1
              && r.ui.chat.sessions[0].id == env.createdSession.value.id
              && r.ui.chat.currentSessionId == Some(env.createdSession.value.id)
  {
    if env.createdSession.Some? {
      var s := env.createdSession.value;
      var chat := SetCurrentSession(AddSession(ui.chat, s), Some(s.id));
      SendKeepsSessions(ui.(chat := chat), tool, s.id, env);
    }
  }

  /** The send itself never adds, drops or reorders sessions and never
      moves the current pointer. */
  lemma SendKeepsSessions(ui: Ui, tool: Tool, sessionId: string, env: SendEnv)
    ensures var r := SendInSession(ui, tool, sessionId, env);
            && |r.ui.chat.sessions| == |ui.chat.sessions|
            && (forall i :: 0 <= i < |ui.chat.sessions| ==> r.ui.chat.sessions[i].id == ui.chat.sessions[i].id)
            && r.ui.chat.currentSessionId == ui.chat.currentSessionId
  {
    var chat1 := ClearToolCalls(SetThinking(SetSendingMessage(ui.chat, true), true));
    assert chat1.sessions == ui.chat.sessions && chat1.currentSessionId == ui.chat.currentSessionId;
    SendSessions(ui, tool, sessionId, env);
    if env.savedUserMessage.Some? {
      var chat4 := StreamingChat(chat1, sessionId, env.savedUserMessage.value, TempId(env.now), env.timestamp);
      assert chat4.currentSessionId == chat1.currentSessionId;
    }
  }

  /** Where the sessions of a send come from. */
  lemma SendSessions(ui: Ui, tool: Tool, sessionId: string, env: SendEnv)
    ensures var r := SendInSession(ui, tool, sessionId, env);
            var chat1 := ClearToolCalls(SetThinking(SetSendingMessage(ui.chat, true), true));
            && (env.savedUserMessage.None? ==>
                  r.ui.chat.sessions == ui.chat.sessions && r.ui.chat.currentSessionId == ui.chat.currentSessionId)
            && (env.savedUserMessage.Some? ==>
                  var chat4 := StreamingChat(chat1, sessionId, env.savedUserMessage.value, TempId(env.now), env.timestamp);
                  r.ui.chat.sessions == chat4.sessions && r.ui.chat.currentSessionId == chat4.currentSessionId)
  {
  }

  /** A send that reaches the stream leaves: the send running, thinking
      over, no tools listed, the input cleared, the session's messages
      extended by the saved user message and an empty assistant
      placeholder, and the streaming view on that placeholder with an
      empty buffer. */
  lemma StreamingSetup(ui: Ui, tool: Tool, env: SendEnv, sessionId: string)
    requires MaySend(ui) && CreditStore.HasEnoughCredits(ui.credits, tool.creditCost)
    requires ui.chat.currentSessionId == Some(sessionId) && sessionId != ""
    requires env.savedUserMessage.Some? && !env.streamSetupThrows
    ensures var r := HandleSend(ui, tool, env);
            && r.stream == Some(Target(sessionId, TempId(env.now)))
            && r.ui.chat.isSendingMessage && !r.ui.chat.isThinking
            && r.ui.chat.activeToolCalls == [] && r.ui.input == ""
            && r.ui.chat.streamingMessageId == Some(TempId(env.now))
            && r.ui.chat.streamingContent == ""
            && r.ui.credits == ui.credits
            && r.requests == [SaveUserMessage(sessionId, ui.input),
                              OpenStream(sessionId, env.savedUserMessage.value.id)]
            && |r.ui.chat.sessions| == |ui.chat.sessions|
    ensures forall i :: 0 <= i < |ui.chat.sessions| ==>
              HandleSend(ui, tool, env).ui.chat.sessions[i]
              == if ui.chat.sessions[i].id == sessionId
                 then ui.chat.sessions[i].(messages := ui.chat.sessions[i].messages
                        + [env.savedUserMessage.value, Placeholder(sessionId, TempId(env.now), env.timestamp)])
                 else ui.chat.sessions[i]
  {
    assert HandleSend(ui, tool, env) == SendInSession(ui, tool, sessionId, env);
  }

  /** An exception while saving the user message or opening the stream
      leaves neither flag set; no stream is attached. */
  lemma SetupFailureResetsFlags(ui: Ui, tool: Tool, env: SendEnv)
    requires MaySend(ui) && CreditStore.HasEnoughCredits(ui.credits, tool.creditCost)
    requires ui.chat.currentSessionId.Some? && ui.chat.currentSessionId.value != ""
    requires env.savedUserMessage.None? || env.streamSetupThrows
    ensures HandleSend(ui, tool, env).stream.None?
    ensures !HandleSend(ui, tool, env).ui.chat.isSendingMessage
    ensures !HandleSend(ui, tool, env).ui.chat.isThinking
    ensures HandleSend(ui, tool, env).ui.credits == ui.credits
  {
  }

  // ----- the callbacks ---------------------------------------------------------------

  /** onComplete, once the assistant message is saved: the placeholder is
      re-keyed to the saved id with the final text, streaming stops, the
      tool's cost is deducted and the send ends. */
  lemma CompleteRekeys(ui: Ui, tool: Tool, t: Target, m: string, saved: ChatMessage, now: int)
    ensures var r := React(ui, tool, t, Complete(m), CallbackEnv(Some(saved), now));
            && r.chat.streamingMessageId.None?
            && !r.chat.isSendingMessage
            && r.credits == CreditStore.DeductCredits(ui.credits, tool.creditCost)
            && |r.chat.sessions| == |ui.chat.sessions|
    ensures forall i, k :: 0 <= i < |ui.chat.sessions| && ui.chat.sessions[i].id == t.sessionId
                           && 0 <= k < |ui.chat.sessions[i].messages|
                           && ui.chat.sessions[i].messages[k].id == t.tempId ==>
              var r := React(ui, tool, t, Complete(m), CallbackEnv(Some(saved), now));
              r.chat.sessions[i].messages[k] == ui.chat.sessions[i].messages[k].(id := saved.id, content := m)
  {
  }

  /** onError: the placeholder shows the apology, streaming stops, the send
      ends and nothing is charged. */
  lemma ErrorShowsApology(ui: Ui, tool: Tool, t: Target, msg: string, env: CallbackEnv)
    ensures var r := React(ui, tool, t, Error(msg), env);
            && r.chat.streamingMessageId.None?
            && !r.chat.isSendingMessage
            && r.credits == ui.credits
    ensures forall i, k :: 0 <= i < |ui.chat.sessions| && ui.chat.sessions[i].id == t.sessionId
                           && 0 <= k < |ui.chat.sessions[i].messages|
                           && ui.chat.sessions[i].messages[k].id == t.tempId ==>
              React(ui, tool, t, Error(msg), env).chat.sessions[i].messages[k]
              == ui.chat.sessions[i].messages[k].(content := Apology)
  {
  }

  /** A failed save in onComplete leaves everything as it was, so the send
      stays marked as running. */
  lemma CompleteSaveFailureChangesNothing(ui: Ui, tool: Tool, t: Target, m: string, now: int)
    ensures React(ui, tool, t, Complete(m), CallbackEnv(None, now)) == ui
  {
  }

  predicate IsTerminal(o: Output) {
    o.Complete? || o.Error?
  }

  /** Outputs other than onComplete leave the credits alone, so over a
      trace with no completion nothing is charged, and a trace holding one
      terminal callback is charged at most the tool's cost once. */
  lemma {:induction false} CreditsUntouchedWithoutComplete(ui: Ui, tool: Tool, t: Target, outs: seq<Output>, envs: seq<CallbackEnv>)
    requires |envs| == |outs|
    requires forall i :: 0 <= i < |outs| ==> !outs[i].Complete?
    ensures ReactAll(ui, tool, t, outs, envs).credits == ui.credits
    decreases |outs|
  {
    if |outs| > 0 {
      CreditsUntouchedWithoutComplete(React(ui, tool, t, outs[0], envs[0]), tool, t, outs[1..], envs[1..]);
    }
  }

  /** Over any trace of the stream, the send is charged at most once: the
      credits end either as they were or deducted by the tool's cost a
      single time. */
  lemma {:induction false} ChargedAtMostOnce(ui: Ui, tool: Tool, t: Target, s: Stream, es: seq<Event>, envs: seq<CallbackEnv>)
    requires |envs| == |Run(s, es).1|
    ensures var after := ReactAll(ui, tool, t, Run(s, es).1, envs).credits;
            after == ui.credits || after == CreditStore.DeductCredits(ui.credits, tool.creditCost)
  {
    AtMostOneTerminal(s, es);
    ChargedAtMostOnceTrace(ui, tool, t, Run(s, es).1, envs);
  }

  lemma {:induction false} ChargedAtMostOnceTrace(ui: Ui, tool: Tool, t: Target, outs: seq<Output>, envs: seq<CallbackEnv>)
    requires |envs| == |outs|
    requires Terminals(outs) <= 1
    ensures var after := ReactAll(ui, tool, t, outs, envs).credits;
            after == ui.credits || after == CreditStore.DeductCredits(ui.credits, tool.creditCost)
    decreases |outs|
  {
    if |outs| > 0 {
      var next := React(ui, tool, t, outs[0], envs[0]);
      if IsTerminal(outs[0]) {
        NoTerminalsLeft(outs[1..]);
        CreditsUntouchedWithoutComplete(next, tool, t, outs[1..], envs[1..]);
      } else {
        assert next.credits == ui.credits;
        ChargedAtMostOnceTrace(next, tool, t, outs[1..], envs[1..]);
        var after := ReactAll(next, tool, t, outs[1..], envs[1..]).credits;
        assert after == next.credits || after == CreditStore.DeductCredits(next.credits, tool.creditCost);
      }
    }
  }

  lemma {:induction false} NoTerminalsLeft(outs: seq<Output>)
    requires Terminals(outs) == 0
    ensures forall i :: 0 <= i < |outs| ==> !outs[i].Complete? && !outs[i].Error?
    decreases |outs|
  {
    if |outs| > 0 {
      NoTerminalsLeft(outs[1..]);
      forall i | 0 < i < |outs| ensures !outs[i].Complete? && !outs[i].Error? {
        assert outs[i] == outs[1..][i - 1];
      }
    }
  }

  /** The chunks handed to onChunk accumulate in the streaming buffer in
      order. */
  lemma {:induction false} ChunksAccumulate(ui: Ui, tool: Tool, t: Target, outs: seq<Output>, envs: seq<CallbackEnv>)
    requires |envs| == |outs|
    requires forall i :: 0 <= i < |outs| ==> outs[i].Chunk?
    ensures ReactAll(ui, tool, t, outs, envs).chat.streamingContent
            == ui.chat.streamingContent + Concat(Delivered(outs))
    decreases |outs|
  {
    if |outs| > 0 {
      var next := React(ui, tool, t, outs[0], envs[0]);
      ChunksAccumulate(next, tool, t, outs[1..], envs[1..]);
      assert Delivered(outs) == [outs[0].text] + Delivered(outs[1..]);
      assert Concat(Delivered(outs)) == outs[0].text + Concat(Delivered(outs[1..]));
      assert ui.chat.streamingContent + outs[0].text + Concat(Delivered(outs[1..]))
             == ui.chat.streamingContent + (outs[0].text + Concat(Delivered(outs[1..])));
    }
  }
}
