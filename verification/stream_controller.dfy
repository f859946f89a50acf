/** The streaming exchange of `streamChatResponse` (src/lib/api/chat.ts,
    lines 189-362) as a state machine. The closure variables of the source
    become the fields of `Stream`; every callback the source invokes
    becomes an `Output` in the trace a step emits.

    Time is represented by two explicit events: `TypingTimer` (the drain
    worker's typing delay elapses and the worker resumes) and `PollTimer`
    (the 100 ms completion poll fires). Between events the drain worker is
    either absent (`draining` false) or suspended at its delay. */
module StreamController {
  import opened Common
  import opened Json
  import opened StreamDecoder
  import opened Text

  /** The callbacks, in the order the source invokes them. */
  datatype Output =
    | Chunk(text: string)
    | Complete(fullMessage: string)
    | Error(message: string)
    | ToolStart(info: ToolCallInfo)
    | ToolEnd(info: ToolCallInfo)
    | Node(nodeName: Json, phase: NodePhase)

  /** A message event carries what the decoder made of its payload. */
  datatype Event =
    | Message(decoded: Decoded)
    | TransportError
    | TypingTimer
    | PollTimer
    | Cleanup

  /** `closed`: `eventSource.close()` has been called. `completing`: the
      completion poll is running. */
  datatype Stream = Stream(
    fullMessage: string,
    hasReceivedContent: bool,
    queue: seq<string>,
    draining: bool,
    closed: bool,
    completing: bool)

  const AuthRequired := "Authentication required for streaming"
  const ParseFailed := "Failed to parse streaming response"
  const EmptyResponse := "Stream ended with empty response"
  const ConnectionLost := "Connection lost"

  /** The worker skips its delay while at least this many chunks wait. */
  const CatchUp := 10

  const Initial := Stream("", false, [], false, false, false)

  /** Transport events reach the handlers only while the source has neither
      closed the connection nor started waiting for completion. */
  predicate Accepting(s: Stream) {
    !s.closed && !s.completing
  }

  /** The state can produce no further completion or error. */
  predicate Finished(s: Stream) {
    s.closed && !s.completing
  }

  predicate IsSuffix(t: string, s: string) {
    |t| <= |s| && s[|s| - |t|..] == t
  }

  /** What holds between events: an idle worker leaves nothing pending;
      the pending chunks are the tail of the accumulated message; the
      completion poll runs only for a non-empty message after content. */
  predicate Inv(s: Stream) {
    && (!s.draining ==> s.queue == [])
    && IsSuffix(Concat(s.queue), s.fullMessage)
    && (s.completing ==> s.hasReceivedContent && s.fullMessage != "")
  }

  /** One uninterrupted run of the drain worker's loop: it hands chunks to
      onChunk, skipping the delay while `CatchUp` or more remain, and
      suspends at the first delay. */
  function Burst(q: seq<string>): (r: (seq<string>, seq<string>))
    requires |q| > 0
    ensures r.0 + r.1 == q
    ensures |r.0| >= 1
    ensures |r.1| < CatchUp
    ensures |r.1| == if |q| - 1 < CatchUp then |q| - 1 else CatchUp - 1
  {
    if |q| - 1 < CatchUp then ([q[0]], q[1..])
    else
      var rest := Burst(q[1..]);
      ([q[0]] + rest.0, rest.1)
  }

  function ChunksOf(texts: seq<string>): (r: seq<Output>)
    ensures |r| == |texts|
    ensures forall i :: 0 <= i < |r| ==> r[i] == Chunk(texts[i])
  {
    seq(|texts|, i requires 0 <= i < |texts| => Chunk(texts[i]))
  }

  /** The texts of the Chunk outputs of a trace, in order. */
  function Delivered(outs: seq<Output>): seq<string> {
    if |outs| == 0 then []
    else (if outs[0].Chunk? then [outs[0].text] else []) + Delivered(outs[1..])
  }

  lemma {:induction false} DeliveredAppend(a: seq<Output>, b: seq<Output>)
    ensures Delivered(a + b) == Delivered(a) + Delivered(b)
  {
    if |a| > 0 {
      assert (a + b)[1..] == a[1..] + b;
      DeliveredAppend(a[1..], b);
    } else {
      assert a + b == b;
    }
  }

  lemma {:induction false} DeliveredChunks(texts: seq<string>)
    ensures Delivered(ChunksOf(texts)) == texts
  {
    if |texts| > 0 {
      assert ChunksOf(texts)[1..] == ChunksOf(texts[1..]);
      DeliveredChunks(texts[1..]);
    }
  }

  /** A content chunk is queued and `processChunkQueue` is called: an idle
      worker starts and runs until its first delay; a running worker will
      find the chunk when it resumes. */
  function Enqueue(s: Stream, c: string): (r: (Stream, seq<Output>))
  {
    var q := s.queue + [c];
    if s.draining then (s.(queue := q), [])
    else
      var b := Burst(q);
      (s.(queue := b.1, draining := true), ChunksOf(b.0))
  }

  function OnMessage(s: Stream, d: Decoded): (r: (Stream, seq<Output>))
    requires Accepting(s)
  {
    match d
    case Unparsable => (s.(closed := true), [Error(ParseFailed)])
    case Content(c) => Enqueue(s.(fullMessage := s.fullMessage + c, hasReceivedContent := true), c)
    case End => (s, [])
    case Begin => (s.(fullMessage := "", queue := []), [])
    case Failure(m) => (s.(closed := true), [Error(m)])
    case ToolCallStart(info) => (s, [ToolStart(info)])
    case ToolCallEnd(info) => (s, [ToolEnd(info)])
    case NodeExecute(name, phase) => (s, [Node(name, phase)])
    case Unrecognized => (s, [])
  }

  /** `eventSource.onerror`: the one notification for both a normal end of
      stream and a lost connection. */
  function OnTransportError(s: Stream): (r: (Stream, seq<Output>))
    requires Accepting(s)
  {
    if s.hasReceivedContent && |s.fullMessage| > 0 then (s.(completing := true), [])
    else if s.hasReceivedContent then (s.(closed := true), [Error(EmptyResponse)])
    else (s.(closed := true), [Error(ConnectionLost)])
  }

  /** The worker resumes after its delay: it stops when nothing is left,
      otherwise it delivers the next run of chunks. It keeps going after
      the connection is closed. */
  function OnTypingTimer(s: Stream): (r: (Stream, seq<Output>))
  {
    if !s.draining then (s, [])
    else if s.queue == [] then (s.(draining := false), [])
    else
      var b := Burst(s.queue);
      (s.(queue := b.1), ChunksOf(b.0))
  }

  /** The completion poll fires: it completes once the queue is empty and
      the worker has stopped, then clears itself and closes. */
  function OnPollTimer(s: Stream): (r: (Stream, seq<Output>))
  {
    if s.completing && s.queue == [] && !s.draining then
      (s.(completing := false, closed := true), [Complete(s.fullMessage)])
    else (s, [])
  }

  function Step(s: Stream, e: Event): (r: (Stream, seq<Output>))
  {
    match e
    case Message(d) => if Accepting(s) then OnMessage(s, d) else (s, [])
    case TransportError => if Accepting(s) then OnTransportError(s) else (s, [])
    case TypingTimer => OnTypingTimer(s)
    case PollTimer => OnPollTimer(s)
    case Cleanup => (s.(closed := true), [])
  }

  /** The message event for a payload as the transport delivers it. */
  function Received(p: Payload): Event {
    Message(DecodePayload(p))
  }

  function Run(s: Stream, es: seq<Event>): (r: (Stream, seq<Output>))
    decreases |es|
  {
    if |es| == 0 then (s, [])
    else
      var first := Step(s, es[0]);
      var rest := Run(first.0, es[1..]);
      (rest.0, first.1 + rest.1)
  }

  /** The identity check before the connection opens: JavaScript treats an
      empty id like a missing one. */
  predicate Resolvable(userId: Option<string>) {
    userId.Some? && userId.value != ""
  }

  /** A whole exchange: without a resolvable user id the error callback
      fires once and nothing else happens (the returned cleanup does
      nothing); otherwise the events drive a fresh stream. */
  function Exchange(userId: Option<string>, es: seq<Event>): seq<Output> {
    if !Resolvable(userId) then [Error(AuthRequired)]
    else Run(Initial, es).1
  }

  // ----- invariant -------------------------------------------------------

  lemma {:induction false} BurstConcat(q: seq<string>)
    requires |q| > 0
    ensures Concat(q) == Concat(Burst(q).0) + Concat(Burst(q).1)
  {
    ConcatAppend(Burst(q).0, Burst(q).1);
  }

  lemma SuffixOfSuffix(t: string, u: string, s: string)
    requires IsSuffix(t + u, s)
    ensures IsSuffix(u, s)
  {
    assert s[|s| - |u|..] == (t + u)[|t|..];
  }

  /** Every step keeps the invariant. */
  lemma {:induction false} StepInv(s: Stream, e: Event)
    requires Inv(s)
    ensures Inv(Step(s, e).0)
  {
    var r := Step(s, e).0;
    match e
    case Message(d) =>
      if Accepting(s) {
        match d
        case Content(c) =>
          var s1 := s.(fullMessage := s.fullMessage + c, hasReceivedContent := true);
          var q := s.queue + [c];
          ConcatAppend(s.queue, [c]);
          assert Concat([c]) == c;
          assert Concat(q) == Concat(s.queue) + c;
          assert IsSuffix(Concat(q), s1.fullMessage);
          if !s.draining {
            BurstConcat(q);
            SuffixOfSuffix(Concat(Burst(q).0), Concat(Burst(q).1), s1.fullMessage);
          }
        case Begin =>
        case _ =>
      }
    case TransportError =>
    case TypingTimer =>
      if s.draining && s.queue != [] {
        BurstConcat(s.queue);
        SuffixOfSuffix(Concat(Burst(s.queue).0), Concat(Burst(s.queue).1), s.fullMessage);
      }
    case PollTimer =>
    case Cleanup =>
  }

  lemma {:induction false} RunInv(s: Stream, es: seq<Event>)
    requires Inv(s)
    ensures Inv(Run(s, es).0)
    decreases |es|
  {
    if |es| > 0 {
      StepInv(s, es[0]);
      RunInv(Step(s, es[0]).0, es[1..]);
    }
  }

  // ----- the authentication guard ----------------------------------------

  /** Without a resolvable identity the only callback is the
      authentication error, whatever the connection would have sent. */
  lemma AuthGuard(userId: Option<string>, es: seq<Event>)
    requires userId.None? || userId == Some("")
    ensures Exchange(userId, es) == [Error(AuthRequired)]
  {
  }

  // ----- decoded events ---------------------------------------------------

  /** A content chunk extends the message and marks content as received; an
      idle worker hands it to onChunk at once, a running one queues it. */
  lemma ContentStep(s: Stream, c: string)
    requires Inv(s) && Accepting(s)
    ensures Step(s, Message(Content(c))).0.fullMessage == s.fullMessage + c
    ensures Step(s, Message(Content(c))).0.hasReceivedContent
    ensures !s.draining ==> Step(s, Message(Content(c))).1 == [Chunk(c)]
                            && Step(s, Message(Content(c))).0.queue == []
    ensures s.draining ==> Step(s, Message(Content(c))).1 == []
                           && Step(s, Message(Content(c))).0.queue == s.queue + [c]
  {
    if !s.draining {
      assert s.queue + [c] == [c];
    }
  }

  /** `begin` drops the message and everything pending but leaves the
      content flag as it was; `end` changes nothing. */
  lemma BeginEndStep(s: Stream)
    requires Accepting(s)
    ensures Step(s, Message(Begin)).0.fullMessage == "" && Step(s, Message(Begin)).0.queue == []
    ensures Step(s, Message(Begin)).0.hasReceivedContent == s.hasReceivedContent
    ensures Step(s, Message(Begin)).1 == []
    ensures Step(s, Message(End)) == (s, [])
  {
  }

  /** Tool-call and node signals only forward to their callbacks. */
  lemma SignalsOnlyForward(s: Stream, d: Decoded)
    requires Accepting(s)
    ensures d.ToolCallStart? ==> Step(s, Message(d)) == (s, [ToolStart(d.info)])
    ensures d.ToolCallEnd? ==> Step(s, Message(d)) == (s, [ToolEnd(d.info)])
    ensures d.NodeExecute? ==> Step(s, Message(d)) == (s, [Node(d.nodeName, d.phase)])
  {
  }

  /** A parse failure, a null payload or an error-typed signal fires
      onError once and closes the connection. */
  lemma FailureStep(s: Stream, p: Payload)
    requires Accepting(s)
    requires DecodePayload(p).Unparsable? || DecodePayload(p).Failure?
    ensures Step(s, Received(p)).0 == s.(closed := true)
    ensures DecodePayload(p).Unparsable? ==> Step(s, Received(p)).1 == [Error(ParseFailed)]
    ensures DecodePayload(p).Failure? ==> Step(s, Received(p)).1 == [Error(DecodePayload(p).message)]
    ensures p == Parsed(JNull) || p == Malformed ==> Step(s, Received(p)).1 == [Error(ParseFailed)]
  {
  }

  // ----- the transport error ---------------------------------------------

  /** The three meanings of the transport's error notification. */
  lemma TransportErrorMeaning(s: Stream)
    requires Accepting(s)
    ensures s.hasReceivedContent && s.fullMessage != "" ==>
              Step(s, TransportError) == (s.(completing := true), [])
    ensures s.hasReceivedContent && s.fullMessage == "" ==>
              Step(s, TransportError) == (s.(closed := true), [Error(EmptyResponse)])
    ensures !s.hasReceivedContent ==>
              Step(s, TransportError) == (s.(closed := true), [Error(ConnectionLost)])
  {
  }

  /** onComplete fires only from the completion poll, only when nothing is
      pending and the worker has stopped, with the whole non-empty
      message, after content was received; afterwards the exchange is
      over. */
  lemma CompleteOnlyWhenDrained(s: Stream, e: Event, m: string)
    requires Inv(s)
    requires Complete(m) in Step(s, e).1
    ensures e == PollTimer && s.completing
    ensures s.queue == [] && !s.draining
    ensures m == s.fullMessage && m != "" && s.hasReceivedContent
    ensures Finished(Step(s, e).0)
  {
  }

  function Terminals(outs: seq<Output>): nat {
    if |outs| == 0 then 0
    else (if outs[0].Complete? || outs[0].Error? then 1 else 0) + Terminals(outs[1..])
  }

  lemma {:induction false} TerminalsAppend(a: seq<Output>, b: seq<Output>)
    ensures Terminals(a + b) == Terminals(a) + Terminals(b)
  {
    if |a| > 0 {
      assert (a + b)[1..] == a[1..] + b;
      TerminalsAppend(a[1..], b);
    } else {
      assert a + b == b;
    }
  }

  lemma ChunksNotTerminal(texts: seq<string>)
    ensures Terminals(ChunksOf(texts)) == 0
  {
    if |texts| > 0 {
      assert ChunksOf(texts)[1..] == ChunksOf(texts[1..]);
      ChunksNotTerminal(texts[1..]);
    }
  }

  /** A step emits at most one completion or error, and a step that emits
      one leaves the exchange finished. */
  lemma {:induction false} StepTerminal(s: Stream, e: Event)
    ensures Terminals(Step(s, e).1) <= 1
    ensures Terminals(Step(s, e).1) == 1 ==> Finished(Step(s, e).0)
    ensures Finished(s) ==> Finished(Step(s, e).0) && Terminals(Step(s, e).1) == 0
  {
    match e
    case Message(d) =>
      if Accepting(s) {
        match d
        case Content(c) =>
          var s1 := s.(fullMessage := s.fullMessage + c, hasReceivedContent := true);
          if !s1.draining {
            ChunksNotTerminal(Burst(s1.queue + [c]).0);
          }
        case _ =>
      }
    case TypingTimer =>
      if s.draining && s.queue != [] {
        ChunksNotTerminal(Burst(s.queue).0);
      }
    case _ =>
  }

  /** Once finished, an exchange emits no completion or error. */
  lemma {:induction false} FinishedStaysSilent(s: Stream, es: seq<Event>)
    requires Finished(s)
    ensures Terminals(Run(s, es).1) == 0
    decreases |es|
  {
    if |es| > 0 {
      StepTerminal(s, es[0]);
      FinishedStaysSilent(Step(s, es[0]).0, es[1..]);
      TerminalsAppend(Step(s, es[0]).1, Run(Step(s, es[0]).0, es[1..]).1);
    }
  }

  /** Whatever the events, an exchange ends with at most one callback among
      onComplete and onError. */
  lemma {:induction false} AtMostOneTerminal(s: Stream, es: seq<Event>)
    ensures Terminals(Run(s, es).1) <= 1
    decreases |es|
  {
    if |es| > 0 {
      var first := Step(s, es[0]);
      StepTerminal(s, es[0]);
      TerminalsAppend(first.1, Run(first.0, es[1..]).1);
      if Terminals(first.1) == 1 {
        FinishedStaysSilent(first.0, es[1..]);
      } else {
        AtMostOneTerminal(first.0, es[1..]);
      }
    }
  }

  // ----- queue order -------------------------------------------------------

  predicate IsBegin(e: Event) {
    e == Message(Begin)
  }

  /** The content chunk a step accepts into the message and the queue. */
  function AcceptedBy(s: Stream, e: Event): seq<string> {
    if Accepting(s) && e.Message? && e.decoded.Content?
    then [e.decoded.chunk] else []
  }

  /** The content chunks accepted along a run, in arrival order. */
  function Accepted(s: Stream, es: seq<Event>): seq<string>
    decreases |es|
  {
    if |es| == 0 then []
    else AcceptedBy(s, es[0]) + Accepted(Step(s, es[0]).0, es[1..])
  }

  /** Per step: what is handed to onChunk followed by what is still pending
      equals what was pending followed by what arrived; the message grows
      by exactly the arrival. */
  lemma {:induction false} StepFifo(s: Stream, e: Event)
    requires Inv(s) && !IsBegin(e)
    ensures Delivered(Step(s, e).1) + Step(s, e).0.queue == s.queue + AcceptedBy(s, e)
    ensures Step(s, e).0.fullMessage == s.fullMessage + Concat(AcceptedBy(s, e))
  {
    match e
    case Message(d) =>
      if Accepting(s) {
        match d
        case Content(c) => ContentFifo(s, c);
        case Begin => assert false;
        case _ =>
      }
    case TypingTimer => TypingFifo(s);
    case _ =>
  }

  lemma ContentFifo(s: Stream, c: string)
    requires Inv(s) && Accepting(s)
    ensures var e := Message(Content(c));
            && Delivered(Step(s, e).1) + Step(s, e).0.queue == s.queue + AcceptedBy(s, e)
            && Step(s, e).0.fullMessage == s.fullMessage + Concat(AcceptedBy(s, e))
  {
    var q := s.queue + [c];
    assert Concat([c]) == c;
    if !s.draining {
      DeliveredChunks(Burst(q).0);
    }
  }

  lemma TypingFifo(s: Stream)
    requires Inv(s)
    ensures Delivered(Step(s, TypingTimer).1) + Step(s, TypingTimer).0.queue == s.queue + AcceptedBy(s, TypingTimer)
    ensures Step(s, TypingTimer).0.fullMessage == s.fullMessage + Concat(AcceptedBy(s, TypingTimer))
  {
    if s.draining && s.queue != [] {
      DeliveredChunks(Burst(s.queue).0);
    }
  }

  /** Without a `begin`, the queue hands every accepted chunk to onChunk
      exactly once and in arrival order: what was delivered followed by
      what is still pending is what was pending followed by what arrived,
      and the message is extended by exactly those chunks. */
  lemma {:induction false} QueueFifo(s: Stream, es: seq<Event>)
    requires Inv(s)
    requires forall i :: 0 <= i < |es| ==> !IsBegin(es[i])
    ensures Delivered(Run(s, es).1) + Run(s, es).0.queue == s.queue + Accepted(s, es)
    ensures Run(s, es).0.fullMessage == s.fullMessage + Concat(Accepted(s, es))
    decreases |es|
  {
    if |es| > 0 {
      var first := Step(s, es[0]);
      var rest := Run(first.0, es[1..]);
      var a1 := AcceptedBy(s, es[0]);
      var a2 := Accepted(first.0, es[1..]);
      assert Run(s, es) == (rest.0, first.1 + rest.1);
      assert Accepted(s, es) == a1 + a2;
      StepFifo(s, es[0]);
      StepInv(s, es[0]);
      QueueFifo(first.0, es[1..]);
      DeliveredAppend(first.1, rest.1);
      ConcatAppend(a1, a2);
      FifoCombine(Delivered(first.1), first.0.queue, Delivered(rest.1), rest.0.queue, s.queue, a1, a2);
      AppendAssoc(s.fullMessage, Concat(a1), Concat(a2));
    }
  }

  lemma AppendAssoc<T>(a: seq<T>, b: seq<T>, c: seq<T>)
    ensures (a + b) + c == a + (b + c)
  {
  }

  lemma FifoCombine<T>(d1: seq<T>, q1: seq<T>, d2: seq<T>, q2: seq<T>, base: seq<T>, a1: seq<T>, a2: seq<T>)
    requires d1 + q1 == base + a1
    requires d2 + q2 == q1 + a2
    ensures (d1 + d2) + q2 == base + (a1 + a2)
  {
    calc {
      (d1 + d2) + q2;
      d1 + (q1 + a2);
      (d1 + q1) + a2;
    }
  }

  /** The chunks a `begin` throws away: everything still pending. */
  function Dropped(s: Stream, e: Event): seq<string> {
    if Accepting(s) && IsBegin(e) then s.queue else []
  }

  /** The chunks that leave the queue in one step, in the order they
      leave: the ones a `begin` discards, then the ones handed to onChunk. */
  function LeftBy(s: Stream, e: Event): seq<string> {
    Dropped(s, e) + Delivered(Step(s, e).1)
  }

  function Left(s: Stream, es: seq<Event>): seq<string>
    decreases |es|
  {
    if |es| == 0 then []
    else LeftBy(s, es[0]) + Left(Step(s, es[0]).0, es[1..])
  }

  /** The chunks discarded by `begin` along a run. */
  function Discarded(s: Stream, es: seq<Event>): seq<string>
    decreases |es|
  {
    if |es| == 0 then []
    else Dropped(s, es[0]) + Discarded(Step(s, es[0]).0, es[1..])
  }

  /** Per step, `begin` included: what leaves the queue followed by what
      is still pending is what was pending followed by what arrived. */
  lemma {:induction false} StepLedger(s: Stream, e: Event)
    requires Inv(s)
    ensures LeftBy(s, e) + Step(s, e).0.queue == s.queue + AcceptedBy(s, e)
  {
    if IsBegin(e) {
      assert Step(s, e).1 == [];
      assert AcceptedBy(s, e) == [];
      if Accepting(s) {
        assert Step(s, e).0.queue == [];
      }
    } else {
      StepFifo(s, e);
    }
  }

  /** Over any run, `begin` included, the queue is first in, first out:
      every pending or accepted chunk leaves exactly once and in arrival
      order, handed to onChunk unless a `begin` discards it first, or it
      is still pending at the end. */
  lemma {:induction false} QueueLedger(s: Stream, es: seq<Event>)
    requires Inv(s)
    ensures Left(s, es) + Run(s, es).0.queue == s.queue + Accepted(s, es)
    decreases |es|
  {
    if |es| > 0 {
      var first := Step(s, es[0]);
      var a1 := AcceptedBy(s, es[0]);
      var a2 := Accepted(first.0, es[1..]);
      assert Run(s, es).0 == Run(first.0, es[1..]).0;
      assert Accepted(s, es) == a1 + a2;
      StepLedger(s, es[0]);
      StepInv(s, es[0]);
      QueueLedger(first.0, es[1..]);
      FifoCombine(LeftBy(s, es[0]), first.0.queue, Left(first.0, es[1..]), Run(s, es).0.queue, s.queue, a1, a2);
    }
  }

  /** What leaves the queue is exactly what onChunk received and what
      `begin` discarded. */
  lemma {:induction false} LeftIsDeliveredOrDiscarded(s: Stream, es: seq<Event>)
    ensures multiset(Left(s, es)) == multiset(Delivered(Run(s, es).1)) + multiset(Discarded(s, es))
    decreases |es|
  {
    if |es| > 0 {
      var first := Step(s, es[0]);
      var rest := Run(first.0, es[1..]);
      assert Run(s, es).1 == first.1 + rest.1;
      DeliveredAppend(first.1, rest.1);
      LeftIsDeliveredOrDiscarded(first.0, es[1..]);
    }
  }

  /** Each chunk, whether pending at the start or accepted during the
      run, is exactly once either handed to onChunk, discarded by a
      `begin`, or still pending. */
  lemma EveryChunkOnce(s: Stream, es: seq<Event>)
    requires Inv(s)
    ensures multiset(Delivered(Run(s, es).1)) + multiset(Discarded(s, es)) + multiset(Run(s, es).0.queue)
            == multiset(s.queue) + multiset(Accepted(s, es))
  {
    QueueLedger(s, es);
    LeftIsDeliveredOrDiscarded(s, es);
    assert multiset(Left(s, es) + Run(s, es).0.queue) == multiset(s.queue + Accepted(s, es));
  }

  /** Without a `begin` nothing is discarded. */
  lemma {:induction false} NoBeginNoDiscard(s: Stream, es: seq<Event>)
    requires forall i :: 0 <= i < |es| ==> !IsBegin(es[i])
    ensures Discarded(s, es) == []
    ensures Left(s, es) == Delivered(Run(s, es).1)
    decreases |es|
  {
    if |es| > 0 {
      var first := Step(s, es[0]);
      var rest := Run(first.0, es[1..]);
      assert forall i :: 0 <= i < |es[1..]| ==> !IsBegin(es[1..][i]);
      NoBeginNoDiscard(first.0, es[1..]);
      assert Dropped(s, es[0]) == [];
      assert Discarded(s, es) == Discarded(first.0, es[1..]);
      assert Left(s, es) == Delivered(first.1) + Left(first.0, es[1..]);
      assert Run(s, es).1 == first.1 + rest.1;
      DeliveredAppend(first.1, rest.1);
    }
  }

  /** A stream that never accepts content never completes: only the
      error paths remain. */
  lemma {:induction false} NoContentNoComplete(s: Stream, es: seq<Event>)
    requires Inv(s) && !s.hasReceivedContent
    requires Accepted(s, es) == []
    ensures forall i :: 0 <= i < |Run(s, es).1| ==> !Run(s, es).1[i].Complete?
    decreases |es|
  {
    if |es| > 0 {
      var first := Step(s, es[0]);
      StepInv(s, es[0]);
      assert AcceptedBy(s, es[0]) == [];
      assert !first.0.hasReceivedContent;
      forall i | 0 <= i < |first.1| ensures !first.1[i].Complete? {
        if first.1[i].Complete? {
          CompleteOnlyWhenDrained(s, es[0], first.1[i].fullMessage);
        }
      }
      NoContentNoComplete(first.0, es[1..]);
      var rest := Run(first.0, es[1..]);
      assert Run(s, es).1 == first.1 + rest.1;
    }
  }

  // ----- scenarios ------------------------------------------------------------

  function ItemMsg(t: string): Event {
    Received(Parsed(Encode(Item, t)))
  }

  /** Two chunks, the end of the stream, the worker finishing its queue,
      then the poll: both chunks reach onChunk in order and onComplete
      receives their concatenation. */
  lemma HappyPath(a: string, b: string)
    requires a != "" && b != ""
    ensures Run(Initial, [ItemMsg(a), ItemMsg(b), TransportError, TypingTimer, TypingTimer, PollTimer]).1
            == [Chunk(a), Chunk(b), Complete(a + b)]
  {
    ItemIsContent(a);
    ItemIsContent(b);
    TwoChunks(a, b);
  }

  lemma ItemIsContent(t: string)
    requires t != ""
    ensures ItemMsg(t) == Message(Content(t))
  {
    EncodeDecode(Item, t);
  }

  lemma TwoChunks(a: string, b: string)
    requires a != "" && b != ""
    ensures Run(Initial, [Message(Content(a)), Message(Content(b)), TransportError, TypingTimer, TypingTimer, PollTimer]).1
            == [Chunk(a), Chunk(b), Complete(a + b)]
  {
    var es := [Message(Content(a)), Message(Content(b)), TransportError, TypingTimer, TypingTimer, PollTimer];
    var s1 := Stream(a, true, [], true, false, false);
    var s2 := Stream(a + b, true, [b], true, false, false);
    var s3 := s2.(completing := true);
    var s4 := s3.(queue := []);
    var s5 := s4.(draining := false);
    FirstChunk(a);
    SecondChunk(a, b);
    LastSteps(a + b, b);
    assert es[5..] == [PollTimer] && es[5..][1..] == [];
    RunFirst(s5, es[5..]);
    RunFirst(s4, es[4..]);
    RunFirst(s3, es[3..]);
    RunFirst(s2, es[2..]);
    RunFirst(s1, es[1..]);
    RunFirst(Initial, es);
  }

  /** The end of the stream with content in hand waits for the worker,
      which delivers the last chunk, stops, and lets the poll complete. */
  lemma LastSteps(m: string, b: string)
    requires m != ""
    ensures var s2 := Stream(m, true, [b], true, false, false);
            var s3 := s2.(completing := true);
            var s4 := s3.(queue := []);
            var s5 := s4.(draining := false);
            && Step(s2, TransportError) == (s3, [])
            && Step(s3, TypingTimer) == (s4, [Chunk(b)])
            && Step(s4, TypingTimer) == (s5, [])
            && Step(s5, PollTimer) == (s5.(completing := false, closed := true), [Complete(m)])
  {
    assert Burst([b]) == ([b], []);
    assert ChunksOf([b]) == [Chunk(b)];
  }

  lemma RunFirst(s: Stream, es: seq<Event>)
    requires |es| > 0
    ensures var first := Step(s, es[0]);
            Run(s, es) == (Run(first.0, es[1..]).0, first.1 + Run(first.0, es[1..]).1)
  {
  }

  /** The first chunk finds the worker idle and goes out at once. */
  lemma FirstChunk(a: string)
    ensures Step(Initial, Message(Content(a))) == (Stream(a, true, [], true, false, false), [Chunk(a)])
  {
    assert Initial.queue + [a] == [a];
    assert "" + a == a;
    assert Burst([a]) == ([a], []);
    assert ChunksOf([a]) == [Chunk(a)];
  }

  /** The second finds it waiting out its delay and is queued. */
  lemma SecondChunk(a: string, b: string)
    ensures Step(Stream(a, true, [], true, false, false), Message(Content(b))) == (Stream(a + b, true, [b], true, false, false), [])
  {
    assert [] + [b] == [b];
  }

  /** A chunk of "" is not content (the empty string is falsy), so a
      following end of the connection reads as 'Connection lost', not as
      an empty response. */
  lemma EmptyStringChunkIsConnectionLost()
    ensures Run(Initial, [ItemMsg(""), TransportError]).1 == [Error(ConnectionLost)]
  {
    EmptyItemIsNoContent();
    var es := [ItemMsg(""), TransportError];
    RunFirst(Initial, es);
    RunFirst(Initial, es[1..]);
  }

  lemma EmptyItemIsNoContent()
    ensures ItemMsg("") == Message(Unrecognized)
  {
    var d := Encode(Item, "");
    EmptyItemHasNoShape();
    assert ContentValue(d) == None;
    assert EventType(d) == None;
    assert Field(d, "type") == Some(JStr("item"));
  }

  lemma EmptyItemHasNoShape()
    ensures FirstShape(Encode(Item, "")) == None
  {
    var d := Encode(Item, "");
    assert Field(d, "event") == None;
    assert Field(d, "content") == Some(JStr(""));
  }
}
