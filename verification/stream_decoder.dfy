/** The payload classifier of `streamChatResponse` (src/lib/api/chat.ts):
    one server-sent event's data, already parsed, becomes a content chunk, a
    control signal, or nothing. Content is looked for first, through seven
    shapes tried in a fixed order; the first shape whose guard holds picks
    the extractor even when that extractor then finds nothing. Only when
    no content results are the control signals consulted. */
module StreamDecoder {
  import opened Common
  import opened Json

  /** What the optional tool-call callbacks receive. The values are the raw
      JSON values of the payload, since the source passes them on as found. */
  datatype ToolCallInfo = ToolCallInfo(name: Json, description: Option<Json>, nodeType: Option<Json>)

  datatype NodePhase = Before | After

  /** One event's data after `JSON.parse`, or text that failed to parse. */
  datatype Payload = Parsed(json: Json) | Malformed

  /** The classification of one payload. */
  datatype Decoded =
    | Content(chunk: string)
    | End
    | Begin
    | Failure(message: string)
    | ToolCallStart(info: ToolCallInfo)
    | ToolCallEnd(info: ToolCallInfo)
    | NodeExecute(nodeName: Json, phase: NodePhase)
    | Unrecognized
      /** Parsing failed, or the handler threw before any callback. */
    | Unparsable

  /** The seven content-bearing shapes, in the order they are tried. */
  datatype Shape =
    | EventEnvelope  // {event: {type: 'text_message_content', data: {content}}}
    | Item           // {type: 'item', content}
    | ChunkOrData    // {type: 'chunk' | 'data', data: string | {content}}
    | MessageField   // {message: string}
    | TextField      // {text: string}
    | OutputField    // {output: string}
    | ContentField   // {content: string}

  function EventType(data: Json): Option<Json> {
    OptField(Field(data, "event"), "type")
  }

  /** `data.event?.data?.key` */
  function EventData(data: Json, key: string): Option<Json> {
    OptField(OptField(Field(data, "event"), "data"), key)
  }

  /** A top-level field that is truthy and a string. */
  predicate StringField(data: Json, key: string) {
    Truthy(Field(data, key)) && Field(data, key).value.JStr?
  }

  /** The guard of each shape. */
  predicate Matches(data: Json, shape: Shape) {
    match shape
    case EventEnvelope =>
      IsString(EventType(data), "text_message_content") && Truthy(EventData(data, "content"))
    case Item =>
      IsString(Field(data, "type"), "item") && Truthy(Field(data, "content"))
    case ChunkOrData =>
      (IsString(Field(data, "type"), "chunk") || IsString(Field(data, "type"), "data"))
      && Truthy(Field(data, "data"))
    case MessageField => StringField(data, "message")
    case TextField => StringField(data, "text")
    case OutputField => StringField(data, "output")
    case ContentField => StringField(data, "content")
  }

  /** The value each shape's extractor picks; for a chunk/data payload it is
      the string itself or, for a non-string, its `content` property. */
  function Extract(data: Json, shape: Shape): Option<Json>
    requires Matches(data, shape)
  {
    match shape
    case EventEnvelope => EventData(data, "content")
    case Item => Field(data, "content")
    case ChunkOrData =>
      var d := Field(data, "data").value;
      if d.JStr? then Some(d) else Field(d, "content")
    case MessageField => Field(data, "message")
    case TextField => Field(data, "text")
    case OutputField => Field(data, "output")
    case ContentField => Field(data, "content")
  }

  /** Position of each shape in the order the source tries them. */
  function Rank(shape: Shape): nat {
    match shape
    case EventEnvelope => 0
    case Item => 1
    case ChunkOrData => 2
    case MessageField => 3
    case TextField => 4
    case OutputField => 5
    case ContentField => 6
  }

  /** The first shape, in source order, whose guard holds. */
  function FirstShape(data: Json): (r: Option<Shape>)
    ensures r.Some? ==> Matches(data, r.value)
    ensures r.Some? ==> forall sh :: Rank(sh) < Rank(r.value) ==> !Matches(data, sh)
    ensures r.None? <==> forall sh :: !Matches(data, sh)
  {
    if Matches(data, EventEnvelope) then Some(EventEnvelope)
    else if Matches(data, Item) then Some(Item)
    else if Matches(data, ChunkOrData) then Some(ChunkOrData)
    else if Matches(data, MessageField) then Some(MessageField)
    else if Matches(data, TextField) then Some(TextField)
    else if Matches(data, OutputField) then Some(OutputField)
    else if Matches(data, ContentField) then Some(ContentField)
    else None
  }

  /** An object with none of the keys the content shapes read holds no
      content. */
  lemma NoContentKeys(f: map<string, Json>)
    requires "event" !in f && "content" !in f && "data" !in f
    requires "message" !in f && "text" !in f && "output" !in f
    ensures FirstShape(JObj(f)) == None
  {
    var d := JObj(f);
    assert Field(d, "event") == None;
  }

  /** `contentChunk` after the if/else-if chain: the value selected by the
      first matching shape, possibly undefined or falsy. */
  function ContentValue(data: Json): Option<Json> {
    match FirstShape(data)
    case None => None
    case Some(sh) => Extract(data, sh)
  }

  /** `data.type === t || data.event?.type === t` */
  predicate Signal(data: Json, t: string) {
    IsString(Field(data, "type"), t) || IsString(EventType(data), t)
  }

  /** The text of `new Error(data.message || data.event?.data?.message || 'Streaming error')`. */
  function ErrorText(data: Json): (m: string)
    ensures Truthy(Field(data, "message")) ==> m == ToJsString(Field(data, "message").value)
    ensures !Truthy(Field(data, "message")) && Truthy(EventData(data, "message"))
            ==> m == ToJsString(EventData(data, "message").value)
    ensures !Truthy(Field(data, "message")) && !Truthy(EventData(data, "message")) ==> m == "Streaming error"
  {
    var v := Or(Field(data, "message"), EventData(data, "message"));
    if Truthy(v) then ToJsString(v.value) else "Streaming error"
  }

  /** `a || b || 'fallback'` — never falsy. */
  function OrDefault(a: Option<Json>, b: Option<Json>, fallback: string): (r: Json)
    requires fallback != ""
    ensures Truthy(Some(r))
    ensures Truthy(a) ==> r == a.value
    ensures !Truthy(a) && Truthy(b) ==> r == b.value
    ensures !Truthy(a) && !Truthy(b) ==> r == JStr(fallback)
  {
    var v := Or(a, b);
    if Truthy(v) then v.value else JStr(fallback)
  }

  function ToolInfo(data: Json): ToolCallInfo {
    ToolCallInfo(
      OrDefault(Field(data, "name"), EventData(data, "name"), "Tool"),
      Or(Field(data, "description"), EventData(data, "description")),
      Or(Field(data, "nodeType"), EventData(data, "nodeType")))
  }

  function NodeName(data: Json): Json {
    OrDefault(Field(data, "nodeName"), EventData(data, "nodeName"), "Node")
  }

  /** The control signals in the order the handler tests them. */
  const SignalOrder: seq<string> :=
    ["end", "begin", "error", "tool-call-start", "tool-call-end", "node-execute-before", "node-execute-after"]

  /** The position of the first signal, in handler order, that the payload
      carries, searching from position `i`. */
  function FirstSignalFrom(data: Json, i: nat): (r: Option<nat>)
    requires i <= |SignalOrder|
    ensures r.Some? ==> i <= r.value < |SignalOrder| && Signal(data, SignalOrder[r.value])
    ensures r.Some? ==> forall k :: i <= k < r.value ==> !Signal(data, SignalOrder[k])
    ensures r.None? <==> forall k :: i <= k < |SignalOrder| ==> !Signal(data, SignalOrder[k])
    decreases |SignalOrder| - i
  {
    if i == |SignalOrder| then None
    else if Signal(data, SignalOrder[i]) then Some(i)
    else FirstSignalFrom(data, i + 1)
  }

  function FirstSignal(data: Json): (r: Option<nat>)
    ensures r.Some? ==> r.value < |SignalOrder| && Signal(data, SignalOrder[r.value])
    ensures r.Some? ==> forall k :: 0 <= k < r.value ==> !Signal(data, SignalOrder[k])
    ensures r.None? <==> forall k :: 0 <= k < |SignalOrder| ==> !Signal(data, SignalOrder[k])
  {
    FirstSignalFrom(data, 0)
  }

  /** A payload that is not null and selects no truthy content: the one
      the signal chain looks at. */
  predicate NoContent(data: Json) {
    data != JNull && !Truthy(ContentValue(data))
  }

  /** Building the error's text throws: the message found is a value that
      cannot be printed. */
  predicate ErrorTextThrows(data: Json) {
    var v := Or(Field(data, "message"), EventData(data, "message"));
    Truthy(v) && PrintThrows(v.value)
  }

  /** What each control signal, found at position `k` of `SignalOrder`,
      makes of a payload without content: the error signal builds its
      message (which may throw), the tool and node signals carry their
      names, and no signal at all leaves the payload unrecognised. */
  function SignalResult(data: Json, k: Option<nat>): (r: Decoded)
    ensures !r.Content?
    ensures r == Unrecognized <==> k.None? || k.value >= |SignalOrder|
  {
    match k
    case None => Unrecognized
    case Some(i) =>
      if i == 0 then End
      else if i == 1 then Begin
      else if i == 2 then (if ErrorTextThrows(data) then Unparsable else Failure(ErrorText(data)))
      else if i == 3 then ToolCallStart(ToolInfo(data))
      else if i == 4 then ToolCallEnd(ToolInfo(data))
      else if i == 5 then NodeExecute(NodeName(data), Before)
      else if i == 6 then NodeExecute(NodeName(data), After)
      else Unrecognized
  }

  /** The body of `eventSource.onmessage` up to the callbacks. Whatever
      throws inside the handler lands in its catch, which reports the
      parse failure: a JSON null payload (its first property read), a
      content value that cannot be appended to the message, and an error
      message that cannot be printed. Truthy content outranks every
      control signal, and among the signals the first one in
      `SignalOrder` decides. */
  function Decode(data: Json): (r: Decoded)
    ensures data == JNull ==> r == Unparsable
    ensures r.Content? <==> data != JNull && Truthy(ContentValue(data)) && !PrintThrows(ContentValue(data).value)
    ensures r.Content? ==> r.chunk == ToJsString(ContentValue(data).value)
    ensures data != JNull && Truthy(ContentValue(data)) && PrintThrows(ContentValue(data).value) ==> r == Unparsable
    ensures NoContent(data) ==> r == SignalResult(data, FirstSignal(data))
  {
    if data == JNull then Unparsable
    else
      var c := ContentValue(data);
      if Truthy(c) then
        if PrintThrows(c.value) then Unparsable else Content(ToJsString(c.value))
      else if Signal(data, "end") then End
      else if Signal(data, "begin") then Begin
      else if Signal(data, "error") then
        if ErrorTextThrows(data) then Unparsable else Failure(ErrorText(data))
      else if Signal(data, "tool-call-start") then ToolCallStart(ToolInfo(data))
      else if Signal(data, "tool-call-end") then ToolCallEnd(ToolInfo(data))
      else if Signal(data, "node-execute-before") then NodeExecute(NodeName(data), Before)
      else if Signal(data, "node-execute-after") then NodeExecute(NodeName(data), After)
      else Unrecognized
  }

  function DecodePayload(p: Payload): (r: Decoded)
    ensures p.Malformed? ==> r.Unparsable?
  {
    match p
    case Malformed => Unparsable
    case Parsed(j) => Decode(j)
  }

  /** The canonical payload of each shape carrying the text `t`. */
  function Encode(shape: Shape, t: string): Json {
    match shape
    case EventEnvelope =>
      JObj(map["event" := JObj(map["type" := JStr("text_message_content"),
                                   "data" := JObj(map["content" := JStr(t)])])])
    case Item => JObj(map["type" := JStr("item"), "content" := JStr(t)])
    case ChunkOrData => JObj(map["type" := JStr("chunk"), "data" := JStr(t)])
    case MessageField => JObj(map["type" := JStr("message"), "message" := JStr(t)])
    case TextField => JObj(map["type" := JStr("text"), "text" := JStr(t)])
    case OutputField => JObj(map["type" := JStr("output"), "output" := JStr(t)])
    case ContentField => JObj(map["type" := JStr("content"), "content" := JStr(t)])
  }

  /** Every shape delivers the same non-empty text as the same chunk, and
      is recognised as that very shape. */
  lemma {:induction false} EncodeDecode(shape: Shape, t: string)
    requires t != ""
    ensures FirstShape(Encode(shape, t)) == Some(shape)
    ensures Decode(Encode(shape, t)) == Content(t)
  {
    match shape {
      case EventEnvelope => EncodedEventEnvelope(t);
      case Item => EncodedItem(t);
      case ChunkOrData => EncodedChunkOrData(t);
      case MessageField => EncodedMessageField(t);
      case TextField => EncodedTextField(t);
      case OutputField => EncodedOutputField(t);
      case ContentField => EncodedContentField(t);
    }
  }

  lemma EncodedEventEnvelope(t: string)
    requires t != ""
    ensures FirstShape(Encode(EventEnvelope, t)) == Some(EventEnvelope)
    ensures Decode(Encode(EventEnvelope, t)) == Content(t)
  {
    var d := Encode(EventEnvelope, t);
    assert Matches(d, EventEnvelope);
  }

  lemma EncodedItem(t: string)
    requires t != ""
    ensures FirstShape(Encode(Item, t)) == Some(Item)
    ensures Decode(Encode(Item, t)) == Content(t)
  {
    var d := Encode(Item, t);
    assert Field(d, "event") == None;
    assert Matches(d, Item);
  }

  lemma EncodedChunkOrData(t: string)
    requires t != ""
    ensures FirstShape(Encode(ChunkOrData, t)) == Some(ChunkOrData)
    ensures Decode(Encode(ChunkOrData, t)) == Content(t)
  {
    var d := Encode(ChunkOrData, t);
    assert Field(d, "event") == None;
    assert Field(d, "type") == Some(JStr("chunk"));
    assert Matches(d, ChunkOrData);
  }

  lemma EncodedMessageField(t: string)
    requires t != ""
    ensures FirstShape(Encode(MessageField, t)) == Some(MessageField)
    ensures Decode(Encode(MessageField, t)) == Content(t)
  {
    var d := Encode(MessageField, t);
    assert Field(d, "event") == None;
    assert Field(d, "type") == Some(JStr("message"));
    assert Matches(d, MessageField);
  }

  lemma EncodedTextField(t: string)
    requires t != ""
    ensures FirstShape(Encode(TextField, t)) == Some(TextField)
    ensures Decode(Encode(TextField, t)) == Content(t)
  {
    var d := Encode(TextField, t);
    assert Field(d, "event") == None && Field(d, "message") == None;
    assert Field(d, "type") == Some(JStr("text"));
    assert Matches(d, TextField);
  }

  lemma EncodedOutputField(t: string)
    requires t != ""
    ensures FirstShape(Encode(OutputField, t)) == Some(OutputField)
    ensures Decode(Encode(OutputField, t)) == Content(t)
  {
    var d := Encode(OutputField, t);
    assert Field(d, "event") == None && Field(d, "message") == None && Field(d, "text") == None;
    assert Field(d, "type") == Some(JStr("output"));
    assert Matches(d, OutputField);
  }

  lemma EncodedContentField(t: string)
    requires t != ""
    ensures FirstShape(Encode(ContentField, t)) == Some(ContentField)
    ensures Decode(Encode(ContentField, t)) == Content(t)
  {
    var d := Encode(ContentField, t);
    assert Field(d, "event") == None && Field(d, "message") == None && Field(d, "text") == None;
    assert Field(d, "output") == None;
    assert Field(d, "type") == Some(JStr("content"));
    assert Matches(d, ContentField);
  }

  /** A payload typed 'error' that carries a non-empty string `message` is
      content, not an error: the content shapes are tried first. */
  lemma ErrorTypedMessageIsContent(m: string)
    requires m != ""
    ensures Decode(JObj(map["type" := JStr("error"), "message" := JStr(m)])) == Content(m)
  {
    var d := JObj(map["type" := JStr("error"), "message" := JStr(m)]);
    assert Field(d, "event") == None;
    assert Field(d, "type") == Some(JStr("error"));
    assert Matches(d, MessageField);
  }

  /** A chunk/data payload whose `data` is an object without `content`
      selects the third extractor, which yields nothing; the later shapes
      are never tried, so whatever `message`, `text`, `output` or `content`
      it carries, it is not content (and, typed 'chunk' or 'data', it is
      no control signal either). */
  lemma {:induction false} ChunkShapeBlocksLaterShapes(f: map<string, Json>)
    requires "event" !in f
    requires "type" in f && f["type"] in {JStr("chunk"), JStr("data")}
    requires "data" in f && f["data"].JObj? && "content" !in f["data"].fields
    ensures FirstShape(JObj(f)) == Some(ChunkOrData)
    ensures Decode(JObj(f)) == Unrecognized
  {
    var d := JObj(f);
    assert Field(d, "event") == None;
    assert Matches(d, ChunkOrData);
    assert ContentValue(d) == None;
    assert forall k :: 0 <= k < |SignalOrder| ==> !Signal(d, SignalOrder[k]);
  }

  /** A chunk decoded from a string value is never empty; the only way to
      get an empty chunk is a truthy array that prints as nothing. */
  lemma EmptyStringNeverContent(data: Json)
    requires Decode(data).Content?
    ensures Decode(data).chunk != "" || ContentValue(data).value.JArr?
    ensures ContentValue(data).value.JStr? ==> Decode(data).chunk != ""
  {
    var v := ContentValue(data).value;
    if !v.JArr? {
      TruthyNonArrayPrintsSomething(v);
    }
  }

  /** `{type: 'item', content: []}` is content whose chunk is empty. */
  lemma EmptyArrayIsEmptyContent()
    ensures Decode(JObj(map["type" := JStr("item"), "content" := JArr([])])) == Content("")
  {
    var d := JObj(map["type" := JStr("item"), "content" := JArr([])]);
    assert Field(d, "event") == None;
    assert Field(d, "type") == Some(JStr("item"));
    assert Matches(d, Item);
  }

  /** A value whose own `toString` key is not a function cannot be printed.
      As content it makes `fullMessage += contentChunk` throw, which the
      catch reports as the parse failure. */
  lemma UnprintableContentFailsToParse()
    ensures Decode(JObj(map["type" := JStr("item"), "content" := JObj(map["toString" := JNum(1)])])) == Unparsable
  {
    var d := JObj(map["type" := JStr("item"), "content" := JObj(map["toString" := JNum(1)])]);
    assert Field(d, "event") == None;
    assert Field(d, "type") == Some(JStr("item"));
    assert Matches(d, Item);
  }

  /** As (part of) an error message it makes `new Error(...)` throw, with
      the same outcome. */
  lemma UnprintableErrorFailsToParse()
    ensures Decode(JObj(map["type" := JStr("error"), "message" := JArr([JObj(map["toString" := JNum(1)])])])) == Unparsable
  {
    var e := JObj(map["type" := JStr("error"), "message" := JArr([JObj(map["toString" := JNum(1)])])]);
    UnprintableErrorPayload();
    ErrorSignalFirst(e);
  }

  lemma UnprintableErrorPayload()
    ensures var e := JObj(map["type" := JStr("error"), "message" := JArr([JObj(map["toString" := JNum(1)])])]);
            && FirstShape(e) == None && Signal(e, "error") && !Signal(e, "end") && !Signal(e, "begin")
            && ErrorTextThrows(e)
  {
    var bad := JObj(map["toString" := JNum(1)]);
    var e := JObj(map["type" := JStr("error"), "message" := JArr([bad])]);
    assert PrintThrows(JArr([bad])) by {
      assert PrintThrows(JArr([bad]).elems[0]);
    }
    NoContentKeys(map["type" := JStr("error")]);
    assert Field(e, "event") == None && Field(e, "type") == Some(JStr("error"));
    assert !StringField(e, "message");
  }

  /** Reading a decoded signal back: every callback result comes from a
      payload without content whose type names that signal, ahead of the
      signals tested before it, and carries what the payload says. */
  lemma DecodedSignalsBack(data: Json)
    ensures Decode(data) == End ==> NoContent(data) && Signal(data, "end")
    ensures Decode(data) == Begin ==> NoContent(data) && Signal(data, "begin") && !Signal(data, "end")
    ensures Decode(data).Failure? ==>
              && NoContent(data) && Signal(data, "error") && !Signal(data, "end") && !Signal(data, "begin")
              && Decode(data).message == ErrorText(data)
    ensures Decode(data).ToolCallStart? ==>
              NoContent(data) && Signal(data, "tool-call-start") && Decode(data).info == ToolInfo(data)
    ensures Decode(data).ToolCallEnd? ==>
              NoContent(data) && Signal(data, "tool-call-end") && Decode(data).info == ToolInfo(data)
    ensures Decode(data).NodeExecute? ==>
              && NoContent(data) && Decode(data).nodeName == NodeName(data)
              && (Signal(data, "node-execute-before") || Signal(data, "node-execute-after"))
              && (Decode(data).phase == Before <==> Signal(data, "node-execute-before"))
  {
    if NoContent(data) {
      var k := FirstSignal(data);
      if k.Some? {
        SignalPositions(data, k.value);
      }
    }
  }

  /** The signal at each position and the ones tested before it. */
  lemma SignalPositions(data: Json, i: nat)
    requires i < |SignalOrder| && Signal(data, SignalOrder[i])
    requires forall k :: 0 <= k < i ==> !Signal(data, SignalOrder[k])
    ensures i == 0 ==> Signal(data, "end")
    ensures i == 1 ==> Signal(data, "begin") && !Signal(data, "end")
    ensures i == 2 ==> Signal(data, "error") && !Signal(data, "end") && !Signal(data, "begin")
    ensures i == 3 ==> Signal(data, "tool-call-start")
    ensures i == 4 ==> Signal(data, "tool-call-end")
    ensures i == 5 ==> Signal(data, "node-execute-before")
    ensures i == 6 ==> Signal(data, "node-execute-after") && !Signal(data, "node-execute-before")
  {
    if i >= 1 { assert !Signal(data, SignalOrder[0]); }
    if i >= 2 { assert !Signal(data, SignalOrder[1]); }
    if i == 6 { assert !Signal(data, SignalOrder[5]); }
  }

  /** A payload without content whose first signal sits at position `k`. */
  lemma SignalDecides(data: Json, k: nat)
    requires NoContent(data) && k < |SignalOrder| && Signal(data, SignalOrder[k])
    requires forall j :: 0 <= j < k ==> !Signal(data, SignalOrder[j])
    ensures Decode(data) == SignalResult(data, Some(k))
  {
    assert FirstSignal(data) == Some(k);
  }

  /** Error-typed signals without content: the message falls back from
      `message` to `event.data.message` to 'Streaming error'. */
  lemma ErrorSignalDefaultText()
    ensures Decode(JObj(map["type" := JStr("error")])) == Failure("Streaming error")
  {
    var f := map["type" := JStr("error")];
    NoContentKeys(f);
    assert Field(JObj(f), "type") == Some(JStr("error"));
  }

  lemma ErrorSignalNestedText(m: string)
    requires m != ""
    ensures Decode(JObj(map["event" := JObj(map["type" := JStr("error"),
              "data" := JObj(map["message" := JStr(m)])])])) == Failure(m)
  {
    var d := JObj(map["event" := JObj(map["type" := JStr("error"), "data" := JObj(map["message" := JStr(m)])])]);
    NestedErrorPayload(m);
    ErrorSignalFirst(d);
  }

  lemma NestedErrorPayload(m: string)
    requires m != ""
    ensures var d := JObj(map["event" := JObj(map["type" := JStr("error"), "data" := JObj(map["message" := JStr(m)])])]);
            && FirstShape(d) == None && Signal(d, "error") && !Signal(d, "end") && !Signal(d, "begin")
            && Field(d, "message") == None && EventData(d, "message") == Some(JStr(m))
  {
    var inner := JObj(map["type" := JStr("error"), "data" := JObj(map["message" := JStr(m)])]);
    var d := JObj(map["event" := inner]);
    assert Field(d, "event") == Some(inner);
    assert Field(inner, "type") == Some(JStr("error"));
    assert !Matches(d, EventEnvelope);
    assert Field(d, "type") == None && Field(d, "message") == None;
    assert EventData(d, "message") == Some(JStr(m));
    assert Field(d, "content") == None && Field(d, "text") == None && Field(d, "output") == None;
  }

  lemma ErrorSignalNumericText()
    ensures Decode(JObj(map["type" := JStr("error"), "message" := JNum(7)])) == Failure("7")
  {
    var d := JObj(map["type" := JStr("error"), "message" := JNum(7)]);
    NumericErrorPayload();
    ErrorSignalFirst(d);
    assert ToJsString(JNum(7)) == "7";
  }

  lemma NumericErrorPayload()
    ensures var d := JObj(map["type" := JStr("error"), "message" := JNum(7)]);
            && FirstShape(d) == None && Signal(d, "error") && !Signal(d, "end") && !Signal(d, "begin")
            && Field(d, "message") == Some(JNum(7))
  {
    var d := JObj(map["type" := JStr("error"), "message" := JNum(7)]);
    assert Field(d, "event") == None && Field(d, "content") == None && Field(d, "data") == None;
    assert Field(d, "text") == None && Field(d, "output") == None;
    assert Field(d, "type") == Some(JStr("error"));
  }

  /** A payload without content shapes whose first signal is the error
      signal decodes as that signal. */
  lemma ErrorSignalFirst(d: Json)
    requires d != JNull && FirstShape(d) == None
    requires Signal(d, "error") && !Signal(d, "end") && !Signal(d, "begin")
    ensures Decode(d) == SignalResult(d, Some(2))
  {
    SignalDecides(d, 2);
  }

  /** Tool-call and node signals without names get 'Tool' and 'Node'. */
  lemma SignalNameDefaults()
    ensures Decode(JObj(map["type" := JStr("tool-call-start")]))
            == ToolCallStart(ToolCallInfo(JStr("Tool"), None, None))
    ensures Decode(JObj(map["type" := JStr("node-execute-after")])) == NodeExecute(JStr("Node"), After)
  {
    ToolNameDefault();
    NodeNameDefault();
  }

  lemma ToolNameDefault()
    ensures Decode(JObj(map["type" := JStr("tool-call-start")]))
            == ToolCallStart(ToolCallInfo(JStr("Tool"), None, None))
  {
    var f := map["type" := JStr("tool-call-start")];
    NoContentKeys(f);
    var d := JObj(f);
    assert Field(d, "type") == Some(JStr("tool-call-start")) && Field(d, "event") == None;
    assert forall j :: 0 <= j < 3 ==> !Signal(d, SignalOrder[j]);
    SignalDecides(d, 3);
  }

  lemma NodeNameDefault()
    ensures Decode(JObj(map["type" := JStr("node-execute-after")])) == NodeExecute(JStr("Node"), After)
  {
    var f := map["type" := JStr("node-execute-after")];
    NoContentKeys(f);
    var d := JObj(f);
    assert Field(d, "type") == Some(JStr("node-execute-after")) && Field(d, "event") == None;
    assert forall j :: 0 <= j < 6 ==> !Signal(d, SignalOrder[j]);
    SignalDecides(d, 6);
  }
}
