/** What the chat's message list shows (src/components/chat/message-list.tsx):
    one bubble per message in list order, the streaming buffer inside the
    bubble of the message being streamed, and the thinking indicator. */
module MessageList {
  import opened Common
  import opened ChatStore

  /** The body of a bubble: a text, the '...' placeholder of a message
      still waiting for its first chunk, or nothing at all. */
  datatype Body = Shows(text: string) | Ellipsis | Nothing

  datatype Bubble = Bubble(messageId: string, isUser: bool, isStreaming: bool, body: Body)

  datatype View = View(bubbles: seq<Bubble>, thinking: bool)

  /** `content || (isStreaming && '...')` with content chosen by
      `isStreaming ? streamingContent : message.content`. */
  function BubbleOf(m: ChatMessage, streamingId: Option<string>, streamingContent: string): (b: Bubble)
    ensures b.messageId == m.id
    ensures b.isUser <==> m.role == USER
    ensures b.isStreaming <==> streamingId == Some(m.id)
    ensures b.isStreaming && streamingContent != "" ==> b.body == Shows(streamingContent)
    ensures b.isStreaming && streamingContent == "" ==> b.body == Ellipsis
    ensures !b.isStreaming && m.content != "" ==> b.body == Shows(m.content)
    ensures !b.isStreaming && m.content == "" ==> b.body == Nothing
  {
    var streaming := streamingId == Some(m.id);
    var content := if streaming then streamingContent else m.content;
    var body := if content != "" then Shows(content) else if streaming then Ellipsis else Nothing;
    Bubble(m.id, m.role == USER, streaming, body)
  }

  function Render(messages: seq<ChatMessage>, streamingId: Option<string>, streamingContent: string,
                  isThinking: bool): (v: View)
    ensures |v.bubbles| == |messages|
    ensures forall i :: 0 <= i < |messages| ==>
              v.bubbles[i] == BubbleOf(messages[i], streamingId, streamingContent)
    ensures v.thinking == isThinking
  {
    View(seq(|messages|, i requires 0 <= i < |messages| => BubbleOf(messages[i], streamingId, streamingContent)),
         isThinking)
  }

  /** The list as the chat store drives it. */
  function RenderStore(st: ChatState, messages: seq<ChatMessage>): View {
    Render(messages, st.streamingMessageId, st.streamingContent, st.isThinking)
  }

  /** While nothing is being streamed, every bubble shows its own message
      and the list mirrors the messages one to one, in order. */
  lemma NotStreamingShowsOwnContent(messages: seq<ChatMessage>, content: string, thinking: bool)
    ensures forall i :: 0 <= i < |messages| ==>
              var b := Render(messages, None, content, thinking).bubbles[i];
              b.messageId == messages[i].id && !b.isStreaming
              && (b.body == Shows(messages[i].content) || (b.body == Nothing && messages[i].content == ""))
  {
  }

  /** Of two messages, only the one being streamed shows the buffer;
      after a streamed placeholder receives its first non-empty chunk it
      stops showing '...'. */
  lemma OnlyStreamedMessageShowsBuffer(messages: seq<ChatMessage>, id: string, content: string, thinking: bool)
    ensures forall i :: 0 <= i < |messages| && messages[i].id != id ==>
              Render(messages, Some(id), content, thinking).bubbles[i]
              == BubbleOf(messages[i], None, content)
    ensures forall i :: 0 <= i < |messages| && messages[i].id == id ==>
              Render(messages, Some(id), content, thinking).bubbles[i].body
              == (if content == "" then Ellipsis else Shows(content))
  {
  }
}
