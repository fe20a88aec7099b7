/** The direct chat stream (src/chat/chat.py): every chunk of the model's response
    becomes the parts of its first candidate; the first chunk without a candidate,
    content or parts becomes a single error part and ends the stream. The client and
    the chat session are memoised: one client per API key, one session per chat id,
    and every answer goes to the session with id "test".

    Clients and sessions are opaque; creating a session is the parameter `create`,
    and sending a message to a session is the parameter `send`, which gives the chunks
    of the response. */
module Chat {
  import opened Wrappers

  datatype Part = TextPart(text: Option<string>) | BytesPart(data: seq<bv8>, mimeType: string)

  datatype Content = Content(parts: Option<seq<Part>>)

  datatype Candidate = Candidate(content: Option<Content>)

  datatype Chunk = Chunk(candidates: Option<seq<Candidate>>)

  type Client(==)

  type ChatSession(==)

  const ChatModel := "gemini-2.0-flash"

  const ErrorPart := TextPart(Some("Ocurrió un error"))

  /** The chunk has a first candidate with content and a non-empty list of parts. */
  predicate WellFormed(c: Chunk) {
    && c.candidates.Some? && |c.candidates.value| > 0
    && c.candidates.value[0].content.Some?
    && c.candidates.value[0].content.value.parts.Some?
    && |c.candidates.value[0].content.value.parts.value| > 0
  }

  function PartsOf(c: Chunk): seq<Part>
    requires WellFormed(c)
  {
    c.candidates.value[0].content.value.parts.value
  }

  /** What `answer` yields for the response chunks. */
  function AnswerStream(chunks: seq<Chunk>): seq<seq<Part>>
    decreases |chunks|
  {
    if |chunks| == 0 then []
    else if !WellFormed(chunks[0]) then [[ErrorPart]]
    else [PartsOf(chunks[0])] + AnswerStream(chunks[1..])
  }

  /** The index of the first malformed chunk, or the number of chunks when all are good. */
  function FirstBad(chunks: seq<Chunk>): (k: nat)
    ensures k <= |chunks|
    ensures forall i :: 0 <= i < k ==> WellFormed(chunks[i])
    ensures k < |chunks| ==> !WellFormed(chunks[k])
    decreases |chunks|
  {
    if |chunks| == 0 || !WellFormed(chunks[0]) then 0 else 1 + FirstBad(chunks[1..])
  }

  /** The stream keeps the good chunks' parts in order up to the first malformed chunk,
      which gives the one error part, and nothing follows it. So the output count is the
      chunk count when all are good, and the first bad index plus one otherwise. Every
      output is a non-empty list of parts. */
  lemma {:induction false} AnswerStreamShape(chunks: seq<Chunk>)
    ensures var out := AnswerStream(chunks);
            var k := FirstBad(chunks);
            && |out| == (if k == |chunks| then k else k + 1)
            && (forall i :: 0 <= i < k ==> out[i] == PartsOf(chunks[i]))
            && (k < |chunks| ==> out[k] == [ErrorPart])
            && (forall i :: 0 <= i < |out| ==> |out[i]| > 0)
    decreases |chunks|
  {
    if |chunks| > 0 && WellFormed(chunks[0]) {
      var rest := chunks[1..];
      AnswerStreamShape(rest);
      var out := AnswerStream(chunks);
      assert out == [PartsOf(chunks[0])] + AnswerStream(rest);
      forall i | 0 < i < FirstBad(chunks) ensures out[i] == PartsOf(chunks[i]) {
        assert chunks[i] == rest[i - 1];
      }
    }
  }

  /** The memo tables of `get_client` and `get_chat`. */
  class Memo {
    var clients: map<string, Client>
    var chats: map<string, ChatSession>

    constructor()
      ensures clients == map[] && chats == map[]
    {
      clients := map[];
      chats := map[];
    }

    /** `get_client`: the same client for the same key; `newClient` is the one built on
        a first call. */
    method GetClient(apiKey: string, newClient: Client) returns (client: Client)
      modifies this
      ensures apiKey in old(clients) ==> client == old(clients)[apiKey] && clients == old(clients)
      ensures apiKey !in old(clients) ==> client == newClient && clients == old(clients)[apiKey := newClient]
      ensures chats == old(chats)
    {
      if apiKey in clients {
        client := clients[apiKey];
      } else {
        client := newClient;
        clients := clients[apiKey := client];
      }
    }

    /** `get_chat`: the same session for the same id; a first call creates it with the
        client of the configured key and the chat model. */
    method GetChat(id: string, apiKey: string, newClient: Client, create: (Client, string) -> ChatSession)
      returns (chat: ChatSession)
      modifies this
      ensures id in old(chats) ==> chat == old(chats)[id] && chats == old(chats) && clients == old(clients)
      ensures id !in old(chats) ==>
                var client := if apiKey in old(clients) then old(clients)[apiKey] else newClient;
                && chat == create(client, ChatModel)
                && chats == old(chats)[id := chat]
                && clients == old(clients)[apiKey := client]
    {
      if id in chats {
        chat := chats[id];
      } else {
        var client := GetClient(apiKey, newClient);
        chat := create(client, ChatModel);
        chats := chats[id := chat];
      }
    }

    /** `answer`: the message goes to the "test" session, which is created once and then
        shared by every later answer. */
    method Answer(message: seq<Part>, apiKey: string, newClient: Client,
                  create: (Client, string) -> ChatSession, send: (ChatSession, seq<Part>) -> seq<Chunk>)
      returns (out: seq<seq<Part>>)
      modifies this
      ensures "test" in chats
      ensures "test" in old(chats) ==> chats == old(chats) && clients == old(clients)
      ensures "test" !in old(chats) ==>
                var client := if apiKey in old(clients) then old(clients)[apiKey] else newClient;
                && chats == old(chats)["test" := create(client, ChatModel)]
                && clients == old(clients)[apiKey := client]
      ensures out == AnswerStream(send(chats["test"], message))
    {
      var chat := GetChat("test", apiKey, newClient, create);
      out := AnswerStream(send(chat, message));
    }
  }
}
