/** The records shared by the conversation store, the retrieval tools and the bot:
    users, conversations and messages (src/repository/types.py), the quotes attached
    to an answer, the environment and the per-turn dependencies. */
module Types {
  import opened Wrappers

  /** A point in time (`datetime` in the source), as a number. */
  type Timestamp = int

  /** One item of a model exchange (a prompt, a reply, a tool call or a tool result).
      The store keeps it as an opaque value. */
  type ModelMessage(==)

  datatype Sender = User | Assistant

  datatype UserModel = UserModel(userId: string)

  datatype MessageModel = MessageModel(
    messageId: string,
    conversationId: string,
    sender: Sender,
    messageText: seq<ModelMessage>,
    timestamp: Option<Timestamp>)

  datatype ConversationModel = ConversationModel(
    conversationId: string,
    userId: string,
    startedAt: Timestamp,
    messages: seq<MessageModel>)

  /** A transient annotation of one answer: a retrieved fragment or an external link. */
  datatype Quote =
    | Citation(author: string, text: string)
    | Link(author: string, text: string, link: string)

  datatype TextAnswer = TextAnswer(text: string)

  /** One answer of the bot: its content and the quotes that go with it. */
  datatype Answer = Answer(content: TextAnswer, quotes: seq<Quote>)

  datatype EnvironmentTag = Prod | Dev

  datatype MemoryTag = Local | BigQuery

  datatype AnswerTag = TextMode | AudioMode

  /** The process configuration read from environment variables. */
  datatype Environment = Environment(
    googleCloudApiKey: string,
    environment: EnvironmentTag,
    userId: string,
    conversationId: string,
    projectId: string,
    bucketName: string,
    dataset: string,
    table: string,
    memory: MemoryTag,
    answer: AnswerTag)

  /** A Python `assert` that fails raises this. */
  datatype Error = AssertionError

  /** What every tool call of one turn shares. The quote list is appended to in place
      by the retrieval tool and read by the bot once the stream is over. The bot builds
      dependencies without a user or a conversation; the factory supplies both. */
  class Dependencies {
    const env: Environment
    var quotes: seq<Quote>
    const user: Option<UserModel>
    const conversation: Option<ConversationModel>

    constructor(env: Environment, quotes: seq<Quote>, user: Option<UserModel>,
                conversation: Option<ConversationModel>)
      ensures this.env == env && this.quotes == quotes
      ensures this.user == user && this.conversation == conversation
    {
      this.env := env;
      this.quotes := quotes;
      this.user := user;
      this.conversation := conversation;
    }
  }
}
