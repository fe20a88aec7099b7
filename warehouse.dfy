/** The warehouse backend seen as three append-only tables (users, conversations,
    messages), and the user and message operations that the conversation store and
    the factory call. Each load job appends rows; nothing updates a row in place. */
module Warehouse {
  import opened Wrappers
  import opened Types

  datatype ConversationRow = ConversationRow(conversationId: string, userId: string, startedAt: Timestamp)

  datatype MessageRow = MessageRow(
    messageId: string,
    conversationId: string,
    sender: Sender,
    messageText: seq<ModelMessage>,
    timestamp: Timestamp)

  /** The dataset's tables, each a sequence of rows in load order. */
  class Tables {
    var users: seq<string>
    var conversations: seq<ConversationRow>
    var messages: seq<MessageRow>

    constructor(users: seq<string>, conversations: seq<ConversationRow>, messages: seq<MessageRow>)
      ensures this.users == users && this.conversations == conversations && this.messages == messages
    {
      this.users := users;
      this.conversations := conversations;
      this.messages := messages;
    }
  }

  /** A message row read back as a message record. */
  function ToMessageModel(m: MessageRow): MessageModel {
    MessageModel(m.messageId, m.conversationId, m.sender, m.messageText, Some(m.timestamp))
  }

  /** `UserRepository.read`: the user with this id when the users table has one. */
  function ReadUser(users: seq<string>, userId: string): (r: Option<UserModel>)
    ensures r.Some? <==> userId in users
    ensures r.Some? ==> r.value.userId == userId
  {
    if userId in users then Some(UserModel(userId)) else None
  }

  /** `UserRepository.create`: appends a user row with a freshly generated id and
      returns that id. `newId` stands for the generated uuid. */
  method CreateUser(t: Tables, newId: string) returns (userId: string)
    modifies t
    ensures userId == newId
    ensures t.users == old(t.users) + [newId]
    ensures t.conversations == old(t.conversations) && t.messages == old(t.messages)
  {
    t.users := t.users + [newId];
    userId := newId;
  }

  /** The message append the local-memory module delegates to: one row with a fresh
      id and the current time. `newId` and `now` stand for the uuid and the clock. */
  method CreateMessage(t: Tables, conversationId: string, sender: Sender,
                       message: seq<ModelMessage>, newId: string, now: Timestamp)
    returns (messageId: string)
    modifies t
    ensures messageId == newId
    ensures t.messages == old(t.messages) + [MessageRow(newId, conversationId, sender, message, now)]
    ensures t.users == old(t.users) && t.conversations == old(t.conversations)
  {
    t.messages := t.messages + [MessageRow(newId, conversationId, sender, message, now)];
    messageId := newId;
  }
}
