/** The bootstrap of one bot session (src/chat/factory.py): get-or-create of the user and
    of the conversation named by the environment, in the warehouse or in the local
    memory directory, and the dependencies of the session with an empty quote list.

    The generated user id, the time at which the conversation row is written and the
    time the new conversation record takes as its start are the parameters `newUserId`,
    `now` and `startedAt` (the source reads the clock twice). */
module Factory {
  import opened Wrappers
  import opened Types
  import opened Warehouse
  import ConversationRepository
  import Memory

  /** The users table after the bootstrap and the resolved user: the environment's
      user when the table has it, otherwise a newly created user with the generated id. */
  function ResolveUser(users: seq<string>, envUserId: string, newUserId: string): (seq<string>, UserModel) {
    var found := ReadUser(users, envUserId);
    if found.Some? then (users, found.value) else (users + [newUserId], UserModel(newUserId))
  }

  /** The conversations table after the bootstrap and the resolved conversation, with
      the corrected read (left join): the stored conversation when the read finds it,
      otherwise one new row and an empty conversation owned by `userId`. */
  function ResolveConversation(convs: seq<ConversationRow>, msgs: seq<MessageRow>, id: string, userId: string,
                               now: Timestamp, startedAt: Timestamp): (seq<ConversationRow>, ConversationModel)
  {
    var found := ConversationRepository.ReadLeftJoinResult(convs, msgs, id);
    if found.Some? then (convs, found.value)
    else (convs + [ConversationRow(id, userId, now)], ConversationModel(id, userId, startedAt, []))
  }

  /** The same step with the read as written (inner join), which is what
      `get_default_dependencies` runs. */
  function ResolveConversationAsWritten(convs: seq<ConversationRow>, msgs: seq<MessageRow>, id: string,
                                        userId: string, now: Timestamp, startedAt: Timestamp)
    : (seq<ConversationRow>, ConversationModel)
  {
    var found := ConversationRepository.ReadResult(convs, msgs, id);
    if found.Some? then (convs, found.value)
    else (convs + [ConversationRow(id, userId, now)], ConversationModel(id, userId, startedAt, []))
  }

  /** The local directory after the bootstrap and the resolved conversation: the stored
      one when its file exists, otherwise an empty conversation, which is also written. */
  function ResolveLocal(files: map<string, ConversationModel>, env: Environment, startedAt: Timestamp)
    : (map<string, ConversationModel>, ConversationModel)
  {
    match Memory.LocalRetrieve(files, env.userId, env.conversationId)
    case Some(stored) => (files, stored)
    case None =>
      var c := ConversationModel(env.conversationId, env.userId, startedAt, []);
      (files[Memory.GetPath(env.userId, env.conversationId) := c], c)
  }

  /** A user that the table lacks is created under a fresh id, not under the
      environment's id; so every bootstrap with that environment creates one more user. */
  lemma MissingUserCreatedEachTime(users: seq<string>, envUserId: string, n1: string, n2: string)
    requires envUserId !in users && n1 != envUserId
    ensures ResolveUser(users, envUserId, n1).1.userId == n1
    ensures ResolveUser(ResolveUser(users, envUserId, n1).0, envUserId, n2).0 == users + [n1, n2]
  {
  }

  /** After the bootstrap the conversation exists, and a second bootstrap neither adds a
      row nor changes the conversation it returns. */
  lemma ConversationBootstrapIdempotent(convs: seq<ConversationRow>, msgs: seq<MessageRow>, id: string,
                                        userId: string, now: Timestamp, startedAt: Timestamp,
                                        now2: Timestamp, startedAt2: Timestamp)
    ensures var (c1, _) := ResolveConversation(convs, msgs, id, userId, now, startedAt);
            && ConversationRepository.ReadLeftJoinResult(c1, msgs, id).Some?
            && ResolveConversation(c1, msgs, id, userId, now2, startedAt2).0 == c1
            && |ConversationRepository.ConversationsWithId(c1, id)| >= 1
  {
    var (c1, _) := ResolveConversation(convs, msgs, id, userId, now, startedAt);
    var row := ConversationRow(id, userId, now);
    ConversationRepository.ReadLeftJoinNoneIff(convs, msgs, id);
    if ConversationRepository.ReadLeftJoinResult(convs, msgs, id).None? {
      ConversationRepository.ConversationsWithIdAppend(convs, id, row);
    }
    ConversationRepository.ReadLeftJoinNoneIff(c1, msgs, id);
  }

  /** As written, a conversation created by the bootstrap has no messages, so the next
      bootstrap does not find it and writes a second row for the same id. */
  lemma BootstrapAsWrittenDuplicates(id: string, userId: string, now: Timestamp, startedAt: Timestamp,
                                     now2: Timestamp, startedAt2: Timestamp)
    ensures var (c1, _) := ResolveConversationAsWritten([], [], id, userId, now, startedAt);
            var (c2, _) := ResolveConversationAsWritten(c1, [], id, userId, now2, startedAt2);
            c2 == [ConversationRow(id, userId, now), ConversationRow(id, userId, now2)]
    ensures var (c1, _) := ResolveConversation([], [], id, userId, now, startedAt);
            var (c2, _) := ResolveConversation(c1, [], id, userId, now2, startedAt2);
            c2 == [ConversationRow(id, userId, now)]
  {
    var row := ConversationRow(id, userId, now);
    ConversationRepository.ReadNoneIff([], [], id);
    ConversationRepository.ReadLeftJoinNoneIff([], [], id);
    ConversationRepository.ConversationsWithIdAppend([], id, row);
    assert [] + [row] == [row];
    ConversationRepository.ReadNoneIff([row], [], id);
    ConversationRepository.ReadLeftJoinNoneIff([row], [], id);
  }

  /** Once the conversation has a message, the as-written and the corrected bootstrap
      agree: the two reads differ only on conversations without messages. */
  lemma BootstrapsAgreeWithMessages(convs: seq<ConversationRow>, msgs: seq<MessageRow>, id: string,
                                    userId: string, now: Timestamp, startedAt: Timestamp)
    requires ConversationRepository.MessagesWithId(msgs, id) != []
    ensures ResolveConversationAsWritten(convs, msgs, id, userId, now, startedAt)
            == ResolveConversation(convs, msgs, id, userId, now, startedAt)
  {
    assert ConversationRepository.InnerJoin(convs, msgs, id) == ConversationRepository.LeftJoin(convs, msgs, id);
  }

  /** Locally, after the bootstrap the file exists and holds the returned conversation,
      no other file changes, and a second bootstrap changes nothing. */
  lemma LocalBootstrapIdempotent(files: map<string, ConversationModel>, env: Environment,
                                 startedAt: Timestamp, startedAt2: Timestamp)
    ensures var (f1, c) := ResolveLocal(files, env, startedAt);
            var path := Memory.GetPath(env.userId, env.conversationId);
            && path in f1 && f1[path] == c
            && c.conversationId == (if path in files then files[path].conversationId else env.conversationId)
            && (forall p :: p != path ==> (p in f1 <==> p in files) && (p in files ==> f1[p] == files[p]))
            && ResolveLocal(f1, env, startedAt2) == (f1, c)
  {
  }

  /** `get_default_dependencies`. */
  method GetDefaultDependencies(env: Environment, fs: Memory.FileStore, t: Tables,
                                newUserId: string, now: Timestamp, startedAt: Timestamp)
    returns (deps: Dependencies)
    modifies fs, t
    ensures fresh(deps)
    ensures deps.env == env && deps.quotes == []
    ensures deps.user.Some? && deps.conversation.Some?
    ensures env.memory == BigQuery ==>
              var (users, user) := ResolveUser(old(t.users), env.userId, newUserId);
              var (convs, conversation) :=
                ResolveConversationAsWritten(old(t.conversations), old(t.messages), env.conversationId, user.userId, now, startedAt);
              && t.users == users && deps.user == Some(user)
              && t.conversations == convs && deps.conversation == Some(conversation)
              && t.messages == old(t.messages) && fs.files == old(fs.files)
    ensures env.memory == Local ==>
              var (files, conversation) := ResolveLocal(old(fs.files), env, startedAt);
              && fs.files == files
              && deps.user == Some(UserModel(env.userId)) && deps.conversation == Some(conversation)
              && t.users == old(t.users) && t.conversations == old(t.conversations) && t.messages == old(t.messages)
  {
    var user: UserModel;
    var conversation: ConversationModel;
    match env.memory {
      case BigQuery =>
        var found := ReadUser(t.users, env.userId);
        if found.None? {
          var userId := CreateUser(t, newUserId);
          user := UserModel(userId);
        } else {
          user := found.value;
        }
        var read := ConversationRepository.Read(t, env.conversationId);
        if read.None? {
          // the id is given, so no id is generated
          var _ := ConversationRepository.Create(t, user.userId, Some(env.conversationId), env.conversationId, now);
          conversation := ConversationModel(env.conversationId, user.userId, startedAt, []);
        } else {
          conversation := read.value;
        }
      case Local =>
        user := UserModel(env.userId);
        var path := Memory.GetPath(user.userId, env.conversationId);
        if path !in fs.files {
          conversation := ConversationModel(env.conversationId, user.userId, startedAt, []);
          fs.files := fs.files[Memory.GetPath(user.userId, conversation.conversationId) := conversation];
        } else {
          conversation := fs.files[path];
        }
    }
    deps := new Dependencies(env, [], Some(user), Some(conversation));
  }
}
