/** Conversation memory (src/chat/memory.py) over two backends: a directory of local
    documents, one per (user, conversation), and the warehouse tables. Appending a
    message locally reads the conversation, appends one message and rewrites its file;
    in the warehouse it appends one message row.

    The local directory is a map from path to the stored conversation (the JSON encoding
    is not modelled); the uuid and the clock are the parameters `newId` and `now`. */
module Memory {
  import opened Wrappers
  import opened Types
  import opened Warehouse
  import ConversationRepository
  import opened Strings

  /** The memory directory, two levels above the chat package. Its absolute prefix
      depends on where the program is installed and is not part of this model. */
  const MemoryDir := "chat/../../memory"

  const PathHead := MemoryDir + "/conversation_"

  const PathUser := "of_user_"

  const PathTail := ".json"

  /** `get_path`: the file of one conversation of one user. */
  function GetPath(userId: string, conversationId: string): string {
    PathHead + conversationId + "_" + PathUser + userId + PathTail
  }

  /** Conversation ids without `_`, and ids without `/` (the generated ids are uuids,
      which have neither), give distinct paths to distinct (user, conversation) pairs.
      A `/` would make the path name a subdirectory, which the text paths here do not
      normalise. */
  lemma GetPathInjective(u1: string, c1: string, u2: string, c2: string)
    requires '_' !in c1 && '_' !in c2
    requires '/' !in u1 && '/' !in u2 && '/' !in c1 && '/' !in c2
    requires GetPath(u1, c1) == GetPath(u2, c2)
    ensures u1 == u2 && c1 == c2
  {
    PathLayoutInjective(PathHead, PathUser, PathTail, u1, c1, u2, c2);
  }

  /** The same for any fixed pieces around the two ids. */
  lemma PathLayoutInjective(head: string, mid: string, tail: string,
                            u1: string, c1: string, u2: string, c2: string)
    requires '_' !in c1 && '_' !in c2
    requires head + c1 + "_" + mid + u1 + tail == head + c2 + "_" + mid + u2 + tail
    ensures u1 == u2 && c1 == c2
  {
    var r1, r2 := mid + u1 + tail, mid + u2 + tail;
    assert head + c1 + "_" + mid + u1 + tail == head + (c1 + ['_'] + r1);
    assert head + c2 + "_" + mid + u2 + tail == head + (c2 + ['_'] + r2);
    DropPrefix(head, c1 + ['_'] + r1, c2 + ['_'] + r2);
    // the first `_` after the head ends the conversation id
    IndexOfAfterPrefix(c1, '_', r1);
    IndexOfAfterPrefix(c2, '_', r2);
    var s := c1 + ['_'] + r1;
    assert c1 == s[..|c1|] && c2 == s[..|c2|];
    assert r1 == s[|c1| + 1..] && r2 == s[|c2| + 1..];
    assert u1 == r1[|mid|..|r1| - |tail|];
    assert u2 == r2[|mid|..|r2| - |tail|];
  }

  lemma DropPrefix(a: string, s1: string, s2: string)
    requires a + s1 == a + s2
    ensures s1 == s2
  {
    assert s1 == (a + s1)[|a|..];
    assert s2 == (a + s2)[|a|..];
  }

  /** With a `_` in the conversation id, two different pairs can share one file. */
  lemma GetPathCollision()
    ensures GetPath("b_of_user_c", "a") == GetPath("c", "a_of_user_b")
  {
  }

  /** The local documents, by path. */
  class FileStore {
    var files: map<string, ConversationModel>

    constructor(files: map<string, ConversationModel>)
      ensures this.files == files
    {
      this.files := files;
    }
  }

  /** Local `retrieve_conversation`: the stored conversation, or None when its file is
      absent. */
  function LocalRetrieve(files: map<string, ConversationModel>, userId: string, conversationId: string)
    : (r: Option<ConversationModel>)
    ensures r.None? <==> GetPath(userId, conversationId) !in files
    ensures r.Some? ==> r.value == files[GetPath(userId, conversationId)]
  {
    var path := GetPath(userId, conversationId);
    if path in files then Some(files[path]) else None
  }

  /** Local `add_message`: fails the assertion when the conversation has no file;
      otherwise the file of this conversation, and only it, gets the conversation with
      one more message at the end. */
  function LocalAdd(files: map<string, ConversationModel>, userId: string, conversationId: string,
                    m: MessageModel): Result<map<string, ConversationModel>, Error>
  {
    var c := LocalRetrieve(files, userId, conversationId);
    if c.None? then Failure(AssertionError)
    else Success(files[GetPath(userId, conversationId) := c.value.(messages := c.value.messages + [m])])
  }

  /** Reading back after a local append: the append succeeds exactly when the
      conversation exists, the stored messages are the old ones followed by exactly the
      new one, the conversation columns stay, and every other file is untouched. */
  lemma LocalAddThenRetrieve(files: map<string, ConversationModel>, userId: string, conversationId: string,
                             m: MessageModel)
    ensures LocalAdd(files, userId, conversationId, m).Success?
            <==> LocalRetrieve(files, userId, conversationId).Some?
    ensures LocalAdd(files, userId, conversationId, m).Success? ==>
              var after := LocalAdd(files, userId, conversationId, m).value;
              var before := LocalRetrieve(files, userId, conversationId).value;
              && LocalRetrieve(after, userId, conversationId)
                 == Some(before.(messages := before.messages + [m]))
              && LocalRetrieve(after, userId, conversationId).value.messages[..|before.messages|] == before.messages
              && (forall p :: p != GetPath(userId, conversationId) ==>
                    (p in after <==> p in files) && (p in files ==> after[p] == files[p]))
  {
    var r := LocalAdd(files, userId, conversationId, m);
    if r.Success? {
      var before := LocalRetrieve(files, userId, conversationId).value;
      assert (before.messages + [m])[..|before.messages|] == before.messages;
    }
  }

  /** A warehouse append followed by a read (with the left join): for a conversation
      with a single row whose messages were appended with non-decreasing times, the
      read returns the earlier messages followed by exactly the new one, as the local
      backend does. */
  lemma WarehouseAddThenRetrieve(convs: seq<ConversationRow>, msgs: seq<MessageRow>, id: string,
                                 row: ConversationRow, m: MessageRow)
    requires ConversationRepository.ConversationsWithId(convs, id) == [row]
    requires var ms := ConversationRepository.MessagesWithId(msgs, id);
             ConversationRepository.IdsPresent(ms) && ConversationRepository.InTimeOrder(ms)
    requires m.conversationId == id && |m.messageId| > 0
    requires forall x :: x in ConversationRepository.MessagesWithId(msgs, id) ==> x.timestamp <= m.timestamp
    ensures var before := ConversationRepository.ReadLeftJoinResult(convs, msgs, id);
            && before.Some?
            && ConversationRepository.ReadLeftJoinResult(convs, msgs + [m], id)
               == Some(before.value.(messages := before.value.messages + [ToMessageModel(m)]))
  {
    var ms := ConversationRepository.MessagesWithId(msgs, id);
    var c := ConversationModel(id, row.userId, row.startedAt, ConversationRepository.AsMessages(ms));
    ConversationRepository.ReadAfterAppends(convs, msgs, id, row);
    assert ConversationRepository.ReadLeftJoinResult(convs, msgs, id) == Some(c);
    ConversationRepository.MessagesWithIdAppend(msgs, id, m);
    assert ConversationRepository.MessagesWithId(msgs + [m], id) == ms + [m];
    AppendKeepsOrder(ms, m);
    ConversationRepository.ReadAfterAppends(convs, msgs + [m], id, row);
    AsMessagesAppend(ms, m);
  }

  lemma AsMessagesAppend(ms: seq<MessageRow>, m: MessageRow)
    ensures ConversationRepository.AsMessages(ms + [m]) == ConversationRepository.AsMessages(ms) + [ToMessageModel(m)]
  {
  }

  lemma AppendKeepsOrder(ms: seq<MessageRow>, m: MessageRow)
    requires ConversationRepository.IdsPresent(ms) && ConversationRepository.InTimeOrder(ms)
    requires |m.messageId| > 0
    requires forall x :: x in ms ==> x.timestamp <= m.timestamp
    ensures ConversationRepository.IdsPresent(ms + [m]) && ConversationRepository.InTimeOrder(ms + [m])
  {
    var ms2 := ms + [m];
    forall i, j | 0 <= i < j < |ms2| ensures ms2[i].timestamp <= ms2[j].timestamp {
      if j == |ms| {
        assert ms2[i] in ms;
      } else {
        assert ms2[i] == ms[i] && ms2[j] == ms[j];
      }
    }
  }

  /** `retrieve_conversation` for the dependencies' user and conversation. The
      warehouse backend runs the repository's read as written (inner join). */
  method RetrieveConversation(deps: Dependencies, fs: FileStore, t: Tables) returns (r: Option<ConversationModel>)
    requires deps.user.Some? && deps.conversation.Some?
    ensures deps.env.memory == Local ==>
              r == LocalRetrieve(fs.files, deps.user.value.userId, deps.conversation.value.conversationId)
    ensures deps.env.memory == BigQuery ==>
              r == ConversationRepository.ReadResult(t.conversations, t.messages, deps.conversation.value.conversationId)
  {
    var userId := deps.user.value.userId;
    var conversationId := deps.conversation.value.conversationId;
    match deps.env.memory {
      case BigQuery =>
        r := ConversationRepository.Read(t, conversationId);
      case Local =>
        var path := GetPath(userId, conversationId);
        if path !in fs.files {
          return None;
        }
        r := Some(fs.files[path]);
    }
  }

  /** `add_message`. Locally: read, assert the conversation exists, append one message
      with a fresh id, the conversation's id, the sender, the given items and the
      current time, and rewrite that one file; the tables are not touched. In the
      warehouse: append one message row; no file is written. */
  method AddMessage(deps: Dependencies, fs: FileStore, t: Tables, sender: Sender, message: seq<ModelMessage>,
                    newId: string, now: Timestamp)
    returns (outcome: Outcome<Error>)
    requires deps.user.Some? && deps.conversation.Some?
    modifies fs, t
    ensures var userId := deps.user.value.userId;
            var conversationId := deps.conversation.value.conversationId;
            var m := MessageModel(newId, conversationId, sender, message, Some(now));
            && (deps.env.memory == Local ==>
                  && t.users == old(t.users) && t.conversations == old(t.conversations) && t.messages == old(t.messages)
                  && (LocalAdd(old(fs.files), userId, conversationId, m).Failure? ==>
                        outcome == Fail(AssertionError) && fs.files == old(fs.files))
                  && (LocalAdd(old(fs.files), userId, conversationId, m).Success? ==>
                        outcome == Pass && fs.files == LocalAdd(old(fs.files), userId, conversationId, m).value))
            && (deps.env.memory == BigQuery ==>
                  && outcome == Pass
                  && fs.files == old(fs.files)
                  && t.messages == old(t.messages) + [MessageRow(newId, conversationId, sender, message, now)]
                  && t.users == old(t.users) && t.conversations == old(t.conversations))
  {
    var userId := deps.user.value.userId;
    var conversationId := deps.conversation.value.conversationId;
    match deps.env.memory {
      case BigQuery =>
        var _ := CreateMessage(t, conversationId, sender, message, newId, now);
        return Pass;
      case Local =>
        var conversation := RetrieveConversation(deps, fs, t);
        if conversation.None? {
          return Fail(AssertionError);
        }
        var c := conversation.value;
        c := c.(messages := c.messages + [MessageModel(newId, conversationId, sender, message, Some(now))]);
        fs.files := fs.files[GetPath(userId, conversationId) := c];
        return Pass;
    }
  }
}
