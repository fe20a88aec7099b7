/** `ConversationRepository` over the warehouse tables: create appends a conversation
    row, read joins the conversations and messages tables and folds the rows into one
    conversation with ordered messages, delete removes conversation rows. */
module ConversationRepository {
  import opened Wrappers
  import opened Types
  import opened Warehouse
  import StableSort

  /** One row of the read query: the selected conversation columns and, when the join
      matched one, the message columns. */
  datatype JoinedRow = JoinedRow(
    conversationId: string,
    userId: string,
    startedAt: Timestamp,
    message: Option<MessageRow>)

  function ConversationsWithId(convs: seq<ConversationRow>, id: string): seq<ConversationRow>
    decreases |convs|
  {
    if |convs| == 0 then []
    else (if convs[0].conversationId == id then [convs[0]] else []) + ConversationsWithId(convs[1..], id)
  }

  function MessagesWithId(msgs: seq<MessageRow>, id: string): seq<MessageRow>
    decreases |msgs|
  {
    if |msgs| == 0 then []
    else (if msgs[0].conversationId == id then [msgs[0]] else []) + MessagesWithId(msgs[1..], id)
  }

  /** The rows that one conversation row produces with the given message rows. */
  function Matches(c: ConversationRow, ms: seq<MessageRow>): seq<JoinedRow> {
    seq(|ms|, i requires 0 <= i < |ms| => JoinedRow(c.conversationId, c.userId, c.startedAt, Some(ms[i])))
  }

  /** Every conversation row paired with every message row, conversation rows outermost. */
  function JoinRows(cs: seq<ConversationRow>, ms: seq<MessageRow>): seq<JoinedRow>
    decreases |cs|
  {
    if |cs| == 0 then [] else Matches(cs[0], ms) + JoinRows(cs[1..], ms)
  }

  /** `FROM conversations JOIN messages ON conversation_id WHERE conversation_id = id`,
      before ordering. Only the conversation rows and message rows with that id can meet. */
  function InnerJoin(convs: seq<ConversationRow>, msgs: seq<MessageRow>, id: string): seq<JoinedRow> {
    JoinRows(ConversationsWithId(convs, id), MessagesWithId(msgs, id))
  }

  /** The same query with a LEFT JOIN: a conversation row without messages still gives
      one row, whose message columns are NULL. All conversation rows with one id match
      the same messages, so the rows are either all NULL rows or the inner join. */
  function LeftJoin(convs: seq<ConversationRow>, msgs: seq<MessageRow>, id: string): seq<JoinedRow> {
    var cs := ConversationsWithId(convs, id);
    var ms := MessagesWithId(msgs, id);
    if |ms| == 0 then seq(|cs|, i requires 0 <= i < |cs| => JoinedRow(cs[i].conversationId, cs[i].userId, cs[i].startedAt, None))
    else JoinRows(cs, ms)
  }

  /** `ORDER BY t2.timestamp ASC`. NULL rows never share a result with message rows,
      so the key given to them does not matter. */
  function RowKey(r: JoinedRow): real {
    if r.message.Some? then r.message.value.timestamp as real else 0.0
  }

  function QueryResult(rows: seq<JoinedRow>): seq<JoinedRow> {
    StableSort.SortBy(rows, RowKey)
  }

  /** `if row.message_id:` keeps rows whose message id is neither NULL nor empty. */
  predicate Keeps(r: JoinedRow) {
    r.message.Some? && |r.message.value.messageId| > 0
  }

  /** The message record built from one row: ids, sender and text from the row, the
      timestamp from `message_timestamp`. */
  function MessageOf(r: JoinedRow): MessageModel
    requires r.message.Some?
  {
    var m := r.message.value;
    MessageModel(m.messageId, r.conversationId, m.sender, m.messageText, Some(m.timestamp))
  }

  function MessagesOf(rows: seq<JoinedRow>): seq<MessageModel>
    decreases |rows|
  {
    if |rows| == 0 then []
    else
      var last := rows[|rows| - 1];
      MessagesOf(rows[..|rows| - 1]) + (if Keeps(last) then [MessageOf(last)] else [])
  }

  /** The conversation the read builds from its ordered rows: none when there are no
      rows, otherwise the first row's conversation columns and one message per kept row. */
  function Fold(rows: seq<JoinedRow>): Option<ConversationModel> {
    if |rows| == 0 then None
    else Some(ConversationModel(rows[0].conversationId, rows[0].userId, rows[0].startedAt, MessagesOf(rows)))
  }

  /** What `read` returns for the tables and the id, as written (inner join). */
  function ReadResult(convs: seq<ConversationRow>, msgs: seq<MessageRow>, id: string): Option<ConversationModel> {
    Fold(QueryResult(InnerJoin(convs, msgs, id)))
  }

  /** What `read` returns with the join it evidently intends (left join). */
  function ReadLeftJoinResult(convs: seq<ConversationRow>, msgs: seq<MessageRow>, id: string): Option<ConversationModel> {
    Fold(QueryResult(LeftJoin(convs, msgs, id)))
  }

  /** Message rows read back as message records, in order. */
  function AsMessages(ms: seq<MessageRow>): seq<MessageModel> {
    seq(|ms|, i requires 0 <= i < |ms| => ToMessageModel(ms[i]))
  }

  /** `create`: uses the given id or a generated one, appends one conversation row
      without looking for an existing one, and returns the id used. */
  method Create(t: Tables, userId: string, conversationId: Option<string>, newId: string, now: Timestamp)
    returns (id: string)
    modifies t
    ensures id == if conversationId.Some? then conversationId.value else newId
    ensures t.conversations == old(t.conversations) + [ConversationRow(id, userId, now)]
    ensures t.users == old(t.users) && t.messages == old(t.messages)
  {
    id := if conversationId.Some? then conversationId.value else newId;
    t.conversations := t.conversations + [ConversationRow(id, userId, now)];
  }

  /** The row loop of `read`: the first row gives the conversation columns, and every
      kept row appends one message. */
  method FoldRows(rows: seq<JoinedRow>) returns (r: Option<ConversationModel>)
    ensures r == Fold(rows)
  {
    if |rows| == 0 {
      return None;
    }
    var first := rows[0];
    var messages: seq<MessageModel> := [];
    var i := 0;
    while i < |rows|
      invariant 0 <= i <= |rows|
      invariant messages == MessagesOf(rows[..i])
    {
      var row := rows[i];
      assert rows[..i + 1][..i] == rows[..i];
      if Keeps(row) {
        messages := messages + [MessageOf(row)];
      }
      i := i + 1;
    }
    assert rows[..|rows|] == rows;
    r := Some(ConversationModel(first.conversationId, first.userId, first.startedAt, messages));
  }

  /** `read` as written. */
  method Read(t: Tables, recordId: string) returns (r: Option<ConversationModel>)
    ensures r == ReadResult(t.conversations, t.messages, recordId)
  {
    r := FoldRows(QueryResult(InnerJoin(t.conversations, t.messages, recordId)));
  }

  /** `read` with a left join: the definition the rest of the model uses. */
  method ReadLeftJoin(t: Tables, recordId: string) returns (r: Option<ConversationModel>)
    ensures r == ReadLeftJoinResult(t.conversations, t.messages, recordId)
    ensures r.None? <==> ConversationsWithId(t.conversations, recordId) == []
  {
    ReadLeftJoinNoneIff(t.conversations, t.messages, recordId);
    r := FoldRows(QueryResult(LeftJoin(t.conversations, t.messages, recordId)));
  }

  /** `delete`: removes the conversation rows with the id, leaves the messages table
      alone, and reports success. */
  method Delete(t: Tables, recordId: string) returns (ok: bool)
    modifies t
    ensures ok
    ensures t.conversations == Without(old(t.conversations), recordId)
    ensures t.users == old(t.users) && t.messages == old(t.messages)
  {
    t.conversations := Without(t.conversations, recordId);
    ok := true;
  }

  function Without(convs: seq<ConversationRow>, id: string): seq<ConversationRow>
    decreases |convs|
  {
    if |convs| == 0 then []
    else (if convs[0].conversationId == id then [] else [convs[0]]) + Without(convs[1..], id)
  }

  // ---------------------------------------------------------------------------
  // Facts about the rows and the fold

  lemma {:induction false} SortedMember(rows: seq<JoinedRow>, x: JoinedRow)
    ensures x in QueryResult(rows) <==> x in rows
  {
    SortedLength(rows);
  }

  lemma {:induction false} SortedLength(rows: seq<JoinedRow>)
    ensures |QueryResult(rows)| == |rows|
    ensures forall x :: x in QueryResult(rows) <==> x in rows
  {
    StableSort.SortByOrderedPermutation(rows, RowKey);
    assert |multiset(QueryResult(rows))| == |multiset(rows)|;
    forall x ensures x in QueryResult(rows) <==> x in rows {
      assert x in QueryResult(rows) <==> x in multiset(QueryResult(rows));
      assert x in rows <==> x in multiset(rows);
    }
  }

  lemma {:induction false} JoinRowsEmpty(cs: seq<ConversationRow>, ms: seq<MessageRow>)
    ensures JoinRows(cs, ms) == [] <==> (cs == [] || ms == [])
    decreases |cs|
  {
    if |cs| > 0 && |ms| > 0 {
      assert Matches(cs[0], ms)[0] == JoinRows(cs, ms)[0];
    } else if |cs| > 0 {
      JoinRowsEmpty(cs[1..], ms);
    }
  }

  /** Every joined row comes from a conversation row and one of the message rows. */
  lemma {:induction false} JoinRowsOrigin(cs: seq<ConversationRow>, ms: seq<MessageRow>, r: JoinedRow)
    requires r in JoinRows(cs, ms)
    ensures ConversationRow(r.conversationId, r.userId, r.startedAt) in cs
    ensures r.message.Some? && r.message.value in ms
    decreases |cs|
  {
    assert JoinRows(cs, ms) == Matches(cs[0], ms) + JoinRows(cs[1..], ms);
    if r in Matches(cs[0], ms) {
      var i :| 0 <= i < |ms| && Matches(cs[0], ms)[i] == r;
      assert ConversationRow(r.conversationId, r.userId, r.startedAt) == cs[0];
      assert r.message.value == ms[i];
    } else {
      JoinRowsOrigin(cs[1..], ms, r);
    }
  }

  lemma {:induction false} ConversationsWithIdFacts(convs: seq<ConversationRow>, id: string)
    ensures forall c :: c in ConversationsWithId(convs, id) <==> c in convs && c.conversationId == id
    decreases |convs|
  {
    if |convs| > 0 {
      ConversationsWithIdFacts(convs[1..], id);
      assert convs == [convs[0]] + convs[1..];
    }
  }

  lemma {:induction false} MessagesWithIdFacts(msgs: seq<MessageRow>, id: string)
    ensures forall m :: m in MessagesWithId(msgs, id) <==> m in msgs && m.conversationId == id
    decreases |msgs|
  {
    if |msgs| > 0 {
      MessagesWithIdFacts(msgs[1..], id);
      assert msgs == [msgs[0]] + msgs[1..];
    }
  }

  /** Every message of the fold comes from a kept row. */
  lemma {:induction false} MessagesOfOrigin(rows: seq<JoinedRow>, m: MessageModel)
    requires m in MessagesOf(rows)
    ensures exists r :: r in rows && Keeps(r) && m == MessageOf(r)
    decreases |rows|
  {
    var last := rows[|rows| - 1];
    if m in MessagesOf(rows[..|rows| - 1]) {
      MessagesOfOrigin(rows[..|rows| - 1], m);
      var r :| r in rows[..|rows| - 1] && Keeps(r) && m == MessageOf(r);
      assert r in rows;
    } else {
      assert Keeps(last) && m == MessageOf(last);
    }
  }

  /** Rows ordered by timestamp give messages ordered by timestamp. */
  lemma {:induction false} MessagesOfSorted(rows: seq<JoinedRow>)
    requires StableSort.Sorted(rows, RowKey)
    requires forall r :: r in rows ==> r.message.Some?
    ensures forall k :: 0 <= k < |MessagesOf(rows)| ==> MessagesOf(rows)[k].timestamp.Some?
    ensures forall i, j :: 0 <= i < j < |MessagesOf(rows)| ==>
              MessagesOf(rows)[i].timestamp.value <= MessagesOf(rows)[j].timestamp.value
    decreases |rows|
  {
    if |rows| > 0 {
      var init := rows[..|rows| - 1];
      var last := rows[|rows| - 1];
      assert StableSort.Sorted(init, RowKey);
      MessagesOfSorted(init);
      var a := MessagesOf(init);
      forall k | 0 <= k < |a| ensures a[k].timestamp.value <= last.message.value.timestamp {
        MessagesOfOrigin(init, a[k]);
        var r :| r in init && Keeps(r) && a[k] == MessageOf(r);
        var p :| 0 <= p < |init| && init[p] == r;
        assert RowKey(rows[p]) <= RowKey(rows[|rows| - 1]);
      }
    }
  }

  // ---------------------------------------------------------------------------
  // Properties of read

  /** As written, `read` finds nothing unless the conversation has a row AND at least
      one message row: the inner join drops a conversation without messages. */
  lemma ReadNoneIff(convs: seq<ConversationRow>, msgs: seq<MessageRow>, id: string)
    ensures ReadResult(convs, msgs, id).None?
            <==> (ConversationsWithId(convs, id) == [] || MessagesWithId(msgs, id) == [])
  {
    SortedLength(InnerJoin(convs, msgs, id));
    JoinRowsEmpty(ConversationsWithId(convs, id), MessagesWithId(msgs, id));
  }

  /** With the left join, `read` finds nothing exactly when no conversation row has the id. */
  lemma ReadLeftJoinNoneIff(convs: seq<ConversationRow>, msgs: seq<MessageRow>, id: string)
    ensures ReadLeftJoinResult(convs, msgs, id).None? <==> ConversationsWithId(convs, id) == []
  {
    SortedLength(LeftJoin(convs, msgs, id));
    JoinRowsEmpty(ConversationsWithId(convs, id), MessagesWithId(msgs, id));
  }

  /** What `read` returns belongs to the requested id: its conversation columns are those
      of a conversation row with that id, and every message carries the id, has a non-empty
      message id and a timestamp, and the messages are in ascending timestamp order. */
  lemma ReadBelongsAndOrdered(convs: seq<ConversationRow>, msgs: seq<MessageRow>, id: string)
    requires ReadResult(convs, msgs, id).Some?
    ensures var c := ReadResult(convs, msgs, id).value;
            && c.conversationId == id
            && ConversationRow(c.conversationId, c.userId, c.startedAt) in convs
            && (forall k :: 0 <= k < |c.messages| ==>
                  c.messages[k].conversationId == id && |c.messages[k].messageId| > 0
                  && c.messages[k].timestamp.Some?)
            && (forall i, j :: 0 <= i < j < |c.messages| ==>
                  c.messages[i].timestamp.value <= c.messages[j].timestamp.value)
  {
    var cs := ConversationsWithId(convs, id);
    var ms := MessagesWithId(msgs, id);
    var joined := InnerJoin(convs, msgs, id);
    assert joined == JoinRows(cs, ms);
    var rows := QueryResult(joined);
    SortedLength(joined);
    StableSort.SortByOrderedPermutation(joined, RowKey);
    ConversationsWithIdFacts(convs, id);
    forall r | r in rows
      ensures r.message.Some? && r.conversationId == id
      ensures ConversationRow(r.conversationId, r.userId, r.startedAt) in convs
    {
      SortedMember(joined, r);
      JoinRowsOrigin(cs, ms, r);
    }
    MessagesOfSorted(rows);
    var c := ReadResult(convs, msgs, id).value;
    assert c.messages == MessagesOf(rows);
    forall k | 0 <= k < |c.messages|
      ensures c.messages[k].conversationId == id && |c.messages[k].messageId| > 0
    {
      MessagesOfOrigin(rows, c.messages[k]);
    }
  }

  /** The message rows the fold keeps (a non-empty message id), in table order. */
  function WithIds(ms: seq<MessageRow>): (r: seq<MessageRow>)
    ensures forall i :: 0 <= i < |r| ==> r[i] in ms && |r[i].messageId| > 0
    ensures forall i :: 0 <= i < |ms| && |ms[i].messageId| > 0 ==> ms[i] in r
    decreases |ms|
  {
    if |ms| == 0 then []
    else
      var last := ms[|ms| - 1];
      assert ms == ms[..|ms| - 1] + [last];
      WithIds(ms[..|ms| - 1]) + (if |last.messageId| > 0 then [last] else [])
  }

  /** As written, `read` is complete for a conversation created once that has messages:
      it returns that conversation's columns and, counted with multiplicity, exactly the
      message rows with the id and a non-empty message id; so every such row is read
      back. No order of the appends is assumed (the order is `ReadBelongsAndOrdered`). */
  lemma ReadComplete(convs: seq<ConversationRow>, msgs: seq<MessageRow>, id: string, row: ConversationRow)
    requires ConversationsWithId(convs, id) == [row]
    requires MessagesWithId(msgs, id) != []
    ensures ReadResult(convs, msgs, id).Some?
    ensures var c := ReadResult(convs, msgs, id).value;
            && c.conversationId == id && c.userId == row.userId && c.startedAt == row.startedAt
            && multiset(c.messages) == multiset(AsMessages(WithIds(MessagesWithId(msgs, id))))
            && (forall m :: m in MessagesWithId(msgs, id) && |m.messageId| > 0 ==> ToMessageModel(m) in c.messages)
  {
    var ms := MessagesWithId(msgs, id);
    InnerJoinOneRow(convs, msgs, id, row);
    FoldMatches(row, ms);
    KeptReadBack(ms);
  }

  /** With one conversation row, the inner join is that row against its messages. */
  lemma InnerJoinOneRow(convs: seq<ConversationRow>, msgs: seq<MessageRow>, id: string, row: ConversationRow)
    requires ConversationsWithId(convs, id) == [row]
    requires MessagesWithId(msgs, id) != []
    ensures row.conversationId == id
    ensures forall m :: m in MessagesWithId(msgs, id) ==> m.conversationId == row.conversationId
    ensures InnerJoin(convs, msgs, id) == Matches(row, MessagesWithId(msgs, id))
  {
    var ms := MessagesWithId(msgs, id);
    ConversationWithIdHasId(convs, id, row);
    forall m | m in ms ensures m.conversationId == row.conversationId {
      MessageWithIdHasId(msgs, id, m);
    }
    JoinsWithMessages(convs, msgs, id, row);
    assert JoinRows([row], ms) == Matches(row, ms) + JoinRows([], ms);
  }

  /** Ordering and folding the rows of one conversation row gives its columns and, up to
      order, the messages with an id. */
  lemma FoldMatches(row: ConversationRow, ms: seq<MessageRow>)
    requires |ms| > 0
    requires forall m :: m in ms ==> m.conversationId == row.conversationId
    ensures var rows := QueryResult(Matches(row, ms));
            && Fold(rows) == Some(ConversationModel(row.conversationId, row.userId, row.startedAt, MessagesOf(rows)))
            && multiset(MessagesOf(rows)) == multiset(AsMessages(WithIds(ms)))
  {
    var joined := Matches(row, ms);
    var rows := QueryResult(joined);
    StableSort.SortByOrderedPermutation(joined, RowKey);
    assert |rows| == |joined| by {
      assert |multiset(rows)| == |multiset(joined)|;
    }
    assert rows[0] in multiset(joined);
    MessagesOfPermutation(rows, joined);
    MessagesOfMatchesKept(row, ms);
  }

  /** Every message row with an id is among the kept messages. */
  lemma KeptReadBack(ms: seq<MessageRow>)
    ensures forall m :: m in ms && |m.messageId| > 0 ==> ToMessageModel(m) in multiset(AsMessages(WithIds(ms)))
  {
    var kept := WithIds(ms);
    forall m | m in ms && |m.messageId| > 0 ensures ToMessageModel(m) in multiset(AsMessages(kept)) {
      var j :| 0 <= j < |ms| && ms[j] == m;
      assert m in kept;
      var i :| 0 <= i < |kept| && kept[i] == m;
      assert AsMessages(kept)[i] == ToMessageModel(m);
    }
  }

  /** The fold over the rows of one conversation row keeps the messages with an id. */
  lemma {:induction false} MessagesOfMatchesKept(c: ConversationRow, ms: seq<MessageRow>)
    requires forall m :: m in ms ==> m.conversationId == c.conversationId
    ensures MessagesOf(Matches(c, ms)) == AsMessages(WithIds(ms))
    decreases |ms|
  {
    if |ms| > 0 {
      var init := ms[..|ms| - 1];
      var last := ms[|ms| - 1];
      var rows := Matches(c, ms);
      assert rows[..|ms| - 1] == Matches(c, init);
      assert forall m :: m in init ==> m in ms;
      MessagesOfMatchesKept(c, init);
      assert last in ms;
      assert Keeps(rows[|ms| - 1]) <==> |last.messageId| > 0;
      assert MessageOf(rows[|ms| - 1]) == ToMessageModel(last);
      AsMessagesSnoc(WithIds(init), last);
    }
  }

  lemma AsMessagesSnoc(ms: seq<MessageRow>, m: MessageRow)
    ensures AsMessages(ms + [m]) == AsMessages(ms) + [ToMessageModel(m)]
  {
  }

  /** The fold's messages are a function of the rows' multiset. */
  lemma {:induction false} MessagesOfPermutation(r1: seq<JoinedRow>, r2: seq<JoinedRow>)
    requires multiset(r1) == multiset(r2)
    ensures multiset(MessagesOf(r1)) == multiset(MessagesOf(r2))
    decreases |r1|
  {
    if |r1| == 0 {
      assert |r2| == |multiset(r2)|;
    } else {
      var init := r1[..|r1| - 1];
      var x := r1[|r1| - 1];
      assert r1 == init + [x];
      assert x in multiset(r2);
      var k :| 0 <= k < |r2| && r2[k] == x;
      var rest := MessagesOfRemove(r2, k);
      MessagesOfPermutation(init, rest);
      MessagesOfAppend(init, [x]);
    }
  }

  /** Taking one row out of the rows takes its message, if kept, out of the fold. */
  lemma MessagesOfRemove(r: seq<JoinedRow>, k: nat) returns (rest: seq<JoinedRow>)
    requires k < |r|
    ensures rest == r[..k] + r[k + 1..]
    ensures multiset(rest) == multiset(r) - multiset{r[k]}
    ensures multiset(MessagesOf(r)) == multiset(MessagesOf(rest)) + multiset(MessagesOf([r[k]]))
  {
    rest := r[..k] + r[k + 1..];
    assert r == r[..k] + [r[k]] + r[k + 1..];
    MessagesOfAppend(r[..k] + [r[k]], r[k + 1..]);
    MessagesOfAppend(r[..k], [r[k]]);
    MessagesOfAppend(r[..k], r[k + 1..]);
  }

  lemma {:induction false} MessagesOfAppend(a: seq<JoinedRow>, b: seq<JoinedRow>)
    ensures MessagesOf(a + b) == MessagesOf(a) + MessagesOf(b)
    decreases |b|
  {
    if |b| == 0 {
      assert a + b == a;
    } else {
      var init := b[..|b| - 1];
      assert (a + b)[..|a + b| - 1] == a + init;
      MessagesOfAppend(a, init);
      assert MessagesOf(b) == MessagesOf(init) + MessagesOf([b[|b| - 1]]) by {
        assert [b[|b| - 1]][..0] == [];
      }
    }
  }

  lemma {:induction false} MessagesOfMatches(c: ConversationRow, ms: seq<MessageRow>)
    requires forall m :: m in ms ==> m.conversationId == c.conversationId && |m.messageId| > 0
    ensures MessagesOf(Matches(c, ms)) == AsMessages(ms)
    decreases |ms|
  {
    if |ms| > 0 {
      var init := ms[..|ms| - 1];
      assert Matches(c, ms)[..|ms| - 1] == Matches(c, init);
      MessagesOfMatches(c, init);
    }
  }

  /** Rows already in timestamp order come out of the ORDER BY unchanged. */
  lemma QueryResultOfSorted(rows: seq<JoinedRow>)
    requires StableSort.Sorted(rows, RowKey)
    ensures QueryResult(rows) == rows
  {
    StableSort.SortByOfSorted(rows, RowKey);
  }

  /** Appending messages to a conversation created once and reading it back gives
      exactly those messages, in append order, whenever the appends carry
      non-decreasing timestamps (ties included: the order is the table's). */
  lemma ReadAfterAppends(convs: seq<ConversationRow>, msgs: seq<MessageRow>, id: string, row: ConversationRow)
    requires ConversationsWithId(convs, id) == [row]
    requires IdsPresent(MessagesWithId(msgs, id)) && InTimeOrder(MessagesWithId(msgs, id))
    ensures ReadLeftJoinResult(convs, msgs, id)
            == Some(ConversationModel(id, row.userId, row.startedAt, AsMessages(MessagesWithId(msgs, id))))
    ensures MessagesWithId(msgs, id) != [] ==> ReadResult(convs, msgs, id) == ReadLeftJoinResult(convs, msgs, id)
  {
    var ms := MessagesWithId(msgs, id);
    ConversationWithIdHasId(convs, id, row);
    if |ms| == 0 {
      ReadNoMessages(convs, msgs, id, row);
      assert AsMessages(ms) == [];
    } else {
      forall m | m in ms ensures m.conversationId == id && |m.messageId| > 0 {
        MessageWithIdHasId(msgs, id, m);
      }
      ReadSomeMessages(row, ms);
      JoinsWithMessages(convs, msgs, id, row);
    }
  }

  lemma {:induction false} ConversationWithIdHasId(convs: seq<ConversationRow>, id: string, c: ConversationRow)
    requires c in ConversationsWithId(convs, id)
    ensures c.conversationId == id
    decreases |convs|
  {
    if convs[0].conversationId != id || c != convs[0] {
      ConversationWithIdHasId(convs[1..], id, c);
    }
  }

  lemma {:induction false} MessageWithIdHasId(msgs: seq<MessageRow>, id: string, m: MessageRow)
    requires m in MessagesWithId(msgs, id)
    ensures m.conversationId == id
    decreases |msgs|
  {
    if msgs[0].conversationId != id || m != msgs[0] {
      MessageWithIdHasId(msgs[1..], id, m);
    }
  }

  /** With exactly one conversation row and some messages, both joins give the same rows. */
  lemma JoinsWithMessages(convs: seq<ConversationRow>, msgs: seq<MessageRow>, id: string, row: ConversationRow)
    requires ConversationsWithId(convs, id) == [row]
    requires MessagesWithId(msgs, id) != []
    ensures InnerJoin(convs, msgs, id) == JoinRows([row], MessagesWithId(msgs, id))
    ensures LeftJoin(convs, msgs, id) == JoinRows([row], MessagesWithId(msgs, id))
  {
  }

  /** Every message row has a non-empty id. */
  predicate IdsPresent(ms: seq<MessageRow>) {
    forall m :: m in ms ==> |m.messageId| > 0
  }

  /** The message rows carry non-decreasing timestamps. */
  predicate InTimeOrder(ms: seq<MessageRow>) {
    forall i, j :: 0 <= i < j < |ms| ==> ms[i].timestamp <= ms[j].timestamp
  }

  lemma ReadNoMessages(convs: seq<ConversationRow>, msgs: seq<MessageRow>, id: string, row: ConversationRow)
    requires ConversationsWithId(convs, id) == [row] && row.conversationId == id
    requires MessagesWithId(msgs, id) == []
    ensures ReadLeftJoinResult(convs, msgs, id) == Some(ConversationModel(id, row.userId, row.startedAt, []))
  {
    var rows := LeftJoin(convs, msgs, id);
    assert rows == [JoinedRow(id, row.userId, row.startedAt, None)];
    QueryResultOfSorted(rows);
    assert MessagesOf(rows) == MessagesOf([]) + [];
  }

  lemma ReadSomeMessages(row: ConversationRow, ms: seq<MessageRow>)
    requires |ms| > 0
    requires forall m :: m in ms ==> m.conversationId == row.conversationId && |m.messageId| > 0
    requires InTimeOrder(ms)
    ensures Fold(QueryResult(JoinRows([row], ms)))
            == Some(ConversationModel(row.conversationId, row.userId, row.startedAt, AsMessages(ms)))
  {
    var rows := Matches(row, ms);
    assert JoinRows([row], ms) == rows by {
      assert JoinRows([row], ms) == Matches(row, ms) + JoinRows([], ms);
    }
    MatchesSorted(row, ms);
    QueryResultOfSorted(rows);
    MessagesOfMatches(row, ms);
    assert rows[0].conversationId == row.conversationId;
    assert Fold(rows) == Some(ConversationModel(row.conversationId, row.userId, row.startedAt, MessagesOf(rows)));
  }

  lemma MatchesSorted(row: ConversationRow, ms: seq<MessageRow>)
    requires InTimeOrder(ms)
    ensures StableSort.Sorted(Matches(row, ms), RowKey)
  {
    var rows := Matches(row, ms);
    forall i, j | 0 <= i < j < |rows| ensures RowKey(rows[i]) <= RowKey(rows[j]) {
      assert rows[i].message == Some(ms[i]) && rows[j].message == Some(ms[j]);
      assert ms[i].timestamp <= ms[j].timestamp;
    }
  }

  /** The defect: a conversation that has a row but no message row reads as nothing,
      although the left join finds it with no messages. */
  lemma EmptyConversationReadsAsNone(convs: seq<ConversationRow>, msgs: seq<MessageRow>, id: string)
    requires ConversationsWithId(convs, id) != []
    requires MessagesWithId(msgs, id) == []
    ensures ReadResult(convs, msgs, id) == None
    ensures ReadLeftJoinResult(convs, msgs, id).Some?
    ensures ReadLeftJoinResult(convs, msgs, id).value.messages == []
  {
    ReadNoneIff(convs, msgs, id);
    ReadLeftJoinNoneIff(convs, msgs, id);
    var rows := LeftJoin(convs, msgs, id);
    var sorted := QueryResult(rows);
    forall r | r in sorted ensures !Keeps(r) {
      SortedMember(rows, r);
    }
    MessagesOfNoneKept(sorted);
  }

  lemma {:induction false} MessagesOfNoneKept(rows: seq<JoinedRow>)
    requires forall r :: r in rows ==> !Keeps(r)
    ensures MessagesOf(rows) == []
    decreases |rows|
  {
    if |rows| > 0 {
      MessagesOfNoneKept(rows[..|rows| - 1]);
    }
  }

  /** `k` copies of a sequence, one after another. */
  function Repeat<T>(s: seq<T>, k: nat): seq<T>
    decreases k
  {
    if k == 0 then [] else s + Repeat(s, k - 1)
  }

  lemma {:induction false} RepeatCount<T>(s: seq<T>, k: nat, x: T)
    ensures multiset(Repeat(s, k))[x] == k * multiset(s)[x]
    decreases k
  {
    if k > 0 {
      var n := multiset(s)[x];
      RepeatCount(s, k - 1, x);
      assert multiset(s + Repeat(s, k - 1)) == multiset(s) + multiset(Repeat(s, k - 1));
      assert multiset(Repeat(s, k))[x] == n + (k - 1) * n;
      assert n + (k - 1) * n == k * n;
    }
  }

  /** As written, `create` does not check for an existing row, and the read joins every
      conversation row with the id to every message row with it: with `k` rows for one
      id, each message with a message id comes back `k` times. */
  lemma ReadRepeatsMessages(convs: seq<ConversationRow>, msgs: seq<MessageRow>, id: string)
    requires ConversationsWithId(convs, id) != [] && MessagesWithId(msgs, id) != []
    ensures ReadResult(convs, msgs, id).Some?
    ensures var k := |ConversationsWithId(convs, id)|;
            var kept := AsMessages(WithIds(MessagesWithId(msgs, id)));
            forall m :: multiset(ReadResult(convs, msgs, id).value.messages)[m] == k * multiset(kept)[m]
  {
    var cs := ConversationsWithId(convs, id);
    var kept := AsMessages(WithIds(MessagesWithId(msgs, id)));
    ReadNoneIff(convs, msgs, id);
    ReadMessagesOfJoin(convs, msgs, id);
    ConversationsWithIdFacts(convs, id);
    MessagesWithIdFacts(msgs, id);
    MessagesOfJoinRows(cs, MessagesWithId(msgs, id), id);
    forall m ensures multiset(ReadResult(convs, msgs, id).value.messages)[m] == |cs| * multiset(kept)[m] {
      RepeatCount(kept, |cs|, m);
    }
  }

  /** The ORDER BY does not change which messages the read returns. */
  lemma ReadMessagesOfJoin(convs: seq<ConversationRow>, msgs: seq<MessageRow>, id: string)
    requires ReadResult(convs, msgs, id).Some?
    ensures multiset(ReadResult(convs, msgs, id).value.messages) == multiset(MessagesOf(InnerJoin(convs, msgs, id)))
  {
    var joined := InnerJoin(convs, msgs, id);
    StableSort.SortByOrderedPermutation(joined, RowKey);
    MessagesOfPermutation(QueryResult(joined), joined);
  }

  /** Every conversation row with the id contributes the same kept messages. */
  lemma {:induction false} MessagesOfJoinRows(cs: seq<ConversationRow>, ms: seq<MessageRow>, id: string)
    requires forall c :: c in cs ==> c.conversationId == id
    requires forall m :: m in ms ==> m.conversationId == id
    ensures MessagesOf(JoinRows(cs, ms)) == Repeat(AsMessages(WithIds(ms)), |cs|)
    decreases |cs|
  {
    if |cs| > 0 {
      assert cs[0] in cs;
      assert forall c :: c in cs[1..] ==> c in cs;
      MessagesOfJoinRows(cs[1..], ms, id);
      MessagesOfAppend(Matches(cs[0], ms), JoinRows(cs[1..], ms));
      MessagesOfMatchesKept(cs[0], ms);
    }
  }

  /** A second `create` with an existing id is not refused, and the read then returns
      every message once per conversation row. */
  lemma DuplicateCreateRepeatsMessages()
    ensures var c := ConversationRow("c", "u", 0);
            var m := MessageRow("m", "c", User, [], 5);
            && ReadResult([c, c], [m], "c").Some?
            && ReadResult([c, c], [m], "c").value.messages == [ToMessageModel(m), ToMessageModel(m)]
  {
    var c := ConversationRow("c", "u", 0);
    var m := MessageRow("m", "c", User, [], 5);
    assert ConversationsWithId([c, c], "c") == [c, c];
    assert MessagesWithId([m], "c") == [m];
    var rows := JoinRows([c, c], [m]);
    assert [c, c][1..] == [c];
    assert JoinRows([c], [m]) == Matches(c, [m]) + JoinRows([], [m]);
    assert rows == Matches(c, [m]) + Matches(c, [m]);
    assert StableSort.Sorted(rows, RowKey);
    StableSort.SortByOfSorted(rows, RowKey);
    assert rows[..1] == [rows[0]];
  }

  /** After `delete` the conversation cannot be read even though its messages remain. */
  lemma ReadAfterDelete(convs: seq<ConversationRow>, msgs: seq<MessageRow>, id: string)
    ensures ConversationsWithId(Without(convs, id), id) == []
    ensures ReadResult(Without(convs, id), msgs, id).None?
    ensures ReadLeftJoinResult(Without(convs, id), msgs, id).None?
  {
    WithoutRemovesId(convs, id);
    ReadNoneIff(Without(convs, id), msgs, id);
    ReadLeftJoinNoneIff(Without(convs, id), msgs, id);
  }

  lemma {:induction false} WithoutRemovesId(convs: seq<ConversationRow>, id: string)
    ensures ConversationsWithId(Without(convs, id), id) == []
    decreases |convs|
  {
    if |convs| > 0 {
      WithoutRemovesId(convs[1..], id);
      var w := Without(convs[1..], id);
      if convs[0].conversationId != id {
        assert Without(convs, id) == [convs[0]] + w;
        assert ([convs[0]] + w)[1..] == w;
      } else {
        assert Without(convs, id) == w;
      }
    }
  }

  /** A message row appended to the table joins the rows of its own conversation, last. */
  lemma {:induction false} MessagesWithIdAppend(msgs: seq<MessageRow>, id: string, m: MessageRow)
    ensures MessagesWithId(msgs + [m], id) == MessagesWithId(msgs, id) + (if m.conversationId == id then [m] else [])
    decreases |msgs|
  {
    if |msgs| > 0 {
      assert (msgs + [m])[1..] == msgs[1..] + [m];
      MessagesWithIdAppend(msgs[1..], id, m);
    } else {
      assert MessagesWithId([m], id) == (if m.conversationId == id then [m] else []) + MessagesWithId([], id);
    }
  }

  /** A conversation row appended to the table is the last row with its id. */
  lemma {:induction false} ConversationsWithIdAppend(convs: seq<ConversationRow>, id: string, c: ConversationRow)
    ensures ConversationsWithId(convs + [c], id)
            == ConversationsWithId(convs, id) + (if c.conversationId == id then [c] else [])
    decreases |convs|
  {
    if |convs| > 0 {
      assert (convs + [c])[1..] == convs[1..] + [c];
      ConversationsWithIdAppend(convs[1..], id, c);
    } else {
      assert ConversationsWithId([c], id) == (if c.conversationId == id then [c] else []) + ConversationsWithId([], id);
    }
  }
}
