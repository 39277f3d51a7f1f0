/** Conversations and their chunk rows: inserting, appending by compare-and-swap on the
    conversation hash, and marking chunks as indexed in the table and in the payload. */
module Conversations {
  import opened Options
  import opened ChunkPayload

  datatype ConversationId = ConversationId(text: string)

  datatype Message = Message(hash: string, role: string, text: string)

  /** The digest of a conversation is injective: it stands for its messages. */
  datatype ConversationHash = ConversationHash(messages: seq<Message>)

  /** `chunks` is None when the metadata holds no list of chunks. */
  datatype Payload = Payload(messages: seq<Message>, chunks: Option<seq<Item>>)

  /** `session` identifies the session that a conversation was imported from. */
  datatype Conversation = Conversation(
    hash: Option<ConversationHash>, project: string, session: Option<string>, payload: Payload)

  datatype ChunkRow = ChunkRow(conversation: ConversationId, index: int, state: IndexState, body: string)

  type ChunkTable = map<string, ChunkRow>

  datatype Tables = Tables(conversations: map<ConversationId, Conversation>, chunks: ChunkTable)

  const EmptyTables := Tables(map[], map[])

  // ---- chunk rows ---------------------------------------------------------------------

  /** A chunk that a row can be made from: it has an id entry and an index. */
  predicate Storable(item: Item) {
    item.Chunk? && !item.id.Absent? && item.index.Some?
  }

  function ItemRow(c: ConversationId, item: Item): ChunkRow
    requires Storable(item)
  {
    ChunkRow(c, item.index.value, if item.state.Some? then item.state.value else Pending, item.body)
  }

  function DecimalText(n: nat): string {
    var digit := ['0' + (n % 10) as char];
    if n < 10 then digit else DecimalText(n / 10) + digit
  }

  function FallbackItem(c: ConversationId, index: nat, message: Message): Item {
    Chunk(Text(c.text + ":" + DecimalText(index) + ":" + message.hash), Some(index), Some(Pending), message.text)
  }

  /** The payload's chunks when they are a list of objects, else one chunk per message. */
  function IndexItems(c: ConversationId, payload: Payload): seq<Item> {
    if payload.chunks.Some? && (forall k :: 0 <= k < |payload.chunks.value| ==> payload.chunks.value[k].Chunk?)
    then payload.chunks.value
    else seq(|payload.messages|, i requires 0 <= i < |payload.messages| => FallbackItem(c, i, payload.messages[i]))
  }

  /** INSERT OR REPLACE: a row with the same id, or the same conversation and index, gives way. */
  function PutRow(chunks: ChunkTable, id: string, row: ChunkRow): ChunkTable {
    (map other | other in chunks
                 && !(chunks[other].conversation == row.conversation && chunks[other].index == row.index)
       :: chunks[other])[id := row]
  }

  predicate AllStorable(items: seq<Item>) {
    forall k :: 0 <= k < |items| ==> Storable(items[k])
  }

  function PutItems(chunks: ChunkTable, c: ConversationId, items: seq<Item>): ChunkTable
    requires AllStorable(items)
  {
    if items == [] then chunks
    else
      var last := items[|items| - 1];
      PutRow(PutItems(chunks, c, items[..|items| - 1]), IdString(last.id), ItemRow(c, last))
  }

  function WithoutRowsOf(chunks: ChunkTable, c: ConversationId): ChunkTable {
    map id | id in chunks && chunks[id].conversation != c :: chunks[id]
  }

  /** `_replace_child_rows` for the chunk table; a chunk without id or index raises. */
  function ReplaceRows(chunks: ChunkTable, c: ConversationId, payload: Payload): Option<ChunkTable> {
    if !AllStorable(IndexItems(c, payload)) then None
    else Some(PutItems(WithoutRowsOf(chunks, c), c, IndexItems(c, payload)))
  }

  function Ids(chunkIds: seq<string>): set<string> {
    set id | id in chunkIds
  }

  function MarkRows(chunks: ChunkTable, c: ConversationId, ids: set<string>, state: IndexState): ChunkTable {
    map id | id in chunks ::
      if chunks[id].conversation == c && id in ids then chunks[id].(state := state) else chunks[id]
  }

  // ---- one function per transaction -----------------------------------------------------

  /** The unique index on project and hash. */
  predicate SameHash(a: Conversation, b: Conversation) {
    a.hash.Some? && b.hash == a.hash && b.project == a.project
  }

  /** The unique index on project and imported session. */
  predicate SameSession(a: Conversation, b: Conversation) {
    a.session.Some? && b.session == a.session && b.project == a.project
  }

  /** Another conversation has a key of this one. */
  predicate Taken(conversations: map<ConversationId, Conversation>, c: ConversationId, conv: Conversation) {
    exists other :: other in conversations && other != c
                    && (SameHash(conv, conversations[other]) || SameSession(conv, conversations[other]))
  }

  function Write(t: Tables, c: ConversationId, conv: Conversation): Option<Tables> {
    var rows := ReplaceRows(t.chunks, c, conv.payload);
    if Taken(t.conversations, c, conv) || rows.None? then None
    else Some(Tables(t.conversations[c := conv], rows.value))
  }

  function InsertNew(t: Tables, c: ConversationId, conv: Conversation): Option<Tables> {
    if c in t.conversations then None else Write(t, c, conv)
  }

  /** The stored session is not among the columns that an append sets. */
  function Carried(stored: Conversation, conv: Conversation): Conversation {
    conv.(session := stored.session)
  }

  /** `append_messages` with an expected hash. */
  function Append(t: Tables, c: ConversationId, expected: ConversationHash, conv: Conversation): Option<Tables> {
    if c !in t.conversations || t.conversations[c].hash != Some(expected) then None
    else Write(t, c, Carried(t.conversations[c], conv))
  }

  function MarkPayload(conv: Conversation, chunkIds: seq<string>, state: IndexState): Conversation {
    if conv.payload.chunks.None? then conv
    else conv.(payload := conv.payload.(chunks := Some(MarkItems(conv.payload.chunks.value, chunkIds, state))))
  }

  function Mark(t: Tables, c: ConversationId, chunkIds: seq<string>, state: IndexState): Tables {
    Tables(if c in t.conversations then t.conversations[c := MarkPayload(t.conversations[c], chunkIds, state)]
           else t.conversations,
           MarkRows(t.chunks, c, Ids(chunkIds), state))
  }

  lemma MarkRowsNext(chunks: ChunkTable, c: ConversationId, chunkIds: seq<string>, i: nat, state: IndexState)
    requires i < |chunkIds|
    ensures
      var before := MarkRows(chunks, c, Ids(chunkIds[..i]), state);
      var id := chunkIds[i];
      MarkRows(chunks, c, Ids(chunkIds[..i + 1]), state)
      == if id in before && before[id].conversation == c then before[id := before[id].(state := state)] else before
  {
    assert chunkIds[..i + 1] == chunkIds[..i] + [chunkIds[i]];
    assert Ids(chunkIds[..i + 1]) == Ids(chunkIds[..i]) + {chunkIds[i]};
  }

  function RowsOf(chunks: ChunkTable, c: ConversationId): set<string> {
    set id | id in chunks && chunks[id].conversation == c
  }

  function IndexedRowsOf(chunks: ChunkTable, c: ConversationId): set<string> {
    set id | id in chunks && chunks[id].conversation == c && chunks[id].state.Indexed?
  }

  /** The answer of the count query: there are rows, and all of them are indexed. */
  predicate FullyIndexed(t: Tables, c: ConversationId) {
    RowsOf(t.chunks, c) != {} && RowsOf(t.chunks, c) == IndexedRowsOf(t.chunks, c)
  }

  // ---- an insertion that met a taken key --------------------------------------------------------

  datatype InsertOutcome =
    | Inserted | Existing(id: ConversationId) | SessionConflict | Refused | Unresolved | Unstorable

  predicate HasHash(conversations: map<ConversationId, Conversation>, d: ConversationId, conv: Conversation) {
    d in conversations && SameHash(conv, conversations[d])
  }

  /** An empty session is not looked for. */
  predicate HasSession(conversations: map<ConversationId, Conversation>, d: ConversationId, conv: Conversation) {
    d in conversations && SameSession(conv, conversations[d]) && conv.session.value != ""
  }

  /** The conversation that the conflict is put down to: one with the hash in the project, else one
      with the session in the project, else the one with the id. */
  ghost predicate Holder(
      conversations: map<ConversationId, Conversation>, d: ConversationId, c: ConversationId, conv: Conversation)
  {
    if exists e :: HasHash(conversations, e, conv) then HasHash(conversations, d, conv)
    else if exists e :: HasSession(conversations, e, conv) then HasSession(conversations, d, conv)
    else d == c && c in conversations
  }

  /** What is made of it. */
  function Verdict(stored: Conversation, d: ConversationId, conv: Conversation): InsertOutcome {
    if conv.session.Some? && stored.session == conv.session && stored.hash != conv.hash then SessionConflict
    else if stored.hash != conv.hash || stored.project != conv.project then Refused
    else Existing(d)
  }

  // ---- the store as an object --------------------------------------------------------------

  class ConversationStore {
    var conversations: map<ConversationId, Conversation>
    var chunks: ChunkTable

    function Contents(): Tables
      reads this
    {
      Tables(conversations, chunks)
    }

    constructor ()
      ensures Contents() == EmptyTables
    {
      conversations, chunks := map[], map[];
    }

    /** Stops with false at the first chunk that cannot be stored; the caller rolls back. */
    method ReplaceChildRows(c: ConversationId, payload: Payload) returns (ok: bool)
      modifies this`chunks
      ensures ok <==> ReplaceRows(old(chunks), c, payload).Some?
      ensures ok ==> chunks == ReplaceRows(old(chunks), c, payload).value
    {
      chunks := WithoutRowsOf(chunks, c);
      var base := chunks;
      var items := IndexItems(c, payload);
      var i := 0;
      while i < |items|
        invariant 0 <= i <= |items|
        invariant AllStorable(items[..i])
        invariant chunks == PutItems(base, c, items[..i])
      {
        if !Storable(items[i]) {
          return false;
        }
        assert items[..i + 1][..i] == items[..i];
        chunks := PutRow(chunks, IdString(items[i].id), ItemRow(c, items[i]));
        i := i + 1;
      }
      assert items[..i] == items;
      return true;
    }

    method Insert(c: ConversationId, conv: Conversation) returns (ok: bool)
      modifies this
      ensures ok <==> Write(old(Contents()), c, conv).Some?
      ensures Contents() == if ok then Write(old(Contents()), c, conv).value else old(Contents())
    {
      ok := !Taken(conversations, c, conv);
      if !ok {
        return;
      }
      var conversationsBefore, chunksBefore := conversations, chunks;
      conversations := conversations[c := conv];
      ok := ReplaceChildRows(c, conv.payload);
      if !ok {
        conversations, chunks := conversationsBefore, chunksBefore;
      }
    }

    /** The second read, after the rollback. */
    method ResolveInsertNewConflict(c: ConversationId, conv: Conversation) returns (outcome: InsertOutcome)
      ensures outcome.Unresolved? <==> forall d :: !Holder(conversations, d, c, conv)
      ensures !outcome.Unresolved? ==>
                exists d :: d in conversations && Holder(conversations, d, c, conv)
                            && outcome == Verdict(conversations[d], d, conv)
    {
      var existing := c;
      if exists d :: d in conversations && HasHash(conversations, d, conv) {
        existing :| existing in conversations && HasHash(conversations, existing, conv);
      } else if exists d :: d in conversations && HasSession(conversations, d, conv) {
        existing :| existing in conversations && HasSession(conversations, existing, conv);
      } else if c !in conversations {
        return Unresolved;
      }
      assert Holder(conversations, existing, c, conv);
      outcome := Verdict(conversations[existing], existing, conv);
    }

    /** `insert_new`. On a taken key the insertion is rolled back and the holder of the key is read
        in a new transaction; `meanwhile` is what others have made of the tables by then. */
    method InsertNewConversation(c: ConversationId, conv: Conversation, meanwhile: Tables)
      returns (outcome: InsertOutcome)
      modifies this
      ensures outcome.Inserted? <==> InsertNew(old(Contents()), c, conv).Some?
      ensures outcome.Unstorable? <==>
                c !in old(conversations) && !Taken(old(conversations), c, conv)
                && ReplaceRows(old(chunks), c, conv.payload).None?
      ensures outcome.Inserted? ==> Contents() == InsertNew(old(Contents()), c, conv).value
      ensures outcome.Unstorable? ==> Contents() == old(Contents())
      ensures !outcome.Inserted? && !outcome.Unstorable? ==> Contents() == meanwhile
      ensures outcome.Unresolved? ==> forall d :: !Holder(meanwhile.conversations, d, c, conv)
      ensures !outcome.Inserted? && !outcome.Unstorable? && !outcome.Unresolved? ==>
                exists d :: d in meanwhile.conversations && Holder(meanwhile.conversations, d, c, conv)
                            && outcome == Verdict(meanwhile.conversations[d], d, conv)
    {
      if c !in conversations && !Taken(conversations, c, conv) {
        var ok := Insert(c, conv);
        return if ok then Inserted else Unstorable;
      }
      conversations, chunks := meanwhile.conversations, meanwhile.chunks;
      outcome := ResolveInsertNewConflict(c, conv);
    }

    method AppendMessages(c: ConversationId, expected: ConversationHash, conv: Conversation) returns (ok: bool)
      modifies this
      ensures ok <==> Append(old(Contents()), c, expected, conv).Some?
      ensures Contents() == if ok then Append(old(Contents()), c, expected, conv).value else old(Contents())
    {
      if c !in conversations || conversations[c].hash != Some(expected) {
        return false;
      }
      ok := Insert(c, Carried(conversations[c], conv));
    }

    method MarkChunksState(c: ConversationId, chunkIds: seq<string>, state: IndexState)
      modifies this
      ensures Contents() == Mark(old(Contents()), c, chunkIds, state)
    {
      var i := 0;
      while i < |chunkIds|
        invariant 0 <= i <= |chunkIds|
        invariant conversations == old(conversations)
        invariant chunks == MarkRows(old(chunks), c, Ids(chunkIds[..i]), state)
      {
        MarkRowsNext(old(chunks), c, chunkIds, i, state);
        if chunkIds[i] in chunks && chunks[chunkIds[i]].conversation == c {
          chunks := chunks[chunkIds[i] := chunks[chunkIds[i]].(state := state)];
        }
        i := i + 1;
      }
      assert chunkIds[..i] == chunkIds;
      if c in conversations {
        var conv := conversations[c];
        var updated := UpdateIndexChunksPayload(conv.payload.chunks, chunkIds, state);
        conversations := conversations[c := conv.(payload := conv.payload.(chunks := updated))];
      }
    }

    method IsFullyIndexed(c: ConversationId) returns (full: bool)
      ensures full <==> FullyIndexed(Contents(), c)
    {
      var total, indexed := |RowsOf(chunks, c)|, |IndexedRowsOf(chunks, c)|;
      if total == 0 {
        return false;
      }
      EqualCountMeansAll(IndexedRowsOf(chunks, c), RowsOf(chunks, c));
      full := total == indexed;
    }
  }

  lemma EqualCountMeansAll<T>(part: set<T>, whole: set<T>)
    requires part <= whole
    ensures |part| == |whole| <==> part == whole
  {
    assert |whole| == |part| + |whole - part| by {
      assert whole == part + (whole - part);
    }
  }

  // ---- keys are unique, and a conflict finds the holder --------------------------------------------

  /** The two unique indexes. */
  ghost predicate Unique(conversations: map<ConversationId, Conversation>) {
    forall c, d :: c in conversations && d in conversations && c != d ==>
      !SameHash(conversations[c], conversations[d]) && !SameSession(conversations[c], conversations[d])
  }

  lemma WriteKeepsUnique(t: Tables, c: ConversationId, conv: Conversation)
    requires Unique(t.conversations) && Write(t, c, conv).Some?
    ensures Unique(Write(t, c, conv).value.conversations)
  {
  }

  lemma MarkKeepsUnique(t: Tables, c: ConversationId, chunkIds: seq<string>, state: IndexState)
    requires Unique(t.conversations)
    ensures Unique(Mark(t, c, chunkIds, state).conversations)
  {
  }

  /** While a conversation with the same content is stored in the project, nothing is inserted, and
      the conflict resolves to that conversation and to no other. */
  lemma SameContentIsFound(t: Tables, c: ConversationId, d: ConversationId, conv: Conversation)
    requires Unique(t.conversations) && HasHash(t.conversations, c, conv)
    ensures InsertNew(t, d, conv).None?
    ensures forall e :: Holder(t.conversations, e, d, conv) <==> e == c
    ensures Verdict(t.conversations[c], c, conv) == Existing(c)
  {
    assert d != c ==> Taken(t.conversations, d, conv);
    forall e | HasHash(t.conversations, e, conv) ensures e == c {
      assert e != c ==> SameHash(t.conversations[c], t.conversations[e]);
    }
  }

  /** In particular right after it was inserted, under whatever id it comes again. */
  lemma ReinsertionFindsTheFirst(t: Tables, c: ConversationId, conv: Conversation, d: ConversationId)
    requires Unique(t.conversations) && InsertNew(t, c, conv).Some? && conv.hash.Some?
    ensures
      var after := InsertNew(t, c, conv).value;
      && InsertNew(after, d, conv).None?
      && (forall e :: Holder(after.conversations, e, d, conv) <==> e == c)
      && Verdict(after.conversations[c], c, conv) == Existing(c)
  {
    WriteKeepsUnique(t, c, conv);
    SameContentIsFound(InsertNew(t, c, conv).value, c, d, conv);
  }

  /** New content of a session that is imported already is a conflict of sessions. */
  lemma NewContentOfSessionConflicts(t: Tables, c: ConversationId, d: ConversationId, conv: Conversation)
    requires Unique(t.conversations) && HasSession(t.conversations, c, conv)
    requires forall e :: !HasHash(t.conversations, e, conv)
    ensures d != c ==> InsertNew(t, d, conv).None?
    ensures forall e :: Holder(t.conversations, e, d, conv) <==> e == c
    ensures Verdict(t.conversations[c], c, conv)
         == if t.conversations[c].hash == conv.hash then Existing(c) else SessionConflict
  {
    assert d != c ==> Taken(t.conversations, d, conv);
    forall e | HasSession(t.conversations, e, conv) ensures e == c {
      assert e != c ==> SameSession(t.conversations[c], t.conversations[e]);
    }
  }

  // ---- payload and table agree ----------------------------------------------------------------

  /** Chunks with non-empty text ids and indexes, all distinct. */
  ghost predicate Proper(items: seq<Item>) {
    && (forall k :: 0 <= k < |items| ==> Storable(items[k]) && items[k].id.Text? && items[k].id.value != "")
    && (forall j, k :: 0 <= j < k < |items| ==> items[j].id != items[k].id && items[j].index != items[k].index)
  }

  function ItemIds(items: seq<Item>): set<string> {
    set k | 0 <= k < |items| && items[k].Chunk? :: IdString(items[k].id)
  }

  /** The rows of the conversation are the payload's chunks, state included. */
  ghost predicate RowsAgree(chunks: ChunkTable, c: ConversationId, items: seq<Item>) {
    && Proper(items)
    && (forall k :: 0 <= k < |items| ==>
          items[k].id.value in chunks && chunks[items[k].id.value] == ItemRow(c, items[k]))
    && RowsOf(chunks, c) == ItemIds(items)
  }

  ghost predicate Agree(t: Tables) {
    && (forall c :: c in t.conversations ==>
          t.conversations[c].payload.chunks.Some?
          && RowsAgree(t.chunks, c, t.conversations[c].payload.chunks.value))
    && (forall id :: id in t.chunks ==> t.chunks[id].conversation in t.conversations)
  }

  /** What a caller provides: a proper chunk list whose ids no other conversation uses. */
  ghost predicate ProperFor(t: Tables, c: ConversationId, conv: Conversation) {
    && conv.payload.chunks.Some?
    && Proper(conv.payload.chunks.value)
    && forall id :: id in ItemIds(conv.payload.chunks.value) && id in t.chunks ==> t.chunks[id].conversation == c
  }

  lemma ProperFront(items: seq<Item>)
    requires Proper(items) && items != []
    ensures
      var front, last := items[..|items| - 1], items[|items| - 1];
      && Proper(front)
      && ItemIds(items) == ItemIds(front) + {IdString(last.id)}
      && IdString(last.id) !in ItemIds(front)
      && items == front + [last]
  {
    var front := items[..|items| - 1];
    assert forall k :: 0 <= k < |front| ==> front[k] == items[k];
  }

  lemma {:induction false} PutItemsAdds(base: ChunkTable, c: ConversationId, items: seq<Item>)
    requires Proper(items) && RowsOf(base, c) == {}
    requires forall id :: id in ItemIds(items) ==> id !in base
    ensures RowsAgree(PutItems(base, c, items), c, items)
    ensures PutItems(base, c, items).Keys == base.Keys + ItemIds(items)
    ensures forall id :: id in base ==> PutItems(base, c, items)[id] == base[id]
    decreases |items|
  {
    if items != [] {
      var front, last := items[..|items| - 1], items[|items| - 1];
      ProperFront(items);
      PutItemsAdds(base, c, front);
      PutOneMore(PutItems(base, c, front), c, front, last);
    } else {
      assert ItemIds(items) == {};
    }
  }

  /** A row with a new id and a new index pushes nothing out. */
  lemma PutOneMore(chunks: ChunkTable, c: ConversationId, items: seq<Item>, last: Item)
    requires RowsAgree(chunks, c, items) && Proper(items + [last]) && Storable(last)
    requires IdString(last.id) !in chunks
    ensures RowsAgree(PutRow(chunks, IdString(last.id), ItemRow(c, last)), c, items + [last])
    ensures PutRow(chunks, IdString(last.id), ItemRow(c, last)) == chunks[IdString(last.id) := ItemRow(c, last)]
  {
    var all := items + [last];
    assert all[|items|] == last;
    forall id | id in chunks && chunks[id].conversation == c ensures chunks[id].index != last.index.value {
      assert id in ItemIds(items);
      var k :| 0 <= k < |items| && items[k].id.value == id;
      assert all[k] == items[k];
    }
    var after := PutRow(chunks, IdString(last.id), ItemRow(c, last));
    assert after == chunks[IdString(last.id) := ItemRow(c, last)];
    assert ItemIds(all) == ItemIds(items) + {IdString(last.id)} by {
      assert forall k :: 0 <= k < |items| ==> all[k] == items[k];
    }
    forall k | 0 <= k < |all| ensures all[k].id.value in after && after[all[k].id.value] == ItemRow(c, all[k]) {
      if k < |items| {
        assert all[k] == items[k];
      }
    }
    assert RowsOf(after, c) == RowsOf(chunks, c) + {IdString(last.id)};
  }

  lemma ProperItemsAreStored(c: ConversationId, payload: Payload)
    requires payload.chunks.Some? && Proper(payload.chunks.value)
    ensures IndexItems(c, payload) == payload.chunks.value && AllStorable(IndexItems(c, payload))
  {
  }

  /** Writing a proper conversation never fails on its chunks and leaves table and payload in agreement. */
  lemma WriteKeepsAgree(t: Tables, c: ConversationId, conv: Conversation)
    requires Agree(t) && ProperFor(t, c, conv)
    ensures Write(t, c, conv).Some? <==> !Taken(t.conversations, c, conv)
    ensures Write(t, c, conv).Some? ==> Agree(Write(t, c, conv).value)
  {
    ProperItemsAreStored(c, conv.payload);
    if Write(t, c, conv).Some? {
      var items := conv.payload.chunks.value;
      var base := WithoutRowsOf(t.chunks, c);
      assert RowsOf(base, c) == {};
      PutItemsAdds(base, c, items);
      var after := Write(t, c, conv).value;
      forall d | d in after.conversations && d != c
        ensures after.conversations[d].payload.chunks.Some?
                && RowsAgree(after.chunks, d, after.conversations[d].payload.chunks.value)
      {
        OthersKeepRows(t.chunks, after.chunks, c, d, t.conversations[d].payload.chunks.value);
      }
    }
  }

  lemma OthersKeepRows(before: ChunkTable, after: ChunkTable, c: ConversationId, d: ConversationId, items: seq<Item>)
    requires RowsAgree(before, d, items) && c != d
    requires forall id :: id in before && before[id].conversation != c ==> id in after && after[id] == before[id]
    requires forall id :: id in after && after[id].conversation != c ==> id in before && after[id] == before[id]
    ensures RowsAgree(after, d, items)
  {
    assert RowsOf(after, d) == RowsOf(before, d);
  }

  lemma MarkKeepsAgree(t: Tables, c: ConversationId, chunkIds: seq<string>, state: IndexState)
    requires Agree(t)
    ensures Agree(Mark(t, c, chunkIds, state))
  {
    var after := Mark(t, c, chunkIds, state);
    forall d | d in after.conversations
      ensures after.conversations[d].payload.chunks.Some?
              && RowsAgree(after.chunks, d, after.conversations[d].payload.chunks.value)
    {
      if d == c {
        MarkKeepsRowsAgree(t.chunks, c, t.conversations[c].payload.chunks.value, chunkIds, state);
      } else {
        OthersKeepRows(t.chunks, after.chunks, c, d, t.conversations[d].payload.chunks.value);
      }
    }
  }

  /** On proper items marking goes by id alone. */
  lemma MarkedProperItem(item: Item, chunkIds: seq<string>, state: IndexState)
    requires Storable(item) && item.id.Text? && item.id.value != ""
    ensures MarkItem(item, chunkIds, state) == if item.id.value in chunkIds then item.(state := Some(state)) else item
  {
  }

  lemma MarkedItemsProper(items: seq<Item>, chunkIds: seq<string>, state: IndexState)
    requires Proper(items)
    ensures Proper(MarkItems(items, chunkIds, state))
    ensures ItemIds(MarkItems(items, chunkIds, state)) == ItemIds(items)
  {
    var marked := MarkItems(items, chunkIds, state);
    forall k | 0 <= k < |items|
      ensures marked[k].Chunk? && marked[k].id == items[k].id && marked[k].index == items[k].index
    {
      MarkedProperItem(items[k], chunkIds, state);
    }
  }

  lemma MarkKeepsRowsAgree(
      chunks: ChunkTable, c: ConversationId, items: seq<Item>, chunkIds: seq<string>, state: IndexState)
    requires RowsAgree(chunks, c, items)
    ensures RowsAgree(MarkRows(chunks, c, Ids(chunkIds), state), c, MarkItems(items, chunkIds, state))
  {
    var marked := MarkItems(items, chunkIds, state);
    var after := MarkRows(chunks, c, Ids(chunkIds), state);
    MarkedItemsProper(items, chunkIds, state);
    forall k | 0 <= k < |marked|
      ensures marked[k].id.value in after && after[marked[k].id.value] == ItemRow(c, marked[k])
    {
      MarkedProperItem(items[k], chunkIds, state);
    }
    assert RowsOf(after, c) == RowsOf(chunks, c);
  }

  /** In agreement, the count query answers exactly whether the payload has chunks and all are indexed. */
  lemma FullyIndexedMeansAllChunks(t: Tables, c: ConversationId)
    requires Agree(t) && c in t.conversations
    ensures
      var items := t.conversations[c].payload.chunks.value;
      FullyIndexed(t, c)
      <==> (items != [] && forall k :: 0 <= k < |items| ==> items[k].Chunk? && items[k].state == Some(Indexed))
  {
    var items := t.conversations[c].payload.chunks.value;
    if items != [] {
      assert items[0].id.value in RowsOf(t.chunks, c);
    } else {
      assert ItemIds(items) == {};
    }
    forall k | 0 <= k < |items|
      ensures items[k].id.value in IndexedRowsOf(t.chunks, c) <==> items[k].state == Some(Indexed)
    {
    }
    assert forall id :: id in RowsOf(t.chunks, c) ==> exists k :: 0 <= k < |items| && items[k].id.value == id;
  }

  /** An append writes the chunk states its caller read earlier: whatever was marked in
      between is gone, because marking does not change the hash that is compared. */
  lemma AppendForgetsMarks(
      t: Tables, c: ConversationId, chunkIds: seq<string>, state: IndexState,
      expected: ConversationHash, conv: Conversation)
    ensures Append(Mark(t, c, chunkIds, state), c, expected, conv) == Append(t, c, expected, conv)
  {
    var marked := Mark(t, c, chunkIds, state);
    assert WithoutRowsOf(marked.chunks, c) == WithoutRowsOf(t.chunks, c);
    var written := if c in t.conversations then Carried(t.conversations[c], conv) else conv;
    assert Taken(marked.conversations, c, written) == Taken(t.conversations, c, written) by {
      forall other | other in t.conversations && other != c
        ensures other in marked.conversations && marked.conversations[other] == t.conversations[other]
      {
      }
    }
    if c in t.conversations {
      assert marked.conversations[c := written] == t.conversations[c := written];
    }
  }

  /** The state that a chunk is stored with. */
  function StoredState(item: Item): IndexState
    requires item.Chunk?
  {
    if item.state.Some? then item.state.value else Pending
  }

  /** The row of the conversation has the state. */
  predicate HasState(t: Tables, c: ConversationId, id: string, state: IndexState) {
    id in t.chunks && t.chunks[id].conversation == c && t.chunks[id].state == state
  }

  /** The payload carries the state for the chunk. */
  predicate Carries(payload: Payload, id: string, state: IndexState) {
    payload.chunks.Some?
    && exists k :: 0 <= k < |payload.chunks.value| && payload.chunks.value[k].Chunk?
                   && payload.chunks.value[k].id == Text(id) && StoredState(payload.chunks.value[k]) == state
  }

  lemma AgreedState(t: Tables, c: ConversationId, payload: Payload, id: string, state: IndexState)
    requires payload.chunks.Some? && RowsAgree(t.chunks, c, payload.chunks.value)
    ensures HasState(t, c, id, state) <==> Carries(payload, id, state)
  {
    var items := payload.chunks.value;
    if HasState(t, c, id, state) {
      assert id in ItemIds(items);
      var k :| 0 <= k < |items| && items[k].Chunk? && IdString(items[k].id) == id;
      assert t.chunks[items[k].id.value] == ItemRow(c, items[k]);
    }
  }

  /** After a write a row has a state exactly when the written payload carries it. */
  lemma WrittenState(t: Tables, c: ConversationId, conv: Conversation, id: string, state: IndexState)
    requires Agree(t) && ProperFor(t, c, conv) && Write(t, c, conv).Some?
    ensures HasState(Write(t, c, conv).value, c, id, state) <==> Carries(conv.payload, id, state)
  {
    WriteKeepsAgree(t, c, conv);
    var after := Write(t, c, conv).value;
    assert after.conversations[c] == conv;
    AgreedState(after, c, conv.payload, id, state);
  }

  /** Exactly when a mark survives an append: when the appended payload carries the marked state
      already. What was marked makes no difference. */
  lemma MarkSurvivesAppendIff(
      t: Tables, c: ConversationId, chunkIds: seq<string>, state: IndexState,
      expected: ConversationHash, conv: Conversation, id: string)
    requires Agree(t) && ProperFor(t, c, conv) && id in chunkIds
    requires Append(Mark(t, c, chunkIds, state), c, expected, conv).Some?
    ensures HasState(Append(Mark(t, c, chunkIds, state), c, expected, conv).value, c, id, state)
       <==> Carries(conv.payload, id, state)
  {
    AppendForgetsMarks(t, c, chunkIds, state, expected, conv);
    WrittenState(t, c, Carried(t.conversations[c], conv), id, state);
  }

  /** And a conversation is fully indexed after an append exactly when the appended payload has
      chunks and says so of all of them. */
  lemma AppendFullyIndexedIff(t: Tables, c: ConversationId, expected: ConversationHash, conv: Conversation)
    requires Agree(t) && ProperFor(t, c, conv) && Append(t, c, expected, conv).Some?
    ensures
      var items := conv.payload.chunks.value;
      FullyIndexed(Append(t, c, expected, conv).value, c)
      <==> (items != [] && forall k :: 0 <= k < |items| ==> items[k].Chunk? && items[k].state == Some(Indexed))
  {
    WriteKeepsAgree(t, c, Carried(t.conversations[c], conv));
    FullyIndexedMeansAllChunks(Append(t, c, expected, conv).value, c);
  }
}
