/** What the conversation calls store and what they leave alone, column by column, and how long an
    imported session stays imported. */
module ConversationEffects {
  import opened Options
  import opened ChunkPayload
  import opened Conversations
  import opened ChunkEffects
  import opened AppendRuns

  // ---- writing ---------------------------------------------------------------------------------------

  /** Another conversation of the project has the same content or comes from the same session. */
  predicate Clashes(conversations: map<ConversationId, Conversation>, c: ConversationId, conv: Conversation) {
    exists other :: other in conversations && other != c && conversations[other].project == conv.project
                    && ((conv.hash.Some? && conversations[other].hash == conv.hash)
                        || (conv.session.Some? && conversations[other].session == conv.session))
  }

  /** The metadata holds a list of objects, of which one has no id entry or no index. */
  predicate LacksIdOrIndex(payload: Payload) {
    && payload.chunks.Some? && (forall k :: 0 <= k < |payload.chunks.value| ==> payload.chunks.value[k].Chunk?)
    && exists k :: 0 <= k < |payload.chunks.value|
                   && (payload.chunks.value[k].id.Absent? || payload.chunks.value[k].index.None?)
  }

  /** A conversation is written unless it clashes or a chunk cannot be stored; clashes are those of
      the same project only. */
  lemma WriteSucceedsIff(t: Tables, c: ConversationId, conv: Conversation)
    ensures Write(t, c, conv).Some? <==> !Clashes(t.conversations, c, conv) && !LacksIdOrIndex(conv.payload)
  {
    var items := IndexItems(c, conv.payload);
    if LacksIdOrIndex(conv.payload) {
      var k :| 0 <= k < |items| && (items[k].id.Absent? || items[k].index.None?);
      assert !Storable(items[k]);
    }
  }

  /** Then it is stored as given, and no other conversation changes. */
  lemma WriteStores(t: Tables, c: ConversationId, conv: Conversation)
    requires Write(t, c, conv).Some?
    ensures
      var after := Write(t, c, conv).value.conversations;
      && after.Keys == t.conversations.Keys + {c} && after[c] == conv
      && forall other :: other in t.conversations && other != c ==> after[other] == t.conversations[other]
  {
  }

  lemma {:induction false} PuttingSparesOthers(
      chunks: ChunkTable, c: ConversationId, items: seq<Item>, id: string)
    requires AllStorable(items) && id in chunks && chunks[id].conversation != c
    requires forall k :: 0 <= k < |items| ==> IdString(items[k].id) != id
    ensures id in PutItems(chunks, c, items) && PutItems(chunks, c, items)[id] == chunks[id]
    decreases |items|
  {
    if items != [] {
      PuttingSparesOthers(chunks, c, items[..|items| - 1], id);
    }
  }

  /** The chunk rows of other conversations stay, but for a row whose id is written anew. */
  lemma WriteSparesOtherRows(t: Tables, c: ConversationId, conv: Conversation, id: string)
    requires Write(t, c, conv).Some? && id in t.chunks && t.chunks[id].conversation != c
    requires forall k :: 0 <= k < |IndexItems(c, conv.payload)| ==> IdString(IndexItems(c, conv.payload)[k].id) != id
    ensures id in Write(t, c, conv).value.chunks && Write(t, c, conv).value.chunks[id] == t.chunks[id]
  {
    PuttingSparesOthers(WithoutRowsOf(t.chunks, c), c, IndexItems(c, conv.payload), id);
  }

  /** No two chunk rows have the same conversation and index. */
  ghost predicate OneRowPerIndex(chunks: ChunkTable) {
    forall x, y :: x in chunks && y in chunks && x != y ==>
      chunks[x].conversation != chunks[y].conversation || chunks[x].index != chunks[y].index
  }

  lemma {:induction false} PuttingKeepsOneRow(chunks: ChunkTable, c: ConversationId, items: seq<Item>)
    requires AllStorable(items) && OneRowPerIndex(chunks)
    ensures OneRowPerIndex(PutItems(chunks, c, items))
    decreases |items|
  {
    if items != [] {
      PuttingKeepsOneRow(chunks, c, items[..|items| - 1]);
    }
  }

  /** Whatever a payload lists, repeated ids and indexes included, there is never more than one row for
      an index of a conversation. */
  lemma WriteKeepsOneRow(t: Tables, c: ConversationId, conv: Conversation)
    requires OneRowPerIndex(t.chunks) && Write(t, c, conv).Some?
    ensures OneRowPerIndex(Write(t, c, conv).value.chunks)
  {
    PuttingKeepsOneRow(WithoutRowsOf(t.chunks, c), c, IndexItems(c, conv.payload));
  }

  /** And it is that of the last chunk that has the index, unless its id comes again later. */
  lemma LastChunkWins(chunks: ChunkTable, c: ConversationId, items: seq<Item>, k: nat)
    requires AllStorable(items) && k < |items|
    requires forall l :: k < l < |items| ==>
                           items[l].index != items[k].index && IdString(items[l].id) != IdString(items[k].id)
    ensures IdString(items[k].id) in PutItems(chunks, c, items)
    ensures PutItems(chunks, c, items)[IdString(items[k].id)] == ItemRow(c, items[k])
    decreases |items|
  {
    if k < |items| - 1 {
      LastChunkWins(chunks, c, items[..|items| - 1], k);
    }
  }

  /** A listed chunk is stored with its own index and text, and with its own state, or as pending
      when it has none. */
  lemma ListedChunkIsStored(t: Tables, c: ConversationId, conv: Conversation, k: nat)
    requires Agree(t) && ProperFor(t, c, conv) && Write(t, c, conv).Some? && k < |conv.payload.chunks.value|
    ensures
      var item, rows := conv.payload.chunks.value[k], Write(t, c, conv).value.chunks;
      && item.Chunk? && item.id.Text? && item.index.Some? && item.id.value in rows
      && rows[item.id.value].conversation == c && rows[item.id.value].index == item.index.value
      && rows[item.id.value].body == item.body
      && (item.state.Some? ==> rows[item.id.value].state == item.state.value)
      && (item.state.None? ==> rows[item.id.value].state == Pending)
  {
    WriteKeepsAgree(t, c, conv);
    assert RowsAgree(Write(t, c, conv).value.chunks, c, conv.payload.chunks.value);
  }

  // ---- a conversation without a chunk list --------------------------------------------------------

  function MadeUp(c: ConversationId, messages: seq<Message>): seq<Item> {
    seq(|messages|, i requires 0 <= i < |messages| => FallbackItem(c, i, messages[i]))
  }

  lemma MadeUpIdsDiffer(c: ConversationId, i: nat, m: Message, j: nat, n: Message)
    requires i != j
    ensures FallbackItem(c, i, m).id != FallbackItem(c, j, n).id
  {
    var a, b := DecimalText(i) + (":" + m.hash), DecimalText(j) + (":" + n.hash);
    assert FallbackItem(c, i, m).id.value == (c.text + ":") + a;
    assert FallbackItem(c, j, n).id.value == (c.text + ":") + b;
    if FallbackItem(c, i, m).id == FallbackItem(c, j, n).id {
      assert a == ((c.text + ":") + a)[|c.text| + 1..] == ((c.text + ":") + b)[|c.text| + 1..] == b;
      DecimalTextIsDigits(i);
      DecimalTextIsDigits(j);
      UpToColonOf(DecimalText(i), ":" + m.hash);
      UpToColonOf(DecimalText(j), ":" + n.hash);
      DecimalOfText(i);
      DecimalOfText(j);
    }
  }

  lemma MadeUpIsProper(c: ConversationId, messages: seq<Message>)
    ensures Proper(MadeUp(c, messages))
  {
    forall i, j | 0 <= i < j < |messages| ensures MadeUp(c, messages)[i].id != MadeUp(c, messages)[j].id {
      MadeUpIdsDiffer(c, i, messages[i], j, messages[j]);
    }
  }

  /** Without a list of chunk objects there is one pending row for each message, with its index and
      text, and no other row of the conversation. */
  lemma OneRowPerMessage(t: Tables, c: ConversationId, conv: Conversation)
    requires Write(t, c, conv).Some? && conv.payload.chunks.None?
    requires forall id :: id in t.chunks && t.chunks[id].conversation != c ==>
                            id !in ItemIds(MadeUp(c, conv.payload.messages))
    ensures
      var rows, messages := Write(t, c, conv).value.chunks, conv.payload.messages;
      && (forall i :: 0 <= i < |messages| ==>
            && FallbackItem(c, i, messages[i]).id.value in rows
            && rows[FallbackItem(c, i, messages[i]).id.value] == ChunkRow(c, i, Pending, messages[i].text))
      && (forall id :: id in rows && rows[id].conversation == c ==>
            exists i :: 0 <= i < |messages| && id == FallbackItem(c, i, messages[i]).id.value)
  {
    var messages := conv.payload.messages;
    var items, base := MadeUp(c, messages), WithoutRowsOf(t.chunks, c);
    assert IndexItems(c, conv.payload) == items;
    MadeUpIsProper(c, messages);
    assert RowsOf(base, c) == {};
    PutItemsAdds(base, c, items);
    var rows := Write(t, c, conv).value.chunks;
    forall i | 0 <= i < |messages|
      ensures FallbackItem(c, i, messages[i]).id.value in rows
      ensures rows[FallbackItem(c, i, messages[i]).id.value] == ChunkRow(c, i, Pending, messages[i].text)
    {
      assert items[i] == FallbackItem(c, i, messages[i]);
    }
    forall id | id in rows && rows[id].conversation == c
      ensures exists i :: 0 <= i < |messages| && id == FallbackItem(c, i, messages[i]).id.value
    {
      assert id in RowsOf(rows, c);
      var i :| 0 <= i < |items| && items[i].Chunk? && IdString(items[i].id) == id;
      assert id == FallbackItem(c, i, messages[i]).id.value;
    }
  }

  // ---- appending and marking -------------------------------------------------------------------------

  /** An append succeeds exactly on the expected hash, when nothing clashes. It replaces content and
      project, keeps the session that the conversation was imported from, and touches no other. */
  lemma AppendChanges(t: Tables, c: ConversationId, expected: ConversationHash, conv: Conversation)
    ensures
      Append(t, c, expected, conv).Some?
      <==> c in t.conversations && t.conversations[c].hash == Some(expected)
           && !Clashes(t.conversations, c, conv.(session := t.conversations[c].session))
           && !LacksIdOrIndex(conv.payload)
    ensures Append(t, c, expected, conv).Some? ==>
      var after := Append(t, c, expected, conv).value.conversations;
      && after.Keys == t.conversations.Keys && after[c].session == t.conversations[c].session
      && after[c].hash == conv.hash && after[c].project == conv.project && after[c].payload == conv.payload
      && forall other :: other in t.conversations && other != c ==> after[other] == t.conversations[other]
  {
    if c in t.conversations {
      WriteSucceedsIff(t, c, Carried(t.conversations[c], conv));
    }
  }

  function StateOf(item: Item): Option<IndexState> {
    if item.Chunk? then item.state else None
  }

  /** Of the chunks exactly those that the ids mean have the state, and the others are as before. */
  ghost predicate MarkedAlike(before: seq<Item>, after: seq<Item>, chunkIds: seq<string>, state: IndexState) {
    |after| == |before|
    && forall k :: 0 <= k < |before| ==>
         if Means(chunkIds, before[k]) then StateOf(after[k]) == Some(state) else after[k] == before[k]
  }

  /** Marking sets the state of the conversation's own rows with those ids, and in its payload that
      of the chunks that they mean; it changes nothing else. */
  lemma MarkChanges(t: Tables, c: ConversationId, chunkIds: seq<string>, state: IndexState)
    ensures
      var after := Mark(t, c, chunkIds, state);
      && after.chunks.Keys == t.chunks.Keys && after.conversations.Keys == t.conversations.Keys
      && (forall id :: id in t.chunks ==>
            after.chunks[id] == if t.chunks[id].conversation == c && id in chunkIds
                                then t.chunks[id].(state := state) else t.chunks[id])
      && (forall other :: other in t.conversations && other != c ==>
            after.conversations[other] == t.conversations[other])
      && (c in t.conversations ==>
            && after.conversations[c].hash == t.conversations[c].hash
            && after.conversations[c].project == t.conversations[c].project
            && after.conversations[c].session == t.conversations[c].session
            && after.conversations[c].payload.messages == t.conversations[c].payload.messages
            && (t.conversations[c].payload.chunks.None? <==> after.conversations[c].payload.chunks.None?)
            && (t.conversations[c].payload.chunks.Some? ==>
                  MarkedAlike(t.conversations[c].payload.chunks.value, after.conversations[c].payload.chunks.value,
                              chunkIds, state)))
  {
    if c in t.conversations && t.conversations[c].payload.chunks.Some? {
      var items := t.conversations[c].payload.chunks.value;
      forall k | 0 <= k < |items|
        ensures if Means(chunkIds, items[k]) then StateOf(MarkItems(items, chunkIds, state)[k]) == Some(state)
                else MarkItems(items, chunkIds, state)[k] == items[k]
      {
        MarkingChanges(items[k], chunkIds, state);
      }
    }
  }

  // ---- conflicts -------------------------------------------------------------------------------------

  /** A conversation is inserted as new exactly when its id is unused and it can be written. */
  lemma InsertNewIff(t: Tables, c: ConversationId, conv: Conversation)
    ensures InsertNew(t, c, conv).Some?
       <==> c !in t.conversations && !Clashes(t.conversations, c, conv) && !LacksIdOrIndex(conv.payload)
  {
    WriteSucceedsIff(t, c, conv);
  }

  /** The id of a stored conversation is returned only for the same content in the same project; new
      content of the same session is a session conflict, and everything else is refused. */
  lemma VerdictIff(stored: Conversation, d: ConversationId, conv: Conversation)
    ensures Verdict(stored, d, conv) == Existing(d) <==> stored.hash == conv.hash && stored.project == conv.project
    ensures Verdict(stored, d, conv).SessionConflict?
       <==> conv.session.Some? && stored.session == conv.session && stored.hash != conv.hash
    ensures Verdict(stored, d, conv).Existing? ==> Verdict(stored, d, conv).id == d
    ensures !Verdict(stored, d, conv).Existing? && !Verdict(stored, d, conv).SessionConflict? ==>
              Verdict(stored, d, conv).Refused?
  {
  }

  /** Content is looked for in the project first, then a named session, then the id. */
  lemma HolderIff(conversations: map<ConversationId, Conversation>, d: ConversationId, c: ConversationId,
                  conv: Conversation)
    ensures
      var byHash := conv.hash.Some? && exists e :: e in conversations && conversations[e].project == conv.project
                                                   && conversations[e].hash == conv.hash;
      var bySession := conv.session.Some? && conv.session.value != ""
                       && exists e :: e in conversations && conversations[e].project == conv.project
                                      && conversations[e].session == conv.session;
      Holder(conversations, d, c, conv)
      <==> if byHash then
             d in conversations && conversations[d].project == conv.project && conversations[d].hash == conv.hash
           else if bySession then
             d in conversations && conversations[d].project == conv.project && conversations[d].session == conv.session
           else d == c && c in conversations
  {
    if conv.hash.Some? {
      if e :| e in conversations && conversations[e].project == conv.project && conversations[e].hash == conv.hash {
        assert HasHash(conversations, e, conv);
      }
    }
    if conv.session.Some? && conv.session.value != "" {
      if e :| e in conversations && conversations[e].project == conv.project
              && conversations[e].session == conv.session {
        assert HasSession(conversations, e, conv);
      }
    }
  }

  // ---- runs ------------------------------------------------------------------------------------------

  lemma StepKeepsOneRow(s: System, a: Action)
    requires Enabled(s, a) && OneRowPerIndex(s.tables.chunks)
    ensures OneRowPerIndex(Apply(s, a).tables.chunks)
  {
    match a {
      case Create(c, project, session, payload) =>
        if InsertNew(s.tables, c, Stamped(project, session, payload)).Some? {
          WriteKeepsOneRow(s.tables, c, Stamped(project, session, payload));
        }
      case Overwrite(c, project, session, payload) =>
        if Write(s.tables, c, Stamped(project, session, payload)).Some? {
          WriteKeepsOneRow(s.tables, c, Stamped(project, session, payload));
        }
      case TryAppend(writer, _, _, _) =>
        if AppendAttempt(s, a).Some? {
          WriteKeepsOneRow(s.tables, s.pending[writer].c, Stored(s, a));
        }
      case _ =>
    }
  }

  /** In every run the chunk table has at most one row for an index of a conversation. */
  lemma {:induction false} RunsKeepOneRow(states: seq<System>, actions: seq<Action>, i: nat)
    requires IsRun(states, actions) && i < |states|
    ensures OneRowPerIndex(states[i].tables.chunks)
  {
    if i > 0 {
      RunsKeepOneRow(states, actions, i - 1);
      assert states[i] == Apply(states[i - 1], actions[i - 1]);
      StepKeepsOneRow(states[i - 1], actions[i - 1]);
    }
  }

  /** The step appends to the conversation and takes it to another project. */
  predicate Moves(s: System, a: Action, c: ConversationId)
    requires c in s.tables.conversations
  {
    a.TryAppend? && a.writer in s.pending && s.pending[a.writer].c == c
    && a.project != s.tables.conversations[c].project
  }

  lemma AppendStepKeeps(s: System, a: Action, c: ConversationId)
    requires Enabled(s, a) && a.TryAppend? && c in s.tables.conversations
    ensures c in Apply(s, a).tables.conversations
    ensures
      var before, after := s.tables.conversations[c], Apply(s, a).tables.conversations[c];
      && after.session == before.session
      && (!Moves(s, a, c) ==> after.project == before.project)
  {
    var p := s.pending[a.writer];
    AppendChanges(s.tables, p.c, ConversationHash(p.history), Extended(p, a.suffix, a.project, a.chunks));
  }

  lemma StepKeepsSession(s: System, a: Action, c: ConversationId)
    requires Enabled(s, a) && c in s.tables.conversations && !Overwrites(s, a, c)
    ensures c in Apply(s, a).tables.conversations
    ensures
      var before, after := s.tables.conversations[c], Apply(s, a).tables.conversations[c];
      && after.session == before.session
      && (!Moves(s, a, c) ==> after.project == before.project)
  {
    match a {
      case TryAppend(_, _, _, _) => AppendStepKeeps(s, a, c);
      case MarkAs(d, chunkIds, state) => MarkChanges(s.tables, d, chunkIds, state);
      case _ =>
    }
  }

  /** None of the steps overwrites the conversation. */
  ghost predicate NoOverwrite(states: seq<System>, actions: seq<Action>, i: nat, j: nat, c: ConversationId)
    requires j <= |actions| && j <= |states|
  {
    forall k {:trigger actions[k]} :: i <= k < j ==> !Overwrites(states[k], actions[k], c)
  }

  ghost predicate NoMove(states: seq<System>, actions: seq<Action>, i: nat, j: nat, c: ConversationId)
    requires j <= |actions| && j <= |states|
  {
    forall k {:trigger actions[k]} :: i <= k < j && c in states[k].tables.conversations ==>
      !Moves(states[k], actions[k], c)
  }

  lemma RunStepKeepsSession(states: seq<System>, actions: seq<Action>, k: nat, c: ConversationId)
    requires IsRun(states, actions) && k < |actions| && c in states[k].tables.conversations
    requires !Overwrites(states[k], actions[k], c)
    ensures c in states[k + 1].tables.conversations
    ensures
      var before, after := states[k].tables.conversations[c], states[k + 1].tables.conversations[c];
      && after.session == before.session
      && (!Moves(states[k], actions[k], c) ==> after.project == before.project)
  {
    StepKeepsSession(states[k], actions[k], c);
    assert states[k + 1] == Apply(states[k], actions[k]);
  }

  /** In every run a conversation comes from the session it was imported from until it is overwritten:
      appends and marks never change that. And it stays in its project until an append moves it. */
  lemma {:induction false} SessionStaysImported(
      states: seq<System>, actions: seq<Action>, i: nat, j: nat, c: ConversationId)
    requires IsRun(states, actions) && i <= j < |states| && c in states[i].tables.conversations
    requires NoOverwrite(states, actions, i, j, c)
    ensures c in states[j].tables.conversations
    ensures states[j].tables.conversations[c].session == states[i].tables.conversations[c].session
    ensures NoMove(states, actions, i, j, c) ==>
              states[j].tables.conversations[c].project == states[i].tables.conversations[c].project
    decreases j
  {
    if i < j {
      SessionStaysImported(states, actions, i, j - 1, c);
      RunStepKeepsSession(states, actions, j - 1, c);
    }
  }

  /** So new content of an imported session never enters the project a second time, under any other id,
      while that conversation is neither overwritten nor moved. */
  lemma SessionIsImportedOnce(
      states: seq<System>, actions: seq<Action>, i: nat, j: nat, c: ConversationId, d: ConversationId,
      conv: Conversation)
    requires IsRun(states, actions) && i <= j < |states| && c in states[i].tables.conversations && d != c
    requires NoOverwrite(states, actions, i, j, c) && NoMove(states, actions, i, j, c)
    requires conv.session.Some? && conv.session == states[i].tables.conversations[c].session
    requires conv.project == states[i].tables.conversations[c].project
    ensures InsertNew(states[j].tables, d, conv).None?
  {
    SessionStaysImported(states, actions, i, j, c);
    InsertNewIff(states[j].tables, d, conv);
  }
}
