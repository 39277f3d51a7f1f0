/** Two runs of concurrent writers: an overwrite loses an append, and an append loses a mark. */
module AppendWitness {
  import opened Options
  import opened ChunkPayload
  import opened Conversations
  import opened AppendRuns

  /** A run and one step more. */
  lemma OneMoreStep(states: seq<System>, actions: seq<Action>, a: Action)
      returns (longer: seq<System>, more: seq<Action>)
    requires IsRun(states, actions) && Enabled(states[|states| - 1], a)
    ensures IsRun(longer, more) && |more| == |actions| + 1 && more[|actions|] == a
    ensures states <= longer && actions <= more && longer[|longer| - 1] == Apply(states[|states| - 1], a)
  {
    longer, more := states + [Apply(states[|states| - 1], a)], actions + [a];
  }

  lemma NoStepYet()
    ensures IsRun([InitialSystem], [])
  {
  }

  /** The only conversation of the store can always be written. */
  lemma OnlyConversation(t: Tables, c: ConversationId, conv: Conversation)
    requires t.conversations.Keys <= {c} && AllStorable(IndexItems(c, conv.payload))
    ensures Write(t, c, conv).Some? && Write(t, c, conv).value.conversations == map[c := conv]
  {
    assert t.conversations[c := conv] == map[c := conv];
  }

  // ---- an overwrite loses an append ------------------------------------------------------------

  /** Messages without a chunk list. */
  function Plain(messages: seq<Message>): Payload {
    Payload(messages, None)
  }

  /** The conversation is the only one, and nobody is about to append. */
  predicate Holds(s: System, c: ConversationId, messages: seq<Message>) {
    s.tables.conversations == map[c := Stamped("", None, Plain(messages))]
  }

  lemma PlainWrite(s: System, a: Action, c: ConversationId, messages: seq<Message>)
    requires s.tables.conversations.Keys <= {c}
    requires a == Overwrite(c, "", None, Plain(messages))
             || (a == Create(c, "", None, Plain(messages)) && s == InitialSystem)
    ensures Holds(Apply(s, a), c, messages)
  {
    OnlyConversation(s.tables, c, Stamped("", None, Plain(messages)));
  }

  lemma PlainAppend(s: System, a: Action, c: ConversationId, first: Message, second: Message)
    requires Holds(s, c, [first]) && 0 in s.pending && s.pending[0] == Reader(c, [first], None)
    requires a == TryAppend(0, [second], "", None)
    ensures AppendAttempt(s, a).Some? && Holds(Apply(s, a), c, [first, second])
  {
    assert [first] + [second] == [first, second];
    OnlyConversation(s.tables, c, Stamped("", None, Plain([first, second])));
  }

  lemma PlainRead(s: System, c: ConversationId, first: Message)
    requires Holds(s, c, [first]) && s.pending == map[] && 0 !in s.used
    ensures Enabled(s, Read(0, c))
    ensures Holds(Apply(s, Read(0, c)), c, [first])
    ensures 0 in Apply(s, Read(0, c)).pending && Apply(s, Read(0, c)).pending[0] == Reader(c, [first], None)
  {
  }

  lemma PlainStart(c: ConversationId, first: Message) returns (states: seq<System>, actions: seq<Action>)
    ensures IsRun(states, actions) && |actions| == 1
    ensures Holds(states[1], c, [first]) && states[1].pending == map[] && states[1].used == {}
  {
    var a := Create(c, "", None, Plain([first]));
    NoStepYet();
    PlainWrite(InitialSystem, a, c, [first]);
    states, actions := OneMoreStep([InitialSystem], [], a);
  }

  /** A writer appends to the history it read; then the conversation is overwritten with another
      continuation of that same history, and the append is gone. */
  lemma OverwriteLosesAppend(c: ConversationId, first: Message, appended: Message, own: Message)
      returns (states: seq<System>, actions: seq<Action>)
    requires appended != own
    ensures IsRun(states, actions) && |actions| == 4
    ensures Holds(states[2], c, [first]) && Holds(states[3], c, [first, appended]) && Holds(states[4], c, [first, own])
    ensures actions[2] == TryAppend(0, [appended], "", None)
    ensures actions[3] == Overwrite(c, "", None, Plain([first, own])) && !([first, appended] <= [first, own])
  {
    var append, overwrite := TryAppend(0, [appended], "", None), Overwrite(c, "", None, Plain([first, own]));
    states, actions := PlainStart(c, first);
    PlainRead(states[1], c, first);
    states, actions := OneMoreStep(states, actions, Read(0, c));
    PlainAppend(states[2], append, c, first, appended);
    states, actions := OneMoreStep(states, actions, append);
    PlainWrite(states[3], overwrite, c, [first, own]);
    states, actions := OneMoreStep(states, actions, overwrite);
    assert [first, appended][1] != [first, own][1];
  }

  // ---- an append loses a mark ----------------------------------------------------------------------

  function OneChunk(id: string, state: IndexState, body: string): Item {
    Chunk(Text(id), Some(0), Some(state), body)
  }

  function WithChunk(messages: seq<Message>, chunk: Item): Conversation {
    Stamped("", None, Payload(messages, Some([chunk])))
  }

  /** The only conversation has the messages and one chunk, in the table and in its payload. */
  ghost predicate HasChunk(t: Tables, c: ConversationId, messages: seq<Message>, chunk: Item) {
    t.conversations == map[c := WithChunk(messages, chunk)] && Agree(t)
  }

  lemma ChunkIsProper(t: Tables, c: ConversationId, messages: seq<Message>, id: string, state: IndexState, body: string)
    requires id != "" && forall row :: row in t.chunks ==> t.chunks[row].conversation == c
    ensures ProperFor(t, c, WithChunk(messages, OneChunk(id, state, body)))
    ensures AllStorable(IndexItems(c, WithChunk(messages, OneChunk(id, state, body)).payload))
  {
    ProperItemsAreStored(c, WithChunk(messages, OneChunk(id, state, body)).payload);
  }

  lemma OnlyRows(t: Tables, c: ConversationId)
    requires Agree(t) && t.conversations.Keys <= {c}
    ensures forall row :: row in t.chunks ==> t.chunks[row].conversation == c
  {
  }

  lemma ChunkWritten(t: Tables, c: ConversationId, messages: seq<Message>, id: string, state: IndexState, body: string)
    requires id != "" && Agree(t) && t.conversations.Keys <= {c}
    ensures
      var written := Write(t, c, WithChunk(messages, OneChunk(id, state, body)));
      written.Some? && HasChunk(written.value, c, messages, OneChunk(id, state, body))
  {
    OnlyRows(t, c);
    ChunkIsProper(t, c, messages, id, state, body);
    OnlyConversation(t, c, WithChunk(messages, OneChunk(id, state, body)));
    WriteKeepsAgree(t, c, WithChunk(messages, OneChunk(id, state, body)));
  }

  lemma ChunkMarked(
      t: Tables, c: ConversationId, messages: seq<Message>, id: string, before: IndexState, state: IndexState,
      body: string)
    requires id != "" && HasChunk(t, c, messages, OneChunk(id, before, body))
    ensures HasChunk(Mark(t, c, [id], state), c, messages, OneChunk(id, state, body))
  {
    MarkedProperItem(OneChunk(id, before, body), [id], state);
    assert MarkItems([OneChunk(id, before, body)], [id], state) == [OneChunk(id, state, body)];
    MarkKeepsAgree(t, c, [id], state);
  }

  lemma ChunkDecides(t: Tables, c: ConversationId, messages: seq<Message>, id: string, state: IndexState, body: string)
    requires HasChunk(t, c, messages, OneChunk(id, state, body))
    ensures FullyIndexed(t, c) <==> state == Indexed
  {
    FullyIndexedMeansAllChunks(t, c);
    assert t.conversations[c].payload.chunks.value[0] == OneChunk(id, state, body);
  }

  /** Writer 0 has read the conversation while its chunk was pending. */
  predicate HasRead(s: System, c: ConversationId, first: Message, chunk: Item) {
    s.pending == map[0 := Reader(c, [first], Some([chunk]))]
  }

  lemma ReadPending(c: ConversationId, id: string, first: Message) returns (states: seq<System>, actions: seq<Action>)
    requires id != ""
    ensures IsRun(states, actions) && |actions| == 2
    ensures HasChunk(states[2].tables, c, [first], OneChunk(id, Pending, first.text))
    ensures HasRead(states[2], c, first, OneChunk(id, Pending, first.text))
  {
    var a := Create(c, "", None, Payload([first], Some([OneChunk(id, Pending, first.text)])));
    ChunkWritten(EmptyTables, c, [first], id, Pending, first.text);
    NoStepYet();
    states, actions := OneMoreStep([InitialSystem], [], a);
    states, actions := OneMoreStep(states, actions, Read(0, c));
  }

  lemma MarkedAfterRead(s: System, c: ConversationId, id: string, first: Message)
    requires id != "" && HasRead(s, c, first, OneChunk(id, Pending, first.text))
    requires HasChunk(s.tables, c, [first], OneChunk(id, Pending, first.text))
    ensures
      var after := Apply(s, MarkAs(c, [id], Indexed));
      && HasRead(after, c, first, OneChunk(id, Pending, first.text))
      && HasChunk(after.tables, c, [first], OneChunk(id, Indexed, first.text))
      && FullyIndexed(after.tables, c)
  {
    ChunkMarked(s.tables, c, [first], id, Pending, Indexed, first.text);
    ChunkDecides(Apply(s, MarkAs(c, [id], Indexed)).tables, c, [first], id, Indexed, first.text);
  }

  lemma AppendedAsRead(s: System, c: ConversationId, id: string, first: Message, second: Message)
    requires id != "" && HasRead(s, c, first, OneChunk(id, Pending, first.text))
    requires HasChunk(s.tables, c, [first], OneChunk(id, Indexed, first.text))
    ensures
      var a := TryAppend(0, [second], "", Some([OneChunk(id, Pending, first.text)]));
      && Enabled(s, a) && AppendAttempt(s, a).Some? && ExtendsRead(s.pending[0], a.chunks)
      && !FullyIndexed(Apply(s, a).tables, c)
  {
    var a := TryAppend(0, [second], "", Some([OneChunk(id, Pending, first.text)]));
    ChunkWritten(s.tables, c, [first] + [second], id, Pending, first.text);
    ChunkDecides(Apply(s, a).tables, c, [first] + [second], id, Pending, first.text);
  }

  /** A run in which every chunk of a conversation is marked indexed, and an append that began
      before leaves the conversation not fully indexed, though it adds no chunk. */
  lemma AppendLosesMark(c: ConversationId, id: string, first: Message, second: Message)
      returns (states: seq<System>, actions: seq<Action>)
    requires id != ""
    ensures IsRun(states, actions) && |actions| == 4
    ensures actions[2] == MarkAs(c, [id], Indexed) && FullyIndexed(states[3].tables, c)
    ensures actions[3] == TryAppend(0, [second], "", Some([OneChunk(id, Pending, first.text)]))
    ensures 0 in states[3].pending && AppendAttempt(states[3], actions[3]).Some?
    ensures ExtendsRead(states[3].pending[0], actions[3].chunks) && !FullyIndexed(states[4].tables, c)
  {
    states, actions := ReadPending(c, id, first);
    MarkedAfterRead(states[2], c, id, first);
    states, actions := OneMoreStep(states, actions, MarkAs(c, [id], Indexed));
    AppendedAsRead(states[3], c, id, first, second);
    states, actions :=
      OneMoreStep(states, actions, TryAppend(0, [second], "", Some([OneChunk(id, Pending, first.text)])));
  }
}
