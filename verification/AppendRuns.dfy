/** Concurrent writers of conversations. Appenders read a history, extend what they read, and
    append under the hash of what they read; others create conversations, overwrite them
    whole, and mark chunks, in between. */
module AppendRuns {
  import opened Options
  import opened ChunkPayload
  import opened Conversations
  import FirstOccurrences

  datatype Reader = Reader(c: ConversationId, history: seq<Message>, chunks: Option<seq<Item>>)

  /** What a successful write did to a conversation's messages. */
  datatype Change =
    | Written(c: ConversationId, messages: seq<Message>)
    | Added(writer: nat, c: ConversationId, suffix: seq<Message>)

  /** `log` is history: the successful writes, in order. */
  datatype System = System(tables: Tables, pending: map<nat, Reader>, used: set<nat>, log: seq<Change>)

  /** `Create` is `insert_new`, `Overwrite` the upsert `insert`. */
  datatype Action =
    | Create(c: ConversationId, project: string, session: Option<string>, payload: Payload)
    | Overwrite(c: ConversationId, project: string, session: Option<string>, payload: Payload)
    | Read(writer: nat, c: ConversationId)
    | TryAppend(writer: nat, suffix: seq<Message>, project: string, chunks: Option<seq<Item>>)
    | MarkAs(c: ConversationId, chunkIds: seq<string>, state: IndexState)

  const InitialSystem := System(EmptyTables, map[], {}, [])

  predicate Enabled(s: System, a: Action) {
    match a
    case Read(writer, _) => writer !in s.used
    case TryAppend(writer, _, _, _) => writer in s.pending
    case _ => true
  }

  /** A stored conversation carries the hash of its messages. */
  function Stamped(project: string, session: Option<string>, payload: Payload): Conversation {
    Conversation(Some(ConversationHash(payload.messages)), project, session, payload)
  }

  /** What a writer remembers of the conversation it read. */
  function ReaderOf(t: Tables, c: ConversationId): Reader
    requires c in t.conversations
  {
    Reader(c, t.conversations[c].payload.messages, t.conversations[c].payload.chunks)
  }

  function Extended(p: Reader, suffix: seq<Message>, project: string, chunks: Option<seq<Item>>): Conversation {
    Stamped(project, None, Payload(p.history + suffix, chunks))
  }

  /** What a successful append stores. */
  function Stored(s: System, a: Action): Conversation
    requires a.TryAppend? && a.writer in s.pending && s.pending[a.writer].c in s.tables.conversations
  {
    var p := s.pending[a.writer];
    Carried(s.tables.conversations[p.c], Extended(p, a.suffix, a.project, a.chunks))
  }

  function AppendAttempt(s: System, a: Action): Option<Tables>
    requires a.TryAppend? && a.writer in s.pending
  {
    var p := s.pending[a.writer];
    Append(s.tables, p.c, ConversationHash(p.history), Extended(p, a.suffix, a.project, a.chunks))
  }

  function Wrote(s: System, written: Option<Tables>, change: Change): System {
    if written.None? then s else s.(tables := written.value, log := s.log + [change])
  }

  function Apply(s: System, a: Action): System
    requires Enabled(s, a)
  {
    match a
    case Create(c, project, session, payload) =>
      Wrote(s, InsertNew(s.tables, c, Stamped(project, session, payload)), Written(c, payload.messages))
    case Overwrite(c, project, session, payload) =>
      Wrote(s, Write(s.tables, c, Stamped(project, session, payload)), Written(c, payload.messages))
    case Read(writer, c) =>
      var s1 := s.(used := s.used + {writer});
      if c !in s.tables.conversations then s1
      else s1.(pending := s.pending[writer := ReaderOf(s.tables, c)])
    case TryAppend(writer, suffix, _, _) =>
      Wrote(s, AppendAttempt(s, a), Added(writer, s.pending[writer].c, suffix)).(pending := s.pending - {writer})
    case MarkAs(c, chunkIds, state) => s.(tables := Mark(s.tables, c, chunkIds, state))
  }

  ghost predicate IsRun(states: seq<System>, actions: seq<Action>) {
    && |states| == |actions| + 1
    && states[0] == InitialSystem
    && forall i {:trigger actions[i]} :: 0 <= i < |actions| ==>
         Enabled(states[i], actions[i]) && states[i + 1] == Apply(states[i], actions[i])
  }

  // ---- what the log says ---------------------------------------------------------------------

  /** The messages of a conversation after the logged writes. */
  function Replay(log: seq<Change>, c: ConversationId): seq<Message> {
    if log == [] then []
    else
      var front, last := log[..|log| - 1], log[|log| - 1];
      if last.c != c then Replay(front, c)
      else if last.Written? then last.messages
      else Replay(front, c) + last.suffix
  }

  /** The suffixes appended to one conversation, joined in success order. */
  function Appended(log: seq<Change>, c: ConversationId): seq<Message> {
    if log == [] then []
    else
      var front, last := log[..|log| - 1], log[|log| - 1];
      Appended(front, c) + (if last.Added? && last.c == c then last.suffix else [])
  }

  predicate Unwritten(log: seq<Change>, c: ConversationId) {
    forall k :: 0 <= k < |log| && log[k].Written? ==> log[k].c != c
  }

  lemma ReplayOneMore(log: seq<Change>, next: Change, c: ConversationId)
    ensures Replay(log + [next], c)
         == if next.c != c then Replay(log, c)
            else if next.Written? then next.messages
            else Replay(log, c) + next.suffix
  {
    assert (log + [next])[..|log|] == log;
  }

  /** While nobody writes the conversation whole, replaying adds the suffixes in order. */
  lemma {:induction false} ReplayOfAppends(log: seq<Change>, more: seq<Change>, c: ConversationId)
    requires Unwritten(more, c)
    ensures Replay(log + more, c) == Replay(log, c) + Appended(more, c)
    decreases |more|
  {
    if more == [] {
      assert log + more == log;
    } else {
      var front, last := more[..|more| - 1], more[|more| - 1];
      assert more == front + [last];
      ReplayOfAppends(log, front, c);
      ReplayOneAppend(log, front, last, c);
    }
  }

  lemma ReplayOneAppend(log: seq<Change>, front: seq<Change>, last: Change, c: ConversationId)
    requires Replay(log + front, c) == Replay(log, c) + Appended(front, c)
    requires last.Written? ==> last.c != c
    ensures Replay(log + (front + [last]), c) == Replay(log, c) + Appended(front + [last], c)
  {
    FirstOccurrences.Assoc(log, front, [last]);
    ReplayOneMore(log + front, last, c);
    AppendedOneMore(front, last, c);
    if last.c == c {
      FirstOccurrences.Assoc(Replay(log, c), Appended(front, c), last.suffix);
    }
  }

  lemma AppendedOneMore(log: seq<Change>, next: Change, c: ConversationId)
    ensures Appended(log + [next], c)
         == if next.Added? && next.c == c then Appended(log, c) + next.suffix else Appended(log, c)
  {
    assert (log + [next])[..|log|] == log;
  }

  // ---- the invariant ---------------------------------------------------------------------------

  ghost predicate HistoryOk(s: System, c: ConversationId)
    requires c in s.tables.conversations
  {
    var conv := s.tables.conversations[c];
    conv.payload.messages == Replay(s.log, c) && conv.hash == Some(ConversationHash(conv.payload.messages))
  }

  ghost predicate WritersOk(s: System) {
    && s.pending.Keys <= s.used
    && (forall i :: 0 <= i < |s.log| && s.log[i].Added? ==> s.log[i].writer in s.used && s.log[i].writer !in s.pending)
    && (forall i, j :: 0 <= i < j < |s.log| && s.log[i].Added? && s.log[j].Added? ==>
          s.log[i].writer != s.log[j].writer)
  }

  ghost predicate Inv(s: System) {
    && (forall c :: c in s.tables.conversations ==> HistoryOk(s, c))
    && WritersOk(s)
  }

  lemma WriteKeepsHistory(s: System, d: ConversationId, conv: Conversation, c: ConversationId)
    requires c in s.tables.conversations ==> HistoryOk(s, c)
    requires conv.hash == Some(ConversationHash(conv.payload.messages)) && Write(s.tables, d, conv).Some?
    requires c in Write(s.tables, d, conv).value.conversations
    ensures HistoryOk(Wrote(s, Write(s.tables, d, conv), Written(d, conv.payload.messages)), c)
  {
    ReplayOneMore(s.log, Written(d, conv.payload.messages), c);
  }

  lemma WholeWriteKeepsInv(s: System, a: Action)
    requires Inv(s) && (a.Create? || a.Overwrite?)
    ensures Inv(Apply(s, a))
  {
    var s2 := Apply(s, a);
    forall c | c in s2.tables.conversations ensures HistoryOk(s2, c) {
      if s2 != s {
        WriteKeepsHistory(s, a.c, Stamped(a.project, a.session, a.payload), c);
      }
    }
  }

  /** The swap succeeds only on the very history that was read, so it extends it. */
  lemma AppendExtends(s: System, a: Action)
    requires a.TryAppend? && a.writer in s.pending && AppendAttempt(s, a).Some?
    requires s.pending[a.writer].c in s.tables.conversations ==> HistoryOk(s, s.pending[a.writer].c)
    ensures
      var p := s.pending[a.writer];
      && p.c in s.tables.conversations
      && s.tables.conversations[p.c].payload.messages == p.history
      && AppendAttempt(s, a).value.conversations
         == s.tables.conversations[p.c := Stored(s, a)]
  {
  }

  lemma AppendKeepsHistory(s: System, a: Action, c: ConversationId)
    requires a.TryAppend? && Enabled(s, a) && AppendAttempt(s, a).Some?
    requires c in s.tables.conversations && HistoryOk(s, c)
    requires s.pending[a.writer].c in s.tables.conversations ==> HistoryOk(s, s.pending[a.writer].c)
    ensures c in Apply(s, a).tables.conversations && HistoryOk(Apply(s, a), c)
    ensures s.tables.conversations[c].payload.messages <= Apply(s, a).tables.conversations[c].payload.messages
  {
    AppendExtends(s, a);
    ReplayOneMore(s.log, Added(a.writer, s.pending[a.writer].c, a.suffix), c);
  }

  lemma AppendKeepsWriters(s: System, a: Action)
    requires a.TryAppend? && Enabled(s, a) && WritersOk(s)
    ensures WritersOk(Apply(s, a))
  {
  }

  lemma AppendKeepsInv(s: System, a: Action)
    requires Inv(s) && a.TryAppend? && Enabled(s, a)
    ensures Inv(Apply(s, a))
  {
    var s2 := Apply(s, a);
    AppendKeepsWriters(s, a);
    if AppendAttempt(s, a).Some? {
      AppendExtends(s, a);
      forall c | c in s2.tables.conversations ensures HistoryOk(s2, c) {
        AppendKeepsHistory(s, a, c);
      }
    } else {
      forall c | c in s2.tables.conversations ensures HistoryOk(s2, c) {
        assert HistoryOk(s, c);
      }
    }
  }

  lemma MarkKeepsHistory(s: System, a: Action, c: ConversationId)
    requires a.MarkAs? && c in s.tables.conversations && HistoryOk(s, c)
    ensures c in Apply(s, a).tables.conversations && HistoryOk(Apply(s, a), c)
    ensures Apply(s, a).tables.conversations[c].payload.messages == s.tables.conversations[c].payload.messages
  {
  }

  lemma OtherStepsKeepInv(s: System, a: Action)
    requires Inv(s) && (a.Read? || a.MarkAs?) && Enabled(s, a)
    ensures Inv(Apply(s, a))
  {
    var s2 := Apply(s, a);
    forall c | c in s2.tables.conversations ensures HistoryOk(s2, c) {
      assert HistoryOk(s, c);
      if a.MarkAs? {
        MarkKeepsHistory(s, a, c);
      }
    }
  }

  lemma StepKeepsInv(s: System, a: Action)
    requires Inv(s) && Enabled(s, a)
    ensures Inv(Apply(s, a)) && s.log <= Apply(s, a).log
    ensures s.tables.conversations.Keys <= Apply(s, a).tables.conversations.Keys
  {
    match a {
      case TryAppend(_, _, _, _) => AppendKeepsInv(s, a);
      case Read(_, _) => OtherStepsKeepInv(s, a);
      case MarkAs(_, _, _) => OtherStepsKeepInv(s, a);
      case _ => WholeWriteKeepsInv(s, a);
    }
  }

  lemma {:induction false} RunKeepsInv(states: seq<System>, actions: seq<Action>, i: nat)
    requires IsRun(states, actions) && i < |states|
    ensures Inv(states[i])
    ensures i > 0 ==> states[i - 1].log <= states[i].log
                      && states[i - 1].tables.conversations.Keys <= states[i].tables.conversations.Keys
  {
    if i > 0 {
      RunKeepsInv(states, actions, i - 1);
      assert states[i] == Apply(states[i - 1], actions[i - 1]);
      StepKeepsInv(states[i - 1], actions[i - 1]);
    }
  }

  lemma {:induction false} LogGrows(states: seq<System>, actions: seq<Action>, i: nat, j: nat)
    requires IsRun(states, actions) && i <= j < |states|
    ensures states[i].log <= states[j].log
    ensures states[i].tables.conversations.Keys <= states[j].tables.conversations.Keys
    decreases j
  {
    if i < j {
      LogGrows(states, actions, i, j - 1);
      RunKeepsInv(states, actions, j);
    }
  }

  // ---- the promises -------------------------------------------------------------------------

  function MessagesOf(s: System, c: ConversationId): seq<Message>
    requires c in s.tables.conversations
  {
    s.tables.conversations[c].payload.messages
  }

  /** In every run, overwrites included, the stored messages are what the successful writes
      make of them in order: the last whole write, and then every later successful suffix
      once, in success order. */
  lemma NoLostAppends(states: seq<System>, actions: seq<Action>, i: nat, c: ConversationId)
    requires IsRun(states, actions) && i < |states| && c in states[i].tables.conversations
    ensures MessagesOf(states[i], c) == Replay(states[i].log, c)
    ensures forall k :: 0 <= k < |states[i].log| && states[i].log[k].Written? && states[i].log[k].c == c
                        && Unwritten(states[i].log[k + 1..], c) ==>
                          MessagesOf(states[i], c) == states[i].log[k].messages + Appended(states[i].log[k + 1..], c)
    ensures forall j, k :: 0 <= j < k < |states[i].log| && states[i].log[j].Added? && states[i].log[k].Added? ==>
                             states[i].log[j].writer != states[i].log[k].writer
  {
    RunKeepsInv(states, actions, i);
    assert HistoryOk(states[i], c);
    var log := states[i].log;
    forall k | 0 <= k < |log| && log[k].Written? && log[k].c == c && Unwritten(log[k + 1..], c)
      ensures MessagesOf(states[i], c) == log[k].messages + Appended(log[k + 1..], c)
    {
      assert log == (log[..k] + [log[k]]) + log[k + 1..];
      ReplayOneMore(log[..k], log[k], c);
      ReplayOfAppends(log[..k] + [log[k]], log[k + 1..], c);
    }
  }

  /** Between two states in which nobody wrote the conversation whole, its history grew by
      exactly the suffixes that succeeded. */
  lemma HistoryGrowsByAppends(states: seq<System>, actions: seq<Action>, i: nat, j: nat, c: ConversationId)
    requires IsRun(states, actions) && i <= j < |states| && c in states[i].tables.conversations
    requires |states[i].log| <= |states[j].log| && Unwritten(states[j].log[|states[i].log|..], c)
    ensures c in states[j].tables.conversations
    ensures MessagesOf(states[j], c) == MessagesOf(states[i], c) + Appended(states[j].log[|states[i].log|..], c)
  {
    LogGrows(states, actions, i, j);
    NoLostAppends(states, actions, i, c);
    NoLostAppends(states, actions, j, c);
    var more := states[j].log[|states[i].log|..];
    assert states[j].log == states[i].log + more;
    ReplayOfAppends(states[i].log, more, c);
  }

  /** A whole write of a stored conversation that succeeds. */
  predicate Overwrites(s: System, a: Action, c: ConversationId) {
    a.Overwrite? && a.c == c && Write(s.tables, c, Stamped(a.project, a.session, a.payload)).Some?
  }

  lemma StepGrowsIff(s: System, a: Action, c: ConversationId)
    requires Inv(s) && Enabled(s, a) && c in s.tables.conversations
    ensures c in Apply(s, a).tables.conversations
    ensures MessagesOf(s, c) <= MessagesOf(Apply(s, a), c)
       <==> (Overwrites(s, a, c) ==> MessagesOf(s, c) <= a.payload.messages)
  {
    if a.TryAppend? && AppendAttempt(s, a).Some? {
      AppendKeepsHistory(s, a, c);
    }
    if a.MarkAs? {
      MarkKeepsHistory(s, a, c);
    }
  }

  ghost predicate GrowsThroughout(states: seq<System>, i: nat, j: nat, c: ConversationId)
    requires i <= j < |states| && forall k :: i <= k <= j ==> c in states[k].tables.conversations
  {
    forall k :: i <= k < j ==> MessagesOf(states[k], c) <= MessagesOf(states[k + 1], c)
  }

  /** Every overwrite of the conversation extends what is stored when it comes. */
  ghost predicate OverwritesExtend(
      states: seq<System>, actions: seq<Action>, i: nat, j: nat, c: ConversationId)
    requires i <= j < |states| && j <= |actions| && forall k :: i <= k <= j ==> c in states[k].tables.conversations
  {
    forall k :: i <= k < j && Overwrites(states[k], actions[k], c) ==>
                  MessagesOf(states[k], c) <= actions[k].payload.messages
  }

  lemma {:induction false} GrowthAddsUp(states: seq<System>, i: nat, j: nat, c: ConversationId)
    requires i <= j < |states| && forall k :: i <= k <= j ==> c in states[k].tables.conversations
    requires GrowsThroughout(states, i, j, c)
    ensures MessagesOf(states[i], c) <= MessagesOf(states[j], c)
    decreases j
  {
    if i < j {
      GrowthAddsUp(states, i, j - 1, c);
    }
  }

  /** In every run a stored history only grows at the end exactly when every overwrite extends
      what it overwrites; appends, creations and marks never shorten or change it. */
  lemma HistoryOnlyGrows(states: seq<System>, actions: seq<Action>, i: nat, j: nat, c: ConversationId)
    requires IsRun(states, actions) && i <= j < |states| && c in states[i].tables.conversations
    ensures forall k :: i <= k <= j ==> c in states[k].tables.conversations
    ensures GrowsThroughout(states, i, j, c) <==> OverwritesExtend(states, actions, i, j, c)
    ensures OverwritesExtend(states, actions, i, j, c) ==> MessagesOf(states[i], c) <= MessagesOf(states[j], c)
  {
    forall k | i <= k <= j ensures c in states[k].tables.conversations {
      LogGrows(states, actions, i, k);
    }
    forall k | i <= k < j
      ensures MessagesOf(states[k], c) <= MessagesOf(states[k + 1], c)
         <==> (Overwrites(states[k], actions[k], c) ==> MessagesOf(states[k], c) <= actions[k].payload.messages)
    {
      RunKeepsInv(states, actions, k);
      assert states[k + 1] == Apply(states[k], actions[k]);
      StepGrowsIff(states[k], actions[k], c);
    }
    if GrowsThroughout(states, i, j, c) {
      GrowthAddsUp(states, i, j, c);
    }
  }

  /** An overwrite that extends a history read earlier keeps the appends that succeeded since
      exactly when what it adds begins with them. */
  lemma StaleOverwriteKeepsAppendsIff(
      states: seq<System>, actions: seq<Action>, i: nat, j: nat, c: ConversationId, own: seq<Message>)
    requires IsRun(states, actions) && i <= j < |actions| && c in states[i].tables.conversations
    requires |states[i].log| <= |states[j].log| && Unwritten(states[j].log[|states[i].log|..], c)
    requires Overwrites(states[j], actions[j], c) && actions[j].payload.messages == MessagesOf(states[i], c) + own
    ensures c in states[j].tables.conversations && c in states[j + 1].tables.conversations
    ensures MessagesOf(states[j + 1], c) == MessagesOf(states[i], c) + own
    ensures MessagesOf(states[j], c) <= MessagesOf(states[j + 1], c)
       <==> Appended(states[j].log[|states[i].log|..], c) <= own
  {
    HistoryGrowsByAppends(states, actions, i, j, c);
    assert states[j + 1] == Apply(states[j], actions[j]);
    PrefixOfSums(MessagesOf(states[i], c), Appended(states[j].log[|states[i].log|..], c), own);
  }

  lemma PrefixOfSums(start: seq<Message>, a: seq<Message>, b: seq<Message>)
    ensures start + a <= start + b <==> a <= b
  {
    if start + a <= start + b {
      assert a == (start + b)[|start|..|start + a|] == b[..|a|];
    }
  }

  /** A swap passes exactly when the conversation still reads as it was read (and no other
      conversation of the project has the new content); otherwise no row changes. */
  lemma AppendSucceedsIffUnchanged(states: seq<System>, actions: seq<Action>, i: nat)
    requires IsRun(states, actions) && i < |actions| && actions[i].TryAppend?
    requires actions[i].writer in states[i].pending
    ensures
      var s, a := states[i], actions[i];
      var p := s.pending[a.writer];
      && p.c in s.tables.conversations
      && (AppendAttempt(s, a).Some? <==>
            && MessagesOf(s, p.c) == p.history
            && Write(s.tables, p.c, Stored(s, a)).Some?)
      && (AppendAttempt(s, a).None? ==> states[i + 1].tables == s.tables)
  {
    RunKeepsInv(states, actions, i);
    PendingConversationsExist(states, actions, i, actions[i].writer);
    assert HistoryOk(states[i], states[i].pending[actions[i].writer].c);
    assert states[i + 1] == Apply(states[i], actions[i]);
  }

  lemma {:induction false} PendingConversationsExist(states: seq<System>, actions: seq<Action>, i: nat, writer: nat)
    requires IsRun(states, actions) && i < |states| && writer in states[i].pending
    ensures states[i].pending[writer].c in states[i].tables.conversations
  {
    if i > 0 {
      var s, a := states[i - 1], actions[i - 1];
      assert states[i] == Apply(s, a);
      RunKeepsInv(states, actions, i);
      if writer in s.pending {
        PendingConversationsExist(states, actions, i - 1, writer);
      }
    }
  }

  /** Callers store proper chunk lists. */
  ghost predicate ProperAction(s: System, a: Action) {
    match a
    case Create(c, project, session, payload) => ProperFor(s.tables, c, Stamped(project, session, payload))
    case Overwrite(c, project, session, payload) => ProperFor(s.tables, c, Stamped(project, session, payload))
    case TryAppend(writer, suffix, project, chunks) =>
      writer in s.pending
      && ProperFor(s.tables, s.pending[writer].c, Extended(s.pending[writer], suffix, project, chunks))
    case _ => true
  }

  lemma StepKeepsAgree(s: System, a: Action)
    requires Agree(s.tables) && Enabled(s, a) && ProperAction(s, a)
    ensures Agree(Apply(s, a).tables)
  {
    match a {
      case Create(c, project, session, payload) => WriteKeepsAgree(s.tables, c, Stamped(project, session, payload));
      case Overwrite(c, project, session, payload) => WriteKeepsAgree(s.tables, c, Stamped(project, session, payload));
      case TryAppend(writer, suffix, project, chunks) =>
        if AppendAttempt(s, a).Some? {
          WriteKeepsAgree(s.tables, s.pending[writer].c, Stored(s, a));
        }
      case MarkAs(c, chunkIds, state) => MarkKeepsAgree(s.tables, c, chunkIds, state);
      case Read(_, _) =>
    }
  }

  /** The chunk table and the payloads agree chunk by chunk in every state of every run. */
  lemma {:induction false} TableAndPayloadAgree(states: seq<System>, actions: seq<Action>, i: nat)
    requires IsRun(states, actions) && i < |states|
    requires forall k :: 0 <= k < i ==> ProperAction(states[k], actions[k])
    ensures Agree(states[i].tables)
  {
    if i > 0 {
      TableAndPayloadAgree(states, actions, i - 1);
      assert states[i] == Apply(states[i - 1], actions[i - 1]);
      StepKeepsAgree(states[i - 1], actions[i - 1]);
    }
  }

  // ---- one conversation per content and per session ------------------------------------------------

  lemma StepKeepsUnique(s: System, a: Action)
    requires Unique(s.tables.conversations) && Enabled(s, a)
    ensures Unique(Apply(s, a).tables.conversations)
  {
    match a {
      case Create(c, project, session, payload) =>
        if InsertNew(s.tables, c, Stamped(project, session, payload)).Some? {
          WriteKeepsUnique(s.tables, c, Stamped(project, session, payload));
        }
      case Overwrite(c, project, session, payload) =>
        if Write(s.tables, c, Stamped(project, session, payload)).Some? {
          WriteKeepsUnique(s.tables, c, Stamped(project, session, payload));
        }
      case TryAppend(writer, _, _, _) =>
        if AppendAttempt(s, a).Some? {
          WriteKeepsUnique(s.tables, s.pending[writer].c, Stored(s, a));
        }
      case MarkAs(c, chunkIds, state) => MarkKeepsUnique(s.tables, c, chunkIds, state);
      case Read(_, _) =>
    }
  }

  lemma {:induction false} RunKeepsUnique(states: seq<System>, actions: seq<Action>, i: nat)
    requires IsRun(states, actions) && i < |states|
    ensures Unique(states[i].tables.conversations)
  {
    if i > 0 {
      RunKeepsUnique(states, actions, i - 1);
      assert states[i] == Apply(states[i - 1], actions[i - 1]);
      StepKeepsUnique(states[i - 1], actions[i - 1]);
    }
  }

  /** In every run content that is stored in a project is found again: inserting it under any id
      stores nothing and resolves to the one conversation that has it; and a session that is
      imported already is never imported a second time. */
  lemma StoredContentIsFound(
      states: seq<System>, actions: seq<Action>, i: nat, c: ConversationId, d: ConversationId, conv: Conversation)
    requires IsRun(states, actions) && i < |states|
    ensures
      var t := states[i].tables;
      && (HasHash(t.conversations, c, conv) ==>
            && InsertNew(t, d, conv).None?
            && (forall e :: Holder(t.conversations, e, d, conv) <==> e == c)
            && Verdict(t.conversations[c], c, conv) == Existing(c))
      && (HasSession(t.conversations, c, conv) ==> InsertNew(t, d, conv).None?)
  {
    RunKeepsUnique(states, actions, i);
    var t := states[i].tables;
    if HasHash(t.conversations, c, conv) {
      SameContentIsFound(t, c, d, conv);
    }
    if HasSession(t.conversations, c, conv) && d != c {
      assert Taken(t.conversations, d, conv);
    }
  }

  // ---- chunk states are written back as they were read --------------------------------------------

  /** What a pending writer remembers is what was stored when it read. */
  lemma {:induction false} PendingHasRead(states: seq<System>, actions: seq<Action>, j: nat, writer: nat)
      returns (i: nat)
    requires IsRun(states, actions) && j < |states| && writer in states[j].pending
    ensures i < j && actions[i] == Read(writer, states[j].pending[writer].c)
    ensures states[j].pending[writer].c in states[i].tables.conversations
    ensures states[j].pending[writer] == ReaderOf(states[i].tables, states[j].pending[writer].c)
  {
    assert j > 0;
    var s, a := states[j - 1], actions[j - 1];
    assert states[j] == Apply(s, a);
    RunKeepsInv(states, actions, j - 1);
    if writer in s.pending {
      i := PendingHasRead(states, actions, j - 1, writer);
    } else {
      i := j - 1;
    }
  }

  /** The append puts new chunks behind those that its writer read. */
  predicate ExtendsRead(p: Reader, chunks: Option<seq<Item>>) {
    p.chunks.Some? && chunks.Some? && p.chunks.value <= chunks.value
  }

  lemma ExtendedRowsReturn(before: Tables, after: Tables, c: ConversationId, items: seq<Item>, more: seq<Item>)
    requires RowsAgree(before.chunks, c, items) && RowsAgree(after.chunks, c, more) && items <= more
    ensures forall id :: id in RowsOf(before.chunks, c) ==>
                           id in after.chunks && after.chunks[id] == before.chunks[id]
  {
    forall id | id in RowsOf(before.chunks, c) ensures id in after.chunks && after.chunks[id] == before.chunks[id] {
      assert id in ItemIds(items);
      var k :| 0 <= k < |items| && items[k].Chunk? && IdString(items[k].id) == id;
      assert more[k] == items[k];
    }
  }

  lemma AppendedConversation(s: System, a: Action)
    requires a.TryAppend? && Enabled(s, a) && AppendAttempt(s, a).Some?
    ensures
      var p, after := s.pending[a.writer], Apply(s, a).tables.conversations;
      p.c in after && after[p.c].payload == Payload(p.history + a.suffix, a.chunks)
  {
  }

  lemma AppendedRowsAgree(states: seq<System>, actions: seq<Action>, j: nat)
    requires IsRun(states, actions) && j < |actions|
    requires forall k :: 0 <= k <= j ==> ProperAction(states[k], actions[k])
    requires actions[j].TryAppend? && AppendAttempt(states[j], actions[j]).Some? && actions[j].chunks.Some?
    ensures RowsAgree(states[j + 1].tables.chunks, states[j].pending[actions[j].writer].c, actions[j].chunks.value)
  {
    TableAndPayloadAgree(states, actions, j + 1);
    assert states[j + 1] == Apply(states[j], actions[j]);
    AppendedConversation(states[j], actions[j]);
  }

  /** An append that extends the chunks it read puts every row of the conversation back to what it
      was at the read, whatever was marked in between. */
  lemma AppendRestoresRows(states: seq<System>, actions: seq<Action>, j: nat) returns (i: nat)
    requires IsRun(states, actions) && j < |actions|
    requires forall k :: 0 <= k <= j ==> ProperAction(states[k], actions[k])
    requires actions[j].TryAppend? && AppendAttempt(states[j], actions[j]).Some?
    requires ExtendsRead(states[j].pending[actions[j].writer], actions[j].chunks)
    ensures
      var c := states[j].pending[actions[j].writer].c;
      && i < j && actions[i] == Read(actions[j].writer, c)
      && forall id :: id in RowsOf(states[i].tables.chunks, c) ==>
           id in states[j + 1].tables.chunks
           && states[j + 1].tables.chunks[id] == states[i].tables.chunks[id]
  {
    var p := states[j].pending[actions[j].writer];
    i := PendingHasRead(states, actions, j, actions[j].writer);
    TableAndPayloadAgree(states, actions, i);
    AppendedRowsAgree(states, actions, j);
    assert RowsAgree(states[i].tables.chunks, p.c, p.chunks.value);
    ExtendedRowsReturn(states[i].tables, states[j + 1].tables, p.c, p.chunks.value, actions[j].chunks.value);
  }
}
