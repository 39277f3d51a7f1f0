/** Handoff packets and who replaced whom. Replacing takes two transactions: a
    lookup that finds the packet still current, and an insertion that the table
    constraints make fail, as a whole, when another writer was faster. */
module Handoffs {
  import opened Options
  import opened SupersessionGraph

  datatype HandoffId = HandoffId(text: string)

  const MAX_HANDOFF_ID_LENGTH := 128

  predicate ValidId(id: HandoffId) {
    0 < |id.text| <= MAX_HANDOFF_ID_LENGTH
  }

  /** `supersedes` is the predecessor written into the packet itself. */
  datatype Packet = Packet(owner: Option<string>, project: string, status: string, body: string,
                           supersedes: Option<HandoffId>)

  /** `replacedBy` is the supersession table; its keys and its values are unique columns. */
  datatype Tables = Tables(handoffs: map<HandoffId, Packet>, replacedBy: map<HandoffId, HandoffId>)

  const EmptyTables := Tables(map[], map[])

  /** What readers see: status and successor are derived from the supersession table. */
  datatype PublicPacket = PublicPacket(packet: Packet, supersededBy: Option<HandoffId>)

  function Public(t: Tables, id: HandoffId): PublicPacket
    requires id in t.handoffs
  {
    if id in t.replacedBy
    then PublicPacket(t.handoffs[id].(status := "superseded"), Some(t.replacedBy[id]))
    else PublicPacket(t.handoffs[id], None)
  }

  // ---- one function per transaction -------------------------------------------------

  /** The checks made on a record before it is written. */
  predicate Writable(id: HandoffId, supersedes: Option<HandoffId>) {
    ValidId(id) && (supersedes.Some? ==> ValidId(supersedes.value) && supersedes.value != id)
  }

  function Create(t: Tables, id: HandoffId, packet: Packet): Option<Tables> {
    if !Writable(id, packet.supersedes) || id in t.handoffs then None
    else Some(t.(handoffs := t.handoffs[id := packet]))
  }

  predicate Current(t: Tables, id: HandoffId, project: string) {
    id in t.handoffs && t.handoffs[id].project == project && id !in t.replacedBy
  }

  /** The writing half of a replacement. */
  function Replace(t: Tables, previous: HandoffId, id: HandoffId, packet: Packet): Option<Tables> {
    if !Writable(id, Some(previous)) || id in t.handoffs || previous in t.replacedBy || id in t.replacedBy.Values
    then None
    else Some(Tables(t.handoffs[id := packet.(supersedes := Some(previous))], t.replacedBy[previous := id]))
  }

  // ---- the store as an object ---------------------------------------------------------

  class HandoffStore {
    var handoffs: map<HandoffId, Packet>
    var replacedBy: map<HandoffId, HandoffId>

    function Contents(): Tables
      reads this
    {
      Tables(handoffs, replacedBy)
    }

    constructor ()
      ensures Contents() == EmptyTables
    {
      handoffs, replacedBy := map[], map[];
    }

    method CreateHandoff(id: HandoffId, packet: Packet) returns (ok: bool)
      modifies this
      ensures ok <==> Create(old(Contents()), id, packet).Some?
      ensures Contents() == if ok then Create(old(Contents()), id, packet).value else old(Contents())
    {
      ok := Writable(id, packet.supersedes) && id !in handoffs;
      if ok {
        handoffs := handoffs[id := packet];
      }
    }

    method GetHandoff(id: HandoffId, project: string) returns (found: Option<PublicPacket>)
      ensures found == if id in handoffs && handoffs[id].project == project then Some(Public(Contents(), id)) else None
    {
      if id !in handoffs || handoffs[id].project != project {
        return None;
      }
      var record := handoffs[id];
      if id in replacedBy {
        return Some(PublicPacket(record.(status := "superseded"), Some(replacedBy[id])));
      }
      return Some(PublicPacket(record, None));
    }

    /** The packet is inserted first; a constraint violation on the second insert rolls both back. */
    method InsertReplacement(previous: HandoffId, id: HandoffId, packet: Packet) returns (ok: bool)
      modifies this
      ensures ok <==> Replace(old(Contents()), previous, id, packet).Some?
      ensures Contents() == if ok then Replace(old(Contents()), previous, id, packet).value else old(Contents())
    {
      ok := false;
      if !Writable(id, Some(previous)) || id in handoffs {
        return;
      }
      var before := handoffs;
      handoffs := handoffs[id := packet.(supersedes := Some(previous))];
      if previous in replacedBy || id in replacedBy.Values {
        handoffs := before;
        return;
      }
      replacedBy := replacedBy[previous := id];
      ok := true;
    }

    method SupersedeHandoff(previous: HandoffId, project: string, id: HandoffId, packet: Packet)
      returns (ok: bool)
      modifies this
      ensures ok <==> Current(old(Contents()), previous, project)
                      && Replace(old(Contents()), previous, id, packet.(project := project)).Some?
      ensures Contents() == if ok then Replace(old(Contents()), previous, id, packet.(project := project)).value
                            else old(Contents())
    {
      ok := false;
      var existing := GetHandoff(previous, project);
      if existing.None? || existing.value.supersededBy.Some? {
        return;
      }
      ok := InsertReplacement(previous, id, packet.(project := project));
    }
  }

  /** What `search_handoffs` ranges over when superseded packets are left out. */
  function Active(t: Tables, project: string): set<HandoffId> {
    set id | id in t.handoffs && Current(t, id, project)
  }

  // ---- concurrent writers ----------------------------------------------------------------

  /** A writer that has looked its target up and not yet written. */
  datatype Pending = Pending(previous: HandoffId, project: string)

  datatype System = System(tables: Tables, pending: map<nat, Pending>)

  datatype Action =
    | CreateNew(id: HandoffId, packet: Packet)
    | LookUp(writer: nat, previous: HandoffId, project: string)
    | Write(writer: nat, id: HandoffId, packet: Packet)

  const InitialSystem := System(EmptyTables, map[])

  predicate Enabled(s: System, a: Action) {
    match a
    case CreateNew(_, _) => true
    case LookUp(writer, _, _) => writer !in s.pending
    case Write(writer, _, _) => writer in s.pending
  }

  function OrElse(attempt: Option<Tables>, t: Tables): Tables {
    if attempt.Some? then attempt.value else t
  }

  function Apply(s: System, a: Action): System
    requires Enabled(s, a)
  {
    match a
    case CreateNew(id, packet) => s.(tables := OrElse(Create(s.tables, id, packet), s.tables))
    case LookUp(writer, previous, project) =>
      if Current(s.tables, previous, project) then s.(pending := s.pending[writer := Pending(previous, project)]) else s
    case Write(writer, id, packet) =>
      var Pending(previous, project) := s.pending[writer];
      System(OrElse(Replace(s.tables, previous, id, packet.(project := project)), s.tables), s.pending - {writer})
  }

  ghost predicate IsRun(states: seq<System>, actions: seq<Action>) {
    && |states| == |actions| + 1
    && states[0] == InitialSystem
    && forall i {:trigger actions[i]} :: 0 <= i < |actions| ==>
         Enabled(states[i], actions[i]) && states[i + 1] == Apply(states[i], actions[i])
  }

  // ---- the invariant ------------------------------------------------------------------------

  /** An entry links two stored packets of one project, and the younger names the older. */
  predicate EntryOk(t: Tables, p: HandoffId)
    requires p in t.replacedBy
  {
    && p in t.handoffs
    && t.replacedBy[p] in t.handoffs
    && t.handoffs[p].project == t.handoffs[t.replacedBy[p]].project
    && t.handoffs[t.replacedBy[p]].supersedes == Some(p)
  }

  ghost predicate TablesOk(t: Tables) {
    && (forall p :: p in t.replacedBy ==> EntryOk(t, p))
    && Injective(t.replacedBy)
    && Acyclic(t.replacedBy)
  }

  ghost predicate Inv(s: System) {
    && TablesOk(s.tables)
    && forall w :: w in s.pending ==>
         s.pending[w].previous in s.tables.handoffs
         && s.tables.handoffs[s.pending[w].previous].project == s.pending[w].project
  }

  /** Stored packets and entries are never changed or removed. */
  ghost predicate Keeps(t1: Tables, t2: Tables) {
    && (forall id :: id in t1.handoffs ==> id in t2.handoffs && t2.handoffs[id] == t1.handoffs[id])
    && (forall p :: p in t1.replacedBy ==> p in t2.replacedBy && t2.replacedBy[p] == t1.replacedBy[p])
  }

  lemma ReplaceKeepsOk(t: Tables, previous: HandoffId, id: HandoffId, packet: Packet)
    requires TablesOk(t) && previous in t.handoffs && packet.project == t.handoffs[previous].project
    requires Replace(t, previous, id, packet).Some?
    ensures TablesOk(Replace(t, previous, id, packet).value)
  {
    var after := Replace(t, previous, id, packet).value;
    forall p | p in after.replacedBy ensures EntryOk(after, p) {
      if p != previous {
        assert EntryOk(t, p);
      }
    }
    forall x, y | x in after.replacedBy && y in after.replacedBy && x != y
      ensures after.replacedBy[x] != after.replacedBy[y]
    {
      assert x != previous ==> t.replacedBy[x] in t.replacedBy.Values;
      assert y != previous ==> t.replacedBy[y] in t.replacedBy.Values;
    }
    assert id in t.replacedBy ==> EntryOk(t, id);
    SinkUpdateKeepsAcyclic(t.replacedBy, after.replacedBy, id);
  }

  lemma CreateKeepsOk(t: Tables, id: HandoffId, packet: Packet)
    requires TablesOk(t) && Create(t, id, packet).Some?
    ensures TablesOk(Create(t, id, packet).value)
  {
    forall p | p in t.replacedBy ensures EntryOk(Create(t, id, packet).value, p) {
      assert EntryOk(t, p);
    }
  }

  lemma StepKeepsInv(s: System, a: Action)
    requires Inv(s) && Enabled(s, a)
    ensures Inv(Apply(s, a)) && Keeps(s.tables, Apply(s, a).tables)
  {
    match a {
      case CreateNew(id, packet) =>
        if Create(s.tables, id, packet).Some? {
          CreateKeepsOk(s.tables, id, packet);
        }
      case LookUp(_, _, _) =>
      case Write(writer, id, packet) =>
        var Pending(previous, project) := s.pending[writer];
        if Replace(s.tables, previous, id, packet.(project := project)).Some? {
          ReplaceKeepsOk(s.tables, previous, id, packet.(project := project));
        }
    }
  }

  lemma {:induction false} RunKeepsInv(states: seq<System>, actions: seq<Action>, i: nat)
    requires IsRun(states, actions) && i < |states|
    ensures Inv(states[i]) && (i > 0 ==> Keeps(states[i - 1].tables, states[i].tables))
  {
    if i > 0 {
      RunKeepsInv(states, actions, i - 1);
      assert states[i] == Apply(states[i - 1], actions[i - 1]);
      StepKeepsInv(states[i - 1], actions[i - 1]);
    }
  }

  /** Over a run packets are immutable and a packet once replaced stays replaced by the same one. */
  lemma {:induction false} NothingIsRewritten(states: seq<System>, actions: seq<Action>, i: nat, j: nat)
    requires IsRun(states, actions) && i <= j < |states|
    ensures Keeps(states[i].tables, states[j].tables)
    decreases j
  {
    if i < j {
      NothingIsRewritten(states, actions, i, j - 1);
      RunKeepsInv(states, actions, j);
    }
  }

  // ---- the promises ----------------------------------------------------------------------------

  lemma {:induction false} WalkStaysInProject(t: Tables, x: HandoffId, n: nat)
    requires TablesOk(t) && x in t.handoffs && Walk(t.replacedBy, x, n).Some?
    ensures Walk(t.replacedBy, x, n).value in t.handoffs
    ensures t.handoffs[Walk(t.replacedBy, x, n).value].project == t.handoffs[x].project
    decreases n
  {
    if n > 0 {
      assert EntryOk(t, x);
      WalkStaysInProject(t, t.replacedBy[x], n - 1);
    }
  }

  /** From any packet the successor walk terminates, inside the packet's own project, at
      the one current packet of its chain. */
  lemma OneCurrentPacketPerChain(states: seq<System>, actions: seq<Action>, i: nat, x: HandoffId)
    requires IsRun(states, actions) && i < |states| && x in states[i].tables.handoffs
    ensures
      var t := states[i].tables;
      var head := Head(t.replacedBy, x);
      && head in Active(t, t.handoffs[x].project)
      && Reaches(t.replacedBy, x, head)
      && forall y :: y in t.handoffs && y !in t.replacedBy && Reaches(t.replacedBy, x, y) ==> y == head
  {
    RunKeepsInv(states, actions, i);
    var t := states[i].tables;
    var n := HeadEnds(t.replacedBy, x);
    WalkStaysInProject(t, x, n);
    forall y | y in t.handoffs && y !in t.replacedBy && Reaches(t.replacedBy, x, y)
      ensures y == Head(t.replacedBy, x)
    {
      ReachingKeepsHead(t.replacedBy, x, y);
    }
  }

  /** Two packets lead to the same current packet exactly when one replaced the other,
      directly or through others; and no packet replaced two. */
  lemma PacketsFormDisjointChains(states: seq<System>, actions: seq<Action>, i: nat, x: HandoffId, y: HandoffId)
    requires IsRun(states, actions) && i < |states|
    ensures
      var next := states[i].tables.replacedBy;
      && (Head(next, x) == Head(next, y) <==> Reaches(next, x, y) || Reaches(next, y, x))
      && (x in next && y in next && next[x] == next[y] ==> x == y)
  {
    RunKeepsInv(states, actions, i);
    ChainsAreDisjoint(states[i].tables.replacedBy, x, y);
  }

  /** Of two writers that looked up the same packet, the second to write changes nothing. */
  lemma LoserRollsBack(t: Tables, previous: HandoffId, id1: HandoffId, p1: Packet, id2: HandoffId, p2: Packet)
    requires Replace(t, previous, id1, p1).Some?
    ensures Replace(Replace(t, previous, id1, p1).value, previous, id2, p2).None?
  {
  }

  /** The predecessor fields are the inverse of the supersession table. */
  ghost predicate FieldsInvert(t: Tables) {
    forall p, r :: r in t.handoffs ==>
      (t.handoffs[r].supersedes == Some(p) <==> p in t.replacedBy && t.replacedBy[p] == r)
  }

  lemma ReplaceKeepsInverse(t: Tables, previous: HandoffId, id: HandoffId, packet: Packet)
    requires TablesOk(t) && FieldsInvert(t) && previous in t.handoffs && Replace(t, previous, id, packet).Some?
    ensures FieldsInvert(Replace(t, previous, id, packet).value)
  {
    forall p | p in t.replacedBy ensures t.replacedBy[p] != id {
      assert EntryOk(t, p);
    }
  }

  /** Creation may write a predecessor into a packet without an entry in the table;
      it keeps the inverse exactly when it does not. */
  lemma CreateKeepsInverseIff(t: Tables, id: HandoffId, packet: Packet)
    requires TablesOk(t) && FieldsInvert(t) && Create(t, id, packet).Some?
    ensures FieldsInvert(Create(t, id, packet).value) <==> packet.supersedes.None?
  {
    var after := Create(t, id, packet).value;
    forall p | p in t.replacedBy ensures t.replacedBy[p] != id {
      assert EntryOk(t, p);
    }
    if packet.supersedes.Some? {
      var p := packet.supersedes.value;
      assert after.handoffs[id].supersedes == Some(p);
      assert !(p in after.replacedBy && after.replacedBy[p] == id);
    }
  }

  /** The step stores a packet that names a predecessor, without an entry in the table. */
  predicate BreaksInverse(s: System, a: Action) {
    a.CreateNew? && a.packet.supersedes.Some? && Create(s.tables, a.id, a.packet).Some?
  }

  /** The entry of a stored packet: no step adds one for a packet that is stored already. */
  lemma EntriesOfStoredStay(s: System, a: Action, p: HandoffId, r: HandoffId)
    requires Inv(s) && Enabled(s, a) && r in s.tables.handoffs
    ensures
      var next := Apply(s, a).tables.replacedBy;
      p in next && next[p] == r <==> p in s.tables.replacedBy && s.tables.replacedBy[p] == r
  {
    StepKeepsInv(s, a);
  }

  /** A broken inverse is never repaired. */
  lemma BrokenStaysBroken(s: System, a: Action)
    requires Inv(s) && Enabled(s, a) && FieldsInvert(Apply(s, a).tables)
    ensures FieldsInvert(s.tables)
  {
    StepKeepsInv(s, a);
    forall p, r | r in s.tables.handoffs
      ensures s.tables.handoffs[r].supersedes == Some(p) <==> p in s.tables.replacedBy && s.tables.replacedBy[p] == r
    {
      EntriesOfStoredStay(s, a, p, r);
    }
  }

  lemma StepInvertsIff(s: System, a: Action)
    requires Inv(s) && Enabled(s, a)
    ensures FieldsInvert(Apply(s, a).tables) <==> FieldsInvert(s.tables) && !BreaksInverse(s, a)
  {
    if !FieldsInvert(s.tables) {
      if FieldsInvert(Apply(s, a).tables) {
        BrokenStaysBroken(s, a);
      }
    } else if a.CreateNew? && Create(s.tables, a.id, a.packet).Some? {
      CreateKeepsInverseIff(s.tables, a.id, a.packet);
    } else if a.Write? {
      var Pending(previous, project) := s.pending[a.writer];
      if Replace(s.tables, previous, a.id, a.packet.(project := project)).Some? {
        ReplaceKeepsInverse(s.tables, previous, a.id, a.packet.(project := project));
      }
    }
  }

  lemma RunStepInvertsIff(states: seq<System>, actions: seq<Action>, i: nat)
    requires IsRun(states, actions) && i < |actions|
    ensures FieldsInvert(states[i + 1].tables)
       <==> FieldsInvert(states[i].tables) && !BreaksInverse(states[i], actions[i])
  {
    RunKeepsInv(states, actions, i);
    assert states[i + 1] == Apply(states[i], actions[i]);
    StepInvertsIff(states[i], actions[i]);
  }

  ghost predicate NoneBreaks(states: seq<System>, actions: seq<Action>, i: nat)
    requires i <= |actions| && i <= |states|
  {
    forall k :: 0 <= k < i ==> !BreaksInverse(states[k], actions[k])
  }

  /** In every run the predecessor fields are the inverse of the supersession table exactly as long
      as no creation has stored a packet that names a predecessor. */
  lemma {:induction false} FieldsInvertOverRuns(states: seq<System>, actions: seq<Action>, i: nat)
    requires IsRun(states, actions) && i < |states|
    ensures FieldsInvert(states[i].tables) <==> NoneBreaks(states, actions, i)
  {
    if i > 0 {
      FieldsInvertOverRuns(states, actions, i - 1);
      RunStepInvertsIff(states, actions, i - 1);
      assert NoneBreaks(states, actions, i)
        <==> NoneBreaks(states, actions, i - 1) && !BreaksInverse(states[i - 1], actions[i - 1]);
    }
  }
}
