/** What the handoff calls store and show, column by column, and where every stored packet and every
    entry of the supersession table comes from. */
module HandoffEffects {
  import opened Options
  import opened SupersessionGraph
  import opened Handoffs

  // ---- one call --------------------------------------------------------------------------------

  /** An id of 1 to 128 characters. */
  predicate WellFormed(id: HandoffId) {
    1 <= |id.text| <= 128
  }

  /** A packet is created exactly when its id is well formed and new, and a predecessor that it
      names is well formed and another one; it is stored as given and nothing else changes. */
  lemma CreationChanges(t: Tables, id: HandoffId, packet: Packet)
    ensures
      Create(t, id, packet).Some?
      <==> WellFormed(id) && id !in t.handoffs
           && (packet.supersedes.Some? ==> WellFormed(packet.supersedes.value) && packet.supersedes.value != id)
    ensures Create(t, id, packet).Some? ==>
      var after := Create(t, id, packet).value;
      && after.replacedBy == t.replacedBy && after.handoffs.Keys == t.handoffs.Keys + {id}
      && after.handoffs[id] == packet
      && forall other :: other in t.handoffs ==> after.handoffs[other] == t.handoffs[other]
  {
  }

  /** A replacement is written exactly when its id is well formed, new and not the replaced one, and
      neither column of the supersession table has its value already. The packet is stored as given
      but for the predecessor. */
  lemma ReplacementChanges(t: Tables, previous: HandoffId, id: HandoffId, packet: Packet)
    ensures
      Replace(t, previous, id, packet).Some?
      <==> WellFormed(id) && WellFormed(previous) && id != previous && id !in t.handoffs
           && previous !in t.replacedBy && forall p :: p in t.replacedBy ==> t.replacedBy[p] != id
    ensures Replace(t, previous, id, packet).Some? ==>
      var after := Replace(t, previous, id, packet).value;
      && after.handoffs.Keys == t.handoffs.Keys + {id}
      && (forall other :: other in t.handoffs ==> after.handoffs[other] == t.handoffs[other])
      && after.handoffs[id].supersedes == Some(previous) && after.handoffs[id].owner == packet.owner
      && after.handoffs[id].project == packet.project && after.handoffs[id].status == packet.status
      && after.handoffs[id].body == packet.body
      && after.replacedBy.Keys == t.replacedBy.Keys + {previous} && after.replacedBy[previous] == id
      && forall p :: p in t.replacedBy ==> after.replacedBy[p] == t.replacedBy[p]
  {
  }

  /** A reader sees the stored packet; only a replaced one shows a successor, and the status
      "superseded" in place of its own. */
  lemma ShownAsStored(t: Tables, id: HandoffId)
    requires id in t.handoffs
    ensures
      var shown, stored := Public(t, id), t.handoffs[id];
      && (id in t.replacedBy ==> shown.supersededBy == Some(t.replacedBy[id]) && shown.packet.status == "superseded")
      && (id !in t.replacedBy ==> shown.supersededBy.None? && shown.packet.status == stored.status)
      && shown.packet.owner == stored.owner && shown.packet.project == stored.project
      && shown.packet.body == stored.body && shown.packet.supersedes == stored.supersedes
  {
  }

  /** The search without superseded packets ranges over the unreplaced packets of the project. */
  lemma SearchRangesOver(t: Tables, project: string, id: HandoffId)
    ensures id in Active(t, project) <==> id in t.handoffs && t.handoffs[id].project == project && id !in t.replacedBy
  {
  }

  // ---- runs ------------------------------------------------------------------------------------

  /** The step stores the packet under the id. */
  predicate StoresPacket(s: System, a: Action, id: HandoffId, stored: Packet) {
    match a
    case CreateNew(other, packet) => other == id && packet == stored
    case Write(writer, other, packet) =>
      other == id && writer in s.pending
      && stored == packet.(project := s.pending[writer].project, supersedes := Some(s.pending[writer].previous))
    case _ => false
  }

  lemma PacketIsStored(s: System, a: Action, id: HandoffId)
    requires Enabled(s, a) && id in Apply(s, a).tables.handoffs && id !in s.tables.handoffs
    ensures StoresPacket(s, a, id, Apply(s, a).tables.handoffs[id]) && WellFormed(id)
  {
    match a {
      case CreateNew(other, packet) => CreationChanges(s.tables, other, packet);
      case Write(writer, other, packet) =>
        ReplacementChanges(s.tables, s.pending[writer].previous, other, packet.(project := s.pending[writer].project));
      case _ =>
    }
  }

  /** In every run each stored packet was given to one earlier call in the very form in which it is
      stored, under a well-formed id. */
  lemma {:induction false} PacketWasGiven(states: seq<System>, actions: seq<Action>, i: nat, id: HandoffId)
      returns (k: nat)
    requires IsRun(states, actions) && i < |states| && id in states[i].tables.handoffs
    ensures WellFormed(id)
    ensures k < i && StoresPacket(states[k], actions[k], id, states[i].tables.handoffs[id])
  {
    assert i > 0;
    assert states[i] == Apply(states[i - 1], actions[i - 1]);
    RunKeepsInv(states, actions, i);
    if id in states[i - 1].tables.handoffs {
      k := PacketWasGiven(states, actions, i - 1, id);
    } else {
      PacketIsStored(states[i - 1], actions[i - 1], id);
      k := i - 1;
    }
  }

  /** A writer that is pending looked its packet up, in the packet's own project, when it was current. */
  lemma {:induction false} PendingLookedUp(states: seq<System>, actions: seq<Action>, i: nat, writer: nat)
      returns (k: nat)
    requires IsRun(states, actions) && i < |states| && writer in states[i].pending
    ensures
      var p := states[i].pending[writer];
      && k < i && actions[k] == LookUp(writer, p.previous, p.project)
      && p.previous in states[k].tables.handoffs && p.previous !in states[k].tables.replacedBy
      && states[k].tables.handoffs[p.previous].project == p.project
  {
    assert i > 0;
    var s, a := states[i - 1], actions[i - 1];
    assert states[i] == Apply(s, a);
    if writer in s.pending {
      k := PendingLookedUp(states, actions, i - 1, writer);
    } else {
      k := i - 1;
    }
  }

  /** In every run an entry of the supersession table was written by one call that had looked the
      replaced packet up in its own project while it was current. */
  lemma {:induction false} EntryWasLookedUp(states: seq<System>, actions: seq<Action>, i: nat, p: HandoffId)
      returns (j: nat, k: nat)
    requires IsRun(states, actions) && i < |states| && p in states[i].tables.replacedBy
    ensures k < j < i && actions[j].Write? && actions[j].id == states[i].tables.replacedBy[p]
    ensures actions[j].writer in states[j].pending && states[j].pending[actions[j].writer].previous == p
    ensures actions[k] == LookUp(actions[j].writer, p, states[j].pending[actions[j].writer].project)
    ensures p in states[k].tables.handoffs && p !in states[k].tables.replacedBy
    ensures states[k].tables.handoffs[p].project == states[j].pending[actions[j].writer].project
  {
    assert i > 0;
    var s, a := states[i - 1], actions[i - 1];
    assert states[i] == Apply(s, a);
    RunKeepsInv(states, actions, i);
    if p in s.tables.replacedBy {
      j, k := EntryWasLookedUp(states, actions, i - 1, p);
    } else {
      j := i - 1;
      EntryIsWritten(s, a, p);
      k := PendingLookedUp(states, actions, j, a.writer);
    }
  }

  lemma EntryIsWritten(s: System, a: Action, p: HandoffId)
    requires Enabled(s, a) && p in Apply(s, a).tables.replacedBy && p !in s.tables.replacedBy
    ensures a.Write? && a.writer in s.pending && s.pending[a.writer].previous == p
    ensures Apply(s, a).tables.replacedBy[p] == a.id
  {
    match a {
      case CreateNew(other, packet) => CreationChanges(s.tables, other, packet);
      case Write(writer, other, packet) =>
        ReplacementChanges(s.tables, s.pending[writer].previous, other, packet.(project := s.pending[writer].project));
      case _ =>
    }
  }

  /** In every run following successors never leaves the project, and each successor names the packet
      that it replaced. */
  lemma SuccessorsStayInProject(states: seq<System>, actions: seq<Action>, i: nat, p: HandoffId)
    requires IsRun(states, actions) && i < |states| && p in states[i].tables.replacedBy
    ensures
      var t := states[i].tables;
      && p in t.handoffs && t.replacedBy[p] in t.handoffs && t.replacedBy[p] != p
      && t.handoffs[t.replacedBy[p]].project == t.handoffs[p].project
      && t.handoffs[t.replacedBy[p]].supersedes == Some(p)
  {
    RunKeepsInv(states, actions, i);
    var t := states[i].tables;
    assert EntryOk(t, p);
    assert Walk(t.replacedBy, p, 1) == Walk(t.replacedBy, t.replacedBy[p], 0);
  }

  /** A lookup and the write after it, with nothing in between, are one call of the store: it replaces a
      current packet of the project, and else changes nothing. */
  lemma TwoStepsAreTheCall(s: System, writer: nat, previous: HandoffId, project: string, id: HandoffId, packet: Packet)
    requires writer !in s.pending
    ensures
      var looked := Apply(s, LookUp(writer, previous, project));
      var given := packet.(project := project);
      if previous in s.tables.handoffs && s.tables.handoffs[previous].project == project
         && previous !in s.tables.replacedBy then
        && Enabled(looked, Write(writer, id, packet))
        && Apply(looked, Write(writer, id, packet)).tables
           == (if Replace(s.tables, previous, id, given).Some? then Replace(s.tables, previous, id, given).value
               else s.tables)
        && Apply(looked, Write(writer, id, packet)).pending == s.pending
      else looked == s && !Enabled(looked, Write(writer, id, packet))
  {
  }
}
