/** Facts and their corrections. A new fact first supersedes the active facts it
    corrects and is then inserted over any row with its id. */
module Facts {
  import opened FirstOccurrences
  import opened Options
  import opened SupersessionGraph

  datatype FactId = FactId(text: string)

  /** Owner and project; SQL's IS makes two NULLs equal. */
  datatype Scope = Scope(owner: Option<string>, project: Option<string>)

  datatype Fact = Fact(
    subject: string, predicate_: string, object_: string, scope: Scope,
    direct: bool, corrects: string, updatedAt: nat, confirmedAt: Option<nat>,
    supersededBy: Option<FactId>, supersededAt: Option<nat>, deletedAt: Option<nat>)

  type Table = map<FactId, Fact>

  /** The incoming fact with its id; `direct` marks a direct user statement and an
      empty `corrects` means that it corrects nothing. */
  datatype Incoming = Incoming(id: FactId, fact: Fact)

  /** SQL's LIKE of a stored object against the corrected text, case folded. */
  type Like = (string, string) -> bool

  predicate Active(f: Fact) {
    f.supersededBy.None? && f.deletedAt.None?
  }

  predicate SameStatement(row: Fact, f: Fact) {
    row.subject == f.subject && row.predicate_ == f.predicate_ && row.scope == f.scope
  }

  function Confirmed(t: Table, f: Fact): Table {
    map id | id in t ::
      if SameStatement(t[id], f) && t[id].object_ == f.object_ && Active(t[id])
      then t[id].(confirmedAt := f.confirmedAt, updatedAt := f.updatedAt) else t[id]
  }

  predicate Corrected(row: Fact, f: Fact, like: Like) {
    SameStatement(row, f) && Active(row) && like(row.object_, f.corrects)
  }

  function Superseded(t: Table, inc: Incoming, like: Like): Table {
    map id | id in t ::
      if Corrected(t[id], inc.fact, like)
      then t[id].(supersededBy := Some(inc.id), supersededAt := Some(inc.fact.updatedAt),
                  updatedAt := inc.fact.updatedAt)
      else t[id]
  }

  function InsertOne(t: Table, inc: Incoming, like: Like): Table {
    var t1 := if inc.fact.direct then Confirmed(t, inc.fact) else t;
    var t2 := if inc.fact.corrects != "" then Superseded(t1, inc, like) else t1;
    t2[inc.id := inc.fact]
  }

  function InsertAll(t: Table, batch: seq<Incoming>, like: Like): Table
    decreases |batch|
  {
    if batch == [] then t else InsertAll(InsertOne(t, batch[0], like), batch[1..], like)
  }

  lemma {:induction false} InsertAllSnoc(t: Table, batch: seq<Incoming>, inc: Incoming, like: Like)
    ensures InsertAll(t, batch + [inc], like) == InsertOne(InsertAll(t, batch, like), inc, like)
    decreases |batch|
  {
    if batch == [] {
      assert batch + [inc] == [inc];
      assert InsertAll(t, [inc], like) == InsertAll(InsertOne(t, inc, like), [], like);
    } else {
      assert (batch + [inc])[1..] == batch[1..] + [inc];
      InsertAllSnoc(InsertOne(t, batch[0], like), batch[1..], inc, like);
    }
  }

  /** `supersede_fact` takes the fact for one of the project, if one is given. */
  predicate Settable(t: Table, id: FactId, project: Option<string>) {
    id in t && t[id].deletedAt.None? && (project.Some? ==> t[id].scope.project == project)
  }

  function SetSuperseded(t: Table, id: FactId, successor: FactId, project: Option<string>, now: nat): Table {
    if Settable(t, id, project)
    then t[id := t[id].(supersededBy := Some(successor), supersededAt := Some(now), updatedAt := now)] else t
  }

  class FactStore {
    var facts: Table

    constructor ()
      ensures facts == map[]
    {
      facts := map[];
    }

    method RefreshMatchingFactConfirmation(f: Fact)
      modifies this
      ensures facts == if f.direct then Confirmed(old(facts), f) else old(facts)
    {
      if !f.direct {
        return;
      }
      facts := Confirmed(facts, f);
    }

    method SupersedeCorrectedFacts(inc: Incoming, like: Like)
      modifies this
      ensures facts == if inc.fact.corrects != "" then Superseded(old(facts), inc, like) else old(facts)
    {
      if inc.fact.corrects == "" {
        return;
      }
      facts := Superseded(facts, inc, like);
    }

    method InsertFacts(batch: seq<Incoming>, like: Like)
      modifies this
      ensures facts == InsertAll(old(facts), batch, like)
    {
      var i := 0;
      while i < |batch|
        invariant 0 <= i <= |batch|
        invariant facts == InsertAll(old(facts), batch[..i], like)
      {
        RefreshMatchingFactConfirmation(batch[i].fact);
        SupersedeCorrectedFacts(batch[i], like);
        facts := facts[batch[i].id := batch[i].fact];
        InsertAllSnoc(old(facts), batch[..i], batch[i], like);
        assert batch[..i + 1] == batch[..i] + [batch[i]];
        i := i + 1;
      }
      assert batch[..i] == batch;
    }

    /** Points a fact anywhere, itself included, whether or not it was superseded before. */
    method SupersedeFact(id: FactId, successor: FactId, project: Option<string>, now: nat) returns (updated: bool)
      modifies this
      ensures updated <==> Settable(old(facts), id, project)
      ensures facts == SetSuperseded(old(facts), id, successor, project, now)
    {
      updated := Settable(facts, id, project);
      if updated {
        facts := facts[id := facts[id].(supersededBy := Some(successor), supersededAt := Some(now), updatedAt := now)];
      }
    }
  }

  // ---- the superseded_by graph ---------------------------------------------------------

  function Links(t: Table): map<FactId, FactId> {
    map id | id in t && t[id].supersededBy.Some? :: t[id].supersededBy.value
  }

  ghost predicate Good(t: Table) {
    && Acyclic(Links(t))
    && forall id :: id in t && t[id].supersededBy.Some? ==> t[id].supersededBy.value in t
  }

  lemma InsertOneKeepsGood(t: Table, inc: Incoming, like: Like)
    requires Good(t) && inc.fact.supersededBy.None?
    ensures Good(InsertOne(t, inc, like))
  {
    SinkUpdateKeepsAcyclic(Links(t), Links(InsertOne(t, inc, like)), inc.id);
  }

  ghost predicate AllUnsuperseded(batch: seq<Incoming>) {
    forall i :: 0 <= i < |batch| ==> batch[i].fact.supersededBy.None?
  }

  lemma {:induction false} InsertAllKeepsGood(t: Table, batch: seq<Incoming>, like: Like)
    requires Good(t) && AllUnsuperseded(batch)
    ensures Good(InsertAll(t, batch, like))
    decreases |batch|
  {
    if batch != [] {
      InsertOneKeepsGood(t, batch[0], like);
      InsertAllKeepsGood(InsertOne(t, batch[0], like), batch[1..], like);
    }
  }

  /** The table after a run of batches. Ids may recur, within a batch and across batches. */
  function AfterBatches(batches: seq<seq<Incoming>>, like: Like): Table
    decreases |batches|
  {
    if batches == [] then map[]
    else InsertAll(AfterBatches(batches[..|batches| - 1], like), batches[|batches| - 1], like)
  }

  lemma {:induction false} RunsStayGood(batches: seq<seq<Incoming>>, like: Like)
    requires forall i :: 0 <= i < |batches| ==> AllUnsuperseded(batches[i])
    ensures Good(AfterBatches(batches, like))
    decreases |batches|
  {
    if batches != [] {
      RunsStayGood(batches[..|batches| - 1], like);
      InsertAllKeepsGood(AfterBatches(batches[..|batches| - 1], like), batches[|batches| - 1], like);
    } else {
      assert Links(map[]) == map[];
    }
  }

  ghost predicate NoneDeleted(t: Table) {
    forall id :: id in t ==> t[id].deletedAt.None?
  }

  ghost predicate NoneArrivesDeleted(batch: seq<Incoming>) {
    forall i :: 0 <= i < |batch| ==> batch[i].fact.deletedAt.None?
  }

  lemma {:induction false} InsertAllDeletesNone(t: Table, batch: seq<Incoming>, like: Like)
    requires NoneDeleted(t) && NoneArrivesDeleted(batch)
    ensures NoneDeleted(InsertAll(t, batch, like))
    decreases |batch|
  {
    if batch != [] {
      InsertAllDeletesNone(InsertOne(t, batch[0], like), batch[1..], like);
    }
  }

  lemma {:induction false} RunsDeleteNone(batches: seq<seq<Incoming>>, like: Like)
    requires forall i :: 0 <= i < |batches| ==> NoneArrivesDeleted(batches[i])
    ensures NoneDeleted(AfterBatches(batches, like))
    decreases |batches|
  {
    if batches != [] {
      RunsDeleteNone(batches[..|batches| - 1], like);
      InsertAllDeletesNone(AfterBatches(batches[..|batches| - 1], like), batches[|batches| - 1], like);
    }
  }

  lemma {:induction false} WalkStaysInTable(t: Table, id: FactId, n: nat)
    requires Good(t) && id in t && Walk(Links(t), id, n).Some?
    ensures Walk(Links(t), id, n).value in t
    decreases n
  {
    if n > 0 {
      WalkStaysInTable(t, Links(t)[id], n - 1);
    }
  }

  /** Over any run, following superseded_by from any fact ends at a stored fact that
      nothing supersedes, in at most as many steps as there are superseded facts; and it is an
      active one when no fact arrived deleted. */
  lemma CorrectionsLeadToCurrentFact(batches: seq<seq<Incoming>>, like: Like, id: FactId) returns (n: nat)
    requires forall i :: 0 <= i < |batches| ==> AllUnsuperseded(batches[i])
    requires id in AfterBatches(batches, like)
    ensures
      var t := AfterBatches(batches, like);
      var head := Head(Links(t), id);
      && head in t && t[head].supersededBy.None?
      && n <= |Links(t)| && Walk(Links(t), id, n) == Some(head)
      && ((forall i :: 0 <= i < |batches| ==> NoneArrivesDeleted(batches[i])) ==> Active(t[head]))
  {
    RunsStayGood(batches, like);
    if forall i :: 0 <= i < |batches| ==> NoneArrivesDeleted(batches[i]) {
      RunsDeleteNone(batches, like);
    }
    var t := AfterBatches(batches, like);
    n := HeadEnds(Links(t), id);
    WalkStaysInTable(t, id, n);
  }

  /** Right after a correction no other active fact of the statement matches the corrected text. */
  lemma CorrectionReplacesEveryMatch(t: Table, inc: Incoming, like: Like, id: FactId)
    requires inc.fact.corrects != "" && id in t && id != inc.id
    requires SameStatement(t[id], inc.fact) && like(t[id].object_, inc.fact.corrects) && Active(t[id])
    ensures InsertOne(t, inc, like)[id].supersededBy == Some(inc.id)
    ensures inc.fact.supersededBy.None? ==> Head(Links(InsertOne(t, inc, like)), id) == inc.id
  {
    var links := Links(InsertOne(t, inc, like));
    assert links[id] == inc.id;
    if inc.fact.supersededBy.None? {
      assert inc.id !in links - {id};
      assert Head(links, id) == Head(links - {id}, inc.id);
    }
  }

  // ---- facts that arrive superseded --------------------------------------------------------------

  /** Following the stored links from the superseder that the fact arrives with, past any row
      the fact replaces, leads neither to the fact itself nor to a fact that it corrects. */
  predicate Harmless(t: Table, inc: Incoming, like: Like) {
    inc.fact.supersededBy.None?
    || (var end := Head(Links(t) - {inc.id}, inc.fact.supersededBy.value);
        && end != inc.id
        && !(inc.fact.corrects != "" && end in t && Corrected(t[end], inc.fact, like)))
  }

  /** The links of the other facts once the corrected ones point at the new fact. */
  function Redirected(t: Table, inc: Incoming, like: Like): map<FactId, FactId> {
    map id | id in t && id != inc.id
             && (t[id].supersededBy.Some? || (inc.fact.corrects != "" && Corrected(t[id], inc.fact, like)))
      :: if t[id].supersededBy.Some? then t[id].supersededBy.value else inc.id
  }

  lemma InsertedLinks(t: Table, inc: Incoming, like: Like)
    ensures Links(InsertOne(t, inc, like))
         == if inc.fact.supersededBy.None? then Redirected(t, inc, like)
            else Redirected(t, inc, like)[inc.id := inc.fact.supersededBy.value]
  {
  }

  lemma RedirectedIsAcyclic(t: Table, inc: Incoming, like: Like)
    requires Acyclic(Links(t))
    ensures Acyclic(Redirected(t, inc, like)) && inc.id !in Redirected(t, inc, like)
  {
    SinkUpdateKeepsAcyclic(Links(t), Redirected(t, inc, like), inc.id);
  }

  /** Where the superseder leads after the corrections. */
  lemma RedirectedHead(t: Table, inc: Incoming, like: Like, x: FactId)
    requires Acyclic(Links(t))
    ensures
      var end := Head(Links(t) - {inc.id}, x);
      Head(Redirected(t, inc, like), x) == inc.id
      <==> end == inc.id || (inc.fact.corrects != "" && end in t && Corrected(t[end], inc.fact, like))
  {
    var before, after := Links(t) - {inc.id}, Redirected(t, inc, like);
    SubmapKeepsAcyclic(Links(t), before);
    RedirectedIsAcyclic(t, inc, like);
    var n := HeadEnds(before, x);
    var end := Head(before, x);
    WalkInSubmap(after, before, x, n);
    var m := HeadEnds(after, x);
    WalkAdd(after, x, n, 1);
    if end in after {
      assert after[end] == inc.id;
      SameEnd(after, x, n + 1, m);
    } else {
      SameEnd(after, x, n, m);
    }
  }

  /** A fact keeps the graph acyclic exactly when it arrives harmless; what it arrives with and
      the stored rows decide that before the insertion. */
  lemma InsertOneAcyclicIff(t: Table, inc: Incoming, like: Like)
    requires Acyclic(Links(t))
    ensures Acyclic(Links(InsertOne(t, inc, like))) <==> Harmless(t, inc, like)
  {
    InsertedLinks(t, inc, like);
    RedirectedIsAcyclic(t, inc, like);
    if inc.fact.supersededBy.Some? {
      LinkKeepsAcyclicIff(Redirected(t, inc, like), inc.id, inc.fact.supersededBy.value);
      RedirectedHead(t, inc, like, inc.fact.supersededBy.value);
    }
  }

  /** And it keeps every superseder stored exactly when its own is. */
  lemma InsertOneGoodIff(t: Table, inc: Incoming, like: Like)
    requires Good(t)
    ensures Good(InsertOne(t, inc, like))
       <==> Harmless(t, inc, like) && (inc.fact.supersededBy.Some? ==> inc.fact.supersededBy.value in t)
  {
    InsertOneAcyclicIff(t, inc, like);
    var after := InsertOne(t, inc, like);
    assert after.Keys == t.Keys + {inc.id};
    if inc.fact.supersededBy.Some? && inc.fact.supersededBy.value == inc.id {
      assert Head(Links(t) - {inc.id}, inc.id) == inc.id;
    }
  }

  /** Each fact of the batch is harmless when its turn comes. */
  ghost predicate AllHarmless(t: Table, batch: seq<Incoming>, like: Like) {
    forall k :: 0 <= k < |batch| ==> Harmless(InsertAll(t, batch[..k], like), batch[k], like)
  }

  /** The table is acyclic before the batch and after each of its facts. */
  ghost predicate AcyclicThroughout(t: Table, batch: seq<Incoming>, like: Like) {
    forall k :: 0 <= k <= |batch| ==> Acyclic(Links(InsertAll(t, batch[..k], like)))
  }

  /** A batch keeps the graph acyclic throughout exactly when each of its facts arrives harmless. */
  lemma {:induction false} InsertAllAcyclicIff(t: Table, batch: seq<Incoming>, like: Like)
    requires Acyclic(Links(t))
    ensures AcyclicThroughout(t, batch, like) <==> AllHarmless(t, batch, like)
    decreases |batch|
  {
    if batch == [] {
      assert batch[..0] == [];
    } else {
      var n := |batch| - 1;
      var front := batch[..n];
      InsertAllAcyclicIff(t, front, like);
      assert batch == front + [batch[n]] && batch[..n + 1] == batch;
      InsertAllSnoc(t, front, batch[n], like);
      assert forall k :: 0 <= k <= n ==> front[..k] == batch[..k];
      if Acyclic(Links(InsertAll(t, front, like))) {
        InsertOneAcyclicIff(InsertAll(t, front, like), batch[n], like);
      }
      assert AcyclicThroughout(t, batch, like)
        <==> AcyclicThroughout(t, front, like) && Acyclic(Links(InsertAll(t, batch[..n + 1], like)));
      assert AllHarmless(t, batch, like)
        <==> AllHarmless(t, front, like) && Harmless(InsertAll(t, batch[..n], like), batch[n], like);
    }
  }

  /** Batches one after another are one long batch. */
  lemma {:induction false} BatchesAreOneBatch(batches: seq<seq<Incoming>>, like: Like)
    ensures AfterBatches(batches, like) == InsertAll(map[], Flat(batches), like)
    decreases |batches|
  {
    if batches != [] {
      BatchesAreOneBatch(batches[..|batches| - 1], like);
      InsertAllSplit(map[], Flat(batches[..|batches| - 1]), batches[|batches| - 1], like);
    }
  }

  lemma {:induction false} InsertAllSplit(t: Table, first: seq<Incoming>, rest: seq<Incoming>, like: Like)
    ensures InsertAll(t, first + rest, like) == InsertAll(InsertAll(t, first, like), rest, like)
    decreases |first|
  {
    if first == [] {
      assert first + rest == rest;
    } else {
      assert (first + rest)[1..] == first[1..] + rest;
      InsertAllSplit(InsertOne(t, first[0], like), first[1..], rest, like);
    }
  }

  /** Over every run from the empty table: all tables passed through are acyclic exactly when
      every fact arrived harmless, and then so is the last one. */
  lemma RunsAcyclicIff(batches: seq<seq<Incoming>>, like: Like)
    ensures AcyclicThroughout(map[], Flat(batches), like) <==> AllHarmless(map[], Flat(batches), like)
    ensures AllHarmless(map[], Flat(batches), like) ==> Acyclic(Links(AfterBatches(batches, like)))
  {
    var all := Flat(batches);
    assert Links(map[]) == map[];
    InsertAllAcyclicIff(map[], all, like);
    BatchesAreOneBatch(batches, like);
    assert all[..|all|] == all;
  }

  /** An input that is not harmless: a fact that arrives already superseded by the fact it corrects. */
  lemma SupersededArrivalClosesCycle(like: Like, a: FactId, b: FactId, fa: Fact, fb: Fact)
    requires a != b && Active(fb) && SameStatement(fb, fa)
    requires fa.corrects != "" && like(fb.object_, fa.corrects) && fa.supersededBy == Some(b)
    ensures !Acyclic(Links(InsertOne(map[b := fb], Incoming(a, fa), like)))
  {
    var links := Links(InsertOne(map[b := fb], Incoming(a, fa), like));
    assert links[a] == b && links[b] == a;
    assert Walk(links, a, 2) == Walk(links, b, 1) == Walk(links, a, 0);
  }

  // ---- runs in which facts are also pointed by hand --------------------------------------------------

  datatype Change =
    | Insert(inc: Incoming)
    | Point(id: FactId, successor: FactId, project: Option<string>, now: nat)

  function Changed(t: Table, change: Change, like: Like): Table {
    match change
    case Insert(inc) => InsertOne(t, inc, like)
    case Point(id, successor, project, now) => SetSuperseded(t, id, successor, project, now)
  }

  function AfterChanges(changes: seq<Change>, like: Like): Table
    decreases |changes|
  {
    if changes == [] then map[]
    else Changed(AfterChanges(changes[..|changes| - 1], like), changes[|changes| - 1], like)
  }

  /** Pointing a fact at another: past its own link, that one does not lead back to it. */
  predicate HarmlessChange(t: Table, change: Change, like: Like) {
    match change
    case Insert(inc) => Harmless(t, inc, like)
    case Point(id, successor, project, _) => Settable(t, id, project) ==> Head(Links(t) - {id}, successor) != id
  }

  lemma PointAcyclicIff(t: Table, id: FactId, successor: FactId, project: Option<string>, now: nat)
    requires Acyclic(Links(t)) && Settable(t, id, project)
    ensures Acyclic(Links(SetSuperseded(t, id, successor, project, now))) <==> Head(Links(t) - {id}, successor) != id
  {
    var before := Links(t) - {id};
    SubmapKeepsAcyclic(Links(t), before);
    assert Links(SetSuperseded(t, id, successor, project, now)) == before[id := successor];
    LinkKeepsAcyclicIff(before, id, successor);
  }

  lemma ChangeAcyclicIff(t: Table, change: Change, like: Like)
    requires Acyclic(Links(t))
    ensures Acyclic(Links(Changed(t, change, like))) <==> HarmlessChange(t, change, like)
  {
    match change {
      case Insert(inc) => InsertOneAcyclicIff(t, inc, like);
      case Point(id, successor, project, now) =>
        if Settable(t, id, project) {
          PointAcyclicIff(t, id, successor, project, now);
        }
    }
  }

  ghost predicate AcyclicAfterEach(changes: seq<Change>, like: Like) {
    forall k :: 0 <= k <= |changes| ==> Acyclic(Links(AfterChanges(changes[..k], like)))
  }

  ghost predicate EachHarmless(changes: seq<Change>, like: Like) {
    forall k :: 0 <= k < |changes| ==> HarmlessChange(AfterChanges(changes[..k], like), changes[k], like)
  }

  lemma OneMoreChange(front: seq<Change>, last: Change, like: Like)
    ensures AfterChanges(front + [last], like) == Changed(AfterChanges(front, like), last, like)
    ensures AcyclicAfterEach(front + [last], like)
       <==> AcyclicAfterEach(front, like) && Acyclic(Links(AfterChanges(front + [last], like)))
    ensures EachHarmless(front + [last], like)
       <==> EachHarmless(front, like) && HarmlessChange(AfterChanges(front, like), last, like)
  {
    var changes, n := front + [last], |front|;
    assert changes[..n] == front && changes[..n + 1] == changes && front[..n] == front;
    assert forall k :: 0 <= k <= n ==> changes[..k] == front[..k];
    assert changes[n] == last;
  }

  /** Over every run of insertions and of facts pointed by hand: all tables passed through are
      acyclic exactly when every change is harmless at its turn. */
  lemma {:induction false} ChangesAcyclicIff(changes: seq<Change>, like: Like)
    ensures AcyclicAfterEach(changes, like) <==> EachHarmless(changes, like)
    decreases |changes|
  {
    if changes == [] {
      assert changes[..0] == [] && Links(map[]) == map[];
    } else {
      var front, last := changes[..|changes| - 1], changes[|changes| - 1];
      assert changes == front + [last];
      ChangesAcyclicIff(front, like);
      OneMoreChange(front, last, like);
      if AcyclicAfterEach(front, like) {
        assert front[..|front|] == front;
        ChangeAcyclicIff(AfterChanges(front, like), last, like);
      }
    }
  }
}
