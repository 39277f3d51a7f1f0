/** Graph relationships. A batch is first written row by row; then each of its
    relationships supersedes the active rows of its conflict group that say
    something else, without looking whether it was itself superseded meanwhile. */
module Relationships {
  import opened Options
  import opened SupersessionGraph

  datatype RelationshipId = RelationshipId(text: string)

  datatype Row = Row(
    subject: string, predicate_: string, object_: string, owner: Option<string>, project: Option<string>,
    reviewStatus: string, conflictGroup: Option<string>, supersededBy: Option<RelationshipId>, updatedAt: nat)

  datatype Incoming = Incoming(id: RelationshipId, row: Row)

  type Table = map<RelationshipId, Row>

  /** What makes two relationships comparable: the group and the scope, NULL read as ''. */
  datatype Key = Key(group: string, owner: string, project: string)

  function Coalesce(text: Option<string>): string {
    if text.Some? then text.value else ""
  }

  function KeyOf(row: Row): Option<Key> {
    if row.conflictGroup.None? || row.conflictGroup.value == "" then None
    else Some(Key(row.conflictGroup.value, Coalesce(row.owner), Coalesce(row.project)))
  }

  /** The WHERE clause of the superseding update. */
  predicate Hit(id: RelationshipId, row: Row, inc: Incoming) {
    && KeyOf(inc.row).Some?
    && KeyOf(row) == KeyOf(inc.row)
    && id != inc.id
    && row.supersededBy.None?
    && row.object_ != inc.row.object_
  }

  function SupersedeFor(t: Table, inc: Incoming): Table {
    map id | id in t ::
      if Hit(id, t[id], inc) then t[id].(supersededBy := Some(inc.id), updatedAt := inc.row.updatedAt) else t[id]
  }

  function SupersedeAll(t: Table, batch: seq<Incoming>): Table
    decreases |batch|
  {
    if batch == [] then t else SupersedeAll(SupersedeFor(t, batch[0]), batch[1..])
  }

  function WriteAll(t: Table, batch: seq<Incoming>): Table
    decreases |batch|
  {
    if batch == [] then t else WriteAll(t[batch[0].id := batch[0].row], batch[1..])
  }

  function Upsert(t: Table, batch: seq<Incoming>): Table {
    SupersedeAll(WriteAll(t, batch), batch)
  }

  lemma {:induction false} SupersedeSplit(t: Table, first: seq<Incoming>, rest: seq<Incoming>)
    ensures SupersedeAll(t, first + rest) == SupersedeAll(SupersedeAll(t, first), rest)
    decreases |first|
  {
    if first == [] {
      assert first + rest == rest;
    } else {
      assert (first + rest)[1..] == first[1..] + rest;
      SupersedeSplit(SupersedeFor(t, first[0]), first[1..], rest);
    }
  }

  lemma {:induction false} WriteSplit(t: Table, first: seq<Incoming>, rest: seq<Incoming>)
    ensures WriteAll(t, first + rest) == WriteAll(WriteAll(t, first), rest)
    decreases |first|
  {
    if first == [] {
      assert first + rest == rest;
    } else {
      assert (first + rest)[1..] == first[1..] + rest;
      WriteSplit(t[first[0].id := first[0].row], first[1..], rest);
    }
  }

  class RelationshipStore {
    var relationships: Table

    constructor ()
      ensures relationships == map[]
    {
      relationships := map[];
    }

    method SupersedeConflictingRelationships(batch: seq<Incoming>)
      modifies this
      ensures relationships == SupersedeAll(old(relationships), batch)
    {
      var i := 0;
      while i < |batch|
        invariant 0 <= i <= |batch|
        invariant relationships == SupersedeAll(old(relationships), batch[..i])
      {
        SupersedeSplit(old(relationships), batch[..i], [batch[i]]);
        assert batch[..i + 1] == batch[..i] + [batch[i]];
        if KeyOf(batch[i].row).Some? {
          relationships := SupersedeFor(relationships, batch[i]);
        } else {
          assert relationships == SupersedeFor(relationships, batch[i]);
        }
        i := i + 1;
      }
      assert batch[..i] == batch;
    }

    method UpsertGraphRecords(batch: seq<Incoming>)
      modifies this
      ensures relationships == Upsert(old(relationships), batch)
    {
      var i := 0;
      while i < |batch|
        invariant 0 <= i <= |batch|
        invariant relationships == WriteAll(old(relationships), batch[..i])
      {
        WriteSplit(old(relationships), batch[..i], [batch[i]]);
        assert batch[..i + 1] == batch[..i] + [batch[i]];
        relationships := relationships[batch[i].id := batch[i].row];
        i := i + 1;
      }
      assert batch[..i] == batch;
      SupersedeConflictingRelationships(batch);
    }
  }

  // ---- what superseding can and cannot change -------------------------------------------

  /** Rows are only marked, at most once, with a superseder from the batch. */
  ghost predicate OnlyMarks(t1: Table, t2: Table) {
    && t2.Keys == t1.Keys
    && forall id :: id in t1 ==>
         && t2[id] == t1[id].(supersededBy := t2[id].supersededBy, updatedAt := t2[id].updatedAt)
         && (t1[id].supersededBy.Some? ==> t2[id] == t1[id])
  }

  lemma {:induction false} SupersedeAllOnlyMarks(t: Table, batch: seq<Incoming>)
    ensures OnlyMarks(t, SupersedeAll(t, batch))
    decreases |batch|
  {
    if batch != [] {
      SupersedeAllOnlyMarks(SupersedeFor(t, batch[0]), batch[1..]);
    }
  }

  lemma {:induction false} Unhit(t: Table, batch: seq<Incoming>, id: RelationshipId)
    requires id in t && forall k :: 0 <= k < |batch| ==> !Hit(id, t[id], batch[k])
    ensures id in SupersedeAll(t, batch) && SupersedeAll(t, batch)[id] == t[id]
    decreases |batch|
  {
    if batch != [] {
      Unhit(SupersedeFor(t, batch[0]), batch[1..], id);
    }
  }

  lemma {:induction false} UnwrittenRow(t: Table, batch: seq<Incoming>, id: RelationshipId)
    requires forall k :: 0 <= k < |batch| ==> batch[k].id != id
    ensures id in WriteAll(t, batch) <==> id in t
    ensures id in t ==> WriteAll(t, batch)[id] == t[id]
    decreases |batch|
  {
    if batch != [] {
      UnwrittenRow(t[batch[0].id := batch[0].row], batch[1..], id);
    }
  }

  /** The last write of an id in the batch wins. */
  lemma LastWriteWins(t: Table, batch: seq<Incoming>, k: nat)
    requires k < |batch| && forall l :: k < l < |batch| ==> batch[l].id != batch[k].id
    ensures batch[k].id in WriteAll(t, batch) && WriteAll(t, batch)[batch[k].id] == batch[k].row
  {
    assert batch == batch[..k] + batch[k..] && batch[k..][1..] == batch[k + 1..];
    WriteSplit(t, batch[..k], batch[k..]);
    UnwrittenRow(WriteAll(t, batch[..k])[batch[k].id := batch[k].row], batch[k + 1..], batch[k].id);
  }

  /** A stored row after the writes is an old row or the last one written under its id. */
  lemma WrittenOrOld(t: Table, batch: seq<Incoming>, id: RelationshipId) returns (k: int)
    ensures -1 <= k < |batch| && forall l :: k < l < |batch| ==> batch[l].id != id
    ensures k >= 0 ==> batch[k].id == id && id in WriteAll(t, batch) && WriteAll(t, batch)[id] == batch[k].row
    ensures k < 0 ==> (id in WriteAll(t, batch) <==> id in t) && (id in t ==> WriteAll(t, batch)[id] == t[id])
  {
    k := LastWriteOf(batch, id);
    if k >= 0 {
      LastWriteWins(t, batch, k);
    } else {
      UnwrittenRow(t, batch, id);
    }
  }

  lemma LastWriteOf(batch: seq<Incoming>, id: RelationshipId) returns (k: int)
    ensures -1 <= k < |batch|
    ensures k >= 0 ==> batch[k].id == id
    ensures forall l :: k < l < |batch| ==> batch[l].id != id
  {
    k := |batch| - 1;
    while k >= 0 && batch[k].id != id
      invariant -1 <= k < |batch|
      invariant forall l :: k < l < |batch| ==> batch[l].id != id
    {
      k := k - 1;
    }
  }

  // ---- one object per conflict group -------------------------------------------------------

  predicate ActiveIn(t: Table, id: RelationshipId, key: Key) {
    id in t && t[id].supersededBy.None? && KeyOf(t[id]) == Some(key)
  }

  ghost predicate OneObjectIn(t: Table, key: Key) {
    forall x, y :: ActiveIn(t, x, key) && ActiveIn(t, y, key) ==> t[x].object_ == t[y].object_
  }

  ghost predicate OneObject(t: Table) {
    forall key :: OneObjectIn(t, key)
  }

  lemma LastWithKey(batch: seq<Incoming>, key: Key) returns (j: int)
    ensures -1 <= j < |batch|
    ensures j >= 0 ==> KeyOf(batch[j].row) == Some(key)
    ensures forall l :: j < l < |batch| ==> KeyOf(batch[l].row) != Some(key)
  {
    j := |batch| - 1;
    while j >= 0 && KeyOf(batch[j].row) != Some(key)
      invariant -1 <= j < |batch|
      invariant forall l :: j < l < |batch| ==> KeyOf(batch[l].row) != Some(key)
    {
      j := j - 1;
    }
  }

  /** A key the batch does not mention can only lose rows. */
  lemma UntouchedKey(t: Table, batch: seq<Incoming>, key: Key, x: RelationshipId)
    requires forall l :: 0 <= l < |batch| ==> KeyOf(batch[l].row) != Some(key)
    requires ActiveIn(Upsert(t, batch), x, key)
    ensures ActiveIn(t, x, key) && t[x].object_ == Upsert(t, batch)[x].object_
  {
    var written := WriteAll(t, batch);
    SupersedeAllOnlyMarks(written, batch);
    var k := WrittenOrOld(t, batch, x);
  }

  /** After the batch every active row of a key agrees with the last relationship of that key. */
  lemma TouchedKey(t: Table, batch: seq<Incoming>, key: Key, j: nat, x: RelationshipId)
    requires j < |batch| && KeyOf(batch[j].row) == Some(key)
    requires forall l :: j < l < |batch| ==> KeyOf(batch[l].row) != Some(key)
    requires ActiveIn(Upsert(t, batch), x, key)
    ensures Upsert(t, batch)[x].object_ == batch[j].row.object_
  {
    var written := WriteAll(t, batch);
    var before := SupersedeAll(written, batch[..j]);
    var at := SupersedeFor(before, batch[j]);
    SupersedeAllOnlyMarks(written, batch[..j]);
    SupersedeAllOnlyMarks(at, batch[j + 1..]);
    assert batch == batch[..j] + batch[j..] && batch[j..][1..] == batch[j + 1..];
    SupersedeSplit(written, batch[..j], batch[j..]);
    assert Upsert(t, batch) == SupersedeAll(at, batch[j + 1..]);
    assert ActiveIn(at, x, key);
    if x == batch[j].id {
      var k := WrittenOrOld(t, batch, x);
      assert k == j;
    } else {
      assert !Hit(x, before[x], batch[j]);
    }
  }

  /** Whatever the batch holds (conflicting relationships and repeated ids included), active
      relationships of one group, owner and project say one thing. */
  lemma UpsertKeepsOneObject(t: Table, batch: seq<Incoming>)
    requires OneObject(t)
    ensures OneObject(Upsert(t, batch))
  {
    forall key ensures OneObjectIn(Upsert(t, batch), key) {
      var j := LastWithKey(batch, key);
      forall x, y | ActiveIn(Upsert(t, batch), x, key) && ActiveIn(Upsert(t, batch), y, key)
        ensures Upsert(t, batch)[x].object_ == Upsert(t, batch)[y].object_
      {
        if j >= 0 {
          TouchedKey(t, batch, key, j, x);
          TouchedKey(t, batch, key, j, y);
        } else {
          UntouchedKey(t, batch, key, x);
          UntouchedKey(t, batch, key, y);
          assert OneObjectIn(t, key);
        }
      }
    }
  }

  // ---- cycles ---------------------------------------------------------------------------------

  function Links(t: Table): map<RelationshipId, RelationshipId> {
    map id | id in t && t[id].supersededBy.Some? :: t[id].supersededBy.value
  }

  ghost predicate Good(t: Table) {
    && Acyclic(Links(t))
    && forall id :: id in t && t[id].supersededBy.Some? ==> t[id].supersededBy.value in t
  }

  /** Distinct ids, and nothing arrives already superseded. */
  ghost predicate PlainBatch(batch: seq<Incoming>) {
    && (forall i, j :: 0 <= i < j < |batch| ==> batch[i].id != batch[j].id)
    && (forall i :: 0 <= i < |batch| ==> batch[i].row.supersededBy.None?)
  }

  /** Two relationships of the batch that contradict each other. */
  predicate Rivals(a: Incoming, b: Incoming) {
    KeyOf(a.row).Some? && KeyOf(a.row) == KeyOf(b.row) && a.row.object_ != b.row.object_
  }

  ghost predicate NoRivals(batch: seq<Incoming>) {
    forall i, j :: 0 <= i < |batch| && 0 <= j < |batch| ==> !Rivals(batch[i], batch[j])
  }

  lemma WrittenRow(t: Table, batch: seq<Incoming>, i: nat)
    requires PlainBatch(batch) && i < |batch|
    ensures batch[i].id in WriteAll(t, batch) && WriteAll(t, batch)[batch[i].id] == batch[i].row
  {
    LastWriteWins(t, batch, i);
  }

  /** Writing clears links and adds none. */
  lemma WritingKeepsGood(t: Table, batch: seq<Incoming>)
    requires Good(t) && PlainBatch(batch)
    ensures Good(WriteAll(t, batch))
  {
    var written := WriteAll(t, batch);
    forall id | id in written && written[id].supersededBy.Some?
      ensures id in t && written[id] == t[id] && written[id].supersededBy.value in written
    {
      var k := WrittenOrOld(t, batch, id);
      var l := WrittenOrOld(t, batch, t[id].supersededBy.value);
    }
    SubmapKeepsAcyclic(Links(t), Links(written));
  }

  lemma SupersedeForKeepsGood(t: Table, inc: Incoming)
    requires Good(t) && inc.id in t && t[inc.id].supersededBy.None?
    ensures Good(SupersedeFor(t, inc)) && SupersedeFor(t, inc)[inc.id] == t[inc.id]
  {
    SinkUpdateKeepsAcyclic(Links(t), Links(SupersedeFor(t, inc)), inc.id);
  }

  /** The relationships still to be processed are active and have no rival in the batch. */
  lemma {:induction false} SupersedingKeepsGood(t: Table, batch: seq<Incoming>)
    requires Good(t) && NoRivals(batch)
    requires forall i :: 0 <= i < |batch| ==>
                           batch[i].id in t && t[batch[i].id] == batch[i].row && batch[i].row.supersededBy.None?
    ensures Good(SupersedeAll(t, batch))
    decreases |batch|
  {
    if batch != [] {
      SupersedeForKeepsGood(t, batch[0]);
      var rest := batch[1..];
      forall i | 0 <= i < |rest| ensures SupersedeFor(t, batch[0])[rest[i].id] == rest[i].row {
        assert rest[i] == batch[i + 1];
        assert !Rivals(batch[0], batch[i + 1]);
      }
      assert NoRivals(rest) by {
        forall i, j | 0 <= i < |rest| && 0 <= j < |rest| ensures !Rivals(rest[i], rest[j]) {
          assert rest[i] == batch[i + 1] && rest[j] == batch[j + 1];
        }
      }
      SupersedingKeepsGood(SupersedeFor(t, batch[0]), rest);
    }
  }

  /** Without rivals every relationship just written is still active afterwards. */
  lemma JustWrittenStaysActive(t: Table, batch: seq<Incoming>, i: nat)
    requires PlainBatch(batch) && NoRivals(batch) && i < |batch|
    ensures batch[i].id in Upsert(t, batch) && Upsert(t, batch)[batch[i].id] == batch[i].row
  {
    WrittenRow(t, batch, i);
    forall k | 0 <= k < |batch| ensures !Hit(batch[i].id, batch[i].row, batch[k]) {
      assert !Rivals(batch[i], batch[k]);
    }
    Unhit(WriteAll(t, batch), batch, batch[i].id);
  }

  /** The first two contradicting relationships of a key. */
  lemma FirstRivals(batch: seq<Incoming>) returns (a: nat, b: nat)
    requires !NoRivals(batch)
    ensures a < b < |batch| && Rivals(batch[a], batch[b])
    ensures forall k :: 0 <= k < a ==> KeyOf(batch[k].row) != KeyOf(batch[a].row)
    ensures forall k :: 0 <= k < b && KeyOf(batch[k].row) == KeyOf(batch[a].row) ==>
                          batch[k].row.object_ == batch[a].row.object_
  {
    var i, j :| 0 <= i < |batch| && 0 <= j < |batch| && Rivals(batch[i], batch[j]);
    var key := KeyOf(batch[i].row);
    a := 0;
    while KeyOf(batch[a].row) != key
      invariant 0 <= a <= i
      decreases i - a
      invariant forall k :: 0 <= k < a ==> KeyOf(batch[k].row) != key
    {
      a := a + 1;
    }
    var last := if batch[i].row.object_ != batch[a].row.object_ then i else j;
    b := a;
    while !Rivals(batch[a], batch[b])
      invariant a <= b <= last
      decreases last - b
      invariant forall k :: 0 <= k < b && KeyOf(batch[k].row) == key ==> batch[k].row.object_ == batch[a].row.object_
    {
      b := b + 1;
    }
  }

  /** In the middle of a batch: rows the processed part does not hit are as written; the
      one hit at step k points at that step's relationship from then on. */
  lemma HitAt(t: Table, batch: seq<Incoming>, k: nat, id: RelationshipId)
    requires k < |batch| && id in t && t[id].supersededBy.None?
    requires forall l :: 0 <= l < k ==> !Hit(id, t[id], batch[l])
    requires Hit(id, t[id], batch[k])
    ensures id in SupersedeAll(t, batch) && SupersedeAll(t, batch)[id].supersededBy == Some(batch[k].id)
  {
    var before := SupersedeAll(t, batch[..k]);
    Unhit(t, batch[..k], id);
    SupersedeAllOnlyMarks(t, batch[..k]);
    assert batch == batch[..k] + batch[k..] && batch[k..][1..] == batch[k + 1..];
    SupersedeSplit(t, batch[..k], batch[k..]);
    SupersedeAllOnlyMarks(SupersedeFor(before, batch[k]), batch[k + 1..]);
  }

  /** Rivals in one batch supersede each other. */
  lemma RivalsMakeCycle(t: Table, batch: seq<Incoming>)
    requires PlainBatch(batch) && !NoRivals(batch)
    ensures !Acyclic(Links(Upsert(t, batch)))
  {
    var a, b := FirstRivals(batch);
    var written := WriteAll(t, batch);
    WrittenRow(t, batch, a);
    WrittenRow(t, batch, b);
    HitAt(written, batch, a, batch[b].id);
    HitAt(written, batch, b, batch[a].id);
    var links := Links(Upsert(t, batch));
    assert links[batch[a].id] == batch[b].id && links[batch[b].id] == batch[a].id;
    assert Walk(links, batch[a].id, 2) == Walk(links, batch[b].id, 1) == Walk(links, batch[a].id, 0);
  }

  /** A plain batch keeps the superseded_by graph acyclic exactly when no two of its
      relationships contradict each other. */
  lemma UpsertAcyclicIffNoRivals(t: Table, batch: seq<Incoming>)
    requires Good(t) && PlainBatch(batch)
    ensures Acyclic(Links(Upsert(t, batch))) <==> NoRivals(batch)
    ensures NoRivals(batch) ==> Good(Upsert(t, batch))
  {
    if NoRivals(batch) {
      WritingKeepsGood(t, batch);
      forall i | 0 <= i < |batch|
        ensures batch[i].id in WriteAll(t, batch) && WriteAll(t, batch)[batch[i].id] == batch[i].row
      {
        WrittenRow(t, batch, i);
      }
      SupersedingKeepsGood(WriteAll(t, batch), batch);
    } else {
      RivalsMakeCycle(t, batch);
    }
  }

  // ---- cycles, whatever the batch ---------------------------------------------------------------

  /** The relationship does not lead to a row that it is about to supersede. */
  predicate Harmless(t: Table, inc: Incoming) {
    var end := Head(Links(t), inc.id);
    !(end in t && Hit(end, t[end], inc))
  }

  /** On any table: superseding for one relationship closes a cycle exactly when the links from
      that relationship end at a row that it hits. */
  lemma SupersedeForAcyclicIff(t: Table, inc: Incoming)
    requires Acyclic(Links(t))
    ensures Acyclic(Links(SupersedeFor(t, inc))) <==> Harmless(t, inc)
  {
    var hits := set id | id in t && Hit(id, t[id], inc);
    assert Links(SupersedeFor(t, inc)) == Redirect(Links(t), hits, inc.id);
    RedirectAcyclicIff(Links(t), hits, inc.id);
  }

  /** Each relationship is harmless when its turn comes. */
  predicate AllHarmless(t: Table, batch: seq<Incoming>)
    decreases |batch|
  {
    batch == [] || (Harmless(t, batch[0]) && AllHarmless(SupersedeFor(t, batch[0]), batch[1..]))
  }

  /** Superseding repairs no cycle. */
  lemma CyclesStay(t: Table, batch: seq<Incoming>)
    requires Acyclic(Links(SupersedeAll(t, batch)))
    ensures Acyclic(Links(t))
  {
    SupersedeAllOnlyMarks(t, batch);
    SubmapKeepsAcyclic(Links(SupersedeAll(t, batch)), Links(t));
  }

  lemma {:induction false} SupersedeAllAcyclicIff(t: Table, batch: seq<Incoming>)
    requires Acyclic(Links(t))
    ensures Acyclic(Links(SupersedeAll(t, batch))) <==> AllHarmless(t, batch)
    decreases |batch|
  {
    if batch != [] {
      SupersedeForAcyclicIff(t, batch[0]);
      if Harmless(t, batch[0]) {
        SupersedeAllAcyclicIff(SupersedeFor(t, batch[0]), batch[1..]);
      } else if Acyclic(Links(SupersedeAll(t, batch))) {
        CyclesStay(SupersedeFor(t, batch[0]), batch[1..]);
      }
    }
  }

  /** Of the batch, back to front: a row that arrives superseded and is not written over later in
      the batch (its id is not in `later`) does not lead back to itself over the rows before it
      that stay. */
  predicate ArrivesHarmless(t: Table, batch: seq<Incoming>, later: set<RelationshipId>)
    decreases |batch|
  {
    batch == []
    || (var front, last := batch[..|batch| - 1], batch[|batch| - 1];
        && ArrivesHarmless(t, front, later + {last.id})
        && (last.id in later || last.row.supersededBy.None?
            || Head(Links(WriteAll(t, front)) - (later + {last.id}), last.row.supersededBy.value) != last.id))
  }

  /** The links of the written rows that are not written over later. */
  lemma WrittenLinks(t: Table, front: seq<Incoming>, last: Incoming, later: set<RelationshipId>)
    ensures
      var before := Links(WriteAll(t, front)) - (later + {last.id});
      Links(WriteAll(t, front + [last])) - later
      == if last.id in later || last.row.supersededBy.None? then before
         else before[last.id := last.row.supersededBy.value]
  {
    WriteSplit(t, front, [last]);
    assert WriteAll(t, front + [last]) == WriteAll(t, front)[last.id := last.row];
  }

  lemma {:induction false} WriteAllAcyclicIff(t: Table, batch: seq<Incoming>, later: set<RelationshipId>)
    requires Acyclic(Links(t))
    ensures Acyclic(Links(WriteAll(t, batch)) - later) <==> ArrivesHarmless(t, batch, later)
    decreases |batch|
  {
    if batch == [] {
      SubmapKeepsAcyclic(Links(t), Links(t) - later);
    } else {
      var front, last := batch[..|batch| - 1], batch[|batch| - 1];
      assert batch == front + [last];
      var before := Links(WriteAll(t, front)) - (later + {last.id});
      var after := Links(WriteAll(t, batch)) - later;
      WriteAllAcyclicIff(t, front, later + {last.id});
      WrittenLinks(t, front, last, later);
      if Acyclic(before) {
        if !(last.id in later || last.row.supersededBy.None?) {
          LinkKeepsAcyclicIff(before, last.id, last.row.supersededBy.value);
        }
      } else if Acyclic(after) {
        SubmapKeepsAcyclic(after, before);
      }
    }
  }

  /** The batch arrives harmless and supersedes harmlessly. */
  predicate HarmlessBatch(t: Table, batch: seq<Incoming>) {
    ArrivesHarmless(t, batch, {}) && AllHarmless(WriteAll(t, batch), batch)
  }

  /** Whatever the batch holds, relationships that arrive superseded and repeated ids included,
      it keeps the graph acyclic exactly when it is harmless. */
  lemma UpsertAcyclicIff(t: Table, batch: seq<Incoming>)
    requires Acyclic(Links(t))
    ensures Acyclic(Links(Upsert(t, batch))) <==> HarmlessBatch(t, batch)
  {
    var written := WriteAll(t, batch);
    WriteAllAcyclicIff(t, batch, {});
    assert Links(written) - {} == Links(written);
    if Acyclic(Links(written)) {
      SupersedeAllAcyclicIff(written, batch);
    } else if Acyclic(Links(Upsert(t, batch))) {
      CyclesStay(written, batch);
    }
  }

  /** A single relationship that arrives superseded by itself makes a cycle; it has no rival. */
  lemma SelfSupersededArrivalMakesCycle(t: Table, inc: Incoming)
    requires inc.row.supersededBy == Some(inc.id)
    ensures NoRivals([inc]) && !Acyclic(Links(Upsert(t, [inc])))
  {
    var written := t[inc.id := inc.row];
    assert WriteAll(t, [inc]) == written by {
      assert [inc][1..] == [];
    }
    SupersedeAllOnlyMarks(written, [inc]);
    var links := Links(Upsert(t, [inc]));
    assert links[inc.id] == inc.id;
    assert Walk(links, inc.id, 1) == Walk(links, inc.id, 0);
  }

  // ---- runs -------------------------------------------------------------------------------------

  function AfterBatches(batches: seq<seq<Incoming>>): Table
    decreases |batches|
  {
    if batches == [] then map[]
    else Upsert(AfterBatches(batches[..|batches| - 1]), batches[|batches| - 1])
  }

  lemma {:induction false} OneObjectOverRuns(batches: seq<seq<Incoming>>)
    ensures OneObject(AfterBatches(batches))
    decreases |batches|
  {
    if batches != [] {
      OneObjectOverRuns(batches[..|batches| - 1]);
      UpsertKeepsOneObject(AfterBatches(batches[..|batches| - 1]), batches[|batches| - 1]);
    }
  }

  lemma {:induction false} AcyclicOverRuns(batches: seq<seq<Incoming>>)
    requires forall i :: 0 <= i < |batches| ==> PlainBatch(batches[i]) && NoRivals(batches[i])
    ensures Good(AfterBatches(batches))
    decreases |batches|
  {
    if batches != [] {
      AcyclicOverRuns(batches[..|batches| - 1]);
      UpsertAcyclicIffNoRivals(AfterBatches(batches[..|batches| - 1]), batches[|batches| - 1]);
    } else {
      assert Links(map[]) == map[];
    }
  }

  /** Every table passed through is acyclic. */
  ghost predicate AcyclicThroughout(batches: seq<seq<Incoming>>) {
    forall k :: 0 <= k <= |batches| ==> Acyclic(Links(AfterBatches(batches[..k])))
  }

  /** Each batch is harmless when its turn comes. */
  ghost predicate HarmlessThroughout(batches: seq<seq<Incoming>>) {
    forall k :: 0 <= k < |batches| ==> HarmlessBatch(AfterBatches(batches[..k]), batches[k])
  }

  lemma OneMoreBatch(front: seq<seq<Incoming>>, last: seq<Incoming>)
    ensures AfterBatches(front + [last]) == Upsert(AfterBatches(front), last)
    ensures AcyclicThroughout(front + [last])
       <==> AcyclicThroughout(front) && Acyclic(Links(AfterBatches(front + [last])))
    ensures HarmlessThroughout(front + [last])
       <==> HarmlessThroughout(front) && HarmlessBatch(AfterBatches(front), last)
  {
    var batches, n := front + [last], |front|;
    assert batches[..n] == front && batches[..n + 1] == batches;
    assert forall k :: 0 <= k <= n ==> batches[..k] == front[..k];
    assert batches[n] == last && front[..n] == front;
  }

  /** Over every run from the empty table, whatever the batches hold: all tables passed through
      are acyclic exactly when every batch is harmless at its turn. */
  lemma {:induction false} RunsAcyclicIff(batches: seq<seq<Incoming>>)
    ensures AcyclicThroughout(batches) <==> HarmlessThroughout(batches)
    decreases |batches|
  {
    if batches == [] {
      assert batches[..0] == [] && Links(map[]) == map[];
    } else {
      var front, last := batches[..|batches| - 1], batches[|batches| - 1];
      assert batches == front + [last];
      RunsAcyclicIff(front);
      OneMoreBatch(front, last);
      if AcyclicThroughout(front) {
        assert front[..|front|] == front;
        UpsertAcyclicIff(AfterBatches(front), last);
      }
    }
  }
}
