/** What a batch of relationships does to the rows stored before it, row by row and in the columns
    of the table. */
module RelationshipEffects {
  import opened Options
  import opened Relationships

  /** The relationships are comparable: the same named group, owner and project, where an owner or
      project that is absent counts as the empty one. */
  predicate Comparable(a: Row, b: Row) {
    && b.conflictGroup.Some? && b.conflictGroup.value != "" && a.conflictGroup == b.conflictGroup
    && (a.owner == b.owner || (a.owner.None? && b.owner == Some("")) || (a.owner == Some("") && b.owner.None?))
    && (a.project == b.project || (a.project.None? && b.project == Some(""))
        || (a.project == Some("") && b.project.None?))
  }

  predicate SupersededBy(id: RelationshipId, row: Row, inc: Incoming) {
    id != inc.id && Comparable(row, inc.row) && row.object_ != inc.row.object_ && row.supersededBy.None?
  }

  // ---- one relationship ------------------------------------------------------------------------

  /** Superseding for one relationship sets two columns of the unsuperseded rows that are
      comparable with it and name another object, and nothing else. */
  lemma SupersedingChanges(t: Table, inc: Incoming, id: RelationshipId)
    requires id in t
    ensures SupersedeFor(t, inc).Keys == t.Keys
    ensures
      var after := SupersedeFor(t, inc)[id];
      if SupersededBy(id, t[id], inc)
      then after == t[id].(supersededBy := Some(inc.id), updatedAt := inc.row.updatedAt)
      else after == t[id]
  {
  }

  // ---- a batch -----------------------------------------------------------------------------------

  /** Rows of another group, owner or project are left alone, and so are rows that say the same. */
  lemma {:induction false} SupersedingSparesOthers(t: Table, batch: seq<Incoming>, id: RelationshipId)
    requires id in t
    requires forall k :: 0 <= k < |batch| ==> !SupersededBy(id, t[id], batch[k])
    ensures id in SupersedeAll(t, batch) && SupersedeAll(t, batch)[id] == t[id]
    decreases |batch|
  {
    if batch != [] {
      SupersedingChanges(t, batch[0], id);
      SupersedingSparesOthers(SupersedeFor(t, batch[0]), batch[1..], id);
    }
  }

  lemma OthersAreLeftAlone(t: Table, batch: seq<Incoming>, id: RelationshipId)
    requires id in t
    requires forall k :: 0 <= k < |batch| ==> batch[k].id != id && !SupersededBy(id, t[id], batch[k])
    ensures id in Upsert(t, batch) && Upsert(t, batch)[id] == t[id]
  {
    UnwrittenRow(t, batch, id);
    SupersedingSparesOthers(WriteAll(t, batch), batch, id);
  }

  /** A row that is superseded points at the first relationship of the batch that supersedes it, and
      from then on nothing in the batch changes it. */
  lemma FirstToSupersedeWins(t: Table, batch: seq<Incoming>, id: RelationshipId, k: nat)
    requires id in t && k < |batch| && SupersededBy(id, t[id], batch[k])
    requires forall l :: 0 <= l < k ==> !SupersededBy(id, t[id], batch[l])
    ensures id in SupersedeAll(t, batch)
    ensures SupersedeAll(t, batch)[id]
         == t[id].(supersededBy := Some(batch[k].id), updatedAt := batch[k].row.updatedAt)
  {
    var before := SupersedeAll(t, batch[..k]);
    assert batch == batch[..k] + batch[k..] && batch[k..][1..] == batch[k + 1..];
    SupersedeSplit(t, batch[..k], batch[k..]);
    SupersedingSparesOthers(t, batch[..k], id);
    SupersedingChanges(before, batch[k], id);
    SupersedingSparesOthers(SupersedeFor(before, batch[k]), batch[k + 1..], id);
  }

  /** What a batch stores under an id is its last row for it, in all columns but the two that
      superseding sets; and it stores nothing under other ids. */
  lemma BatchStores(t: Table, batch: seq<Incoming>, k: nat)
    requires k < |batch| && forall l :: k < l < |batch| ==> batch[l].id != batch[k].id
    ensures batch[k].id in Upsert(t, batch)
    ensures
      var stored, row := Upsert(t, batch)[batch[k].id], batch[k].row;
      && stored.subject == row.subject && stored.predicate_ == row.predicate_ && stored.object_ == row.object_
      && stored.owner == row.owner && stored.project == row.project && stored.reviewStatus == row.reviewStatus
      && stored.conflictGroup == row.conflictGroup
      && (row.supersededBy.Some? ==> stored == row)
  {
    LastWriteWins(t, batch, k);
    SupersedeAllOnlyMarks(WriteAll(t, batch), batch);
  }

  lemma StoredIds(t: Table, batch: seq<Incoming>, id: RelationshipId)
    ensures id in Upsert(t, batch) <==> id in t || exists k :: 0 <= k < |batch| && batch[k].id == id
  {
    SupersedeAllOnlyMarks(WriteAll(t, batch), batch);
    var k := WrittenOrOld(t, batch, id);
    if k < 0 {
      assert forall l :: 0 <= l < |batch| ==> batch[l].id != id;
    }
  }
}
