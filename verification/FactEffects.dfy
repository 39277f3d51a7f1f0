/** What an inserted fact does to the facts stored before it, row by row and in the columns of the
    table; and that corrections never lead from one owner, project, subject or predicate to another. */
module FactEffects {
  import opened Options
  import opened SupersessionGraph
  import opened Facts

  // ---- one fact --------------------------------------------------------------------------------

  /** The incoming fact is about the same subject and predicate, for the same owner and project. */
  predicate About(row: Fact, f: Fact) {
    && row.subject == f.subject && row.predicate_ == f.predicate_
    && row.scope.owner == f.scope.owner && row.scope.project == f.scope.project
  }

  /** A stored fact is superseded exactly when it is about the same, neither superseded nor deleted,
      and matches the corrected text. */
  predicate SupersededBy(row: Fact, f: Fact, like: Like) {
    && About(row, f) && f.corrects != "" && like(row.object_, f.corrects)
    && row.supersededBy.None? && row.deletedAt.None?
  }

  /** It is confirmed exactly when it is about the same, says the same, is neither superseded nor
      deleted, and the incoming fact is a direct statement. */
  predicate ConfirmedBy(row: Fact, f: Fact) {
    && About(row, f) && f.direct && row.object_ == f.object_
    && row.supersededBy.None? && row.deletedAt.None?
  }

  /** Each of the two sets its own columns, and no other column of a stored fact ever changes. */
  lemma InsertionChanges(t: Table, inc: Incoming, like: Like, id: FactId)
    requires id in t && id != inc.id
    ensures id in InsertOne(t, inc, like)
    ensures
      var before, after := t[id], InsertOne(t, inc, like)[id];
      && after.supersededBy == (if SupersededBy(before, inc.fact, like) then Some(inc.id) else before.supersededBy)
      && after.supersededAt
         == (if SupersededBy(before, inc.fact, like) then Some(inc.fact.updatedAt) else before.supersededAt)
      && after.confirmedAt
         == (if ConfirmedBy(before, inc.fact) then inc.fact.confirmedAt else before.confirmedAt)
      && after.updatedAt == (if SupersededBy(before, inc.fact, like) || ConfirmedBy(before, inc.fact)
                             then inc.fact.updatedAt else before.updatedAt)
      && after.deletedAt == before.deletedAt && after.subject == before.subject
      && after.predicate_ == before.predicate_ && after.object_ == before.object_ && after.scope == before.scope
      && after.direct == before.direct && after.corrects == before.corrects
  {
  }

  lemma InsertionStores(t: Table, inc: Incoming, like: Like)
    ensures InsertOne(t, inc, like).Keys == t.Keys + {inc.id}
    ensures InsertOne(t, inc, like)[inc.id] == inc.fact
  {
  }

  /** A fact of another owner, project, subject or predicate is left alone. */
  lemma OthersAreLeftAlone(t: Table, inc: Incoming, like: Like, id: FactId)
    requires id in t && id != inc.id
    requires || t[id].scope.owner != inc.fact.scope.owner || t[id].scope.project != inc.fact.scope.project
             || t[id].subject != inc.fact.subject || t[id].predicate_ != inc.fact.predicate_
    ensures id in InsertOne(t, inc, like) && InsertOne(t, inc, like)[id] == t[id]
  {
    InsertionChanges(t, inc, like, id);
  }

  /** So is a superseded or deleted one, whatever it says. */
  lemma InactiveIsLeftAlone(t: Table, inc: Incoming, like: Like, id: FactId)
    requires id in t && id != inc.id && (t[id].supersededBy.Some? || t[id].deletedAt.Some?)
    ensures id in InsertOne(t, inc, like) && InsertOne(t, inc, like)[id] == t[id]
  {
    InsertionChanges(t, inc, like, id);
  }

  /** A fact pointed by hand: only it, only undeleted, and only in the project that is given. */
  lemma PointingChanges(t: Table, id: FactId, successor: FactId, project: Option<string>, now: nat, other: FactId)
    requires other in t
    ensures SetSuperseded(t, id, successor, project, now).Keys == t.Keys
    ensures
      var hit := other == id && t[other].deletedAt.None?
                 && (project.Some? ==> t[other].scope.project == Some(project.value));
      SetSuperseded(t, id, successor, project, now)[other]
      == if hit then t[other].(supersededBy := Some(successor), supersededAt := Some(now), updatedAt := now)
         else t[other]
  {
  }

  // ---- batches ---------------------------------------------------------------------------------

  /** No fact of the batch has the id, and none is about the same as the row. */
  ghost predicate Unrelated(batch: seq<Incoming>, id: FactId, row: Fact) {
    forall k :: 0 <= k < |batch| ==>
      && batch[k].id != id
      && (|| row.scope.owner != batch[k].fact.scope.owner || row.scope.project != batch[k].fact.scope.project
          || row.subject != batch[k].fact.subject || row.predicate_ != batch[k].fact.predicate_)
  }

  lemma {:induction false} BatchLeavesOthersAlone(t: Table, batch: seq<Incoming>, like: Like, id: FactId)
    requires id in t && Unrelated(batch, id, t[id])
    ensures id in InsertAll(t, batch, like) && InsertAll(t, batch, like)[id] == t[id]
    decreases |batch|
  {
    if batch != [] {
      OthersAreLeftAlone(t, batch[0], like, id);
      BatchLeavesOthersAlone(InsertOne(t, batch[0], like), batch[1..], like, id);
    }
  }

  // ---- runs ------------------------------------------------------------------------------------

  /** What a fact is about. */
  datatype Topic = Topic(subject: string, predicate_: string, scope: Scope)

  /** An id always comes with the same topic. */
  ghost predicate Topical(batch: seq<Incoming>, topics: FactId -> Topic) {
    forall k :: 0 <= k < |batch| ==>
      var f := batch[k].fact;
      topics(batch[k].id) == Topic(f.subject, f.predicate_, f.scope)
  }

  /** Every row has the topic of its id, and every link joins two ids of one topic. */
  ghost predicate TopicsKept(t: Table, topics: FactId -> Topic) {
    forall id :: id in t ==>
      && topics(id) == Topic(t[id].subject, t[id].predicate_, t[id].scope)
      && (t[id].supersededBy.Some? ==> topics(t[id].supersededBy.value) == topics(id))
  }

  lemma InsertOneKeepsTopics(t: Table, inc: Incoming, like: Like, topics: FactId -> Topic)
    requires TopicsKept(t, topics) && inc.fact.supersededBy.None?
    requires topics(inc.id) == Topic(inc.fact.subject, inc.fact.predicate_, inc.fact.scope)
    ensures TopicsKept(InsertOne(t, inc, like), topics)
  {
    InsertionStores(t, inc, like);
    var after := InsertOne(t, inc, like);
    forall id | id in after
      ensures topics(id) == Topic(after[id].subject, after[id].predicate_, after[id].scope)
      ensures after[id].supersededBy.Some? ==> topics(after[id].supersededBy.value) == topics(id)
    {
      if id != inc.id {
        InsertionChanges(t, inc, like, id);
      }
    }
  }

  lemma {:induction false} InsertAllKeepsTopics(t: Table, batch: seq<Incoming>, like: Like, topics: FactId -> Topic)
    requires TopicsKept(t, topics) && AllUnsuperseded(batch) && Topical(batch, topics)
    ensures TopicsKept(InsertAll(t, batch, like), topics)
    decreases |batch|
  {
    if batch != [] {
      InsertOneKeepsTopics(t, batch[0], like, topics);
      InsertAllKeepsTopics(InsertOne(t, batch[0], like), batch[1..], like, topics);
    }
  }

  lemma {:induction false} RunsKeepTopics(batches: seq<seq<Incoming>>, like: Like, topics: FactId -> Topic)
    requires forall i :: 0 <= i < |batches| ==> AllUnsuperseded(batches[i]) && Topical(batches[i], topics)
    ensures TopicsKept(AfterBatches(batches, like), topics)
    decreases |batches|
  {
    if batches != [] {
      RunsKeepTopics(batches[..|batches| - 1], like, topics);
      InsertAllKeepsTopics(AfterBatches(batches[..|batches| - 1], like), batches[|batches| - 1], like, topics);
    }
  }

  lemma {:induction false} WalkKeepsTopic(t: Table, topics: FactId -> Topic, id: FactId, n: nat)
    requires TopicsKept(t, topics) && Walk(Links(t), id, n).Some?
    ensures topics(Walk(Links(t), id, n).value) == topics(id)
    decreases n
  {
    if n > 0 {
      WalkKeepsTopic(t, topics, Links(t)[id], n - 1);
    }
  }

  /** Over every run in which an id always comes with the same topic, the current fact that corrections
      lead to is about the same subject and predicate, for the same owner and project. */
  lemma CurrentFactIsAboutTheSame(
      batches: seq<seq<Incoming>>, like: Like, topics: FactId -> Topic, id: FactId)
    requires forall i :: 0 <= i < |batches| ==> AllUnsuperseded(batches[i]) && Topical(batches[i], topics)
    requires id in AfterBatches(batches, like)
    ensures
      var t := AfterBatches(batches, like);
      var head := Head(Links(t), id);
      && head in t && t[head].subject == t[id].subject && t[head].predicate_ == t[id].predicate_
      && t[head].scope == t[id].scope
  {
    var t := AfterBatches(batches, like);
    var n := CorrectionsLeadToCurrentFact(batches, like, id);
    RunsKeepTopics(batches, like, topics);
    WalkKeepsTopic(t, topics, id, n);
  }
}
