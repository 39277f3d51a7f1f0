/** Deterministic graph extraction: a fold over the messages that drops entities and
    relationships whose derived id was seen before. The regular expressions are an
    uninterpreted function from a message text to its matches; derived ids are
    injective in what they are derived from. */
module GraphExtraction {
  import opened Options
  import opened FirstOccurrences

  datatype EntityType = Person | Project | Tool | Provider | Organization | Decision | Preference | OwnedItem

  datatype Predicate = CreatedBy | UsesTool | UsesProvider | Decided | Prefers | Owns | WorksOn | ChangedTo

  datatype EntityId = EntityId(conversation: string, kind: EntityType, name: string)

  datatype RelationshipId = RelationshipId(
    conversation: string, index: nat, subject: string, relation: Predicate, object_: string)

  datatype Entity = Entity(
    id: EntityId, kind: EntityType, name: string, normalized: string, index: nat)

  datatype Relationship = Relationship(
    id: RelationshipId, subject: string, relation: Predicate, object_: string,
    subjectId: EntityId, objectId: EntityId, confidence: real, index: nat, conflictGroup: (string, Predicate))

  datatype Pair = Pair(subject: string, object_: string)

  /** What the patterns find in one text, each in order of occurrence. */
  datatype Matches = Matches(
    tools: seq<string>, providers: seq<string>, creators: seq<string>, projects: seq<Pair>,
    preferences: seq<Pair>, owned: seq<string>, worksOn: seq<Pair>, uses: seq<Pair>, changes: seq<Pair>)

  /** The text functions of the extractor. */
  datatype TextRules = TextRules(
    clean: string -> string, normalize: string -> string, find: string -> Matches)

  /** The conversation fields extraction reads; `title` is the metadata title, if any. */
  datatype Conversation = Conversation(id: string, title: Option<string>)

  datatype Finding =
    | Mention(name: string, kind: EntityType)
    | Relation(subject: string, relation: Predicate, object_: string,
               subjectType: EntityType, objectType: EntityType, confidence: real)

  // ---- what one message yields -----------------------------------------------------------

  function Mentions(names: seq<string>, kind: EntityType): seq<Finding> {
    seq(|names|, i requires 0 <= i < |names| => Mention(names[i], kind))
  }

  function Relations(
      pairs: seq<Pair>, relation: Predicate, subjectType: EntityType, objectType: EntityType, confidence: real)
    : seq<Finding>
  {
    seq(|pairs|, i requires 0 <= i < |pairs| =>
      Relation(pairs[i].subject, relation, pairs[i].object_, subjectType, objectType, confidence))
  }

  function WithSubject(subject: string, objects: seq<string>): seq<Pair> {
    seq(|objects|, i requires 0 <= i < |objects| => Pair(subject, objects[i]))
  }

  predicate SkippedSubject(normalized: string) {
    normalized == "i" || normalized == "the creator" || "my favorite " <= normalized
  }

  function Decisions(pairs: seq<Pair>, rules: TextRules): seq<Pair> {
    if pairs == [] then []
    else if SkippedSubject(rules.normalize(pairs[0].subject)) then Decisions(pairs[1..], rules)
    else [pairs[0]] + Decisions(pairs[1..], rules)
  }

  /** In the order of the source: names, then the seven patterns. */
  function Findings(conv: Conversation, rules: TextRules, text: string): seq<Finding> {
    var m := rules.find(text);
    var title := if conv.title.Some? then conv.title.value else "project";
    Mentions(m.tools, Tool)
    + Mentions(m.providers, Provider)
    + Relations(WithSubject(title, m.creators), CreatedBy, Project, Person, 0.85)
    + Relations(Decisions(m.projects, rules), Decided, Project, Decision, 0.72)
    + Relations(m.preferences, Prefers, Preference, Preference, 0.85)
    + Relations(WithSubject("user", m.owned), Owns, Person, OwnedItem, 0.85)
    + Relations(m.worksOn, WorksOn, Person, Project, 0.85)
    + Relations(m.uses, UsesTool, Project, Tool, 0.85)
    + Relations(m.changes, ChangedTo, Project, Preference, 0.85)
  }

  /** A message that is not an object yields nothing. */
  function MessageFindings(conv: Conversation, rules: TextRules, message: Option<string>): seq<Finding> {
    if message.None? then [] else Findings(conv, rules, message.value)
  }

  function MakeEntity(conv: Conversation, rules: TextRules, name: string, kind: EntityType, index: nat): Entity {
    var cleaned := rules.clean(name);
    var normalized := rules.normalize(cleaned);
    Entity(EntityId(conv.id, kind, normalized), kind, cleaned, normalized, index)
  }

  function MakeRelationship(conv: Conversation, rules: TextRules, f: Finding, index: nat): Relationship
    requires f.Relation?
  {
    Relationship(
      RelationshipId(conv.id, index, rules.normalize(f.subject), f.relation, rules.normalize(f.object_)),
      rules.clean(f.subject), f.relation, rules.clean(f.object_),
      MakeEntity(conv, rules, f.subject, f.subjectType, index).id,
      MakeEntity(conv, rules, f.object_, f.objectType, index).id,
      f.confidence, index, (rules.normalize(f.subject), f.relation))
  }

  // ---- all candidates, duplicates included --------------------------------------------------

  function FindingEntities(conv: Conversation, rules: TextRules, f: Finding, index: nat): seq<Entity> {
    match f
    case Mention(name, kind) => [MakeEntity(conv, rules, name, kind, index)]
    case Relation(subject, _, object_, subjectType, objectType, _) =>
      [MakeEntity(conv, rules, subject, subjectType, index), MakeEntity(conv, rules, object_, objectType, index)]
  }

  function FindingRelationships(conv: Conversation, rules: TextRules, f: Finding, index: nat): seq<Relationship> {
    if f.Relation? then [MakeRelationship(conv, rules, f, index)] else []
  }

  function EntitiesIn(conv: Conversation, rules: TextRules, findings: seq<Finding>, index: nat): seq<Entity> {
    Flat(seq(|findings|, j requires 0 <= j < |findings| => FindingEntities(conv, rules, findings[j], index)))
  }

  function RelationshipsIn(conv: Conversation, rules: TextRules, findings: seq<Finding>, index: nat)
    : seq<Relationship>
  {
    Flat(seq(|findings|, j requires 0 <= j < |findings| => FindingRelationships(conv, rules, findings[j], index)))
  }

  /** The findings of each message. */
  function AllFindings(conv: Conversation, rules: TextRules, messages: seq<Option<string>>): (found: seq<seq<Finding>>)
    ensures |found| == |messages|
  {
    seq(|messages|, k requires 0 <= k < |messages| => MessageFindings(conv, rules, messages[k]))
  }

  /** The candidates of each message, numbered from `start`. */
  function EntityParts(conv: Conversation, rules: TextRules, found: seq<seq<Finding>>, start: nat): seq<seq<Entity>> {
    seq(|found|, k requires 0 <= k < |found| => EntitiesIn(conv, rules, found[k], start + k))
  }

  function RelationshipParts(conv: Conversation, rules: TextRules, found: seq<seq<Finding>>, start: nat)
    : seq<seq<Relationship>>
  {
    seq(|found|, k requires 0 <= k < |found| => RelationshipsIn(conv, rules, found[k], start + k))
  }

  // ---- first occurrences ------------------------------------------------------------------------

  function IdOfEntity(e: Entity): EntityId {
    e.id
  }

  function IdOfRelationship(r: Relationship): RelationshipId {
    r.id
  }

  function EntityIds(entities: seq<Entity>): set<EntityId> {
    Keys(entities, IdOfEntity)
  }

  function RelationshipIds(relationships: seq<Relationship>): set<RelationshipId> {
    Keys(relationships, IdOfRelationship)
  }

  datatype Graph = Graph(entities: seq<Entity>, relationships: seq<Relationship>)

  datatype Outcome = Extracted(graph: Graph) | NegativeStart | RecordRefused

  const MAX_NAME_LENGTH := 256
  const MAX_OBJECT_LENGTH := 512

  predicate Bounded(text: string, limit: nat) {
    1 <= |text| <= limit
  }

  /** The length limits that the record types check when a record is made. */
  predicate EntityFits(e: Entity) {
    Bounded(e.name, MAX_NAME_LENGTH) && Bounded(e.normalized, MAX_NAME_LENGTH)
  }

  predicate RelationshipFits(r: Relationship) {
    Bounded(r.subject, MAX_NAME_LENGTH) && Bounded(r.object_, MAX_OBJECT_LENGTH)
  }

  predicate GraphFits(g: Graph) {
    && (forall e :: e in g.entities ==> EntityFits(e))
    && (forall r :: r in g.relationships ==> RelationshipFits(r))
  }

  /** Of these candidates every record that is kept passes its checks. */
  predicate Accepted(entities: seq<Entity>, relationships: seq<Relationship>) {
    GraphFits(Graph(First(entities, IdOfEntity), First(relationships, IdOfRelationship)))
  }

  /** What more candidates add to the kept ones comes behind them. */
  lemma AcceptedEarlier(
      entities: seq<Entity>, moreEntities: seq<Entity>,
      relationships: seq<Relationship>, moreRelationships: seq<Relationship>)
    requires Accepted(entities + moreEntities, relationships + moreRelationships)
    ensures Accepted(entities, relationships)
  {
    FirstConcat(entities, moreEntities, IdOfEntity);
    FirstConcat(relationships, moreRelationships, IdOfRelationship);
  }

  function ExtractFound(conv: Conversation, rules: TextRules, found: seq<seq<Finding>>, start: nat): Graph {
    Graph(First(Flat(EntityParts(conv, rules, found, start)), IdOfEntity),
          First(Flat(RelationshipParts(conv, rules, found, start)), IdOfRelationship))
  }

  /** The reference: first occurrences among all candidates. */
  function Extract(conv: Conversation, rules: TextRules, messages: seq<Option<string>>, start: nat): Graph {
    ExtractFound(conv, rules, AllFindings(conv, rules, messages), start)
  }

  lemma FindingsSnoc(conv: Conversation, rules: TextRules, findings: seq<Finding>, more: Finding, index: nat)
    ensures EntitiesIn(conv, rules, findings + [more], index)
            == EntitiesIn(conv, rules, findings, index) + FindingEntities(conv, rules, more, index)
    ensures RelationshipsIn(conv, rules, findings + [more], index)
            == RelationshipsIn(conv, rules, findings, index) + FindingRelationships(conv, rules, more, index)
  {
    var all := findings + [more];
    var es := seq(|findings|, j requires 0 <= j < |findings| => FindingEntities(conv, rules, findings[j], index));
    assert seq(|all|, j requires 0 <= j < |all| => FindingEntities(conv, rules, all[j], index))
           == es + [FindingEntities(conv, rules, more, index)];
    FlatSnoc(es, FindingEntities(conv, rules, more, index));
    var rs := seq(|findings|, j requires 0 <= j < |findings| => FindingRelationships(conv, rules, findings[j], index));
    assert seq(|all|, j requires 0 <= j < |all| => FindingRelationships(conv, rules, all[j], index))
           == rs + [FindingRelationships(conv, rules, more, index)];
    FlatSnoc(rs, FindingRelationships(conv, rules, more, index));
  }

  lemma NextFinding(
      conv: Conversation, rules: TextRules, findings: seq<Finding>, j: nat, index: nat,
      before: seq<Entity>, beforeR: seq<Relationship>)
    requires j < |findings|
    ensures (before + EntitiesIn(conv, rules, findings[..j], index)) + FindingEntities(conv, rules, findings[j], index)
            == before + EntitiesIn(conv, rules, findings[..j + 1], index)
    ensures (beforeR + RelationshipsIn(conv, rules, findings[..j], index))
            + FindingRelationships(conv, rules, findings[j], index)
            == beforeR + RelationshipsIn(conv, rules, findings[..j + 1], index)
  {
    assert findings[..j + 1] == findings[..j] + [findings[j]];
    FindingsSnoc(conv, rules, findings[..j], findings[j], index);
    Assoc(before, EntitiesIn(conv, rules, findings[..j], index), FindingEntities(conv, rules, findings[j], index));
    Assoc(beforeR, RelationshipsIn(conv, rules, findings[..j], index),
          FindingRelationships(conv, rules, findings[j], index));
  }

  lemma PartsSnoc(conv: Conversation, rules: TextRules, found: seq<seq<Finding>>, more: seq<Finding>, start: nat)
    ensures EntityParts(conv, rules, found + [more], start)
            == EntityParts(conv, rules, found, start) + [EntitiesIn(conv, rules, more, start + |found|)]
    ensures RelationshipParts(conv, rules, found + [more], start)
            == RelationshipParts(conv, rules, found, start) + [RelationshipsIn(conv, rules, more, start + |found|)]
  {
  }

  /** All candidates of the first `k` messages. */
  function EntityStream(conv: Conversation, rules: TextRules, found: seq<seq<Finding>>, k: nat, start: nat): seq<Entity>
    requires k <= |found|
  {
    Flat(EntityParts(conv, rules, found[..k], start))
  }

  function RelationshipStream(conv: Conversation, rules: TextRules, found: seq<seq<Finding>>, k: nat, start: nat)
    : seq<Relationship>
    requires k <= |found|
  {
    Flat(RelationshipParts(conv, rules, found[..k], start))
  }

  lemma StreamStep(conv: Conversation, rules: TextRules, found: seq<seq<Finding>>, k: nat, start: nat)
    requires k < |found|
    ensures EntityStream(conv, rules, found, k + 1, start)
            == EntityStream(conv, rules, found, k, start) + EntitiesIn(conv, rules, found[k], start + k)
    ensures RelationshipStream(conv, rules, found, k + 1, start)
            == RelationshipStream(conv, rules, found, k, start) + RelationshipsIn(conv, rules, found[k], start + k)
  {
    var before, more := found[..k], found[k];
    assert found[..k + 1] == before + [more];
    PartsSnoc(conv, rules, before, more, start);
    FlatSnoc(EntityParts(conv, rules, before, start), EntitiesIn(conv, rules, more, start + k));
    FlatSnoc(RelationshipParts(conv, rules, before, start), RelationshipsIn(conv, rules, more, start + k));
  }

  lemma StreamEnds(conv: Conversation, rules: TextRules, found: seq<seq<Finding>>, start: nat)
    ensures EntityStream(conv, rules, found, 0, start) == []
    ensures RelationshipStream(conv, rules, found, 0, start) == []
    ensures EntityStream(conv, rules, found, |found|, start) == Flat(EntityParts(conv, rules, found, start))
    ensures RelationshipStream(conv, rules, found, |found|, start) == Flat(RelationshipParts(conv, rules, found, start))
  {
    assert found[..|found|] == found;
  }

  /** The candidates of some findings begin with those of the first ones. */
  lemma FindingsConcat(conv: Conversation, rules: TextRules, a: seq<Finding>, b: seq<Finding>, index: nat)
    ensures EntitiesIn(conv, rules, a + b, index)
         == EntitiesIn(conv, rules, a, index) + EntitiesIn(conv, rules, b, index)
    ensures RelationshipsIn(conv, rules, a + b, index)
         == RelationshipsIn(conv, rules, a, index) + RelationshipsIn(conv, rules, b, index)
  {
    EntitiesConcat(conv, rules, a, b, index);
    RelationshipsConcat(conv, rules, a, b, index);
  }

  lemma EntitiesConcat(conv: Conversation, rules: TextRules, a: seq<Finding>, b: seq<Finding>, index: nat)
    ensures EntitiesIn(conv, rules, a + b, index)
         == EntitiesIn(conv, rules, a, index) + EntitiesIn(conv, rules, b, index)
  {
    var all := a + b;
    var ea := seq(|a|, j requires 0 <= j < |a| => FindingEntities(conv, rules, a[j], index));
    var eb := seq(|b|, j requires 0 <= j < |b| => FindingEntities(conv, rules, b[j], index));
    assert seq(|all|, j requires 0 <= j < |all| => FindingEntities(conv, rules, all[j], index)) == ea + eb;
    FlatConcat(ea, eb);
  }

  lemma RelationshipsConcat(conv: Conversation, rules: TextRules, a: seq<Finding>, b: seq<Finding>, index: nat)
    ensures RelationshipsIn(conv, rules, a + b, index)
         == RelationshipsIn(conv, rules, a, index) + RelationshipsIn(conv, rules, b, index)
  {
    var all := a + b;
    var ra := seq(|a|, j requires 0 <= j < |a| => FindingRelationships(conv, rules, a[j], index));
    var rb := seq(|b|, j requires 0 <= j < |b| => FindingRelationships(conv, rules, b[j], index));
    assert seq(|all|, j requires 0 <= j < |all| => FindingRelationships(conv, rules, all[j], index)) == ra + rb;
    FlatConcat(ra, rb);
  }

  lemma NoFindings(conv: Conversation, rules: TextRules, index: nat)
    ensures EntitiesIn(conv, rules, [], index) == [] && RelationshipsIn(conv, rules, [], index) == []
  {
  }

  /** When the first findings already yield a record that is refused, so do all of them. */
  lemma RefusedEarly(
      conv: Conversation, rules: TextRules, findings: seq<Finding>, j: nat, index: nat,
      before: seq<Entity>, beforeR: seq<Relationship>)
    requires j <= |findings|
    requires !Accepted(before + EntitiesIn(conv, rules, findings[..j], index),
                       beforeR + RelationshipsIn(conv, rules, findings[..j], index))
    ensures !Accepted(before + EntitiesIn(conv, rules, findings, index),
                      beforeR + RelationshipsIn(conv, rules, findings, index))
  {
    assert findings == findings[..j] + findings[j..];
    FindingsConcat(conv, rules, findings[..j], findings[j..], index);
    Assoc(before, EntitiesIn(conv, rules, findings[..j], index), EntitiesIn(conv, rules, findings[j..], index));
    Assoc(beforeR, RelationshipsIn(conv, rules, findings[..j], index),
          RelationshipsIn(conv, rules, findings[j..], index));
    if Accepted(before + EntitiesIn(conv, rules, findings, index),
                beforeR + RelationshipsIn(conv, rules, findings, index)) {
      AcceptedEarlier(before + EntitiesIn(conv, rules, findings[..j], index),
                      EntitiesIn(conv, rules, findings[j..], index),
                      beforeR + RelationshipsIn(conv, rules, findings[..j], index),
                      RelationshipsIn(conv, rules, findings[j..], index));
    }
  }

  lemma RefusedInMessage(conv: Conversation, rules: TextRules, found: seq<seq<Finding>>, k: nat, start: nat)
    requires k <= |found|
    requires !Accepted(EntityStream(conv, rules, found, k, start), RelationshipStream(conv, rules, found, k, start))
    ensures !Accepted(EntityStream(conv, rules, found, |found|, start),
                      RelationshipStream(conv, rules, found, |found|, start))
    decreases |found| - k
  {
    if k < |found| {
      StreamStep(conv, rules, found, k, start);
      if Accepted(EntityStream(conv, rules, found, k + 1, start),
                  RelationshipStream(conv, rules, found, k + 1, start)) {
        AcceptedEarlier(EntityStream(conv, rules, found, k, start), EntitiesIn(conv, rules, found[k], start + k),
                        RelationshipStream(conv, rules, found, k, start),
                        RelationshipsIn(conv, rules, found[k], start + k));
      }
      RefusedInMessage(conv, rules, found, k + 1, start);
    }
  }

  // ---- the extractor as an object --------------------------------------------------------------

  /** A method that returns false is one that raised: the extractor is given up. */
  class Extractor {
    const conv: Conversation
    const rules: TextRules
    var entities: seq<Entity>
    var relationships: seq<Relationship>
    var seenEntities: set<EntityId>
    var seenRelationships: set<RelationshipId>
    ghost var offeredEntities: seq<Entity>
    ghost var offeredRelationships: seq<Relationship>

    /** Kept are the first occurrences of everything offered so far, and none was refused. */
    ghost predicate Valid()
      reads this
    {
      && entities == First(offeredEntities, IdOfEntity)
      && relationships == First(offeredRelationships, IdOfRelationship)
      && seenEntities == EntityIds(offeredEntities)
      && seenRelationships == RelationshipIds(offeredRelationships)
      && GraphFits(Graph(entities, relationships))
    }

    constructor (conv: Conversation, rules: TextRules)
      ensures Valid() && this.conv == conv && this.rules == rules
      ensures offeredEntities == [] && offeredRelationships == []
    {
      this.conv := conv;
      this.rules := rules;
      entities, relationships, seenEntities, seenRelationships := [], [], {}, {};
      offeredEntities, offeredRelationships := [], [];
    }

    method AddEntity(name: string, kind: EntityType, index: nat) returns (ok: bool, id: EntityId)
      requires Valid()
      modifies this
      ensures id == MakeEntity(conv, rules, name, kind, index).id
      ensures ok <==> Accepted(old(offeredEntities) + [MakeEntity(conv, rules, name, kind, index)],
                               old(offeredRelationships))
      ensures ok ==> Valid() && offeredRelationships == old(offeredRelationships)
      ensures ok ==> offeredEntities == old(offeredEntities) + [MakeEntity(conv, rules, name, kind, index)]
    {
      var entity := MakeEntity(conv, rules, name, kind, index);
      id := entity.id;
      KeysSnoc(offeredEntities, entity, IdOfEntity);
      FirstSnoc(offeredEntities, entity, IdOfEntity);
      if entity.id !in seenEntities {
        seenEntities := seenEntities + {entity.id};
        if !EntityFits(entity) {
          assert entity in entities + [entity];
          return false, id;
        }
        entities := entities + [entity];
      }
      offeredEntities := offeredEntities + [entity];
      ok := true;
    }

    method Offer(relationship: Relationship) returns (ok: bool)
      requires Valid()
      modifies this
      ensures ok <==> Accepted(old(offeredEntities), old(offeredRelationships) + [relationship])
      ensures ok ==> Valid() && offeredEntities == old(offeredEntities)
      ensures ok ==> offeredRelationships == old(offeredRelationships) + [relationship]
    {
      KeysSnoc(offeredRelationships, relationship, IdOfRelationship);
      FirstSnoc(offeredRelationships, relationship, IdOfRelationship);
      if relationship.id !in seenRelationships {
        seenRelationships := seenRelationships + {relationship.id};
        if !RelationshipFits(relationship) {
          assert relationship in relationships + [relationship];
          return false;
        }
        relationships := relationships + [relationship];
      }
      offeredRelationships := offeredRelationships + [relationship];
      ok := true;
    }

    /** Both ends of a relationship, the subject first. */
    method AddEnds(f: Finding, index: nat) returns (ok: bool, subjectId: EntityId, objectId: EntityId)
      requires Valid() && f.Relation?
      modifies this
      ensures subjectId == MakeEntity(conv, rules, f.subject, f.subjectType, index).id
      ensures objectId == MakeEntity(conv, rules, f.object_, f.objectType, index).id
      ensures ok <==> Accepted(old(offeredEntities) + FindingEntities(conv, rules, f, index),
                               old(offeredRelationships))
      ensures ok ==> Valid() && offeredEntities == old(offeredEntities) + FindingEntities(conv, rules, f, index)
      ensures ok ==> offeredRelationships == old(offeredRelationships)
    {
      EndsInOrder(conv, rules, f, index, offeredEntities, offeredRelationships);
      ok, subjectId := AddEntity(f.subject, f.subjectType, index);
      objectId := MakeEntity(conv, rules, f.object_, f.objectType, index).id;
      if ok {
        ok, objectId := AddEntity(f.object_, f.objectType, index);
      }
    }

    method AddRelationship(f: Finding, index: nat) returns (ok: bool)
      requires Valid() && f.Relation?
      modifies this
      ensures ok <==> Accepted(old(offeredEntities) + FindingEntities(conv, rules, f, index),
                               old(offeredRelationships) + FindingRelationships(conv, rules, f, index))
      ensures ok ==> Valid() && offeredEntities == old(offeredEntities) + FindingEntities(conv, rules, f, index)
      ensures ok ==>
                offeredRelationships == old(offeredRelationships) + FindingRelationships(conv, rules, f, index)
    {
      EndsBeforeRelationship(offeredEntities + FindingEntities(conv, rules, f, index), offeredRelationships,
                             FindingRelationships(conv, rules, f, index));
      var relationship := MakeRelationship(conv, rules, f, index);
      var subjectId, objectId;
      ok, subjectId, objectId := AddEnds(f, index);
      if ok {
        ok := Offer(relationship.(subjectId := subjectId, objectId := objectId));
      }
    }

    method AddFinding(f: Finding, index: nat) returns (ok: bool)
      requires Valid()
      modifies this
      ensures ok <==> Accepted(old(offeredEntities) + FindingEntities(conv, rules, f, index),
                               old(offeredRelationships) + FindingRelationships(conv, rules, f, index))
      ensures ok ==> Valid() && offeredEntities == old(offeredEntities) + FindingEntities(conv, rules, f, index)
      ensures ok ==>
                offeredRelationships == old(offeredRelationships) + FindingRelationships(conv, rules, f, index)
    {
      if f.Mention? {
        var id;
        assert offeredRelationships + [] == offeredRelationships;
        ok, id := AddEntity(f.name, f.kind, index);
      } else {
        ok := AddRelationship(f, index);
      }
    }

    method AddFindings(findings: seq<Finding>, index: nat) returns (ok: bool)
      requires Valid()
      modifies this
      ensures ok <==> Accepted(old(offeredEntities) + EntitiesIn(conv, rules, findings, index),
                               old(offeredRelationships) + RelationshipsIn(conv, rules, findings, index))
      ensures ok ==> Valid() && offeredEntities == old(offeredEntities) + EntitiesIn(conv, rules, findings, index)
      ensures ok ==>
                offeredRelationships == old(offeredRelationships) + RelationshipsIn(conv, rules, findings, index)
    {
      ghost var before, beforeR := offeredEntities, offeredRelationships;
      NoFindings(conv, rules, index);
      var j := 0;
      while j < |findings|
        invariant 0 <= j <= |findings|
        invariant Valid()
        invariant offeredEntities == before + EntitiesIn(conv, rules, findings[..j], index)
        invariant offeredRelationships == beforeR + RelationshipsIn(conv, rules, findings[..j], index)
      {
        NextFinding(conv, rules, findings, j, index, before, beforeR);
        ok := AddFinding(findings[j], index);
        if !ok {
          RefusedEarly(conv, rules, findings, j + 1, index, before, beforeR);
          return;
        }
        j := j + 1;
      }
      assert findings[..j] == findings;
      ok := true;
    }

    method AddMessage(found: seq<seq<Finding>>, offset: nat, start: nat) returns (ok: bool)
      requires Valid() && offset < |found|
      requires offeredEntities == EntityStream(conv, rules, found, offset, start)
      requires offeredRelationships == RelationshipStream(conv, rules, found, offset, start)
      modifies this
      ensures ok <==> Accepted(EntityStream(conv, rules, found, offset + 1, start),
                               RelationshipStream(conv, rules, found, offset + 1, start))
      ensures ok ==> Valid() && offeredEntities == EntityStream(conv, rules, found, offset + 1, start)
      ensures ok ==> offeredRelationships == RelationshipStream(conv, rules, found, offset + 1, start)
    {
      StreamStep(conv, rules, found, offset, start);
      ok := AddFindings(found[offset], start + offset);
    }

    /** The outer loop, over what was found in each message. */
    method AddMessages(found: seq<seq<Finding>>, start: nat) returns (ok: bool)
      requires Valid() && offeredEntities == [] && offeredRelationships == []
      modifies this
      ensures ok <==> Accepted(EntityStream(conv, rules, found, |found|, start),
                               RelationshipStream(conv, rules, found, |found|, start))
      ensures ok ==> Valid() && offeredEntities == EntityStream(conv, rules, found, |found|, start)
      ensures ok ==> offeredRelationships == RelationshipStream(conv, rules, found, |found|, start)
    {
      StreamEnds(conv, rules, found, start);
      var offset := 0;
      while offset < |found|
        invariant 0 <= offset <= |found|
        invariant Valid()
        invariant offeredEntities == EntityStream(conv, rules, found, offset, start)
        invariant offeredRelationships == RelationshipStream(conv, rules, found, offset, start)
      {
        ok := AddMessage(found, offset, start);
        if !ok {
          RefusedInMessage(conv, rules, found, offset + 1, start);
          return;
        }
        offset := offset + 1;
      }
      ok := true;
    }
  }

  /** The subject is offered first, and when it is refused the two ends are. */
  lemma EndsInOrder(conv: Conversation, rules: TextRules, f: Finding, index: nat, before: seq<Entity>,
                    beforeR: seq<Relationship>)
    requires f.Relation?
    ensures
      var subject := MakeEntity(conv, rules, f.subject, f.subjectType, index);
      var object_ := MakeEntity(conv, rules, f.object_, f.objectType, index);
      && before + FindingEntities(conv, rules, f, index) == (before + [subject]) + [object_]
      && (Accepted(before + FindingEntities(conv, rules, f, index), beforeR) ==> Accepted(before + [subject], beforeR))
  {
    var subject := MakeEntity(conv, rules, f.subject, f.subjectType, index);
    var object_ := MakeEntity(conv, rules, f.object_, f.objectType, index);
    assert before + FindingEntities(conv, rules, f, index) == (before + [subject]) + [object_];
    if Accepted((before + [subject]) + [object_], beforeR) {
      assert beforeR + [] == beforeR;
      AcceptedEarlier(before + [subject], [object_], beforeR, []);
    }
  }

  lemma EndsBeforeRelationship(ends: seq<Entity>, beforeR: seq<Relationship>, more: seq<Relationship>)
    ensures Accepted(ends, beforeR + more) ==> Accepted(ends, beforeR)
  {
    if Accepted(ends, beforeR + more) {
      assert ends + [] == ends;
      AcceptedEarlier(ends, [], beforeR, more);
    }
  }

  /** `messages` is None when it is not a list. The call raises exactly when a record that it
      would return breaks a length limit. */
  method ExtractMemoryGraph(conv: Conversation, rules: TextRules, messages: Option<seq<Option<string>>>, start: int)
    returns (outcome: Outcome)
    ensures outcome ==
            if conv.id == "" || messages.None? then Extracted(Graph([], []))
            else if start < 0 then NegativeStart
            else if GraphFits(Extract(conv, rules, messages.value, start))
            then Extracted(Extract(conv, rules, messages.value, start))
            else RecordRefused
  {
    if conv.id == "" || messages.None? {
      return Extracted(Graph([], []));
    }
    if start < 0 {
      return NegativeStart;
    }
    var extractor := new Extractor(conv, rules);
    var found := AllFindings(conv, rules, messages.value);
    StreamEnds(conv, rules, found, start);
    var ok := extractor.AddMessages(found, start);
    return if ok then Extracted(Graph(extractor.entities, extractor.relationships)) else RecordRefused;
  }

  // ---- incremental extraction -----------------------------------------------------------------------

  lemma AllFindingsConcat(conv: Conversation, rules: TextRules, a: seq<Option<string>>, b: seq<Option<string>>)
    ensures AllFindings(conv, rules, a + b) == AllFindings(conv, rules, a) + AllFindings(conv, rules, b)
  {
  }

  lemma PartsConcat(conv: Conversation, rules: TextRules, a: seq<seq<Finding>>, b: seq<seq<Finding>>, start: nat)
    ensures EntityParts(conv, rules, a + b, start)
            == EntityParts(conv, rules, a, start) + EntityParts(conv, rules, b, start + |a|)
    ensures RelationshipParts(conv, rules, a + b, start)
            == RelationshipParts(conv, rules, a, start) + RelationshipParts(conv, rules, b, start + |a|)
  {
  }

  /** A relationship id carries the index of its message. */
  lemma PartsIndexed(conv: Conversation, rules: TextRules, found: seq<seq<Finding>>, start: nat, r: Relationship)
    requires r in Flat(RelationshipParts(conv, rules, found, start))
    ensures start <= r.id.index < start + |found|
  {
    var k := FlatHas(RelationshipParts(conv, rules, found, start), r);
    var findings := found[k];
    var j := FlatHas(seq(|findings|, j requires 0 <= j < |findings|
                                     => FindingRelationships(conv, rules, findings[j], start + k)), r);
  }

  lemma PartIdsDisjoint(conv: Conversation, rules: TextRules, a: seq<seq<Finding>>, b: seq<seq<Finding>>, start: nat)
    ensures RelationshipIds(Flat(RelationshipParts(conv, rules, a, start)))
            !! RelationshipIds(Flat(RelationshipParts(conv, rules, b, start + |a|)))
  {
    var ra := Flat(RelationshipParts(conv, rules, a, start));
    var rb := Flat(RelationshipParts(conv, rules, b, start + |a|));
    forall id | id in RelationshipIds(ra) ensures id !in RelationshipIds(rb) {
      var r1 := KeyHasElement(ra, IdOfRelationship, id);
      PartsIndexed(conv, rules, a, start, r1);
      if id in RelationshipIds(rb) {
        var r2 := KeyHasElement(rb, IdOfRelationship, id);
        PartsIndexed(conv, rules, b, start + |a|, r2);
      }
    }
  }

  lemma FoundSplit(conv: Conversation, rules: TextRules, a: seq<seq<Finding>>, b: seq<seq<Finding>>, start: nat)
    ensures
      var full := ExtractFound(conv, rules, a + b, start);
      var before := ExtractFound(conv, rules, a, start);
      var added := ExtractFound(conv, rules, b, start + |a|);
      && full.relationships == before.relationships + added.relationships
      && full.entities == before.entities + Unknown(added.entities, IdOfEntity, EntityIds(before.entities))
  {
    var ea, eb := EntityParts(conv, rules, a, start), EntityParts(conv, rules, b, start + |a|);
    var ra, rb := RelationshipParts(conv, rules, a, start), RelationshipParts(conv, rules, b, start + |a|);
    PartsConcat(conv, rules, a, b, start);
    FlatConcat(ea, eb);
    FirstConcat(Flat(ea), Flat(eb), IdOfEntity);
    FirstKeepsKeys(Flat(ea), IdOfEntity);
    FlatConcat(ra, rb);
    FirstConcat(Flat(ra), Flat(rb), IdOfRelationship);
    PartIdsDisjoint(conv, rules, a, b, start);
    FirstKeepsKeys(Flat(rb), IdOfRelationship);
    NothingKnown(First(Flat(rb), IdOfRelationship), IdOfRelationship, RelationshipIds(Flat(ra)));
  }

  /** Extracting an appended suffix on its own gives what full extraction would add: all
      of its relationships, and those of its entities the prefix did not have. */
  lemma IncrementalEqualsFull(
      conv: Conversation, rules: TextRules, prefix: seq<Option<string>>, suffix: seq<Option<string>>, start: nat)
    ensures
      var full := Extract(conv, rules, prefix + suffix, start);
      var before := Extract(conv, rules, prefix, start);
      var added := Extract(conv, rules, suffix, start + |prefix|);
      && full.relationships == before.relationships + added.relationships
      && full.entities == before.entities + Unknown(added.entities, IdOfEntity, EntityIds(before.entities))
  {
    var a, b := AllFindings(conv, rules, prefix), AllFindings(conv, rules, suffix);
    AllFindingsConcat(conv, rules, prefix, suffix);
    assert Extract(conv, rules, prefix + suffix, start) == ExtractFound(conv, rules, a + b, start);
    assert Extract(conv, rules, prefix, start) == ExtractFound(conv, rules, a, start);
    assert Extract(conv, rules, suffix, start + |prefix|) == ExtractFound(conv, rules, b, start + |a|);
    FoundSplit(conv, rules, a, b, start);
  }

  // ---- when the parts succeed -------------------------------------------------------------------------

  /** Whatever the text functions do, full extraction succeeds exactly when the prefix's does and
      everything it adds passes the checks. */
  lemma FullFitsIff(
      conv: Conversation, rules: TextRules, prefix: seq<Option<string>>, suffix: seq<Option<string>>, start: nat)
    ensures
      var full := Extract(conv, rules, prefix + suffix, start);
      var before := Extract(conv, rules, prefix, start);
      var added := Extract(conv, rules, suffix, start + |prefix|);
      var new_ := Unknown(added.entities, IdOfEntity, EntityIds(before.entities));
      && (GraphFits(full) <==> GraphFits(before) && GraphFits(Graph(new_, added.relationships)))
      && (GraphFits(before) && GraphFits(added) ==> GraphFits(full))
  {
    IncrementalEqualsFull(conv, rules, prefix, suffix, start);
    var before := Extract(conv, rules, prefix, start);
    var added := Extract(conv, rules, suffix, start + |prefix|);
    forall e | e in Unknown(added.entities, IdOfEntity, EntityIds(before.entities)) ensures e in added.entities {
      UnknownIsFrom(added.entities, IdOfEntity, EntityIds(before.entities), e);
    }
  }

  /** What the code's text functions satisfy: cleaning leaves no outer whitespace, so case folding
      and joining the words again neither shortens a cleaned text nor fills an empty one. */
  ghost predicate KeepsLength(rules: TextRules) {
    forall s: string ::
      && |rules.clean(s)| <= |rules.normalize(rules.clean(s))|
      && (rules.clean(s) == "" ==> rules.normalize(rules.clean(s)) == "")
  }

  lemma MadeFitsById(conv: Conversation, rules: TextRules, name: string, kind: EntityType, index: nat)
    requires KeepsLength(rules)
    ensures
      var e := MakeEntity(conv, rules, name, kind, index);
      EntityFits(e) <==> Bounded(e.id.name, MAX_NAME_LENGTH)
  {
    assert |rules.clean(name)| <= |rules.normalize(rules.clean(name))|;
  }

  lemma FoundFitsById(conv: Conversation, rules: TextRules, f: Finding, index: nat, e: Entity)
    requires KeepsLength(rules) && e in FindingEntities(conv, rules, f, index)
    ensures FitsById(e)
  {
    match f {
      case Mention(name, kind) => MadeFitsById(conv, rules, name, kind, index);
      case Relation(subject, _, object_, subjectType, objectType, _) =>
        MadeFitsById(conv, rules, subject, subjectType, index);
        MadeFitsById(conv, rules, object_, objectType, index);
    }
  }

  lemma OfferedBy(conv: Conversation, rules: TextRules, found: seq<seq<Finding>>, start: nat, e: Entity)
      returns (k: nat, j: nat)
    requires e in Flat(EntityParts(conv, rules, found, start))
    ensures k < |found| && j < |found[k]| && e in FindingEntities(conv, rules, found[k][j], start + k)
  {
    k := FlatHas(EntityParts(conv, rules, found, start), e);
    var findings := found[k];
    j := FlatHas(seq(|findings|, j requires 0 <= j < |findings|
                                 => FindingEntities(conv, rules, findings[j], start + k)), e);
  }

  /** Whether an entity passes its checks can be read off its id. */
  predicate FitsById(e: Entity) {
    EntityFits(e) <==> Bounded(e.id.name, MAX_NAME_LENGTH)
  }

  lemma CandidateFitsById(conv: Conversation, rules: TextRules, found: seq<seq<Finding>>, start: nat, e: Entity)
    requires KeepsLength(rules) && e in Flat(EntityParts(conv, rules, found, start))
    ensures FitsById(e)
  {
    var k, j := OfferedBy(conv, rules, found, start, e);
    FoundFitsById(conv, rules, found[k][j], start + k, e);
  }

  lemma ExtractedFitsById(conv: Conversation, rules: TextRules, found: seq<seq<Finding>>, start: nat, e: Entity)
    requires KeepsLength(rules) && e in ExtractFound(conv, rules, found, start).entities
    ensures FitsById(e)
  {
    FirstIsFrom(Flat(EntityParts(conv, rules, found, start)), IdOfEntity, e);
    CandidateFitsById(conv, rules, found, start, e);
  }

  /** An entity with the id of one that passes its checks passes them. */
  lemma KnownEntityFits(entities: seq<Entity>, e: Entity)
    requires forall known :: known in entities ==> FitsById(known) && EntityFits(known)
    requires FitsById(e) && e.id in EntityIds(entities)
    ensures EntityFits(e)
  {
    var known := KeyHasElement(entities, IdOfEntity, e.id);
  }

  ghost predicate AllFitById(g: Graph) {
    forall e :: e in g.entities ==> FitsById(e)
  }

  lemma ExtractedAllFitById(conv: Conversation, rules: TextRules, messages: seq<Option<string>>, start: nat)
    requires KeepsLength(rules)
    ensures AllFitById(Extract(conv, rules, messages, start))
  {
    forall e | e in Extract(conv, rules, messages, start).entities ensures FitsById(e) {
      ExtractedFitsById(conv, rules, AllFindings(conv, rules, messages), start, e);
    }
  }

  /** What passes as an addition passes on its own. */
  lemma SuffixFits(before: Graph, added: Graph)
    requires AllFitById(before) && AllFitById(added) && GraphFits(before)
    requires GraphFits(Graph(Unknown(added.entities, IdOfEntity, EntityIds(before.entities)), added.relationships))
    ensures GraphFits(added)
  {
    var ids := EntityIds(before.entities);
    forall e | e in added.entities ensures EntityFits(e) {
      if e.id in ids {
        KnownEntityFits(before.entities, e);
      } else {
        UnknownHas(added.entities, IdOfEntity, ids, e);
      }
    }
  }

  /** Full extraction succeeds exactly when extracting the prefix and extracting the suffix on its
      own do: an append never raises where indexing everything again would not, nor the reverse. */
  lemma FullSucceedsIff(
      conv: Conversation, rules: TextRules, prefix: seq<Option<string>>, suffix: seq<Option<string>>, start: nat)
    requires KeepsLength(rules)
    ensures GraphFits(Extract(conv, rules, prefix + suffix, start))
       <==> GraphFits(Extract(conv, rules, prefix, start)) && GraphFits(Extract(conv, rules, suffix, start + |prefix|))
  {
    var before, added := Extract(conv, rules, prefix, start), Extract(conv, rules, suffix, start + |prefix|);
    ExtractedAllFitById(conv, rules, prefix, start);
    ExtractedAllFitById(conv, rules, suffix, start + |prefix|);
    FullFitsIff(conv, rules, prefix, suffix, start);
    if GraphFits(Extract(conv, rules, prefix + suffix, start)) {
      SuffixFits(before, added);
    }
  }

  // ---- relationships point at entities of the same call ------------------------------------------------

  /** Both ends of every extracted relationship are among the entities of the same call,
      so an incremental call never refers to an entity it did not return. */
  lemma RelationshipEndsAreExtracted(
      conv: Conversation, rules: TextRules, messages: seq<Option<string>>, start: nat, r: Relationship)
    requires r in Extract(conv, rules, messages, start).relationships
    ensures r.subjectId in EntityIds(Extract(conv, rules, messages, start).entities)
    ensures r.objectId in EntityIds(Extract(conv, rules, messages, start).entities)
  {
    var found := AllFindings(conv, rules, messages);
    var candidates := Flat(EntityParts(conv, rules, found, start));
    FirstIsFrom(Flat(RelationshipParts(conv, rules, found, start)), IdOfRelationship, r);
    EndsOffered(conv, rules, found, start, r);
    FirstKeepsKeys(candidates, IdOfEntity);
  }

  lemma EndsOffered(conv: Conversation, rules: TextRules, found: seq<seq<Finding>>, start: nat, r: Relationship)
    requires r in Flat(RelationshipParts(conv, rules, found, start))
    ensures r.subjectId in EntityIds(Flat(EntityParts(conv, rules, found, start)))
    ensures r.objectId in EntityIds(Flat(EntityParts(conv, rules, found, start)))
  {
    var k := FlatHas(RelationshipParts(conv, rules, found, start), r);
    var findings := found[k];
    var j := FlatHas(seq(|findings|, j requires 0 <= j < |findings|
                                     => FindingRelationships(conv, rules, findings[j], start + k)), r);
    var made := FindingEntities(conv, rules, findings[j], start + k);
    forall e | e in made ensures e.id in EntityIds(Flat(EntityParts(conv, rules, found, start))) {
      FlatHolds(seq(|findings|, i requires 0 <= i < |findings| => FindingEntities(conv, rules, findings[i], start + k)),
                j, e);
      FlatHolds(EntityParts(conv, rules, found, start), k, e);
      KeyOfElement(Flat(EntityParts(conv, rules, found, start)), IdOfEntity, e);
    }
    assert made[0] in made && made[1] in made;
  }
}
