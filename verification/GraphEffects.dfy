/** What extraction says of the messages, against the matches of the patterns themselves: every
    relationship and every entity comes from a match, with the ends the right way round and of the
    right types, and every match is kept. */
module GraphEffects {
  import opened Options
  import opened FirstOccurrences
  import opened GraphExtraction

  // ---- what a text says --------------------------------------------------------------------------

  function TitleOf(conv: Conversation): string {
    if conv.title.Some? then conv.title.value else "project"
  }

  /** The text relates the two: by the pattern of the relation, or for three of them with a subject
      that the extractor supplies or rules out. */
  predicate Says(conv: Conversation, rules: TextRules, text: string, relation: Predicate, subject: string,
                 object_: string)
  {
    var m := rules.find(text);
    match relation
    case CreatedBy => subject == TitleOf(conv) && object_ in m.creators
    case Owns => subject == "user" && object_ in m.owned
    case Decided =>
      Pair(subject, object_) in m.projects && rules.normalize(subject) != "i"
      && rules.normalize(subject) != "the creator" && !("my favorite " <= rules.normalize(subject))
    case Prefers => Pair(subject, object_) in m.preferences
    case WorksOn => Pair(subject, object_) in m.worksOn
    case UsesTool => Pair(subject, object_) in m.uses
    case ChangedTo => Pair(subject, object_) in m.changes
    case UsesProvider => false
  }

  function SubjectType(relation: Predicate): EntityType {
    match relation
    case Prefers => Preference
    case Owns => Person
    case WorksOn => Person
    case _ => Project
  }

  function ObjectType(relation: Predicate): EntityType {
    match relation
    case CreatedBy => Person
    case UsesTool => Tool
    case UsesProvider => Tool
    case Decided => Decision
    case Prefers => Preference
    case Owns => OwnedItem
    case WorksOn => Project
    case ChangedTo => Preference
  }

  function Confidence(relation: Predicate): real {
    if relation == Decided then 0.72 else 0.85
  }

  // ---- the findings are what is said ----------------------------------------------------------------

  /** The finding as the relation prescribes it. */
  predicate AsPrescribed(f: Finding) {
    f.Relation? && f.subjectType == SubjectType(f.relation) && f.objectType == ObjectType(f.relation)
    && f.confidence == Confidence(f.relation)
  }

  function Prescribed(relation: Predicate, subject: string, object_: string): Finding {
    Relation(subject, relation, object_, SubjectType(relation), ObjectType(relation), Confidence(relation))
  }

  lemma RelationsHold(pairs: seq<Pair>, relation: Predicate)
    ensures
      var found := Relations(pairs, relation, SubjectType(relation), ObjectType(relation), Confidence(relation));
      forall f: Finding :: f in found
        <==> AsPrescribed(f) && f.relation == relation && Pair(f.subject, f.object_) in pairs
  {
    var found := Relations(pairs, relation, SubjectType(relation), ObjectType(relation), Confidence(relation));
    forall f: Finding | AsPrescribed(f) && f.relation == relation && Pair(f.subject, f.object_) in pairs
      ensures f in found
    {
      var i :| 0 <= i < |pairs| && pairs[i] == Pair(f.subject, f.object_);
      assert found[i] == f;
    }
  }

  lemma SubjectSupplied(subject: string, objects: seq<string>)
    ensures forall p: Pair :: p in WithSubject(subject, objects) <==> p.subject == subject && p.object_ in objects
  {
    forall p: Pair | p.subject == subject && p.object_ in objects ensures p in WithSubject(subject, objects) {
      var i :| 0 <= i < |objects| && objects[i] == p.object_;
      assert WithSubject(subject, objects)[i] == p;
    }
  }

  lemma {:induction false} DecisionsHold(pairs: seq<Pair>, rules: TextRules)
    ensures
      forall p: Pair :: p in Decisions(pairs, rules)
        <==> p in pairs && rules.normalize(p.subject) != "i" && rules.normalize(p.subject) != "the creator"
             && !("my favorite " <= rules.normalize(p.subject))
    decreases |pairs|
  {
    if pairs != [] {
      DecisionsHold(pairs[1..], rules);
      assert pairs == [pairs[0]] + pairs[1..];
    }
  }

  lemma MentionsHold(names: seq<string>, kind: EntityType)
    ensures forall f: Finding :: f in Mentions(names, kind) <==> f.Mention? && f.kind == kind && f.name in names
  {
    forall f: Finding | f.Mention? && f.kind == kind && f.name in names ensures f in Mentions(names, kind) {
      var i :| 0 <= i < |names| && names[i] == f.name;
      assert Mentions(names, kind)[i] == f;
    }
  }

  predicate InParts(conv: Conversation, rules: TextRules, text: string, f: Finding) {
    var m := rules.find(text);
    || f in Mentions(m.tools, Tool) || f in Mentions(m.providers, Provider)
    || f in Relations(WithSubject(TitleOf(conv), m.creators), CreatedBy, Project, Person, 0.85)
    || f in Relations(Decisions(m.projects, rules), Decided, Project, Decision, 0.72)
    || f in Relations(m.preferences, Prefers, Preference, Preference, 0.85)
    || f in Relations(WithSubject("user", m.owned), Owns, Person, OwnedItem, 0.85)
    || f in Relations(m.worksOn, WorksOn, Person, Project, 0.85)
    || f in Relations(m.uses, UsesTool, Project, Tool, 0.85)
    || f in Relations(m.changes, ChangedTo, Project, Preference, 0.85)
  }

  lemma FindingsAreParts(conv: Conversation, rules: TextRules, text: string, f: Finding)
    ensures f in Findings(conv, rules, text) <==> InParts(conv, rules, text, f)
  {
  }

  /** A relation is found exactly when the text says so, with the types and the confidence that
      belong to it. */
  lemma RelationFoundIff(conv: Conversation, rules: TextRules, text: string, f: Finding)
    requires f.Relation?
    ensures f in Findings(conv, rules, text)
       <==> AsPrescribed(f) && Says(conv, rules, text, f.relation, f.subject, f.object_)
  {
    var m := rules.find(text);
    FindingsAreParts(conv, rules, text, f);
    MentionsHold(m.tools, Tool);
    MentionsHold(m.providers, Provider);
    RelationsHold(WithSubject(TitleOf(conv), m.creators), CreatedBy);
    SubjectSupplied(TitleOf(conv), m.creators);
    RelationsHold(Decisions(m.projects, rules), Decided);
    DecisionsHold(m.projects, rules);
    RelationsHold(m.preferences, Prefers);
    RelationsHold(WithSubject("user", m.owned), Owns);
    SubjectSupplied("user", m.owned);
    RelationsHold(m.worksOn, WorksOn);
    RelationsHold(m.uses, UsesTool);
    RelationsHold(m.changes, ChangedTo);
  }

  /** A name is mentioned exactly as one of the known tools or providers. */
  lemma MentionFoundIff(conv: Conversation, rules: TextRules, text: string, f: Finding)
    requires f.Mention?
    ensures
      var m := rules.find(text);
      f in Findings(conv, rules, text)
      <==> (f.kind == Tool && f.name in m.tools) || (f.kind == Provider && f.name in m.providers)
  {
    var m := rules.find(text);
    FindingsAreParts(conv, rules, text, f);
    MentionsHold(m.tools, Tool);
    MentionsHold(m.providers, Provider);
  }

  // ---- relationships -----------------------------------------------------------------------------

  /** The message at position `k` says it. */
  predicate SaidAt(conv: Conversation, rules: TextRules, messages: seq<Option<string>>, k: nat, relation: Predicate,
                   subject: string, object_: string)
  {
    k < |messages| && messages[k].Some? && Says(conv, rules, messages[k].value, relation, subject, object_)
  }

  /** The relationship states that the subject stands in the relation to the object: cleaned texts,
      ends of the relation's types, subject before object, at the message's index. */
  predicate States(conv: Conversation, rules: TextRules, r: Relationship, index: nat, subject: string,
                   object_: string)
  {
    && r.subject == rules.clean(subject) && r.object_ == rules.clean(object_) && r.index == index
    && r.id == RelationshipId(conv.id, index, rules.normalize(subject), r.relation, rules.normalize(object_))
    && r.subjectId == EntityId(conv.id, SubjectType(r.relation), rules.normalize(r.subject))
    && r.objectId == EntityId(conv.id, ObjectType(r.relation), rules.normalize(r.object_))
    && r.confidence == Confidence(r.relation) && r.conflictGroup == (rules.normalize(subject), r.relation)
  }

  lemma MadeStates(conv: Conversation, rules: TextRules, f: Finding, index: nat)
    requires AsPrescribed(f)
    ensures MakeRelationship(conv, rules, f, index).relation == f.relation
    ensures States(conv, rules, MakeRelationship(conv, rules, f, index), index, f.subject, f.object_)
  {
  }

  lemma OfferedRelationship(conv: Conversation, rules: TextRules, found: seq<seq<Finding>>, start: nat, r: Relationship)
      returns (k: nat, j: nat)
    requires r in Flat(RelationshipParts(conv, rules, found, start))
    ensures k < |found| && j < |found[k]| && found[k][j].Relation?
    ensures r == MakeRelationship(conv, rules, found[k][j], start + k)
  {
    k := FlatHas(RelationshipParts(conv, rules, found, start), r);
    var findings := found[k];
    j := FlatHas(seq(|findings|, j requires 0 <= j < |findings|
                                 => FindingRelationships(conv, rules, findings[j], start + k)), r);
  }

  /** Every extracted relationship states what one message says. */
  lemma RelationshipWasSaid(
      conv: Conversation, rules: TextRules, messages: seq<Option<string>>, start: nat, r: Relationship)
      returns (k: nat, subject: string, object_: string)
    requires r in Extract(conv, rules, messages, start).relationships
    ensures SaidAt(conv, rules, messages, k, r.relation, subject, object_)
    ensures States(conv, rules, r, start + k, subject, object_)
  {
    var found := AllFindings(conv, rules, messages);
    var j;
    FirstIsFrom(Flat(RelationshipParts(conv, rules, found, start)), IdOfRelationship, r);
    k, j := OfferedRelationship(conv, rules, found, start, r);
    var f := found[k][j];
    assert f in MessageFindings(conv, rules, messages[k]);
    RelationFoundIff(conv, rules, messages[k].value, f);
    MadeStates(conv, rules, f, start + k);
    subject, object_ := f.subject, f.object_;
  }

  lemma RelationshipIsIn(conv: Conversation, rules: TextRules, findings: seq<Finding>, j: nat, index: nat)
    requires j < |findings| && findings[j].Relation?
    ensures MakeRelationship(conv, rules, findings[j], index) in RelationshipsIn(conv, rules, findings, index)
  {
    FlatHolds(seq(|findings|, i requires 0 <= i < |findings|
                              => FindingRelationships(conv, rules, findings[i], index)),
              j, MakeRelationship(conv, rules, findings[j], index));
  }

  lemma RelationshipIsOffered(
      conv: Conversation, rules: TextRules, found: seq<seq<Finding>>, start: nat, k: nat, j: nat)
    requires k < |found| && j < |found[k]| && found[k][j].Relation?
    ensures MakeRelationship(conv, rules, found[k][j], start + k) in Flat(RelationshipParts(conv, rules, found, start))
  {
    RelationshipIsIn(conv, rules, found[k], j, start + k);
    FlatHolds(RelationshipParts(conv, rules, found, start), k, MakeRelationship(conv, rules, found[k][j], start + k));
  }

  /** And what a message says is among them, under its id. */
  lemma SaidIsExtracted(
      conv: Conversation, rules: TextRules, messages: seq<Option<string>>, start: nat, k: nat, relation: Predicate,
      subject: string, object_: string)
    requires SaidAt(conv, rules, messages, k, relation, subject, object_)
    ensures RelationshipId(conv.id, start + k, rules.normalize(subject), relation, rules.normalize(object_))
            in RelationshipIds(Extract(conv, rules, messages, start).relationships)
  {
    var f := Prescribed(relation, subject, object_);
    RelationFoundIff(conv, rules, messages[k].value, f);
    FoundIsExtracted(conv, rules, AllFindings(conv, rules, messages), start, k, f);
  }

  lemma FoundIsExtracted(
      conv: Conversation, rules: TextRules, found: seq<seq<Finding>>, start: nat, k: nat, f: Finding)
    requires k < |found| && f in found[k] && f.Relation?
    ensures MakeRelationship(conv, rules, f, start + k).id
            in RelationshipIds(ExtractFound(conv, rules, found, start).relationships)
  {
    var j :| 0 <= j < |found[k]| && found[k][j] == f;
    RelationshipIsOffered(conv, rules, found, start, k, j);
    KeyOfElement(Flat(RelationshipParts(conv, rules, found, start)), IdOfRelationship,
                 MakeRelationship(conv, rules, f, start + k));
    FirstKeepsKeys(Flat(RelationshipParts(conv, rules, found, start)), IdOfRelationship);
  }

  /** The two ends of a relationship are not mixed up: each id is made from its own text and has the
      type of its side. */
  lemma EndsAreRightWayRound(
      conv: Conversation, rules: TextRules, messages: seq<Option<string>>, start: nat, r: Relationship)
    requires r in Extract(conv, rules, messages, start).relationships
    ensures r.subjectId.name == rules.normalize(r.subject) && r.objectId.name == rules.normalize(r.object_)
    ensures r.subjectId.kind == SubjectType(r.relation) && r.objectId.kind == ObjectType(r.relation)
    ensures r.subjectId.conversation == conv.id && r.objectId.conversation == conv.id
  {
    var k, subject, object_ := RelationshipWasSaid(conv, rules, messages, start, r);
  }

  // ---- entities ----------------------------------------------------------------------------------

  /** The message at position `k` names it: as a tool, a provider, or an end of what it says. */
  ghost predicate NamedAt(conv: Conversation, rules: TextRules, messages: seq<Option<string>>, k: nat, name: string,
                          kind: EntityType)
  {
    && k < |messages| && messages[k].Some?
    && (|| (kind == Tool && name in rules.find(messages[k].value).tools)
        || (kind == Provider && name in rules.find(messages[k].value).providers)
        || (exists relation, other ::
              kind == SubjectType(relation) && SaidAt(conv, rules, messages, k, relation, name, other))
        || (exists relation, other ::
              kind == ObjectType(relation) && SaidAt(conv, rules, messages, k, relation, other, name)))
  }

  lemma MadeEntity(conv: Conversation, rules: TextRules, name: string, kind: EntityType, index: nat)
    ensures
      var e := MakeEntity(conv, rules, name, kind, index);
      && e.name == rules.clean(name) && e.normalized == rules.normalize(rules.clean(name)) && e.kind == kind
      && e.index == index && e.id == EntityId(conv.id, kind, e.normalized)
  {
  }

  lemma FindingNames(
      conv: Conversation, rules: TextRules, messages: seq<Option<string>>, k: nat, f: Finding, index: nat, e: Entity)
      returns (name: string)
    requires k < |messages| && f in MessageFindings(conv, rules, messages[k])
    requires e in FindingEntities(conv, rules, f, index)
    ensures NamedAt(conv, rules, messages, k, name, e.kind) && e == MakeEntity(conv, rules, name, e.kind, index)
  {
    match f {
      case Mention(mentioned, kind) =>
        name := mentioned;
        MentionFoundIff(conv, rules, messages[k].value, f);
      case Relation(subject, relation, object_, subjectType, objectType, _) =>
        RelationFoundIff(conv, rules, messages[k].value, f);
        assert SaidAt(conv, rules, messages, k, relation, subject, object_);
        name := if e == MakeEntity(conv, rules, subject, subjectType, index) then subject else object_;
    }
  }

  /** Every extracted entity is named by a message, and is what that name is cleaned to. */
  lemma EntityWasNamed(
      conv: Conversation, rules: TextRules, messages: seq<Option<string>>, start: nat, e: Entity)
      returns (k: nat, name: string)
    requires e in Extract(conv, rules, messages, start).entities
    ensures NamedAt(conv, rules, messages, k, name, e.kind)
    ensures e.name == rules.clean(name) && e.normalized == rules.normalize(e.name) && e.index == start + k
    ensures e.id == EntityId(conv.id, e.kind, e.normalized)
  {
    var found := AllFindings(conv, rules, messages);
    var j;
    FirstIsFrom(Flat(EntityParts(conv, rules, found, start)), IdOfEntity, e);
    k, j := OfferedBy(conv, rules, found, start, e);
    name := FindingNames(conv, rules, messages, k, found[k][j], start + k, e);
    MadeEntity(conv, rules, name, e.kind, start + k);
  }

  lemma EntityIsOffered(
      conv: Conversation, rules: TextRules, found: seq<seq<Finding>>, start: nat, k: nat, f: Finding, e: Entity)
    requires k < |found| && f in found[k] && e in FindingEntities(conv, rules, f, start + k)
    ensures e.id in EntityIds(ExtractFound(conv, rules, found, start).entities)
  {
    var findings := found[k];
    var j :| 0 <= j < |findings| && findings[j] == f;
    FlatHolds(seq(|findings|, i requires 0 <= i < |findings| => FindingEntities(conv, rules, findings[i], start + k)),
              j, e);
    FlatHolds(EntityParts(conv, rules, found, start), k, e);
    KeyOfElement(Flat(EntityParts(conv, rules, found, start)), IdOfEntity, e);
    FirstKeepsKeys(Flat(EntityParts(conv, rules, found, start)), IdOfEntity);
  }

  lemma NamedIsFound(
      conv: Conversation, rules: TextRules, messages: seq<Option<string>>, k: nat, name: string, kind: EntityType,
      index: nat) returns (f: Finding)
    requires NamedAt(conv, rules, messages, k, name, kind)
    ensures f in MessageFindings(conv, rules, messages[k])
    ensures MakeEntity(conv, rules, name, kind, index) in FindingEntities(conv, rules, f, index)
  {
    var m := rules.find(messages[k].value);
    if (kind == Tool && name in m.tools) || (kind == Provider && name in m.providers) {
      f := Mention(name, kind);
      MentionFoundIff(conv, rules, messages[k].value, f);
    } else if relation, other :| kind == SubjectType(relation)
                                 && SaidAt(conv, rules, messages, k, relation, name, other) {
      f := Prescribed(relation, name, other);
      RelationFoundIff(conv, rules, messages[k].value, f);
      assert FindingEntities(conv, rules, f, index)[0] == MakeEntity(conv, rules, name, kind, index);
    } else {
      var relation, other :| kind == ObjectType(relation)
                             && SaidAt(conv, rules, messages, k, relation, other, name);
      f := Prescribed(relation, other, name);
      RelationFoundIff(conv, rules, messages[k].value, f);
      assert FindingEntities(conv, rules, f, index)[1] == MakeEntity(conv, rules, name, kind, index);
    }
  }

  /** And every named entity is among them, under its id. */
  lemma NamedIsExtracted(
      conv: Conversation, rules: TextRules, messages: seq<Option<string>>, start: nat, k: nat, name: string,
      kind: EntityType)
    requires NamedAt(conv, rules, messages, k, name, kind)
    ensures EntityId(conv.id, kind, rules.normalize(rules.clean(name)))
            in EntityIds(Extract(conv, rules, messages, start).entities)
  {
    var f := NamedIsFound(conv, rules, messages, k, name, kind, start + k);
    MadeEntity(conv, rules, name, kind, start + k);
    EntityIsOffered(conv, rules, AllFindings(conv, rules, messages), start, k, f,
                    MakeEntity(conv, rules, name, kind, start + k));
  }

  // ---- refused records ---------------------------------------------------------------------------

  /** A record is refused for a name that is empty or longer than 256 characters, or an object that is
      empty or longer than 512. */
  lemma RecordsFitIff(g: Graph)
    ensures
      GraphFits(g)
      <==> && (forall e :: e in g.entities ==> 1 <= |e.name| <= 256 && 1 <= |e.normalized| <= 256)
           && (forall r :: r in g.relationships ==> 1 <= |r.subject| <= 256 && 1 <= |r.object_| <= 512)
  {
  }
}
