/** The token endpoint and the revocation endpoint as processes over the token
    tables. One step of a process is one store call; any other process, and the
    clock, may move between two steps. */
module OAuthProtocol {
  import opened Options
  import opened TokenTables

  type RequestId = nat

  /** What a token family stands for; a rotation carries it on unchanged. */
  datatype Identity = Identity(client: string, owner: string, scopes: set<string>, resource: string)

  function IdentityOfRow(row: RefreshRow): Identity {
    Identity(row.client, row.owner, row.scopes, row.resource)
  }

  function IdentityOfCode(row: CodeRow): Identity {
    Identity(row.client, row.owner, GrantedScopes(Words(row.scope)), row.resource)
  }

  datatype Origin =
    | FromCode(code: Secret)
    | FromRefresh(token: Secret, family: FamilyId)

  datatype Grant = Grant(identity: Identity, origin: Origin)

  /** What the revocation endpoint reads out of a text: `row`, the access token whose stored hash is
      the text's, if any, and `jti`, the token id that the text claims without any check. The two
      agree for a token that was issued; a forged one has no row. */
  datatype Presented = Presented(row: Option<TokenId>, jti: Option<TokenId>)

  /** Where a request stands: the store call it makes next, or how it ended. */
  datatype Phase =
    // grant_type=refresh_token
    | Lookup(token: Secret, client: string)
    | Consume(token: Secret, record: RefreshRow)
    | RevokeReplay(family: FamilyId)
    // grant_type=authorization_code
    | Redeem(code: Secret, codeClient: string, redirectUri: string, challenge: string)
    // issuing, for both grant types
    | IssueAccess(grant: Grant)
    | IssueRefresh(grant: Grant, accessId: TokenId)
    | Compensate(accessId: TokenId)
    // revocation endpoint
    | RevokeLookup(token: Secret, presented: Presented)
    | RevokeFound(family: FamilyId, presented: Presented)
    | RevokeByAccess(presented: Presented)
    | RevokeById(accessId: TokenId)
    // endings
    | Issued(grant: Grant, accessId: TokenId, refreshToken: Secret)
    | Rejected
    | Answered
    | Aborted(held: Option<TokenId>)

  predicate Initial(p: Phase) {
    p.Lookup? || p.Redeem? || p.RevokeLookup?
  }

  predicate Ended(p: Phase) {
    p.Issued? || p.Rejected? || p.Answered? || p.Aborted?
  }

  /** A request that took a code or a refresh token out and has not created the successor. */
  predicate Holding(p: Phase) {
    p.IssueAccess? || p.IssueRefresh?
  }

  function HeldAccess(p: Phase): Option<TokenId> {
    if p.IssueRefresh? || p.Compensate? then Some(p.accessId) else None
  }

  /** History of a family: the code that started it and its refresh tokens, oldest first. */
  datatype Family = Family(identity: Identity, code: Secret, chain: seq<Secret>)

  /** `families`, `issuedBy` and `issuedIn` are history: no step reads them to decide anything
      but the freshness of new names. */
  datatype System = System(
    now: nat, tables: Tables, requests: map<RequestId, Phase>,
    families: map<FamilyId, Family>, issuedBy: map<TokenId, RequestId>, issuedIn: map<TokenId, FamilyId>)

  /** The random values a step draws. */
  datatype Draw = Draw(access: TokenId, refresh: Secret, family: FamilyId, expiresAt: nat)

  datatype Action =
    | Tick(elapsed: nat)
    | Authorize(code: Secret, row: CodeRow)
    | Start(rid: RequestId, phase: Phase)
    | Advance(rid: RequestId, draw: Draw)
    | CreationFails(rid: RequestId)
    | Abort(rid: RequestId)

  const InitialSystem := System(0, EmptyTables, map[], map[], map[], map[])

  /** Random values are new, and what is created expires in the future. */
  predicate Fresh(s: System, d: Draw) {
    && d.access !in s.tables.access
    && d.access !in s.issuedBy
    && d.access !in s.issuedIn
    && d.refresh !in s.tables.refresh
    && d.family !in s.families
    && d.family !in s.tables.deadFamilies
    && d.expiresAt > s.now
  }

  predicate Enabled(s: System, a: Action) {
    match a
    case Tick(_) => true
    case Authorize(code, row) => code !in s.tables.codes && row.consumedAt.None? && row.expiresAt > s.now
    case Start(rid, phase) => rid !in s.requests && Initial(phase)
    case Advance(rid, draw) => rid in s.requests && !Ended(s.requests[rid]) && Fresh(s, draw)
    case CreationFails(rid) => rid in s.requests && s.requests[rid].IssueRefresh?
    case Abort(rid) => rid in s.requests && !Ended(s.requests[rid])
  }

  /** The action is a step of the request itself. */
  predicate Own(rid: RequestId, a: Action) {
    (a.Advance? || a.CreationFails? || a.Abort?) && a.rid == rid
  }

  /** Only the one request moves. */
  predicate OthersStay(s1: System, s2: System, rid: RequestId) {
    && rid in s2.requests
    && s2.requests == s1.requests[rid := s2.requests[rid]]
  }

  function Move(s: System, rid: RequestId, phase: Phase): System {
    s.(requests := s.requests[rid := phase])
  }

  function Apply(s: System, a: Action): System
    requires Enabled(s, a)
  {
    match a
    case Tick(elapsed) => s.(now := s.now + elapsed)
    case Authorize(code, row) => s.(tables := CreateCode(s.tables, code, row).value)
    case Start(rid, phase) => Move(s, rid, phase)
    case Advance(rid, draw) => Advanced(s, rid, draw)
    case CreationFails(rid) => Move(s, rid, Compensate(s.requests[rid].accessId))
    case Abort(rid) => Move(s, rid, Aborted(HeldAccess(s.requests[rid])))
  }

  function Advanced(s: System, rid: RequestId, draw: Draw): (s2: System)
    requires rid in s.requests && !Ended(s.requests[rid]) && Fresh(s, draw)
    ensures OthersStay(s, s2, rid)
  {
    match s.requests[rid]
    case Lookup(token, client) => Move(s, rid, AfterLookup(s, token, client))
    case Consume(token, record) => StepConsume(s, rid, token, record)
    case RevokeReplay(family) => Move(s.(tables := RevokeFamily(s.tables, s.now, family).0), rid, Rejected)
    case Redeem(code, client, redirectUri, challenge) => StepRedeem(s, rid, code, client, redirectUri, challenge)
    case IssueAccess(grant) => StepIssueAccess(s, rid, grant, draw)
    case IssueRefresh(grant, id) => StepIssueRefresh(s, rid, grant, id, draw)
    case Compensate(id) => Move(s.(tables := RevokeAccess(s.tables, s.now, id)), rid, Rejected)
    case RevokeLookup(token, presented) =>
      Move(s, rid, if token in s.tables.refresh then RevokeFound(s.tables.refresh[token].family, presented)
                   else RevokeByAccess(presented))
    case RevokeFound(family, presented) =>
      var (tables, changed) := RevokeFamily(s.tables, s.now, family);
      Move(s.(tables := tables), rid, if changed then Answered else RevokeByAccess(presented))
    case RevokeByAccess(presented) =>
      var (tables, found) := RevokeAuthorizationOf(s.tables, s.now, presented.row);
      Move(s.(tables := tables), rid, if found then Answered else LastResort(presented))
    case RevokeById(id) => Move(s.(tables := RevokeAccess(s.tables, s.now, id)), rid, Answered)
  }

  /** The revocation endpoint's last attempt, when the text claims a token id. */
  function LastResort(presented: Presented): Phase {
    if presented.jti.Some? then RevokeById(presented.jti.value) else Answered
  }

  /** The checks made on the record that the lookup returned. */
  function AfterLookup(s: System, token: Secret, client: string): Phase {
    var found := LookupRefresh(s.tables, token);
    if found.None? || found.value.client != client then Rejected
    else if !Usable(found.value) then RevokeReplay(found.value.family)
    else if found.value.expiresAt <= s.now then Rejected
    else Consume(token, found.value)
  }

  /** The grant is built from the looked-up record, with its scopes normalized again. */
  function StepConsume(s: System, rid: RequestId, token: Secret, record: RefreshRow): (s2: System)
    ensures OthersStay(s, s2, rid)
  {
    var (tables, consumed) := ConsumeRefresh(s.tables, s.now, token);
    var s1 := s.(tables := tables);
    if consumed.None? then Move(s1, rid, RevokeReplay(record.family))
    else
      var identity := IdentityOfRow(record).(scopes := GrantedScopes(record.scopes));
      Move(s1, rid, IssueAccess(Grant(identity, FromRefresh(token, record.family))))
  }

  function StepRedeem(
      s: System, rid: RequestId, code: Secret, client: string, redirectUri: string, challenge: string)
    : (s2: System)
    ensures OthersStay(s, s2, rid)
  {
    var (tables, consumed) := ConsumeCode(s.tables, s.now, code, client, redirectUri, challenge);
    var s1 := s.(tables := tables);
    if consumed.None? then Move(s1, rid, Rejected)
    else Move(s1, rid, IssueAccess(Grant(IdentityOfCode(consumed.value), FromCode(code))))
  }

  function StepIssueAccess(s: System, rid: RequestId, grant: Grant, draw: Draw): (s2: System)
    ensures OthersStay(s, s2, rid)
  {
    var id := draw.access;
    var s1 := s.(
      tables := CreateAccess(s.tables, id, grant.identity.owner, grant.identity.scopes, draw.expiresAt),
      issuedBy := s.issuedBy[id := rid],
      issuedIn := if grant.origin.FromRefresh? then s.issuedIn[id := grant.origin.family] else s.issuedIn);
    Move(s1, rid, IssueRefresh(grant, id))
  }

  /** The family a grant's refresh token goes to: its own, or a new one. */
  function TargetFamily(grant: Grant, fresh_: FamilyId): FamilyId {
    if grant.origin.FromRefresh? then grant.origin.family else fresh_
  }

  /** A code grant opens a new family here; a refresh grant extends its own. */
  function StepIssueRefresh(s: System, rid: RequestId, grant: Grant, id: TokenId, draw: Draw): (s2: System)
    requires Fresh(s, draw)
    ensures OthersStay(s, s2, rid)
  {
    var who := grant.identity;
    var family := TargetFamily(grant, draw.family);
    var tables := CreateRefresh(s.tables, s.now, draw.refresh, family, who.client, who.owner, who.scopes,
                                who.resource, Some(id), draw.expiresAt).value;
    var history :=
      match grant.origin
      case FromCode(code) => Family(who, code, [draw.refresh])
      case FromRefresh(_, f) =>
        if f in s.families then s.families[f].(chain := s.families[f].chain + [draw.refresh])
        else Family(who, draw.refresh, [draw.refresh]);
    var s1 := s.(tables := tables, families := s.families[family := history],
                 issuedIn := s.issuedIn[id := family]);
    Move(s1, rid, Issued(grant, id, draw.refresh))
  }

  /** A run: states[0] is the empty system and every action leads to the next state. */
  ghost predicate IsRun(states: seq<System>, actions: seq<Action>) {
    && |states| == |actions| + 1
    && states[0] == InitialSystem
    && forall i {:trigger actions[i]} :: 0 <= i < |actions| ==>
         Enabled(states[i], actions[i]) && states[i + 1] == Apply(states[i], actions[i])
  }
}
