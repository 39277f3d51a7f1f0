/** What every step of the token protocol keeps. */
module OAuthInvariant {
  import opened Options
  import opened TokenTables
  import opened OAuthProtocol

  ghost predicate Distinct(chain: seq<Secret>) {
    forall i, j :: 0 <= i < j < |chain| ==> chain[i] != chain[j]
  }

  function Last(family: Family): Secret
    requires family.chain != []
  {
    family.chain[|family.chain| - 1]
  }

  /** A refresh row belongs to a known family, has its identity, and is linked to an access token issued in it. */
  ghost predicate RowOk(s: System, token: Secret)
    requires token in s.tables.refresh
  {
    var row := s.tables.refresh[token];
    && row.family in s.families
    && token in s.families[row.family].chain
    && IdentityOfRow(row) == s.families[row.family].identity
    && row.accessTokenId.Some?
    && row.accessTokenId.value in s.tables.access
    && row.accessTokenId.value in s.issuedIn
    && s.issuedIn[row.accessTokenId.value] == row.family
  }

  /** The rows of a family form one chain: distinct, and only the newest can be unconsumed. */
  ghost predicate ChainOk(refresh: map<Secret, RefreshRow>, f: FamilyId, chain: seq<Secret>) {
    && chain != []
    && Distinct(chain)
    && (forall i :: 0 <= i < |chain| ==> chain[i] in refresh && refresh[chain[i]].family == f)
    && (forall i :: 0 <= i < |chain| - 1 ==> refresh[chain[i]].consumedAt.Some?)
  }

  ghost predicate FamilyOk(s: System, f: FamilyId)
    requires f in s.families
  {
    var family := s.families[f];
    && GrantedScopes(family.identity.scopes) == family.identity.scopes
    && ChainOk(s.tables.refresh, f, family.chain)
    && CodeSpent(s, family.code)
    && IdentityOfCode(s.tables.codes[family.code]) == family.identity
  }

  predicate CodeSpent(s: System, code: Secret) {
    code in s.tables.codes && s.tables.codes[code].consumedAt.Some?
  }

  ghost predicate OriginOk(s: System, g: Grant) {
    match g.origin
    case FromCode(code) =>
      && CodeSpent(s, code)
      && IdentityOfCode(s.tables.codes[code]) == g.identity
      && forall f :: f in s.families ==> s.families[f].code != code
    case FromRefresh(token, f) =>
      && f in s.families
      && g.identity == s.families[f].identity
      && s.families[f].chain != []
      && token == Last(s.families[f])
      && token in s.tables.refresh
      && s.tables.refresh[token].consumedAt.Some?
  }

  predicate AccessMatches(s: System, id: TokenId, identity: Identity) {
    && id in s.tables.access
    && s.tables.access[id].owner == identity.owner
    && s.tables.access[id].scopes == identity.scopes
  }

  ghost predicate PhaseOk(s: System, p: Phase) {
    match p
    case Consume(token, record) =>
      && token in s.tables.refresh
      && record.family == s.tables.refresh[token].family
      && IdentityOfRow(record) == IdentityOfRow(s.tables.refresh[token])
    case IssueAccess(g) => OriginOk(s, g)
    case IssueRefresh(g, id) =>
      && OriginOk(s, g)
      && AccessMatches(s, id, g.identity)
      && (g.origin.FromRefresh? ==> id in s.issuedIn && s.issuedIn[id] == g.origin.family)
      && (g.origin.FromCode? ==> id !in s.issuedIn)
    case _ => true
  }

  ghost predicate Exclusive(s: System) {
    forall r1, r2 :: r1 in s.requests && r2 in s.requests && r1 != r2
                     && Holding(s.requests[r1]) && Holding(s.requests[r2])
                     ==> s.requests[r1].grant.origin != s.requests[r2].grant.origin
  }

  ghost predicate OneFamilyPerCode(s: System) {
    forall f1, f2 :: f1 in s.families && f2 in s.families && f1 != f2 ==> s.families[f1].code != s.families[f2].code
  }

  /** An issued access token is accounted for by the request that created it: still
      held, linked to the refresh row it was answered with, revoked, or lost with
      a request that died holding it. */
  predicate Accounted(s: System, id: TokenId)
    requires id in s.issuedBy
  {
    var r := s.issuedBy[id];
    && id in s.tables.access
    && r in s.requests
    && (match s.requests[r]
        case IssueRefresh(_, held) => held == id
        case Compensate(held) => held == id
        case Issued(_, linked, token) =>
          linked == id && token in s.tables.refresh && s.tables.refresh[token].accessTokenId == Some(id)
        case Rejected => s.tables.access[id].revokedAt.Some?
        case Aborted(held) => held == Some(id)
        case _ => false)
  }

  ghost predicate Bookkeeping(s: System) {
    && s.issuedIn.Keys <= s.issuedBy.Keys
    && (forall id :: id in s.issuedBy ==> Accounted(s, id))
    && (forall r :: r in s.requests && (s.requests[r].IssueRefresh? || s.requests[r].Issued?) ==>
          s.requests[r].accessId in s.issuedBy && s.issuedBy[s.requests[r].accessId] == r)
  }

  /** What the k-th token of a family was exchanged for: the code, then each predecessor. */
  function ExpectedOrigin(f: FamilyId, family: Family, k: nat): Origin
    requires k < |family.chain|
  {
    if k == 0 then FromCode(family.code) else FromRefresh(family.chain[k - 1], f)
  }

  /** The refresh row is the answer of the request that issued its access token. */
  predicate IssuedFor(s: System, token: Secret, origin: Origin) {
    && token in s.tables.refresh
    && s.tables.refresh[token].accessTokenId.Some?
    && s.tables.refresh[token].accessTokenId.value in s.issuedBy
    && var id := s.tables.refresh[token].accessTokenId.value;
       var r := s.issuedBy[id];
       && r in s.requests
       && s.requests[r].Issued?
       && s.requests[r].accessId == id
       && s.requests[r].refreshToken == token
       && s.requests[r].grant.origin == origin
  }

  /** The k-th token of the family answered the presentation of what comes before it. */
  predicate LinkAt(s: System, f: FamilyId, k: nat)
    requires f in s.families && k < |s.families[f].chain|
  {
    IssuedFor(s, s.families[f].chain[k], ExpectedOrigin(f, s.families[f], k))
  }

  ghost predicate LinksOk(s: System) {
    forall f, k :: f in s.families && 0 <= k < |s.families[f].chain| ==> LinkAt(s, f, k)
  }

  ghost predicate IssuedOk(s: System, id: TokenId)
    requires id in s.issuedIn
  {
    s.issuedIn[id] in s.families && AccessMatches(s, id, s.families[s.issuedIn[id]].identity)
  }

  ghost predicate RowsOk(s: System) {
    forall token :: token in s.tables.refresh ==> RowOk(s, token)
  }

  ghost predicate FamiliesOk(s: System) {
    forall f :: f in s.families ==> FamilyOk(s, f)
  }

  ghost predicate DeadOk(t: Tables) {
    forall f :: f in t.deadFamilies ==> FamilyRevoked(t, f)
  }

  ghost predicate PhasesOk(s: System) {
    forall r :: r in s.requests ==> PhaseOk(s, s.requests[r])
  }

  ghost predicate IssuesOk(s: System) {
    forall id :: id in s.issuedIn ==> IssuedOk(s, id)
  }

  ghost predicate Inv(s: System) {
    && RowsOk(s)
    && FamiliesOk(s)
    && DeadOk(s.tables)
    && PhasesOk(s)
    && IssuesOk(s)
    && Exclusive(s)
    && OneFamilyPerCode(s)
    && Bookkeeping(s)
    && LinksOk(s)
  }

  // ---- nothing is ever taken back ---------------------------------------------

  ghost predicate CodesGrow(c1: map<Secret, CodeRow>, c2: map<Secret, CodeRow>) {
    forall code :: code in c1 ==>
      && code in c2
      && IdentityOfCode(c2[code]) == IdentityOfCode(c1[code])
      && (c1[code].consumedAt.Some? ==> c2[code].consumedAt.Some?)
  }

  ghost predicate AccessGrows(a1: map<TokenId, AccessRow>, a2: map<TokenId, AccessRow>) {
    forall id :: id in a1 ==>
      && id in a2
      && a2[id].owner == a1[id].owner
      && a2[id].scopes == a1[id].scopes
      && (a1[id].revokedAt.Some? ==> a2[id].revokedAt.Some?)
  }

  ghost predicate RefreshGrows(r1: map<Secret, RefreshRow>, r2: map<Secret, RefreshRow>) {
    forall token :: token in r1 ==>
      && token in r2
      && r2[token].family == r1[token].family
      && IdentityOfRow(r2[token]) == IdentityOfRow(r1[token])
      && r2[token].accessTokenId == r1[token].accessTokenId
      && r2[token].expiresAt == r1[token].expiresAt
      && (r1[token].consumedAt.Some? ==> r2[token].consumedAt.Some?)
      && (r1[token].revokedAt.Some? ==> r2[token].revokedAt.Some?)
  }

  ghost predicate FamiliesGrow(f1: map<FamilyId, Family>, f2: map<FamilyId, Family>) {
    forall f :: f in f1 ==>
      && f in f2
      && f2[f].identity == f1[f].identity
      && f2[f].code == f1[f].code
      && f1[f].chain <= f2[f].chain
  }

  ghost predicate IssuedGrows(i1: map<TokenId, FamilyId>, i2: map<TokenId, FamilyId>) {
    forall id :: id in i1 ==> id in i2 && i2[id] == i1[id]
  }

  /** Rows keep their identity, marks are never cleared, tombstones stay. */
  ghost predicate Grows(s1: System, s2: System) {
    && CodesGrow(s1.tables.codes, s2.tables.codes)
    && AccessGrows(s1.tables.access, s2.tables.access)
    && RefreshGrows(s1.tables.refresh, s2.tables.refresh)
    && FamiliesGrow(s1.families, s2.families)
    && IssuedGrows(s1.issuedIn, s2.issuedIn)
    && s1.tables.deadFamilies <= s2.tables.deadFamilies
  }

  lemma RowStable(s1: System, s2: System, token: Secret)
    requires Grows(s1, s2) && token in s1.tables.refresh && RowOk(s1, token)
    ensures RowOk(s2, token)
  {
  }

  lemma ChainStable(r1: map<Secret, RefreshRow>, r2: map<Secret, RefreshRow>, f: FamilyId, chain: seq<Secret>)
    requires RefreshGrows(r1, r2) && ChainOk(r1, f, chain)
    ensures ChainOk(r2, f, chain)
  {
  }

  lemma FamilyStable(s1: System, s2: System, f: FamilyId)
    requires Grows(s1, s2) && f in s1.families && FamilyOk(s1, f)
    requires s2.families[f] == s1.families[f]
    ensures FamilyOk(s2, f)
  {
    ChainStable(s1.tables.refresh, s2.tables.refresh, f, s1.families[f].chain);
  }

  lemma IssuedStable(s1: System, s2: System, id: TokenId)
    requires Grows(s1, s2) && id in s1.issuedIn && IssuedOk(s1, id)
    ensures IssuedOk(s2, id)
  {
  }

  lemma OriginStable(s1: System, s2: System, g: Grant)
    requires Grows(s1, s2) && OriginOk(s1, g)
    requires g.origin.FromRefresh? ==> s2.families[g.origin.family] == s1.families[g.origin.family]
    requires g.origin.FromCode? ==>
               forall f :: f in s2.families && f !in s1.families ==> s2.families[f].code != g.origin.code
    ensures OriginOk(s2, g)
  {
    if g.origin.FromCode? {
      forall f | f in s2.families ensures s2.families[f].code != g.origin.code {
        if f in s1.families {
          assert s2.families[f].code == s1.families[f].code;
        }
      }
    }
  }

  lemma PhaseStable(s1: System, s2: System, p: Phase)
    requires Grows(s1, s2) && PhaseOk(s1, p)
    requires Holding(p) ==> OriginOk(s2, p.grant)
    requires p.IssueRefresh? && p.grant.origin.FromCode? ==> p.accessId !in s2.issuedIn
    ensures PhaseOk(s2, p)
  {
  }

  lemma AccountedStable(s1: System, s2: System, id: TokenId)
    requires Grows(s1, s2) && id in s1.issuedBy && Accounted(s1, id)
    requires id in s2.issuedBy && s2.issuedBy[id] == s1.issuedBy[id]
    requires s1.issuedBy[id] in s2.requests && s2.requests[s1.issuedBy[id]] == s1.requests[s1.issuedBy[id]]
    ensures Accounted(s2, id)
  {
  }
}
