/** The authorization-code, access-token and refresh-token tables of the SQLite
    store, with one function per store method. A salted hash is injective, so a
    row is keyed by the secret itself. Access tokens carry their own unique
    `jti`, so their rows are keyed by that id. */
module TokenTables {
  import opened Instants
  import opened Options

  datatype Secret = Secret(text: string)
  datatype TokenId = TokenId(text: string)
  datatype FamilyId = FamilyId(text: string)

  const READ_SCOPE := "memory:read"
  const WRITE_SCOPE := "memory:write"

  datatype AccessRow = AccessRow(owner: string, scopes: set<string>, expiresAt: nat, revokedAt: Option<nat>)

  datatype RefreshRow = RefreshRow(
    family: FamilyId, client: string, owner: string, scopes: set<string>, resource: string,
    accessTokenId: Option<TokenId>, expiresAt: nat, consumedAt: Option<nat>, revokedAt: Option<nat>)

  /** `scope` holds the words of the stored scope string. */
  datatype CodeRow = CodeRow(
    client: string, owner: string, redirectUri: string, challenge: string, resource: string,
    scope: seq<string>, expiresAt: nat, consumedAt: Option<nat>)

  datatype Tables = Tables(
    codes: map<Secret, CodeRow>, access: map<TokenId, AccessRow>,
    refresh: map<Secret, RefreshRow>, deadFamilies: set<FamilyId>)

  const EmptyTables := Tables(map[], map[], map[], {})

  /** The set of scopes granted for a requested list: blank entries are dropped
      and an empty request means both default scopes. */
  function GrantedScopes(requested: set<string>): (granted: set<string>)
    ensures granted != {} && "" !in granted
  {
    var named := requested - {""};
    if named == {} then DefaultScopes() else named
  }

  function DefaultScopes(): (defaults: set<string>)
    ensures defaults != {} && "" !in defaults
  {
    assert READ_SCOPE in {READ_SCOPE, WRITE_SCOPE};
    {READ_SCOPE, WRITE_SCOPE}
  }

  function Words(scope: seq<string>): set<string> {
    set word | word in scope
  }

  /** Granting is stable: a grant that is carried through rotation never changes. */
  lemma GrantedScopesIdempotent(requested: set<string>)
    ensures GrantedScopes(GrantedScopes(requested)) == GrantedScopes(requested)
  {
    var granted := GrantedScopes(requested);
    assert granted - {""} == granted;
  }

  predicate Usable(row: RefreshRow) {
    row.consumedAt.None? && row.revokedAt.None?
  }

  // ---- one function per store method ---------------------------------------

  /** `create_oauth_authorization_code`: the primary key rejects a known code. */
  function CreateCode(t: Tables, code: Secret, row: CodeRow): Option<Tables> {
    if code in t.codes then None else Some(t.(codes := t.codes[code := row]))
  }

  /** A code is for this client, redirect URI and challenge, and was not consumed. */
  predicate Presentable(t: Tables, code: Secret, client: string, redirectUri: string, challenge: string) {
    && code in t.codes
    && t.codes[code].client == client
    && t.codes[code].redirectUri == redirectUri
    && t.codes[code].challenge == challenge
    && t.codes[code].consumedAt.None?
  }

  /** `consume_oauth_authorization_code` */
  function ConsumeCode(t: Tables, now: nat, code: Secret, client: string, redirectUri: string, challenge: string)
    : (Tables, Option<CodeRow>)
  {
    if Presentable(t, code, client, redirectUri, challenge) && OpenInSql(t.codes[code].expiresAt, now) then
      var row := t.codes[code].(consumedAt := Some(now));
      (t.(codes := t.codes[code := row]), Some(row))
    else (t, None)
  }

  /** `create_auth_token`: an existing row with the same token is reset, revocation included. */
  function CreateAccess(t: Tables, id: TokenId, owner: string, scopes: set<string>, expiresAt: nat): Tables {
    t.(access := t.access[id := AccessRow(owner, scopes, expiresAt, None)])
  }

  function RevokeIds(access: map<TokenId, AccessRow>, now: nat, ids: set<TokenId>): map<TokenId, AccessRow> {
    map id | id in access :: if id in ids then access[id].(revokedAt := Some(now)) else access[id]
  }

  /** As `RevokeIds`, but a row that is already revoked keeps its time. */
  function RevokeLiveIds(access: map<TokenId, AccessRow>, now: nat, ids: set<TokenId>): map<TokenId, AccessRow> {
    map id | id in access ::
      if id in ids && access[id].revokedAt.None? then access[id].(revokedAt := Some(now)) else access[id]
  }

  function RevokeFamilies(refresh: map<Secret, RefreshRow>, now: nat, families: set<FamilyId>)
    : map<Secret, RefreshRow>
  {
    map token | token in refresh ::
      if refresh[token].family in families && refresh[token].revokedAt.None?
      then refresh[token].(revokedAt := Some(now)) else refresh[token]
  }

  /** The access tokens that rows of the given families point at. */
  function LinkedIds(refresh: map<Secret, RefreshRow>, families: set<FamilyId>): set<TokenId> {
    set token | token in refresh && refresh[token].family in families && refresh[token].accessTokenId.Some?
      :: refresh[token].accessTokenId.value
  }

  /** The families with a row that points at the given access token. */
  function FamiliesOf(refresh: map<Secret, RefreshRow>, id: TokenId): set<FamilyId> {
    set token | token in refresh && refresh[token].accessTokenId == Some(id) :: refresh[token].family
  }

  /** `create_oauth_refresh_token`: a row born in a dead family is born revoked
      and takes its access token with it. The primary key rejects a known token. */
  function CreateRefresh(
      t: Tables, now: nat, token: Secret, family: FamilyId, client: string, owner: string,
      scopes: set<string>, resource: string, accessTokenId: Option<TokenId>, expiresAt: nat)
    : Option<Tables>
  {
    if token in t.refresh then None
    else
      var dead := family in t.deadFamilies;
      var row := RefreshRow(family, client, owner, scopes, resource, accessTokenId, expiresAt, None,
                            if dead then Some(now) else None);
      Some(t.(refresh := t.refresh[token := row],
              access := if dead && accessTokenId.Some?
                        then RevokeIds(t.access, now, {accessTokenId.value}) else t.access))
  }

  /** `oauth_refresh_token` */
  function LookupRefresh(t: Tables, token: Secret): Option<RefreshRow> {
    if token in t.refresh then Some(t.refresh[token]) else None
  }

  /** `consume_oauth_refresh_token` */
  function ConsumeRefresh(t: Tables, now: nat, token: Secret): (Tables, Option<RefreshRow>) {
    if token in t.refresh && Usable(t.refresh[token]) && OpenInSql(t.refresh[token].expiresAt, now) then
      var row := t.refresh[token].(consumedAt := Some(now));
      (t.(refresh := t.refresh[token := row]), Some(row))
    else (t, None)
  }

  /** `revoke_oauth_refresh_token_family`; the flag says whether a row changed. */
  function RevokeFamily(t: Tables, now: nat, family: FamilyId): (Tables, bool) {
    (t.(deadFamilies := t.deadFamilies + {family},
        access := RevokeIds(t.access, now, LinkedIds(t.refresh, {family})),
        refresh := RevokeFamilies(t.refresh, now, {family})),
     exists token :: token in t.refresh && t.refresh[token].family == family && t.refresh[token].revokedAt.None?)
  }

  /** `revoke_auth_token` */
  function RevokeAccess(t: Tables, now: nat, id: TokenId): Tables {
    t.(access := RevokeIds(t.access, now, {id}))
  }

  /** `revoke_oauth_authorization_for_access_token` */
  function RevokeAuthorization(t: Tables, now: nat, id: TokenId): (Tables, bool) {
    var families := FamiliesOf(t.refresh, id);
    if id !in t.access || families == {} then (t, false)
    else
      (t.(access := RevokeLiveIds(t.access, now, {id} + LinkedIds(t.refresh, families)),
          refresh := RevokeFamilies(t.refresh, now, families)),
       true)
  }

  /** The same, called with a text: `row` is the access token whose stored hash the text has. */
  function RevokeAuthorizationOf(t: Tables, now: nat, row: Option<TokenId>): (Tables, bool) {
    if row.None? then (t, false) else RevokeAuthorization(t, now, row.value)
  }

  // ---- consumption after expiry ----------------------------------------------------------

  /** An expired code is still redeemed exactly on the day of its expiry; an unexpired one always is. */
  lemma ExpiredCodeIsConsumedIffSameDay(
      t: Tables, now: nat, code: Secret, client: string, redirectUri: string, challenge: string)
    requires Presentable(t, code, client, redirectUri, challenge)
    ensures ConsumeCode(t, now, code, client, redirectUri, challenge).1.Some?
       <==> t.codes[code].expiresAt > now || Day(t.codes[code].expiresAt) == Day(now)
  {
    OpenPastExpiryIffSameDay(t.codes[code].expiresAt, now);
  }

  /** The same for a refresh token at its consumption. */
  lemma ExpiredTokenIsConsumedIffSameDay(t: Tables, now: nat, token: Secret)
    requires token in t.refresh && Usable(t.refresh[token])
    ensures ConsumeRefresh(t, now, token).1.Some?
       <==> t.refresh[token].expiresAt > now || Day(t.refresh[token].expiresAt) == Day(now)
  {
    OpenPastExpiryIffSameDay(t.refresh[token].expiresAt, now);
  }

  /** A code for five minutes, made at ten o'clock, is redeemed at noon. */
  lemma CodeRedeemedHoursLate(t: Tables, code: Secret, row: CodeRow)
    requires code !in t.codes && row.consumedAt.None? && row.expiresAt == 10 * 3600 + 300
    ensures CreateCode(t, code, row).Some?
    ensures
      var after := CreateCode(t, code, row).value;
      ConsumeCode(after, 12 * 3600, code, row.client, row.redirectUri, row.challenge).1.Some?
  {
    ExpiredCodeIsConsumedIffSameDay(CreateCode(t, code, row).value, 12 * 3600, code, row.client, row.redirectUri,
                                    row.challenge);
  }

  // ---- what the two revocation paths guarantee ------------------------------

  predicate AccessRevoked(t: Tables, id: TokenId) {
    id in t.access ==> t.access[id].revokedAt.Some?
  }

  /** Every row of the family is revoked, and so is every access token such a row points at. */
  ghost predicate FamilyRevoked(t: Tables, family: FamilyId) {
    forall token :: token in t.refresh && t.refresh[token].family == family ==>
      && t.refresh[token].revokedAt.Some?
      && (t.refresh[token].accessTokenId.Some? ==> AccessRevoked(t, t.refresh[token].accessTokenId.value))
  }

  /** Revocation by an access token closes over the rows present at that moment. */
  lemma RevokeAuthorizationCloses(t: Tables, now: nat, id: TokenId, token: Secret)
    requires id in t.access && token in t.refresh && t.refresh[token].accessTokenId == Some(id)
    ensures RevokeAuthorization(t, now, id).1
    ensures FamilyRevoked(RevokeAuthorization(t, now, id).0, t.refresh[token].family)
    ensures AccessRevoked(RevokeAuthorization(t, now, id).0, id)
    ensures RevokeAuthorization(t, now, id).0.deadFamilies == t.deadFamilies
  {
    var family := t.refresh[token].family;
    var families := FamiliesOf(t.refresh, id);
    assert family in families;
    forall other | other in t.refresh && t.refresh[other].family == family && t.refresh[other].accessTokenId.Some?
      ensures t.refresh[other].accessTokenId.value in LinkedIds(t.refresh, families)
    {
    }
  }

  /** A row added after a revocation is born revoked exactly when the family was
      tombstoned. The path by access token writes no tombstone, so it does not
      reach a rotation that is still in flight. */
  lemma LateRowIsRevokedIffTombstoned(
      t: Tables, now: nat, token: Secret, family: FamilyId, client: string, owner: string,
      scopes: set<string>, resource: string, id: TokenId, expiresAt: nat)
    requires token !in t.refresh && FamilyRevoked(t, family) && id in t.access && t.access[id].revokedAt.None?
    ensures CreateRefresh(t, now, token, family, client, owner, scopes, resource, Some(id), expiresAt).Some?
    ensures
      var after := CreateRefresh(t, now, token, family, client, owner, scopes, resource, Some(id), expiresAt).value;
      && (FamilyRevoked(after, family) <==> family in t.deadFamilies)
      && (AccessRevoked(after, id) <==> family in t.deadFamilies)
  {
    var after := CreateRefresh(t, now, token, family, client, owner, scopes, resource, Some(id), expiresAt).value;
    assert token in after.refresh && after.refresh[token].family == family;
  }

  /** Family revocation kills the family in the table and leaves every other family alone. */
  lemma RevokeFamilyKills(t: Tables, now: nat, family: FamilyId)
    ensures FamilyRevoked(RevokeFamily(t, now, family).0, family)
    ensures family in RevokeFamily(t, now, family).0.deadFamilies
    ensures forall token :: token in t.refresh && t.refresh[token].family != family ==>
              token in RevokeFamily(t, now, family).0.refresh
              && RevokeFamily(t, now, family).0.refresh[token] == t.refresh[token]
  {
    forall token | token in t.refresh && t.refresh[token].family == family && t.refresh[token].accessTokenId.Some?
      ensures t.refresh[token].accessTokenId.value in LinkedIds(t.refresh, {family})
    {
    }
  }
}
