/** What each call on the token tables changes and what it leaves alone, row by row and in the
    columns of the tables: the WHERE clauses of the store, seen from one row. */
module TokenEffects {
  import opened Instants
  import opened Options
  import opened TokenTables

  // ---- codes -----------------------------------------------------------------------------------

  /** A code is consumed exactly when its own client presents it with its own redirect URI and the
      challenge it was issued for, unconsumed and by its day of expiry. */
  lemma CodeIsConsumedIff(
      t: Tables, now: nat, code: Secret, client: string, redirectUri: string, challenge: string)
    ensures
      ConsumeCode(t, now, code, client, redirectUri, challenge).1.Some?
      <==> && code in t.codes && t.codes[code].client == client && t.codes[code].redirectUri == redirectUri
           && t.codes[code].challenge == challenge && t.codes[code].consumedAt.None?
           && Day(now) <= Day(t.codes[code].expiresAt)
  {
  }

  /** Consumption spends that code, returns it as it was issued, and touches nothing else. */
  lemma ConsumingCodeChanges(
      t: Tables, now: nat, code: Secret, client: string, redirectUri: string, challenge: string)
    ensures
      var (after, record) := ConsumeCode(t, now, code, client, redirectUri, challenge);
      && after.access == t.access && after.refresh == t.refresh && after.deadFamilies == t.deadFamilies
      && (record.None? ==> after.codes == t.codes)
      && (record.Some? ==>
            && after.codes.Keys == t.codes.Keys
            && (forall other :: other in t.codes && other != code ==> after.codes[other] == t.codes[other])
            && code in t.codes && after.codes[code] == record.value && record.value.consumedAt == Some(now)
            && record.value == t.codes[code].(consumedAt := Some(now)))
  {
  }

  lemma CreatingCodeChanges(t: Tables, code: Secret, row: CodeRow)
    ensures CreateCode(t, code, row).Some? <==> code !in t.codes
    ensures code !in t.codes ==>
      var after := CreateCode(t, code, row).value;
      && code in after.codes && after.codes[code] == row
      && (forall other :: other in t.codes ==> other in after.codes && after.codes[other] == t.codes[other])
      && after.codes.Keys == t.codes.Keys + {code}
      && after.access == t.access && after.refresh == t.refresh && after.deadFamilies == t.deadFamilies
  {
  }

  // ---- refresh tokens --------------------------------------------------------------------------

  /** A refresh token is consumed exactly when it was neither consumed nor revoked, by its day of
      expiry; nothing else changes. */
  lemma TokenIsConsumedIff(t: Tables, now: nat, token: Secret)
    ensures
      var (after, record) := ConsumeRefresh(t, now, token);
      && (record.Some? <==> && token in t.refresh && t.refresh[token].consumedAt.None?
                            && t.refresh[token].revokedAt.None? && Day(now) <= Day(t.refresh[token].expiresAt))
      && after.codes == t.codes && after.access == t.access && after.deadFamilies == t.deadFamilies
      && after.refresh.Keys == t.refresh.Keys
      && (forall other :: other in t.refresh && other != token ==> after.refresh[other] == t.refresh[other])
      && (token in t.refresh ==>
            after.refresh[token]
            == if record.Some? then t.refresh[token].(consumedAt := Some(now)) else t.refresh[token])
      && (record.Some? ==> record.value == after.refresh[token])
  {
  }

  /** A new refresh token gets what it is created with. Only a dead family revokes it, and then the
      access token it comes with and no other. */
  lemma CreatingTokenChanges(
      t: Tables, now: nat, token: Secret, family: FamilyId, client: string, owner: string,
      scopes: set<string>, resource: string, id: Option<TokenId>, expiresAt: nat)
    ensures
      var created := CreateRefresh(t, now, token, family, client, owner, scopes, resource, id, expiresAt);
      && (created.Some? <==> token !in t.refresh)
      && (created.Some? ==>
            var after := created.value;
            && after.codes == t.codes && after.deadFamilies == t.deadFamilies
            && after.refresh.Keys == t.refresh.Keys + {token}
            && (forall other :: other in t.refresh ==> after.refresh[other] == t.refresh[other])
            && after.refresh[token].family == family && after.refresh[token].client == client
            && after.refresh[token].owner == owner && after.refresh[token].scopes == scopes
            && after.refresh[token].resource == resource && after.refresh[token].accessTokenId == id
            && after.refresh[token].expiresAt == expiresAt && after.refresh[token].consumedAt.None?
            && (after.refresh[token].revokedAt.Some? <==> family in t.deadFamilies)
            && after.access.Keys == t.access.Keys
            && forall other :: other in t.access ==>
                 after.access[other]
                 == if family in t.deadFamilies && id == Some(other)
                    then t.access[other].(revokedAt := Some(now)) else t.access[other])
  {
  }

  // ---- access tokens ---------------------------------------------------------------------------

  lemma CreatingAccessChanges(t: Tables, id: TokenId, owner: string, scopes: set<string>, expiresAt: nat)
    ensures
      var after := CreateAccess(t, id, owner, scopes, expiresAt);
      && after.codes == t.codes && after.refresh == t.refresh && after.deadFamilies == t.deadFamilies
      && after.access.Keys == t.access.Keys + {id}
      && (forall other :: other in t.access && other != id ==> after.access[other] == t.access[other])
      && after.access[id].owner == owner && after.access[id].scopes == scopes
      && after.access[id].expiresAt == expiresAt && after.access[id].revokedAt.None?
  {
  }

  lemma RevokingIdChanges(t: Tables, now: nat, id: TokenId)
    ensures
      var after := RevokeAccess(t, now, id);
      && after.codes == t.codes && after.refresh == t.refresh && after.deadFamilies == t.deadFamilies
      && after.access.Keys == t.access.Keys
      && forall other :: other in t.access ==>
           after.access[other] == if other == id then t.access[other].(revokedAt := Some(now)) else t.access[other]
  {
  }

  // ---- families --------------------------------------------------------------------------------

  /** A row of the family points at the access token. */
  ghost predicate LinkedIn(t: Tables, f: FamilyId, id: TokenId) {
    exists token :: token in t.refresh && t.refresh[token].family == f && t.refresh[token].accessTokenId == Some(id)
  }

  /** Revoking a family revokes the access tokens that its own rows point at, and no other. */
  lemma FamilyRevocationOfAccess(t: Tables, now: nat, f: FamilyId, id: TokenId)
    requires id in t.access
    ensures
      var after := RevokeFamily(t, now, f).0;
      && after.access.Keys == t.access.Keys
      && after.access[id] == if LinkedIn(t, f, id) then t.access[id].(revokedAt := Some(now)) else t.access[id]
  {
    if LinkedIn(t, f, id) {
      var token :| token in t.refresh && t.refresh[token].family == f && t.refresh[token].accessTokenId == Some(id);
      assert t.refresh[token].accessTokenId.value in LinkedIds(t.refresh, {f});
    }
  }

  /** In particular a token that only rows of other families point at stays as it is. */
  lemma OtherFamiliesKeepAccess(t: Tables, now: nat, f: FamilyId, id: TokenId)
    requires id in t.access
    requires forall token :: token in t.refresh && t.refresh[token].accessTokenId == Some(id) ==>
                               t.refresh[token].family != f
    ensures id in RevokeFamily(t, now, f).0.access && RevokeFamily(t, now, f).0.access[id] == t.access[id]
  {
    FamilyRevocationOfAccess(t, now, f, id);
  }

  /** Its rows are revoked, a row revoked before keeps its time, and the result says whether one
      was not. */
  lemma FamilyRevocationOfRows(t: Tables, now: nat, f: FamilyId)
    ensures
      var (after, changed) := RevokeFamily(t, now, f);
      && after.codes == t.codes && after.deadFamilies == t.deadFamilies + {f}
      && after.refresh.Keys == t.refresh.Keys
      && (forall token :: token in t.refresh ==>
            after.refresh[token]
            == if t.refresh[token].family == f && t.refresh[token].revokedAt.None?
               then t.refresh[token].(revokedAt := Some(now)) else t.refresh[token])
      && (changed <==> exists token :: token in t.refresh && t.refresh[token].family == f
                                       && t.refresh[token].revokedAt.None?)
  {
  }

  // ---- the authorization of an access token ----------------------------------------------------

  /** The two access tokens are linked by rows of one family. */
  ghost predicate SameAuthorization(t: Tables, presented: TokenId, id: TokenId) {
    exists a, b :: a in t.refresh && b in t.refresh && t.refresh[a].family == t.refresh[b].family
                   && t.refresh[a].accessTokenId == Some(presented) && t.refresh[b].accessTokenId == Some(id)
  }

  /** A row of the family points at the presented access token. */
  ghost predicate Authorizes(t: Tables, presented: TokenId, f: FamilyId) {
    exists token :: token in t.refresh && t.refresh[token].family == f
                    && t.refresh[token].accessTokenId == Some(presented)
  }

  /** Revocation by an access token does anything exactly when the token is stored and a refresh
      token points at it. */
  lemma AuthorizationFoundIff(t: Tables, now: nat, presented: TokenId)
    ensures
      RevokeAuthorization(t, now, presented).1
      <==> presented in t.access
           && exists token :: token in t.refresh && t.refresh[token].accessTokenId == Some(presented)
    ensures !RevokeAuthorization(t, now, presented).1 ==> RevokeAuthorization(t, now, presented).0 == t
  {
    if token :| token in t.refresh && t.refresh[token].accessTokenId == Some(presented) {
      assert t.refresh[token].family in FamiliesOf(t.refresh, presented);
    }
  }

  lemma LinkedMeansSameAuthorization(t: Tables, presented: TokenId, id: TokenId)
    ensures id in LinkedIds(t.refresh, FamiliesOf(t.refresh, presented)) <==> SameAuthorization(t, presented, id)
  {
    if a, b :| a in t.refresh && b in t.refresh && t.refresh[a].family == t.refresh[b].family
               && t.refresh[a].accessTokenId == Some(presented) && t.refresh[b].accessTokenId == Some(id) {
      assert t.refresh[a].family in FamiliesOf(t.refresh, presented);
      assert t.refresh[b].accessTokenId.value in LinkedIds(t.refresh, FamiliesOf(t.refresh, presented));
    }
  }

  /** Of the access tokens it revokes the presented one and those linked with it in one family, if
      they are live; every other one stays as it is. */
  lemma AuthorizationOfAccess(t: Tables, now: nat, presented: TokenId, id: TokenId)
    requires id in t.access && RevokeAuthorization(t, now, presented).1
    ensures
      var after := RevokeAuthorization(t, now, presented).0;
      && after.access.Keys == t.access.Keys
      && after.access[id]
         == if (id == presented || SameAuthorization(t, presented, id)) && t.access[id].revokedAt.None?
            then t.access[id].(revokedAt := Some(now)) else t.access[id]
  {
    LinkedMeansSameAuthorization(t, presented, id);
  }

  /** Of the refresh tokens it revokes those of a family that points at the presented one. */
  lemma AuthorizationOfRow(t: Tables, now: nat, presented: TokenId, token: Secret)
    requires token in t.refresh && RevokeAuthorization(t, now, presented).1
    ensures
      var after := RevokeAuthorization(t, now, presented).0;
      && after.codes == t.codes && after.deadFamilies == t.deadFamilies
      && after.refresh.Keys == t.refresh.Keys
      && after.refresh[token]
         == if Authorizes(t, presented, t.refresh[token].family) && t.refresh[token].revokedAt.None?
            then t.refresh[token].(revokedAt := Some(now)) else t.refresh[token]
  {
    if a :| a in t.refresh && t.refresh[a].family == t.refresh[token].family
            && t.refresh[a].accessTokenId == Some(presented) {
      assert t.refresh[a].family in FamiliesOf(t.refresh, presented);
    }
  }

  // ---- scopes ----------------------------------------------------------------------------------

  /** What is named is granted, blanks aside; naming nothing grants reading and writing. */
  lemma GrantedAsNamed(requested: set<string>, scope: string)
    ensures scope in GrantedScopes(requested)
       <==> || (scope in requested && scope != "")
            || (requested <= {""} && (scope == "memory:read" || scope == "memory:write"))
  {
    var named := requested - {""};
    if named == {} {
      forall x | x in requested ensures x == "" {
        assert x !in named;
      }
    }
    if scope in requested && scope != "" {
      assert scope in named;
    }
  }
}
