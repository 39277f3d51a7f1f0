/** The token methods of the SQLite store as an object that updates its tables
    statement by statement. Every method is tied to the table function of the
    same name, which the protocol uses as its atomic step. */
module TokenStore {
  import opened Instants
  import opened Options
  import opened TokenTables

  class SQLiteTokenStore {
    var codes: map<Secret, CodeRow>
    var access: map<TokenId, AccessRow>
    var refresh: map<Secret, RefreshRow>
    var deadFamilies: set<FamilyId>

    function Contents(): Tables
      reads this
    {
      Tables(codes, access, refresh, deadFamilies)
    }

    constructor ()
      ensures Contents() == EmptyTables
    {
      codes, access, refresh, deadFamilies := map[], map[], map[], {};
    }

    method CreateAuthorizationCode(code: Secret, row: CodeRow) returns (ok: bool)
      modifies this
      ensures ok <==> CreateCode(old(Contents()), code, row).Some?
      ensures Contents() == if ok then CreateCode(old(Contents()), code, row).value else old(Contents())
    {
      ok := code !in codes;
      if ok {
        codes := codes[code := row];
      }
    }

    method ConsumeAuthorizationCode(now: nat, code: Secret, client: string, redirectUri: string, challenge: string)
      returns (record: Option<CodeRow>)
      modifies this
      ensures (Contents(), record) == ConsumeCode(old(Contents()), now, code, client, redirectUri, challenge)
    {
      record := None;
      if code in codes {
        var row := codes[code];
        if row.client == client && row.redirectUri == redirectUri && row.challenge == challenge
           && row.consumedAt.None? && OpenInSql(row.expiresAt, now) {
          record := Some(row.(consumedAt := Some(now)));
          codes := codes[code := record.value];
        }
      }
    }

    method CreateAuthToken(id: TokenId, owner: string, scopes: set<string>, expiresAt: nat)
      modifies this
      ensures Contents() == CreateAccess(old(Contents()), id, owner, scopes, expiresAt)
    {
      if id in access {
        access := access[id := access[id].(owner := owner, scopes := scopes, expiresAt := expiresAt,
                                           revokedAt := None)];
      } else {
        access := access[id := AccessRow(owner, scopes, expiresAt, None)];
      }
    }

    method CreateOAuthRefreshToken(
        now: nat, token: Secret, family: FamilyId, client: string, owner: string,
        scopes: set<string>, resource: string, accessTokenId: Option<TokenId>, expiresAt: nat)
      returns (ok: bool)
      modifies this
      ensures
        var created := CreateRefresh(old(Contents()), now, token, family, client, owner, scopes, resource,
                                     accessTokenId, expiresAt);
        && (ok <==> created.Some?)
        && Contents() == if ok then created.value else old(Contents())
    {
      var familyRevoked := family in deadFamilies;
      ok := token !in refresh;
      if !ok {
        return;
      }
      refresh := refresh[token := RefreshRow(family, client, owner, scopes, resource, accessTokenId, expiresAt, None,
                                             if familyRevoked then Some(now) else None)];
      if familyRevoked && accessTokenId.Some? {
        access := RevokeIds(access, now, {accessTokenId.value});
      }
    }

    method OAuthRefreshToken(token: Secret) returns (record: Option<RefreshRow>)
      ensures record == LookupRefresh(Contents(), token)
    {
      record := if token in refresh then Some(refresh[token]) else None;
    }

    method ConsumeOAuthRefreshToken(now: nat, token: Secret) returns (record: Option<RefreshRow>)
      modifies this
      ensures (Contents(), record) == ConsumeRefresh(old(Contents()), now, token)
    {
      record := None;
      if token in refresh && Usable(refresh[token]) && OpenInSql(refresh[token].expiresAt, now) {
        record := Some(refresh[token].(consumedAt := Some(now)));
        refresh := refresh[token := record.value];
      }
    }

    method RevokeOAuthRefreshTokenFamily(now: nat, family: FamilyId) returns (changed: bool)
      modifies this
      ensures (Contents(), changed) == RevokeFamily(old(Contents()), now, family)
    {
      deadFamilies := deadFamilies + {family};
      access := RevokeIds(access, now, LinkedIds(refresh, {family}));
      changed := exists token :: token in refresh && refresh[token].family == family && refresh[token].revokedAt.None?;
      refresh := RevokeFamilies(refresh, now, {family});
    }

    method RevokeOAuthRefreshToken(now: nat, token: Secret) returns (changed: bool)
      modifies this
      ensures token !in old(refresh) ==> !changed && Contents() == old(Contents())
      ensures token in old(refresh) ==>
                (Contents(), changed) == RevokeFamily(old(Contents()), now, old(refresh)[token].family)
    {
      var record := OAuthRefreshToken(token);
      if record.None? {
        return false;
      }
      changed := RevokeOAuthRefreshTokenFamily(now, record.value.family);
    }

    method RevokeAuthToken(now: nat, id: TokenId)
      modifies this
      ensures Contents() == RevokeAccess(old(Contents()), now, id)
    {
      if id in access {
        access := access[id := access[id].(revokedAt := Some(now))];
      }
      assert access == RevokeIds(old(access), now, {id});
    }

    /** Three updates in a row: the presented token, its siblings, the family's rows. */
    method RevokeOAuthAuthorizationForAccessToken(now: nat, row: Option<TokenId>) returns (found: bool)
      modifies this
      ensures (Contents(), found) == RevokeAuthorizationOf(old(Contents()), now, row)
    {
      if row.None? || row.value !in access {
        return false;
      }
      var id := row.value;
      var families := FamiliesOf(refresh, id);
      if families == {} {
        return false;
      }
      access := RevokeLiveIds(access, now, {id});
      access := RevokeLiveIds(access, now, LinkedIds(refresh, families));
      refresh := RevokeFamilies(refresh, now, families);
      assert access == RevokeLiveIds(old(access), now, {id} + LinkedIds(old(refresh), families));
      found := true;
    }
  }
}
