/** Who does what to a row, over runs: exactly which steps revoke an access token, revoke or
    consume a refresh token, or consume a code; and that whoever is granted something presented
    the credential with everything that belongs to it. */
module OAuthEffects {
  import opened Instants
  import opened Options
  import opened TokenTables
  import opened TokenEffects
  import opened OAuthProtocol
  import opened OAuthInvariant
  import opened OAuthIssue
  import opened OAuthTheorems
  import opened OAuthTombstones

  // ---- what revokes an access token ------------------------------------------------------------

  /** The step that the request makes next revokes the access token: it kills a family with a row
      that points at it, revokes by an access token of the same authorization, revokes or
      compensates it by its id, or is answered with it in a dead family. */
  ghost predicate RevokesAccess(s: System, p: Phase, id: TokenId) {
    match p
    case RevokeReplay(f) => LinkedIn(s.tables, f, id)
    case RevokeFound(f, _) => LinkedIn(s.tables, f, id)
    case RevokeByAccess(presented) =>
      presented.row.Some? && presented.row.value in s.tables.access
      && SameAuthorization(s.tables, presented.row.value, id)
    case RevokeById(other) => other == id
    case Compensate(other) => other == id
    case IssueRefresh(grant, other) =>
      other == id && grant.origin.FromRefresh? && grant.origin.family in s.tables.deadFamilies
    case _ => false
  }

  lemma FamilyStepOnAccess(s: System, rid: RequestId, draw: Draw, f: FamilyId, id: TokenId)
    requires Enabled(s, Advance(rid, draw)) && LiveAccess(s, id)
    requires s.requests[rid] == RevokeReplay(f) || (s.requests[rid].RevokeFound? && s.requests[rid].family == f)
    ensures LiveAccess(Advanced(s, rid, draw), id) <==> !LinkedIn(s.tables, f, id)
  {
    FamilyRevocationOfAccess(s.tables, s.now, f, id);
    assert Advanced(s, rid, draw).tables == RevokeFamily(s.tables, s.now, f).0;
  }

  lemma AuthorizationStepOnAccess(s: System, rid: RequestId, draw: Draw, id: TokenId)
    requires Enabled(s, Advance(rid, draw)) && LiveAccess(s, id) && s.requests[rid].RevokeByAccess?
    ensures LiveAccess(Advanced(s, rid, draw), id) <==> !RevokesAccess(s, s.requests[rid], id)
  {
    var row := s.requests[rid].presented.row;
    assert Advanced(s, rid, draw).tables == RevokeAuthorizationOf(s.tables, s.now, row).0;
    if row.Some? {
      AuthorizationFoundIff(s.tables, s.now, row.value);
      if RevokeAuthorization(s.tables, s.now, row.value).1 {
        AuthorizationOfAccess(s.tables, s.now, row.value, id);
      }
    }
  }

  lemma IssuingStepOnAccess(s: System, rid: RequestId, draw: Draw, id: TokenId)
    requires Enabled(s, Advance(rid, draw)) && LiveAccess(s, id) && s.requests[rid].IssueRefresh?
    ensures LiveAccess(Advanced(s, rid, draw), id) <==> !RevokesAccess(s, s.requests[rid], id)
  {
    var IssueRefresh(grant, held) := s.requests[rid];
    var who := grant.identity;
    CreatingTokenChanges(s.tables, s.now, draw.refresh, TargetFamily(grant, draw.family), who.client, who.owner,
                         who.scopes, who.resource, Some(held), draw.expiresAt);
  }

  lemma QuietStepOnAccess(s: System, rid: RequestId, draw: Draw, id: TokenId)
    requires Enabled(s, Advance(rid, draw)) && LiveAccess(s, id)
    requires s.requests[rid].Consume? || s.requests[rid].Redeem? || s.requests[rid].IssueAccess?
    ensures LiveAccess(Advanced(s, rid, draw), id)
  {
    match s.requests[rid] {
      case Consume(token, _) => TokenIsConsumedIff(s.tables, s.now, token);
      case Redeem(code, client, redirectUri, challenge) =>
        ConsumingCodeChanges(s.tables, s.now, code, client, redirectUri, challenge);
      case _ =>
    }
  }

  /** A step revokes a live access token exactly in these cases; no other family, token or id is
      touched by it. */
  lemma StepRevokesAccessIff(s: System, a: Action, id: TokenId)
    requires Enabled(s, a) && LiveAccess(s, id)
    ensures LiveAccess(Apply(s, a), id) <==> !(a.Advance? && RevokesAccess(s, s.requests[a.rid], id))
  {
    if a.Advance? {
      match s.requests[a.rid] {
        case RevokeReplay(f) => FamilyStepOnAccess(s, a.rid, a.draw, f, id);
        case RevokeFound(f, _) => FamilyStepOnAccess(s, a.rid, a.draw, f, id);
        case RevokeByAccess(_) => AuthorizationStepOnAccess(s, a.rid, a.draw, id);
        case IssueRefresh(_, _) => IssuingStepOnAccess(s, a.rid, a.draw, id);
        case Consume(_, _) => QuietStepOnAccess(s, a.rid, a.draw, id);
        case Redeem(_, _, _, _) => QuietStepOnAccess(s, a.rid, a.draw, id);
        case IssueAccess(_) => QuietStepOnAccess(s, a.rid, a.draw, id);
        case Compensate(other) => RevokingIdChanges(s.tables, s.now, other);
        case RevokeById(other) => RevokingIdChanges(s.tables, s.now, other);
        case _ =>
      }
    }
  }

  ghost predicate NoneRevokes(states: seq<System>, actions: seq<Action>, i: nat, j: nat, id: TokenId)
    requires IsRun(states, actions) && j <= |actions|
  {
    forall k :: i <= k < j ==> !RevokedAt(states, actions, k, id)
  }

  ghost predicate RevokedAt(states: seq<System>, actions: seq<Action>, k: nat, id: TokenId)
    requires IsRun(states, actions) && k < |actions|
  {
    actions[k].Advance? && RevokesAccess(states[k], states[k].requests[actions[k].rid], id)
  }

  lemma RunStepOnLive(states: seq<System>, actions: seq<Action>, k: nat, id: TokenId)
    requires IsRun(states, actions) && k < |actions| && LiveAccess(states[k], id)
    ensures LiveAccess(states[k + 1], id) <==> !RevokedAt(states, actions, k, id)
  {
    StepRevokesAccessIff(states[k], actions[k], id);
    assert states[k + 1] == Apply(states[k], actions[k]);
  }

  lemma RunStepOnAccess(states: seq<System>, actions: seq<Action>, k: nat, id: TokenId)
    requires IsRun(states, actions) && k < |actions| && id in states[k].tables.access
    ensures LiveAccess(states[k + 1], id) <==> LiveAccess(states[k], id) && !RevokedAt(states, actions, k, id)
  {
    if LiveAccess(states[k], id) {
      RunStepOnLive(states, actions, k, id);
    } else {
      RevokedStaysRevoked(states, actions, k, k + 1, id);
    }
  }

  lemma AccessStays(states: seq<System>, actions: seq<Action>, i: nat, j: nat, id: TokenId)
    requires IsRun(states, actions) && i <= j < |states| && id in states[i].tables.access
    ensures id in states[j].tables.access
  {
    RunGrows(states, actions, i, j);
  }

  lemma RevokedStaysRevoked(states: seq<System>, actions: seq<Action>, i: nat, j: nat, id: TokenId)
    requires IsRun(states, actions) && i <= j < |states|
    requires id in states[i].tables.access && !LiveAccess(states[i], id)
    ensures id in states[j].tables.access && !LiveAccess(states[j], id)
  {
    RunGrows(states, actions, i, j);
  }

  /** Over every run a live access token is live in a later state exactly when none of the steps
      in between was one of those cases. */
  lemma {:induction false} LiveUntilRevoked(states: seq<System>, actions: seq<Action>, i: nat, j: nat, id: TokenId)
    requires IsRun(states, actions) && i <= j < |states| && LiveAccess(states[i], id)
    ensures LiveAccess(states[j], id) <==> NoneRevokes(states, actions, i, j, id)
    decreases j
  {
    if i < j {
      LiveUntilRevoked(states, actions, i, j - 1, id);
      AccessStays(states, actions, i, j - 1, id);
      RunStepOnAccess(states, actions, j - 1, id);
      assert NoneRevokes(states, actions, i, j, id)
        <==> NoneRevokes(states, actions, i, j - 1, id) && !RevokedAt(states, actions, j - 1, id);
    }
  }

  /** When a family is killed, an access token that no row of that family points at stays live; and
      the request that kills had a cause against this very family. */
  lemma KillingSparesOtherFamilies(states: seq<System>, actions: seq<Action>, i: nat, f: FamilyId, id: TokenId)
      returns (k: nat)
    requires IsRun(states, actions) && i < |actions| && actions[i].Advance?
    requires actions[i].rid in states[i].requests && Kills(states[i].requests[actions[i].rid], f)
    requires LiveAccess(states[i], id)
    requires forall token :: token in states[i].tables.refresh
                             && states[i].tables.refresh[token].accessTokenId == Some(id) ==>
                               states[i].tables.refresh[token].family != f
    ensures LiveAccess(states[i + 1], id)
    ensures k < i && Causes(states[k], actions[i].rid, f)
  {
    assert states[i + 1] == Apply(states[i], actions[i]);
    StepRevokesAccessIff(states[i], actions[i], id);
    k := KillerHadCause(states, actions, i, actions[i].rid, f);
  }

  // ---- what revokes or consumes a refresh token ---------------------------------------------------

  ghost predicate RevokesRow(s: System, p: Phase, token: Secret)
    requires token in s.tables.refresh
  {
    match p
    case RevokeReplay(f) => s.tables.refresh[token].family == f
    case RevokeFound(f, _) => s.tables.refresh[token].family == f
    case RevokeByAccess(presented) =>
      presented.row.Some? && presented.row.value in s.tables.access
      && Authorizes(s.tables, presented.row.value, s.tables.refresh[token].family)
    case _ => false
  }

  lemma FamilyStepOnRow(s: System, rid: RequestId, draw: Draw, f: FamilyId, token: Secret)
    requires Enabled(s, Advance(rid, draw)) && token in s.tables.refresh
    requires s.requests[rid] == RevokeReplay(f) || (s.requests[rid].RevokeFound? && s.requests[rid].family == f)
    ensures
      var after := Advanced(s, rid, draw).tables.refresh;
      token in after
      && after[token]
         == if s.tables.refresh[token].family == f && s.tables.refresh[token].revokedAt.None?
            then s.tables.refresh[token].(revokedAt := Some(s.now)) else s.tables.refresh[token]
  {
    FamilyRevocationOfRows(s.tables, s.now, f);
    assert Advanced(s, rid, draw).tables == RevokeFamily(s.tables, s.now, f).0;
  }

  lemma AuthorizationStepOnRow(s: System, rid: RequestId, draw: Draw, token: Secret)
    requires Enabled(s, Advance(rid, draw)) && token in s.tables.refresh && s.requests[rid].RevokeByAccess?
    ensures
      var after := Advanced(s, rid, draw).tables.refresh;
      token in after
      && after[token]
         == if RevokesRow(s, s.requests[rid], token) && s.tables.refresh[token].revokedAt.None?
            then s.tables.refresh[token].(revokedAt := Some(s.now)) else s.tables.refresh[token]
  {
    var row := s.requests[rid].presented.row;
    assert Advanced(s, rid, draw).tables == RevokeAuthorizationOf(s.tables, s.now, row).0;
    if row.Some? {
      AuthorizationFoundIff(s.tables, s.now, row.value);
      if RevokeAuthorization(s.tables, s.now, row.value).1 {
        AuthorizationOfRow(s.tables, s.now, row.value, token);
      }
    }
  }

  lemma ConsumingStepOnRow(s: System, rid: RequestId, draw: Draw, token: Secret)
    requires Enabled(s, Advance(rid, draw)) && token in s.tables.refresh && s.requests[rid].Consume?
    ensures
      var after := Advanced(s, rid, draw).tables.refresh;
      token in after
      && after[token]
         == if ConsumesRow(s, s.requests[rid], token)
            then s.tables.refresh[token].(consumedAt := Some(s.now)) else s.tables.refresh[token]
  {
    var Consume(presented, record) := s.requests[rid];
    TokenIsConsumedIff(s.tables, s.now, presented);
    assert Advanced(s, rid, draw) == StepConsume(s, rid, presented, record);
  }

  ghost predicate ConsumesRow(s: System, p: Phase, token: Secret)
    requires token in s.tables.refresh
  {
    p.Consume? && p.token == token && s.tables.refresh[token].consumedAt.None?
    && s.tables.refresh[token].revokedAt.None? && Day(s.now) <= Day(s.tables.refresh[token].expiresAt)
  }

  lemma IssuingStepOnRow(s: System, rid: RequestId, draw: Draw, token: Secret)
    requires Enabled(s, Advance(rid, draw)) && token in s.tables.refresh && s.requests[rid].IssueRefresh?
    ensures
      var after := Advanced(s, rid, draw).tables.refresh;
      token in after && after[token] == s.tables.refresh[token]
  {
    var IssueRefresh(grant, held) := s.requests[rid];
    var who := grant.identity;
    CreatingTokenChanges(s.tables, s.now, draw.refresh, TargetFamily(grant, draw.family), who.client, who.owner,
                         who.scopes, who.resource, Some(held), draw.expiresAt);
  }

  lemma RedeemingStepOnRow(s: System, rid: RequestId, draw: Draw)
    requires Enabled(s, Advance(rid, draw)) && s.requests[rid].Redeem?
    ensures Advanced(s, rid, draw).tables.refresh == s.tables.refresh
  {
    var Redeem(code, client, redirectUri, challenge) := s.requests[rid];
    ConsumingCodeChanges(s.tables, s.now, code, client, redirectUri, challenge);
  }

  /** A step changes a stored refresh token only by revoking it, when it is unrevoked, for its own
      family, or by consuming it, for the request that presented it; and in no other column. */
  lemma StepOnRowIff(s: System, a: Action, token: Secret)
    requires Enabled(s, a) && token in s.tables.refresh
    ensures token in Apply(s, a).tables.refresh
    ensures
      var row := s.tables.refresh[token];
      Apply(s, a).tables.refresh[token]
      == if a.Advance? && RevokesRow(s, s.requests[a.rid], token) && row.revokedAt.None?
         then row.(revokedAt := Some(s.now))
         else if a.Advance? && ConsumesRow(s, s.requests[a.rid], token) then row.(consumedAt := Some(s.now))
         else row
  {
    if a.Advance? {
      match s.requests[a.rid] {
        case RevokeReplay(f) => FamilyStepOnRow(s, a.rid, a.draw, f, token);
        case RevokeFound(f, _) => FamilyStepOnRow(s, a.rid, a.draw, f, token);
        case RevokeByAccess(_) => AuthorizationStepOnRow(s, a.rid, a.draw, token);
        case IssueRefresh(_, _) => IssuingStepOnRow(s, a.rid, a.draw, token);
        case Consume(_, _) => ConsumingStepOnRow(s, a.rid, a.draw, token);
        case Redeem(_, _, _, _) => RedeemingStepOnRow(s, a.rid, a.draw);
        case _ =>
      }
    }
  }

  // ---- whoever is granted something presented it ------------------------------------------------------

  function GrantOf(p: Phase): Option<Grant> {
    if Holding(p) || p.Issued? then Some(p.grant) else None
  }

  /** The request presents a stored, unspent code, before the end of its day of expiry, with the
      client, the redirect URI and the challenge that it was issued for. */
  predicate PresentsCode(s: System, p: Phase, code: Secret) {
    code in s.tables.codes
    && p == Redeem(code, s.tables.codes[code].client, s.tables.codes[code].redirectUri, s.tables.codes[code].challenge)
    && s.tables.codes[code].consumedAt.None? && Day(s.now) <= Day(s.tables.codes[code].expiresAt)
  }

  /** The code was issued for this client and this owner, with this resource and these scopes. */
  predicate StandsFor(identity: Identity, row: CodeRow) {
    && identity.client == row.client && identity.owner == row.owner && identity.resource == row.resource
    && identity.scopes == GrantedScopes(Words(row.scope))
  }

  lemma RedeemingGrants(s: System, rid: RequestId, code: Secret, client: string, uri: string, challenge: string)
    ensures
      var g := GrantOf(StepRedeem(s, rid, code, client, uri, challenge).requests[rid]);
      && (g.Some? <==> PresentsCode(s, Redeem(code, client, uri, challenge), code))
      && (g.Some? ==> g.value.origin == FromCode(code) && StandsFor(g.value.identity, s.tables.codes[code]))
  {
    CodeIsConsumedIff(s.tables, s.now, code, client, uri, challenge);
    ConsumingCodeChanges(s.tables, s.now, code, client, uri, challenge);
  }

  /** The request is about to consume a token that it found, for the grant that goes on from it. */
  predicate ConsumesFor(p: Phase, g: Grant) {
    p.Consume? && g.origin == FromRefresh(p.token, p.record.family)
    && g.identity.client == p.record.client && g.identity.owner == p.record.owner
    && g.identity.resource == p.record.resource && g.identity.scopes == GrantedScopes(p.record.scopes)
  }

  lemma ConsumingGrants(s: System, rid: RequestId, token: Secret, record: RefreshRow)
    ensures
      var g := GrantOf(StepConsume(s, rid, token, record).requests[rid]);
      g.Some? ==> ConsumesFor(Consume(token, record), g.value)
  {
  }

  lemma OwnGrantHasSource(s: System, rid: RequestId, draw: Draw, g: Grant)
    requires Enabled(s, Advance(rid, draw)) && GrantOf(Advanced(s, rid, draw).requests[rid]) == Some(g)
    ensures
      var p := s.requests[rid];
      || GrantOf(p) == Some(g) || ConsumesFor(p, g)
      || (g.origin.FromCode? && PresentsCode(s, p, g.origin.code)
          && StandsFor(g.identity, s.tables.codes[g.origin.code]))
  {
    match s.requests[rid] {
      case Redeem(code, client, uri, challenge) => RedeemingGrants(s, rid, code, client, uri, challenge);
      case Consume(token, record) => ConsumingGrants(s, rid, token, record);
      case _ =>
    }
  }

  lemma GrantHasSource(s: System, a: Action, rid: RequestId, g: Grant)
    requires Enabled(s, a) && rid in Apply(s, a).requests && GrantOf(Apply(s, a).requests[rid]) == Some(g)
    ensures rid in s.requests
    ensures
      var p := s.requests[rid];
      || GrantOf(p) == Some(g) || ConsumesFor(p, g)
      || (g.origin.FromCode? && PresentsCode(s, p, g.origin.code)
          && StandsFor(g.identity, s.tables.codes[g.origin.code]))
  {
    if rid in s.requests && !Own(rid, a) {
      OthersStayPut(s, a, rid);
    } else if a.Advance? {
      assert OthersStay(s, Advanced(s, a.rid, a.draw), a.rid);
      if a.rid == rid {
        OwnGrantHasSource(s, rid, a.draw, g);
      }
    }
  }

  /** In every run a request that holds or was answered a grant from a code presented that code with
      its own client, redirect URI and challenge, and the grant is what the code stands for. */
  lemma {:induction false} CodeGrantWasPresented(
      states: seq<System>, actions: seq<Action>, i: nat, rid: RequestId, g: Grant) returns (k: nat)
    requires IsRun(states, actions) && i < |states| && rid in states[i].requests
    requires GrantOf(states[i].requests[rid]) == Some(g) && g.origin.FromCode?
    ensures k < i && rid in states[k].requests
    ensures PresentsCode(states[k], states[k].requests[rid], g.origin.code)
    ensures StandsFor(g.identity, states[k].tables.codes[g.origin.code])
  {
    assert i > 0;
    assert states[i] == Apply(states[i - 1], actions[i - 1]);
    GrantHasSource(states[i - 1], actions[i - 1], rid, g);
    if GrantOf(states[i - 1].requests[rid]) == Some(g) {
      k := CodeGrantWasPresented(states, actions, i - 1, rid, g);
    } else {
      k := i - 1;
    }
  }

  lemma {:induction false} RefreshGrantWasConsumed(
      states: seq<System>, actions: seq<Action>, i: nat, rid: RequestId, g: Grant) returns (k: nat)
    requires IsRun(states, actions) && i < |states| && rid in states[i].requests
    requires GrantOf(states[i].requests[rid]) == Some(g) && g.origin.FromRefresh?
    ensures k < i && rid in states[k].requests && ConsumesFor(states[k].requests[rid], g)
  {
    assert i > 0;
    assert states[i] == Apply(states[i - 1], actions[i - 1]);
    GrantHasSource(states[i - 1], actions[i - 1], rid, g);
    if GrantOf(states[i - 1].requests[rid]) == Some(g) {
      k := RefreshGrantWasConsumed(states, actions, i - 1, rid, g);
    } else {
      k := i - 1;
    }
  }

  /** The request looks up a stored token of its own client that is unspent, unrevoked and
      unexpired, and finds the record. */
  predicate FindsOwn(s: System, p: Phase, token: Secret, record: RefreshRow) {
    p == Lookup(token, record.client) && token in s.tables.refresh && s.tables.refresh[token] == record
    && record.consumedAt.None? && record.revokedAt.None? && s.now < record.expiresAt
  }

  lemma ConsumerFound(s: System, a: Action, rid: RequestId, token: Secret, record: RefreshRow)
    requires Enabled(s, a) && rid in Apply(s, a).requests && Apply(s, a).requests[rid] == Consume(token, record)
    ensures rid in s.requests
    ensures s.requests[rid] == Consume(token, record) || FindsOwn(s, s.requests[rid], token, record)
  {
    if rid in s.requests && !Own(rid, a) {
      OthersStayPut(s, a, rid);
    } else if a.Advance? {
      assert OthersStay(s, Advanced(s, a.rid, a.draw), a.rid);
      if a.rid == rid {
        OwnConsumerFound(s, rid, a.draw, token, record);
      }
    }
  }

  lemma ConsumingMovesOn(s: System, rid: RequestId, token: Secret, record: RefreshRow)
    ensures !StepConsume(s, rid, token, record).requests[rid].Consume?
  {
  }

  lemma RedeemingMovesOn(s: System, rid: RequestId, code: Secret, client: string, uri: string, challenge: string)
    ensures !StepRedeem(s, rid, code, client, uri, challenge).requests[rid].Consume?
  {
  }

  lemma IssuingMovesOn(s: System, rid: RequestId, grant: Grant, id: TokenId, draw: Draw)
    requires Fresh(s, draw)
    ensures !StepIssueRefresh(s, rid, grant, id, draw).requests[rid].Consume?
  {
  }

  lemma OwnConsumerFound(s: System, rid: RequestId, draw: Draw, token: Secret, record: RefreshRow)
    requires Enabled(s, Advance(rid, draw)) && Advanced(s, rid, draw).requests[rid] == Consume(token, record)
    ensures FindsOwn(s, s.requests[rid], token, record)
  {
    match s.requests[rid] {
      case Redeem(code, client, uri, challenge) => RedeemingMovesOn(s, rid, code, client, uri, challenge);
      case Consume(presented, found) => ConsumingMovesOn(s, rid, presented, found);
      case IssueRefresh(grant, id) => IssuingMovesOn(s, rid, grant, id, draw);
      case _ =>
    }
  }

  lemma {:induction false} ConsumerHasFound(
      states: seq<System>, actions: seq<Action>, i: nat, rid: RequestId, token: Secret, record: RefreshRow)
      returns (k: nat)
    requires IsRun(states, actions) && i < |states| && rid in states[i].requests
    requires states[i].requests[rid] == Consume(token, record)
    ensures k < i && rid in states[k].requests && FindsOwn(states[k], states[k].requests[rid], token, record)
  {
    assert i > 0;
    assert states[i] == Apply(states[i - 1], actions[i - 1]);
    ConsumerFound(states[i - 1], actions[i - 1], rid, token, record);
    if states[i - 1].requests[rid] == Consume(token, record) {
      k := ConsumerHasFound(states, actions, i - 1, rid, token, record);
    } else {
      k := i - 1;
    }
  }

  /** In every run a request that holds or was answered a grant from a refresh token asked for that
      token as its own client, while it was unspent, unrevoked and unexpired; and the grant goes on
      from that token's family and row. */
  lemma RefreshGrantWasPresented(states: seq<System>, actions: seq<Action>, i: nat, rid: RequestId, g: Grant)
      returns (k: nat, record: RefreshRow)
    requires IsRun(states, actions) && i < |states| && rid in states[i].requests
    requires GrantOf(states[i].requests[rid]) == Some(g) && g.origin.FromRefresh?
    ensures k < i && rid in states[k].requests
    ensures FindsOwn(states[k], states[k].requests[rid], g.origin.token, record)
    ensures g.origin.family == record.family && g.identity.client == record.client
    ensures g.identity.owner == record.owner && g.identity.resource == record.resource
    ensures g.identity.scopes == GrantedScopes(record.scopes)
  {
    var j := RefreshGrantWasConsumed(states, actions, i, rid, g);
    record := states[j].requests[rid].record;
    k := ConsumerHasFound(states, actions, j, rid, g.origin.token, record);
  }

  // ---- what the rows of a family stand for --------------------------------------------------------------

  /** In every run the refresh and access tokens of a family are for the client, owner, resource and
      scopes of the code that started it, column by column. */
  lemma FamilyStandsForItsCode(states: seq<System>, actions: seq<Action>, i: nat, f: FamilyId) returns (row: CodeRow)
    requires IsRun(states, actions) && i < |states| && f in states[i].families
    ensures
      var s := states[i];
      && s.families[f].code in s.tables.codes && row == s.tables.codes[s.families[f].code]
      && (forall token :: token in s.tables.refresh && s.tables.refresh[token].family == f ==>
            && s.tables.refresh[token].client == row.client && s.tables.refresh[token].owner == row.owner
            && s.tables.refresh[token].resource == row.resource
            && s.tables.refresh[token].scopes == GrantedScopes(Words(row.scope)))
      && (forall id :: id in s.issuedIn && s.issuedIn[id] == f ==>
            && id in s.tables.access && s.tables.access[id].owner == row.owner
            && s.tables.access[id].scopes == GrantedScopes(Words(row.scope)))
  {
    FamilyKeepsItsGrant(states, actions, i, f);
    var s := states[i];
    row := s.tables.codes[s.families[f].code];
    forall token | token in s.tables.refresh && s.tables.refresh[token].family == f
      ensures IdentityOfRow(s.tables.refresh[token]) == IdentityOfCode(row)
    {
    }
    forall id | id in s.issuedIn && s.issuedIn[id] == f ensures AccessMatches(s, id, IdentityOfCode(row)) {
    }
  }
}
