/** Access tokens lost with a request that died between its two creations: how long they live. */
module OAuthLostTokens {
  import opened Options
  import opened TokenTables
  import opened OAuthProtocol
  import opened OAuthInvariant
  import opened OAuthIssue
  import opened OAuthTheorems

  // ---- whose token a request holds -----------------------------------------------------

  function HeldOf(p: Phase): Option<TokenId> {
    if p.Aborted? then p.held else HeldAccess(p)
  }

  /** A token that a request holds, or died holding, was issued by that request. */
  predicate HoldsOwn(s: System, r: RequestId)
    requires r in s.requests
  {
    HeldOf(s.requests[r]).Some? ==>
      var id := HeldOf(s.requests[r]).value;
      id in s.issuedBy && s.issuedBy[id] == r && id in s.tables.access
  }

  ghost predicate HeldOk(s: System) {
    forall r :: r in s.requests ==> HoldsOwn(s, r)
  }

  lemma IssuersStay(s: System, a: Action, id: TokenId)
    requires Enabled(s, a) && id in s.issuedBy
    ensures id in Apply(s, a).issuedBy && Apply(s, a).issuedBy[id] == s.issuedBy[id]
  {
    if a.Advance? {
      match s.requests[a.rid] {
        case Consume(token, record) => assert StepConsume(s, a.rid, token, record).issuedBy == s.issuedBy;
        case _ =>
      }
    }
  }

  lemma HeldByOther(s: System, a: Action, r: RequestId)
    requires Enabled(s, a) && r in s.requests && HoldsOwn(s, r)
    requires AccessGrows(s.tables.access, Apply(s, a).tables.access)
    requires !Own(r, a)
    ensures r in Apply(s, a).requests && HoldsOwn(Apply(s, a), r)
  {
    OthersStayPut(s, a, r);
    if HeldOf(s.requests[r]).Some? {
      IssuersStay(s, a, HeldOf(s.requests[r]).value);
    }
  }

  lemma OnlyIssuingHolds(s: System, rid: RequestId, draw: Draw)
    requires Enabled(s, Advance(rid, draw)) && !s.requests[rid].IssueAccess?
    ensures HeldOf(Advanced(s, rid, draw).requests[rid]).None?
  {
    match s.requests[rid] {
      case Consume(token, record) => ConsumerHoldsNothing(s, rid, token, record);
      case Redeem(code, client, redirectUri, challenge) =>
        RedeemerHoldsNothing(s, rid, code, client, redirectUri, challenge);
      case IssueRefresh(grant, id) => AnsweredHoldsNothing(s, rid, grant, id, draw);
      case _ =>
    }
  }

  lemma ConsumerHoldsNothing(s: System, rid: RequestId, token: Secret, record: RefreshRow)
    ensures HeldOf(StepConsume(s, rid, token, record).requests[rid]).None?
  {
  }

  lemma RedeemerHoldsNothing(
      s: System, rid: RequestId, code: Secret, client: string, redirectUri: string, challenge: string)
    ensures HeldOf(StepRedeem(s, rid, code, client, redirectUri, challenge).requests[rid]).None?
  {
  }

  lemma AnsweredHoldsNothing(s: System, rid: RequestId, grant: Grant, id: TokenId, draw: Draw)
    requires Fresh(s, draw)
    ensures HeldOf(StepIssueRefresh(s, rid, grant, id, draw).requests[rid]).None?
  {
  }

  lemma IssuedIsHeldByIssuer(s: System, rid: RequestId, draw: Draw)
    requires Enabled(s, Advance(rid, draw)) && s.requests[rid].IssueAccess?
    ensures HoldsOwn(Advanced(s, rid, draw), rid)
  {
  }

  lemma HeldByMover(s: System, a: Action)
    requires Enabled(s, a) && (a.Advance? || a.CreationFails? || a.Abort?) && HoldsOwn(s, a.rid)
    ensures a.rid in Apply(s, a).requests && HoldsOwn(Apply(s, a), a.rid)
  {
    if a.Advance? {
      assert OthersStay(s, Advanced(s, a.rid, a.draw), a.rid);
      if s.requests[a.rid].IssueAccess? {
        IssuedIsHeldByIssuer(s, a.rid, a.draw);
      } else {
        OnlyIssuingHolds(s, a.rid, a.draw);
      }
    }
  }

  lemma StepKeepsHeld(s: System, a: Action)
    requires Inv(s) && HeldOk(s) && Enabled(s, a)
    ensures HeldOk(Apply(s, a))
  {
    StepKeepsInv(s, a);
    forall r | r in Apply(s, a).requests ensures HoldsOwn(Apply(s, a), r) {
      if Own(r, a) {
        HeldByMover(s, a);
      } else if r in s.requests {
        HeldByOther(s, a, r);
      }
    }
  }

  lemma {:induction false} RunKeepsHeld(states: seq<System>, actions: seq<Action>, i: nat)
    requires IsRun(states, actions) && i < |states|
    ensures HeldOk(states[i])
  {
    if i > 0 {
      RunKeepsHeld(states, actions, i - 1);
      RunKeepsInv(states, actions, i - 1);
      assert states[i] == Apply(states[i - 1], actions[i - 1]);
      StepKeepsHeld(states[i - 1], actions[i - 1]);
    }
  }

  // ---- lost tokens -----------------------------------------------------------------------

  /** The request died holding this access token. */
  predicate Lost(s: System, r: RequestId, id: TokenId) {
    r in s.requests && s.requests[r] == Aborted(Some(id))
  }

  predicate Unlinked(t: Tables, id: TokenId) {
    forall token :: token in t.refresh ==> t.refresh[token].accessTokenId != Some(id)
  }

  lemma LostIsUnlinked(s: System, r: RequestId, id: TokenId)
    requires Inv(s) && HeldOk(s) && Lost(s, r, id)
    ensures Unlinked(s.tables, id)
  {
    assert HoldsOwn(s, r);
    forall token | token in s.tables.refresh ensures s.tables.refresh[token].accessTokenId != Some(id) {
      var k := IssuerOf(s, token);
    }
  }

  /** The revocation endpoint's last resort, for this very token id. */
  predicate RevokesById(s: System, a: Action, id: TokenId) {
    a.Advance? && a.rid in s.requests && s.requests[a.rid] == RevokeById(id)
  }

  /** The other steps that could touch the row: its own request's. */
  predicate OwnerMoves(s: System, a: Action, id: TokenId) {
    a.Advance? && a.rid in s.requests && HeldAccess(s.requests[a.rid]) == Some(id)
  }

  lemma FamilyRevocationSpares(t: Tables, now: nat, f: FamilyId, id: TokenId)
    requires id in t.access && Unlinked(t, id)
    ensures var access := RevokeFamily(t, now, f).0.access; id in access && access[id] == t.access[id]
  {
    assert id !in LinkedIds(t.refresh, {f});
  }

  lemma AuthorizationRevocationSpares(t: Tables, now: nat, row: Option<TokenId>, id: TokenId)
    requires id in t.access && Unlinked(t, id)
    ensures var access := RevokeAuthorizationOf(t, now, row).0.access; id in access && access[id] == t.access[id]
  {
    if row.Some? {
      assert id !in LinkedIds(t.refresh, FamiliesOf(t.refresh, row.value));
      assert row.value == id ==> FamiliesOf(t.refresh, row.value) == {};
    }
  }

  lemma AdvanceSparesRow(s: System, rid: RequestId, draw: Draw, id: TokenId)
    requires Enabled(s, Advance(rid, draw)) && id in s.tables.access && Unlinked(s.tables, id)
    requires s.requests[rid] != RevokeById(id) && HeldAccess(s.requests[rid]) != Some(id)
    ensures var access := Advanced(s, rid, draw).tables.access; id in access && access[id] == s.tables.access[id]
  {
    match s.requests[rid] {
      case RevokeReplay(f) => FamilyRevocationSpares(s.tables, s.now, f, id);
      case RevokeFound(f, _) => FamilyRevocationSpares(s.tables, s.now, f, id);
      case RevokeByAccess(presented) => AuthorizationRevocationSpares(s.tables, s.now, presented.row, id);
      case _ =>
    }
  }

  lemma AccessRowUntouched(s: System, a: Action, id: TokenId)
    requires Enabled(s, a) && id in s.tables.access && Unlinked(s.tables, id)
    requires !RevokesById(s, a, id) && !OwnerMoves(s, a, id)
    ensures id in Apply(s, a).tables.access && Apply(s, a).tables.access[id] == s.tables.access[id]
  {
    if a.Advance? {
      AdvanceSparesRow(s, a.rid, a.draw, id);
    }
  }

  lemma IdRevocationKills(s: System, a: Action, id: TokenId)
    requires Enabled(s, a) && RevokesById(s, a, id)
    ensures !LiveAccess(Apply(s, a), id)
  {
  }

  lemma RevokedStaysRevoked(s: System, s2: System, id: TokenId)
    requires id in s.tables.access && !LiveAccess(s, id) && AccessGrows(s.tables.access, s2.tables.access)
    ensures !LiveAccess(s2, id)
  {
  }

  lemma LostTokenStep(s: System, a: Action, r: RequestId, id: TokenId)
    requires Inv(s) && HeldOk(s) && Enabled(s, a) && Lost(s, r, id)
    ensures Lost(Apply(s, a), r, id)
    ensures LiveAccess(Apply(s, a), id) <==> LiveAccess(s, id) && !RevokesById(s, a, id)
  {
    LostIsUnlinked(s, r, id);
    OthersStayPut(s, a, r);
    StepKeepsInv(s, a);
    assert HoldsOwn(s, r);
    assert (a.Advance? && a.rid in s.requests) ==> HoldsOwn(s, a.rid);
    if RevokesById(s, a, id) {
      IdRevocationKills(s, a, id);
    } else if LiveAccess(s, id) {
      AccessRowUntouched(s, a, id);
    } else {
      RevokedStaysRevoked(s, Apply(s, a), id);
    }
  }

  lemma LostTokenRunStep(states: seq<System>, actions: seq<Action>, i: nat, r: RequestId, id: TokenId)
    requires IsRun(states, actions) && i < |actions| && Lost(states[i], r, id)
    ensures Lost(states[i + 1], r, id)
    ensures LiveAccess(states[i + 1], id) <==> LiveAccess(states[i], id) && !RevokesById(states[i], actions[i], id)
  {
    RunKeepsInv(states, actions, i);
    RunKeepsHeld(states, actions, i);
    assert states[i + 1] == Apply(states[i], actions[i]);
    LostTokenStep(states[i], actions[i], r, id);
  }

  lemma {:induction false} LostStaysLost(
      states: seq<System>, actions: seq<Action>, i: nat, j: nat, r: RequestId, id: TokenId)
    requires IsRun(states, actions) && i <= j < |states| && Lost(states[i], r, id)
    ensures Lost(states[j], r, id)
    decreases j
  {
    if i < j {
      LostStaysLost(states, actions, i, j - 1, r, id);
      LostTokenRunStep(states, actions, j - 1, r, id);
    }
  }

  /** In this stretch the token stops being live only where its own id is revoked. */
  ghost predicate DiesOnlyById(states: seq<System>, actions: seq<Action>, i: nat, j: nat, id: TokenId)
    requires j <= |actions| < |states|
  {
    forall k :: i <= k < j ==>
      (LiveAccess(states[k + 1], id) <==> LiveAccess(states[k], id) && !RevokesById(states[k], actions[k], id))
  }

  lemma LostDiesOnlyById(states: seq<System>, actions: seq<Action>, i: nat, j: nat, r: RequestId, id: TokenId)
    requires IsRun(states, actions) && i <= j < |states| && Lost(states[i], r, id)
    ensures DiesOnlyById(states, actions, i, j, id)
  {
    forall k | i <= k < j
      ensures LiveAccess(states[k + 1], id) <==> LiveAccess(states[k], id) && !RevokesById(states[k], actions[k], id)
    {
      LostStaysLost(states, actions, i, k, r, id);
      LostTokenRunStep(states, actions, k, r, id);
    }
  }

  lemma {:induction false} LiveUntilRevokedById(
      states: seq<System>, actions: seq<Action>, i: nat, j: nat, id: TokenId)
    requires i <= j <= |actions| < |states| && DiesOnlyById(states, actions, i, j, id) && LiveAccess(states[i], id)
    ensures LiveAccess(states[j], id) <==> forall k :: i <= k < j ==> !RevokesById(states[k], actions[k], id)
    decreases j
  {
    if i < j {
      LiveUntilRevokedById(states, actions, i, j - 1, id);
      assert LiveAccess(states[j - 1 + 1], id)
        <==> LiveAccess(states[j - 1], id) && !RevokesById(states[j - 1], actions[j - 1], id);
    }
  }

  /** Over every run a token lost while live stays live until its own id is presented for
      revocation and reaches the last attempt; nothing else, family revocations included,
      ever revokes it. */
  lemma LostTokenOutlivesFamily(
      states: seq<System>, actions: seq<Action>, i: nat, j: nat, r: RequestId, id: TokenId)
    requires IsRun(states, actions) && i <= j < |states|
    requires Lost(states[i], r, id) && LiveAccess(states[i], id)
    ensures Lost(states[j], r, id)
    ensures LiveAccess(states[j], id) <==> forall k :: i <= k < j ==> !RevokesById(states[k], actions[k], id)
  {
    LostStaysLost(states, actions, i, j, r, id);
    LostDiesOnlyById(states, actions, i, j, r, id);
    LiveUntilRevokedById(states, actions, i, j, id);
  }

  /** Dying changes no table: the token a request held stays as it was. */
  lemma DyingLosesTheToken(states: seq<System>, actions: seq<Action>, i: nat, r: RequestId)
    requires IsRun(states, actions) && i < |actions| && actions[i] == Abort(r)
    requires HeldAccess(states[i].requests[r]).Some?
    ensures
      var id := HeldAccess(states[i].requests[r]).value;
      && Lost(states[i + 1], r, id)
      && (LiveAccess(states[i + 1], id) <==> LiveAccess(states[i], id))
  {
    assert states[i + 1] == Apply(states[i], actions[i]);
  }

  /** With the family dead and nothing in flight on it, some access token issued in it is live
      exactly when some request died holding one that has not been revoked since. */
  lemma DeadFamilyLiveIffLost(states: seq<System>, actions: seq<Action>, i: nat, f: FamilyId)
    requires IsRun(states, actions) && i < |states| && f in states[i].tables.deadFamilies
    requires forall r :: r in states[i].requests ==> !InFlightOn(states[i], states[i].requests[r], f)
    ensures
      var s := states[i];
      (exists id :: id in s.issuedIn && s.issuedIn[id] == f && LiveAccess(s, id))
      <==> (exists r, id :: Lost(s, r, id) && id in s.issuedIn && s.issuedIn[id] == f && LiveAccess(s, id))
  {
    var s := states[i];
    forall id | id in s.issuedIn && s.issuedIn[id] == f && LiveAccess(s, id)
      ensures exists r :: Lost(s, r, id)
    {
      LiveTokenOfDeadFamily(states, actions, i, f, id);
      assert Lost(s, s.issuedBy[id], id);
    }
  }
}
