/** The promises of the token endpoint over every interleaving: rotation with
    replay detection (section 4.14 of RFC 9700), refresh (section 6 of RFC 6749)
    and single-use codes (section 4.1.2 of RFC 6749). */
module OAuthTheorems {
  import opened Options
  import opened TokenTables
  import opened OAuthProtocol
  import opened OAuthInvariant
  import opened OAuthSteps
  import opened OAuthIssue

  // ---- a dead family stays dead -------------------------------------------------

  /** The request may still create or revoke a token of the family. */
  predicate InFlightOn(s: System, p: Phase, f: FamilyId) {
    || (Holding(p) && p.grant.origin.FromRefresh? && p.grant.origin.family == f)
    || (p.Compensate? && p.accessId in s.issuedIn && s.issuedIn[p.accessId] == f)
  }

  /** The request died with an access token of the family in its hands. */
  predicate DiedHolding(s: System, p: Phase, f: FamilyId) {
    p.Aborted? && p.held.Some? && p.held.value in s.issuedIn && s.issuedIn[p.held.value] == f
  }

  predicate LiveAccess(s: System, id: TokenId) {
    id in s.tables.access && s.tables.access[id].revokedAt.None?
  }

  /** Once tombstoned, in every later state: all rows revoked, all linked access tokens revoked. */
  lemma DeadFamilyIsRevoked(states: seq<System>, actions: seq<Action>, i: nat, j: nat, f: FamilyId)
    requires IsRun(states, actions) && i <= j < |states|
    requires f in states[i].tables.deadFamilies
    ensures FamilyRevoked(states[j].tables, f)
  {
    RunGrows(states, actions, i, j);
    RunKeepsInv(states, actions, j);
  }

  /** A token of a dead family that is still live is in the hands of an unfinished
      request on that family, or was lost by a request that died holding it. */
  lemma LiveTokenOfDeadFamily(states: seq<System>, actions: seq<Action>, i: nat, f: FamilyId, id: TokenId)
    requires IsRun(states, actions) && i < |states|
    requires f in states[i].tables.deadFamilies
    requires id in states[i].issuedIn && states[i].issuedIn[id] == f && LiveAccess(states[i], id)
    ensures id in states[i].issuedBy && states[i].issuedBy[id] in states[i].requests
    ensures
      var p := states[i].requests[states[i].issuedBy[id]];
      InFlightOn(states[i], p, f) || p == Aborted(Some(id))
  {
    RunKeepsInv(states, actions, i);
    AccountedInDeadFamily(states[i], f, id);
  }

  lemma AccountedInDeadFamily(s: System, f: FamilyId, id: TokenId)
    requires Inv(s) && f in s.tables.deadFamilies
    requires id in s.issuedIn && s.issuedIn[id] == f && LiveAccess(s, id)
    ensures id in s.issuedBy && s.issuedBy[id] in s.requests
    ensures var p := s.requests[s.issuedBy[id]]; InFlightOn(s, p, f) || p == Aborted(Some(id))
  {
    assert Accounted(s, id);
    assert PhaseOk(s, s.requests[s.issuedBy[id]]);
    LinkedTokenOfDeadFamily(s, f, id);
  }

  /** No row points at a live access token of a dead family. */
  lemma LinkedTokenOfDeadFamily(s: System, f: FamilyId, id: TokenId)
    requires RowsOk(s) && DeadOk(s.tables) && f in s.tables.deadFamilies
    requires id in s.issuedIn && s.issuedIn[id] == f && LiveAccess(s, id)
    ensures forall token :: token in s.tables.refresh ==> s.tables.refresh[token].accessTokenId != Some(id)
  {
    assert FamilyRevoked(s.tables, f);
    forall token | token in s.tables.refresh ensures s.tables.refresh[token].accessTokenId != Some(id) {
      assert RowOk(s, token);
    }
  }

  /** When every request on the family has finished, and none died holding a token issued in
      it, no access token ever issued in a dead family is live. */
  lemma DeadFamilyHasNoLiveToken(states: seq<System>, actions: seq<Action>, i: nat, f: FamilyId)
    requires IsRun(states, actions) && i < |states|
    requires f in states[i].tables.deadFamilies
    requires forall r :: r in states[i].requests ==>
                           && !InFlightOn(states[i], states[i].requests[r], f)
                           && !DiedHolding(states[i], states[i].requests[r], f)
    ensures forall id :: id in states[i].issuedIn && states[i].issuedIn[id] == f ==> !LiveAccess(states[i], id)
  {
    forall id | id in states[i].issuedIn && states[i].issuedIn[id] == f
      ensures !LiveAccess(states[i], id)
    {
      if LiveAccess(states[i], id) {
        LiveTokenOfDeadFamily(states, actions, i, f, id);
      }
    }
  }

  /** Revoking the family does not reach an access token that a request still holds. */
  lemma RevocationSparesHeldToken(s: System, rid: RequestId, f: FamilyId, now: nat)
    requires Inv(s) && rid in s.requests && s.requests[rid].IssueRefresh?
    requires s.requests[rid].grant.origin.FromRefresh? && s.requests[rid].grant.origin.family == f
    requires LiveAccess(s, s.requests[rid].accessId)
    ensures s.requests[rid].accessId in s.issuedIn && s.issuedIn[s.requests[rid].accessId] == f
    ensures
      var after := RevokeFamily(s.tables, now, f).0;
      && f in after.deadFamilies
      && s.requests[rid].accessId in after.access
      && after.access[s.requests[rid].accessId].revokedAt.None?
  {
    assert PhaseOk(s, s.requests[rid]);
    HeldTokenUnlinked(s, rid);
    RevokeFamilySparesUnlinked(s.tables, now, f, s.requests[rid].accessId);
  }

  lemma RevokeFamilySparesUnlinked(t: Tables, now: nat, f: FamilyId, id: TokenId)
    requires id in t.access && id !in LinkedIds(t.refresh, {f})
    ensures id in RevokeFamily(t, now, f).0.access && RevokeFamily(t, now, f).0.access[id] == t.access[id]
    ensures f in RevokeFamily(t, now, f).0.deadFamilies
  {
  }

  /** No refresh row points at an access token that a request still holds. */
  lemma HeldTokenUnlinked(s: System, rid: RequestId)
    requires Inv(s) && rid in s.requests && s.requests[rid].IssueRefresh?
    ensures forall families :: s.requests[rid].accessId !in LinkedIds(s.tables.refresh, families)
  {
    var id := s.requests[rid].accessId;
    forall families ensures id !in LinkedIds(s.tables.refresh, families) {
      if id in LinkedIds(s.tables.refresh, families) {
        var token :| token in s.tables.refresh && s.tables.refresh[token].accessTokenId == Some(id);
        var k := IssuerOf(s, token);
      }
    }
  }

  /** A refresh row names the request that was answered with it. */
  lemma IssuerOf(s: System, token: Secret) returns (k: nat)
    requires Inv(s) && token in s.tables.refresh
    ensures
      var f := s.tables.refresh[token].family;
      && f in s.families
      && k < |s.families[f].chain|
      && s.families[f].chain[k] == token
      && LinkAt(s, f, k)
  {
    assert RowOk(s, token);
    var f := s.tables.refresh[token].family;
    k :| 0 <= k < |s.families[f].chain| && s.families[f].chain[k] == token;
  }

  // ---- conservation ------------------------------------------------------------------

  datatype Slot = TokenSlot(token: Secret) | RequestSlot(rid: RequestId)

  /** The usable refresh tokens of a family, and the requests that consumed one and
      have not created its successor. */
  function Slots(s: System, f: FamilyId): set<Slot> {
    (set token | token in s.tables.refresh && s.tables.refresh[token].family == f && Usable(s.tables.refresh[token])
       :: TokenSlot(token))
    + (set r | r in s.requests && Holding(s.requests[r]) && s.requests[r].grant.origin.FromRefresh?
               && s.requests[r].grant.origin.family == f :: RequestSlot(r))
  }

  lemma OneUsableToken(s: System, t1: Secret, t2: Secret)
    requires RowsOk(s) && FamiliesOk(s) && t1 in s.tables.refresh && t2 in s.tables.refresh
    requires s.tables.refresh[t1].family == s.tables.refresh[t2].family
    requires Usable(s.tables.refresh[t1]) && Usable(s.tables.refresh[t2])
    ensures t1 == t2
  {
    NewestIfUsable(s, t1);
    NewestIfUsable(s, t2);
  }

  lemma HolderLeavesNoUsableToken(s: System, r: RequestId, t: Secret)
    requires RowsOk(s) && FamiliesOk(s) && t in s.tables.refresh && Usable(s.tables.refresh[t])
    requires r in s.requests && Holding(s.requests[r]) && PhaseOk(s, s.requests[r])
    requires s.requests[r].grant.origin.FromRefresh?
    ensures s.requests[r].grant.origin.family != s.tables.refresh[t].family
  {
    NewestIfUsable(s, t);
  }

  lemma SlotsAgree(s: System, f: FamilyId, a: Slot, b: Slot)
    requires Inv(s)
    ensures a in Slots(s, f) && b in Slots(s, f) ==> a == b
  {
    if a in Slots(s, f) && b in Slots(s, f) {
      match (a, b) {
        case (TokenSlot(t1), TokenSlot(t2)) => OneUsableToken(s, t1, t2);
        case (TokenSlot(t), RequestSlot(r)) => HolderLeavesNoUsableToken(s, r, t);
        case (RequestSlot(r), TokenSlot(t)) => HolderLeavesNoUsableToken(s, r, t);
        case (RequestSlot(r1), RequestSlot(r2)) =>
          if r1 != r2 {
            OtherHoldersElsewhere(s, r1, r2, f);
          }
      }
    }
  }

  lemma AtMostOne<T>(items: set<T>)
    requires forall a, b :: a in items && b in items ==> a == b
    ensures |items| <= 1
  {
    if a :| a in items {
      assert items == {a};
    }
  }

  /** (usable refresh tokens) + (rotations between consume and create) <= 1, always. */
  lemma TokenConservation(states: seq<System>, actions: seq<Action>, i: nat, f: FamilyId)
    requires IsRun(states, actions) && i < |states|
    ensures |Slots(states[i], f)| <= 1
  {
    RunKeepsInv(states, actions, i);
    forall a, b | a in Slots(states[i], f) && b in Slots(states[i], f) ensures a == b {
      SlotsAgree(states[i], f, a, b);
    }
    AtMostOne(Slots(states[i], f));
  }

  /** The rows of a family are one chain that starts at its code, and each later
      token is the answer to presenting the one before it. */
  lemma RotationsFormOneChain(states: seq<System>, actions: seq<Action>, i: nat, f: FamilyId)
    requires IsRun(states, actions) && i < |states| && f in states[i].families
    ensures
      var s := states[i];
      var chain := s.families[f].chain;
      && Distinct(chain)
      && (forall token :: token in chain <==> token in s.tables.refresh && s.tables.refresh[token].family == f)
      && (forall k :: 0 <= k < |chain| ==> LinkAt(s, f, k))
      && (forall k :: 0 <= k < |chain| - 1 ==> s.tables.refresh[chain[k]].consumedAt.Some?)
  {
    RunKeepsInv(states, actions, i);
    var s := states[i];
    assert FamilyOk(s, f);
    forall token | token in s.tables.refresh && s.tables.refresh[token].family == f
      ensures token in s.families[f].chain
    {
      assert RowOk(s, token);
    }
  }

  /** One answer per credential: two answered requests never had the same code or refresh token. */
  lemma OneAnswerPerCredential(states: seq<System>, actions: seq<Action>, i: nat, r1: RequestId, r2: RequestId)
    requires IsRun(states, actions) && i < |states|
    requires r1 in states[i].requests && states[i].requests[r1].Issued?
    requires r2 in states[i].requests && states[i].requests[r2].Issued?
    requires states[i].requests[r1].grant.origin == states[i].requests[r2].grant.origin
    ensures r1 == r2
  {
    RunKeepsInv(states, actions, i);
    OneAnswer(states[i], r1, r2);
  }

  lemma AnsweredAt(s: System, r: RequestId) returns (f: FamilyId, k: nat)
    requires Inv(s) && r in s.requests && s.requests[r].Issued?
    ensures f in s.families && k < |s.families[f].chain|
    ensures s.requests[r].grant.origin == ExpectedOrigin(f, s.families[f], k)
    ensures s.requests[r].refreshToken == s.families[f].chain[k]
    ensures s.requests[r].accessId in s.issuedBy && s.issuedBy[s.requests[r].accessId] == r
    ensures s.requests[r].refreshToken in s.tables.refresh
    ensures s.tables.refresh[s.requests[r].refreshToken].accessTokenId == Some(s.requests[r].accessId)
  {
    assert Accounted(s, s.requests[r].accessId);
    k := IssuerOf(s, s.requests[r].refreshToken);
    f := s.tables.refresh[s.requests[r].refreshToken].family;
  }

  lemma OneAnswer(s: System, r1: RequestId, r2: RequestId)
    requires Inv(s) && r1 in s.requests && s.requests[r1].Issued? && r2 in s.requests && s.requests[r2].Issued?
    requires s.requests[r1].grant.origin == s.requests[r2].grant.origin
    ensures r1 == r2
  {
    var f1, k1 := AnsweredAt(s, r1);
    var f2, k2 := AnsweredAt(s, r2);
    assert FamilyOk(s, f1) && FamilyOk(s, f2);
    SameOrigin(s, f1, k1, f2, k2);
  }

  lemma SameOrigin(s: System, f1: FamilyId, k1: nat, f2: FamilyId, k2: nat)
    requires f1 in s.families && k1 < |s.families[f1].chain| && Distinct(s.families[f1].chain)
    requires f2 in s.families && k2 < |s.families[f2].chain| && OneFamilyPerCode(s)
    requires ExpectedOrigin(f1, s.families[f1], k1) == ExpectedOrigin(f2, s.families[f2], k2)
    ensures f1 == f2 && k1 == k2
  {
    if k1 == 0 {
      assert k2 == 0;
    } else {
      assert f1 == f2 && k2 != 0;
      assert s.families[f1].chain[k1 - 1] == s.families[f1].chain[k2 - 1];
    }
  }

  // ---- replay -------------------------------------------------------------------------

  predicate Spent(s: System, token: Secret, f: FamilyId, client: string) {
    && token in s.tables.refresh
    && s.tables.refresh[token].family == f
    && s.tables.refresh[token].client == client
    && !Usable(s.tables.refresh[token])
  }

  /** A request that presented `token` of family `f`, after the token was spent. */
  ghost predicate Doomed(s: System, p: Phase, token: Secret, f: FamilyId, client: string) {
    && Spent(s, token, f, client)
    && match p
       case Lookup(presented, presenter) => presented == token && presenter == client
       case Consume(presented, record) => presented == token && record.family == f
       case RevokeReplay(family) => family == f
       case Rejected => f in s.tables.deadFamilies
       case Aborted(held) => held.None?
       case _ => false
  }

  lemma DoomedStep(s: System, a: Action, rid: RequestId, token: Secret, f: FamilyId, client: string)
    requires Inv(s) && Enabled(s, a) && rid in s.requests && Doomed(s, s.requests[rid], token, f, client)
    ensures rid in Apply(s, a).requests && Doomed(Apply(s, a), Apply(s, a).requests[rid], token, f, client)
  {
    StepKeepsInv(s, a);
    DoomedRequestStep(s, a, rid, token, f, client);
  }

  lemma DoomedRequestStep(s: System, a: Action, rid: RequestId, token: Secret, f: FamilyId, client: string)
    requires Enabled(s, a) && rid in s.requests && Doomed(s, s.requests[rid], token, f, client)
    requires Grows(s, Apply(s, a))
    ensures rid in Apply(s, a).requests && Doomed(Apply(s, a), Apply(s, a).requests[rid], token, f, client)
  {
    var s2 := Apply(s, a);
    assert token in s2.tables.refresh && s2.tables.refresh[token].family == f;
    assert IdentityOfRow(s2.tables.refresh[token]).client == client;
    if Own(rid, a) {
      OwnStep(s, a, token, f, client);
    } else {
      OthersStayPut(s, a, rid);
    }
  }

  lemma OthersStayPut(s: System, a: Action, rid: RequestId)
    requires Enabled(s, a) && rid in s.requests
    requires !Own(rid, a)
    ensures rid in Apply(s, a).requests && Apply(s, a).requests[rid] == s.requests[rid]
  {
    if a.Advance? {
      assert OthersStay(s, Advanced(s, a.rid, a.draw), a.rid);
    }
  }

  /** The doomed request's own step: detection, tombstone, rejection. */
  lemma OwnStep(s: System, a: Action, token: Secret, f: FamilyId, client: string)
    requires Enabled(s, a) && (a.Advance? || a.CreationFails? || a.Abort?)
    requires a.rid in s.requests && Doomed(s, s.requests[a.rid], token, f, client)
    ensures a.rid in Apply(s, a).requests
    ensures
      match Apply(s, a).requests[a.rid]
      case Lookup(presented, presenter) => presented == token && presenter == client
      case Consume(presented, record) => presented == token && record.family == f
      case RevokeReplay(family) => family == f
      case Rejected => f in Apply(s, a).tables.deadFamilies
      case Aborted(held) => held.None?
      case _ => false
  {
  }

  /** Whoever presents a spent refresh token with the matching client, whether it was
      spent before the lookup or between the lookup and the consume step, is never
      answered with tokens; when the request ends without dying it was rejected and
      the whole family is tombstoned. */
  lemma {:induction false} ReplayKillsFamily(
      states: seq<System>, actions: seq<Action>, i: nat, j: nat, rid: RequestId, token: Secret, client: string)
    requires IsRun(states, actions) && i <= j < |states|
    requires rid in states[i].requests
    requires token in states[i].tables.refresh && !Usable(states[i].tables.refresh[token])
    requires states[i].tables.refresh[token].client == client
    requires
      || states[i].requests[rid] == Lookup(token, client)
      || (states[i].requests[rid].Consume? && states[i].requests[rid].token == token)
    ensures rid in states[j].requests
    ensures
      var f := states[i].tables.refresh[token].family;
      var p := states[j].requests[rid];
      && !p.Issued? && !Holding(p)
      && (Ended(p) && !p.Aborted? ==>
            p == Rejected && f in states[j].tables.deadFamilies && FamilyRevoked(states[j].tables, f))
  {
    var f := states[i].tables.refresh[token].family;
    RunPhaseOk(states, actions, i, rid);
    DoomedStart(states[i], rid, token, client);
    DoomedStays(states, actions, i, j, rid, token, f, client);
    DoomedEnds(states[j], rid, token, f, client);
    if f in states[j].tables.deadFamilies {
      DeadFamilyIsRevoked(states, actions, j, j, f);
    }
  }

  lemma RunPhaseOk(states: seq<System>, actions: seq<Action>, i: nat, rid: RequestId)
    requires IsRun(states, actions) && i < |states| && rid in states[i].requests
    ensures PhaseOk(states[i], states[i].requests[rid])
  {
    RunKeepsInv(states, actions, i);
  }

  lemma DoomedEnds(s: System, rid: RequestId, token: Secret, f: FamilyId, client: string)
    requires rid in s.requests && Doomed(s, s.requests[rid], token, f, client)
    ensures
      var p := s.requests[rid];
      && !p.Issued? && !Holding(p)
      && (Ended(p) && !p.Aborted? ==> p == Rejected && f in s.tables.deadFamilies)
  {
  }

  lemma DoomedStart(s: System, rid: RequestId, token: Secret, client: string)
    requires rid in s.requests && PhaseOk(s, s.requests[rid])
    requires token in s.tables.refresh && !Usable(s.tables.refresh[token]) && s.tables.refresh[token].client == client
    requires s.requests[rid] == Lookup(token, client) || (s.requests[rid].Consume? && s.requests[rid].token == token)
    ensures Doomed(s, s.requests[rid], token, s.tables.refresh[token].family, client)
  {
  }

  lemma {:induction false} DoomedStays(
      states: seq<System>, actions: seq<Action>, i: nat, j: nat, rid: RequestId,
      token: Secret, f: FamilyId, client: string)
    requires IsRun(states, actions) && i <= j < |states|
    requires rid in states[i].requests && Doomed(states[i], states[i].requests[rid], token, f, client)
    ensures rid in states[j].requests && Doomed(states[j], states[j].requests[rid], token, f, client)
    decreases j
  {
    if i < j {
      DoomedStays(states, actions, i, j - 1, rid, token, f, client);
      RunKeepsInv(states, actions, j - 1);
      assert states[j] == Apply(states[j - 1], actions[j - 1]);
      DoomedStep(states[j - 1], actions[j - 1], rid, token, f, client);
    }
  }

  // ---- provenance ----------------------------------------------------------------------

  /** Rows and access tokens of a family carry the client, owner, resource and scopes
      granted for the one code that started it, and no other family came from that code. */
  lemma FamilyKeepsItsGrant(states: seq<System>, actions: seq<Action>, i: nat, f: FamilyId)
    requires IsRun(states, actions) && i < |states| && f in states[i].families
    ensures
      var s := states[i];
      var code := s.families[f].code;
      && code in s.tables.codes && s.tables.codes[code].consumedAt.Some?
      && (forall token :: token in s.tables.refresh && s.tables.refresh[token].family == f ==>
            IdentityOfRow(s.tables.refresh[token]) == IdentityOfCode(s.tables.codes[code]))
      && (forall id :: id in s.issuedIn && s.issuedIn[id] == f ==>
            AccessMatches(s, id, IdentityOfCode(s.tables.codes[code])))
      && (forall g :: g in s.families && s.families[g].code == code ==> g == f)
  {
    RunKeepsInv(states, actions, i);
    var s := states[i];
    assert FamilyOk(s, f);
    forall token | token in s.tables.refresh && s.tables.refresh[token].family == f
      ensures IdentityOfRow(s.tables.refresh[token]) == IdentityOfCode(s.tables.codes[s.families[f].code])
    {
      assert RowOk(s, token);
    }
    forall id | id in s.issuedIn && s.issuedIn[id] == f
      ensures AccessMatches(s, id, IdentityOfCode(s.tables.codes[s.families[f].code]))
    {
      assert IssuedOk(s, id);
    }
  }
}
