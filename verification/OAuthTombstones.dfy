/** When a family is killed at all, and that honest concurrency can do it. */
module OAuthTombstones {
  import opened Instants
  import opened TokenTables
  import opened OAuthProtocol
  import opened OAuthInvariant
  import opened OAuthIssue
  import opened OAuthTheorems

  // ---- what leads to a revocation of the family ------------------------------------------

  /** At its lookup the request presented a spent token of its client. */
  predicate PresentsSpent(s: System, p: Phase, f: FamilyId) {
    p.Lookup? && Spent(s, p.token, f, p.client)
  }

  /** At its consumption the token it had found usable was spent by then, or past its day of
      expiry. */
  predicate LosesRace(s: System, p: Phase, f: FamilyId) {
    && p.Consume? && p.record.family == f
    && p.token in s.tables.refresh && s.tables.refresh[p.token].family == f
    && (!Usable(s.tables.refresh[p.token]) || !OpenInSql(s.tables.refresh[p.token].expiresAt, s.now))
  }

  /** It was asked to revoke a refresh token of the family. */
  predicate AsksToRevoke(s: System, p: Phase, f: FamilyId) {
    p.RevokeLookup? && p.token in s.tables.refresh && s.tables.refresh[p.token].family == f
  }

  /** The phases from which a family is tombstoned. */
  predicate Kills(p: Phase, f: FamilyId) {
    p == RevokeReplay(f) || (p.RevokeFound? && p.family == f)
  }

  predicate Causes(s: System, rid: RequestId, f: FamilyId) {
    rid in s.requests
    && (PresentsSpent(s, s.requests[rid], f) || LosesRace(s, s.requests[rid], f) || AsksToRevoke(s, s.requests[rid], f))
  }

  // ---- one step ----------------------------------------------------------------------------

  lemma ConsumeKeepsDead(s: System, rid: RequestId, token: Secret, record: RefreshRow)
    ensures StepConsume(s, rid, token, record).tables.deadFamilies == s.tables.deadFamilies
  {
  }

  lemma RedeemKeepsDead(
      s: System, rid: RequestId, code: Secret, client: string, redirectUri: string, challenge: string, f: FamilyId)
    ensures StepRedeem(s, rid, code, client, redirectUri, challenge).tables.deadFamilies == s.tables.deadFamilies
    ensures !Kills(StepRedeem(s, rid, code, client, redirectUri, challenge).requests[rid], f)
  {
  }

  lemma IssueAccessKeepsDead(s: System, rid: RequestId, grant: Grant, draw: Draw)
    ensures StepIssueAccess(s, rid, grant, draw).tables.deadFamilies == s.tables.deadFamilies
    ensures StepIssueAccess(s, rid, grant, draw).requests[rid].IssueRefresh?
  {
  }

  lemma IssueRefreshKeepsDead(s: System, rid: RequestId, grant: Grant, id: TokenId, draw: Draw)
    requires Fresh(s, draw)
    ensures StepIssueRefresh(s, rid, grant, id, draw).tables.deadFamilies == s.tables.deadFamilies
    ensures StepIssueRefresh(s, rid, grant, id, draw).requests[rid].Issued?
  {
  }

  /** Only a request that has turned against a family tombstones it. */
  lemma AdvanceTombstones(s: System, rid: RequestId, draw: Draw, f: FamilyId)
    requires Enabled(s, Advance(rid, draw))
    ensures f in Advanced(s, rid, draw).tables.deadFamilies ==> f in s.tables.deadFamilies || Kills(s.requests[rid], f)
  {
    match s.requests[rid] {
      case Consume(token, record) => ConsumeKeepsDead(s, rid, token, record);
      case Redeem(code, client, redirectUri, challenge) =>
        RedeemKeepsDead(s, rid, code, client, redirectUri, challenge, f);
      case IssueAccess(grant) => IssueAccessKeepsDead(s, rid, grant, draw);
      case IssueRefresh(grant, id) => IssueRefreshKeepsDead(s, rid, grant, id, draw);
      case _ =>
    }
  }

  lemma OnlyKillersTombstone(s: System, a: Action, f: FamilyId)
    requires Enabled(s, a) && f !in s.tables.deadFamilies && f in Apply(s, a).tables.deadFamilies
    ensures a.Advance? && Kills(s.requests[a.rid], f)
  {
    if a.Advance? {
      AdvanceTombstones(s, a.rid, a.draw, f);
    }
  }

  lemma LookupHasCause(s: System, rid: RequestId, f: FamilyId)
    requires rid in s.requests && s.requests[rid].Lookup?
    ensures Kills(AfterLookup(s, s.requests[rid].token, s.requests[rid].client), f) ==> Causes(s, rid, f)
  {
  }

  lemma ConsumerHasCause(s: System, rid: RequestId, token: Secret, record: RefreshRow, f: FamilyId)
    requires rid in s.requests && s.requests[rid] == Consume(token, record) && PhaseOk(s, Consume(token, record))
    ensures Kills(StepConsume(s, rid, token, record).requests[rid], f) ==> Causes(s, rid, f)
  {
  }

  /** A request turns against a family only for one of the three causes. */
  lemma AdvanceHasCause(s: System, rid: RequestId, draw: Draw, f: FamilyId)
    requires Enabled(s, Advance(rid, draw)) && PhaseOk(s, s.requests[rid])
    ensures Kills(Advanced(s, rid, draw).requests[rid], f) ==> Causes(s, rid, f)
  {
    match s.requests[rid] {
      case Lookup(_, _) => LookupHasCause(s, rid, f);
      case Consume(token, record) => ConsumerHasCause(s, rid, token, record, f);
      case Redeem(code, client, redirectUri, challenge) =>
        RedeemKeepsDead(s, rid, code, client, redirectUri, challenge, f);
      case IssueAccess(grant) => IssueAccessKeepsDead(s, rid, grant, draw);
      case IssueRefresh(grant, id) => IssueRefreshKeepsDead(s, rid, grant, id, draw);
      case _ =>
    }
  }

  lemma StepHasCause(s: System, a: Action, rid: RequestId, f: FamilyId)
    requires PhasesOk(s) && Enabled(s, a) && rid in Apply(s, a).requests && Kills(Apply(s, a).requests[rid], f)
    ensures rid in s.requests && (Kills(s.requests[rid], f) || Causes(s, rid, f))
  {
    if rid in s.requests && !Own(rid, a) {
      OthersStayPut(s, a, rid);
    } else if a.Advance? {
      assert OthersStay(s, Advanced(s, a.rid, a.draw), a.rid);
      if a.rid == rid {
        assert PhaseOk(s, s.requests[rid]);
        AdvanceHasCause(s, rid, a.draw, f);
      }
    }
  }

  // ---- over runs ----------------------------------------------------------------------------

  lemma RunPhasesOk(states: seq<System>, actions: seq<Action>, i: nat)
    requires IsRun(states, actions) && i < |states|
    ensures PhasesOk(states[i])
  {
    RunKeepsInv(states, actions, i);
  }

  lemma {:induction false} KillerHadCause(
      states: seq<System>, actions: seq<Action>, i: nat, rid: RequestId, f: FamilyId) returns (k: nat)
    requires IsRun(states, actions) && i < |states| && rid in states[i].requests && Kills(states[i].requests[rid], f)
    ensures k < i && Causes(states[k], rid, f)
  {
    assert i > 0;
    var s := states[i - 1];
    assert states[i] == Apply(s, actions[i - 1]);
    RunPhasesOk(states, actions, i - 1);
    StepHasCause(s, actions[i - 1], rid, f);
    if Kills(s.requests[rid], f) {
      k := KillerHadCause(states, actions, i - 1, rid, f);
    } else {
      k := i - 1;
    }
  }

  /** The converse of replay detection. In every run a family is tombstoned only by a request
      that, earlier, presented a spent token with the right client, or lost its token to a
      race or to the end of its day of expiry between lookup and consumption, or was asked to
      revoke a token of the family. */
  lemma TombstoneHasCause(states: seq<System>, actions: seq<Action>, i: nat, f: FamilyId) returns (k: nat)
    requires IsRun(states, actions) && i < |actions|
    requires f !in states[i].tables.deadFamilies && f in states[i + 1].tables.deadFamilies
    ensures actions[i].Advance? && k < i && Causes(states[k], actions[i].rid, f)
  {
    assert states[i + 1] == Apply(states[i], actions[i]);
    OnlyKillersTombstone(states[i], actions[i], f);
    k := KillerHadCause(states, actions, i, actions[i].rid, f);
  }

  // ---- every cause kills -----------------------------------------------------------------------

  /** The request has a cause against the family, is about to kill it, or has; or it died. */
  ghost predicate Turned(s: System, p: Phase, f: FamilyId) {
    || PresentsSpent(s, p, f) || LosesRace(s, p, f) || AsksToRevoke(s, p, f)
    || Kills(p, f)
    || (f in s.tables.deadFamilies && (p.Rejected? || p.Answered? || p.RevokeByAccess? || p.RevokeById?))
    || (p.Aborted? && p.held.None?)
  }

  lemma TimeGoesOn(s: System, a: Action)
    requires Enabled(s, a)
    ensures s.now <= Apply(s, a).now
  {
    if a.Advance? {
      match s.requests[a.rid] {
        case Consume(token, record) => assert StepConsume(s, a.rid, token, record).now == s.now;
        case _ =>
      }
    }
  }

  /** A cause does not go away: rows stay, spent tokens stay spent, and time only goes on. */
  lemma CauseStays(s: System, s2: System, p: Phase, f: FamilyId)
    requires Turned(s, p, f) && Grows(s, s2) && s.now <= s2.now
    ensures Turned(s2, p, f)
  {
    if LosesRace(s, p, f) {
      DayIsMonotone(s.now, s2.now);
    } else if PresentsSpent(s, p, f) {
      assert IdentityOfRow(s2.tables.refresh[p.token]).client == p.client;
    }
  }

  lemma TurnedConsumerStep(s: System, rid: RequestId, token: Secret, record: RefreshRow, f: FamilyId)
    requires rid in s.requests && s.requests[rid] == Consume(token, record) && LosesRace(s, s.requests[rid], f)
    ensures StepConsume(s, rid, token, record).requests[rid] == RevokeReplay(f)
  {
  }

  lemma KillerStep(s: System, rid: RequestId, draw: Draw, f: FamilyId)
    requires Enabled(s, Advance(rid, draw)) && Kills(s.requests[rid], f)
    ensures Turned(Advanced(s, rid, draw), Advanced(s, rid, draw).requests[rid], f)
  {
  }

  lemma TurnedOwnStep(s: System, rid: RequestId, draw: Draw, f: FamilyId)
    requires Enabled(s, Advance(rid, draw)) && Turned(s, s.requests[rid], f)
    requires s.tables.deadFamilies <= Advanced(s, rid, draw).tables.deadFamilies
    ensures Turned(Advanced(s, rid, draw), Advanced(s, rid, draw).requests[rid], f)
  {
    match s.requests[rid] {
      case Consume(token, record) => TurnedConsumerStep(s, rid, token, record, f);
      case RevokeReplay(_) => KillerStep(s, rid, draw, f);
      case RevokeFound(_, _) =>
        if Kills(s.requests[rid], f) {
          KillerStep(s, rid, draw, f);
        }
      case _ =>
    }
  }

  lemma TurnedOwnAction(s: System, a: Action, rid: RequestId, f: FamilyId)
    requires Enabled(s, a) && rid in s.requests && Turned(s, s.requests[rid], f) && Own(rid, a)
    requires s.tables.deadFamilies <= Apply(s, a).tables.deadFamilies
    ensures rid in Apply(s, a).requests && Turned(Apply(s, a), Apply(s, a).requests[rid], f)
  {
    if a.Advance? {
      assert OthersStay(s, Advanced(s, rid, a.draw), rid);
      TurnedOwnStep(s, rid, a.draw, f);
    }
  }

  lemma TurnedStep(s: System, a: Action, rid: RequestId, f: FamilyId)
    requires Inv(s) && Enabled(s, a) && rid in s.requests && Turned(s, s.requests[rid], f)
    ensures rid in Apply(s, a).requests && Turned(Apply(s, a), Apply(s, a).requests[rid], f)
  {
    StepKeepsInv(s, a);
    TimeGoesOn(s, a);
    if Own(rid, a) {
      TurnedOwnAction(s, a, rid, f);
    } else {
      OthersStayPut(s, a, rid);
      CauseStays(s, Apply(s, a), s.requests[rid], f);
    }
  }

  lemma {:induction false} TurnedStays(
      states: seq<System>, actions: seq<Action>, i: nat, j: nat, rid: RequestId, f: FamilyId)
    requires IsRun(states, actions) && i <= j < |states|
    requires rid in states[i].requests && Turned(states[i], states[i].requests[rid], f)
    ensures rid in states[j].requests && Turned(states[j], states[j].requests[rid], f)
    decreases j
  {
    if i < j {
      TurnedStays(states, actions, i, j - 1, rid, f);
      RunKeepsInv(states, actions, j - 1);
      assert states[j] == Apply(states[j - 1], actions[j - 1]);
      TurnedStep(states[j - 1], actions[j - 1], rid, f);
    }
  }

  /** The converse of `TombstoneHasCause`: in every run each of the three causes kills the family
      by the time its request has ended, unless the request dies; and it is never answered. */
  lemma CauseKillsFamily(
      states: seq<System>, actions: seq<Action>, i: nat, j: nat, rid: RequestId, f: FamilyId)
    requires IsRun(states, actions) && i <= j < |states| && Causes(states[i], rid, f)
    ensures rid in states[j].requests
    ensures
      var p := states[j].requests[rid];
      && !p.Issued? && !Holding(p)
      && (Ended(p) && !p.Aborted? ==> f in states[j].tables.deadFamilies && FamilyRevoked(states[j].tables, f))
  {
    TurnedStays(states, actions, i, j, rid, f);
    if f in states[j].tables.deadFamilies {
      DeadFamilyIsRevoked(states, actions, j, j, f);
    }
  }

  // ---- two honest refreshes ------------------------------------------------------------------

  /** Two requests of the client have looked up the same usable token. */
  predicate BothFound(s: System, r1: RequestId, r2: RequestId, token: Secret) {
    && r1 != r2 && r1 in s.requests && r2 in s.requests
    && s.requests[r1].Consume? && s.requests[r1].token == token
    && s.requests[r2].Consume? && s.requests[r2].token == token
    && token in s.tables.refresh && Usable(s.tables.refresh[token])
    && OpenInSql(s.tables.refresh[token].expiresAt, s.now)
  }

  lemma FirstConsumes(s: System, r1: RequestId, r2: RequestId, token: Secret, draw: Draw)
    requires PhasesOk(s) && BothFound(s, r1, r2, token) && Fresh(s, draw)
    ensures Enabled(s, Advance(r1, draw))
    ensures
      var s1 := Apply(s, Advance(r1, draw));
      && Fresh(s1, draw) && r1 in s1.requests && s1.requests[r1].IssueAccess?
      && r2 in s1.requests && s1.requests[r2] == s.requests[r2]
      && token in s1.tables.refresh && !Usable(s1.tables.refresh[token])
  {
    var Consume(_, record) := s.requests[r1];
    assert OthersStay(s, StepConsume(s, r1, token, record), r1);
  }

  /** Two steps of the request tombstone the family and move no other request. */
  predicate KilledBy(s: System, r: RequestId, draw: Draw, f: FamilyId)
    requires Enabled(s, Advance(r, draw))
  {
    var s1 := Apply(s, Advance(r, draw));
    && Enabled(s1, Advance(r, draw)) && OthersStay(s, s1, r)
    && OthersStay(s1, Apply(s1, Advance(r, draw)), r)
    && f in Apply(s1, Advance(r, draw)).tables.deadFamilies
  }

  lemma SecondKills(s: System, r: RequestId, token: Secret, draw: Draw)
    requires r in s.requests && s.requests[r].Consume? && s.requests[r].token == token && Fresh(s, draw)
    requires token in s.tables.refresh && !Usable(s.tables.refresh[token])
    ensures Enabled(s, Advance(r, draw)) && KilledBy(s, r, draw, s.requests[r].record.family)
  {
    var Consume(_, record) := s.requests[r];
    assert OthersStay(s, StepConsume(s, r, token, record), r);
  }

  /** Two honest refreshes at once kill the family: the second to consume takes the first one's
      consumption for a replay, while the first still has its pair to create. */
  lemma ConcurrentRefreshesKillFamily(s: System, r1: RequestId, r2: RequestId, token: Secret, draw: Draw)
    requires PhasesOk(s) && BothFound(s, r1, r2, token) && Fresh(s, draw)
    ensures Enabled(s, Advance(r1, draw))
    ensures Enabled(Apply(s, Advance(r1, draw)), Advance(r2, draw))
    ensures KilledBy(Apply(s, Advance(r1, draw)), r2, draw, s.tables.refresh[token].family)
    ensures r1 in Apply(s, Advance(r1, draw)).requests && Apply(s, Advance(r1, draw)).requests[r1].IssueAccess?
  {
    assert PhaseOk(s, s.requests[r2]);
    FirstConsumes(s, r1, r2, token, draw);
    SecondKills(Apply(s, Advance(r1, draw)), r2, token, draw);
  }
}
