/** The two issuing steps keep the protocol invariant. */
module OAuthIssue {
  import opened Options
  import opened TokenTables
  import opened OAuthProtocol
  import opened OAuthInvariant
  import opened OAuthSteps

  // ---- creating the access token ------------------------------------------------

  ghost predicate IssuesAccess(s: System, s2: System, rid: RequestId, g: Grant, draw: Draw) {
    && rid in s.requests
    && s.requests[rid] == IssueAccess(g)
    && Fresh(s, draw)
    && s2 == StepIssueAccess(s, rid, g, draw)
  }

  lemma IssueAccessGrows(s: System, s2: System, rid: RequestId, g: Grant, draw: Draw)
    requires IssuesAccess(s, s2, rid, g, draw)
    ensures Grows(s, s2)
  {
  }

  lemma IssueAccessDead(s: System, s2: System, rid: RequestId, g: Grant, draw: Draw)
    requires RowsOk(s) && DeadOk(s.tables) && IssuesAccess(s, s2, rid, g, draw)
    ensures DeadOk(s2.tables)
  {
    forall f | f in s2.tables.deadFamilies ensures FamilyRevoked(s2.tables, f) {
      assert FamilyRevoked(s.tables, f);
      forall token | token in s.tables.refresh ensures s.tables.refresh[token].accessTokenId != Some(draw.access) {
        assert RowOk(s, token);
      }
    }
  }

  lemma IssueAccessTables(s: System, s2: System, rid: RequestId, g: Grant, draw: Draw)
    requires RowsOk(s) && FamiliesOk(s) && IssuesOk(s) && PhaseOk(s, IssueAccess(g))
    requires IssuesAccess(s, s2, rid, g, draw) && Grows(s, s2)
    ensures RowsOk(s2) && FamiliesOk(s2) && IssuesOk(s2)
  {
    forall token | token in s2.tables.refresh ensures RowOk(s2, token) {
      RowStable(s, s2, token);
    }
    forall f | f in s2.families ensures FamilyOk(s2, f) {
      FamilyStable(s, s2, f);
    }
    forall id | id in s2.issuedIn ensures IssuedOk(s2, id) {
      if id != draw.access {
        IssuedStable(s, s2, id);
      }
    }
  }

  lemma IssueAccessPhases(s: System, s2: System, rid: RequestId, g: Grant, draw: Draw)
    requires PhasesOk(s) && Bookkeeping(s) && IssuesAccess(s, s2, rid, g, draw) && Grows(s, s2)
    ensures PhasesOk(s2)
  {
    assert PhaseOk(s, IssueAccess(g));
    OriginStable(s, s2, g);
    forall r | r in s2.requests ensures PhaseOk(s2, s2.requests[r]) {
      if r != rid {
        var p := s.requests[r];
        assert PhaseOk(s, p);
        if Holding(p) {
          OriginStable(s, s2, p.grant);
        }
        PhaseStable(s, s2, p);
      }
    }
  }

  lemma IssueAccessBooks(s: System, s2: System, rid: RequestId, g: Grant, draw: Draw)
    requires Bookkeeping(s) && IssuesAccess(s, s2, rid, g, draw) && Grows(s, s2)
    ensures Bookkeeping(s2)
  {
    NothingIssued(s, rid);
    forall id | id in s2.issuedBy ensures Accounted(s2, id) {
      if id != draw.access {
        AccountedStable(s, s2, id);
      }
    }
  }

  lemma IssueAccessStaysExclusive(s: System, s2: System, rid: RequestId, g: Grant, draw: Draw)
    requires Exclusive(s) && OneFamilyPerCode(s) && IssuesAccess(s, s2, rid, g, draw)
    ensures Exclusive(s2) && OneFamilyPerCode(s2)
  {
  }

  lemma IssueAccessLinks(s: System, s2: System, rid: RequestId, g: Grant, draw: Draw)
    requires LinksOk(s) && IssuesAccess(s, s2, rid, g, draw)
    ensures LinksOk(s2)
  {
    forall f, k | f in s2.families && 0 <= k < |s2.families[f].chain|
      ensures LinkAt(s2, f, k)
    {
      assert LinkAt(s, f, k);
    }
  }

  lemma IssueAccessKeepsInv(s: System, rid: RequestId, draw: Draw)
    requires Inv(s) && Enabled(s, Advance(rid, draw)) && s.requests[rid].IssueAccess?
    ensures Inv(Apply(s, Advance(rid, draw))) && Grows(s, Apply(s, Advance(rid, draw)))
  {
    var s2 := Apply(s, Advance(rid, draw));
    var g := s.requests[rid].grant;
    assert PhaseOk(s, s.requests[rid]);
    IssueAccessGrows(s, s2, rid, g, draw);
    IssueAccessDead(s, s2, rid, g, draw);
    IssueAccessTables(s, s2, rid, g, draw);
    IssueAccessPhases(s, s2, rid, g, draw);
    IssueAccessBooks(s, s2, rid, g, draw);
    IssueAccessStaysExclusive(s, s2, rid, g, draw);
    IssueAccessLinks(s, s2, rid, g, draw);
  }

  // ---- creating the refresh token --------------------------------------------------

  ghost predicate IssuesRefresh(s: System, s2: System, rid: RequestId, g: Grant, id: TokenId, draw: Draw) {
    && rid in s.requests
    && s.requests[rid] == IssueRefresh(g, id)
    && Fresh(s, draw)
    && s2 == StepIssueRefresh(s, rid, g, id, draw)
  }

  lemma IssueRefreshGrows(s: System, s2: System, rid: RequestId, g: Grant, id: TokenId, draw: Draw)
    requires IssuesRefresh(s, s2, rid, g, id, draw) && PhaseOk(s, IssueRefresh(g, id))
    ensures Grows(s, s2)
  {
    IssueRefreshHistoryGrows(s, s2, rid, g, id, draw);
    IssueRefreshTablesGrow(s, s2, rid, g, id, draw);
  }

  lemma IssueRefreshHistoryGrows(s: System, s2: System, rid: RequestId, g: Grant, id: TokenId, draw: Draw)
    requires IssuesRefresh(s, s2, rid, g, id, draw) && PhaseOk(s, IssueRefresh(g, id))
    ensures FamiliesGrow(s.families, s2.families) && IssuedGrows(s.issuedIn, s2.issuedIn)
  {
  }

  lemma IssueRefreshTablesGrow(s: System, s2: System, rid: RequestId, g: Grant, id: TokenId, draw: Draw)
    requires IssuesRefresh(s, s2, rid, g, id, draw)
    ensures CodesGrow(s.tables.codes, s2.tables.codes) && AccessGrows(s.tables.access, s2.tables.access)
    ensures RefreshGrows(s.tables.refresh, s2.tables.refresh)
    ensures s.tables.deadFamilies <= s2.tables.deadFamilies
  {
  }

  lemma IssueRefreshDead(s: System, s2: System, rid: RequestId, g: Grant, id: TokenId, draw: Draw)
    requires DeadOk(s.tables) && IssuesRefresh(s, s2, rid, g, id, draw)
    ensures DeadOk(s2.tables)
  {
    forall f | f in s2.tables.deadFamilies ensures FamilyRevoked(s2.tables, f) {
      assert FamilyRevoked(s.tables, f);
    }
  }

  lemma IssueRefreshRows(s: System, s2: System, rid: RequestId, g: Grant, id: TokenId, draw: Draw)
    requires RowsOk(s) && IssuesOk(s) && PhaseOk(s, IssueRefresh(g, id)) && Grows(s, s2)
    requires IssuesRefresh(s, s2, rid, g, id, draw)
    ensures RowsOk(s2) && IssuesOk(s2)
  {
    forall token | token in s2.tables.refresh ensures RowOk(s2, token) {
      if token != draw.refresh {
        RowStable(s, s2, token);
      }
    }
    forall i | i in s2.issuedIn ensures IssuedOk(s2, i) {
      if i != id {
        IssuedStable(s, s2, i);
      }
    }
  }

  lemma ChainExtends(
      r1: map<Secret, RefreshRow>, r2: map<Secret, RefreshRow>, f: FamilyId, chain: seq<Secret>, token: Secret)
    requires RefreshGrows(r1, r2) && ChainOk(r1, f, chain) && r1[chain[|chain| - 1]].consumedAt.Some?
    requires token !in r1 && token in r2 && r2[token].family == f
    ensures ChainOk(r2, f, chain + [token])
  {
  }

  /** The new token lengthens the chain of a family whose newest token is consumed. */
  lemma IssueRefreshExtends(s: System, s2: System, rid: RequestId, g: Grant, id: TokenId, draw: Draw)
    requires FamiliesOk(s) && OriginOk(s, g) && Grows(s, s2)
    requires IssuesRefresh(s, s2, rid, g, id, draw) && g.origin.FromRefresh?
    ensures FamilyOk(s2, g.origin.family)
  {
    var f := g.origin.family;
    assert FamilyOk(s, f);
    ChainExtends(s.tables.refresh, s2.tables.refresh, f, s.families[f].chain, draw.refresh);
  }

  lemma GrantScopesStable(s: System, g: Grant)
    requires OriginOk(s, g) && g.origin.FromCode?
    ensures GrantedScopes(g.identity.scopes) == g.identity.scopes
  {
    GrantedScopesIdempotent(Words(s.tables.codes[g.origin.code].scope));
  }

  lemma IssueRefreshOpens(s: System, s2: System, rid: RequestId, g: Grant, id: TokenId, draw: Draw)
    requires OriginOk(s, g) && IssuesRefresh(s, s2, rid, g, id, draw) && g.origin.FromCode?
    ensures FamilyOk(s2, draw.family)
  {
    GrantScopesStable(s, g);
  }

  lemma IssueRefreshFamilies(s: System, s2: System, rid: RequestId, g: Grant, id: TokenId, draw: Draw)
    requires FamiliesOk(s) && OriginOk(s, g) && Grows(s, s2)
    requires IssuesRefresh(s, s2, rid, g, id, draw)
    ensures FamiliesOk(s2)
  {
    forall f | f in s2.families ensures FamilyOk(s2, f) {
      if f != TargetFamily(g, draw.family) {
        FamilyStable(s, s2, f);
      } else if g.origin.FromRefresh? {
        IssueRefreshExtends(s, s2, rid, g, id, draw);
      } else {
        IssueRefreshOpens(s, s2, rid, g, id, draw);
      }
    }
  }

  lemma IssueRefreshCodes(s: System, s2: System, rid: RequestId, g: Grant, id: TokenId, draw: Draw)
    requires OneFamilyPerCode(s) && OriginOk(s, g)
    requires IssuesRefresh(s, s2, rid, g, id, draw)
    ensures OneFamilyPerCode(s2)
  {
  }

  /** Another holder of the same family cannot exist: it would hold the same token. */
  lemma OtherHoldersElsewhere(s: System, rid: RequestId, r: RequestId, f: FamilyId)
    requires PhasesOk(s) && Exclusive(s) && rid in s.requests && r in s.requests && r != rid
    requires Holding(s.requests[rid]) && Holding(s.requests[r])
    requires s.requests[rid].grant.origin.FromRefresh? && s.requests[rid].grant.origin.family == f
    requires s.requests[r].grant.origin.FromRefresh?
    ensures s.requests[r].grant.origin.family != f
  {
    assert PhaseOk(s, s.requests[rid]);
    assert PhaseOk(s, s.requests[r]);
  }

  lemma IssueRefreshOrigin(s: System, s2: System, rid: RequestId, g: Grant, id: TokenId, draw: Draw, r: RequestId)
    requires PhasesOk(s) && Exclusive(s) && IssuesRefresh(s, s2, rid, g, id, draw) && Grows(s, s2)
    requires r in s.requests && r != rid && Holding(s.requests[r])
    ensures OriginOk(s2, s.requests[r].grant)
  {
    var other := s.requests[r].grant;
    assert PhaseOk(s, s.requests[r]);
    if other.origin.FromRefresh? {
      if g.origin.FromRefresh? {
        OtherHoldersElsewhere(s, rid, r, g.origin.family);
      }
      assert s2.families[other.origin.family] == s.families[other.origin.family];
    }
    OriginStable(s, s2, other);
  }

  lemma IssueRefreshPhases(s: System, s2: System, rid: RequestId, g: Grant, id: TokenId, draw: Draw)
    requires PhasesOk(s) && Exclusive(s) && Bookkeeping(s)
    requires IssuesRefresh(s, s2, rid, g, id, draw) && Grows(s, s2)
    ensures PhasesOk(s2)
  {
    forall r | r in s2.requests ensures PhaseOk(s2, s2.requests[r]) {
      if r != rid {
        var p := s.requests[r];
        assert PhaseOk(s, p);
        if Holding(p) {
          IssueRefreshOrigin(s, s2, rid, g, id, draw, r);
        }
        if p.IssueRefresh? {
          assert s.issuedBy[p.accessId] == r && s.issuedBy[id] == rid;
        }
        PhaseStable(s, s2, p);
      }
    }
  }

  lemma IssueRefreshAccounts(s: System, s2: System, rid: RequestId, g: Grant, id: TokenId, draw: Draw, i: TokenId)
    requires IssuesRefresh(s, s2, rid, g, id, draw) && Grows(s, s2)
    requires i in s.issuedBy && Accounted(s, i)
    ensures Accounted(s2, i)
  {
    if s.issuedBy[i] != rid {
      AccountedStable(s, s2, i);
    }
  }

  lemma IssueRefreshBooks(s: System, s2: System, rid: RequestId, g: Grant, id: TokenId, draw: Draw)
    requires Bookkeeping(s) && IssuesRefresh(s, s2, rid, g, id, draw) && Grows(s, s2)
    ensures Bookkeeping(s2)
  {
    forall i | i in s2.issuedBy ensures Accounted(s2, i) {
      IssueRefreshAccounts(s, s2, rid, g, id, draw, i);
    }
  }

  lemma IssueRefreshExclusive(s: System, s2: System, rid: RequestId, g: Grant, id: TokenId, draw: Draw)
    requires Exclusive(s) && IssuesRefresh(s, s2, rid, g, id, draw)
    ensures Exclusive(s2)
  {
  }

  lemma LinkStable(s: System, s2: System, rid: RequestId, token: Secret, origin: Origin)
    requires IssuedFor(s, token, origin) && Grows(s, s2) && OthersStay(s, s2, rid) && s2.issuedBy == s.issuedBy
    requires rid in s.requests && !s.requests[rid].Issued?
    ensures IssuedFor(s2, token, origin)
  {
  }

  lemma NewLink(s: System, s2: System, rid: RequestId, g: Grant, id: TokenId, draw: Draw)
    requires Bookkeeping(s) && OriginOk(s, g) && IssuesRefresh(s, s2, rid, g, id, draw)
    ensures
      var f := TargetFamily(g, draw.family);
      var k := |s2.families[f].chain| - 1;
      && k >= 0
      && (f in s.families ==> k == |s.families[f].chain|)
      && (f !in s.families ==> k == 0)
      && LinkAt(s2, f, k)
  {
  }

  /** One family gains one token at the end of its chain; all earlier answers stay linked. */
  lemma LinksExtend(s: System, s2: System, rid: RequestId, target: FamilyId)
    requires LinksOk(s) && Grows(s, s2) && OthersStay(s, s2, rid) && s2.issuedBy == s.issuedBy
    requires rid in s.requests && !s.requests[rid].Issued?
    requires target in s2.families && s2.families[target].chain != []
    requires forall f :: f in s2.families && f != target ==> f in s.families && s2.families[f] == s.families[f]
    requires var k := |s2.families[target].chain| - 1;
             && (if target in s.families then k == |s.families[target].chain| else k == 0)
             && LinkAt(s2, target, k)
    ensures LinksOk(s2)
  {
    forall f, k | f in s2.families && 0 <= k < |s2.families[f].chain|
      ensures LinkAt(s2, f, k)
    {
      if f in s.families && k < |s.families[f].chain| {
        assert LinkAt(s, f, k);
        assert s2.families[f].chain[k] == s.families[f].chain[k];
        assert ExpectedOrigin(f, s2.families[f], k) == ExpectedOrigin(f, s.families[f], k);
        LinkStable(s, s2, rid, s.families[f].chain[k], ExpectedOrigin(f, s.families[f], k));
      }
    }
  }

  lemma IssueRefreshLinks(s: System, s2: System, rid: RequestId, g: Grant, id: TokenId, draw: Draw)
    requires LinksOk(s) && Bookkeeping(s) && OriginOk(s, g) && Grows(s, s2)
    requires IssuesRefresh(s, s2, rid, g, id, draw)
    ensures LinksOk(s2)
  {
    NewLink(s, s2, rid, g, id, draw);
    LinksExtend(s, s2, rid, TargetFamily(g, draw.family));
  }

  lemma IssueRefreshKeepsInv(s: System, rid: RequestId, draw: Draw)
    requires Inv(s) && Enabled(s, Advance(rid, draw)) && s.requests[rid].IssueRefresh?
    ensures Inv(Apply(s, Advance(rid, draw))) && Grows(s, Apply(s, Advance(rid, draw)))
  {
    var s2 := Apply(s, Advance(rid, draw));
    var IssueRefresh(g, id) := s.requests[rid];
    assert PhaseOk(s, s.requests[rid]);
    IssueRefreshGrows(s, s2, rid, g, id, draw);
    IssueRefreshDead(s, s2, rid, g, id, draw);
    IssueRefreshRows(s, s2, rid, g, id, draw);
    IssueRefreshFamilies(s, s2, rid, g, id, draw);
    IssueRefreshCodes(s, s2, rid, g, id, draw);
    IssueRefreshPhases(s, s2, rid, g, id, draw);
    IssueRefreshBooks(s, s2, rid, g, id, draw);
    IssueRefreshExclusive(s, s2, rid, g, id, draw);
    IssueRefreshLinks(s, s2, rid, g, id, draw);
  }

  // ---- every action ------------------------------------------------------------------

  lemma AdvanceKeepsInv(s: System, rid: RequestId, draw: Draw)
    requires Inv(s) && Enabled(s, Advance(rid, draw))
    ensures Inv(Apply(s, Advance(rid, draw))) && Grows(s, Apply(s, Advance(rid, draw)))
  {
    match s.requests[rid] {
      case Lookup(_, _) => LookupKeepsInv(s, rid, draw);
      case Consume(_, _) => ConsumeKeepsInv(s, rid, draw);
      case RevokeReplay(_) => ReplayKeepsInv(s, rid, draw);
      case Redeem(_, _, _, _) => RedeemKeepsInv(s, rid, draw);
      case IssueAccess(_) => IssueAccessKeepsInv(s, rid, draw);
      case IssueRefresh(_, _) => IssueRefreshKeepsInv(s, rid, draw);
      case Compensate(_) => CompensateKeepsInv(s, rid, draw);
      case _ => RevocationKeepsInv(s, rid, draw);
    }
  }

  lemma StepKeepsInv(s: System, a: Action)
    requires Inv(s) && Enabled(s, a)
    ensures Inv(Apply(s, a)) && Grows(s, Apply(s, a))
  {
    match a {
      case Tick(_) => EnvironmentKeepsInv(s, a);
      case Authorize(_, _) => EnvironmentKeepsInv(s, a);
      case Start(rid, phase) => StartKeepsInv(s, rid, phase);
      case Advance(rid, draw) => AdvanceKeepsInv(s, rid, draw);
      case CreationFails(_) => FailureKeepsInv(s, a);
      case Abort(_) => FailureKeepsInv(s, a);
    }
  }

  /** Every state of every run satisfies the invariant and takes nothing back. */
  lemma {:induction false} RunKeepsInv(states: seq<System>, actions: seq<Action>, i: nat)
    requires IsRun(states, actions) && i < |states|
    ensures Inv(states[i]) && (i > 0 ==> Grows(states[i - 1], states[i]))
  {
    if i > 0 {
      RunKeepsInv(states, actions, i - 1);
      assert states[i] == Apply(states[i - 1], actions[i - 1]);
      StepKeepsInv(states[i - 1], actions[i - 1]);
    }
  }

  /** Along a run rows keep their identity, marks stay set and tombstones stay. */
  lemma {:induction false} RunGrows(states: seq<System>, actions: seq<Action>, i: nat, j: nat)
    requires IsRun(states, actions) && i <= j < |states|
    ensures Grows(states[i], states[j])
    decreases j
  {
    if i < j {
      RunGrows(states, actions, i, j - 1);
      RunKeepsInv(states, actions, j);
      GrowsTransitive(states[i], states[j - 1], states[j]);
    }
  }

  lemma GrowsTransitive(s1: System, s2: System, s3: System)
    requires Grows(s1, s2) && Grows(s2, s3)
    ensures Grows(s1, s3)
  {
    forall f | f in s1.families ensures s1.families[f].chain <= s3.families[f].chain {
      assert s1.families[f].chain <= s2.families[f].chain <= s3.families[f].chain;
    }
  }
}
