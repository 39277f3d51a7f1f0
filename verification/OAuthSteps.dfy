/** Every enabled action keeps the protocol invariant and only adds to the record. */
module OAuthSteps {
  import opened Options
  import opened TokenTables
  import opened OAuthProtocol
  import opened OAuthInvariant

  // ---- steps that leave the history alone -------------------------------------

  /** Tables change by growth only; no row, family or issue record is new. */
  ghost predicate Quiet(s1: System, s2: System) {
    && Grows(s1, s2)
    && s2.tables.refresh.Keys == s1.tables.refresh.Keys
    && s2.families == s1.families
    && s2.issuedBy == s1.issuedBy
    && s2.issuedIn == s1.issuedIn
    && DeadOk(s2.tables)
  }

  lemma QuietTables(s1: System, s2: System)
    requires Inv(s1) && Quiet(s1, s2)
    ensures RowsOk(s2) && FamiliesOk(s2) && IssuesOk(s2) && OneFamilyPerCode(s2)
  {
    forall token | token in s2.tables.refresh ensures RowOk(s2, token) {
      RowStable(s1, s2, token);
    }
    forall f | f in s2.families ensures FamilyOk(s2, f) {
      FamilyStable(s1, s2, f);
    }
    forall id | id in s2.issuedIn ensures IssuedOk(s2, id) {
      IssuedStable(s1, s2, id);
    }
  }

  lemma QuietPhase(s1: System, s2: System, p: Phase)
    requires Quiet(s1, s2) && PhaseOk(s1, p)
    ensures PhaseOk(s2, p)
  {
    if Holding(p) {
      OriginStable(s1, s2, p.grant);
    }
    PhaseStable(s1, s2, p);
  }

  /** Answers given stay linked as long as answered requests stay as they are. */
  lemma QuietLinks(s1: System, s2: System)
    requires LinksOk(s1) && Quiet(s1, s2)
    requires forall r :: r in s1.requests && s1.requests[r].Issued? ==>
                           r in s2.requests && s2.requests[r] == s1.requests[r]
    ensures LinksOk(s2)
  {
    forall f, k | f in s2.families && 0 <= k < |s2.families[f].chain|
      ensures LinkAt(s2, f, k)
    {
      assert LinkAt(s1, f, k);
    }
  }

  lemma QuietIdleKeepsInv(s1: System, s2: System)
    requires Inv(s1) && Quiet(s1, s2) && s2.requests == s1.requests
    ensures Inv(s2)
  {
    QuietTables(s1, s2);
    QuietLinks(s1, s2);
    forall r | r in s2.requests ensures PhaseOk(s2, s2.requests[r]) {
      QuietPhase(s1, s2, s1.requests[r]);
    }
    forall id | id in s2.issuedBy ensures Accounted(s2, id) {
      AccountedStable(s1, s2, id);
    }
  }

  /** The request moves to a phase that holds nothing and accounts for what it issued. */
  lemma QuietMoveKeepsInv(s1: System, s2: System, rid: RequestId, p: Phase)
    requires Inv(s1) && Quiet(s1, s2) && s2.requests == s1.requests[rid := p]
    requires PhaseOk(s2, p) && !p.IssueRefresh? && !p.Issued?
    requires rid in s1.requests ==> !s1.requests[rid].Issued?
    requires p.IssueAccess? ==>
               forall r :: r in s1.requests && r != rid && Holding(s1.requests[r]) ==>
                             s1.requests[r].grant.origin != p.grant.origin
    requires forall id :: id in s1.issuedBy && s1.issuedBy[id] == rid ==> Accounted(s2, id)
    ensures Inv(s2)
  {
    QuietTables(s1, s2);
    QuietLinks(s1, s2);
    forall r | r in s2.requests ensures PhaseOk(s2, s2.requests[r]) {
      if r != rid {
        QuietPhase(s1, s2, s1.requests[r]);
      }
    }
    forall id | id in s2.issuedBy ensures Accounted(s2, id) {
      if s1.issuedBy[id] != rid {
        AccountedStable(s1, s2, id);
      }
    }
  }

  predicate BeforeIssue(p: Phase) {
    || p.Lookup? || p.Consume? || p.RevokeReplay? || p.Redeem? || p.IssueAccess?
    || p.RevokeLookup? || p.RevokeFound? || p.RevokeByAccess? || p.RevokeById?
  }

  /** A request that has issued nothing accounts for nothing. */
  lemma NothingIssued(s: System, rid: RequestId)
    requires Bookkeeping(s) && (rid in s.requests ==> BeforeIssue(s.requests[rid]))
    ensures forall id :: id in s.issuedBy ==> s.issuedBy[id] != rid
  {
    forall id | id in s.issuedBy ensures s.issuedBy[id] != rid {
      assert Accounted(s, id);
    }
  }

  lemma Unchanged(s1: System, s2: System)
    requires DeadOk(s1.tables) && s2.tables == s1.tables
    requires s2.families == s1.families && s2.issuedBy == s1.issuedBy && s2.issuedIn == s1.issuedIn
    ensures Quiet(s1, s2)
  {
  }

  /** A request with nothing issued moves on without touching the tables. */
  lemma StayingKeepsInv(s: System, rid: RequestId, p: Phase)
    requires Inv(s) && PhaseOk(s, p) && !Holding(p) && !p.Issued?
    requires rid in s.requests ==> BeforeIssue(s.requests[rid])
    ensures Inv(Move(s, rid, p)) && Grows(s, Move(s, rid, p))
  {
    var s2 := Move(s, rid, p);
    Unchanged(s, s2);
    QuietPhase(s, s2, p);
    NothingIssued(s, rid);
    QuietMoveKeepsInv(s, s2, rid, p);
  }

  // ---- marking rows ----------------------------------------------------------------

  /** Rows are only marked (consumed or revoked) and families only tombstoned. */
  ghost predicate OnlyMarks(t1: Tables, t2: Tables) {
    && t2.codes == t1.codes
    && AccessGrows(t1.access, t2.access)
    && RefreshGrows(t1.refresh, t2.refresh)
    && t2.refresh.Keys == t1.refresh.Keys
    && t1.deadFamilies <= t2.deadFamilies
    && (forall f :: f in t2.deadFamilies && f !in t1.deadFamilies ==> FamilyRevoked(t2, f))
  }

  lemma DeadStays(t1: Tables, t2: Tables)
    requires DeadOk(t1) && AccessGrows(t1.access, t2.access) && RefreshGrows(t1.refresh, t2.refresh)
    requires t2.refresh.Keys == t1.refresh.Keys
    requires forall token :: token in t1.refresh && t1.refresh[token].accessTokenId.Some? ==>
                               t1.refresh[token].accessTokenId.value in t1.access
    requires forall f :: f in t2.deadFamilies && f !in t1.deadFamilies ==> FamilyRevoked(t2, f)
    ensures DeadOk(t2)
  {
    forall f | f in t2.deadFamilies ensures FamilyRevoked(t2, f) {
      if f in t1.deadFamilies {
        assert FamilyRevoked(t1, f);
      }
    }
  }

  lemma MarkingIsQuiet(s1: System, s2: System)
    requires Inv(s1) && OnlyMarks(s1.tables, s2.tables)
    requires s2.families == s1.families && s2.issuedBy == s1.issuedBy && s2.issuedIn == s1.issuedIn
    ensures Quiet(s1, s2)
  {
    forall token | token in s1.tables.refresh && s1.tables.refresh[token].accessTokenId.Some?
      ensures s1.tables.refresh[token].accessTokenId.value in s1.tables.access
    {
      assert RowOk(s1, token);
    }
    DeadStays(s1.tables, s2.tables);
  }

  lemma RevokeIdsGrows(access: map<TokenId, AccessRow>, now: nat, ids: set<TokenId>)
    ensures AccessGrows(access, RevokeIds(access, now, ids))
  {
  }

  lemma RevokeFamilyOnlyMarks(t: Tables, now: nat, f: FamilyId)
    ensures OnlyMarks(t, RevokeFamily(t, now, f).0)
  {
    RevokeFamilyKills(t, now, f);
    RevokeIdsGrows(t.access, now, LinkedIds(t.refresh, {f}));
    RevokeFamiliesGrows(t.refresh, now, {f});
  }

  // ---- one lemma per kind of step ------------------------------------------------

  lemma LookupPhaseOk(s: System, token: Secret, client: string)
    ensures PhaseOk(s, AfterLookup(s, token, client))
    ensures !Holding(AfterLookup(s, token, client)) && !AfterLookup(s, token, client).Issued?
  {
  }

  lemma LookupKeepsInv(s: System, rid: RequestId, draw: Draw)
    requires Inv(s) && Enabled(s, Advance(rid, draw)) && s.requests[rid].Lookup?
    ensures Inv(Apply(s, Advance(rid, draw))) && Grows(s, Apply(s, Advance(rid, draw)))
  {
    var p := AfterLookup(s, s.requests[rid].token, s.requests[rid].client);
    LookupPhaseOk(s, s.requests[rid].token, s.requests[rid].client);
    StayingKeepsInv(s, rid, p);
  }

  lemma ConsumeOnlyMarks(t: Tables, now: nat, token: Secret)
    ensures OnlyMarks(t, ConsumeRefresh(t, now, token).0)
  {
  }

  /** Consuming marks at most one row, and only as consumed. */
  lemma ConsumeIsQuiet(s: System, token: Secret)
    requires Inv(s)
    ensures Quiet(s, s.(tables := ConsumeRefresh(s.tables, s.now, token).0))
  {
    ConsumeOnlyMarks(s.tables, s.now, token);
    MarkingIsQuiet(s, s.(tables := ConsumeRefresh(s.tables, s.now, token).0));
  }

  lemma ConsumedGrantOk(s: System, s2: System, token: Secret, record: RefreshRow)
    requires RowsOk(s) && FamiliesOk(s) && PhaseOk(s, Consume(token, record))
    requires s2.families == s.families && s2.tables == ConsumeRefresh(s.tables, s.now, token).0
    requires ConsumeRefresh(s.tables, s.now, token).1.Some?
    ensures OriginOk(s2, Grant(IdentityOfRow(record).(scopes := GrantedScopes(record.scopes)),
                               FromRefresh(token, record.family)))
  {
    NewestIfUsable(s, token);
    assert RowOk(s, token);
    assert FamilyOk(s, record.family);
  }

  lemma NobodyElseHoldsUnconsumed(s: System, token: Secret, f: FamilyId, r: RequestId)
    requires PhasesOk(s) && token in s.tables.refresh && s.tables.refresh[token].consumedAt.None?
    requires r in s.requests && Holding(s.requests[r])
    ensures s.requests[r].grant.origin != FromRefresh(token, f)
  {
    assert PhaseOk(s, s.requests[r]);
  }

  lemma ConsumeOutcome(s: System, s2: System, rid: RequestId, token: Secret, record: RefreshRow)
    requires RowsOk(s) && FamiliesOk(s) && PhaseOk(s, Consume(token, record))
    requires s2 == StepConsume(s, rid, token, record)
    ensures PhaseOk(s2, s2.requests[rid])
    ensures s2.requests[rid].IssueAccess? ==>
              && s2.requests[rid].grant.origin == FromRefresh(token, record.family)
              && s.tables.refresh[token].consumedAt.None?
  {
    if ConsumeRefresh(s.tables, s.now, token).1.Some? {
      ConsumedGrantOk(s, s2, token, record);
    }
  }

  lemma ConsumeKeepsInv(s: System, rid: RequestId, draw: Draw)
    requires Inv(s) && Enabled(s, Advance(rid, draw)) && s.requests[rid].Consume?
    ensures Inv(Apply(s, Advance(rid, draw))) && Grows(s, Apply(s, Advance(rid, draw)))
  {
    var Consume(token, record) := s.requests[rid];
    assert PhaseOk(s, s.requests[rid]);
    NothingIssued(s, rid);
    ConsumeStepKeepsInv(s, StepConsume(s, rid, token, record), rid, token, record);
  }

  lemma ConsumeStepKeepsInv(s: System, s2: System, rid: RequestId, token: Secret, record: RefreshRow)
    requires Inv(s) && PhaseOk(s, Consume(token, record))
    requires s2 == StepConsume(s, rid, token, record)
    requires rid in s.requests && !s.requests[rid].Issued?
    requires forall id :: id in s.issuedBy ==> s.issuedBy[id] != rid
    ensures Inv(s2) && Grows(s, s2)
  {
    var p := s2.requests[rid];
    assert Quiet(s, s2) by {
      ConsumeIsQuiet(s, token);
    }
    ConsumeOutcome(s, s2, rid, token, record);
    if p.IssueAccess? {
      forall r | r in s.requests && r != rid && Holding(s.requests[r])
        ensures s.requests[r].grant.origin != p.grant.origin
      {
        NobodyElseHoldsUnconsumed(s, token, record.family, r);
      }
    }
    QuietMoveKeepsInv(s, s2, rid, p);
  }

  /** A token that can still be consumed is the newest of its family. */
  lemma NewestIfUsable(s: System, token: Secret)
    requires RowsOk(s) && FamiliesOk(s)
    requires token in s.tables.refresh && s.tables.refresh[token].consumedAt.None?
    ensures s.tables.refresh[token].family in s.families
    ensures s.families[s.tables.refresh[token].family].chain != []
    ensures token == Last(s.families[s.tables.refresh[token].family])
  {
    assert RowOk(s, token);
    assert FamilyOk(s, s.tables.refresh[token].family);
  }

  lemma ReplayKeepsInv(s: System, rid: RequestId, draw: Draw)
    requires Inv(s) && Enabled(s, Advance(rid, draw)) && s.requests[rid].RevokeReplay?
    ensures Inv(Apply(s, Advance(rid, draw))) && Grows(s, Apply(s, Advance(rid, draw)))
  {
    var s2 := Apply(s, Advance(rid, draw));
    RevokeFamilyOnlyMarks(s.tables, s.now, s.requests[rid].family);
    MarkingIsQuiet(s, s2);
    NothingIssued(s, rid);
    QuietMoveKeepsInv(s, s2, rid, Rejected);
  }

  lemma NobodyHoldsUnspent(s: System, code: Secret, r: RequestId)
    requires PhasesOk(s) && code in s.tables.codes && s.tables.codes[code].consumedAt.None?
    requires r in s.requests && Holding(s.requests[r])
    ensures s.requests[r].grant.origin != FromCode(code)
  {
    assert PhaseOk(s, s.requests[r]);
  }

  lemma NoFamilyFromUnspent(s: System, code: Secret)
    requires FamiliesOk(s) && code in s.tables.codes && s.tables.codes[code].consumedAt.None?
    ensures forall f :: f in s.families ==> s.families[f].code != code
  {
    forall f | f in s.families ensures s.families[f].code != code {
      assert FamilyOk(s, f);
    }
  }

  /** Only the code table grows. */
  lemma CodesOnlyQuiet(s: System, s2: System)
    requires DeadOk(s.tables) && CodesGrow(s.tables.codes, s2.tables.codes)
    requires s2.tables == s.tables.(codes := s2.tables.codes)
    requires s2.families == s.families && s2.issuedBy == s.issuedBy && s2.issuedIn == s.issuedIn
    ensures Quiet(s, s2)
  {
  }

  lemma RedeemedGrantOk(s: System, s2: System, rid: RequestId)
    requires FamiliesOk(s) && rid in s.requests && s.requests[rid].Redeem?
    requires var r := s.requests[rid];
             s2 == StepRedeem(s, rid, r.code, r.codeClient, r.redirectUri, r.challenge)
    ensures PhaseOk(s2, s2.requests[rid])
  {
    if s2.requests[rid].IssueAccess? {
      NoFamilyFromUnspent(s, s.requests[rid].code);
    }
  }

  lemma ConsumeCodeGrows(t: Tables, now: nat, code: Secret, client: string, redirectUri: string, challenge: string)
    ensures CodesGrow(t.codes, ConsumeCode(t, now, code, client, redirectUri, challenge).0.codes)
  {
  }

  /** What redeeming a code comes to: a rejection, or a grant for a code that was unspent. */
  ghost predicate Redeemed(s: System, s2: System, rid: RequestId, code: Secret, p: Phase) {
    && s2.tables == s.tables.(codes := s2.tables.codes)
    && CodesGrow(s.tables.codes, s2.tables.codes)
    && s2.families == s.families && s2.issuedBy == s.issuedBy && s2.issuedIn == s.issuedIn
    && s2.requests == s.requests[rid := p]
    && (p.Rejected? || p.IssueAccess?)
    && (p.IssueAccess? ==> p.grant.origin == FromCode(code)
                           && code in s.tables.codes && s.tables.codes[code].consumedAt.None?)
  }

  lemma RedeemOutcome(s: System, s2: System, rid: RequestId)
    requires rid in s.requests && s.requests[rid].Redeem?
    requires var r := s.requests[rid];
             s2 == StepRedeem(s, rid, r.code, r.codeClient, r.redirectUri, r.challenge)
    ensures Redeemed(s, s2, rid, s.requests[rid].code, s2.requests[rid])
  {
    var r := s.requests[rid];
    ConsumeCodeGrows(s.tables, s.now, r.code, r.codeClient, r.redirectUri, r.challenge);
  }

  lemma RedeemKeepsInv(s: System, rid: RequestId, draw: Draw)
    requires Inv(s) && Enabled(s, Advance(rid, draw)) && s.requests[rid].Redeem?
    ensures Inv(Apply(s, Advance(rid, draw))) && Grows(s, Apply(s, Advance(rid, draw)))
  {
    var r := s.requests[rid];
    var s2 := StepRedeem(s, rid, r.code, r.codeClient, r.redirectUri, r.challenge);
    RedeemOutcome(s, s2, rid);
    RedeemedGrantOk(s, s2, rid);
    RedeemedKeepsInv(s, s2, rid, r.code, s2.requests[rid]);
  }

  lemma RedeemedKeepsInv(s: System, s2: System, rid: RequestId, code: Secret, p: Phase)
    requires Inv(s) && rid in s.requests && BeforeIssue(s.requests[rid])
    requires Redeemed(s, s2, rid, code, p) && PhaseOk(s2, p)
    ensures Inv(s2) && Grows(s, s2)
  {
    NothingIssued(s, rid);
    CodesOnlyQuiet(s, s2);
    if p.IssueAccess? {
      forall r | r in s.requests && r != rid && Holding(s.requests[r])
        ensures s.requests[r].grant.origin != p.grant.origin
      {
        NobodyHoldsUnspent(s, code, r);
      }
    }
    QuietMoveKeepsInv(s, s2, rid, p);
  }

  lemma RevokeLiveIdsGrows(access: map<TokenId, AccessRow>, now: nat, ids: set<TokenId>)
    ensures AccessGrows(access, RevokeLiveIds(access, now, ids))
  {
  }

  lemma RevokeFamiliesGrows(refresh: map<Secret, RefreshRow>, now: nat, families: set<FamilyId>)
    ensures RefreshGrows(refresh, RevokeFamilies(refresh, now, families))
    ensures RevokeFamilies(refresh, now, families).Keys == refresh.Keys
  {
  }

  lemma RevokeAuthorizationOnlyMarks(t: Tables, now: nat, row: Option<TokenId>)
    ensures OnlyMarks(t, RevokeAuthorizationOf(t, now, row).0)
  {
    if row.Some? && row.value in t.access && FamiliesOf(t.refresh, row.value) != {} {
      var families := FamiliesOf(t.refresh, row.value);
      RevokeLiveIdsGrows(t.access, now, {row.value} + LinkedIds(t.refresh, families));
      RevokeFamiliesGrows(t.refresh, now, families);
    } else {
      NothingMarked(t);
    }
  }

  lemma RevokeAccessOnlyMarks(t: Tables, now: nat, id: TokenId)
    ensures OnlyMarks(t, RevokeAccess(t, now, id))
  {
  }

  lemma NothingMarked(t: Tables)
    ensures OnlyMarks(t, t)
  {
  }

  lemma RevocationOnlyMarks(s: System, rid: RequestId, draw: Draw)
    requires Enabled(s, Advance(rid, draw))
    requires s.requests[rid].RevokeLookup? || s.requests[rid].RevokeFound?
             || s.requests[rid].RevokeByAccess? || s.requests[rid].RevokeById?
    ensures OnlyMarks(s.tables, Apply(s, Advance(rid, draw)).tables)
  {
    match s.requests[rid] {
      case RevokeLookup(_, _) => NothingMarked(s.tables);
      case RevokeFound(family, _) => RevokeFamilyOnlyMarks(s.tables, s.now, family);
      case RevokeByAccess(presented) => RevokeAuthorizationOnlyMarks(s.tables, s.now, presented.row);
      case RevokeById(id) => RevokeAccessOnlyMarks(s.tables, s.now, id);
    }
  }

  /** The phases that carry nothing to check. */
  predicate Carefree(p: Phase) {
    p.RevokeFound? || p.RevokeByAccess? || p.RevokeById? || p.Answered?
  }

  lemma MarkingMoveKeepsInv(s: System, s2: System, rid: RequestId, p: Phase)
    requires Inv(s) && OnlyMarks(s.tables, s2.tables)
    requires s2.families == s.families && s2.issuedBy == s.issuedBy && s2.issuedIn == s.issuedIn
    requires rid in s.requests && BeforeIssue(s.requests[rid])
    requires s2.requests == s.requests[rid := p] && Carefree(p)
    ensures Inv(s2) && Grows(s, s2)
  {
    MarkingIsQuiet(s, s2);
    NothingIssued(s, rid);
    QuietMoveKeepsInv(s, s2, rid, p);
  }

  lemma RevocationKeepsInv(s: System, rid: RequestId, draw: Draw)
    requires Inv(s) && Enabled(s, Advance(rid, draw))
    requires s.requests[rid].RevokeLookup? || s.requests[rid].RevokeFound?
             || s.requests[rid].RevokeByAccess? || s.requests[rid].RevokeById?
    ensures Inv(Apply(s, Advance(rid, draw))) && Grows(s, Apply(s, Advance(rid, draw)))
  {
    var s2 := Apply(s, Advance(rid, draw));
    RevocationOnlyMarks(s, rid, draw);
    MarkingMoveKeepsInv(s, s2, rid, s2.requests[rid]);
  }

  lemma CompensateKeepsInv(s: System, rid: RequestId, draw: Draw)
    requires Inv(s) && Enabled(s, Advance(rid, draw)) && s.requests[rid].Compensate?
    ensures Inv(Apply(s, Advance(rid, draw))) && Grows(s, Apply(s, Advance(rid, draw)))
  {
    var s2 := Apply(s, Advance(rid, draw));
    MarkingIsQuiet(s, s2);
    forall id | id in s.issuedBy && s.issuedBy[id] == rid ensures Accounted(s2, id) {
      assert Accounted(s, id);
    }
    QuietMoveKeepsInv(s, s2, rid, Rejected);
  }

  lemma FailureAccounts(s: System, a: Action, id: TokenId)
    requires Enabled(s, a) && (a.CreationFails? || a.Abort?)
    requires id in s.issuedBy && s.issuedBy[id] == a.rid && Accounted(s, id)
    ensures Accounted(Apply(s, a), id)
  {
  }

  lemma FailureKeepsInv(s: System, a: Action)
    requires Inv(s) && Enabled(s, a) && (a.CreationFails? || a.Abort?)
    ensures Inv(Apply(s, a)) && Grows(s, Apply(s, a))
  {
    var s2 := Apply(s, a);
    Unchanged(s, s2);
    forall id | id in s.issuedBy && s.issuedBy[id] == a.rid ensures Accounted(s2, id) {
      FailureAccounts(s, a, id);
    }
    QuietMoveKeepsInv(s, s2, a.rid, s2.requests[a.rid]);
  }

  lemma StartKeepsInv(s: System, rid: RequestId, phase: Phase)
    requires Inv(s) && Enabled(s, Start(rid, phase))
    ensures Inv(Apply(s, Start(rid, phase))) && Grows(s, Apply(s, Start(rid, phase)))
  {
    StayingKeepsInv(s, rid, phase);
  }

  lemma EnvironmentKeepsInv(s: System, a: Action)
    requires Inv(s) && Enabled(s, a) && (a.Tick? || a.Authorize?)
    ensures Inv(Apply(s, a)) && Grows(s, Apply(s, a))
  {
    var s2 := Apply(s, a);
    CodesOnlyQuiet(s, s2);
    QuietIdleKeepsInv(s, s2);
  }
}
