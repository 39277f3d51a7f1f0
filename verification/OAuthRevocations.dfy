/** Whether the revocation of a family lasts. Family revocation leaves a tombstone and lasts;
    revocation by an access token leaves none, and lasts exactly when nobody is between
    consuming a token of the family and creating its successor. */
module OAuthRevocations {
  import opened Options
  import opened TokenTables
  import opened OAuthProtocol
  import opened OAuthInvariant
  import opened OAuthIssue
  import opened OAuthTheorems

  /** No request holds a grant for a further token of the family. */
  ghost predicate Idle(s: System, f: FamilyId) {
    forall r :: r in s.requests ==> !HoldsOn(s.requests[r], f)
  }

  predicate HoldsOn(p: Phase, f: FamilyId) {
    Holding(p) && p.grant.origin.FromRefresh? && p.grant.origin.family == f
  }

  // ---- a revoked and idle family -------------------------------------------------------------

  ghost predicate Closed(s: System, f: FamilyId) {
    f in s.families && FamilyRevoked(s.tables, f) && Idle(s, f)
  }

  lemma ConsumerGetsNoHold(s: System, rid: RequestId, token: Secret, record: RefreshRow, f: FamilyId)
    requires PhaseOk(s, Consume(token, record)) && FamilyRevoked(s.tables, f)
    ensures !HoldsOn(StepConsume(s, rid, token, record).requests[rid], f)
  {
  }

  lemma RedeemerGetsNoHold(
      s: System, rid: RequestId, code: Secret, client: string, redirectUri: string, challenge: string, f: FamilyId)
    ensures !HoldsOn(StepRedeem(s, rid, code, client, redirectUri, challenge).requests[rid], f)
  {
  }

  lemma AnsweredHoldsNone(s: System, rid: RequestId, grant: Grant, id: TokenId, draw: Draw, f: FamilyId)
    requires Fresh(s, draw)
    ensures !HoldsOn(StepIssueRefresh(s, rid, grant, id, draw).requests[rid], f)
  {
  }

  lemma MoverStaysOff(s: System, rid: RequestId, draw: Draw, f: FamilyId)
    requires Enabled(s, Advance(rid, draw)) && PhaseOk(s, s.requests[rid]) && FamilyRevoked(s.tables, f)
    requires !HoldsOn(s.requests[rid], f)
    ensures !HoldsOn(Advanced(s, rid, draw).requests[rid], f)
  {
    match s.requests[rid] {
      case Consume(token, record) => ConsumerGetsNoHold(s, rid, token, record, f);
      case Redeem(code, client, redirectUri, challenge) =>
        RedeemerGetsNoHold(s, rid, code, client, redirectUri, challenge, f);
      case IssueRefresh(grant, id) => AnsweredHoldsNone(s, rid, grant, id, draw, f);
      case _ =>
    }
  }

  lemma StaysIdle(s: System, a: Action, f: FamilyId)
    requires PhasesOk(s) && Enabled(s, a) && Closed(s, f)
    ensures Idle(Apply(s, a), f)
  {
    forall r | r in Apply(s, a).requests ensures !HoldsOn(Apply(s, a).requests[r], f) {
      if a.Advance? && a.rid == r {
        MoverStaysOff(s, r, a.draw, f);
      } else if r in s.requests && !Own(r, a) {
        OthersStayPut(s, a, r);
      }
    }
  }

  lemma IssuesElsewhere(s: System, rid: RequestId, grant: Grant, id: TokenId, draw: Draw, f: FamilyId)
    requires Fresh(s, draw) && f in s.families && !HoldsOn(IssueRefresh(grant, id), f)
    ensures
      var after := StepIssueRefresh(s, rid, grant, id, draw).tables.refresh;
      forall token :: token in after && after[token].family == f ==> token in s.tables.refresh
  {
  }

  lemma OnlyIssuingAddsRows(s: System, rid: RequestId, draw: Draw)
    requires Enabled(s, Advance(rid, draw)) && !s.requests[rid].IssueRefresh?
    ensures Advanced(s, rid, draw).tables.refresh.Keys == s.tables.refresh.Keys
  {
    match s.requests[rid] {
      case Consume(token, record) =>
        assert StepConsume(s, rid, token, record).tables.refresh.Keys == s.tables.refresh.Keys;
      case _ =>
    }
  }

  lemma NoNewRows(s: System, a: Action, f: FamilyId)
    requires Enabled(s, a) && Closed(s, f)
    ensures
      var after := Apply(s, a).tables.refresh;
      forall token :: token in after && after[token].family == f ==> token in s.tables.refresh
  {
    if a.Advance? {
      if s.requests[a.rid].IssueRefresh? {
        IssuesElsewhere(s, a.rid, s.requests[a.rid].grant, s.requests[a.rid].accessId, a.draw, f);
      } else {
        OnlyIssuingAddsRows(s, a.rid, a.draw);
      }
    }
  }

  lemma RevokedRowsStay(s: System, s2: System, f: FamilyId)
    requires RowsOk(s) && FamilyRevoked(s.tables, f) && Grows(s, s2)
    requires forall token :: token in s2.tables.refresh && s2.tables.refresh[token].family == f ==>
                               token in s.tables.refresh
    ensures FamilyRevoked(s2.tables, f)
  {
    forall token | token in s2.tables.refresh && s2.tables.refresh[token].family == f
      ensures s2.tables.refresh[token].revokedAt.Some?
      ensures s2.tables.refresh[token].accessTokenId.Some? ==>
                AccessRevoked(s2.tables, s2.tables.refresh[token].accessTokenId.value)
    {
      assert RowOk(s, token);
      assert s2.tables.refresh[token].family == s.tables.refresh[token].family;
    }
  }

  lemma StepStaysClosed(s: System, a: Action, f: FamilyId)
    requires Inv(s) && Enabled(s, a) && Closed(s, f)
    ensures Closed(Apply(s, a), f)
  {
    StepKeepsInv(s, a);
    StaysIdle(s, a, f);
    NoNewRows(s, a, f);
    RevokedRowsStay(s, Apply(s, a), f);
  }

  /** A family that is revoked while nobody holds on it stays revoked, tombstone or not. */
  lemma {:induction false} IdleRevocationLasts(
      states: seq<System>, actions: seq<Action>, i: nat, j: nat, f: FamilyId)
    requires IsRun(states, actions) && i <= j < |states| && Closed(states[i], f)
    ensures Closed(states[j], f)
    decreases j
  {
    if i < j {
      IdleRevocationLasts(states, actions, i, j - 1, f);
      RunKeepsInv(states, actions, j - 1);
      assert states[j] == Apply(states[j - 1], actions[j - 1]);
      StepStaysClosed(states[j - 1], actions[j - 1], f);
    }
  }

  // ---- a holder brings the family back ----------------------------------------------------------

  lemma {:induction false} LengthBound(names: set<string>) returns (bound: nat)
    ensures forall name :: name in names ==> |name| <= bound
    decreases names
  {
    if names == {} {
      bound := 0;
    } else {
      var name :| name in names;
      var rest := LengthBound(names - {name});
      bound := if rest < |name| then |name| else rest;
    }
  }

  lemma NewName(names: set<string>) returns (name: string)
    ensures name !in names
  {
    var bound := LengthBound(names);
    name := seq(bound + 1, _ => 'x');
  }

  /** There is always something new to draw. */
  lemma FreshDraw(s: System) returns (draw: Draw)
    ensures Fresh(s, draw)
  {
    var ids := s.tables.access.Keys + s.issuedBy.Keys + s.issuedIn.Keys;
    var families := s.families.Keys + s.tables.deadFamilies;
    var access := NewName(set id | id in ids :: id.text);
    var refresh := NewName(set token | token in s.tables.refresh :: token.text);
    var family := NewName(set f | f in families :: f.text);
    draw := Draw(TokenId(access), Secret(refresh), FamilyId(family), s.now + 1);
    assert draw.access !in ids && draw.family !in families;
  }

  ghost predicate Continues(
      states: seq<System>, actions: seq<Action>, longer: seq<System>, more: seq<Action>)
  {
    IsRun(longer, more) && states <= longer && actions <= more
  }

  /** After every continuation of the run the family is revoked. */
  ghost predicate Lasts(states: seq<System>, actions: seq<Action>, f: FamilyId) {
    forall longer: seq<System>, more: seq<Action> :: Continues(states, actions, longer, more) ==>
      FamilyRevoked(longer[|longer| - 1].tables, f)
  }

  lemma RunGoesOn(states: seq<System>, actions: seq<Action>, a: Action)
    requires IsRun(states, actions) && Enabled(states[|states| - 1], a)
    ensures Continues(states, actions, states + [Apply(states[|states| - 1], a)], actions + [a])
  {
  }

  lemma NewRowIsUsable(s: System, rid: RequestId, draw: Draw, f: FamilyId)
    requires Enabled(s, Advance(rid, draw)) && s.requests[rid].IssueRefresh? && HoldsOn(s.requests[rid], f)
    requires f !in s.tables.deadFamilies
    ensures
      var after := Apply(s, Advance(rid, draw)).tables;
      draw.refresh in after.refresh && after.refresh[draw.refresh].family == f && Usable(after.refresh[draw.refresh])
  {
    var IssueRefresh(grant, id) := s.requests[rid];
    assert Apply(s, Advance(rid, draw)) == StepIssueRefresh(s, rid, grant, id, draw);
  }

  lemma AccessStepKeepsHold(s: System, rid: RequestId, draw: Draw, f: FamilyId)
    requires Enabled(s, Advance(rid, draw)) && s.requests[rid].IssueAccess? && HoldsOn(s.requests[rid], f)
    ensures
      var s2 := Apply(s, Advance(rid, draw));
      && rid in s2.requests && s2.requests[rid].IssueRefresh? && HoldsOn(s2.requests[rid], f)
      && s2.tables.deadFamilies == s.tables.deadFamilies
  {
  }

  /** From every state with a holder on a family that has no tombstone some continuation ends
      with a usable token of the family. */
  lemma HolderBringsRow(states: seq<System>, actions: seq<Action>, rid: RequestId, f: FamilyId)
      returns (longer: seq<System>, more: seq<Action>)
    requires IsRun(states, actions)
    requires var s := states[|states| - 1];
             rid in s.requests && HoldsOn(s.requests[rid], f) && f !in s.tables.deadFamilies
    ensures Continues(states, actions, longer, more) && !FamilyRevoked(longer[|longer| - 1].tables, f)
    decreases if states[|states| - 1].requests[rid].IssueAccess? then 1 else 0
  {
    var s := states[|states| - 1];
    var draw := FreshDraw(s);
    var a := Advance(rid, draw);
    RunGoesOn(states, actions, a);
    longer, more := states + [Apply(s, a)], actions + [a];
    if s.requests[rid].IssueAccess? {
      AccessStepKeepsHold(s, rid, draw, f);
      longer, more := HolderBringsRow(longer, more, rid, f);
    } else {
      NewRowIsUsable(s, rid, draw, f);
    }
  }

  // ---- exactly when it lasts ------------------------------------------------------------------------

  lemma TombstoneLasts(states: seq<System>, actions: seq<Action>, f: FamilyId)
    requires IsRun(states, actions) && f in states[|states| - 1].tables.deadFamilies
    ensures Lasts(states, actions, f)
  {
    forall longer: seq<System>, more: seq<Action> | Continues(states, actions, longer, more)
      ensures FamilyRevoked(longer[|longer| - 1].tables, f)
    {
      assert longer[|states| - 1] == states[|states| - 1];
      DeadFamilyIsRevoked(longer, more, |states| - 1, |longer| - 1, f);
    }
  }

  lemma ClosedLasts(states: seq<System>, actions: seq<Action>, f: FamilyId)
    requires IsRun(states, actions) && Closed(states[|states| - 1], f)
    ensures Lasts(states, actions, f)
  {
    forall longer: seq<System>, more: seq<Action> | Continues(states, actions, longer, more)
      ensures FamilyRevoked(longer[|longer| - 1].tables, f)
    {
      assert longer[|states| - 1] == states[|states| - 1];
      IdleRevocationLasts(longer, more, |states| - 1, |longer| - 1, f);
    }
  }

  /** A family that is revoked at the end of a run stays revoked in every continuation exactly
      when it has a tombstone or nobody holds on it. */
  lemma RevocationLastsIff(states: seq<System>, actions: seq<Action>, f: FamilyId)
    requires IsRun(states, actions) && f in states[|states| - 1].families
    requires FamilyRevoked(states[|states| - 1].tables, f)
    ensures Lasts(states, actions, f)
       <==> f in states[|states| - 1].tables.deadFamilies || Idle(states[|states| - 1], f)
  {
    var s := states[|states| - 1];
    if f in s.tables.deadFamilies {
      TombstoneLasts(states, actions, f);
    } else if Idle(s, f) {
      ClosedLasts(states, actions, f);
    } else {
      var rid :| rid in s.requests && HoldsOn(s.requests[rid], f);
      var longer, more := HolderBringsRow(states, actions, rid, f);
      assert Continues(states, actions, longer, more);
    }
  }

  /** The step of the revocation endpoint that revokes by the access token `id`. */
  predicate RevokesByAccess(s: System, a: Action, id: TokenId) {
    a.Advance? && a.rid in s.requests && s.requests[a.rid].RevokeByAccess?
    && s.requests[a.rid].presented.row == Some(id)
  }

  /** A row of the family points at the access token. */
  predicate Points(s: System, token: Secret, id: TokenId) {
    token in s.tables.refresh && s.tables.refresh[token].accessTokenId == Some(id) && id in s.tables.access
  }

  lemma AccessRevocationCloses(s: System, a: Action, id: TokenId, token: Secret)
    requires Enabled(s, a) && RevokesByAccess(s, a, id) && Points(s, token, id)
    ensures Apply(s, a) == Move(s.(tables := RevokeAuthorization(s.tables, s.now, id).0), a.rid, Answered)
    ensures FamilyRevoked(Apply(s, a).tables, s.tables.refresh[token].family)
    ensures Apply(s, a).tables.deadFamilies == s.tables.deadFamilies
  {
    RevokeAuthorizationCloses(s.tables, s.now, id, token);
  }

  lemma PointsAtKnown(s: System, token: Secret, id: TokenId)
    requires Inv(s) && token in s.tables.refresh && s.tables.refresh[token].accessTokenId == Some(id)
    ensures s.tables.refresh[token].family in s.families && Points(s, token, id)
  {
    assert RowOk(s, token);
  }

  lemma AccessRevocationRevokes(s: System, a: Action, id: TokenId, token: Secret)
    requires Inv(s) && Enabled(s, a) && RevokesByAccess(s, a, id)
    requires token in s.tables.refresh && s.tables.refresh[token].accessTokenId == Some(id)
    ensures s.tables.refresh[token].family in Apply(s, a).families
    ensures FamilyRevoked(Apply(s, a).tables, s.tables.refresh[token].family)
  {
    PointsAtKnown(s, token, id);
    AccessRevocationCloses(s, a, id, token);
  }

  lemma RunStepRevokes(states: seq<System>, actions: seq<Action>, n: nat, id: TokenId, token: Secret)
    requires IsRun(states, actions) && n < |actions| && RevokesByAccess(states[n], actions[n], id)
    requires token in states[n].tables.refresh && states[n].tables.refresh[token].accessTokenId == Some(id)
    ensures states[n].tables.refresh[token].family in states[n + 1].families
    ensures FamilyRevoked(states[n + 1].tables, states[n].tables.refresh[token].family)
  {
    RunKeepsInv(states, actions, n);
    assert states[n + 1] == Apply(states[n], actions[n]);
    AccessRevocationRevokes(states[n], actions[n], id, token);
  }

  /** Revoking by an access token revokes the family of every row that points at it; and that
      lasts exactly when the family already had a tombstone or nobody holds on it at that moment. */
  lemma AccessRevocationLastsIff(states: seq<System>, actions: seq<Action>, id: TokenId, token: Secret)
    requires IsRun(states, actions) && |actions| > 0
    requires RevokesByAccess(states[|actions| - 1], actions[|actions| - 1], id)
    requires token in states[|actions| - 1].tables.refresh
             && states[|actions| - 1].tables.refresh[token].accessTokenId == Some(id)
    ensures
      var f, s := states[|actions| - 1].tables.refresh[token].family, states[|states| - 1];
      && FamilyRevoked(s.tables, f)
      && (Lasts(states, actions, f) <==> f in s.tables.deadFamilies || Idle(s, f))
  {
    var n := |actions| - 1;
    RunStepRevokes(states, actions, n, id, token);
    RevocationLastsIff(states, actions, states[n].tables.refresh[token].family);
  }
}
