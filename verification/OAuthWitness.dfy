/** A run in which a request dies between its two creations and a replay then kills the family:
    an access token issued in the dead family stays live. A run into the race of two honest
    refreshes. And a run in which a refresh in flight undoes a revocation by an access token. */
module OAuthWitness {
  import opened Instants
  import opened Options
  import opened TokenTables
  import opened OAuthProtocol
  import opened OAuthTheorems
  import opened OAuthLostTokens
  import opened OAuthRevocations
  import opened OAuthTombstones

  /** The names that play a part: any distinct ones do. */
  datatype Cast = Cast(code: Secret, row: CodeRow, token: Secret, spareToken: Secret, accessText: Secret,
                       access: TokenId, lost: TokenId, spareAccess: TokenId, family: FamilyId, spareFamily: FamilyId)

  predicate Playable(c: Cast) {
    && c.token != c.spareToken && c.accessText != c.token
    && c.access != c.lost && c.access != c.spareAccess && c.lost != c.spareAccess
    && c.family != c.spareFamily && c.row.consumedAt.None? && c.row.expiresAt > 0
  }

  function Who(c: Cast): Identity {
    IdentityOfCode(c.row)
  }

  function LiveRow(c: Cast): AccessRow {
    AccessRow(Who(c).owner, Who(c).scopes, 1, None)
  }

  function TokenRow(c: Cast, consumedAt: Option<nat>): RefreshRow {
    RefreshRow(c.family, Who(c).client, Who(c).owner, Who(c).scopes, Who(c).resource, Some(c.access), 1,
               consumedAt, None)
  }

  /** The code has been exchanged by request 0. */
  function Exchanged(c: Cast): System {
    System(
      0,
      Tables(map[c.code := c.row.(consumedAt := Some(0))], map[c.access := LiveRow(c)],
             map[c.token := TokenRow(c, None)], {}),
      map[0 := Issued(Grant(Who(c), FromCode(c.code)), c.access, c.token)],
      map[c.family := Family(Who(c), c.code, [c.token])], map[c.access := 0], map[c.access := c.family])
  }

  /** Request 1 refreshed, created the access token `lost` and died. */
  function Died(c: Cast): System {
    System(
      0,
      Tables(map[c.code := c.row.(consumedAt := Some(0))], map[c.access := LiveRow(c), c.lost := LiveRow(c)],
             map[c.token := TokenRow(c, Some(0))], {}),
      map[0 := Issued(Grant(Who(c), FromCode(c.code)), c.access, c.token), 1 := Aborted(Some(c.lost))],
      map[c.family := Family(Who(c), c.code, [c.token])],
      map[c.access := 0, c.lost := 1], map[c.access := c.family, c.lost := c.family])
  }

  /** Some run ends in the system. */
  ghost predicate Reached(s: System) {
    exists states, actions :: IsRun(states, actions) && states[|states| - 1] == s
  }

  lemma StepIsReached(s: System, a: Action)
    requires Reached(s) && Enabled(s, a)
    ensures Reached(Apply(s, a))
  {
    var states, actions :| IsRun(states, actions) && states[|states| - 1] == s;
    var longer, more := states + [Apply(s, a)], actions + [a];
    assert IsRun(longer, more) && longer[|longer| - 1] == Apply(s, a);
  }

  lemma StartIsReached()
    ensures Reached(InitialSystem)
  {
    assert IsRun([InitialSystem], []) && [InitialSystem][|[InitialSystem]| - 1] == InitialSystem;
  }

  // ---- the code is exchanged ----------------------------------------------------------------

  /** The code has been consumed by request 0. */
  function Redeemed(c: Cast): System {
    System(0, Tables(map[c.code := c.row.(consumedAt := Some(0))], map[], map[], {}),
           map[0 := IssueAccess(Grant(Who(c), FromCode(c.code)))], map[], map[], map[])
  }

  lemma RedeemedIsReached(c: Cast)
    requires Playable(c)
    ensures Reached(Redeemed(c))
  {
    var redeem := Redeem(c.code, c.row.client, c.row.redirectUri, c.row.challenge);
    StartIsReached();
    StepIsReached(InitialSystem, Authorize(c.code, c.row));
    var s1 := Apply(InitialSystem, Authorize(c.code, c.row));
    StepIsReached(s1, Start(0, redeem));
    var s2 := Apply(s1, Start(0, redeem));
    OpenPastExpiryIffSameDay(c.row.expiresAt, 0);
    assert Presentable(s2.tables, c.code, c.row.client, c.row.redirectUri, c.row.challenge);
    var draw := Draw(c.access, c.token, c.family, 1);
    StepIsReached(s2, Advance(0, draw));
    assert Apply(s2, Advance(0, draw)) == Redeemed(c);
  }

  /** The code that was authorized, two hours later. */
  function Later(c: Cast): System {
    System(7200, Tables(map[c.code := c.row], map[], map[], {}), map[], map[], map[], map[])
  }

  lemma LaterIsReached(c: Cast)
    requires Playable(c)
    ensures Reached(Later(c))
  {
    StartIsReached();
    StepIsReached(InitialSystem, Authorize(c.code, c.row));
    var s := Apply(InitialSystem, Authorize(c.code, c.row));
    StepIsReached(s, Tick(7200));
    assert Apply(s, Tick(7200)) == Later(c);
  }

  /** In a run an expired code is redeemed two hours after its authorization: the request then holds the
      grant. */
  lemma LateRedemptionIsReached(c: Cast) returns (s: System)
    requires Playable(c) && c.row.expiresAt < 7200
    ensures Reached(s) && s.now == 7200 && c.code in s.tables.codes && s.tables.codes[c.code].expiresAt < s.now
    ensures s.requests == map[0 := IssueAccess(Grant(Who(c), FromCode(c.code)))]
  {
    var redeem := Redeem(c.code, c.row.client, c.row.redirectUri, c.row.challenge);
    var draw := Draw(c.access, c.token, c.family, 7201);
    LaterIsReached(c);
    StepIsReached(Later(c), Start(0, redeem));
    var s1 := Apply(Later(c), Start(0, redeem));
    ExpiredCodeIsConsumedIffSameDay(s1.tables, 7200, c.code, c.row.client, c.row.redirectUri, c.row.challenge);
    StepIsReached(s1, Advance(0, draw));
    s := Apply(s1, Advance(0, draw));
  }

  /** And the access token has been created. */
  function HalfIssued(c: Cast): System {
    Redeemed(c).(
      tables := Redeemed(c).tables.(access := map[c.access := LiveRow(c)]),
      requests := map[0 := IssueRefresh(Grant(Who(c), FromCode(c.code)), c.access)],
      issuedBy := map[c.access := 0])
  }

  lemma HalfIssuedIsReached(c: Cast)
    requires Playable(c)
    ensures Reached(HalfIssued(c))
  {
    var draw := Draw(c.access, c.token, c.family, 1);
    RedeemedIsReached(c);
    StepIsReached(Redeemed(c), Advance(0, draw));
    assert Apply(Redeemed(c), Advance(0, draw)) == HalfIssued(c);
  }

  lemma ExchangedIsReached(c: Cast)
    requires Playable(c)
    ensures Reached(Exchanged(c))
  {
    var draw := Draw(c.lost, c.token, c.family, 1);
    HalfIssuedIsReached(c);
    StepIsReached(HalfIssued(c), Advance(0, draw));
    assert Apply(HalfIssued(c), Advance(0, draw)) == Exchanged(c);
  }

  // ---- a refresh dies ------------------------------------------------------------------------

  /** Request 1 has consumed the refresh token. */
  function Consumed(c: Cast): System {
    var grant := Grant(Who(c), FromRefresh(c.token, c.family));
    Exchanged(c).(
      tables := Exchanged(c).tables.(refresh := map[c.token := TokenRow(c, Some(0))]),
      requests := Exchanged(c).requests[1 := IssueAccess(grant)])
  }

  /** Before that it looked the token up. */
  function Found(c: Cast): System {
    Exchanged(c).(requests := Exchanged(c).requests[1 := Consume(c.token, TokenRow(c, None))])
  }

  lemma FoundIsReached(c: Cast)
    requires Playable(c)
    ensures Reached(Found(c))
  {
    var draw := Draw(c.lost, c.spareToken, c.spareFamily, 1);
    var lookup := Lookup(c.token, Who(c).client);
    ExchangedIsReached(c);
    StepIsReached(Exchanged(c), Start(1, lookup));
    var s := Apply(Exchanged(c), Start(1, lookup));
    StepIsReached(s, Advance(1, draw));
    assert Apply(s, Advance(1, draw)) == Found(c);
  }

  lemma ConsumedIsReached(c: Cast)
    requires Playable(c)
    ensures Reached(Consumed(c))
  {
    var draw := Draw(c.lost, c.spareToken, c.spareFamily, 1);
    FoundIsReached(c);
    StepIsReached(Found(c), Advance(1, draw));
    OpenPastExpiryIffSameDay(1, 0);
    GrantedScopesIdempotent(Words(c.row.scope));
    var s := Apply(Found(c), Advance(1, draw));
    assert s.tables.refresh == map[c.token := TokenRow(c, Some(0))];
    assert s == Consumed(c);
  }

  /** It has created the access token `lost`. */
  function HalfRefreshed(c: Cast): System {
    Died(c).(requests := Consumed(c).requests[1 := IssueRefresh(Grant(Who(c), FromRefresh(c.token, c.family)), c.lost)])
  }

  lemma HalfRefreshedIsReached(c: Cast)
    requires Playable(c)
    ensures Reached(HalfRefreshed(c))
  {
    var draw := Draw(c.lost, c.spareToken, c.spareFamily, 1);
    ConsumedIsReached(c);
    StepIsReached(Consumed(c), Advance(1, draw));
    assert Apply(Consumed(c), Advance(1, draw)) == HalfRefreshed(c);
  }

  lemma DiedIsReached(c: Cast)
    requires Playable(c)
    ensures Reached(Died(c))
  {
    HalfRefreshedIsReached(c);
    StepIsReached(HalfRefreshed(c), Abort(1));
    assert Apply(HalfRefreshed(c), Abort(1)) == Died(c);
  }

  // ---- two honest refreshes ----------------------------------------------------------------------

  /** A second request has looked up the same token before the first consumed it. */
  function Racing(c: Cast): System {
    Found(c).(requests := Found(c).requests[2 := Consume(c.token, TokenRow(c, None))])
  }

  /** The situation of `ConcurrentRefreshesKillFamily` is reached. */
  lemma RaceIsReached(c: Cast)
    requires Playable(c)
    ensures Reached(Racing(c)) && BothFound(Racing(c), 1, 2, c.token)
  {
    var draw := Draw(c.lost, c.spareToken, c.spareFamily, 1);
    var lookup := Lookup(c.token, Who(c).client);
    FoundIsReached(c);
    StepIsReached(Found(c), Start(2, lookup));
    var s := Apply(Found(c), Start(2, lookup));
    StepIsReached(s, Advance(2, draw));
    assert Apply(s, Advance(2, draw)) == Racing(c);
    OpenPastExpiryIffSameDay(1, 0);
  }

  // ---- a revocation undone -----------------------------------------------------------------------

  /** Request 3 presents the access token `access` for revocation, while request 1 is half done. */
  function Asked(c: Cast, phase: Phase): System {
    HalfRefreshed(c).(requests := HalfRefreshed(c).requests[3 := phase])
  }

  function AccessToken(c: Cast): Presented {
    Presented(Some(c.access), Some(c.access))
  }

  lemma AskedIsReached(c: Cast)
    requires Playable(c)
    ensures Reached(Asked(c, RevokeLookup(c.accessText, AccessToken(c))))
  {
    var lookup := RevokeLookup(c.accessText, AccessToken(c));
    HalfRefreshedIsReached(c);
    StepIsReached(HalfRefreshed(c), Start(3, lookup));
    assert Apply(HalfRefreshed(c), Start(3, lookup)) == Asked(c, lookup);
  }

  lemma Undrawn(c: Cast, draw: Draw)
    requires Playable(c) && draw == Draw(c.spareAccess, c.spareToken, c.spareFamily, 1)
    ensures Fresh(HalfRefreshed(c), draw) && c.accessText !in HalfRefreshed(c).tables.refresh
  {
  }

  lemma NotARefreshToken(s: System, rid: RequestId, token: Secret, presented: Presented, draw: Draw)
    requires Enabled(s, Advance(rid, draw)) && s.requests[rid] == RevokeLookup(token, presented)
    requires token !in s.tables.refresh
    ensures Apply(s, Advance(rid, draw)) == Move(s, rid, RevokeByAccess(presented))
  {
  }

  lemma AskedByAccessIsReached(c: Cast)
    requires Playable(c)
    ensures Reached(Asked(c, RevokeByAccess(AccessToken(c))))
  {
    var draw := Draw(c.spareAccess, c.spareToken, c.spareFamily, 1);
    var s := Asked(c, RevokeLookup(c.accessText, AccessToken(c)));
    AskedIsReached(c);
    Undrawn(c, draw);
    StepIsReached(s, Advance(3, draw));
    NotARefreshToken(s, 3, c.accessText, AccessToken(c), draw);
    assert Apply(s, Advance(3, draw)) == Asked(c, RevokeByAccess(AccessToken(c)));
  }

  /** It was revoked, and with it every row of the family. */
  function RevokedMidway(c: Cast): System {
    var s := Asked(c, RevokeByAccess(AccessToken(c)));
    Move(s.(tables := RevokeAuthorization(s.tables, s.now, c.access).0), 3, Answered)
  }

  lemma RevocationMidway(c: Cast, draw: Draw)
    requires Playable(c) && draw == Draw(c.spareAccess, c.spareToken, c.spareFamily, 1)
    ensures
      var s := Asked(c, RevokeByAccess(AccessToken(c)));
      && Enabled(s, Advance(3, draw)) && RevokesByAccess(s, Advance(3, draw), c.access)
      && Points(s, c.token, c.access) && s.tables.refresh[c.token].family == c.family
      && c.family !in s.tables.deadFamilies
  {
    Undrawn(c, draw);
  }

  lemma StillHeld(c: Cast, draw: Draw)
    requires Playable(c) && draw == Draw(c.spareAccess, c.spareToken, c.spareFamily, 1)
    ensures
      var s := RevokedMidway(c);
      && Enabled(s, Advance(1, draw)) && s.requests[1].IssueRefresh? && HoldsOn(s.requests[1], c.family)
  {
  }

  lemma TwoMoreSteps(states: seq<System>, actions: seq<Action>, a: Action, b: Action)
      returns (longer: seq<System>, more: seq<Action>)
    requires IsRun(states, actions) && Enabled(states[|states| - 1], a)
    requires Enabled(Apply(states[|states| - 1], a), b)
    ensures
      var s := states[|states| - 1];
      && IsRun(longer, more) && |more| == |actions| + 2 && more[|actions|] == a
      && longer[|actions|] == s && longer[|actions| + 1] == Apply(s, a)
      && longer[|actions| + 2] == Apply(Apply(s, a), b)
  {
    var s := states[|states| - 1];
    RunGoesOn(states, actions, a);
    RunGoesOn(states + [Apply(s, a)], actions + [a], b);
    longer, more := states + [Apply(s, a)] + [Apply(Apply(s, a), b)], actions + [a] + [b];
  }

  /** A run in which revoking by an access token revokes the whole family, and the next step
      creates a usable refresh token of it. */
  lemma RevocationUndoneIsReached(c: Cast) returns (states: seq<System>, actions: seq<Action>, k: nat)
    requires Playable(c)
    ensures IsRun(states, actions) && |actions| == k + 2
    ensures RevokesByAccess(states[k], actions[k], c.access) && FamilyRevoked(states[k + 1].tables, c.family)
    ensures
      var after := states[k + 2].tables;
      && c.spareToken in after.refresh && after.refresh[c.spareToken].family == c.family
      && Usable(after.refresh[c.spareToken])
  {
    var draw := Draw(c.spareAccess, c.spareToken, c.spareFamily, 1);
    var s := Asked(c, RevokeByAccess(AccessToken(c)));
    AskedByAccessIsReached(c);
    states, actions :| IsRun(states, actions) && states[|states| - 1] == s;
    k := |actions|;
    RevocationMidway(c, draw);
    AccessRevocationCloses(s, Advance(3, draw), c.access, c.token);
    StillHeld(c, draw);
    NewRowIsUsable(RevokedMidway(c), 1, draw, c.family);
    states, actions := TwoMoreSteps(states, actions, Advance(3, draw), Advance(1, draw));
  }

  // ---- a replay kills the family ---------------------------------------------------------------

  /** The spent token was presented again, by request 2. */
  function Killed(c: Cast): System {
    var now: nat := 0;
    Died(c).(tables := RevokeFamily(Died(c).tables, now, c.family).0, requests := Died(c).requests[2 := Rejected])
  }

  /** The replay has been detected. */
  function Detected(c: Cast): System {
    Died(c).(requests := Died(c).requests[2 := RevokeReplay(c.family)])
  }

  lemma DetectedIsReached(c: Cast)
    requires Playable(c)
    ensures Reached(Detected(c))
  {
    var draw := Draw(c.spareAccess, c.spareToken, c.spareFamily, 1);
    var lookup := Lookup(c.token, Who(c).client);
    DiedIsReached(c);
    StepIsReached(Died(c), Start(2, lookup));
    var s := Apply(Died(c), Start(2, lookup));
    StepIsReached(s, Advance(2, draw));
    assert Apply(s, Advance(2, draw)) == Detected(c);
  }

  lemma KilledIsReached(c: Cast)
    requires Playable(c)
    ensures Reached(Killed(c))
  {
    var draw := Draw(c.spareAccess, c.spareToken, c.spareFamily, 1);
    DetectedIsReached(c);
    StepIsReached(Detected(c), Advance(2, draw));
    assert Apply(Detected(c), Advance(2, draw)) == Killed(c);
  }

  /** A dead family with nothing in flight and a live access token is reached. */
  lemma LostTokenIsReached(c: Cast) returns (states: seq<System>, actions: seq<Action>)
    requires Playable(c)
    ensures IsRun(states, actions)
    ensures
      var s := states[|states| - 1];
      && c.family in s.tables.deadFamilies
      && (forall r :: r in s.requests ==> !InFlightOn(s, s.requests[r], c.family))
      && c.lost in s.issuedIn && s.issuedIn[c.lost] == c.family
      && Lost(s, 1, c.lost) && LiveAccess(s, c.lost)
  {
    KilledIsReached(c);
    states, actions :| IsRun(states, actions) && states[|states| - 1] == Killed(c);
    assert c.lost !in LinkedIds(Died(c).tables.refresh, {c.family});
  }
}
