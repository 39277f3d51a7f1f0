/** The endpoint handlers as code over the store, with other requests and the clock moving
    between any two of their store calls. Each handler performs the steps of its protocol
    process, so what holds of every run of the protocol holds of the handlers. */
module TokenEndpoint {
  import opened Instants
  import opened Options
  import opened TokenTables
  import opened TokenEffects
  import opened TokenStore
  import opened OAuthProtocol
  import opened OAuthTheorems
  import opened OAuthTombstones

  /** The random values a handler draws; expiry is set when they are used. */
  datatype Names = Names(access: TokenId, refresh: Secret, family: FamilyId)

  predicate Unused(s: System, n: Names) {
    && n.access !in s.tables.access && n.access !in s.issuedBy && n.access !in s.issuedIn
    && n.refresh !in s.tables.refresh
    && n.family !in s.families && n.family !in s.tables.deadFamilies
  }

  type Lifetime = n: nat | n > 0 witness 1

  function DrawOf(s: System, n: Names, ttl: Lifetime): (draw: Draw)
    ensures Unused(s, n) ==> Fresh(s, draw)
  {
    Draw(n.access, n.refresh, n.family, s.now + ttl)
  }

  /** What others may do in between: anything but move this request or draw its random values. */
  predicate Foreign(s: System, rid: RequestId, a: Action, m: Names, n: Names) {
    Enabled(s, a) && !Own(rid, a) && Unused(Apply(s, a), m) && Unused(Apply(s, a), n)
  }

  /** The systems passed through while one request is served. */
  datatype Course = Course(rid: RequestId, states: seq<System>, actions: seq<Action>) {
    ghost predicate Valid() {
      && |states| == |actions| + 1
      && forall i {:trigger actions[i]} :: 0 <= i < |actions| ==>
           Enabled(states[i], actions[i]) && states[i + 1] == Apply(states[i], actions[i])
    }

    function Last(): System
      requires states != []
    {
      states[|states| - 1]
    }

    ghost predicate Extends(earlier: Course) {
      rid == earlier.rid && earlier.states <= states && earlier.actions <= actions
    }

    function Then(a: Action): (next: Course)
      requires states != [] && Enabled(Last(), a)
      ensures next.states != [] && next.Last() == Apply(Last(), a) && next.Extends(this)
      ensures Valid() ==> next.Valid()
    {
      Course(rid, states + [Apply(Last(), a)], actions + [a])
    }
  }

  /** A course from the empty system is a run of the protocol. */
  lemma CoursesAreRuns(course: Course)
    requires course.Valid() && course.states[0] == InitialSystem
    ensures IsRun(course.states, course.actions)
  {
  }

  /** The request is in the given phase of a system that agrees with the store. */
  ghost predicate At(course: Course, tables: Tables, phase: Phase) {
    && course.Valid()
    && course.Last().tables == tables
    && course.rid in course.Last().requests
    && course.Last().requests[course.rid] == phase
  }

  // ---- what one own step does to the phase and the tables ---------------------------

  lemma LookedUp(course: Course, tables: Tables, token: Secret, client: string, draw: Draw)
    requires At(course, tables, Lookup(token, client)) && Fresh(course.Last(), draw)
    ensures At(course.Then(Advance(course.rid, draw)), tables, AfterLookup(course.Last(), token, client))
    ensures forall n :: Unused(course.Last(), n) ==> Unused(course.Then(Advance(course.rid, draw)).Last(), n)
  {
  }

  lemma TriedConsumption(course: Course, tables: Tables, token: Secret, record: RefreshRow, draw: Draw)
    requires At(course, tables, Consume(token, record)) && Fresh(course.Last(), draw)
    ensures
      var (after, consumed) := ConsumeRefresh(tables, course.Last().now, token);
      var identity := Identity(record.client, record.owner, GrantedScopes(record.scopes), record.resource);
      At(course.Then(Advance(course.rid, draw)), after,
         if consumed.None? then RevokeReplay(record.family)
         else IssueAccess(Grant(identity, FromRefresh(token, record.family))))
    ensures forall n :: Unused(course.Last(), n) ==> Unused(course.Then(Advance(course.rid, draw)).Last(), n)
  {
  }

  lemma ReplayRevoked(course: Course, tables: Tables, family: FamilyId, draw: Draw)
    requires At(course, tables, RevokeReplay(family)) && Fresh(course.Last(), draw)
    ensures At(course.Then(Advance(course.rid, draw)), RevokeFamily(tables, course.Last().now, family).0, Rejected)
  {
  }

  lemma TriedCode(course: Course, tables: Tables, code: Secret, client: string, redirectUri: string,
                  challenge: string, draw: Draw)
    requires At(course, tables, Redeem(code, client, redirectUri, challenge)) && Fresh(course.Last(), draw)
    ensures
      var (after, record) := ConsumeCode(tables, course.Last().now, code, client, redirectUri, challenge);
      At(course.Then(Advance(course.rid, draw)), after,
         if record.None? then Rejected else IssueAccess(Grant(IdentityOfCode(record.value), FromCode(code))))
    ensures forall n :: Unused(course.Last(), n) ==> Unused(course.Then(Advance(course.rid, draw)).Last(), n)
  {
  }

  lemma AccessCreated(course: Course, tables: Tables, g: Grant, draw: Draw)
    requires At(course, tables, IssueAccess(g)) && Fresh(course.Last(), draw)
    ensures At(course.Then(Advance(course.rid, draw)),
               CreateAccess(tables, draw.access, g.identity.owner, g.identity.scopes, draw.expiresAt),
               IssueRefresh(g, draw.access))
    ensures forall n :: Unused(course.Last(), n) && n.access != draw.access ==>
                          Unused(course.Then(Advance(course.rid, draw)).Last(), n)
  {
  }

  lemma RefreshCreated(course: Course, tables: Tables, g: Grant, id: TokenId, draw: Draw)
    requires At(course, tables, IssueRefresh(g, id)) && Fresh(course.Last(), draw)
    ensures
      var who := g.identity;
      var created := CreateRefresh(tables, course.Last().now, draw.refresh, TargetFamily(g, draw.family), who.client,
                                   who.owner, who.scopes, who.resource, Some(id), draw.expiresAt);
      && created.Some?
      && At(course.Then(Advance(course.rid, draw)), created.value, Issued(g, id, draw.refresh))
  {
  }

  lemma CreationFailed(course: Course, tables: Tables, g: Grant, id: TokenId)
    requires At(course, tables, IssueRefresh(g, id))
    ensures At(course.Then(CreationFails(course.rid)), tables, Compensate(id))
    ensures forall n :: Unused(course.Last(), n) ==> Unused(course.Then(CreationFails(course.rid)).Last(), n)
  {
  }

  lemma Compensated(course: Course, tables: Tables, id: TokenId, draw: Draw)
    requires At(course, tables, Compensate(id)) && Fresh(course.Last(), draw)
    ensures At(course.Then(Advance(course.rid, draw)), RevokeAccess(tables, course.Last().now, id), Rejected)
  {
  }

  lemma RevocationLookedUp(course: Course, tables: Tables, token: Secret, p: Presented, draw: Draw)
    requires At(course, tables, RevokeLookup(token, p)) && Fresh(course.Last(), draw)
    ensures At(course.Then(Advance(course.rid, draw)), tables,
               if token in tables.refresh then RevokeFound(tables.refresh[token].family, p) else RevokeByAccess(p))
    ensures forall n :: Unused(course.Last(), n) ==> Unused(course.Then(Advance(course.rid, draw)).Last(), n)
  {
  }

  lemma FamilyTried(course: Course, tables: Tables, f: FamilyId, p: Presented, draw: Draw)
    requires At(course, tables, RevokeFound(f, p)) && Fresh(course.Last(), draw)
    ensures
      var (after, changed) := RevokeFamily(tables, course.Last().now, f);
      At(course.Then(Advance(course.rid, draw)), after, if changed then Answered else RevokeByAccess(p))
    ensures forall n :: Unused(course.Last(), n) && n.family != f ==>
                          Unused(course.Then(Advance(course.rid, draw)).Last(), n)
  {
  }

  lemma AuthorizationTried(course: Course, tables: Tables, p: Presented, draw: Draw)
    requires At(course, tables, RevokeByAccess(p)) && Fresh(course.Last(), draw)
    ensures
      var (after, found) := RevokeAuthorizationOf(tables, course.Last().now, p.row);
      At(course.Then(Advance(course.rid, draw)), after, if found then Answered else LastResort(p))
    ensures forall n :: Unused(course.Last(), n) ==> Unused(course.Then(Advance(course.rid, draw)).Last(), n)
  {
  }

  lemma IdTried(course: Course, tables: Tables, id: TokenId, draw: Draw)
    requires At(course, tables, RevokeById(id)) && Fresh(course.Last(), draw)
    ensures At(course.Then(Advance(course.rid, draw)), RevokeAccess(tables, course.Last().now, id), Answered)
  {
  }

  /** Whoever serves a lookup of a spent token by its client, with whatever others do in the
      gaps, ends without an answer, and the family is dead by then. */
  lemma ServedReplayKillsFamily(course: Course, done: Course, token: Secret, client: string)
    requires course.Valid() && done.Valid() && done.Extends(course) && done.states[0] == InitialSystem
    requires At(course, course.Last().tables, Lookup(token, client))
    requires token in course.Last().tables.refresh && !Usable(course.Last().tables.refresh[token])
    requires course.Last().tables.refresh[token].client == client
    requires done.rid in done.Last().requests
             && (done.Last().requests[done.rid].Issued? || done.Last().requests[done.rid] == Rejected)
    ensures done.Last().requests[done.rid] == Rejected
    ensures course.Last().tables.refresh[token].family in done.Last().tables.deadFamilies
    ensures FamilyRevoked(done.Last().tables, course.Last().tables.refresh[token].family)
  {
    CoursesAreRuns(done);
    assert done.states[|course.states| - 1] == course.Last();
    ReplayKillsFamily(done.states, done.actions, |course.states| - 1, |done.states| - 1, course.rid, token, client);
  }

  /** Whoever serves the revocation of a refresh token, with whatever others do in the gaps: the
      family is dead by the end. */
  lemma ServedRevocationKillsFamily(course: Course, done: Course, token: Secret, presented: Presented)
    requires course.Valid() && done.Valid() && done.Extends(course) && done.states[0] == InitialSystem
    requires At(course, course.Last().tables, RevokeLookup(token, presented)) && token in course.Last().tables.refresh
    requires done.rid in done.Last().requests && done.Last().requests[done.rid] == Answered
    ensures course.Last().tables.refresh[token].family in done.Last().tables.deadFamilies
    ensures FamilyRevoked(done.Last().tables, course.Last().tables.refresh[token].family)
  {
    CoursesAreRuns(done);
    assert done.states[|course.states| - 1] == course.Last();
    var f := course.Last().tables.refresh[token].family;
    CauseKillsFamily(done.states, done.actions, |course.states| - 1, |done.states| - 1, course.rid, f);
  }

  predicate PresentedBy(t: Tables, token: Secret, client: string) {
    token in t.refresh && t.refresh[token].client == client
  }

  predicate SpentOf(t: Tables, token: Secret, client: string) {
    PresentedBy(t, token, client) && !Usable(t.refresh[token])
  }

  predicate ExpiredUnused(t: Tables, now: nat, token: Secret) {
    token in t.refresh && Usable(t.refresh[token]) && t.refresh[token].expiresAt <= now
  }

  /** The text is an access token that some refresh token of a family points at. */
  predicate AccessFound(t: Tables, row: Option<TokenId>) {
    row.Some? && row.value in t.access && FamiliesOf(t.refresh, row.value) != {}
  }

  /** What the lookup accepts; here the source compares instants, not texts. */
  predicate Refreshable(t: Tables, now: nat, token: Secret, client: string) {
    PresentedBy(t, token, client) && Usable(t.refresh[token]) && t.refresh[token].expiresAt > now
  }

  /** Nothing but the row of the claimed token id changes. */
  function OnlyById(t: Tables, now: nat, jti: Option<TokenId>): Tables {
    if jti.Some? then RevokeAccess(t, now, jti.value) else t
  }

  /** What others do in the gaps between a handler's store calls. */
  datatype Gaps = Gaps(first: seq<Action>, second: seq<Action>, third: seq<Action>, fourth: seq<Action>)

  class Endpoint {
    const store: SQLiteTokenStore
    const ttl: Lifetime

    constructor (store: SQLiteTokenStore, ttl: Lifetime)
      ensures this.store == store && this.ttl == ttl
    {
      this.store, this.ttl := store, ttl;
    }

    /** Others use the store while the handler awaits its next call. */
    method Pause(course: Course, gap: seq<Action>, m: Names, n: Names) returns (later: Course)
      requires course.Valid() && course.rid in course.Last().requests && course.Last().tables == store.Contents()
      requires Unused(course.Last(), m) && Unused(course.Last(), n)
      modifies store
      ensures At(later, store.Contents(), course.Last().requests[course.rid]) && later.Extends(course)
      ensures Unused(later.Last(), m) && Unused(later.Last(), n)
      ensures gap == [] ==> later == course && store.Contents() == old(store.Contents())
    {
      later := course;
      var i := 0;
      while i < |gap|
        invariant later.Valid() && At(later, later.Last().tables, course.Last().requests[course.rid])
        invariant later.Extends(course)
        invariant Unused(later.Last(), m) && Unused(later.Last(), n)
        invariant gap == [] ==> later == course
      {
        if Foreign(later.Last(), course.rid, gap[i], m, n) {
          OthersStayPut(later.Last(), gap[i], course.rid);
          later := later.Then(gap[i]);
        }
        i := i + 1;
      }
      var t := later.Last().tables;
      store.codes, store.access, store.refresh, store.deadFamilies := t.codes, t.access, t.refresh, t.deadFamilies;
    }

    /** The first creation. */
    method CreateAccess(grant: Grant, names: Names, ghost other: Names, course: Course) returns (later: Course)
      requires At(course, store.Contents(), IssueAccess(grant))
      requires Unused(course.Last(), names) && Unused(course.Last(), other) && other.access != names.access
      modifies store
      ensures At(later, store.Contents(), IssueRefresh(grant, names.access)) && later.Extends(course)
      ensures Unused(later.Last(), other)
    {
      var draw := DrawOf(course.Last(), names, ttl);
      AccessCreated(course, store.Contents(), grant, draw);
      store.CreateAuthToken(names.access, grant.identity.owner, grant.identity.scopes, draw.expiresAt);
      later := course.Then(Advance(course.rid, draw));
    }

    /** The second creation, when it does not raise. */
    method CreateRefreshToken(grant: Grant, id: TokenId, names: Names, course: Course) returns (done: Course)
      requires At(course, store.Contents(), IssueRefresh(grant, id)) && Unused(course.Last(), names)
      modifies store
      ensures At(done, store.Contents(), Issued(grant, id, names.refresh)) && done.Extends(course)
    {
      var draw := DrawOf(course.Last(), names, ttl);
      RefreshCreated(course, store.Contents(), grant, id, draw);
      var who := grant.identity;
      var ok := store.CreateOAuthRefreshToken(
        course.Last().now, draw.refresh, TargetFamily(grant, draw.family), who.client, who.owner, who.scopes,
        who.resource, Some(id), draw.expiresAt);
      done := course.Then(Advance(course.rid, draw));
    }

    /** `_issue_access_and_refresh_tokens`: two creations, the first undone when the second raises. */
    method IssueAccessAndRefreshTokens(
        grant: Grant, first: Names, second: Names, creationFails: bool, gaps: Gaps, course: Course)
      returns (answer: Option<Secret>, done: Course)
      requires At(course, store.Contents(), IssueAccess(grant))
      requires Unused(course.Last(), first) && Unused(course.Last(), second) && second.access != first.access
      modifies store
      ensures At(done, store.Contents(),
                 if answer.Some? then Issued(grant, first.access, answer.value) else Rejected)
      ensures done.Extends(course)
      ensures answer.Some? <==> !creationFails
    {
      done := CreateAccess(grant, first, second, course);
      done := Pause(done, gaps.third, second, second);
      if creationFails {
        done := Compensation(grant, first.access, second, gaps.fourth, done);
        answer := None;
      } else {
        done := CreateRefreshToken(grant, first.access, second, done);
        answer := Some(second.refresh);
      }
    }

    /** The second creation raised, and others may move again before the first is undone. */
    method Compensation(grant: Grant, id: TokenId, names: Names, gap: seq<Action>, course: Course)
      returns (done: Course)
      requires At(course, store.Contents(), IssueRefresh(grant, id)) && Unused(course.Last(), names)
      modifies store
      ensures At(done, store.Contents(), Rejected) && done.Extends(course)
    {
      CreationFailed(course, store.Contents(), grant, id);
      done := course.Then(CreationFails(course.rid));
      done := Pause(done, gap, names, names);
      var draw := DrawOf(done.Last(), names, ttl);
      Compensated(done, store.Contents(), id, draw);
      store.RevokeAuthToken(done.Last().now, id);
      done := done.Then(Advance(course.rid, draw));
    }

    /** Replay was detected: the family is revoked and the request rejected. */
    method RejectReplay(family: FamilyId, names: Names, gap: seq<Action>, course: Course) returns (done: Course)
      requires At(course, store.Contents(), RevokeReplay(family)) && Unused(course.Last(), names)
      modifies store
      ensures At(done, store.Contents(), Rejected) && done.Extends(course)
    {
      done := Pause(course, gap, names, names);
      var draw := DrawOf(done.Last(), names, ttl);
      ReplayRevoked(done, store.Contents(), family, draw);
      var changed := store.RevokeOAuthRefreshTokenFamily(done.Last().now, family);
      done := done.Then(Advance(course.rid, draw));
    }

    /** `_refresh_token_response` from the consumption on. */
    method ConsumeAndIssue(
        token: Secret, record: RefreshRow, first: Names, second: Names, creationFails: bool, gaps: Gaps, course: Course)
      returns (answer: Option<Secret>, done: Course)
      requires At(course, store.Contents(), Consume(token, record))
      requires Unused(course.Last(), first) && Unused(course.Last(), second) && second.access != first.access
      modifies store
      ensures done.Extends(course) && done.Valid() && done.Last().tables == store.Contents()
      ensures done.rid in done.Last().requests
      ensures answer.None? ==> done.Last().requests[done.rid] == Rejected
      ensures answer.Some? ==> done.Last().requests[done.rid].Issued?
                               && done.Last().requests[done.rid].refreshToken == answer.value
                               && done.Last().requests[done.rid].grant.origin == FromRefresh(token, record.family)
      ensures answer.Some? <==>
                ConsumeRefresh(old(store.Contents()), course.Last().now, token).1.Some? && !creationFails
    {
      var draw := DrawOf(course.Last(), first, ttl);
      TriedConsumption(course, store.Contents(), token, record, draw);
      var consumed := store.ConsumeOAuthRefreshToken(course.Last().now, token);
      done := course.Then(Advance(course.rid, draw));
      if consumed.None? {
        done := RejectReplay(record.family, first, gaps.second, done);
        answer := None;
        return;
      }
      var identity := Identity(record.client, record.owner, GrantedScopes(record.scopes), record.resource);
      done := Pause(done, gaps.second, first, second);
      answer, done := IssueAccessAndRefreshTokens(
        Grant(identity, FromRefresh(token, record.family)), first, second, creationFails, gaps, done);
    }

    /** `_refresh_token_response`. Whatever others do in the gaps, only a token that was usable and
        unexpired at the lookup is answered, and a spent token of its client kills the family. When
        nobody comes between lookup and consumption, such a token is answered unless the creation
        raises. */
    method RefreshTokenResponse(
        token: Secret, client: string, first: Names, second: Names, creationFails: bool, gaps: Gaps, course: Course)
      returns (answer: Option<Secret>, done: Course)
      requires At(course, store.Contents(), Lookup(token, client))
      requires Unused(course.Last(), first) && Unused(course.Last(), second) && second.access != first.access
      modifies store
      ensures done.Extends(course) && done.Valid() && done.Last().tables == store.Contents()
      ensures done.rid in done.Last().requests
      ensures answer.None? ==> done.Last().requests[done.rid] == Rejected
      ensures answer.Some? ==> done.Last().requests[done.rid].Issued?
                               && done.Last().requests[done.rid].refreshToken == answer.value
      ensures !PresentedBy(old(store.Contents()), token, client) ==>
                answer.None? && store.Contents() == old(store.Contents())
      ensures ExpiredUnused(old(store.Contents()), course.Last().now, token) ==>
                answer.None? && store.Contents() == old(store.Contents())
      ensures answer.Some? ==> Refreshable(old(store.Contents()), course.Last().now, token, client) && !creationFails
      ensures gaps.first == [] && !creationFails ==>
                (Refreshable(old(store.Contents()), course.Last().now, token, client) ==> answer.Some?)
      ensures course.states[0] == InitialSystem && SpentOf(old(store.Contents()), token, client) ==>
                && answer.None? && old(store.refresh)[token].family in store.deadFamilies
                && FamilyRevoked(store.Contents(), old(store.refresh)[token].family)
    {
      answer := None;
      var record := store.OAuthRefreshToken(token);
      done := Looked(token, client, first, second, course);
      if record.None? || record.value.client != client {
        return;
      }
      if !Usable(record.value) {
        done := RejectReplay(record.value.family, first, gaps.first, done);
        if course.states[0] == InitialSystem {
          ServedReplayKillsFamily(course, done, token, client);
        }
        return;
      }
      if record.value.expiresAt <= course.Last().now {
        return;
      }
      OpenPastExpiryIffSameDay(record.value.expiresAt, course.Last().now);
      done := Pause(done, gaps.first, first, second);
      answer, done := ConsumeAndIssue(token, record.value, first, second, creationFails, gaps, done);
    }

    /** The lookup changes nothing but the phase. */
    method Looked(token: Secret, client: string, names: Names, ghost other: Names, course: Course)
      returns (later: Course)
      requires At(course, store.Contents(), Lookup(token, client))
      requires Unused(course.Last(), names) && Unused(course.Last(), other)
      ensures At(later, store.Contents(), AfterLookup(course.Last(), token, client)) && later.Extends(course)
      ensures Unused(later.Last(), names) && Unused(later.Last(), other) && later.Last().now == course.Last().now
    {
      var draw := DrawOf(course.Last(), names, ttl);
      LookedUp(course, store.Contents(), token, client, draw);
      later := course.Then(Advance(course.rid, draw));
    }

    /** The code is consumed. */
    method RedeemCode(code: Secret, client: string, redirectUri: string, challenge: string,
                      names: Names, ghost other: Names, course: Course)
      returns (record: Option<CodeRow>, later: Course)
      requires At(course, store.Contents(), Redeem(code, client, redirectUri, challenge))
      requires Unused(course.Last(), names) && Unused(course.Last(), other)
      modifies store
      ensures record == ConsumeCode(old(store.Contents()), course.Last().now, code, client, redirectUri, challenge).1
      ensures At(later, store.Contents(),
                 if record.None? then Rejected else IssueAccess(Grant(IdentityOfCode(record.value), FromCode(code))))
      ensures later.Extends(course) && Unused(later.Last(), names) && Unused(later.Last(), other)
    {
      var draw := DrawOf(course.Last(), names, ttl);
      TriedCode(course, store.Contents(), code, client, redirectUri, challenge, draw);
      record := store.ConsumeAuthorizationCode(course.Last().now, code, client, redirectUri, challenge);
      later := course.Then(Advance(course.rid, draw));
    }

    /** The authorization-code branch of `oauth_token`. */
    method CodeResponse(
        code: Secret, client: string, redirectUri: string, challenge: string,
        first: Names, second: Names, creationFails: bool, gaps: Gaps, course: Course)
      returns (answer: Option<Secret>, done: Course)
      requires At(course, store.Contents(), Redeem(code, client, redirectUri, challenge))
      requires Unused(course.Last(), first) && Unused(course.Last(), second) && second.access != first.access
      modifies store
      ensures done.Extends(course) && done.Valid() && done.Last().tables == store.Contents()
      ensures done.rid in done.Last().requests
      ensures answer.None? ==> done.Last().requests[done.rid] == Rejected
      ensures answer.Some? ==> done.Last().requests[done.rid].Issued?
                               && done.Last().requests[done.rid].refreshToken == answer.value
                               && done.Last().requests[done.rid].grant.origin == FromCode(code)
      ensures answer.Some? <==>
                && code in old(store.codes) && old(store.codes)[code].client == client
                && old(store.codes)[code].redirectUri == redirectUri && old(store.codes)[code].challenge == challenge
                && old(store.codes)[code].consumedAt.None?
                && Day(course.Last().now) <= Day(old(store.codes)[code].expiresAt) && !creationFails
    {
      CodeIsConsumedIff(store.Contents(), course.Last().now, code, client, redirectUri, challenge);
      answer := None;
      var record;
      record, done := RedeemCode(code, client, redirectUri, challenge, first, second, course);
      if record.None? {
        return;
      }
      done := Pause(done, gaps.first, first, second);
      answer, done := IssueAccessAndRefreshTokens(
        Grant(IdentityOfCode(record.value), FromCode(code)), first, second, creationFails, gaps, done);
    }

    /** The revocation endpoint: as a refresh token, else as an access token, else by the token id
        that the text claims. A text that is neither token revokes that id alone. */
    method OAuthRevoke(token: Secret, presented: Presented, names: Names, gaps: Gaps, course: Course)
      returns (done: Course)
      requires At(course, store.Contents(), RevokeLookup(token, presented))
      requires Unused(course.Last(), names)
      requires token in store.refresh ==> store.refresh[token].family != names.family
      modifies store
      ensures At(done, store.Contents(), Answered) && done.Extends(course)
      ensures course.states[0] == InitialSystem && token in old(store.refresh) ==>
                old(store.refresh)[token].family in store.deadFamilies
                && FamilyRevoked(store.Contents(), old(store.refresh)[token].family)
      ensures gaps.first == [] && gaps.third == [] && token !in old(store.refresh) && presented.row.None? ==>
                store.Contents() == OnlyById(old(store.Contents()), course.Last().now, presented.jti)
      ensures gaps.first == [] && token !in old(store.refresh) && AccessFound(old(store.Contents()), presented.row) ==>
                store.Contents()
                == RevokeAuthorization(old(store.Contents()), course.Last().now, presented.row.value).0
    {
      done := Revoke(token, presented, names, gaps, course);
      if course.states[0] == InitialSystem && token in old(store.refresh) {
        ServedRevocationKillsFamily(course, done, token, presented);
      }
    }

    /** Its attempts, one after the other. */
    method Revoke(token: Secret, presented: Presented, names: Names, gaps: Gaps, course: Course)
      returns (done: Course)
      requires At(course, store.Contents(), RevokeLookup(token, presented))
      requires Unused(course.Last(), names)
      requires token in store.refresh ==> store.refresh[token].family != names.family
      modifies store
      ensures At(done, store.Contents(), Answered) && done.Extends(course)
      ensures gaps.first == [] && gaps.third == [] && token !in old(store.refresh) && presented.row.None? ==>
                store.Contents() == OnlyById(old(store.Contents()), course.Last().now, presented.jti)
      ensures gaps.first == [] && token !in old(store.refresh) && AccessFound(old(store.Contents()), presented.row) ==>
                store.Contents()
                == RevokeAuthorization(old(store.Contents()), course.Last().now, presented.row.value).0
    {
      var record;
      record, done := LookUpForRevocation(token, presented, names, course);
      done := Pause(done, gaps.first, names, names);
      if record.Some? {
        var changed;
        changed, done := RevokeFoundFamily(record.value.family, presented, names, done);
        if changed {
          return;
        }
        done := Pause(done, gaps.second, names, names);
      }
      done := RevokeAccessToken(presented, names, gaps.third, done);
    }

    /** Whether the presented token is a refresh token. */
    method LookUpForRevocation(token: Secret, presented: Presented, names: Names, course: Course)
      returns (record: Option<RefreshRow>, later: Course)
      requires At(course, store.Contents(), RevokeLookup(token, presented)) && Unused(course.Last(), names)
      ensures record == LookupRefresh(store.Contents(), token)
      ensures At(later, store.Contents(),
                 if record.Some? then RevokeFound(record.value.family, presented) else RevokeByAccess(presented))
      ensures later.Extends(course) && Unused(later.Last(), names) && later.Last().now == course.Last().now
    {
      var draw := DrawOf(course.Last(), names, ttl);
      RevocationLookedUp(course, store.Contents(), token, presented, draw);
      record := store.OAuthRefreshToken(token);
      later := course.Then(Advance(course.rid, draw));
    }

    /** The family of the presented refresh token is revoked. */
    method RevokeFoundFamily(family: FamilyId, presented: Presented, names: Names, course: Course)
      returns (changed: bool, later: Course)
      requires At(course, store.Contents(), RevokeFound(family, presented))
      requires Unused(course.Last(), names) && names.family != family
      modifies store
      ensures At(later, store.Contents(), if changed then Answered else RevokeByAccess(presented))
      ensures later.Extends(course) && Unused(later.Last(), names)
    {
      var draw := DrawOf(course.Last(), names, ttl);
      FamilyTried(course, store.Contents(), family, presented, draw);
      changed := store.RevokeOAuthRefreshTokenFamily(course.Last().now, family);
      later := course.Then(Advance(course.rid, draw));
    }

    /** The revocation endpoint once no refresh token was revoked. */
    method RevokeAccessToken(presented: Presented, names: Names, gap: seq<Action>, course: Course)
      returns (done: Course)
      requires At(course, store.Contents(), RevokeByAccess(presented)) && Unused(course.Last(), names)
      modifies store
      ensures At(done, store.Contents(), Answered) && done.Extends(course)
      ensures gap == [] && presented.row.None? ==>
                store.Contents() == OnlyById(old(store.Contents()), course.Last().now, presented.jti)
      ensures AccessFound(old(store.Contents()), presented.row) ==>
                store.Contents()
                == RevokeAuthorization(old(store.Contents()), course.Last().now, presented.row.value).0
    {
      var found;
      found, done := RevokeAuthorizationOf(presented, names, course);
      if found || presented.jti.None? {
        return;
      }
      done := Pause(done, gap, names, names);
      done := RevokeTokenId(presented.jti.value, names, done);
    }

    method RevokeAuthorizationOf(presented: Presented, names: Names, course: Course)
      returns (found: bool, later: Course)
      requires At(course, store.Contents(), RevokeByAccess(presented)) && Unused(course.Last(), names)
      modifies store
      ensures At(later, store.Contents(), if found then Answered else LastResort(presented))
      ensures later.Extends(course) && Unused(later.Last(), names) && later.Last().now == course.Last().now
      ensures found <==> AccessFound(old(store.Contents()), presented.row)
      ensures store.Contents()
              == if found then RevokeAuthorization(old(store.Contents()), course.Last().now, presented.row.value).0
                 else old(store.Contents())
    {
      var draw := DrawOf(course.Last(), names, ttl);
      AuthorizationTried(course, store.Contents(), presented, draw);
      found := store.RevokeOAuthAuthorizationForAccessToken(course.Last().now, presented.row);
      later := course.Then(Advance(course.rid, draw));
    }

    method RevokeTokenId(accessId: TokenId, names: Names, course: Course) returns (done: Course)
      requires At(course, store.Contents(), RevokeById(accessId)) && Unused(course.Last(), names)
      modifies store
      ensures At(done, store.Contents(), Answered) && done.Extends(course)
      ensures store.Contents() == RevokeAccess(old(store.Contents()), course.Last().now, accessId)
    {
      var draw := DrawOf(course.Last(), names, ttl);
      IdTried(course, store.Contents(), accessId, draw);
      store.RevokeAuthToken(course.Last().now, accessId);
      done := course.Then(Advance(course.rid, draw));
    }
  }
}
