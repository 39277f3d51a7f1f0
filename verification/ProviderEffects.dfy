/** What the calls on pending provider logins change, and exactly why they refuse, in the columns of
    the table. */
module ProviderEffects {
  import opened Instants
  import opened ProviderStates

  /** The rows that count: unconsumed, and their day of expiry is not over. */
  ghost predicate Counts(rows: Rows, now: nat, h: string) {
    h in rows && !rows[h].consumed && Day(now) <= Day(rows[h].expiresAt)
  }

  /** `all` are the rows that count, and `own` those of them that the browser made. */
  ghost predicate Counted(rows: Rows, now: nat, browser: string, all: set<string>, own: set<string>) {
    && (forall h :: h in all <==> Counts(rows, now, h))
    && (forall h :: h in own <==> Counts(rows, now, h) && rows[h].browser == browser)
  }

  /** The outcome of a creation: first the quota of all, then the quota of the browser, which counts
      that browser's rows alone, then the state itself. */
  lemma CreationOutcome(
      rows: Rows, now: nat, limits: Limits, state: string, browser: string, all: set<string>, own: set<string>)
    requires Counted(rows, now, browser, all, own)
    ensures
      CreateResultOf(rows, now, limits, state, browser)
      == if |all| >= limits.global then GlobalQuotaExceeded
         else if |own| >= limits.perBrowser then BrowserQuotaExceeded
         else if state in rows && !rows[state].consumed && Day(now) <= Day(rows[state].expiresAt) then AlreadyExists
         else Created
  {
    assert all == AllActive(rows, now);
    assert own == ActiveOf(rows, now, browser);
  }

  /** A successful creation leaves the rows that count as they were, removes all others, and adds the
      state with what it was made with; a refused one changes nothing. */
  lemma CreationChanges(
      rows: Rows, now: nat, limits: Limits, state: string, provider: string, browser: string, data: string,
      expiresAt: nat)
    ensures
      var after := AfterCreate(rows, now, limits, state, provider, browser, data, expiresAt);
      if CreateResultOf(rows, now, limits, state, browser) == Created then
        && state in after && after[state].provider == provider && after[state].browser == browser
        && after[state].data == data && after[state].expiresAt == expiresAt && !after[state].consumed
        && (forall h :: h != state ==> (h in after <==> Counts(rows, now, h)))
        && (forall h :: h != state && h in after ==> after[h] == rows[h])
      else after == rows
  {
  }

  /** A state is consumed exactly when it is stored for this provider and this browser, unconsumed,
      and its day of expiry is not over; then it is marked, and nothing else changes. */
  lemma ConsumptionChanges(rows: Rows, now: nat, state: string, provider: string, browser: string)
    ensures
      var after := AfterConsume(rows, now, state, provider, browser);
      && after.Keys == rows.Keys
      && (forall h :: h in rows && h != state ==> after[h] == rows[h])
      && (state in rows ==>
            after[state]
            == if rows[state].provider == provider && rows[state].browser == browser && !rows[state].consumed
                  && Day(now) <= Day(rows[state].expiresAt)
               then rows[state].(consumed := true) else rows[state])
    ensures Consumable(rows, now, state, provider, browser)
       <==> Counts(rows, now, state) && rows[state].provider == provider && rows[state].browser == browser
  {
  }

  /** A browser's quota is its own: rows of other browsers never refuse it for that quota. */
  lemma BrowserQuotaIsOwn(rows: Rows, now: nat, limits: Limits, state: string, browser: string)
    requires forall h :: Counts(rows, now, h) ==> rows[h].browser != browser
    requires limits.perBrowser > 0
    ensures CreateResultOf(rows, now, limits, state, browser) != BrowserQuotaExceeded
  {
    CreationOutcome(rows, now, limits, state, browser, AllActive(rows, now), {});
  }
}
