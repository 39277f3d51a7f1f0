/** Pending logins at an identity provider: the quotas on them, their cleanup, and their one use. */
module ProviderStates {
  import opened Instants
  import opened Options

  /** The row of a state. `data` stands for the nonce, the verifier and the stored state data. */
  datatype Row = Row(provider: string, browser: string, data: string, expiresAt: nat, consumed: bool)

  /** The table, by state hash: distinct states have distinct hashes, so the state is the key. */
  type Rows = map<string, Row>

  datatype CreateResult = Created | GlobalQuotaExceeded | BrowserQuotaExceeded | AlreadyExists

  datatype Limits = Limits(perBrowser: nat, global: nat)

  /** What the queries take for active: unconsumed, and open as SQLite compares the texts. */
  predicate Active(row: Row, now: nat) {
    !row.consumed && OpenInSql(row.expiresAt, now)
  }

  /** Unconsumed and not yet expired. */
  predicate Unexpired(row: Row, now: nat) {
    !row.consumed && row.expiresAt > now
  }

  function AllActive(rows: Rows, now: nat): set<string> {
    set h | h in rows && Active(rows[h], now)
  }

  function ActiveOf(rows: Rows, now: nat, browser: string): set<string> {
    set h | h in rows && Active(rows[h], now) && rows[h].browser == browser
  }

  function AllUnexpired(rows: Rows, now: nat): set<string> {
    set h | h in rows && Unexpired(rows[h], now)
  }

  function UnexpiredOf(rows: Rows, now: nat, browser: string): set<string> {
    set h | h in rows && Unexpired(rows[h], now) && rows[h].browser == browser
  }

  /** Unconsumed states that expired earlier the same day. */
  function ExpiredToday(rows: Rows, now: nat): set<string> {
    set h | h in rows && !rows[h].consumed && rows[h].expiresAt <= now && Day(rows[h].expiresAt) == Day(now)
  }

  /** The cleanup: what is consumed goes, and what expired on an earlier day. */
  function Swept(rows: Rows, now: nat): Rows {
    map h | h in rows && Active(rows[h], now) :: rows[h]
  }

  // ---- the two operations on the table ------------------------------------------------------

  function CreateResultOf(rows: Rows, now: nat, limits: Limits, state: string, browser: string): CreateResult {
    if |AllActive(rows, now)| >= limits.global then GlobalQuotaExceeded
    else if |ActiveOf(rows, now, browser)| >= limits.perBrowser then BrowserQuotaExceeded
    else if state in AllActive(rows, now) then AlreadyExists
    else Created
  }

  /** A creation that fails is rolled back together with its cleanup. */
  function AfterCreate(rows: Rows, now: nat, limits: Limits, state: string, provider: string, browser: string,
                       data: string, expiresAt: nat): Rows {
    if CreateResultOf(rows, now, limits, state, browser) == Created
    then Swept(rows, now)[state := Row(provider, browser, data, expiresAt, false)]
    else rows
  }

  predicate Consumable(rows: Rows, now: nat, state: string, provider: string, browser: string) {
    && state in rows && Active(rows[state], now)
    && rows[state].provider == provider && rows[state].browser == browser
  }

  function AfterConsume(rows: Rows, now: nat, state: string, provider: string, browser: string): Rows {
    if Consumable(rows, now, state, provider, browser)
    then rows[state := rows[state].(consumed := true)]
    else rows
  }

  lemma SweepKeepsActive(rows: Rows, now: nat, browser: string)
    ensures AllActive(Swept(rows, now), now) == AllActive(rows, now) == Swept(rows, now).Keys
    ensures ActiveOf(Swept(rows, now), now, browser) == ActiveOf(rows, now, browser)
  {
  }

  // ---- the day of expiry ----------------------------------------------------------------------

  /** What the quotas count: the unexpired states, and those that expired earlier the same day. */
  lemma ActiveIsUnexpiredOrExpiredToday(rows: Rows, now: nat)
    ensures AllActive(rows, now) == AllUnexpired(rows, now) + ExpiredToday(rows, now)
    ensures AllUnexpired(rows, now) !! ExpiredToday(rows, now)
    ensures |AllActive(rows, now)| == |AllUnexpired(rows, now)| + |ExpiredToday(rows, now)|
    ensures forall browser :: UnexpiredOf(rows, now, browser) <= ActiveOf(rows, now, browser)
  {
    forall h | h in rows
      ensures h in AllActive(rows, now) <==> h in AllUnexpired(rows, now) || h in ExpiredToday(rows, now)
    {
      OpenPastExpiryIffSameDay(rows[h].expiresAt, now);
    }
    forall browser, h | h in UnexpiredOf(rows, now, browser) ensures h in ActiveOf(rows, now, browser) {
      OpenPastExpiryIffSameDay(rows[h].expiresAt, now);
    }
    assert AllActive(rows, now) == AllUnexpired(rows, now) + ExpiredToday(rows, now);
  }

  /** An unused state is consumed by its own provider and browser exactly when it is unexpired,
      or it is still the day of its expiry. */
  lemma ExpiredStateIsConsumedIffSameDay(rows: Rows, now: nat, state: string)
    requires state in rows && !rows[state].consumed
    ensures Consumable(rows, now, state, rows[state].provider, rows[state].browser)
       <==> rows[state].expiresAt > now || Day(rows[state].expiresAt) == Day(now)
  {
    OpenPastExpiryIffSameDay(rows[state].expiresAt, now);
  }

  /** A creation is refused for the global quota exactly when the unexpired states and those
      that expired earlier the same day reach it. */
  lemma GlobalQuotaCountsExpiredToday(rows: Rows, now: nat, limits: Limits, state: string, browser: string)
    ensures CreateResultOf(rows, now, limits, state, browser) == GlobalQuotaExceeded
       <==> |AllUnexpired(rows, now)| + |ExpiredToday(rows, now)| >= limits.global
  {
    ActiveIsUnexpiredOrExpiredToday(rows, now);
  }

  /** A state for ten minutes, made at ten o'clock, is consumed at noon; and with a limit of one
      it keeps another from being made until midnight, but no longer. */
  lemma StateUsedHoursLate(row: Row, state: string, other: string, browser: string)
    requires !row.consumed && row.expiresAt == 10 * 3600 + 600
    ensures Consumable(map[state := row], 12 * 3600, state, row.provider, row.browser)
    ensures AllUnexpired(map[state := row], 12 * 3600) == {}
    ensures CreateResultOf(map[state := row], 12 * 3600, Limits(1, 1), other, browser) == GlobalQuotaExceeded
    ensures CreateResultOf(map[state := row], 24 * 3600, Limits(1, 1), other, browser) == Created
  {
    var rows := map[state := row];
    assert ExpiredToday(rows, 12 * 3600) == {state};
    GlobalQuotaCountsExpiredToday(rows, 12 * 3600, Limits(1, 1), other, browser);
    ExpiredStateIsConsumedIffSameDay(rows, 12 * 3600, state);
    assert AllActive(rows, 24 * 3600) == {} && ActiveOf(rows, 24 * 3600, browser) == {};
  }

  class ProviderStateStore {
    var rows: Rows

    constructor ()
      ensures rows == map[]
    {
      rows := map[];
    }

    /** `create_oauth_provider_state`, one transaction. */
    method CreateOauthProviderState(now: nat, limits: Limits, state: string, provider: string, browser: string,
                                    data: string, expiresAt: nat) returns (result: CreateResult)
      modifies this
      ensures result == CreateResultOf(old(rows), now, limits, state, browser)
      ensures rows == AfterCreate(old(rows), now, limits, state, provider, browser, data, expiresAt)
    {
      var saved := rows;
      rows := map h | h in rows && !(rows[h].consumed || !OpenInSql(rows[h].expiresAt, now)) :: rows[h];
      assert rows == Swept(saved, now);
      SweepKeepsActive(saved, now, browser);
      if |AllActive(rows, now)| >= limits.global {
        rows := saved;
        return GlobalQuotaExceeded;
      }
      if |ActiveOf(rows, now, browser)| >= limits.perBrowser {
        rows := saved;
        return BrowserQuotaExceeded;
      }
      if state in rows {
        rows := saved;
        return AlreadyExists;
      }
      rows := rows[state := Row(provider, browser, data, expiresAt, false)];
      result := Created;
    }

    /** `consume_oauth_provider_state`, one update. */
    method ConsumeOauthProviderState(now: nat, state: string, provider: string, browser: string)
      returns (data: Option<string>)
      modifies this
      ensures rows == AfterConsume(old(rows), now, state, provider, browser)
      ensures data == if Consumable(old(rows), now, state, provider, browser)
                      then Some(old(rows)[state].data) else None
    {
      if state !in rows {
        return None;
      }
      var row := rows[state];
      if row.provider != provider || row.browser != browser || row.consumed
         || !OpenInSql(row.expiresAt, now) {
        return None;
      }
      rows := rows[state := row.(consumed := true)];
      data := Some(row.data);
    }
  }

  // ---- runs ---------------------------------------------------------------------------------

  /** Calls in any order, from any browser, with time passing between them. */
  datatype Action =
    | Tick(elapsed: nat)
    | Create(state: string, provider: string, browser: string, data: string, expiresAt: nat)
    | Consume(state: string, provider: string, browser: string)

  /** What succeeded, and when. */
  datatype Event = Event(at: nat, action: Action)

  datatype System = System(now: nat, rows: Rows, log: seq<Event>)

  const Start := System(0, map[], [])

  predicate Succeeds(s: System, limits: Limits, a: Action) {
    match a
    case Tick(_) => false
    case Create(state, _, browser, _, _) => CreateResultOf(s.rows, s.now, limits, state, browser) == Created
    case Consume(state, provider, browser) => Consumable(s.rows, s.now, state, provider, browser)
  }

  function Step(s: System, limits: Limits, a: Action): System {
    var rows := match a
                case Tick(_) => s.rows
                case Create(state, provider, browser, data, expiresAt) =>
                  AfterCreate(s.rows, s.now, limits, state, provider, browser, data, expiresAt)
                case Consume(state, provider, browser) =>
                  AfterConsume(s.rows, s.now, state, provider, browser);
    System(if a.Tick? then s.now + a.elapsed else s.now, rows,
           if Succeeds(s, limits, a) then s.log + [Event(s.now, a)] else s.log)
  }

  function Run(s: System, limits: Limits, actions: seq<Action>): System {
    if actions == [] then s
    else Step(Run(s, limits, actions[..|actions| - 1]), limits, actions[|actions| - 1])
  }

  // ---- the quotas -----------------------------------------------------------------------------

  ghost predicate WithinLimits(s: System, limits: Limits) {
    && |AllActive(s.rows, s.now)| <= limits.global
    && forall browser :: |ActiveOf(s.rows, s.now, browser)| <= limits.perBrowser
  }

  lemma {:induction false} SubsetSize<T>(small: set<T>, large: set<T>)
    requires small <= large
    ensures |small| <= |large|
    decreases small
  {
    if small != {} {
      var x :| x in small;
      SubsetSize(small - {x}, large - {x});
    }
  }

  lemma CreateStaysWithinLimits(s: System, limits: Limits, a: Action)
    requires WithinLimits(s, limits) && a.Create? && Succeeds(s, limits, a)
    ensures WithinLimits(Step(s, limits, a), limits)
  {
    var t := Step(s, limits, a);
    var before := AllActive(s.rows, s.now);
    assert AllActive(t.rows, t.now) <= before + {a.state};
    SubsetSize(AllActive(t.rows, t.now), before + {a.state});
    forall browser ensures |ActiveOf(t.rows, t.now, browser)| <= limits.perBrowser {
      var mine := ActiveOf(s.rows, s.now, browser);
      if browser == a.browser {
        assert ActiveOf(t.rows, t.now, browser) <= mine + {a.state};
        SubsetSize(ActiveOf(t.rows, t.now, browser), mine + {a.state});
      } else {
        assert ActiveOf(t.rows, t.now, browser) <= mine;
        SubsetSize(ActiveOf(t.rows, t.now, browser), mine);
      }
    }
  }

  lemma StepStaysWithinLimits(s: System, limits: Limits, a: Action)
    requires WithinLimits(s, limits)
    ensures WithinLimits(Step(s, limits, a), limits)
  {
    if a.Create? && Succeeds(s, limits, a) {
      CreateStaysWithinLimits(s, limits, a);
    } else {
      var t := Step(s, limits, a);
      assert AllActive(t.rows, t.now) <= AllActive(s.rows, s.now);
      SubsetSize(AllActive(t.rows, t.now), AllActive(s.rows, s.now));
      forall browser ensures |ActiveOf(t.rows, t.now, browser)| <= limits.perBrowser {
        assert ActiveOf(t.rows, t.now, browser) <= ActiveOf(s.rows, s.now, browser);
        SubsetSize(ActiveOf(t.rows, t.now, browser), ActiveOf(s.rows, s.now, browser));
      }
    }
  }

  /** In every run no browser, and not all together, ever hold more active states than allowed,
      and so not more unexpired ones. */
  lemma QuotasHold(limits: Limits, actions: seq<Action>)
    ensures WithinLimits(Run(Start, limits, actions), limits)
    ensures var s := Run(Start, limits, actions);
            && |AllUnexpired(s.rows, s.now)| <= limits.global
            && forall browser :: |UnexpiredOf(s.rows, s.now, browser)| <= limits.perBrowser
  {
    var s := Run(Start, limits, actions);
    RunStaysWithinLimits(limits, actions);
    ActiveIsUnexpiredOrExpiredToday(s.rows, s.now);
    forall browser ensures |UnexpiredOf(s.rows, s.now, browser)| <= limits.perBrowser {
      SubsetSize(UnexpiredOf(s.rows, s.now, browser), ActiveOf(s.rows, s.now, browser));
    }
  }

  lemma {:induction false} RunStaysWithinLimits(limits: Limits, actions: seq<Action>)
    ensures WithinLimits(Run(Start, limits, actions), limits)
    decreases |actions|
  {
    if actions == [] {
      assert AllActive(Start.rows, Start.now) == {};
      forall browser ensures |ActiveOf(Start.rows, Start.now, browser)| <= limits.perBrowser {
        assert ActiveOf(Start.rows, Start.now, browser) == {};
      }
    } else {
      RunStaysWithinLimits(limits, actions[..|actions| - 1]);
      StepStaysWithinLimits(Run(Start, limits, actions[..|actions| - 1]), limits, actions[|actions| - 1]);
    }
  }

  // ---- one use ----------------------------------------------------------------------------------

  /** How often the state was created. */
  function Creations(log: seq<Event>, state: string): nat {
    if log == [] then 0
    else
      var a := log[|log| - 1].action;
      Creations(log[..|log| - 1], state) + if a.Create? && a.state == state then 1 else 0
  }

  function Consumptions(log: seq<Event>, state: string): nat {
    if log == [] then 0
    else
      var a := log[|log| - 1].action;
      Consumptions(log[..|log| - 1], state) + if a.Consume? && a.state == state then 1 else 0
  }

  function Unused(rows: Rows, state: string): nat {
    if state in rows && !rows[state].consumed then 1 else 0
  }

  /** The row as its creation wrote it. */
  predicate Stems(row: Row, state: string, e: Event) {
    && e.action.Create? && e.action.state == state
    && e.action.provider == row.provider && e.action.browser == row.browser
    && e.action.data == row.data && e.action.expiresAt == row.expiresAt
  }

  /** The use answers the creation: same state, provider and browser, later, and at the latest on
      the day of expiry. */
  predicate Answers(use: Event, creation: Event) {
    && use.action.Consume? && creation.action.Create?
    && use.action.state == creation.action.state
    && use.action.provider == creation.action.provider && use.action.browser == creation.action.browser
    && creation.at <= use.at && Day(use.at) <= Day(creation.action.expiresAt)
  }

  ghost predicate History(s: System) {
    && (forall i :: 0 <= i < |s.log| ==> s.log[i].at <= s.now)
    && (forall h :: h in s.rows ==> exists i :: 0 <= i < |s.log| && Stems(s.rows[h], h, s.log[i]))
    && (forall i :: 0 <= i < |s.log| && s.log[i].action.Consume? ==>
          exists j :: 0 <= j < i && Answers(s.log[i], s.log[j]))
  }

  lemma RowsStem(s: System, limits: Limits, a: Action, h: string)
    requires History(s) && h in Step(s, limits, a).rows
    ensures var t := Step(s, limits, a);
            exists i :: 0 <= i < |t.log| && Stems(t.rows[h], h, t.log[i])
  {
    var t := Step(s, limits, a);
    if a.Create? && Succeeds(s, limits, a) && h == a.state {
      assert Stems(t.rows[h], h, t.log[|s.log|]);
    } else {
      assert h in s.rows;
      var i :| 0 <= i < |s.log| && Stems(s.rows[h], h, s.log[i]);
      assert t.log[i] == s.log[i] && Stems(t.rows[h], h, t.log[i]);
    }
  }

  lemma UseAnswers(s: System, limits: Limits, a: Action)
    requires History(s) && a.Consume? && Succeeds(s, limits, a)
    ensures exists j :: 0 <= j < |s.log| && Answers(Event(s.now, a), s.log[j])
  {
    var j :| 0 <= j < |s.log| && Stems(s.rows[a.state], a.state, s.log[j]);
    assert Answers(Event(s.now, a), s.log[j]);
  }

  lemma StepKeepsAnswers(s: System, limits: Limits, a: Action, i: nat)
    requires History(s) && i < |Step(s, limits, a).log| && Step(s, limits, a).log[i].action.Consume?
    ensures var log := Step(s, limits, a).log;
            exists j :: 0 <= j < i && Answers(log[i], log[j])
  {
    var log := Step(s, limits, a).log;
    if i < |s.log| {
      var j :| 0 <= j < i && Answers(s.log[i], s.log[j]);
      assert log[i] == s.log[i] && log[j] == s.log[j];
    } else {
      UseAnswers(s, limits, a);
      var j :| 0 <= j < |s.log| && Answers(Event(s.now, a), s.log[j]);
      assert log[j] == s.log[j];
    }
  }

  lemma StepKeepsHistory(s: System, limits: Limits, a: Action)
    requires History(s)
    ensures History(Step(s, limits, a))
  {
    var t := Step(s, limits, a);
    forall h | h in t.rows ensures exists i :: 0 <= i < |t.log| && Stems(t.rows[h], h, t.log[i]) {
      RowsStem(s, limits, a, h);
    }
    forall i | 0 <= i < |t.log| && t.log[i].action.Consume?
      ensures exists j :: 0 <= j < i && Answers(t.log[i], t.log[j])
    {
      StepKeepsAnswers(s, limits, a, i);
    }
  }

  lemma StepKeepsBalance(s: System, limits: Limits, a: Action, state: string)
    requires Consumptions(s.log, state) + Unused(s.rows, state) <= Creations(s.log, state)
    ensures var t := Step(s, limits, a);
            Consumptions(t.log, state) + Unused(t.rows, state) <= Creations(t.log, state)
  {
    var t := Step(s, limits, a);
    if Succeeds(s, limits, a) {
      assert t.log[..|t.log| - 1] == s.log;
    }
  }

  /** In every run each successful use of a state answers an earlier creation for the same
      provider and browser, by the end of its day of expiry, and uses never outnumber creations: a state created once
      is used at most once, and a state used up can not be used again. */
  lemma {:induction false} EachStateIsUsedOnce(limits: Limits, actions: seq<Action>, state: string)
    ensures History(Run(Start, limits, actions))
    ensures var s := Run(Start, limits, actions);
            Consumptions(s.log, state) + Unused(s.rows, state) <= Creations(s.log, state)
    decreases |actions|
  {
    if actions != [] {
      EachStateIsUsedOnce(limits, actions[..|actions| - 1], state);
      StepKeepsHistory(Run(Start, limits, actions[..|actions| - 1]), limits, actions[|actions| - 1]);
      StepKeepsBalance(Run(Start, limits, actions[..|actions| - 1]), limits, actions[|actions| - 1], state);
    }
  }

  // ---- the cleanup loses nothing -------------------------------------------------------------------

  lemma ActiveStays(s: System, limits: Limits, a: Action, state: string)
    requires state in s.rows && Active(s.rows[state], s.now)
    ensures var t := Step(s, limits, a);
            || Day(s.rows[state].expiresAt) < Day(t.now)
            || Consumptions(t.log, state) > Consumptions(s.log, state)
            || (state in t.rows && t.rows[state] == s.rows[state])
  {
    var t := Step(s, limits, a);
    if Succeeds(s, limits, a) {
      assert t.log[..|t.log| - 1] == s.log;
    }
  }

  lemma ConsumptionsGrow(s: System, limits: Limits, a: Action, state: string)
    ensures Consumptions(Step(s, limits, a).log, state) >= Consumptions(s.log, state)
  {
    var t := Step(s, limits, a);
    if Succeeds(s, limits, a) {
      assert t.log[..|t.log| - 1] == s.log;
    }
  }

  /** Whatever is called meanwhile, an active state keeps its row until its day of expiry is over
      or a call consumes it; so its own browser and provider can consume it until then. */
  lemma {:induction false} ActiveStatesStay(s: System, limits: Limits, actions: seq<Action>, state: string)
    requires state in s.rows && Active(s.rows[state], s.now)
    ensures var t := Run(s, limits, actions);
            || Day(s.rows[state].expiresAt) < Day(t.now)
            || Consumptions(t.log, state) > Consumptions(s.log, state)
            || (state in t.rows && t.rows[state] == s.rows[state]
                && Consumable(t.rows, t.now, state, s.rows[state].provider, s.rows[state].browser))
    ensures Consumptions(Run(s, limits, actions).log, state) >= Consumptions(s.log, state)
    decreases |actions|
  {
    if actions != [] {
      var before := Run(s, limits, actions[..|actions| - 1]);
      var a := actions[|actions| - 1];
      ActiveStatesStay(s, limits, actions[..|actions| - 1], state);
      ConsumptionsGrow(before, limits, a, state);
      if state in before.rows && Active(before.rows[state], before.now) {
        ActiveStays(before, limits, a, state);
      }
      assert Run(s, limits, actions) == Step(before, limits, a) && before.now <= Step(before, limits, a).now;
    }
  }
}
