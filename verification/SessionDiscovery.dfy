/** Choosing the latest session among the artifacts found under an adapter's roots. */
module SessionDiscovery {
  import opened Options
  import opened LogInspection

  /** A file with its inspection; `path` orders and names it, `archived` tells that it lies
      below a directory for archived sessions. */
  datatype Artifact = Artifact(path: nat, header: Option<Inspected>, archived: bool, modified: int)

  /** `inactiveAfter` is a duration; only the Codex policy looks at `archived`. */
  datatype SafetyPolicy = SafetyPolicy(codex: bool, inactiveAfter: int)

  datatype Outcome = Found(path: nat) | MayBeActive(path: nat) | NothingFound | Ambiguous(positions: seq<nat>)

  predicate Safe(policy: SafetyPolicy, a: Artifact, now: int)
    requires a.header.Some?
  {
    || (policy.codex && a.archived)
    || a.header.value.terminal
    || now - a.modified >= policy.inactiveAfter
  }

  /** `artifacts[i]` was inspected and is safe to read, or is not, as `safe` says. */
  predicate OnSide(policy: SafetyPolicy, artifacts: seq<Artifact>, now: int, safe: bool, i: nat) {
    Has(artifacts, i) && Safe(policy, artifacts[i], now) == safe
  }

  function Time(artifacts: seq<Artifact>, i: nat): int
    requires Has(artifacts, i)
  {
    artifacts[i].header.value.timestamp
  }

  /** `positions` lists, in order, the inspected artifacts before `bound` on one side of `Safe`. */
  ghost predicate Lists(policy: SafetyPolicy, artifacts: seq<Artifact>, now: int, safe: bool,
                        bound: nat, positions: seq<nat>) {
    && (forall k :: 0 <= k < |positions| ==> OnSide(policy, artifacts, now, safe, positions[k]) && positions[k] < bound)
    && (forall j, k :: 0 <= j < k < |positions| ==> positions[j] < positions[k])
    && (forall i: nat :: i < bound && OnSide(policy, artifacts, now, safe, i) ==> i in positions)
  }

  /** No inspected artifact is newer. */
  ghost predicate Newest(artifacts: seq<Artifact>, i: nat)
    requires Has(artifacts, i)
  {
    forall j: nat :: Has(artifacts, j) ==> Time(artifacts, j) <= Time(artifacts, i)
  }

  /** Every other inspected artifact is older. */
  ghost predicate NewestAlone(artifacts: seq<Artifact>, i: nat)
    requires Has(artifacts, i)
  {
    forall j: nat :: Has(artifacts, j) && j != i ==> Time(artifacts, j) < Time(artifacts, i)
  }

  predicate Has(artifacts: seq<Artifact>, i: nat) {
    i < |artifacts| && artifacts[i].header.Some?
  }

  /** The order of `max`: by timestamp, then by path. */
  predicate Beats(artifacts: seq<Artifact>, i: nat, j: nat)
    requires Has(artifacts, i) && Has(artifacts, j)
  {
    || Time(artifacts, j) < Time(artifacts, i)
    || (Time(artifacts, j) == Time(artifacts, i) && artifacts[j].path < artifacts[i].path)
  }

  ghost predicate Selects(policy: SafetyPolicy, artifacts: seq<Artifact>, now: int, i: nat) {
    OnSide(policy, artifacts, now, true, i) && NewestAlone(artifacts, i)
  }

  ghost predicate Blocks(policy: SafetyPolicy, artifacts: seq<Artifact>, now: int, i: nat) {
    OnSide(policy, artifacts, now, false, i) && Newest(artifacts, i)
  }

  /** An artifact is returned exactly when it is safe and every other inspected artifact is
      older; a possibly active one that nothing outdates stops the search, and of several
      such the one with the greatest path is named. */
  ghost predicate RightOutcome(policy: SafetyPolicy, artifacts: seq<Artifact>, now: int, outcome: Outcome) {
    match outcome
    case Found(path) =>
      exists i: nat :: Selects(policy, artifacts, now, i) && artifacts[i].path == path
    case MayBeActive(path) =>
      && (exists i: nat :: Blocks(policy, artifacts, now, i) && artifacts[i].path == path)
      && (forall i: nat :: Blocks(policy, artifacts, now, i) ==> artifacts[i].path <= path)
    case NothingFound =>
      forall i: nat :: !Has(artifacts, i)
    case Ambiguous(positions) =>
      && |positions| > 1
      && (forall j, k :: 0 <= j < k < |positions| ==> positions[j] < positions[k])
      && (forall i: nat :: i in positions <==> OnSide(policy, artifacts, now, true, i) && Newest(artifacts, i))
      && forall i: nat :: !Blocks(policy, artifacts, now, i)
  }

  class ImportDiscoveryService {
    const policy: SafetyPolicy

    constructor (policy: SafetyPolicy)
      ensures this.policy == policy
    {
      this.policy := policy;
    }

    /** The position among `positions` with the greatest timestamp, and of those the greatest path. */
    method MaxPosition(artifacts: seq<Artifact>, positions: seq<nat>) returns (best: nat)
      requires positions != []
      requires forall k :: 0 <= k < |positions| ==> Has(artifacts, positions[k])
      ensures best in positions && Has(artifacts, best)
      ensures forall k :: 0 <= k < |positions| ==> !Beats(artifacts, positions[k], best)
    {
      best := positions[0];
      var k := 1;
      while k < |positions|
        invariant 1 <= k <= |positions|
        invariant best in positions && Has(artifacts, best)
        invariant forall j :: 0 <= j < k ==> !Beats(artifacts, positions[j], best)
      {
        if Beats(artifacts, positions[k], best) {
          best := positions[k];
        }
        k := k + 1;
      }
    }

    /** The positions whose timestamp is `time`. */
    method AtTime(artifacts: seq<Artifact>, positions: seq<nat>, time: int) returns (newest: seq<nat>)
      requires forall k :: 0 <= k < |positions| ==> Has(artifacts, positions[k])
      requires forall j, k :: 0 <= j < k < |positions| ==> positions[j] < positions[k]
      ensures forall i :: i in newest ==> i in positions && Has(artifacts, i) && Time(artifacts, i) == time
      ensures forall k :: 0 <= k < |positions| && Time(artifacts, positions[k]) == time ==> positions[k] in newest
      ensures forall j, k :: 0 <= j < k < |newest| ==> newest[j] < newest[k]
    {
      newest := [];
      var k := 0;
      while k < |positions|
        invariant 0 <= k <= |positions|
        invariant forall i :: i in newest ==> i in positions && Has(artifacts, i) && Time(artifacts, i) == time
        invariant forall j, l :: 0 <= j < |newest| && k <= l < |positions| ==> newest[j] < positions[l]
        invariant forall j :: 0 <= j < k && Time(artifacts, positions[j]) == time ==> positions[j] in newest
        invariant forall j, l :: 0 <= j < l < |newest| ==> newest[j] < newest[l]
      {
        if Time(artifacts, positions[k]) == time {
          newest := newest + [positions[k]];
        }
        k := k + 1;
      }
    }

    /** `discover_latest`, from the artifacts on. */
    method DiscoverLatest(artifacts: seq<Artifact>, now: int) returns (outcome: Outcome)
      ensures RightOutcome(policy, artifacts, now, outcome)
    {
      var candidates: seq<nat>, unsafe: seq<nat> := [], [];
      var n := 0;
      while n < |artifacts|
        invariant 0 <= n <= |artifacts|
        invariant Lists(policy, artifacts, now, true, n, candidates)
        invariant Lists(policy, artifacts, now, false, n, unsafe)
      {
        ListsStep(policy, artifacts, now, true, n, candidates);
        ListsStep(policy, artifacts, now, false, n, unsafe);
        if artifacts[n].header.Some? {
          if Safe(policy, artifacts[n], now) {
            candidates := candidates + [n];
          } else {
            unsafe := unsafe + [n];
          }
        }
        n := n + 1;
      }
      outcome := Choose(artifacts, now, candidates, unsafe);
    }

    method Choose(artifacts: seq<Artifact>, now: int, candidates: seq<nat>, unsafe: seq<nat>)
      returns (outcome: Outcome)
      requires Lists(policy, artifacts, now, true, |artifacts|, candidates)
      requires Lists(policy, artifacts, now, false, |artifacts|, unsafe)
      ensures RightOutcome(policy, artifacts, now, outcome)
    {
      EitherSide(policy, artifacts, now, candidates, unsafe);
      var newestUnsafe: Option<nat> := None;
      if unsafe != [] {
        var u := MaxPosition(artifacts, unsafe);
        newestUnsafe := Some(u);
      }
      if candidates == [] {
        if newestUnsafe.Some? {
          BlockingIsNamed(policy, artifacts, now, unsafe, newestUnsafe.value);
          return MayBeActive(artifacts[newestUnsafe.value].path);
        }
        return NothingFound;
      }
      var c := MaxPosition(artifacts, candidates);
      if newestUnsafe.Some? && Time(artifacts, newestUnsafe.value) >= Time(artifacts, c) {
        BlockingIsNamed(policy, artifacts, now, unsafe, newestUnsafe.value);
        return MayBeActive(artifacts[newestUnsafe.value].path);
      }
      assert Newest(artifacts, c);
      assert forall i: nat :: OnSide(policy, artifacts, now, false, i) ==> Time(artifacts, i) < Time(artifacts, c);
      var newest := AtTime(artifacts, candidates, Time(artifacts, c));
      assert c in newest;
      if |newest| != 1 {
        var other := if newest[0] == c then newest[1] else newest[0];
        assert other in newest && other != c && Newest(artifacts, other);
        assert forall i: nat :: i in newest ==> Newest(artifacts, i);
        return Ambiguous(newest);
      }
      assert newest == [c];
      assert NewestAlone(artifacts, c);
      outcome := Found(artifacts[newest[0]].path);
    }
  }

  lemma ListsStep(policy: SafetyPolicy, artifacts: seq<Artifact>, now: int, safe: bool, n: nat, positions: seq<nat>)
    requires n < |artifacts| && Lists(policy, artifacts, now, safe, n, positions)
    ensures OnSide(policy, artifacts, now, safe, n) ==>
              Lists(policy, artifacts, now, safe, n + 1, positions + [n])
    ensures !OnSide(policy, artifacts, now, safe, n) ==> Lists(policy, artifacts, now, safe, n + 1, positions)
  {
    if OnSide(policy, artifacts, now, safe, n) {
      forall i: nat | i < n + 1 && OnSide(policy, artifacts, now, safe, i) ensures i in positions + [n] {
        if i < n {
          assert i in positions;
        }
      }
    }
  }

  /** The two lists hold every inspected artifact, on its side. */
  lemma EitherSide(policy: SafetyPolicy, artifacts: seq<Artifact>, now: int, candidates: seq<nat>, unsafe: seq<nat>)
    requires Lists(policy, artifacts, now, true, |artifacts|, candidates)
    requires Lists(policy, artifacts, now, false, |artifacts|, unsafe)
    ensures forall i: nat :: i in candidates <==> OnSide(policy, artifacts, now, true, i)
    ensures forall i: nat :: i in unsafe <==> OnSide(policy, artifacts, now, false, i)
    ensures forall i: nat :: Has(artifacts, i) ==> i in candidates || i in unsafe
  {
    forall i: nat | Has(artifacts, i) ensures i in candidates || i in unsafe {
      assert OnSide(policy, artifacts, now, Safe(policy, artifacts[i], now), i);
    }
  }

  /** The greatest of the unsafe ones has the greatest path of all that block. */
  lemma BlockingIsNamed(policy: SafetyPolicy, artifacts: seq<Artifact>, now: int, unsafe: seq<nat>, u: nat)
    requires forall i: nat :: i in unsafe <==> OnSide(policy, artifacts, now, false, i)
    requires u in unsafe && Has(artifacts, u) && Newest(artifacts, u)
    requires forall k :: 0 <= k < |unsafe| ==> Has(artifacts, unsafe[k]) && !Beats(artifacts, unsafe[k], u)
    ensures Blocks(policy, artifacts, now, u)
    ensures forall i: nat :: Blocks(policy, artifacts, now, i) ==> artifacts[i].path <= artifacts[u].path
  {
    forall i: nat | Blocks(policy, artifacts, now, i) ensures artifacts[i].path <= artifacts[u].path {
      assert i in unsafe;
    }
  }

  /** The outcomes exclude each other, so each is reported exactly when its condition holds. */
  lemma OutcomesAreExclusive(policy: SafetyPolicy, artifacts: seq<Artifact>, now: int, outcome: Outcome)
    requires RightOutcome(policy, artifacts, now, outcome)
    ensures outcome.Found? <==> exists i: nat :: Selects(policy, artifacts, now, i)
    ensures outcome.MayBeActive? <==> exists i: nat :: Blocks(policy, artifacts, now, i)
    ensures outcome.NothingFound? <==> forall i: nat :: !Has(artifacts, i)
    ensures outcome.Found? ==>
              forall i: nat :: Selects(policy, artifacts, now, i) ==> outcome.path == artifacts[i].path
  {
    if outcome.Ambiguous? {
      assert outcome.positions[0] in outcome.positions && outcome.positions[1] in outcome.positions;
    }
  }

  /** An artifact is unsafe exactly while its session was not shut down and its file was written less
      than the waiting time ago; for Codex, moreover, only while it is not archived. */
  lemma UnsafeIff(policy: SafetyPolicy, a: Artifact, now: int)
    requires a.header.Some?
    ensures !Safe(policy, a, now)
       <==> !a.header.value.terminal && now < a.modified + policy.inactiveAfter && !(policy.codex && a.archived)
  {
  }

  /** What is safe stays safe: only time passes between two calls. */
  lemma SafeStaysSafe(policy: SafetyPolicy, a: Artifact, now: int, later: int)
    requires a.header.Some? && now <= later && Safe(policy, a, now)
    ensures Safe(policy, a, later)
  {
  }

  /** What is asked of the artifact at `i`: its own inspection, safety, and the time of every other. */
  ghost predicate FoundAt(policy: SafetyPolicy, artifacts: seq<Artifact>, now: int, i: nat, path: nat) {
    && i < |artifacts| && artifacts[i].header.Some? && artifacts[i].path == path && Safe(policy, artifacts[i], now)
    && forall j :: 0 <= j < |artifacts| && j != i && artifacts[j].header.Some? ==>
         artifacts[j].header.value.timestamp < artifacts[i].header.value.timestamp
  }

  ghost predicate BlockedAt(policy: SafetyPolicy, artifacts: seq<Artifact>, now: int, i: nat, path: nat) {
    && i < |artifacts| && artifacts[i].header.Some? && artifacts[i].path == path && !Safe(policy, artifacts[i], now)
    && forall j :: 0 <= j < |artifacts| && artifacts[j].header.Some? ==>
         artifacts[j].header.value.timestamp <= artifacts[i].header.value.timestamp
  }

  /** A path is returned exactly for the safe artifact that is newer than every other inspected one. */
  lemma FoundIff(policy: SafetyPolicy, artifacts: seq<Artifact>, now: int, path: nat)
    ensures RightOutcome(policy, artifacts, now, Found(path))
       <==> exists i: nat :: FoundAt(policy, artifacts, now, i, path)
  {
    if i: nat :| Selects(policy, artifacts, now, i) && artifacts[i].path == path {
      forall j | 0 <= j < |artifacts| && j != i && artifacts[j].header.Some?
        ensures artifacts[j].header.value.timestamp < artifacts[i].header.value.timestamp
      {
        assert Time(artifacts, j) < Time(artifacts, i);
      }
      assert FoundAt(policy, artifacts, now, i, path);
    }
    if i: nat :| FoundAt(policy, artifacts, now, i, path) {
      assert Selects(policy, artifacts, now, i);
    }
  }

  /** A session is named as possibly active exactly when it is unsafe, nothing is newer, and of all such
      it has the greatest path. */
  lemma MayBeActiveIff(policy: SafetyPolicy, artifacts: seq<Artifact>, now: int, path: nat)
    ensures RightOutcome(policy, artifacts, now, MayBeActive(path))
       <==> && (exists i: nat :: BlockedAt(policy, artifacts, now, i, path))
            && (forall i: nat, other: nat :: BlockedAt(policy, artifacts, now, i, other) ==> other <= path)
  {
    forall i: nat, other: nat
      ensures BlockedAt(policy, artifacts, now, i, other)
         <==> Blocks(policy, artifacts, now, i) && artifacts[i].path == other
    {
      if Blocks(policy, artifacts, now, i) {
        forall j | 0 <= j < |artifacts| && artifacts[j].header.Some?
          ensures artifacts[j].header.value.timestamp <= artifacts[i].header.value.timestamp
        {
          assert Time(artifacts, j) <= Time(artifacts, i);
        }
      }
    }
    if RightOutcome(policy, artifacts, now, MayBeActive(path)) {
      var i: nat :| Blocks(policy, artifacts, now, i) && artifacts[i].path == path;
      assert BlockedAt(policy, artifacts, now, i, path);
    }
    if (exists i: nat :: BlockedAt(policy, artifacts, now, i, path))
       && (forall i: nat, other: nat :: BlockedAt(policy, artifacts, now, i, other) ==> other <= path) {
      forall i: nat | Blocks(policy, artifacts, now, i) ensures artifacts[i].path <= path {
        assert BlockedAt(policy, artifacts, now, i, artifacts[i].path);
      }
    }
  }
}
