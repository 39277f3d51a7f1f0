/** "Who replaced whom" as a partial map from a record to its replacement. Facts,
    graph relationships and handoffs all keep such a map and change it in place. */
module SupersessionGraph {
  import opened Options

  /** The record reached from `x` after exactly `n` replacements. */
  function Walk<K>(next: map<K, K>, x: K, n: nat): Option<K> {
    if n == 0 then Some(x)
    else if x in next then Walk(next, next[x], n - 1)
    else None
  }

  ghost predicate Reaches<K>(next: map<K, K>, x: K, y: K) {
    exists n: nat :: Walk(next, x, n) == Some(y)
  }

  ghost predicate Acyclic<K(!new)>(next: map<K, K>) {
    forall x, n: nat :: n > 0 ==> Walk(next, x, n) != Some(x)
  }

  ghost predicate Injective<K>(next: map<K, K>) {
    forall x, y :: x in next && y in next && x != y ==> next[x] != next[y]
  }

  /** Follow replacements; each record is visited at most once, so this ends on any map. */
  function Head<K>(next: map<K, K>, x: K): K
    decreases |next|
  {
    if x in next then Head(next - {x}, next[x]) else x
  }

  // ---- walking ---------------------------------------------------------------------

  lemma {:induction false} WalkAdd<K>(next: map<K, K>, x: K, m: nat, n: nat)
    requires Walk(next, x, m).Some?
    ensures Walk(next, x, m + n) == Walk(next, Walk(next, x, m).value, n)
  {
    if m > 0 {
      WalkAdd(next, next[x], m - 1, n);
    }
  }

  lemma {:induction false} WalkPrefix<K>(next: map<K, K>, x: K, m: nat, n: nat)
    requires m <= n && Walk(next, x, n).Some?
    ensures Walk(next, x, m).Some?
  {
    if m > 0 {
      WalkPrefix(next, next[x], m - 1, n - 1);
    }
  }

  lemma OneMore<K>(next: map<K, K>, x: K, n: nat)
    requires Walk(next, x, n).Some? && Walk(next, x, n).value in next
    ensures Walk(next, x, n + 1) == Some(next[Walk(next, x, n).value])
  {
    WalkAdd(next, x, n, 1);
    var y := Walk(next, x, n).value;
    assert Walk(next, y, 1) == Walk(next, next[y], 0);
  }

  // ---- acyclic means every walk ends, at the head -------------------------------------

  /** The records cut out so far all lie strictly before `x`. */
  ghost predicate Behind<K>(next: map<K, K>, cut: set<K>, x: K) {
    forall c :: c in cut ==> exists n: nat :: n > 0 && Walk(next, c, n) == Some(x)
  }

  lemma BehindStep<K>(next: map<K, K>, cut: set<K>, x: K)
    requires Behind(next, cut, x) && x in next
    ensures Behind(next, cut + {x}, next[x])
  {
    forall c | c in cut + {x} ensures exists n: nat :: n > 0 && Walk(next, c, n) == Some(next[x]) {
      if c == x {
        assert Walk(next, x, 1) == Walk(next, next[x], 0);
      } else {
        var n: nat :| n > 0 && Walk(next, c, n) == Some(x);
        OneMore(next, c, n);
      }
    }
  }

  lemma {:induction false} HeadAfterCut<K(!new)>(next: map<K, K>, cut: set<K>, x: K) returns (n: nat)
    requires Acyclic(next) && Behind(next, cut, x)
    ensures n <= |next - cut|
    ensures Head(next - cut, x) !in next
    ensures Walk(next, x, n) == Some(Head(next - cut, x))
    decreases |next - cut|
  {
    var rest := next - cut;
    if x in rest {
      BehindStep(next, cut, x);
      assert next - (cut + {x}) == rest - {x};
      assert rest.Keys == (rest - {x}).Keys + {x};
      var m := HeadAfterCut(next, cut + {x}, next[x]);
      n := m + 1;
    } else {
      n := 0;
    }
  }

  /** On an acyclic map the head is unreplaced and is reached within |next| steps. */
  lemma HeadEnds<K(!new)>(next: map<K, K>, x: K) returns (n: nat)
    requires Acyclic(next)
    ensures n <= |next| && Walk(next, x, n) == Some(Head(next, x)) && Head(next, x) !in next
  {
    assert next - {} == next;
    n := HeadAfterCut(next, {}, x);
  }

  lemma {:induction false} CycleNeverEnds<K>(next: map<K, K>, x: K, m: nat, n: nat)
    requires m > 0 && Walk(next, x, m) == Some(x)
    ensures Walk(next, x, n).Some?
    decreases n
  {
    if n <= m {
      WalkPrefix(next, x, n, m);
    } else {
      CycleNeverEnds(next, x, m, n - m);
      WalkAdd(next, x, m, n - m);
    }
  }

  ghost predicate Ends<K>(next: map<K, K>, x: K) {
    exists n: nat :: Walk(next, x, n).None?
  }

  /** Following replacements terminates from every record exactly when there is no cycle. */
  lemma AcyclicIffWalksEnd<K(!new)>(next: map<K, K>)
    ensures Acyclic(next) <==> forall x :: Ends(next, x)
  {
    if Acyclic(next) {
      forall x ensures Ends(next, x) {
        var n := HeadEnds(next, x);
        WalkAdd(next, x, n, 1);
        assert Walk(next, x, n + 1).None?;
      }
    } else {
      var x, m: nat :| m > 0 && Walk(next, x, m) == Some(x);
      forall n: nat ensures Walk(next, x, n).Some? {
        CycleNeverEnds(next, x, m, n);
      }
      assert !Ends(next, x);
    }
  }

  // ---- changing the map -----------------------------------------------------------------

  /** `after` keeps some links of `before` and points some records at `sink`, which
      itself is unreplaced. */
  ghost predicate SinkUpdate<K>(before: map<K, K>, after: map<K, K>, sink: K) {
    && sink !in after
    && forall x :: x in after ==> after[x] == sink || (x in before && after[x] == before[x])
  }

  lemma {:induction false} WalkAvoidingSink<K>(before: map<K, K>, after: map<K, K>, sink: K, x: K, n: nat)
    requires SinkUpdate(before, after, sink) && Walk(after, x, n).Some? && Walk(after, x, n).value != sink
    ensures Walk(before, x, n) == Walk(after, x, n)
  {
    if n > 0 {
      assert Walk(after, after[x], n - 1) == Walk(after, x, n);
      WalkAvoidingSink(before, after, sink, after[x], n - 1);
    }
  }

  /** Redirecting any number of records to one unreplaced record makes no cycle. */
  lemma SinkUpdateKeepsAcyclic<K(!new)>(before: map<K, K>, after: map<K, K>, sink: K)
    requires Acyclic(before) && SinkUpdate(before, after, sink)
    ensures Acyclic(after)
  {
    forall x, n: nat | n > 0 ensures Walk(after, x, n) != Some(x) {
      if Walk(after, x, n) == Some(x) {
        assert x in after;
        WalkAvoidingSink(before, after, sink, x, n);
      }
    }
  }

  /** Some records point at `x` from now on. */
  function Redirect<K>(next: map<K, K>, hits: set<K>, x: K): map<K, K> {
    map k | k in next.Keys + hits :: if k in hits then x else next[k]
  }

  /** Redirecting unreplaced records to `x` closes a cycle exactly when `x` leads to one of them. */
  lemma RedirectAcyclicIff<K(!new)>(next: map<K, K>, hits: set<K>, x: K)
    requires Acyclic(next) && hits !! next.Keys
    ensures Acyclic(Redirect(next, hits, x)) <==> Head(next, x) !in hits
  {
    var after := Redirect(next, hits, x);
    var n := HeadEnds(next, x);
    WalkInSubmap(after, next, x, n);
    if Head(next, x) in hits {
      OneMore(after, x, n);
      assert Walk(after, x, n + 1) == Some(x);
    } else {
      forall z ensures Ends(after, z) {
        RedirectedWalkEnds(next, hits, x, z, n);
      }
      AcyclicIffWalksEnd(after);
    }
  }

  lemma RedirectedWalkEnds<K(!new)>(next: map<K, K>, hits: set<K>, x: K, z: K, n: nat)
    requires Acyclic(next) && hits !! next.Keys
    requires Walk(Redirect(next, hits, x), x, n) == Some(Head(next, x))
    requires Head(next, x) !in next && Head(next, x) !in hits
    ensures Ends(Redirect(next, hits, x), z)
  {
    var after := Redirect(next, hits, x);
    var m := HeadEnds(next, z);
    WalkInSubmap(after, next, z, m);
    if Head(next, z) in hits {
      OneMore(after, z, m);
      WalkAdd(after, z, m + 1, n);
      WalkAdd(after, z, m + 1 + n, 1);
      assert Walk(after, z, m + 1 + n + 1).None?;
    } else {
      WalkAdd(after, z, m, 1);
      assert Walk(after, z, m + 1).None?;
    }
  }

  /** Linking an unreplaced record to another closes a cycle exactly when that one already
      leads to it. */
  lemma LinkKeepsAcyclicIff<K(!new)>(next: map<K, K>, x: K, y: K)
    requires Acyclic(next) && x !in next
    ensures Acyclic(next[x := y]) <==> Head(next, y) != x
  {
    assert next[x := y] == Redirect(next, {x}, y);
    RedirectAcyclicIff(next, {x}, y);
  }

  /** Forgetting links makes no cycle. */
  lemma SubmapKeepsAcyclic<K(!new)>(before: map<K, K>, after: map<K, K>)
    requires Acyclic(before)
    requires forall x :: x in after ==> x in before && after[x] == before[x]
    ensures Acyclic(after)
  {
    forall x, n: nat | n > 0 ensures Walk(after, x, n) != Some(x) {
      if Walk(after, x, n) == Some(x) {
        WalkInSubmap(before, after, x, n);
      }
    }
  }

  lemma {:induction false} WalkInSubmap<K>(before: map<K, K>, after: map<K, K>, x: K, n: nat)
    requires forall y :: y in after ==> y in before && after[y] == before[y]
    requires Walk(after, x, n).Some?
    ensures Walk(before, x, n) == Walk(after, x, n)
  {
    if n > 0 {
      WalkInSubmap(before, after, after[x], n - 1);
    }
  }

  // ---- injective maps are disjoint chains --------------------------------------------------

  lemma {:induction false} WalkCancel<K>(next: map<K, K>, x: K, y: K, n: nat)
    requires Injective(next) && Walk(next, x, n).Some? && Walk(next, x, n) == Walk(next, y, n)
    ensures x == y
  {
    if n > 0 {
      WalkCancel(next, next[x], next[y], n - 1);
    }
  }

  lemma SameHeadMeansSameChain<K(!new)>(next: map<K, K>, x: K, y: K)
    requires Acyclic(next) && Injective(next) && Head(next, x) == Head(next, y)
    ensures Reaches(next, x, y) || Reaches(next, y, x)
  {
    var m := HeadEnds(next, x);
    var n := HeadEnds(next, y);
    if m <= n {
      BackUp(next, x, m, y, n);
    } else {
      BackUp(next, y, n, x, m);
    }
  }

  lemma BackUp<K>(next: map<K, K>, x: K, m: nat, y: K, n: nat)
    requires Injective(next) && m <= n && Walk(next, x, m).Some? && Walk(next, x, m) == Walk(next, y, n)
    ensures Reaches(next, y, x)
  {
    WalkPrefix(next, y, n - m, n);
    WalkAdd(next, y, n - m, m);
    WalkCancel(next, x, Walk(next, y, n - m).value, m);
    assert Walk(next, y, n - m) == Some(x);
  }

  lemma ReachingKeepsHead<K(!new)>(next: map<K, K>, x: K, y: K)
    requires Acyclic(next) && Reaches(next, x, y)
    ensures Head(next, x) == Head(next, y)
  {
    var n: nat :| Walk(next, x, n) == Some(y);
    var m := HeadEnds(next, x);
    var k := HeadEnds(next, y);
    WalkAdd(next, x, n, k);
    SameEnd(next, x, m, n + k);
  }

  /** A walk has one end. */
  lemma SameEnd<K>(next: map<K, K>, x: K, m: nat, n: nat)
    requires Walk(next, x, m).Some? && Walk(next, x, m).value !in next
    requires Walk(next, x, n).Some? && Walk(next, x, n).value !in next
    ensures Walk(next, x, m) == Walk(next, x, n)
  {
    if m < n {
      WalkAdd(next, x, m, n - m);
    } else if n < m {
      WalkAdd(next, x, n, m - n);
    }
  }

  /** The records fall into chains: two records share their head exactly when one
      is reached from the other. */
  lemma ChainsAreDisjoint<K(!new)>(next: map<K, K>, x: K, y: K)
    requires Acyclic(next) && Injective(next)
    ensures Head(next, x) == Head(next, y) <==> Reaches(next, x, y) || Reaches(next, y, x)
  {
    if Head(next, x) == Head(next, y) {
      SameHeadMeansSameChain(next, x, y);
    }
    if Reaches(next, x, y) {
      ReachingKeepsHead(next, x, y);
    }
    if Reaches(next, y, x) {
      ReachingKeepsHead(next, y, x);
    }
  }
}
