/** Keeping the first element of each key, in order: what a seen-set does in a fold. */
module FirstOccurrences {

  function Keys<T, K>(items: seq<T>, key: T -> K): set<K> {
    if items == [] then {} else Keys(items[..|items| - 1], key) + {key(items[|items| - 1])}
  }

  function First<T, K(==)>(items: seq<T>, key: T -> K): seq<T> {
    if items == [] then []
    else
      var kept := First(items[..|items| - 1], key);
      if key(items[|items| - 1]) in Keys(items[..|items| - 1], key) then kept else kept + [items[|items| - 1]]
  }

  /** The elements whose key is not among the known ones, in order. */
  function Unknown<T, K(==)>(items: seq<T>, key: T -> K, known: set<K>): seq<T> {
    if items == [] then []
    else
      var front := Unknown(items[..|items| - 1], key, known);
      if key(items[|items| - 1]) in known then front else front + [items[|items| - 1]]
  }

  lemma KeysSnoc<T, K>(items: seq<T>, last: T, key: T -> K)
    ensures Keys(items + [last], key) == Keys(items, key) + {key(last)}
  {
    assert (items + [last])[..|items|] == items;
  }

  lemma FirstSnoc<T, K>(items: seq<T>, last: T, key: T -> K)
    ensures First(items + [last], key)
            == if key(last) in Keys(items, key) then First(items, key) else First(items, key) + [last]
  {
    assert (items + [last])[..|items|] == items;
  }

  lemma UnknownSnoc<T, K>(items: seq<T>, last: T, key: T -> K, known: set<K>)
    ensures Unknown(items + [last], key, known)
            == if key(last) in known then Unknown(items, key, known) else Unknown(items, key, known) + [last]
  {
    assert (items + [last])[..|items|] == items;
  }

  lemma {:induction false} UnknownIsFrom<T, K>(items: seq<T>, key: T -> K, known: set<K>, x: T)
    requires x in Unknown(items, key, known)
    ensures x in items
    decreases |items|
  {
    var n := |items| - 1;
    if x in Unknown(items[..n], key, known) {
      UnknownIsFrom(items[..n], key, known, x);
    } else {
      assert x == items[n];
    }
  }

  lemma {:induction false} UnknownHas<T, K>(items: seq<T>, key: T -> K, known: set<K>, x: T)
    requires x in items && key(x) !in known
    ensures x in Unknown(items, key, known)
    decreases |items|
  {
    var n := |items| - 1;
    if x != items[n] {
      UnknownHas(items[..n], key, known, x);
    }
  }

  lemma Assoc<T>(a: seq<T>, b: seq<T>, c: seq<T>)
    ensures (a + b) + c == a + (b + c)
  {
  }

  /** The parts joined in order. */
  function Flat<T>(parts: seq<seq<T>>): seq<T> {
    if parts == [] then [] else Flat(parts[..|parts| - 1]) + parts[|parts| - 1]
  }

  lemma FlatSnoc<T>(parts: seq<seq<T>>, last: seq<T>)
    ensures Flat(parts + [last]) == Flat(parts) + last
  {
    assert (parts + [last])[..|parts|] == parts;
  }

  lemma {:induction false} FlatConcat<T>(a: seq<seq<T>>, b: seq<seq<T>>)
    ensures Flat(a + b) == Flat(a) + Flat(b)
    decreases |b|
  {
    if b == [] {
      assert a + b == a;
    } else {
      var front, last := b[..|b| - 1], b[|b| - 1];
      FlatConcat(a, front);
      assert a + b == (a + front) + [last];
      FlatSnoc(a + front, last);
      Assoc(Flat(a), Flat(front), last);
    }
  }

  lemma {:induction false} FlatHas<T>(parts: seq<seq<T>>, x: T) returns (k: nat)
    requires x in Flat(parts)
    ensures k < |parts| && x in parts[k]
    decreases |parts|
  {
    k := |parts| - 1;
    if x !in parts[k] {
      k := FlatHas(parts[..k], x);
    }
  }

  lemma {:induction false} FlatHolds<T>(parts: seq<seq<T>>, k: nat, x: T)
    requires k < |parts| && x in parts[k]
    ensures x in Flat(parts)
    decreases |parts|
  {
    if k < |parts| - 1 {
      FlatHolds(parts[..|parts| - 1], k, x);
    }
  }

  lemma {:induction false} KeyOfElement<T, K>(items: seq<T>, key: T -> K, x: T)
    requires x in items
    ensures key(x) in Keys(items, key)
    decreases |items|
  {
    if x != items[|items| - 1] {
      KeyOfElement(items[..|items| - 1], key, x);
    }
  }

  lemma {:induction false} KeyHasElement<T, K>(items: seq<T>, key: T -> K, k: K) returns (x: T)
    requires k in Keys(items, key)
    ensures x in items && key(x) == k
    decreases |items|
  {
    x := items[|items| - 1];
    if key(x) != k {
      x := KeyHasElement(items[..|items| - 1], key, k);
    }
  }

  lemma {:induction false} KeysConcat<T, K>(a: seq<T>, b: seq<T>, key: T -> K)
    ensures Keys(a + b, key) == Keys(a, key) + Keys(b, key)
    decreases |b|
  {
    if b == [] {
      assert a + b == a;
    } else {
      var front, last := b[..|b| - 1], b[|b| - 1];
      KeysConcat(a, front, key);
      assert a + b == (a + front) + [last];
      KeysSnoc(a + front, last, key);
    }
  }

  lemma {:induction false} FirstKeepsKeys<T, K>(items: seq<T>, key: T -> K)
    ensures Keys(First(items, key), key) == Keys(items, key)
    decreases |items|
  {
    if items != [] {
      var front, last := items[..|items| - 1], items[|items| - 1];
      FirstKeepsKeys(front, key);
      if key(last) !in Keys(front, key) {
        KeysSnoc(First(front, key), last, key);
      }
    }
  }

  lemma {:induction false} FirstIsFrom<T, K>(items: seq<T>, key: T -> K, x: T)
    requires x in First(items, key)
    ensures x in items
    decreases |items|
  {
    var front := items[..|items| - 1];
    if x in First(front, key) {
      FirstIsFrom(front, key, x);
    }
  }

  /** Over a concatenation: the first part's elements, then the second part's with new keys. */
  lemma {:induction false} FirstConcat<T, K>(a: seq<T>, b: seq<T>, key: T -> K)
    ensures First(a + b, key) == First(a, key) + Unknown(First(b, key), key, Keys(a, key))
    decreases |b|
  {
    if b == [] {
      assert a + b == a;
    } else {
      var front, last := b[..|b| - 1], b[|b| - 1];
      FirstConcat(a, front, key);
      assert b == front + [last];
      FirstConcatSnoc(a, front, last, key);
    }
  }

  lemma FirstConcatSnoc<T, K>(a: seq<T>, front: seq<T>, last: T, key: T -> K)
    requires First(a + front, key) == First(a, key) + Unknown(First(front, key), key, Keys(a, key))
    ensures First(a + (front + [last]), key)
            == First(a, key) + Unknown(First(front + [last], key), key, Keys(a, key))
  {
    Assoc(a, front, [last]);
    KeysConcat(a, front, key);
    FirstSnoc(a + front, last, key);
    FirstSnoc(front, last, key);
    if key(last) !in Keys(front, key) {
      UnknownSnoc(First(front, key), last, key, Keys(a, key));
      Assoc(First(a, key), Unknown(First(front, key), key, Keys(a, key)), [last]);
    }
  }

  lemma {:induction false} NothingKnown<T, K>(items: seq<T>, key: T -> K, known: set<K>)
    requires Keys(items, key) !! known
    ensures Unknown(items, key, known) == items
    decreases |items|
  {
    if items != [] {
      var front, last := items[..|items| - 1], items[|items| - 1];
      assert items == front + [last];
      KeysSnoc(front, last, key);
      NothingKnown(front, key, known);
    }
  }
}
