/** `std::sort` by a byte-string key, as a function, and the facts its callers rely on. */
module Sorting {
  import opened Bytes

  function Insert<T>(x: T, xs: seq<T>, key: T -> Bytes): seq<T> {
    if xs == [] then [x]
    else if Below(key(xs[0]), key(x)) then [xs[0]] + Insert(x, xs[1..], key)
    else [x] + xs
  }

  function Sort<T>(xs: seq<T>, key: T -> Bytes): seq<T> {
    if xs == [] then [] else Insert(xs[0], Sort(xs[1..], key), key)
  }

  ghost predicate Ascending<T>(xs: seq<T>, key: T -> Bytes) {
    forall i, j :: 0 <= i < j < |xs| ==> Below(key(xs[i]), key(xs[j]))
  }

  ghost predicate Ordered<T>(xs: seq<T>, key: T -> Bytes) {
    forall i, j :: 0 <= i < j < |xs| ==> !Below(key(xs[j]), key(xs[i]))
  }

  ghost predicate Distinct<T>(xs: seq<T>, key: T -> Bytes) {
    forall i, j :: 0 <= i < j < |xs| ==> key(xs[i]) != key(xs[j])
  }

  /** No element of `xs` has the key of `x`. */
  ghost predicate Fresh<T>(x: T, xs: seq<T>, key: T -> Bytes) {
    forall k :: 0 <= k < |xs| ==> key(xs[k]) != key(x)
  }

  /** `x` in terms of positions, for reasoning by index. */
  lemma InIndex<T>(x: T, xs: seq<T>) returns (i: nat)
    requires x in xs
    ensures i < |xs| && xs[i] == x
  {
    i :| i < |xs| && xs[i] == x;
  }

  lemma {:induction false} InsertPermutes<T>(x: T, xs: seq<T>, key: T -> Bytes)
    ensures multiset(Insert(x, xs, key)) == multiset{x} + multiset(xs)
    ensures |Insert(x, xs, key)| == |xs| + 1
    decreases |xs|
  {
    if xs != [] {
      assert xs == [xs[0]] + xs[1..];
      InsertPermutes(x, xs[1..], key);
    }
  }

  lemma {:induction false} SortPermutes<T>(xs: seq<T>, key: T -> Bytes)
    ensures multiset(Sort(xs, key)) == multiset(xs) && |Sort(xs, key)| == |xs|
    ensures forall x :: x in Sort(xs, key) <==> x in xs
    decreases |xs|
  {
    if xs != [] {
      assert xs == [xs[0]] + xs[1..];
      SortPermutes(xs[1..], key);
      InsertPermutes(xs[0], Sort(xs[1..], key), key);
    }
    forall x ensures x in Sort(xs, key) <==> x in xs {
      assert x in multiset(Sort(xs, key)) <==> x in multiset(xs);
    }
  }

  lemma NotBelowTransitive(a: Bytes, b: Bytes, c: Bytes)
    requires !Below(b, a) && !Below(c, b)
    ensures !Below(c, a)
  {
    BelowTotal(a, b);
    BelowTotal(b, c);
    if Below(c, a) {
      if a != b { BelowTransitive(c, a, b); }
    }
  }

  lemma {:induction false} InsertOrders<T>(x: T, xs: seq<T>, key: T -> Bytes)
    requires Ordered(xs, key)
    ensures Ordered(Insert(x, xs, key), key)
    decreases |xs|
  {
    var r := Insert(x, xs, key);
    if xs == [] {
    } else if Below(key(xs[0]), key(x)) {
      var rest := Insert(x, xs[1..], key);
      InsertOrders(x, xs[1..], key);
      InsertPermutes(x, xs[1..], key);
      BelowTotal(key(xs[0]), key(x));
      forall j | 1 <= j < |r| ensures !Below(key(r[j]), key(r[0])) {
        assert r[j] in multiset(rest);
        assert r[j] == x || r[j] in xs[1..];
      }
      OrderedFirst(xs[0], rest, key);
    } else {
      forall j | 1 <= j < |r| ensures !Below(key(r[j]), key(r[0])) {
        BelowTotal(key(x), key(x));
        if j > 1 { NotBelowTransitive(key(x), key(xs[0]), key(xs[j - 1])); }
      }
      OrderedFirst(x, xs, key);
    }
  }

  lemma OrderedFirst<T>(x: T, rest: seq<T>, key: T -> Bytes)
    requires Ordered(rest, key)
    requires forall j :: 1 <= j < |[x] + rest| ==> !Below(key(([x] + rest)[j]), key(x))
    ensures Ordered([x] + rest, key)
  {
  }

  lemma {:induction false} SortOrders<T>(xs: seq<T>, key: T -> Bytes)
    ensures Ordered(Sort(xs, key), key)
    decreases |xs|
  {
    if xs != [] {
      SortOrders(xs[1..], key);
      InsertOrders(xs[0], Sort(xs[1..], key), key);
    }
  }

  /** Distinct keys come out strictly ascending. */
  lemma SortAscends<T>(xs: seq<T>, key: T -> Bytes)
    requires Distinct(xs, key)
    ensures Ascending(Sort(xs, key), key)
  {
    SortDistinct(xs, key);
    SortOrders(xs, key);
    var r := Sort(xs, key);
    forall i, j | 0 <= i < j < |r| ensures Below(key(r[i]), key(r[j])) {
      BelowTotal(key(r[i]), key(r[j]));
    }
  }

  lemma {:induction false} SortDistinct<T>(xs: seq<T>, key: T -> Bytes)
    ensures Distinct(Sort(xs, key), key) <==> Distinct(xs, key)
    decreases |xs|
  {
    if xs != [] {
      var x, rest := xs[0], xs[1..];
      var sorted := Sort(rest, key);
      SortDistinct(rest, key);
      SortPermutes(rest, key);
      DistinctFirst(x, rest, key);
      DistinctSplit(x, sorted, key);
      assert xs == [x] + rest;
      SameKeys(x, sorted, rest, key);
    }
  }

  lemma SameKeys<T>(x: T, a: seq<T>, b: seq<T>, key: T -> Bytes)
    requires forall y :: y in a <==> y in b
    ensures Fresh(x, a, key) <==> Fresh(x, b, key)
  {
    forall k | 0 <= k < |a| ensures a[k] in b { assert a[k] in a; }
    forall k | 0 <= k < |b| ensures b[k] in a { assert b[k] in b; }
  }

  lemma DistinctFirst<T>(x: T, rest: seq<T>, key: T -> Bytes)
    ensures Distinct([x] + rest, key) <==>
              Distinct(rest, key) && Fresh(x, rest, key)
  {
    var all := [x] + rest;
    assert all[0] == x && forall k :: 0 <= k < |rest| ==> all[k + 1] == rest[k];
    if Distinct(all, key) {
      forall i, j | 0 <= i < j < |rest| ensures key(rest[i]) != key(rest[j]) {
        assert all[i + 1] == rest[i] && all[j + 1] == rest[j];
      }
      forall k | 0 <= k < |rest| ensures key(rest[k]) != key(x) { assert all[0] == x && all[k + 1] == rest[k]; }
    }
  }

  lemma FreshFirst<T>(x: T, y: T, ys: seq<T>, key: T -> Bytes)
    ensures Fresh(x, [y] + ys, key) <==> key(y) != key(x) && Fresh(x, ys, key)
  {
    var all := [y] + ys;
    assert all[0] == y && forall k :: 0 <= k < |ys| ==> all[k + 1] == ys[k];
  }

  lemma InsertFresh<T>(y: T, x: T, xs: seq<T>, key: T -> Bytes)
    ensures Fresh(y, Insert(x, xs, key), key) <==> key(x) != key(y) && Fresh(y, xs, key)
  {
    var r := Insert(x, xs, key);
    InsertPermutes(x, xs, key);
    forall z ensures z in r <==> z in [x] + xs {
      assert z in multiset(r) <==> z in multiset{x} + multiset(xs);
    }
    SameKeys(y, r, [x] + xs, key);
    FreshFirst(y, x, xs, key);
  }

  /** Insertion keeps keys apart exactly when the new key is new. */
  lemma {:induction false} DistinctSplit<T>(x: T, xs: seq<T>, key: T -> Bytes)
    ensures Distinct(Insert(x, xs, key), key) <==>
              Distinct(xs, key) && Fresh(x, xs, key)
    decreases |xs|
  {
    if xs == [] {
    } else if Below(key(xs[0]), key(x)) {
      var y, ys := xs[0], xs[1..];
      var rest := Insert(x, ys, key);
      assert xs == [y] + ys;
      DistinctSplit(x, ys, key);
      DistinctFirst(y, rest, key);
      DistinctFirst(y, ys, key);
      InsertFresh(y, x, ys, key);
      BelowTotal(key(y), key(x));
      FreshFirst(x, y, ys, key);
    } else {
      DistinctFirst(x, xs, key);
    }
  }

  /** A strictly ascending sequence is determined by its elements. */
  lemma {:induction false} AscendingUnique<T>(xs: seq<T>, ys: seq<T>, key: T -> Bytes)
    requires Ascending(xs, key) && Ascending(ys, key)
    requires forall x :: x in xs <==> x in ys
    ensures xs == ys
    decreases |xs|
  {
    assert ys != [] ==> ys[0] in ys;
    if xs != [] {
      assert xs[0] in ys && ys != [];
      assert ys[0] in xs;
      var i := InIndex(xs[0], ys);
      var j := InIndex(ys[0], xs);
      BelowTotal(key(xs[0]), key(ys[0]));
      assert xs[0] == ys[0];
      var x, us, vs := xs[0], xs[1..], ys[1..];
      forall z ensures z in us <==> z in vs {
        if z in us {
          var k := InIndex(z, us);
          assert z == xs[k + 1];
          BelowTotal(key(x), key(z));
          var l := InIndex(z, ys);
          assert vs[l - 1] == z;
        }
        if z in vs {
          var k := InIndex(z, vs);
          assert z == ys[k + 1];
          BelowTotal(key(x), key(z));
          var l := InIndex(z, xs);
          assert us[l - 1] == z;
        }
      }
      AscendingUnique(us, vs, key);
      assert xs == [x] + us && ys == [x] + vs;
    }
  }

  function Map<A, B>(f: A -> B, xs: seq<A>): (r: seq<B>)
    ensures |r| == |xs| && forall k :: 0 <= k < |r| ==> r[k] == f(xs[k])
  {
    if xs == [] then [] else [f(xs[0])] + Map(f, xs[1..])
  }

  lemma {:induction false} InsertMap<A, B>(x: A, xs: seq<A>, f: A -> B, ka: A -> Bytes, kb: B -> Bytes)
    requires kb(f(x)) == ka(x) && forall k :: 0 <= k < |xs| ==> kb(f(xs[k])) == ka(xs[k])
    ensures Insert(f(x), Map(f, xs), kb) == Map(f, Insert(x, xs, ka))
    decreases |xs|
  {
    if xs != [] {
      var ys := Map(f, xs);
      assert ys[0] == f(xs[0]) && ys[1..] == Map(f, xs[1..]);
      if Below(ka(xs[0]), ka(x)) {
        InsertMap(x, xs[1..], f, ka, kb);
        var r := Insert(x, xs, ka);
        assert r[0] == xs[0] && r[1..] == Insert(x, xs[1..], ka);
      } else {
        var r := Insert(x, xs, ka);
        assert r[0] == x && r[1..] == xs;
      }
    }
  }

  /** Sorting commutes with a map that keeps the keys. */
  lemma {:induction false} SortMap<A, B>(xs: seq<A>, f: A -> B, ka: A -> Bytes, kb: B -> Bytes)
    requires forall k :: 0 <= k < |xs| ==> kb(f(xs[k])) == ka(xs[k])
    ensures Sort(Map(f, xs), kb) == Map(f, Sort(xs, ka))
    decreases |xs|
  {
    if xs != [] {
      var ys := Map(f, xs);
      assert ys[0] == f(xs[0]) && ys[1..] == Map(f, xs[1..]);
      SortMap(xs[1..], f, ka, kb);
      var sorted := Sort(xs[1..], ka);
      var rest := xs[1..];
      SortPermutes(rest, ka);
      forall k | 0 <= k < |sorted| ensures kb(f(sorted[k])) == ka(sorted[k]) {
        assert sorted[k] in multiset(sorted) && sorted[k] in multiset(rest);
        var j := InIndex(sorted[k], rest);
        assert rest[j] == xs[j + 1];
      }
      InsertMap(xs[0], sorted, f, ka, kb);
    }
  }

  lemma DistinctLast<T>(xs: seq<T>, x: T, key: T -> Bytes)
    ensures Distinct(xs + [x], key) <==> Distinct(xs, key) && Fresh(x, xs, key)
  {
    var all := xs + [x];
    assert all[|xs|] == x && forall k :: 0 <= k < |xs| ==> all[k] == xs[k];
    if Distinct(all, key) {
      forall k | 0 <= k < |xs| ensures key(xs[k]) != key(x) { assert key(all[k]) != key(all[|xs|]); }
    }
  }

  lemma FreshIsNotIn<T>(x: T, xs: seq<T>, key: T -> Bytes)
    ensures Fresh(x, xs, key) <==> key(x) !in Map(key, xs)
  {
    var ys := Map(key, xs);
    if key(x) in ys {
      var k := InIndex(key(x), ys);
    }
    forall k | 0 <= k < |xs| ensures key(xs[k]) in ys { assert ys[k] == key(xs[k]); }
  }

  lemma MapLast<A, B>(f: A -> B, xs: seq<A>, x: A)
    ensures Map(f, xs + [x]) == Map(f, xs) + [f(x)]
  {
  }
}
