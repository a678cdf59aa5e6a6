/** Ordering and sorted-set facts shared by every component that walks records
    by a stable cursor. */
module Keyset {

  datatype Option<+T> = None | Some(value: T)

  // ---------- byte-wise string order ----------

  /** The three-way comparison of Go's strings.Compare and bytes.Compare. */
  function Compare(a: string, b: string): (r: int)
    ensures -1 <= r <= 1
    ensures r == 0 <==> a == b
  {
    if a == [] then (if b == [] then 0 else -1)
    else if b == [] then 1
    else if a[0] < b[0] then -1
    else if b[0] < a[0] then 1
    else
      assert a == [a[0]] + a[1..] && b == [b[0]] + b[1..];
      Compare(a[1..], b[1..])
  }

  /** a comes first: it is a proper beginning of b, or smaller where they first differ. */
  ghost predicate ComesFirst(a: string, b: string) {
    exists n: nat :: n <= |a| && n <= |b| && a[..n] == b[..n] && (if n == |a| then n < |b| else n < |b| && a[n] < b[n])
  }

  lemma {:induction false} CompareExactlyWhen(a: string, b: string)
    ensures Compare(a, b) < 0 <==> ComesFirst(a, b)
  {
    hide ComesFirst;
    if a == [] || b == [] || a[0] != b[0] {
      HeadsDiffer(a, b);
    } else {
      CompareExactlyWhen(a[1..], b[1..]);
      HeadsAgree(a, b);
    }
  }

  lemma HeadsDiffer(a: string, b: string)
    requires a == [] || b == [] || a[0] != b[0]
    ensures ComesFirst(a, b) <==> b != [] && (a == [] || a[0] < b[0])
  {
    if b != [] && (a == [] || a[0] < b[0]) {
      assert a[..0] == b[..0];
    }
    forall n: nat | 0 < n <= |a| && n <= |b| ensures a[..n] != b[..n] {
      assert a[..n][0] != b[..n][0];
    }
  }

  lemma HeadsAgree(a: string, b: string)
    requires a != [] && b != [] && a[0] == b[0]
    ensures ComesFirst(a, b) <==> ComesFirst(a[1..], b[1..])
  {
    var x, y := a[1..], b[1..];
    if ComesFirst(x, y) {
      var n: nat :| n <= |x| && n <= |y| && x[..n] == y[..n] && (if n == |x| then n < |y| else n < |y| && x[n] < y[n]);
      assert a[..n + 1] == [a[0]] + x[..n] && b[..n + 1] == [b[0]] + y[..n];
    }
    if ComesFirst(a, b) {
      var n: nat :| n <= |a| && n <= |b| && a[..n] == b[..n] && (if n == |a| then n < |b| else n < |b| && a[n] < b[n]);
      assert x[..n - 1] == a[..n][1..] && y[..n - 1] == b[..n][1..];
    }
  }

  lemma {:induction false} CompareFlips(a: string, b: string)
    ensures Compare(a, b) == -Compare(b, a)
  {
    if a != [] && b != [] && a[0] == b[0] {
      CompareFlips(a[1..], b[1..]);
    }
  }

  lemma {:induction false} CompareTransitive(a: string, b: string, c: string)
    requires Compare(a, b) < 0 && Compare(b, c) < 0
    ensures Compare(a, c) < 0
  {
    if a != [] && a[0] == b[0] && b[0] == c[0] {
      CompareTransitive(a[1..], b[1..], c[1..]);
    }
  }

  // ---------- strict total orders over arbitrary keys ----------

  ghost predicate StrictTotal<T(!new)>(less: (T, T) -> bool) {
    && (forall x :: !less(x, x))
    && (forall x, y :: x != y ==> less(x, y) || less(y, x))
    && (forall x, y, z :: less(x, y) && less(y, z) ==> less(x, z))
  }

  ghost predicate Ascending<T>(less: (T, T) -> bool, xs: seq<T>) {
    forall i, j :: 0 <= i < j < |xs| ==> less(xs[i], xs[j])
  }

  function Elements<T>(xs: seq<T>): set<T> {
    set x | x in xs
  }

  ghost predicate IsLeast<T(!new)>(m: T, s: set<T>, less: (T, T) -> bool) {
    m in s && forall x :: x in s && x != m ==> less(m, x)
  }

  lemma Least<T(!new)>(s: set<T>, less: (T, T) -> bool) returns (m: T)
    requires StrictTotal(less) && s != {}
    ensures IsLeast(m, s, less)
    decreases |s|
  {
    var c :| c in s;
    var rest := s - {c};
    assert forall x :: x in s ==> x == c || x in rest;
    if rest == {} {
      m := c;
    } else {
      var n := Least(rest, less);
      m := if less(n, c) then n else c;
      forall x | x in s && x != m ensures less(m, x) {
        assert x == c || x == n || (x in rest && less(n, x));
        assert less(n, c) || less(c, n);
      }
    }
  }

  ghost function LeastOf<T(!new)>(s: set<T>, less: (T, T) -> bool): (m: T)
    requires StrictTotal(less) && s != {}
    ensures IsLeast(m, s, less)
  {
    assert exists m :: IsLeast(m, s, less) by {
      var m := Least(s, less);
      assert IsLeast(m, s, less);
    }
    var m :| IsLeast(m, s, less);
    m
  }

  /** The unique ascending listing of a finite set. */
  ghost function Listing<T(!new)>(s: set<T>, less: (T, T) -> bool): (xs: seq<T>)
    requires StrictTotal(less)
    ensures Ascending(less, xs) && Elements(xs) == s && |xs| == |s|
    decreases |s|
  {
    if s == {} then []
    else
      var m := LeastOf(s, less);
      var rest := Listing(s - {m}, less);
      ConsListing(m, rest, s, less);
      [m] + rest
  }

  lemma ConsListing<T(!new)>(m: T, rest: seq<T>, s: set<T>, less: (T, T) -> bool)
    requires IsLeast(m, s, less)
    requires Ascending(less, rest) && Elements(rest) == s - {m} && |rest| == |s - {m}|
    ensures Ascending(less, [m] + rest) && Elements([m] + rest) == s && |[m] + rest| == |s|
  {
    forall i | 0 <= i < |rest| ensures less(m, rest[i]) {
      assert rest[i] in Elements(rest);
    }
    forall x | x in s ensures x in Elements([m] + rest) {
      if x != m {
        assert x in Elements(rest);
        var i :| 0 <= i < |rest| && rest[i] == x;
        assert ([m] + rest)[i + 1] == x;
      } else {
        assert ([m] + rest)[0] == m;
      }
    }
    forall x | x in Elements([m] + rest) ensures x in s {
      if x != m { assert x in Elements(rest); }
    }
  }

  lemma {:induction false} AscendingUnique<T(!new)>(less: (T, T) -> bool, xs: seq<T>, ys: seq<T>)
    requires StrictTotal(less)
    requires Ascending(less, xs) && Ascending(less, ys) && Elements(xs) == Elements(ys)
    ensures xs == ys
  {
    assert xs != [] ==> xs[0] in Elements(xs);
    assert ys != [] ==> ys[0] in Elements(ys);
    if xs == [] || ys == [] {
      assert Elements(xs) == {};
    } else {
      assert xs[0] in Elements(ys);
      assert ys[0] in Elements(xs);
      assert xs[0] == ys[0];
      var xt, yt := xs[1..], ys[1..];
      assert forall x :: x in Elements(xt) <==> x in Elements(xs) && x != xs[0] by {
        forall x | x in Elements(xs) && x != xs[0] ensures x in Elements(xt) {
          var i :| 0 <= i < |xs| && xs[i] == x;
          assert xt[i - 1] == x;
        }
      }
      assert forall x :: x in Elements(yt) <==> x in Elements(ys) && x != ys[0] by {
        forall x | x in Elements(ys) && x != ys[0] ensures x in Elements(yt) {
          var i :| 0 <= i < |ys| && ys[i] == x;
          assert yt[i - 1] == x;
        }
      }
      AscendingUnique(less, xt, yt);
      assert xs == [xs[0]] + xt && ys == [ys[0]] + yt;
    }
  }

  /** Keys strictly after the cursor; no cursor means every key. */
  ghost function After<T(!new)>(s: set<T>, less: (T, T) -> bool, cursor: Option<T>): set<T> {
    set x | x in s && (cursor.None? || less(cursor.value, x))
  }

  ghost function Min(a: int, b: int): int { if a < b then a else b }

  /** One keyset page: the first limit keys after the cursor. */
  ghost function Page<T(!new)>(s: set<T>, less: (T, T) -> bool, cursor: Option<T>, limit: nat): (p: seq<T>)
    requires StrictTotal(less)
    ensures |p| <= limit
  {
    var all := Listing(After(s, less, cursor), less);
    all[..Min(limit, |all|)]
  }

  lemma NotDescending<T(!new)>(less: (T, T) -> bool, xs: seq<T>, i: nat, j: nat)
    requires StrictTotal(less) && Ascending(less, xs)
    requires i <= j < |xs|
    ensures !less(xs[j], xs[i])
  {
    assert i < j ==> less(xs[i], xs[j]);
    assert !less(xs[i], xs[i]);
  }

  lemma TailElements<T(!new)>(less: (T, T) -> bool, xs: seq<T>, n: nat)
    requires StrictTotal(less) && Ascending(less, xs) && 0 < n <= |xs|
    ensures Ascending(less, xs[n..])
    ensures forall x :: x in xs[n..] <==> x in xs && less(xs[n - 1], x)
  {
    forall i: nat | i < n ensures !less(xs[n - 1], xs[i]) {
      NotDescending(less, xs, i, n - 1);
    }
    forall x | x in xs && less(xs[n - 1], x) ensures x in xs[n..] {
      var i :| 0 <= i < |xs| && xs[i] == x;
      assert xs[n..][i - n] == x;
    }
  }

  /** Continuing after position n of a listing yields exactly the rest of it. */
  lemma ListingSplit<T(!new)>(s: set<T>, less: (T, T) -> bool, cursor: Option<T>, n: nat)
    requires StrictTotal(less)
    requires 0 < n <= |Listing(After(s, less, cursor), less)|
    ensures var all := Listing(After(s, less, cursor), less);
            all[n..] == Listing(After(s, less, Some(all[n - 1])), less)
  {
    var here := After(s, less, cursor);
    var all := Listing(here, less);
    var beyond := After(s, less, Some(all[n - 1]));
    TailElements(less, all, n);
    assert forall x :: x in all <==> x in Elements(all);
    assert all[n - 1] in here;
    forall x ensures x in Elements(all[n..]) <==> x in beyond {
      assert x in beyond ==> x in here;
    }
    AscendingUnique(less, all[n..], Listing(beyond, less));
  }

  // ---------- the library sort ----------

  function Keys<T, K>(key: T -> K, xs: seq<T>): (ks: seq<K>)
    ensures |ks| == |xs| && forall i :: 0 <= i < |xs| ==> ks[i] == key(xs[i])
  {
    seq(|xs|, i requires 0 <= i < |xs| => key(xs[i]))
  }

  function Inserted<T(!new), K>(less: (K, K) -> bool, key: T -> K, xs: seq<T>, x: T): (ys: seq<T>)
    ensures |ys| == |xs| + 1 && multiset(ys) == multiset(xs) + multiset{x}
    ensures forall y :: y in ys <==> y in xs || y == x
  {
    if xs == [] then [x]
    else if less(key(x), key(xs[0])) then [x] + xs
    else
      assert xs == [xs[0]] + xs[1..];
      [xs[0]] + Inserted(less, key, xs[1..], x)
  }

  /** The list sorted by key. */
  function Sorted<T(!new), K>(less: (K, K) -> bool, key: T -> K, xs: seq<T>): (ys: seq<T>)
    ensures |ys| == |xs| && multiset(ys) == multiset(xs)
    ensures forall y :: y in ys <==> y in xs
  {
    if xs == [] then []
    else
      assert xs == xs[..|xs| - 1] + [xs[|xs| - 1]];
      Inserted(less, key, Sorted(less, key, xs[..|xs| - 1]), xs[|xs| - 1])
  }

  ghost predicate NeverDescends<T, K>(less: (K, K) -> bool, key: T -> K, xs: seq<T>) {
    forall i, j :: 0 <= i < j < |xs| ==> !less(key(xs[j]), key(xs[i]))
  }

  ghost predicate DistinctKeys<T, K>(key: T -> K, xs: seq<T>) {
    forall i, j :: 0 <= i < j < |xs| ==> key(xs[i]) != key(xs[j])
  }

  lemma {:induction false} InsertedInOrder<T(!new), K(!new)>(less: (K, K) -> bool, key: T -> K, xs: seq<T>, x: T)
    requires StrictTotal(less) && NeverDescends(less, key, xs)
    ensures NeverDescends(less, key, Inserted(less, key, xs, x))
  {
    if xs != [] && !less(key(x), key(xs[0])) {
      InsertedInOrder(less, key, xs[1..], x);
      var rest := Inserted(less, key, xs[1..], x);
      forall j | 0 <= j < |rest| ensures !less(key(rest[j]), key(xs[0])) {
        assert rest[j] in rest;
        if rest[j] != x {
          var i :| 0 <= i < |xs[1..]| && xs[1..][i] == rest[j];
          assert !less(key(xs[i + 1]), key(xs[0]));
        }
      }
    } else if xs != [] {
      forall j | 0 <= j < |xs| ensures !less(key(xs[j]), key(x)) {
        assert j > 0 ==> !less(key(xs[j]), key(xs[0]));
      }
    }
  }

  lemma {:induction false} SortedNeverDescends<T(!new), K(!new)>(less: (K, K) -> bool, key: T -> K, xs: seq<T>)
    requires StrictTotal(less)
    ensures NeverDescends(less, key, Sorted(less, key, xs))
  {
    if xs != [] {
      var n := |xs| - 1;
      SortedNeverDescends(less, key, xs[..n]);
      InsertedInOrder(less, key, Sorted(less, key, xs[..n]), xs[n]);
    }
  }

  /** Sorting what has these keys, each once, lists the keys in order. */
  lemma SortedIsListing<T(!new), K(!new)>(less: (K, K) -> bool, key: T -> K, xs: seq<T>, keys: set<K>)
    requires StrictTotal(less) && DistinctKeys(key, xs)
    requires forall k :: k in keys <==> k in Keys(key, xs)
    ensures Keys(key, Sorted(less, key, xs)) == Listing(keys, less)
  {
    hide StrictTotal, Listing, Sorted;
    var ys := Sorted(less, key, xs);
    var ks := Keys(key, ys);
    SortedNeverDescends(less, key, xs);
    forall k ensures k in Elements(ks) <==> k in keys {
      SameKeys(key, xs, ys, k);
    }
    EqualKeysOnce(key, xs, ys);
    forall i, j | 0 <= i < j < |ks| ensures less(ks[i], ks[j]) {
      assert ks[i] == key(ys[i]) && ks[j] == key(ys[j]);
      Decides(less, ks[i], ks[j]);
    }
    AscendingUnique(less, ks, Listing(keys, less));
  }

  lemma Decides<K(!new)>(less: (K, K) -> bool, a: K, b: K)
    requires StrictTotal(less) && a != b && !less(b, a)
    ensures less(a, b)
  {
  }

  lemma SameKeys<T(!new), K(!new)>(key: T -> K, xs: seq<T>, ys: seq<T>, k: K)
    requires forall y :: y in ys <==> y in xs
    ensures k in Keys(key, xs) <==> k in Keys(key, ys)
  {
    if k in Keys(key, xs) {
      var i :| 0 <= i < |xs| && Keys(key, xs)[i] == k;
      assert xs[i] in ys;
      var j :| 0 <= j < |ys| && ys[j] == xs[i];
      assert Keys(key, ys)[j] == k;
    }
    if k in Keys(key, ys) {
      var i :| 0 <= i < |ys| && Keys(key, ys)[i] == k;
      assert ys[i] in xs;
      var j :| 0 <= j < |xs| && xs[j] == ys[i];
      assert Keys(key, xs)[j] == k;
    }
  }

  /** A permutation of elements with distinct keys has distinct keys. */
  lemma EqualKeysOnce<T(!new), K(!new)>(key: T -> K, xs: seq<T>, ys: seq<T>)
    requires DistinctKeys(key, xs) && multiset(xs) == multiset(ys)
    ensures DistinctKeys(key, ys)
  {
    forall i, j | 0 <= i < j < |ys| ensures key(ys[i]) != key(ys[j]) {
      assert ys[i] in multiset(xs) && ys[j] in multiset(xs);
      var a :| 0 <= a < |xs| && xs[a] == ys[i];
      var b :| 0 <= b < |xs| && xs[b] == ys[j];
      Once(key, xs, a);
      if ys[i] == ys[j] { Twice(ys, i, j); }
      assert a != b;
      assert key(xs[if a < b then a else b]) != key(xs[if a < b then b else a]);
    }
  }

  lemma Twice<T>(ys: seq<T>, i: int, j: int)
    requires 0 <= i < j < |ys| && ys[i] == ys[j]
    ensures multiset(ys)[ys[i]] >= 2
  {
    assert ys == ys[..i] + [ys[i]] + ys[i + 1..j] + [ys[j]] + ys[j + 1..];
  }

  lemma Once<T(!new), K>(key: T -> K, xs: seq<T>, a: int)
    requires 0 <= a < |xs| && DistinctKeys(key, xs)
    ensures multiset(xs)[xs[a]] == 1
  {
    assert xs == xs[..a] + [xs[a]] + xs[a + 1..];
    forall i | 0 <= i < |xs| && i != a ensures xs[i] != xs[a] {
      assert key(xs[if i < a then i else a]) != key(xs[if i < a then a else i]);
    }
  }
}
