// The array operations the scheduler and the pages lean on: `filter`, `flatMap` and the stable
// `sort` of JavaScript arrays with a comparator `(a, b) => key(a) - key(b)`.

module Lists {

  /** `s.filter(p)` */
  function Filter<T>(s: seq<T>, p: T -> bool): (r: seq<T>)
    ensures |r| <= |s|
  {
    if s == [] then [] else (if p(s[0]) then [s[0]] else []) + Filter(s[1..], p)
  }

  /** Filter keeps exactly the elements that satisfy p. */
  lemma {:induction false} FilterMembers<T>(s: seq<T>, p: T -> bool)
    ensures forall x :: x in Filter(s, p) <==> x in s && p(x)
  {
    if s != [] {
      FilterMembers(s[1..], p);
      assert s == [s[0]] + s[1..];
    }
  }

  lemma {:induction false} FilterNone<T>(s: seq<T>, p: T -> bool)
    requires forall x :: x in s ==> !p(x)
    ensures Filter(s, p) == []
  {
    if s != [] {
      FilterNone(s[1..], p);
    }
  }

  lemma {:induction false} FilterConcat<T>(a: seq<T>, b: seq<T>, p: T -> bool)
    ensures Filter(a + b, p) == Filter(a, p) + Filter(b, p)
  {
    if a != [] {
      assert (a + b)[0] == a[0] && (a + b)[1..] == a[1..] + b;
      FilterConcat(a[1..], b, p);
      var h := if p(a[0]) then [a[0]] else [];
      assert Filter(a + b, p) == h + (Filter(a[1..], p) + Filter(b, p));
    } else {
      assert a + b == b;
    }
  }

  /** Filter seen from the end: one step of a loop that pushes the elements it keeps */
  lemma FilterSnoc<T>(s: seq<T>, x: T, p: T -> bool)
    ensures Filter(s + [x], p) == Filter(s, p) + (if p(x) then [x] else [])
  {
    FilterConcat(s, [x], p);
  }

  /** `s.flatMap(f)` */
  function FlatMap<T, U>(s: seq<T>, f: T -> seq<U>): seq<U> {
    if s == [] then [] else f(s[0]) + FlatMap(s[1..], f)
  }

  lemma {:induction false} FlatMapConcat<T, U>(a: seq<T>, b: seq<T>, f: T -> seq<U>)
    ensures FlatMap(a + b, f) == FlatMap(a, f) + FlatMap(b, f)
  {
    if a != [] {
      assert (a + b)[0] == a[0] && (a + b)[1..] == a[1..] + b;
      FlatMapConcat(a[1..], b, f);
      assert FlatMap(a + b, f) == f(a[0]) + (FlatMap(a[1..], f) + FlatMap(b, f));
    } else {
      assert a + b == b;
    }
  }

  predicate SortedBy<T>(s: seq<T>, key: T -> int) {
    forall i, j :: 0 <= i < j < |s| ==> key(s[i]) <= key(s[j])
  }

  /** Puts x, which came before every element of s, in front of the first element whose key is
      not smaller than its own */
  function Insert<T>(x: T, s: seq<T>, key: T -> int): (r: seq<T>)
    ensures |r| == |s| + 1
    ensures multiset(r) == multiset(s) + multiset{x}
    ensures forall i :: 0 <= i < |r| ==> r[i] == x || r[i] in s
  {
    if s == [] || key(x) <= key(s[0]) then [x] + s
    else
      var r := [s[0]] + Insert(x, s[1..], key);
      assert s == [s[0]] + s[1..];
      r
  }

  /** The stable sort of `s` by `key` */
  function SortBy<T>(s: seq<T>, key: T -> int): (r: seq<T>)
    ensures |r| == |s| && multiset(r) == multiset(s)
  {
    if s == [] then []
    else
      assert s == [s[0]] + s[1..];
      Insert(s[0], SortBy(s[1..], key), key)
  }

  lemma {:induction false} InsertSorted<T>(x: T, s: seq<T>, key: T -> int)
    requires SortedBy(s, key)
    ensures SortedBy(Insert(x, s, key), key)
  {
    if s != [] && key(x) > key(s[0]) {
      InsertSorted(x, s[1..], key);
      var t := Insert(x, s[1..], key);
      forall i | 0 <= i < |t| ensures key(s[0]) <= key(t[i]) {
        if t[i] != x {
          var j :| 0 <= j < |s[1..]| && s[1..][j] == t[i];
          assert s[j + 1] == t[i];
        }
      }
      var r := [s[0]] + t;
      assert forall i :: 1 <= i < |r| ==> r[i] == t[i - 1];
    }
  }

  /** SortBy orders by key. */
  lemma {:induction false} SortBySorted<T>(s: seq<T>, key: T -> int)
    ensures SortedBy(SortBy(s, key), key)
  {
    if s != [] {
      SortBySorted(s[1..], key);
      InsertSorted(s[0], SortBy(s[1..], key), key);
    }
  }

  /** The elements whose key is k, in order */
  function WithKey<T>(s: seq<T>, key: T -> int, k: int): seq<T> {
    if s == [] then [] else (if key(s[0]) == k then [s[0]] else []) + WithKey(s[1..], key, k)
  }

  lemma {:induction false} InsertWithKey<T>(x: T, s: seq<T>, key: T -> int, k: int)
    ensures WithKey(Insert(x, s, key), key, k) == (if key(x) == k then [x] else []) + WithKey(s, key, k)
  {
    if s != [] && key(x) > key(s[0]) {
      var t := Insert(x, s[1..], key);
      InsertWithKey(x, s[1..], key, k);
      var r := [s[0]] + t;
      assert r[0] == s[0] && r[1..] == t;
      var head := if key(s[0]) == k then [s[0]] else [];
      var mid := if key(x) == k then [x] else [];
      assert WithKey(r, key, k) == head + WithKey(t, key, k);
      assert WithKey(t, key, k) == mid + WithKey(s[1..], key, k);
      assert head == [] || mid == [];
      assert head + (mid + WithKey(s[1..], key, k)) == mid + (head + WithKey(s[1..], key, k));
    } else {
      assert ([x] + s)[0] == x && ([x] + s)[1..] == s;
    }
  }

  /** SortBy is stable: the elements sharing a key keep their order. */
  lemma {:induction false} SortByStable<T>(s: seq<T>, key: T -> int, k: int)
    ensures WithKey(SortBy(s, key), key, k) == WithKey(s, key, k)
  {
    if s != [] {
      SortByStable(s[1..], key, k);
      InsertWithKey(s[0], SortBy(s[1..], key), key, k);
    }
  }

  lemma {:induction false} InsertFlatMap<T, U>(x: T, s: seq<T>, key: T -> int, f: T -> seq<U>)
    ensures multiset(FlatMap(Insert(x, s, key), f)) == multiset(f(x)) + multiset(FlatMap(s, f))
  {
    if s != [] && key(x) > key(s[0]) {
      InsertFlatMap(x, s[1..], key, f);
      var r := [s[0]] + Insert(x, s[1..], key);
      assert r[1..] == Insert(x, s[1..], key);
    } else {
      assert ([x] + s)[1..] == s;
    }
  }

  /** Flattening the sorted sequence gives a permutation of flattening the original one. */
  lemma {:induction false} SortByFlatMap<T, U>(s: seq<T>, key: T -> int, f: T -> seq<U>)
    ensures multiset(FlatMap(SortBy(s, key), f)) == multiset(FlatMap(s, f))
  {
    if s != [] {
      SortByFlatMap(s[1..], key, f);
      InsertFlatMap(s[0], SortBy(s[1..], key), key, f);
    }
  }

  /** The first element with the smallest key comes first after sorting. */
  lemma SortByFirst<T>(s: seq<T>, key: T -> int)
    requires s != []
    ensures SortBy(s, key)[0] in s
    ensures forall x :: x in s ==> key(SortBy(s, key)[0]) <= key(x)
  {
    var r := SortBy(s, key);
    SortBySorted(s, key);
    assert r[0] in multiset(s);
    forall x | x in s ensures key(r[0]) <= key(x) {
      assert x in multiset(r);
    }
  }

  /** The index of the first element whose key is k (`findIndex`), or -1 */
  function IndexWithKey<T>(s: seq<T>, key: T -> int, k: int): (r: int)
    ensures -1 <= r < |s|
    ensures r >= 0 ==> key(s[r]) == k && forall i :: 0 <= i < r ==> key(s[i]) != k
    ensures r == -1 ==> forall i :: 0 <= i < |s| ==> key(s[i]) != k
  {
    if s == [] then -1
    else if key(s[0]) == k then 0
    else
      var r := IndexWithKey(s[1..], key, k);
      if r == -1 then -1 else r + 1
  }

  /** The index of the first element whose key is above d, or -1 */
  function IndexAbove<T>(s: seq<T>, key: T -> int, d: int): (r: int)
    ensures -1 <= r < |s|
    ensures r >= 0 ==> key(s[r]) > d && forall i :: 0 <= i < r ==> key(s[i]) <= d
    ensures r == -1 ==> forall i :: 0 <= i < |s| ==> key(s[i]) <= d
  {
    if s == [] then -1
    else if key(s[0]) > d then 0
    else
      var r := IndexAbove(s[1..], key, d);
      if r == -1 then -1 else r + 1
  }

  /** The index of the last element whose key is below d (`[...s].reverse().find`), or -1 */
  function LastIndexBelow<T>(s: seq<T>, key: T -> int, d: int): (r: int)
    ensures -1 <= r < |s|
    ensures r >= 0 ==> key(s[r]) < d && forall i :: r < i < |s| ==> key(s[i]) >= d
    ensures r == -1 ==> forall i :: 0 <= i < |s| ==> key(s[i]) >= d
  {
    if s == [] then -1
    else if key(s[|s| - 1]) < d then |s| - 1
    else LastIndexBelow(s[..|s| - 1], key, d)
  }

  /** What WithKey keeps are elements of s with that key, and the first one found is the first kept. */
  lemma {:induction false} WithKeyFirst<T>(s: seq<T>, key: T -> int, k: int)
    ensures IndexWithKey(s, key, k) >= 0 <==> WithKey(s, key, k) != []
    ensures IndexWithKey(s, key, k) >= 0 ==> WithKey(s, key, k)[0] == s[IndexWithKey(s, key, k)]
  {
    if s != [] {
      WithKeyFirst(s[1..], key, k);
    }
  }

  lemma {:induction false} WithKeySnoc<T>(s: seq<T>, x: T, key: T -> int, k: int)
    ensures WithKey(s + [x], key, k) == WithKey(s, key, k) + (if key(x) == k then [x] else [])
  {
    if s == [] {
      assert [x][1..] == [];
    } else {
      assert (s + [x])[0] == s[0] && (s + [x])[1..] == s[1..] + [x];
      WithKeySnoc(s[1..], x, key, k);
      var h := if key(s[0]) == k then [s[0]] else [];
      assert WithKey(s + [x], key, k) == h + (WithKey(s[1..], key, k) + (if key(x) == k then [x] else []));
    }
  }

  /** The last element below d is the last element with its own key: every later key is at
      least d. */
  lemma LastBelowIsLastOfKey<T>(s: seq<T>, key: T -> int, d: int)
    requires LastIndexBelow(s, key, d) >= 0
    ensures var i := LastIndexBelow(s, key, d);
      WithKey(s, key, key(s[i])) != [] && WithKey(s, key, key(s[i]))[|WithKey(s, key, key(s[i]))| - 1] == s[i]
  {
    var i := LastIndexBelow(s, key, d);
    var after := s[i + 1..];
    assert s == s[..i] + [s[i]] + after;
    forall j | 0 <= j < |after| ensures key(after[j]) != key(s[i]) {
      assert after[j] == s[i + 1 + j];
    }
    WithKeyEndsWith(s[..i], s[i], after, key);
  }

  /** An element followed by nothing with its key is the last element with its key. */
  lemma WithKeyEndsWith<T>(a: seq<T>, x: T, b: seq<T>, key: T -> int)
    requires forall j :: 0 <= j < |b| ==> key(b[j]) != key(x)
    ensures var w := WithKey(a + [x] + b, key, key(x)); w != [] && w[|w| - 1] == x
  {
    var k := key(x);
    WithKeyConcat(a + [x], b, key, k);
    WithKeyNone(b, key, k);
    WithKeySnoc(a, x, key, k);
    assert WithKey(a + [x] + b, key, k) == WithKey(a, key, k) + [x] + [];
  }

  /** In a sorted sequence, the first element above d is the first element with its own key. */
  lemma FirstAboveIsFirstOfKey<T>(s: seq<T>, key: T -> int, d: int)
    requires SortedBy(s, key)
    requires IndexAbove(s, key, d) >= 0
    ensures var i := IndexAbove(s, key, d);
      IndexWithKey(s, key, key(s[i])) == i
  {
  }

  lemma {:induction false} WithKeyConcat<T>(a: seq<T>, b: seq<T>, key: T -> int, k: int)
    ensures WithKey(a + b, key, k) == WithKey(a, key, k) + WithKey(b, key, k)
  {
    if a == [] {
      assert a + b == b;
    } else {
      assert (a + b)[0] == a[0] && (a + b)[1..] == a[1..] + b;
      WithKeyConcat(a[1..], b, key, k);
      var h := if key(a[0]) == k then [a[0]] else [];
      assert WithKey(a + b, key, k) == h + (WithKey(a[1..], key, k) + WithKey(b, key, k));
    }
  }

  lemma {:induction false} WithKeyNone<T>(s: seq<T>, key: T -> int, k: int)
    requires forall i :: 0 <= i < |s| ==> key(s[i]) != k
    ensures WithKey(s, key, k) == []
  {
    if s != [] {
      WithKeyNone(s[1..], key, k);
    }
  }

  /** In a sorted sequence, the last element below d has the largest key below d, and the first
      element above d the smallest key above d. */
  lemma NeighboursInSorted<T>(s: seq<T>, key: T -> int, d: int)
    requires SortedBy(s, key)
    ensures LastIndexBelow(s, key, d) >= 0 ==>
      forall x :: x in s && key(x) < d ==> key(x) <= key(s[LastIndexBelow(s, key, d)])
    ensures IndexAbove(s, key, d) >= 0 ==>
      forall x :: x in s && key(x) > d ==> key(s[IndexAbove(s, key, d)]) <= key(x)
    ensures (exists x :: x in s && key(x) < d) ==> LastIndexBelow(s, key, d) >= 0
    ensures (exists x :: x in s && key(x) > d) ==> IndexAbove(s, key, d) >= 0
  {
  }

  /** Two sorted runs whose keys do not overlap make one sorted run. */
  lemma SortedAppend<T>(a: seq<T>, b: seq<T>, key: T -> int)
    requires SortedBy(a, key) && SortedBy(b, key)
    requires forall x, y :: x in a && y in b ==> key(x) <= key(y)
    ensures SortedBy(a + b, key)
  {
    forall i, j | 0 <= i < j < |a + b| ensures key((a + b)[i]) <= key((a + b)[j]) {
      if j < |a| {
      } else if i >= |a| {
        assert (a + b)[i] == b[i - |a|] && (a + b)[j] == b[j - |a|];
      } else {
        assert (a + b)[i] in a && (a + b)[j] in b;
      }
    }
  }

  /** Filtering with a predicate and with its negation splits a sequence in two. */
  lemma {:induction false} FilterPartition<T>(s: seq<T>, p: T -> bool, q: T -> bool)
    requires forall x :: q(x) == !p(x)
    ensures multiset(Filter(s, p)) + multiset(Filter(s, q)) == multiset(s)
    ensures |Filter(s, p)| + |Filter(s, q)| == |s|
  {
    if s != [] {
      FilterPartition(s[1..], p, q);
      assert s == [s[0]] + s[1..];
    }
  }

  /** Predicates that agree on the elements of s filter it alike. */
  lemma {:induction false} FilterSame<T>(s: seq<T>, p: T -> bool, q: T -> bool)
    requires forall x :: x in s ==> p(x) == q(x)
    ensures Filter(s, p) == Filter(s, q)
  {
    if s != [] {
      FilterSame(s[1..], p, q);
    }
  }

  /** A split of the tail into two filters extends to a head that the first filter keeps
      exactly when the whole does and the second drops. */
  lemma FilterSplitCons<T>(s: seq<T>, p: T -> bool, q: T -> bool, r: T -> bool)
    requires s != [] && p(s[0]) == q(s[0]) && !r(s[0])
    requires Filter(s[1..], p) == Filter(s[1..], q) + Filter(s[1..], r)
    ensures Filter(s, p) == Filter(s, q) + Filter(s, r)
  {
    var h := if p(s[0]) then [s[0]] else [];
    var on, later := Filter(s[1..], q), Filter(s[1..], r);
    assert Filter(s, p) == h + (on + later);
    assert Filter(s, q) == h + on;
    assert Filter(s, r) == later;
    Assoc(h, on, later);
  }

  lemma Assoc<T>(a: seq<T>, b: seq<T>, c: seq<T>)
    ensures a + b + c == a + (b + c)
  {
  }

  lemma {:induction false} FilterKeepsAll<T>(s: seq<T>, p: T -> bool)
    requires forall x :: x in s ==> p(x)
    ensures Filter(s, p) == s
  {
    if s != [] {
      FilterKeepsAll(s[1..], p);
      assert s == [s[0]] + s[1..];
    }
  }

  /** A comparator `(a, b) => ...` read as "a sorts strictly before b": asymmetric, and "not before"
      is transitive */
  ghost predicate StrictOrder<T(!new)>(lt: (T, T) -> bool) {
    (forall a, b :: lt(a, b) ==> !lt(b, a)) &&
    (forall a, b, c :: !lt(a, b) && !lt(b, c) ==> !lt(a, c))
  }

  predicate SortedWith<T>(s: seq<T>, lt: (T, T) -> bool) {
    forall i, j :: 0 <= i < j < |s| ==> !lt(s[j], s[i])
  }

  /** Puts x, which came before every element of s, in front of the first element that does not
      sort strictly before it */
  function InsertWith<T>(x: T, s: seq<T>, lt: (T, T) -> bool): (r: seq<T>)
    ensures |r| == |s| + 1
    ensures multiset(r) == multiset(s) + multiset{x}
    ensures forall i :: 0 <= i < |r| ==> r[i] == x || r[i] in s
  {
    if s == [] || !lt(s[0], x) then [x] + s
    else
      assert s == [s[0]] + s[1..];
      [s[0]] + InsertWith(x, s[1..], lt)
  }

  /** `s.sort(cmp)`: the stable sort of JavaScript arrays with a comparator */
  function SortWith<T>(s: seq<T>, lt: (T, T) -> bool): (r: seq<T>)
    ensures |r| == |s| && multiset(r) == multiset(s)
  {
    if s == [] then []
    else
      assert s == [s[0]] + s[1..];
      InsertWith(s[0], SortWith(s[1..], lt), lt)
  }

  lemma {:induction false} InsertWithSorted<T(!new)>(x: T, s: seq<T>, lt: (T, T) -> bool)
    requires StrictOrder(lt) && SortedWith(s, lt)
    ensures SortedWith(InsertWith(x, s, lt), lt)
  {
    if s != [] && lt(s[0], x) {
      InsertWithSorted(x, s[1..], lt);
      var t := InsertWith(x, s[1..], lt);
      forall i | 0 <= i < |t| ensures !lt(t[i], s[0]) {
        if t[i] != x {
          var k :| 1 <= k < |s| && s[k] == t[i];
        }
      }
    } else if s != [] {
      forall j | 0 <= j < |s| ensures !lt(s[j], x) {
        assert !lt(s[j], s[0]);
      }
    }
  }

  lemma {:induction false} SortWithSorted<T(!new)>(s: seq<T>, lt: (T, T) -> bool)
    requires StrictOrder(lt)
    ensures SortedWith(SortWith(s, lt), lt)
  {
    if s != [] {
      SortWithSorted(s[1..], lt);
      InsertWithSorted(s[0], SortWith(s[1..], lt), lt);
    }
  }
}
