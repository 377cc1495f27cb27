/**
 * Small helpers shared by the whole model: optional values, the JavaScript
 * array and string operations the screens use (`filter`, `includes`,
 * `reduce` sums, a stable descending `sort`, `slice(0, n)`) and the
 * `Math.round(a / b * 100)` percentage the dashboards display.
 */
module Common {

  /** `T | undefined` of the source. */
  datatype Option<+T> = None | Some(value: T) {
    function GetOr(default: T): T {
      match this
      case Some(v) => v
      case None => default
    }
  }

  /** JavaScript truthiness of an optional string: present and not empty. */
  predicate Truthy(s: Option<string>) {
    s.Some? && s.value != ""
  }

  // ---------------------------------------------------------------------
  // String search

  /** `s.includes(t)`: `t` occurs in `s` as a contiguous run. */
  predicate Includes(s: string, t: string) {
    t <= s || (|s| > 0 && Includes(s[1..], t))
  }

  /** The empty string is included in every string. */
  lemma IncludesEmpty(s: string)
    ensures Includes(s, "")
  {
  }

  /** `t` occurs in `s` starting at position `i`. */
  predicate OccursAt(s: string, t: string, i: int) {
    0 <= i <= |s| - |t| && s[i..i + |t|] == t
  }

  /** `Includes` agrees with the positional definition of a substring. */
  lemma {:induction false} IncludesAt(s: string, t: string)
    ensures Includes(s, t) <==> exists i :: OccursAt(s, t, i)
  {
    if t <= s {
      assert OccursAt(s, t, 0);
    } else if |s| > 0 {
      IncludesAt(s[1..], t);
      if Includes(s[1..], t) {
        var i :| OccursAt(s[1..], t, i);
        assert s[i + 1..i + 1 + |t|] == s[1..][i..i + |t|];
        assert OccursAt(s, t, i + 1);
      } else {
        forall i | OccursAt(s, t, i)
          ensures false
        {
          if i != 0 {
            var j := i - 1;
            assert 0 <= j <= |s[1..]| - |t|;
            assert s[1..][j..j + |t|] == t;
            assert OccursAt(s[1..], t, j);
          }
        }
      }
    } else {
      forall i | OccursAt(s, t, i)
        ensures false
      {
      }
    }
  }

  // ---------------------------------------------------------------------
  // Array.prototype.filter

  /** `s.filter(p)`. */
  function Filter<T>(p: T -> bool, s: seq<T>): (r: seq<T>)
    ensures |r| <= |s|
    ensures forall x :: x in r ==> x in s && p(x)
    ensures forall x :: x in s && p(x) ==> x in r
    ensures forall x :: x in s ==> multiset(r)[x] == if p(x) then multiset(s)[x] else 0
  {
    if s == [] then []
    else
      var rest := Filter(p, s[1..]);
      assert s == [s[0]] + s[1..];
      if p(s[0]) then [s[0]] + rest else rest
  }

  lemma FilterSingleton<T>(p: T -> bool, x: T)
    ensures Filter(p, [x]) == if p(x) then [x] else []
  {
    assert [x][1..] == [];
  }

  /** A predicate that holds of every element keeps the whole sequence. */
  lemma {:induction false} FilterAll<T>(p: T -> bool, s: seq<T>)
    requires forall x :: x in s ==> p(x)
    ensures Filter(p, s) == s
  {
    if s != [] {
      FilterAll(p, s[1..]);
      assert s == [s[0]] + s[1..];
    }
  }

  /** A predicate that holds of no element keeps nothing. */
  lemma {:induction false} FilterNone<T>(p: T -> bool, s: seq<T>)
    requires forall x :: x in s ==> !p(x)
    ensures Filter(p, s) == []
  {
    if s != [] {
      FilterNone(p, s[1..]);
    }
  }

  /** Two predicates that agree on the elements filter alike. */
  lemma {:induction false} FilterExt<T>(p: T -> bool, q: T -> bool, s: seq<T>)
    requires forall x :: x in s ==> (p(x) <==> q(x))
    ensures Filter(p, s) == Filter(q, s)
  {
    if s != [] {
      FilterExt(p, q, s[1..]);
    }
  }

  // ---------------------------------------------------------------------
  // Array.prototype.find

  /** `s[k]` is the first element of `s` that satisfies `p`. */
  predicate FirstAt<T>(p: T -> bool, s: seq<T>, k: int) {
    0 <= k < |s| && p(s[k]) && forall j :: 0 <= j < k ==> !p(s[j])
  }

  /** `s.find(p)`. */
  function Find<T>(p: T -> bool, s: seq<T>): (r: Option<T>)
    ensures r.None? <==> forall x :: x in s ==> !p(x)
    ensures r.Some? ==> exists k :: FirstAt(p, s, k) && s[k] == r.value
  {
    if s == [] then None
    else if p(s[0]) then
      assert FirstAt(p, s, 0);
      Some(s[0])
    else
      var r := Find(p, s[1..]);
      assert s == [s[0]] + s[1..];
      if r.Some? then
        assert exists k :: FirstAt(p, s, k) && s[k] == r.value by {
          var k :| FirstAt(p, s[1..], k) && s[1..][k] == r.value;
          assert FirstAt(p, s, k + 1);
        }
        r
      else r
  }

  /** `r` can be obtained from `s` by deleting elements: order is kept. */
  predicate IsSubsequence<T(==)>(r: seq<T>, s: seq<T>)
    decreases |s|
  {
    r == [] ||
    (s != [] && ((r[0] == s[0] && IsSubsequence(r[1..], s[1..])) || IsSubsequence(r, s[1..])))
  }

  /** A filter keeps the survivors in their original order. */
  lemma {:induction false} FilterIsSubsequence<T>(p: T -> bool, s: seq<T>)
    ensures IsSubsequence(Filter(p, s), s)
  {
    if s != [] {
      FilterIsSubsequence(p, s[1..]);
      if p(s[0]) {
        assert Filter(p, s)[1..] == Filter(p, s[1..]);
      }
    }
  }

  /** Filtering by a stronger predicate keeps at most as many elements. */
  lemma {:induction false} FilterWeaker<T>(p: T -> bool, q: T -> bool, s: seq<T>)
    requires forall x :: x in s && p(x) ==> q(x)
    ensures |Filter(p, s)| <= |Filter(q, s)|
  {
    if s != [] {
      FilterWeaker(p, q, s[1..]);
    }
  }

  /** Counting a disjunction of two exclusive predicates adds the counts. */
  lemma {:induction false} FilterDisjoint<T>(p: T -> bool, q: T -> bool, pq: T -> bool, s: seq<T>)
    requires forall x :: x in s ==> (pq(x) <==> p(x) || q(x)) && !(p(x) && q(x))
    ensures |Filter(pq, s)| == |Filter(p, s)| + |Filter(q, s)|
  {
    if s != [] {
      FilterDisjoint(p, q, pq, s[1..]);
    }
  }

  /** Counting with a predicate and its opposite covers the whole sequence. */
  lemma {:induction false} FilterComplement<T>(p: T -> bool, np: T -> bool, s: seq<T>)
    requires forall x :: x in s ==> (np(x) <==> !p(x))
    ensures |Filter(p, s)| + |Filter(np, s)| == |s|
  {
    if s != [] {
      FilterComplement(p, np, s[1..]);
    }
  }

  /** Filtering twice is filtering once by both predicates. */
  lemma {:induction false} FilterCompose<T>(p: T -> bool, q: T -> bool, pq: T -> bool, s: seq<T>)
    requires forall x :: x in s ==> (pq(x) <==> p(x) && q(x))
    ensures Filter(p, Filter(q, s)) == Filter(pq, s)
  {
    if s != [] {
      FilterCompose(p, q, pq, s[1..]);
      if q(s[0]) {
        var rest := Filter(q, s[1..]);
        assert Filter(q, s) == [s[0]] + rest;
        assert ([s[0]] + rest)[1..] == rest;
      }
    }
  }

  /** A filter that keeps as many elements as it was given kept all of them. */
  lemma {:induction false} FilterFull<T>(p: T -> bool, s: seq<T>)
    requires |Filter(p, s)| == |s|
    ensures forall x :: x in s ==> p(x)
  {
    if s != [] {
      assert |Filter(p, s[1..])| <= |s[1..]|;
      FilterFull(p, s[1..]);
      assert s == [s[0]] + s[1..];
    }
  }

  /** Two sequences whose elements pass or fail alike, place by place, keep as many. */
  lemma {:induction false} FilterCountPointwise<T>(p: T -> bool, a: seq<T>, b: seq<T>)
    requires |a| == |b|
    requires forall k :: 0 <= k < |a| ==> (p(a[k]) <==> p(b[k]))
    ensures |Filter(p, a)| == |Filter(p, b)|
  {
    if a != [] {
      assert p(a[0]) <==> p(b[0]);
      FilterCountPointwise(p, a[1..], b[1..]);
    }
  }

  lemma {:induction false} FilterAppend<T>(p: T -> bool, a: seq<T>, b: seq<T>)
    ensures Filter(p, a + b) == Filter(p, a) + Filter(p, b)
  {
    if a == [] {
      assert a + b == b;
    } else {
      assert (a + b)[1..] == a[1..] + b;
      FilterAppend(p, a[1..], b);
    }
  }

  // ---------------------------------------------------------------------
  // reduce((acc, x) => acc + f(x), 0)

  function SumOf<T>(f: T -> int, s: seq<T>): int {
    if s == [] then 0 else f(s[0]) + SumOf(f, s[1..])
  }

  lemma {:induction false} SumAppend<T>(f: T -> int, a: seq<T>, b: seq<T>)
    ensures SumOf(f, a + b) == SumOf(f, a) + SumOf(f, b)
  {
    if a == [] {
      assert a + b == b;
    } else {
      assert (a + b)[1..] == a[1..] + b;
      SumAppend(f, a[1..], b);
    }
  }

  lemma SumSingleton<T>(f: T -> int, x: T)
    ensures SumOf(f, [x]) == f(x)
  {
    assert [x][1..] == [];
  }

  /** A sum of terms that are each at most the matching term of another sum. */
  lemma {:induction false} SumMonotone<T>(f: T -> int, g: T -> int, s: seq<T>)
    requires forall x :: x in s ==> f(x) <= g(x)
    ensures SumOf(f, s) <= SumOf(g, s)
  {
    if s != [] {
      SumMonotone(f, g, s[1..]);
    }
  }

  lemma {:induction false} SumNonNegative<T>(f: T -> int, s: seq<T>)
    requires forall x :: x in s ==> f(x) >= 0
    ensures SumOf(f, s) >= 0
  {
    if s != [] {
      SumNonNegative(f, s[1..]);
    }
  }

  /** With non-negative terms, the sum over the kept elements lies between zero and the whole sum. */
  lemma {:induction false} SumFilterBound<T>(f: T -> int, p: T -> bool, s: seq<T>)
    requires forall x :: x in s ==> f(x) >= 0
    ensures 0 <= SumOf(f, Filter(p, s)) <= SumOf(f, s)
  {
    if s != [] {
      SumFilterBound(f, p, s[1..]);
      var rest := Filter(p, s[1..]);
      if p(s[0]) {
        assert Filter(p, s) == [s[0]] + rest;
        assert ([s[0]] + rest)[1..] == rest;
      }
    }
  }

  /** Sums of terms that add up place by place add up. */
  lemma {:induction false} SumPointwise<T>(f: T -> int, g: T -> int, h: T -> int, s: seq<T>)
    requires forall x :: x in s ==> h(x) == f(x) + g(x)
    ensures SumOf(h, s) == SumOf(f, s) + SumOf(g, s)
  {
    if s != [] {
      SumPointwise(f, g, h, s[1..]);
    }
  }

  /** Two lists whose terms agree place by place have the same sum. */
  lemma {:induction false} SumCorresponding<T, U>(f: T -> int, a: seq<T>, g: U -> int, b: seq<U>)
    requires |a| == |b|
    requires forall k :: 0 <= k < |a| ==> f(a[k]) == g(b[k])
    ensures SumOf(f, a) == SumOf(g, b)
  {
    if a != [] {
      assert f(a[0]) == g(b[0]);
      SumCorresponding(f, a[1..], g, b[1..]);
    }
  }

  /** One for `v` and zero for everything else. */
  function Indicator<K(==)>(v: K): K -> int {
    (k: K) => if k == v then 1 else 0
  }

  predicate Distinct<K(==)>(ks: seq<K>) {
    forall i, j :: 0 <= i < j < |ks| ==> ks[i] != ks[j]
  }

  /** Over a list without repetitions, `v` is counted once if listed and never otherwise. */
  lemma {:induction false} SumIndicator<K>(ks: seq<K>, v: K)
    requires Distinct(ks)
    ensures SumOf(Indicator(v), ks) == if v in ks then 1 else 0
  {
    if ks != [] {
      SumIndicator(ks[1..], v);
      if ks[0] == v {
        assert v !in ks[1..] by {
          forall j | 0 <= j < |ks[1..]|
            ensures ks[1..][j] != v
          {
            assert ks[j + 1] != ks[0];
          }
        }
      }
      assert ks == [ks[0]] + ks[1..];
    }
  }

  // ---------------------------------------------------------------------
  // Grouping by a key: a reduce into an object indexed by `key(x)`

  /** The distinct keys of `s`, in the order each first appears. */
  function KeysInOrder<T, K(==)>(key: T -> K, s: seq<T>): seq<K> {
    if s == [] then []
    else
      var prior := KeysInOrder(key, s[..|s| - 1]);
      var k := key(s[|s| - 1]);
      if k in prior then prior else prior + [k]
  }

  function WithKey<T, K(==)>(key: T -> K, k: K): T -> bool {
    (x: T) => key(x) == k
  }

  /** The size of each key's group. */
  function CountWithKey<T, K(==)>(key: T -> K, s: seq<T>): K -> int {
    (k: K) => |Filter(WithKey(key, k), s)|
  }

  lemma KeysSnoc<T, K>(key: T -> K, s: seq<T>, x: T)
    ensures KeysInOrder(key, s + [x]) ==
      if key(x) in KeysInOrder(key, s) then KeysInOrder(key, s) else KeysInOrder(key, s) + [key(x)]
  {
    assert (s + [x])[..|s|] == s;
  }

  lemma GroupSnoc<T, K>(key: T -> K, s: seq<T>, x: T, k: K)
    ensures Filter(WithKey(key, k), s + [x]) == Filter(WithKey(key, k), s) + (if key(x) == k then [x] else [])
  {
    FilterAppend(WithKey(key, k), s, [x]);
    FilterSingleton(WithKey(key, k), x);
  }

  /** A key is listed exactly when its group is not empty, and no key is listed twice. */
  lemma {:induction false} KeysInOrderListed<T, K>(key: T -> K, s: seq<T>)
    ensures forall k :: k in KeysInOrder(key, s) <==> |Filter(WithKey(key, k), s)| > 0
    ensures Distinct(KeysInOrder(key, s))
  {
    if s != [] {
      var init, x := s[..|s| - 1], s[|s| - 1];
      assert s == init + [x];
      KeysInOrderListed(key, init);
      KeysSnoc(key, init, x);
      forall k
        ensures k in KeysInOrder(key, s) <==> |Filter(WithKey(key, k), s)| > 0
      {
        GroupSnoc(key, init, x, k);
      }
    }
  }

  /** Each key's group grows by the new element's indicator. */
  lemma CountsSnoc<T, K>(key: T -> K, init: seq<T>, x: T, ks: seq<K>)
    ensures SumOf(CountWithKey(key, init + [x]), ks) ==
      SumOf(CountWithKey(key, init), ks) + SumOf(Indicator(key(x)), ks)
  {
    forall k
      ensures CountWithKey(key, init + [x])(k) == CountWithKey(key, init)(k) + Indicator(key(x))(k)
    {
      GroupSnoc(key, init, x, k);
    }
    SumPointwise(CountWithKey(key, init), Indicator(key(x)), CountWithKey(key, init + [x]), ks);
  }

  /** The group sizes add up to the number of elements: each lies in exactly one group. */
  lemma {:induction false} KeyCountsSum<T, K>(key: T -> K, s: seq<T>)
    ensures SumOf(CountWithKey(key, s), KeysInOrder(key, s)) == |s|
  {
    if s != [] {
      var init, x := s[..|s| - 1], s[|s| - 1];
      assert s == init + [x];
      KeyCountsSum(key, init);
      KeyCountsStep(key, init, x);
    }
  }

  lemma KeyCountsStep<T, K>(key: T -> K, init: seq<T>, x: T)
    requires SumOf(CountWithKey(key, init), KeysInOrder(key, init)) == |init|
    ensures SumOf(CountWithKey(key, init + [x]), KeysInOrder(key, init + [x])) == |init| + 1
  {
    var ks := KeysInOrder(key, init);
    assert Distinct(ks) && (key(x) !in ks ==> |Filter(WithKey(key, key(x)), init)| == 0) by {
      KeysInOrderListed(key, init);
    }
    var c := CountWithKey(key, init + [x]);
    KeysSnoc(key, init, x);
    CountsSnoc(key, init, x, ks);
    SumIndicator(ks, key(x));
    if key(x) !in ks {
      SumAppend(c, ks, [key(x)]);
      SumSingleton(c, key(x));
      GroupSnoc(key, init, x, key(x));
      assert c(key(x)) == 1;
    }
  }

  // ---------------------------------------------------------------------
  // Math.round

  /** `Math.round(a / b)` on exact rationals: the nearest integer, halves rounded up. */
  function RoundDiv(a: int, b: int): (r: int)
    requires b > 0
    ensures 2 * b * r <= 2 * a + b < 2 * b * r + 2 * b
  {
    (2 * a + b) / (2 * b)
  }

  /** `Math.round(a / b * 100)` on exact rationals. */
  function RoundPercent(a: int, b: int): (r: int)
    requires b > 0
    ensures r == RoundDiv(100 * a, b)
  {
    (200 * a + b) / (2 * b)
  }

  /** A proportion of a whole rounds to a percentage in 0..100. */
  lemma RoundPercentRange(a: int, b: int)
    requires b > 0 && 0 <= a <= b
    ensures 0 <= RoundPercent(a, b) <= 100
    ensures a == 0 ==> RoundPercent(a, b) == 0
    ensures a == b ==> RoundPercent(a, b) == 100
  {
    var r := RoundPercent(a, b);
    assert 2 * b * r <= 200 * a + b < 2 * b * r + 2 * b;
    MulMono(2 * b, 101, r);
    MulMono(2 * b, r, -1);
    MulMono(2 * b, 1, r);
    MulMono(2 * b, r, 99);
  }

  /** A mean of values in 0..100 rounds into 0..100. */
  lemma RoundDivRange(a: int, b: int)
    requires b > 0 && 0 <= a <= 100 * b
    ensures 0 <= RoundDiv(a, b) <= 100
  {
    var r := RoundDiv(a, b);
    MulMono(2 * b, 101, r);
    MulMono(2 * b, r, -1);
  }

  /** The quotient of a division is pinned down by its bounds. */
  lemma QuotientOf(a: int, b: int, q: int)
    requires b > 0 && b * q <= a < b * q + b
    ensures a / b == q
  {
    var r := a / b;
    assert a == b * r + a % b && 0 <= a % b < b;
    MulMono(b, r + 1, q);
    MulMono(b, q + 1, r);
  }

  /** Multiplying by a positive factor keeps the order, both ways. */
  lemma MulMono(k: int, x: int, y: int)
    requires k > 0
    ensures x <= y <==> k * x <= k * y
  {
    if x <= y {
      MulLeft(k, x, y);
    } else {
      MulLeft(k, y + 1, x);
    }
  }

  lemma MulLeft(k: int, x: int, y: int)
    requires k > 0 && x <= y
    ensures k * x <= k * y
  {
  }

  // ---------------------------------------------------------------------
  // Stable descending sort, as `sort((a, b) => key(b) - key(a))`

  /** Descending by `key`: entries with a larger key come first. */
  predicate SortedDesc<T>(key: T -> int, s: seq<T>) {
    forall i, j :: 0 <= i < j < |s| ==> key(s[i]) >= key(s[j])
  }

  /** Places `x` before the first element whose key is not larger than its own. */
  function InsertDesc<T>(key: T -> int, x: T, s: seq<T>): (r: seq<T>)
    requires SortedDesc(key, s)
    ensures SortedDesc(key, r)
    ensures multiset(r) == multiset(s) + multiset{x}
    ensures |r| == |s| + 1
  {
    if s == [] then [x]
    else if key(x) >= key(s[0]) then [x] + s
    else
      var rest := InsertDesc(key, x, s[1..]);
      ConsKeepsDesc(key, s, x, rest);
      [s[0]] + rest
  }

  /** Putting the head back in front of the list the rest was inserted into keeps it sorted. */
  lemma ConsKeepsDesc<T>(key: T -> int, s: seq<T>, x: T, rest: seq<T>)
    requires s != [] && SortedDesc(key, s) && key(x) < key(s[0])
    requires SortedDesc(key, rest) && multiset(rest) == multiset(s[1..]) + multiset{x}
    ensures SortedDesc(key, [s[0]] + rest)
    ensures multiset([s[0]] + rest) == multiset(s) + multiset{x}
  {
    assert s == [s[0]] + s[1..];
    forall k | 0 <= k < |rest|
      ensures key(s[0]) >= key(rest[k])
    {
      assert rest[k] in multiset(rest);
      if rest[k] != x {
        assert rest[k] in multiset(s[1..]);
        var m :| 0 <= m < |s[1..]| && s[1..][m] == rest[k];
        assert s[m + 1] == rest[k];
      }
    }
    var r := [s[0]] + rest;
    forall i, j | 0 <= i < j < |r|
      ensures key(r[i]) >= key(r[j])
    {
      if i > 0 {
        assert r[i] == rest[i - 1] && r[j] == rest[j - 1];
      } else {
        assert r[j] == rest[j - 1];
      }
    }
  }

  /**
   * A stable descending sort: each element is inserted in front of the
   * equal-keyed elements that followed it in the input.
   */
  function SortDesc<T>(key: T -> int, s: seq<T>): (r: seq<T>)
    ensures SortedDesc(key, r)
    ensures multiset(r) == multiset(s)
    ensures |r| == |s|
  {
    if s == [] then []
    else
      assert s == [s[0]] + s[1..];
      InsertDesc(key, s[0], SortDesc(key, s[1..]))
  }

  /** `s.slice(0, n)`. */
  function Take<T>(s: seq<T>, n: nat): (r: seq<T>)
    ensures |r| <= n && |r| <= |s|
    ensures r <= s
    ensures |s| >= n ==> |r| == n
    ensures |s| < n ==> r == s
  {
    if |s| <= n then s else s[..n]
  }

  /**
   * The first `n` of a list sorted by decreasing key: as many as there are up
   * to `n`, still in decreasing order, all taken from the list, and every
   * element left out has a key no larger than any element kept.
   */
  lemma TopOfSorted<T>(key: T -> int, s: seq<T>, n: nat)
    ensures var r := Take(SortDesc(key, s), n);
      (|r| == if |s| < n then |s| else n) &&
      SortedDesc(key, r) &&
      (forall x :: x in r ==> x in s) &&
      (forall x, j :: x in s && x !in r && 0 <= j < |r| ==> key(x) <= key(r[j]))
  {
    var sorted := SortDesc(key, s);
    var r := Take(sorted, n);
    forall x | x in r
      ensures x in s
    {
      assert x in multiset(sorted);
    }
    forall x, j | x in s && x !in r && 0 <= j < |r|
      ensures key(x) <= key(r[j])
    {
      assert x in multiset(sorted);
      var m :| 0 <= m < |sorted| && sorted[m] == x;
      assert r[j] == sorted[j];
      assert forall i :: 0 <= i < |r| ==> r[i] == sorted[i];
    }
  }
}
