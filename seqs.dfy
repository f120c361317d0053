/** Sequence helpers shared by the pipeline: Python's stable `list.sort`,
    list-comprehension filters, slicing with possibly negative bounds, and
    the "first index that satisfies a test" search behind early `return`s. */
module Seqs {
  import opened Prelude

  // ---------------------------------------------------------------------
  // Stable sorting (Python's `list.sort` / `sorted`, which are stable)
  // ---------------------------------------------------------------------

  /** `le` is a total preorder: every two values compare, and comparison chains. */
  ghost predicate TotalPreorder<T(!new)>(le: (T, T) -> bool) {
    && (forall a, b :: le(a, b) || le(b, a))
    && (forall a, b, c :: le(a, b) && le(b, c) ==> le(a, c))
  }

  ghost predicate SortedBy<T>(s: seq<T>, le: (T, T) -> bool) {
    forall i, j :: 0 <= i < j < |s| ==> le(s[i], s[j])
  }

  /** Inserts `x` in front of the first element it is `le` to, so that `x`
      lands before every element that compares equal to it. */
  function Insert<T>(x: T, s: seq<T>, le: (T, T) -> bool): (r: seq<T>)
    ensures |r| == |s| + 1
  {
    if s == [] || le(x, s[0]) then [x] + s else [s[0]] + Insert(x, s[1..], le)
  }

  /** Stable insertion sort: elements that compare equal keep their input order. */
  function SortBy<T>(s: seq<T>, le: (T, T) -> bool): (r: seq<T>)
    ensures |r| == |s|
  {
    if s == [] then [] else Insert(s[0], SortBy(s[1..], le), le)
  }

  lemma {:induction false} InsertPermutes<T>(x: T, s: seq<T>, le: (T, T) -> bool)
    ensures multiset(Insert(x, s, le)) == multiset{x} + multiset(s)
  {
    if s == [] || le(x, s[0]) {
    } else {
      InsertPermutes(x, s[1..], le);
      assert s == [s[0]] + s[1..];
    }
  }

  lemma {:induction false} SortPermutes<T>(s: seq<T>, le: (T, T) -> bool)
    ensures multiset(SortBy(s, le)) == multiset(s)
  {
    if s != [] {
      SortPermutes(s[1..], le);
      InsertPermutes(s[0], SortBy(s[1..], le), le);
      assert s == [s[0]] + s[1..];
    }
  }

  lemma {:induction false} InsertSorted<T(!new)>(x: T, s: seq<T>, le: (T, T) -> bool)
    requires TotalPreorder(le) && SortedBy(s, le)
    ensures SortedBy(Insert(x, s, le), le)
  {
    if s == [] || le(x, s[0]) {
      var r := [x] + s;
      forall i, j | 0 <= i < j < |r| ensures le(r[i], r[j]) {
        if i > 0 {
          assert le(s[i - 1], s[j - 1]);
        } else if j > 1 {
          assert le(s[0], s[j - 1]);
        }
      }
    } else {
      assert le(s[0], x);
      var t := Insert(x, s[1..], le);
      InsertSorted(x, s[1..], le);
      InsertPermutes(x, s[1..], le);
      forall k | 0 <= k < |t| ensures le(s[0], t[k]) {
        assert t[k] in multiset(t);
        if t[k] != x {
          assert t[k] in multiset(s[1..]);
          var m :| 0 <= m < |s[1..]| && s[1..][m] == t[k];
          assert le(s[0], s[m + 1]);
        }
      }
      var r := [s[0]] + t;
      forall i, j | 0 <= i < j < |r| ensures le(r[i], r[j]) {
        if i > 0 {
          assert le(t[i - 1], t[j - 1]);
        } else {
          assert le(s[0], t[j - 1]);
        }
      }
    }
  }

  lemma {:induction false} SortSorted<T(!new)>(s: seq<T>, le: (T, T) -> bool)
    requires TotalPreorder(le)
    ensures SortedBy(SortBy(s, le), le)
  {
    if s != [] {
      SortSorted(s[1..], le);
      InsertSorted(s[0], SortBy(s[1..], le), le);
    }
  }

  /** The elements of `s` that compare equal to `x`, in their order in `s`. */
  function TiedWith<T>(s: seq<T>, le: (T, T) -> bool, x: T): (r: seq<T>)
    ensures |r| <= |s|
  {
    if s == [] then []
    else (if le(x, s[0]) && le(s[0], x) then [s[0]] else []) + TiedWith(s[1..], le, x)
  }

  lemma {:induction false} TiedWithCons<T>(y: T, t: seq<T>, le: (T, T) -> bool, x: T)
    ensures TiedWith([y] + t, le, x)
         == (if le(x, y) && le(y, x) then [y] else []) + TiedWith(t, le, x)
  {
    assert ([y] + t)[1..] == t;
  }

  lemma {:induction false} InsertStable<T(!new)>(y: T, t: seq<T>, le: (T, T) -> bool, x: T)
    requires TotalPreorder(le)
    ensures TiedWith(Insert(y, t, le), le, x) == TiedWith([y] + t, le, x)
  {
    TiedWithCons(y, t, le, x);
    if t == [] || le(y, t[0]) {
    } else {
      var z := t[0];
      InsertStable(y, t[1..], le, x);
      TiedWithCons(z, Insert(y, t[1..], le), le, x);
      TiedWithCons(y, t[1..], le, x);
      TiedWithCons(z, t[1..], le, x);
      assert t == [z] + t[1..];
      if le(x, y) && le(y, x) {
        // z sorts strictly before y, so z is not tied with x
        assert !(le(x, z) && le(z, x));
      }
    }
  }

  /** Stability: for every value, the elements tied with it appear in the
      sorted output in exactly their input order. */
  lemma {:induction false} SortStable<T(!new)>(s: seq<T>, le: (T, T) -> bool, x: T)
    requires TotalPreorder(le)
    ensures TiedWith(SortBy(s, le), le, x) == TiedWith(s, le, x)
  {
    if s != [] {
      SortStable(s[1..], le, x);
      InsertStable(s[0], SortBy(s[1..], le), le, x);
      TiedWithCons(s[0], SortBy(s[1..], le), le, x);
      TiedWithCons(s[0], s[1..], le, x);
      assert s == [s[0]] + s[1..];
    }
  }

  lemma MultisetTail<T>(s: seq<T>)
    requires s != []
    ensures multiset(s[1..]) == multiset(s) - multiset{s[0]}
  {
    assert s == [s[0]] + s[1..];
  }

  /** No two distinct elements of `a` tie under `le`. */
  ghost predicate TiesAreEqual<T>(a: seq<T>, le: (T, T) -> bool) {
    forall i, j :: 0 <= i < |a| && 0 <= j < |a| && le(a[i], a[j]) && le(a[j], a[i]) ==> a[i] == a[j]
  }

  /** Two sorted arrangements of the same elements agree when only equal
      elements tie: then no sort order can tell arrangements apart. */
  lemma {:induction false} SortedUnique<T>(a: seq<T>, b: seq<T>, le: (T, T) -> bool)
    requires SortedBy(a, le) && SortedBy(b, le)
    requires multiset(a) == multiset(b)
    requires TiesAreEqual(a, le)
    ensures a == b
  {
    if a == [] {
      assert |multiset(b)| == 0;
    } else {
      assert |b| == |multiset(b)| == |multiset(a)| == |a|;
      HeadsAgree(a, b, le);
      MultisetTail(a);
      MultisetTail(b);
      assert TiesAreEqual(a[1..], le) by {
        forall i, j | 0 <= i < |a[1..]| && 0 <= j < |a[1..]| && le(a[1..][i], a[1..][j]) && le(a[1..][j], a[1..][i])
          ensures a[1..][i] == a[1..][j]
        {
          assert a[1..][i] == a[i + 1] && a[1..][j] == a[j + 1];
        }
      }
      SortedUnique(a[1..], b[1..], le);
    }
  }

  lemma HeadsAgree<T>(a: seq<T>, b: seq<T>, le: (T, T) -> bool)
    requires a != [] && b != []
    requires SortedBy(a, le) && SortedBy(b, le)
    requires multiset(a) == multiset(b)
    requires TiesAreEqual(a, le)
    ensures a[0] == b[0]
  {
    assert a[0] in multiset(b);
    var k :| 0 <= k < |b| && b[k] == a[0];
    assert b[0] in multiset(a);
    var m :| 0 <= m < |a| && a[m] == b[0];
    if m > 0 && k > 0 {
      assert le(a[0], a[m]);
      assert le(b[0], b[k]);
    }
  }

  // ---------------------------------------------------------------------
  // Filters, slicing, search
  // ---------------------------------------------------------------------

  /** The list comprehension `[x for x in s if p(x)]`. */
  function Filter<T>(s: seq<T>, p: T -> bool): (r: seq<T>)
    ensures |r| <= |s|
  {
    if s == [] then [] else (if p(s[0]) then [s[0]] else []) + Filter(s[1..], p)
  }

  lemma {:induction false} FilterAppend<T>(s: seq<T>, x: T, p: T -> bool)
    ensures Filter(s + [x], p) == Filter(s, p) + (if p(x) then [x] else [])
  {
    if s == [] {
      assert [x][1..] == [];
      assert s + [x] == [x];
    } else {
      var t := s + [x];
      assert t[0] == s[0] && t[1..] == s[1..] + [x];
      assert Filter(t, p) == (if p(s[0]) then [s[0]] else []) + Filter(s[1..] + [x], p);
      FilterAppend(s[1..], x, p);
    }
  }

  lemma {:induction false} FilterConcat<T>(a: seq<T>, b: seq<T>, p: T -> bool)
    ensures Filter(a + b, p) == Filter(a, p) + Filter(b, p)
  {
    if a == [] {
      assert a + b == b;
    } else {
      FilterConcat(a[1..], b, p);
      var head := if p(a[0]) then [a[0]] else [];
      assert (a + b)[0] == a[0] && (a + b)[1..] == a[1..] + b;
      calc {
        Filter(a + b, p);
        head + Filter(a[1..] + b, p);
        head + (Filter(a[1..], p) + Filter(b, p));
        (head + Filter(a[1..], p)) + Filter(b, p);
      }
    }
  }

  /** Filters that agree on the elements select the same elements. */
  lemma {:induction false} FilterSameTest<T>(s: seq<T>, p: T -> bool, q: T -> bool)
    requires forall x :: x in s ==> p(x) == q(x)
    ensures Filter(s, p) == Filter(s, q)
  {
    if s != [] {
      assert s[0] in s;
      assert forall x :: x in s[1..] ==> x in s;
      FilterSameTest(s[1..], p, q);
    }
  }

  lemma {:induction false} FilterMembers<T>(s: seq<T>, p: T -> bool, x: T)
    ensures x in Filter(s, p) <==> x in s && p(x)
  {
    if s != [] {
      FilterMembers(s[1..], p, x);
      assert s == [s[0]] + s[1..];
    }
  }

  lemma {:induction false} FilterMultiset<T>(s: seq<T>, p: T -> bool)
    ensures multiset(Filter(s, p)) <= multiset(s)
  {
    if s != [] {
      FilterMultiset(s[1..], p);
      assert s == [s[0]] + s[1..];
    }
  }

  /** Python's `s[:n]` for any integer `n` (a negative `n` counts from the end). */
  function PyPrefix<T>(s: seq<T>, n: int): (r: seq<T>)
    ensures |r| <= |s|
    ensures r == s[..|r|]
    ensures 0 <= n <= |s| ==> |r| == n
    ensures n >= |s| ==> r == s
  {
    if n >= 0 then s[..if n <= |s| then n else |s|]
    else s[..if |s| + n >= 0 then |s| + n else 0]
  }

  /** Python's `s[n:]` for any integer `n`. */
  function PySuffix<T>(s: seq<T>, n: int): (r: seq<T>)
    ensures |r| <= |s|
    ensures r == s[|s| - |r|..]
    ensures 0 <= n <= |s| ==> |r| == |s| - n
  {
    if n >= 0 then s[if n <= |s| then n else |s|..]
    else s[if |s| + n >= 0 then |s| + n else 0..]
  }

  lemma {:induction false} PySliceSplit<T>(s: seq<T>, n: int)
    ensures PyPrefix(s, n) + PySuffix(s, n) == s
  {
  }

  /** The least `k < n` with `p(k)`, or `n` when there is none: the index
      at which a scan with an early `return` stops. */
  function FirstIndex(n: nat, p: nat -> bool): (k: nat)
    ensures k <= n
    ensures forall j :: 0 <= j < k ==> !p(j)
    ensures k < n ==> p(k)
  {
    FirstIndexFrom(0, n, p)
  }

  function FirstIndexFrom(i: nat, n: nat, p: nat -> bool): (k: nat)
    requires i <= n
    requires forall j :: 0 <= j < i ==> !p(j)
    ensures i <= k <= n
    ensures forall j :: 0 <= j < k ==> !p(j)
    ensures k < n ==> p(k)
    decreases n - i
  {
    if i == n || p(i) then i else FirstIndexFrom(i + 1, n, p)
  }

  /** `[f(x) for x in s]`. */
  function Map<T, U>(s: seq<T>, f: T -> U): (r: seq<U>)
    ensures |r| == |s|
  {
    if s == [] then [] else Map(s[..|s| - 1], f) + [f(s[|s| - 1])]
  }

  lemma {:induction false} MapAt<T, U>(s: seq<T>, f: T -> U)
    ensures forall i :: 0 <= i < |s| ==> Map(s, f)[i] == f(s[i])
  {
    if s != [] {
      MapAt(s[..|s| - 1], f);
    }
  }

  lemma MapMembers<T, U>(s: seq<T>, f: T -> U, y: U)
    ensures y in Map(s, f) <==> exists i :: 0 <= i < |s| && f(s[i]) == y
  {
    MapAt(s, f);
    if y in Map(s, f) {
      var i :| 0 <= i < |s| && Map(s, f)[i] == y;
      assert f(s[i]) == y;
    }
    if exists i :: 0 <= i < |s| && f(s[i]) == y {
      var i :| 0 <= i < |s| && f(s[i]) == y;
      assert Map(s, f)[i] == y;
    }
  }

  /** `sum(f(x) for x in s)`, accumulated left to right. */
  function SumOf<T>(s: seq<T>, f: T -> real): real {
    if s == [] then 0.0 else SumOf(s[..|s| - 1], f) + f(s[|s| - 1])
  }

  lemma {:induction false} SumConcat<T>(a: seq<T>, b: seq<T>, f: T -> real)
    ensures SumOf(a + b, f) == SumOf(a, f) + SumOf(b, f)
  {
    if b != [] {
      SumConcat(a, b[..|b| - 1], f);
      assert (a + b)[..|a + b| - 1] == a + b[..|b| - 1];
    } else {
      assert a + b == a;
    }
  }

  lemma SumSingle<T>(x: T, f: T -> real)
    ensures SumOf([x], f) == f(x)
  {
    assert [x][..0] == [];
  }

  /** A sum does not depend on the order of its terms. */
  lemma {:induction false} SumPermutation<T>(a: seq<T>, b: seq<T>, f: T -> real)
    requires multiset(a) == multiset(b)
    ensures SumOf(a, f) == SumOf(b, f)
    decreases |a|
  {
    if a == [] {
      assert |multiset(b)| == 0;
    } else {
      var x := a[|a| - 1];
      var a' := a[..|a| - 1];
      assert a == a' + [x];
      assert x in multiset(b);
      var k :| 0 <= k < |b| && b[k] == x;
      var b' := b[..k] + b[k + 1..];
      assert b == b[..k] + [x] + b[k + 1..];
      assert multiset(b') == multiset(a') by {
        assert multiset(b) == multiset(b[..k]) + multiset{x} + multiset(b[k + 1..]);
        assert multiset(b') == multiset(b[..k]) + multiset(b[k + 1..]);
        assert multiset(b') == multiset(b) - multiset{x};
        assert multiset(a) == multiset(a') + multiset{x};
        assert multiset(a') == multiset(a) - multiset{x};
      }
      SumPermutation(a', b', f);
      SumConcat(b[..k] + [x], b[k + 1..], f);
      SumConcat(b[..k], [x], f);
      SumConcat(b[..k], b[k + 1..], f);
      SumSingle(x, f);
    }
  }

  /** How often a value occurs in a filtered list. */
  lemma {:induction false} FilterCount<T>(s: seq<T>, p: T -> bool, x: T)
    ensures multiset(Filter(s, p))[x] == if p(x) then multiset(s)[x] else 0
  {
    if s != [] {
      FilterCount(s[1..], p, x);
      assert s == [s[0]] + s[1..];
    }
  }

  /** Filtering two arrangements of the same elements keeps the same elements. */
  lemma FilterSameElements<T(!new)>(a: seq<T>, b: seq<T>, p: T -> bool)
    requires multiset(a) == multiset(b)
    ensures multiset(Filter(a, p)) == multiset(Filter(b, p))
  {
    var fa, fb := multiset(Filter(a, p)), multiset(Filter(b, p));
    forall x ensures fa[x] == fb[x] {
      FilterCount(a, p, x);
      FilterCount(b, p, x);
    }
    assert fa == fb;
  }

  /** Filtering by a test that holds exactly on the positions `i..j` keeps that slice. */
  lemma {:induction false} FilterRange<T>(s: seq<T>, p: T -> bool, i: nat, j: nat)
    requires i <= j <= |s|
    requires forall k :: 0 <= k < |s| ==> (p(s[k]) <==> i <= k < j)
    ensures Filter(s, p) == s[i..j]
  {
    if s == [] {
    } else if i > 0 {
      FilterRange(s[1..], p, i - 1, j - 1);
      assert s[1..][i - 1..j - 1] == s[i..j];
    } else if j > 0 {
      FilterRange(s[1..], p, 0, j - 1);
      assert [s[0]] + s[1..][0..j - 1] == s[0..j];
    } else {
      FilterRange(s[1..], p, 0, 0);
    }
  }

  /** A property holds of every element of a sequence exactly when it holds
      of every element of any rearrangement of it. */
  lemma AllOfPermutation<T>(a: seq<T>, b: seq<T>, p: T -> bool)
    requires multiset(a) == multiset(b)
    ensures (forall i :: 0 <= i < |a| ==> p(a[i])) <==> (forall i :: 0 <= i < |b| ==> p(b[i]))
  {
    forall i | 0 <= i < |a| ensures a[i] in multiset(b) {
      assert a[i] in multiset(a);
    }
    forall i | 0 <= i < |b| ensures b[i] in multiset(a) {
      assert b[i] in multiset(b);
    }
  }

  /** `s[:limit] if limit else s`: a limit of None or 0 keeps everything. */
  function PyLimit<T>(s: seq<T>, limit: Option<int>): (r: seq<T>)
    ensures |r| <= |s| && r == s[..|r|]
    ensures limit.None? || limit.value == 0 ==> r == s
    ensures limit.Some? && 0 < limit.value ==> |r| == if limit.value < |s| then limit.value else |s|
  {
    if limit.Some? && limit.value != 0 then PyPrefix(s, limit.value) else s
  }
}
