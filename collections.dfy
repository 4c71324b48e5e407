/**
 * The array idioms the components are built from: `filter`, `filter(..).length`,
 * grouping with `reduce` and `push`, `new Set(..)` (first occurrences, in order),
 * and a stable sort under a caller-supplied order.
 */
module Collections {

  // ---------------------------------------------------------------------------
  // filter and counting

  /** `s.filter(p)`: the elements satisfying `p`, in their original order. */
  function Filter<T>(s: seq<T>, p: T -> bool): (r: seq<T>)
    ensures |r| <= |s|
  {
    if s == [] then [] else Filter(s[..|s| - 1], p) + (if p(s[|s| - 1]) then [s[|s| - 1]] else [])
  }

  /** The filter keeps exactly the elements satisfying `p`. */
  lemma {:induction false} FilterMembers<T>(s: seq<T>, p: T -> bool)
    ensures forall x :: x in Filter(s, p) <==> x in s && p(x)
  {
    if s != [] {
      var init := s[..|s| - 1];
      FilterMembers(init, p);
      assert s == init + [s[|s| - 1]];
    }
  }

  lemma {:induction false} FilterAppend<T(!new)>(s: seq<T>, t: seq<T>, p: T -> bool)
    ensures Filter(s + t, p) == Filter(s, p) + Filter(t, p)
  {
    if t != [] {
      assert (s + t)[..|s + t| - 1] == s + t[..|t| - 1];
      FilterAppend(s, t[..|t| - 1], p);
    } else {
      assert s + t == s;
    }
  }

  /** `s.filter(p).length`. */
  function Count<T(!new)>(s: seq<T>, p: T -> bool): (n: nat)
    ensures n <= |s|
  {
    |Filter(s, p)|
  }

  lemma CountAppend<T(!new)>(s: seq<T>, t: seq<T>, p: T -> bool)
    ensures Count(s + t, p) == Count(s, p) + Count(t, p)
  {
    FilterAppend(s, t, p);
  }

  /** When no element satisfies `p`, the filter is empty. */
  lemma {:induction false} FilterNone<T(!new)>(s: seq<T>, p: T -> bool)
    requires forall i :: 0 <= i < |s| ==> !p(s[i])
    ensures Filter(s, p) == []
  {
    if s != [] {
      FilterNone(s[..|s| - 1], p);
    }
  }

  /** Filters by disjoint predicates select disjoint parts, so their counts add up to at most the whole. */
  lemma {:induction false} CountDisjoint<T(!new)>(s: seq<T>, p: T -> bool, q: T -> bool)
    requires forall x :: x in s ==> !(p(x) && q(x))
    ensures Count(s, p) + Count(s, q) <= |s|
  {
    if s != [] {
      CountDisjoint(s[..|s| - 1], p, q);
    }
  }

  /** Counting by two disjoint predicates separately adds up to counting by their disjunction. */
  lemma {:induction false} CountUnion<T(!new)>(s: seq<T>, p: T -> bool, q: T -> bool, r: T -> bool)
    requires forall i :: 0 <= i < |s| ==> !(p(s[i]) && q(s[i])) && (r(s[i]) <==> p(s[i]) || q(s[i]))
    ensures Count(s, p) + Count(s, q) == Count(s, r)
  {
    if s != [] {
      CountUnion(s[..|s| - 1], p, q, r);
    }
  }

  /** `s.reduce((acc, x) => acc + f(x), 0)`. */
  function Sum<T>(s: seq<T>, f: T -> int): int {
    if s == [] then 0 else Sum(s[..|s| - 1], f) + f(s[|s| - 1])
  }

  lemma {:induction false} SumAppend<T>(s: seq<T>, t: seq<T>, f: T -> int)
    ensures Sum(s + t, f) == Sum(s, f) + Sum(t, f)
  {
    if t != [] {
      assert (s + t)[..|s + t| - 1] == s + t[..|t| - 1];
      SumAppend(s, t[..|t| - 1], f);
    } else {
      assert s + t == s;
    }
  }

  /** Summing values that all lie in `[lo, hi]` gives between `|s| * lo` and `|s| * hi`. */
  lemma {:induction false} SumBounds<T>(s: seq<T>, f: T -> int, lo: int, hi: int)
    requires forall i :: 0 <= i < |s| ==> lo <= f(s[i]) <= hi
    ensures |s| * lo <= Sum(s, f) <= |s| * hi
  {
    if s != [] {
      SumBounds(s[..|s| - 1], f, lo, hi);
      assert lo <= f(s[|s| - 1]) <= hi;
    }
  }

  /** Non-negative values have a non-negative sum. */
  lemma {:induction false} SumNonNegative<T>(s: seq<T>, f: T -> int)
    requires forall i :: 0 <= i < |s| ==> f(s[i]) >= 0
    ensures Sum(s, f) >= 0
  {
    if s != [] {
      SumNonNegative(s[..|s| - 1], f);
      assert f(s[|s| - 1]) >= 0;
    }
  }

  /** A pointwise smaller function has a smaller sum. */
  lemma {:induction false} SumLe<T>(s: seq<T>, f: T -> int, g: T -> int)
    requires forall i :: 0 <= i < |s| ==> f(s[i]) <= g(s[i])
    ensures Sum(s, f) <= Sum(s, g)
  {
    if s != [] {
      SumLe(s[..|s| - 1], f, g);
      assert f(s[|s| - 1]) <= g(s[|s| - 1]);
    }
  }

  /** Elements outside the filter add nothing, so summing over the filter gives the same total. */
  lemma {:induction false} SumFilter<T(!new)>(s: seq<T>, p: T -> bool, f: T -> int)
    requires forall i :: 0 <= i < |s| && !p(s[i]) ==> f(s[i]) == 0
    ensures Sum(s, f) == Sum(Filter(s, p), f)
  {
    if s != [] {
      var init, last := s[..|s| - 1], s[|s| - 1];
      SumFilter(init, p, f);
      assert Sum(s, f) == Sum(init, f) + f(last);
      if p(last) {
        var r := Filter(init, p);
        assert Filter(s, p) == r + [last];
        assert (r + [last])[..|r + [last]| - 1] == r;
      } else {
        assert Filter(s, p) == Filter(init, p);
        assert f(last) == 0;
      }
    }
  }

  /** Values that are zero on every element sum to zero. */
  lemma {:induction false} SumZero<T>(s: seq<T>, f: T -> int)
    requires forall i :: 0 <= i < |s| ==> f(s[i]) == 0
    ensures Sum(s, f) == 0
  {
    if s != [] {
      SumZero(s[..|s| - 1], f);
      assert f(s[|s| - 1]) == 0;
    }
  }

  // ---------------------------------------------------------------------------
  // grouping

  /** The elements whose key is `k`, in their original order. */
  function WithKey<T>(s: seq<T>, key: T -> string, k: string): seq<T> {
    if s == [] then [] else WithKey(s[..|s| - 1], key, k) + (if key(s[|s| - 1]) == k then [s[|s| - 1]] else [])
  }

  /** The group of `k` holds exactly the elements whose key is `k`. */
  lemma {:induction false} WithKeyMembers<T>(s: seq<T>, key: T -> string, k: string)
    ensures forall x :: x in WithKey(s, key, k) <==> x in s && key(x) == k
  {
    if s != [] {
      var init := s[..|s| - 1];
      WithKeyMembers(init, key, k);
      assert s == init + [s[|s| - 1]];
    }
  }

  /** Appending one element extends exactly the group of its key. */
  lemma WithKeyAppend<T>(s: seq<T>, x: T, key: T -> string, k: string)
    ensures WithKey(s + [x], key, k) == WithKey(s, key, k) + (if key(x) == k then [x] else [])
  {
    assert (s + [x])[..|s|] == s;
  }

  /** No element has key `k`, so its group is empty. */
  lemma {:induction false} WithKeyNone<T(!new)>(s: seq<T>, key: T -> string, k: string)
    requires forall i :: 0 <= i < |s| ==> key(s[i]) != k
    ensures WithKey(s, key, k) == []
  {
    if s != [] {
      WithKeyNone(s[..|s| - 1], key, k);
    }
  }

  /**
   * `s.reduce((acc, x) => { if (!acc[key(x)]) acc[key(x)] = []; acc[key(x)].push(x); return acc; }, {})`:
   * one group per key that occurs, each holding that key's elements in order.
   */
  method GroupBy<T>(s: seq<T>, key: T -> string) returns (groups: map<string, seq<T>>)
    ensures forall k :: k in groups <==> exists i :: 0 <= i < |s| && key(s[i]) == k
    ensures forall k :: k in groups ==> groups[k] == WithKey(s, key, k)
    ensures forall k :: k !in groups ==> WithKey(s, key, k) == []
  {
    groups := map[];
    var i := 0;
    while i < |s|
      invariant 0 <= i <= |s|
      invariant forall k :: k in groups <==> exists j :: 0 <= j < i && key(s[j]) == k
      invariant forall k :: k in groups ==> groups[k] == WithKey(s[..i], key, k)
      invariant forall k :: k !in groups ==> WithKey(s[..i], key, k) == []
    {
      var x := s[i];
      assert s[..i + 1] == s[..i] + [x];
      forall k
        ensures WithKey(s[..i + 1], key, k) == WithKey(s[..i], key, k) + (if key(x) == k then [x] else [])
      {
        WithKeyAppend(s[..i], x, key, k);
      }
      if key(x) !in groups {
        groups := groups[key(x) := []];
      }
      groups := groups[key(x) := groups[key(x)] + [x]];
      i := i + 1;
    }
    assert s[..i] == s;
  }

  // ---------------------------------------------------------------------------
  // distinct elements

  predicate NoDuplicates<T(==)>(s: seq<T>) {
    forall i, j :: 0 <= i < j < |s| ==> s[i] != s[j]
  }

  /** Removing an element keeps a sequence free of repeats. */
  lemma RemoveAtNoDuplicates<T>(s: seq<T>, i: int)
    requires NoDuplicates(s)
    ensures NoDuplicates(RemoveAt(s, i))
  {
    var r := RemoveAt(s, i);
    if 0 <= i < |s| {
      forall a, b | 0 <= a < b < |r| ensures r[a] != r[b] {
        assert r[a] == s[if a < i then a else a + 1] && r[b] == s[if b < i then b else b + 1];
      }
    }
  }

  /** In a sequence without repeats every element occurs at most once. */
  lemma {:induction false} NoDuplicatesOnce<T>(s: seq<T>, x: T)
    requires NoDuplicates(s)
    ensures multiset(s)[x] <= 1
  {
    if s != [] {
      var init, last := s[..|s| - 1], s[|s| - 1];
      assert s == init + [last];
      NoDuplicatesOnce(init, x);
      if x == last {
        assert x !in init;
      }
    }
  }

  /** A reordering of a sequence without repeats has no repeats. */
  lemma PermutationNoDuplicates<T>(s: seq<T>, t: seq<T>)
    requires NoDuplicates(s) && multiset(s) == multiset(t)
    ensures NoDuplicates(t)
  {
    forall i, j | 0 <= i < j < |t| ensures t[i] != t[j] {
      var x := t[j];
      assert t == t[..j] + [x] + t[j + 1..];
      assert multiset(t)[x] == multiset(t[..j])[x] + 1 + multiset(t[j + 1..])[x];
      NoDuplicatesOnce(s, x);
      assert x !in t[..j];
      assert t[..j][i] == t[i];
    }
  }

  /** The position of the first occurrence of `x` in `s`. */
  function IndexOf<T(==)>(s: seq<T>, x: T): (i: nat)
    requires x in s
    ensures i < |s| && s[i] == x
    ensures forall j :: 0 <= j < i ==> s[j] != x
  {
    if s[0] == x then 0 else 1 + IndexOf(s[1..], x)
  }

  /** `Array.from(new Set(s))`: each distinct element once, in the order of first occurrence. */
  function Distinct<T(==,!new)>(s: seq<T>): (r: seq<T>)
    ensures NoDuplicates(r)
    ensures forall x :: x in r <==> x in s
    ensures forall i, j :: 0 <= i < j < |r| ==> IndexOf(s, r[i]) < IndexOf(s, r[j])
  {
    if s == [] then []
    else
      var init := s[..|s| - 1];
      var last := s[|s| - 1];
      var d := Distinct(init);
      FirstOccurrenceInPrefix(s, init);
      if last in d then d else d + [last]
  }

  lemma FirstOccurrenceInPrefix<T>(s: seq<T>, init: seq<T>)
    requires s != [] && init == s[..|s| - 1]
    ensures forall x :: x in init ==> IndexOf(s, x) == IndexOf(init, x)
    ensures s[|s| - 1] !in init ==> IndexOf(s, s[|s| - 1]) == |s| - 1
  {
    forall x | x in init ensures IndexOf(s, x) == IndexOf(init, x) {
      var i, j := IndexOf(s, x), IndexOf(init, x);
      assert s[j] == x;
      assert init[i] == x || i == |s| - 1;
    }
  }

  /**
   * `s.filter((_, j) => j !== i)`: drops the element at `i`; an index outside
   * the sequence drops nothing.
   */
  function RemoveAt<T>(s: seq<T>, i: int): (r: seq<T>)
    ensures 0 <= i < |s| ==> |r| == |s| - 1 && multiset(r) + multiset{s[i]} == multiset(s)
    ensures 0 <= i < |s| ==> forall j :: 0 <= j < |r| ==> r[j] == if j < i then s[j] else s[j + 1]
    ensures !(0 <= i < |s|) ==> r == s
  {
    if 0 <= i < |s| then
      assert s == s[..i] + [s[i]] + s[i + 1..];
      s[..i] + s[i + 1..]
    else s
  }

  /** `s.filter(y => y !== x)`. */
  function RemoveAll<T(==,!new)>(s: seq<T>, x: T): (r: seq<T>)
    ensures x !in r
    ensures forall y :: y != x ==> multiset(r)[y] == multiset(s)[y]
  {
    if s == [] then []
    else
      var r := RemoveAll(s[..|s| - 1], x);
      assert s == s[..|s| - 1] + [s[|s| - 1]];
      if s[|s| - 1] == x then r else r + [s[|s| - 1]]
  }

  // ---------------------------------------------------------------------------
  // sorting under a caller-supplied order

  /** The comparator behaves like a total order that may tie distinct elements (`localeCompare`). */
  ghost predicate TotalPreorder<T(!new)>(le: (T, T) -> bool) {
    && (forall a, b :: le(a, b) || le(b, a))
    && (forall a, b, c :: le(a, b) && le(b, c) ==> le(a, c))
  }

  predicate SortedBy<T>(s: seq<T>, le: (T, T) -> bool) {
    forall i, j :: 0 <= i < j < |s| ==> le(s[i], s[j])
  }

  /** Places `x` in front of the first element it does not follow. */
  function Insert<T>(x: T, s: seq<T>, le: (T, T) -> bool): (r: seq<T>)
    ensures multiset(r) == multiset(s) + multiset{x}
    ensures |r| == |s| + 1
  {
    if s == [] || le(x, s[0]) then [x] + s
    else
      assert s == [s[0]] + s[1..];
      [s[0]] + Insert(x, s[1..], le)
  }

  /** A stable sort by `le` (insertion sort), as `Array.prototype.sort` with a comparator (`SortByStable`). */
  function SortBy<T>(s: seq<T>, le: (T, T) -> bool): (r: seq<T>)
    ensures multiset(r) == multiset(s)
    ensures |r| == |s|
  {
    if s == [] then [] else
      assert s == [s[0]] + s[1..];
      Insert(s[0], SortBy(s[1..], le), le)
  }

  lemma {:induction false} InsertSorted<T(!new)>(x: T, s: seq<T>, le: (T, T) -> bool)
    requires TotalPreorder(le) && SortedBy(s, le)
    ensures SortedBy(Insert(x, s, le), le)
  {
    if s != [] && !le(x, s[0]) {
      var rest := Insert(x, s[1..], le);
      InsertSorted(x, s[1..], le);
      assert le(s[0], x);
      forall y | y in rest ensures le(s[0], y) {
        assert y in multiset(rest);
        assert y == x || y in multiset(s[1..]);
      }
    }
  }

  /** The elements `le` ranks level with `x`. */
  function EquivTo<T>(le: (T, T) -> bool, x: T): T -> bool {
    (z: T) => le(z, x) && le(x, z)
  }

  /** The filter of a one-element sequence. */
  lemma FilterSingle<T>(a: T, p: T -> bool)
    ensures Filter([a], p) == if p(a) then [a] else []
  {
    assert [a][..0] == [];
  }

  /** The filter of a sequence with a first element. */
  lemma FilterCons<T(!new)>(a: T, t: seq<T>, p: T -> bool)
    ensures Filter([a] + t, p) == Filter([a], p) + Filter(t, p)
  {
    FilterAppend([a], t, p);
  }

  /** Inserting never moves an element past one ranked level with it. */
  lemma {:induction false} InsertStable<T(!new)>(a: T, u: seq<T>, le: (T, T) -> bool, x: T)
    requires TotalPreorder(le)
    ensures Filter(Insert(a, u, le), EquivTo(le, x)) == Filter([a] + u, EquivTo(le, x))
  {
    var p := EquivTo(le, x);
    if u != [] && !le(a, u[0]) {
      var u0, rest := u[0], u[1..];
      assert Insert(a, u, le) == [u0] + Insert(a, rest, le);
      assert u == [u0] + rest;
      InsertStable(a, rest, le, x);
      FilterCons(u0, Insert(a, rest, le), p);
      FilterCons(a, rest, p);
      FilterCons(a, u, p);
      FilterCons(u0, rest, p);
      NotBothLevel(le, x, a, u0);
      FilterSingle(a, p);
      FilterSingle(u0, p);
      SwapAroundEmpty(Filter([a], p), Filter([u0], p), Filter(rest, p));
    } else {
      FilterCons(a, u, p);
    }
  }

  /** Two elements level with the same `x` follow each other both ways. */
  lemma NotBothLevel<T(!new)>(le: (T, T) -> bool, x: T, a: T, b: T)
    requires TotalPreorder(le) && !le(a, b)
    ensures !(EquivTo(le, x)(a) && EquivTo(le, x)(b))
  {
    assert le(a, x) && le(x, b) ==> le(a, b);
  }

  lemma SwapAroundEmpty<T>(s: seq<T>, t: seq<T>, r: seq<T>)
    requires s == [] || t == []
    ensures t + (s + r) == s + (t + r)
  {
  }

  /**
   * The sort is stable: for every `x`, the elements ranked level with `x`
   * come out in the order they went in.
   */
  lemma {:induction false} SortByStable<T(!new)>(s: seq<T>, le: (T, T) -> bool, x: T)
    requires TotalPreorder(le)
    ensures Filter(SortBy(s, le), EquivTo(le, x)) == Filter(s, EquivTo(le, x))
  {
    if s != [] {
      var p := EquivTo(le, x);
      SortByStable(s[1..], le, x);
      InsertStable(s[0], SortBy(s[1..], le), le, x);
      FilterCons(s[0], SortBy(s[1..], le), p);
      FilterCons(s[0], s[1..], p);
      assert s == [s[0]] + s[1..];
    }
  }

  /** The sort's output is ordered by `le` whenever `le` is a total preorder. */
  lemma {:induction false} SortBySorted<T(!new)>(s: seq<T>, le: (T, T) -> bool)
    requires TotalPreorder(le)
    ensures SortedBy(SortBy(s, le), le)
  {
    if s != [] {
      SortBySorted(s[1..], le);
      InsertSorted(s[0], SortBy(s[1..], le), le);
    }
  }
}
