/**
 * `src/lib/utils.ts`: the n-choose-k enumerator `combinations`, used to pair
 * annotators, and `getInitials`, the avatar fallback text.
 */
module Utils {
  import opened Text
  import opened Collections

  // ---------------------------------------------------------------------------
  // combinations

  /** Strictly increasing: no index repeats and the original order is kept. */
  predicate Increasing(t: seq<nat>) {
    forall i, j :: 0 <= i < j < |t| ==> t[i] < t[j]
  }

  /** `t` is a choice of `k` positions, in increasing order, from `lo .. n - 1`. */
  predicate Tuple(t: seq<nat>, k: int, lo: nat, n: nat) {
    && |t| == k
    && Increasing(t)
    && (forall i :: 0 <= i < |t| ==> lo <= t[i] < n)
  }

  predicate AllTuples(ts: seq<seq<nat>>, k: int, lo: nat, n: nat) {
    forall j :: 0 <= j < |ts| ==> Tuple(ts[j], k, lo, n)
  }

  /** Every position in `t` is below `m`. */
  predicate Below(t: seq<nat>, m: nat) {
    forall i :: 0 <= i < |t| ==> t[i] < m
  }

  /** `t` comes strictly before `u` in lexicographic order. */
  predicate LexLess(t: seq<nat>, u: seq<nat>) {
    t != [] && u != [] && (t[0] < u[0] || (t[0] == u[0] && LexLess(t[1..], u[1..])))
  }

  function Prefixed(i: nat, ts: seq<seq<nat>>): (r: seq<seq<nat>>)
    ensures |r| == |ts|
    ensures forall j :: 0 <= j < |r| ==> r[j] == [i] + ts[j]
  {
    seq(|ts|, j requires 0 <= j < |ts| => [i] + ts[j])
  }

  lemma ConsTuples(s: nat, a: seq<seq<nat>>, k: int, n: nat)
    requires s < n && AllTuples(a, k - 1, s + 1, n)
    ensures AllTuples(Prefixed(s, a), k, s, n)
  {
    forall j | 0 <= j < |a| ensures Tuple(Prefixed(s, a)[j], k, s, n) {
      var t := [s] + a[j];
      assert Tuple(a[j], k - 1, s + 1, n);
      assert forall i :: 1 <= i < |t| ==> t[i] == a[j][i - 1];
    }
  }

  lemma AppendTuples(a: seq<seq<nat>>, b: seq<seq<nat>>, k: int, lo: nat, n: nat)
    requires AllTuples(a, k, lo, n) && AllTuples(b, k, lo + 1, n)
    ensures AllTuples(a + b, k, lo, n)
  {
    forall j | 0 <= j < |a + b| ensures Tuple((a + b)[j], k, lo, n) {
      if j >= |a| {
        assert (a + b)[j] == b[j - |a|];
        assert Tuple(b[j - |a|], k, lo + 1, n);
      }
    }
  }

  /**
   * The index tuples the backtracking search visits, in the order it pushes
   * them: `k` strictly increasing positions drawn from `start .. n - 1`, the
   * tuples starting with `start` first. A negative `k` is never reached by a
   * growing buffer, so it yields nothing.
   */
  function IndexCombos(n: nat, k: int, start: nat): (r: seq<seq<nat>>)
    ensures AllTuples(r, k, start, n)
    decreases n - start
  {
    if k == 0 then [[]]
    else if k < 0 || start >= n then []
    else
      var withStart := IndexCombos(n, k - 1, start + 1);
      var without := IndexCombos(n, k, start + 1);
      ConsTuples(start, withStart, k, n);
      AppendTuples(Prefixed(start, withStart), without, k, start, n);
      Prefixed(start, withStart) + without
  }

  /** The elements of `items` at the positions `t`. */
  function Select<T>(items: seq<T>, t: seq<nat>): (r: seq<T>)
    requires Below(t, |items|)
    ensures |r| == |t|
    ensures forall j :: 0 <= j < |t| ==> r[j] == items[t[j]]
  {
    seq(|t|, j requires 0 <= j < |t| => items[t[j]])
  }

  /** Each index tuple of `ts`, as elements of `items`, appended to `current`. */
  function Lift<T>(items: seq<T>, current: seq<T>, ts: seq<seq<nat>>): (r: seq<seq<T>>)
    requires forall j :: 0 <= j < |ts| ==> Below(ts[j], |items|)
    ensures |r| == |ts|
  {
    seq(|ts|, j requires 0 <= j < |ts| => current + Select(items, ts[j]))
  }

  /** What `combinations(items, size)` returns. */
  function CombinationsOf<T>(items: seq<T>, size: int): seq<seq<T>> {
    Lift(items, [], IndexCombos(|items|, size, 0))
  }

  /** Binomial coefficient, by Pascal's rule. */
  function Binomial(m: nat, k: nat): nat {
    if k == 0 then 1 else if m == 0 then 0 else Binomial(m - 1, k - 1) + Binomial(m - 1, k)
  }

  /**
   * The state of one `combinations` call: the `result` array it pushes to and
   * the shared `currentCombination` buffer that `backtrack` pushes to and pops.
   */
  class CombinationBuilder<T> {
    const items: seq<T>
    const size: int
    var result: seq<seq<T>>
    var current: seq<T>

    constructor (items: seq<T>, size: int)
      ensures this.items == items && this.size == size
      ensures result == [] && current == []
    {
      this.items := items;
      this.size := size;
      result := [];
      current := [];
    }

    /** The combinations the search appends when the buffer holds `cur` and the loop starts at `from`. */
    function Visits(cur: seq<T>, from: nat): seq<seq<T>> {
      Lift(items, cur, IndexCombos(|items|, size - |cur|, from))
    }

    /**
     * `backtrack(startIndex, currentCombination)`: appends a copy of the
     * buffer extended by every tuple the search visits from `startIndex`, and
     * leaves the buffer as it found it. Entries already in `result` are never
     * changed, whatever later happens to the buffer.
     */
    method Backtrack(startIndex: nat)
      requires startIndex <= |items|
      requires size < 0 || |current| <= size
      modifies this
      ensures current == old(current)
      ensures result == old(result) + Visits(old(current), startIndex)
      decreases |items| - startIndex + 1
    {
      if |current| == size {
        result := result + [current];
        VisitsDone(current, startIndex);
        return;
      }
      ghost var goal := result + Visits(current, startIndex);
      var i := startIndex;
      while i < |items|
        invariant startIndex <= i <= |items|
        invariant current == old(current)
        invariant result + Visits(current, i) == goal
      {
        ghost var saved, pushed := result, current;
        VisitsStep(current, i);
        current := current + [items[i]];
        Backtrack(i + 1);
        current := current[..|current| - 1];
        assert current == pushed;
        Regroup(saved, Visits(pushed + [items[i]], i + 1), Visits(pushed, i + 1), result, goal);
        i := i + 1;
      }
      assert Visits(current, i) == [];
    }

    /** What one turn of the loop appends, regrouped: the tuples taking `i`, then those skipping it. */
    lemma Regroup(saved: seq<seq<T>>, taking: seq<seq<T>>, skipping: seq<seq<T>>, result: seq<seq<T>>, goal: seq<seq<T>>)
      requires saved + (taking + skipping) == goal && result == saved + taking
      ensures result + skipping == goal
    {
    }

    /** A full buffer is copied once, whatever the start index. */
    lemma VisitsDone(cur: seq<T>, from: nat)
      requires |cur| == size
      ensures Visits(cur, from) == [cur]
    {
      var ts := IndexCombos(|items|, 0, from);
      assert ts == [[]];
      assert Select(items, ts[0]) == [];
      assert Lift(items, cur, ts)[0] == cur;
    }

    /** One turn of the `for` loop: the tuples from `i` are those starting with `i`, then those from `i + 1`. */
    lemma VisitsStep(cur: seq<T>, i: nat)
      requires |cur| != size && i < |items|
      ensures Visits(cur, i) == Visits(cur + [items[i]], i + 1) + Visits(cur, i + 1)
    {
      LiftStep(items, cur, size - |cur|, i);
    }
  }

  /** Lifting distributes over concatenation. */
  lemma LiftAppend<T>(items: seq<T>, current: seq<T>, x: seq<seq<nat>>, y: seq<seq<nat>>)
    requires forall j :: 0 <= j < |x| ==> Below(x[j], |items|)
    requires forall j :: 0 <= j < |y| ==> Below(y[j], |items|)
    ensures forall j :: 0 <= j < |x + y| ==> Below((x + y)[j], |items|)
    ensures Lift(items, current, x + y) == Lift(items, current, x) + Lift(items, current, y)
  {
    assert forall j :: 0 <= j < |x + y| ==> (x + y)[j] == if j < |x| then x[j] else y[j - |x|];
  }

  /** A tuple prefixed with `i` is lifted like the rest of the tuple onto a buffer extended by `items[i]`. */
  lemma LiftPrefixed<T>(items: seq<T>, current: seq<T>, i: nat, a: seq<seq<nat>>)
    requires i < |items|
    requires forall j :: 0 <= j < |a| ==> Below(a[j], |items|)
    ensures forall j :: 0 <= j < |a| ==> Below(Prefixed(i, a)[j], |items|)
    ensures Lift(items, current, Prefixed(i, a)) == Lift(items, current + [items[i]], a)
  {
    forall j | 0 <= j < |a| ensures Below(Prefixed(i, a)[j], |items|) {
      assert forall m :: 1 <= m < |[i] + a[j]| ==> ([i] + a[j])[m] == a[j][m - 1];
    }
    forall j | 0 <= j < |a|
      ensures Lift(items, current, Prefixed(i, a))[j] == Lift(items, current + [items[i]], a)[j]
    {
      var t := [i] + a[j];
      assert Select(items, t) == [items[i]] + Select(items, a[j]);
    }
  }

  /** The tuples from `i` are those starting with `i`, then those from `i + 1`. */
  lemma LiftStep<T>(items: seq<T>, current: seq<T>, rest: int, i: nat)
    requires rest != 0 && i < |items|
    ensures Lift(items, current, IndexCombos(|items|, rest, i))
         == Lift(items, current + [items[i]], IndexCombos(|items|, rest - 1, i + 1))
          + Lift(items, current, IndexCombos(|items|, rest, i + 1))
  {
    var n := |items|;
    var a := IndexCombos(n, rest - 1, i + 1);
    var b := IndexCombos(n, rest, i + 1);
    if rest > 0 {
      assert IndexCombos(n, rest, i) == Prefixed(i, a) + b;
      LiftPrefixed(items, current, i, a);
      LiftAppend(items, current, Prefixed(i, a), b);
    }
  }

  /** `combinations(array, size)`. */
  method Combinations<T>(items: seq<T>, size: int) returns (result: seq<seq<T>>)
    ensures result == CombinationsOf(items, size)
  {
    var builder := new CombinationBuilder(items, size);
    builder.Backtrack(0);
    result := builder.result;
  }

  /** Every combination has exactly `size` elements, taken at strictly increasing positions. */
  lemma CombinationShape<T>(items: seq<T>, size: int, j: nat)
    requires j < |CombinationsOf(items, size)|
    ensures |CombinationsOf(items, size)[j]| == size
    ensures var t := IndexCombos(|items|, size, 0)[j];
      Increasing(t) && CombinationsOf(items, size)[j] == Select(items, t)
  {
    assert Tuple(IndexCombos(|items|, size, 0)[j], size, 0, |items|);
  }

  /** There are C(n - start, k) tuples: n(n-1)/2 pairs for k = 2. */
  lemma {:induction false} IndexCombosCount(n: nat, k: nat, start: nat)
    requires start <= n
    ensures |IndexCombos(n, k, start)| == Binomial(n - start, k)
    decreases n - start
  {
    if k != 0 && start < n {
      IndexCombosCount(n, k - 1, start + 1);
      IndexCombosCount(n, k, start + 1);
    }
  }

  lemma {:induction false} PairCount(m: nat)
    ensures Binomial(m, 2) == m * (m - 1) / 2
  {
    if m > 0 {
      var p := m - 1;
      PairCount(p);
      SingletonCount(p);
      assert Binomial(m, 2) == p + p * (p - 1) / 2;
      assert m * (m - 1) == p * (p - 1) + 2 * p;
    }
  }

  lemma {:induction false} SingletonCount(m: nat)
    ensures Binomial(m, 1) == m
  {
    if m > 0 { SingletonCount(m - 1); }
  }

  /** Size 0 yields one empty combination; a size above the length yields none. */
  lemma EdgeSizes<T>(items: seq<T>, size: int)
    ensures size == 0 ==> CombinationsOf(items, size) == [[]]
    ensures size > |items| ==> CombinationsOf(items, size) == []
  {
    if size > |items| {
      IndexCombosCount(|items|, size, 0);
      BinomialAboveIsZero(|items|, size);
    }
  }

  lemma {:induction false} BinomialAboveIsZero(m: nat, k: nat)
    requires k > m
    ensures Binomial(m, k) == 0
  {
    if m > 0 {
      BinomialAboveIsZero(m - 1, k - 1);
      BinomialAboveIsZero(m - 1, k);
    }
  }

  /**
   * The tuples come out in strictly increasing lexicographic order; in
   * particular no two of them are equal.
   */
  lemma {:induction false} IndexCombosLexOrdered(n: nat, k: int, start: nat)
    ensures forall i, j :: 0 <= i < j < |IndexCombos(n, k, start)| ==>
      LexLess(IndexCombos(n, k, start)[i], IndexCombos(n, k, start)[j])
    decreases n - start
  {
    var r := IndexCombos(n, k, start);
    if k > 0 && start < n {
      var a := IndexCombos(n, k - 1, start + 1);
      var b := IndexCombos(n, k, start + 1);
      IndexCombosLexOrdered(n, k - 1, start + 1);
      IndexCombosLexOrdered(n, k, start + 1);
      var p := Prefixed(start, a);
      assert r == p + b;
      forall i, j | 0 <= i < j < |r| ensures LexLess(r[i], r[j]) {
        if j < |p| {
          assert r[i] == [start] + a[i] && r[j] == [start] + a[j];
          assert r[i][1..] == a[i] && r[j][1..] == a[j];
        } else if i >= |p| {
          assert r[i] == b[i - |p|] && r[j] == b[j - |p|];
        } else {
          assert r[i] == [start] + a[i];
          assert r[j] == b[j - |p|];
          assert Tuple(b[j - |p|], k, start + 1, n);
        }
      }
    }
  }

  lemma {:induction false} LexLessIrreflexive(t: seq<nat>)
    ensures !LexLess(t, t)
  {
    if t != [] { LexLessIrreflexive(t[1..]); }
  }

  /** No choice of positions is listed twice. */
  lemma IndexCombosDistinct(n: nat, k: int, start: nat)
    ensures forall i, j :: 0 <= i < j < |IndexCombos(n, k, start)| ==>
      IndexCombos(n, k, start)[i] != IndexCombos(n, k, start)[j]
  {
    var r := IndexCombos(n, k, start);
    IndexCombosLexOrdered(n, k, start);
    forall i | 0 <= i < |r| ensures !LexLess(r[i], r[i]) {
      LexLessIrreflexive(r[i]);
    }
  }

  // ---------------------------------------------------------------------------
  // getInitials

  /** `s.slice(0, n)`. */
  function Take(s: string, n: nat): (r: string)
    ensures |r| <= n
  {
    if |s| <= n then s else s[..n]
  }

  /** `words.map(n => n[0]).join('')`: an empty word contributes nothing. */
  function FirstLetters(words: seq<string>): string {
    if words == [] then ""
    else (if words[0] == [] then "" else [words[0][0]]) + FirstLetters(words[1..])
  }

  /** `getInitials(name)`, with ASCII upper-casing. */
  function Initials(name: string): (r: string)
    ensures |r| <= 2
    ensures name == "" ==> r == ""
  {
    if name == "" then ""
    else
      var names := Split(name, ' ');
      if |names| == 1 then Upper(Take(names[0], 2))
      else Take(Upper(FirstLetters(names)), 2)
  }

  /** A name without spaces gives its first two characters, upper-cased. */
  lemma InitialsOfOneWord(name: string)
    requires name != "" && ' ' !in name
    ensures Initials(name) == Upper(Take(name, 2))
  {
    SplitWhole(name, ' ');
  }

  /** A word that has a first letter. */
  predicate IsWord(w: string) {
    w != ""
  }

  /** `map(n => n[0]).join('')` keeps exactly the first letters of the non-empty words, in order. */
  lemma {:induction false} FirstLettersOfWords(words: seq<string>)
    ensures var ne := Filter(words, IsWord);
      && |FirstLetters(words)| == |ne|
      && forall i :: 0 <= i < |ne| ==> ne[i] != "" && FirstLetters(words)[i] == ne[i][0]
  {
    if words != [] {
      var w, rest := words[0], words[1..];
      FirstLettersOfWords(rest);
      assert words == [w] + rest;
      FilterAppend([w], rest, IsWord);
      assert [w][..0] == [];
      FilterMembers(rest, IsWord);
      var ne := Filter(rest, IsWord);
      forall i | 0 <= i < |ne| ensures ne[i] != "" {
        assert ne[i] in ne;
      }
    }
  }

  /**
   * A name made of several space-free words (empty ones included, as a
   * leading or doubled space gives) has as initials the upper-cased first
   * letters of its first two non-empty words, or of its only one.
   */
  lemma InitialsOfWords(words: seq<string>)
    requires |words| >= 2
    requires forall i :: 0 <= i < |words| ==> ' ' !in words[i]
    ensures var ne, r := Filter(words, IsWord), Initials(Join(words, ' '));
      && |r| == (if |ne| < 2 then |ne| else 2)
      && forall i :: 0 <= i < |r| ==> ne[i] != "" && r[i] == UpperChar(ne[i][0])
  {
    var name := Join(words, ' ');
    SplitJoin(words, ' ');
    assert name == words[0] + [' '] + Join(words[1..], ' ');
    assert name != "";
    assert Initials(name) == Take(Upper(FirstLetters(words)), 2);
    FirstLettersOfWords(words);
  }

  /** With the first two words non-empty, the initials are their first letters, whatever follows. */
  lemma InitialsOfLeadingWords(words: seq<string>)
    requires |words| >= 2 && words[0] != "" && words[1] != ""
    requires forall i :: 0 <= i < |words| ==> ' ' !in words[i]
    ensures Initials(Join(words, ' ')) == [UpperChar(words[0][0]), UpperChar(words[1][0])]
  {
    InitialsOfWords(words);
    FilterLeadingWords(words);
  }

  /** Two non-empty leading words are the first two the word filter keeps. */
  lemma FilterLeadingWords(words: seq<string>)
    requires |words| >= 2 && words[0] != "" && words[1] != ""
    ensures var ne := Filter(words, IsWord); |ne| >= 2 && ne[0] == words[0] && ne[1] == words[1]
  {
    var head := words[..2];
    assert words == head + words[2..];
    FilterAppend(head, words[2..], IsWord);
    assert head[..1] == [words[0]] && [words[0]][..0] == [];
    assert Filter(head, IsWord) == head;
  }

  /** A third word is cut off, and a leading space adds an empty word that contributes nothing. */
  lemma InitialsOfSpacedNames()
    ensures Initials("Ali bin Abu") == "AB"
    ensures Initials(" Ali") == "A"
  {
    assert Join(["Ali", "bin", "Abu"], ' ') == "Ali bin Abu";
    InitialsOfLeadingWords(["Ali", "bin", "Abu"]);
    assert Join(["", "Ali"], ' ') == " Ali";
    InitialsOfWords(["", "Ali"]);
    assert ["", "Ali"][..1] == [""];
    assert Filter(["", "Ali"], IsWord) == ["Ali"];
  }

  /** Two non-empty words give the upper-cased first letter of each. */
  lemma InitialsOfTwoWords(first: string, last: string)
    requires first != "" && last != ""
    requires ' ' !in first && ' ' !in last
    ensures Initials(first + " " + last) == [UpperChar(first[0]), UpperChar(last[0])]
  {
    SplitField(first, ' ', last);
    SplitWhole(last, ' ');
    assert first + " " + last == first + [' '] + last;
    assert Split(first + " " + last, ' ') == [first, last];
    assert [first, last][1..] == [last] && [last][1..] == [];
    assert FirstLetters([last]) == [last[0]];
    assert FirstLetters([first, last]) == [first[0], last[0]];
    assert Upper([first[0], last[0]]) == [UpperChar(first[0]), UpperChar(last[0])];
  }
}
