/**
 Order-insensitive comparison of string lists (`linode/helper/compare.go`).

 One implementation counts frequencies, the other sorts both slices and compares them. The second
 one hands `sort.Slice` a `less` function that always reads the first slice, also while the second
 slice is being sorted; the contracts below say what that computes.
 */
module Compare {
  import opened Text

  /** Go's `<=` on strings. */
  predicate AtMost(x: string, y: string) {
    x == [] || (y != [] && (x[0] < y[0] || (x[0] == y[0] && AtMost(x[1..], y[1..]))))
  }

  /** Go's `<` on strings. */
  predicate Less(x: string, y: string) {
    !AtMost(y, x)
  }

  lemma {:induction false} AtMostTotal(x: string, y: string)
    ensures AtMost(x, y) || AtMost(y, x)
    ensures AtMost(x, y) && AtMost(y, x) ==> x == y
  {
    if x != [] && y != [] && x[0] == y[0] {
      AtMostTotal(x[1..], y[1..]);
      assert x == [x[0]] + x[1..] && y == [y[0]] + y[1..];
    }
  }

  lemma {:induction false} AtMostTransitive(x: string, y: string, z: string)
    requires AtMost(x, y) && AtMost(y, z)
    ensures AtMost(x, z)
  {
    if x != [] && x[0] == y[0] == z[0] {
      AtMostTransitive(x[1..], y[1..], z[1..]);
    }
  }

  /** The strings agree before position k, and x has the smaller character there. */
  ghost predicate FirstDifference(x: string, y: string, k: nat) {
    k < |x| && k < |y| && x[..k] == y[..k] && x[k] < y[k]
  }

  /** Dictionary order: a prefix comes first, otherwise the first difference decides. */
  ghost predicate InOrder(x: string, y: string) {
    x <= y || exists k :: FirstDifference(x, y, k)
  }

  lemma DifferenceShift(x: string, y: string, k: nat)
    requires x != [] && y != [] && x[0] == y[0]
    ensures FirstDifference(x[1..], y[1..], k) <==> FirstDifference(x, y, k + 1)
  {
    if k < |x[1..]| && k < |y[1..]| {
      assert x[..k + 1] == [x[0]] + x[1..][..k] && y[..k + 1] == [y[0]] + y[1..][..k];
      assert x[1..][..k] == x[..k + 1][1..] && y[1..][..k] == y[..k + 1][1..];
    }
  }

  lemma {:induction false} AtMostIffInOrder(x: string, y: string)
    ensures AtMost(x, y) <==> InOrder(x, y)
  {
    if x != [] && y != [] {
      assert x[0] < y[0] ==> FirstDifference(x, y, 0);
      assert x[0] != y[0] ==> forall k: nat :: FirstDifference(x, y, k) ==> k == 0 by {
        forall k: nat | k > 0 && FirstDifference(x, y, k) ensures x[0] == y[0] {
          assert x[..k][0] == y[..k][0];
        }
      }
      if x[0] == y[0] {
        AtMostIffInOrder(x[1..], y[1..]);
        assert x == [x[0]] + x[1..] && y == [y[0]] + y[1..];
        if k: nat :| FirstDifference(x[1..], y[1..], k) {
          DifferenceShift(x, y, k);
        }
        if k: nat :| FirstDifference(x, y, k) {
          DifferenceShift(x, y, k - 1);
        }
      }
    }
  }

  ghost predicate Sorted(s: seq<string>) {
    forall i, j :: 0 <= i < j < |s| ==> AtMost(s[i], s[j])
  }

  /** The first string of a sorted list is at most every other. */
  lemma SortedHeadLeast(s: seq<string>, v: string)
    requires Sorted(s) && v in s
    ensures AtMost(s[0], v)
  {
    AtMostTotal(v, v);
  }

  /** A multiset of strings has only one sorted arrangement. */
  lemma {:induction false} SortedPermutationUnique(s: seq<string>, t: seq<string>)
    requires Sorted(s) && Sorted(t) && multiset(s) == multiset(t)
    ensures s == t
  {
    assert |s| == |multiset(s)| == |multiset(t)| == |t|;
    if s != [] {
      assert s[0] == t[0] by {
        assert s[0] in multiset(t) && t[0] in multiset(s);
        SortedHeadLeast(s, t[0]);
        SortedHeadLeast(t, s[0]);
        AtMostTotal(s[0], t[0]);
      }
      assert multiset(s[1..]) == multiset(t[1..]) by {
        assert s == [s[0]] + s[1..] && t == [t[0]] + t[1..];
        assert multiset(s[1..]) == multiset(s) - multiset{s[0]};
        assert multiset(t[1..]) == multiset(t) - multiset{t[0]};
      }
      SortedPermutationUnique(s[1..], t[1..]);
    }
  }

  // ---------------------------------------------------------------- counting

  /** How often v occurs according to the frequency map; a missing Go map entry reads as zero. */
  function Count(freq: map<string, int>, v: string): int {
    if v in freq then freq[v] else 0
  }

  /** Two multisets of the same size are equal once one contains the other. */
  lemma SameSizeContainment(x: multiset<string>, y: multiset<string>)
    requires |x| == |y| && y <= x
    ensures x == y
  {
    assert x == y + (x - y);
    assert |x| == |y| + |x - y|;
    assert |x - y| == 0;
  }

  /** The frequency map holds how often each string occurs in m. */
  ghost predicate Tallies(freq: map<string, int>, m: multiset<string>) {
    forall v :: Count(freq, v) == m[v]
  }

  lemma TallyOneMore(freq: map<string, int>, m: multiset<string>, v: string)
    requires Tallies(freq, m)
    ensures Tallies(freq[v := Count(freq, v) + 1], m + multiset{v})
  {
  }

  /** Counting a string down fails exactly when none of it is left. */
  lemma TallyOneLess(freq: map<string, int>, m: multiset<string>, v: string)
    requires Tallies(freq, m)
    ensures v in m ==> Tallies(freq[v := Count(freq, v) - 1], m - multiset{v})
    ensures Count(freq, v) - 1 < 0 <==> v !in m
  {
  }

  lemma NextPrefix(s: seq<string>, i: nat)
    requires i < |s|
    ensures multiset(s[..i + 1]) == multiset(s[..i]) + multiset{s[i]}
  {
    assert s[..i + 1] == s[..i] + [s[i]];
  }

  /** A string of b that is not left once the strings before it were taken from a tells a and b apart. */
  lemma NoneLeft(a: seq<string>, b: seq<string>, left: multiset<string>, i: nat)
    requires i < |b| && left + multiset(b[..i]) == multiset(a) && b[i] !in left
    ensures multiset(a) != multiset(b)
  {
    NextPrefix(b, i);
    assert b == b[..i + 1] + b[i + 1..];
    assert multiset(b)[b[i]] > multiset(a)[b[i]];
  }

  /** True exactly when the two lists hold the same strings equally often, in any order. */
  method StringListElementsEqual(a: seq<string>, b: seq<string>) returns (equal: bool)
    ensures equal <==> multiset(a) == multiset(b)
  {
    assert |multiset(a)| == |a| && |multiset(b)| == |b|;
    if |a| != |b| {
      return false;
    }
    var freq: map<string, int> := map[];
    for i := 0 to |a|
      invariant Tallies(freq, multiset(a[..i]))
    {
      NextPrefix(a, i);
      TallyOneMore(freq, multiset(a[..i]), a[i]);
      freq := freq[a[i] := Count(freq, a[i]) + 1];
    }
    assert a[..|a|] == a;
    ghost var left := multiset(a);
    for i := 0 to |b|
      invariant left + multiset(b[..i]) == multiset(a) && Tallies(freq, left)
    {
      TallyOneLess(freq, left, b[i]);
      freq := freq[b[i] := Count(freq, b[i]) - 1];
      if freq[b[i]] < 0 {
        NoneLeft(a, b, left, i);
        return false;
      }
      NextPrefix(b, i);
      left := left - multiset{b[i]};
    }
    assert b[..|b|] == b;
    SameSizeContainment(multiset(a), multiset(b));
    return true;
  }

  // ---------------------------------------------------------------- sorting

  /** Outcome of a comparison: a Go runtime panic, or an answer. */
  datatype Outcome = Panics | Answer(equal: bool)

  /** Sorted up to i, apart from the element at j, which may still be too small for its place. */
  ghost predicate SortedExcept(s: seq<string>, i: int, j: int)
    requires 0 <= j <= i < |s|
  {
    forall p, q :: 0 <= p < q <= i && q != j ==> AtMost(s[p], s[q])
  }

  function Swap(s: seq<string>, j: nat): seq<string>
    requires 0 < j < |s|
  {
    s[j := s[j - 1]][j - 1 := s[j]]
  }

  lemma SwapPermutes(s: seq<string>, j: nat)
    requires 0 < j < |s|
    ensures multiset(Swap(s, j)) == multiset(s)
  {
  }

  lemma SwapKeepsSortedExcept(s: seq<string>, i: nat, j: nat)
    requires 0 < j <= i < |s| && SortedExcept(s, i, j) && Less(s[j], s[j - 1])
    ensures SortedExcept(Swap(s, j), i, j - 1)
  {
    AtMostTotal(s[j], s[j - 1]);
  }

  /** Everything up to i is ordered once the element at j is at least its left neighbour. */
  lemma SettledIsSorted(s: seq<string>, i: nat, j: nat)
    requires j <= i < |s| && SortedExcept(s, i, j)
    requires j > 0 ==> AtMost(s[j - 1], s[j])
    ensures Sorted(s[..i + 1])
  {
    forall p | 0 <= p < j ensures AtMost(s[p], s[j]) {
      if p < j - 1 {
        AtMostTransitive(s[p], s[j - 1], s[j]);
      }
    }
  }

  /** One round of the insertion sort: moves element i down while `less` says it is out of order. */
  method SiftDown(keys: array<string>, data: array<string>, i: nat)
    requires 0 < i < data.Length && i < keys.Length
    requires if keys == data then Sorted(data[..i]) else AtMost(keys[i - 1], keys[i])
    modifies data
    ensures keys == data ==> Sorted(data[..i + 1]) && multiset(data[..]) == multiset(old(data[..]))
    ensures keys != data ==> data[..] == old(data[..])
  {
    var j := i;
    while j > 0 && Less(keys[j], keys[j - 1])
      invariant 0 <= j <= i
      invariant keys != data ==> j == i && data[..] == old(data[..])
      invariant keys == data ==> SortedExcept(data[..], i, j)
      invariant keys == data ==> multiset(data[..]) == multiset(old(data[..]))
    {
      ghost var before := data[..];
      data[j], data[j - 1] := data[j - 1], data[j];
      if keys == data {
        assert data[..] == Swap(before, j);
        SwapPermutes(before, j);
        SwapKeepsSortedExcept(before, i, j);
      }
      j := j - 1;
    }
    if keys == data {
      SettledIsSorted(data[..], i, j);
    }
  }

  /**
   `sort.Slice(data, less)` with `less(i, j)` reading `keys[i]` and `keys[j]`: the insertion sort that
   the Go library runs on short slices. When `keys` is the very slice being sorted this sorts it. When
   `keys` is another, already sorted slice, `less` never asks for a swap, so `data` keeps its order, and
   reading past the end of `keys` panics.
   */
  method SortSlice(keys: array<string>, data: array<string>) returns (panicked: bool)
    requires keys == data || Sorted(keys[..])
    modifies data
    ensures keys == data ==>
              !panicked && Sorted(data[..]) && multiset(data[..]) == multiset(old(data[..]))
    ensures keys != data ==>
              data[..] == old(data[..]) && (panicked <==> data.Length >= 2 && keys.Length < data.Length)
  {
    var i := 1;
    while i < data.Length
      invariant 1 <= i && (data.Length > 0 ==> i <= data.Length)
      invariant keys == data ==> Sorted(if i < data.Length then data[..i] else data[..])
      invariant keys == data ==> multiset(data[..]) == multiset(old(data[..]))
      invariant keys != data ==> data[..] == old(data[..]) && (i > 1 ==> i <= keys.Length)
    {
      if i >= keys.Length {
        return true;
      }
      assert keys != data ==> AtMost(keys[..][i - 1], keys[..][i]);
      SiftDown(keys, data, i);
      i := i + 1;
      assert i == data.Length ==> data[..i] == data[..];
    }
    return false;
  }

  /** What sorting both slices with the first slice's `less` and comparing them amounts to. */
  ghost function SortThenCompare(a: seq<string>, b: seq<string>): Outcome {
    if |b| >= 2 && |a| < |b| then Panics
    else Answer(Sorted(b) && multiset(a) == multiset(b))
  }

  /** `CompareSlices(ignoreNil, unordered, a, b)` on non-nil slices of strings; sorts `a` in place. */
  method CompareSlices(ignoreNil: bool, unordered: bool, a: array<string>, b: array<string>) returns (r: Outcome)
    modifies a, b
    ensures !unordered ==> a[..] == old(a[..]) && b[..] == old(b[..]) && r == Answer(a[..] == b[..])
    ensures unordered ==> Sorted(a[..]) && multiset(a[..]) == multiset(old(a[..]))
    ensures unordered && a == b ==> r == Answer(true)
    ensures unordered && a != b ==> r == SortThenCompare(old(a[..]), old(b[..])) && b[..] == old(b[..])
  {
    if ignoreNil && a.Length == 0 && b.Length == 0 {
      assert a[..] == [] && b[..] == [];
      return Answer(true);
    }
    if unordered {
      var panicked := SortSlice(a, a);
      ghost var sortedA := a[..];
      panicked := SortSlice(a, b);
      if panicked {
        return Panics;
      }
      if Sorted(b[..]) && multiset(sortedA) == multiset(b[..]) && a != b {
        SortedPermutationUnique(sortedA, b[..]);
      }
    }
    r := Answer(a[..] == b[..]);
  }

  /** `CompareStringSets` copies both arguments and compares the copies with `CompareSets`. */
  method CompareStringSets(a: seq<string>, b: seq<string>) returns (r: Outcome)
    ensures r == SortThenCompare(a, b)
    ensures r.Panics? <==> |b| >= 2 && |a| < |b|
    ensures r == Answer(true)
            <==> multiset(a) == multiset(b) && forall i, j :: 0 <= i < j < |b| ==> InOrder(b[i], b[j])
  {
    SortThenCompareMeaning(a, b);
    var aCopy := new string[|a|](i requires 0 <= i < |a| => a[i]);
    var bCopy := new string[|b|](i requires 0 <= i < |b| => b[i]);
    assert aCopy[..] == a && bCopy[..] == b;
    r := CompareSlices(true, true, aCopy, bCopy);
  }

  // ---------------------------------------------------------------- do the two agree?

  /** The answer is true exactly when the second list is the first one in dictionary order. */
  lemma SortThenCompareMeaning(a: seq<string>, b: seq<string>)
    ensures SortThenCompare(a, b).Panics? <==> |b| >= 2 && |a| < |b|
    ensures SortThenCompare(a, b) == Answer(true)
            <==> multiset(a) == multiset(b) && forall i, j :: 0 <= i < j < |b| ==> InOrder(b[i], b[j])
  {
    assert |multiset(a)| == |a| && |multiset(b)| == |b|;
    forall i, j | 0 <= i < j < |b| ensures AtMost(b[i], b[j]) <==> InOrder(b[i], b[j]) {
      AtMostIffInOrder(b[i], b[j]);
    }
  }

  /** A prefix sorts before its extensions, so these lists are recognised as equal. */
  lemma PrefixFirstExample()
    ensures SortThenCompare(["production", "prod"], ["prod", "production"]) == Answer(true)
    ensures SortThenCompare(["prod", "production"], ["production", "prod"]) == Answer(false)
  {
    AtMostIffInOrder("prod", "production");
    AtMostIffInOrder("production", "prod");
    assert "prod" == "production"[..4];
    assert forall k: nat :: !FirstDifference("production", "prod", k);
    assert multiset(["production", "prod"]) == multiset(["prod", "production"]);
  }

  /** The sorting comparison is not order-insensitive: a two-element list and its reversal. */
  lemma SortingComparisonMissesReversal()
    ensures multiset(["x", "y"]) == multiset(["y", "x"])
    ensures SortThenCompare(["x", "y"], ["y", "x"]) == Answer(false)
    ensures SortThenCompare(["x"], ["x", "y"]) == Panics
  {
  }

  /**
   A given second list is compared correctly against every first list that is at least as long exactly
   when it is sorted, and against every first list whatever its length exactly when it has at most one
   element.
   */
  lemma ComparisonsAgreeIffSecondSorted(b: seq<string>)
    ensures (forall a: seq<string> :: |a| >= |b| ==> SortThenCompare(a, b) == Answer(multiset(a) == multiset(b)))
            <==> Sorted(b)
    ensures (forall a: seq<string> :: SortThenCompare(a, b) == Answer(multiset(a) == multiset(b)))
            <==> |b| <= 1
  {
    if forall a: seq<string> :: |a| >= |b| ==> SortThenCompare(a, b) == Answer(multiset(a) == multiset(b)) {
      assert SortThenCompare(b, b) == Answer(true);
    }
    if |b| >= 2 {
      assert SortThenCompare([], b) == Panics;
    }
  }

  /** Unconditionally, an answer of true is right, and only a longer second list can panic. */
  lemma SortingComparisonSound(a: seq<string>, b: seq<string>)
    ensures SortThenCompare(a, b) == Answer(true) ==> multiset(a) == multiset(b)
    ensures SortThenCompare(a, b).Panics? ==> multiset(a) != multiset(b)
    ensures SortThenCompare(a, b) == SortThenCompare(b, a) == Answer(true) <==> a == b && Sorted(a)
  {
    assert |multiset(a)| == |a| && |multiset(b)| == |b|;
    if SortThenCompare(a, b) == SortThenCompare(b, a) == Answer(true) {
      SortedPermutationUnique(a, b);
    }
  }

  // ---------------------------------------------------------------- scopes

  /** The full-account scope is the only string whose space-split form is the list holding it alone. */
  lemma StarSplitsAlone(s: string)
    ensures multiset(Split(s, ' ')) == multiset{"*"} <==> s == "*"
  {
    var parts := Split(s, ' ');
    if multiset(parts) == multiset{"*"} {
      assert |parts| == |multiset(parts)| == 1;
      assert parts[0] in multiset(parts);
      JoinSplit(s, ' ');
    }
    if s == "*" {
      SplitWhole(s, ' ');
    }
  }

  /** Two scope strings compare equal exactly when they list the same scopes equally often. */
  method CompareScopes(s1: string, s2: string) returns (equal: bool)
    ensures equal <==> multiset(Split(s1, ' ')) == multiset(Split(s2, ' '))
  {
    StarSplitsAlone(s1);
    StarSplitsAlone(s2);
    SplitWhole("*", ' ');
    var accountScope1 := s1 == "*";
    var accountScope2 := s2 == "*";
    if accountScope1 != accountScope2 {
      return false;
    }
    if accountScope1 && accountScope2 {
      return true;
    }
    equal := StringListElementsEqual(Split(s1, ' '), Split(s2, ' '));
  }
}
