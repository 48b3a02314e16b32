/**
 * Go's sort.Sort for at most 12 elements: an insertion sort that, for each i, swaps the
 * element at j with the one at j-1 while Less(j, j-1) holds. The in-place method is proved
 * against the functional InsSort; InsSort keeps the multiset, and sorts whenever the
 * comparator is a strict weak order.
 */
module Sorting {

  /** Moves x leftwards from the end of s past every element it is Less than, stopping at the first it is not. */
  function Insert<T>(s: seq<T>, x: T, less: (T, T) -> bool): seq<T> {
    if s == [] then [x]
    else if less(x, s[|s| - 1]) then Insert(s[..|s| - 1], x, less) + [s[|s| - 1]]
    else s + [x]
  }

  /** Insertion sort of s, inserting s[0], s[1], … in turn. */
  function InsSort<T>(s: seq<T>, less: (T, T) -> bool): seq<T> {
    if s == [] then [] else Insert(InsSort(s[..|s| - 1], less), s[|s| - 1], less)
  }

  /** No element is Less than an element before it. */
  predicate Sorted<T>(s: seq<T>, less: (T, T) -> bool) {
    forall i, j :: 0 <= i < j < |s| ==> !less(s[j], s[i])
  }

  /** less is asymmetric and negatively transitive: a strict weak order. */
  ghost predicate StrictWeakOrder<T(!new)>(less: (T, T) -> bool) {
    (forall a, b :: less(a, b) ==> !less(b, a))
    && (forall a, b, c :: less(a, c) ==> less(a, b) || less(b, c))
  }

  lemma {:induction false} InsertMultiset<T>(s: seq<T>, x: T, less: (T, T) -> bool)
    ensures multiset(Insert(s, x, less)) == multiset(s) + multiset{x}
    decreases |s|
  {
    if s != [] && less(x, s[|s| - 1]) {
      InsertMultiset(s[..|s| - 1], x, less);
      assert s == s[..|s| - 1] + [s[|s| - 1]];
    }
  }

  /** Sorting permutes: the result holds exactly the input's elements, with their multiplicities. */
  lemma {:induction false} InsSortMultiset<T>(s: seq<T>, less: (T, T) -> bool)
    ensures multiset(InsSort(s, less)) == multiset(s)
    decreases |s|
  {
    if s != [] {
      InsSortMultiset(s[..|s| - 1], less);
      InsertMultiset(InsSort(s[..|s| - 1], less), s[|s| - 1], less);
      assert s == s[..|s| - 1] + [s[|s| - 1]];
    }
  }

  lemma {:induction false} InsertSorted<T(!new)>(s: seq<T>, x: T, less: (T, T) -> bool)
    requires StrictWeakOrder(less)
    requires Sorted(s, less)
    ensures Sorted(Insert(s, x, less), less)
    ensures forall i :: 0 <= i < |Insert(s, x, less)| ==> Insert(s, x, less)[i] == x || Insert(s, x, less)[i] in s
    decreases |s|
  {
    if s == [] {
    } else if less(x, s[|s| - 1]) {
      var init := s[..|s| - 1];
      var last := s[|s| - 1];
      InsertSorted(init, x, less);
      var r := Insert(init, x, less);
      assert Insert(s, x, less) == r + [last];
      forall i | 0 <= i < |r|
        ensures !less(last, r[i])
      {
        if r[i] == x {
        } else {
          var k :| 0 <= k < |init| && init[k] == r[i];
          assert s[k] == init[k];
        }
      }
      forall i | 0 <= i < |r|
        ensures r[i] == x || r[i] in s
      {
        if r[i] != x {
          assert r[i] in init;
        }
      }
    } else {
      forall i | 0 <= i < |s|
        ensures !less(x, s[i])
      {
        if i < |s| - 1 {
          assert !less(s[|s| - 1], s[i]);
        }
      }
    }
  }

  /** With a strict weak order as comparator, insertion sort sorts. */
  lemma {:induction false} InsSortSorted<T(!new)>(s: seq<T>, less: (T, T) -> bool)
    requires StrictWeakOrder(less)
    ensures Sorted(InsSort(s, less), less)
    decreases |s|
  {
    if s != [] {
      InsSortSorted(s[..|s| - 1], less);
      InsertSorted(InsSort(s[..|s| - 1], less), s[|s| - 1], less);
    }
  }

  /** One pass of the inner loop: a[i] moves left past the elements it is Less than. */
  method InsertAt<T>(a: array<T>, i: nat, less: (T, T) -> bool)
    requires i < a.Length
    modifies a
    ensures a[..i + 1] == Insert(old(a[..i]), old(a[i]), less)
    ensures a[i + 1..] == old(a[i + 1..])
  {
    ghost var sorted := a[..i];
    ghost var x := a[i];
    ghost var rest := a[i + 1..];
    assert sorted[..i] == sorted && sorted[i..] == [];
    assert a[..] == sorted[..i] + [x] + sorted[i..] + rest;
    var j := i;
    while j > 0 && less(a[j], a[j - 1])
      invariant 0 <= j <= i
      invariant a[..] == sorted[..j] + [x] + sorted[j..] + rest
      invariant Insert(sorted, x, less) == Insert(sorted[..j], x, less) + sorted[j..]
    {
      SwapShiftsLeft(sorted, x, rest, j);
      SplitBefore(sorted, j);
      if less(a[j], a[j - 1]) {
        InsertStep(sorted[..j], x, less, sorted[j..]);
      }
      ghost var before := a[..];
      a[j], a[j - 1] := a[j - 1], a[j];
      assert a[..] == before[j := before[j - 1]][j - 1 := before[j]];
      j := j - 1;
    }
    InsertDone(sorted, x, rest, less, j, a[..]);
  }

  /** Swapping the moving element with its left neighbour moves it one place left. */
  lemma SwapShiftsLeft<T>(sorted: seq<T>, x: T, rest: seq<T>, j: nat)
    requires 0 < j <= |sorted|
    ensures var s := sorted[..j] + [x] + sorted[j..] + rest;
      s[j] == x && s[j - 1] == sorted[j - 1]
      && s[j := sorted[j - 1]][j - 1 := x] == sorted[..j - 1] + [x] + sorted[j - 1..] + rest
  {
    var s := sorted[..j] + [x] + sorted[j..] + rest;
    var t := sorted[..j - 1] + [x] + sorted[j - 1..] + rest;
    assert |s[j := sorted[j - 1]][j - 1 := x]| == |t|;
    forall k | 0 <= k < |t|
      ensures s[j := sorted[j - 1]][j - 1 := x][k] == t[k]
    {
      if k < j - 1 {
      } else if k == j - 1 {
      } else if k == j {
      } else if k <= |sorted| {
        assert t[k] == sorted[k - 1];
      }
    }
  }

  /** While x is Less than the last element of init, Insert puts that element after x. */
  lemma InsertStep<T>(init: seq<T>, x: T, less: (T, T) -> bool, tail: seq<T>)
    requires init != [] && less(x, init[|init| - 1])
    ensures Insert(init, x, less) + tail == Insert(init[..|init| - 1], x, less) + ([init[|init| - 1]] + tail)
  {
  }

  lemma SplitBefore<T>(s: seq<T>, j: nat)
    requires 0 < j <= |s|
    ensures s[..j] != [] && s[..j][..j - 1] == s[..j - 1] && s[..j][j - 1] == s[j - 1]
    ensures [s[j - 1]] + s[j..] == s[j - 1..]
  {
  }

  /** Where the loop stops, x has reached the place Insert puts it. */
  lemma InsertDone<T>(sorted: seq<T>, x: T, rest: seq<T>, less: (T, T) -> bool, j: nat, s: seq<T>)
    requires j <= |sorted|
    requires s == sorted[..j] + [x] + sorted[j..] + rest
    requires Insert(sorted, x, less) == Insert(sorted[..j], x, less) + sorted[j..]
    requires !(j > 0 && less(s[j], s[j - 1]))
    ensures s[..|sorted| + 1] == Insert(sorted, x, less)
    ensures s[|sorted| + 1..] == rest
  {
    assert s[j] == x;
    if j > 0 {
      assert s[j - 1] == sorted[j - 1];
    }
    assert s[..|sorted| + 1] == sorted[..j] + [x] + sorted[j..];
  }

  /** Go's insertionSort over the whole array, in place. */
  method InsertionSort<T>(a: array<T>, less: (T, T) -> bool)
    modifies a
    ensures a[..] == InsSort(old(a[..]), less)
  {
    if a.Length == 0 {
      return;
    }
    ghost var s := a[..];
    var i := 1;
    assert s[..1] == [s[0]];
    while i < a.Length
      invariant 1 <= i <= a.Length
      invariant a[..i] == InsSort(s[..i], less)
      invariant a[i..] == s[i..]
    {
      assert a[i] == s[i];
      InsertAt(a, i, less);
      assert s[..i + 1][..i] == s[..i];
      i := i + 1;
    }
    assert s[..a.Length] == s;
  }
}
