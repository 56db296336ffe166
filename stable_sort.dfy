/** `Array.prototype.sort` with a comparator `(x, y) => key(y) - key(x)`: a
 *  stable sort into non-increasing key order. Every stable sort gives the
 *  same result, so the specification is insertion sort, written as a
 *  function; the in-place method the editors' orderByOffset stands for is
 *  proved equal to it. Sorting into non-decreasing order is the same sort on
 *  the negated key. */
module StableSort {

  predicate NonIncreasing<T>(s: seq<T>, key: T -> int)
  {
    forall i, j | 0 <= i < j < |s| :: key(s[i]) >= key(s[j])
  }

  /** x placed right after the last element whose key is at least key(x), so
   *  that the elements with its key that came before it stay before it. */
  function Insert<T>(sorted: seq<T>, x: T, key: T -> int): (r: seq<T>)
    ensures |r| == |sorted| + 1
  {
    if sorted == [] || key(sorted[|sorted| - 1]) >= key(x) then
      sorted + [x]
    else
      Insert(sorted[..|sorted| - 1], x, key) + [sorted[|sorted| - 1]]
  }

  /** Inserting into an ordered list keeps it ordered. */
  lemma {:induction false} InsertSorted<T>(sorted: seq<T>, x: T, key: T -> int)
    requires NonIncreasing(sorted, key)
    ensures NonIncreasing(Insert(sorted, x, key), key)
  {
    if !(sorted == [] || key(sorted[|sorted| - 1]) >= key(x)) {
      var init, last := sorted[..|sorted| - 1], sorted[|sorted| - 1];
      NonIncreasingPrefix(sorted, |sorted| - 1, key);
      InsertSorted(init, x, key);
      forall i | 0 <= i < |init| ensures key(init[i]) >= key(last) {
        assert init[i] == sorted[i];
      }
      InsertKeysAbove(init, x, key, key(last));
    }
  }

  /** Every key of the inserted list is at least b when x's and the list's are. */
  lemma {:induction false} InsertKeysAbove<T>(sorted: seq<T>, x: T, key: T -> int, b: int)
    requires key(x) >= b
    requires forall i | 0 <= i < |sorted| :: key(sorted[i]) >= b
    ensures forall i | 0 <= i < |sorted| + 1 :: key(Insert(sorted, x, key)[i]) >= b
  {
    if !(sorted == [] || key(sorted[|sorted| - 1]) >= key(x)) {
      var init := sorted[..|sorted| - 1];
      forall i | 0 <= i < |init| ensures key(init[i]) >= b {
        assert init[i] == sorted[i];
      }
      InsertKeysAbove(init, x, key, b);
    }
  }

  lemma InsertStops<T>(sorted: seq<T>, x: T, key: T -> int)
    requires sorted == [] || key(sorted[|sorted| - 1]) >= key(x)
    ensures Insert(sorted, x, key) == sorted + [x]
  {
  }

  /** Inserting adds x to the elements and drops none. */
  lemma {:induction false} InsertPermutes<T>(sorted: seq<T>, x: T, key: T -> int)
    ensures multiset(Insert(sorted, x, key)) == multiset(sorted) + multiset{x}
  {
    if !(sorted == [] || key(sorted[|sorted| - 1]) >= key(x)) {
      var init, last := sorted[..|sorted| - 1], sorted[|sorted| - 1];
      assert sorted == init + [last];
      InsertPermutes(init, x, key);
    }
  }

  /** The stable sort into non-increasing key order. */
  function SortDesc<T>(s: seq<T>, key: T -> int): (r: seq<T>)
    ensures |r| == |s|
  {
    if s == [] then [] else Insert(SortDesc(s[..|s| - 1], key), s[|s| - 1], key)
  }

  /** The sort's result is in non-increasing key order. */
  lemma {:induction false} SortDescSorted<T>(s: seq<T>, key: T -> int)
    ensures NonIncreasing(SortDesc(s, key), key)
  {
    if s != [] {
      SortDescSorted(s[..|s| - 1], key);
      InsertSorted(SortDesc(s[..|s| - 1], key), s[|s| - 1], key);
    }
  }

  /** The sort's result is a permutation of its input. */
  lemma {:induction false} SortDescPermutes<T>(s: seq<T>, key: T -> int)
    ensures multiset(SortDesc(s, key)) == multiset(s)
  {
    if s != [] {
      assert s == s[..|s| - 1] + [s[|s| - 1]];
      SortDescPermutes(s[..|s| - 1], key);
      InsertPermutes(SortDesc(s[..|s| - 1], key), s[|s| - 1], key);
    }
  }

  /** The elements whose key is v, in their order in s. */
  function WithKey<T>(s: seq<T>, v: int, key: T -> int): seq<T>
  {
    if s == [] then []
    else WithKey(s[..|s| - 1], v, key) + (if key(s[|s| - 1]) == v then [s[|s| - 1]] else [])
  }

  /** Inserting x puts it after every element of its key already there. */
  lemma {:induction false} InsertWithKey<T>(sorted: seq<T>, x: T, v: int, key: T -> int)
    ensures WithKey(Insert(sorted, x, key), v, key) == WithKey(sorted, v, key) + (if key(x) == v then [x] else [])
  {
    var r := Insert(sorted, x, key);
    if sorted == [] || key(sorted[|sorted| - 1]) >= key(x) {
      assert r[..|r| - 1] == sorted;
    } else {
      var init, last := sorted[..|sorted| - 1], sorted[|sorted| - 1];
      InsertWithKey(init, x, v, key);
      assert r[..|r| - 1] == Insert(init, x, key);
    }
  }

  /** The sort is stable: the elements of any one key keep their input order. */
  lemma {:induction false} SortDescStable<T>(s: seq<T>, v: int, key: T -> int)
    ensures WithKey(SortDesc(s, key), v, key) == WithKey(s, v, key)
  {
    if s != [] {
      SortDescStable(s[..|s| - 1], v, key);
      InsertWithKey(SortDesc(s[..|s| - 1], key), s[|s| - 1], v, key);
    }
  }

  /** A list already in order is left as it is, so sorting twice is sorting
   *  once. */
  lemma {:induction false} SortDescOfSorted<T>(s: seq<T>, key: T -> int)
    requires NonIncreasing(s, key)
    ensures SortDesc(s, key) == s
  {
    if s != [] {
      var init, last := s[..|s| - 1], s[|s| - 1];
      NonIncreasingPrefix(s, |s| - 1, key);
      SortDescOfSorted(init, key);
      assert SortDesc(s, key) == Insert(init, last, key);
      assert init == [] || key(init[|init| - 1]) >= key(last);
      InsertStops(init, last, key);
      assert init + [last] == s;
    }
  }

  lemma NonIncreasingPrefix<T>(s: seq<T>, n: nat, key: T -> int)
    requires NonIncreasing(s, key) && n <= |s|
    ensures NonIncreasing(s[..n], key)
  {
    var p := s[..n];
    forall i, j | 0 <= i < j < |p| ensures key(p[i]) >= key(p[j]) {
      assert p[i] == s[i] && p[j] == s[j];
    }
  }

  lemma SortDescIdempotent<T>(s: seq<T>, key: T -> int)
    ensures SortDesc(SortDesc(s, key), key) == SortDesc(s, key)
  {
    SortDescSorted(s, key);
    SortDescOfSorted(SortDesc(s, key), key);
  }

  /** The sort in place: each element in turn is moved down past the smaller
   *  keys before it. */
  method InsertionSort<T>(a: array<T>, key: T -> int)
    modifies a
    ensures a[..] == SortDesc(old(a[..]), key)
  {
    ghost var s := a[..];
    for i := 0 to a.Length
      invariant a[..i] == SortDesc(s[..i], key)
      invariant a[i..] == s[i..]
    {
      assert a[i] == a[i..][0] == s[i];
      assert a[i + 1..] == a[i..][1..] == s[i + 1..];
      InsertAt(a, i, key);
      SortDescSnoc(s, i, key);
    }
    assert s[..a.Length] == s;
  }

  lemma SortDescSnoc<T>(s: seq<T>, i: nat, key: T -> int)
    requires i < |s|
    ensures SortDesc(s[..i + 1], key) == Insert(SortDesc(s[..i], key), s[i], key)
  {
    assert s[..i + 1][..i] == s[..i];
  }

  /** The inner loop: a[i] moves into the sorted prefix a[..i]. */
  method InsertAt<T>(a: array<T>, i: nat, key: T -> int)
    requires i < a.Length
    modifies a
    ensures a[..i + 1] == Insert(old(a[..i]), old(a[i]), key)
    ensures a[i + 1..] == old(a[i + 1..])
  {
    ghost var prefix := a[..i];
    ghost var before := a[..];
    var x := a[i];
    var j := i;
    while j > 0 && key(a[j - 1]) < key(x)
      invariant 0 <= j <= i
      invariant forall k | 0 <= k < j :: a[k] == prefix[k]
      invariant forall k | j < k <= i :: a[k] == prefix[k - 1]
      invariant forall k | i < k < a.Length :: a[k] == before[k]
      invariant forall k | j <= k < i :: key(prefix[k]) < key(x)
    {
      a[j] := a[j - 1];
      j := j - 1;
    }
    a[j] := x;
    InsertPlace(prefix, x, key, j);
    ghost var inserted := prefix[..j] + [x] + prefix[j..];
    assert forall k | 0 <= k <= i :: a[k] == inserted[k];
    assert a[..i + 1] == inserted;
    assert a[i + 1..] == before[i + 1..];
  }

  /** Where Insert puts x: after the last element whose key is at least key(x). */
  lemma {:induction false} InsertPlace<T>(sorted: seq<T>, x: T, key: T -> int, j: nat)
    requires j <= |sorted| && (j == 0 || key(sorted[j - 1]) >= key(x))
    requires forall k | j <= k < |sorted| :: key(sorted[k]) < key(x)
    ensures Insert(sorted, x, key) == sorted[..j] + [x] + sorted[j..]
    decreases |sorted|
  {
    if j < |sorted| {
      var init := sorted[..|sorted| - 1];
      InsertPlace(init, x, key, j);
      assert init[..j] == sorted[..j];
      assert sorted[j..] == init[j..] + [sorted[|sorted| - 1]];
    } else {
      assert sorted[..j] == sorted;
    }
  }
}
