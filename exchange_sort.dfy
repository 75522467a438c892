/** The exchange sort `createChronologicalPlan` runs over a copied slice:
    for each position `i`, every later element whose key is smaller is
    swapped into `i`.  It is specified by the functions below, which unroll
    the two loops one step at a time, and proved to sort and to permute. */
module ExchangeSort {

  /** The inner loop's step: swap `i` and `j` when `s[i]`'s key is larger. */
  function SwapIf<T>(s: seq<T>, i: nat, j: nat, key: T -> int): (r: seq<T>)
    requires i < j < |s|
    ensures |r| == |s|
  {
    if key(s[i]) > key(s[j]) then s[i := s[j]][j := s[i]] else s
  }

  /** The inner loop from `j` to the end. */
  function InnerFrom<T>(s: seq<T>, i: nat, j: nat, key: T -> int): (r: seq<T>)
    requires i < j <= |s|
    ensures |r| == |s|
    decreases |s| - j
  {
    if j == |s| then s else InnerFrom(SwapIf(s, i, j, key), i, j + 1, key)
  }

  /** The outer loop from `i`; it stops before the last position. */
  function OuterFrom<T>(s: seq<T>, i: nat, key: T -> int): (r: seq<T>)
    requires i <= |s|
    ensures |r| == |s|
    decreases |s| - i
  {
    if i + 1 >= |s| then s else OuterFrom(InnerFrom(s, i, i + 1, key), i + 1, key)
  }

  function ExchangeSorted<T>(s: seq<T>, key: T -> int): (r: seq<T>)
    ensures |r| == |s|
  {
    OuterFrom(s, 0, key)
  }

  predicate SortedBy<T>(s: seq<T>, key: T -> int)
  {
    forall a, b :: 0 <= a < b < |s| ==> key(s[a]) <= key(s[b])
  }

  /** The first `i` positions are in order and no later key is below them. */
  predicate Settled<T>(s: seq<T>, i: nat, key: T -> int)
  {
    && (forall a, b :: 0 <= a < b < i && b < |s| ==> key(s[a]) <= key(s[b]))
    && (forall a, b :: 0 <= a < i <= b < |s| ==> key(s[a]) <= key(s[b]))
  }

  /** Position `i` holds no larger key than positions `i+1 .. j-1`. */
  predicate Scanned<T>(s: seq<T>, i: nat, j: nat, key: T -> int)
    requires i < |s|
  {
    forall k :: i < k < j && k < |s| ==> key(s[i]) <= key(s[k])
  }

  lemma {:induction false} SwapIfKeeps<T>(s: seq<T>, i: nat, j: nat, key: T -> int)
    requires i < j < |s| && Settled(s, i, key) && Scanned(s, i, j, key)
    ensures Settled(SwapIf(s, i, j, key), i, key)
    ensures Scanned(SwapIf(s, i, j, key), i, j + 1, key)
  {
    var r := SwapIf(s, i, j, key);
    forall a, b | 0 <= a < i <= b < |r| ensures key(r[a]) <= key(r[b]) {
      assert r[a] == s[a];
      assert r[b] == s[b] || r[b] == s[i] || r[b] == s[j];
    }
    forall a, b | 0 <= a < b < i && b < |r| ensures key(r[a]) <= key(r[b]) {
      assert r[a] == s[a] && r[b] == s[b];
    }
  }

  lemma {:induction false} InnerSettles<T>(s: seq<T>, i: nat, j: nat, key: T -> int)
    requires i < j <= |s| && Settled(s, i, key) && Scanned(s, i, j, key)
    ensures Settled(InnerFrom(s, i, j, key), i, key)
    ensures Scanned(InnerFrom(s, i, j, key), i, |s|, key)
    decreases |s| - j
  {
    if j < |s| {
      SwapIfKeeps(s, i, j, key);
      InnerSettles(SwapIf(s, i, j, key), i, j + 1, key);
    }
  }

  lemma {:induction false} ScannedSettles<T>(s: seq<T>, i: nat, key: T -> int)
    requires i < |s| && Settled(s, i, key) && Scanned(s, i, |s|, key)
    ensures Settled(s, i + 1, key)
  {
  }

  lemma {:induction false} OuterSorts<T>(s: seq<T>, i: nat, key: T -> int)
    requires i <= |s| && Settled(s, i, key)
    ensures SortedBy(OuterFrom(s, i, key), key)
    decreases |s| - i
  {
    if i + 1 < |s| {
      InnerSettles(s, i, i + 1, key);
      var t := InnerFrom(s, i, i + 1, key);
      ScannedSettles(t, i, key);
      OuterSorts(t, i + 1, key);
    }
  }

  /** The exchange sort puts the keys in non-decreasing order. */
  lemma {:induction false} ExchangeSortedSorted<T>(s: seq<T>, key: T -> int)
    ensures SortedBy(ExchangeSorted(s, key), key)
  {
    OuterSorts(s, 0, key);
  }

  lemma {:induction false} InnerPermutes<T>(s: seq<T>, i: nat, j: nat, key: T -> int)
    requires i < j <= |s|
    ensures multiset(InnerFrom(s, i, j, key)) == multiset(s)
    decreases |s| - j
  {
    if j < |s| {
      InnerPermutes(SwapIf(s, i, j, key), i, j + 1, key);
    }
  }

  lemma {:induction false} OuterPermutes<T>(s: seq<T>, i: nat, key: T -> int)
    requires i <= |s|
    ensures multiset(OuterFrom(s, i, key)) == multiset(s)
    decreases |s| - i
  {
    if i + 1 < |s| {
      InnerPermutes(s, i, i + 1, key);
      OuterPermutes(InnerFrom(s, i, i + 1, key), i + 1, key);
    }
  }

  /** The exchange sort only rearranges its input. */
  lemma {:induction false} ExchangeSortedPermutes<T>(s: seq<T>, key: T -> int)
    ensures multiset(ExchangeSorted(s, key)) == multiset(s)
  {
    OuterPermutes(s, 0, key);
  }

  /** The element the sort puts first has the smallest key of the input. */
  lemma {:induction false} ExchangeSortedFirstIsLeast<T>(s: seq<T>, key: T -> int)
    requires |s| > 0
    ensures forall k :: 0 <= k < |s| ==> key(ExchangeSorted(s, key)[0]) <= key(s[k])
  {
    var r := ExchangeSorted(s, key);
    ExchangeSortedSorted(s, key);
    ExchangeSortedPermutes(s, key);
    forall k | 0 <= k < |s| ensures key(r[0]) <= key(s[k]) {
      assert s[k] in multiset(r);
      var m :| 0 <= m < |r| && r[m] == s[k];
    }
  }

  /** The nested swap loops over an array: afterwards the array holds the
      exchange-sorted arrangement of its old contents. */
  method SortByKey<T>(a: array<T>, key: T -> int)
    modifies a
    ensures a[..] == ExchangeSorted(old(a[..]), key)
  {
    var n := a.Length;
    var i := 0;
    while i < n - 1
      invariant 0 <= i <= n
      invariant OuterFrom(a[..], i, key) == ExchangeSorted(old(a[..]), key)
    {
      ghost var start := a[..];
      var j := i + 1;
      while j < n
        invariant i < j <= n
        invariant InnerFrom(a[..], i, j, key) == InnerFrom(start, i, i + 1, key)
      {
        if key(a[i]) > key(a[j]) {
          a[i], a[j] := a[j], a[i];
        }
        j := j + 1;
      }
      i := i + 1;
    }
  }
}
