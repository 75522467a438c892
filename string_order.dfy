/** Go's ordering of strings (`<` on string, `slices.Sort`, `sort.Strings`):
    lexicographic on the encoded bytes.  Characters here are code points,
    and UTF-8 preserves code-point order, so comparing code points gives
    the same order. */
module StringOrder {

  /** `a < b` on Go strings. */
  predicate StrLess(a: string, b: string)
    decreases |a|
  {
    if |a| == 0 then |b| > 0
    else if |b| == 0 then false
    else if a[0] != b[0] then a[0] < b[0]
    else StrLess(a[1..], b[1..])
  }

  /** `a <= b` on Go strings. */
  predicate StrLeq(a: string, b: string)
  {
    !StrLess(b, a)
  }

  lemma {:induction false} StrLessIrreflexive(a: string)
    ensures !StrLess(a, a)
    decreases |a|
  {
    if |a| > 0 {
      StrLessIrreflexive(a[1..]);
    }
  }

  lemma {:induction false} StrLessTransitive(a: string, b: string, c: string)
    requires StrLess(a, b) && StrLess(b, c)
    ensures StrLess(a, c)
    decreases |a|
  {
    if |a| > 0 && |b| > 0 && |c| > 0 && a[0] == b[0] && b[0] == c[0] {
      StrLessTransitive(a[1..], b[1..], c[1..]);
    }
  }

  /** Any two strings are equal or ordered one way. */
  lemma {:induction false} StrLessTotal(a: string, b: string)
    ensures a == b || StrLess(a, b) || StrLess(b, a)
    decreases |a|
  {
    if |a| > 0 && |b| > 0 && a[0] == b[0] {
      StrLessTotal(a[1..], b[1..]);
      if a[1..] == b[1..] {
        assert a == [a[0]] + a[1..] && b == [b[0]] + b[1..];
      }
    }
  }

  /** At most one direction holds. */
  lemma {:induction false} StrLessAsymmetric(a: string, b: string)
    requires StrLess(a, b)
    ensures !StrLess(b, a)
  {
    if StrLess(b, a) {
      StrLessTransitive(a, b, a);
      StrLessIrreflexive(a);
    }
  }

  lemma {:induction false} StrLeqTransitive(a: string, b: string, c: string)
    requires StrLeq(a, b) && StrLeq(b, c)
    ensures StrLeq(a, c)
  {
    StrLessTotal(a, b);
    StrLessTotal(b, c);
    if StrLess(c, a) && a != b {
      StrLessTransitive(c, a, b);
    }
  }

  lemma {:induction false} StrLeqAntisymmetric(a: string, b: string)
    requires StrLeq(a, b) && StrLeq(b, a)
    ensures a == b
  {
    StrLessTotal(a, b);
  }

  // --------------------------------------------------------------- sorting

  predicate SortedStrings(s: seq<string>)
  {
    forall i, j :: 0 <= i < j < |s| ==> StrLeq(s[i], s[j])
  }

  function InsertString(x: string, s: seq<string>): (r: seq<string>)
    requires SortedStrings(s)
    ensures SortedStrings(r)
    ensures multiset(r) == multiset(s) + multiset{x}
    ensures |r| == |s| + 1
    ensures r[0] == x || (|s| > 0 && r[0] == s[0])
    decreases |s|
  {
    if |s| == 0 || StrLeq(x, s[0]) then
      assert forall j :: 0 <= j < |s| ==> StrLeq(x, s[j]) by {
        forall j | 0 <= j < |s| ensures StrLeq(x, s[j]) {
          if j > 0 {
            StrLeqTransitive(x, s[0], s[j]);
          }
        }
      }
      [x] + s
    else
      var rest := InsertString(x, s[1..]);
      assert s == [s[0]] + s[1..];
      StrLessTotal(x, s[0]);
      StrLessAsymmetric(s[0], x);
      assert StrLeq(s[0], rest[0]);
      assert forall j :: 0 <= j < |rest| ==> StrLeq(s[0], rest[j]) by {
        forall j | 0 <= j < |rest| ensures StrLeq(s[0], rest[j]) {
          if j > 0 {
            StrLeqTransitive(s[0], rest[0], rest[j]);
          }
        }
      }
      assert multiset([s[0]] + rest) == multiset{s[0]} + multiset(rest);
      [s[0]] + rest
  }

  /** `slices.Sort` on strings, as an insertion sort. */
  function SortStrings(s: seq<string>): (r: seq<string>)
    ensures SortedStrings(r)
    ensures multiset(r) == multiset(s)
    ensures |r| == |s|
    decreases |s|
  {
    if |s| == 0 then []
    else
      assert s == [s[0]] + s[1..];
      InsertString(s[0], SortStrings(s[1..]))
  }

  /** Two sorted arrangements of the same strings start alike. */
  lemma {:induction false} SortedSameHead(a: seq<string>, b: seq<string>)
    requires SortedStrings(a) && SortedStrings(b)
    requires multiset(a) == multiset(b) && |a| > 0
    ensures |b| > 0 && a[0] == b[0]
  {
    assert a[0] in multiset(b);
    var k :| 0 <= k < |b| && b[k] == a[0];
    assert b[0] in multiset(a);
    var m :| 0 <= m < |a| && a[m] == b[0];
    StrLessIrreflexive(a[0]);
    assert StrLeq(a[0], a[m]);
    assert StrLeq(b[0], b[k]);
    StrLeqAntisymmetric(a[0], b[0]);
  }

  lemma {:induction false} TailStringMultiset(a: seq<string>)
    requires |a| > 0
    ensures multiset(a[1..]) == multiset(a) - multiset{a[0]}
  {
    assert a == [a[0]] + a[1..];
  }

  /** A multiset of strings has exactly one sorted arrangement. */
  lemma {:induction false} SortedStringsUnique(a: seq<string>, b: seq<string>)
    requires SortedStrings(a) && SortedStrings(b)
    requires multiset(a) == multiset(b)
    ensures a == b
    decreases |a|
  {
    assert |a| == |multiset(a)| == |multiset(b)| == |b|;
    if |a| > 0 {
      SortedSameHead(a, b);
      TailStringMultiset(a);
      TailStringMultiset(b);
      SortedStringsUnique(a[1..], b[1..]);
      assert a == [a[0]] + a[1..];
      assert b == [b[0]] + b[1..];
    }
  }

  /** Sorting gives equal results exactly for equal multisets. */
  lemma {:induction false} SortEqualIff(a: seq<string>, b: seq<string>)
    ensures SortStrings(a) == SortStrings(b) <==> multiset(a) == multiset(b)
  {
    if multiset(a) == multiset(b) {
      SortedStringsUnique(SortStrings(a), SortStrings(b));
    }
  }

  /** Sorting a sorted sequence changes nothing. */
  lemma {:induction false} SortSorted(s: seq<string>)
    requires SortedStrings(s)
    ensures SortStrings(s) == s
  {
    SortedStringsUnique(SortStrings(s), s);
  }
}
