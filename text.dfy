/** String helpers with the semantics of the Go standard library functions
    (and the few Python `str` methods) the system relies on.  A `string` is a
    sequence of Unicode code points; Go's byte length is `Utf8Len`.  Case
    mapping covers ASCII letters only. */
module Text {

  // ---------------------------------------------------------------- chars

  predicate IsDigit(c: char) { '0' <= c <= '9' }
  predicate IsUpper(c: char) { 'A' <= c <= 'Z' }
  predicate IsLower(c: char) { 'a' <= c <= 'z' }
  predicate IsLetter(c: char) { IsUpper(c) || IsLower(c) }
  predicate IsAlnum(c: char) { IsLetter(c) || IsDigit(c) }
  predicate IsAscii(c: char) { c as int < 0x80 }

  /** Go's `unicode.IsSpace`. */
  predicate GoIsSpace(c: char)
  {
    c == '\t' || c == '\n' || c == '\U{0B}' || c == '\U{0C}' || c == '\r' || c == ' '
    || c == '\U{85}' || c == '\U{A0}' || c == '\U{1680}' || ('\U{2000}' <= c <= '\U{200A}')
    || c == '\U{2028}' || c == '\U{2029}' || c == '\U{202F}' || c == '\U{205F}' || c == '\U{3000}'
  }

  /** Python's `str.isspace` on one character: Go's set plus the four
      information separators U+001C..U+001F. */
  predicate PyIsSpace(c: char)
  {
    GoIsSpace(c) || ('\U{1C}' <= c <= '\U{1F}')
  }

  /** Go's `unicode.IsControl`: C0 controls, DEL and C1 controls. */
  predicate GoIsControl(c: char)
  {
    c as int <= 0x1F || (0x7F <= c as int <= 0x9F)
  }

  /** RE2's `\s` class: `[\t\n\f\r ]`. */
  predicate ReSpace(c: char)
  {
    c == '\t' || c == '\n' || c == '\U{0C}' || c == '\r' || c == ' '
  }

  function LowerChar(c: char): (r: char)
    ensures !IsUpper(r)
    ensures IsUpper(c) ==> r as int == c as int + 32
    ensures !IsUpper(c) ==> r == c
  {
    if IsUpper(c) then (c as int + 32) as char else c
  }

  /** Go's `strings.ToLower`, restricted to ASCII case mapping. */
  function ToLower(s: string): (r: string)
    ensures |r| == |s|
    ensures forall i :: 0 <= i < |s| ==> r[i] == LowerChar(s[i])
  {
    seq(|s|, i requires 0 <= i < |s| => LowerChar(s[i]))
  }

  lemma {:induction false} ToLowerAppend(a: string, b: string)
    ensures ToLower(a + b) == ToLower(a) + ToLower(b)
  {
  }

  /** Lowering twice is lowering once. */
  lemma {:induction false} ToLowerIdempotent(s: string)
    ensures ToLower(ToLower(s)) == ToLower(s)
  {
  }

  // ------------------------------------------------------ UTF-8 byte length

  function RuneLen(c: char): (n: nat)
    ensures 1 <= n <= 4
    ensures n == 1 <==> IsAscii(c)
  {
    if c as int < 0x80 then 1
    else if c as int < 0x800 then 2
    else if c as int < 0x10000 then 3
    else 4
  }

  /** Go's `len(s)` on a string: the number of bytes of its UTF-8 encoding. */
  function Utf8Len(s: string): (n: nat)
    ensures n >= |s|
    decreases |s|
  {
    if |s| == 0 then 0 else RuneLen(s[0]) + Utf8Len(s[1..])
  }

  lemma {:induction false} Utf8LenAscii(s: string)
    requires forall i :: 0 <= i < |s| ==> IsAscii(s[i])
    ensures Utf8Len(s) == |s|
    decreases |s|
  {
    if |s| > 0 {
      Utf8LenAscii(s[1..]);
    }
  }

  lemma {:induction false} Utf8LenAppend(a: string, b: string)
    ensures Utf8Len(a + b) == Utf8Len(a) + Utf8Len(b)
    decreases |a|
  {
    if |a| > 0 {
      assert (a + b)[0] == a[0] && (a + b)[1..] == a[1..] + b;
      Utf8LenAppend(a[1..], b);
      assert Utf8Len(a + b) == RuneLen(a[0]) + Utf8Len(a[1..] + b);
    } else {
      assert a + b == b;
    }
  }

  // ------------------------------------------------------------ substrings

  predicate HasPrefix(s: string, p: string) { |p| <= |s| && s[..|p|] == p }
  predicate HasSuffix(s: string, p: string) { |p| <= |s| && s[|s| - |p|..] == p }

  /** `sub` occurs in `s` at position `i`. */
  predicate MatchAt(s: string, sub: string, i: int)
  {
    0 <= i && i + |sub| <= |s| && s[i..i + |sub|] == sub
  }

  /** Go's `strings.Contains`; the empty string is contained in everything. */
  predicate Contains(s: string, sub: string)
  {
    exists i | 0 <= i <= |s| - |sub| :: MatchAt(s, sub, i)
  }

  /** The first position at or after `from` where `sub` occurs, or -1. */
  function IndexFrom(s: string, sub: string, from: nat): (r: int)
    requires from <= |s|
    ensures r == -1 || (from <= r && MatchAt(s, sub, r))
    ensures r == -1 ==> forall j :: from <= j <= |s| - |sub| ==> !MatchAt(s, sub, j)
    ensures r >= 0 ==> forall j :: from <= j < r ==> !MatchAt(s, sub, j)
    decreases |s| - from
  {
    if from + |sub| > |s| then -1
    else if s[from..from + |sub|] == sub then from
    else if from == |s| then -1
    else IndexFrom(s, sub, from + 1)
  }

  /** A one-character string is contained exactly when the character is. */
  lemma {:induction false} ContainsChar(s: string, c: char)
    ensures Contains(s, [c]) <==> c in s
  {
    if c in s {
      var i :| 0 <= i < |s| && s[i] == c;
      assert MatchAt(s, [c], i);
    }
    if Contains(s, [c]) {
      var i :| 0 <= i <= |s| - 1 && MatchAt(s, [c], i);
      assert s[i] == s[i..i + 1][0];
    }
  }

  /** A string that lacks the first character of `sub` does not contain it. */
  lemma {:induction false} AbsentNotContained(s: string, sub: string)
    requires |sub| > 0 && sub[0] !in s
    ensures !Contains(s, sub)
  {
    forall i | 0 <= i <= |s| - |sub| ensures !MatchAt(s, sub, i) {
      assert s[i..i + |sub|][0] == s[i];
    }
  }

  /** What occurs in the tail occurs in the whole. */
  lemma {:induction false} ContainsInSuffix(pre: string, s: string, sub: string)
    requires Contains(s, sub)
    ensures Contains(pre + s, sub)
  {
    var i :| 0 <= i <= |s| - |sub| && MatchAt(s, sub, i);
    assert (pre + s)[|pre| + i..|pre| + i + |sub|] == s[i..i + |sub|];
    assert MatchAt(pre + s, sub, |pre| + i);
  }

  /** A string that lacks `p` lacks everything that starts with `p`. */
  lemma {:induction false} NotContainsExtension(s: string, p: string, sub: string)
    requires !Contains(s, p) && HasPrefix(sub, p)
    ensures !Contains(s, sub)
  {
    forall i | 0 <= i <= |s| - |sub| ensures !MatchAt(s, sub, i) {
      assert !MatchAt(s, p, i);
      assert s[i..i + |p|] == s[i..i + |sub|][..|p|];
    }
  }

  /** Go's `strings.Index`. */
  function Index(s: string, sub: string): (r: int)
    ensures r == -1 || MatchAt(s, sub, r)
    ensures r >= 0 <==> Contains(s, sub)
    ensures r >= 0 ==> forall j :: 0 <= j < r ==> !MatchAt(s, sub, j)
  {
    IndexFrom(s, sub, 0)
  }

  /** Go's `strings.ReplaceAll(s, pat, rep)` for a non-empty `pat`:
      leftmost, non-overlapping replacement. */
  function ReplaceAll(s: string, pat: string, rep: string): (r: string)
    requires |pat| > 0
    decreases |s|
  {
    if |s| < |pat| then s
    else if s[..|pat|] == pat then rep + ReplaceAll(s[|pat|..], pat, rep)
    else [s[0]] + ReplaceAll(s[1..], pat, rep)
  }

  /** Replacing a pattern that does not occur changes nothing. */
  lemma {:induction false} ReplaceAbsent(s: string, pat: string, rep: string)
    requires |pat| > 0 && !Contains(s, pat)
    ensures ReplaceAll(s, pat, rep) == s
    decreases |s|
  {
    if |s| >= |pat| {
      assert !MatchAt(s, pat, 0);
      var tail := s[1..];
      forall j | 0 <= j <= |tail| - |pat| ensures !MatchAt(tail, pat, j) {
        assert tail[j..j + |pat|] == s[j + 1..j + 1 + |pat|];
        assert !MatchAt(s, pat, j + 1);
      }
      ReplaceAbsent(tail, pat, rep);
      assert [s[0]] + tail == s;
    }
  }

  /** Replacing one character by another distributes over concatenation. */
  lemma {:induction false} ReplaceAllCharConcat(a: string, b: string, c: char, d: char)
    ensures ReplaceAll(a + b, [c], [d]) == ReplaceAll(a, [c], [d]) + ReplaceAll(b, [c], [d])
  {
    ReplaceAllChar(a + b, c, d);
    ReplaceAllChar(a, c, d);
    ReplaceAllChar(b, c, d);
  }

  /** Removing every occurrence of a one-character string leaves no such
      character and keeps all others, in order. */
  function RemoveChar(s: string, c: char): (r: string)
    ensures c !in r
    ensures forall x :: x in r <==> x in s && x != c
    ensures |r| <= |s|
    ensures c !in s ==> r == s
    decreases |s|
  {
    if |s| == 0 then ""
    else if s[0] == c then RemoveChar(s[1..], c)
    else [s[0]] + RemoveChar(s[1..], c)
  }

  /** Replacing one character by another keeps every position. */
  lemma {:induction false} ReplaceAllChar(s: string, c: char, d: char)
    ensures var r := ReplaceAll(s, [c], [d]);
      |r| == |s| && forall i :: 0 <= i < |s| ==> r[i] == (if s[i] == c then d else s[i])
    decreases |s|
  {
    if |s| >= 1 {
      ReplaceAllChar(s[1..], c, d);
      assert s[..1] == [c] <==> s[0] == c;
    }
  }

  /** The characters of `s` that satisfy `keep`, in order. */
  function Filter(s: string, keep: char -> bool): (r: string)
    ensures |r| <= |s|
    ensures forall i :: 0 <= i < |r| ==> keep(r[i]) && r[i] in s
    ensures (forall i :: 0 <= i < |s| ==> keep(s[i])) ==> r == s
    decreases |s|
  {
    if |s| == 0 then ""
    else (if keep(s[0]) then [s[0]] else "") + Filter(s[1..], keep)
  }

  lemma {:induction false} FilterAppend(s: string, c: char, keep: char -> bool)
    ensures Filter(s + [c], keep) == Filter(s, keep) + (if keep(c) then [c] else "")
    decreases |s|
  {
    if |s| == 0 {
      assert s + [c] == [c];
    } else {
      assert (s + [c])[1..] == s[1..] + [c];
      FilterAppend(s[1..], c, keep);
    }
  }

  /** Filtering distributes over concatenation. */
  lemma {:induction false} FilterConcat(a: string, b: string, keep: char -> bool)
    ensures Filter(a + b, keep) == Filter(a, keep) + Filter(b, keep)
    decreases |a|
  {
    if |a| == 0 {
      assert a + b == b;
    } else {
      var head := if keep(a[0]) then [a[0]] else "";
      var t := a[1..] + b;
      assert (a + b)[0] == a[0] && (a + b)[1..] == t;
      FilterConcat(a[1..], b, keep);
      calc {
        Filter(a + b, keep);
        head + Filter(t, keep);
        head + (Filter(a[1..], keep) + Filter(b, keep));
        (head + Filter(a[1..], keep)) + Filter(b, keep);
      }
    }
  }

  /** The builder loop of the sanitisers and of the slug: append every rune
      of `s` that `keep` accepts. */
  method KeepRunes(s: string, keep: char -> bool) returns (r: string)
    ensures r == Filter(s, keep)
  {
    r := "";
    for i := 0 to |s|
      invariant r == Filter(s[..i], keep)
    {
      FilterAppend(s[..i], s[i], keep);
      assert s[..i + 1] == s[..i] + [s[i]];
      if keep(s[i]) {
        r := r + [s[i]];
      }
    }
    assert s[..|s|] == s;
  }

  lemma {:induction false} ReplaceAllCharIsRemove(s: string, c: char)
    ensures ReplaceAll(s, [c], "") == RemoveChar(s, c)
    decreases |s|
  {
    if |s| > 0 {
      ReplaceAllCharIsRemove(s[1..], c);
    }
  }

  // ------------------------------------------------------- split and join

  /** Go's `strings.Split(s, sep)` for a one-character separator; the empty
      string splits into one empty part. */
  function Split(s: string, sep: char): (parts: seq<string>)
    ensures |parts| >= 1
    decreases |s|
  {
    if |s| == 0 then [""]
    else
      var rest := Split(s[1..], sep);
      if s[0] == sep then [""] + rest else [[s[0]] + rest[0]] + rest[1..]
  }

  /** Go's `strings.Join`. */
  function Join(parts: seq<string>, sep: string): (r: string)
    decreases |parts|
  {
    if |parts| == 0 then ""
    else if |parts| == 1 then parts[0]
    else parts[0] + sep + Join(parts[1..], sep)
  }

  /** One turn of a loop that joins parts: a separator before every part
      but the first, then the part. */
  lemma {:induction false} JoinStep(parts: seq<string>, sep: string, i: nat, r: string)
    requires i < |parts|
    requires i == 0 ==> r == ""
    requires i > 0 ==> r == Join(parts[..i], sep)
    ensures (if i > 0 then r + sep else r) + parts[i] == Join(parts[..i + 1], sep)
  {
    if i > 0 {
      assert parts[..i + 1] == parts[..i] + [parts[i]];
      JoinSnoc(parts[..i], sep, parts[i]);
    } else {
      assert parts[..1] == [parts[0]];
    }
  }

  /** Appending a part appends the separator and the part. */
  lemma {:induction false} JoinSnoc(parts: seq<string>, sep: string, p: string)
    requires |parts| >= 1
    ensures Join(parts + [p], sep) == Join(parts, sep) + sep + p
    decreases |parts|
  {
    if |parts| == 1 {
      assert (parts + [p])[1..] == [p];
    } else {
      assert (parts + [p])[1..] == parts[1..] + [p];
      JoinSnoc(parts[1..], sep, p);
    }
  }

  /** Every part occurs in the join. */
  lemma {:induction false} JoinContainsPart(parts: seq<string>, sep: string, i: nat)
    requires i < |parts|
    ensures Contains(Join(parts, sep), parts[i])
    decreases |parts|
  {
    var j := Join(parts, sep);
    if i == 0 {
      assert MatchAt(j, parts[0], 0);
    } else {
      JoinContainsPart(parts[1..], sep, i - 1);
      assert parts[1..][i - 1] == parts[i];
      assert j == (parts[0] + sep) + Join(parts[1..], sep);
      ContainsInSuffix(parts[0] + sep, Join(parts[1..], sep), parts[i]);
    }
  }

  /** Every character of a join comes from the separator or from a part. */
  lemma {:induction false} JoinMembers(parts: seq<string>, sep: string, c: char)
    requires c in Join(parts, sep)
    ensures c in sep || exists i :: 0 <= i < |parts| && c in parts[i]
    decreases |parts|
  {
    if |parts| > 1 && c !in parts[0] && c !in sep {
      JoinMembers(parts[1..], sep, c);
      var i :| 0 <= i < |parts| - 1 && c in parts[1..][i];
      assert c in parts[i + 1];
    }
  }

  /** A character in neither the separator nor any part is not in the join. */
  lemma {:induction false} JoinAvoids(parts: seq<string>, sep: string, c: char)
    requires c !in sep
    requires forall i :: 0 <= i < |parts| ==> c !in parts[i]
    ensures c !in Join(parts, sep)
    decreases |parts|
  {
    if |parts| > 1 {
      JoinAvoids(parts[1..], sep, c);
      assert c !in parts[0];
    }
  }

  /** Concatenation is associative. */
  lemma {:induction false} AppendAssoc<T>(a: seq<T>, b: seq<T>, c: seq<T>)
    ensures (a + b) + c == a + (b + c)
  {
  }

  lemma {:induction false} SplitNoSep(p: string, sep: char)
    requires sep !in p
    ensures Split(p, sep) == [p]
    decreases |p|
  {
    if |p| > 0 {
      SplitNoSep(p[1..], sep);
      assert [p[0]] + p[1..] == p;
    }
  }

  lemma {:induction false} SplitCons(p: string, sep: char, rest: string)
    requires sep !in p
    ensures Split(p + [sep] + rest, sep) == [p] + Split(rest, sep)
    decreases |p|
  {
    if |p| > 0 {
      var whole := p + [sep] + rest;
      assert whole[0] == p[0] && whole[1..] == p[1..] + [sep] + rest;
      SplitCons(p[1..], sep, rest);
      assert [p[0]] + p[1..] == p;
    } else {
      assert (p + [sep] + rest)[1..] == rest;
    }
  }

  /** Every character other than the separator lies in some part. */
  lemma {:induction false} SplitMembers(s: string, sep: char, k: nat)
    requires k < |s| && s[k] != sep
    ensures exists i :: 0 <= i < |Split(s, sep)| && s[k] in Split(s, sep)[i]
    decreases |s|
  {
    var parts := Split(s, sep);
    var rest := Split(s[1..], sep);
    if k == 0 {
      assert s[0] in parts[0];
    } else {
      SplitMembers(s[1..], sep, k - 1);
      var i :| 0 <= i < |rest| && s[1..][k - 1] in rest[i];
      if s[0] == sep {
        assert parts[i + 1] == rest[i];
      } else if i == 0 {
        assert parts[0] == [s[0]] + rest[0];
      } else {
        assert parts[i] == rest[i];
      }
    }
  }

  /** Splitting a join undoes it when no part contains the separator. */
  lemma {:induction false} SplitJoin(parts: seq<string>, sep: char)
    requires |parts| >= 1
    requires forall i :: 0 <= i < |parts| ==> sep !in parts[i]
    ensures Split(Join(parts, [sep]), sep) == parts
    decreases |parts|
  {
    if |parts| == 1 {
      SplitNoSep(parts[0], sep);
    } else {
      assert forall i :: 0 <= i < |parts| - 1 ==> sep !in parts[1..][i] by {
        forall i | 0 <= i < |parts| - 1 ensures sep !in parts[1..][i] {
          assert parts[1..][i] == parts[i + 1];
        }
      }
      SplitJoin(parts[1..], sep);
      assert Join(parts, [sep]) == parts[0] + [sep] + Join(parts[1..], [sep]);
      SplitCons(parts[0], sep, Join(parts[1..], [sep]));
      assert parts == [parts[0]] + parts[1..];
    }
  }

  // -------------------------------------------------------------- trimming

  /** Go's `strings.TrimLeftFunc`. */
  function TrimLeftBy(s: string, cut: char -> bool): (r: string)
    ensures |r| <= |s| && r == s[|s| - |r|..]
    ensures r == "" <==> forall i :: 0 <= i < |s| ==> cut(s[i])
    ensures |r| > 0 ==> !cut(r[0])
    ensures forall i :: 0 <= i < |s| - |r| ==> cut(s[i])
    decreases |s|
  {
    if |s| > 0 && cut(s[0]) then
      var t := TrimLeftBy(s[1..], cut);
      assert s[1..][|s| - 1 - |t|..] == s[|s| - |t|..];
      assert forall i :: 1 <= i < |s| - |t| ==> s[i] == s[1..][i - 1];
      t
    else s
  }

  /** Go's `strings.TrimRightFunc`. */
  function TrimRightBy(s: string, cut: char -> bool): (r: string)
    ensures |r| <= |s| && r == s[..|r|]
    ensures r == "" <==> forall i :: 0 <= i < |s| ==> cut(s[i])
    ensures |r| > 0 ==> !cut(r[|r| - 1])
    ensures forall i :: |r| <= i < |s| ==> cut(s[i])
    decreases |s|
  {
    if |s| > 0 && cut(s[|s| - 1]) then TrimRightBy(s[..|s| - 1], cut) else s
  }

  /** Go's `strings.TrimFunc`. */
  function TrimBy(s: string, cut: char -> bool): (r: string)
    ensures |r| <= |s|
    ensures r == "" <==> forall i :: 0 <= i < |s| ==> cut(s[i])
    ensures |r| > 0 ==> !cut(r[0]) && !cut(r[|r| - 1])
  {
    TrimRightBy(TrimLeftBy(s, cut), cut)
  }

  /** Trimming only removes characters. */
  lemma {:induction false} TrimByMembers(s: string, cut: char -> bool)
    ensures forall i :: 0 <= i < |TrimBy(s, cut)| ==> TrimBy(s, cut)[i] in s
  {
    var r := TrimBy(s, cut);
    var a := TrimByOffset(s, cut);
    forall i | 0 <= i < |r| ensures r[i] in s {
      assert r[i] == s[a + i];
    }
  }

  /** Some character is not white space. */
  predicate NonBlank(s: string) { exists i :: 0 <= i < |s| && !GoIsSpace(s[i]) }

  /** Trimming leaves a contiguous run of the input. */
  lemma {:induction false} TrimByOffset(s: string, cut: char -> bool) returns (a: nat)
    ensures a + |TrimBy(s, cut)| <= |s|
    ensures forall i :: 0 <= i < |TrimBy(s, cut)| ==> TrimBy(s, cut)[i] == s[a + i]
  {
    var l := TrimLeftBy(s, cut);
    a := |s| - |l|;
    assert l == s[a..];
    assert TrimBy(s, cut) == l[..|TrimBy(s, cut)|];
  }

  /** Trimming a string whose ends are kept changes nothing. */
  lemma {:induction false} TrimByKeeps(s: string, cut: char -> bool)
    requires |s| > 0 ==> !cut(s[0]) && !cut(s[|s| - 1])
    ensures TrimBy(s, cut) == s
  {
    assert TrimLeftBy(s, cut) == s;
  }

  /** Trimming keeps a prefix whose first and last characters are kept. */
  lemma {:induction false} TrimKeepsPrefix(s: string, pre: string, cut: char -> bool)
    requires |pre| > 0 && HasPrefix(s, pre) && !cut(pre[0]) && !cut(pre[|pre| - 1])
    ensures HasPrefix(TrimBy(s, cut), pre)
  {
    assert s[0] == s[..|pre|][0];
    assert TrimLeftBy(s, cut) == s;
    var r := TrimRightBy(s, cut);
    assert s[|pre| - 1] == s[..|pre|][|pre| - 1];
    assert |r| >= |pre|;
    assert r[..|pre|] == s[..|pre|];
  }

  /** Go's `strings.TrimSpace`. */
  function TrimSpace(s: string): (r: string)
    ensures |r| <= |s|
    ensures r == "" <==> forall i :: 0 <= i < |s| ==> GoIsSpace(s[i])
    ensures |r| > 0 ==> !GoIsSpace(r[0]) && !GoIsSpace(r[|r| - 1])
  {
    TrimBy(s, GoIsSpace)
  }

  // -------------------------------------------------------------- numbers

  const MaxInt64: int := 0x7FFF_FFFF_FFFF_FFFF
  const MinInt64: int := -0x8000_0000_0000_0000

  predicate AllDigits(s: string) { forall i :: 0 <= i < |s| ==> IsDigit(s[i]) }

  function DigitChar(d: nat): (c: char)
    requires d < 10
    ensures IsDigit(c) && c as int - '0' as int == d
  {
    ('0' as int + d) as char
  }

  /** The value of a string of decimal digits (most significant first). */
  function DigitsValue(s: string): (n: nat)
    requires AllDigits(s)
    decreases |s|
  {
    if |s| == 0 then 0
    else DigitsValue(s[..|s| - 1]) * 10 + (s[|s| - 1] as int - '0' as int)
  }

  /** The decimal representation of a natural number, without leading zeros. */
  function Decimal(n: nat): (r: string)
    ensures |r| >= 1 && AllDigits(r)
    ensures |r| > 1 ==> r[0] != '0'
    ensures DigitsValue(r) == n
    decreases n
  {
    if n < 10 then [DigitChar(n)]
    else
      var r := Decimal(n / 10) + [DigitChar(n % 10)];
      assert r[..|r| - 1] == Decimal(n / 10);
      r
  }

  /** Go's `%d` on an int. */
  function FormatInt(n: int): (r: string)
    ensures |r| >= 1
  {
    if n < 0 then "-" + Decimal(-n) else Decimal(n)
  }

  /** A leading zero does not change the value of a digit string. */
  lemma {:induction false} DigitsValueLeadingZero(s: string)
    requires AllDigits(s)
    ensures AllDigits("0" + s) && DigitsValue("0" + s) == DigitsValue(s)
    decreases |s|
  {
    if |s| > 0 {
      var t := "0" + s;
      assert t[..|t| - 1] == "0" + s[..|s| - 1];
      DigitsValueLeadingZero(s[..|s| - 1]);
    }
  }

  /** The outcome of Go's `strconv.Atoi`. */
  datatype AtoiError = InvalidSyntax | OutOfRange

  /** Go's `strconv.Atoi`: an optional sign then one or more ASCII digits;
      a value outside the 64-bit range is a range error. */
  function Atoi(s: string): (r: AtoiResult)
    ensures r.AtoiOk? ==> MinInt64 <= r.value <= MaxInt64
  {
    var neg := |s| > 0 && s[0] == '-';
    var body := if |s| > 0 && (s[0] == '-' || s[0] == '+') then s[1..] else s;
    if |body| == 0 || !AllDigits(body) then AtoiErr(InvalidSyntax)
    else
      var v: int := if neg then 0 - DigitsValue(body) else DigitsValue(body) as int;
      if v < MinInt64 || v > MaxInt64 then AtoiErr(OutOfRange) else AtoiOk(v)
  }

  datatype AtoiResult = AtoiOk(value: int) | AtoiErr(err: AtoiError)

  /** The value `strconv.Atoi` returns when its error is ignored: on a range
      error it returns the nearest 64-bit bound (only digit strings reach it). */
  function AtoiIgnoringError(digits: string): (n: int)
    requires |digits| > 0 && AllDigits(digits)
    ensures n == if DigitsValue(digits) > MaxInt64 then MaxInt64 else DigitsValue(digits)
  {
    match Atoi(digits)
    case AtoiOk(v) => v
    case AtoiErr(_) => MaxInt64
  }

  /** On a plain digit string, Atoi gives its value, or a range error when
      the value does not fit in 64 bits. */
  lemma {:induction false} AtoiDigits(s: string)
    requires |s| > 0 && AllDigits(s)
    ensures Atoi(s) == if DigitsValue(s) <= MaxInt64 then AtoiOk(DigitsValue(s)) else AtoiErr(OutOfRange)
  {
    assert IsDigit(s[0]);
  }

  /** Atoi reads back every `%d`-formatted non-negative 64-bit value, with or
      without one leading zero. */
  lemma {:induction false} AtoiDecimal(n: nat)
    requires n <= MaxInt64
    ensures Atoi(Decimal(n)) == AtoiOk(n)
    ensures Atoi("0" + Decimal(n)) == AtoiOk(n)
  {
    DigitsValueLeadingZero(Decimal(n));
  }

  /** "name[i]", the field name of the i-th element of a list. */
  function IndexedField(name: string, i: int): (f: string)
    ensures HasPrefix(f, name + "[") && HasSuffix(f, "]")
  {
    var f := name + "[" + FormatInt(i) + "]";
    assert f[..|name + "["|] == name + "[";
    f
  }
}
