/** Hierarchical task identifiers (internal/core/id.go): a task ID is a
    sequence of integer segments, printed zero-padded and dot-separated
    ("01.02.03"), with the file-name form prefixed by "T" ("T01.02.03"). */
module TaskIds {
  import opened Wrappers
  import opened Text

  const TaskIDPrefix: string := "T"

  datatype TaskID = TaskID(seg: seq<int>)

  /** The ID of "no task", used as the parent of top-level tasks. */
  const ZeroTaskID: TaskID := TaskID([])

  predicate IsZero(t: TaskID) { |t.seg| == 0 }

  /** Why a segment failed to parse: the ID with its "T" removed, the
      offending part and the `strconv.Atoi` failure. */
  datatype ParseError = InvalidSegment(id: string, part: string, cause: AtoiError)

  /** The text of the error `parseTaskID` returns (without Go's `%q` escaping
      of the quoted ID and part). */
  function ParseErrorMessage(e: ParseError): (msg: string)
    ensures HasPrefix(msg, "invalid segment in task ID ")
  {
    "invalid segment in task ID \"" + e.id + "\": strconv.Atoi: parsing \"" + e.part + "\": "
    + (if e.cause == InvalidSyntax then "invalid syntax" else "value out of range")
  }

  /** The ID text with one optional leading "T" removed. */
  function StripPrefix(id: string): (body: string)
    ensures body == id || (HasPrefix(id, TaskIDPrefix) && body == id[1..])
  {
    if HasPrefix(id, TaskIDPrefix) then id[1..] else id
  }

  /** Every part of the split, read by `strconv.Atoi`, stopping at the first
      failure. */
  function ParseSegments(id: string, parts: seq<string>): (r: Result<seq<int>, ParseError>)
    ensures r.Ok? <==> forall i :: 0 <= i < |parts| ==> Atoi(parts[i]).AtoiOk?
    ensures r.Ok? ==> |r.value| == |parts|
    ensures r.Ok? ==> forall i :: 0 <= i < |parts| ==> r.value[i] == Atoi(parts[i]).value
    ensures r.Err? ==> r.error.id == id && r.error.part in parts && Atoi(r.error.part).AtoiErr?
    decreases |parts|
  {
    if |parts| == 0 then Ok([])
    else match Atoi(parts[0])
      case AtoiErr(e) => Err(InvalidSegment(id, parts[0], e))
      case AtoiOk(v) =>
        match ParseSegments(id, parts[1..])
        case Err(e) => Err(e)
        case Ok(rest) => Ok([v] + rest)
  }

  /** The dot-separated parts of an ID after its optional "T". */
  function Parts(id: string): (parts: seq<string>)
    ensures |parts| >= 1
  {
    Split(StripPrefix(id), '.')
  }

  /** `parseTaskID`: strip one optional "T", split the rest on ".", and read
      each part as a decimal integer; any unreadable part is an error. */
  function ParseTaskID(id: string): (r: Result<TaskID, ParseError>)
    ensures r.Ok? <==> forall i :: 0 <= i < |Parts(id)| ==> Atoi(Parts(id)[i]).AtoiOk?
    ensures r.Ok? ==> |r.value.seg| == |Parts(id)|
    ensures r.Ok? ==> forall i :: 0 <= i < |Parts(id)| ==> r.value.seg[i] == Atoi(Parts(id)[i]).value
  {
    var segments := ParseSegments(StripPrefix(id), Parts(id));
    if segments.Err? then Err(segments.error) else Ok(TaskID(segments.value))
  }

  /** `%02d`: at least two digits for a non-negative value; a negative value
      is printed with its sign. */
  function Pad2(n: int): (r: string)
    ensures |r| >= 2 && '.' !in r
    ensures n >= 0 ==> AllDigits(r)
    ensures n < 0 ==> r[0] == '-'
  {
    if 0 <= n < 10 then "0" + Decimal(n) else FormatInt(n)
  }

  function PaddedSegments(seg: seq<int>): (parts: seq<string>)
    ensures |parts| == |seg|
    ensures forall i :: 0 <= i < |seg| ==> parts[i] == Pad2(seg[i])
  {
    seq(|seg|, i requires 0 <= i < |seg| => Pad2(seg[i]))
  }

  /** `String`: the zero-padded segments joined by ".". */
  function String(t: TaskID): (r: string)
    ensures |t.seg| == 0 <==> r == ""
  {
    var parts := PaddedSegments(t.seg);
    JoinNonEmpty(parts, ".");
    Join(parts, ".")
  }

  /** The first unreadable part names the error. */
  lemma {:induction false} ParseSegmentsStops(id: string, parts: seq<string>, i: nat)
    requires i < |parts| && Atoi(parts[i]).AtoiErr?
    requires forall j :: 0 <= j < i ==> Atoi(parts[j]).AtoiOk?
    ensures ParseSegments(id, parts) == Err(InvalidSegment(id, parts[i], Atoi(parts[i]).err))
    decreases i
  {
    if i > 0 {
      assert forall j :: 0 <= j < i - 1 ==> parts[1..][j] == parts[j + 1];
      ParseSegmentsStops(id, parts[1..], i - 1);
    }
  }

  /** The loop of `parseTaskID`: read the parts one by one, returning on the
      first that `strconv.Atoi` rejects. */
  method ScanTaskID(id: string) returns (r: Result<TaskID, ParseError>)
    ensures r == ParseTaskID(id)
  {
    var body := if HasPrefix(id, TaskIDPrefix) then id[1..] else id;
    var parts := Split(body, '.');
    var segments: seq<int> := [];
    for i := 0 to |parts|
      invariant |segments| == i
      invariant forall j :: 0 <= j < i ==> Atoi(parts[j]).AtoiOk? && segments[j] == Atoi(parts[j]).value
    {
      var num := Atoi(parts[i]);
      if num.AtoiErr? {
        ParseSegmentsStops(body, parts, i);
        return Err(InvalidSegment(body, parts[i], num.err));
      }
      segments := segments + [num.value];
    }
    var done := ParseSegments(body, parts);
    assert done.Ok? && done.value == segments;
    r := Ok(TaskID(segments));
  }

  /** The loop of `String`: a dot before every segment but the first, then
      the segment as `%02d`. */
  method BufferString(t: TaskID) returns (r: string)
    ensures r == String(t)
  {
    var parts := PaddedSegments(t.seg);
    r := "";
    for i := 0 to |t.seg|
      invariant i > 0 ==> r == Join(parts[..i], ".")
      invariant i == 0 ==> r == ""
    {
      JoinStep(parts, ".", i, r);
      if i > 0 {
        r := r + ".";
      }
      var p := Pad2(t.seg[i]);
      r := r + p;
    }
    assert parts[..|t.seg|] == parts;
  }

  /** Splitting the String form at "." gives back the padded segments. */
  lemma {:induction false} StringSplits(t: TaskID)
    requires |t.seg| >= 1
    ensures Split(String(t), '.') == PaddedSegments(t.seg)
  {
    SplitJoin(PaddedSegments(t.seg), '.');
  }

  lemma {:induction false} JoinNonEmpty(parts: seq<string>, sep: string)
    requires forall i :: 0 <= i < |parts| ==> |parts[i]| > 0
    ensures Join(parts, sep) == "" <==> |parts| == 0
    decreases |parts|
  {
    if |parts| > 1 {
      JoinNonEmpty(parts[1..], sep);
    }
  }

  /** `Name`: the file-name prefix "T" + String. */
  function Name(t: TaskID): (r: string)
    ensures HasPrefix(r, TaskIDPrefix) && r[1..] == String(t)
  {
    TaskIDPrefix + String(t)
  }

  predicate HasSubTasks(t: TaskID) { |t.seg| > 1 }

  /** Lexicographic order on segments, a proper prefix being smaller. */
  function LessSeg(a: seq<int>, b: seq<int>): (r: bool)
    decreases |a|
  {
    if |a| == 0 || |b| == 0 then |a| < |b|
    else if a[0] < b[0] then true
    else if a[0] > b[0] then false
    else LessSeg(a[1..], b[1..])
  }

  /** `Less`. */
  predicate Less(t: TaskID, other: TaskID) { LessSeg(t.seg, other.seg) }

  /** `Equals`: same length and the same segment in every position. */
  function EqualSeg(a: seq<int>, b: seq<int>): (r: bool)
    ensures r <==> a == b
    decreases |a|
  {
    if |a| != |b| then false
    else if |a| == 0 then true
    else a[0] == b[0] && EqualSeg(a[1..], b[1..])
  }

  function Equals(t: TaskID, other: TaskID): (r: bool)
    ensures r <==> |t.seg| == |other.seg| && forall i :: 0 <= i < |t.seg| ==> t.seg[i] == other.seg[i]
  {
    EqualSeg(t.seg, other.seg)
  }

  /** `Parent`: the ID without its last segment; none for a top-level ID. */
  function Parent(t: TaskID): (r: Option<TaskID>)
    ensures r.Some? <==> HasSubTasks(t)
    ensures r.Some? ==> r.value.seg + [t.seg[|t.seg| - 1]] == t.seg
  {
    if HasSubTasks(t) then Some(TaskID(t.seg[..|t.seg| - 1])) else None
  }

  /** `NextSubTaskID`: the first child, a copy of the segments with 1 appended. */
  function NextSubTaskID(t: TaskID): (r: TaskID)
    ensures |r.seg| == |t.seg| + 1 && r.seg[..|t.seg|] == t.seg && r.seg[|t.seg|] == 1
  {
    TaskID(t.seg + [1])
  }

  /** `NextSiblingID`: the last segment incremented; [1] for the zero ID. */
  function NextSiblingID(t: TaskID): (r: TaskID)
    ensures |t.seg| == 0 ==> r.seg == [1]
    ensures |t.seg| > 0 ==> |r.seg| == |t.seg| && r.seg[..|t.seg| - 1] == t.seg[..|t.seg| - 1]
    ensures |t.seg| > 0 ==> r.seg[|t.seg| - 1] == t.seg[|t.seg| - 1] + 1
  {
    if |t.seg| == 0 then TaskID([1])
    else TaskID(t.seg[..|t.seg| - 1] + [t.seg[|t.seg| - 1] + 1])
  }

  /** `MarshalJSON`: the String form in double quotes. */
  function MarshalJSON(t: TaskID): (r: string)
  {
    "\"" + String(t) + "\""
  }

  predicate IsQuote(c: char) { c == '"' }

  /** `UnmarshalJSON`: strip surrounding quotes, then parse. */
  function UnmarshalJSON(data: string): (r: Result<TaskID, ParseError>)
  {
    ParseTaskID(TrimBy(data, IsQuote))
  }

  /** The ID syntax both validators check with a regular expression
      (`^T?\d+(\.\d+)*$`): an optional "T", then non-empty runs of ASCII
      digits separated by single dots. */
  predicate MatchesTaskIDPattern(id: string)
  {
    var parts := Parts(id);
    forall i :: 0 <= i < |parts| ==> |parts[i]| > 0 && AllDigits(parts[i])
  }

  // ------------------------------------------------------------- properties

  /** An ID of the validated syntax parses, as long as every segment fits in
      64 bits, and its segments are the values of its digit runs. */
  lemma {:induction false} PatternParses(id: string)
    requires MatchesTaskIDPattern(id)
    requires forall i :: 0 <= i < |Parts(id)| ==> DigitsValue(Parts(id)[i]) <= MaxInt64
    ensures ParseTaskID(id).Ok?
    ensures forall i :: 0 <= i < |Parts(id)| ==> ParseTaskID(id).value.seg[i] == DigitsValue(Parts(id)[i])
  {
    var parts := Parts(id);
    forall i | 0 <= i < |parts| ensures Atoi(parts[i]) == AtoiOk(DigitsValue(parts[i])) {
      AtoiDigits(parts[i]);
    }
  }

  /** The parser is more lenient than the validators: a signed segment
      parses but does not have the validated syntax. */
  lemma {:induction false} SignedSegmentParsesButIsNotValid()
    ensures ParseTaskID("-1").Ok? && !MatchesTaskIDPattern("-1")
  {
    assert StripPrefix("-1") == "-1";
    SplitNoSep("-1", '.');
    assert Atoi("-1") == AtoiOk(-1) by { assert DigitsValue("1") == 1; }
    assert !IsDigit("-1"[0]);
  }

  predicate ParsableSegments(seg: seq<int>)
  {
    forall i :: 0 <= i < |seg| ==> 0 <= seg[i] <= MaxInt64
  }

  lemma {:induction false} Pad2Parses(n: int)
    requires 0 <= n <= MaxInt64
    ensures Atoi(Pad2(n)) == AtoiOk(n)
  {
    AtoiDecimal(n);
  }

  /** Text whose parts are the padded segments of an ID parses to it. */
  lemma {:induction false} ParsePadded(s: string, t: TaskID)
    requires ParsableSegments(t.seg)
    requires Parts(s) == PaddedSegments(t.seg)
    ensures ParseTaskID(s) == Ok(t)
  {
    var parts := Parts(s);
    forall i | 0 <= i < |parts| ensures Atoi(parts[i]) == AtoiOk(t.seg[i]) {
      Pad2Parses(t.seg[i]);
    }
    var r := ParseTaskID(s);
    assert r.Ok?;
    assert r.value.seg == t.seg;
  }

  /** Parsing the String form of a non-empty ID with non-negative 64-bit
      segments gives the same ID back, and so does parsing its Name. */
  lemma {:induction false} ParseString(t: TaskID)
    requires |t.seg| >= 1 && ParsableSegments(t.seg)
    ensures ParseTaskID(String(t)) == Ok(t)
    ensures ParseTaskID(Name(t)) == Ok(t)
  {
    var s := String(t);
    StringSplits(t);
    assert s[0] != 'T' by {
      SplitFirstChar(s, '.');
      assert |Pad2(t.seg[0])| > 0 && IsDigit(Pad2(t.seg[0])[0]);
    }
    assert StripPrefix(s) == s;
    assert StripPrefix(Name(t)) == s;
    ParsePadded(s, t);
    ParsePadded(Name(t), t);
  }

  /** The first part of a split starts with the first character of the text,
      unless that is the separator. */
  lemma {:induction false} SplitFirstChar(s: string, sep: char)
    requires |s| > 0 && |Split(s, sep)[0]| > 0
    ensures Split(s, sep)[0][0] == s[0]
  {
  }

  /** The loop of `Less`: the first differing segment decides, and when
      the shorter ID is a prefix of the longer, the shorter is less. */
  method CompareIDs(t: TaskID, other: TaskID) returns (less: bool)
    ensures less == Less(t, other)
  {
    var a, b := t.seg, other.seg;
    var minLen := if |b| < |a| then |b| else |a|;
    for i := 0 to minLen
      invariant a[..i] == b[..i]
    {
      if a[i] < b[i] {
        FirstDifferenceDecides(a, b, i);
        return true;
      } else if a[i] > b[i] {
        FirstDifferenceDecides(b, a, i);
        LessAsymmetric(b, a);
        return false;
      }
      assert a[..i + 1] == a[..i] + [a[i]] && b[..i + 1] == b[..i] + [b[i]];
    }
    if |a| < |b| {
      PrefixLess(a, b);
    } else if |a| == |b| {
      assert a == a[..minLen] && b == b[..minLen];
      LessIrreflexive(a);
    } else {
      PrefixLess(b, a);
      LessAsymmetric(b, a);
    }
    less := |a| < |b|;
  }

  /** The loop of `Equals`: lengths first, then segment by segment. */
  method EqualIDs(t: TaskID, other: TaskID) returns (eq: bool)
    ensures eq == Equals(t, other)
  {
    if |t.seg| != |other.seg| {
      return false;
    }
    for i := 0 to |t.seg|
      invariant forall j :: 0 <= j < i ==> t.seg[j] == other.seg[j]
    {
      if t.seg[i] != other.seg[i] {
        return false;
      }
    }
    return true;
  }

  /** Equal IDs, seen through Equals, are the same value. */
  lemma {:induction false} EqualsIsEquality(t: TaskID, u: TaskID)
    ensures Equals(t, u) <==> t == u
  {
  }

  /** An ID is never less than itself. */
  lemma {:induction false} LessIrreflexive(a: seq<int>)
    ensures !LessSeg(a, a)
    decreases |a|
  {
    if |a| > 0 {
      LessIrreflexive(a[1..]);
    }
  }

  /** Less is asymmetric. */
  lemma {:induction false} LessAsymmetric(a: seq<int>, b: seq<int>)
    requires LessSeg(a, b)
    ensures !LessSeg(b, a)
    decreases |a|
  {
    if |a| > 0 && |b| > 0 && a[0] == b[0] {
      LessAsymmetric(a[1..], b[1..]);
    }
  }

  /** Less is transitive. */
  lemma {:induction false} LessTransitive(a: seq<int>, b: seq<int>, c: seq<int>)
    requires LessSeg(a, b) && LessSeg(b, c)
    ensures LessSeg(a, c)
    decreases |a|
  {
    if |a| > 0 && |b| > 0 && |c| > 0 && a[0] == b[0] && b[0] == c[0] {
      LessTransitive(a[1..], b[1..], c[1..]);
    }
  }

  /** Any two different IDs are ordered one way or the other. */
  lemma {:induction false} LessTotal(a: seq<int>, b: seq<int>)
    requires a != b
    ensures LessSeg(a, b) || LessSeg(b, a)
    decreases |a|
  {
    if |a| > 0 && |b| > 0 && a[0] == b[0] {
      assert a == [a[0]] + a[1..] && b == [b[0]] + b[1..];
      LessTotal(a[1..], b[1..]);
    }
  }

  /** A proper prefix is less than the longer ID. */
  lemma {:induction false} PrefixLess(a: seq<int>, b: seq<int>)
    requires |a| < |b| && b[..|a|] == a
    ensures LessSeg(a, b)
    decreases |a|
  {
    if |a| > 0 {
      assert a[1..] == b[1..][..|a| - 1];
      PrefixLess(a[1..], b[1..]);
    }
  }

  /** The first differing segment decides the order. */
  lemma {:induction false} FirstDifferenceDecides(a: seq<int>, b: seq<int>, k: nat)
    requires k < |a| && k < |b| && a[..k] == b[..k] && a[k] < b[k]
    ensures LessSeg(a, b)
    decreases k
  {
    if k > 0 {
      assert a[0] == a[..k][0] && b[0] == b[..k][0];
      assert a[1..][..k - 1] == a[..k][1..] && b[1..][..k - 1] == b[..k][1..];
      FirstDifferenceDecides(a[1..], b[1..], k - 1);
    }
  }

  /** A parent is less than its child, and the first sub-task of a non-zero
      ID has that ID as its parent. */
  lemma {:induction false} ParentLess(t: TaskID)
    requires HasSubTasks(t)
    ensures Less(Parent(t).value, t)
  {
    var p := Parent(t).value;
    assert t.seg[..|p.seg|] == p.seg;
    PrefixLess(p.seg, t.seg);
  }

  lemma {:induction false} NextSubTaskParent(t: TaskID)
    requires !IsZero(t)
    ensures Parent(NextSubTaskID(t)) == Some(t)
    ensures Less(t, NextSubTaskID(t))
  {
    var c := NextSubTaskID(t);
    assert c.seg[..|c.seg| - 1] == t.seg;
    PrefixLess(t.seg, c.seg);
  }

  /** The next sibling has the same parent and comes right after in order. */
  lemma {:induction false} NextSiblingOrder(t: TaskID)
    requires !IsZero(t)
    ensures Parent(NextSiblingID(t)) == Parent(t)
    ensures Less(t, NextSiblingID(t))
  {
    var s := NextSiblingID(t);
    var k := |t.seg| - 1;
    assert s.seg[..k] == t.seg[..k];
    FirstDifferenceDecides(t.seg, s.seg, k);
  }

  /** "T1.a.3" has a non-numeric segment and does not parse. */
  lemma {:induction false} ParseRejectsLetterSegment()
    ensures ParseTaskID("T1.a.3").Err?
  {
    var parts := Split("1.a.3", '.');
    assert parts[1] == "a";
  }

  /** An empty segment (an empty ID, or two dots in a row) does not parse. */
  lemma {:induction false} ParseRejectsEmptySegment(id: string)
    requires id == "" || id == "T" || Contains(id, "..")
    ensures ParseTaskID(id).Err?
  {
    var b := StripPrefix(id);
    var parts := Split(b, '.');
    if Contains(id, "..") {
      var k :| 0 <= k <= |id| - 2 && MatchAt(id, "..", k);
      assert id[k] == id[k..k + 2][0] && id[k + 1] == id[k..k + 2][1];
      if b == id {
        EmptyPartBetweenSeparators(b, k);
      } else {
        assert id[0] == 'T';
        assert b[k - 1] == id[k] && b[k] == id[k + 1];
        EmptyPartBetweenSeparators(b, k - 1);
      }
    } else {
      assert b == "" && parts == [""];
    }
    EmptyPartFails(id);
  }

  /** An empty part does not read as a number. */
  lemma {:induction false} EmptyPartFails(id: string)
    requires "" in Parts(id)
    ensures ParseTaskID(id).Err?
  {
    var i :| 0 <= i < |Parts(id)| && Parts(id)[i] == "";
    assert !Atoi(Parts(id)[i]).AtoiOk?;
  }

  /** Two adjacent separators put an empty part after the first one. */
  lemma {:induction false} EmptyPartBetweenSeparators(s: string, k: nat)
    requires k + 1 < |s| && s[k] == '.' && s[k + 1] == '.'
    ensures "" in Split(s, '.')[1..]
    decreases k
  {
    var rest := Split(s[1..], '.');
    if k > 0 {
      EmptyPartBetweenSeparators(s[1..], k - 1);
      if s[0] == '.' {
        assert Split(s, '.')[1..] == rest;
      } else {
        assert Split(s, '.')[1..] == rest[1..];
      }
    } else {
      assert s[1..][0] == '.';
      assert rest[0] == "";
      assert Split(s, '.')[1..] == rest;
    }
  }

  /** The JSON form reads back as the same ID. */
  lemma {:induction false} JSONRoundTrip(t: TaskID)
    requires |t.seg| >= 1 && ParsableSegments(t.seg)
    ensures UnmarshalJSON(MarshalJSON(t)) == Ok(t)
  {
    var s := String(t);
    ParseString(t);
    var parts := PaddedSegments(t.seg);
    forall c | c in s ensures !IsQuote(c) {
      JoinMembers(parts, ".", c);
    }
    TrimQuotes(s);
  }

  /** Stripping the quotes around a non-empty text without quotes gives it back. */
  lemma {:induction false} TrimQuotes(s: string)
    requires |s| > 0 && forall c :: c in s ==> !IsQuote(c)
    ensures TrimBy("\"" + s + "\"", IsQuote) == s
  {
    var q := "\"" + s + "\"";
    var t := s + "\"";
    assert q[0] == '"' && q[1..] == t;
    assert t[0] == s[0];
    assert s[0] in s;
    assert TrimLeftBy(t, IsQuote) == t;
    assert TrimLeftBy(q, IsQuote) == t;
    assert t[|t| - 1] == '"' && t[..|t| - 1] == s;
    assert s[|s| - 1] in s;
    assert TrimRightBy(s, IsQuote) == s;
    assert TrimRightBy(t, IsQuote) == s;
  }
}
