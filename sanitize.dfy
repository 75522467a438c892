/** The input sanitizers.  Each is a chain of rewrites; the ones that strip
    control characters do so in a rune loop with a builder, so they are
    methods, each proved equal to a function that states the whole chain.
    The lemmas say what the chains guarantee about their output. */
module Sanitize {
  import opened Wrappers
  import opened Text
  import opened Selection
  import TaskIds
  import Validation

  // ---------------------------------------------------------- building blocks

  predicate NotControl(c: char) { !GoIsControl(c) }

  /** The general text filter keeps tab, line feed and carriage return. */
  predicate KeptInText(c: char) { !GoIsControl(c) || c == '\n' || c == '\r' || c == '\t' }

  /** The five characters `html.EscapeString` rewrites. */
  predicate HtmlSpecial(c: char) { c == '<' || c == '>' || c == '&' || c == '\'' || c == '"' }

  /** The characters of the entities it writes. */
  predicate EntityChar(c: char) { c == '&' || c == '#' || c == ';' || IsLower(c) || IsDigit(c) }

  function EscapeChar(c: char): (r: string)
    ensures TagSafe(r) && DrawnFrom(r, [c])
    ensures !HtmlSpecial(c) ==> r == [c]
  {
    match c
    case '<' => "&lt;"
    case '>' => "&gt;"
    case '&' => "&amp;"
    case '\'' => "&#39;"
    case '"' => "&#34;"
    case _ => [c]
  }

  /** No character that could open a tag or close an attribute value. */
  predicate TagSafe(r: string)
  {
    forall i :: 0 <= i < |r| ==> r[i] != '<' && r[i] != '>' && r[i] != '\'' && r[i] != '"'
  }

  /** Every character comes from `s` or from an entity. */
  predicate DrawnFrom(r: string, s: string)
  {
    forall i :: 0 <= i < |r| ==> r[i] in s || EntityChar(r[i])
  }

  lemma {:induction false} EscapedConcat(e: string, t: string, s: string)
    requires |s| > 0 && TagSafe(e) && TagSafe(t) && DrawnFrom(e, [s[0]]) && DrawnFrom(t, s[1..])
    ensures TagSafe(e + t) && DrawnFrom(e + t, s)
  {
    forall i | 0 <= i < |e + t| ensures (e + t)[i] in s || EntityChar((e + t)[i]) {
      if i >= |e| {
        assert (e + t)[i] == t[i - |e|];
        if t[i - |e|] in s[1..] {
          var j :| 0 <= j < |s[1..]| && s[1..][j] == t[i - |e|];
          assert s[j + 1] == t[i - |e|];
        }
      }
    }
  }

  /** Go's `html.EscapeString`. */
  function HtmlEscape(s: string): (r: string)
    ensures TagSafe(r) && DrawnFrom(r, s)
    ensures (forall i :: 0 <= i < |s| ==> !HtmlSpecial(s[i])) ==> r == s
    decreases |s|
  {
    if |s| == 0 then ""
    else
      var e, t := EscapeChar(s[0]), HtmlEscape(s[1..]);
      EscapedConcat(e, t, s);
      e + t
  }

  /** Every run of `sep` characters becomes one `rep`; `inRun` says the
      text before `s` ended in such a run, already written out. */
  function CollapseRuns(s: string, sep: char -> bool, rep: char, inRun: bool): (r: string)
    ensures |r| <= |s|
    ensures forall i :: 0 <= i < |r| ==> (r[i] in s && !sep(r[i])) || r[i] == rep
    ensures forall i :: 0 <= i < |r| - 1 ==> !(sep(r[i]) && sep(r[i + 1]))
    ensures inRun && |r| > 0 ==> !sep(r[0])
    ensures !inRun && |s| > 0 ==> |r| > 0 && r[0] == (if sep(s[0]) then rep else s[0])
    decreases |s|
  {
    if |s| == 0 then ""
    else if sep(s[0]) then
      var rest := CollapseRuns(s[1..], sep, rep, true);
      assert forall c :: c in s[1..] ==> c in s;
      (if inRun then "" else [rep]) + rest
    else
      var rest := CollapseRuns(s[1..], sep, rep, false);
      assert forall c :: c in s[1..] ==> c in s;
      [s[0]] + rest
  }

  function Collapse(s: string, sep: char -> bool, rep: char): string
  {
    CollapseRuns(s, sep, rep, false)
  }

  /** Every character satisfies `p`. */
  predicate AllOf(s: string, p: char -> bool)
  {
    forall i :: 0 <= i < |s| ==> p(s[i])
  }

  /** No two neighbours are both `c`. */
  predicate NoDouble(s: string, c: char)
  {
    forall i :: 0 <= i < |s| - 1 ==> !(s[i] == c && s[i + 1] == c)
  }

  lemma {:induction false} NoDoubleNotContained(s: string, c: char)
    requires NoDouble(s, c)
    ensures !Contains(s, [c, c])
  {
    forall i | 0 <= i <= |s| - 2 ensures !MatchAt(s, [c, c], i) {
      assert s[i..i + 2] == [s[i], s[i + 1]];
    }
  }

  /** What holds of every character and of the replacement holds of every
      character of the collapsed text. */
  lemma {:induction false} CollapseKeepsAll(s: string, sep: char -> bool, rep: char, p: char -> bool)
    requires AllOf(s, p) && p(rep)
    ensures AllOf(Collapse(s, sep, rep), p)
  {
    var c := Collapse(s, sep, rep);
    forall i | 0 <= i < |c| ensures p(c[i]) {
      if c[i] != rep {
        var j :| 0 <= j < |s| && s[j] == c[i];
      }
    }
  }

  /** A text without a collapsed character doubled keeps it single: between
      two copies of it there was always something else. */
  lemma {:induction false} CollapseKeepsSingle(s: string, sep: char -> bool, rep: char, inRun: bool, c: char)
    requires NoDouble(s, c) && !sep(c) && rep != c
    ensures NoDouble(CollapseRuns(s, sep, rep, inRun), c)
    decreases |s|
  {
    if |s| > 0 {
      var r := CollapseRuns(s, sep, rep, inRun);
      if sep(s[0]) {
        CollapseKeepsSingle(s[1..], sep, rep, true, c);
      } else {
        CollapseKeepsSingle(s[1..], sep, rep, false, c);
        var rest := CollapseRuns(s[1..], sep, rep, false);
        assert r == [s[0]] + rest;
        if |rest| > 0 && s[0] == c {
          assert rest[0] != c;
        }
      }
    }
  }

  /** `normalizeWhitespace`: every run of `\s` becomes one space. */
  function NormalizeWhitespace(s: string): string
  {
    Collapse(s, ReSpace, ' ')
  }

  // ------------------------------------------------------------- line breaks

  /** No three line feeds in a row. */
  predicate NoTriple(s: string)
  {
    forall i :: 0 <= i < |s| - 2 ==> !(s[i] == '\n' && s[i + 1] == '\n' && s[i + 2] == '\n')
  }

  /** `s` may follow `emitted` line feeds without making a run of three. */
  predicate FitsAfter(s: string, emitted: nat)
  {
    && (emitted >= 2 ==> |s| == 0 || s[0] != '\n')
    && (emitted == 1 ==> !(|s| >= 2 && s[0] == '\n' && s[1] == '\n'))
  }

  /** Runs of line feeds are cut to two; `emitted` counts those already
      written just before `s`. */
  function CapNewlines(s: string, emitted: nat): (r: string)
    requires emitted <= 2
    ensures forall i :: 0 <= i < |r| ==> r[i] in s
    ensures NoTriple(r) && FitsAfter(r, emitted)
    decreases |s|
  {
    if |s| == 0 then ""
    else if s[0] == '\n' then
      var rest := CapNewlines(s[1..], if emitted == 2 then 2 else emitted + 1);
      assert forall c :: c in s[1..] ==> c in s;
      (if emitted == 2 then "" else "\n") + rest
    else
      var rest := CapNewlines(s[1..], 0);
      assert forall c :: c in s[1..] ==> c in s;
      [s[0]] + rest
  }

  /** `normalizeLineBreaks`: CRLF then lone CR become LF, and three or more
      LFs in a row become two. */
  function NormalizeLineBreaks(s: string): string
  {
    CapNewlines(ReplaceAll(ReplaceAll(s, "\r\n", "\n"), "\r", "\n"), 0)
  }

  /** Normalised text has no carriage return and no three line feeds in a
      row. */
  lemma {:induction false} NormalizeLineBreaksShape(s: string)
    ensures '\r' !in NormalizeLineBreaks(s) && NoTriple(NormalizeLineBreaks(s))
  {
    var t := ReplaceAll(s, "\r\n", "\n");
    ReplaceAllChar(t, '\r', '\n');
    var u := ReplaceAll(t, "\r", "\n");
    assert '\r' !in u;
  }

  /** Text that already has no run of three line feeds passes the cap
      unchanged. */
  lemma {:induction false} CapKeepsShortRuns(s: string, emitted: nat)
    requires emitted <= 2 && NoTriple(s) && FitsAfter(s, emitted)
    ensures CapNewlines(s, emitted) == s
    decreases |s|
  {
    if |s| > 0 {
      var tail := s[1..];
      NoTripleTail(s);
      if s[0] == '\n' {
        assert emitted < 2;
        var next := emitted + 1;
        assert FitsAfter(tail, next) by {
          if emitted == 0 && |s| >= 3 && s[1] == '\n' {
            assert s[2] != '\n';
          }
        }
        CapKeepsShortRuns(tail, next);
        assert CapNewlines(s, emitted) == "\n" + CapNewlines(tail, next);
      } else {
        CapKeepsShortRuns(tail, 0);
        assert CapNewlines(s, emitted) == [s[0]] + CapNewlines(tail, 0);
      }
      assert s == [s[0]] + tail;
    }
  }

  lemma {:induction false} NoTripleTail(s: string)
    requires |s| > 0 && NoTriple(s)
    ensures NoTriple(s[1..])
  {
    var tail := s[1..];
    forall i | 0 <= i < |tail| - 2 ensures !(tail[i] == '\n' && tail[i + 1] == '\n' && tail[i + 2] == '\n') {
      assert tail[i] == s[i + 1] && tail[i + 1] == s[i + 2] && tail[i + 2] == s[i + 3];
    }
  }

  /** Normalising line breaks twice is normalising once. */
  lemma {:induction false} NormalizeLineBreaksIdempotent(s: string)
    ensures NormalizeLineBreaks(NormalizeLineBreaks(s)) == NormalizeLineBreaks(s)
  {
    var r := NormalizeLineBreaks(s);
    NormalizeLineBreaksShape(s);
    NoCarriageReturnPairs(r);
    ReplaceAllChar(r, '\r', '\n');
    assert ReplaceAll(r, "\r", "\n") == r;
    if |r| >= 2 && r[0] == '\n' && r[1] == '\n' && |r| >= 3 {
      assert r[2] != '\n';
    }
    CapKeepsShortRuns(r, 0);
  }

  /** Without a carriage return there is no CRLF to replace. */
  lemma {:induction false} NoCarriageReturnPairs(s: string)
    requires '\r' !in s
    ensures ReplaceAll(s, "\r\n", "\n") == s
    decreases |s|
  {
    if |s| >= 2 {
      assert s[0] != '\r';
      NoCarriageReturnPairs(s[1..]);
      assert [s[0]] + s[1..] == s;
    }
  }

  // -------------------------------------------------------------------- text

  /** `SanitizeText`: drop NULs and control characters other than tab, LF
      and CR, escape HTML, and collapse white space. */
  function SanitizedText(input: string): string
  {
    if input == "" then ""
    else NormalizeWhitespace(HtmlEscape(Filter(RemoveChar(input, '\0'), KeptInText)))
  }

  method SanitizeText(input: string) returns (r: string)
    ensures r == SanitizedText(input)
  {
    if input == "" {
      return input;
    }
    var s := RemoveChar(input, '\0');
    s := KeepRunes(s, KeptInText);
    r := NormalizeWhitespace(HtmlEscape(s));
  }

  /** Sanitised text has no control character, no HTML-special character
      but `&`, and no two white-space characters in a row, the only one
      left being the space. */
  lemma {:induction false} SanitizedTextShape(input: string)
    ensures var r := SanitizedText(input);
      && (forall i :: 0 <= i < |r| ==> !GoIsControl(r[i]))
      && TagSafe(r)
      && (forall i :: 0 <= i < |r| ==> ReSpace(r[i]) ==> r[i] == ' ')
      && (forall i :: 0 <= i < |r| - 1 ==> !(ReSpace(r[i]) && ReSpace(r[i + 1])))
  {
    if input != "" {
      var f := Filter(RemoveChar(input, '\0'), KeptInText);
      var h := HtmlEscape(f);
      var r := NormalizeWhitespace(h);
      forall i | 0 <= i < |r| ensures !GoIsControl(r[i]) && r[i] != '<' && r[i] != '>' && r[i] != '\'' && r[i] != '"' {
        if r[i] != ' ' {
          assert r[i] in h && !ReSpace(r[i]);
          var j :| 0 <= j < |h| && h[j] == r[i];
          if r[i] !in f {
            assert EntityChar(r[i]);
          }
        }
      }
    }
  }

  // ------------------------------------------------------------------ labels

  /** What the label filter keeps: `[a-z0-9_-]`. */
  predicate LabelRaw(c: char) { IsLower(c) || IsDigit(c) || c == '_' || c == '-' }

  predicate LabelSep(c: char) { c == '-' || c == '_' }

  /** What a sanitised label is made of: `[a-z0-9-]`. */
  predicate LabelOut(c: char) { IsLower(c) || IsDigit(c) || c == '-' }

  /** The steps after the text sanitiser: lower-case, spaces to hyphens,
      drop everything outside `[a-z0-9_-]`, collapse separator runs to one
      hyphen, and trim separators from both ends. */
  function LabelSteps(t: string): string
  {
    var spaced := ReplaceAll(ToLower(t), " ", "-");
    TrimBy(Collapse(Filter(spaced, LabelRaw), LabelSep, '-'), LabelSep)
  }

  function SanitizedLabel(name: string): string
  {
    if name == "" then "" else LabelSteps(SanitizedText(name))
  }

  /** `SanitizeLabel`. */
  method SanitizeLabel(name: string) returns (r: string)
    ensures r == SanitizedLabel(name)
  {
    if name == "" {
      return name;
    }
    var t := SanitizeText(name);
    r := LabelSteps(t);
  }

  /** Trimming keeps what holds of every character and of every pair of
      neighbours. */
  lemma {:induction false} TrimKeepsShape(s: string, cut: char -> bool, p: char -> bool, c: char)
    requires AllOf(s, p) && NoDouble(s, c)
    ensures AllOf(TrimBy(s, cut), p) && NoDouble(TrimBy(s, cut), c)
  {
    var r := TrimBy(s, cut);
    var a := TrimByOffset(s, cut);
    forall i | 0 <= i < |r| - 1 ensures !(r[i] == c && r[i + 1] == c) {
      assert r[i] == s[a + i] && r[i + 1] == s[a + i + 1];
    }
    forall i | 0 <= i < |r| ensures p(r[i]) {
      assert r[i] == s[a + i];
    }
  }

  /** Collapsing separators to a hyphen in text over `[a-z0-9_-]` gives
      text over `[a-z0-9-]` with no two hyphens in a row. */
  lemma {:induction false} CollapsedLabelShape(kept: string)
    requires AllOf(kept, LabelRaw)
    ensures var c := Collapse(kept, LabelSep, '-'); AllOf(c, LabelOut) && NoDouble(c, '-')
  {
    var c := Collapse(kept, LabelSep, '-');
    forall i | 0 <= i < |c| ensures LabelOut(c[i]) {
      if c[i] != '-' {
        var j :| 0 <= j < |kept| && kept[j] == c[i];
      }
    }
  }

  /** A label after the label steps is over `[a-z0-9-]`, neither starts
      nor ends with a hyphen, and has no two hyphens in a row. */
  lemma {:induction false} LabelStepsShape(t: string)
    ensures var r := LabelSteps(t);
      && AllOf(r, LabelOut)
      && (|r| > 0 ==> r[0] != '-' && r[|r| - 1] != '-')
      && NoDouble(r, '-')
  {
    var spaced := ReplaceAll(ToLower(t), " ", "-");
    var kept := Filter(spaced, LabelRaw);
    CollapsedLabelShape(kept);
    TrimKeepsShape(Collapse(kept, LabelSep, '-'), LabelSep, LabelOut, '-');
  }

  lemma {:induction false} SanitizedLabelShape(name: string)
    ensures var r := SanitizedLabel(name);
      && AllOf(r, LabelOut)
      && (|r| > 0 ==> r[0] != '-' && r[|r| - 1] != '-')
      && NoDouble(r, '-')
  {
    if name != "" {
      LabelStepsShape(SanitizedText(name));
    }
  }

  /** A sanitised label that is not empty and fits in 50 runes passes the
      label validator. */
  lemma {:induction false} SanitizedLabelValidates(name: string)
    requires 0 < |SanitizedLabel(name)| <= Validation.MaxLabelLength
    ensures Validation.Passes(Validation.ValidateLabel(SanitizedLabel(name)))
  {
    SanitizedLabelShape(name);
  }

  // ---------------------------------------------------------------- task IDs

  /** The task-ID alphabet `[T0-9.]`. */
  predicate IDChar(c: char) { c == 'T' || IsDigit(c) || c == '.' }

  /** `SanitizeTaskID`: drop NULs and control characters, trim white
      space, and keep only `T`, digits and dots. */
  function SanitizedTaskID(taskID: string): string
  {
    if taskID == "" then ""
    else Filter(TrimSpace(Filter(RemoveChar(taskID, '\0'), NotControl)), IDChar)
  }

  method SanitizeTaskID(taskID: string) returns (r: string)
    ensures r == SanitizedTaskID(taskID)
  {
    if taskID == "" {
      return taskID;
    }
    var s := RemoveChar(taskID, '\0');
    s := KeepRunes(s, NotControl);
    r := Filter(TrimSpace(s), IDChar);
  }

  /** A text over `[T0-9.]` has nothing to drop and nothing to trim. */
  lemma {:induction false} IDCharsKept(taskID: string)
    requires forall i :: 0 <= i < |taskID| ==> IDChar(taskID[i])
    ensures Filter(TrimSpace(Filter(RemoveChar(taskID, '\0'), NotControl)), IDChar) == taskID
  {
    assert '\0' !in taskID;
    assert RemoveChar(taskID, '\0') == taskID;
    assert forall i :: 0 <= i < |taskID| ==> NotControl(taskID[i]) && !GoIsSpace(taskID[i]);
    assert Filter(taskID, NotControl) == taskID;
    TrimByKeeps(taskID, GoIsSpace);
    assert TrimSpace(taskID) == taskID;
  }

  /** A sanitised ID is over `[T0-9.]`, and an ID already over that
      alphabet comes back unchanged. */
  lemma {:induction false} SanitizedTaskIDShape(taskID: string)
    ensures forall i :: 0 <= i < |SanitizedTaskID(taskID)| ==> IDChar(SanitizedTaskID(taskID)[i])
    ensures (forall i :: 0 <= i < |taskID| ==> IDChar(taskID[i])) ==> SanitizedTaskID(taskID) == taskID
  {
    if taskID != "" && forall i :: 0 <= i < |taskID| ==> IDChar(taskID[i]) {
      IDCharsKept(taskID);
    }
  }

  /** Every character of an ID of the validated syntax is `T`, a digit or
      a dot. */
  lemma {:induction false} PatternChars(id: string)
    requires TaskIds.MatchesTaskIDPattern(id)
    ensures forall i :: 0 <= i < |id| ==> IDChar(id[i])
  {
    var body := TaskIds.StripPrefix(id);
    var parts := TaskIds.Parts(id);
    forall k | 0 <= k < |id| ensures IDChar(id[k]) {
      var off := |id| - |body|;
      if k >= off && id[k] != '.' {
        assert body[k - off] == id[k];
        SplitMembers(body, '.', k - off);
        var i :| 0 <= i < |parts| && id[k] in parts[i];
        assert AllDigits(parts[i]);
      }
    }
  }

  /** An ID the validator accepts passes the sanitiser unchanged. */
  lemma {:induction false} ValidTaskIDUnchanged(id: string)
    requires Validation.Passes(Validation.ValidateTaskID(id))
    ensures SanitizedTaskID(id) == id
  {
    PatternChars(id);
    SanitizedTaskIDShape(id);
  }

  // -------------------------------------------------------------- file paths

  predicate IsSlash(c: char) { c == '/' }

  /** `SanitizeFilePath`: drop NULs and control characters, delete every
      "..", collapse slash runs, and trim white space. */
  function SanitizedFilePath(path: string): string
  {
    if path == "" then ""
    else
      var cleaned := Filter(RemoveChar(path, '\0'), NotControl);
      TrimSpace(Collapse(ReplaceAll(cleaned, "..", ""), IsSlash, '/'))
  }

  method SanitizeFilePath(path: string) returns (r: string)
    ensures r == SanitizedFilePath(path)
  {
    if path == "" {
      return path;
    }
    var s := RemoveChar(path, '\0');
    s := KeepRunes(s, NotControl);
    r := TrimSpace(Collapse(ReplaceAll(s, "..", ""), IsSlash, '/'));
  }

  /** Deleting every ".." leaves no two dots in a row: each run of dots
      loses its pairs, and runs stay apart. */
  lemma {:induction false} DotDotRemoval(s: string)
    ensures var r := ReplaceAll(s, "..", "");
      && NoDouble(r, '.')
      && (forall i :: 0 <= i < |r| ==> r[i] in s)
      && (|s| > 0 && s[0] != '.' ==> |r| > 0 && r[0] == s[0])
    decreases |s|
  {
    if |s| >= 2 {
      if s[..2] == ".." {
        DotDotRemoval(s[2..]);
        assert forall c :: c in s[2..] ==> c in s;
      } else {
        DotDotRemoval(s[1..]);
        assert forall c :: c in s[1..] ==> c in s;
        var rest := ReplaceAll(s[1..], "..", "");
        if s[0] == '.' {
          assert s[1] != '.';
        }
        assert ReplaceAll(s, "..", "") == [s[0]] + rest;
      }
    }
  }

  /** Collapsing slash runs and trimming keep a dot-pair-free, control-free
      text so, and leave no "//". */
  lemma {:induction false} CollapsedPathShape(d: string)
    requires AllOf(d, NotControl) && NoDouble(d, '.')
    ensures var r := TrimSpace(Collapse(d, IsSlash, '/'));
      && !Contains(r, "..") && !Contains(r, "//")
      && AllOf(r, NotControl)
  {
    var c := Collapse(d, IsSlash, '/');
    CollapseKeepsSingle(d, IsSlash, '/', false, '.');
    CollapseKeepsAll(d, IsSlash, '/', NotControl);
    TrimKeepsShape(c, GoIsSpace, NotControl, '.');
    TrimKeepsShape(c, GoIsSpace, NotControl, '/');
    var r := TrimSpace(c);
    NoDoubleNotContained(r, '.');
    NoDoubleNotContained(r, '/');
  }

  /** A sanitised path has no "..", no "//" and no control character. */
  lemma {:induction false} SanitizedFilePathShape(path: string)
    ensures var r := SanitizedFilePath(path);
      && !Contains(r, "..") && !Contains(r, "//")
      && AllOf(r, NotControl)
  {
    if path != "" {
      var cleaned := Filter(RemoveChar(path, '\0'), NotControl);
      var d := ReplaceAll(cleaned, "..", "");
      DotDotRemoval(cleaned);
      assert AllOf(d, NotControl) by {
        forall i | 0 <= i < |d| ensures NotControl(d[i]) {
          var k :| 0 <= k < |cleaned| && cleaned[k] == d[i];
        }
      }
      CollapsedPathShape(d);
    }
  }

  // ---------------------------------------------------------------- truncation

  /** `TruncateString`: empty for an empty input or a non-positive limit,
      the input itself when it fits, otherwise its first `maxLength` runes. */
  function TruncateString(input: string, maxLength: int): (r: string)
    ensures maxLength <= 0 ==> r == ""
    ensures |r| <= |input| && r == input[..|r|]
    ensures maxLength > 0 ==> |r| == if |input| <= maxLength then |input| else maxLength
  {
    if input == "" || maxLength <= 0 then ""
    else if |input| <= maxLength then input
    else input[..maxLength]
  }

  // ------------------------------------------------------------------ slices

  /** What one item contributes to `SanitizeSlice`: its sanitised form,
      unless that is empty. */
  function NonEmptyResult(sanitize: string -> string): (nat, string) -> Option<string>
  {
    (i: nat, s: string) => if sanitize(s) == "" then None else Some(sanitize(s))
  }

  function SanitizedSlice(input: seq<string>, sanitize: string -> string): seq<string>
  {
    SelectFrom(input, 0, NonEmptyResult(sanitize))
  }

  /** `SanitizeSlice`. */
  method SanitizeSlice(input: seq<string>, sanitize: string -> string) returns (r: seq<string>)
    ensures r == SanitizedSlice(input, sanitize)
  {
    if |input| == 0 {
      return input;
    }
    r := SelectEach(input, NonEmptyResult(sanitize));
  }

  /** The result keeps the input's order, holds no empty string, and drops
      exactly the items that sanitise to the empty string. */
  lemma {:induction false} SanitizedSliceShape(input: seq<string>, sanitize: string -> string)
    ensures var r, idx := SanitizedSlice(input, sanitize), SelectedFrom(input, 0, NonEmptyResult(sanitize));
      && |r| == |idx|
      && (forall k :: 0 <= k < |idx| ==> idx[k] < |input| && r[k] == sanitize(input[idx[k]]) && r[k] != "")
      && (forall k, l :: 0 <= k < l < |idx| ==> idx[k] < idx[l])
      && (forall j :: 0 <= j < |input| && sanitize(input[j]) != "" ==> j in idx)
  {
    SelectShape(input, 0, NonEmptyResult(sanitize));
  }
}
