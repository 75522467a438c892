/** Reading a task back from its file (internal/core/parse.go): the ID in
    the file name, the sections of the markdown body, and the
    acceptance-criteria checkbox lines. */
module Parse {
  import opened Wrappers
  import opened Text
  import opened TaskIds
  import opened Tasks

  // ------------------------------------------------- ID from a file name

  /** Why a file name carries no task ID. */
  datatype FileNameError = WrongIDFormat | BadID(cause: ParseError)

  /** The first part of `strings.SplitN(name, "-", 2)` when there are two
      parts: the text before the first "-"; none when there is no "-". */
  function BeforeSeparator(s: string): (r: Option<string>)
    ensures r.None? <==> '-' !in s
    ensures r.Some? ==> HasPrefix(s, r.value + "-") && '-' !in r.value
    decreases |s|
  {
    if |s| == 0 then None
    else if s[0] == '-' then Some("")
    else
      match BeforeSeparator(s[1..])
      case None => None
      case Some(p) =>
        assert s[..|p| + 2] == [s[0]] + s[1..][..|p| + 1];
        Some([s[0]] + p)
  }

  /** The text before the first "-" is determined by any prefix ending in a
      "-" that has no "-" before it. */
  lemma {:induction false} BeforeSeparatorOf(s: string, p: string)
    requires HasPrefix(s, p + "-") && '-' !in p
    ensures BeforeSeparator(s) == Some(p)
    decreases |p|
  {
    if |p| > 0 {
      assert s[0] == p[0];
      assert s[1..][..|p|] == (p + "-")[1..] == p[1..] + "-";
      BeforeSeparatorOf(s[1..], p[1..]);
      assert [p[0]] + p[1..] == p;
    } else {
      assert s[0] == '-';
    }
  }

  /** `parseTaskIDfromFileName`: a name without "-" is the wrong format;
      otherwise the text before the first "-" is parsed as a task ID. */
  function ParseTaskIDFromFileName(fileName: string): (r: Result<TaskID, FileNameError>)
    ensures r == Err(WrongIDFormat) <==> '-' !in fileName
    ensures '-' in fileName ==>
      var id := ParseTaskID(BeforeSeparator(fileName).value);
      && (r.Ok? <==> id.Ok?)
      && (r.Ok? ==> r.value == id.value)
      && (r.Err? ==> r.error == BadID(id.error))
  {
    match BeforeSeparator(fileName)
    case None => Err(WrongIDFormat)
    case Some(prefix) =>
      match ParseTaskID(prefix)
      case Ok(id) => Ok(id)
      case Err(e) => Err(BadID(e))
  }

  /** The Name of an ID with non-negative segments holds no "-". */
  lemma {:induction false} NameHasNoDash(t: TaskID)
    requires ParsableSegments(t.seg)
    ensures '-' !in Name(t)
  {
    var parts := PaddedSegments(t.seg);
    forall i | 0 <= i < |parts| ensures '-' !in parts[i] {
      assert AllDigits(parts[i]);
    }
    JoinAvoids(parts, ".", '-');
    assert Name(t) == "T" + String(t);
    if |parts| > 0 {
      assert String(t) == Join(parts, ".");
    }
  }

  /** The ID read back from a task's file name is the task's ID. */
  lemma {:induction false} FileNameRoundTrip(t: Task)
    requires |t.id.seg| >= 1 && ParsableSegments(t.id.seg)
    ensures ParseTaskIDFromFileName(FileName(t)) == Ok(t.id)
  {
    NameHasNoDash(t.id);
    BeforeSeparatorOf(FileName(t), Name(t.id));
    ParseString(t.id);
  }

  /** A name without "-" (such as "T01.md") is rejected. */
  lemma {:induction false} FileNameWithoutDash(fileName: string)
    requires '-' !in fileName
    ensures ParseTaskIDFromFileName(fileName) == Err(WrongIDFormat)
  {
  }

  // ----------------------------------------------------------- sections

  /** The headers `splitByHeaders` looks for, in the order it tries them. */
  const Headers: seq<string> := [DescHeader, ACHeader, PlanHeader, NotesHeader]

  /** The four sections, which key the result of `splitByHeaders` (the
      source keys it by the header strings, which are distinct). */
  datatype SectionName = Description | AcceptanceCriteria | ImplementationPlan | ImplementationNotes

  /** The sections in the order of `Headers`. */
  const SectionNames: seq<SectionName> := [Description, AcceptanceCriteria, ImplementationPlan, ImplementationNotes]

  predicate Distinct(names: seq<SectionName>)
  {
    forall a, b :: 0 <= a < b < |names| ==> names[a] != names[b]
  }

  lemma {:induction false} SectionNamesDistinct()
    ensures Distinct(SectionNames) && |SectionNames| == |Headers|
  {
  }

  // The definitions below take the header list `hs` as a parameter; the
  // split uses them with `Headers`.

  /** The first header at list position `j` or later whose first
      occurrence in `content` is at or after `from`. */
  function NextHeader(content: string, hs: seq<string>, j: nat, from: nat): (r: Option<nat>)
    requires j <= |hs|
    ensures r.Some? ==>
      && j <= r.value < |hs|
      && Index(content, hs[r.value]) >= from
      && forall k :: j <= k < r.value ==> Index(content, hs[k]) < from
    ensures r.None? <==> forall k :: j <= k < |hs| ==> Index(content, hs[k]) < from
    decreases |hs| - j
  {
    if j == |hs| then None
    else if Index(content, hs[j]) >= from then Some(j)
    else NextHeader(content, hs, j + 1, from)
  }

  lemma {:induction false} NextHeaderIs(content: string, hs: seq<string>, j: nat, from: nat, k: nat)
    requires j <= k < |hs| && Index(content, hs[k]) >= from
    requires forall m :: j <= m < k ==> Index(content, hs[m]) < from
    ensures NextHeader(content, hs, j, from) == Some(k)
    decreases k - j
  {
    if j < k {
      NextHeaderIs(content, hs, j + 1, from, k);
    }
  }

  /** Where a section stops: at the first occurrence of the header
      `NextHeader` picks, or at the end of the content. */
  function SectionEnd(content: string, hs: seq<string>, j: nat, from: nat): (end: nat)
    requires j <= |hs| && from <= |content|
    ensures from <= end <= |content|
    ensures NextHeader(content, hs, j, from).None? ==> end == |content|
    ensures NextHeader(content, hs, j, from).Some? ==>
      end == Index(content, hs[NextHeader(content, hs, j, from).value])
  {
    match NextHeader(content, hs, j, from)
    case None => |content|
    case Some(k) => Index(content, hs[k])
  }

  /** Where the text of the section of header `i` begins: just after the
      first occurrence of the header. */
  function SectionStart(content: string, hs: seq<string>, i: nat): (from: nat)
    requires i < |hs| && Contains(content, hs[i])
    ensures |hs[i]| <= from <= |content| && MatchAt(content, hs[i], from - |hs[i]|)
  {
    Index(content, hs[i]) + |hs[i]|
  }

  /** The section of header `i`: the trimmed text from the end of the
      header up to the first later-listed header found after it. */
  function SectionText(content: string, hs: seq<string>, i: nat): (text: string)
    requires i < |hs| && Contains(content, hs[i])
    ensures |text| <= |content| - SectionStart(content, hs, i)
  {
    var from := SectionStart(content, hs, i);
    TrimSpace(content[from..SectionEnd(content, hs, i + 1, from)])
  }

  /** The section of header `i`, or "" when the header is missing. */
  function SectionOrEmpty(content: string, hs: seq<string>, i: nat): (text: string)
    requires i < |hs|
    ensures !Contains(content, hs[i]) ==> text == ""
    ensures Contains(content, hs[i]) ==> text == SectionText(content, hs, i)
  {
    if Contains(content, hs[i]) then SectionText(content, hs, i) else ""
  }

  /** `splitByHeaders` as the source writes it: the section ends at the
      first later-listed header present anywhere in the content.  When that
      header comes before the end of the current one, the slice bounds are
      reversed and the source panics; that outcome is `None`. */
  function SectionAsWritten(content: string, hs: seq<string>, i: nat): (r: Option<string>)
    requires i < |hs| && Contains(content, hs[i])
    ensures r.None? <==> SectionEnd(content, hs, i + 1, 0) < SectionStart(content, hs, i)
    ensures r.Some? ==> r.value == SectionText(content, hs, i)
  {
    var from := SectionStart(content, hs, i);
    var end := SectionEnd(content, hs, i + 1, 0);
    if end < from then None
    else
      NoPanicAgrees(content, hs, i + 1, from);
      Some(TrimSpace(content[from..end]))
  }

  /** Where the as-written search does not panic, it stops at the same
      header as the corrected one. */
  lemma {:induction false} NoPanicAgrees(content: string, hs: seq<string>, j: nat, from: nat)
    requires j <= |hs| && from <= |content|
    requires SectionEnd(content, hs, j, 0) >= from
    ensures SectionEnd(content, hs, j, 0) == SectionEnd(content, hs, j, from)
  {
    match NextHeader(content, hs, j, 0)
    case None =>
      assert SectionEnd(content, hs, j, 0) == |content|;
    case Some(k) =>
      NextHeaderIs(content, hs, j, from, k);
  }

  /** Whenever the second listed header occurs before the first, the
      as-written split panics on the first. */
  lemma {:induction false} SecondBeforeFirstPanics(content: string, hs: seq<string>)
    requires |hs| >= 2 && |hs[0]| > 0
    requires Contains(content, hs[0]) && Contains(content, hs[1])
    requires Index(content, hs[1]) < Index(content, hs[0])
    ensures SectionAsWritten(content, hs, 0).None?
  {
    NextHeaderIs(content, hs, 1, 0, 1);
  }

  /** A concrete input that makes the as-written split panic: the
      Acceptance Criteria header before the Description header. */
  lemma {:induction false} SwappedHeadersPanic()
    ensures var content := "## Acceptance Criteria\n## Description\n";
      Contains(content, DescHeader) && SectionAsWritten(content, Headers, 0).None?
      && SplitPanics(content, Headers)
  {
    var content := "## Acceptance Criteria\n## Description\n";
    assert content[3] == 'A';
    assert DescHeader[3] == 'D';
    assert !MatchAt(content, DescHeader, 0) by {
      assert content[..|DescHeader|][3] != DescHeader[3];
    }
    assert MatchAt(content, ACHeader, 0);
    assert MatchAt(content, DescHeader, 23);
    SecondBeforeFirstPanics(content, Headers);
    assert PanicsAt(content, Headers, 0);
  }

  /** Which headers occur in the content. */
  function Present(content: string, hs: seq<string>): (present: seq<bool>)
    ensures |present| == |hs|
    ensures forall k :: 0 <= k < |hs| ==> present[k] == Contains(content, hs[k])
  {
    seq(|hs|, k requires 0 <= k < |hs| => Contains(content, hs[k]))
  }

  /** The section of every header, "" for a missing one. */
  function Texts(content: string, hs: seq<string>): (texts: seq<string>)
    ensures |texts| == |hs|
    ensures forall k :: 0 <= k < |hs| ==> texts[k] == SectionOrEmpty(content, hs, k)
  {
    seq(|hs|, k requires 0 <= k < |hs| => SectionOrEmpty(content, hs, k))
  }

  /** The section map after the first `n` headers: exactly the present ones
      are keys, each mapped to its text. */
  predicate IsSectionMap(sections: map<SectionName, string>, names: seq<SectionName>, present: seq<bool>, texts: seq<string>, n: nat)
    requires n <= |names| == |present| == |texts|
  {
    && (forall k :: 0 <= k < n ==> (names[k] in sections <==> present[k]))
    && (forall k :: 0 <= k < n && names[k] in sections ==> sections[names[k]] == texts[k])
    && (forall k :: n <= k < |names| ==> names[k] !in sections)
  }

  lemma {:induction false} SkipSection(sections: map<SectionName, string>, names: seq<SectionName>, present: seq<bool>, texts: seq<string>, i: nat)
    requires i < |names| == |present| == |texts| && !present[i]
    requires IsSectionMap(sections, names, present, texts, i)
    ensures IsSectionMap(sections, names, present, texts, i + 1)
  {
  }

  lemma {:induction false} AddSection(sections: map<SectionName, string>, names: seq<SectionName>, present: seq<bool>, texts: seq<string>, i: nat)
    requires i < |names| == |present| == |texts| && present[i] && Distinct(names)
    requires IsSectionMap(sections, names, present, texts, i)
    ensures IsSectionMap(sections[names[i] := texts[i]], names, present, texts, i + 1)
  {
  }

  /** The inner loop of `splitByHeaders`: the first header from list
      position `j` on whose first occurrence is at or after `from` ends
      the section.  With `from` = 0 this is the test of the source, which
      takes any header that is present. */
  method FindSectionEnd(content: string, hs: seq<string>, j: nat, from: nat) returns (end: nat)
    requires j <= |hs| && from <= |content|
    ensures end == SectionEnd(content, hs, j, from)
  {
    end := |content|;
    var k := j;
    while k < |hs|
      invariant j <= k <= |hs|
      invariant end == |content|
      invariant forall m :: j <= m < k ==> Index(content, hs[m]) < from
    {
      var next := Index(content, hs[k]);
      if next >= from {
        NextHeaderIs(content, hs, j, from, k);
        end := next;
        return;
      }
      k := k + 1;
    }
  }

  /** Facts about header `i` when the loop finds it: it is present, and
      its text is the trimmed slice between `from` and `end`. */
  lemma {:induction false} FoundSection(content: string, hs: seq<string>, i: nat, from: nat, end: nat)
    requires i < |hs| && Index(content, hs[i]) != -1
    requires from == Index(content, hs[i]) + |hs[i]|
    requires from <= |content| && end == SectionEnd(content, hs, i + 1, from)
    ensures Present(content, hs)[i]
    ensures Texts(content, hs)[i] == TrimSpace(content[from..end])
  {
    assert Contains(content, hs[i]);
    assert SectionStart(content, hs, i) == from;
  }

  lemma {:induction false} MissingSection(content: string, hs: seq<string>, i: nat)
    requires i < |hs| && Index(content, hs[i]) == -1
    ensures !Present(content, hs)[i]
  {
  }

  /** The split over any list of distinct headers, named by `names`. */
  method SplitSections(content: string, hs: seq<string>, names: seq<SectionName>) returns (sections: map<SectionName, string>)
    requires |names| == |hs| && Distinct(names)
    ensures IsSectionMap(sections, names, Present(content, hs), Texts(content, hs), |hs|)
  {
    ghost var present, texts := Present(content, hs), Texts(content, hs);
    sections := map[];
    for i := 0 to |hs|
      invariant IsSectionMap(sections, names, present, texts, i)
    {
      var start := Index(content, hs[i]);
      if start == -1 {
        MissingSection(content, hs, i);
        SkipSection(sections, names, present, texts, i);
      } else {
        var from := start + |hs[i]|;
        var end := FindSectionEnd(content, hs, i + 1, from);
        var text := TrimSpace(content[from..end]);
        FoundSection(content, hs, i, from, end);
        AddSection(sections, names, present, texts, i);
        sections := sections[names[i] := text];
      }
    }
  }

  /** `splitByHeaders`, corrected so that a section ends at the first
      later-listed header that occurs after it: every present header maps
      to its section, and nothing else is in the map. */
  method SplitByHeaders(content: string) returns (sections: map<SectionName, string>)
    ensures IsSectionMap(sections, SectionNames, Present(content, Headers), Texts(content, Headers), |Headers|)
  {
    SectionNamesDistinct();
    sections := SplitSections(content, Headers, SectionNames);
  }

  /** The as-written split panics on header `k`. */
  predicate PanicsAt(content: string, hs: seq<string>, k: nat)
    requires k < |hs|
  {
    Contains(content, hs[k]) && SectionAsWritten(content, hs, k).None?
  }

  /** The as-written split panics on some header. */
  predicate SplitPanics(content: string, hs: seq<string>)
  {
    exists k :: 0 <= k < |hs| && PanicsAt(content, hs, k)
  }

  /** On which headers the as-written split panics. */
  function Panics(content: string, hs: seq<string>): (panics: seq<bool>)
    ensures |panics| == |hs|
    ensures forall k :: 0 <= k < |hs| ==> panics[k] == PanicsAt(content, hs, k)
  {
    seq(|hs|, k requires 0 <= k < |hs| => PanicsAt(content, hs, k))
  }

  lemma {:induction false} PanicsSome(content: string, hs: seq<string>, panics: seq<bool>, i: nat)
    requires panics == Panics(content, hs) && i < |hs| && panics[i]
    ensures SplitPanics(content, hs)
  {
    assert PanicsAt(content, hs, i);
  }

  lemma {:induction false} PanicsNone(content: string, hs: seq<string>, panics: seq<bool>)
    requires panics == Panics(content, hs)
    requires forall k :: 0 <= k < |hs| ==> !panics[k]
    ensures !SplitPanics(content, hs)
  {
  }

  lemma {:induction false} FoundAsWritten(content: string, hs: seq<string>, i: nat, from: nat, end: nat)
    requires i < |hs| && Index(content, hs[i]) != -1
    requires from == Index(content, hs[i]) + |hs[i]|
    requires from <= |content| && end == SectionEnd(content, hs, i + 1, 0)
    ensures Panics(content, hs)[i] <==> end < from
    ensures end >= from ==> Present(content, hs)[i] && Texts(content, hs)[i] == TrimSpace(content[from..end])
  {
    assert Contains(content, hs[i]);
    assert SectionStart(content, hs, i) == from;
    if end >= from {
      NoPanicAgrees(content, hs, i + 1, from);
    }
  }

  lemma {:induction false} MissingAsWritten(content: string, hs: seq<string>, i: nat)
    requires i < |hs| && Index(content, hs[i]) == -1
    ensures !Present(content, hs)[i] && !Panics(content, hs)[i]
  {
  }

  /** The as-written split does not panic on the first `n` headers. */
  predicate NoPanicBefore(content: string, hs: seq<string>, n: nat)
    requires n <= |hs|
  {
    forall k :: 0 <= k < n ==> !PanicsAt(content, hs, k)
  }

  /** A missing header: the as-written loop goes on with the map unchanged. */
  lemma {:induction false} MissingStep(content: string, hs: seq<string>, names: seq<SectionName>, sections: map<SectionName, string>, i: nat)
    requires i < |hs| == |names| && Index(content, hs[i]) == -1
    requires IsSectionMap(sections, names, Present(content, hs), Texts(content, hs), i) && NoPanicBefore(content, hs, i)
    ensures IsSectionMap(sections, names, Present(content, hs), Texts(content, hs), i + 1) && NoPanicBefore(content, hs, i + 1)
  {
    MissingAsWritten(content, hs, i);
    SkipSection(sections, names, Present(content, hs), Texts(content, hs), i);
  }

  /** A present header whose end is not before its start: the as-written
      loop records its section. */
  lemma {:induction false} FoundStep(content: string, hs: seq<string>, names: seq<SectionName>, sections: map<SectionName, string>,
                                     i: nat, from: nat, end: nat)
    requires i < |hs| == |names| && Distinct(names) && Index(content, hs[i]) != -1
    requires from == Index(content, hs[i]) + |hs[i]| && from <= end <= |content|
    requires end == SectionEnd(content, hs, i + 1, 0)
    requires IsSectionMap(sections, names, Present(content, hs), Texts(content, hs), i) && NoPanicBefore(content, hs, i)
    ensures IsSectionMap(sections[names[i] := TrimSpace(content[from..end])], names, Present(content, hs), Texts(content, hs), i + 1)
    ensures NoPanicBefore(content, hs, i + 1)
  {
    FoundAsWritten(content, hs, i, from, end);
    var present, texts := Present(content, hs), Texts(content, hs);
    assert present[i] && texts[i] == TrimSpace(content[from..end]);
    AddSection(sections, names, present, texts, i);
    assert !Panics(content, hs)[i];
    NoPanicExtend(content, hs, i);
  }

  lemma {:induction false} NoPanicExtend(content: string, hs: seq<string>, i: nat)
    requires i < |hs| && NoPanicBefore(content, hs, i) && !Panics(content, hs)[i]
    ensures NoPanicBefore(content, hs, i + 1)
  {
  }

  /** The as-written split over any list of distinct headers. */
  method SplitSectionsAsWritten(content: string, hs: seq<string>, names: seq<SectionName>) returns (r: Option<map<SectionName, string>>)
    requires |names| == |hs| && Distinct(names)
    ensures r.None? <==> SplitPanics(content, hs)
    ensures r.Some? ==> IsSectionMap(r.value, names, Present(content, hs), Texts(content, hs), |hs|)
  {
    var sections := map[];
    for i := 0 to |hs|
      invariant IsSectionMap(sections, names, Present(content, hs), Texts(content, hs), i)
      invariant NoPanicBefore(content, hs, i)
    {
      var start := Index(content, hs[i]);
      if start == -1 {
        MissingStep(content, hs, names, sections, i);
      } else {
        var from := start + |hs[i]|;
        var end := FindSectionEnd(content, hs, i + 1, 0);
        FoundAsWritten(content, hs, i, from, end);
        if end < from {
          PanicsSome(content, hs, Panics(content, hs), i);
          return None;
        }
        FoundStep(content, hs, names, sections, i, from, end);
        sections := sections[names[i] := TrimSpace(content[from..end])];
      }
    }
    PanicsNone(content, hs, Panics(content, hs));
    r := Some(sections);
  }

  /** `splitByHeaders` exactly as written: `None` where the source panics
      on reversed slice bounds, otherwise the same map as the corrected
      split. */
  method SplitByHeadersAsWritten(content: string) returns (r: Option<map<SectionName, string>>)
    ensures r.None? <==> SplitPanics(content, Headers)
    ensures r.Some? ==> IsSectionMap(r.value, SectionNames, Present(content, Headers), Texts(content, Headers), |Headers|)
  {
    SectionNamesDistinct();
    r := SplitSectionsAsWritten(content, Headers, SectionNames);
  }

  /** `getSectionContent`: the section of a header, "" when it is missing. */
  function GetSectionContent(sections: map<SectionName, string>, name: SectionName): (text: string)
    ensures name in sections ==> text == sections[name]
    ensures name !in sections ==> text == ""
  {
    if name in sections then sections[name] else ""
  }

  /** Looking up a header in the split gives its section, or "" when the
      header does not occur in the content. */
  lemma {:induction false} GetSectionOfSplit(content: string, sections: map<SectionName, string>, i: nat)
    requires i < |Headers|
    requires IsSectionMap(sections, SectionNames, Present(content, Headers), Texts(content, Headers), |Headers|)
    ensures GetSectionContent(sections, SectionNames[i]) == SectionOrEmpty(content, Headers, i)
  {
  }

  // ----------------------------------------------------- checkbox lines

  /** The line does not end in a carriage return. */
  predicate NoCR(line: string) { !(|line| > 0 && line[|line| - 1] == '\r') }

  /** `line` without one trailing carriage return. */
  function DropCR(line: string): (r: string)
    ensures NoCR(line) ==> r == line
    ensures !NoCR(line) ==> r == line[..|line| - 1]
  {
    if NoCR(line) then line else line[..|line| - 1]
  }

  function DropCRs(lines: seq<string>): (r: seq<string>)
    ensures |r| == |lines|
    decreases |lines|
  {
    if |lines| == 0 then [] else [DropCR(lines[0])] + DropCRs(lines[1..])
  }

  /** The pieces of a split without the last one when it is empty. */
  function DropFinalEmpty(parts: seq<string>): (kept: seq<string>)
    ensures |kept| <= |parts|
  {
    if |parts| > 0 && parts[|parts| - 1] == "" then parts[..|parts| - 1] else parts
  }

  /** The lines `bufio.Scanner` yields with `ScanLines`: the text split at
      "\n", a final empty piece (after a closing newline, or of the empty
      text) dropped, and one "\r" removed from the end of every line. */
  function ScanLines(content: string): (lines: seq<string>)
  {
    DropCRs(DropFinalEmpty(Split(content, '\n')))
  }

  /** Each line followed by a newline. */
  function Terminated(lines: seq<string>): (text: string)
    decreases |lines|
  {
    if |lines| == 0 then "" else lines[0] + "\n" + Terminated(lines[1..])
  }

  /** A line the scanner gives back unchanged. */
  predicate PlainLine(line: string) { '\n' !in line && NoCR(line) }

  predicate AllPlain(lines: seq<string>)
  {
    forall i :: 0 <= i < |lines| ==> PlainLine(lines[i])
  }

  lemma {:induction false} DropCRsPlain(lines: seq<string>)
    requires AllPlain(lines)
    ensures DropCRs(lines) == lines
    decreases |lines|
  {
    if |lines| > 0 {
      DropCRsPlain(lines[1..]);
    }
  }

  lemma {:induction false} SplitTerminated(lines: seq<string>, rest: string)
    requires AllPlain(lines)
    ensures Split(Terminated(lines) + rest, '\n') == lines + Split(rest, '\n')
    decreases |lines|
  {
    if |lines| > 0 {
      var t := Terminated(lines[1..]);
      SplitTerminated(lines[1..], rest);
      assert Terminated(lines) == lines[0] + ['\n'] + t;
      AppendAssoc(lines[0] + ['\n'], t, rest);
      SplitCons(lines[0], '\n', t + rest);
      AppendAssoc([lines[0]], lines[1..], Split(rest, '\n'));
      assert lines == [lines[0]] + lines[1..];
    } else {
      assert Terminated(lines) + rest == rest;
    }
  }

  /** Scanning newline-terminated plain lines gives them back; in
      particular the empty text has no lines. */
  lemma {:induction false} ScanTerminated(lines: seq<string>)
    requires AllPlain(lines)
    ensures ScanLines(Terminated(lines)) == lines
  {
    SplitTerminated(lines, "");
    assert Terminated(lines) + "" == Terminated(lines);
    assert (lines + [""])[..|lines|] == lines;
    DropCRsPlain(lines);
  }

  /** A last line without a newline is scanned too. */
  lemma {:induction false} ScanUnterminatedLast(lines: seq<string>, last: string)
    requires AllPlain(lines)
    requires PlainLine(last) && last != ""
    ensures ScanLines(Terminated(lines) + last) == lines + [last]
  {
    var all := lines + [last];
    SplitWithLast(lines, last);
    assert all[|all| - 1] == last;
    PlainSnoc(lines, last);
    DropCRsPlain(all);
  }

  lemma {:induction false} SplitWithLast(lines: seq<string>, last: string)
    requires AllPlain(lines) && '\n' !in last
    ensures Split(Terminated(lines) + last, '\n') == lines + [last]
  {
    SplitTerminated(lines, last);
    SplitNoSep(last, '\n');
  }

  lemma {:induction false} PlainSnoc(lines: seq<string>, last: string)
    requires AllPlain(lines) && PlainLine(last)
    ensures AllPlain(lines + [last])
  {
    var all := lines + [last];
    forall i | 0 <= i < |all| ensures PlainLine(all[i]) {
      if i < |lines| {
        assert all[i] == lines[i];
      }
    }
  }

  /** The length of the run of digits starting at `i`. */
  function DigitRun(s: string, i: nat): (n: nat)
    requires i <= |s|
    ensures i + n <= |s|
    decreases |s| - i
  {
    if i < |s| && IsDigit(s[i]) then 1 + DigitRun(s, i + 1) else 0
  }

  /** The run is all digits and cannot be extended. */
  lemma {:induction false} DigitRunMaximal(s: string, i: nat)
    requires i <= |s|
    ensures forall k :: i <= k < i + DigitRun(s, i) ==> IsDigit(s[k])
    ensures i + DigitRun(s, i) == |s| || !IsDigit(s[i + DigitRun(s, i)])
    decreases |s| - i
  {
    if i < |s| && IsDigit(s[i]) {
      DigitRunMaximal(s, i + 1);
    }
  }

  /** Conversely, a maximal run of digits is the run. */
  lemma {:induction false} DigitRunIs(s: string, i: nat, n: nat)
    requires i + n <= |s|
    requires forall k :: i <= k < i + n ==> IsDigit(s[k])
    requires i + n == |s| || !IsDigit(s[i + n])
    ensures DigitRun(s, i) == n
    decreases n
  {
    if n > 0 {
      DigitRunIs(s, i + 1, n - 1);
    }
  }

  /** The pattern `- \[( |x)\] #(\d+) (.*)` matches at position `p`: the
      digits are the longest run there, since a shorter one would be
      followed by a digit rather than the space. */
  predicate ACMatchAt(line: string, p: nat)
  {
    && p + 7 <= |line|
    && line[p] == '-' && line[p + 1] == ' ' && line[p + 2] == '['
    && (line[p + 3] == ' ' || line[p + 3] == 'x')
    && line[p + 4] == ']' && line[p + 5] == ' ' && line[p + 6] == '#'
    && var n := DigitRun(line, p + 7);
       n >= 1 && p + 7 + n < |line| && line[p + 7 + n] == ' '
  }

  /** The leftmost position at or after `p` where the pattern matches. */
  function FirstACMatch(line: string, p: nat): (r: Option<nat>)
    requires p <= |line|
    ensures r.Some? ==> p <= r.value <= |line| && ACMatchAt(line, r.value)
    decreases |line| - p
  {
    if ACMatchAt(line, p) then Some(p)
    else if p == |line| then None
    else FirstACMatch(line, p + 1)
  }

  /** The match found is the leftmost one, and there is none when none is
      found. */
  lemma {:induction false} FirstACMatchLeftmost(line: string, p: nat)
    requires p <= |line|
    ensures FirstACMatch(line, p).Some? ==>
      forall q :: p <= q < FirstACMatch(line, p).value ==> !ACMatchAt(line, q)
    ensures FirstACMatch(line, p).None? <==> forall q :: p <= q <= |line| ==> !ACMatchAt(line, q)
    decreases |line| - p
  {
    if !ACMatchAt(line, p) && p < |line| {
      FirstACMatchLeftmost(line, p + 1);
    }
  }

  /** `ac` is what the match at `p` captures: checked iff the box holds
      "x", the index read from the digits (a value beyond the 64-bit range
      reads as its maximum), the text everything after the space. */
  predicate CapturedAt(line: string, p: nat, ac: AcceptanceCriterion)
  {
    && ACMatchAt(line, p)
    && var n := DigitRun(line, p + 7);
       DigitRunMaximal(line, p + 7);
       && ac.checked == (line[p + 3] == 'x')
       && ac.index == AtoiIgnoringError(line[p + 7..p + 7 + n])
       && ac.text == line[p + 8 + n..]
  }

  /** The criterion the match at `p` captures. */
  function Capture(line: string, p: nat): (ac: AcceptanceCriterion)
    requires ACMatchAt(line, p)
    ensures CapturedAt(line, p, ac)
  {
    var n := DigitRun(line, p + 7);
    DigitRunMaximal(line, p + 7);
    AcceptanceCriterion(line[p + 8 + n..], line[p + 3] == 'x', AtoiIgnoringError(line[p + 7..p + 7 + n]))
  }

  /** A line's criterion: the one captured by the leftmost match. */
  function ParseACLine(line: string): (r: Option<AcceptanceCriterion>)
  {
    match FirstACMatch(line, 0)
    case None => None
    case Some(p) => Some(Capture(line, p))
  }

  /** A line holds a criterion iff the pattern matches somewhere in it, and
      the criterion is the one captured at the leftmost match. */
  lemma {:induction false} ParseACLineMeaning(line: string)
    ensures ParseACLine(line).None? <==> forall q :: 0 <= q <= |line| ==> !ACMatchAt(line, q)
    ensures ParseACLine(line).Some? ==>
      var p := FirstACMatch(line, 0).value;
      && CapturedAt(line, p, ParseACLine(line).value)
      && forall q :: 0 <= q < p ==> !ACMatchAt(line, q)
  {
    FirstACMatchLeftmost(line, 0);
  }

  /** The criteria of a list of lines, in line order. */
  function CollectACs(lines: seq<string>): (acs: seq<AcceptanceCriterion>)
    ensures |acs| <= |lines|
    decreases |lines|
  {
    if |lines| == 0 then []
    else
      match ParseACLine(lines[0])
      case Some(ac) => [ac] + CollectACs(lines[1..])
      case None => CollectACs(lines[1..])
  }

  lemma {:induction false} CollectAppend(a: seq<string>, b: seq<string>)
    ensures CollectACs(a + b) == CollectACs(a) + CollectACs(b)
    decreases |a|
  {
    if |a| > 0 {
      var ab := a + b;
      assert ab[0] == a[0] && ab[1..] == a[1..] + b;
      CollectAppend(a[1..], b);
      var m := ParseACLine(a[0]);
      if m.Some? {
        assert CollectACs(ab) == [m.value] + CollectACs(a[1..] + b);
        assert CollectACs(a) == [m.value] + CollectACs(a[1..]);
        AppendAssoc([m.value], CollectACs(a[1..]), CollectACs(b));
      } else {
        assert CollectACs(ab) == CollectACs(a[1..] + b);
        assert CollectACs(a) == CollectACs(a[1..]);
      }
    } else {
      assert a + b == b;
    }
  }

  /** One more line adds its criterion, if it has one, at the end. */
  lemma {:induction false} CollectSnoc(a: seq<string>, line: string)
    ensures CollectACs(a + [line]) ==
      CollectACs(a) + (if ParseACLine(line).Some? then [ParseACLine(line).value] else [])
  {
    CollectAppend(a, [line]);
    assert [line][1..] == [];
  }

  /** `parseAcceptanceCriteria`: one criterion per matching line, then
      sorted by index.  The sort is not stable, so only sortedness and the
      multiset of criteria are promised. */
  method ParseAcceptanceCriteria(content: string) returns (criteria: seq<AcceptanceCriterion>)
    ensures SortedByIndex(criteria)
    ensures multiset(criteria) == multiset(CollectACs(ScanLines(content)))
  {
    var lines := ScanLines(content);
    criteria := [];
    var i := 0;
    while i < |lines|
      invariant 0 <= i <= |lines|
      invariant criteria == CollectACs(lines[..i])
    {
      CollectSnoc(lines[..i], lines[i]);
      assert lines[..i + 1] == lines[..i] + [lines[i]];
      var m := ParseACLine(lines[i]);
      if m.Some? {
        criteria := criteria + [m.value];
      }
      i := i + 1;
    }
    assert lines[..i] == lines;
    criteria := SortByIndex(criteria);
  }

  /** `parseMarkdownBody`: the description, plan and notes are their
      sections ("" when missing) and the criteria are those of the
      acceptance-criteria section; every other field is unchanged. */
  method ParseMarkdownBody(t: TaskRef, content: string)
    modifies t
    ensures t.task == old(t.task).(
      description := SectionOrEmpty(content, Headers, 0),
      implementationPlan := SectionOrEmpty(content, Headers, 2),
      implementationNotes := SectionOrEmpty(content, Headers, 3),
      acceptanceCriteria := t.task.acceptanceCriteria)
    ensures SortedByIndex(t.task.acceptanceCriteria)
    ensures multiset(t.task.acceptanceCriteria) == multiset(CollectACs(ScanLines(SectionOrEmpty(content, Headers, 1))))
  {
    var sections := SplitByHeaders(content);
    GetSectionOfSplit(content, sections, 0);
    GetSectionOfSplit(content, sections, 1);
    GetSectionOfSplit(content, sections, 2);
    GetSectionOfSplit(content, sections, 3);
    t.task := t.task.(description := GetSectionContent(sections, Description));
    t.task := t.task.(implementationPlan := GetSectionContent(sections, ImplementationPlan));
    t.task := t.task.(implementationNotes := GetSectionContent(sections, ImplementationNotes));
    var acContent := GetSectionContent(sections, AcceptanceCriteria);
    var acs := ParseAcceptanceCriteria(acContent);
    t.task := t.task.(acceptanceCriteria := acs);
  }

  // ------------------------------------------------ writing, then reading

  /** What a criterion's line must avoid to be read back: a newline in its
      text, a text ending in "\r" (the scanner drops it), and an index
      outside 0 .. 2^63-1. */
  predicate Writable(ac: AcceptanceCriterion)
  {
    0 <= ac.index <= MaxInt64 && PlainLine(ac.text)
  }

  /** The seven characters before a criterion's index. */
  function ACPrefix(box: char): (pre: string)
    ensures |pre| == 7
  {
    ['-', ' ', '[', box, ']', ' ', '#']
  }

  lemma {:induction false} ACTextShape(ac: AcceptanceCriterion)
    requires Writable(ac)
    ensures ACText(ac) == ACPrefix(if ac.checked then 'x' else ' ') + Decimal(ac.index) + [' '] + ac.text
    ensures PlainLine(ACText(ac))
  {
    var box := if ac.checked then "x" else " ";
    var d := Decimal(ac.index);
    var line := ACText(ac);
    assert "- [" + box + "] #" == ACPrefix(box[0]);
    assert '\n' !in d by {
      assert AllDigits(d);
    }
    if |ac.text| == 0 {
      assert line[|line| - 1] == ' ';
    } else {
      assert line[|line| - 1] == ac.text[|ac.text| - 1];
    }
  }

  /** A line laid out as a criterion line matches at its start and
      captures its parts. */
  lemma {:induction false} MatchOfShape(line: string, box: char, d: string, text: string)
    requires line == ACPrefix(box) + d + [' '] + text
    requires (box == ' ' || box == 'x') && |d| > 0 && AllDigits(d)
    ensures ACMatchAt(line, 0)
    ensures Capture(line, 0) == AcceptanceCriterion(text, box == 'x', AtoiIgnoringError(d))
  {
    assert forall k :: 0 <= k < |d| ==> line[7 + k] == d[k];
    assert line[7 + |d|] == ' ';
    DigitRunIs(line, 7, |d|);
    assert line[7..7 + |d|] == d;
    assert line[8 + |d|..] == text;
  }

  /** A written criterion line reads back as the same criterion. */
  lemma {:induction false} ParseACText(ac: AcceptanceCriterion)
    requires Writable(ac)
    ensures ParseACLine(ACText(ac)) == Some(ac)
  {
    ACTextShape(ac);
    MatchOfShape(ACText(ac), if ac.checked then 'x' else ' ', Decimal(ac.index), ac.text);
  }

  /** The written lines of a list of criteria, one per criterion. */
  function ACTexts(acs: seq<AcceptanceCriterion>): (lines: seq<string>)
    ensures |lines| == |acs|
    ensures forall i :: 0 <= i < |acs| ==> lines[i] == ACText(acs[i])
    decreases |acs|
  {
    if |acs| == 0 then [] else [ACText(acs[0])] + ACTexts(acs[1..])
  }

  lemma {:induction false} ACLinesTerminated(acs: seq<AcceptanceCriterion>)
    requires forall i :: 0 <= i < |acs| ==> Writable(acs[i])
    ensures ACLines(acs) == Terminated(ACTexts(acs))
    ensures forall i :: 0 <= i < |acs| ==> PlainLine(ACTexts(acs)[i])
    decreases |acs|
  {
    if |acs| > 0 {
      ACLinesTerminated(acs[1..]);
      ACTextShape(acs[0]);
      assert ACTexts(acs)[1..] == ACTexts(acs[1..]);
    }
  }

  /** Lines that each parse to a criterion give exactly those criteria. */
  lemma {:induction false} CollectParsed(lines: seq<string>, acs: seq<AcceptanceCriterion>)
    requires |lines| == |acs|
    requires forall i :: 0 <= i < |lines| ==> ParseACLine(lines[i]) == Some(acs[i])
    ensures CollectACs(lines) == acs
    decreases |lines|
  {
    if |lines| > 0 {
      CollectParsed(lines[1..], acs[1..]);
    }
  }

  lemma {:induction false} CollectACTexts(acs: seq<AcceptanceCriterion>)
    requires forall i :: 0 <= i < |acs| ==> Writable(acs[i])
    ensures CollectACs(ACTexts(acs)) == acs
  {
    forall i | 0 <= i < |acs| ensures ParseACLine(ACTexts(acs)[i]) == Some(acs[i]) {
      ParseACText(acs[i]);
    }
    CollectParsed(ACTexts(acs), acs);
  }

  /** The criteria `Bytes` writes are read back by the line scan in order,
      and, when their indices strictly increase, the only sorted result is
      the list itself. */
  lemma {:induction false} ACLinesRoundTrip(acs: seq<AcceptanceCriterion>, parsed: seq<AcceptanceCriterion>)
    requires forall i :: 0 <= i < |acs| ==> Writable(acs[i])
    requires StrictlySortedByIndex(acs)
    requires SortedByIndex(parsed) && multiset(parsed) == multiset(CollectACs(ScanLines(ACLines(acs))))
    ensures CollectACs(ScanLines(ACLines(acs))) == acs
    ensures parsed == acs
  {
    ACLinesTerminated(acs);
    ScanTerminated(ACTexts(acs));
    CollectACTexts(acs);
    SortedArrangementUnique(acs, parsed);
  }

  lemma {:induction false} NoBracketNoMatch(line: string, p: nat)
    requires '[' !in line && p <= |line|
    ensures FirstACMatch(line, p).None?
    decreases |line| - p
  {
    assert !ACMatchAt(line, p) by {
      if p + 7 <= |line| {
        assert line[p + 2] in line;
      }
    }
    if p < |line| {
      NoBracketNoMatch(line, p + 1);
    }
  }

  /** A line without "[" holds no criterion. */
  lemma {:induction false} NoBracketNoCriterion(line: string)
    requires '[' !in line
    ensures ParseACLine(line).None?
  {
    NoBracketNoMatch(line, 0);
  }

  /** The trimmed acceptance-criteria section as `Bytes` lays it out: the
      opening comment, a blank line, the criteria, a blank line, the
      closing comment. */
  function ACSectionText(acs: seq<AcceptanceCriterion>): (text: string)
  {
    ACStartComment + "\n\n" + ACLines(acs) + "\n" + ACEndComment
  }

  /** Lines without "[" contribute no criteria. */
  lemma {:induction false} CollectBracketless(lines: seq<string>)
    requires Bracketless(lines)
    ensures CollectACs(lines) == []
    decreases |lines|
  {
    if |lines| > 0 {
      NoBracketNoCriterion(lines[0]);
      CollectBracketless(lines[1..]);
    }
  }

  lemma {:induction false} TerminatedPair(a: string, b: string)
    ensures Terminated([a, b]) == a + "\n" + b + "\n"
  {
    assert [a, b][1..] == [b];
    assert [b][1..] == [];
    assert Terminated([b]) == b + "\n" + Terminated([]);
  }

  lemma {:induction false} TerminatedThree(a: seq<string>, b: seq<string>, c: seq<string>)
    ensures Terminated(a + b + c) == Terminated(a) + Terminated(b) + Terminated(c)
  {
    TerminatedAppend(a + b, c);
    TerminatedAppend(a, b);
  }

  lemma {:induction false} TerminatedOne(a: string)
    ensures Terminated([a]) == a + "\n"
  {
    assert [a][1..] == [];
  }

  lemma {:induction false} PlainThree(a: seq<string>, b: seq<string>, c: seq<string>)
    requires AllPlain(a) && AllPlain(b) && AllPlain(c)
    ensures AllPlain(a + b + c)
  {
    var lines := a + b + c;
    forall i | 0 <= i < |lines| ensures PlainLine(lines[i]) {
      if i < |a| {
        assert lines[i] == a[i];
      } else if i < |a| + |b| {
        assert lines[i] == b[i - |a|];
      } else {
        assert lines[i] == c[i - |a| - |b|];
      }
    }
  }

  lemma {:induction false} EmbeddedScan(before: seq<string>, acs: seq<AcceptanceCriterion>, after: seq<string>, last: string)
    requires AllPlain(before) && AllPlain(after)
    requires PlainLine(last) && last != ""
    requires forall i :: 0 <= i < |acs| ==> Writable(acs[i])
    ensures ScanLines(Terminated(before) + ACLines(acs) + Terminated(after) + last)
      == before + ACTexts(acs) + after + [last]
  {
    ACLinesTerminated(acs);
    var texts := ACTexts(acs);
    TerminatedThree(before, texts, after);
    PlainThree(before, texts, after);
    ScanUnterminatedLast(before + texts + after, last);
  }

  predicate Bracketless(lines: seq<string>)
  {
    forall i :: 0 <= i < |lines| ==> '[' !in lines[i]
  }

  lemma {:induction false} BracketlessTail(after: seq<string>, last: string)
    requires Bracketless(after) && '[' !in last
    ensures Bracketless(after + [last])
  {
    var tail := after + [last];
    forall i | 0 <= i < |tail| ensures '[' !in tail[i] {
      if i < |after| {
        assert tail[i] == after[i];
      }
    }
  }

  lemma {:induction false} CollectThree(a: seq<string>, b: seq<string>, c: seq<string>)
    ensures CollectACs(a + b + c) == CollectACs(a) + CollectACs(b) + CollectACs(c)
  {
    CollectAppend(a + b, c);
    CollectAppend(a, b);
  }

  lemma {:induction false} CollectPieces(lines: seq<string>, a: seq<string>, b: seq<string>, c: seq<string>, acs: seq<AcceptanceCriterion>)
    requires lines == a + b + c
    requires CollectACs(a) == [] && CollectACs(b) == acs && CollectACs(c) == []
    ensures CollectACs(lines) == acs
  {
    CollectThree(a, b, c);
    assert [] + acs + [] == acs;
  }

  lemma {:induction false} EmbeddedCollect(before: seq<string>, acs: seq<AcceptanceCriterion>, after: seq<string>, last: string)
    requires Bracketless(before) && Bracketless(after) && '[' !in last
    requires forall i :: 0 <= i < |acs| ==> Writable(acs[i])
    ensures CollectACs(before + ACTexts(acs) + after + [last]) == acs
  {
    var texts := ACTexts(acs);
    var tail := after + [last];
    BracketlessTail(after, last);
    CollectBracketless(before);
    CollectBracketless(tail);
    CollectACTexts(acs);
    CollectPieces(before + texts + after + [last], before, texts, tail, acs);
  }

  /** Criterion lines between bracket-free plain lines, the last of which
      has no newline, are scanned back as exactly those criteria. */
  lemma {:induction false} EmbeddedRoundTrip(before: seq<string>, acs: seq<AcceptanceCriterion>, after: seq<string>, last: string)
    requires AllPlain(before) && Bracketless(before)
    requires AllPlain(after) && Bracketless(after)
    requires PlainLine(last) && '[' !in last && last != ""
    requires forall i :: 0 <= i < |acs| ==> Writable(acs[i])
    ensures CollectACs(ScanLines(Terminated(before) + ACLines(acs) + Terminated(after) + last)) == acs
  {
    EmbeddedScan(before, acs, after, last);
    EmbeddedCollect(before, acs, after, last);
  }

  /** The framed text is its frame lines, each ended by a newline, around
      the criterion lines, then the closing line. */
  lemma {:induction false} FramedText(start: string, end: string, acs: seq<AcceptanceCriterion>)
    ensures start + "\n\n" + ACLines(acs) + "\n" + end
      == Terminated([start, ""]) + ACLines(acs) + Terminated([""]) + end
  {
    TerminatedPair(start, "");
    TerminatedOne("");
    var tb, ta := Terminated([start, ""]), Terminated([""]);
    assert tb == start + "\n\n";
    assert ta == "\n";
  }

  /** Scanning that section yields exactly the criteria, in order: the
      comment lines and blank lines hold none. */
  lemma {:induction false} ACSectionRoundTrip(acs: seq<AcceptanceCriterion>)
    requires forall i :: 0 <= i < |acs| ==> Writable(acs[i])
    ensures CollectACs(ScanLines(ACSectionText(acs))) == acs
  {
    var before := [ACStartComment, ""];
    var after := [""];
    assert AllPlain(before) && Bracketless(before);
    assert AllPlain(after) && Bracketless(after);
    assert PlainLine(ACEndComment) && '[' !in ACEndComment;
    FramedText(ACStartComment, ACEndComment, acs);
    EmbeddedRoundTrip(before, acs, after, ACEndComment);
  }

  lemma {:induction false} TerminatedAppend(a: seq<string>, b: seq<string>)
    ensures Terminated(a + b) == Terminated(a) + Terminated(b)
    decreases |a|
  {
    if |a| > 0 {
      assert (a + b)[1..] == a[1..] + b;
      TerminatedAppend(a[1..], b);
    } else {
      assert a + b == b;
    }
  }
}
