/** The task record and its textual forms (internal/core/task.go): the file
    name, the markdown body, status and priority names, and the JSON shape
    of the string lists. */
module Tasks {
  import opened Wrappers
  import opened Text
  import opened TaskIds

  /** One acceptance criterion. */
  datatype AcceptanceCriterion = AcceptanceCriterion(text: string, checked: bool, index: int)

  /** What a history entry records, as a structured value standing for the
      message text.  `ValueChanged(f, a, b)` is the message
      "<f> changed from %q to %q" with `a` and `b`, `ListChanged` the same
      with two string lists; `Message` is a fixed text. */
  datatype Change =
    | ACRemoved(index: int, text: string)
    | ACChecked(index: int, text: string)
    | ACUnchecked(index: int, text: string)
    | ACAdded(index: int, text: string)
    | ValueChanged(field: string, before: string, after: string)
    | ListChanged(field: string, beforeList: seq<string>, afterList: seq<string>)
    | Message(text: string)

  /** A history entry; the timestamp is whatever the clock gave. */
  datatype HistoryEntry = HistoryEntry(timestamp: int, change: Change)

  type Status = string
  /** Priorities are the integers 0 (unknown) to 4 (critical); other values
      can be stored but have no name. */
  type Priority = int

  const StatusTodo: Status := "todo"
  const StatusInProgress: Status := "in-progress"
  const StatusDone: Status := "done"
  const StatusCancelled: Status := "cancelled"
  const StatusArchived: Status := "archived"
  const StatusRejected: Status := "rejected"

  /** The statuses, in the order fuzzy matching tries them. */
  const Statuses: seq<Status> :=
    [StatusTodo, StatusInProgress, StatusDone, StatusCancelled, StatusArchived, StatusRejected]

  const PriorityUnknown: Priority := 0
  const PriorityLow: Priority := 1
  const PriorityMedium: Priority := 2
  const PriorityHigh: Priority := 3
  const PriorityCritical: Priority := 4

  /** The priority names, indexed by priority. */
  const Priorities: seq<string> := ["unknown", "low", "medium", "high", "critical"]

  /** A task: front-matter fields and markdown body.  Timestamps are the
      clock's values, taken as given. */
  datatype Task = Task(
    id: TaskID,
    title: string,
    status: Status,
    parent: TaskID,
    assignees: seq<string>,
    labels: seq<string>,
    dependencies: seq<string>,
    priority: Priority,
    createdAt: int,
    updatedAt: int,
    history: seq<HistoryEntry>,
    description: string,
    acceptanceCriteria: seq<AcceptanceCriterion>,
    implementationPlan: string,
    implementationNotes: string)

  /** A task reached through a pointer: operations that edit a task in
      place update this cell. */
  class TaskRef {
    var task: Task

    constructor (t: Task)
      ensures task == t
    {
      task := t;
    }
  }

  // ------------------------------------------------------------- file name

  /** The characters the slug pattern keeps: ASCII letters and digits and
      `_ . ( ) [ ]`. */
  predicate SlugChar(c: char)
  {
    IsAlnum(c) || c == '_' || c == '.' || c == '(' || c == ')' || c == '[' || c == ']'
  }

  /** Drops the leading characters the slug pattern does not keep. */
  function DropDisallowed(s: string): (r: string)
    ensures |r| <= |s| && r == s[|s| - |r|..]
    ensures |r| > 0 ==> SlugChar(r[0])
    decreases |s|
  {
    if |s| > 0 && !SlugChar(s[0]) then DropDisallowed(s[1..]) else s
  }

  /** The pattern replacement: every maximal run of characters outside the
      slug class becomes one "_". */
  function ReplaceDisallowedRuns(s: string): (r: string)
    ensures |r| <= |s|
    ensures forall i :: 0 <= i < |r| ==> SlugChar(r[i])
    ensures forall i :: 0 <= i < |r| ==> r[i] == '_' || r[i] in s
    ensures (forall i :: 0 <= i < |s| ==> SlugChar(s[i])) ==> r == s
    decreases |s|
  {
    if |s| == 0 then ""
    else if SlugChar(s[0]) then [s[0]] + ReplaceDisallowedRuns(s[1..])
    else "_" + ReplaceDisallowedRuns(DropDisallowed(s[1..]))
  }

  predicate IsUnderscore(c: char) { c == '_' }

  /** Only lower-case slug characters. */
  predicate IsSlugText(s: string)
  {
    forall i :: 0 <= i < |s| ==> SlugChar(s[i]) && !IsUpper(s[i])
  }

  lemma {:induction false} ReplacedIsSlugText(s: string)
    requires forall i :: 0 <= i < |s| ==> !IsUpper(s[i])
    ensures IsSlugText(ReplaceDisallowedRuns(s))
  {
    var r := ReplaceDisallowedRuns(s);
    forall i | 0 <= i < |r| ensures SlugChar(r[i]) && !IsUpper(r[i]) {
      if r[i] != '_' {
        var k :| 0 <= k < |s| && s[k] == r[i];
      }
    }
  }

  lemma {:induction false} TrimmedIsSlugText(s: string)
    requires IsSlugText(s)
    ensures IsSlugText(TrimBy(s, IsUnderscore))
  {
    var r := TrimBy(s, IsUnderscore);
    TrimByMembers(s, IsUnderscore);
    forall i | 0 <= i < |r| ensures SlugChar(r[i]) && !IsUpper(r[i]) {
      var k :| 0 <= k < |s| && s[k] == r[i];
    }
  }

  /** The slug before truncation: lower-cased, runs replaced, underscores
      trimmed from both ends. */
  function SlugBody(title: string): (r: string)
    ensures IsSlugText(r)
    ensures |r| > 0 ==> r[0] != '_' && r[|r| - 1] != '_'
  {
    var lower := ToLower(title);
    var replaced := ReplaceDisallowedRuns(lower);
    ReplacedIsSlugText(lower);
    TrimmedIsSlugText(replaced);
    TrimBy(replaced, IsUnderscore)
  }

  const UntitledSlug: string := "untitled_task"

  /** Slug text is ASCII, so its byte length is its length. */
  lemma {:induction false} SlugTextByteLength(s: string)
    requires IsSlugText(s)
    ensures Utf8Len(s) == |s|
  {
    Utf8LenAscii(s);
  }

  lemma {:induction false} UntitledSlugIsSlugText()
    ensures IsSlugText(UntitledSlug) && UntitledSlug[0] != '_'
  {
  }

  /** The slug of `FileName`: the slug body cut to 50 bytes, or
      "untitled_task" when nothing is left. */
  function Slug(title: string): (slug: string)
    ensures 1 <= |slug| <= 50
    ensures IsSlugText(slug)
    ensures slug[0] != '_'
    ensures SlugBody(title) == "" ==> slug == UntitledSlug
    ensures 0 < |SlugBody(title)| <= 50 ==> slug == SlugBody(title)
    ensures |SlugBody(title)| > 50 ==> slug == SlugBody(title)[..50]
  {
    var body := SlugBody(title);
    // the slug is ASCII, so its byte length is its length
    SlugTextByteLength(body);
    UntitledSlugIsSlugText();
    if Utf8Len(body) > 50 then body[..50]
    else if body == "" then UntitledSlug
    else body
  }

  /** The three parts of a file name can be read back from it. */
  lemma {:induction false} FileNameParts(prefix: string, slug: string, name: string)
    requires name == prefix + slug + ".md"
    ensures |name| == |prefix| + |slug| + 3
    ensures HasPrefix(name, prefix) && HasSuffix(name, ".md")
    ensures name[|prefix|..|name| - 3] == slug
  {
    assert name[..|prefix|] == prefix;
    assert name[|prefix|..|name| - 3] == slug;
  }

  /** `FileName`: "<Name>-<slug>.md". */
  function FileName(t: Task): (name: string)
    ensures |name| == |Name(t.id)| + 1 + |Slug(t.title)| + 3
    ensures HasPrefix(name, Name(t.id) + "-") && HasSuffix(name, ".md")
    ensures name[|Name(t.id)| + 1..|name| - 3] == Slug(t.title)
  {
    var prefix := Name(t.id) + "-";
    var slug := Slug(t.title);
    FileNameParts(prefix, slug, prefix + slug + ".md");
    prefix + slug + ".md"
  }

  /** A title made only of lower-case slug characters, not starting or
      ending with "_" and at most 50 long, is its own slug. */
  lemma {:induction false} SlugOfPlainTitle(title: string)
    requires 0 < |title| <= 50
    requires IsSlugText(title)
    requires title[0] != '_' && title[|title| - 1] != '_'
    ensures Slug(title) == title
  {
    assert ToLower(title) == title;
    assert ReplaceDisallowedRuns(title) == title;
    assert TrimLeftBy(title, IsUnderscore) == title;
    assert TrimRightBy(title, IsUnderscore) == title;
    assert SlugBody(title) == title;
  }

  /** A title with no letter or digit gives the fallback slug. */
  lemma {:induction false} SlugOfBlankTitle(title: string)
    requires forall i :: 0 <= i < |title| ==> title[i] == ' ' || title[i] == '_'
    ensures Slug(title) == UntitledSlug
  {
    var lower := ToLower(title);
    var replaced := ReplaceDisallowedRuns(lower);
    assert forall i :: 0 <= i < |lower| ==> lower[i] == ' ' || lower[i] == '_';
    assert forall i :: 0 <= i < |replaced| ==> replaced[i] == '_';
  }

  // ------------------------------------------------- ordering by index

  /** Criteria in non-decreasing index order. */
  predicate SortedByIndex(acs: seq<AcceptanceCriterion>)
  {
    forall i, j :: 0 <= i < j < |acs| ==> acs[i].index <= acs[j].index
  }

  /** Criteria in strictly increasing index order (so no index repeats). */
  predicate StrictlySortedByIndex(acs: seq<AcceptanceCriterion>)
  {
    forall i, j :: 0 <= i < j < |acs| ==> acs[i].index < acs[j].index
  }

  function InsertByIndex(x: AcceptanceCriterion, acs: seq<AcceptanceCriterion>): (r: seq<AcceptanceCriterion>)
    requires SortedByIndex(acs)
    ensures SortedByIndex(r)
    ensures multiset(r) == multiset(acs) + multiset{x}
    ensures |r| == |acs| + 1
    ensures r[0] == x || (|acs| > 0 && r[0] == acs[0])
    decreases |acs|
  {
    if |acs| == 0 then [x]
    else if x.index <= acs[0].index then [x] + acs
    else
      var rest := InsertByIndex(x, acs[1..]);
      assert acs == [acs[0]] + acs[1..];
      ConsSortedByIndex(acs[0], rest);
      assert multiset([acs[0]] + rest) == multiset{acs[0]} + multiset(rest);
      [acs[0]] + rest
  }

  lemma {:induction false} ConsSortedByIndex(a: AcceptanceCriterion, rest: seq<AcceptanceCriterion>)
    requires SortedByIndex(rest) && (|rest| > 0 ==> a.index <= rest[0].index)
    ensures SortedByIndex([a] + rest)
  {
    var r := [a] + rest;
    forall i, j | 0 <= i < j < |r| ensures r[i].index <= r[j].index {
      if i == 0 {
        assert r[j] == rest[j - 1];
      } else {
        assert r[i] == rest[i - 1] && r[j] == rest[j - 1];
      }
    }
  }

  /** A sorting of criteria by index (an insertion sort). */
  function SortByIndex(acs: seq<AcceptanceCriterion>): (r: seq<AcceptanceCriterion>)
    ensures SortedByIndex(r)
    ensures multiset(r) == multiset(acs)
    ensures |r| == |acs|
    decreases |acs|
  {
    if |acs| == 0 then []
    else
      assert acs == [acs[0]] + acs[1..];
      InsertByIndex(acs[0], SortByIndex(acs[1..]))
  }

  /** Two sorted arrangements of the same elements, the first strictly
      sorted, start with the same element. */
  lemma {:induction false} SameHead(a: seq<AcceptanceCriterion>, b: seq<AcceptanceCriterion>)
    requires StrictlySortedByIndex(a) && SortedByIndex(b)
    requires multiset(a) == multiset(b) && |a| > 0
    ensures |b| > 0 && a[0] == b[0]
  {
    assert a[0] in multiset(b);
    var k :| 0 <= k < |b| && b[k] == a[0];
    assert b[0] in multiset(a);
    var m :| 0 <= m < |a| && a[m] == b[0];
    assert a[m].index <= a[0].index;
    assert m == 0;
  }

  /** The multiset of a non-empty sequence without its head. */
  lemma {:induction false} TailMultiset(a: seq<AcceptanceCriterion>)
    requires |a| > 0
    ensures multiset(a[1..]) == multiset(a) - multiset{a[0]}
  {
    assert a == [a[0]] + a[1..];
  }

  /** A strictly sorted list is the only sorted arrangement of its elements. */
  lemma {:induction false} SortedArrangementUnique(a: seq<AcceptanceCriterion>, b: seq<AcceptanceCriterion>)
    requires StrictlySortedByIndex(a) && SortedByIndex(b)
    requires multiset(a) == multiset(b)
    ensures a == b
    decreases |a|
  {
    assert |a| == |multiset(a)| == |multiset(b)| == |b|;
    if |a| > 0 {
      SameHead(a, b);
      TailMultiset(a);
      TailMultiset(b);
      SortedArrangementUnique(a[1..], b[1..]);
      assert a == [a[0]] + a[1..];
      assert b == [b[0]] + b[1..];
    }
  }

  // ------------------------------------------------------------------ body

  const DescHeader: string := "## Description"
  const ACHeader: string := "## Acceptance Criteria"
  const PlanHeader: string := "## Implementation Plan"
  const NotesHeader: string := "## Implementation Notes"
  const ACStartComment: string := "<!-- AC:BEGIN -->"
  const ACEndComment: string := "<!-- AC:END -->"

  /** The line `Bytes` writes for one criterion, without its newline: "- [x] #N text" or
      "- [ ] #N text". */
  function ACText(ac: AcceptanceCriterion): (line: string)
  {
    "- [" + (if ac.checked then "x" else " ") + "] #" + FormatInt(ac.index) + " " + ac.text
  }

  function ACLine(ac: AcceptanceCriterion): (line: string)
  {
    ACText(ac) + "\n"
  }

  /** The lines of a list of criteria, in order. */
  function ACLines(acs: seq<AcceptanceCriterion>): (r: string)
    ensures |acs| == 0 <==> r == ""
    decreases |acs|
  {
    if |acs| == 0 then "" else ACLine(acs[0]) + ACLines(acs[1..])
  }

  function DescSection(t: Task): string { DescHeader + "\n\n" + t.description + "\n\n" }
  const ACOpen: string := ACHeader + "\n" + ACStartComment + "\n\n"
  const ACClose: string := "\n" + ACEndComment + "\n\n"
  function PlanSection(t: Task): string { PlanHeader + "\n\n" + t.implementationPlan + "\n\n" }
  function NotesSection(t: Task): string { NotesHeader + "\n\n" + t.implementationNotes + "\n" }

  /** The markdown body `Bytes` writes after the front matter: the four
      sections in order, the criteria between the two AC comments. */
  function Body(t: Task): (body: string)
  {
    DescSection(t) + ACOpen + ACLines(t.acceptanceCriteria) + ACClose + PlanSection(t) + NotesSection(t)
  }

  /** The criteria loop of `Bytes`: one line per criterion appended to the
      buffer. */
  method WriteACLines(buffer: string, acs: seq<AcceptanceCriterion>) returns (body: string)
    ensures body == buffer + ACLines(acs)
  {
    body := buffer;
    var i := 0;
    while i < |acs|
      invariant 0 <= i <= |acs|
      invariant body + ACLines(acs[i..]) == buffer + ACLines(acs)
    {
      assert acs[i..][1..] == acs[i + 1..];
      assert ACLines(acs[i..]) == ACLine(acs[i]) + ACLines(acs[i + 1..]);
      AppendAssoc(body, ACLine(acs[i]), ACLines(acs[i + 1..]));
      body := body + ACLine(acs[i]);
      i := i + 1;
    }
  }

  /** The body part of `Bytes`, written to a buffer piece by piece; the YAML
      front matter before it is not modelled. */
  method BodyBytes(t: Task) returns (body: string)
    ensures body == Body(t)
  {
    body := DescSection(t);
    body := body + ACOpen;
    body := WriteACLines(body, t.acceptanceCriteria);
    body := body + ACClose;
    body := body + PlanSection(t);
    body := body + NotesSection(t);
  }

  // ------------------------------------------------------ status, priority

  /** `Priority.String`. */
  function PriorityString(p: Priority): (name: string)
    ensures 0 <= p < |Priorities| ==> name == Priorities[p]
    ensures !(0 <= p < |Priorities|) ==> name == ""
  {
    match p
    case 0 => "unknown"
    case 1 => "low"
    case 2 => "medium"
    case 3 => "high"
    case 4 => "critical"
    case _ => ""
  }

  /** The form fuzzy matching compares: lower-cased, spaces removed. */
  function Compact(s: string): (r: string)
    ensures ' ' !in r
  {
    ReplaceAllCharIsRemove(ToLower(s), ' ');
    ReplaceAll(ToLower(s), " ", "")
  }

  /** The first of `names` within edit distance 2 of `s`, searching from
      position `k`.  `dist` stands for the Levenshtein distance. */
  function FirstWithin(s: string, names: seq<string>, dist: (string, string) -> nat, k: nat): (r: Option<nat>)
    requires k <= |names|
    ensures r.Some? ==>
      k <= r.value < |names| && dist(s, names[r.value]) < 3
      && forall j :: k <= j < r.value ==> dist(s, names[j]) >= 3
    ensures r.None? <==> forall j :: k <= j < |names| ==> dist(s, names[j]) >= 3
    decreases |names| - k
  {
    if k == |names| then None
    else if dist(s, names[k]) < 3 then Some(k)
    else FirstWithin(s, names, dist, k + 1)
  }

  /** The error of `ParseStatus` and `ParsePriority`: the input matched no
      name. */
  datatype InvalidValue = InvalidStatus(input: string) | InvalidPriority(input: string)

  /** `ParseStatus`: empty is "todo"; otherwise the first status within edit
      distance 2 of the compacted input. */
  function ParseStatus(s: string, dist: (string, string) -> nat): (r: Result<Status, InvalidValue>)
    ensures s == "" ==> r == Ok(StatusTodo)
    ensures r.Ok? ==> r.value in Statuses
    ensures s != "" && r.Ok? ==>
      exists k ::
        && 0 <= k < |Statuses| && r.value == Statuses[k]
        && dist(Compact(s), Statuses[k]) < 3
        && forall j :: 0 <= j < k ==> dist(Compact(s), Statuses[j]) >= 3
    ensures r.Err? <==> s != "" && forall j :: 0 <= j < |Statuses| ==> dist(Compact(s), Statuses[j]) >= 3
    ensures r.Err? ==> r.error == InvalidStatus(s)
  {
    if s == "" then Ok(StatusTodo)
    else
      match FirstWithin(Compact(s), Statuses, dist, 0)
      case Some(k) => Ok(Statuses[k])
      case None => Err(InvalidStatus(s))
  }

  /** `ParsePriority`: empty is unknown; otherwise the priority whose name is
      the first within edit distance 2 of the compacted input. */
  function ParsePriority(s: string, dist: (string, string) -> nat): (r: Result<Priority, InvalidValue>)
    ensures s == "" ==> r == Ok(PriorityUnknown)
    ensures r.Ok? ==> 0 <= r.value < |Priorities|
    ensures s != "" && r.Ok? ==>
      dist(Compact(s), Priorities[r.value]) < 3
      && forall j :: 0 <= j < r.value ==> dist(Compact(s), Priorities[j]) >= 3
    ensures r.Err? <==> s != "" && forall j :: 0 <= j < |Priorities| ==> dist(Compact(s), Priorities[j]) >= 3
    ensures r.Err? ==> r.error == InvalidPriority(s)
  {
    if s == "" then Ok(PriorityUnknown)
    else
      match FirstWithin(Compact(s), Priorities, dist, 0)
      case Some(k) => Ok(k)
      case None => Err(InvalidPriority(s))
  }

  /** The loop shared by `ParseStatus` and `ParsePriority`: return the
      first name whose distance is below 3. */
  method FindClose(s: string, names: seq<string>, dist: (string, string) -> nat) returns (r: Option<nat>)
    ensures r == FirstWithin(s, names, dist, 0)
  {
    for i := 0 to |names|
      invariant forall j :: 0 <= j < i ==> dist(s, names[j]) >= 3
    {
      if dist(s, names[i]) < 3 {
        FirstWithinIs(s, names, dist, 0, i);
        return Some(i);
      }
    }
    return None;
  }

  /** `ParseStatus` with its loop. */
  method MatchStatus(s: string, dist: (string, string) -> nat) returns (r: Result<Status, InvalidValue>)
    ensures r == ParseStatus(s, dist)
  {
    if s == "" {
      return Ok(StatusTodo);
    }
    var k := FindClose(Compact(s), Statuses, dist);
    if k.Some? {
      return Ok(Statuses[k.value]);
    }
    return Err(InvalidStatus(s));
  }

  /** `ParsePriority` with its loop. */
  method MatchPriority(s: string, dist: (string, string) -> nat) returns (r: Result<Priority, InvalidValue>)
    ensures r == ParsePriority(s, dist)
  {
    if s == "" {
      return Ok(PriorityUnknown);
    }
    var k := FindClose(Compact(s), Priorities, dist);
    if k.Some? {
      return Ok(k.value);
    }
    return Err(InvalidPriority(s));
  }

  /** What the Levenshtein distance is assumed to satisfy below: zero from
      a name to itself, and at least 3 between two different names of `names`. */
  predicate SeparatesNames(dist: (string, string) -> nat, names: seq<string>)
  {
    && (forall i :: 0 <= i < |names| ==> dist(names[i], names[i]) == 0)
    && (forall i, j :: 0 <= i < |names| && 0 <= j < |names| && i != j ==> dist(names[i], names[j]) >= 3)
  }

  lemma {:induction false} CompactName(s: string)
    requires forall i :: 0 <= i < |s| ==> s[i] != ' ' && !IsUpper(s[i])
    ensures Compact(s) == s
  {
    assert ToLower(s) == s;
    ReplaceAllCharIsRemove(s, ' ');
    assert RemoveChar(s, ' ') == s;
  }

  /** The search stops at the first close name. */
  lemma {:induction false} FirstWithinIs(s: string, names: seq<string>, dist: (string, string) -> nat, k: nat, p: nat)
    requires k <= p < |names| && dist(s, names[p]) < 3
    requires forall j :: k <= j < p ==> dist(s, names[j]) >= 3
    ensures FirstWithin(s, names, dist, k) == Some(p)
    decreases p - k
  {
    if k < p {
      FirstWithinIs(s, names, dist, k + 1, p);
    }
  }

  /** Every priority name parses back to its priority. */
  lemma {:induction false} ParsePriorityString(p: Priority, dist: (string, string) -> nat)
    requires 0 <= p < |Priorities| && SeparatesNames(dist, Priorities)
    ensures ParsePriority(PriorityString(p), dist) == Ok(p)
  {
    CompactName(Priorities[p]);
    FirstWithinIs(Priorities[p], Priorities, dist, 0, p);
  }

  /** Every status name parses back to itself. */
  lemma {:induction false} ParseStatusName(k: nat, dist: (string, string) -> nat)
    requires k < |Statuses| && SeparatesNames(dist, Statuses)
    ensures ParseStatus(Statuses[k], dist) == Ok(Statuses[k])
  {
    CompactName(Statuses[k]);
    FirstWithinIs(Statuses[k], Statuses, dist, 0, k);
  }

  // ---------------------------------------------------- MaybeStringArray

  /** The JSON values the string-list codec produces or accepts. */
  datatype Json = JNull | JString(s: string) | JArray(items: seq<Json>) | JOther

  /** Items a JSON array may hold to decode as a string list: strings, and
      nulls, which leave their element at the empty string. */
  predicate AllJStrings(items: seq<Json>) {
    forall i :: 0 <= i < |items| ==> items[i].JString? || items[i].JNull?
  }

  /** The string an array item decodes to. */
  function ItemString(item: Json): (s: string)
    ensures item.JString? ==> s == item.s
    ensures item.JNull? ==> s == ""
  {
    if item.JString? then item.s else ""
  }

  /** `MaybeStringArray.MarshalJSON`: null, a single string, or an array. */
  function MarshalMaybeStringArray(a: seq<string>): (j: Json)
    ensures |a| == 0 <==> j == JNull
    ensures |a| == 1 <==> j.JString?
    ensures |a| == 1 ==> j == JString(a[0])
    ensures |a| >= 2 <==> j.JArray?
    ensures |a| >= 2 ==> |j.items| == |a| && forall i :: 0 <= i < |a| ==> j.items[i] == JString(a[i])
  {
    if |a| == 0 then JNull
    else if |a| == 1 then JString(a[0])
    else JArray(seq(|a|, i requires 0 <= i < |a| => JString(a[i])))
  }

  /** `MaybeStringArray.UnmarshalJSON`: an array of strings (or null, which
      decodes as an empty slice) is taken as is, a null item decoding as the
      empty string; a single string becomes a one-element list; anything else
      is an error. */
  function UnmarshalMaybeStringArray(j: Json): (r: Option<seq<string>>)
    ensures j.JNull? ==> r == Some([])
    ensures j.JString? ==> r == Some([j.s])
    ensures j.JArray? ==> (r.Some? <==> AllJStrings(j.items))
    ensures j.JArray? && r.Some? ==> |r.value| == |j.items|
    ensures j.JArray? && r.Some? ==> forall i :: 0 <= i < |j.items| ==>
      (j.items[i].JString? ==> r.value[i] == j.items[i].s) && (j.items[i].JNull? ==> r.value[i] == "")
    ensures j.JOther? ==> r.None?
  {
    match j
    case JNull => Some([])
    case JString(s) => Some([s])
    case JArray(items) =>
      if AllJStrings(items) then Some(seq(|items|, i requires 0 <= i < |items| => ItemString(items[i]))) else None
    case JOther => None
  }

  /** Decoding what was encoded gives the list back, whatever its length. */
  lemma {:induction false} MaybeStringArrayRoundTrip(a: seq<string>)
    ensures UnmarshalMaybeStringArray(MarshalMaybeStringArray(a)) == Some(a)
  {
    if |a| >= 2 {
      var j := MarshalMaybeStringArray(a);
      assert AllJStrings(j.items);
      var r := UnmarshalMaybeStringArray(j);
      assert r.Some? && |r.value| == |a|;
      assert forall i :: 0 <= i < |a| ==> r.value[i] == a[i];
      assert r.value == a;
    } else if |a| == 1 {
      assert [a[0]] == a;
    }
  }
}
