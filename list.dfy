/** Listing tasks (internal/core/list.go): the filter pass with its
    parsed parameters, the "depended on" graph, the label/assignee
    intersection test and the multi-key sort.  Loading the tasks from disk
    is left to the caller; the fuzzy matcher behind status and priority
    parsing is the parameter `dist`. */
module List {
  import opened Wrappers
  import opened Text
  import opened TaskIds
  import opened Tasks
  import opened CoreParams
  import opened StringOrder

  // ------------------------------------------------------------ filters

  /** Why `FilterTasks` rejected its parameters. */
  datatype FilterError =
    | BadParentFilter(input: string, parentError: ParseError)
    | BadPriorityFilter(input: string, priorityError: InvalidValue)
    | BadStatusFilter(input: string, statusError: InvalidValue)

  /** The parsed filters: an absent parent or priority is not set. */
  datatype Filter = Filter(
    parent: Option<TaskID>,
    priority: Option<Priority>,
    statuses: seq<Status>,
    assignees: seq<string>,
    labels: seq<string>,
    unassigned: bool,
    dependedOn: bool,
    hasDependency: bool)

  /** A pointer parameter that is set to a non-empty text. */
  predicate Given(v: Option<string>)
  {
    v.Some? && v.value != ""
  }

  /** The status texts parsed in order; the first that is no status stops
      the parse. */
  function ParseStatuses(ss: seq<string>, dist: (string, string) -> nat): (r: Result<seq<Status>, FilterError>)
    ensures r.Ok? ==> |r.value| == |ss| && forall i :: 0 <= i < |ss| ==> ParseStatus(ss[i], dist) == Ok(r.value[i])
    ensures r.Err? ==> exists i :: 0 <= i < |ss| && ParseStatus(ss[i], dist).Err? &&
                                  r.error == BadStatusFilter(ss[i], ParseStatus(ss[i], dist).error)
    decreases |ss|
  {
    if |ss| == 0 then Ok([])
    else
      var init := ss[..|ss| - 1];
      match ParseStatuses(init, dist)
      case Err(e) =>
        assert forall i :: 0 <= i < |init| ==> init[i] == ss[i];
        Err(e)
      case Ok(parsed) =>
        match ParseStatus(ss[|ss| - 1], dist)
        case Err(e) => Err(BadStatusFilter(ss[|ss| - 1], e))
        case Ok(s) =>
          var r := parsed + [s];
          assert forall i :: 0 <= i < |ss| ==> ParseStatus(ss[i], dist) == Ok(r[i]) by {
            forall i | 0 <= i < |ss| ensures ParseStatus(ss[i], dist) == Ok(r[i]) {
              if i < |init| {
                assert init[i] == ss[i] && r[i] == parsed[i];
              }
            }
          }
          Ok(r)
  }

  /** Every text with surrounding white space removed. */
  function TrimAll(s: seq<string>): (r: seq<string>)
    ensures |r| == |s|
  {
    seq(|s|, i requires 0 <= i < |s| => TrimSpace(s[i]))
  }

  /** The parameters as `FilterTasks` reads them: the parent, then the
      priority, then each status is parsed, and the first failure is the
      error; assignee and label filters are trimmed. */
  function ParseFilter(params: ListTasksParams, dist: (string, string) -> nat): Result<Filter, FilterError>
  {
    if Given(params.parent) && ParseTaskID(params.parent.value).Err? then
      Err(BadParentFilter(params.parent.value, ParseTaskID(params.parent.value).error))
    else if Given(params.priority) && ParsePriority(params.priority.value, dist).Err? then
      Err(BadPriorityFilter(params.priority.value, ParsePriority(params.priority.value, dist).error))
    else
      match ParseStatuses(params.status, dist)
      case Err(e) => Err(e)
      case Ok(statuses) =>
        Ok(Filter(
          if Given(params.parent) then Some(ParseTaskID(params.parent.value).value) else None,
          if Given(params.priority) then Some(ParsePriority(params.priority.value, dist).value) else None,
          statuses, TrimAll(params.assignees), TrimAll(params.labels),
          params.unassigned, params.dependedOn, params.hasDependency))
  }

  /** No filter is set, so the input passes through. */
  predicate NoFilter(f: Filter)
  {
    && f.parent.None? && f.priority.None?
    && |f.statuses| == 0 && |f.assignees| == 0 && |f.labels| == 0
    && !f.unassigned && !f.dependedOn && !f.hasDependency
  }

  /** `atLeastOneIntersect`'s answer: some element of `got` is wanted. */
  predicate Intersects(got: seq<string>, want: seq<string>)
  {
    exists g :: g in got && g in want
  }

  /** A task passes every filter that is set. */
  predicate Matches(f: Filter, t: Task)
  {
    && (f.parent.Some? ==> Equals(t.parent, f.parent.value))
    && (f.priority.Some? ==> t.priority == f.priority.value)
    && (f.unassigned ==> |t.assignees| == 0)
    && (|f.statuses| > 0 ==> t.status in f.statuses)
    && (|f.assignees| > 0 ==> Intersects(t.assignees, f.assignees))
    && (|f.labels| > 0 ==> Intersects(t.labels, f.labels))
    && (f.hasDependency ==> |t.dependencies| > 0)
  }

  /** The tasks that pass, in their order. */
  function Select(ts: seq<Task>, f: Filter): (r: seq<Task>)
    ensures |r| <= |ts|
    ensures forall x :: x in r ==> x in ts && Matches(f, x)
    ensures forall x :: x in ts && Matches(f, x) ==> x in r
    decreases |ts|
  {
    if |ts| == 0 then []
    else
      var init := Select(ts[..|ts| - 1], f);
      assert ts == ts[..|ts| - 1] + [ts[|ts| - 1]];
      if Matches(f, ts[|ts| - 1]) then init + [ts[|ts| - 1]] else init
  }

  /** `a` is `b` with some elements left out. */
  predicate IsSubsequence<T(==)>(a: seq<T>, b: seq<T>)
    decreases |b|
  {
    if |b| == 0 then |a| == 0
    else
      || IsSubsequence(a, b[..|b| - 1])
      || (|a| > 0 && a[|a| - 1] == b[|b| - 1] && IsSubsequence(a[..|a| - 1], b[..|b| - 1]))
  }

  /** The filtered list keeps the input's order. */
  lemma {:induction false} SelectSubsequence(ts: seq<Task>, f: Filter)
    ensures IsSubsequence(Select(ts, f), ts)
    decreases |ts|
  {
    if |ts| > 0 {
      var init := ts[..|ts| - 1];
      SelectSubsequence(init, f);
      var r := Select(ts, f);
      if Matches(f, ts[|ts| - 1]) {
        assert r[..|r| - 1] == Select(init, f);
      }
    }
  }

  /** `atLeastOneIntersect`: false for an empty `got`, otherwise whether
      some element of `got` is in `want`. */
  method AtLeastOneIntersect(got: seq<string>, want: seq<string>) returns (b: bool)
    ensures |got| == 0 ==> !b
    ensures b <==> Intersects(got, want)
  {
    if |got| == 0 {
      return false;
    }
    var i := 0;
    while i < |got|
      invariant 0 <= i <= |got|
      invariant forall k :: 0 <= k < i ==> got[k] !in want
    {
      if got[i] in want {
        return true;
      }
      i := i + 1;
    }
    return false;
  }

  /** One pass of the filter loop: the `continue` checks in order. */
  method MatchesFilter(f: Filter, t: Task) returns (ok: bool)
    ensures ok <==> Matches(f, t)
  {
    if f.parent.Some? && !Equals(t.parent, f.parent.value) {
      return false;
    }
    if f.priority.Some? && t.priority != f.priority.value {
      return false;
    }
    if f.unassigned && |t.assignees| > 0 {
      return false;
    }
    if |f.statuses| > 0 && t.status !in f.statuses {
      return false;
    }
    if |f.assignees| > 0 {
      var hit := AtLeastOneIntersect(t.assignees, f.assignees);
      if !hit {
        return false;
      }
    }
    if |f.labels| > 0 {
      var hit := AtLeastOneIntersect(t.labels, f.labels);
      if !hit {
        return false;
      }
    }
    if f.hasDependency && |t.dependencies| == 0 {
      return false;
    }
    return true;
  }

  /** The filter loop. */
  method SelectMatching(ts: seq<Task>, f: Filter) returns (r: seq<Task>)
    ensures r == Select(ts, f)
  {
    r := [];
    var i := 0;
    while i < |ts|
      invariant 0 <= i <= |ts|
      invariant r == Select(ts[..i], f)
    {
      assert ts[..i + 1][..i] == ts[..i];
      var ok := MatchesFilter(f, ts[i]);
      if ok {
        r := r + [ts[i]];
      }
      i := i + 1;
    }
    assert ts[..i] == ts;
  }

  /** The status loop of `FilterTasks`. */
  method ParseStatusList(ss: seq<string>, dist: (string, string) -> nat) returns (r: Result<seq<Status>, FilterError>)
    ensures r == ParseStatuses(ss, dist)
  {
    var out: seq<Status> := [];
    var i := 0;
    while i < |ss|
      invariant 0 <= i <= |ss|
      invariant ParseStatuses(ss[..i], dist) == Ok(out)
    {
      var s := ParseStatus(ss[i], dist);
      if s.Err? {
        StatusesFail(ss, dist, i, s.error);
        return Err(BadStatusFilter(ss[i], s.error));
      }
      StatusesStep(ss, dist, i, out);
      out := out + [s.value];
      i := i + 1;
    }
    assert ss[..i] == ss;
    return Ok(out);
  }

  /** One more status text that parses extends the parsed prefix. */
  lemma {:induction false} StatusesStep(ss: seq<string>, dist: (string, string) -> nat, i: nat, out: seq<Status>)
    requires i < |ss| && ParseStatuses(ss[..i], dist) == Ok(out)
    requires ParseStatus(ss[i], dist).Ok?
    ensures ParseStatuses(ss[..i + 1], dist) == Ok(out + [ParseStatus(ss[i], dist).value])
  {
    assert ss[..i + 1][..i] == ss[..i];
  }

  /** The first status text that does not parse is the error of the whole
      list. */
  lemma {:induction false} StatusesFail(ss: seq<string>, dist: (string, string) -> nat, i: nat, e: InvalidValue)
    requires i < |ss| && ParseStatuses(ss[..i], dist).Ok?
    requires ParseStatus(ss[i], dist) == Err(e)
    ensures ParseStatuses(ss, dist) == Err(BadStatusFilter(ss[i], e))
  {
    PrefixFails(ss, dist, i, e);
    StatusesStop(ss, dist, i + 1);
  }

  lemma {:induction false} PrefixFails(ss: seq<string>, dist: (string, string) -> nat, i: nat, e: InvalidValue)
    requires i < |ss| && ParseStatuses(ss[..i], dist).Ok?
    requires ParseStatus(ss[i], dist) == Err(e)
    ensures ParseStatuses(ss[..i + 1], dist) == Err(BadStatusFilter(ss[i], e))
  {
    assert ss[..i + 1][..i] == ss[..i];
  }

  /** A failing prefix makes the whole status list fail the same way. */
  lemma {:induction false} StatusesStop(ss: seq<string>, dist: (string, string) -> nat, k: nat)
    requires k <= |ss| && ParseStatuses(ss[..k], dist).Err?
    ensures ParseStatuses(ss, dist) == ParseStatuses(ss[..k], dist)
    decreases |ss| - k
  {
    if k < |ss| {
      assert ss[..k + 1][..k] == ss[..k];
      StatusesStop(ss, dist, k + 1);
    } else {
      assert ss[..k] == ss;
    }
  }

  /** The trimming loops of `FilterTasks`. */
  method TrimList(s: seq<string>) returns (r: seq<string>)
    ensures r == TrimAll(s)
    ensures forall i :: 0 <= i < |r| ==> |r[i]| <= |s[i]|
  {
    r := [];
    var i := 0;
    while i < |s|
      invariant 0 <= i <= |s|
      invariant r == TrimAll(s[..i])
    {
      r := r + [TrimSpace(s[i])];
      i := i + 1;
    }
    assert s[..i] == s;
  }

  /** `FilterTasks`: the parameters are parsed (an unparsable parent,
      priority or status is an error); with no filter set the input is
      returned as it is; otherwise the input, or with `DependedOn` the
      depended-on tasks, is narrowed to the tasks passing every filter,
      in order. */
  method FilterTasks(tasks: seq<Task>, params: ListTasksParams, dist: (string, string) -> nat)
    returns (r: Result<seq<Task>, FilterError>)
    ensures r.Err? <==> ParseFilter(params, dist).Err?
    ensures r.Err? ==> r.error == ParseFilter(params, dist).error
    ensures r.Ok? && NoFilter(ParseFilter(params, dist).value) ==> r.value == tasks
    ensures r.Ok? && !NoFilter(ParseFilter(params, dist).value) && !params.dependedOn ==>
      r.value == Select(tasks, ParseFilter(params, dist).value)
    ensures r.Ok? && !NoFilter(ParseFilter(params, dist).value) && params.dependedOn ==>
      exists g :: IsDependentGraph(g, tasks) && r.value == Select(g, ParseFilter(params, dist).value)
  {
    var parent: Option<TaskID> := None;
    if Given(params.parent) {
      var p := ParseTaskID(params.parent.value);
      if p.Err? {
        return Err(BadParentFilter(params.parent.value, p.error));
      }
      parent := Some(p.value);
    }
    var priority: Option<Priority> := None;
    if Given(params.priority) {
      var q := ParsePriority(params.priority.value, dist);
      if q.Err? {
        return Err(BadPriorityFilter(params.priority.value, q.error));
      }
      priority := Some(q.value);
    }
    var statuses := ParseStatusList(params.status, dist);
    if statuses.Err? {
      return Err(statuses.error);
    }
    var assignees := TrimList(params.assignees);
    var labels := TrimList(params.labels);
    var f := Filter(parent, priority, statuses.value, assignees, labels,
                    params.unassigned, params.dependedOn, params.hasDependency);
    assert ParseFilter(params, dist) == Ok(f);
    if NoFilter(f) {
      return Ok(tasks);
    }
    var source := tasks;
    if params.dependedOn {
      source := DependentGraph(tasks);
    }
    var selected := SelectMatching(source, f);
    return Ok(selected);
  }

  // ------------------------------------------------------ dependentGraph

  /** The index key of a task: its Name. */
  function TaskName(t: Task): string
  {
    Name(t.id)
  }

  /** `taskIndex`: each task under its key, a later task replacing an
      earlier one with the same key. */
  function NameIndex(ts: seq<Task>, key: Task -> string): (m: map<string, Task>)
    ensures forall k :: k in m ==> key(m[k]) == k && m[k] in ts
    ensures forall i :: 0 <= i < |ts| ==> key(ts[i]) in m
    decreases |ts|
  {
    if |ts| == 0 then map[]
    else
      var last := ts[|ts| - 1];
      assert forall x :: x in ts[..|ts| - 1] ==> x in ts;
      NameIndex(ts[..|ts| - 1], key)[key(last) := last]
  }

  /** `taskDependencyIndex`: the set of dependencies of each task under
      its key, a later task replacing an earlier one with the same key. */
  function DepIndex(ts: seq<Task>, key: Task -> string): (m: map<string, set<string>>)
    ensures m.Keys == NameIndex(ts, key).Keys
    decreases |ts|
  {
    if |ts| == 0 then map[]
    else
      var last := ts[|ts| - 1];
      DepIndex(ts[..|ts| - 1], key)[key(last) := set d | d in last.dependencies]
  }

  /** Every name in some dependency set of the index. */
  ghost function AllDeps(depIndex: map<string, set<string>>): set<string>
  {
    set k, d | k in depIndex && d in depIndex[k] :: d
  }

  /** Every name some indexed task depends on. */
  ghost function DependedNames(ts: seq<Task>, key: Task -> string): set<string>
  {
    AllDeps(DepIndex(ts, key))
  }

  /** The result invariant of the traversal: the tasks found so far, one
      per visited name that is indexed. */
  ghost predicate Collected(r: seq<Task>, visited: set<string>, taskIndex: map<string, Task>, key: Task -> string)
  {
    && (forall i, j :: 0 <= i < j < |r| ==> key(r[i]) != key(r[j]))
    && (forall i :: 0 <= i < |r| ==> key(r[i]) in visited && key(r[i]) in taskIndex && r[i] == taskIndex[key(r[i])])
    && (forall n :: n in visited && n in taskIndex ==> exists i :: 0 <= i < |r| && key(r[i]) == n)
  }

  /** What `dependentGraph` returns, in whatever order the map iteration
      produced it: each depended-on name that is some task's key gives
      that task once (the last task with that key), and nothing else is
      returned. */
  ghost predicate IsDependentGraphBy(r: seq<Task>, ts: seq<Task>, key: Task -> string)
  {
    && Collected(r, DependedNames(ts, key), NameIndex(ts, key), key)
  }

  /** The same, with tasks indexed by Name. */
  ghost predicate IsDependentGraph(r: seq<Task>, ts: seq<Task>)
  {
    IsDependentGraphBy(r, ts, TaskName)
  }

  /** The depended-on tasks are tasks of the input, at most one per
      indexed name. */
  lemma {:induction false} DependentGraphFromInput(r: seq<Task>, ts: seq<Task>, key: Task -> string)
    requires IsDependentGraphBy(r, ts, key)
    ensures forall x :: x in r ==> x in ts
    ensures |r| <= |NameIndex(ts, key)|
  {
    var index := NameIndex(ts, key);
    forall x | x in r ensures x in ts {
      var i :| 0 <= i < |r| && r[i] == x;
      assert x == index[key(r[i])];
    }
    KeysBound(r, index, key);
  }

  /** Tasks with distinct keys, all indexed: no more of them than keys. */
  lemma {:induction false} KeysBound(r: seq<Task>, index: map<string, Task>, key: Task -> string)
    requires forall i, j :: 0 <= i < j < |r| ==> key(r[i]) != key(r[j])
    requires forall i :: 0 <= i < |r| ==> key(r[i]) in index
    ensures |r| <= |index|
  {
    var names := set i | 0 <= i < |r| :: key(r[i]);
    assert names <= index.Keys;
    DistinctNamesCount(r, key);
    assert |index.Keys| == |names| + |index.Keys - names|;
  }

  /** Distinct keys: as many keys as tasks. */
  lemma {:induction false} DistinctNamesCount(r: seq<Task>, key: Task -> string)
    requires forall i, j :: 0 <= i < j < |r| ==> key(r[i]) != key(r[j])
    ensures |set i | 0 <= i < |r| :: key(r[i])| == |r|
    decreases |r|
  {
    if |r| > 0 {
      var init := r[..|r| - 1];
      DistinctNamesCount(init, key);
      var s := set i | 0 <= i < |r| :: key(r[i]);
      var s0 := set i | 0 <= i < |init| :: key(init[i]);
      assert s == s0 + {key(r[|r| - 1])};
      assert key(r[|r| - 1]) !in s0;
    }
  }

  /** The index-building loop. */
  method BuildDependencyIndex(tasks: seq<Task>, key: Task -> string)
    returns (taskIndex: map<string, Task>, depIndex: map<string, set<string>>)
    ensures taskIndex == NameIndex(tasks, key) && depIndex == DepIndex(tasks, key)
  {
    taskIndex, depIndex := map[], map[];
    var i := 0;
    while i < |tasks|
      invariant 0 <= i <= |tasks|
      invariant taskIndex == NameIndex(tasks[..i], key) && depIndex == DepIndex(tasks[..i], key)
    {
      assert tasks[..i + 1][..i] == tasks[..i];
      var t := tasks[i];
      taskIndex := taskIndex[key(t) := t];
      var deps: set<string> := {};
      var j := 0;
      while j < |t.dependencies|
        invariant 0 <= j <= |t.dependencies|
        invariant deps == set d | d in t.dependencies[..j]
      {
        assert t.dependencies[..j + 1] == t.dependencies[..j] + [t.dependencies[j]];
        deps := deps + {t.dependencies[j]};
        j := j + 1;
      }
      assert t.dependencies[..j] == t.dependencies;
      depIndex := depIndex[key(t) := deps];
      i := i + 1;
    }
    assert tasks[..i] == tasks;
  }

  /** One visit: an unvisited name is marked and, when a task has it,
      that task is added. */
  method Visit(id: string, visited: set<string>, r: seq<Task>, taskIndex: map<string, Task>, key: Task -> string)
    returns (visited': set<string>, r': seq<Task>)
    requires forall k :: k in taskIndex ==> key(taskIndex[k]) == k
    requires Collected(r, visited, taskIndex, key)
    ensures visited' == visited + {id}
    ensures Collected(r', visited', taskIndex, key)
  {
    if id in visited {
      return visited, r;
    }
    visited' := visited + {id};
    r' := r;
    if id in taskIndex {
      r' := r + [taskIndex[id]];
      assert key(r'[|r|]) == id;
      forall n | n in visited' && n in taskIndex
        ensures exists i :: 0 <= i < |r'| && key(r'[i]) == n
      {
        if n == id {
          assert key(r'[|r|]) == n;
        } else {
          var i :| 0 <= i < |r| && key(r[i]) == n;
          assert r'[i] == r[i];
        }
      }
    }
  }

  /** The inner loop: visit every id of one dependency set. */
  method VisitAll(ids: set<string>, visited: set<string>, r: seq<Task>, taskIndex: map<string, Task>, key: Task -> string)
    returns (visited': set<string>, r': seq<Task>)
    requires forall k :: k in taskIndex ==> key(taskIndex[k]) == k
    requires Collected(r, visited, taskIndex, key)
    ensures visited' == visited + ids
    ensures Collected(r', visited', taskIndex, key)
  {
    var rest := ids;
    visited', r' := visited, r;
    while rest != {}
      invariant rest <= ids
      invariant visited' == visited + (ids - rest)
      invariant Collected(r', visited', taskIndex, key)
      decreases |rest|
    {
      var id :| id in rest;
      visited', r' := Visit(id, visited', r', taskIndex, key);
      rest := rest - {id};
    }
  }

  /** The outer loop over the dependency index, in map order. */
  method Traverse(taskIndex: map<string, Task>, depIndex: map<string, set<string>>, key: Task -> string)
    returns (r: seq<Task>)
    requires forall k :: k in taskIndex ==> key(taskIndex[k]) == k
    ensures Collected(r, AllDeps(depIndex), taskIndex, key)
  {
    var keys := depIndex.Keys;
    var visited: set<string> := {};
    r := [];
    while keys != {}
      invariant keys <= depIndex.Keys
      invariant forall k :: k in depIndex && k !in keys ==> depIndex[k] <= visited
      invariant visited <= AllDeps(depIndex)
      invariant Collected(r, visited, taskIndex, key)
      decreases |keys|
    {
      var k :| k in keys;
      assert depIndex[k] <= AllDeps(depIndex);
      visited, r := VisitAll(depIndex[k], visited, r, taskIndex, key);
      keys := keys - {k};
    }
    forall n | n in AllDeps(depIndex) ensures n in visited {
      var k, d :| k in depIndex && d in depIndex[k] && d == n;
    }
  }

  /** The traversal of `dependentGraph` with a given index key. */
  method DependentGraphBy(tasks: seq<Task>, key: Task -> string) returns (r: seq<Task>)
    ensures IsDependentGraphBy(r, tasks, key)
  {
    var taskIndex, depIndex := BuildDependencyIndex(tasks, key);
    r := Traverse(taskIndex, depIndex, key);
  }

  /** `dependentGraph`: the tasks other tasks depend on, each once,
      indexed by Name. */
  method DependentGraph(tasks: seq<Task>) returns (r: seq<Task>)
    ensures IsDependentGraph(r, tasks)
  {
    r := DependentGraphBy(tasks, TaskName);
  }

  // ----------------------------------------------------------- SortTasks

  /** The sort fields the comparator knows, and the rest. */
  datatype SortField = ByID | ByTitle | ByStatus | ByPriority | ByCreated | ByUpdated | Unknown

  /** A sort field as the comparator reads it: lower-cased and trimmed,
      then matched against the known names. */
  function ParseSortField(field: string): (f: SortField)
    ensures f.Unknown? <==> var n := TrimSpace(ToLower(field));
      n != "id" && n != "title" && n != "status" && n != "priority" && n != "created" && n != "updated"
  {
    var n := TrimSpace(ToLower(field));
    if n == "id" then ByID
    else if n == "title" then ByTitle
    else if n == "status" then ByStatus
    else if n == "priority" then ByPriority
    else if n == "created" then ByCreated
    else if n == "updated" then ByUpdated
    else Unknown
  }

  /** Every sort field read. */
  function SortFields(fields: seq<string>): (r: seq<SortField>)
    ensures |r| == |fields|
    ensures forall i :: 0 <= i < |fields| ==> r[i] == ParseSortField(fields[i])
  {
    seq(|fields|, i requires 0 <= i < |fields| => ParseSortField(fields[i]))
  }

  /** The key a field selects from a task. */
  datatype Key = KeyID(seg: seq<int>) | KeyText(s: string) | KeyTime(t: int) | KeyRank(p: int)

  function SortKey(f: SortField, t: Task): (k: Option<Key>)
    ensures k.None? <==> f.Unknown?
  {
    match f
    case ByID => Some(KeyID(t.id.seg))
    case ByTitle => Some(KeyText(ToLower(t.title)))
    case ByStatus => Some(KeyText(t.status))
    case ByPriority => Some(KeyRank(t.priority))
    case ByCreated => Some(KeyTime(t.createdAt))
    case ByUpdated => Some(KeyTime(t.updatedAt))
    case Unknown => None
  }

  /** One field's verdict: negative when `x` goes first, positive when
      `y` does.  IDs use `Less`, texts `strings.Compare`, times
      "before", and a higher priority goes first. */
  function KeyCompare(x: Key, y: Key): int
  {
    match (x, y)
    case (KeyID(a), KeyID(b)) => if LessSeg(a, b) then -1 else if LessSeg(b, a) then 1 else 0
    case (KeyText(a), KeyText(b)) => if StrLess(a, b) then -1 else if StrLess(b, a) then 1 else 0
    case (KeyTime(a), KeyTime(b)) => if a < b then -1 else if a > b then 1 else 0
    case (KeyRank(a), KeyRank(b)) => if a > b then -1 else if a < b then 1 else 0
    case _ => 0
  }

  /** The comparator: the first known field whose keys differ decides;
      unknown fields are skipped; with no deciding field, 0. */
  function Compare(fields: seq<SortField>, a: Task, b: Task): int
    decreases |fields|
  {
    if |fields| == 0 then 0
    else if fields[0].Unknown? then Compare(fields[1..], a, b)
    else
      var c := KeyCompare(SortKey(fields[0], a).value, SortKey(fields[0], b).value);
      if c != 0 then c else Compare(fields[1..], a, b)
  }

  /** The `less` function given to `sort.Slice`. */
  predicate SortLess(fields: seq<SortField>, a: Task, b: Task)
  {
    Compare(fields, a, b) < 0
  }

  /** What `sort.Slice` guarantees: no element is less than one before it. */
  predicate SortedBy(fields: seq<SortField>, s: seq<Task>)
  {
    forall i, j :: 0 <= i < j < |s| ==> !SortLess(fields, s[j], s[i])
  }

  /** Two keys of the same field compare like a total order. */
  lemma {:induction false} KeyCompareOrder(f: SortField, a: Task, b: Task, c: Task)
    requires !f.Unknown?
    ensures var x, y, z := SortKey(f, a).value, SortKey(f, b).value, SortKey(f, c).value;
      && KeyCompare(y, x) == -KeyCompare(x, y)
      && (KeyCompare(x, y) == 0 ==> KeyCompare(x, z) == KeyCompare(y, z))
      && (KeyCompare(x, y) < 0 && KeyCompare(y, z) < 0 ==> KeyCompare(x, z) < 0)
  {
    var x, y, z := SortKey(f, a).value, SortKey(f, b).value, SortKey(f, c).value;
    match f
    case ByID =>
      var p, q, r := x.seg, y.seg, z.seg;
      if p != q {
        LessTotal(p, q);
      }
      if LessSeg(p, q) {
        LessAsymmetric(p, q);
      }
      if LessSeg(q, p) {
        LessAsymmetric(q, p);
      }
      if LessSeg(p, q) && LessSeg(q, r) {
        LessTransitive(p, q, r);
      }
    case ByTitle =>
      TextOrder(x.s, y.s, z.s);
    case ByStatus =>
      TextOrder(x.s, y.s, z.s);
    case _ =>
  }

  /** `strings.Compare` is a total order. */
  lemma {:induction false} TextOrder(p: string, q: string, r: string)
    ensures KeyCompare(KeyText(q), KeyText(p)) == -KeyCompare(KeyText(p), KeyText(q))
    ensures KeyCompare(KeyText(p), KeyText(q)) == 0 ==> p == q
    ensures KeyCompare(KeyText(p), KeyText(q)) < 0 && KeyCompare(KeyText(q), KeyText(r)) < 0 ==>
      KeyCompare(KeyText(p), KeyText(r)) < 0
  {
    StrLessTotal(p, q);
    if StrLess(p, q) {
      StrLessAsymmetric(p, q);
    }
    if StrLess(q, p) {
      StrLessAsymmetric(q, p);
    }
    if StrLess(p, q) && StrLess(q, r) {
      StrLessTransitive(p, q, r);
    }
  }

  /** Swapping the tasks negates the comparison. */
  lemma {:induction false} CompareAntisymmetric(fields: seq<SortField>, a: Task, b: Task)
    ensures Compare(fields, b, a) == -Compare(fields, a, b)
    decreases |fields|
  {
    if |fields| > 0 {
      CompareAntisymmetric(fields[1..], a, b);
      if !fields[0].Unknown? {
        KeyCompareOrder(fields[0], a, b, b);
      }
    }
  }

  /** The comparator is a total preorder: "not after" is transitive, and
      strictly so when either step is strict. */
  lemma {:induction false} CompareTransitive(fields: seq<SortField>, a: Task, b: Task, c: Task)
    requires Compare(fields, a, b) <= 0 && Compare(fields, b, c) <= 0
    ensures Compare(fields, a, c) <= 0
    ensures Compare(fields, a, b) < 0 || Compare(fields, b, c) < 0 ==> Compare(fields, a, c) < 0
    decreases |fields|
  {
    if |fields| > 0 {
      var f := fields[0];
      if !f.Unknown? {
        KeyCompareOrder(f, a, b, c);
        KeyCompareOrder(f, b, c, a);
        KeyCompareOrder(f, c, a, b);
        KeyCompareOrder(f, a, c, b);
        var x, y, z := SortKey(f, a).value, SortKey(f, b).value, SortKey(f, c).value;
        if KeyCompare(x, y) == 0 && KeyCompare(y, z) == 0 {
          CompareTransitive(fields[1..], a, b, c);
        }
      } else {
        CompareTransitive(fields[1..], a, b, c);
      }
    }
  }

  /** "Not less" chains: `x` before `y` and `y` before `z` put `x`
      before `z`. */
  lemma {:induction false} NotLessChain(fields: seq<SortField>, x: Task, y: Task, z: Task)
    requires !SortLess(fields, y, x) && !SortLess(fields, z, y)
    ensures !SortLess(fields, z, x)
  {
    CompareAntisymmetric(fields, y, x);
    CompareAntisymmetric(fields, z, y);
    CompareTransitive(fields, x, y, z);
    CompareAntisymmetric(fields, z, x);
  }

  /** Inserting into a sorted list before the first task that is not
      less than it. */
  function InsertTask(fields: seq<SortField>, x: Task, s: seq<Task>): (r: seq<Task>)
    requires SortedBy(fields, s)
    ensures SortedBy(fields, r)
    ensures multiset(r) == multiset(s) + multiset{x}
    ensures |r| == |s| + 1
    ensures r[0] == x || (|s| > 0 && r[0] == s[0])
    decreases |s|
  {
    if |s| == 0 || !SortLess(fields, s[0], x) then
      assert forall j :: 0 <= j < |s| ==> !SortLess(fields, s[j], x) by {
        forall j | 0 <= j < |s| ensures !SortLess(fields, s[j], x) {
          if j > 0 {
            NotLessChain(fields, x, s[0], s[j]);
          }
        }
      }
      [x] + s
    else
      var rest := InsertTask(fields, x, s[1..]);
      assert s == [s[0]] + s[1..];
      assert !SortLess(fields, rest[0], s[0]) by {
        CompareAntisymmetric(fields, s[0], x);
      }
      assert forall j :: 0 <= j < |rest| ==> !SortLess(fields, rest[j], s[0]) by {
        forall j | 0 <= j < |rest| ensures !SortLess(fields, rest[j], s[0]) {
          if j > 0 {
            NotLessChain(fields, s[0], rest[0], rest[j]);
          }
        }
      }
      assert multiset([s[0]] + rest) == multiset{s[0]} + multiset(rest);
      [s[0]] + rest
  }

  /** One sorted arrangement of the tasks (an insertion sort). */
  function SortBy(fields: seq<SortField>, s: seq<Task>): (r: seq<Task>)
    ensures SortedBy(fields, r)
    ensures multiset(r) == multiset(s)
    ensures |r| == |s|
    decreases |s|
  {
    if |s| == 0 then []
    else
      assert s == [s[0]] + s[1..];
      InsertTask(fields, s[0], SortBy(fields, s[1..]))
  }

  /** The list back to front. */
  function Reversed(s: seq<Task>): (r: seq<Task>)
    ensures |r| == |s|
    ensures forall i :: 0 <= i < |s| ==> r[i] == s[|s| - 1 - i]
  {
    seq(|s|, i requires 0 <= i < |s| => s[|s| - 1 - i])
  }

  /** Reversing keeps the tasks. */
  lemma {:induction false} ReversedMultiset(s: seq<Task>)
    ensures multiset(Reversed(s)) == multiset(s)
    decreases |s|
  {
    if |s| > 0 {
      var init := s[..|s| - 1];
      ReversedMultiset(init);
      assert Reversed(s) == [s[|s| - 1]] + Reversed(init);
      assert s == init + [s[|s| - 1]];
    }
  }

  /** `s` with its first and last `i` elements already swapped. */
  function PartReversed(s: seq<Task>, i: nat): (r: seq<Task>)
    requires i <= |s| / 2
  {
    seq(|s|, k requires 0 <= k < |s| => if k < i || k >= |s| - i then s[|s| - 1 - k] else s[k])
  }

  /** Swapping the next pair extends the reversed ends by one. */
  lemma {:induction false} PartReversedStep(s: seq<Task>, i: nat)
    requires i < |s| / 2
    ensures var p := PartReversed(s, i);
            p[i := p[|s| - 1 - i]][|s| - 1 - i := p[i]] == PartReversed(s, i + 1)
  {
  }

  /** Nothing is swapped yet. */
  lemma {:induction false} PartReversedStart(s: seq<Task>)
    ensures PartReversed(s, 0) == s
  {
  }

  /** Once the ends meet, the whole sequence is reversed. */
  lemma {:induction false} PartReversedDone(s: seq<Task>)
    ensures PartReversed(s, |s| / 2) == Reversed(s)
  {
  }

  /** Exchanges two elements of `a`. */
  method Swap(a: array<Task>, i: nat, j: nat)
    requires i < j < a.Length
    modifies a
    ensures a[..] == old(a[..])[i := old(a[j])][j := old(a[i])]
  {
    a[i], a[j] := a[j], a[i];
  }

  /** `slices.Reverse`: swap from both ends towards the middle. */
  method ReverseInPlace(a: array<Task>)
    modifies a
    ensures a[..] == Reversed(old(a[..]))
    ensures multiset(a[..]) == multiset(old(a[..]))
  {
    ghost var orig := a[..];
    var n := a.Length;
    var i := 0;
    PartReversedStart(orig);
    while i < n / 2
      invariant 0 <= i <= n / 2
      invariant a[..] == PartReversed(orig, i)
    {
      PartReversedStep(orig, i);
      Swap(a, i, n - 1 - i);
      i := i + 1;
    }
    PartReversedDone(orig);
    ReversedMultiset(orig);
  }

  /** `SortTasks`: with no sort fields the slice is only reversed when
      asked; otherwise it is sorted by the comparator and then reversed
      when asked.  The slice is rearranged in place. */
  method SortTasks(tasks: array<Task>, sortFields: seq<string>, reverse: bool)
    modifies tasks
    ensures multiset(tasks[..]) == multiset(old(tasks[..]))
    ensures |sortFields| == 0 ==> tasks[..] == (if reverse then Reversed(old(tasks[..])) else old(tasks[..]))
    ensures |sortFields| > 0 && !reverse ==> SortedBy(SortFields(sortFields), tasks[..])
    ensures |sortFields| > 0 && reverse ==> SortedBy(SortFields(sortFields), Reversed(tasks[..]))
  {
    if |sortFields| == 0 {
      if reverse {
        ReverseInPlace(tasks);
      }
      return;
    }
    var sorted := SortBy(SortFields(sortFields), tasks[..]);
    forall i | 0 <= i < tasks.Length {
      tasks[i] := sorted[i];
    }
    assert tasks[..] == sorted;
    if reverse {
      ReverseInPlace(tasks);
      assert Reversed(tasks[..]) == sorted;
    }
  }

  /** Under a leading "priority" field, a higher priority comes first. */
  lemma {:induction false} PriorityFirst(fields: seq<SortField>, s: seq<Task>)
    requires |fields| > 0 && fields[0] == ByPriority
    requires SortedBy(fields, s)
    ensures forall i, j :: 0 <= i < j < |s| ==> s[i].priority >= s[j].priority
  {
    forall i, j | 0 <= i < j < |s| ensures s[i].priority >= s[j].priority {
      assert !SortLess(fields, s[j], s[i]);
    }
  }

  /** An unknown field changes no comparison. */
  lemma {:induction false} UnknownFieldSkipped(field: string, fields: seq<string>, a: Task, b: Task)
    requires ParseSortField(field).Unknown?
    ensures Compare(SortFields([field] + fields), a, b) == Compare(SortFields(fields), a, b)
  {
    assert SortFields([field] + fields)[1..] == SortFields(fields);
  }

  /** Sort fields that are all unknown leave every pair unordered. */
  lemma {:induction false} OnlyUnknownFields(fields: seq<SortField>, a: Task, b: Task)
    requires forall i :: 0 <= i < |fields| ==> fields[i].Unknown?
    ensures !SortLess(fields, a, b)
    decreases |fields|
  {
    if |fields| > 0 {
      OnlyUnknownFields(fields[1..], a, b);
    }
  }
}
