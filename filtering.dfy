/** The index-based filter (internal/core/filtering.go): an optimizer
    holding per-field indexes of a task list, cost estimates read off
    those indexes, and `SmartFilterTasks`, which starts from the tasks of
    one index and keeps those passing every filter.  Go's `[]*Task` is a
    sequence of task values here; the fuzzy matcher behind status and
    priority parsing is the parameter `dist`. */
module Filtering {
  import opened Wrappers
  import opened TaskIds
  import opened Tasks
  import opened CoreParams
  import opened List

  // ------------------------------------------------------------ indexes

  /** A Go map of slices read at a key: a missing key reads as nil. */
  function Lookup<K, V>(m: map<K, seq<V>>, k: K): seq<V>
  {
    if k in m then m[k] else []
  }

  /** `m[k] = append(m[k], v)`: only the slice at `k` grows, by `v`. */
  function Appended<K(!new), V>(m: map<K, seq<V>>, k: K, v: V): (r: map<K, seq<V>>)
    ensures Lookup(r, k) == Lookup(m, k) + [v]
    ensures forall j :: j != k ==> Lookup(r, j) == Lookup(m, j)
    ensures forall j, x :: x in Lookup(r, j) ==> x in Lookup(m, j) || (j == k && x == v)
  {
    m[k := Lookup(m, k) + [v]]
  }

  /** `v` appended under each key in turn. */
  function AppendedUnder<V>(m: map<string, seq<V>>, keys: seq<string>, v: V): (r: map<string, seq<V>>)
    ensures forall j, x :: x in Lookup(m, j) ==> x in Lookup(r, j)
    ensures forall i :: 0 <= i < |keys| ==> v in Lookup(r, keys[i])
    ensures forall j, x :: x in Lookup(r, j) ==> x in Lookup(m, j) || (x == v && j in keys)
    decreases |keys|
  {
    if |keys| == 0 then m
    else
      var init := keys[..|keys| - 1];
      var r0 := AppendedUnder(m, init, v);
      assert forall i :: 0 <= i < |init| ==> init[i] == keys[i];
      Appended(r0, keys[|keys| - 1], v)
  }

  /** A one-key index of `BuildIndexes`: each task that `keep` accepts is
      appended under its key. */
  function IndexBy<K(!new)>(ts: seq<Task>, keep: Task -> bool, key: Task -> K): map<K, seq<Task>>
    decreases |ts|
  {
    if |ts| == 0 then map[]
    else
      var last := ts[|ts| - 1];
      var m0 := IndexBy(ts[..|ts| - 1], keep, key);
      if keep(last) then Appended(m0, key(last), last) else m0
  }

  /** Every accepted task is under its key, and a key holds only accepted
      tasks of the list that carry it. */
  lemma {:induction false} IndexBySound<K(!new)>(ts: seq<Task>, keep: Task -> bool, key: Task -> K)
    ensures var m := IndexBy(ts, keep, key);
      && (forall i :: 0 <= i < |ts| && keep(ts[i]) ==> ts[i] in Lookup(m, key(ts[i])))
      && (forall k, x :: x in Lookup(m, k) ==> x in ts && keep(x) && key(x) == k)
    decreases |ts|
  {
    if |ts| > 0 {
      var init := ts[..|ts| - 1];
      IndexBySound(init, keep, key);
      var m0, m := IndexBy(init, keep, key), IndexBy(ts, keep, key);
      forall i | 0 <= i < |ts| && keep(ts[i]) ensures ts[i] in Lookup(m, key(ts[i])) {
        if i < |init| {
          assert init[i] == ts[i];
        }
      }
      forall k, x | x in Lookup(m, k) ensures x in ts && keep(x) && key(x) == k {
        if x in Lookup(m0, k) {
          assert x in init;
          var j :| 0 <= j < |init| && init[j] == x;
          assert ts[j] == x;
        }
      }
    }
  }

  function AnyTask(t: Task): bool { true }

  function TaskStatus(t: Task): Status { t.status }

  function TaskPriority(t: Task): Priority { t.priority }

  /** The parent index takes the tasks with a parent, under the parent's Name. */
  function HasParent(t: Task): bool { !Equals(t.parent, ZeroTaskID) }

  function ParentName(t: Task): string { Name(t.parent) }

  function Assignees(t: Task): seq<string> { t.assignees }

  function Labels(t: Task): seq<string> { t.labels }

  /** A list-valued field's index: each task appended under each of its
      entries. */
  function ListIndex(ts: seq<Task>, field: Task -> seq<string>): map<string, seq<Task>>
    decreases |ts|
  {
    if |ts| == 0 then map[]
    else
      var last := ts[|ts| - 1];
      AppendedUnder(ListIndex(ts[..|ts| - 1], field), field(last), last)
  }

  /** Every task is under each entry of its field. */
  lemma {:induction false} ListIndexComplete(ts: seq<Task>, field: Task -> seq<string>)
    ensures forall i, j :: 0 <= i < |ts| && 0 <= j < |field(ts[i])| ==> ts[i] in Lookup(ListIndex(ts, field), field(ts[i])[j])
    decreases |ts|
  {
    if |ts| > 0 {
      var init := ts[..|ts| - 1];
      ListIndexComplete(init, field);
      var m0 := ListIndex(init, field);
      var m := ListIndex(ts, field);
      forall i, j | 0 <= i < |ts| && 0 <= j < |field(ts[i])| ensures ts[i] in Lookup(m, field(ts[i])[j]) {
        if i < |init| {
          assert init[i] == ts[i];
          assert ts[i] in Lookup(m0, field(ts[i])[j]);
        }
      }
    }
  }

  /** An entry holds only tasks of the list whose field has it. */
  lemma {:induction false} ListIndexSound(ts: seq<Task>, field: Task -> seq<string>)
    ensures forall k, x :: x in Lookup(ListIndex(ts, field), k) ==> x in ts && k in field(x)
    decreases |ts|
  {
    if |ts| > 0 {
      var init := ts[..|ts| - 1];
      ListIndexSound(init, field);
      var m0 := ListIndex(init, field);
      var m := ListIndex(ts, field);
      forall k, x | x in Lookup(m, k) ensures x in ts && k in field(x) {
        if x in Lookup(m0, k) {
          assert x in init;
          var j :| 0 <= j < |init| && init[j] == x;
          assert ts[j] == x;
        }
      }
    }
  }

  function Dependencies(t: Task): seq<string> { t.dependencies }

  /** Each element's value appended under each entry of its field. */
  function ValuesUnder<T, V>(ts: seq<T>, field: T -> seq<string>, value: T -> V): map<string, seq<V>>
    decreases |ts|
  {
    if |ts| == 0 then map[]
    else
      var last := ts[|ts| - 1];
      AppendedUnder(ValuesUnder(ts[..|ts| - 1], field, value), field(last), value(last))
  }

  /** Every element's value is under each entry of its field. */
  lemma {:induction false} ValuesUnderComplete<T, V>(ts: seq<T>, field: T -> seq<string>, value: T -> V)
    ensures forall i, j :: 0 <= i < |ts| && 0 <= j < |field(ts[i])| ==>
      value(ts[i]) in Lookup(ValuesUnder(ts, field, value), field(ts[i])[j])
    decreases |ts|
  {
    if |ts| > 0 {
      var init := ts[..|ts| - 1];
      ValuesUnderComplete(init, field, value);
      var m0 := ValuesUnder(init, field, value);
      var m := ValuesUnder(ts, field, value);
      forall i, j | 0 <= i < |ts| && 0 <= j < |field(ts[i])| ensures value(ts[i]) in Lookup(m, field(ts[i])[j]) {
        if i < |init| {
          assert init[i] == ts[i];
          assert value(ts[i]) in Lookup(m0, field(ts[i])[j]);
        }
      }
    }
  }

  /** The dependency graph: each task's Name appended under each of its
      dependency texts. */
  function DependencyGraph(ts: seq<Task>): map<string, seq<string>>
  {
    ValuesUnder(ts, Dependencies, TaskName)
  }

  /** The six indexes of a `FilterOptimizer`. */
  datatype Indexes = Indexes(
    status: map<Status, seq<Task>>,
    assignee: map<string, seq<Task>>,
    labelled: map<string, seq<Task>>,
    priority: map<Priority, seq<Task>>,
    parent: map<string, seq<Task>>,
    dependencyGraph: map<string, seq<string>>)

  /** The indexes `BuildIndexes` computes for a task list. */
  function IndexesOf(ts: seq<Task>): Indexes
  {
    Indexes(IndexBy(ts, AnyTask, TaskStatus), ListIndex(ts, Assignees), ListIndex(ts, Labels),
            IndexBy(ts, AnyTask, TaskPriority), IndexBy(ts, HasParent, ParentName), DependencyGraph(ts))
  }

  /** The indexes with one more task added, as one pass of the
      `BuildIndexes` loop adds it. */
  function AddTask(idx: Indexes, t: Task): Indexes
  {
    Indexes(
      Appended(idx.status, t.status, t),
      AppendedUnder(idx.assignee, t.assignees, t),
      AppendedUnder(idx.labelled, t.labels, t),
      Appended(idx.priority, t.priority, t),
      if Equals(t.parent, ZeroTaskID) then idx.parent else Appended(idx.parent, Name(t.parent), t),
      AppendedUnder(idx.dependencyGraph, t.dependencies, Name(t.id)))
  }

  /** One more task: each index grows by that task alone. */
  lemma {:induction false} IndexesStep(tasks: seq<Task>, i: nat)
    requires i < |tasks|
    ensures IndexesOf(tasks[..i + 1]) == AddTask(IndexesOf(tasks[..i]), tasks[i])
  {
    assert tasks[..i + 1][..i] == tasks[..i];
  }

  lemma {:induction false} IndexesOfAll(tasks: seq<Task>)
    ensures IndexesOf(tasks[..|tasks|]) == IndexesOf(tasks)
  {
    assert tasks[..|tasks|] == tasks;
  }

  /** A dependency of a task names that task's Name in the graph. */
  lemma {:induction false} DependentsIndexed(ts: seq<Task>, i: nat, d: string)
    requires i < |ts| && d in ts[i].dependencies
    ensures Name(ts[i].id) in Lookup(IndexesOf(ts).dependencyGraph, d)
  {
    var j :| 0 <= j < |ts[i].dependencies| && ts[i].dependencies[j] == d;
    ValuesUnderComplete(ts, Dependencies, TaskName);
    assert TaskName(ts[i]) in Lookup(DependencyGraph(ts), Dependencies(ts[i])[j]);
  }

  /** Each task is found under its status and priority, under each of its
      assignees and labels, and under its parent when it has one; and an
      index holds only tasks of the list that carry its key. */
  lemma {:induction false} TasksIndexed(ts: seq<Task>, i: nat)
    requires i < |ts|
    ensures var idx, t := IndexesOf(ts), ts[i];
      && t in Lookup(idx.status, t.status)
      && t in Lookup(idx.priority, t.priority)
      && (forall a :: a in t.assignees ==> t in Lookup(idx.assignee, a))
      && (forall l :: l in t.labels ==> t in Lookup(idx.labelled, l))
      && (!Equals(t.parent, ZeroTaskID) ==> t in Lookup(idx.parent, Name(t.parent)))
  {
    var idx, t := IndexesOf(ts), ts[i];
    IndexBySound(ts, AnyTask, TaskStatus);
    IndexBySound(ts, AnyTask, TaskPriority);
    ListIndexComplete(ts, Assignees);
    ListIndexComplete(ts, Labels);
    IndexBySound(ts, HasParent, ParentName);
    forall a | a in t.assignees ensures t in Lookup(idx.assignee, a) {
      var j :| 0 <= j < |t.assignees| && t.assignees[j] == a;
      assert Assignees(t)[j] == a;
    }
    forall l | l in t.labels ensures t in Lookup(idx.labelled, l) {
      var j :| 0 <= j < |t.labels| && t.labels[j] == l;
      assert Labels(t)[j] == l;
    }
  }

  // ------------------------------------------------- index-based lookup

  /** The tasks with their first key kept: a later task whose key was
      already seen is skipped. */
  function DedupBy<T>(ts: seq<T>, key: T -> string): (r: seq<T>)
    ensures |r| <= |ts|
    decreases |ts|
  {
    if |ts| == 0 then []
    else
      var init := ts[..|ts| - 1];
      var last := ts[|ts| - 1];
      var r := DedupBy(init, key);
      if key(last) in KeysOf(r, key) then r
      else
        KeysOfAppend(r, last, key);
        r + [last]
  }

  /** Deduplication keeps only tasks of the input, and keeps one task for
      every key of the input. */
  lemma {:induction false} DedupBySound<T>(ts: seq<T>, key: T -> string)
    ensures var r := DedupBy(ts, key);
      && (forall i, j :: 0 <= i < j < |r| ==> key(r[i]) != key(r[j]))
      && (forall x :: x in r ==> x in ts)
      && (forall x :: x in ts ==> key(x) in KeysOf(r, key))
    decreases |ts|
  {
    if |ts| > 0 {
      var init := ts[..|ts| - 1];
      var last := ts[|ts| - 1];
      DedupBySound(init, key);
      assert ts == init + [last];
      var r := DedupBy(init, key);
      if key(last) !in KeysOf(r, key) {
        KeysOfAppend(r, last, key);
        var r' := r + [last];
        forall i, j | 0 <= i < j < |r'| ensures key(r'[i]) != key(r'[j]) {
          if j == |r| {
            assert r'[i] == r[i];
          }
        }
      }
    }
  }

  /** The keys of a list, as the `seen` map records them. */
  function KeysOf<T>(r: seq<T>, key: T -> string): (ks: set<string>)
    ensures forall i :: 0 <= i < |r| ==> key(r[i]) in ks
    decreases |r|
  {
    if |r| == 0 then {}
    else
      var init := r[..|r| - 1];
      var ks := KeysOf(init, key);
      assert forall i :: 0 <= i < |init| ==> init[i] == r[i];
      ks + {key(r[|r| - 1])}
  }

  /** Every key recorded is the key of some task of the list. */
  lemma {:induction false} KeysOfWitness<T>(r: seq<T>, key: T -> string, k: string)
    requires k in KeysOf(r, key)
    ensures exists i :: 0 <= i < |r| && key(r[i]) == k
    decreases |r|
  {
    var init := r[..|r| - 1];
    if k != key(r[|r| - 1]) {
      KeysOfWitness(init, key, k);
      var i :| 0 <= i < |init| && key(init[i]) == k;
      assert r[i] == init[i];
    }
  }

  lemma {:induction false} KeysOfAppend<T>(r: seq<T>, x: T, key: T -> string)
    ensures KeysOf(r + [x], key) == KeysOf(r, key) + {key(x)}
  {
    assert (r + [x])[..|r|] == r;
  }

  /** One more task: kept exactly when its key is new. */
  lemma {:induction false} DedupByAppend<T>(ts: seq<T>, x: T, key: T -> string)
    ensures DedupBy(ts + [x], key) ==
      if key(x) in KeysOf(DedupBy(ts, key), key) then DedupBy(ts, key) else DedupBy(ts, key) + [x]
  {
    assert (ts + [x])[..|ts|] == ts;
  }

  /** The index slices of the keys, one after another. */
  function Gather(index: map<string, seq<Task>>, keys: seq<string>): (r: seq<Task>)
    ensures forall x :: x in r ==> exists k :: k in keys && x in Lookup(index, k)
    ensures forall k, x :: k in keys && x in Lookup(index, k) ==> x in r
    decreases |keys|
  {
    if |keys| == 0 then []
    else
      var init := keys[..|keys| - 1];
      var last := keys[|keys| - 1];
      var r0 := Gather(index, init);
      assert keys == init + [last];
      r0 + Lookup(index, last)
  }

  lemma {:induction false} GatherAppend(index: map<string, seq<Task>>, keys: seq<string>, k: string)
    ensures Gather(index, keys + [k]) == Gather(index, keys) + Lookup(index, k)
  {
    assert (keys + [k])[..|keys|] == keys;
  }

  /** The status texts that parse, as statuses, in order. */
  function ParsedStatuses(ss: seq<string>, dist: (string, string) -> nat): (r: seq<Status>)
    decreases |ss|
  {
    if |ss| == 0 then []
    else
      var r0 := ParsedStatuses(ss[..|ss| - 1], dist);
      match ParseStatus(ss[|ss| - 1], dist)
      case Ok(s) => r0 + [s]
      case Err(_) => r0
  }

  /** The parsed statuses are exactly the values of the texts that parse. */
  lemma {:induction false} ParsedStatusesMembers(ss: seq<string>, dist: (string, string) -> nat)
    ensures forall s :: s in ParsedStatuses(ss, dist) <==> exists i :: 0 <= i < |ss| && ParseStatus(ss[i], dist) == Ok(s)
    decreases |ss|
  {
    if |ss| > 0 {
      var init := ss[..|ss| - 1];
      ParsedStatusesMembers(init, dist);
      assert forall i :: 0 <= i < |init| ==> init[i] == ss[i];
      assert ss == init + [ss[|ss| - 1]];
    }
  }

  /** One more status text: its slice is gathered when it parses. */
  lemma {:induction false} StatusGatherStep(index: map<Status, seq<Task>>, ss: seq<string>, dist: (string, string) -> nat, i: nat)
    requires i < |ss|
    ensures var g := Gather(index, ParsedStatuses(ss[..i], dist));
      && (ParseStatus(ss[i], dist).Ok? ==>
            Gather(index, ParsedStatuses(ss[..i + 1], dist)) == g + Lookup(index, ParseStatus(ss[i], dist).value))
      && (ParseStatus(ss[i], dist).Err? ==> Gather(index, ParsedStatuses(ss[..i + 1], dist)) == g)
  {
    var pre := ss[..i + 1];
    assert pre[..|pre| - 1] == ss[..i] && pre[|pre| - 1] == ss[i];
    if ParseStatus(ss[i], dist).Ok? {
      var s := ParseStatus(ss[i], dist).value;
      assert ParsedStatuses(pre, dist) == ParsedStatuses(ss[..i], dist) + [s];
      GatherAppend(index, ParsedStatuses(ss[..i], dist), s);
    }
  }

  /** The first candidates of `getInitialCandidates`, from the first set
      filter in the order status, priority, parent, assignee, label; a
      priority or parent that does not parse gives none; with none of
      these filters set, the tasks themselves. */
  function InitialCandidates(ts: seq<Task>, params: ListTasksParams, dist: (string, string) -> nat, idx: Indexes): seq<Task>
  {
    if |params.status| > 0 then DedupBy(Gather(idx.status, ParsedStatuses(params.status, dist)), TaskName)
    else if params.priority.Some? then
      match ParsePriority(params.priority.value, dist)
      case Ok(p) => Lookup(idx.priority, p)
      case Err(_) => []
    else if params.parent.Some? then
      match ParseTaskID(params.parent.value)
      case Ok(id) => Lookup(idx.parent, Name(id))
      case Err(_) => []
    else if |params.assignees| > 0 then DedupBy(Gather(idx.assignee, params.assignees), TaskName)
    else if |params.labels| > 0 then DedupBy(Gather(idx.labelled, params.labels), TaskName)
    else ts
  }

  // ------------------------------------------------------------ filters

  /** `hasAnyFilters`: a pointer filter counts as set even when empty. */
  predicate HasAnyFilters(params: ListTasksParams)
  {
    || params.parent.Some? || |params.status| > 0 || |params.assignees| > 0 || |params.labels| > 0
    || params.priority.Some? || params.unassigned || params.dependedOn || params.hasDependency
  }

  /** `hasOtherFilters`: any filter but `DependedOn`. */
  predicate HasOtherFilters(params: ListTasksParams)
  {
    || params.parent.Some? || |params.status| > 0 || |params.assignees| > 0 || |params.labels| > 0
    || params.priority.Some? || params.unassigned || params.hasDependency
  }

  /** `matchesAllFilters`: each set filter holds.  Unlike `FilterTasks`,
      assignee and label texts are compared untrimmed, and a status text
      that does not parse matches nothing: the status must be one that
      some status text parses to. */
  predicate MatchesAll(t: Task, params: ListTasksParams, dist: (string, string) -> nat)
  {
    && (Given(params.parent) ==>
          ParseTaskID(params.parent.value).Ok? && Equals(t.parent, ParseTaskID(params.parent.value).value))
    && (Given(params.priority) ==>
          ParsePriority(params.priority.value, dist).Ok? && t.priority == ParsePriority(params.priority.value, dist).value)
    && (params.unassigned ==> |t.assignees| == 0)
    && (|params.status| > 0 ==> t.status in ParsedStatuses(params.status, dist))
    && (|params.assignees| > 0 ==> Intersects(t.assignees, params.assignees))
    && (|params.labels| > 0 ==> Intersects(t.labels, params.labels))
    && (params.hasDependency ==> |t.dependencies| > 0)
  }

  /** The candidates passing every filter, in order. */
  function Keep(cands: seq<Task>, params: ListTasksParams, dist: (string, string) -> nat): (r: seq<Task>)
    ensures |r| <= |cands|
    ensures forall x :: x in r ==> x in cands && MatchesAll(x, params, dist)
    ensures forall x :: x in cands && MatchesAll(x, params, dist) ==> x in r
    decreases |cands|
  {
    if |cands| == 0 then []
    else
      var init := cands[..|cands| - 1];
      var last := cands[|cands| - 1];
      var r0 := Keep(init, params, dist);
      assert cands == init + [last];
      if MatchesAll(last, params, dist) then r0 + [last] else r0
  }

  /** With parameters `FilterTasks` accepts and assignee and label texts
      that trimming leaves alone, `matchesAllFilters` agrees with the
      filter `FilterTasks` applies. */
  lemma {:induction false} MatchesAllAgrees(t: Task, params: ListTasksParams, dist: (string, string) -> nat)
    requires ParseFilter(params, dist).Ok?
    requires TrimAll(params.assignees) == params.assignees && TrimAll(params.labels) == params.labels
    ensures MatchesAll(t, params, dist) <==> Matches(ParseFilter(params, dist).value, t)
  {
    var f := ParseFilter(params, dist).value;
    ParsedFilterFields(params, dist);
    ParsedAllStatuses(params.status, dist);
  }

  /** The fields of an accepted filter. */
  lemma {:induction false} ParsedFilterFields(params: ListTasksParams, dist: (string, string) -> nat)
    requires ParseFilter(params, dist).Ok?
    ensures var f := ParseFilter(params, dist).value;
      && (f.parent.Some? <==> Given(params.parent))
      && (f.parent.Some? ==> ParseTaskID(params.parent.value) == Ok(f.parent.value))
      && (f.priority.Some? <==> Given(params.priority))
      && (f.priority.Some? ==> ParsePriority(params.priority.value, dist) == Ok(f.priority.value))
      && ParseStatuses(params.status, dist) == Ok(f.statuses)
      && f.assignees == TrimAll(params.assignees) && f.labels == TrimAll(params.labels)
      && f.unassigned == params.unassigned && f.hasDependency == params.hasDependency
  {
  }

  /** When every status text parses, the statuses kept are all of them. */
  lemma {:induction false} ParsedAllStatuses(ss: seq<string>, dist: (string, string) -> nat)
    requires ParseStatuses(ss, dist).Ok?
    ensures ParsedStatuses(ss, dist) == ParseStatuses(ss, dist).value
    decreases |ss|
  {
    if |ss| > 0 {
      ParsedAllStatuses(ss[..|ss| - 1], dist);
    }
  }

  /** The order in which `ParseFilter` reports a failure. */
  lemma {:induction false} ParseFilterOrder(params: ListTasksParams, dist: (string, string) -> nat)
    ensures var parentBad := Given(params.parent) && ParseTaskID(params.parent.value).Err?;
      var priorityBad := Given(params.priority) && ParsePriority(params.priority.value, dist).Err?;
      var statuses := ParseStatuses(params.status, dist);
      && (parentBad ==> ParseFilter(params, dist) == Err(BadParentFilter(params.parent.value, ParseTaskID(params.parent.value).error)))
      && (!parentBad && priorityBad ==>
            ParseFilter(params, dist) == Err(BadPriorityFilter(params.priority.value, ParsePriority(params.priority.value, dist).error)))
      && (!parentBad && !priorityBad ==>
            (ParseFilter(params, dist).Ok? <==> statuses.Ok?) &&
            (statuses.Err? ==> ParseFilter(params, dist) == Err(statuses.error)))
  {
  }

  /** `validateFilterParams`: the parent, then the priority, then each
      status is checked, and the first failure is returned. */
  method ValidateFilterParams(params: ListTasksParams, dist: (string, string) -> nat) returns (err: Option<FilterError>)
    ensures err.None? <==> ParseFilter(params, dist).Ok?
    ensures err.Some? ==> ParseFilter(params, dist) == Err(err.value)
  {
    ParseFilterOrder(params, dist);
    if Given(params.parent) {
      var p := ParseTaskID(params.parent.value);
      if p.Err? {
        return Some(BadParentFilter(params.parent.value, p.error));
      }
    }
    if Given(params.priority) {
      var q := ParsePriority(params.priority.value, dist);
      if q.Err? {
        return Some(BadPriorityFilter(params.priority.value, q.error));
      }
    }
    var i := 0;
    while i < |params.status|
      invariant 0 <= i <= |params.status|
      invariant ParseStatuses(params.status[..i], dist).Ok?
    {
      var s := ParseStatus(params.status[i], dist);
      if s.Err? {
        StatusesFail(params.status, dist, i, s.error);
        return Some(BadStatusFilter(params.status[i], s.error));
      }
      StatusesStep(params.status, dist, i, ParseStatuses(params.status[..i], dist).value);
      i := i + 1;
    }
    assert params.status[..i] == params.status;
    return None;
  }

  // ---------------------------------------------------------- optimizer

  /** The plan `OptimizeFilter` reports. */
  datatype FilterExecutionPlan = FilterExecutionPlan(useIndexes: bool, estimatedCost: int, optimizedOrder: seq<string>)

  /** How many index entries the keys select. */
  function KeysTotal<K>(index: map<K, seq<Task>>, keys: seq<K>): nat
    decreases |keys|
  {
    if |keys| == 0 then 0
    else KeysTotal(index, keys[..|keys| - 1]) + |Lookup(index, keys[|keys| - 1])|
  }

  /** The parser-dependent costs: statuses that do not parse count
      nothing; a priority that does not parse costs 50. */
  function StatusCost(index: map<Status, seq<Task>>, ss: seq<string>, dist: (string, string) -> nat): nat
  {
    2 * KeysTotal(index, ParsedStatuses(ss, dist))
  }

  function PriorityCost(index: map<Priority, seq<Task>>, s: string, dist: (string, string) -> nat): nat
  {
    match ParsePriority(s, dist)
    case Ok(p) => 2 * |Lookup(index, p)|
    case Err(_) => 50
  }

  /** The cost of the filters set, without the base cost of loading. */
  function FiltersCost(idx: Indexes, params: ListTasksParams, dist: (string, string) -> nat): (c: nat)
    ensures (&& |params.status| == 0 && params.priority.None? && |params.assignees| == 0
             && |params.labels| == 0 && params.parent.None?) ==> c == 0
    ensures params.priority.Some? && ParsePriority(params.priority.value, dist).Err? ==> c >= 50
  {
    (if |params.status| > 0 then StatusCost(idx.status, params.status, dist) else 0)
    + (if params.priority.Some? then PriorityCost(idx.priority, params.priority.value, dist) else 0)
    + (if |params.assignees| > 0 then 3 * KeysTotal(idx.assignee, params.assignees) else 0)
    + (if |params.labels| > 0 then 3 * KeysTotal(idx.labelled, params.labels) else 0)
    + (if params.parent.Some? then 2 * |Lookup(idx.parent, params.parent.value)| else 0)
  }

  /** The names of the set filters, in the order status, priority,
      assigned, labels, parent. */
  function FilterNames(params: ListTasksParams): (names: seq<string>)
    ensures |names| <= 5
    ensures |params.status| > 0 ==> |names| > 0 && names[0] == "status"
    ensures |names| == 0 <==> (&& |params.status| == 0 && params.priority.None? && |params.assignees| == 0
                               && |params.labels| == 0 && params.parent.None?)
  {
    []
    + (if |params.status| > 0 then ["status"] else [])
    + (if params.priority.Some? then ["priority"] else [])
    + (if |params.assignees| > 0 then ["assigned"] else [])
    + (if |params.labels| > 0 then ["labels"] else [])
    + (if params.parent.Some? then ["parent"] else [])
  }

  /** The optimizer: six index maps, rebuilt together. */
  class FilterOptimizer {
    var statusIndex: map<Status, seq<Task>>
    var assignedIndex: map<string, seq<Task>>
    var labelIndex: map<string, seq<Task>>
    var priorityIndex: map<Priority, seq<Task>>
    var parentIndex: map<string, seq<Task>>
    var dependencyGraph: map<string, seq<string>>

    function Snapshot(): Indexes
      reads this
    {
      Indexes(statusIndex, assignedIndex, labelIndex, priorityIndex, parentIndex, dependencyGraph)
    }

    /** `NewFilterOptimizer`: every index empty. */
    constructor ()
      ensures Snapshot() == Indexes(map[], map[], map[], map[], map[], map[])
    {
      statusIndex, assignedIndex, labelIndex := map[], map[], map[];
      priorityIndex, parentIndex, dependencyGraph := map[], map[], map[];
    }

    /** `BuildIndexes`: the indexes are cleared and refilled from the
      tasks, one task at a time. */
    method BuildIndexes(tasks: seq<Task>)
      modifies this
      ensures Snapshot() == IndexesOf(tasks)
    {
      var idx := Indexes(map[], map[], map[], map[], map[], map[]);
      var i := 0;
      while i < |tasks|
        invariant 0 <= i <= |tasks|
        invariant idx == IndexesOf(tasks[..i])
      {
        IndexesStep(tasks, i);
        idx := AddTaskTo(idx, tasks[i]);
        i := i + 1;
      }
      IndexesOfAll(tasks);
      statusIndex, assignedIndex, labelIndex := idx.status, idx.assignee, idx.labelled;
      priorityIndex, parentIndex, dependencyGraph := idx.priority, idx.parent, idx.dependencyGraph;
    }

    /** `estimateStatusFilterCost`: twice the size of each parsed
        status's slice, summed. */
    method EstimateStatusFilterCost(statuses: seq<string>, dist: (string, string) -> nat) returns (cost: int)
      ensures cost == StatusCost(statusIndex, statuses, dist)
    {
      var total := 0;
      var i := 0;
      while i < |statuses|
        invariant 0 <= i <= |statuses|
        invariant total == KeysTotal(statusIndex, ParsedStatuses(statuses[..i], dist))
      {
        assert statuses[..i + 1][..i] == statuses[..i];
        var s := ParseStatus(statuses[i], dist);
        if s.Ok? {
          total := total + |Lookup(statusIndex, s.value)|;
          KeysTotalAppend(statusIndex, ParsedStatuses(statuses[..i], dist), s.value);
        }
        i := i + 1;
      }
      assert statuses[..i] == statuses;
      return total * 2;
    }

    /** `estimateAssignedFilterCost` and `estimateLabelFilterCost`: three
        times the summed slice sizes. */
    method EstimateListFilterCost(index: map<string, seq<Task>>, keys: seq<string>) returns (cost: int)
      ensures cost == 3 * KeysTotal(index, keys)
    {
      var total := 0;
      var i := 0;
      while i < |keys|
        invariant 0 <= i <= |keys|
        invariant total == KeysTotal(index, keys[..i])
      {
        assert keys[..i + 1][..i] == keys[..i];
        total := total + |Lookup(index, keys[i])|;
        i := i + 1;
      }
      assert keys[..i] == keys;
      return total * 3;
    }

    /** `EstimateFilterCost`: 100 for loading plus the cost of each set
        filter, so never below 100. */
    method EstimateFilterCost(params: ListTasksParams, dist: (string, string) -> nat) returns (cost: int)
      ensures cost == 100 + FiltersCost(Snapshot(), params, dist)
      ensures cost >= 100
    {
      cost := 100;
      if |params.status| > 0 {
        var c := EstimateStatusFilterCost(params.status, dist);
        cost := cost + c;
      }
      if params.priority.Some? {
        cost := cost + PriorityCost(priorityIndex, params.priority.value, dist);
      }
      if |params.assignees| > 0 {
        var c := EstimateListFilterCost(assignedIndex, params.assignees);
        cost := cost + c;
      }
      if |params.labels| > 0 {
        var c := EstimateListFilterCost(labelIndex, params.labels);
        cost := cost + c;
      }
      if params.parent.Some? {
        cost := cost + 2 * |Lookup(parentIndex, params.parent.value)|;
      }
    }

    /** `OptimizeFilter`: the same costs without the base, and the set
        filters named in the order status, priority, assigned, labels,
        parent.  Each step of the source adds one filter's cost and name,
        as `EstimateFilterCost` adds the costs. */
    method OptimizeFilter(params: ListTasksParams, dist: (string, string) -> nat) returns (plan: FilterExecutionPlan)
      ensures plan.useIndexes
      ensures plan.estimatedCost == FiltersCost(Snapshot(), params, dist)
      ensures plan.optimizedOrder == FilterNames(params)
    {
      var cost := EstimateFilterCost(params, dist);
      plan := FilterExecutionPlan(true, cost - 100, FilterNames(params));
    }

    /** `getTasksByStatus`: the slices of the statuses that parse, a task
        whose Name was already seen skipped. */
    method TasksByStatus(statuses: seq<string>, dist: (string, string) -> nat) returns (r: seq<Task>)
      ensures r == DedupBy(Gather(statusIndex, ParsedStatuses(statuses, dist)), TaskName)
    {
      r := [];
      var seen: set<string> := {};
      var i := 0;
      while i < |statuses|
        invariant 0 <= i <= |statuses|
        invariant r == DedupBy(Gather(statusIndex, ParsedStatuses(statuses[..i], dist)), TaskName)
        invariant seen == KeysOf(r, TaskName)
      {
        StatusGatherStep(statusIndex, statuses, dist, i);
        var s := ParseStatus(statuses[i], dist);
        if s.Ok? {
          r, seen := AddUnseen(r, seen, Gather(statusIndex, ParsedStatuses(statuses[..i], dist)),
                               Lookup(statusIndex, s.value), TaskName);
        }
        i := i + 1;
      }
      assert statuses[..i] == statuses;
    }

    /** `getTasksByAssigned`. */
    method TasksByAssigned(names: seq<string>) returns (r: seq<Task>)
      ensures r == DedupBy(Gather(assignedIndex, names), TaskName)
    {
      r := GatherUnseen(assignedIndex, names, TaskName);
    }

    /** `getTasksByLabels`. */
    method TasksByLabels(labels: seq<string>) returns (r: seq<Task>)
      ensures r == DedupBy(Gather(labelIndex, labels), TaskName)
    {
      r := GatherUnseen(labelIndex, labels, TaskName);
    }

    /** `getInitialCandidates`, with `getTasksByPriority` and
        `getTasksByParent` inline. */
    method InitialCandidatesOf(tasks: seq<Task>, params: ListTasksParams, dist: (string, string) -> nat)
      returns (r: seq<Task>)
      ensures r == InitialCandidates(tasks, params, dist, Snapshot())
    {
      if |params.status| > 0 {
        r := TasksByStatus(params.status, dist);
      } else if params.priority.Some? {
        var p := ParsePriority(params.priority.value, dist);
        r := if p.Ok? then Lookup(priorityIndex, p.value) else [];
      } else if params.parent.Some? {
        var id := ParseTaskID(params.parent.value);
        r := if id.Ok? then Lookup(parentIndex, Name(id.value)) else [];
      } else if |params.assignees| > 0 {
        r := TasksByAssigned(params.assignees);
      } else if |params.labels| > 0 {
        r := TasksByLabels(params.labels);
      } else {
        r := tasks;
      }
    }
  }

  /** The summed sizes grow by the slice of one more key. */
  lemma {:induction false} KeysTotalAppend<K>(index: map<K, seq<Task>>, keys: seq<K>, k: K)
    ensures KeysTotal(index, keys + [k]) == KeysTotal(index, keys) + |Lookup(index, k)|
  {
    assert (keys + [k])[..|keys|] == keys;
  }

  /** One pass of the `BuildIndexes` loop. */
  method AddTaskTo(idx: Indexes, t: Task) returns (idx': Indexes)
    ensures idx' == AddTask(idx, t)
  {
    var assignee := AppendUnderEach(idx.assignee, t.assignees, t);
    var labelled := AppendUnderEach(idx.labelled, t.labels, t);
    var parent := idx.parent;
    if !Equals(t.parent, ZeroTaskID) {
      parent := Appended(parent, Name(t.parent), t);
    }
    var graph := AppendUnderEach(idx.dependencyGraph, t.dependencies, Name(t.id));
    idx' := Indexes(Appended(idx.status, t.status, t), assignee, labelled,
                    Appended(idx.priority, t.priority, t), parent, graph);
  }

  /** The inner loop of `AppendedUnder`, as `BuildIndexes` runs it. */
  method AppendUnderEach<V>(m: map<string, seq<V>>, keys: seq<string>, v: V) returns (r: map<string, seq<V>>)
    ensures r == AppendedUnder(m, keys, v)
  {
    r := m;
    var j := 0;
    while j < |keys|
      invariant 0 <= j <= |keys|
      invariant r == AppendedUnder(m, keys[..j], v)
    {
      assert keys[..j + 1][..j] == keys[..j];
      r := Appended(r, keys[j], v);
      j := j + 1;
    }
    assert keys[..j] == keys;
  }

  /** One task of the seen-map loops: kept exactly when its key is unseen. */
  lemma {:induction false} SeenStep<T>(pre: seq<T>, t: T, r: seq<T>, seen: set<string>, key: T -> string)
    requires r == DedupBy(pre, key) && seen == KeysOf(r, key)
    ensures key(t) in seen ==> DedupBy(pre + [t], key) == r
    ensures key(t) !in seen ==> DedupBy(pre + [t], key) == r + [t] && KeysOf(r + [t], key) == seen + {key(t)}
  {
    DedupByAppend(pre, t, key);
    KeysOfAppend(r, t, key);
  }

  lemma {:induction false} PrefixStep<T>(a: seq<T>, b: seq<T>, j: nat)
    requires j < |b|
    ensures a + b[..j + 1] == (a + b[..j]) + [b[j]]
  {
    assert b[..j + 1] == b[..j] + [b[j]];
  }

  /** `SeenStep` at position `j` of a slice. */
  lemma {:induction false} SeenStepAt<T>(before: seq<T>, slice: seq<T>, j: nat, r: seq<T>, seen: set<string>, key: T -> string)
    requires j < |slice|
    requires r == DedupBy(before + slice[..j], key) && seen == KeysOf(r, key)
    ensures key(slice[j]) in seen ==> DedupBy(before + slice[..j + 1], key) == r
    ensures key(slice[j]) !in seen ==>
      DedupBy(before + slice[..j + 1], key) == r + [slice[j]] && KeysOf(r + [slice[j]], key) == seen + {key(slice[j])}
  {
    PrefixStep(before, slice, j);
    SeenStep(before + slice[..j], slice[j], r, seen, key);
  }

  /** One slice of the seen-map loops: tasks whose key is new are
      appended. */
  method AddUnseen<T>(r: seq<T>, seen: set<string>, ghost before: seq<T>, slice: seq<T>, key: T -> string)
    returns (r': seq<T>, seen': set<string>)
    requires r == DedupBy(before, key) && seen == KeysOf(r, key)
    ensures r' == DedupBy(before + slice, key) && seen' == KeysOf(r', key)
  {
    r', seen' := r, seen;
    assert before + slice[..0] == before;
    var j := 0;
    while j < |slice|
      invariant 0 <= j <= |slice|
      invariant r' == DedupBy(before + slice[..j], key) && seen' == KeysOf(r', key)
    {
      var t := slice[j];
      SeenStepAt(before, slice, j, r', seen', key);
      if key(t) !in seen' {
        r' := r' + [t];
        seen' := seen' + {key(t)};
      }
      j := j + 1;
    }
    assert slice[..j] == slice;
  }

  /** The seen-map loop over a list of keys. */
  method GatherUnseen(index: map<string, seq<Task>>, keys: seq<string>, key: Task -> string) returns (r: seq<Task>)
    ensures r == DedupBy(Gather(index, keys), key)
  {
    r := [];
    var seen: set<string> := {};
    var i := 0;
    while i < |keys|
      invariant 0 <= i <= |keys|
      invariant r == DedupBy(Gather(index, keys[..i]), key) && seen == KeysOf(r, key)
    {
      assert keys[..i + 1] == keys[..i] + [keys[i]];
      GatherAppend(index, keys[..i], keys[i]);
      r, seen := AddUnseen(r, seen, Gather(index, keys[..i]), Lookup(index, keys[i]), key);
      i := i + 1;
    }
    assert keys[..i] == keys;
  }

  /** The keep loop of `SmartFilterTasks`. */
  method KeepMatching(cands: seq<Task>, params: ListTasksParams, dist: (string, string) -> nat) returns (r: seq<Task>)
    ensures r == Keep(cands, params, dist)
  {
    r := [];
    var i := 0;
    while i < |cands|
      invariant 0 <= i <= |cands|
      invariant r == Keep(cands[..i], params, dist)
    {
      assert cands[..i + 1][..i] == cands[..i];
      if MatchesAll(cands[i], params, dist) {
        r := r + [cands[i]];
      }
      i := i + 1;
    }
    assert cands[..i] == cands;
  }

  // ---------------------------------------------------- SmartFilterTasks

  /** `SmartFilterTasks`: the parameters are validated as `FilterTasks`
      does; with no filter at all the input is returned; otherwise the
      optimizer (a fresh one built from the input when none is given) is
      rebuilt from the depended-on tasks when `DependedOn` comes with other
      filters, and the candidates of the first indexed filter that pass
      every filter are returned in order.  `source` is the task list the
      filtering starts from and `used` the indexes it read. */
  method SmartFilterTasks(tasks: seq<Task>, params: ListTasksParams, dist: (string, string) -> nat, optimizer: FilterOptimizer?)
    returns (r: Result<seq<Task>, FilterError>, ghost source: seq<Task>, ghost used: Indexes)
    modifies optimizer
    ensures r.Err? <==> ParseFilter(params, dist).Err?
    ensures r.Err? ==> r.error == ParseFilter(params, dist).error
    ensures r.Ok? && !HasAnyFilters(params) ==> r.value == tasks
    ensures r.Ok? && HasAnyFilters(params) ==>
      && (params.dependedOn ==> IsDependentGraph(source, tasks))
      && (!params.dependedOn ==> source == tasks)
      && (params.dependedOn && HasOtherFilters(params) ==> used == IndexesOf(source))
      && (!(params.dependedOn && HasOtherFilters(params)) ==>
            used == if optimizer == null then IndexesOf(tasks) else old(optimizer.Snapshot()))
      && (optimizer != null ==> optimizer.Snapshot() == used)
      && r.value == Keep(InitialCandidates(source, params, dist, used), params, dist)
    ensures !(r.Ok? && HasAnyFilters(params)) && optimizer != null ==> optimizer.Snapshot() == old(optimizer.Snapshot())
  {
    source, used := tasks, IndexesOf(tasks);
    var invalid := ValidateFilterParams(params, dist);
    if invalid.Some? {
      return Err(invalid.value), source, used;
    }
    if !HasAnyFilters(params) {
      return Ok(tasks), source, used;
    }
    var opt := optimizer;
    if opt == null {
      opt := new FilterOptimizer();
      opt.BuildIndexes(tasks);
    }
    var src := tasks;
    if params.dependedOn {
      src := DependentGraph(tasks);
      if HasOtherFilters(params) {
        opt.BuildIndexes(src);
      }
    }
    source, used := src, opt.Snapshot();
    var cands := opt.InitialCandidatesOf(src, params, dist);
    var kept := KeepMatching(cands, params, dist);
    r := Ok(kept);
  }

  // ------------------------------------------------------------ lemmas

  /** A parent filter set to the empty text counts as a filter but
      selects no candidates, so with no status or priority filter the
      result is empty; `FilterTasks` treats the same parameter as unset. */
  lemma {:induction false} EmptyParentSelectsNothing(ts: seq<Task>, params: ListTasksParams, dist: (string, string) -> nat, idx: Indexes)
    requires params.parent == Some("") && |params.status| == 0 && params.priority.None?
    ensures HasAnyFilters(params)
    ensures InitialCandidates(ts, params, dist, idx) == []
  {
    ParseRejectsEmptySegment("");
  }

  /** With nothing set that `hasAnyFilters` sees, `FilterTasks` also finds
      no filter. */
  lemma {:induction false} NoFiltersAgree(params: ListTasksParams, dist: (string, string) -> nat)
    requires !HasAnyFilters(params)
    ensures ParseFilter(params, dist).Ok? && NoFilter(ParseFilter(params, dist).value)
  {
  }

  /** When every candidate passes, all are kept. */
  lemma {:induction false} KeepAll(cands: seq<Task>, params: ListTasksParams, dist: (string, string) -> nat)
    requires forall i :: 0 <= i < |cands| ==> MatchesAll(cands[i], params, dist)
    ensures Keep(cands, params, dist) == cands
    decreases |cands|
  {
    if |cands| > 0 {
      var init := cands[..|cands| - 1];
      assert forall i :: 0 <= i < |init| ==> init[i] == cands[i];
      KeepAll(init, params, dist);
      assert cands == init + [cands[|cands| - 1]];
    }
  }

  /** Distinct elements: a set of the same size. */
  lemma {:induction false} DistinctCount(s: seq<Task>)
    requires forall i, j :: 0 <= i < j < |s| ==> s[i] != s[j]
    ensures |(set x | x in s)| == |s|
    decreases |s|
  {
    if |s| > 0 {
      var init := s[..|s| - 1];
      DistinctCount(init);
      assert (set x | x in s) == (set x | x in init) + {s[|s| - 1]};
      assert s[|s| - 1] !in (set x | x in init);
    }
  }

  lemma {:induction false} SameSetSameCount(a: seq<Task>, b: seq<Task>)
    requires forall i, j :: 0 <= i < j < |a| ==> a[i] != a[j]
    requires forall i, j :: 0 <= i < j < |b| ==> b[i] != b[j]
    requires forall x :: x in a <==> x in b
    ensures (set x | x in a) == (set x | x in b)
    ensures |a| == |b|
  {
    assert (set x | x in a) == (set x | x in b);
    DistinctCount(a);
    DistinctCount(b);
  }

  /** A selection from tasks with distinct elements has distinct elements. */
  lemma {:induction false} SelectDistinct(ts: seq<Task>, f: Filter)
    requires forall i, j :: 0 <= i < j < |ts| ==> ts[i] != ts[j]
    ensures forall i, j :: 0 <= i < j < |Select(ts, f)| ==> Select(ts, f)[i] != Select(ts, f)[j]
    decreases |ts|
  {
    if |ts| > 0 {
      var init := ts[..|ts| - 1];
      SelectDistinct(init, f);
      var last := ts[|ts| - 1];
      assert last !in init;
      assert last !in Select(init, f);
    }
  }

  /** A task of a list of tasks with distinct keys, reached through
      several index slices, survives the deduplication. */
  lemma {:induction false} DedupKeepsDistinct(ts: seq<Task>, g: seq<Task>, key: Task -> string, x: Task)
    requires forall i, j :: 0 <= i < j < |ts| ==> key(ts[i]) != key(ts[j])
    requires forall y :: y in g ==> y in ts
    requires x in g
    ensures x in DedupBy(g, key)
  {
    var cands := DedupBy(g, key);
    DedupBySound(g, key);
    KeysOfWitness(cands, key, key(x));
    var k :| 0 <= k < |cands| && key(cands[k]) == key(x);
    var c := cands[k];
    assert c in cands;
    assert c in ts;
    var a :| 0 <= a < |ts| && ts[a] == x;
    var b :| 0 <= b < |ts| && ts[b] == c;
    assert a == b;
  }

  /** The status slices of the statuses asked for hold exactly the tasks
      with one of those statuses. */
  lemma {:induction false} GatherStatuses(ts: seq<Task>, ss: seq<Status>, x: Task)
    ensures x in Gather(IndexBy(ts, AnyTask, TaskStatus), ss) <==> x in ts && x.status in ss
  {
    var idx := IndexBy(ts, AnyTask, TaskStatus);
    IndexBySound(ts, AnyTask, TaskStatus);
    if x in Gather(idx, ss) {
      var k :| k in ss && x in Lookup(idx, k);
      assert TaskStatus(x) == k;
    }
    if x in ts && x.status in ss {
      var i :| 0 <= i < |ts| && ts[i] == x;
      assert x in Lookup(idx, TaskStatus(ts[i]));
    }
  }

  /** The candidates of a status-only filter are the tasks with a status
      asked for. */
  lemma {:induction false} StatusCandidates(ts: seq<Task>, params: ListTasksParams, dist: (string, string) -> nat, x: Task)
    requires forall i, j :: 0 <= i < j < |ts| ==> TaskName(ts[i]) != TaskName(ts[j])
    requires |params.status| > 0
    ensures var ss := ParsedStatuses(params.status, dist);
      x in InitialCandidates(ts, params, dist, IndexesOf(ts)) <==> x in ts && x.status in ss
  {
    var ss := ParsedStatuses(params.status, dist);
    var g := Gather(IndexBy(ts, AnyTask, TaskStatus), ss);
    assert InitialCandidates(ts, params, dist, IndexesOf(ts)) == DedupBy(g, TaskName);
    GatherStatuses(ts, ss, x);
    DedupBySound(g, TaskName);
    forall y | y in g ensures y in ts {
      GatherStatuses(ts, ss, y);
    }
    if x in ts && x.status in ss {
      DedupKeepsDistinct(ts, g, TaskName, x);
    }
  }

  /** A status-only filter: the smart path keeps a task exactly when the
      plain path does. */
  lemma {:induction false} StatusFilterMembers(ts: seq<Task>, params: ListTasksParams, dist: (string, string) -> nat, x: Task)
    requires forall i, j :: 0 <= i < j < |ts| ==> TaskName(ts[i]) != TaskName(ts[j])
    requires |params.status| > 0 && ParseFilter(params, dist).Ok?
    requires params.parent.None? && params.priority.None? && |params.assignees| == 0 && |params.labels| == 0
    requires !params.unassigned && !params.dependedOn && !params.hasDependency
    ensures x in Keep(InitialCandidates(ts, params, dist, IndexesOf(ts)), params, dist) <==>
            x in Select(ts, ParseFilter(params, dist).value)
  {
    assert TrimAll(params.assignees) == params.assignees && TrimAll(params.labels) == params.labels;
    StatusCandidates(ts, params, dist, x);
    MatchesAllAgrees(x, params, dist);
  }

  /** A status-only filter: the smart path lists no task twice. */
  lemma {:induction false} StatusFilterDistinct(ts: seq<Task>, params: ListTasksParams, dist: (string, string) -> nat)
    requires forall i, j :: 0 <= i < j < |ts| ==> TaskName(ts[i]) != TaskName(ts[j])
    requires |params.status| > 0
    requires params.parent.None? && params.priority.None? && |params.assignees| == 0 && |params.labels| == 0
    requires !params.unassigned && !params.dependedOn && !params.hasDependency
    ensures var smart := Keep(InitialCandidates(ts, params, dist, IndexesOf(ts)), params, dist);
      forall i, j :: 0 <= i < j < |smart| ==> smart[i] != smart[j]
  {
    var cands := InitialCandidates(ts, params, dist, IndexesOf(ts));
    forall i | 0 <= i < |cands| ensures MatchesAll(cands[i], params, dist) {
      StatusCandidates(ts, params, dist, cands[i]);
    }
    KeepAll(cands, params, dist);
    DedupBySound(Gather(IndexBy(ts, AnyTask, TaskStatus), ParsedStatuses(params.status, dist)), TaskName);
    assert cands == DedupBy(Gather(IndexBy(ts, AnyTask, TaskStatus), ParsedStatuses(params.status, dist)), TaskName);
  }

  /** With only a status filter, on tasks with distinct Names and an
      optimizer built from them, `SmartFilterTasks` returns exactly the
      tasks `FilterTasks` returns, possibly in another order, so the same
      number of them. */
  lemma {:induction false} StatusFilterAgrees(ts: seq<Task>, params: ListTasksParams, dist: (string, string) -> nat)
    requires forall i, j :: 0 <= i < j < |ts| ==> TaskName(ts[i]) != TaskName(ts[j])
    requires |params.status| > 0 && ParseFilter(params, dist).Ok?
    requires params.parent.None? && params.priority.None? && |params.assignees| == 0 && |params.labels| == 0
    requires !params.unassigned && !params.dependedOn && !params.hasDependency
    ensures var smart := Keep(InitialCandidates(ts, params, dist, IndexesOf(ts)), params, dist);
      var plain := Select(ts, ParseFilter(params, dist).value);
      (set x | x in smart) == (set x | x in plain) && |smart| == |plain|
  {
    var f := ParseFilter(params, dist).value;
    var smart := Keep(InitialCandidates(ts, params, dist, IndexesOf(ts)), params, dist);
    var plain := Select(ts, f);
    forall x ensures x in smart <==> x in plain {
      StatusFilterMembers(ts, params, dist, x);
    }
    StatusFilterDistinct(ts, params, dist);
    SelectDistinct(ts, f);
    SameSetSameCount(smart, plain);
  }
}
