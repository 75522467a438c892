/** ID conflict detection and summaries (internal/core/conflict.go, the
    `ConflictDetector` half).  Reading the tasks directory is an input: the
    listing or the failure that replaced it, and a `read` function standing
    for reading and parsing one file (`None` where that fails). */
module Conflict {
  import opened Wrappers
  import opened Text
  import opened TaskIds
  import opened Tasks
  import opened Store

  // ---------------------------------------------------------------- types

  /** `ConflictType` is a Go `int`: three named values, and any other. */
  type ConflictType = int

  const DuplicateIDType: ConflictType := 0
  const InvalidHierarchyType: ConflictType := 1
  const OrphanedChildType: ConflictType := 2

  /** `ConflictType.String`. */
  function ConflictTypeString(ct: ConflictType): (name: string)
  {
    if ct == DuplicateIDType then "duplicate_id"
    else if ct == InvalidHierarchyType then "invalid_hierarchy"
    else if ct == OrphanedChildType then "orphaned_child"
    else "unknown"
  }

  /** The three named types print as three different names, and every other
      value prints as "unknown". */
  lemma {:induction false} ConflictTypeNames(a: ConflictType, b: ConflictType)
    ensures ConflictTypeString(a) == "unknown" <==> !(0 <= a <= 2)
    ensures 0 <= a <= 2 && 0 <= b <= 2 && ConflictTypeString(a) == ConflictTypeString(b) ==> a == b
  {
    assert |"duplicate_id"| == 12 && |"invalid_hierarchy"| == 17 && |"orphaned_child"| == 14 && |"unknown"| == 7;
  }

  /** `IsZero` holds for the zero ID and never for an ID that parsed: a
      parsed ID has at least one segment. */
  lemma {:induction false} ParsedIDNotZero(s: string)
    ensures IsZero(ZeroTaskID)
    ensures ParseTaskID(s).Ok? ==> !IsZero(ParseTaskID(s).value)
  {
  }

  /** One detected conflict; the detection time is left out. */
  datatype IDConflict = IDConflict(
    kind: ConflictType,
    conflictID: TaskID,
    files: seq<string>,
    tasks: seq<Task>,
    description: string)

  /** A task file that was read and parsed: its name in the listing and its
      task. */
  datatype TaskFile = TaskFile(path: string, task: Task)

  // -------------------------------------------------------------- loading

  /** The listing's task files that read and parse, in listing order. */
  function Loaded(entries: seq<DirEntry>, read: string -> Option<Task>): (ts: seq<TaskFile>)
    decreases |entries|
  {
    if |entries| == 0 then []
    else
      var init := Loaded(entries[..|entries| - 1], read);
      var e := entries[|entries| - 1];
      if IsTaskFile(e) && read(e.name).Some? then init + [TaskFile(e.name, read(e.name).value)] else init
  }

  /** Every loaded file is a task file of the listing that parsed to its
      task. */
  lemma {:induction false} LoadedSound(entries: seq<DirEntry>, read: string -> Option<Task>)
    ensures forall tf :: tf in Loaded(entries, read) ==>
      DirEntry(tf.path, false) in entries && HasPrefix(tf.path, TaskIDPrefix) && HasSuffix(tf.path, ".md")
      && read(tf.path) == Some(tf.task)
    decreases |entries|
  {
    if |entries| > 0 {
      var init := entries[..|entries| - 1];
      LoadedSound(init, read);
      assert forall e :: e in init ==> e in entries;
    }
  }

  /** The key the detector groups by: the ID's printed form. */
  function Key(t: Task): string
  {
    String(t.id)
  }

  /** The paths of some task files. */
  function Paths(ts: seq<TaskFile>): (r: seq<string>)
    ensures |r| == |ts|
  {
    seq(|ts|, i requires 0 <= i < |ts| => ts[i].path)
  }

  /** The tasks of some task files. */
  function TasksOf(ts: seq<TaskFile>): (r: seq<Task>)
    ensures |r| == |ts|
  {
    seq(|ts|, i requires 0 <= i < |ts| => ts[i].task)
  }

  /** The loaded files whose task ID prints as `k`, in order. */
  function GroupOf(ts: seq<TaskFile>, k: string): seq<TaskFile>
    decreases |ts|
  {
    if |ts| == 0 then []
    else
      var init := GroupOf(ts[..|ts| - 1], k);
      if Key(ts[|ts| - 1].task) == k then init + [ts[|ts| - 1]] else init
  }

  /** The group of `k` holds exactly the loaded files with key `k`. */
  lemma {:induction false} GroupOfMembers(ts: seq<TaskFile>, k: string)
    ensures forall tf :: tf in GroupOf(ts, k) <==> tf in ts && Key(tf.task) == k
    decreases |ts|
  {
    if |ts| > 0 {
      var init := ts[..|ts| - 1];
      GroupOfMembers(init, k);
      assert ts == init + [ts[|ts| - 1]];
    }
  }

  /** `m[k]`, or the empty slice for a missing key. */
  function At<V>(m: map<string, seq<V>>, k: string): seq<V>
  {
    if k in m then m[k] else []
  }

  /** `idToFiles` after the loading loop. */
  function FilesIndex(ts: seq<TaskFile>): map<string, seq<string>>
    decreases |ts|
  {
    if |ts| == 0 then map[]
    else
      var m := FilesIndex(ts[..|ts| - 1]);
      var tf := ts[|ts| - 1];
      m[Key(tf.task) := At(m, Key(tf.task)) + [tf.path]]
  }

  /** `idToTasks` after the loading loop. */
  function TasksIndex(ts: seq<TaskFile>): map<string, seq<Task>>
    decreases |ts|
  {
    if |ts| == 0 then map[]
    else
      var m := TasksIndex(ts[..|ts| - 1]);
      var tf := ts[|ts| - 1];
      m[Key(tf.task) := At(m, Key(tf.task)) + [tf.task]]
  }

  lemma {:induction false} PathsAppend(g: seq<TaskFile>, tf: TaskFile)
    ensures Paths(g + [tf]) == Paths(g) + [tf.path]
    ensures TasksOf(g + [tf]) == TasksOf(g) + [tf.task]
  {
  }

  /** Both maps hold, under each key, the paths and tasks of that key's
      group, and have exactly the keys of the loaded tasks. */
  lemma {:induction false} IndexIsGroup(ts: seq<TaskFile>, k: string)
    ensures At(FilesIndex(ts), k) == Paths(GroupOf(ts, k))
    ensures At(TasksIndex(ts), k) == TasksOf(GroupOf(ts, k))
    ensures k in FilesIndex(ts) <==> |GroupOf(ts, k)| > 0
    ensures k in TasksIndex(ts) <==> |GroupOf(ts, k)| > 0
    decreases |ts|
  {
    if |ts| > 0 {
      var init := ts[..|ts| - 1];
      var tf := ts[|ts| - 1];
      IndexIsGroup(init, k);
      if Key(tf.task) == k {
        PathsAppend(GroupOf(init, k), tf);
      }
    }
  }

  /** The loading loop: read each task file, skip what does not parse, and
      file the task under its key in both maps. */
  method IndexTaskFiles(entries: seq<DirEntry>, read: string -> Option<Task>)
    returns (idToFiles: map<string, seq<string>>, idToTasks: map<string, seq<Task>>, allTasks: seq<Task>)
    ensures idToFiles == FilesIndex(Loaded(entries, read))
    ensures idToTasks == TasksIndex(Loaded(entries, read))
    ensures allTasks == TasksOf(Loaded(entries, read))
  {
    idToFiles, idToTasks, allTasks := map[], map[], [];
    ghost var ts: seq<TaskFile> := [];
    for i := 0 to |entries|
      invariant ts == Loaded(entries[..i], read)
      invariant idToFiles == FilesIndex(ts) && idToTasks == TasksIndex(ts) && allTasks == TasksOf(ts)
    {
      LoadedStep(entries, read, i);
      var e := entries[i];
      if IsTaskFile(e) {
        var task := read(e.name);
        if task.Some? {
          var k := Key(task.value);
          IndexStep(ts, TaskFile(e.name, task.value));
          idToFiles := idToFiles[k := At(idToFiles, k) + [e.name]];
          idToTasks := idToTasks[k := At(idToTasks, k) + [task.value]];
          allTasks := allTasks + [task.value];
          ts := ts + [TaskFile(e.name, task.value)];
        }
      }
    }
    assert entries[..|entries|] == entries;
  }

  lemma {:induction false} LoadedStep(entries: seq<DirEntry>, read: string -> Option<Task>, i: nat)
    requires i < |entries|
    ensures IsTaskFile(entries[i]) && read(entries[i].name).Some? ==>
      Loaded(entries[..i + 1], read) == Loaded(entries[..i], read) + [TaskFile(entries[i].name, read(entries[i].name).value)]
    ensures !(IsTaskFile(entries[i]) && read(entries[i].name).Some?) ==>
      Loaded(entries[..i + 1], read) == Loaded(entries[..i], read)
  {
    assert entries[..i + 1][..i] == entries[..i];
  }

  lemma {:induction false} IndexStep(ts: seq<TaskFile>, tf: TaskFile)
    ensures FilesIndex(ts + [tf]) == FilesIndex(ts)[Key(tf.task) := At(FilesIndex(ts), Key(tf.task)) + [tf.path]]
    ensures TasksIndex(ts + [tf]) == TasksIndex(ts)[Key(tf.task) := At(TasksIndex(ts), Key(tf.task)) + [tf.task]]
    ensures TasksOf(ts + [tf]) == TasksOf(ts) + [tf.task]
  {
    assert (ts + [tf])[..|ts|] == ts;
    PathsAppend(ts, tf);
  }

  // ----------------------------------------------------------- duplicates

  /** The ID a printed key parses back to; the zero ID where it does not. */
  function Reparsed(k: string): TaskID
  {
    match ParseTaskID(k)
    case Ok(id) => id
    case Err(_) => ZeroTaskID
  }

  /** The description of a duplicate: the key and the files, the way `%v`
      prints a string slice. */
  function DuplicateDescription(k: string, files: seq<string>): string
  {
    "Task ID " + k + " appears in multiple files: [" + Join(files, " ") + "]"
  }

  /** The duplicate-ID conflict of key `k`. */
  function DuplicateConflict(ts: seq<TaskFile>, k: string): IDConflict
  {
    var g := GroupOf(ts, k);
    IDConflict(DuplicateIDType, Reparsed(k), Paths(g), TasksOf(g), DuplicateDescription(k, Paths(g)))
  }

  /** The key is found in more than one file. */
  predicate Duplicated(ts: seq<TaskFile>, k: string)
  {
    |GroupOf(ts, k)| > 1
  }

  predicate DistinctKeys(ks: seq<string>)
  {
    forall i, j :: 0 <= i < j < |ks| ==> ks[i] != ks[j]
  }

  /** What the duplicate loop keeps: the conflicts found so far are those
      of the visited keys of `dom` that are duplicated, in visiting order. */
  ghost predicate DuplicateLoop(ts: seq<TaskFile>, dom: set<string>, left: set<string>, keys: seq<string>, dups: seq<IDConflict>)
  {
    && left <= dom
    && |dups| == |keys| && DistinctKeys(keys)
    && (forall i :: 0 <= i < |dups| ==> dups[i] == DuplicateConflict(ts, keys[i]))
    && (forall k :: k in keys ==> k !in left && Duplicated(ts, k))
    && (forall k :: k in dom && k !in left && Duplicated(ts, k) ==> k in keys)
  }

  lemma {:induction false} DuplicateLoopAdd(ts: seq<TaskFile>, dom: set<string>, left: set<string>, keys: seq<string>, dups: seq<IDConflict>, k: string)
    requires DuplicateLoop(ts, dom, left, keys, dups) && k in left && Duplicated(ts, k)
    ensures DuplicateLoop(ts, dom, left - {k}, keys + [k], dups + [DuplicateConflict(ts, k)])
  {
    var keys', dups' := keys + [k], dups + [DuplicateConflict(ts, k)];
    forall i | 0 <= i < |dups'| ensures dups'[i] == DuplicateConflict(ts, keys'[i]) {
      if i < |dups| { assert dups'[i] == dups[i] && keys'[i] == keys[i]; }
    }
    forall i, j | 0 <= i < j < |keys'| ensures keys'[i] != keys'[j] {
      if j == |keys| { assert keys[i] in keys; }
    }
  }

  lemma {:induction false} DuplicateLoopSkip(ts: seq<TaskFile>, dom: set<string>, left: set<string>, keys: seq<string>, dups: seq<IDConflict>, k: string)
    requires DuplicateLoop(ts, dom, left, keys, dups) && k in left && !Duplicated(ts, k)
    ensures DuplicateLoop(ts, dom, left - {k}, keys, dups)
  {
  }

  /** The duplicate loop.  Go visits the map in an unspecified order, so
      each step picks any key not yet visited; the keys of the conflicts
      come back in `keys`. */
  method DuplicateConflicts(ghost ts: seq<TaskFile>, idToFiles: map<string, seq<string>>, idToTasks: map<string, seq<Task>>)
    returns (dups: seq<IDConflict>, ghost keys: seq<string>)
    requires idToFiles == FilesIndex(ts) && idToTasks == TasksIndex(ts)
    ensures DuplicatesOf(ts, keys, dups)
  {
    dups, keys := [], [];
    var left := idToFiles.Keys;
    while left != {}
      invariant DuplicateLoop(ts, idToFiles.Keys, left, keys, dups)
      decreases left
    {
      var k :| k in left;
      IndexIsGroup(ts, k);
      var files := idToFiles[k];
      if |files| > 1 {
        DuplicateLoopAdd(ts, idToFiles.Keys, left, keys, dups, k);
        dups := dups + [IDConflict(DuplicateIDType, Reparsed(k), files, idToTasks[k], DuplicateDescription(k, files))];
        keys := keys + [k];
      } else {
        DuplicateLoopSkip(ts, idToFiles.Keys, left, keys, dups, k);
      }
      left := left - {k};
    }
    forall k | Duplicated(ts, k) ensures k in keys {
      IndexIsGroup(ts, k);
    }
  }

  // -------------------------------------------------------------- orphans

  /** The tasks of `among` that `keep` accepts, in order. */
  function Filter(among: seq<Task>, keep: Task -> bool): seq<Task>
    decreases |among|
  {
    if |among| == 0 then []
    else
      var init := Filter(among[..|among| - 1], keep);
      if keep(among[|among| - 1]) then init + [among[|among| - 1]] else init
  }

  /** The filter keeps exactly the accepted tasks of the list. */
  lemma {:induction false} FilterMembers(among: seq<Task>, keep: Task -> bool)
    ensures forall t :: t in Filter(among, keep) <==> t in among && keep(t)
    decreases |among|
  {
    if |among| > 0 {
      var init := among[..|among| - 1];
      FilterMembers(init, keep);
      assert among == init + [among[|among| - 1]];
    }
  }

  /** One filter step of a loop over `among`. */
  lemma {:induction false} FilterStep(among: seq<Task>, keep: Task -> bool, i: nat)
    requires i < |among|
    ensures Filter(among[..i + 1], keep) == Filter(among[..i], keep) + (if keep(among[i]) then [among[i]] else [])
  {
    assert among[..i + 1][..i] == among[..i];
  }

  /** Where the detector says an orphan or misplaced task lives: a pattern
      on its name, since the title part is unknown. */
  function GlobPath(id: TaskID): string
  {
    Name(id) + "-*.md"
  }

  /** A task whose parent is set but is no loaded task's ID. */
  predicate IsOrphan(ts: seq<TaskFile>, t: Task)
  {
    !IsZero(t.parent) && |GroupOf(ts, String(t.parent))| == 0
  }

  function OrphanDescription(t: Task): string
  {
    "Task " + String(t.id) + " references non-existent parent " + String(t.parent)
  }

  function OrphanConflict(t: Task): IDConflict
  {
    IDConflict(OrphanedChildType, t.id, [GlobPath(t.id)], [t], OrphanDescription(t))
  }

  /** The orphaned tasks of `among`, in order. */
  function Orphans(ts: seq<TaskFile>, among: seq<Task>): seq<Task>
  {
    Filter(among, t => IsOrphan(ts, t))
  }

  /** One orphan conflict per orphaned task, in order. */
  function OrphanConflicts(ts: seq<TaskFile>, among: seq<Task>): (r: seq<IDConflict>)
    ensures |r| == |Orphans(ts, among)|
  {
    var os := Orphans(ts, among);
    seq(|os|, j requires 0 <= j < |os| => OrphanConflict(os[j]))
  }

  /** A task is an orphan exactly when its parent is set and no loaded task
      carries that ID. */
  lemma {:induction false} IsOrphanMeans(ts: seq<TaskFile>, t: Task)
    ensures IsOrphan(ts, t) <==> !IsZero(t.parent) && forall tf :: tf in ts ==> Key(tf.task) != String(t.parent)
  {
    GroupOfMembers(ts, String(t.parent));
    if !IsZero(t.parent) && |GroupOf(ts, String(t.parent))| > 0 {
      assert GroupOf(ts, String(t.parent))[0] in GroupOf(ts, String(t.parent));
    }
  }

  /** The orphan conflicts are exactly one per orphaned task of the list,
      for that task alone. */
  lemma {:induction false} OrphanConflictsExact(ts: seq<TaskFile>, among: seq<Task>)
    ensures forall t :: t in Orphans(ts, among) <==> t in among && IsOrphan(ts, t)
    ensures forall j :: 0 <= j < |OrphanConflicts(ts, among)| ==>
      var c := OrphanConflicts(ts, among)[j];
      c.kind == OrphanedChildType && c.tasks == [Orphans(ts, among)[j]] && c.conflictID == c.tasks[0].id && |c.files| == 1
  {
    FilterMembers(among, t => IsOrphan(ts, t));
  }

  /** The orphan loop. */
  method OrphanLoop(ghost ts: seq<TaskFile>, idToTasks: map<string, seq<Task>>, allTasks: seq<Task>)
    returns (conflicts: seq<IDConflict>)
    requires idToTasks == TasksIndex(ts)
    ensures conflicts == OrphanConflicts(ts, allTasks)
  {
    conflicts := [];
    ghost var os: seq<Task> := [];
    for i := 0 to |allTasks|
      invariant os == Orphans(ts, allTasks[..i])
      invariant |conflicts| == |os| && forall j :: 0 <= j < |os| ==> conflicts[j] == OrphanConflict(os[j])
    {
      var t := allTasks[i];
      FilterStep(allTasks, t => IsOrphan(ts, t), i);
      if !IsZero(t.parent) {
        IndexIsGroup(ts, String(t.parent));
        if String(t.parent) !in idToTasks {
          conflicts := conflicts + [OrphanConflict(t)];
          os := os + [t];
        }
      }
    }
    assert allTasks[..|allTasks|] == allTasks;
  }

  // ---------------------------------------------------- invalid hierarchy

  /** A task whose parent is set, has a parent by its ID's structure, and
      the two differ. */
  predicate HasWrongParent(t: Task)
  {
    !IsZero(t.parent) && Parent(t.id).Some? && Parent(t.id).value != t.parent
  }

  function HierarchyDescription(t: Task): string
    requires Parent(t.id).Some?
  {
    "Task " + String(t.id) + " has incorrect parent " + String(t.parent) + ", expected "
    + String(Parent(t.id).value) + " based on ID structure"
  }

  function HierarchyConflict(t: Task): IDConflict
    requires Parent(t.id).Some?
  {
    IDConflict(InvalidHierarchyType, t.id, [GlobPath(t.id)], [t], HierarchyDescription(t))
  }

  /** The tasks of `among` whose parent field disagrees with their ID. */
  function Misplaced(among: seq<Task>): seq<Task>
  {
    Filter(among, HasWrongParent)
  }

  /** One invalid-hierarchy conflict per misplaced task, in order. */
  function HierarchyConflicts(among: seq<Task>): (r: seq<IDConflict>)
    ensures |r| == |Misplaced(among)|
  {
    var ms := Misplaced(among);
    FilterMembers(among, HasWrongParent);
    seq(|ms|, j requires 0 <= j < |ms| => assert ms[j] in ms; HierarchyConflict(ms[j]))
  }

  /** The hierarchy conflicts are exactly one per misplaced task of the
      list, for that task alone. */
  lemma {:induction false} HierarchyConflictsExact(among: seq<Task>)
    ensures forall t :: t in Misplaced(among) <==> t in among && HasWrongParent(t)
    ensures forall j :: 0 <= j < |HierarchyConflicts(among)| ==>
      var c := HierarchyConflicts(among)[j];
      c.kind == InvalidHierarchyType && c.tasks == [Misplaced(among)[j]] && c.conflictID == c.tasks[0].id && |c.files| == 1
  {
    FilterMembers(among, HasWrongParent);
  }

  /** The invalid-hierarchy loop. */
  method HierarchyLoop(allTasks: seq<Task>) returns (conflicts: seq<IDConflict>)
    ensures conflicts == HierarchyConflicts(allTasks)
  {
    conflicts := [];
    ghost var ms: seq<Task> := [];
    for i := 0 to |allTasks|
      invariant ms == Misplaced(allTasks[..i])
      invariant |conflicts| == |ms| && forall j :: 0 <= j < |ms| ==> HasWrongParent(ms[j]) && conflicts[j] == HierarchyConflict(ms[j])
    {
      var t := allTasks[i];
      FilterStep(allTasks, HasWrongParent, i);
      if !IsZero(t.parent) {
        var expected := Parent(t.id);
        if expected.Some? && !Equals(expected.value, t.parent) {
          EqualsIsEquality(expected.value, t.parent);
          conflicts := conflicts + [HierarchyConflict(t)];
          ms := ms + [t];
        }
      }
    }
    assert allTasks[..|allTasks|] == allTasks;
    FilterMembers(allTasks, HasWrongParent);
  }

  // ------------------------------------------------------------ detection

  /** Why detection failed. */
  datatype DetectError = ReadDirError(cause: StoreError)

  /** The duplicate conflicts of `ts`, one per duplicated key, in the
      order of `keys`. */
  ghost predicate DuplicatesOf(ts: seq<TaskFile>, keys: seq<string>, dups: seq<IDConflict>)
  {
    && |dups| == |keys| && DistinctKeys(keys)
    && (forall i :: 0 <= i < |dups| ==> dups[i] == DuplicateConflict(ts, keys[i]))
    && (forall k :: k in keys <==> Duplicated(ts, k))
  }

  /** What detection reports for the loaded files `ts`: the duplicate
      conflicts (in the order the map was visited, their keys in `keys`),
      then the orphans, then the invalid hierarchies, each in loading order. */
  ghost predicate Detected(ts: seq<TaskFile>, keys: seq<string>, cs: seq<IDConflict>)
  {
    && |keys| <= |cs|
    && DuplicatesOf(ts, keys, cs[..|keys|])
    && cs[|keys|..] == OrphanConflicts(ts, TasksOf(ts)) + HierarchyConflicts(TasksOf(ts))
  }

  lemma {:induction false} DetectedConcat(ts: seq<TaskFile>, keys: seq<string>, dups: seq<IDConflict>, rest: seq<IDConflict>)
    requires DuplicatesOf(ts, keys, dups)
    requires rest == OrphanConflicts(ts, TasksOf(ts)) + HierarchyConflicts(TasksOf(ts))
    ensures Detected(ts, keys, dups + rest)
  {
    assert (dups + rest)[..|keys|] == dups;
    assert (dups + rest)[|keys|..] == rest;
  }

  /** `DetectConflicts`: a directory that cannot be listed is an error;
      otherwise the conflicts of the loaded task files. */
  method DetectConflicts(listing: Result<seq<DirEntry>, StoreError>, read: string -> Option<Task>)
    returns (r: Result<seq<IDConflict>, DetectError>, ghost keys: seq<string>)
    ensures listing.Err? ==> r == Err(ReadDirError(listing.error))
    ensures listing.Ok? ==> r.Ok? && Detected(Loaded(listing.value, read), keys, r.value)
  {
    keys := [];
    if listing.Err? {
      return Err(ReadDirError(listing.error)), keys;
    }
    ghost var ts := Loaded(listing.value, read);
    var idToFiles, idToTasks, allTasks := IndexTaskFiles(listing.value, read);
    var dups;
    dups, keys := DuplicateConflicts(ts, idToFiles, idToTasks);
    var orphans := OrphanLoop(ts, idToTasks, allTasks);
    var wrong := HierarchyLoop(allTasks);
    DetectedConcat(ts, keys, dups, orphans + wrong);
    r := Ok(dups + (orphans + wrong));
  }

  /** Every detected conflict names its files and tasks consistently: a
      duplicate has as many files as tasks and at least two, the others
      one of each. */
  predicate WellFormed(c: IDConflict)
  {
    && |c.files| == |c.tasks|
    && (c.kind == DuplicateIDType ==> |c.tasks| > 1)
    && (c.kind != DuplicateIDType ==> |c.tasks| == 1)
  }

  lemma {:induction false} DetectedWellFormed(ts: seq<TaskFile>, keys: seq<string>, cs: seq<IDConflict>)
    requires Detected(ts, keys, cs)
    ensures AllWellFormed(cs)
  {
    var dups, rest := cs[..|keys|], cs[|keys|..];
    forall i | 0 <= i < |keys| ensures WellFormed(dups[i]) {
      assert keys[i] in keys;
      var g := GroupOf(ts, keys[i]);
      assert |Paths(g)| == |TasksOf(g)| == |g| > 1;
    }
    RestWellFormed(ts, TasksOf(ts));
    ConcatWellFormed(OrphanConflicts(ts, TasksOf(ts)), HierarchyConflicts(TasksOf(ts)));
    ConcatWellFormed(dups, rest);
    assert cs == dups + rest;
  }

  predicate AllWellFormed(cs: seq<IDConflict>)
  {
    forall i :: 0 <= i < |cs| ==> WellFormed(cs[i])
  }

  lemma {:induction false} RestWellFormed(ts: seq<TaskFile>, among: seq<Task>)
    ensures AllWellFormed(OrphanConflicts(ts, among))
    ensures AllWellFormed(HierarchyConflicts(among))
  {
    var os, ms := Orphans(ts, among), Misplaced(among);
    forall i | 0 <= i < |os| ensures WellFormed(OrphanConflicts(ts, among)[i]) {
      assert OrphanConflicts(ts, among)[i] == OrphanConflict(os[i]);
    }
    FilterMembers(among, HasWrongParent);
    forall i | 0 <= i < |ms| ensures WellFormed(HierarchyConflicts(among)[i]) {
      assert ms[i] in ms;
      assert HierarchyConflicts(among)[i] == HierarchyConflict(ms[i]);
    }
  }

  lemma {:induction false} ConcatWellFormed(a: seq<IDConflict>, b: seq<IDConflict>)
    requires AllWellFormed(a) && AllWellFormed(b)
    ensures AllWellFormed(a + b)
  {
    forall i | 0 <= i < |a + b| ensures WellFormed((a + b)[i]) {
      if i >= |a| {
        assert (a + b)[i] == b[i - |a|];
      }
    }
  }

  /** A lone task "01.02" whose parent is "02" is both an orphan (no task
      "02" is loaded) and misplaced (its ID says its parent is "01"). */
  lemma {:induction false} OrphanAndMisplaced(tf: TaskFile)
    requires tf.task.id == TaskID([1, 2]) && tf.task.parent == TaskID([2])
    ensures OrphanConflicts([tf], [tf.task]) == [OrphanConflict(tf.task)]
    ensures HierarchyConflicts([tf.task]) == [HierarchyConflict(tf.task)]
  {
    LoneChildIsOrphan(tf);
    LoneChildMisplaced(tf.task);
  }

  lemma {:induction false} LoneChildIsOrphan(tf: TaskFile)
    requires tf.task.id == TaskID([1, 2]) && tf.task.parent == TaskID([2])
    ensures Orphans([tf], [tf.task]) == [tf.task]
  {
    var t := tf.task;
    assert String(t.id) != String(t.parent) by {
      StringSplits(t.id);
      StringSplits(t.parent);
      assert |Split(String(t.id), '.')| == 2 && |Split(String(t.parent), '.')| == 1;
    }
    assert GroupOf([tf], String(t.parent)) == [] by {
      assert [tf][..0] == [];
    }
    assert [t][..0] == [] && [t][..1] == [t];
    FilterStep([t], u => IsOrphan([tf], u), 0);
  }

  lemma {:induction false} LoneChildMisplaced(t: Task)
    requires t.id == TaskID([1, 2]) && t.parent == TaskID([2])
    ensures Misplaced([t]) == [t]
  {
    assert Parent(t.id).value.seg == [1];
    assert [t][..0] == [] && [t][..1] == [t];
    FilterStep([t], HasWrongParent, 0);
  }

  // ------------------------------------------------------------- summary

  /** `ConflictSummary`. */
  datatype ConflictSummary = ConflictSummary(
    totalConflicts: int,
    duplicateIDs: int,
    orphanedChildren: int,
    invalidHierarchy: int,
    byType: map<ConflictType, seq<IDConflict>>)

  /** The conflicts of one type, in order. */
  function OfType(cs: seq<IDConflict>, k: ConflictType): seq<IDConflict>
    decreases |cs|
  {
    if |cs| == 0 then []
    else
      var init := OfType(cs[..|cs| - 1], k);
      if cs[|cs| - 1].kind == k then init + [cs[|cs| - 1]] else init
  }

  /** `ConflictsByType` after the loop. */
  function ByType(cs: seq<IDConflict>): map<ConflictType, seq<IDConflict>>
    decreases |cs|
  {
    if |cs| == 0 then map[]
    else
      var m := ByType(cs[..|cs| - 1]);
      var c := cs[|cs| - 1];
      m[c.kind := (if c.kind in m then m[c.kind] else []) + [c]]
  }

  /** `SummarizeConflicts`. */
  method SummarizeConflicts(cs: seq<IDConflict>) returns (s: ConflictSummary)
    ensures s.totalConflicts == |cs|
    ensures s.duplicateIDs == |OfType(cs, DuplicateIDType)|
    ensures s.orphanedChildren == |OfType(cs, OrphanedChildType)|
    ensures s.invalidHierarchy == |OfType(cs, InvalidHierarchyType)|
    ensures s.byType == ByType(cs)
  {
    s := ConflictSummary(|cs|, 0, 0, 0, map[]);
    for i := 0 to |cs|
      invariant s.totalConflicts == |cs|
      invariant s.duplicateIDs == |OfType(cs[..i], DuplicateIDType)|
      invariant s.orphanedChildren == |OfType(cs[..i], OrphanedChildType)|
      invariant s.invalidHierarchy == |OfType(cs[..i], InvalidHierarchyType)|
      invariant s.byType == ByType(cs[..i])
    {
      var c := cs[i];
      assert cs[..i + 1][..i] == cs[..i];
      var group := if c.kind in s.byType then s.byType[c.kind] else [];
      s := s.(byType := s.byType[c.kind := group + [c]]);
      if c.kind == DuplicateIDType {
        s := s.(duplicateIDs := s.duplicateIDs + 1);
      } else if c.kind == OrphanedChildType {
        s := s.(orphanedChildren := s.orphanedChildren + 1);
      } else if c.kind == InvalidHierarchyType {
        s := s.(invalidHierarchy := s.invalidHierarchy + 1);
      }
    }
    assert cs[..|cs|] == cs;
  }

  /** Each group of the summary map is the conflicts of its type, and a type
      is a key exactly when some conflict has it. */
  lemma {:induction false} ByTypeGroups(cs: seq<IDConflict>, k: ConflictType)
    ensures k in ByType(cs) <==> |OfType(cs, k)| > 0
    ensures k in ByType(cs) ==> ByType(cs)[k] == OfType(cs, k)
    decreases |cs|
  {
    if |cs| > 0 {
      ByTypeGroups(cs[..|cs| - 1], k);
    }
  }

  /** The groups hold exactly the conflicts of their type. */
  lemma {:induction false} OfTypeMembers(cs: seq<IDConflict>, k: ConflictType)
    ensures forall c :: c in OfType(cs, k) <==> c in cs && c.kind == k
    decreases |cs|
  {
    if |cs| > 0 {
      var init := cs[..|cs| - 1];
      OfTypeMembers(init, k);
      assert cs == init + [cs[|cs| - 1]];
    }
  }

  /** When every conflict has one of the three types, the three groups
      partition the conflicts, so the three counts add up to the total. */
  lemma {:induction false} GroupsPartition(cs: seq<IDConflict>)
    requires forall i :: 0 <= i < |cs| ==> 0 <= cs[i].kind <= 2
    ensures multiset(OfType(cs, DuplicateIDType)) + multiset(OfType(cs, OrphanedChildType))
      + multiset(OfType(cs, InvalidHierarchyType)) == multiset(cs)
    ensures |OfType(cs, DuplicateIDType)| + |OfType(cs, OrphanedChildType)| + |OfType(cs, InvalidHierarchyType)| == |cs|
    decreases |cs|
  {
    if |cs| > 0 {
      var init := cs[..|cs| - 1];
      GroupsPartition(init);
      assert cs == init + [cs[|cs| - 1]];
    }
    var a, b, c := OfType(cs, DuplicateIDType), OfType(cs, OrphanedChildType), OfType(cs, InvalidHierarchyType);
    assert |multiset(a) + multiset(b) + multiset(c)| == |a| + |b| + |c|;
  }
}
