/** `ConflictResolver`: turning detected conflicts into a resolution plan
    under one of three strategies, and the dry run that reports what a plan
    would do.  Building a plan writes nothing, so every ID allocation it
    asks for sees the same store. */
module ConflictPlan {
  import opened Wrappers
  import opened Text
  import opened TaskIds
  import opened Tasks
  import opened Store
  import opened Conflict
  import opened ExchangeSort
  import opened Steps

  type Strategy = int
  const ChronologicalStrategy: Strategy := 0
  const AutoRenumberStrategy: Strategy := 1
  const ManualStrategy: Strategy := 2

  datatype Action = Action(kind: string, originalID: TaskID, newID: TaskID, filePath: string, description: string)

  datatype Plan = Plan(actions: seq<Action>, summary: string, strategy: Strategy)

  datatype PlanError =
    | UnsupportedStrategy(strategy: Strategy)
    | NoAvailableID(id: TaskID, cause: StoreError)

  /** What `getNextTaskID` sees: whether the lock is taken and what the
      tasks directory lists. */
  datatype StoreView = StoreView(locked: bool, listing: Result<seq<DirEntry>, StoreError>)

  predicate ViewOk(view: StoreView)
  {
    view.locked && view.listing.Ok?
  }

  /** The error every allocation reports when the view is not usable. */
  function ViewError(view: StoreView): StoreError
    requires !ViewOk(view)
  {
    if !view.locked then CouldNotLock else view.listing.error
  }

  // ------------------------------------------------------------ next ID

  /** The parent path a renumbered task is allocated under: its parent's
      segments for a subtask, the top level otherwise. */
  function TreePathOf(id: TaskID): seq<int>
  {
    if HasSubTasks(id) then Parent(id).value.seg else []
  }

  function NextAvailable(view: StoreView, id: TaskID): Result<TaskID, StoreError>
  {
    if !view.locked then Err(CouldNotLock)
    else if view.listing.Err? then Err(view.listing.error)
    else Ok(NextID(view.listing.value, TreePathOf(id)))
  }

  /** `findNextAvailableID`. */
  method FindNextAvailableID(view: StoreView, id: TaskID) returns (r: Result<TaskID, StoreError>)
    ensures r == NextAvailable(view, id)
  {
    r := NextTaskID(view.locked, view.listing, TreePathOf(id));
  }

  /** An allocation fails exactly when the view is unusable, with the same
      error whatever the ID; when it succeeds the new ID is a sibling of the
      old one (same parent, or top level for a top-level ID) that differs
      from every child of that parent in the listing. */
  lemma {:induction false} NextAvailableSibling(view: StoreView, id: TaskID)
    ensures NextAvailable(view, id).Err? <==> !ViewOk(view)
    ensures !ViewOk(view) ==> NextAvailable(view, id) == Err(ViewError(view))
    ensures ViewOk(view) ==>
      var n := NextAvailable(view, id).value;
      && (HasSubTasks(id) ==> Parent(n) == Parent(id))
      && (!HasSubTasks(id) ==> |n.seg| == 1)
      && Last(n) >= 1
      && forall k :: 0 <= k < |view.listing.value| && ChildID(view.listing.value[k], TreePathOf(id)).Some? ==>
           ChildID(view.listing.value[k], TreePathOf(id)).value != n
  {
    if ViewOk(view) {
      var files, tp := view.listing.value, TreePathOf(id);
      NextIDShape(files, tp);
      var n := NextID(files, tp);
      assert n.seg == tp + [Last(n)];
      assert n.seg[..|n.seg| - 1] == tp;
      forall k | 0 <= k < |files| && ChildID(files[k], tp).Some? ensures ChildID(files[k], tp).value != n {
        NextIDFresh(files, tp, k);
      }
    }
  }

  /** The plan builders see the store only through this allocator. */
  type Allocator = TaskID -> Result<TaskID, StoreError>

  function Allocate(view: StoreView): Allocator
  {
    id => NextAvailable(view, id)
  }

  ghost predicate Succeeds(alloc: Allocator)
  {
    forall id :: alloc(id).Ok?
  }

  ghost predicate FailsWith(alloc: Allocator, e: StoreError)
  {
    forall id :: alloc(id) == Err(e)
  }

  /** A usable store allocates for every ID; an unusable one fails every
      allocation with the same error. */
  lemma {:induction false} AllocateUniform(view: StoreView)
    ensures ViewOk(view) ==> Succeeds(Allocate(view))
    ensures ViewOk(view) ==> forall id :: Allocate(view)(id).value == NextID(view.listing.value, TreePathOf(id))
    ensures !ViewOk(view) ==> FailsWith(Allocate(view), ViewError(view))
  {
  }

  // ------------------------------------------------------------ renumbering

  /** A task and the file it was found in. */
  datatype Entry = Entry(task: Task, file: string)

  function Zip(tasks: seq<Task>, files: seq<string>): (es: seq<Entry>)
    requires |tasks| <= |files|
    ensures |es| == |tasks|
  {
    seq(|tasks|, i requires 0 <= i < |tasks| => Entry(tasks[i], files[i]))
  }

  datatype RenumberStyle = AutoStyle | ChronoStyle

  function RenumberDescription(style: RenumberStyle, from: TaskID, to: TaskID): string
  {
    match style
    case AutoStyle => "Auto-renumber task " + String(from) + " to " + String(to)
    case ChronoStyle => "Renumber task " + String(from) + " to " + String(to) + " (chronological resolution)"
  }

  function RenumberAction(style: RenumberStyle, e: Entry, newID: TaskID): Action
  {
    Action("renumber", e.task.id, newID, e.file, RenumberDescription(style, e.task.id, newID))
  }

  /** One pass of the renumber loop: allocate a new ID for the entry's
      task, failing with the store's error. */
  function RenumberStep(alloc: Allocator, style: RenumberStyle): Entry -> Result<Action, PlanError>
  {
    (e: Entry) => match alloc(e.task.id)
         case Err(err) => Err(NoAvailableID(e.task.id, err))
         case Ok(newID) => Ok(RenumberAction(style, e, newID))
  }

  /** The renumber loop over a group: every entry but the first is
      renumbered, and the first failed allocation stops the loop. */
  function Renumbers(alloc: Allocator, es: seq<Entry>, style: RenumberStyle): Result<seq<Action>, PlanError>
  {
    if |es| == 0 then Ok([]) else AsResult(RunFrom(es, 1, RenumberStep(alloc, style), []))
  }

  /** `acts` renumbers the entries after the first, in order: each action
      names its entry's task and file and the ID allocated for that task. */
  ghost predicate RenumbersRest(alloc: Allocator, es: seq<Entry>, style: RenumberStyle, acts: seq<Action>)
    requires Succeeds(alloc)
  {
    && |acts| == (if |es| == 0 then 0 else |es| - 1)
    && forall k :: 0 <= k < |acts| ==> acts[k] == RenumberAction(style, es[k + 1], alloc(es[k + 1].task.id).value)
  }

  /** When every allocation succeeds the loop renumbers every entry after
      the first, in order, each with its own file; when every allocation
      fails it stops on the second entry, if there is one. */
  lemma {:induction false} RenumbersShape(alloc: Allocator, es: seq<Entry>, style: RenumberStyle)
    ensures Succeeds(alloc) ==> Renumbers(alloc, es, style).Ok? && RenumbersRest(alloc, es, style, Renumbers(alloc, es, style).value)
    ensures forall e :: FailsWith(alloc, e) ==>
      Renumbers(alloc, es, style) == if |es| <= 1 then Ok([]) else Err(NoAvailableID(es[1].task.id, e))
  {
    var step := RenumberStep(alloc, style);
    if |es| > 0 && Succeeds(alloc) {
      forall j | 1 <= j < |es| ensures step(es[j]).Ok? {
        assert alloc(es[j].task.id).Ok?;
      }
      RunAllOk(es, 1, step);
      var r := Renumbers(alloc, es, style).value;
      forall k | 0 <= k < |r| ensures r[k] == RenumberAction(style, es[k + 1], alloc(es[k + 1].task.id).value) {
        assert r[k] == step(es[1 + k]).value;
      }
    }
  }

  /** The loop as written: one allocation per entry after the first. */
  method RenumberLoop(view: StoreView, es: seq<Entry>, style: RenumberStyle) returns (r: Result<seq<Action>, PlanError>)
    ensures r == Renumbers(Allocate(view), es, style)
  {
    if |es| == 0 {
      return Ok([]);
    }
    ghost var step := RenumberStep(Allocate(view), style);
    var acts: seq<Action> := [];
    var i := 1;
    while i < |es|
      invariant 1 <= i <= |es|
      invariant RunFrom(es, i, step, acts) == RunFrom(es, 1, step, [])
    {
      var id := es[i].task.id;
      var newID := FindNextAvailableID(view, id);
      if newID.Err? {
        return Err(NoAvailableID(id, newID.error));
      }
      acts := acts + [RenumberAction(style, es[i], newID.value)];
      i := i + 1;
    }
    r := Ok(acts);
  }

  // ------------------------------------------------------------ shared plumbing

  /** What the plan builders index without a check: a duplicate's files
      cover its tasks, and an orphan or a fixable hierarchy conflict has a
      first file and a first task. */
  predicate Plannable(c: IDConflict)
  {
    && (c.kind == DuplicateIDType ==> |c.tasks| <= |c.files|)
    && (c.kind == OrphanedChildType ==> |c.files| >= 1 && |c.tasks| >= 1)
    && (c.kind == InvalidHierarchyType && HasSubTasks(c.conflictID) ==> |c.files| >= 1 && |c.tasks| >= 1)
  }

  predicate AllPlannable(cs: seq<IDConflict>)
  {
    forall i :: 0 <= i < |cs| ==> Plannable(cs[i])
  }

  /** Every conflict the detector reports can be planned. */
  lemma {:induction false} DetectedPlannable(ts: seq<TaskFile>, keys: seq<string>, cs: seq<IDConflict>)
    requires Detected(ts, keys, cs)
    ensures AllPlannable(cs)
  {
    DetectedWellFormed(ts, keys, cs);
    forall i | 0 <= i < |cs| ensures Plannable(cs[i]) {
      assert WellFormed(cs[i]);
    }
  }

  /** One conflict's actions under the auto or the chronological plan. */
  function ActionsFor(alloc: Allocator, c: IDConflict, style: RenumberStyle): Result<seq<Action>, PlanError>
    requires Plannable(c)
  {
    match style
    case AutoStyle => AutoActionsFor(alloc, c)
    case ChronoStyle => ChronoActionsFor(alloc, c)
  }

  /** The plan builder's loop from conflict `i` on, with `acts` built so
      far; the first error stops the plan. */
  function PlanFrom(alloc: Allocator, cs: seq<IDConflict>, i: nat, style: RenumberStyle, acts: seq<Action>): Result<seq<Action>, PlanError>
    requires AllPlannable(cs) && i <= |cs|
    decreases |cs| - i
  {
    if i == |cs| then Ok(acts)
    else
      match ActionsFor(alloc, cs[i], style)
      case Err(e) => Err(e)
      case Ok(more) => PlanFrom(alloc, cs, i + 1, style, acts + more)
  }

  function PlanActions(view: StoreView, cs: seq<IDConflict>, style: RenumberStyle): Result<seq<Action>, PlanError>
    requires AllPlannable(cs)
  {
    PlanFrom(Allocate(view), cs, 0, style, [])
  }

  // ------------------------------------------------------------ auto-renumber plan

  function AutoActionsFor(alloc: Allocator, c: IDConflict): Result<seq<Action>, PlanError>
    requires Plannable(c)
  {
    if c.kind == DuplicateIDType then
      Renumbers(alloc, Zip(c.tasks, c.files), AutoStyle)
    else if c.kind == OrphanedChildType then
      Ok([Action("update_parent", c.conflictID, ZeroTaskID, c.files[0],
                 "Remove invalid parent reference from task " + String(c.conflictID))])
    else if c.kind == InvalidHierarchyType && Parent(c.conflictID).Some? then
      var p := Parent(c.conflictID).value;
      Ok([Action("update_parent", c.conflictID, p, c.files[0],
                 "Fix parent reference for task " + String(c.conflictID) + " to " + String(p))])
    else Ok([])
  }

  function AutoSummary(n: int): string
  {
    "Auto-resolution: " + FormatInt(n) + " actions"
  }

  function AutoPlan(view: StoreView, cs: seq<IDConflict>): Result<Plan, PlanError>
    requires AllPlannable(cs)
  {
    match PlanActions(view, cs, AutoStyle)
    case Err(e) => Err(e)
    case Ok(acts) => Ok(Plan(acts, AutoSummary(|acts|), AutoRenumberStrategy))
  }

  /** `createAutoRenumberPlan`. */
  method AutoRenumberPlan(view: StoreView, cs: seq<IDConflict>) returns (r: Result<Plan, PlanError>)
    requires AllPlannable(cs)
    ensures r == AutoPlan(view, cs)
  {
    var actions: seq<Action> := [];
    for i := 0 to |cs|
      invariant PlanFrom(Allocate(view), cs, i, AutoStyle, actions) == PlanActions(view, cs, AutoStyle)
    {
      var c := cs[i];
      var more: seq<Action> := [];
      if c.kind == DuplicateIDType {
        var renumbered := RenumberLoop(view, Zip(c.tasks, c.files), AutoStyle);
        if renumbered.Err? {
          return Err(renumbered.error);
        }
        more := renumbered.value;
      } else if c.kind == OrphanedChildType {
        more := [Action("update_parent", c.conflictID, ZeroTaskID, c.files[0],
                        "Remove invalid parent reference from task " + String(c.conflictID))];
      } else if c.kind == InvalidHierarchyType {
        var expected := Parent(c.conflictID);
        if expected.Some? {
          more := [Action("update_parent", c.conflictID, expected.value, c.files[0],
                          "Fix parent reference for task " + String(c.conflictID) + " to " + String(expected.value))];
        }
      }
      assert ActionsFor(Allocate(view), c, AutoStyle) == Ok(more);
      actions := actions + more;
    }
    r := Ok(Plan(actions, AutoSummary(|actions|), AutoRenumberStrategy));
  }

  /** How many actions the auto plan gives one conflict: one renumber per
      duplicate task after the first, one parent update per orphan and per
      fixable hierarchy conflict, none otherwise. */
  function AutoCount(c: IDConflict): nat
  {
    if c.kind == DuplicateIDType then (if |c.tasks| == 0 then 0 else |c.tasks| - 1)
    else if c.kind == OrphanedChildType then 1
    else if c.kind == InvalidHierarchyType && HasSubTasks(c.conflictID) then 1
    else 0
  }

  /** The total of `AutoCount` over the conflicts from `i` on. */
  function AutoCountFrom(cs: seq<IDConflict>, i: nat): nat
    requires i <= |cs|
    decreases |cs| - i
  {
    if i == |cs| then 0 else AutoCount(cs[i]) + AutoCountFrom(cs, i + 1)
  }

  /** A duplicate needs an allocation exactly when it holds two tasks. */
  predicate NeedsAllocation(c: IDConflict)
  {
    c.kind == DuplicateIDType && |c.tasks| >= 2
  }

  /** One conflict's auto actions: an orphan loses its parent, a misplaced
      task gets the parent its ID implies, a duplicate is renumbered after
      its first task; with a working allocator it never fails, and with a
      failing one it fails exactly when the conflict needs an allocation. */
  lemma {:induction false} AutoActionsForShape(alloc: Allocator, c: IDConflict)
    requires Plannable(c)
    ensures Succeeds(alloc) ==> AutoActionsFor(alloc, c).Ok? && |AutoActionsFor(alloc, c).value| == AutoCount(c)
    ensures forall e :: FailsWith(alloc, e) ==>
      (AutoActionsFor(alloc, c).Err? <==> NeedsAllocation(c))
      && (AutoActionsFor(alloc, c).Ok? ==> |AutoActionsFor(alloc, c).value| == AutoCount(c))
    ensures c.kind == OrphanedChildType ==>
      var a := AutoActionsFor(alloc, c).value[0];
      a.kind == "update_parent" && a.originalID == c.conflictID && IsZero(a.newID) && a.filePath == c.files[0]
    ensures c.kind == InvalidHierarchyType && HasSubTasks(c.conflictID) ==>
      var a := AutoActionsFor(alloc, c).value[0];
      a.kind == "update_parent" && a.originalID == c.conflictID && Some(a.newID) == Parent(c.conflictID)
  {
    if c.kind == DuplicateIDType {
      RenumbersShape(alloc, Zip(c.tasks, c.files), AutoStyle);
    }
  }

  /** From conflict `i` on, the auto plan with a working allocator adds one
      action per unit of `AutoCount`. */
  lemma {:induction false} AutoPlanCountOk(alloc: Allocator, cs: seq<IDConflict>, i: nat, acts: seq<Action>)
    requires AllPlannable(cs) && i <= |cs| && Succeeds(alloc)
    ensures PlanFrom(alloc, cs, i, AutoStyle, acts).Ok?
    ensures |PlanFrom(alloc, cs, i, AutoStyle, acts).value| == |acts| + AutoCountFrom(cs, i)
    decreases |cs| - i
  {
    if i < |cs| {
      AutoActionsForShape(alloc, cs[i]);
      AutoPlanCountOk(alloc, cs, i + 1, acts + AutoActionsFor(alloc, cs[i]).value);
    }
  }

  /** From conflict `i` on, the auto plan with a failing allocator fails
      exactly when a later duplicate needs an allocation. */
  lemma {:induction false} AutoPlanCountFail(alloc: Allocator, e: StoreError, cs: seq<IDConflict>, i: nat, acts: seq<Action>)
    requires AllPlannable(cs) && i <= |cs| && FailsWith(alloc, e)
    ensures PlanFrom(alloc, cs, i, AutoStyle, acts).Err? <==> exists j :: i <= j < |cs| && NeedsAllocation(cs[j])
    ensures PlanFrom(alloc, cs, i, AutoStyle, acts).Ok? ==>
      |PlanFrom(alloc, cs, i, AutoStyle, acts).value| == |acts| + AutoCountFrom(cs, i)
    decreases |cs| - i
  {
    if i < |cs| {
      AutoActionsForShape(alloc, cs[i]);
      if AutoActionsFor(alloc, cs[i]).Ok? {
        AutoPlanCountFail(alloc, e, cs, i + 1, acts + AutoActionsFor(alloc, cs[i]).value);
      }
    }
  }

  /** The auto plan fails exactly when the store is unusable and some
      duplicate needs an allocation; otherwise its actions number the sum
      of `AutoCount` over the conflicts. */
  lemma {:induction false} AutoPlanCount(view: StoreView, cs: seq<IDConflict>)
    requires AllPlannable(cs)
    ensures AutoPlan(view, cs).Err? <==> !ViewOk(view) && exists j :: 0 <= j < |cs| && NeedsAllocation(cs[j])
    ensures AutoPlan(view, cs).Ok? ==> |AutoPlan(view, cs).value.actions| == AutoCountFrom(cs, 0)
  {
    AllocateUniform(view);
    if ViewOk(view) {
      AutoPlanCountOk(Allocate(view), cs, 0, []);
    } else {
      AutoPlanCountFail(Allocate(view), ViewError(view), cs, 0, []);
    }
  }

  /** Renumbering entries that all carry the same ID asks the allocator
      for that one ID each time, so every action gets the same new ID. */
  lemma {:induction false} RenumbersShareID(alloc: Allocator, es: seq<Entry>, style: RenumberStyle, id: TaskID)
    requires Succeeds(alloc)
    requires forall k :: 0 <= k < |es| ==> es[k].task.id == id
    ensures Renumbers(alloc, es, style).Ok?
    ensures forall i :: 0 <= i < |Renumbers(alloc, es, style).value| ==>
      Renumbers(alloc, es, style).value[i].newID == alloc(id).value
  {
    RenumbersShape(alloc, es, style);
    var acts := Renumbers(alloc, es, style).value;
    forall i | 0 <= i < |acts| ensures acts[i].newID == alloc(id).value {
      assert es[i + 1].task.id == id;
    }
  }

  /** All the renumbers of one detected duplicate go to the same new ID:
      no allocation is written before the next one is asked for. */
  lemma {:induction false} AutoRenumbersShareID(view: StoreView, c: IDConflict)
    requires Plannable(c) && c.kind == DuplicateIDType && ViewOk(view)
    requires forall k :: 0 <= k < |c.tasks| ==> c.tasks[k].id == c.conflictID
    ensures AutoActionsFor(Allocate(view), c).Ok?
    ensures forall i :: 0 <= i < |AutoActionsFor(Allocate(view), c).value| ==>
      AutoActionsFor(Allocate(view), c).value[i].newID == NextID(view.listing.value, TreePathOf(c.conflictID))
  {
    var es := Zip(c.tasks, c.files);
    AllocateUniform(view);
    forall k | 0 <= k < |es| ensures es[k].task.id == c.conflictID {
      assert es[k].task == c.tasks[k];
    }
    RenumbersShareID(Allocate(view), es, AutoStyle, c.conflictID);
  }

  // ------------------------------------------------------------ chronological plan

  function CreatedOf(e: Entry): int
  {
    e.task.createdAt
  }

  function TaskCreated(t: Task): int
  {
    t.createdAt
  }

  /** Each task with its own file, oldest first. */
  function ByAge(c: IDConflict): seq<Entry>
    requires |c.tasks| <= |c.files|
  {
    ExchangeSorted(Zip(c.tasks, c.files), CreatedOf)
  }

  /** The chronological actions for one conflict: a duplicate keeps its
      oldest task and renumbers the rest, each action naming the renumbered
      task's own file; other kinds are skipped. */
  function ChronoActionsFor(alloc: Allocator, c: IDConflict): Result<seq<Action>, PlanError>
    requires Plannable(c)
  {
    if c.kind == DuplicateIDType then Renumbers(alloc, ByAge(c), ChronoStyle) else Ok([])
  }

  /** The same, as the source writes it: the tasks are sorted but the files
      are taken from the unsorted list, so after any swap an action names
      another task's file. */
  function ChronoActionsAsWritten(alloc: Allocator, c: IDConflict): Result<seq<Action>, PlanError>
    requires Plannable(c)
  {
    if c.kind == DuplicateIDType then
      Renumbers(alloc, Zip(ExchangeSorted(c.tasks, TaskCreated), c.files), ChronoStyle)
    else Ok([])
  }

  /** Two tasks with the same ID, the newer one listed first: the plan as
      written renumbers the file of the older task, the one it meant to
      keep, while the corrected plan renumbers the newer task's file. */
  lemma {:induction false} ChronoRenumbersKeptFile(alloc: Allocator, newer: Task, older: Task, fNewer: string, fOlder: string)
    requires Succeeds(alloc) && older.createdAt < newer.createdAt
    ensures var c := IDConflict(DuplicateIDType, newer.id, [fNewer, fOlder], [newer, older], "");
      && ChronoActionsAsWritten(alloc, c).Ok? && |ChronoActionsAsWritten(alloc, c).value| == 1
      && ChronoActionsAsWritten(alloc, c).value[0].filePath == fOlder
      && ChronoActionsFor(alloc, c).Ok? && |ChronoActionsFor(alloc, c).value| == 1
      && ChronoActionsFor(alloc, c).value[0].filePath == fNewer
  {
    var c := IDConflict(DuplicateIDType, newer.id, [fNewer, fOlder], [newer, older], "");
    var ts, sortedTs := [newer, older], [older, newer];
    assert SwapIf(ts, 0, 1, TaskCreated) == sortedTs;
    assert InnerFrom(sortedTs, 0, 2, TaskCreated) == sortedTs;
    assert OuterFrom(sortedTs, 1, TaskCreated) == sortedTs;
    assert ExchangeSorted(ts, TaskCreated) == sortedTs;
    var es, sortedEs := Zip(c.tasks, c.files), [Entry(older, fOlder), Entry(newer, fNewer)];
    assert es == [Entry(newer, fNewer), Entry(older, fOlder)];
    assert SwapIf(es, 0, 1, CreatedOf) == sortedEs;
    assert InnerFrom(sortedEs, 0, 2, CreatedOf) == sortedEs;
    assert OuterFrom(sortedEs, 1, CreatedOf) == sortedEs;
    assert ByAge(c) == sortedEs;
    RenumbersShape(alloc, Zip(sortedTs, c.files), ChronoStyle);
    RenumbersShape(alloc, ByAge(c), ChronoStyle);
  }

  /** The files named by a list of actions, in order. */
  function ActionFiles(acts: seq<Action>): (fs: seq<string>)
    ensures |fs| == |acts|
  {
    seq(|acts|, i requires 0 <= i < |acts| => acts[i].filePath)
  }

  /** The files of a list of entries, in order. */
  function EntryFiles(es: seq<Entry>): (fs: seq<string>)
    ensures |fs| == |es|
  {
    seq(|es|, i requires 0 <= i < |es| => es[i].file)
  }

  lemma {:induction false} EntryFilesAppend(a: seq<Entry>, b: seq<Entry>)
    ensures EntryFiles(a + b) == EntryFiles(a) + EntryFiles(b)
  {
  }

  /** Dropping one position drops that element from the multiset. */
  lemma {:induction false} DropOne<T>(s: seq<T>, k: int)
    requires 0 <= k < |s|
    ensures multiset(s[..k] + s[k + 1..]) == multiset(s) - multiset{s[k]}
  {
    assert s == s[..k] + [s[k]] + s[k + 1..];
    assert multiset(s) == multiset(s[..k]) + multiset{s[k]} + multiset(s[k + 1..]);
  }

  /** The files of all entries but the one at `j`. */
  lemma {:induction false} EntryFilesDrop(b: seq<Entry>, j: int)
    requires 0 <= j < |b|
    ensures multiset(EntryFiles(b[..j] + b[j + 1..])) == multiset(EntryFiles(b)) - multiset{b[j].file}
  {
    EntryFilesAppend(b[..j], b[j + 1..]);
    assert EntryFiles(b[..j] + b[j + 1..]) == EntryFiles(b)[..j] + EntryFiles(b)[j + 1..];
    DropOne(EntryFiles(b), j);
  }

  /** Rearranging entries rearranges their files. */
  lemma {:induction false} EntryFilesPermute(a: seq<Entry>, b: seq<Entry>)
    requires multiset(a) == multiset(b)
    ensures multiset(EntryFiles(a)) == multiset(EntryFiles(b))
    decreases |a|
  {
    if |a| == 0 {
      assert |b| == |multiset(b)| == 0;
    } else {
      var j := PositionOf(a, b);
      var rest := b[..j] + b[j + 1..];
      SplitHead(a, b, j);
      EntryFilesPermute(a[1..], rest);
      EntryFilesDrop(b, j);
      var fa, fb := EntryFiles(a), EntryFiles(b);
      assert fa == [a[0].file] + EntryFiles(a[1..]);
      assert fb[j] == a[0].file;
      assert multiset(EntryFiles(a[1..])) == multiset(fb) - multiset{a[0].file};
    }
  }

  /** Where the first element of `a` sits in its rearrangement `b`. */
  lemma {:induction false} PositionOf(a: seq<Entry>, b: seq<Entry>) returns (j: int)
    requires multiset(a) == multiset(b) && |a| > 0
    ensures 0 <= j < |b| && b[j] == a[0]
  {
    assert a[0] in multiset(a);
    assert a[0] in b;
    j :| 0 <= j < |b| && b[j] == a[0];
  }

  lemma {:induction false} SplitHead(a: seq<Entry>, b: seq<Entry>, j: int)
    requires multiset(a) == multiset(b) && |a| > 0 && 0 <= j < |b| && b[j] == a[0]
    ensures multiset(a[1..]) == multiset(b[..j] + b[j + 1..])
  {
    DropOne(b, j);
    assert a == [a[0]] + a[1..];
  }

  /** After a rearrangement, the files past the first are all the files
      but the first element's own. */
  lemma {:induction false} RestFiles(es: seq<Entry>, sorted: seq<Entry>, k0: int)
    requires multiset(sorted) == multiset(es) && 0 <= k0 < |es| && |sorted| > 0 && es[k0] == sorted[0]
    ensures multiset(EntryFiles(sorted[1..])) == multiset(EntryFiles(es)) - multiset{es[k0].file}
  {
    SplitHead(sorted, es, k0);
    EntryFilesPermute(sorted[1..], es[..k0] + es[k0 + 1..]);
    EntryFilesDrop(es, k0);
  }

  /** The corrected plan keeps an oldest task and renumbers every other
      one, each through its own file: the renumbered files are the
      conflict's files less the kept task's own file. */
  lemma {:induction false} ChronoKeepsOldest(alloc: Allocator, c: IDConflict)
    requires Plannable(c) && c.kind == DuplicateIDType && |c.tasks| > 0 && Succeeds(alloc)
    ensures multiset(ByAge(c)) == multiset(Zip(c.tasks, c.files))
    ensures ChronoActionsFor(alloc, c).Ok? && |ChronoActionsFor(alloc, c).value| == |c.tasks| - 1
    ensures forall i :: 0 <= i < |c.tasks| - 1 ==>
      var a := ChronoActionsFor(alloc, c).value[i];
      a.kind == "renumber" && a.filePath == ByAge(c)[i + 1].file && a.originalID == ByAge(c)[i + 1].task.id
    ensures exists k0 ::
      && 0 <= k0 < |c.tasks| && ByAge(c)[0] == Entry(c.tasks[k0], c.files[k0])
      && (forall k :: 0 <= k < |c.tasks| ==> c.tasks[k0].createdAt <= c.tasks[k].createdAt)
      && multiset(ActionFiles(ChronoActionsFor(alloc, c).value)) == multiset(c.files[..|c.tasks|]) - multiset{c.files[k0]}
  {
    var es := Zip(c.tasks, c.files);
    var sorted := ByAge(c);
    ExchangeSortedFirstIsLeast(es, CreatedOf);
    ExchangeSortedPermutes(es, CreatedOf);
    RenumbersShape(alloc, sorted, ChronoStyle);
    var acts := ChronoActionsFor(alloc, c).value;
    assert sorted[0] in multiset(es);
    var k0 :| 0 <= k0 < |es| && es[k0] == sorted[0];
    forall k | 0 <= k < |c.tasks| ensures c.tasks[k0].createdAt <= c.tasks[k].createdAt {
      assert CreatedOf(es[k]) == c.tasks[k].createdAt;
    }
    RestFiles(es, sorted, k0);
    assert EntryFiles(es) == c.files[..|c.tasks|];
    assert ActionFiles(acts) == EntryFiles(sorted[1..]);
  }

  /** The plan as written always keeps the first listed file, whichever
      task is oldest: it renames the files after the first, in list order. */
  lemma {:induction false} ChronoAsWrittenKeepsFirstFile(alloc: Allocator, c: IDConflict)
    requires Plannable(c) && c.kind == DuplicateIDType && |c.tasks| > 0 && Succeeds(alloc)
    ensures ChronoActionsAsWritten(alloc, c).Ok?
    ensures ActionFiles(ChronoActionsAsWritten(alloc, c).value) == c.files[1..|c.tasks|]
  {
    var ts := ExchangeSorted(c.tasks, TaskCreated);
    ExchangeSortedPermutes(c.tasks, TaskCreated);
    assert |ts| == |multiset(ts)| == |c.tasks|;
    var es := Zip(ts, c.files);
    RenumbersShape(alloc, es, ChronoStyle);
    var acts := ChronoActionsAsWritten(alloc, c).value;
    forall i | 0 <= i < |acts| ensures acts[i].filePath == c.files[i + 1] {
      assert acts[i].filePath == es[i + 1].file;
    }
  }

  function ChronoSummary(n: int): string
  {
    "Chronological resolution: " + FormatInt(n) + " renumbering actions"
  }

  function ChronoPlan(view: StoreView, cs: seq<IDConflict>): Result<Plan, PlanError>
    requires AllPlannable(cs)
  {
    match PlanActions(view, cs, ChronoStyle)
    case Err(e) => Err(e)
    case Ok(acts) => Ok(Plan(acts, ChronoSummary(|acts|), ChronologicalStrategy))
  }

  /** Copies a duplicate's tasks, each with its file, into an array and
      sorts it oldest first. */
  method SortedByAge(c: IDConflict) returns (es: seq<Entry>)
    requires |c.tasks| <= |c.files|
    ensures es == ByAge(c)
  {
    var a := new Entry[|c.tasks|](i requires 0 <= i < |c.tasks| => Entry(c.tasks[i], c.files[i]));
    assert a[..] == Zip(c.tasks, c.files);
    SortByKey(a, CreatedOf);
    es := a[..];
  }

  /** `createChronologicalPlan`, with each task kept beside its file. */
  method ChronologicalPlan(view: StoreView, cs: seq<IDConflict>) returns (r: Result<Plan, PlanError>)
    requires AllPlannable(cs)
    ensures r == ChronoPlan(view, cs)
  {
    var actions: seq<Action> := [];
    for i := 0 to |cs|
      invariant PlanFrom(Allocate(view), cs, i, ChronoStyle, actions) == PlanActions(view, cs, ChronoStyle)
    {
      var c := cs[i];
      var more: seq<Action> := [];
      if c.kind == DuplicateIDType {
        var es := SortedByAge(c);
        var renumbered := RenumberLoop(view, es, ChronoStyle);
        if renumbered.Err? {
          return Err(renumbered.error);
        }
        more := renumbered.value;
      }
      assert ActionsFor(Allocate(view), c, ChronoStyle) == Ok(more);
      actions := actions + more;
    }
    r := Ok(Plan(actions, ChronoSummary(|actions|), ChronologicalStrategy));
  }

  // ------------------------------------------------------------ manual plan

  function ManualAction(c: IDConflict): Action
  {
    Action("manual", c.conflictID, ZeroTaskID, "",
           "Manual resolution required for " + ConflictTypeString(c.kind) + ": " + c.description)
  }

  function ManualSummary(n: int): string
  {
    "Manual resolution required for " + FormatInt(n) + " conflicts"
  }

  function ManualPlan(cs: seq<IDConflict>): Plan
  {
    var acts := seq(|cs|, i requires 0 <= i < |cs| => ManualAction(cs[i]));
    Plan(acts, ManualSummary(|acts|), ManualStrategy)
  }

  /** `createManualPlan`. */
  method CreateManualPlan(cs: seq<IDConflict>) returns (p: Plan)
    ensures p == ManualPlan(cs)
  {
    var actions: seq<Action> := [];
    for i := 0 to |cs|
      invariant |actions| == i
      invariant forall j :: 0 <= j < i ==> actions[j] == ManualAction(cs[j])
    {
      actions := actions + [ManualAction(cs[i])];
    }
    p := Plan(actions, ManualSummary(|actions|), ManualStrategy);
  }

  /** The manual plan holds one "manual" action per conflict, in order,
      each naming the conflict's ID and no file. */
  lemma {:induction false} ManualPlanShape(cs: seq<IDConflict>)
    ensures |ManualPlan(cs).actions| == |cs|
    ensures forall i :: 0 <= i < |cs| ==>
      var a := ManualPlan(cs).actions[i];
      a.kind == "manual" && a.originalID == cs[i].conflictID && a.filePath == "" && IsZero(a.newID)
  {
  }

  // ------------------------------------------------------------ dispatch

  function PlanFor(view: StoreView, cs: seq<IDConflict>, strategy: Strategy): Result<Plan, PlanError>
    requires AllPlannable(cs)
  {
    if strategy == ChronologicalStrategy then ChronoPlan(view, cs)
    else if strategy == AutoRenumberStrategy then AutoPlan(view, cs)
    else if strategy == ManualStrategy then Ok(ManualPlan(cs))
    else Err(UnsupportedStrategy(strategy))
  }

  /** `CreateResolutionPlan`: the plan of the chosen strategy; any other
      strategy value is an error. */
  method CreateResolutionPlan(view: StoreView, cs: seq<IDConflict>, strategy: Strategy) returns (r: Result<Plan, PlanError>)
    requires AllPlannable(cs)
    ensures r == PlanFor(view, cs, strategy)
  {
    if strategy == ChronologicalStrategy {
      r := ChronologicalPlan(view, cs);
    } else if strategy == AutoRenumberStrategy {
      r := AutoRenumberPlan(view, cs);
    } else if strategy == ManualStrategy {
      var p := CreateManualPlan(cs);
      r := Ok(p);
    } else {
      r := Err(UnsupportedStrategy(strategy));
    }
  }

  /** A plan carries its strategy, and only the three strategies have one. */
  lemma {:induction false} PlanStrategy(view: StoreView, cs: seq<IDConflict>, strategy: Strategy)
    requires AllPlannable(cs)
    ensures PlanFor(view, cs, strategy).Ok? ==>
      && PlanFor(view, cs, strategy).value.strategy == strategy
      && (strategy == ChronologicalStrategy || strategy == AutoRenumberStrategy || strategy == ManualStrategy)
    ensures strategy != ChronologicalStrategy && strategy != AutoRenumberStrategy && strategy != ManualStrategy ==>
      PlanFor(view, cs, strategy) == Err(UnsupportedStrategy(strategy))
  {
  }

  // ------------------------------------------------------------ dry run

  const DryRunBanner: string := "DRY RUN MODE - No changes will be made"

  /** The three action types the executor knows. */
  predicate Supported(a: Action)
  {
    a.kind == "renumber" || a.kind == "update_parent" || a.kind == "manual"
  }

  /** The line a dry run reports for an action of a known type. */
  function DryRunLine(a: Action): string
    requires Supported(a)
  {
    if a.kind == "renumber" then
      "WOULD RENUMBER: " + String(a.originalID) + " -> " + String(a.newID)
    else if a.kind == "update_parent" then
      if IsZero(a.newID) then "WOULD REMOVE PARENT: " + String(a.originalID)
      else "WOULD UPDATE PARENT: " + String(a.originalID) + " -> " + String(a.newID)
    else "MANUAL: " + a.description
  }

  datatype ExecError = ActionFailed(description: string, kind: string)

  /** `executeAction` in a dry run: the line for a known action type, an
      error naming the action otherwise. */
  function DryRunAction(a: Action): Result<string, ExecError>
  {
    if Supported(a) then Ok(DryRunLine(a)) else Err(ActionFailed(a.description, a.kind))
  }

  function DryRunStep(): Action -> Result<string, ExecError>
  {
    (a: Action) => DryRunAction(a)
  }

  /** What a dry run reports: the banner and the lines gathered, and the
      error that stopped it, if any. */
  function DryRun(acts: seq<Action>): Run<string, ExecError>
  {
    RunFrom(acts, 0, DryRunStep(), [DryRunBanner])
  }

  /** `ExecuteResolutionPlan` with `dryRun` set. */
  method ExecuteDryRun(acts: seq<Action>) returns (results: seq<string>, err: Option<ExecError>)
    ensures Run(results, err) == DryRun(acts)
  {
    results := [DryRunBanner];
    for i := 0 to |acts|
      invariant RunFrom(acts, i, DryRunStep(), results) == DryRun(acts)
    {
      var line := DryRunAction(acts[i]);
      if line.Err? {
        return results, Some(line.error);
      }
      results := results + [line.value];
    }
    err := None;
  }

  /** An action of a known type gets its line, any other action an error
      naming it. */
  lemma {:induction false} DryRunActionShape(a: Action)
    ensures DryRunAction(a).Ok? <==> Supported(a)
    ensures DryRunAction(a).Ok? ==> DryRunAction(a).value == DryRunLine(a)
    ensures DryRunAction(a).Err? ==> DryRunAction(a).error == ActionFailed(a.description, a.kind)
  {
  }

  /** A dry run reports the banner, then the line `executeAction` gives for
      each action up to the first one it rejects; it stops there with that
      action's error, keeping the lines gathered so far. */
  lemma {:induction false} DryRunReport(acts: seq<Action>)
    ensures var d, k := DryRun(acts), FirstErrFrom(acts, 0, DryRunStep());
      && k <= |acts| && |d.out| == 1 + k && d.out[0] == DryRunBanner
      && (forall j :: 0 <= j < k ==> DryRunAction(acts[j]) == Ok(d.out[1 + j]))
      && (d.err.Some? <==> k < |acts|)
      && (d.err.Some? ==> DryRunAction(acts[k]) == Err(d.err.value))
  {
    var step := DryRunStep();
    RunFromShape(acts, 0, step, [DryRunBanner]);
    var d, k := DryRun(acts), FirstErrFrom(acts, 0, step);
    assert d.out[0] == d.out[..1][0];
    forall j | 0 <= j < k ensures DryRunAction(acts[j]) == Ok(d.out[1 + j]) {
      assert step(acts[j]).Ok? && d.out[1 + j] == step(acts[j]).value;
    }
  }

  predicate AllSupported(acts: seq<Action>)
  {
    forall i :: 0 <= i < |acts| ==> Supported(acts[i])
  }

  lemma {:induction false} ConcatSupported(a: seq<Action>, b: seq<Action>)
    requires AllSupported(a) && AllSupported(b)
    ensures AllSupported(a + b)
  {
    forall i | 0 <= i < |a + b| ensures Supported((a + b)[i]) {
      if i >= |a| {
        assert (a + b)[i] == b[i - |a|];
      }
    }
  }

  lemma {:induction false} RenumbersSupported(alloc: Allocator, es: seq<Entry>, style: RenumberStyle)
    requires Renumbers(alloc, es, style).Ok?
    ensures AllSupported(Renumbers(alloc, es, style).value)
  {
    if |es| > 0 {
      var step := RenumberStep(alloc, style);
      RunFromShape(es, 1, step, []);
      assert RunFrom(es, 1, step, []).err.None?;
      var r := Renumbers(alloc, es, style).value;
      forall k | 0 <= k < |r| ensures Supported(r[k]) {
        assert step(es[1 + k]).Ok? && r[k] == step(es[1 + k]).value;
        assert alloc(es[1 + k].task.id).Ok?;
        assert r[k] == RenumberAction(style, es[1 + k], alloc(es[1 + k].task.id).value);
      }
    }
  }

  lemma {:induction false} ActionsForSupported(alloc: Allocator, c: IDConflict, style: RenumberStyle)
    requires Plannable(c) && ActionsFor(alloc, c, style).Ok?
    ensures AllSupported(ActionsFor(alloc, c, style).value)
  {
    if c.kind == DuplicateIDType {
      var es := if style == AutoStyle then Zip(c.tasks, c.files) else ByAge(c);
      RenumbersSupported(alloc, es, style);
    }
  }

  lemma {:induction false} PlanFromSupported(alloc: Allocator, cs: seq<IDConflict>, i: nat, style: RenumberStyle, acts: seq<Action>)
    requires AllPlannable(cs) && i <= |cs| && AllSupported(acts) && PlanFrom(alloc, cs, i, style, acts).Ok?
    ensures AllSupported(PlanFrom(alloc, cs, i, style, acts).value)
    decreases |cs| - i
  {
    if i < |cs| {
      var more := ActionsFor(alloc, cs[i], style);
      ActionsForSupported(alloc, cs[i], style);
      ConcatSupported(acts, more.value);
      PlanFromSupported(alloc, cs, i + 1, style, acts + more.value);
    }
  }

  /** Every action of every plan the resolver builds is of a known type. */
  lemma {:induction false} PlanSupported(view: StoreView, cs: seq<IDConflict>, strategy: Strategy)
    requires AllPlannable(cs) && PlanFor(view, cs, strategy).Ok?
    ensures AllSupported(PlanFor(view, cs, strategy).value.actions)
  {
    if strategy == ChronologicalStrategy {
      PlanFromSupported(Allocate(view), cs, 0, ChronoStyle, []);
    } else if strategy == AutoRenumberStrategy {
      PlanFromSupported(Allocate(view), cs, 0, AutoStyle, []);
    }
  }

  /** A dry run of actions of known types reports every one of them. */
  lemma {:induction false} DryRunAllSupported(acts: seq<Action>)
    requires AllSupported(acts)
    ensures |DryRun(acts).out| == 1 + |acts| && DryRun(acts).err.None?
  {
    forall j | 0 <= j < |acts| ensures DryRunStep()(acts[j]).Ok? {
      assert Supported(acts[j]);
    }
    AllOkRunsThrough(acts, 0, DryRunStep());
    RunFromShape(acts, 0, DryRunStep(), [DryRunBanner]);
  }

  /** A dry run of any plan the resolver builds reports every action: the
      banner plus one line per action, and no error. */
  lemma {:induction false} DryRunReportsEveryAction(view: StoreView, cs: seq<IDConflict>, strategy: Strategy)
    requires AllPlannable(cs) && PlanFor(view, cs, strategy).Ok?
    ensures var acts := PlanFor(view, cs, strategy).value.actions;
      |DryRun(acts).out| == 1 + |acts| && DryRun(acts).err.None?
  {
    PlanSupported(view, cs, strategy);
    DryRunAllSupported(PlanFor(view, cs, strategy).value.actions);
  }

  // ------------------------------------------------------------ MaybeStringArrayFromSlice

  /** `MaybeStringArrayFromSlice`: appending to a nil slice, so an empty
      input gives nil (here `None`) and any other input its own copy. */
  method MaybeStringArrayFromSlice(slice: seq<string>) returns (msa: Option<seq<string>>)
    ensures |slice| == 0 <==> msa.None?
    ensures msa.Some? ==> msa.value == slice
  {
    msa := None;
    for i := 0 to |slice|
      invariant i == 0 ==> msa.None?
      invariant i > 0 ==> msa == Some(slice[..i])
    {
      var prev := if msa.None? then [] else msa.value;
      assert slice[..i + 1] == slice[..i] + [slice[i]];
      msa := Some(prev + [slice[i]]);
    }
    assert slice[..|slice|] == slice;
  }
}
