/** Editing a task (internal/core/update.go): the set-like merge of string
    lists, the order-insensitive list comparison that sorts its arguments,
    and `Update`, which applies an edit field by field to a task held by
    reference, records one history entry per effective change, and names
    the old file to delete when the file name may have changed.  The
    clock is the parameter `now`; the directory listing stands for the
    store's file system. */
module Update {
  import opened Wrappers
  import opened Text
  import opened TaskIds
  import opened Tasks
  import opened CoreParams
  import opened UpdateAC
  import opened StringOrder
  import opened Store

  // ------------------------------------------------------ batchRemoveAdd

  predicate NoDuplicates(s: seq<string>)
  {
    forall i, j :: 0 <= i < j < |s| ==> s[i] != s[j]
  }

  /** What `batchRemoveAdd` promises of a merged list, in whatever order
      the map iteration produced it: no duplicates, and exactly the
      strings of `orig` or `toAdd` that are not in `toRemove`. */
  ghost predicate IsMerge(r: seq<string>, orig: seq<string>, toRemove: seq<string>, toAdd: seq<string>)
  {
    && NoDuplicates(r)
    && forall x :: x in r <==> (x in orig || x in toAdd) && x !in toRemove
  }

  /** `batchRemoveAdd`: nil when there is nothing to add or remove;
      otherwise the elements of a set filled from `orig`, then `toAdd`,
      then emptied of `toRemove`, listed in map order. */
  method BatchRemoveAdd(orig: seq<string>, toRemove: seq<string>, toAdd: seq<string>)
    returns (r: Option<seq<string>>)
    ensures r.None? <==> |toRemove| == 0 && |toAdd| == 0
    ensures r.Some? ==> IsMerge(r.value, orig, toRemove, toAdd)
  {
    if |toRemove| == 0 && |toAdd| == 0 {
      return None;
    }
    var labelSet: set<string> := {};
    var i := 0;
    while i < |orig|
      invariant 0 <= i <= |orig|
      invariant forall x :: x in labelSet <==> x in orig[..i]
    {
      assert orig[..i + 1] == orig[..i] + [orig[i]];
      labelSet := labelSet + {orig[i]};
      i := i + 1;
    }
    assert orig[..i] == orig;
    i := 0;
    while i < |toAdd|
      invariant 0 <= i <= |toAdd|
      invariant forall x :: x in labelSet <==> x in orig || x in toAdd[..i]
    {
      assert toAdd[..i + 1] == toAdd[..i] + [toAdd[i]];
      labelSet := labelSet + {toAdd[i]};
      i := i + 1;
    }
    assert toAdd[..i] == toAdd;
    i := 0;
    while i < |toRemove|
      invariant 0 <= i <= |toRemove|
      invariant forall x :: x in labelSet <==> (x in orig || x in toAdd) && x !in toRemove[..i]
    {
      assert toRemove[..i + 1] == toRemove[..i] + [toRemove[i]];
      labelSet := labelSet - {toRemove[i]};
      i := i + 1;
    }
    assert toRemove[..i] == toRemove;
    ghost var full := labelSet;
    var newLabels: seq<string> := [];
    while labelSet != {}
      invariant forall x :: x in full <==> x in labelSet || x in newLabels
      invariant forall x :: x in labelSet ==> x !in newLabels
      invariant NoDuplicates(newLabels)
      decreases |labelSet|
    {
      var l :| l in labelSet;
      newLabels := newLabels + [l];
      labelSet := labelSet - {l};
    }
    return Some(newLabels);
  }

  /** A list without duplicates whose members are exactly one string is
      that string alone. */
  lemma {:induction false} SingletonList(r: seq<string>, x: string)
    requires NoDuplicates(r)
    requires forall y :: y in r <==> y == x
    ensures r == [x]
  {
    assert x in r;
    forall i | 0 <= i < |r| ensures r[i] == x {
      assert r[i] in r;
    }
    AllSameCount(r, x);
    CountOnce(r, x);
  }

  /** A list made only of `x` holds `x` once per element. */
  lemma {:induction false} AllSameCount(r: seq<string>, x: string)
    requires forall i :: 0 <= i < |r| ==> r[i] == x
    ensures multiset(r)[x] == |r|
    decreases |r|
  {
    if |r| > 0 {
      assert r == [r[0]] + r[1..];
      AllSameCount(r[1..], x);
    }
  }

  /** The label edit of the field-update unit test: labels ["bug"], add
      ["bug", "urgent"], remove ["bug"] gives ["urgent"]: removal wins over
      addition. */
  lemma {:induction false} LabelMergeExample(r: seq<string>)
    requires IsMerge(r, ["bug"], ["bug"], ["bug", "urgent"])
    ensures r == ["urgent"]
  {
    SingletonList(r, "urgent");
  }

  /** Merging is insensitive to repeated elements: merging a merge result
      again with the same lists gives the same set. */
  lemma {:induction false} MergeIdempotent(r: seq<string>, r2: seq<string>, orig: seq<string>, toRemove: seq<string>, toAdd: seq<string>)
    requires IsMerge(r, orig, toRemove, toAdd)
    requires IsMerge(r2, r, toRemove, toAdd)
    ensures forall x :: x in r2 <==> x in r
  {
  }

  // -------------------------------------------------- equalStringSlices

  /** `slices.Sort` on a string slice, in place. */
  method SortInPlace(a: array<string>)
    modifies a
    ensures a[..] == SortStrings(old(a[..]))
  {
    var sorted := SortStrings(a[..]);
    forall i | 0 <= i < a.Length {
      a[i] := sorted[i];
    }
    assert a[..] == sorted;
  }

  /** `equalStringSlices`: different lengths are unequal and leave both
      slices alone; otherwise both are sorted in place (they may be the
      same slice) and compared element by element, so the answer is
      whether they hold the same strings with the same multiplicities. */
  method EqualStringSlices(a: array<string>, b: array<string>) returns (eq: bool)
    modifies a, b
    ensures eq <==> a.Length == b.Length && multiset(old(a[..])) == multiset(old(b[..]))
    ensures a.Length != b.Length ==> a[..] == old(a[..]) && b[..] == old(b[..])
    ensures a.Length == b.Length ==>
      a[..] == SortStrings(old(a[..])) && b[..] == SortStrings(old(b[..]))
  {
    if a.Length != b.Length {
      return false;
    }
    ghost var oldA, oldB := a[..], b[..];
    SortInPlace(a);
    if a == b {
      SortSorted(a[..]);
    }
    SortInPlace(b);
    if a == b {
      assert a[..] == SortStrings(oldA);
    }
    SortEqualIff(oldA, oldB);
    var i := 0;
    while i < a.Length
      invariant 0 <= i <= a.Length
      invariant a[..i] == b[..i]
    {
      if a[i] != b[i] {
        return false;
      }
      assert a[..i + 1] == a[..i] + [a[i]];
      assert b[..i + 1] == b[..i] + [b[i]];
      i := i + 1;
    }
    assert a[..] == a[..i] && b[..] == b[..i];
    return true;
  }

  /** Two lists hold the same strings with the same multiplicities. */
  predicate SameStrings(a: seq<string>, b: seq<string>)
  {
    |a| == |b| && multiset(a) == multiset(b)
  }

  /** What `equalStringSlices(a, b)` leaves in `a`: sorted when the
      lengths agree, untouched otherwise. */
  function AfterCompare(a: seq<string>, b: seq<string>): (r: seq<string>)
    ensures multiset(r) == multiset(a)
    ensures |a| == |b| ==> SortedStrings(r)
    ensures |a| != |b| ==> r == a
  {
    if |a| == |b| then SortStrings(a) else a
  }

  /** `equalStringSlices` on two slices with their own backing arrays:
      the answer and the contents it leaves behind. */
  method CompareLists(a: seq<string>, b: seq<string>)
    returns (eq: bool, afterA: seq<string>, afterB: seq<string>)
    ensures eq <==> SameStrings(a, b)
    ensures afterA == AfterCompare(a, b) && afterB == AfterCompare(b, a)
  {
    var arrA := new string[|a|](i requires 0 <= i < |a| => a[i]);
    var arrB := new string[|b|](i requires 0 <= i < |b| => b[i]);
    assert arrA[..] == a && arrB[..] == b;
    eq := EqualStringSlices(arrA, arrB);
    afterA, afterB := arrA[..], arrB[..];
  }

  /** Equal sorted contents is the same as equal multisets. */
  lemma {:induction false} SameStringsSorted(a: seq<string>, b: seq<string>)
    ensures SameStrings(a, b) <==> |a| == |b| && SortStrings(a) == SortStrings(b)
  {
    SortEqualIff(a, b);
  }

  // ------------------------------------------------------------- history

  /** `RecordChange`: the task with one more history entry. */
  function Recorded(t: Task, c: Change, now: int): (r: Task)
    ensures r.history == t.history + [HistoryEntry(now, c)]
    ensures r == t.(history := r.history)
  {
    t.(history := t.history + [HistoryEntry(now, c)])
  }

  // ---------------------------------------------------------- the steps

  /** Why an edit stopped. */
  datatype UpdateError =
    | BadStatus(input: string, invalid: InvalidValue)
    | BadPriority(input: string, invalid: InvalidValue)
    | BadParent(input: string, parseError: ParseError)
    | NoNextID(storeError: StoreError)
    | BadDependency(input: string, parseError: ParseError)
    | MissingDependency(input: string, storeError: StoreError)

  /** The history entries a step adds: one when it changes something. */
  function EntryIf(changed: bool, c: Change, now: int): (r: seq<HistoryEntry>)
    ensures changed ==> r == [HistoryEntry(now, c)]
    ensures !changed ==> r == []
  {
    if changed then [HistoryEntry(now, c)] else []
  }

  /** A new title, when it differs: the old file name is kept for the
      move. */
  method EditTitle(t: TaskRef, newTitle: Option<string>, now: int) returns (oldFile: Option<string>)
    modifies t
    ensures oldFile.Some? <==> newTitle.Some? && newTitle.value != old(t.task.title)
    ensures oldFile.Some? ==> oldFile.value == FileName(old(t.task))
    ensures t.task == old(t.task).(title := NewOr(newTitle, old(t.task.title)),
                                   history := old(t.task.history) +
                                     EntryIf(oldFile.Some?, ValueChanged("Title", old(t.task.title), NewOr(newTitle, old(t.task.title))), now))
  {
    oldFile := None;
    if newTitle.Some? && t.task.title != newTitle.value {
      oldFile := Some(FileName(t.task));
      t.task := Recorded(t.task, ValueChanged("Title", t.task.title, newTitle.value), now);
      t.task := t.task.(title := newTitle.value);
    }
  }

  /** A new description, when it differs. */
  method EditDescription(t: TaskRef, newDescription: Option<string>, now: int)
    modifies t
    ensures t.task == old(t.task).(description := NewOr(newDescription, old(t.task.description)),
                                   history := old(t.task.history) +
                                     EntryIf(newDescription.Some? && newDescription.value != old(t.task.description),
                                             Message("Description changed"), now))
  {
    if newDescription.Some? && t.task.description != newDescription.value {
      t.task := Recorded(t.task, Message("Description changed"), now);
      t.task := t.task.(description := newDescription.value);
    }
  }

  /** A new status: parsed first, an error if it is no status; recorded
      and set when it differs. */
  method EditStatus(t: TaskRef, newStatus: Option<string>, dist: (string, string) -> nat, now: int)
    returns (err: Option<UpdateError>)
    modifies t
    ensures err.Some? <==> newStatus.Some? && ParseStatus(newStatus.value, dist).Err?
    ensures err.Some? ==>
      && newStatus.Some? && ParseStatus(newStatus.value, dist).Err?
      && err.value == BadStatus(newStatus.value, ParseStatus(newStatus.value, dist).error)
      && t.task == old(t.task)
    ensures err.None? ==>
      var s := if newStatus.Some? then ParseStatus(newStatus.value, dist).value else old(t.task.status);
      t.task == old(t.task).(status := s,
                             history := old(t.task.history) +
                               EntryIf(s != old(t.task.status), ValueChanged("Status", old(t.task.status), s), now))
  {
    err := None;
    if newStatus.Some? {
      var parsed := ParseStatus(newStatus.value, dist);
      if parsed.Err? {
        return Some(BadStatus(newStatus.value, parsed.error));
      }
      if t.task.status != parsed.value {
        t.task := Recorded(t.task, ValueChanged("Status", t.task.status, parsed.value), now);
        t.task := t.task.(status := parsed.value);
      }
    }
  }

  /** The shared shape of the assignee and label edits: the merged list,
      the message when the comparison says it changed, and what the
      comparison left of the current list. */
  method MergeList(cur: seq<string>, toRemove: seq<string>, toAdd: seq<string>)
    returns (merged: seq<string>, same: bool, curAfter: seq<string>)
    requires |toRemove| > 0 || |toAdd| > 0
    ensures IsMerge(merged, cur, toRemove, toAdd)
    ensures same <==> SameStrings(cur, merged)
    ensures curAfter == AfterCompare(cur, merged)
    ensures |cur| == |merged| ==> SortedStrings(merged)
  {
    var r := BatchRemoveAdd(cur, toRemove, toAdd);
    var mergedAfter;
    same, curAfter, mergedAfter := CompareLists(cur, r.value);
    merged := mergedAfter;
    if |cur| != |r.value| {
      assert merged == r.value;
    } else {
      assert multiset(merged) == multiset(r.value);
      forall x ensures x in merged <==> x in r.value {
        assert x in merged <==> x in multiset(merged);
        assert x in r.value <==> x in multiset(r.value);
      }
      SortedNoDuplicates(merged, r.value);
    }
  }

  /** A rearrangement of a list without duplicates has none. */
  lemma {:induction false} SortedNoDuplicates(s: seq<string>, t: seq<string>)
    requires multiset(s) == multiset(t) && NoDuplicates(t)
    ensures NoDuplicates(s)
  {
    forall i, j | 0 <= i < j < |s| ensures s[i] != s[j] {
      if s[i] == s[j] {
        assert multiset(s)[s[i]] >= 2 by {
          assert s == s[..i] + [s[i]] + s[i + 1..j] + [s[j]] + s[j + 1..];
        }
        CountOnce(t, s[i]);
      }
    }
  }

  /** In a list without duplicates every member occurs once. */
  lemma {:induction false} CountOnce(t: seq<string>, x: string)
    requires NoDuplicates(t)
    ensures multiset(t)[x] <= 1
    decreases |t|
  {
    if |t| > 0 {
      assert t == [t[0]] + t[1..];
      CountOnce(t[1..], x);
      if x == t[0] {
        assert x !in t[1..];
      }
    }
  }

  /** New assignees: merged when something is added or removed, with a
      history entry when the merge changed the list. */
  method EditAssigned(t: TaskRef, p: EditTaskParams, now: int)
    modifies t
    ensures |p.addAssigned| == 0 && |p.removeAssigned| == 0 ==> t.task == old(t.task)
    ensures |p.addAssigned| > 0 || |p.removeAssigned| > 0 ==>
      && IsMerge(t.task.assignees, old(t.task.assignees), p.removeAssigned, p.addAssigned)
      && (SameStrings(old(t.task.assignees), t.task.assignees) ==>
            t.task == old(t.task).(assignees := t.task.assignees))
      && (!SameStrings(old(t.task.assignees), t.task.assignees) ==>
            t.task == Recorded(old(t.task), ListChanged("Assigned",
                        AfterCompare(old(t.task.assignees), t.task.assignees), t.task.assignees), now).(assignees := t.task.assignees))
    // the comparison sorts the merged list in place when the lengths agree
    ensures (|p.addAssigned| > 0 || |p.removeAssigned| > 0) && |old(t.task.assignees)| == |t.task.assignees| ==>
      SortedStrings(t.task.assignees)
  {
    if |p.addAssigned| > 0 || |p.removeAssigned| > 0 {
      var merged, same, curAfter := MergeList(t.task.assignees, p.removeAssigned, p.addAssigned);
      if !same {
        t.task := Recorded(t.task, ListChanged("Assigned", curAfter, merged), now);
      }
      t.task := t.task.(assignees := merged);
    }
  }

  /** New labels: as for assignees. */
  method EditLabels(t: TaskRef, p: EditTaskParams, now: int)
    modifies t
    ensures |p.addLabels| == 0 && |p.removeLabels| == 0 ==> t.task == old(t.task)
    ensures |p.addLabels| > 0 || |p.removeLabels| > 0 ==>
      && IsMerge(t.task.labels, old(t.task.labels), p.removeLabels, p.addLabels)
      && (SameStrings(old(t.task.labels), t.task.labels) ==>
            t.task == old(t.task).(labels := t.task.labels))
      && (!SameStrings(old(t.task.labels), t.task.labels) ==>
            t.task == Recorded(old(t.task), ListChanged("Labels",
                        AfterCompare(old(t.task.labels), t.task.labels), t.task.labels), now).(labels := t.task.labels))
    // the comparison sorts the merged list in place when the lengths agree
    ensures (|p.addLabels| > 0 || |p.removeLabels| > 0) && |old(t.task.labels)| == |t.task.labels| ==>
      SortedStrings(t.task.labels)
  {
    if |p.removeLabels| > 0 || |p.addLabels| > 0 {
      var merged, same, curAfter := MergeList(t.task.labels, p.removeLabels, p.addLabels);
      if !same {
        t.task := Recorded(t.task, ListChanged("Labels", curAfter, merged), now);
      }
      t.task := t.task.(labels := merged);
    }
  }

  /** A new priority: parsed first, an error if it is no priority;
      recorded and set when it differs. */
  method EditPriority(t: TaskRef, newPriority: Option<string>, dist: (string, string) -> nat, now: int)
    returns (err: Option<UpdateError>)
    modifies t
    ensures err.Some? <==> newPriority.Some? && ParsePriority(newPriority.value, dist).Err?
    ensures err.Some? ==>
      && newPriority.Some? && ParsePriority(newPriority.value, dist).Err?
      && err.value == BadPriority(newPriority.value, ParsePriority(newPriority.value, dist).error)
      && t.task == old(t.task)
    ensures err.None? ==>
      var q := if newPriority.Some? then ParsePriority(newPriority.value, dist).value else old(t.task.priority);
      t.task == old(t.task).(priority := q,
                             history := old(t.task.history) +
                               EntryIf(q != old(t.task.priority),
                                       ValueChanged("Priority", PriorityString(old(t.task.priority)), PriorityString(q)), now))
  {
    err := None;
    if newPriority.Some? {
      var parsed := ParsePriority(newPriority.value, dist);
      if parsed.Err? {
        return Some(BadPriority(newPriority.value, parsed.error));
      }
      if t.task.priority != parsed.value {
        t.task := Recorded(t.task, ValueChanged("Priority", PriorityString(t.task.priority), PriorityString(parsed.value)), now);
        t.task := t.task.(priority := parsed.value);
      }
    }
  }

  /** A new parent: parsed first, an error if it is no task ID; when it
      differs, the old file name is kept (unless the title step kept one),
      the change recorded, the parent set, and the task renumbered as the
      next child of the new parent.  A failure to allocate that ID stops
      the edit after the parent was set. */
  method EditParent(t: TaskRef, newParent: Option<string>, oldFile: Option<string>,
                    locked: bool, listing: Result<seq<DirEntry>, StoreError>, now: int)
    returns (err: Option<UpdateError>, oldFile': Option<string>)
    modifies t
    ensures err.None? <==> ParentOk(newParent, old(t.task.parent), locked, listing)
    ensures newParent.Some? && ParseTaskID(newParent.value).Err? ==>
      err == Some(BadParent(newParent.value, ParseTaskID(newParent.value).error)) &&
      oldFile' == oldFile && t.task == old(t.task)
    ensures var q := ParentAfter(newParent, old(t.task.parent));
      q == old(t.task.parent) ==> oldFile' == oldFile && t.task == old(t.task)
    ensures var q := ParentAfter(newParent, old(t.task.parent));
      var moved := old(t.task).(parent := q, history := old(t.task.history) +
                                 [HistoryEntry(now, ValueChanged("Parent", String(old(t.task.parent)), String(q)))]);
      q != old(t.task.parent) ==>
        && oldFile' == (if oldFile.Some? then oldFile else Some(FileName(old(t.task))))
        && (!locked ==> err == Some(NoNextID(CouldNotLock)) && t.task == moved)
        && (locked && listing.Err? ==> err == Some(NoNextID(listing.error)) && t.task == moved)
        && (locked && listing.Ok? ==> t.task == moved.(id := NextID(listing.value, q.seg)))
  {
    err, oldFile' := None, oldFile;
    if newParent.Some? {
      var parsed := ParseTaskID(newParent.value);
      if parsed.Err? {
        return Some(BadParent(newParent.value, parsed.error)), oldFile;
      }
      var q := parsed.value;
      EqualsIsEquality(t.task.parent, q);
      if !Equals(t.task.parent, q) {
        if oldFile'.None? {
          oldFile' := Some(FileName(t.task));
        }
        t.task := Recorded(t.task, ValueChanged("Parent", String(t.task.parent), String(q)), now);
        t.task := t.task.(parent := q);
        var next := NextTaskID(locked, listing, q.seg);
        if next.Err? {
          return Some(NoNextID(next.error)), oldFile';
        }
        t.task := t.task.(id := next.value);
      }
    }
  }

  /** New implementation notes, when they differ. */
  method EditNotes(t: TaskRef, newNotes: Option<string>, now: int)
    modifies t
    ensures t.task == old(t.task).(implementationNotes := NewOr(newNotes, old(t.task.implementationNotes)),
                                   history := old(t.task.history) +
                                     EntryIf(newNotes.Some? && newNotes.value != old(t.task.implementationNotes),
                                             Message("Implementation notes changed"), now))
  {
    if newNotes.Some? && t.task.implementationNotes != newNotes.value {
      t.task := Recorded(t.task, Message("Implementation notes changed"), now);
      t.task := t.task.(implementationNotes := newNotes.value);
    }
  }

  /** A new implementation plan, when it differs from the stored text; it
      is stored with a trailing newline. */
  method EditPlan(t: TaskRef, newPlan: Option<string>, now: int)
    modifies t
    ensures t.task == old(t.task).(implementationPlan := PlanAfter(newPlan, old(t.task.implementationPlan)),
                                   history := old(t.task.history) +
                                     EntryIf(newPlan.Some? && newPlan.value != old(t.task.implementationPlan),
                                             Message("Implementation plan changed"), now))
  {
    if newPlan.Some? && t.task.implementationPlan != newPlan.value {
      t.task := Recorded(t.task, Message("Implementation plan changed"), now);
      t.task := t.task.(implementationPlan := newPlan.value + "\n");
    }
  }

  /** One dependency of the loop: parsed as a task ID and looked up in
      the store; success gives its canonical Name. */
  function ResolveOne(d: string, listing: Result<seq<DirEntry>, StoreError>): (r: Result<string, UpdateError>)
    ensures r.Ok? ==> NamedBy(d, r.value)
    ensures r.Ok? ==> listing.Ok? && FindTaskFile(listing.value, ParseTaskID(d).value).Some?
  {
    match ParseTaskID(d)
    case Err(e) => Err(BadDependency(d, e))
    case Ok(id) =>
      if listing.Err? then Err(MissingDependency(d, listing.error))
      else if FindTaskFile(listing.value, id).None? then Err(MissingDependency(d, TaskNotFound(id)))
      else Ok(Name(id))
  }

  /** `ResolveOne` against a fixed listing. */
  function Resolver(listing: Result<seq<DirEntry>, StoreError>): string -> Result<string, UpdateError>
  {
    d => ResolveOne(d, listing)
  }

  /** A list resolved one text at a time, in order; the first failure
      stops it. */
  function ResolveAll(deps: seq<string>, one: string -> Result<string, UpdateError>): (r: Result<seq<string>, UpdateError>)
    ensures r.Ok? ==> |r.value| == |deps|
    decreases |deps|
  {
    if |deps| == 0 then Ok([])
    else
      match ResolveAll(deps[..|deps| - 1], one)
      case Err(e) => Err(e)
      case Ok(init) =>
        match one(deps[|deps| - 1])
        case Err(e) => Err(e)
        case Ok(name) => Ok(init + [name])
  }

  /** The dependency list the loop builds: each text resolved in order
      against the listing; the first failure stops it. */
  function ResolveDeps(deps: seq<string>, listing: Result<seq<DirEntry>, StoreError>): (r: Result<seq<string>, UpdateError>)
    ensures r.Ok? ==> |r.value| == |deps|
  {
    ResolveAll(deps, Resolver(listing))
  }

  /** A resolved list holds, in order, the result of each text. */
  lemma {:induction false} ResolveAllEach(deps: seq<string>, one: string -> Result<string, UpdateError>)
    requires ResolveAll(deps, one).Ok?
    ensures forall i :: 0 <= i < |deps| ==> one(deps[i]) == Ok(ResolveAll(deps, one).value[i])
    decreases |deps|
  {
    if |deps| > 0 {
      var init' := deps[..|deps| - 1];
      assert ResolveAll(init', one).Ok? && one(deps[|deps| - 1]).Ok?;
      var initR := ResolveAll(init', one).value;
      var r := initR + [one(deps[|deps| - 1]).value];
      assert ResolveAll(deps, one) == Ok(r);
      ResolveAllEach(init', one);
      forall i | 0 <= i < |deps| ensures one(deps[i]) == Ok(r[i]) {
        if i < |init'| {
          assert init'[i] == deps[i] && r[i] == initR[i];
        } else {
          assert r[i] == one(deps[i]).value;
        }
      }
    }
  }

  /** A resolved list holds, in order, the canonical Name of each given
      dependency, and each of them names an existing task file. */
  lemma {:induction false} ResolveDepsEach(deps: seq<string>, listing: Result<seq<DirEntry>, StoreError>)
    requires ResolveDeps(deps, listing).Ok?
    ensures forall i :: 0 <= i < |deps| ==> ResolveOne(deps[i], listing) == Ok(ResolveDeps(deps, listing).value[i])
  {
    ResolveAllEach(deps, Resolver(listing));
  }

  /** `text` parses as a task ID whose Name is `name`. */
  predicate NamedBy(text: string, name: string)
  {
    ParseTaskID(text).Ok? && name == Name(ParseTaskID(text).value)
  }

  /** A list resolves exactly when every text does. */
  lemma {:induction false} ResolveAllOk(deps: seq<string>, one: string -> Result<string, UpdateError>)
    ensures ResolveAll(deps, one).Ok? <==> forall i :: 0 <= i < |deps| ==> one(deps[i]).Ok?
    decreases |deps|
  {
    if |deps| > 0 {
      var init := deps[..|deps| - 1];
      if ResolveAll(deps, one).Ok? {
        ResolveAllEach(deps, one);
      } else if ResolveAll(init, one).Err? {
        ResolveAllOk(init, one);
        var i :| 0 <= i < |init| && !one(init[i]).Ok?;
        assert init[i] == deps[i];
      } else {
        assert !one(deps[|deps| - 1]).Ok?;
      }
    }
  }

  /** The dependency list resolves exactly when every dependency does. */
  lemma {:induction false} ResolveDepsOk(deps: seq<string>, listing: Result<seq<DirEntry>, StoreError>)
    ensures ResolveDeps(deps, listing).Ok? <==> forall i :: 0 <= i < |deps| ==> ResolveOne(deps[i], listing).Ok?
  {
    ResolveAllOk(deps, Resolver(listing));
  }

  /** The resolution loop. */
  method ResolveDependencies(deps: seq<string>, listing: Result<seq<DirEntry>, StoreError>)
    returns (r: Result<seq<string>, UpdateError>)
    ensures r == ResolveDeps(deps, listing)
  {
    var one := Resolver(listing);
    var out: seq<string> := [];
    var i := 0;
    while i < |deps|
      invariant 0 <= i <= |deps|
      invariant ResolveAll(deps[..i], one) == Ok(out)
    {
      var parsed := ParseTaskID(deps[i]);
      if parsed.Err? {
        assert one(deps[i]) == Err(BadDependency(deps[i], parsed.error));
        ResolveFails(deps, one, i);
        return Err(BadDependency(deps[i], parsed.error));
      }
      var found := FindTaskFileByID(listing, parsed.value);
      if found.Err? {
        assert one(deps[i]) == Err(MissingDependency(deps[i], found.error));
        ResolveFails(deps, one, i);
        return Err(MissingDependency(deps[i], found.error));
      }
      assert one(deps[i]) == Ok(Name(parsed.value));
      ResolveStep(deps, one, i, out);
      out := out + [Name(parsed.value)];
      i := i + 1;
    }
    assert deps[..i] == deps;
    return Ok(out);
  }

  /** One more text that resolves extends the resolved prefix. */
  lemma {:induction false} ResolveStep(deps: seq<string>, one: string -> Result<string, UpdateError>, i: nat, out: seq<string>)
    requires i < |deps| && ResolveAll(deps[..i], one) == Ok(out) && one(deps[i]).Ok?
    ensures ResolveAll(deps[..i + 1], one) == Ok(out + [one(deps[i]).value])
  {
    assert deps[..i + 1][..i] == deps[..i];
  }

  /** The first text that does not resolve is the error of the whole list. */
  lemma {:induction false} ResolveFails(deps: seq<string>, one: string -> Result<string, UpdateError>, i: nat)
    requires i < |deps| && ResolveAll(deps[..i], one).Ok? && one(deps[i]).Err?
    ensures ResolveAll(deps, one) == Err(one(deps[i]).error)
  {
    assert deps[..i + 1][..i] == deps[..i];
    ResolveStops(deps, one, i + 1);
  }

  /** Once a prefix of the list fails, the whole list fails the same way. */
  lemma {:induction false} ResolveStops(deps: seq<string>, one: string -> Result<string, UpdateError>, k: nat)
    requires k <= |deps| && ResolveAll(deps[..k], one).Err?
    ensures ResolveAll(deps, one) == ResolveAll(deps[..k], one)
    decreases |deps| - k
  {
    if k < |deps| {
      assert deps[..k + 1][..k] == deps[..k];
      ResolveStops(deps, one, k + 1);
    } else {
      assert deps[..k] == deps;
    }
  }

  /** New dependencies.  The comparison sorts the task's list and the
      given one when their lengths agree, and that sorting stays even when
      nothing else changes; when they differ, the given texts are resolved
      in that order and replace the list. */
  method EditDependencies(t: TaskRef, newDeps: seq<string>, listing: Result<seq<DirEntry>, StoreError>, now: int)
    returns (err: Option<UpdateError>)
    modifies t
    ensures err.None? <==> DepsOk(newDeps, old(t.task.dependencies), listing)
    ensures err.None? ==> DepsEdited(t.task.dependencies, old(t.task.dependencies), newDeps, listing)
    ensures t.task == old(t.task).(dependencies := t.task.dependencies, history := t.task.history)
    ensures old(t.task.history) <= t.task.history
    ensures |newDeps| == 0 ==> err.None? && t.task == old(t.task)
    ensures |newDeps| > 0 && SameStrings(old(t.task.dependencies), newDeps) ==>
      err.None? && t.task == old(t.task).(dependencies := SortStrings(old(t.task.dependencies)))
    ensures |newDeps| > 0 && !SameStrings(old(t.task.dependencies), newDeps) ==>
      var cur := AfterCompare(old(t.task.dependencies), newDeps);
      match ResolveDeps(AfterCompare(newDeps, old(t.task.dependencies)), listing)
      case Err(e) => err == Some(e) && t.task == old(t.task).(dependencies := cur)
      case Ok(ds) =>
        err.None? &&
        t.task == Recorded(old(t.task), ListChanged("Dependencies", cur, ds), now)
                    .(dependencies := ds)
  {
    err := None;
    if |newDeps| > 0 {
      var same, cur, given := CompareLists(t.task.dependencies, newDeps);
      t.task := t.task.(dependencies := cur);
      if !same {
        var resolved := ResolveDependencies(given, listing);
        if resolved.Err? {
          return Some(resolved.error);
        }
        t.task := Recorded(t.task, ListChanged("Dependencies", cur, resolved.value), now);
        t.task := t.task.(dependencies := resolved.value);
      }
    }
  }

  // -------------------------------------------------------------- Update

  /** The value an optional new text leaves in a field. */
  function NewOr(v: Option<string>, current: string): (r: string)
    ensures v.Some? ==> r == v.value
    ensures v.None? ==> r == current
  {
    if v.Some? then v.value else current
  }

  /** The status a successful status step leaves. */
  function StatusAfter(newStatus: Option<string>, dist: (string, string) -> nat, current: Status): (r: Status)
    ensures newStatus.Some? && ParseStatus(newStatus.value, dist).Ok? ==> r == ParseStatus(newStatus.value, dist).value
    ensures newStatus.None? ==> r == current
  {
    if newStatus.Some? && ParseStatus(newStatus.value, dist).Ok? then ParseStatus(newStatus.value, dist).value
    else current
  }

  /** The priority a successful priority step leaves. */
  function PriorityAfter(newPriority: Option<string>, dist: (string, string) -> nat, current: Priority): (r: Priority)
    ensures newPriority.Some? && ParsePriority(newPriority.value, dist).Ok? ==> r == ParsePriority(newPriority.value, dist).value
    ensures newPriority.None? ==> r == current
  {
    if newPriority.Some? && ParsePriority(newPriority.value, dist).Ok? then ParsePriority(newPriority.value, dist).value
    else current
  }

  /** The parent a successful parent step leaves. */
  function ParentAfter(newParent: Option<string>, current: TaskID): (r: TaskID)
    ensures newParent.Some? && ParseTaskID(newParent.value).Ok? ==> r == ParseTaskID(newParent.value).value
    ensures newParent.None? ==> r == current
  {
    if newParent.Some? && ParseTaskID(newParent.value).Ok? then ParseTaskID(newParent.value).value
    else current
  }

  /** The status step succeeds: no new status, or one that parses. */
  predicate StatusOk(p: EditTaskParams, dist: (string, string) -> nat)
  {
    p.newStatus.Some? ==> ParseStatus(p.newStatus.value, dist).Ok?
  }

  /** The priority step succeeds: no new priority, or one that parses. */
  predicate PriorityOk(p: EditTaskParams, dist: (string, string) -> nat)
  {
    p.newPriority.Some? ==> ParsePriority(p.newPriority.value, dist).Ok?
  }

  /** The parent step succeeds: no new parent, or a task ID that is the
      current parent, or one under which the next ID can be allocated. */
  predicate ParentOk(newParent: Option<string>, parent: TaskID, locked: bool, listing: Result<seq<DirEntry>, StoreError>)
  {
    newParent.Some? ==>
      && ParseTaskID(newParent.value).Ok?
      && (ParseTaskID(newParent.value).value != parent ==> locked && listing.Ok?)
  }

  /** The dependency step succeeds: no new list, the same strings as now,
      or a list whose every entry names an existing task. */
  predicate DepsOk(given: seq<string>, deps: seq<string>, listing: Result<seq<DirEntry>, StoreError>)
  {
    |given| > 0 && !SameStrings(deps, given) ==>
      ResolveDeps(AfterCompare(given, deps), listing).Ok?
  }

  /** Every step of `Update` on task `a` succeeds. */
  predicate UpdateSucceeds(a: Task, p: EditTaskParams, dist: (string, string) -> nat,
                           locked: bool, listing: Result<seq<DirEntry>, StoreError>)
  {
    && StatusOk(p, dist)
    && PriorityOk(p, dist)
    && ParentOk(p.newParent, a.parent, locked, listing)
    && DepsOk(p.newDependencies, a.dependencies, listing)
  }

  /** An assignee or label list after its step: unchanged when there is
      nothing to add or remove, otherwise a merge. */
  ghost predicate ListEdited(r: seq<string>, cur: seq<string>, toRemove: seq<string>, toAdd: seq<string>)
  {
    if |toRemove| == 0 && |toAdd| == 0 then r == cur else IsMerge(r, cur, toRemove, toAdd)
  }

  /** The dependency list after its step: unchanged when no list is
      given; sorted in place when the given list holds the same strings;
      otherwise the resolved given list, in the order the comparison left
      it. */
  predicate DepsEdited(r: seq<string>, cur: seq<string>, given: seq<string>, listing: Result<seq<DirEntry>, StoreError>)
  {
    if |given| == 0 then r == cur
    else if SameStrings(cur, given) then r == SortStrings(cur)
    else ResolveDeps(AfterCompare(given, cur), listing) == Ok(r)
  }

  /** The plan after its step: a different text is stored with a
      trailing newline. */
  function PlanAfter(newPlan: Option<string>, current: string): (r: string)
    ensures newPlan.Some? && newPlan.value != current ==> r == newPlan.value + "\n"
    ensures newPlan.None? || newPlan.value == current ==> r == current
  {
    if newPlan.Some? && newPlan.value != current then newPlan.value + "\n" else current
  }

  /** The field values of a successful step on title, description and
      status, from `a` to `b`. */
  ghost predicate HeaderEdited(a: Task, b: Task, p: EditTaskParams, dist: (string, string) -> nat)
  {
    && b == a.(title := b.title, description := b.description, status := b.status, history := b.history)
    && a.history <= b.history
    && b.title == NewOr(p.newTitle, a.title)
    && b.description == NewOr(p.newDescription, a.description)
    && b.status == StatusAfter(p.newStatus, dist, a.status)
  }

  /** The same for assignees and labels. */
  ghost predicate ListsEdited(a: Task, b: Task, p: EditTaskParams)
  {
    && b == a.(assignees := b.assignees, labels := b.labels, history := b.history)
    && a.history <= b.history
    && ListEdited(b.assignees, a.assignees, p.removeAssigned, p.addAssigned)
    && ListEdited(b.labels, a.labels, p.removeLabels, p.addLabels)
  }

  /** The same for priority and parent, with the renumbering a new parent
      brings. */
  ghost predicate PlacementEdited(a: Task, b: Task, p: EditTaskParams, dist: (string, string) -> nat,
                                  listing: Result<seq<DirEntry>, StoreError>)
  {
    && b == a.(priority := b.priority, parent := b.parent, id := b.id, history := b.history)
    && a.history <= b.history
    && b.priority == PriorityAfter(p.newPriority, dist, a.priority)
    && b.parent == ParentAfter(p.newParent, a.parent)
    && (b.parent != a.parent ==> listing.Ok? && b.id == NextID(listing.value, b.parent.seg))
    && (b.parent == a.parent ==> b.id == a.id)
  }

  /** The same for notes, plan and dependencies. */
  ghost predicate DetailsEdited(a: Task, b: Task, p: EditTaskParams, listing: Result<seq<DirEntry>, StoreError>)
  {
    && b == a.(implementationNotes := b.implementationNotes, implementationPlan := b.implementationPlan,
               dependencies := b.dependencies, history := b.history)
    && a.history <= b.history
    && b.implementationNotes == NewOr(p.newNotes, a.implementationNotes)
    && b.implementationPlan == PlanAfter(p.newPlan, a.implementationPlan)
    && DepsEdited(b.dependencies, a.dependencies, p.newDependencies, listing)
  }

  /** What a successful `Update` makes of task `a`, field by field: every
      given value is in place, lists are merged, the parent is set with
      the next free ID under it, criteria are edited and renumbered, the
      history only grows, the creation time stays and the update time is
      `now`. */
  ghost predicate Updated(a: Task, b: Task, p: EditTaskParams, dist: (string, string) -> nat,
                          listing: Result<seq<DirEntry>, StoreError>, now: int)
  {
    && a.history <= b.history
    && b.createdAt == a.createdAt
    && b.updatedAt == now
    && b.title == NewOr(p.newTitle, a.title)
    && b.description == NewOr(p.newDescription, a.description)
    && b.status == StatusAfter(p.newStatus, dist, a.status)
    && ListEdited(b.assignees, a.assignees, p.removeAssigned, p.addAssigned)
    && ListEdited(b.labels, a.labels, p.removeLabels, p.addLabels)
    && b.priority == PriorityAfter(p.newPriority, dist, a.priority)
    && b.parent == ParentAfter(p.newParent, a.parent)
    && (b.parent != a.parent ==> listing.Ok? && b.id == NextID(listing.value, b.parent.seg))
    && (b.parent == a.parent ==> b.id == a.id)
    && b.implementationNotes == NewOr(p.newNotes, a.implementationNotes)
    && b.implementationPlan == PlanAfter(p.newPlan, a.implementationPlan)
    && DepsEdited(b.dependencies, a.dependencies, p.newDependencies, listing)
    && IsReindexOf(b.acceptanceCriteria, Edited(a.acceptanceCriteria, p))
  }

  /** Title, description and status, the first three steps of `Update`. */
  method EditHeader(t: TaskRef, p: EditTaskParams, dist: (string, string) -> nat, now: int)
    returns (oldFile: Option<string>, err: Option<UpdateError>)
    modifies t
    ensures err.None? <==> StatusOk(p, dist)
    ensures err.None? ==> HeaderEdited(old(t.task), t.task, p, dist)
    ensures t.task == old(t.task).(title := t.task.title, description := t.task.description,
                                   status := t.task.status, history := t.task.history)
    ensures old(t.task.history) <= t.task.history
    ensures oldFile.Some? <==> t.task.title != old(t.task.title)
    ensures oldFile.Some? ==> oldFile.value == FileName(old(t.task))
    ensures err.Some? ==>
      && p.newStatus.Some?
      && err.value == BadStatus(p.newStatus.value, ParseStatus(p.newStatus.value, dist).error)
      && t.task == old(t.task).(title := NewOr(p.newTitle, old(t.task.title)),
                                description := NewOr(p.newDescription, old(t.task.description)),
                                history := t.task.history)
  {
    ghost var t0 := t.task;
    oldFile := EditTitle(t, p.newTitle, now);
    ghost var t1 := t.task;
    EditDescription(t, p.newDescription, now);
    ghost var t2 := t.task;
    assert t2 == t0.(title := NewOr(p.newTitle, t0.title), description := NewOr(p.newDescription, t0.description),
                     history := t2.history);
    err := EditStatus(t, p.newStatus, dist, now);
    assert t.task.title == t2.title == t1.title == NewOr(p.newTitle, t0.title);
    assert t0.history <= t1.history <= t2.history <= t.task.history;
  }

  /** Assignees and labels, the next two steps. */
  method EditLists(t: TaskRef, p: EditTaskParams, now: int)
    modifies t
    ensures ListsEdited(old(t.task), t.task, p)
  {
    EditAssigned(t, p, now);
    EditLabels(t, p, now);
  }

  /** Priority and parent, the next two steps; `oldFile` is what the
      title step kept. */
  method EditPlacement(t: TaskRef, p: EditTaskParams, dist: (string, string) -> nat, oldFile: Option<string>,
                       locked: bool, listing: Result<seq<DirEntry>, StoreError>, now: int)
    returns (err: Option<UpdateError>, oldFile': Option<string>)
    modifies t
    ensures err.None? <==> PriorityOk(p, dist) && ParentOk(p.newParent, old(t.task.parent), locked, listing)
    ensures err.None? ==> PlacementEdited(old(t.task), t.task, p, dist, listing)
    ensures t.task == old(t.task).(priority := t.task.priority, parent := t.task.parent,
                                   id := t.task.id, history := t.task.history)
    ensures old(t.task.history) <= t.task.history
    ensures err.None? && t.task.parent != old(t.task.parent) ==>
      oldFile' == (if oldFile.Some? then oldFile else Some(FileName(old(t.task))))
    ensures err.None? && t.task.parent == old(t.task.parent) ==> oldFile' == oldFile
    ensures !PriorityOk(p, dist) ==>
      err == Some(BadPriority(p.newPriority.value, ParsePriority(p.newPriority.value, dist).error))
  {
    oldFile' := oldFile;
    err := EditPriority(t, p.newPriority, dist, now);
    if err.Some? {
      return;
    }
    err, oldFile' := EditParentAfter(t, p, dist, oldFile, locked, listing, now);
  }

  /** The parent step of `EditPlacement`, once the priority step has
      succeeded. */
  method EditParentAfter(t: TaskRef, p: EditTaskParams, dist: (string, string) -> nat, oldFile: Option<string>,
                         locked: bool, listing: Result<seq<DirEntry>, StoreError>, now: int)
    returns (err: Option<UpdateError>, oldFile': Option<string>)
    requires PriorityOk(p, dist)
    requires t.task.priority == PriorityAfter(p.newPriority, dist, t.task.priority)
    modifies t
    ensures err.None? <==> ParentOk(p.newParent, old(t.task.parent), locked, listing)
    ensures err.None? ==> PlacementEdited(old(t.task), t.task, p, dist, listing)
    ensures t.task == old(t.task).(parent := t.task.parent, id := t.task.id, history := t.task.history)
    ensures old(t.task.history) <= t.task.history
    ensures err.None? && t.task.parent != old(t.task.parent) ==>
      oldFile' == (if oldFile.Some? then oldFile else Some(FileName(old(t.task))))
    ensures err.None? && t.task.parent == old(t.task.parent) ==> oldFile' == oldFile
  {
    err, oldFile' := EditParent(t, p.newParent, oldFile, locked, listing, now);
    if p.newParent.Some? && ParseTaskID(p.newParent.value).Ok? {
      EqualsIsEquality(old(t.task.parent), ParseTaskID(p.newParent.value).value);
    }
  }

  /** Notes, plan and dependencies, the last field steps. */
  method EditDetails(t: TaskRef, p: EditTaskParams, listing: Result<seq<DirEntry>, StoreError>, now: int)
    returns (err: Option<UpdateError>)
    modifies t
    ensures err.None? <==> DepsOk(p.newDependencies, old(t.task.dependencies), listing)
    ensures err.None? ==> DetailsEdited(old(t.task), t.task, p, listing)
    ensures t.task == old(t.task).(implementationNotes := t.task.implementationNotes,
                                   implementationPlan := t.task.implementationPlan,
                                   dependencies := t.task.dependencies, history := t.task.history)
    ensures old(t.task.history) <= t.task.history
  {
    ghost var t0 := t.task;
    EditNotes(t, p.newNotes, now);
    ghost var t1 := t.task;
    assert t1 == t0.(implementationNotes := t1.implementationNotes, history := t1.history);
    EditPlan(t, p.newPlan, now);
    ghost var t2 := t.task;
    assert t2 == t1.(implementationPlan := t2.implementationPlan, history := t2.history);
    err := EditDependencies(t, p.newDependencies, listing, now);
    assert t.task == t2.(dependencies := t.task.dependencies, history := t.task.history);
  }

  /** The task after the last steps: notes, plan and dependencies as their
      steps say, the criteria re-indexed after their edit, the update time
      set, and nothing else changed but the history. */
  ghost predicate RestEdited(a: Task, b: Task, p: EditTaskParams, listing: Result<seq<DirEntry>, StoreError>, now: int)
  {
    && b == a.(implementationNotes := b.implementationNotes, implementationPlan := b.implementationPlan,
               dependencies := b.dependencies, acceptanceCriteria := b.acceptanceCriteria,
               updatedAt := now, history := b.history)
    && a.history <= b.history
    && b.implementationNotes == NewOr(p.newNotes, a.implementationNotes)
    && b.implementationPlan == PlanAfter(p.newPlan, a.implementationPlan)
    && DepsEdited(b.dependencies, a.dependencies, p.newDependencies, listing)
    && IsReindexOf(b.acceptanceCriteria, Edited(a.acceptanceCriteria, p))
  }

  /** Notes, plan and dependencies, then the criteria and the update time:
      the steps after the parent step. */
  method EditRest(t: TaskRef, p: EditTaskParams, listing: Result<seq<DirEntry>, StoreError>, now: int)
    returns (err: Option<UpdateError>)
    modifies t
    ensures err.None? <==> DepsOk(p.newDependencies, old(t.task.dependencies), listing)
    ensures err.None? ==> RestEdited(old(t.task), t.task, p, listing, now)
    ensures err.Some? ==>
      t.task == old(t.task).(implementationNotes := t.task.implementationNotes,
                             implementationPlan := t.task.implementationPlan,
                             dependencies := t.task.dependencies, history := t.task.history)
    ensures old(t.task.history) <= t.task.history
  {
    err := EditDetails(t, p, listing, now);
    if err.Some? {
      return;
    }
    ghost var t4 := t.task;
    HandleACChanges(t, p, now);
    t.task := t.task.(updatedAt := now);
    assert t4.history <= t.task.history;
  }

  /** The task after the steps that follow the header: title, description,
      status and creation time kept, every other field edited as its step
      says, the update time set and the history grown. */
  ghost predicate TailUpdated(a: Task, b: Task, p: EditTaskParams, dist: (string, string) -> nat,
                              listing: Result<seq<DirEntry>, StoreError>, now: int)
  {
    && a.history <= b.history
    && b.createdAt == a.createdAt
    && b.updatedAt == now
    && b.title == a.title && b.description == a.description && b.status == a.status
    && ListEdited(b.assignees, a.assignees, p.removeAssigned, p.addAssigned)
    && ListEdited(b.labels, a.labels, p.removeLabels, p.addLabels)
    && b.priority == PriorityAfter(p.newPriority, dist, a.priority)
    && b.parent == ParentAfter(p.newParent, a.parent)
    && (b.parent != a.parent ==> listing.Ok? && b.id == NextID(listing.value, b.parent.seg))
    && (b.parent == a.parent ==> b.id == a.id)
    && b.implementationNotes == NewOr(p.newNotes, a.implementationNotes)
    && b.implementationPlan == PlanAfter(p.newPlan, a.implementationPlan)
    && DepsEdited(b.dependencies, a.dependencies, p.newDependencies, listing)
    && IsReindexOf(b.acceptanceCriteria, Edited(a.acceptanceCriteria, p))
  }

  /** The steps after the header compose: each field is set by exactly one
      step and left alone by the others. */
  lemma {:induction false} TailComposes(t1: Task, t2: Task, t3: Task, t4: Task,
                       p: EditTaskParams, dist: (string, string) -> nat,
                       listing: Result<seq<DirEntry>, StoreError>, now: int)
    requires ListsEdited(t1, t2, p)
    requires PlacementEdited(t2, t3, p, dist, listing)
    requires RestEdited(t3, t4, p, listing, now)
    ensures TailUpdated(t1, t4, p, dist, listing, now)
  {
    assert t1.history <= t3.history;
  }

  /** The header and the rest compose into the whole update. */
  lemma {:induction false} UpdateComposes(t0: Task, t1: Task, t4: Task,
                       p: EditTaskParams, dist: (string, string) -> nat,
                       listing: Result<seq<DirEntry>, StoreError>, now: int)
    requires HeaderEdited(t0, t1, p, dist)
    requires TailUpdated(t1, t4, p, dist, listing, now)
    ensures Updated(t0, t4, p, dist, listing, now)
  {
  }

  /** Lists, placement and the last steps: everything `Update` does after
      the status step.  `oldFile` is what the title step kept. */
  method EditTail(t: TaskRef, p: EditTaskParams, dist: (string, string) -> nat, oldFile: Option<string>,
                  locked: bool, listing: Result<seq<DirEntry>, StoreError>, now: int)
    returns (r: Result<Option<string>, UpdateError>)
    modifies t
    ensures r.Ok? <==>
      && PriorityOk(p, dist)
      && ParentOk(p.newParent, old(t.task.parent), locked, listing)
      && DepsOk(p.newDependencies, old(t.task.dependencies), listing)
    ensures r.Ok? ==> TailUpdated(old(t.task), t.task, p, dist, listing, now)
    ensures r.Ok? && t.task.parent != old(t.task.parent) ==>
      r.value == (if oldFile.Some? then oldFile else Some(FileName(old(t.task))))
    ensures r.Ok? && t.task.parent == old(t.task.parent) ==> r.value == oldFile
    ensures old(t.task.history) <= t.task.history
    ensures t.task.createdAt == old(t.task.createdAt) && t.task.title == old(t.task.title)
    ensures r.Err? ==>
      t.task.acceptanceCriteria == old(t.task.acceptanceCriteria) && t.task.updatedAt == old(t.task.updatedAt)
    ensures !PriorityOk(p, dist) ==>
      r == Err(BadPriority(p.newPriority.value, ParsePriority(p.newPriority.value, dist).error))
  {
    ghost var t1 := t.task;
    EditLists(t, p, now);
    ghost var t2 := t.task;
    assert t2.parent == t1.parent && t2.dependencies == t1.dependencies;
    var err, oldFile' := EditPlacement(t, p, dist, oldFile, locked, listing, now);
    if err.Some? {
      return Err(err.value);
    }
    ghost var t3 := t.task;
    assert t3.dependencies == t1.dependencies && t3.title == t1.title;
    assert PriorityOk(p, dist) && ParentOk(p.newParent, t1.parent, locked, listing);
    err := EditRest(t, p, listing, now);
    if err.Some? {
      return Err(err.value);
    }
    TailComposes(t1, t2, t3, t.task, p, dist, listing, now);
    r := Ok(oldFile');
  }

  /** `Update`: the steps in the source's order, each stopping the edit on
      its error with the changes so far left in place; then the
      acceptance-criteria edit and the update time.  It succeeds exactly
      when every step does, and then the task is as `Updated` describes
      and the result is the file name to delete after writing: present
      exactly when the title or the parent changed, and then the task's
      original file name. */
  method UpdateTask(t: TaskRef, p: EditTaskParams, dist: (string, string) -> nat,
                    locked: bool, listing: Result<seq<DirEntry>, StoreError>, now: int)
    returns (r: Result<Option<string>, UpdateError>)
    modifies t
    ensures r.Ok? <==> UpdateSucceeds(old(t.task), p, dist, locked, listing)
    ensures r.Ok? ==> Updated(old(t.task), t.task, p, dist, listing, now)
    ensures r.Ok? && r.value.Some? ==> r.value.value == FileName(old(t.task))
    ensures r.Ok? ==> (r.value.Some? <==> t.task.title != old(t.task.title) || t.task.parent != old(t.task.parent))
    ensures r.Ok? && r.value.None? ==> t.task.id == old(t.task.id) && t.task.title == old(t.task.title)
    ensures old(t.task.history) <= t.task.history
    ensures t.task.createdAt == old(t.task.createdAt)
    // a failed update stops at its first failing step: the criteria and the
    // update time are untouched, and the error is that step's
    ensures r.Err? ==>
      t.task.acceptanceCriteria == old(t.task.acceptanceCriteria) && t.task.updatedAt == old(t.task.updatedAt)
    ensures !StatusOk(p, dist) ==>
      && r == Err(BadStatus(p.newStatus.value, ParseStatus(p.newStatus.value, dist).error))
      && t.task == old(t.task).(title := NewOr(p.newTitle, old(t.task.title)),
                                description := NewOr(p.newDescription, old(t.task.description)),
                                history := t.task.history)
    ensures StatusOk(p, dist) && !PriorityOk(p, dist) ==>
      r == Err(BadPriority(p.newPriority.value, ParsePriority(p.newPriority.value, dist).error))
  {
    ghost var t0 := t.task;
    var oldFile, err := EditHeader(t, p, dist, now);
    if err.Some? {
      return Err(err.value);
    }
    ghost var t1 := t.task;
    r := EditTail(t, p, dist, oldFile, locked, listing, now);
    if r.Ok? {
      UpdateComposes(t0, t1, t.task, p, dist, listing, now);
    }
  }

  // ------------------------------------------------------------ writing back

  /** The write-back after an update, as the source does it: the task is
      written under its new file name, then the old file name returned by
      the update, if any, is removed from the tasks directory. */
  function FilesAfterUpdateAsWritten(files: set<string>, written: Task, oldFile: Option<string>): (r: set<string>)
    ensures oldFile.Some? ==> oldFile.value !in r
    ensures oldFile.None? || oldFile.value != FileName(written) ==> FileName(written) in r
    ensures forall f :: f != FileName(written) && (oldFile.None? || f != oldFile.value) ==> (f in r <==> f in files)
  {
    (files + {FileName(written)}) - (if oldFile.Some? then {oldFile.value} else {})
  }

  /** A title change that keeps the slug keeps the file name, so the
      write-back as written deletes the file it has just written:
      "Fix bug" and "fix bug" both give the slug "fix_bug". */
  lemma {:induction false} CaseOnlyRenameLosesTask(t: Task, files: set<string>)
    requires t.title == "Fix bug"
    ensures var t' := t.(title := "fix bug");
      && t'.title != t.title
      && FileName(t') == FileName(t)
      && FileName(t') !in FilesAfterUpdateAsWritten(files, t', Some(FileName(t)))
  {
    var t' := t.(title := "fix bug");
    assert ToLower("Fix bug")[0] == 'f';
    assert ToLower("Fix bug") == ToLower("fix bug");
    assert SlugBody(t.title) == SlugBody(t'.title);
    assert Slug(t.title) == Slug(t'.title);
  }

  /** The write-back as intended: the old file is removed only when its
      name differs from the one just written. */
  function FilesAfterUpdate(files: set<string>, written: Task, oldFile: Option<string>): (r: set<string>)
    ensures FileName(written) in r
    ensures oldFile.Some? && oldFile.value != FileName(written) ==> oldFile.value !in r
    ensures forall f :: f != FileName(written) && (oldFile.None? || f != oldFile.value) ==> (f in r <==> f in files)
    ensures oldFile.None? || oldFile.value != FileName(written) ==> r == FilesAfterUpdateAsWritten(files, written, oldFile)
  {
    if oldFile.Some? && oldFile.value == FileName(written) then files + {FileName(written)}
    else FilesAfterUpdateAsWritten(files, written, oldFile)
  }
}
