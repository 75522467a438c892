/** Next-ID allocation of the file task store (internal/core/store.go):
    the next free child ID under a tree path, computed from a directory
    listing.  Locking and reading the directory are inputs: whether the
    lock was taken and the listing or the failure that replaced it. */
module Store {
  import opened Wrappers
  import opened Text
  import opened TaskIds
  import opened Parse

  /** One entry of the tasks directory. */
  datatype DirEntry = DirEntry(name: string, isDir: bool)

  /** Why no ID could be computed. */
  datatype StoreError = CouldNotLock | ReadDirFailed | TaskNotFound(id: TaskID)

  /** A non-directory entry whose name starts with "T" and ends in ".md". */
  predicate IsTaskFile(e: DirEntry)
  {
    !e.isDir && HasPrefix(e.name, TaskIDPrefix) && HasSuffix(e.name, ".md")
  }

  /** `id` sits directly under `treePath`. */
  predicate ChildOf(id: TaskID, treePath: seq<int>)
  {
    |id.seg| == |treePath| + 1 && id.seg[..|treePath|] == treePath
  }

  /** The ID a directory entry contributes: a task file whose name parses
      and whose ID is a direct child of the tree path. */
  function ChildID(e: DirEntry, treePath: seq<int>): (r: Option<TaskID>)
    ensures r.Some? <==>
      IsTaskFile(e) && ParseTaskIDFromFileName(e.name).Ok?
      && ChildOf(ParseTaskIDFromFileName(e.name).value, treePath)
    ensures r.Some? ==> r.value == ParseTaskIDFromFileName(e.name).value
  {
    if !IsTaskFile(e) then None
    else
      match ParseTaskIDFromFileName(e.name)
      case Err(_) => None
      case Ok(id) => if ChildOf(id, treePath) then Some(id) else None
  }

  /** The child IDs found in the listing, in listing order. */
  function MatchingIDs(files: seq<DirEntry>, treePath: seq<int>): (ids: seq<TaskID>)
    ensures |ids| <= |files|
    ensures forall i :: 0 <= i < |ids| ==> ChildOf(ids[i], treePath)
    decreases |files|
  {
    if |files| == 0 then []
    else
      var init := MatchingIDs(files[..|files| - 1], treePath);
      match ChildID(files[|files| - 1], treePath)
      case None => init
      case Some(id) => init + [id]
  }

  /** Every child ID in the listing is among the matching IDs. */
  lemma {:induction false} MatchingIDsComplete(files: seq<DirEntry>, treePath: seq<int>, k: nat)
    requires k < |files| && ChildID(files[k], treePath).Some?
    ensures ChildID(files[k], treePath).value in MatchingIDs(files, treePath)
    decreases |files|
  {
    if k < |files| - 1 {
      var init := files[..|files| - 1];
      assert init[k] == files[k];
      MatchingIDsComplete(init, treePath, k);
    }
  }

  /** Every matching ID comes from some entry of the listing. */
  lemma {:induction false} MatchingIDsSound(files: seq<DirEntry>, treePath: seq<int>, j: nat)
    requires j < |MatchingIDs(files, treePath)|
    ensures exists k :: 0 <= k < |files| && ChildID(files[k], treePath) == Some(MatchingIDs(files, treePath)[j])
    decreases |files|
  {
    var init := files[..|files| - 1];
    var ids := MatchingIDs(files, treePath);
    if j < |MatchingIDs(init, treePath)| {
      MatchingIDsSound(init, treePath, j);
      var k :| 0 <= k < |init| && ChildID(init[k], treePath) == Some(MatchingIDs(init, treePath)[j]);
      assert files[k] == init[k];
    } else {
      assert ChildID(files[|files| - 1], treePath) == Some(ids[j]);
    }
  }

  /** The last segment of an ID with at least one segment. */
  function Last(id: TaskID): int
    requires |id.seg| > 0
  {
    id.seg[|id.seg| - 1]
  }

  /** The largest last segment among the IDs, or 0 when none is positive. */
  function MaxLast(ids: seq<TaskID>): (m: int)
    requires forall i :: 0 <= i < |ids| ==> |ids[i].seg| > 0
    ensures m >= 0
    ensures forall i :: 0 <= i < |ids| ==> Last(ids[i]) <= m
    ensures m == 0 || exists i :: 0 <= i < |ids| && Last(ids[i]) == m
    decreases |ids|
  {
    if |ids| == 0 then 0
    else
      var init := ids[..|ids| - 1];
      var m := MaxLast(init);
      var l := Last(ids[|ids| - 1]);
      assert forall i :: 0 <= i < |init| ==> init[i] == ids[i];
      if l > m then l else m
  }

  /** The ID `getNextTaskID` allocates: the tree path followed by one more
      than the largest last segment of its existing children. */
  function NextID(files: seq<DirEntry>, treePath: seq<int>): (id: TaskID)
  {
    TaskID(treePath + [MaxLast(MatchingIDs(files, treePath)) + 1])
  }

  /** The new ID is a child of the tree path with a positive last segment,
      and it is 1 exactly when the path has no children in the listing. */
  lemma {:induction false} NextIDShape(files: seq<DirEntry>, treePath: seq<int>)
    ensures ChildOf(NextID(files, treePath), treePath)
    ensures Last(NextID(files, treePath)) >= 1
    ensures |MatchingIDs(files, treePath)| == 0 ==> NextID(files, treePath) == TaskID(treePath + [1])
  {
    assert NextID(files, treePath).seg[..|treePath|] == treePath;
  }

  /** The new ID is above, hence different from, every child ID in the
      listing. */
  lemma {:induction false} NextIDFresh(files: seq<DirEntry>, treePath: seq<int>, k: nat)
    requires k < |files| && ChildID(files[k], treePath).Some?
    ensures Last(ChildID(files[k], treePath).value) < Last(NextID(files, treePath))
    ensures ChildID(files[k], treePath).value != NextID(files, treePath)
  {
    MatchingIDsComplete(files, treePath, k);
  }

  /** Entries that are directories, lack the "T" prefix or the ".md"
      suffix, or whose ID does not parse, do not affect the result. */
  lemma {:induction false} IgnoredEntry(files: seq<DirEntry>, e: DirEntry, treePath: seq<int>)
    requires !IsTaskFile(e) || ParseTaskIDFromFileName(e.name).Err?
    ensures NextID(files + [e], treePath) == NextID(files, treePath)
  {
    assert ChildID(e, treePath).None?;
    MatchingIDsSkip(files, e, treePath);
    SameMatchesSameNext(files + [e], files, treePath);
  }

  lemma {:induction false} SameMatchesSameNext(a: seq<DirEntry>, b: seq<DirEntry>, treePath: seq<int>)
    requires MatchingIDs(a, treePath) == MatchingIDs(b, treePath)
    ensures NextID(a, treePath) == NextID(b, treePath)
  {
  }

  lemma {:induction false} MatchingIDsSkip(files: seq<DirEntry>, e: DirEntry, treePath: seq<int>)
    requires ChildID(e, treePath).None?
    ensures MatchingIDs(files + [e], treePath) == MatchingIDs(files, treePath)
  {
    assert (files + [e])[..|files|] == files;
  }

  /** Whether `seg` starts with `treePath`: the inner matching loop. */
  method SegmentsMatch(seg: seq<int>, treePath: seq<int>) returns (matches: bool)
    requires |seg| >= |treePath|
    ensures matches <==> seg[..|treePath|] == treePath
  {
    matches := true;
    var i := 0;
    while i < |treePath|
      invariant 0 <= i <= |treePath|
      invariant matches <==> seg[..i] == treePath[..i]
      invariant !matches ==> i < |treePath|
    {
      if seg[i] != treePath[i] {
        matches := false;
        break;
      }
      assert seg[..i + 1] == seg[..i] + [seg[i]];
      assert treePath[..i + 1] == treePath[..i] + [treePath[i]];
      i := i + 1;
    }
    if !matches {
      assert seg[..|treePath|][i] != treePath[i];
    } else {
      assert treePath[..i] == treePath;
    }
  }

  /** The first loop of `getNextTaskID`: the direct children of
      `treePath` among the task files of the listing. */
  method CollectChildren(files: seq<DirEntry>, treePath: seq<int>) returns (matchingIDs: seq<TaskID>)
    ensures matchingIDs == MatchingIDs(files, treePath)
  {
    matchingIDs := [];
    var i := 0;
    while i < |files|
      invariant 0 <= i <= |files|
      invariant matchingIDs == MatchingIDs(files[..i], treePath)
    {
      var e := files[i];
      assert files[..i + 1][..i] == files[..i];
      if !e.isDir && HasPrefix(e.name, TaskIDPrefix) && HasSuffix(e.name, ".md") {
        var parsed := ParseTaskIDFromFileName(e.name);
        if parsed.Ok? {
          var id := parsed.value;
          if |id.seg| >= |treePath| {
            var matches := SegmentsMatch(id.seg, treePath);
            if matches && |id.seg| == |treePath| + 1 {
              matchingIDs := matchingIDs + [id];
            }
          }
        }
      }
      i := i + 1;
    }
    assert files[..i] == files;
  }

  /** The second loop of `getNextTaskID`: the largest first segment of the
      top-level IDs, or the largest last segment of the children. */
  method HighestSegment(matchingIDs: seq<TaskID>, treePath: seq<int>) returns (max: int)
    requires forall i :: 0 <= i < |matchingIDs| ==> |matchingIDs[i].seg| == |treePath| + 1
    ensures max == MaxLast(matchingIDs)
  {
    max := 0;
    var j := 0;
    while j < |matchingIDs|
      invariant 0 <= j <= |matchingIDs|
      invariant max == MaxLast(matchingIDs[..j])
    {
      assert matchingIDs[..j + 1][..j] == matchingIDs[..j];
      var next := if |treePath| == 0 then matchingIDs[j].seg[0] else Last(matchingIDs[j]);
      if next > max {
        max := next;
      }
      j := j + 1;
    }
    assert matchingIDs[..j] == matchingIDs;
  }

  /** `getNextTaskID`: lock, read the directory, collect the direct
      children of `treePath`, and allocate one past their largest last
      segment. */
  method NextTaskID(locked: bool, listing: Result<seq<DirEntry>, StoreError>, treePath: seq<int>)
    returns (r: Result<TaskID, StoreError>)
    ensures !locked ==> r == Err(CouldNotLock)
    ensures locked && listing.Err? ==> r == Err(listing.error)
    ensures locked && listing.Ok? ==> r == Ok(NextID(listing.value, treePath))
  {
    if !locked {
      return Err(CouldNotLock);
    }
    if listing.Err? {
      return Err(listing.error);
    }
    var matchingIDs := CollectChildren(listing.value, treePath);
    var max := HighestSegment(matchingIDs, treePath);
    r := Ok(TaskID(treePath + [max + 1]));
  }

  // ------------------------------------------------------- file lookup

  /** A non-directory ".md" entry whose name starts with `prefix`. */
  predicate NamedLike(e: DirEntry, prefix: string)
  {
    !e.isDir && HasPrefix(e.name, prefix) && HasSuffix(e.name, ".md")
  }

  /** The position of the first entry named like `prefix`, if any. */
  function FirstNamedLike(files: seq<DirEntry>, prefix: string): (r: Option<nat>)
    ensures r.Some? ==> r.value < |files| && NamedLike(files[r.value], prefix)
    ensures r.Some? ==> forall j :: 0 <= j < r.value ==> !NamedLike(files[j], prefix)
    ensures r.None? ==> forall j :: 0 <= j < |files| ==> !NamedLike(files[j], prefix)
    decreases |files|
  {
    if |files| == 0 then None
    else if NamedLike(files[0], prefix) then Some(0)
    else
      match FirstNamedLike(files[1..], prefix)
      case None => None
      case Some(k) => Some(k + 1)
  }

  /** `findTaskFileByID` as written: the first ".md" file whose name
      starts with the ID's Name, without the "-" that ends the ID part. */
  function FindTaskFileAsWritten(files: seq<DirEntry>, id: TaskID): (r: Option<nat>)
    ensures r.Some? ==> r.value < |files| && HasPrefix(files[r.value].name, Name(id))
  {
    FirstNamedLike(files, Name(id))
  }

  /** With a single file "T100-x.md", looking up task 10 finds that file,
      although the ID it names is 100. */
  lemma {:induction false} FindTaskFilePrefixClash()
    ensures FindTaskFileAsWritten([DirEntry("T100-x.md", false)], TaskID([10])) == Some(0)
    ensures !HasPrefix("T100-x.md", Name(TaskID([10])) + "-")
  {
    assert DigitChar(1) == '1' && DigitChar(0) == '0';
    assert Decimal(10) == "10";
    assert PaddedSegments([10]) == ["10"];
    assert Join(["10"], ".") == "10";
    assert Name(TaskID([10])) == "T10";
    assert "T100-x.md"[3] == '0' && "T10-"[3] == '-';
    assert "T100-x.md"[..4][3] != "T10-"[3];
  }

  /** `findTaskFileByID` as intended: the first ".md" file whose name
      starts with the ID's Name followed by "-". */
  function FindTaskFile(files: seq<DirEntry>, id: TaskID): (r: Option<nat>)
    ensures r.Some? ==> r.value < |files| && HasPrefix(files[r.value].name, Name(id) + "-")
  {
    FirstNamedLike(files, Name(id) + "-")
  }

  /** The file found names exactly the ID looked up. */
  lemma {:induction false} FoundFileHasID(files: seq<DirEntry>, id: TaskID)
    requires |id.seg| >= 1 && ParsableSegments(id.seg)
    requires FindTaskFile(files, id).Some?
    ensures ParseTaskIDFromFileName(files[FindTaskFile(files, id).value].name) == Ok(id)
  {
    var name := files[FindTaskFile(files, id).value].name;
    NameHasNoDash(id);
    BeforeSeparatorOf(name, Name(id));
    ParseString(id);
  }

  /** The lookup loop: the position of the first entry named like
      `prefix`. */
  method FindFirstNamedLike(files: seq<DirEntry>, prefix: string) returns (r: Option<nat>)
    ensures r == FirstNamedLike(files, prefix)
  {
    var i := 0;
    while i < |files|
      invariant 0 <= i <= |files|
      invariant forall j :: 0 <= j < i ==> !NamedLike(files[j], prefix)
    {
      if !files[i].isDir && HasPrefix(files[i].name, prefix) && HasSuffix(files[i].name, ".md") {
        FirstNamedLikeAt(files, prefix, i);
        return Some(i);
      }
      i := i + 1;
    }
    return None;
  }

  /** The first entry named like `prefix` is the one `FirstNamedLike`
      gives. */
  lemma {:induction false} FirstNamedLikeAt(files: seq<DirEntry>, prefix: string, i: nat)
    requires i < |files| && NamedLike(files[i], prefix)
    requires forall j :: 0 <= j < i ==> !NamedLike(files[j], prefix)
    ensures FirstNamedLike(files, prefix) == Some(i)
    decreases i
  {
    if i > 0 {
      FirstNamedLikeAt(files[1..], prefix, i - 1);
    }
  }

  /** `findTaskFileByID`, with the intended prefix: the name of the task's
      file, or an error when the directory cannot be read or holds no
      such file. */
  method FindTaskFileByID(listing: Result<seq<DirEntry>, StoreError>, id: TaskID) returns (r: Result<string, StoreError>)
    ensures listing.Err? ==> r == Err(listing.error)
    ensures listing.Ok? && FindTaskFile(listing.value, id).None? ==> r == Err(TaskNotFound(id))
    ensures listing.Ok? && FindTaskFile(listing.value, id).Some? ==>
      r == Ok(listing.value[FindTaskFile(listing.value, id).value].name)
  {
    if listing.Err? {
      return Err(listing.error);
    }
    var found := FindFirstNamedLike(listing.value, Name(id) + "-");
    if found.Some? {
      return Ok(listing.value[found.value].name);
    }
    return Err(TaskNotFound(id));
  }
}
