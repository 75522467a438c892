/** Offset/limit pagination of a task list (internal/core/pagination.go).
    The element type is generic: pagination never looks inside a task. */
module Pagination {
  import opened Wrappers

  datatype PaginationInfo = PaginationInfo(
    totalResults: int,
    displayedResults: int,
    offset: int,
    limit: int,
    hasMore: bool)

  datatype ListResult<T> = ListResult(tasks: seq<T>, pagination: PaginationInfo)

  /** The start index: the offset when it is given and positive, else 0. */
  function StartIndex(offset: Option<int>): (start: nat)
    ensures offset.Some? && offset.value > 0 ==> start == offset.value
    ensures offset.None? || offset.value <= 0 ==> start == 0
  {
    if offset.Some? && offset.value > 0 then offset.value else 0
  }

  /** `getLimit`: the limit reported back, 0 when none was given. */
  function GetLimit(limit: Option<int>): (l: int)
    ensures limit.None? ==> l == 0
    ensures limit.Some? ==> l == limit.value
  {
    if limit.None? then 0 else limit.value
  }

  /** A limit the callers may pass: a negative one makes the end index fall
      before the start index, which the slice expression rejects. */
  predicate LimitInDomain(limit: Option<int>) { limit.None? || limit.value >= 0 }

  /** The inputs on which `Paginate` returns: the limit matters only when the
      offset lands inside the list, since a start past the end returns the
      empty page before the limit is used. */
  predicate PaginateDefined<T>(tasks: seq<T>, limit: Option<int>, offset: Option<int>) {
    StartIndex(offset) < |tasks| ==> LimitInDomain(limit)
  }

  /** No limit means "everything from the offset on". */
  predicate Unlimited(limit: Option<int>) { limit.None? || limit.value == 0 }

  /** `Paginate`: the window of at most `limit` tasks starting at the offset,
      with metadata describing it. */
  function Paginate<T>(tasks: seq<T>, limit: Option<int>, offset: Option<int>): (r: ListResult<T>)
    requires PaginateDefined(tasks, limit, offset)
    // the page is the contiguous run of tasks that starts at the offset
    ensures var start := StartIndex(offset);
      start < |tasks| ==> start + |r.tasks| <= |tasks| && r.tasks == tasks[start..start + |r.tasks|]
    ensures StartIndex(offset) >= |tasks| ==> r.tasks == []
    // it runs to the end of the list unless a positive limit cuts it short
    ensures var start := StartIndex(offset);
      start < |tasks| && Unlimited(limit) ==> start + |r.tasks| == |tasks|
    ensures var start := StartIndex(offset);
      start < |tasks| && !Unlimited(limit) ==>
        |r.tasks| == if start + limit.value < |tasks| then limit.value else |tasks| - start
    // metadata
    ensures r.pagination.totalResults == |tasks|
    ensures r.pagination.displayedResults == |r.tasks|
    ensures r.pagination.offset == StartIndex(offset)
    ensures r.pagination.limit == GetLimit(limit)
    ensures r.pagination.hasMore <==> StartIndex(offset) + |r.tasks| < |tasks|
  {
    var total := |tasks|;
    var start := StartIndex(offset);
    if start >= total then
      ListResult([], PaginationInfo(total, 0, start, GetLimit(limit), false))
    else if Unlimited(limit) then
      var page := tasks[start..];
      ListResult(page, PaginationInfo(total, |page|, start, GetLimit(limit), false))
    else
      var end := if start + limit.value < total then start + limit.value else total;
      var page := tasks[start..end];
      ListResult(page, PaginationInfo(total, |page|, start, GetLimit(limit), end < total))
  }

  /** `PaginateTasks`: the same window without the metadata. */
  function PaginateTasks<T>(tasks: seq<T>, limit: Option<int>, offset: Option<int>): (r: seq<T>)
    requires |tasks| > 0 ==> PaginateDefined(tasks, limit, offset)
    ensures |tasks| == 0 ==> r == tasks
    ensures StartIndex(offset) >= |tasks| ==> r == []
  {
    if |tasks| == 0 then tasks
    else
      var start := StartIndex(offset);
      if start >= |tasks| then []
      else if Unlimited(limit) then tasks[start..]
      else tasks[start..if start + limit.value < |tasks| then start + limit.value else |tasks|]
  }

  /** The two entry points agree on every input in their domain. */
  lemma {:induction false} PaginateTasksAgrees<T>(tasks: seq<T>, limit: Option<int>, offset: Option<int>)
    requires PaginateDefined(tasks, limit, offset)
    ensures PaginateTasks(tasks, limit, offset) == Paginate(tasks, limit, offset).tasks
  {
  }

  /** Two consecutive pages of size `n` make up the page of size `2n`. */
  lemma {:induction false} ConsecutivePages<T>(tasks: seq<T>, n: nat, offset: nat)
    requires n > 0
    ensures Paginate(tasks, Some(n), Some(offset)).tasks + Paginate(tasks, Some(n), Some(offset + n)).tasks
         == Paginate(tasks, Some(2 * n), Some(offset)).tasks
  {
    var a := Paginate(tasks, Some(n), Some(offset)).tasks;
    var b := Paginate(tasks, Some(n), Some(offset + n)).tasks;
    var c := Paginate(tasks, Some(2 * n), Some(offset)).tasks;
    if offset < |tasks| {
      if offset + n < |tasks| {
        assert a + b == tasks[offset..offset + |a| + |b|];
      }
    }
  }

  /** Every task lies on exactly the page its position selects: walking the
      pages of size `n` from offset 0 visits the whole list in order. */
  lemma {:induction false} PagesCoverList<T>(tasks: seq<T>, n: nat, offset: nat)
    requires n > 0 && offset <= |tasks|
    ensures AllPages(tasks, n, offset) == tasks[offset..]
    decreases |tasks| - offset
  {
    if offset + n < |tasks| {
      PagesCoverList(tasks, n, offset + n);
      assert tasks[offset..offset + n] + tasks[offset + n..] == tasks[offset..];
    }
  }

  /** The concatenation of the pages of size `n` from `offset` on. */
  function AllPages<T>(tasks: seq<T>, n: nat, offset: nat): (r: seq<T>)
    requires n > 0
    decreases |tasks| - offset
  {
    var page := Paginate(tasks, Some(n), Some(offset));
    if page.pagination.hasMore then page.tasks + AllPages(tasks, n, offset + n) else page.tasks
  }
}
