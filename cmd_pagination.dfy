/** Default pagination for the CLI list command (internal/cmd/pagination.go).
    The configured maximum limit is read from the configuration in the
    source; here it is a parameter. */
module CmdPagination {
  import opened Wrappers

  predicate Positive(x: Option<int>) { x.Some? && x.value > 0 }

  /** `ApplyDefaultPagination`: an explicit positive offset leaves both
      values alone; otherwise a positive limit above the maximum is capped. */
  function ApplyDefaultPagination(limit: Option<int>, offset: Option<int>, maxLimit: int)
    : (r: (Option<int>, Option<int>))
    // the offset is never changed
    ensures r.1 == offset
    // with an explicit offset the limit passes through
    ensures Positive(offset) ==> r.0 == limit
    // without one, a positive limit ends up at most the maximum, and is
    // only replaced when it was above it
    ensures !Positive(offset) && Positive(limit) ==> r.0.Some? && r.0.value <= maxLimit
    ensures r.0 != limit ==> !Positive(offset) && Positive(limit) && limit.value > maxLimit
                             && r.0 == Some(maxLimit)
    // a nil or non-positive limit is never touched
    ensures !Positive(limit) ==> r.0 == limit
  {
    if Positive(offset) then (limit, offset)
    else if Positive(limit) then
      if limit.value > maxLimit then (Some(maxLimit), offset) else (limit, offset)
    else (limit, offset)
  }

  /** Applying the defaults twice changes nothing more. */
  lemma {:induction false} ApplyDefaultPaginationIdempotent(limit: Option<int>, offset: Option<int>, maxLimit: int)
    ensures var (l, o) := ApplyDefaultPagination(limit, offset, maxLimit);
      ApplyDefaultPagination(l, o, maxLimit) == (l, o)
  {
  }
}
