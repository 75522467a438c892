/** Pagination settings of the MCP server (internal/mcp/pagination_config.go):
    page-size clamping, the auto-pagination threshold, page-number metadata
    and request normalisation. */
module PaginationConfig {
  import opened Wrappers

  /** The part of the response-size configuration pagination looks at. */
  datatype ResponseSizeConfig = ResponseSizeConfig(tokenLimit: int)

  datatype Config = Config(
    defaultPageSize: int,
    maxPageSize: int,
    autoPaginationThreshold: int,
    enableAutoPagination: bool,
    responseSize: ResponseSizeConfig)

  /** `DefaultPaginationConfig`, for a given response-size configuration. */
  function DefaultConfig(responseSize: ResponseSizeConfig): (c: Config)
    ensures Sane(c)
  {
    Config(50, 200, 100, true, responseSize)
  }

  /** `CustomPaginationConfig`: the four settings as given, with the default
      response-size configuration. */
  function CustomConfig(defaultPageSize: int, maxPageSize: int, autoThreshold: int, enableAuto: bool,
                        responseSize: ResponseSizeConfig): (c: Config)
    ensures Sane(c) <==> 1 <= defaultPageSize <= maxPageSize
    ensures ShouldAutoPaginate(c, autoThreshold + 1) == enableAuto
  {
    Config(defaultPageSize, maxPageSize, autoThreshold, enableAuto, responseSize)
  }

  /** A configuration whose default page size is itself a valid size. */
  predicate Sane(c: Config) { 1 <= c.defaultPageSize <= c.maxPageSize }

  /** Go's integer division, which truncates toward zero. */
  function GoDiv(a: int, b: int): (q: int)
    requires b > 0
    ensures a >= 0 ==> q == a / b
    ensures a < 0 ==> q == -((-a) / b)
  {
    if a >= 0 then a / b else -((-a) / b)
  }

  /** `ValidatePageSize`. */
  function ValidatePageSize(c: Config, requestedSize: int): (size: int)
    ensures requestedSize <= 0 ==> size == c.defaultPageSize
    ensures requestedSize > 0 && requestedSize > c.maxPageSize ==> size == c.maxPageSize
    ensures 0 < requestedSize <= c.maxPageSize ==> size == requestedSize
  {
    if requestedSize <= 0 then c.defaultPageSize
    else if requestedSize > c.maxPageSize then c.maxPageSize
    else requestedSize
  }

  /** Under a sane configuration every validated size is in 1..MaxPageSize,
      and validating again changes nothing. */
  lemma {:induction false} ValidatePageSizeRange(c: Config, requestedSize: int)
    requires Sane(c)
    ensures 1 <= ValidatePageSize(c, requestedSize) <= c.maxPageSize
    ensures ValidatePageSize(c, ValidatePageSize(c, requestedSize)) == ValidatePageSize(c, requestedSize)
  {
  }

  /** `ShouldAutoPaginate`. */
  function ShouldAutoPaginate(c: Config, totalItems: int): (b: bool)
    ensures b <==> c.enableAutoPagination && totalItems > c.autoPaginationThreshold
  {
    c.enableAutoPagination && totalItems > c.autoPaginationThreshold
  }

  datatype Metadata = Metadata(
    offset: int,
    limit: int,
    total: int,
    hasMore: bool,
    nextPage: Option<int>,
    prevPage: Option<int>,
    totalPages: int,
    currentPage: int,
    itemsInPage: int,
    estimatedResponseSize: int,
    suggestedPageSize: Option<int>,
    optimizationMessage: string)

  /** Go's `/` for any non-zero divisor. */
  function GoQuot(a: int, b: int): (q: int)
    requires b != 0
    ensures b > 0 ==> q == GoDiv(a, b)
    ensures b < 0 ==> q == -GoDiv(a, -b)
  {
    if b > 0 then GoDiv(a, b) else -GoDiv(a, -b)
  }

  /** `CalculateOptimalPageSize`.  `maxBytes` is the response budget in
      bytes, the token limit divided by the tokens per byte in floating
      point.  The page size is the default, lowered to what fits in the
      budget, capped at the maximum and raised to at least 1.  A zero
      average item size is a division by zero, which panics in Go; that
      outcome is `None`. */
  function OptimalPageSize(c: Config, maxBytes: int, avgItemSize: int): (r: Option<int>)
    ensures r.None? <==> avgItemSize == 0
    ensures r.Some? ==> r.value >= 1
    ensures r.Some? ==> r.value <= c.defaultPageSize || r.value == 1
    ensures r.Some? && Sane(c) ==> r.value <= c.maxPageSize
    ensures r.Some? && GoQuot(maxBytes, avgItemSize) >= 1 ==> r.value <= GoQuot(maxBytes, avgItemSize)
    ensures r.Some? && Sane(c) && c.defaultPageSize <= GoQuot(maxBytes, avgItemSize) ==> r.value == c.defaultPageSize
  {
    if avgItemSize == 0 then None
    else
      var fits := GoQuot(maxBytes, avgItemSize);
      var size := if fits < c.defaultPageSize then fits else c.defaultPageSize;
      var capped := if size > c.maxPageSize then c.maxPageSize else size;
      Some(if capped < 1 then 1 else capped)
  }

  /** With a budget of at least one item of the average size, the suggested
      size never overshoots the budget. */
  lemma {:induction false} OptimalPageSizeFits(c: Config, maxBytes: int, avgItemSize: int)
    requires Sane(c) && avgItemSize > 0 && maxBytes >= avgItemSize
    ensures var r := OptimalPageSize(c, maxBytes, avgItemSize);
      && r.Some? && r.value * avgItemSize <= maxBytes
  {
    var q := GoQuot(maxBytes, avgItemSize);
    assert q == maxBytes / avgItemSize;
    assert q * avgItemSize <= maxBytes;
    var v := OptimalPageSize(c, maxBytes, avgItemSize).value;
    assert 1 <= v <= q;
    MulMonotone(v, q, avgItemSize);
  }

  lemma {:induction false} MulMonotone(a: int, b: int, k: int)
    requires 0 <= a <= b && k >= 0
    ensures a * k <= b * k
  {
  }

  const OptimizationMessage: string :=
    "Response size exceeds recommended limits. Consider using a smaller page size for better performance."

  /** The inputs on which the metadata can be built: when a page size is
      suggested, the average item size the budget is divided by is not 0
      (the source's integer division would panic). */
  predicate MetadataDefined(itemsInPage: int, c: Config, estimatedSize: int)
  {
    estimatedSize > c.responseSize.tokenLimit && itemsInPage > 0 ==> GoDiv(estimatedSize, itemsInPage) != 0
  }

  /** `CreateAdvancedPaginationMetadata`.  The suggested size is
      `CalculateOptimalPageSize` of the average item size, with `maxBytes`
      the response budget in bytes (a floating-point conversion in the
      source). The generation time is carried through unchanged in the
      source and is not modelled. */
  function CreateAdvancedPaginationMetadata(
    offset: int, limit: int, total: int, itemsInPage: int,
    c: Config, estimatedSize: int, maxBytes: int): (m: Metadata)
    requires MetadataDefined(itemsInPage, c, estimatedSize)
    ensures m.offset == offset && m.limit == limit && m.total == total && m.itemsInPage == itemsInPage
    ensures limit > 0 ==> m.currentPage == GoDiv(offset, limit) + 1 && m.totalPages == GoDiv(total + limit - 1, limit)
    ensures limit <= 0 ==> m.currentPage == 1 && m.totalPages == 1
    ensures m.hasMore <==> offset + limit < total
    ensures m.nextPage.Some? <==> m.hasMore
    ensures m.nextPage.Some? ==> m.nextPage.value == offset + limit
    ensures m.prevPage.Some? <==> offset > 0
    ensures m.prevPage.Some? ==>
      m.prevPage.value >= 0 && m.prevPage.value == (if offset - limit < 0 then 0 else offset - limit)
    ensures m.suggestedPageSize.Some? <==> estimatedSize > c.responseSize.tokenLimit && itemsInPage > 0
    ensures m.suggestedPageSize.Some? ==>
      && Some(m.suggestedPageSize.value) == OptimalPageSize(c, maxBytes, GoDiv(estimatedSize, itemsInPage))
      && m.suggestedPageSize.value >= 1
      && m.optimizationMessage == OptimizationMessage
    ensures m.suggestedPageSize.None? ==> m.optimizationMessage == ""
  {
    var currentPage := if limit > 0 then GoDiv(offset, limit) + 1 else 1;
    var totalPages := if limit > 0 then GoDiv(total + limit - 1, limit) else 1;
    var nextPage := if offset + limit < total then Some(offset + limit) else None;
    var prevPage := if offset > 0 then Some(if offset - limit < 0 then 0 else offset - limit) else None;
    var suggest := estimatedSize > c.responseSize.tokenLimit && itemsInPage > 0;
    Metadata(offset, limit, total, offset + limit < total, nextPage, prevPage, totalPages, currentPage,
             itemsInPage, estimatedSize,
             if suggest then Some(OptimalPageSize(c, maxBytes, GoDiv(estimatedSize, itemsInPage)).value) else None,
             if suggest then OptimizationMessage else "")
  }

  /** For a positive limit and non-negative counts, the current page is the
      one containing the offset, and the page count is the ceiling of
      total / limit. */
  lemma {:induction false} PageNumbers(offset: int, limit: int, total: int, itemsInPage: int,
                    c: Config, estimatedSize: int, maxBytes: int)
    requires limit > 0 && offset >= 0 && total >= 0 && MetadataDefined(itemsInPage, c, estimatedSize)
    ensures var m := CreateAdvancedPaginationMetadata(offset, limit, total, itemsInPage, c, estimatedSize, maxBytes);
      && (m.currentPage - 1) * limit <= offset < m.currentPage * limit
      && total <= m.totalPages * limit
      && (m.totalPages - 1) * limit < total
      && (total == 0 ==> m.totalPages == 0)
  {
    var m := CreateAdvancedPaginationMetadata(offset, limit, total, itemsInPage, c, estimatedSize, maxBytes);
    var q, t := offset / limit, (total + limit - 1) / limit;
    assert m.currentPage - 1 == q && m.totalPages == t;
    DivBounds(offset, limit);
    DivBounds(total + limit - 1, limit);
    MulSucc(q, limit);
    MulSucc(t - 1, limit);
    if total == 0 {
      MulBelow(t, limit);
    }
  }

  lemma {:induction false} MulSucc(k: int, b: int)
    ensures (k + 1) * b == k * b + b
  {
  }

  lemma {:induction false} DivBounds(a: int, b: int)
    requires a >= 0 && b > 0
    ensures (a / b) * b <= a < (a / b) * b + b
  {
    assert a == (a / b) * b + a % b;
  }

  lemma {:induction false} DivShift(a: int, b: int)
    requires a >= 0 && b > 0
    ensures (a + b) / b == a / b + 1
  {
    DivBounds(a, b);
    DivBounds(a + b, b);
    var q, q' := a / b, (a + b) / b;
    assert q' * b <= a + b < q' * b + b;
    assert q * b <= a < q * b + b;
    assert (q' - q - 1) * b < b && (q' - q - 1) * b > -b;
    MulBelow(q' - q - 1, b);
  }

  lemma {:induction false} MulBelow(k: int, b: int)
    requires b > 0 && -b < k * b < b
    ensures k == 0
  {
    MulSign(k, b);
  }

  lemma {:induction false} MulSign(k: int, b: int)
    requires b > 0
    ensures k >= 1 ==> k * b >= b
    ensures k <= -1 ==> k * b <= -b
  {
  }

  /** Moving to the next page and back returns to the same offset when the
      offset is a multiple of the limit. */
  lemma {:induction false} NextThenPrev(offset: int, limit: int, total: int, c: Config, estimatedSize: int, maxBytes: int)
    requires limit > 0 && offset >= 0 && offset + limit < total
    ensures var m := CreateAdvancedPaginationMetadata(offset, limit, total, 0, c, estimatedSize, maxBytes);
      var n := CreateAdvancedPaginationMetadata(m.nextPage.value, limit, total, 0, c, estimatedSize, maxBytes);
      n.prevPage == Some(offset) && n.currentPage == m.currentPage + 1
  {
    DivShift(offset, limit);
  }

  datatype Strategy = OffsetBased | CursorBased | TokenBased | Unset | Other(name: string)

  datatype PaginationRequest = PaginationRequest(
    strategy: Strategy,
    offset: Option<int>,
    limit: Option<int>,
    cursor: Option<string>,
    maxTokens: Option<int>)

  /** `NormalizePaginationRequest`: a copy with the strategy defaulted to
      offset-based, the offset clamped to a present, non-negative value and
      the limit defaulted or validated; cursor and token budget untouched. */
  function NormalizePaginationRequest(c: Config, req: PaginationRequest): (n: PaginationRequest)
    ensures n.strategy == if req.strategy == Unset then OffsetBased else req.strategy
    ensures n.offset.Some? && n.offset.value >= 0
    ensures req.offset.Some? && req.offset.value >= 0 ==> n.offset == req.offset
    ensures req.offset.None? || req.offset.value < 0 ==> n.offset == Some(0)
    ensures n.limit.Some?
    ensures req.limit.None? ==> n.limit.value == c.defaultPageSize
    ensures req.limit.Some? ==> n.limit.value == ValidatePageSize(c, req.limit.value)
    ensures n.cursor == req.cursor && n.maxTokens == req.maxTokens
  {
    req.(
      strategy := if req.strategy == Unset then OffsetBased else req.strategy,
      offset := if req.offset.None? || req.offset.value < 0 then Some(0) else req.offset,
      limit := if req.limit.None? then Some(c.defaultPageSize) else Some(ValidatePageSize(c, req.limit.value)))
  }

  /** Normalising a normalised request changes nothing, under a sane
      configuration. */
  lemma {:induction false} NormalizeIdempotent(c: Config, req: PaginationRequest)
    requires Sane(c)
    ensures NormalizePaginationRequest(c, NormalizePaginationRequest(c, req)) == NormalizePaginationRequest(c, req)
  {
    ValidatePageSizeRange(c, if req.limit.Some? then req.limit.value else 0);
  }
}
