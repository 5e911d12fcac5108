/** Paged listing: normalisation, the LIMIT/OFFSET window, the metadata, and the integer widths at the boundary.
    Rows come in one fixed total order, `listing`. */
module Pagination {
  import opened Options
  import opened Errors
  import opened Domain

  const DEFAULT_PAGE: int := 1
  const DEFAULT_PAGE_SIZE: int := 10
  const MAX_PAGE_SIZE: int := 100
  const MAX_INT32: int := 0x7FFF_FFFF
  const MAX_INT64: int := 0x7FFF_FFFF_FFFF_FFFF

  datatype PaginationMeta = PaginationMeta(page: int, pageSize: int, totalItems: int, totalPages: int)

  function NormalizePage(page: int): (r: int)
    ensures if page >= 1 then r == page else r == 1
  {
    if page < 1 then DEFAULT_PAGE else page
  }

  function NormalizePageSize(pageSize: int): (r: int)
    ensures 1 <= r <= 100 && (1 <= pageSize <= 100 ==> r == pageSize)
    ensures (pageSize > 100 ==> r == 100) && (pageSize < 1 ==> r == 10)
  {
    if pageSize <= 0 then DEFAULT_PAGE_SIZE else if pageSize > MAX_PAGE_SIZE then MAX_PAGE_SIZE else pageSize
  }

  /** NewPaginationMeta's count of pages; both operands are non-negative, so Go's division is Dafny's. */
  method CountPages(pageSize: int, totalItems: nat) returns (totalPages: int)
    requires pageSize >= 1
    ensures totalPages >= 0 && (totalPages - 1) * pageSize < totalItems <= totalPages * pageSize
    ensures totalPages == TotalPages(pageSize, totalItems)
  {
    totalPages := totalItems / pageSize;
    if totalItems % pageSize != 0 {
      totalPages := totalPages + 1;
    }
    CeilingIsExact(pageSize, totalItems);
  }

  function TotalPages(pageSize: int, totalItems: nat): (r: int)
    requires pageSize >= 1
  {
    totalItems / pageSize + if totalItems % pageSize != 0 then 1 else 0
  }

  lemma CeilingIsExact(pageSize: int, totalItems: nat)
    requires pageSize >= 1
    ensures var n := TotalPages(pageSize, totalItems); n >= 0 && (n - 1) * pageSize < totalItems <= n * pageSize
  {
    var q, r := totalItems / pageSize, totalItems % pageSize;
    assert totalItems == q * pageSize + r;
    assert (q + 1) * pageSize == q * pageSize + pageSize;
    assert (q - 1) * pageSize == q * pageSize - pageSize;
  }

  /** The ceiling is the only page count that fits. */
  lemma {:induction false} CeilingIsUnique(pageSize: int, totalItems: nat, n: int)
    requires pageSize >= 1 && (n - 1) * pageSize < totalItems <= n * pageSize
    ensures n == TotalPages(pageSize, totalItems)
  {
    CeilingIsExact(pageSize, totalItems);
  }

  function NewPaginationMeta(page: int, pageSize: int, totalItems: nat): PaginationMeta {
    var size := NormalizePageSize(pageSize);
    PaginationMeta(NormalizePage(page), size, totalItems, TotalPages(size, totalItems))
  }

  /** ORDER BY ... LIMIT size OFFSET offset. */
  function Window(listing: seq<User>, offset: int, size: int): seq<User>
    requires offset >= 0 && size >= 0
  {
    var n := |listing|;
    var from := if offset < n then offset else n;
    var to := if offset + size < n then offset + size else n;
    listing[from..to]
  }

  function Page(listing: seq<User>, page: int, size: int): seq<User>
    requires page >= 1 && size >= 1
  {
    OffsetIsNatural(page, size);
    Window(listing, (page - 1) * size, size)
  }

  lemma OffsetIsNatural(page: int, size: int)
    requires page >= 1 && size >= 1
    ensures (page - 1) * size >= 0
  {
  }

  /** domain.PaginationRequest, normalised in place. */
  class PaginationRequest {
    var page: int
    var pageSize: int

    constructor (page: int, pageSize: int)
      ensures this.page == page && this.pageSize == pageSize
    {
      this.page, this.pageSize := page, pageSize;
    }
  }

  method Validate(r: PaginationRequest?) returns (err: Option<Error>)
    modifies r
    ensures r == null <==> err.Some?
    ensures r == null ==> CodeOf(err) == Some(Validation)
    ensures r != null ==> r.page == NormalizePage(old(r.page)) && r.pageSize == NormalizePageSize(old(r.pageSize))
  {
    if r == null {
      return Some(NewValidationError("pagination request is nil"));
    }
    r.page := NormalizePage(r.page);
    r.pageSize := NormalizePageSize(r.pageSize);
    return None;
  }

  /** How the two statements go: both answered, or the count, the select or a row scan failing. */
  datatype Queries = Answered | CountFails | SelectFails

  /** The count, then the row loop over the select's result. */
  method GetAllUsersPaginated(listing: seq<User>, page: int, pageSize: int, queries: Queries)
    returns (err: Option<Error>, users: seq<User>, total: nat)
    requires page >= 1 && pageSize >= 1
    ensures err.None? <==> queries.Answered?
    ensures err.None? ==> users == Page(listing, page, pageSize) && total == |listing|
    ensures err.Some? ==> users == [] && total == 0 && CodeOf(err) == Some(DataAccess)
  {
    if queries.CountFails? {
      return Some(NewDataAccessError("failed to count users", None)), [], 0;
    }
    if queries.SelectFails? {
      return Some(NewDataAccessError("failed to query users", None)), [], 0;
    }
    err, total := None, |listing|;
    OffsetIsNatural(page, pageSize);
    var rows := Window(listing, (page - 1) * pageSize, pageSize);
    users := [];
    for i := 0 to |rows|
      invariant users == rows[..i]
    {
      users := users + [rows[i]];
    }
    assert rows[..|rows|] == rows;
  }

  datatype PaginatedUsers = PaginatedUsers(items: seq<User>, pagination: PaginationMeta)

  /** The use case: normalise the request in place, query, describe. The metadata names the page that was queried. */
  method GetAllPaginated(r: PaginationRequest?, listing: seq<User>, queries: Queries)
    returns (err: Option<Error>, result: Option<PaginatedUsers>)
    modifies r
    ensures err.None? <==> r != null && queries.Answered?
    ensures result.Some? <==> err.None?
    ensures err.Some? ==> CodeOf(err) == Some(if r == null then Validation else DataAccess)
    ensures r != null ==> r.page == NormalizePage(old(r.page)) && r.pageSize == NormalizePageSize(old(r.pageSize))
    ensures result.Some? ==> var meta := result.value.pagination;
              && meta == NewPaginationMeta(old(r.page), old(r.pageSize), |listing|)
              && meta.page == r.page && meta.pageSize == r.pageSize && meta.totalItems == |listing|
              && (meta.totalPages - 1) * meta.pageSize < |listing| <= meta.totalPages * meta.pageSize
              && result.value.items == Page(listing, meta.page, meta.pageSize)
    ensures result.Some? && old(r.page) < 1 && old(r.pageSize) < 1 ==>
              result.value.items == (if |listing| < 10 then listing else listing[..10])
  {
    err := Validate(r);
    if err.Some? {
      return err, None;
    }
    var users, total;
    err, users, total := GetAllUsersPaginated(listing, r.page, r.pageSize, queries);
    if err.Some? {
      return err, None;
    }
    CeilingIsExact(r.pageSize, total);
    return None, Some(PaginatedUsers(users, NewPaginationMeta(r.page, r.pageSize, total)));
  }

  /** Pages 1..n one after the other. */
  function Joined(listing: seq<User>, n: nat, size: int): seq<User>
    requires size >= 1
  {
    if n == 0 then [] else Joined(listing, n - 1, size) + Page(listing, n, size)
  }

  lemma {:induction false} JoinedIsPrefix(listing: seq<User>, n: nat, size: int)
    requires size >= 1
    ensures n * size >= 0
    ensures Joined(listing, n, size) == Window(listing, 0, n * size)
  {
    if n > 0 {
      JoinedIsPrefix(listing, n - 1, size);
      assert n * size == (n - 1) * size + size;
    }
  }

  /** Pages partition the table: in order, nothing twice, nothing missing. */
  lemma {:induction false} PagesPartition(listing: seq<User>, requestedSize: int)
    ensures var size := NormalizePageSize(requestedSize);
            Joined(listing, TotalPages(size, |listing|), size) == listing
  {
    var size := NormalizePageSize(requestedSize);
    CeilingIsExact(size, |listing|);
    JoinedIsPrefix(listing, TotalPages(size, |listing|), size);
  }

  /** Every page but the last is full, the last is not empty, later ones are. */
  lemma {:induction false} PageSizes(listing: seq<User>, requestedSize: int, page: int)
    requires page >= 1
    ensures var size := NormalizePageSize(requestedSize); var last := TotalPages(size, |listing|);
            && (page < last ==> |Page(listing, page, size)| == size)
            && (page == last ==> 0 < |Page(listing, page, size)| <= size)
            && (page > last ==> Page(listing, page, size) == [])
  {
    var size := NormalizePageSize(requestedSize);
    var last := TotalPages(size, |listing|);
    CeilingIsExact(size, |listing|);
    OffsetIsNatural(page, size);
    assert page * size == (page - 1) * size + size;
    if page < last {
      ProductIsMonotone(page, last - 1, size);
    } else if page > last {
      ProductIsMonotone(last, page - 1, size);
    }
  }

  /** For every int32 request the offset is far inside 64 bits; the bound is attained by the largest request. */
  lemma {:induction false} OffsetFits(page: int, pageSize: int)
    requires -MAX_INT32 - 1 <= page <= MAX_INT32 && -MAX_INT32 - 1 <= pageSize <= MAX_INT32
    ensures var offset := (NormalizePage(page) - 1) * NormalizePageSize(pageSize);
            && 0 <= offset <= (MAX_INT32 - 1) * MAX_PAGE_SIZE < MAX_INT64
            && (page == MAX_INT32 && pageSize >= MAX_PAGE_SIZE ==> offset == (MAX_INT32 - 1) * MAX_PAGE_SIZE)
  {
    var p, s := NormalizePage(page) - 1, NormalizePageSize(pageSize);
    ProductIsMonotone(s, MAX_PAGE_SIZE, p);
    OffsetIsNatural(p + 1, s);
  }

  /** Go's int32(x). */
  function ToInt32(x: int): int {
    (x + MAX_INT32 + 1) % (2 * (MAX_INT32 + 1)) - MAX_INT32 - 1
  }

  lemma Int32RoundTrip(x: int)
    ensures ToInt32(x) == x <==> -MAX_INT32 - 1 <= x <= MAX_INT32
  {
  }

  lemma ProductIsMonotone(a: int, b: int, k: nat)
    requires a <= b
    ensures a * k <= b * k
  {
  }

  /** The page count survives its conversion to int32 exactly while the table is small enough. */
  lemma {:induction false} TotalPagesFitsExactly(pageSize: int, totalItems: nat)
    requires 1 <= pageSize <= MAX_PAGE_SIZE
    ensures ToInt32(TotalPages(pageSize, totalItems)) == TotalPages(pageSize, totalItems) <==>
        totalItems <= MAX_INT32 * pageSize
  {
    var n := TotalPages(pageSize, totalItems);
    CeilingIsExact(pageSize, totalItems);
    Int32RoundTrip(n);
    if n <= MAX_INT32 {
      ProductIsMonotone(n, MAX_INT32, pageSize);
    } else {
      ProductIsMonotone(MAX_INT32, n - 1, pageSize);
    }
  }
}
