/** The reusable GORM scopes of `model/scopes.go`: tenant isolation and
    page/page-size clamping, plus the 64-bit integer arithmetic they run on. */
module Scopes {
  import opened Seqs

  // ---------------------------------------------------------------------
  // Go `int` (64-bit two's complement)
  // ---------------------------------------------------------------------

  const MaxInt64: int := 0x7FFF_FFFF_FFFF_FFFF
  const MinInt64: int := -0x8000_0000_0000_0000
  const TwoTo64: int := 0x1_0000_0000_0000_0000

  predicate IsInt64(x: int) { MinInt64 <= x <= MaxInt64 }

  /** The value a Go `int` holds after an arithmetic result `x` wraps. */
  function WrapInt64(x: int): (r: int)
    ensures IsInt64(r)
    ensures (r - x) % TwoTo64 == 0
    ensures IsInt64(x) ==> r == x
  {
    var m := (x - MinInt64) % TwoTo64;
    m + MinInt64
  }

  /** Go's integer division, which truncates toward zero (Dafny's `/` is
      Euclidean). */
  function GoDiv(a: int, b: int): (q: int)
    requires b != 0
    ensures a >= 0 && b > 0 ==> q == a / b
    ensures a >= 0 && b < 0 ==> q == -(a / -b)
  {
    if (a >= 0) == (b > 0) then Abs(a) / Abs(b) else -(Abs(a) / Abs(b))
  }

  function Abs(x: int): nat { if x < 0 then -x else x }

  /** `ceil(total / size)` for a positive size. */
  function CeilDiv(total: nat, size: nat): (q: nat)
    requires size > 0
    ensures q * size >= total
    ensures q > 0 ==> (q - 1) * size < total
  {
    (total + size - 1) / size
  }

  // ---------------------------------------------------------------------
  // TenantScope
  // ---------------------------------------------------------------------

  /** `WHERE tenant_id = ?`: the rows of one tenant, in storage order. */
  function TenantScope<R(!new)>(rows: seq<R>, tenantOf: R -> nat, tenant: nat): (r: seq<R>)
    ensures forall x :: x in r <==> x in rows && tenantOf(x) == tenant
    ensures |r| <= |rows|
  {
    Filter(rows, x => tenantOf(x) == tenant)
  }

  // ---------------------------------------------------------------------
  // Paginate
  // ---------------------------------------------------------------------

  /** The `OFFSET`/`LIMIT` pair a scope adds to a query. */
  datatype Page = Page(offset: int, limit: int)

  const DefaultPageSize: int := 10
  const MaxPageSize: int := 100

  function ClampPage(page: int): (p: int)
    ensures p >= 1
    ensures page >= 1 ==> p == page
    ensures page <= 0 ==> p == 1
  {
    if page <= 0 then 1 else page
  }

  function ClampPageSize(pageSize: int): (s: int)
    ensures 1 <= s <= MaxPageSize
    ensures 1 <= pageSize <= MaxPageSize ==> s == pageSize
    ensures pageSize <= 0 ==> s == DefaultPageSize
    ensures pageSize > MaxPageSize ==> s == MaxPageSize
  {
    if pageSize <= 0 then DefaultPageSize
    else if pageSize > MaxPageSize then MaxPageSize
    else pageSize
  }

  /** `Paginate(page, pageSize)` with the offset computed exactly.  The Go
      code computes it in a 64-bit `int`; see `PaginateAsWritten`. */
  function Paginate(page: int, pageSize: int): (p: Page)
    ensures 1 <= p.limit <= MaxPageSize
    ensures p.offset >= 0 && p.offset % p.limit == 0
    ensures p.offset / p.limit + 1 == ClampPage(page)
    ensures p.limit == ClampPageSize(pageSize)
  {
    var size := ClampPageSize(pageSize);
    MulDivCancel(ClampPage(page) - 1, size);
    Page((ClampPage(page) - 1) * size, size)
  }

  lemma MulMonotone(a: int, b: int, c: nat)
    requires a <= b
    ensures a * c <= b * c
  {
    assert b * c - a * c == (b - a) * c;
  }

  /** A quotient is below any bound whose multiple exceeds the dividend. */
  lemma DivBelow(x: nat, p: int, k: int)
    requires p > 0 && x < k * p
    ensures x / p < k
  {
    var q := x / p;
    assert q * p <= x;
    assert (k - q) * p == k * p - q * p;
    assert (k - q) * p > 0;
  }

  lemma {:induction false} MulDivCancel(k: nat, s: int)
    requires s > 0
    ensures k * s >= 0 && (k * s) / s == k && (k * s) % s == 0
  {
    if k > 0 {
      MulDivCancel(k - 1, s);
      assert k * s == (k - 1) * s + s;
    }
  }

  /** The page number a normalized `Page` stands for. */
  function PageNumber(p: Page): int
    requires p.limit > 0
  {
    p.offset / p.limit + 1
  }

  /** Already-valid arguments pass through unchanged, so clamping a second
      time changes nothing. */
  lemma PaginateIdempotent(page: int, pageSize: int)
    ensures var p := Paginate(page, pageSize);
            Paginate(PageNumber(p), p.limit) == p
    ensures page >= 1 && 1 <= pageSize <= MaxPageSize ==>
              Paginate(page, pageSize) == Page((page - 1) * pageSize, pageSize)
  {
  }

  /** The rows a paginated query returns. */
  function ApplyPage<R>(rows: seq<R>, p: Page): (r: seq<R>)
  {
    Window(rows, p.offset, p.limit)
  }

  /** Pages tile the result set: row `i` is row `i % size` of page
      `i / size + 1`, for every valid size. */
  lemma {:induction false} PagesTile<R>(rows: seq<R>, pageSize: int, i: nat)
    requires 1 <= pageSize <= MaxPageSize
    requires i < |rows|
    ensures var page := ApplyPage(rows, Paginate(i / pageSize + 1, pageSize));
            i % pageSize < |page| && page[i % pageSize] == rows[i]
  {
    var q := i / pageSize;
    var k := i % pageSize;
    assert i == q * pageSize + k;
    var p := Paginate(q + 1, pageSize);
    assert p == Page(q * pageSize, pageSize);
    var dropped := rows[q * pageSize..];
    assert k < |dropped|;
    assert ApplyPage(rows, p) == if pageSize >= |dropped| then dropped else dropped[..pageSize];
  }

  /** What `Paginate` does on Go's 64-bit `int`: the product wraps.  Inputs
      are the 64-bit values `strconv.Atoi` can produce. */
  function PaginateAsWritten(page: int, pageSize: int): (p: Page)
    requires IsInt64(page) && IsInt64(pageSize)
    ensures p.limit == ClampPageSize(pageSize)
    ensures IsInt64(p.offset)
  {
    var size := ClampPageSize(pageSize);
    Page(WrapInt64((ClampPage(page) - 1) * size), size)
  }

  /** The 64-bit computation agrees with the exact one exactly when the
      product fits. */
  lemma AsWrittenAgreesWhenNoOverflow(page: int, pageSize: int)
    requires IsInt64(page) && IsInt64(pageSize)
    ensures PaginateAsWritten(page, pageSize) == Paginate(page, pageSize)
            <==> Paginate(page, pageSize).offset <= MaxInt64
  {
  }

  /** A huge page number makes the wrapped offset negative; GORM then adds
      no `OFFSET` clause, so the request is answered with the first page. */
  lemma PaginateOverflowServesFirstPage<R>(rows: seq<R>)
    ensures var p := PaginateAsWritten(92233720368547760, 100);
            p.offset < 0 && ApplyPage(rows, p) == ApplyPage(rows, Paginate(1, 100))
    ensures Paginate(92233720368547760, 100).offset > 0
  {
    assert (92233720368547760 - 1) * 100 == 9223372036854775900;
    assert WrapInt64(9223372036854775900) == 9223372036854775900 - TwoTo64;
  }
}
