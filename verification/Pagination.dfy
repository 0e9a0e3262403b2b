/** paginate, paginateArray and getPaginationParams. */
module Pagination {
  import opened Common

  datatype Meta = Meta(page: int, limit: int, total: nat, totalPages: int, hasNext: bool, hasPrev: bool)

  function TotalPages(total: nat, limit: int): int {
    if limit > 0 then CeilDiv(total, limit) else 0
  }

  function PaginateMeta(total: nat, page: int, limit: int): Meta {
    var totalPages := TotalPages(total, limit);
    Meta(page, limit, total, totalPages, page < totalPages, page > 1)
  }

  /** skip(n).take(limit) on the ordered rows of a query. */
  function SkipTake<T>(rows: seq<T>, skip: nat, take: nat): seq<T> {
    if skip >= |rows| then []
    else if skip + take >= |rows| then rows[skip..]
    else rows[skip..skip + take]
  }

  function Page<T>(rows: seq<T>, page: int, limit: int): seq<T>
    requires page >= 1 && limit >= 1
  {
    SkipTake(rows, ((page - 1) * limit) as nat, limit)
  }

  /** Pages 1..k one after the other. */
  function Pages<T>(rows: seq<T>, k: nat, limit: int): seq<T>
    requires limit >= 1
  {
    if k == 0 then [] else Pages(rows, k - 1, limit) + Page(rows, k, limit)
  }

  lemma {:induction false} CeilDivIs(total: nat, limit: int, k: int)
    requires limit >= 1
    ensures CeilDiv(total, limit) <= k <==> total <= k * limit
  {
    var q: int := (-(total as int)) / limit;
    assert q * limit <= -(total as int) < q * limit + limit;
    if -q <= k {
      assert -q * limit <= k * limit;
    } else {
      assert k + 1 <= -q;
      assert (k + 1) * limit <= -q * limit;
    }
  }

  lemma {:induction false} FirstPages<T>(rows: seq<T>, k: nat, limit: int)
    requires limit >= 1
    ensures Pages(rows, k, limit) == if k * limit >= |rows| then rows else rows[..k * limit]
  {
    if k > 0 {
      FirstPages(rows, k - 1, limit);
      assert k * limit == (k - 1) * limit + limit;
      assert (k - 1) * limit >= 0;
    }
  }

  /** Pages 1..totalPages tile the result: every row exactly once, in order. */
  lemma {:induction false} PagesTile<T>(rows: seq<T>, limit: int)
    requires limit >= 1
    ensures TotalPages(|rows|, limit) >= 0
    ensures Pages(rows, TotalPages(|rows|, limit), limit) == rows
  {
    CeilDivIs(|rows|, limit, -1);
    CeilDivIs(|rows|, limit, TotalPages(|rows|, limit));
    FirstPages(rows, TotalPages(|rows|, limit), limit);
  }

  /** A page is empty exactly beyond totalPages; hasNext holds exactly when rows remain after the page. */
  lemma {:induction false} PageBounds<T>(rows: seq<T>, page: int, limit: int)
    requires page >= 1 && limit >= 1
    ensures Page(rows, page, limit) == [] <==> page > TotalPages(|rows|, limit)
    ensures PaginateMeta(|rows|, page, limit).hasNext <==> Pages(rows, page, limit) != rows
    ensures PaginateMeta(|rows|, page, limit).hasPrev <==> page != 1
    ensures |Page(rows, page, limit)| <= limit
  {
    CeilDivIs(|rows|, limit, page - 1);
    CeilDivIs(|rows|, limit, page);
    FirstPages(rows, page, limit);
    assert page * limit == (page - 1) * limit + limit;
    assert (page - 1) * limit >= 0;
  }

  // ----- query parameters -----

  /** What Number(x) can give. */
  datatype Num = NaN | NegInfinity | Finite(value: real) | PosInfinity

  predicate Truthy(n: Num) {
    !n.NaN? && n != Finite(0.0)
  }

  /** Math.max(1, n) */
  function AtLeastOne(n: Num): Num
    requires !n.NaN?
  {
    if n.NegInfinity? || (n.Finite? && n.value < 1.0) then Finite(1.0) else n
  }

  /** Math.min(100, n) */
  function AtMostHundred(n: Num): Num
    requires !n.NaN?
  {
    if n.PosInfinity? || (n.Finite? && n.value > 100.0) then Finite(100.0) else n
  }

  /** Number(query.page) and Number(query.limit) are the inputs (a missing parameter gives NaN). */
  function PageParam(page: Num): Num {
    AtLeastOne(if Truthy(page) then page else Finite(1.0))
  }

  function LimitParam(limit: Num): Num {
    AtMostHundred(AtLeastOne(if Truthy(limit) then limit else Finite(10.0)))
  }

  predicate IsWhole(n: Num) {
    n.Finite? && n.value.Floor as real == n.value
  }

  /** The limit used is a number in 1..100 and the page a number from 1 up, or infinite if the query says so. */
  lemma ParamsInRange(page: Num, limit: Num)
    ensures LimitParam(limit).Finite? && 1.0 <= LimitParam(limit).value <= 100.0
    ensures if page.PosInfinity? then PageParam(page).PosInfinity?
            else PageParam(page).Finite? && PageParam(page).value >= 1.0
  {
  }

  predicate Between(n: Num, lo: real, hi: real) {
    n.Finite? && lo < n.value < hi
  }

  /**
    The tiling above is about whole pages and limits. The parameters are whole exactly when the query does not
    ask for a fraction inside the accepted range (or for an infinite page): fractions are not rejected or rounded.
   */
  lemma {:induction false} ParamsWholeIff(page: Num, limit: Num)
    ensures IsWhole(PageParam(page)) <==>
              !page.PosInfinity? && (page.Finite? && page.value > 1.0 ==> IsWhole(page))
    ensures IsWhole(LimitParam(limit)) <==> (Between(limit, 1.0, 100.0) ==> IsWhole(limit))
  {
    assert IsWhole(Finite(1.0)) && IsWhole(Finite(10.0)) && IsWhole(Finite(100.0));
  }

  // ----- what the parameters become -----

  /** Missing, unreadable and zero parameters give page 1 and limit 10; others are cut to their range. */
  lemma ParamsMean(x: Num)
    ensures PageParam(x) == (match x
                             case NaN => Finite(1.0)
                             case NegInfinity => Finite(1.0)
                             case PosInfinity => PosInfinity
                             case Finite(v) => if v <= 1.0 then Finite(1.0) else Finite(v))
    ensures LimitParam(x) == (match x
                              case NaN => Finite(10.0)
                              case NegInfinity => Finite(1.0)
                              case PosInfinity => Finite(100.0)
                              case Finite(v) =>
                                if v == 0.0 then Finite(10.0)
                                else if v <= 1.0 then Finite(1.0)
                                else if v <= 100.0 then Finite(v) else Finite(100.0))
  {
  }

  /** totalPages is the least number of pages that holds all rows, and 0 for a limit that is not positive. */
  lemma {:induction false} MetaMeans(total: nat, page: int, limit: int, k: int)
    ensures var meta := PaginateMeta(total, page, limit);
            && meta.total == total && meta.page == page && meta.limit == limit
            && (limit <= 0 ==> meta.totalPages == 0)
            && (limit > 0 ==> (meta.totalPages <= k <==> total <= k * limit))
            && (limit > 0 ==> (meta.hasNext <==> page * limit < total))
            && (meta.hasPrev <==> 1 < page)
  {
    if limit > 0 {
      CeilDivIs(total, limit, k);
      CeilDivIs(total, limit, page);
    }
  }
}
