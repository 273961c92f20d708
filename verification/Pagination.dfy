/** Page requests, the windows they select, and the loop that copies a result list page by page. */
module Pagination {
  import opened Division
  import opened Windows

  /** A valid request: both numbers are at least one. */
  datatype PageRequest = PageRequest(page: nat, pageSize: nat) {
    predicate Valid() {
      page >= 1 && pageSize >= 1
    }
  }

  datatype Where = Where(offset: nat, limit: nat)

  datatype PageResponse<T> = PageResponse(data: seq<T>, page: nat, pageSize: nat, pageTotal: nat, total: nat)

  function PaginationWhere(p: PageRequest): Where
    requires p.Valid()
  {
    Where(Offset(p.page - 1, p.pageSize), p.pageSize)
  }

  /** A query's rows and their number, then the response made of them. */
  function FindAndCountAll<T>(rows: seq<T>, w: Where): (seq<T>, nat) {
    (Window(rows, w.offset, w.limit), |rows|)
  }

  function PaginationToDomain<T>(p: PageRequest, total: nat, data: seq<T>): PageResponse<T>
    requires p.Valid()
  {
    PageResponse(data, p.page, p.pageSize, if total == 0 then 0 else CeilDiv(total, p.pageSize), total)
  }

  function Fetch<T>(rows: seq<T>, p: PageRequest): PageResponse<T>
    requires p.Valid()
  {
    var found := FindAndCountAll(rows, PaginationWhere(p));
    PaginationToDomain(p, found.1, found.0)
  }

  /** The data of pages 1 to k. */
  function Pages<T>(rows: seq<T>, pageSize: nat, k: nat): (r: seq<seq<T>>)
    requires pageSize >= 1
    ensures |r| == k
  {
    if k == 0 then [] else Pages(rows, pageSize, k - 1) + [Fetch(rows, PageRequest(k, pageSize)).data]
  }

  lemma FetchIsWindow<T>(rows: seq<T>, pageSize: nat, k: nat)
    requires pageSize >= 1 && k >= 1
    ensures Fetch(rows, PageRequest(k, pageSize)).data == Window(rows, Offset(k - 1, pageSize), pageSize)
  {
    hide Offset, Window, CeilDiv;
  }

  lemma {:induction false} PagesAreWindows<T>(rows: seq<T>, pageSize: nat, k: nat)
    requires pageSize >= 1
    ensures Pages(rows, pageSize, k) == FirstWindows(rows, pageSize, k)
  {
    if k > 0 {
      FetchIsWindow(rows, pageSize, k);
      hide Fetch, Window, Offset, CeilDiv;
      PagesAreWindows(rows, pageSize, k - 1);
    }
  }

  /** Pages 1 to pageTotal partition the rows in order. */
  lemma {:induction false} ReadingAllPages<T>(rows: seq<T>, p: PageRequest)
    requires p.Valid()
    ensures Concat(Pages(rows, p.pageSize, Fetch(rows, p).pageTotal)) == rows
  {
    PagesAreWindows(rows, p.pageSize, Fetch(rows, p).pageTotal);
    PagesPartition(rows, p.pageSize);
    if rows == [] { DivUnique(p.pageSize - 1, p.pageSize, 0, p.pageSize - 1); }
  }

  /** Exactly pages 1 to pageTotal hold something, at most a page of it, and only the last may be short. */
  lemma {:induction false} PageHoldsSomething<T>(rows: seq<T>, p: PageRequest)
    requires p.Valid()
    ensures var r := Fetch(rows, p);
            && r.page == p.page && r.pageSize == p.pageSize && r.total == |rows|
            && (r.data != [] <==> p.page <= r.pageTotal)
            && |r.data| <= p.pageSize
            && (p.page < r.pageTotal ==> |r.data| == p.pageSize)
  {
    WindowIsEmpty(rows, p.pageSize, p.page - 1);
    if rows == [] { DivUnique(p.pageSize - 1, p.pageSize, 0, p.pageSize - 1); }
  }

  /** The table of crypto reports a script fills from several queries. */
  class CryptoReports<T> {
    var rows: seq<T>

    constructor ()
      ensures rows == []
    {
      rows := [];
    }

    method Insert(reports: seq<T>)
      modifies this
      ensures rows == old(rows) + reports
    {
      rows := rows + reports;
    }

    /**
     * Copies a fixed result list, page after page, until a page is empty. Every row is inserted once, in order; with a
     * page size of zero, none.
     */
    method Fill(result: seq<T>, take: nat) returns (fetches: nat)
      modifies this
      ensures rows == if take == 0 then old(rows) else old(rows) + result
      ensures fetches == if take == 0 then 1 else CeilDiv(|result|, take) + 1
    {
      hide Offset, CeilDiv;
      var goOn, page := true, 0;
      assert old(rows) + result[..0] == old(rows);
      OffsetOfFirst(take);
      while goOn
        invariant rows == old(rows) + result[..Min(Offset(page, take), |result|)]
        invariant take == 0 ==> page == (if goOn then 0 else 1) && rows == old(rows)
        invariant take > 0 ==> if goOn then page <= CeilDiv(|result|, take) else page == CeilDiv(|result|, take) + 1
        decreases if goOn then 1 else 0, if take > 0 then CeilDiv(|result|, take) - page else 0
      {
        var reports := Window(result, Offset(page, take), take);
        NextWindow(result, take, page);
        if take > 0 { WindowIsEmpty(result, take, page); }
        if |reports| > 0 {
          Insert(reports);
        } else {
          goOn := false;
        }
        page := page + 1;
      }
      if take > 0 {
        WindowIsEmpty(result, take, page);
        assert result[..|result|] == result;
      }
      fetches := page;
    }
  }

  lemma OffsetOfFirst(size: nat)
    ensures Offset(0, size) == 0
  {
  }
}
