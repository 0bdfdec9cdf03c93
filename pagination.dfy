/** `Paginator` of utils/pagination.py: page clamping, page counts and slicing. */
module Pagination {
  import opened Wrappers
  import opened PyOps

  datatype PageInfo = PageInfo(page: int, pageSize: int, total: nat, totalPages: int, hasPrev: bool, hasNext: bool)

  datatype Page<T> = Page(items: seq<T>, info: PageInfo)

  /**
   * The arithmetic both `paginate` and `paginate_dataframe` perform once the page
   * and page size are fixed: Python slicing of the window `[(page-1)*size, page*size)`.
   */
  function Window<T>(data: seq<T>, page: int, pageSize: int): (r: Page<T>)
    requires pageSize != 0
    ensures r.info.total == |data| && r.info.page == page && r.info.pageSize == pageSize
    ensures r.info.hasPrev <==> page > 1
    ensures r.info.hasNext <==> page < r.info.totalPages
  {
    var total := |data|;
    var totalPages := CeilDiv(total, pageSize);
    var start := (page - 1) * pageSize;
    Page(PySlice(data, start, start + pageSize), PageInfo(page, pageSize, total, totalPages, page > 1, page < totalPages))
  }

  /**
   * For a positive page and page size: the page count is the ceiling of
   * `total / page_size`, the items are the contiguous window of the input,
   * at most `page_size` of them, and a page past the last one is empty.
   */
  lemma WindowSlice<T>(data: seq<T>, page: int, pageSize: int)
    requires page >= 1 && pageSize >= 1
    ensures Window(data, page, pageSize).info.totalPages == (|data| + pageSize - 1) / pageSize
    ensures Window(data, page, pageSize).items
            == data[Min((page - 1) * pageSize, |data|)..Min(page * pageSize, |data|)]
    ensures |Window(data, page, pageSize).items| <= pageSize
    ensures page > Window(data, page, pageSize).info.totalPages ==> Window(data, page, pageSize).items == []
  {
    var n := CeilDiv(|data|, pageSize);
    CeilDivPositive(|data|, pageSize);
    var start := (page - 1) * pageSize;
    WindowStart(page, pageSize);
    PySliceNonNegative(data, start, start + pageSize);
    if page > n {
      assert page - 1 >= n;
      assert start >= n * pageSize by { MulMonotone(n, page - 1, pageSize); }
    }
  }

  /** Item `i` of a page is element `(page-1)*size + i` of the input. */
  lemma WindowItem<T>(data: seq<T>, page: int, pageSize: int, i: int)
    requires page >= 1 && pageSize >= 1
    requires 0 <= i < |Window(data, page, pageSize).items|
    ensures 0 <= (page - 1) * pageSize + i < |data|
    ensures Window(data, page, pageSize).items[i] == data[(page - 1) * pageSize + i]
  {
    WindowSlice(data, page, pageSize);
    WindowStart(page, pageSize);
  }

  /** The window of page `page` starts at a non-negative offset and is `pageSize` long. */
  lemma WindowStart(page: int, pageSize: int)
    requires page >= 1 && pageSize >= 1
    ensures (page - 1) * pageSize >= 0
    ensures page * pageSize == (page - 1) * pageSize + pageSize
  {
    MulMonotone(0, page - 1, pageSize);
  }

  lemma MulMonotone(x: int, y: int, k: int)
    requires x <= y && k >= 0
    ensures x * k <= y * k
  {
  }

  /**
   * `Paginator.paginate`: the page is raised to at least 1 and the page size is
   * clamped into `[1, maxPageSize]` before slicing.
   */
  function Paginate<T>(data: seq<T>, page: int, pageSize: int, maxPageSize: int): (r: Page<T>)
    requires maxPageSize >= 1
    ensures r.info.page == Max(1, page)
    ensures 1 <= r.info.pageSize <= maxPageSize
    ensures pageSize >= 1 && pageSize <= maxPageSize ==> r.info.pageSize == pageSize
    ensures |r.items| <= r.info.pageSize
  {
    var p, n := Max(1, page), Min(Max(1, pageSize), maxPageSize);
    WindowSlice(data, p, n);
    Window(data, Max(1, page), Min(Max(1, pageSize), maxPageSize))
  }

  /**
   * `Paginator.paginate_dataframe`: the same arithmetic without any clamping; a
   * page size of 0 is the ZeroDivisionError of `total / page_size`.
   */
  function PaginateFrame<T>(data: seq<T>, page: int, pageSize: int): (r: Result<Page<T>>)
    ensures r.Failure? <==> pageSize == 0
  {
    if pageSize == 0 then Failure("division by zero") else Success(Window(data, page, pageSize))
  }

  /** `paginate` is `paginate_dataframe` applied to the clamped arguments. */
  lemma PaginateIsClampedFrame<T>(data: seq<T>, page: int, pageSize: int, maxPageSize: int)
    requires maxPageSize >= 1
    ensures PaginateFrame(data, Max(1, page), Min(Max(1, pageSize), maxPageSize))
            == Success(Paginate(data, page, pageSize, maxPageSize))
  {
  }

  /** Items of pages 1..k, one after the other. */
  function PagesUpTo<T>(data: seq<T>, pageSize: int, k: nat): seq<T>
    requires pageSize >= 1
  {
    if k == 0 then [] else PagesUpTo(data, pageSize, k - 1) + Window(data, k, pageSize).items
  }

  lemma {:induction false} PagesUpToPrefix<T>(data: seq<T>, pageSize: int, k: nat)
    requires pageSize >= 1
    ensures PagesUpTo(data, pageSize, k) == data[..Min(k * pageSize, |data|)]
  {
    if k > 0 {
      PagesUpToPrefix(data, pageSize, k - 1);
      WindowSlice(data, k, pageSize);
      WindowStart(k, pageSize);
      var a := Min((k - 1) * pageSize, |data|);
      var b := Min(k * pageSize, |data|);
      assert data[..a] + data[a..b] == data[..b];
    }
  }

  /** Reading pages 1 to `total_pages` in order gives back the whole input. */
  lemma PagesCoverData<T>(data: seq<T>, pageSize: int)
    requires pageSize >= 1
    ensures PagesUpTo(data, pageSize, Window(data, 1, pageSize).info.totalPages) == data
  {
    var n := Window(data, 1, pageSize).info.totalPages;
    CeilDivPositive(|data|, pageSize);
    assert n * pageSize >= |data|;
    PagesUpToPrefix(data, pageSize, n);
    assert Min(n * pageSize, |data|) == |data|;
  }
}
