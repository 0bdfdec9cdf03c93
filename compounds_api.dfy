/**
 * The compound routes of api/compounds.py: the clamped list parameters, and the
 * targets of one compound paged in the route itself.
 */
module CompoundsApi {
  import opened Wrappers
  import opened Frames
  import opened PyOps
  import opened Pagination
  import opened CompoundModel
  import opened CompoundService
  import opened TargetNames
  import opened TargetService

  /** `Config.MAX_PAGE_SIZE`. */
  const MaxPageSize: int := 100

  /** `max(1, page)`. */
  function ClampPage(page: int): (p: int)
    ensures p >= 1
    ensures page >= 1 ==> p == page
  {
    Max(1, page)
  }

  /** `min(max(1, page_size), MAX_PAGE_SIZE)`. */
  function ClampPageSize(pageSize: int): (s: int)
    ensures 1 <= s <= MaxPageSize
    ensures 1 <= pageSize <= MaxPageSize ==> s == pageSize
    ensures pageSize > MaxPageSize ==> s == MaxPageSize
  {
    Min(Max(1, pageSize), MaxPageSize)
  }

  /** `get_compounds`: the service list for the clamped page and page size. */
  function GetCompounds(table: Frame, page: int, pageSize: int, compoundType: Option<string>, search: Option<string>,
                        sortBy: string, sortOrder: string, parse: FloatParser, round2: Rounder): (r: Result<CompoundList>)
    ensures r.Failure? <==> Searching(search) && Present(SearchFields, table.columns) == []
  {
    CompoundsList(table, ClampPage(page), ClampPageSize(pageSize), compoundType, search, sortBy, sortOrder, parse, round2)
  }

  /**
   * Whatever page and page size the request carries, the list describes a page
   * of at least 1 and a page size between 1 and 100, and holds at most that many
   * items out of all the matching compounds.
   */
  lemma GetCompoundsClamped(table: Frame, page: int, pageSize: int, compoundType: Option<string>, search: Option<string>,
                            sortBy: string, sortOrder: string, parse: FloatParser, round2: Rounder)
    requires GetCompounds(table, page, pageSize, compoundType, search, sortBy, sortOrder, parse, round2).Success?
    ensures var r := GetCompounds(table, page, pageSize, compoundType, search, sortBy, sortOrder, parse, round2).value;
            && r.pagination.page == Max(1, page)
            && r.pagination.pageSize == ClampPageSize(pageSize)
            && |r.items| <= r.pagination.pageSize <= MaxPageSize
            && r.pagination.total == |Matching(table, BuildFilters(compoundType), search)|
  {
    CompoundsListItems(table, ClampPage(page), ClampPageSize(pageSize), compoundType, search, sortBy, sortOrder, parse, round2, 0, "");
  }

  // ------------------------------------------------ targets of one compound

  /** `d[k]`: the entry, or `KeyError`. */
  function Field(rec: Record, k: string): (r: Result<Cell>)
    ensures r.Success? <==> Lookup(rec, k).Some?
    ensures r.Success? ==> r.value == Lookup(rec, k).value
  {
    match Lookup(rec, k)
    case Some(v) => Success(v)
    case None => Failure("'" + k + "'")
  }

  /**
   * `get_compound_targets(compound['compound_type'], compound['id'])` with the
   * detail's cells: a class that is not a string has no prediction directory, and
   * an id that is not a whole number names no prediction file of the model.
   */
  function TargetsOfCells(dirs: seq<PredictionDir>, reference: Frame, aliases: Aliases,
                          compoundType: Cell, id: Cell, parse: FloatParser): (r: Result<CompoundTargetList>)
    ensures !compoundType.Str? || DirName(compoundType.text).None? ==> r == Success(CompoundTargetList([], 0))
    ensures compoundType.Str? && DirName(compoundType.text).Some? && id.Num? && id.value == id.value.Floor as real ==>
              r == TargetsOfCompound(dirs, reference, aliases, compoundType.text, id.value.Floor, parse)
    ensures compoundType.Str? && !(id.Num? && id.value == id.value.Floor as real) ==> r == Success(CompoundTargetList([], 0))
  {
    if compoundType.Str? && id.Num? && id.value == id.value.Floor as real
    then TargetsOfCompound(dirs, reference, aliases, compoundType.text, id.value.Floor, parse)
    else Success(CompoundTargetList([], 0))
  }

  /**
   * The route's own pagination: the slice `[(page-1)*size, (page-1)*size + size)`
   * and `total_pages = (total + size - 1) // size`, neither argument clamped. A
   * page size of 0 is the ZeroDivisionError of `//`.
   */
  function InlinePage<T>(items: seq<T>, page: int, pageSize: int): (r: Result<Page<T>>)
    ensures r.Failure? <==> pageSize == 0
    ensures r.Success? ==> r.value.info.total == |items| && r.value.info.page == page && r.value.info.pageSize == pageSize
    ensures r.Success? ==> (r.value.info.hasNext <==> page < r.value.info.totalPages)
    ensures r.Success? ==> (r.value.info.hasPrev <==> page > 1)
  {
    if pageSize == 0 then Failure("integer division or modulo by zero")
    else
      var total := |items|;
      var start := (page - 1) * pageSize;
      var totalPages := FloorDiv(total + pageSize - 1, pageSize);
      Success(Page(PySlice(items, start, start + pageSize), PageInfo(page, pageSize, total, totalPages, page > 1, page < totalPages)))
  }

  /**
   * For a positive page size the route pages exactly as `Paginator` does, for
   * every page number: the same items and the same page count, the ceiling of
   * `total / size`.
   */
  lemma InlinePageIsWindow<T>(items: seq<T>, page: int, pageSize: int)
    requires pageSize >= 1
    ensures InlinePage(items, page, pageSize) == Success(Window(items, page, pageSize))
    ensures InlinePage(items, page, pageSize).value.info.totalPages == (|items| + pageSize - 1) / pageSize
  {
    CeilDivPositive(|items|, pageSize);
  }

  /** What the route returns: "Compound not found", or the compound with one page of its targets. */
  datatype TargetsReply =
    | CompoundNotFound
    | TargetsReply(compound: Record, targets: seq<Record>, total: nat, pagination: PageInfo)

  /** `GET /compounds/<id>/targets`. */
  function CompoundTargetsRoute(table: Frame, dirs: seq<PredictionDir>, reference: Frame, aliases: Aliases, parse: FloatParser,
                                id: int, page: int, pageSize: int): (r: Result<TargetsReply>)
    ensures r == Success(CompoundNotFound) <==> CompoundDetail(table, id) == Success(None)
    ensures r.Success? && r.value.TargetsReply? ==> CompoundDetail(table, id) == Success(Some(r.value.compound))
  {
    var compound :- CompoundDetail(table, id);
    if compound.None? then Success(CompoundNotFound)
    else
      var compoundType :- Field(compound.value, "compound_type");
      var localId :- Field(compound.value, "id");
      var data :- TargetsOfCells(dirs, reference, aliases, compoundType, localId, parse);
      var paged :- InlinePage(data.targets, page, pageSize);
      Success(TargetsReply(compound.value, paged.items, data.total, paged.info))
  }

  /**
   * An id no compound carries gives "Compound not found", and it does so before
   * any target lookup: the answer does not depend on the prediction files.
   */
  lemma CompoundTargetsNotFound(table: Frame, dirs: seq<PredictionDir>, other: seq<PredictionDir>, reference: Frame,
                                aliases: Aliases, parse: FloatParser, id: int, page: int, pageSize: int)
    requires "global_id" in table.columns
    ensures CompoundTargetsRoute(table, dirs, reference, aliases, parse, id, page, pageSize) == Success(CompoundNotFound) <==>
              !exists row :: row in table.rows && Get(row, "global_id") == Num(id as real)
    ensures (!exists row :: row in table.rows && Get(row, "global_id") == Num(id as real)) ==>
              CompoundTargetsRoute(table, other, reference, aliases, parse, id, page, pageSize) == Success(CompoundNotFound)
  {
    CompoundDetailFound(table, id);
  }

  /**
   * For a positive page size, a successful reply for a known compound holds the
   * `Paginator` window of all its targets, and reports all of them as its total.
   */
  lemma CompoundTargetsPaged(table: Frame, dirs: seq<PredictionDir>, reference: Frame, aliases: Aliases, parse: FloatParser,
                             id: int, page: int, pageSize: int)
    requires pageSize >= 1
    requires CompoundTargetsRoute(table, dirs, reference, aliases, parse, id, page, pageSize).Success?
    requires CompoundTargetsRoute(table, dirs, reference, aliases, parse, id, page, pageSize).value.TargetsReply?
    ensures var r := CompoundTargetsRoute(table, dirs, reference, aliases, parse, id, page, pageSize).value;
            var compound := CompoundDetail(table, id).value.value;
            var all := TargetsOfCells(dirs, reference, aliases, Lookup(compound, "compound_type").value, Lookup(compound, "id").value, parse).value.targets;
            && r.compound == compound
            && r.targets == Window(all, page, pageSize).items
            && r.pagination == Window(all, page, pageSize).info
            && r.total == r.pagination.total == |all|
            && |r.targets| <= pageSize
  {
    var compound := CompoundDetail(table, id).value.value;
    var all := TargetsOfCells(dirs, reference, aliases, Lookup(compound, "compound_type").value, Lookup(compound, "id").value, parse).value.targets;
    InlinePageIsWindow(all, page, pageSize);
    if page >= 1 {
      WindowSlice(all, page, pageSize);
    } else {
      WindowBeforeFirst(all, page, pageSize);
    }
  }

  /** A page number below 1 still yields at most a page of items. */
  lemma WindowBeforeFirst<T>(data: seq<T>, page: int, pageSize: int)
    requires page < 1 && pageSize >= 1
    ensures |Window(data, page, pageSize).items| <= pageSize
  {
    var start := (page - 1) * pageSize;
    assert start + pageSize == page * pageSize;
    MulMonotone(page, 0, pageSize);
  }
}
