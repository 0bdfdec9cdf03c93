/**
 * The arithmetic of views/compounds.py: the DataTables request translated into a
 * list call, the comparison of at most five compounds, and the guard of the
 * per-class page.
 */
module CompoundsViews {
  import opened Wrappers
  import opened Text
  import opened PyOps
  import opened Frames
  import opened Pagination
  import opened CompoundModel
  import opened CompoundService
  import opened TargetNames

  // --------------------------------------------------------- DataTables list

  /** The table's columns in display order; the last one holds the action buttons. */
  const SortColumns: seq<string> := [
    "global_id", "chinese_name", "Name", "compound_type", "Molecular_Formula", "Molecular_Weight", "actions"
  ]

  /** The request arguments, already converted by `request.args.get(..., type=int)` where the route asks for it. */
  datatype TableRequest = TableRequest(
    draw: Option<int>, start: int, length: int,
    searchValue: string, customSearch: string,
    orderColumn: string, orderDir: string,
    compoundType: Option<string>)

  /** The JSON answer; an error answer is the one sent with status 500. */
  datatype TableReply = TableReply(draw: Option<int>, recordsTotal: nat, recordsFiltered: nat, data: seq<Record>, error: Option<string>)

  /** `custom_search or search_value`, then `None` for an empty search. */
  function FinalSearch(customSearch: string, searchValue: string): (r: Option<string>)
    ensures r.Some? <==> customSearch != "" || searchValue != ""
    ensures customSearch != "" ==> r == Some(customSearch)
    ensures customSearch == "" && searchValue != "" ==> r == Some(searchValue)
  {
    var s := if customSearch != "" then customSearch else searchValue;
    if s != "" then Some(s) else None
  }

  /** `None` for an absent, empty or `'all'` compound type. */
  function TypeArg(compoundType: Option<string>): (r: Option<string>)
    ensures r.Some? <==> TypeRequested(compoundType)
    ensures r.Some? ==> r == compoundType
  {
    if compoundType.None? || compoundType.value == "all" || compoundType.value == "" then None else compoundType
  }

  /** The view's own normalisation of the type changes nothing the service would not do itself. */
  lemma TypeArgRedundant(compoundType: Option<string>)
    ensures BuildFilters(TypeArg(compoundType)) == BuildFilters(compoundType)
  {
  }

  /**
   * `columns[int(order_column)] if int(order_column) < len(columns) - 1 else
   * 'global_id'`: a column index that is not an integer literal is a ValueError,
   * and one below `-7` an IndexError.
   */
  function SortKey(orderColumn: string): (r: Result<string>)
    ensures r.Failure? <==> ParseInt(orderColumn).None? || ParseInt(orderColumn).value < -|SortColumns|
    ensures r.Success? ==> r.value in SortColumns
  {
    match ParseInt(orderColumn)
    case None => Failure("invalid literal for int() with base 10: '" + orderColumn + "'")
    case Some(n) =>
      if n < |SortColumns| - 1 then
        if n >= -|SortColumns| then Success(PyIndex(SortColumns, n)) else Failure("list index out of range")
      else Success("global_id")
  }

  /**
   * For the column index `n` DataTables sends: indices 0 to 5 sort by that
   * column, 6 (the action column) and above by `global_id`, -7 to -1 count from
   * the end, and only -1 reaches the action column.
   */
  lemma SortKeyOfIndex(n: int)
    ensures 0 <= n < |SortColumns| - 1 ==> SortKey(IntToString(n)) == Success(SortColumns[n])
    ensures n >= |SortColumns| - 1 ==> SortKey(IntToString(n)) == Success("global_id")
    ensures -|SortColumns| <= n < 0 ==> SortKey(IntToString(n)) == Success(SortColumns[n + |SortColumns|])
    ensures n < -|SortColumns| ==> SortKey(IntToString(n)).Failure?
    ensures SortKey(IntToString(n)) == Success("actions") <==> n == -1
  {
    IntRoundTrip(n);
  }

  /** `(start // length) + 1`; a length of 0 is the ZeroDivisionError. */
  function PageOf(start: int, length: int): (r: Result<int>)
    ensures r.Failure? <==> length == 0
  {
    if length == 0 then Failure("integer division or modulo by zero") else Success(FloorDiv(start, length) + 1)
  }

  /** For a row offset and a positive length, the page is the one whose window holds row `start`. */
  lemma PageContainsStart(start: int, length: int)
    requires start >= 0 && length >= 1
    ensures var p := PageOf(start, length).value;
            p >= 1 && (p - 1) * length <= start < p * length
  {
    var q := FloorDiv(start, length);
    assert q >= 0 by {
      if q < 0 {
        MulMonotone(q, -1, length);
      }
    }
    assert (q + 1) * length == q * length + length;
  }

  /** The steps of the route that can raise, in the order it runs them. */
  function TableData(table: Frame, req: TableRequest, parse: FloatParser, round2: Rounder): Result<TableReply>
  {
    var page :- PageOf(req.start, req.length);
    var sortBy :- SortKey(req.orderColumn);
    var result :- CompoundsList(table, page, req.length, TypeArg(req.compoundType),
                                FinalSearch(req.customSearch, req.searchValue), sortBy, req.orderDir, parse, round2);
    var total :- Count(table, [], None);
    Success(TableReply(req.draw, total, result.pagination.total, result.items, None))
  }

  /** `compounds_api_list`: the list reply, or the zero reply carrying the exception's message. */
  function ApiList(table: Frame, req: TableRequest, parse: FloatParser, round2: Rounder): (r: TableReply)
    ensures r.draw == req.draw
    ensures r.error.Some? ==> r.recordsTotal == 0 && r.recordsFiltered == 0 && r.data == []
  {
    match TableData(table, req, parse, round2)
    case Success(reply) => reply
    case Failure(e) => TableReply(req.draw, 0, 0, [], Some(e))
  }

  /**
   * The reply is an error exactly when the length is 0, the column index is not
   * usable, or a search is asked of a table with none of the search fields.
   */
  lemma ApiListFails(table: Frame, req: TableRequest, parse: FloatParser, round2: Rounder)
    ensures ApiList(table, req, parse, round2).error.Some? <==>
              || req.length == 0
              || SortKey(req.orderColumn).Failure?
              || (Searching(FinalSearch(req.customSearch, req.searchValue)) && Present(SearchFields, table.columns) == [])
  {
  }

  /**
   * For a row offset and a positive length, a reply without error counts every
   * compound as `recordsTotal` and the matches of the type and search as
   * `recordsFiltered`, and its rows are at most `length` of them.
   */
  lemma ApiListTotals(table: Frame, req: TableRequest, parse: FloatParser, round2: Rounder)
    requires req.start >= 0 && req.length >= 1
    requires ApiList(table, req, parse, round2).error.None?
    ensures var r := ApiList(table, req, parse, round2);
            && r.recordsTotal == |table.rows|
            && r.recordsFiltered == |Matching(table, BuildFilters(req.compoundType), FinalSearch(req.customSearch, req.searchValue))|
            && |r.data| <= req.length
  {
    var page := PageOf(req.start, req.length).value;
    PageContainsStart(req.start, req.length);
    var search := FinalSearch(req.customSearch, req.searchValue);
    var sortBy := SortKey(req.orderColumn).value;
    TypeArgRedundant(req.compoundType);
    CompoundsListItems(table, page, req.length, TypeArg(req.compoundType), search, sortBy, req.orderDir, parse, round2, 0, "");
    CountAgreesWithGetAll(table, [], None, "global_id", "asc");
    ApplyFiltersMembers(table, []);
  }

  // ----------------------------------------------------------------- compare

  /** `compound_ids[:5]`: at most this many compounds are compared. */
  const CompareLimit: int := 5

  /** The details of the listed ids that name a compound, in order; the first failing lookup raises. */
  function DetailsOf(table: Frame, ids: seq<int>): Result<seq<Record>>
    decreases |ids|
  {
    if ids == [] then Success([])
    else
      match CompoundDetail(table, ids[0])
      case Failure(e) => Failure(e)
      case Success(d) =>
        match DetailsOf(table, ids[1..])
        case Failure(e) => Failure(e)
        case Success(rest) => Success((if d.Some? then [d.value] else []) + rest)
  }

  lemma DetailsOfStep(table: Frame, ids: seq<int>, i: nat)
    requires i < |ids|
    ensures DetailsOf(table, ids[i..]) ==
              (var d := CompoundDetail(table, ids[i]);
               if d.Failure? then Failure(d.error)
               else var rest := DetailsOf(table, ids[i + 1..]);
                    if rest.Failure? then rest
                    else Success((if d.value.Some? then [d.value.value] else []) + rest.value))
  {
    assert ids[i..][1..] == ids[i + 1..];
  }

  /** `compounds_compare`: the loop over the first five ids, keeping the compounds found. */
  method CompareCompounds(table: Frame, ids: seq<int>) returns (r: Result<seq<Record>>)
    ensures r == DetailsOf(table, PySlice(ids, 0, CompareLimit))
  {
    var xs := PySlice(ids, 0, CompareLimit);
    ghost var whole := DetailsOf(table, xs);
    var compounds: seq<Record> := [];
    var i := 0;
    assert xs[0..] == xs;
    assert whole.Success? ==> compounds + whole.value == whole.value;
    while i < |xs|
      invariant 0 <= i <= |xs|
      invariant DetailsOf(table, xs[i..]).Failure? ==> whole == DetailsOf(table, xs[i..])
      invariant DetailsOf(table, xs[i..]).Success? ==> whole == Success(compounds + DetailsOf(table, xs[i..]).value)
    {
      DetailsOfStep(table, xs, i);
      ghost var rest := DetailsOf(table, xs[i + 1..]);
      ghost var before := compounds;
      var compound := GetCompoundDetail(table, xs[i]);
      if compound.Failure? {
        return Failure(compound.error);
      }
      var here: seq<Record> := [];
      if compound.value.Some? {
        here := [compound.value.value];
      }
      compounds := compounds + here;
      if rest.Success? {
        AppendStep(before, here, rest.value, whole.value);
      }
      i := i + 1;
    }
    assert xs[|xs|..] == [];
    assert compounds + [] == compounds;
    r := Success(compounds);
  }

  /** When every lookup succeeds, so does the comparison, with at most one compound per id. */
  lemma {:induction false} DetailsOfSucceeds(table: Frame, ids: seq<int>)
    requires forall j :: 0 <= j < |ids| ==> CompoundDetail(table, ids[j]).Success?
    ensures DetailsOf(table, ids).Success?
    ensures |DetailsOf(table, ids).value| <= |ids|
    decreases |ids|
  {
    if ids != [] {
      assert forall j :: 0 <= j < |ids| - 1 ==> ids[1..][j] == ids[j + 1];
      DetailsOfSucceeds(table, ids[1..]);
    }
  }

  /** Every compound compared is the detail of one of the ids. */
  lemma {:induction false} DetailsOfSound(table: Frame, ids: seq<int>, rec: Record)
    requires DetailsOf(table, ids).Success?
    requires rec in DetailsOf(table, ids).value
    ensures exists j :: 0 <= j < |ids| && CompoundDetail(table, ids[j]) == Success(Some(rec))
    decreases |ids|
  {
    var d := CompoundDetail(table, ids[0]).value;
    if d.Some? && rec == d.value {
      assert CompoundDetail(table, ids[0]) == Success(Some(rec));
    } else {
      DetailsOfSound(table, ids[1..], rec);
      var j :| 0 <= j < |ids[1..]| && CompoundDetail(table, ids[1..][j]) == Success(Some(rec));
      assert ids[1..][j] == ids[j + 1];
    }
  }

  /** Every id that names a compound contributes its detail. */
  lemma {:induction false} DetailsOfComplete(table: Frame, ids: seq<int>, j: int, rec: Record)
    requires DetailsOf(table, ids).Success?
    requires 0 <= j < |ids| && CompoundDetail(table, ids[j]) == Success(Some(rec))
    ensures rec in DetailsOf(table, ids).value
    decreases |ids|
  {
    DetailsOfStep(table, ids, 0);
    assert ids[0..] == ids;
    if j > 0 {
      assert ids[1..][j - 1] == ids[j];
      DetailsOfComplete(table, ids[1..], j - 1, rec);
    }
  }

  /**
   * Over a table with a `global_id` column the comparison never fails and holds
   * at most five compounds; the compound of any of the first five ids that some
   * row carries is among them.
   */
  lemma ComparedMeaning(table: Frame, ids: seq<int>, j: int)
    requires "global_id" in table.columns
    ensures DetailsOf(table, PySlice(ids, 0, CompareLimit)).Success?
    ensures |DetailsOf(table, PySlice(ids, 0, CompareLimit)).value| <= CompareLimit
    ensures 0 <= j < Min(CompareLimit, |ids|) && (exists row :: row in table.rows && Get(row, "global_id") == Num(ids[j] as real)) ==>
              && CompoundDetail(table, ids[j]).value.Some?
              && CompoundDetail(table, ids[j]).value.value in DetailsOf(table, PySlice(ids, 0, CompareLimit)).value
  {
    var xs := PySlice(ids, 0, CompareLimit);
    assert xs == ids[..Min(CompareLimit, |ids|)];
    forall k | 0 <= k < |xs| ensures CompoundDetail(table, xs[k]).Success? {
      CompoundDetailFound(table, xs[k]);
    }
    DetailsOfSucceeds(table, xs);
    if 0 <= j < Min(CompareLimit, |ids|) {
      CompoundDetailFound(table, ids[j]);
      assert xs[j] == ids[j];
      if CompoundDetail(table, ids[j]).value.Some? {
        DetailsOfComplete(table, xs, j, CompoundDetail(table, ids[j]).value.value);
      }
    }
  }

  /** Every compared compound is the detail of one of the first five ids. */
  lemma ComparedSound(table: Frame, ids: seq<int>, rec: Record)
    requires DetailsOf(table, PySlice(ids, 0, CompareLimit)).Success?
    requires rec in DetailsOf(table, PySlice(ids, 0, CompareLimit)).value
    ensures exists j :: 0 <= j < Min(CompareLimit, |ids|) && CompoundDetail(table, ids[j]) == Success(Some(rec))
  {
    var xs := PySlice(ids, 0, CompareLimit);
    assert xs == ids[..Min(CompareLimit, |ids|)];
    DetailsOfSound(table, xs, rec);
    var j :| 0 <= j < |xs| && CompoundDetail(table, xs[j]) == Success(Some(rec));
    assert xs[j] == ids[j];
  }

  // -------------------------------------------------------------- class page

  /** The answer of `/compounds/type/<compound_type>`: a 404, or the list page of that class with the statistics. */
  datatype TypePage = TypeNotFound | TypeListPage(compoundType: string, stats: Statistics)

  /** The class names the page accepts. */
  const PageTypes: seq<string> := ["挥发油", "三萜", "甾醇"]

  function TypePageOf(table: Frame, compoundType: string): (r: TypePage)
    ensures r.TypeNotFound? <==> compoundType !in PageTypes
    ensures r.TypeListPage? ==> r.compoundType == compoundType && r.stats.total == |table.rows|
  {
    if compoundType !in PageTypes then TypeNotFound else TypeListPage(compoundType, GetStatistics(table))
  }

  /** The page accepts exactly the classes that have a prediction directory. */
  lemma TypePageAllowed(table: Frame, compoundType: string)
    ensures TypePageOf(table, compoundType).TypeListPage? <==> DirName(compoundType).Some?
  {
  }
}
