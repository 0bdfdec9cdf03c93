/**
 * `CompoundService` (services/compound_service.py): the paged compound list cut
 * to its display columns, the compound detail with missing values as None, and
 * the capped quick search.
 */
module CompoundService {
  import opened Wrappers
  import opened Frames
  import opened PyOps
  import opened Pagination
  import opened CompoundModel

  /** The columns a list item carries, when the table has them. */
  const DisplayColumns: seq<string> := [
    "global_id", "id", "chinese_name", "Name", "compound_type",
    "Molecular_Formula", "Molecular_Weight", "SMILES", "Compound_CID"
  ]

  /** The columns a search result carries, when the table has them. */
  const SearchColumns: seq<string> := ["global_id", "chinese_name", "Name", "compound_type", "Molecular_Formula", "Molecular_Weight"]

  /** The quick search returns at most this many compounds (`df.head(100)`). */
  const SearchLimit: nat := 100

  /** `round(x, n)` on a float, for the number of digits `n` the caller fixes, taken as given. */
  type Rounder = real -> real

  /** A compound type was asked for: `if compound_type and compound_type != 'all'`. */
  predicate TypeRequested(compoundType: Option<string>)
  {
    compoundType.Some? && compoundType.value != "" && compoundType.value != "all"
  }

  /** The filters dict the list builds. */
  function BuildFilters(compoundType: Option<string>): Filters
  {
    if TypeRequested(compoundType) then [("compound_type", Str(compoundType.value))] else []
  }

  /**
   * The list keeps a row exactly when no type is requested, the table has no
   * `compound_type` column, or the row's type is the requested one.
   */
  lemma BuildFiltersMeaning(compoundType: Option<string>, row: Row, columns: seq<string>)
    ensures PassesFilters(row, BuildFilters(compoundType), columns) <==>
            !TypeRequested(compoundType) || "compound_type" !in columns || Get(row, "compound_type") == Str(compoundType.value)
  {
    if TypeRequested(compoundType) {
      var f := BuildFilters(compoundType);
      assert f[0] == ("compound_type", Str(compoundType.value));
    }
  }

  /** A page of rows as dicts: cut to the listed columns that exist, missing values as "". */
  function DisplayRecords(page: Frame, cols: seq<string>): seq<Record>
  {
    Records(FillNa(Project(page, cols), Str("")))
  }

  /** Row `i` of a page as a display dict: its keys are the present columns, each holding the filled value. */
  lemma DisplayRecordAt(page: Frame, cols: seq<string>, i: int, k: string)
    requires 0 <= i < |page.rows|
    ensures |DisplayRecords(page, cols)| == |page.rows|
    ensures Keys(DisplayRecords(page, cols)[i]) == Present(cols, page.columns)
    ensures Lookup(DisplayRecords(page, cols)[i], k) ==
            if k in cols && k in page.columns then Some(FillCell(Get(page.rows[i], k), Str(""))) else None
  {
    var proj := Project(page, cols);
    var filled := FillNa(proj, Str(""));
    KeysRecordOf(filled.columns, filled.rows[i]);
    LookupRecordOf(filled.columns, filled.rows[i], k);
  }

  /** The formatting of one item: a truthy `Molecular_Weight` that converts to a float is rounded. */
  function FormatWeight(item: Record, parse: FloatParser, round2: Rounder): (res: Record)
    ensures Keys(res) == Keys(item)
    ensures forall k :: k != "Molecular_Weight" ==> Lookup(res, k) == Lookup(item, k)
    ensures Lookup(item, "Molecular_Weight").Some? && Lookup(item, "Molecular_Weight").value.Num? &&
            Lookup(item, "Molecular_Weight").value.value != 0.0 ==>
              Lookup(res, "Molecular_Weight") == Some(Num(round2(Lookup(item, "Molecular_Weight").value.value)))
    ensures Lookup(item, "Molecular_Weight").Some? && Lookup(item, "Molecular_Weight").value.Str? &&
            Lookup(item, "Molecular_Weight").value.text != "" && parse(Lookup(item, "Molecular_Weight").value.text).Some? ==>
              Lookup(res, "Molecular_Weight") == Some(Num(round2(parse(Lookup(item, "Molecular_Weight").value.text).value)))
    ensures Lookup(item, "Molecular_Weight").Some? && ToFloat(Lookup(item, "Molecular_Weight").value, parse).Failure? ==>
              res == item
    ensures Lookup(item, "Molecular_Weight").Some? && !Truthy(Lookup(item, "Molecular_Weight").value) ==> res == item
  {
    match Lookup(item, "Molecular_Weight")
    case None => item
    case Some(w) =>
      if !Truthy(w) then item
      else
        match ToFloat(w, parse)
        case Failure(_) => item
        case Success(x) => DictSet(item, "Molecular_Weight", if x.Num? then Num(round2(x.value)) else x)
  }

  /** The formatting loop over the list items, each item updated in place. */
  method FormatWeights(items: seq<Record>, parse: FloatParser, round2: Rounder) returns (out: seq<Record>)
    ensures |out| == |items|
    ensures forall i :: 0 <= i < |items| ==> out[i] == FormatWeight(items[i], parse, round2)
  {
    out := items;
    var i := 0;
    while i < |out|
      invariant 0 <= i <= |out| == |items|
      invariant forall j :: 0 <= j < i ==> out[j] == FormatWeight(items[j], parse, round2)
      invariant forall j :: i <= j < |out| ==> out[j] == items[j]
    {
      var item := out[i];
      match Lookup(item, "Molecular_Weight") {
        case None =>
        case Some(w) =>
          if Truthy(w) {
            var x := ToFloat(w, parse);
            if x.Success? {
              item := DictSet(item, "Molecular_Weight", if x.value.Num? then Num(round2(x.value.value)) else x.value);
            }
          }
      }
      out := out[i := item];
      i := i + 1;
    }
  }

  datatype CompoundList = CompoundList(items: seq<Record>, pagination: PageInfo)

  /** `get_compounds_list`: filter, search and sort, take the page, cut it to the display columns. */
  function CompoundsList(table: Frame, page: int, pageSize: int, compoundType: Option<string>, search: Option<string>,
                         sortBy: string, sortOrder: string, parse: FloatParser, round2: Rounder): Result<CompoundList>
  {
    var all :- GetAll(table, BuildFilters(compoundType), search, sortBy, sortOrder);
    var paged :- PaginateFrame(all.rows, page, pageSize);
    Success(ListOf(Frame(all.columns, paged.items), paged.info, parse, round2))
  }

  /** The list for one page of rows. */
  function ListOf(page: Frame, info: PageInfo, parse: FloatParser, round2: Rounder): CompoundList
  {
    var items := DisplayRecords(page, DisplayColumns);
    CompoundList(seq(|items|, i requires 0 <= i < |items| => FormatWeight(items[i], parse, round2)), info)
  }

  /** Item `i` of a page's list: the display keys, each holding row `i`'s filled value. */
  lemma ListOfItem(page: Frame, info: PageInfo, parse: FloatParser, round2: Rounder, i: int, k: string)
    requires 0 <= i < |page.rows|
    ensures |ListOf(page, info, parse, round2).items| == |page.rows|
    ensures Keys(ListOf(page, info, parse, round2).items[i]) == Present(DisplayColumns, page.columns)
    ensures k != "Molecular_Weight" ==>
              Lookup(ListOf(page, info, parse, round2).items[i], k) ==
              if k in DisplayColumns && k in page.columns then Some(FillCell(Get(page.rows[i], k), Str(""))) else None
  {
    DisplayRecordAt(page, DisplayColumns, i, k);
  }

  method GetCompoundsList(table: Frame, page: int, pageSize: int, compoundType: Option<string>, search: Option<string>,
                          sortBy: string, sortOrder: string, parse: FloatParser, round2: Rounder)
    returns (r: Result<CompoundList>)
    ensures r == CompoundsList(table, page, pageSize, compoundType, search, sortBy, sortOrder, parse, round2)
  {
    var all := GetAll(table, BuildFilters(compoundType), search, sortBy, sortOrder);
    if all.Failure? {
      return Failure(all.error);
    }
    var paged := PaginateFrame(all.value.rows, page, pageSize);
    if paged.Failure? {
      return Failure(paged.error);
    }
    var items := DisplayRecords(Frame(all.value.columns, paged.value.items), DisplayColumns);
    var formatted := FormatWeights(items, parse, round2);
    assert formatted == ListOf(Frame(all.value.columns, paged.value.items), paged.value.info, parse, round2).items;
    return Success(CompoundList(formatted, paged.value.info));
  }

  /**
   * For a positive page and page size, a successful list reports the number of
   * matching compounds as its total and returns at most a page of items; item
   * `i` is row `(page-1)*size + i` of the sorted matches, its keys the display
   * columns the table has, each holding that row's value with "" for missing.
   */
  lemma CompoundsListItems(table: Frame, page: int, pageSize: int, compoundType: Option<string>, search: Option<string>,
                           sortBy: string, sortOrder: string, parse: FloatParser, round2: Rounder, i: int, k: string)
    requires page >= 1 && pageSize >= 1
    requires CompoundsList(table, page, pageSize, compoundType, search, sortBy, sortOrder, parse, round2).Success?
    ensures var r := CompoundsList(table, page, pageSize, compoundType, search, sortBy, sortOrder, parse, round2).value;
            && r.pagination.total == |Matching(table, BuildFilters(compoundType), search)|
            && |r.items| <= pageSize
    ensures var r := CompoundsList(table, page, pageSize, compoundType, search, sortBy, sortOrder, parse, round2).value;
            var all := GetAll(table, BuildFilters(compoundType), search, sortBy, sortOrder).value.rows;
            0 <= i < |r.items| ==>
              && 0 <= (page - 1) * pageSize + i < |all|
              && Keys(r.items[i]) == Present(DisplayColumns, table.columns)
              && (k != "Molecular_Weight" ==>
                    Lookup(r.items[i], k) ==
                    if k in DisplayColumns && k in table.columns then Some(FillCell(Get(all[(page - 1) * pageSize + i], k), Str("")))
                    else None)
  {
    var filters := BuildFilters(compoundType);
    var all := GetAll(table, filters, search, sortBy, sortOrder).value;
    CountAgreesWithGetAll(table, filters, search, sortBy, sortOrder);
    WindowSlice(all.rows, page, pageSize);
    var w := Window(all.rows, page, pageSize);
    var pf := Frame(all.columns, w.items);
    assert CompoundsList(table, page, pageSize, compoundType, search, sortBy, sortOrder, parse, round2).value
           == ListOf(pf, w.info, parse, round2);
    if 0 <= i < |w.items| {
      WindowItem(all.rows, page, pageSize, i);
      ListOfItem(pf, w.info, parse, round2, i, k);
    }
  }

  /** `get_compound_detail`: the compound with missing values as None, or None. */
  function CompoundDetail(table: Frame, id: int): Result<Option<Record>>
  {
    var found :- ById(table, id);
    if found.None? || found.value == [] then Success(None) else Success(Some(WithNoneForNA(found.value)))
  }

  method GetCompoundDetail(table: Frame, id: int) returns (r: Result<Option<Record>>)
    ensures r == CompoundDetail(table, id)
  {
    var found := GetById(table, id);
    if found.Failure? {
      return Failure(found.error);
    }
    if found.value.None? || found.value.value == [] {
      return Success(None);
    }
    var cleaned := NaNToNone(found.value.value);
    return Success(Some(cleaned));
  }

  /**
   * A detail exists exactly for an id some row carries; it holds that id, and no
   * value in it is NaN.
   */
  lemma CompoundDetailFound(table: Frame, id: int)
    requires "global_id" in table.columns
    ensures CompoundDetail(table, id).Success?
    ensures CompoundDetail(table, id).value.Some? <==>
            exists row :: row in table.rows && Get(row, "global_id") == Num(id as real)
    ensures CompoundDetail(table, id).value.Some? ==>
              var d := CompoundDetail(table, id).value.value;
              Lookup(d, "global_id") == Some(Num(id as real)) && forall j :: 0 <= j < |d| ==> !d[j].1.NaN?
  {
    ByIdFound(table, id);
    var found := ById(table, id).value;
    if found.Some? {
      ByIdCarriesId(table, id);
      LookupWithNoneForNA(found.value, "global_id");
    }
  }

  lemma ByIdCarriesId(table: Frame, id: int)
    requires "global_id" in table.columns && ById(table, id).value.Some?
    ensures ById(table, id).value.value != []
    ensures Lookup(ById(table, id).value.value, "global_id") == Some(Num(id as real))
  {
    var hits := Select(table.rows, Equals("global_id", Num(id as real)));
    assert hits[0] in hits;
    var rec := RecordOf(table.columns, hits[0]);
    LookupRecordOf(table.columns, hits[0], "global_id");
    RenameKeepsGlobalId(rec);
  }

  /**
   * `search_compounds`: the first hundred matches in `global_id` order, cut to the
   * search columns. The search type is accepted but does not take part.
   */
  function SearchCompounds(table: Frame, query: string, searchType: string): (r: Result<seq<Record>>)
    ensures r.Success? ==> |r.value| <= SearchLimit
  {
    var all :- GetAll(table, [], Some(query), "global_id", "asc");
    Success(DisplayRecords(Head(all, SearchLimit), SearchColumns))
  }

  /**
   * The search returns the first `SearchLimit` rows of the full result sorted by
   * `global_id`: result `i` is row `i` of it, a matching table row, shown through
   * the search columns with missing values as "".
   */
  lemma SearchCompoundsMatch(table: Frame, query: string, searchType: string, i: int, k: string)
    requires SearchCompounds(table, query, searchType).Success?
    requires 0 <= i < |SearchCompounds(table, query, searchType).value|
    ensures var all := GetAll(table, [], Some(query), "global_id", "asc").value;
            var result := SearchCompounds(table, query, searchType).value;
            && |result| == (if SearchLimit < |all.rows| then SearchLimit else |all.rows|)
            && i < |all.rows|
            && MatchesSearch(all.rows[i], Some(query), table.columns)
            && Keys(result[i]) == Present(SearchColumns, table.columns)
            && Lookup(result[i], k) ==
                 if k in SearchColumns && k in table.columns then Some(FillCell(Get(all.rows[i], k), Str(""))) else None
  {
    var all := GetAll(table, [], Some(query), "global_id", "asc").value;
    GetAllMembers(table, [], Some(query), "global_id", "asc");
    assert all.rows[i] in all.rows;
    var page := Head(all, SearchLimit);
    DisplayRecordAt(page, SearchColumns, i, k);
    assert page.rows[i] == all.rows[i];
  }

  /** The search type never changes the result. */
  lemma SearchTypeIgnored(table: Frame, query: string, a: string, b: string)
    ensures SearchCompounds(table, query, a) == SearchCompounds(table, query, b)
  {
  }

  /**
   * The service's `count`: the model's count, which is the number of compounds
   * that pass the filters and the search; a search over a table without any
   * search field raises as `get_all` does.
   */
  function CountCompounds(table: Frame, filters: Filters, search: Option<string>): (r: Result<nat>)
    ensures r.Failure? <==> Searching(search) && Present(SearchFields, table.columns) == []
    ensures r.Success? ==> r.value == |Matching(table, filters, search)|
  {
    var n := Count(table, filters, search);
    if n.Success? then CountAgreesWithGetAll(table, filters, search, "global_id", "asc"); n else n
  }
}
