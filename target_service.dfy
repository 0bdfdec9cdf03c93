/**
 * `TargetService` (services/target_service.py): the predicted targets of one
 * compound, the paged and searchable target list, the detail of one target with
 * the compounds predicted for it, and the target statistics.
 */
module TargetService {
  import opened Wrappers
  import opened Text
  import opened Frames
  import opened PyOps
  import opened Pagination
  import opened TargetNames
  import opened TargetAggregate
  import opened TargetQueries
  import CompoundService

  // ------------------------------------------------------- numeric formatting

  /** `int(value)` as the cell the dict then holds. */
  function IntOf(c: Cell): (r: Result<Cell>)
    ensures r.Success? <==> ToInt(c).Success?
    ensures r.Success? ==> r.value == Num(ToInt(c).value as real)
  {
    match ToInt(c)
    case Success(n) => Success(Num(n as real))
    case Failure(e) => Failure(e)
  }

  /** `round(float(value), n)`: a number is rounded, NaN stays NaN. */
  function RoundedOf(c: Cell, parse: FloatParser, round: CompoundService.Rounder): (r: Result<Cell>)
    ensures r.Success? <==> ToFloat(c, parse).Success?
    ensures r.Success? && ToFloat(c, parse).value.Num? ==> r.value == Num(round(ToFloat(c, parse).value.value))
    ensures r.Success? && ToFloat(c, parse).value.NaN? ==> r.value == NaN
  {
    match ToFloat(c, parse)
    case Failure(e) => Failure(e)
    case Success(x) => Success(if x.Num? then Num(round(x.value)) else x)
  }

  /** The entry `k` of a dict holds a value the loop converts: `k in d and d[k]`. */
  predicate Converts(item: Record, k: string)
  {
    Lookup(item, k).Some? && Truthy(Lookup(item, k).value)
  }

  /**
   * `if k in d and d[k]: d[k] = conv(d[k])`: a present truthy entry is replaced
   * by its conversion, which may raise; every other entry stays.
   */
  function Converted(item: Record, k: string, conv: Cell -> Result<Cell>): (r: Result<Record>)
    ensures !Converts(item, k) ==> r == Success(item)
    ensures Converts(item, k) ==> (r.Success? <==> conv(Lookup(item, k).value).Success?)
    ensures Converts(item, k) && r.Success? ==> Lookup(r.value, k) == Some(conv(Lookup(item, k).value).value)
    ensures r.Failure? ==> Converts(item, k) && r.error == conv(Lookup(item, k).value).error
    ensures r.Success? ==> Keys(r.value) == Keys(item)
    ensures r.Success? ==> forall j :: j != k ==> Lookup(r.value, j) == Lookup(item, j)
  {
    if !Converts(item, k) then Success(item)
    else
      match conv(Lookup(item, k).value)
      case Failure(e) => Failure(e)
      case Success(v) => Success(DictSet(item, k, v))
  }

  /** The entries the formatting loops convert; every other entry passes through. */
  const ScoreField: string := "score"
  const AvgScoreField: string := "avg_score"
  const CountFields: seq<string> := ["prediction_count", "compound_count"]

  /** The conversions of one predicted target: `score` to float, the two counts to int. */
  function TargetFields(item: Record, parse: FloatParser): (r: Result<Record>)
    ensures r.Failure? <==>
              (Converts(item, "score") && ToFloat(Lookup(item, "score").value, parse).Failure?) ||
              (Converts(item, "prediction_count") && ToInt(Lookup(item, "prediction_count").value).Failure?) ||
              (Converts(item, "compound_count") && ToInt(Lookup(item, "compound_count").value).Failure?)
    ensures r.Success? ==> Keys(r.value) == Keys(item)
    ensures r.Success? ==> forall j :: j != ScoreField && j !in CountFields ==> Lookup(r.value, j) == Lookup(item, j)
    ensures r.Success? && Converts(item, "score") ==> Lookup(r.value, "score") == Some(ToFloat(Lookup(item, "score").value, parse).value)
    ensures r.Success? && Converts(item, "prediction_count") ==>
              Lookup(r.value, "prediction_count") == Some(Num(ToInt(Lookup(item, "prediction_count").value).value as real))
  {
    var a :- Converted(item, "score", c => ToFloat(c, parse));
    var b :- Converted(a, "prediction_count", IntOf);
    Converted(b, "compound_count", IntOf)
  }

  /** The conversions of one list item: `avg_score` rounded to four places, the two counts to int. */
  function ListFields(item: Record, parse: FloatParser, round4: CompoundService.Rounder): (r: Result<Record>)
    ensures r.Failure? <==>
              (Converts(item, "avg_score") && ToFloat(Lookup(item, "avg_score").value, parse).Failure?) ||
              (Converts(item, "prediction_count") && ToInt(Lookup(item, "prediction_count").value).Failure?) ||
              (Converts(item, "compound_count") && ToInt(Lookup(item, "compound_count").value).Failure?)
    ensures r.Success? ==> Keys(r.value) == Keys(item)
    ensures r.Success? ==> forall j :: j != AvgScoreField && j !in CountFields ==> Lookup(r.value, j) == Lookup(item, j)
    ensures r.Success? && Converts(item, "avg_score") && Lookup(item, "avg_score").value.Num? ==>
              Lookup(r.value, "avg_score") == Some(Num(round4(Lookup(item, "avg_score").value.value)))
  {
    var a :- Converted(item, "avg_score", c => RoundedOf(c, parse, round4));
    var b :- Converted(a, "prediction_count", IntOf);
    Converted(b, "compound_count", IntOf)
  }

  /** A formatting loop over a list of dicts: every dict converted, or the first error raised. */
  function FormatAll(items: seq<Record>, fmt: Record -> Result<Record>): Result<seq<Record>>
    decreases |items|
  {
    if items == [] then Success([])
    else
      var first :- fmt(items[0]);
      var rest :- FormatAll(items[1..], fmt);
      Success([first] + rest)
  }

  /**
   * The loop succeeds exactly when every dict converts, and then dict `i` of the
   * result is dict `i` converted; when it fails, the error is that of the first
   * dict that does not convert.
   */
  lemma {:induction false} FormatAllMeaning(items: seq<Record>, fmt: Record -> Result<Record>)
    ensures FormatAll(items, fmt).Success? <==> forall i :: 0 <= i < |items| ==> fmt(items[i]).Success?
    ensures FormatAll(items, fmt).Success? ==>
              |FormatAll(items, fmt).value| == |items| &&
              forall i :: 0 <= i < |items| ==> FormatAll(items, fmt).value[i] == fmt(items[i]).value
    ensures FormatAll(items, fmt).Failure? ==>
              exists i :: 0 <= i < |items| && fmt(items[i]).Failure? && FormatAll(items, fmt).error == fmt(items[i]).error &&
                forall j :: 0 <= j < i ==> fmt(items[j]).Success?
    decreases |items|
  {
    if items != [] {
      FormatAllMeaning(items[1..], fmt);
      assert forall i :: 0 < i < |items| ==> items[1..][i - 1] == items[i];
      if fmt(items[0]).Success? && FormatAll(items[1..], fmt).Failure? {
        var i :| 0 <= i < |items[1..]| && fmt(items[1..][i]).Failure? && FormatAll(items[1..], fmt).error == fmt(items[1..][i]).error &&
                 forall j :: 0 <= j < i ==> fmt(items[1..][j]).Success?;
        assert fmt(items[i + 1]).Failure?;
      }
    }
  }

  /** The in-place loop `for item in items: ...` that `FormatAll` describes. */
  method FormatEach(items: seq<Record>, fmt: Record -> Result<Record>) returns (r: Result<seq<Record>>)
    ensures r == FormatAll(items, fmt)
  {
    FormatAllMeaning(items, fmt);
    var out := items;
    var i := 0;
    while i < |out|
      invariant 0 <= i <= |out| == |items|
      invariant forall j :: 0 <= j < i ==> fmt(items[j]).Success? && out[j] == fmt(items[j]).value
      invariant forall j :: i <= j < |out| ==> out[j] == items[j]
    {
      var item := fmt(out[i]);
      if item.Failure? {
        assert forall j :: 0 <= j < i ==> fmt(items[j]).Success?;
        FirstFailure(items, fmt, i);
        return Failure(item.error);
      }
      out := out[i := item.value];
      i := i + 1;
    }
    assert FormatAll(items, fmt).Success?;
    assert FormatAll(items, fmt).value == out;
    return Success(out);
  }

  /** The first dict that does not convert decides the error. */
  lemma FirstFailure(items: seq<Record>, fmt: Record -> Result<Record>, i: int)
    requires 0 <= i < |items| && fmt(items[i]).Failure?
    requires forall j :: 0 <= j < i ==> fmt(items[j]).Success?
    ensures FormatAll(items, fmt) == Failure(fmt(items[i]).error)
  {
    FormatAllMeaning(items, fmt);
    var k :| 0 <= k < |items| && fmt(items[k]).Failure? && FormatAll(items, fmt).error == fmt(items[k]).error &&
             forall j :: 0 <= j < k ==> fmt(items[j]).Success?;
    assert k == i;
  }

  // --------------------------------------------------- targets of one compound

  /** The dict `get_compound_targets` returns, without the score mean and range. */
  datatype CompoundTargetList = CompoundTargetList(targets: seq<Record>, total: nat)

  /** `get_compound_targets`: the predictions as dicts, missing values as "", numbers converted. */
  function TargetsOfCompound(dirs: seq<PredictionDir>, reference: Frame, aliases: Aliases,
                             compoundType: string, compoundId: int, parse: FloatParser): (r: Result<CompoundTargetList>)
    ensures r.Success? ==> r.value.total == |r.value.targets|
    ensures DirName(compoundType).None? ==> r == Success(CompoundTargetList([], 0))
  {
    var df :- CompoundTargets(dirs, reference, aliases, compoundType, compoundId);
    if df.None? || IsEmpty(df.value) then Success(CompoundTargetList([], 0))
    else
      var targets :- FormatAll(Records(FillNa(df.value, Str(""))), item => TargetFields(item, parse));
      Success(CompoundTargetList(targets, |targets|))
  }

  method GetCompoundTargets(dirs: seq<PredictionDir>, reference: Frame, aliases: Aliases,
                            compoundType: string, compoundId: int, parse: FloatParser) returns (r: Result<CompoundTargetList>)
    ensures r == TargetsOfCompound(dirs, reference, aliases, compoundType, compoundId, parse)
  {
    var df := CompoundTargets(dirs, reference, aliases, compoundType, compoundId);
    if df.Failure? {
      return Failure(df.error);
    }
    if df.value.None? || IsEmpty(df.value.value) {
      return Success(CompoundTargetList([], 0));
    }
    var formatted := FormatEach(Records(FillNa(df.value.value, Str(""))), item => TargetFields(item, parse));
    if formatted.Failure? {
      return Failure(formatted.error);
    }
    return Success(CompoundTargetList(formatted.value, |formatted.value|));
  }

  /**
   * A compound with a non-empty prediction file gets one dict per prediction
   * row, in file order: its keys are the enriched frame's columns, and every
   * entry other than the score and the two counts holds that row's value, with
   * "" for missing. Without such a file the list is empty.
   */
  lemma TargetsOfCompoundRows(dirs: seq<PredictionDir>, reference: Frame, aliases: Aliases,
                              compoundType: string, compoundId: int, parse: FloatParser, i: int, k: string)
    requires TargetsOfCompound(dirs, reference, aliases, compoundType, compoundId, parse).Success?
    ensures var r := TargetsOfCompound(dirs, reference, aliases, compoundType, compoundId, parse).value;
            var df := CompoundTargets(dirs, reference, aliases, compoundType, compoundId).value;
            && (df.None? || IsEmpty(df.value) ==> r.targets == [])
            && (df.Some? && !IsEmpty(df.value) ==>
                  && r.total == |df.value.rows|
                  && (0 <= i < |df.value.rows| ==>
                        && Keys(r.targets[i]) == df.value.columns
                        && (k != ScoreField && k !in CountFields ==>
                              Lookup(r.targets[i], k) ==
                              if k in df.value.columns then Some(FillCell(Get(df.value.rows[i], k), Str(""))) else None)))
  {
    var df := CompoundTargets(dirs, reference, aliases, compoundType, compoundId).value;
    if df.Some? && !IsEmpty(df.value) {
      var f := df.value;
      var filled := FillNa(f, Str(""));
      var recs := Records(filled);
      var fmt := item => TargetFields(item, parse);
      FormatAllMeaning(recs, fmt);
      if 0 <= i < |f.rows| {
        KeysRecordOf(filled.columns, filled.rows[i]);
        LookupRecordOf(filled.columns, filled.rows[i], k);
        assert fmt(recs[i]) == TargetFields(recs[i], parse);
      }
    }
  }

  // ------------------------------------------------------------- target list

  /** The fields the list searches. */
  const TargetSearchFields: seq<string> := ["gene_name", "gene_symbol", "protein_names", "function_cc"]

  /** The columns a list item carries, when the aggregate has them. */
  const TargetColumns: seq<string> := [
    "gene_name", "gene_symbol", "species", "prediction_count",
    "compound_count", "avg_score", "uniprot_id", "protein_names"
  ]

  /**
   * What `get_targets_list` returns: with no targets at all, the short page
   * description `{page: 1, page_size, total: 0, total_pages: 0}`; otherwise a page.
   */
  datatype TargetList = NoTargets(pageSize: int) | TargetPage(items: seq<Record>, pagination: PageInfo)

  /** The rows a non-empty search term matches in any of the search fields. */
  function Searched(all: Frame, search: Option<string>): (r: Frame)
    ensures r.columns == all.columns
    ensures search.None? || search.value == "" ==> r == all
    ensures search.Some? && search.value != "" ==>
              forall row :: row in r.rows <==>
                row in all.rows && exists c | c in TargetSearchFields && c in all.columns :: ContainsIgnoreCase(CellText(Get(row, c)), search.value)
  {
    if search.Some? && search.value != "" then Search(all, TargetSearchFields, search.value) else all
  }

  /** `sort_values(by=sort_by, ascending=(sort_order == 'asc'))`, only when `sort_by` is a column. */
  function Sorted(f: Frame, sortBy: string, sortOrder: string): (r: Frame)
    ensures r.columns == f.columns
    ensures multiset(r.rows) == multiset(f.rows)
    ensures sortBy in f.columns ==> SortedBy(r.rows, sortBy, sortOrder == "asc")
    ensures sortBy !in f.columns ==> r == f
  {
    if sortBy in f.columns then SortValues(f, sortBy, sortOrder == "asc") else f
  }

  /** `get_targets_list` over the aggregate. */
  function ListOfTargets(all: Frame, page: int, pageSize: int, search: Option<string>, sortBy: string, sortOrder: string,
                         parse: FloatParser, round4: CompoundService.Rounder): (r: Result<TargetList>)
    ensures IsEmpty(all) ==> r == Success(NoTargets(pageSize))
    ensures !IsEmpty(all) && pageSize == 0 ==> r.Failure?
  {
    if IsEmpty(all) then Success(NoTargets(pageSize))
    else
      var sorted := Sorted(Searched(all, search), sortBy, sortOrder);
      var paged :- PaginateFrame(sorted.rows, page, pageSize);
      var items :- FormatAll(CompoundService.DisplayRecords(Frame(sorted.columns, paged.items), TargetColumns),
                             item => ListFields(item, parse, round4));
      Success(TargetPage(items, paged.info))
  }

  function TargetsList(dirs: seq<PredictionDir>, reference: Frame, aliases: Aliases, page: int, pageSize: int,
                       search: Option<string>, sortBy: string, sortOrder: string,
                       parse: FloatParser, round4: CompoundService.Rounder): Result<TargetList>
  {
    var all :- UniqueTargets(dirs, reference, aliases, parse);
    ListOfTargets(all, page, pageSize, search, sortBy, sortOrder, parse, round4)
  }

  method GetTargetsList(dirs: seq<PredictionDir>, reference: Frame, aliases: Aliases, page: int, pageSize: int,
                        search: Option<string>, sortBy: string, sortOrder: string,
                        parse: FloatParser, round4: CompoundService.Rounder) returns (r: Result<TargetList>)
    ensures r == TargetsList(dirs, reference, aliases, page, pageSize, search, sortBy, sortOrder, parse, round4)
  {
    var all := UniqueTargets(dirs, reference, aliases, parse);
    if all.Failure? {
      return Failure(all.error);
    }
    if IsEmpty(all.value) {
      return Success(NoTargets(pageSize));
    }
    var sorted := Sorted(Searched(all.value, search), sortBy, sortOrder);
    var paged := PaginateFrame(sorted.rows, page, pageSize);
    if paged.Failure? {
      return Failure(paged.error);
    }
    var items := CompoundService.DisplayRecords(Frame(sorted.columns, paged.value.items), TargetColumns);
    var formatted := FormatEach(items, item => ListFields(item, parse, round4));
    if formatted.Failure? {
      return Failure(formatted.error);
    }
    return Success(TargetPage(formatted.value, paged.value.info));
  }

  /**
   * For a positive page and page size, a successful list over a non-empty
   * aggregate reports the number of search matches as its total and returns at
   * most a page of items; item `i` is row `(page-1)*size + i` of the sorted
   * matches, its keys the display columns the aggregate has, each entry other
   * than the average score and the counts holding that row's value with "" for
   * missing.
   */
  lemma ListOfTargetsItems(all: Frame, page: int, pageSize: int, search: Option<string>, sortBy: string, sortOrder: string,
                           parse: FloatParser, round4: CompoundService.Rounder, i: int, k: string)
    requires page >= 1 && pageSize >= 1 && !IsEmpty(all)
    requires ListOfTargets(all, page, pageSize, search, sortBy, sortOrder, parse, round4).Success?
    ensures var r := ListOfTargets(all, page, pageSize, search, sortBy, sortOrder, parse, round4).value;
            && r.TargetPage?
            && r.pagination.total == |Searched(all, search).rows|
            && |r.items| <= pageSize
    ensures var r := ListOfTargets(all, page, pageSize, search, sortBy, sortOrder, parse, round4).value;
            var rows := Sorted(Searched(all, search), sortBy, sortOrder).rows;
            0 <= i < |r.items| ==>
              && 0 <= (page - 1) * pageSize + i < |rows|
              && Keys(r.items[i]) == Present(TargetColumns, all.columns)
              && (k != AvgScoreField && k !in CountFields ==>
                    Lookup(r.items[i], k) ==
                    if k in TargetColumns && k in all.columns then Some(FillCell(Get(rows[(page - 1) * pageSize + i], k), Str("")))
                    else None)
  {
    var sorted := Sorted(Searched(all, search), sortBy, sortOrder);
    assert |sorted.rows| == |Searched(all, search).rows| by {
      assert |multiset(sorted.rows)| == |multiset(Searched(all, search).rows)|;
    }
    WindowSlice(sorted.rows, page, pageSize);
    var w := Window(sorted.rows, page, pageSize);
    var pf := Frame(sorted.columns, w.items);
    var items := CompoundService.DisplayRecords(pf, TargetColumns);
    var fmt := item => ListFields(item, parse, round4);
    FormatAllMeaning(items, fmt);
    if 0 <= i < |w.items| {
      WindowItem(sorted.rows, page, pageSize, i);
      CompoundService.DisplayRecordAt(pf, TargetColumns, i, k);
      assert fmt(items[i]) == ListFields(items[i], parse, round4);
    }
  }

  // ------------------------------------------------------------ target detail

  /** An entry of `associated_compounds`: the prediction with the compound's id, name and formula. */
  datatype Associated = Associated(hit: Hit, globalId: Cell, chineseName: Cell, molecularFormula: Cell)

  datatype TargetDetail = TargetDetail(target: Record, compounds: seq<Associated>, count: nat)

  /** A compound-table row of the given class carrying the given per-class id. */
  predicate IsCompound(row: Row, compoundType: string, localId: int)
  {
    CellEq(Get(row, "compound_type"), Str(compoundType)) && CellEq(Get(row, "id"), Num(localId as real))
  }

  /**
   * `_get_compound_info_by_type_and_id`: the first compound row of the class with
   * that per-class id, as a dict; a table without either column raises `KeyError`.
   */
  function CompoundInfo(table: Frame, compoundType: string, localId: int): (r: Result<Option<Record>>)
    ensures r.Failure? <==> "compound_type" !in table.columns || "id" !in table.columns
    ensures r.Success? ==> (r.value.Some? <==> exists row :: row in table.rows && IsCompound(row, compoundType, localId))
  {
    if "compound_type" !in table.columns then Failure("'compound_type'")
    else if "id" !in table.columns then Failure("'id'")
    else
      var hits := Select(Select(table.rows, Equals("compound_type", Str(compoundType))), Equals("id", Num(localId as real)));
      if hits == [] then Success(None)
      else
        assert hits[0] in hits;
        Success(Some(RecordOf(table.columns, hits[0])))
  }

  /** `d.get(k, default)`. */
  function GetOr(rec: Record, k: string, default: Cell): Cell
  {
    match Lookup(rec, k) case Some(v) => v case None => default
  }

  /** One prediction with its compound's details, or nothing when the table lacks the compound. */
  function Associate(table: Frame, h: Hit): (r: Result<Option<Associated>>)
    ensures r.Success? && r.value.Some? ==> r.value.value.hit == h
  {
    var info :- CompoundInfo(table, h.compoundType, h.compoundId);
    if info.None? || info.value == [] then Success(None)
    else
      match Lookup(info.value, "global_id")
      case None => Failure("'global_id'")
      case Some(g) => Success(Some(Associated(h, g, GetOr(info.value, "chinese_name", Str("")), GetOr(info.value, "Molecular_Formula", Str("")))))
  }

  /** The enrichment loop: the predictions whose compound is in the table, in order. */
  function AssociateAll(table: Frame, hits: seq<Hit>): (r: Result<seq<Associated>>)
    decreases |hits|
  {
    if hits == [] then Success([])
    else
      var first :- Associate(table, hits[0]);
      var rest :- AssociateAll(table, hits[1..]);
      Success((if first.Some? then [first.value] else []) + rest)
  }

  predicate HasCompoundColumns(table: Frame)
  {
    "compound_type" in table.columns && "id" in table.columns && "global_id" in table.columns
  }

  /** With a compound table that has the class, id and global id columns, the enrichment succeeds. */
  lemma {:induction false} AssociateAllSucceeds(table: Frame, hits: seq<Hit>)
    requires HasCompoundColumns(table)
    ensures AssociateAll(table, hits).Success?
    ensures |AssociateAll(table, hits).value| <= |hits|
    decreases |hits|
  {
    if hits != [] {
      AssociateAllSucceeds(table, hits[1..]);
      AssociateOne(table, hits[0]);
    }
  }

  /**
   * Every kept prediction is one of the input's whose compound is in the table,
   * with the global id of a matching row.
   */
  lemma {:induction false} AssociateAllSound(table: Frame, hits: seq<Hit>)
    requires HasCompoundColumns(table)
    ensures AssociateAll(table, hits).Success?
    ensures forall a :: a in AssociateAll(table, hits).value ==>
              a.hit in hits &&
              exists row :: row in table.rows && IsCompound(row, a.hit.compoundType, a.hit.compoundId) && a.globalId == Get(row, "global_id")
    decreases |hits|
  {
    AssociateAllSucceeds(table, hits);
    if hits != [] {
      AssociateAllSound(table, hits[1..]);
      AssociateOne(table, hits[0]);
      assert forall h :: h in hits[1..] ==> h in hits;
    }
  }

  /** A prediction whose compound is in the table is kept. */
  lemma {:induction false} AssociateAllComplete(table: Frame, hits: seq<Hit>, h: Hit)
    requires HasCompoundColumns(table)
    requires h in hits && exists row :: row in table.rows && IsCompound(row, h.compoundType, h.compoundId)
    ensures AssociateAll(table, hits).Success?
    ensures exists a :: a in AssociateAll(table, hits).value && a.hit == h
    decreases |hits|
  {
    AssociateAllSucceeds(table, hits);
    AssociateOne(table, hits[0]);
    var first := Associate(table, hits[0]).value;
    var rest := AssociateAll(table, hits[1..]).value;
    assert AssociateAll(table, hits).value == (if first.Some? then [first.value] else []) + rest;
    if h == hits[0] {
      assert first.value in AssociateAll(table, hits).value;
    } else {
      assert h in hits[1..];
      AssociateAllComplete(table, hits[1..], h);
      var a :| a in rest && a.hit == h;
      assert a in AssociateAll(table, hits).value;
    }
  }

  /** One prediction: kept exactly when its compound is in the table, with that row's global id. */
  lemma AssociateOne(table: Frame, h: Hit)
    requires HasCompoundColumns(table)
    ensures Associate(table, h).Success?
    ensures Associate(table, h).value.Some? <==> exists row :: row in table.rows && IsCompound(row, h.compoundType, h.compoundId)
    ensures Associate(table, h).value.Some? ==>
              exists row :: row in table.rows && IsCompound(row, h.compoundType, h.compoundId) &&
                Associate(table, h).value.value.globalId == Get(row, "global_id")
  {
    var info := CompoundInfo(table, h.compoundType, h.compoundId).value;
    if info.Some? {
      var hits := Select(Select(table.rows, Equals("compound_type", Str(h.compoundType))), Equals("id", Num(h.compoundId as real)));
      assert hits[0] in hits;
      LookupRecordOf(table.columns, hits[0], "global_id");
      assert info.value != [] by { KeysRecordOf(table.columns, hits[0]); }
    }
  }

  lemma AssociateAllStep(table: Frame, hits: seq<Hit>, i: nat)
    requires i < |hits|
    ensures AssociateAll(table, hits[i..]) ==
              (var one := Associate(table, hits[i]);
               if one.Failure? then Failure(one.error)
               else var rest := AssociateAll(table, hits[i + 1..]);
                    if rest.Failure? then rest
                    else Success((if one.value.Some? then [one.value.value] else []) + rest.value))
  {
    assert hits[i..][0] == hits[i] && hits[i..][1..] == hits[i + 1..];
  }

  /** The loop `for comp in compounds: ... enriched_compounds.append(...)`. */
  method EnrichCompounds(table: Frame, hits: seq<Hit>) returns (r: Result<seq<Associated>>)
    ensures r == AssociateAll(table, hits)
  {
    ghost var whole := AssociateAll(table, hits);
    var enriched: seq<Associated> := [];
    var i := 0;
    assert hits[0..] == hits;
    assert whole.Success? ==> enriched + whole.value == whole.value;
    while i < |hits|
      invariant 0 <= i <= |hits|
      invariant AssociateAll(table, hits[i..]).Failure? ==> whole == AssociateAll(table, hits[i..])
      invariant AssociateAll(table, hits[i..]).Success? ==> whole == Success(enriched + AssociateAll(table, hits[i..]).value)
    {
      AssociateAllStep(table, hits, i);
      var one := Associate(table, hits[i]);
      if one.Failure? {
        return Failure(one.error);
      }
      ghost var rest := AssociateAll(table, hits[i + 1..]);
      ghost var before := enriched;
      ghost var here: seq<Associated> := if one.value.Some? then [one.value.value] else [];
      if one.value.Some? {
        enriched := enriched + [one.value.value];
      }
      assert enriched == before + here;
      if rest.Success? {
        AppendStep(before, here, rest.value, whole.value);
      }
      i := i + 1;
    }
    assert hits[|hits|..] == [];
    assert enriched + [] == enriched;
    return Success(enriched);
  }

  /**
   * `get_target_detail`: the target with missing values as None and the
   * compounds predicted for it that the compound table holds, with their number.
   */
  function TargetDetailOf(dirs: seq<PredictionDir>, reference: Frame, aliases: Aliases, parse: FloatParser,
                          table: Frame, name: string): (r: Result<Option<TargetDetail>>)
    ensures r.Success? && r.value.Some? ==> r.value.value.count == |r.value.value.compounds|
    ensures r.Success? && r.value.Some? ==> forall j :: 0 <= j < |r.value.value.target| ==> !r.value.value.target[j].1.NaN?
  {
    var target :- TargetByGeneName(dirs, reference, aliases, parse, name);
    if target.None? || target.value == [] then Success(None)
    else
      var compounds :- CompoundsByTarget(dirs, aliases, name, parse);
      var enriched :- AssociateAll(table, compounds);
      Success(Some(TargetDetail(WithNoneForNA(target.value), enriched, |enriched|)))
  }

  method GetTargetDetail(dirs: seq<PredictionDir>, reference: Frame, aliases: Aliases, parse: FloatParser,
                         table: Frame, name: string) returns (r: Result<Option<TargetDetail>>)
    ensures r == TargetDetailOf(dirs, reference, aliases, parse, table, name)
  {
    var target := TargetByGeneName(dirs, reference, aliases, parse, name);
    if target.Failure? {
      return Failure(target.error);
    }
    if target.value.None? || target.value.value == [] {
      return Success(None);
    }
    var cleaned := NaNToNone(target.value.value);
    var compounds := CompoundsByTarget(dirs, aliases, name, parse);
    if compounds.Failure? {
      return Failure(compounds.error);
    }
    var enriched := EnrichCompounds(table, compounds.value);
    if enriched.Failure? {
      return Failure(enriched.error);
    }
    return Success(Some(TargetDetail(cleaned, enriched.value, |enriched.value|)));
  }

  /**
   * With the alias map built from the reference table, a detail exists exactly
   * when some reference row carries the query's symbol; it records the query,
   * and each associated compound is a prediction for the query found in the
   * compound table.
   */
  lemma TargetDetailFound(dirs: seq<PredictionDir>, reference: Frame, parse: FloatParser, table: Frame, name: string)
    requires HasCompoundColumns(table)
    requires TargetDetailOf(dirs, reference, AliasMap(reference), parse, table, name).Success?
    ensures var aliases := AliasMap(reference);
            var r := TargetDetailOf(dirs, reference, aliases, parse, table, name).value;
            r.Some? <==> ReferenceHits(reference, SymbolFor(aliases, name)) != []
    ensures var aliases := AliasMap(reference);
            var r := TargetDetailOf(dirs, reference, aliases, parse, table, name).value;
            r.Some? ==>
              && Lookup(r.value.target, "queried_name") == Some(Str(name))
              && forall a :: a in r.value.compounds ==>
                   a.hit in CompoundsByTarget(dirs, aliases, name, parse).value &&
                   exists row :: row in table.rows && IsCompound(row, a.hit.compoundType, a.hit.compoundId)
  {
    var aliases := AliasMap(reference);
    var target := TargetByGeneName(dirs, reference, aliases, parse, name);
    FallbackNeverFinds(dirs, reference, parse, name);
    if target.value.Some? {
      LookupWithNoneForNA(target.value.value, "queried_name");
      assert target.value.value != [] by {
        assert Lookup(target.value.value, "queried_name").Some?;
      }
      var compounds := CompoundsByTarget(dirs, aliases, name, parse);
      if compounds.Success? {
        AssociateAllSound(table, compounds.value);
      }
    }
  }

  // --------------------------------------------------------------- statistics

  /** The columns `get_target_statistics` keeps for the top targets. */
  const TopColumns: seq<string> := ["gene_name", "gene_symbol", "prediction_count", "avg_score"]

  /** How many top targets are reported (`nlargest(10, ...)`). */
  const TopCount: nat := 10

  datatype TargetStatistics = TargetStatistics(totalTargets: nat, species: map<Cell, nat>, top: seq<Record>)

  /** `[c for c in names if c not in columns]`. */
  function Missing(names: seq<string>, columns: seq<string>): (r: seq<string>)
    ensures forall c :: c in r <==> c in names && c !in columns
  {
    if names == [] then []
    else (if names[0] in columns then [] else [names[0]]) + Missing(names[1..], columns)
  }

  /** Python's `str` of a list of strings: `['a', 'b']`. */
  function ListText(names: seq<string>): string
  {
    "[" + QuotedItems(names) + "]"
  }

  function QuotedItems(names: seq<string>): string
  {
    if names == [] then ""
    else if |names| == 1 then "'" + names[0] + "'"
    else "'" + names[0] + "', " + QuotedItems(names[1..])
  }

  /** `nlargest(10, 'prediction_count')[TopColumns]`: a missing column raises `KeyError`. */
  function TopTargets(all: Frame): (r: Result<seq<Record>>)
    ensures r.Failure? <==> exists c :: c in TopColumns && c !in all.columns
  {
    var missing := Missing(TopColumns, all.columns);
    if missing != [] then
      assert missing[0] in missing;
      Failure(ListText(missing) + " not in index")
    else Success(CompoundService.DisplayRecords(NLargest(all, TopCount, "prediction_count"), TopColumns))
  }

  /** `get_target_statistics` over the aggregate. */
  function StatisticsOf(all: Frame): (r: Result<TargetStatistics>)
    ensures IsEmpty(all) ==> r == Success(TargetStatistics(0, map[], []))
    ensures r.Success? && !IsEmpty(all) ==> r.value.totalTargets == |all.rows|
    ensures r.Success? && "species" in all.columns ==>
              forall v :: v in r.value.species <==> !IsNA(v) && exists row :: row in all.rows && Get(row, "species") == v
    ensures r.Success? ==> forall v :: v in r.value.species ==> r.value.species[v] == CountOf(all.rows, "species", v)
    ensures r.Success? ==> forall v :: v in r.value.species ==> 0 < r.value.species[v] <= |all.rows|
    ensures "species" !in all.columns ==> r.Success? ==> r.value.species == map[]
    ensures r.Failure? <==> !IsEmpty(all) && "prediction_count" in all.columns && exists c :: c in TopColumns && c !in all.columns
  {
    if IsEmpty(all) then Success(TargetStatistics(0, map[], []))
    else
      var species := if "species" in all.columns then ValueCounts(all.rows, "species") else map[];
      var top :- if "prediction_count" in all.columns then TopTargets(all) else Success([]);
      Success(TargetStatistics(|all.rows|, species, top))
  }

  function TargetStatisticsOf(dirs: seq<PredictionDir>, reference: Frame, aliases: Aliases, parse: FloatParser): Result<TargetStatistics>
  {
    var all :- UniqueTargets(dirs, reference, aliases, parse);
    StatisticsOf(all)
  }

  /**
   * The top targets are at most ten aggregate rows with a prediction count, in
   * descending order of it, each cut to the four columns; no target left out
   * has a larger count than one reported.
   */
  lemma TopTargetsLargest(all: Frame)
    requires TopTargets(all).Success?
    ensures var top := TopTargets(all).value;
            var kept := NLargest(all, TopCount, "prediction_count").rows;
            && |top| == |kept| <= TopCount
            && (forall i :: 0 <= i < |top| ==>
                  Keys(top[i]) == TopColumns &&
                  Lookup(top[i], "prediction_count") == Some(Get(kept[i], "prediction_count")) &&
                  kept[i] in all.rows)
            && (forall i, j :: 0 <= i < j < |top| ==>
                  SortsBefore(Lookup(top[i], "prediction_count").value, Lookup(top[j], "prediction_count").value, false))
    ensures forall a, b :: a in NLargest(all, TopCount, "prediction_count").rows && b in NLargestDropped(all, TopCount, "prediction_count") ==>
              SortsBefore(Get(a, "prediction_count"), Get(b, "prediction_count"), false)
  {
    var nl := NLargest(all, TopCount, "prediction_count");
    var top := TopTargets(all).value;
    assert Present(TopColumns, all.columns) == TopColumns by {
      assert forall c :: c in TopColumns ==> c in all.columns;
      PresentAll(TopColumns, all.columns);
    }
    forall i | 0 <= i < |top|
      ensures Keys(top[i]) == TopColumns
      ensures Lookup(top[i], "prediction_count") == Some(Get(nl.rows[i], "prediction_count"))
      ensures nl.rows[i] in all.rows
    {
      CompoundService.DisplayRecordAt(nl, TopColumns, i, "prediction_count");
      assert nl.rows[i] in nl.rows;
    }
    forall i, j | 0 <= i < j < |top|
      ensures SortsBefore(Lookup(top[i], "prediction_count").value, Lookup(top[j], "prediction_count").value, false)
    {
      assert Lookup(top[i], "prediction_count").value == Get(nl.rows[i], "prediction_count");
      assert Lookup(top[j], "prediction_count").value == Get(nl.rows[j], "prediction_count");
    }
    NLargestKeepsLargest(all, TopCount, "prediction_count");
  }

  lemma {:induction false} PresentAll(names: seq<string>, columns: seq<string>)
    requires forall c :: c in names ==> c in columns
    ensures Present(names, columns) == names
  {
    if names != [] {
      PresentAll(names[1..], columns);
      assert names == [names[0]] + names[1..];
    }
  }
}
