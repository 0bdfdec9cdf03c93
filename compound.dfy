/**
 * The compound table (`Compound` in models/compound.py): filtering by compound
 * type, case-insensitive search over four text fields, sorting, lookup by
 * `global_id` with the renaming of three property keys, and summary counts.
 * The loaded table is a value that no operation changes, so every operation
 * takes it as a parameter.
 */
module CompoundModel {
  import opened Wrappers
  import opened Text
  import opened Frames

  /** The columns `get_all` searches, in the order it or-s them together. */
  const SearchFields: seq<string> := ["chinese_name", "Name", "Molecular_Formula", "SMILES"]

  /** The `filters` dict: its entries in insertion order. */
  type Filters = Record

  /** Whether the filter loop acts on entry `(key, value)`: only a non-`all` compound type filters. */
  predicate FilterActs(key: string, value: Cell, columns: seq<string>)
  {
    key in columns && !value.Nil? && key == "compound_type" && value != Str("all")
  }

  /** One pass of the filter loop. */
  function ApplyFilter(f: Frame, key: string, value: Cell): (r: Frame)
    ensures r.columns == f.columns
  {
    if FilterActs(key, value, f.columns) then Frame(f.columns, Select(f.rows, Equals(key, value))) else f
  }

  /** The whole filter loop, entry by entry. */
  function ApplyFilters(f: Frame, filters: Filters): (r: Frame)
    ensures r.columns == f.columns
    decreases |filters|
  {
    if filters == [] then f else ApplyFilters(ApplyFilter(f, filters[0].0, filters[0].1), filters[1..])
  }

  /** A row satisfies every entry of the filter dict that acts. */
  predicate PassesFilters(row: Row, filters: Filters, columns: seq<string>)
  {
    forall i :: 0 <= i < |filters| && FilterActs(filters[i].0, filters[i].1, columns) ==>
      CellEq(Get(row, filters[i].0), filters[i].1)
  }

  /** Whether `get_all` searches at all: `if search:`. */
  predicate Searching(search: Option<string>) { search.Some? && search.value != "" }

  /** A row a search for `term` keeps: one of the present search fields contains it, ignoring case. */
  predicate MatchesSearch(row: Row, search: Option<string>, columns: seq<string>)
  {
    Searching(search) ==>
      exists c | c in SearchFields && c in columns :: ContainsIgnoreCase(CellText(Get(row, c)), search.value)
  }

  /**
   * `get_all`: filter, then search, then sort when the sort column exists. A search
   * over a table with none of the search fields indexes the frame with the bare
   * `False` mask, which raises.
   */
  function GetAll(table: Frame, filters: Filters, search: Option<string>, sortBy: string, sortOrder: string): (r: Result<Frame>)
    ensures r.Failure? <==> Searching(search) && Present(SearchFields, table.columns) == []
    ensures r.Success? ==> r.value.columns == table.columns
    ensures r.Success? && sortBy in table.columns ==> SortedBy(r.value.rows, sortBy, sortOrder == "asc")
  {
    var filtered := ApplyFilters(table, filters);
    if Searching(search) && Present(SearchFields, table.columns) == [] then Failure("False")
    else
      var searched := if Searching(search) then Search(filtered, SearchFields, search.value) else filtered;
      Success(if sortBy in searched.columns then SortValues(searched, sortBy, sortOrder == "asc") else searched)
  }

  /** The rows that satisfy every acting entry of the filter dict, in table order. */
  function Filtered(rows: seq<Row>, filters: Filters, columns: seq<string>): (res: seq<Row>)
    ensures forall row :: row in res <==> row in rows && PassesFilters(row, filters, columns)
  {
    if rows == [] then []
    else
      assert rows == [rows[0]] + rows[1..];
      (if PassesFilters(rows[0], filters, columns) then [rows[0]] else []) + Filtered(rows[1..], filters, columns)
  }

  /** A kept row is kept as often as it occurs in the table; a dropped row not at all. */
  lemma {:induction false} FilteredCounts(rows: seq<Row>, filters: Filters, columns: seq<string>)
    ensures forall row :: multiset(Filtered(rows, filters, columns))[row] ==
              if PassesFilters(row, filters, columns) then multiset(rows)[row] else 0
  {
    if rows != [] {
      FilteredCounts(rows[1..], filters, columns);
      assert rows == [rows[0]] + rows[1..];
    }
  }

  /** Selecting by a test and then filtering by `rest` is filtering by the test and `rest` together. */
  lemma {:induction false} FilteredAfterSelect(rows: seq<Row>, t: RowTest, filters: Filters, rest: Filters, columns: seq<string>)
    requires forall row :: PassesFilters(row, filters, columns) <==> Passes(t, row) && PassesFilters(row, rest, columns)
    ensures Filtered(Select(rows, t), rest, columns) == Filtered(rows, filters, columns)
  {
    if rows != [] {
      FilteredAfterSelect(rows[1..], t, filters, rest, columns);
      var tail := Select(rows[1..], t);
      var keep := Filtered(rows[1..], filters, columns);
      assert Filtered(tail, rest, columns) == keep;
      assert Filtered(rows, filters, columns) ==
        (if PassesFilters(rows[0], filters, columns) then [rows[0]] else []) + keep;
      if Passes(t, rows[0]) {
        var sel := [rows[0]] + tail;
        assert Select(rows, t) == sel;
        assert sel[0] == rows[0] && sel[1..] == tail;
        assert Filtered(sel, rest, columns) ==
          (if PassesFilters(rows[0], rest, columns) then [rows[0]] else []) + keep;
      } else {
        assert Select(rows, t) == tail;
      }
    }
  }

  /** Filtering by two filter dicts that keep the same rows gives the same rows. */
  lemma {:induction false} FilteredSame(rows: seq<Row>, filters: Filters, rest: Filters, columns: seq<string>)
    requires forall row :: PassesFilters(row, filters, columns) <==> PassesFilters(row, rest, columns)
    ensures Filtered(rows, rest, columns) == Filtered(rows, filters, columns)
  {
    if rows != [] {
      FilteredSame(rows[1..], filters, rest, columns);
    }
  }

  /** The filter loop keeps exactly the rows that satisfy every acting entry, in table order. */
  lemma {:induction false} ApplyFiltersMembers(f: Frame, filters: Filters)
    ensures ApplyFilters(f, filters).rows == Filtered(f.rows, filters, f.columns)
    ensures forall row :: row in ApplyFilters(f, filters).rows <==> row in f.rows && PassesFilters(row, filters, f.columns)
    decreases |filters|
  {
    if filters == [] {
      FilteredSame(f.rows, [], [], f.columns);
      SelectAllFiltered(f.rows, f.columns);
    } else {
      var g := ApplyFilter(f, filters[0].0, filters[0].1);
      ApplyFiltersMembers(g, filters[1..]);
      var acts := FilterActs(filters[0].0, filters[0].1, f.columns);
      forall row ensures PassesFilters(row, filters, f.columns) <==>
          (acts ==> CellEq(Get(row, filters[0].0), filters[0].1)) &&
          PassesFilters(row, filters[1..], f.columns)
      {
        assert forall i :: 0 < i < |filters| ==> filters[1..][i - 1] == filters[i];
      }
      if acts {
        FilteredAfterSelect(f.rows, Equals(filters[0].0, filters[0].1), filters, filters[1..], f.columns);
      } else {
        FilteredSame(f.rows, filters, filters[1..], f.columns);
      }
    }
  }

  /** An empty filter dict keeps every row. */
  lemma {:induction false} SelectAllFiltered(rows: seq<Row>, columns: seq<string>)
    ensures Filtered(rows, [], columns) == rows
  {
    if rows != [] {
      SelectAllFiltered(rows[1..], columns);
      assert [rows[0]] + rows[1..] == rows;
    }
  }

  /**
   * The rows of a successful `get_all` are the table rows that pass the filters
   * and the search, each as often as in the table.
   */
  lemma GetAllMembers(table: Frame, filters: Filters, search: Option<string>, sortBy: string, sortOrder: string)
    requires GetAll(table, filters, search, sortBy, sortOrder).Success?
    ensures forall row :: multiset(GetAll(table, filters, search, sortBy, sortOrder).value.rows)[row] ==
              if PassesFilters(row, filters, table.columns) && MatchesSearch(row, search, table.columns)
              then multiset(table.rows)[row] else 0
    ensures forall row :: row in GetAll(table, filters, search, sortBy, sortOrder).value.rows <==>
              row in table.rows && PassesFilters(row, filters, table.columns) && MatchesSearch(row, search, table.columns)
  {
    ApplyFiltersMembers(table, filters);
    FilteredCounts(table.rows, filters, table.columns);
    var filtered := ApplyFilters(table, filters);
    var matching := Matching(table, filters, search);
    var all := GetAll(table, filters, search, sortBy, sortOrder).value.rows;
    assert multiset(all) == multiset(matching);
    forall row ensures multiset(matching)[row] ==
        if PassesFilters(row, filters, table.columns) && MatchesSearch(row, search, table.columns)
        then multiset(table.rows)[row] else 0
    {
      assert multiset(filtered.rows)[row] ==
        if PassesFilters(row, filters, table.columns) then multiset(table.rows)[row] else 0;
    }
    forall row ensures row in all <==> row in matching {
      assert row in all <==> row in multiset(all);
    }
  }

  /** The rows of `get_all` before sorting. */
  function Matching(table: Frame, filters: Filters, search: Option<string>): seq<Row>
  {
    var filtered := ApplyFilters(table, filters);
    if Searching(search) then Search(filtered, SearchFields, search.value).rows else filtered.rows
  }

  /** Sorting only reorders: whatever the sort, `get_all` returns the same rows. */
  lemma GetAllSortIsPermutation(table: Frame, filters: Filters, search: Option<string>, sortBy: string, sortOrder: string)
    requires GetAll(table, filters, search, sortBy, sortOrder).Success?
    ensures multiset(GetAll(table, filters, search, sortBy, sortOrder).value.rows) == multiset(Matching(table, filters, search))
  {
  }

  /** `count`: the number of rows `get_all` returns with the default sort. */
  function Count(table: Frame, filters: Filters, search: Option<string>): (r: Result<nat>)
    ensures r.Failure? <==> Searching(search) && Present(SearchFields, table.columns) == []
  {
    var all := GetAll(table, filters, search, "global_id", "asc");
    if all.Failure? then Failure(all.error) else Success(|all.value.rows|)
  }

  /** The count is the number of matching rows, so it agrees with `get_all` under every sort. */
  lemma CountAgreesWithGetAll(table: Frame, filters: Filters, search: Option<string>, sortBy: string, sortOrder: string)
    requires Count(table, filters, search).Success?
    ensures GetAll(table, filters, search, sortBy, sortOrder).Success?
    ensures Count(table, filters, search).value == |GetAll(table, filters, search, sortBy, sortOrder).value.rows|
    ensures Count(table, filters, search).value == |Matching(table, filters, search)|
  {
    GetAllSortIsPermutation(table, filters, search, sortBy, sortOrder);
    GetAllSortIsPermutation(table, filters, search, "global_id", "asc");
    var a := GetAll(table, filters, search, sortBy, sortOrder).value.rows;
    var b := GetAll(table, filters, search, "global_id", "asc").value.rows;
    assert |multiset(a)| == |a| && |multiset(b)| == |b|;
  }

  // ------------------------------------------------------------- get_by_id

  /** The renaming `get_by_id` applies to the detail dict, old key to new key. */
  const RenameMap: seq<(string, string)> := [
    ("H-Bond_Donor_Count", "H_Bond_Donor_Count"),
    ("H-Bond_Acceptor_Count", "H_Bond_Acceptor_Count"),
    ("Rotatable_Bond_Count", "Rotatable_Bond_Count")
  ]

  /** `if old in d: d[new] = d.pop(old)`. */
  function RenameKey(rec: Record, oldKey: string, newKey: string): (res: Record)
    ensures Lookup(res, newKey) == if Lookup(rec, oldKey).Some? then Lookup(rec, oldKey) else Lookup(rec, newKey)
    ensures oldKey != newKey ==> Lookup(res, oldKey) == None
    ensures forall j :: j != oldKey && j != newKey ==> Lookup(res, j) == Lookup(rec, j)
  {
    match Lookup(rec, oldKey)
    case None => rec
    case Some(v) => DictSet(DictPop(rec, oldKey), newKey, v)
  }

  /** The renaming loop over the pairs still to do. */
  function RenameKeys(rec: Record, pairs: seq<(string, string)>): Record
    decreases |pairs|
  {
    if pairs == [] then rec else RenameKeys(RenameKey(rec, pairs[0].0, pairs[0].1), pairs[1..])
  }

  /**
   * After the renaming the hyphenated keys are gone, their values sit under the
   * underscored keys, `Rotatable_Bond_Count` keeps its value and no other key changes.
   */
  lemma RenameEffect(rec: Record)
    ensures var out := RenameKeys(rec, RenameMap);
            && Lookup(out, "H-Bond_Donor_Count") == None
            && Lookup(out, "H-Bond_Acceptor_Count") == None
            && Lookup(out, "H_Bond_Donor_Count") ==
               (if Lookup(rec, "H-Bond_Donor_Count").Some? then Lookup(rec, "H-Bond_Donor_Count") else Lookup(rec, "H_Bond_Donor_Count"))
            && Lookup(out, "H_Bond_Acceptor_Count") ==
               (if Lookup(rec, "H-Bond_Acceptor_Count").Some? then Lookup(rec, "H-Bond_Acceptor_Count") else Lookup(rec, "H_Bond_Acceptor_Count"))
            && Lookup(out, "Rotatable_Bond_Count") == Lookup(rec, "Rotatable_Bond_Count")
            && forall k :: k !in ["H-Bond_Donor_Count", "H_Bond_Donor_Count", "H-Bond_Acceptor_Count", "H_Bond_Acceptor_Count"] ==>
                 Lookup(out, k) == Lookup(rec, k)
  {
    var r1 := RenameKey(rec, "H-Bond_Donor_Count", "H_Bond_Donor_Count");
    var r2 := RenameKey(r1, "H-Bond_Acceptor_Count", "H_Bond_Acceptor_Count");
    var r3 := RenameKey(r2, "Rotatable_Bond_Count", "Rotatable_Bond_Count");
    assert RenameKeys(rec, RenameMap) == RenameKeys(r1, RenameMap[1..]);
    assert RenameKeys(r1, RenameMap[1..]) == RenameKeys(r2, RenameMap[2..]);
    assert RenameKeys(r2, RenameMap[2..]) == RenameKeys(r3, RenameMap[3..]) == r3;
  }

  /** A key outside the renamed ones keeps its value. */
  lemma RenameKeepsOthers(rec: Record, k: string)
    requires k !in ["H-Bond_Donor_Count", "H_Bond_Donor_Count", "H-Bond_Acceptor_Count", "H_Bond_Acceptor_Count"]
    ensures Lookup(RenameKeys(rec, RenameMap), k) == Lookup(rec, k)
  {
    RenameEffect(rec);
  }

  lemma RenameKeepsGlobalId(rec: Record)
    ensures Lookup(RenameKeys(rec, RenameMap), "global_id") == Lookup(rec, "global_id")
  {
    RenameKeepsOthers(rec, "global_id");
  }

  /** The first row whose `global_id` equals `id`, as a dict with its keys renamed. */
  function ById(table: Frame, id: int): (r: Result<Option<Record>>)
    ensures r.Failure? <==> "global_id" !in table.columns
  {
    if "global_id" !in table.columns then Failure("'global_id'")
    else
      var hits := Select(table.rows, Equals("global_id", Num(id as real)));
      if hits == [] then Success(None)
      else Success(Some(RenameKeys(RecordOf(table.columns, hits[0]), RenameMap)))
  }

  /** A lookup finds a compound exactly when some row carries the id. */
  lemma ByIdFound(table: Frame, id: int)
    requires "global_id" in table.columns
    ensures ById(table, id).value.Some? <==> exists row :: row in table.rows && Get(row, "global_id") == Num(id as real)
  {
    var hits := Select(table.rows, Equals("global_id", Num(id as real)));
    if hits != [] {
      assert hits[0] in hits;
    }
  }

  /** `get_by_id`, with the renaming loop. */
  method GetById(table: Frame, id: int) returns (r: Result<Option<Record>>)
    ensures r == ById(table, id)
  {
    if "global_id" !in table.columns {
      return Failure("'global_id'");
    }
    var hits := Select(table.rows, Equals("global_id", Num(id as real)));
    if hits == [] {
      return Success(None);
    }
    var start := RecordOf(table.columns, hits[0]);
    var rec := start;
    var i := 0;
    while i < |RenameMap|
      invariant 0 <= i <= |RenameMap|
      invariant RenameKeys(rec, RenameMap[i..]) == RenameKeys(start, RenameMap)
    {
      var (oldKey, newKey) := RenameMap[i];
      if Lookup(rec, oldKey).Some? {
        var v := Lookup(rec, oldKey).value;
        rec := DictSet(DictPop(rec, oldKey), newKey, v);
      }
      assert RenameMap[i..][1..] == RenameMap[i + 1..];
      i := i + 1;
    }
    return Success(Some(rec));
  }

  // ------------------------------------------------------------ statistics

  datatype Statistics = Statistics(total: nat, byType: map<Cell, nat>, withSmiles: nat, withPubchemId: nat)

  /** `get_statistics`: row count, rows per compound type, rows with a SMILES and with a PubChem id. */
  function GetStatistics(table: Frame): (s: Statistics)
    ensures s.total == |table.rows|
    ensures s.withSmiles <= s.total && s.withPubchemId <= s.total
    ensures "SMILES" !in table.columns ==> s.withSmiles == 0
    ensures "Compound_CID" !in table.columns ==> s.withPubchemId == 0
    ensures "compound_type" !in table.columns ==> s.byType == map[]
    ensures "compound_type" in table.columns ==>
              forall v :: v in s.byType <==> !IsNA(v) && exists r :: r in table.rows && Get(r, "compound_type") == v
    ensures forall v :: v in s.byType ==> 0 < s.byType[v] == CountOf(table.rows, "compound_type", v) <= s.total
    ensures "SMILES" in table.columns ==> s.withSmiles == |NonMissing(table.rows, "SMILES")|
    ensures "Compound_CID" in table.columns ==> s.withPubchemId == |NonMissing(table.rows, "Compound_CID")|
  {
    NotNaCountIsNonMissing(table.rows, "SMILES");
    NotNaCountIsNonMissing(table.rows, "Compound_CID");
    Statistics(
      |table.rows|,
      if "compound_type" in table.columns then ValueCounts(table.rows, "compound_type") else map[],
      if "SMILES" in table.columns then NotNaCount(table.rows, "SMILES") else 0,
      if "Compound_CID" in table.columns then NotNaCount(table.rows, "Compound_CID") else 0)
  }
}
