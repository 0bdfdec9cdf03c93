/**
 * The part of pandas the application relies on: cells, rows and frames, boolean
 * selection, case-insensitive search, `sort_values`, `head`, column projection,
 * `fillna`, `value_counts`, a left `merge` and `to_dict('records')`.
 */
module Frames {
  import opened Wrappers
  import opened Text

  /** A cell: NaN, Python `None`, a number, a string, or a list of names (kept as a set). */
  datatype Cell = NaN | Nil | Num(value: real) | Str(text: string) | Names(names: set<string>)

  /** `pd.isna`. */
  predicate IsNA(c: Cell) { c.NaN? || c.Nil? }

  /** Python truthiness of a cell value: NaN is truthy; None, 0, "" and an empty list are not. */
  predicate Truthy(c: Cell)
  {
    match c
    case NaN => true
    case Nil => false
    case Num(v) => v != 0.0
    case Str(s) => s != ""
    case Names(n) => n != {}
  }

  /**
   * `str(value)` (`astype(str)`) for the cells whose text the model fixes: whole
   * numbers print as integers; other numbers and lists have no text in the model.
   */
  function CellText(c: Cell): string
  {
    match c
    case NaN => "nan"
    case Nil => "None"
    case Str(s) => s
    case Num(v) => if v == v.Floor as real then IntToString(v.Floor) else ""
    case Names(_) => ""
  }

  /** Element-wise `==` between a column and a value: missing values never compare equal. */
  predicate CellEq(a: Cell, b: Cell) { !IsNA(a) && !IsNA(b) && a == b }

  /** Key equality of `pd.merge`: missing keys match each other, other keys match when equal. */
  predicate KeyMatch(a: Cell, b: Cell) { if IsNA(a) then IsNA(b) else a == b }

  type Row = map<string, Cell>

  datatype Frame = Frame(columns: seq<string>, rows: seq<Row>)

  /** The value of column `c` in a row; a column the row lacks reads as NaN. */
  function Get(r: Row, c: string): Cell { if c in r then r[c] else NaN }

  /** `DataFrame.empty`: no rows or no columns. */
  predicate IsEmpty(f: Frame) { |f.rows| == 0 || |f.columns| == 0 }

  const EmptyFrame: Frame := Frame([], [])

  predicate Distinct<T(==)>(s: seq<T>) { forall i, j :: 0 <= i < j < |s| ==> s[i] != s[j] }

  /** `[c for c in names if c in columns]`. */
  function Present(names: seq<string>, columns: seq<string>): (r: seq<string>)
    ensures forall c :: c in r <==> c in names && c in columns
    ensures |r| <= |names|
  {
    if names == [] then []
    else (if names[0] in columns then [names[0]] else []) + Present(names[1..], columns)
  }

  // ---------------------------------------------------------------- selection

  /** The row predicates the application builds as boolean masks. */
  datatype RowTest =
    | Equals(column: string, value: Cell)
    | KeyMatches(column: string, value: Cell)
    | AnyContains(fields: seq<string>, term: string)

  predicate Passes(t: RowTest, r: Row)
  {
    match t
    case Equals(c, v) => CellEq(Get(r, c), v)
    case KeyMatches(c, v) => KeyMatch(v, Get(r, c))
    case AnyContains(fs, term) => exists i | 0 <= i < |fs| :: ContainsIgnoreCase(CellText(Get(r, fs[i])), term)
  }

  /** `rows[mask]`: the rows that pass, in their original order. */
  function Select(rows: seq<Row>, t: RowTest): (res: seq<Row>)
    ensures |res| <= |rows|
    ensures forall r :: r in res <==> r in rows && Passes(t, r)
    ensures multiset(res) <= multiset(rows)
  {
    if rows == [] then []
    else
      var rest := Select(rows[1..], t);
      assert rows == [rows[0]] + rows[1..];
      (if Passes(t, rows[0]) then [rows[0]] else []) + rest
  }

  /** A passing row is selected as often as it occurs; a failing row never. */
  lemma {:induction false} SelectCounts(rows: seq<Row>, t: RowTest)
    ensures forall r :: multiset(Select(rows, t))[r] == if Passes(t, r) then multiset(rows)[r] else 0
  {
    if rows != [] {
      SelectCounts(rows[1..], t);
      assert rows == [rows[0]] + rows[1..];
    }
  }

  /** Selection keeps exactly the passing rows: all of them when every row passes. */
  lemma {:induction false} SelectAllPass(rows: seq<Row>, t: RowTest)
    requires forall r :: r in rows ==> Passes(t, r)
    ensures Select(rows, t) == rows
  {
    if rows != [] {
      SelectAllPass(rows[1..], t);
      assert [rows[0]] + rows[1..] == rows;
    }
  }

  /**
   * `str.contains(term, case=False, na=False)` over the listed fields that the
   * frame has, or-ed together.
   */
  function Search(f: Frame, fields: seq<string>, term: string): (r: Frame)
    ensures r.columns == f.columns
    ensures forall row :: row in r.rows <==>
              row in f.rows && exists c | c in fields && c in f.columns :: ContainsIgnoreCase(CellText(Get(row, c)), term)
    ensures forall row :: multiset(r.rows)[row] ==
              if exists c | c in fields && c in f.columns :: ContainsIgnoreCase(CellText(Get(row, c)), term)
              then multiset(f.rows)[row] else 0
  {
    var present := Present(fields, f.columns);
    var res := Select(f.rows, AnyContains(present, term));
    SelectCounts(f.rows, AnyContains(present, term));
    assert forall row :: Passes(AnyContains(present, term), row) <==>
        exists c | c in fields && c in f.columns :: ContainsIgnoreCase(CellText(Get(row, c)), term) by {
      forall row
        ensures Passes(AnyContains(present, term), row) ==>
                exists c | c in fields && c in f.columns :: ContainsIgnoreCase(CellText(Get(row, c)), term)
      {
        if Passes(AnyContains(present, term), row) {
          var i :| 0 <= i < |present| && ContainsIgnoreCase(CellText(Get(row, present[i])), term);
          assert present[i] in present;
        }
      }
      forall row
        ensures (exists c | c in fields && c in f.columns :: ContainsIgnoreCase(CellText(Get(row, c)), term)) ==>
                Passes(AnyContains(present, term), row)
      {
        if exists c | c in fields && c in f.columns :: ContainsIgnoreCase(CellText(Get(row, c)), term) {
          var c :| c in fields && c in f.columns && ContainsIgnoreCase(CellText(Get(row, c)), term);
          assert c in present;
          var i :| 0 <= i < |present| && present[i] == c;
        }
      }
    }
    Frame(f.columns, res)
  }

  /** `df.head(n)`. */
  function Head(f: Frame, n: nat): (r: Frame)
    ensures r.columns == f.columns
    ensures |r.rows| == (if n < |f.rows| then n else |f.rows|)
    ensures r.rows <= f.rows
  {
    Frame(f.columns, f.rows[..if n < |f.rows| then n else |f.rows|])
  }

  // ------------------------------------------------------------------ ordering

  /** Python's `<=` on strings: lexicographic by code point. */
  predicate StrLe(a: string, b: string)
    decreases |a|
  {
    a == [] || (b != [] && (a[0] < b[0] || (a[0] == b[0] && StrLe(a[1..], b[1..]))))
  }

  lemma {:induction false} StrLeTotal(a: string, b: string)
    ensures StrLe(a, b) || StrLe(b, a)
    decreases |a|
  {
    if a != [] && b != [] && a[0] == b[0] {
      StrLeTotal(a[1..], b[1..]);
    }
  }

  lemma {:induction false} StrLeTrans(a: string, b: string, c: string)
    requires StrLe(a, b) && StrLe(b, c)
    ensures StrLe(a, c)
    decreases |a|
  {
    if a != [] && b != [] && c != [] && a[0] == b[0] == c[0] {
      StrLeTrans(a[1..], b[1..], c[1..]);
    }
  }

  lemma {:induction false} StrLeAntisym(a: string, b: string)
    requires StrLe(a, b) && StrLe(b, a)
    ensures a == b
    decreases |a|
  {
    if a != [] && b != [] {
      StrLeAntisym(a[1..], b[1..]);
      assert a == [a[0]] + a[1..] && b == [b[0]] + b[1..];
    }
  }

  /** The order of kinds when a column mixes them: numbers, then strings, then lists. */
  function Rank(c: Cell): nat
  {
    match c
    case Num(_) => 0
    case Str(_) => 1
    case Names(_) => 2
    case _ => 3
  }

  predicate ValueLe(a: Cell, b: Cell)
  {
    match (a, b)
    case (Num(x), Num(y)) => x <= y
    case (Str(x), Str(y)) => StrLe(x, y)
    case _ => true
  }

  /**
   * `sort_values(ascending=...)` with `na_position='last'`: may `a` come before
   * `b`? Missing values go last in both directions.
   */
  predicate SortsBefore(a: Cell, b: Cell, ascending: bool)
  {
    if IsNA(b) then true
    else if IsNA(a) then false
    else if Rank(a) != Rank(b) then Rank(a) < Rank(b)
    else if ascending then ValueLe(a, b) else ValueLe(b, a)
  }

  lemma SortsBeforeTotal(a: Cell, b: Cell, ascending: bool)
    ensures SortsBefore(a, b, ascending) || SortsBefore(b, a, ascending)
  {
    if a.Str? && b.Str? { StrLeTotal(a.text, b.text); }
  }

  lemma SortsBeforeTrans(a: Cell, b: Cell, c: Cell, ascending: bool)
    requires SortsBefore(a, b, ascending) && SortsBefore(b, c, ascending)
    ensures SortsBefore(a, c, ascending)
  {
    if a.Str? && b.Str? && c.Str? {
      if ascending { StrLeTrans(a.text, b.text, c.text); } else { StrLeTrans(c.text, b.text, a.text); }
    }
  }

  predicate SortedBy(s: seq<Row>, col: string, ascending: bool)
  {
    forall i, j :: 0 <= i < j < |s| ==> SortsBefore(Get(s[i], col), Get(s[j], col), ascending)
  }

  /** Place `r` before the first row it may precede; a row equal to `r` stays after it. */
  function Insert(r: Row, s: seq<Row>, col: string, ascending: bool): (res: seq<Row>)
    ensures multiset(res) == multiset(s) + multiset{r}
    ensures |res| == |s| + 1
    ensures forall x :: x in res <==> x == r || x in s
  {
    if s == [] || SortsBefore(Get(r, col), Get(s[0], col), ascending) then [r] + s
    else
      assert s == [s[0]] + s[1..];
      [s[0]] + Insert(r, s[1..], col, ascending)
  }

  lemma {:induction false} InsertSorted(r: Row, s: seq<Row>, col: string, ascending: bool)
    requires SortedBy(s, col, ascending)
    ensures SortedBy(Insert(r, s, col, ascending), col, ascending)
    decreases |s|, 1
  {
    if s == [] || SortsBefore(Get(r, col), Get(s[0], col), ascending) {
      InsertFrontSorted(r, s, col, ascending);
    } else {
      InsertLaterSorted(r, s, col, ascending);
    }
  }

  lemma InsertFrontSorted(r: Row, s: seq<Row>, col: string, ascending: bool)
    requires SortedBy(s, col, ascending)
    requires s == [] || SortsBefore(Get(r, col), Get(s[0], col), ascending)
    ensures SortedBy([r] + s, col, ascending)
  {
    var k := Get(r, col);
    forall x | x in s ensures SortsBefore(k, Get(x, col), ascending) {
      var j :| 0 <= j < |s| && s[j] == x;
      if j > 0 { SortsBeforeTrans(k, Get(s[0], col), Get(s[j], col), ascending); }
    }
    SortedCons(r, s, col, ascending);
  }

  lemma {:induction false} InsertLaterSorted(r: Row, s: seq<Row>, col: string, ascending: bool)
    requires SortedBy(s, col, ascending)
    requires s != [] && !SortsBefore(Get(r, col), Get(s[0], col), ascending)
    ensures SortedBy([s[0]] + Insert(r, s[1..], col, ascending), col, ascending)
    decreases |s|, 0
  {
    var k := Get(r, col);
    var h := Get(s[0], col);
    SortsBeforeTotal(k, h, ascending);
    var rest := s[1..];
    assert SortedBy(rest, col, ascending) by {
      forall i, j | 0 <= i < j < |rest| ensures SortsBefore(Get(rest[i], col), Get(rest[j], col), ascending) {
        assert rest[i] == s[i + 1] && rest[j] == s[j + 1];
      }
    }
    InsertSorted(r, rest, col, ascending);
    var tail := Insert(r, rest, col, ascending);
    forall x | x in tail ensures SortsBefore(h, Get(x, col), ascending) {
      if x != r {
        var j :| 0 <= j < |rest| && rest[j] == x;
        assert s[j + 1] == x;
      }
    }
    SortedCons(s[0], tail, col, ascending);
  }

  /** A row that may precede every row of a sorted sequence can lead it. */
  lemma SortedCons(h: Row, tail: seq<Row>, col: string, ascending: bool)
    requires SortedBy(tail, col, ascending)
    requires forall x :: x in tail ==> SortsBefore(Get(h, col), Get(x, col), ascending)
    ensures SortedBy([h] + tail, col, ascending)
  {
    var res := [h] + tail;
    forall i, j | 0 <= i < j < |res| ensures SortsBefore(Get(res[i], col), Get(res[j], col), ascending) {
      assert res[j] == tail[j - 1];
      if i == 0 { assert tail[j - 1] in tail; }
      else { assert res[i] == tail[i - 1]; }
    }
  }

  /**
   * `sort_values(by=col, ascending=...)`, modelled as a stable insertion sort: the
   * result is a permutation of the rows, ordered by the column.
   */
  function SortRows(rows: seq<Row>, col: string, ascending: bool): (res: seq<Row>)
    ensures multiset(res) == multiset(rows)
    ensures |res| == |rows|
    ensures SortedBy(res, col, ascending)
  {
    if rows == [] then []
    else
      var rest := SortRows(rows[1..], col, ascending);
      InsertSorted(rows[0], rest, col, ascending);
      assert rows == [rows[0]] + rows[1..];
      Insert(rows[0], rest, col, ascending)
  }

  function SortValues(f: Frame, col: string, ascending: bool): (r: Frame)
    ensures r.columns == f.columns
    ensures multiset(r.rows) == multiset(f.rows)
    ensures SortedBy(r.rows, col, ascending)
  {
    Frame(f.columns, SortRows(f.rows, col, ascending))
  }

  /** The non-missing rows in descending order of `col`, ties in their original order. */
  function Descending(f: Frame, col: string): (s: seq<Row>)
    ensures multiset(s) == multiset(NonMissing(f.rows, col))
    ensures SortedBy(s, col, false)
  {
    SortRows(NonMissing(f.rows, col), col, false)
  }

  function Cut(n: nat, len: nat): nat { if n < len then n else len }

  /** `nlargest(n, col)` with `keep='first'`: the first `n` rows of `Descending`. */
  function NLargest(f: Frame, n: nat, col: string): (r: Frame)
    ensures r.columns == f.columns
    ensures |r.rows| <= n
    ensures SortedBy(r.rows, col, false)
    ensures forall x :: x in r.rows ==> x in f.rows && !IsNA(Get(x, col))
  {
    var sorted := Descending(f, col);
    var k := Cut(n, |sorted|);
    SortedPrefix(sorted, k, col, false);
    InPrefix(sorted, k);
    Frame(f.columns, sorted[..k])
  }

  lemma SortedPrefix(s: seq<Row>, k: nat, col: string, ascending: bool)
    requires k <= |s| && SortedBy(s, col, ascending)
    ensures SortedBy(s[..k], col, ascending)
  {
    forall i, j | 0 <= i < j < k ensures SortsBefore(Get(s[..k][i], col), Get(s[..k][j], col), ascending) {
      assert s[..k][i] == s[i] && s[..k][j] == s[j];
    }
  }

  lemma InPrefix<T>(s: seq<T>, k: nat)
    requires k <= |s|
    ensures forall x :: x in s[..k] ==> x in multiset(s)
  {
    forall x | x in s[..k] ensures x in multiset(s) {
      var i :| 0 <= i < k && s[..k][i] == x;
      assert s[i] == x;
    }
  }

  /** The non-missing rows `nlargest` leaves out. */
  function NLargestDropped(f: Frame, n: nat, col: string): seq<Row>
  {
    var sorted := Descending(f, col);
    sorted[Cut(n, |sorted|)..]
  }

  /** The rows whose `col` is not missing, in order. */
  function NonMissing(rows: seq<Row>, col: string): (res: seq<Row>)
    ensures forall r :: r in res <==> r in rows && !IsNA(Get(r, col))
    ensures forall r :: multiset(res)[r] == if IsNA(Get(r, col)) then 0 else multiset(rows)[r]
  {
    if rows == [] then []
    else
      assert rows == [rows[0]] + rows[1..];
      (if IsNA(Get(rows[0], col)) then [] else [rows[0]]) + NonMissing(rows[1..], col)
  }

  lemma PrefixPrecedes(sorted: seq<Row>, k: nat, col: string, ascending: bool)
    requires k <= |sorted| && SortedBy(sorted, col, ascending)
    ensures forall a, b :: a in sorted[..k] && b in sorted[k..] ==> SortsBefore(Get(a, col), Get(b, col), ascending)
  {
    forall a, b | a in sorted[..k] && b in sorted[k..] ensures SortsBefore(Get(a, col), Get(b, col), ascending) {
      var i :| 0 <= i < k && sorted[..k][i] == a;
      var j :| 0 <= j < |sorted| - k && sorted[k..][j] == b;
      assert sorted[i] == a && sorted[k + j] == b;
    }
  }

  /**
   * What `nlargest` leaves out is never larger than what it keeps, and together
   * they are exactly the non-missing rows.
   */
  lemma NLargestKeepsLargest(f: Frame, n: nat, col: string)
    ensures multiset(NLargest(f, n, col).rows) + multiset(NLargestDropped(f, n, col)) == multiset(NonMissing(f.rows, col))
    ensures forall a, b :: a in NLargest(f, n, col).rows && b in NLargestDropped(f, n, col) ==>
              SortsBefore(Get(a, col), Get(b, col), false)
  {
    var sorted := Descending(f, col);
    var k := Cut(n, |sorted|);
    assert NLargest(f, n, col).rows == sorted[..k];
    assert NLargestDropped(f, n, col) == sorted[k..];
    SplitMultiset(sorted, k);
    PrefixPrecedes(sorted, k, col, false);
  }

  lemma SplitMultiset<T>(s: seq<T>, k: nat)
    requires k <= |s|
    ensures multiset(s[..k]) + multiset(s[k..]) == multiset(s)
  {
    assert s == s[..k] + s[k..];
  }

  // ----------------------------------------------------------- column shaping

  /** `row[cols]`: the row cut down to the listed columns. */
  function Restrict(r: Row, cols: seq<string>): (res: Row)
    ensures forall c :: c in res <==> c in r && c in cols
    ensures forall c :: c in cols ==> Get(res, c) == Get(r, c)
  {
    map c | c in r && c in cols :: r[c]
  }

  /** `df[[c for c in cols if c in df.columns]]`. */
  function Project(f: Frame, cols: seq<string>): (res: Frame)
    ensures res.columns == Present(cols, f.columns)
    ensures |res.rows| == |f.rows|
    ensures forall i, c :: 0 <= i < |f.rows| && c in res.columns ==> Get(res.rows[i], c) == Get(f.rows[i], c)
    ensures forall i, c :: 0 <= i < |f.rows| && c in res.rows[i] ==> c in cols
  {
    var keep := Present(cols, f.columns);
    Frame(keep, seq(|f.rows|, i requires 0 <= i < |f.rows| => Restrict(f.rows[i], keep)))
  }

  /** `fillna(v)` on one cell. */
  function FillCell(c: Cell, v: Cell): (r: Cell)
    ensures IsNA(c) ==> r == v
    ensures !IsNA(c) ==> r == c
  {
    if IsNA(c) then v else c
  }

  /** A row with every listed column present and every missing value replaced by `v`. */
  function FillRow(r: Row, cols: seq<string>, v: Cell): (res: Row)
    ensures forall c :: c in res <==> c in r || c in cols
    ensures forall c :: c in res ==> res[c] == FillCell(Get(r, c), v)
  {
    map c | c in r.Keys + (set x | x in cols) :: FillCell(Get(r, c), v)
  }

  /** `df.fillna(v)`: every missing cell becomes `v`, all other cells stay. */
  function FillNa(f: Frame, v: Cell): (res: Frame)
    ensures res.columns == f.columns && |res.rows| == |f.rows|
    ensures forall i, c :: 0 <= i < |f.rows| && (c in f.columns || c in f.rows[i]) ==>
              Get(res.rows[i], c) == FillCell(Get(f.rows[i], c), v)
  {
    Frame(f.columns, seq(|f.rows|, i requires 0 <= i < |f.rows| => FillRow(f.rows[i], f.columns, v)))
  }

  /** `df[col] = v` for a constant: the column is added (or overwritten) in every row. */
  function SetColumn(f: Frame, col: string, v: Cell): (res: Frame)
    ensures res.columns == if col in f.columns then f.columns else f.columns + [col]
    ensures |res.rows| == |f.rows|
    ensures forall i :: 0 <= i < |f.rows| ==> Get(res.rows[i], col) == v
    ensures forall i, c :: 0 <= i < |f.rows| && c != col ==> Get(res.rows[i], c) == Get(f.rows[i], c)
  {
    Frame(if col in f.columns then f.columns else f.columns + [col],
          seq(|f.rows|, i requires 0 <= i < |f.rows| => f.rows[i][col := v]))
  }

  /** `df[col] = values` for one value per row: the column is added (or overwritten). */
  function WithColumn(f: Frame, col: string, vals: seq<Cell>): (res: Frame)
    requires |vals| == |f.rows|
    ensures res.columns == if col in f.columns then f.columns else f.columns + [col]
    ensures |res.rows| == |f.rows|
    ensures forall i :: 0 <= i < |f.rows| ==> Get(res.rows[i], col) == vals[i]
    ensures forall i, c :: 0 <= i < |f.rows| && c != col ==> Get(res.rows[i], c) == Get(f.rows[i], c)
  {
    Frame(if col in f.columns then f.columns else f.columns + [col],
          seq(|f.rows|, i requires 0 <= i < |f.rows| => f.rows[i][col := vals[i]]))
  }

  // ------------------------------------------------------------------ counting

  /** Number of rows whose `col` holds exactly `v`. */
  function CountOf(rows: seq<Row>, col: string, v: Cell): (n: nat)
    ensures n <= |rows|
    ensures n > 0 <==> exists r :: r in rows && Get(r, col) == v
  {
    if rows == [] then 0
    else
      assert rows == [rows[0]] + rows[1..];
      (if Get(rows[0], col) == v then 1 else 0) + CountOf(rows[1..], col, v)
  }

  /** `df[col].notna().sum()`. */
  function NotNaCount(rows: seq<Row>, col: string): (n: nat)
    ensures n <= |rows|
  {
    if rows == [] then 0
    else (if IsNA(Get(rows[0], col)) then 0 else 1) + NotNaCount(rows[1..], col)
  }

  lemma {:induction false} NotNaCountIsNonMissing(rows: seq<Row>, col: string)
    ensures NotNaCount(rows, col) == |NonMissing(rows, col)|
  {
    if rows != [] { NotNaCountIsNonMissing(rows[1..], col); }
  }

  /**
   * `df[col].value_counts().to_dict()`: each non-missing value of the column with
   * the number of rows holding it.
   */
  function ValueCounts(rows: seq<Row>, col: string): (m: map<Cell, nat>)
    ensures forall v :: v in m <==> !IsNA(v) && exists r :: r in rows && Get(r, col) == v
    ensures forall v :: v in m ==> m[v] == CountOf(rows, col, v)
  {
    if rows == [] then map[]
    else
      var rest := ValueCounts(rows[1..], col);
      var v := Get(rows[0], col);
      assert rows == [rows[0]] + rows[1..];
      if IsNA(v) then rest
      else rest[v := CountOf(rows, col, v)]
  }

  // --------------------------------------------------------------- conversions

  /** Python's `float(s)` on a string, taken as given: the number it denotes, or None when it raises. */
  type FloatParser = string -> Option<real>

  const FloatArgumentError: string := "float() argument must be a string or a real number, not "

  /** `float(value)`: numbers and NaN pass, strings go through the parser, None and lists raise. */
  function ToFloat(c: Cell, parse: FloatParser): (r: Result<Cell>)
    ensures r.Success? ==> r.value.NaN? || r.value.Num?
    ensures c.Num? ==> r == Success(c)
    ensures r.Failure? <==> c.Nil? || c.Names? || (c.Str? && parse(c.text).None?)
  {
    match c
    case NaN => Success(NaN)
    case Num(v) => Success(Num(v))
    case Str(s) =>
      if parse(s).Some? then Success(Num(parse(s).value))
      else Failure("could not convert string to float: '" + s + "'")
    case Nil => Failure(FloatArgumentError + "'NoneType'")
    case Names(_) => Failure(FloatArgumentError + "'list'")
  }

  /** `int(x)` of a float: truncation toward zero. */
  function Trunc(v: real): (n: int)
    ensures 0.0 <= v ==> n as real <= v < n as real + 1.0
    ensures v < 0.0 ==> n as real - 1.0 < v <= n as real
  {
    if v >= 0.0 then v.Floor else -((-v).Floor)
  }

  const IntArgumentError: string := "int() argument must be a string, a bytes-like object or a real number, not "

  /** `int(value)`: numbers truncate, strings must be integer literals, NaN and None raise. */
  function ToInt(c: Cell): (r: Result<int>)
    ensures c.Num? ==> r == Success(Trunc(c.value))
    ensures c.Str? ==> (r.Success? <==> ParseInt(c.text).Some?)
    ensures c.Str? && r.Success? ==> Some(r.value) == ParseInt(c.text)
    ensures IsNA(c) || c.Names? ==> r.Failure?
  {
    match c
    case Num(v) => Success(Trunc(v))
    case Str(s) =>
      var p := ParseInt(s);
      if p.Some? then Success(p.value)
      else Failure("invalid literal for int() with base 10: '" + s + "'")
    case NaN => Failure("cannot convert float NaN to integer")
    case Nil => Failure(IntArgumentError + "'NoneType'")
    case Names(_) => Failure(IntArgumentError + "'list'")
  }

  // ------------------------------------------------------------------ records

  /** `to_dict()` of one row: (key, value) pairs in column order. */
  type Record = seq<(string, Cell)>

  function RecordOf(cols: seq<string>, r: Row): (rec: Record)
    ensures |rec| == |cols|
    ensures forall i :: 0 <= i < |cols| ==> rec[i] == (cols[i], Get(r, cols[i]))
  {
    seq(|cols|, i requires 0 <= i < |cols| => (cols[i], Get(r, cols[i])))
  }

  /** `to_dict('records')`. */
  function Records(f: Frame): (recs: seq<Record>)
    ensures |recs| == |f.rows|
    ensures forall i :: 0 <= i < |recs| ==> recs[i] == RecordOf(f.columns, f.rows[i])
  {
    seq(|f.rows|, i requires 0 <= i < |f.rows| => RecordOf(f.columns, f.rows[i]))
  }

  function Keys(rec: Record): (ks: seq<string>)
    ensures |ks| == |rec|
  {
    if rec == [] then [] else [rec[0].0] + Keys(rec[1..])
  }

  lemma {:induction false} KeysAt(rec: Record)
    ensures forall i :: 0 <= i < |rec| ==> Keys(rec)[i] == rec[i].0
  {
    if rec != [] {
      KeysAt(rec[1..]);
      assert forall i :: 0 < i < |rec| ==> rec[1..][i - 1] == rec[i];
    }
  }

  lemma {:induction false} KeysSame(a: Record, b: Record)
    requires |a| == |b| && forall i :: 0 <= i < |a| ==> a[i].0 == b[i].0
    ensures Keys(a) == Keys(b)
  {
    KeysAt(a);
    KeysAt(b);
  }

  lemma DistinctHead<T>(s: seq<T>)
    requires |s| > 0 && Distinct(s)
    ensures s[0] !in s[1..]
  {
    forall j | 0 <= j < |s| - 1 ensures s[1..][j] != s[0] {
      assert s[1..][j] == s[j + 1];
    }
  }

  lemma {:induction false} KeysRecordOf(cols: seq<string>, r: Row)
    ensures Keys(RecordOf(cols, r)) == cols
  {
    KeysAt(RecordOf(cols, r));
  }

  /** `d.get(k)`: the value under the first (for a dict, the only) entry for `k`. */
  function Lookup(rec: Record, k: string): (r: Option<Cell>)
    ensures r.None? <==> k !in Keys(rec)
  {
    if rec == [] then None
    else if rec[0].0 == k then Some(rec[0].1)
    else Lookup(rec[1..], k)
  }

  lemma {:induction false} LookupFound(rec: Record, k: string)
    requires Lookup(rec, k).Some?
    ensures (k, Lookup(rec, k).value) in rec
  {
    if rec[0].0 != k {
      LookupFound(rec[1..], k);
      assert rec == [rec[0]] + rec[1..];
    }
  }

  /** Every entry of a row's dict holds the row's value. */
  lemma {:induction false} LookupRecordOf(cols: seq<string>, r: Row, k: string)
    ensures Lookup(RecordOf(cols, r), k) == if k in cols then Some(Get(r, k)) else None
  {
    KeysRecordOf(cols, r);
    var rec := RecordOf(cols, r);
    if cols != [] {
      assert rec[1..] == RecordOf(cols[1..], r);
      LookupRecordOf(cols[1..], r, k);
    }
  }

  lemma {:induction false} LookupWithNoneForNA(rec: Record, k: string)
    ensures Lookup(WithNoneForNA(rec), k) ==
            match Lookup(rec, k) case None => None case Some(v) => Some(if IsNA(v) then Nil else v)
  {
    if rec != [] {
      assert WithNoneForNA(rec)[1..] == WithNoneForNA(rec[1..]);
      LookupWithNoneForNA(rec[1..], k);
    }
  }

  /** `d[k] = v`: an existing entry keeps its position, a new one goes last. */
  function DictSet(rec: Record, k: string, v: Cell): (res: Record)
    ensures Lookup(res, k) == Some(v)
    ensures forall j :: j != k ==> Lookup(res, j) == Lookup(rec, j)
    ensures k in Keys(rec) ==> Keys(res) == Keys(rec)
    ensures k !in Keys(rec) ==> Keys(res) == Keys(rec) + [k]
  {
    if rec == [] then [(k, v)]
    else if rec[0].0 == k then [(k, v)] + rec[1..]
    else
      var tail := DictSet(rec[1..], k, v);
      assert ([rec[0]] + tail)[1..] == tail;
      [rec[0]] + tail
  }

  /** `d.pop(k)`: the entry for `k` goes, the others keep their order. */
  function DictPop(rec: Record, k: string): (res: Record)
    ensures Lookup(res, k) == None
    ensures forall j :: j != k ==> Lookup(res, j) == Lookup(rec, j)
    ensures forall j :: j in Keys(res) <==> j in Keys(rec) && j != k
    ensures |res| <= |rec|
  {
    if rec == [] then []
    else
      var tail := DictPop(rec[1..], k);
      if rec[0].0 == k then tail
      else
        assert ([rec[0]] + tail)[1..] == tail;
        [rec[0]] + tail
  }

  /** A dict with every missing value replaced by None. */
  function WithNoneForNA(rec: Record): (res: Record)
    ensures Keys(res) == Keys(rec)
    ensures forall i :: 0 <= i < |res| ==> !res[i].1.NaN?
    ensures forall i :: 0 <= i < |res| ==> !IsNA(rec[i].1) ==> res[i].1 == rec[i].1
  {
    var res := seq(|rec|, i requires 0 <= i < |rec| => (rec[i].0, if IsNA(rec[i].1) then Nil else rec[i].1));
    KeysSame(res, rec);
    res
  }

  /**
   * The loop `for key, value in d.items(): if pd.isna(value): d[key] = None`:
   * every missing value becomes None, keys and all other values stay.
   */
  method NaNToNone(rec: Record) returns (out: Record)
    ensures out == WithNoneForNA(rec)
  {
    out := rec;
    var i := 0;
    while i < |out|
      invariant 0 <= i <= |out| == |rec|
      invariant forall j :: 0 <= j < |rec| ==> out[j].0 == rec[j].0
      invariant forall j :: 0 <= j < i ==> out[j].1 == (if IsNA(rec[j].1) then Nil else rec[j].1)
      invariant forall j :: i <= j < |rec| ==> out[j] == rec[j]
    {
      if IsNA(out[i].1) {
        out := out[i := (out[i].0, Nil)];
      }
      i := i + 1;
    }
  }

  // -------------------------------------------------------------------- merge

  /** A left column's name in the merged frame: a non-key name the right side shares gets `lsuf`. */
  function LeftName(c: string, key: string, right: seq<string>, lsuf: string): string
  {
    if c != key && c in right then c + lsuf else c
  }

  /** A right column's name in the merged frame: a name the left side shares gets `rsuf`. */
  function RightName(c: string, left: seq<string>, rsuf: string): string
  {
    if c in left then c + rsuf else c
  }

  function WithoutKey(cols: seq<string>, key: string): (r: seq<string>)
    ensures forall c :: c in r <==> c in cols && c != key
    ensures |r| <= |cols|
  {
    if cols == [] then []
    else (if cols[0] == key then [] else [cols[0]]) + WithoutKey(cols[1..], key)
  }

  /** A row from (name, value) pairs; a later pair wins over an earlier one with the same name. */
  function RowOf(pairs: seq<(string, Cell)>): (r: Row)
    ensures forall c :: c in r <==> exists i :: 0 <= i < |pairs| && pairs[i].0 == c
  {
    if pairs == [] then map[]
    else
      var init := RowOf(pairs[..|pairs| - 1]);
      assert forall i :: 0 <= i < |pairs| - 1 ==> pairs[..|pairs| - 1][i] == pairs[i];
      init[pairs[|pairs| - 1].0 := pairs[|pairs| - 1].1]
  }

  lemma {:induction false} RowOfDistinct(pairs: seq<(string, Cell)>, i: nat)
    requires i < |pairs|
    requires forall a, b :: 0 <= a < b < |pairs| ==> pairs[a].0 != pairs[b].0
    ensures Get(RowOf(pairs), pairs[i].0) == pairs[i].1
    decreases |pairs|
  {
    if i < |pairs| - 1 {
      var init := pairs[..|pairs| - 1];
      assert init[i] == pairs[i];
      RowOfDistinct(init, i);
    }
  }

  function MergeColumns(left: seq<string>, right: seq<string>, key: string, lsuf: string, rsuf: string): seq<string>
  {
    seq(|left|, i requires 0 <= i < |left| => LeftName(left[i], key, right, lsuf)) +
    (var rk := WithoutKey(right, key);
     seq(|rk|, i requires 0 <= i < |rk| => RightName(rk[i], left, rsuf)))
  }

  /** The merged row of a left row with a matching right row, or with NaN when nothing matches. */
  function MergedRow(l: Row, r: Option<Row>, left: seq<string>, right: seq<string>, key: string, lsuf: string, rsuf: string): Row
  {
    var rk := WithoutKey(right, key);
    RowOf(seq(|left|, i requires 0 <= i < |left| => (LeftName(left[i], key, right, lsuf), Get(l, left[i]))) +
          seq(|rk|, i requires 0 <= i < |rk| => (RightName(rk[i], left, rsuf), if r.Some? then Get(r.value, rk[i]) else NaN)))
  }

  /** The output rows of one left row: one per matching right row, or one unmatched row. */
  function MergeOne(l: Row, right: Frame, leftCols: seq<string>, key: string, lsuf: string, rsuf: string): (res: seq<Row>)
    ensures |res| == (var ms := Select(right.rows, KeyMatches(key, Get(l, key))); if ms == [] then 1 else |ms|)
  {
    var ms := Select(right.rows, KeyMatches(key, Get(l, key)));
    if ms == [] then [MergedRow(l, None, leftCols, right.columns, key, lsuf, rsuf)]
    else seq(|ms|, j requires 0 <= j < |ms| => MergedRow(l, Some(ms[j]), leftCols, right.columns, key, lsuf, rsuf))
  }

  /** The merged rows of every left row, in left-row order. */
  function MergeRows(lrows: seq<Row>, right: Frame, leftCols: seq<string>, key: string, lsuf: string, rsuf: string): (res: seq<Row>)
    ensures |res| >= |lrows|
  {
    if lrows == [] then []
    else MergeOne(lrows[0], right, leftCols, key, lsuf, rsuf) + MergeRows(lrows[1..], right, leftCols, key, lsuf, rsuf)
  }

  /** `pd.merge(left, right, on=key, how='left', suffixes=(lsuf, rsuf))`. */
  function LeftMerge(left: Frame, right: Frame, key: string, lsuf: string, rsuf: string): (res: Frame)
    ensures res.columns == MergeColumns(left.columns, right.columns, key, lsuf, rsuf)
    ensures |res.rows| >= |left.rows|
  {
    Frame(MergeColumns(left.columns, right.columns, key, lsuf, rsuf),
          MergeRows(left.rows, right, left.columns, key, lsuf, rsuf))
  }

  /** No two right rows share a merge key. */
  predicate UniqueKeys(rows: seq<Row>, key: string)
  {
    forall i, j :: 0 <= i < j < |rows| ==> !KeyMatch(Get(rows[i], key), Get(rows[j], key))
  }

  lemma KeyMatchThrough(k: Cell, a: Cell, b: Cell)
    requires KeyMatch(k, a) && KeyMatch(k, b)
    ensures KeyMatch(a, b)
  {
  }

  lemma NoneSelected(rows: seq<Row>, t: RowTest)
    requires forall j :: 0 <= j < |rows| ==> !Passes(t, rows[j])
    ensures Select(rows, t) == []
  {
  }

  lemma {:induction false} AtMostOneMatch(rows: seq<Row>, key: string, k: Cell)
    requires UniqueKeys(rows, key)
    ensures |Select(rows, KeyMatches(key, k))| <= 1
  {
    if rows != [] {
      var tail := rows[1..];
      assert UniqueKeys(tail, key) by {
        forall i, j | 0 <= i < j < |tail| ensures !KeyMatch(Get(tail[i], key), Get(tail[j], key)) {
          assert tail[i] == rows[i + 1] && tail[j] == rows[j + 1];
        }
      }
      AtMostOneMatch(tail, key, k);
      if Passes(KeyMatches(key, k), rows[0]) {
        forall j | 0 <= j < |tail| ensures !Passes(KeyMatches(key, k), tail[j]) {
          assert tail[j] == rows[j + 1];
          if KeyMatch(k, Get(tail[j], key)) {
            KeyMatchThrough(k, Get(rows[0], key), Get(rows[j + 1], key));
          }
        }
        NoneSelected(tail, KeyMatches(key, k));
      }
    }
  }

  lemma MergeOneUnique(l: Row, right: Frame, leftCols: seq<string>, key: string, lsuf: string, rsuf: string)
    requires UniqueKeys(right.rows, key)
    ensures |MergeOne(l, right, leftCols, key, lsuf, rsuf)| == 1
  {
    AtMostOneMatch(right.rows, key, Get(l, key));
  }

  lemma {:induction false} MergeRowsUnique(lrows: seq<Row>, right: Frame, leftCols: seq<string>, key: string, lsuf: string, rsuf: string)
    requires UniqueKeys(right.rows, key)
    ensures |MergeRows(lrows, right, leftCols, key, lsuf, rsuf)| == |lrows|
  {
    if lrows != [] {
      MergeOneUnique(lrows[0], right, leftCols, key, lsuf, rsuf);
      MergeRowsUnique(lrows[1..], right, leftCols, key, lsuf, rsuf);
    }
  }

  /** No merged column other than the key itself is named like the key. */
  predicate KeyKept(left: seq<string>, right: seq<string>, key: string, lsuf: string, rsuf: string)
  {
    && key in left
    && (forall c :: c in left && c != key ==> LeftName(c, key, right, lsuf) != key)
    && (forall c :: c in right && c != key ==> RightName(c, left, rsuf) != key)
  }

  /** Every pair named `k` carries `v`, and one does: the row maps `k` to `v`. */
  lemma {:induction false} RowOfUniform(pairs: seq<(string, Cell)>, k: string, v: Cell, i: nat)
    requires i < |pairs| && pairs[i].0 == k
    requires forall j :: 0 <= j < |pairs| && pairs[j].0 == k ==> pairs[j].1 == v
    ensures Get(RowOf(pairs), k) == v
    decreases |pairs|
  {
    var n := |pairs| - 1;
    if pairs[n].0 != k {
      var init := pairs[..n];
      assert init[i] == pairs[i];
      assert forall j :: 0 <= j < |init| ==> init[j] == pairs[j];
      RowOfUniform(init, k, v, i);
    }
  }

  /** A merged row keeps its left row's key value. */
  lemma MergedRowKey(l: Row, r: Option<Row>, left: seq<string>, right: seq<string>, key: string, lsuf: string, rsuf: string)
    requires KeyKept(left, right, key, lsuf, rsuf)
    ensures Get(MergedRow(l, r, left, right, key, lsuf, rsuf), key) == Get(l, key)
  {
    var rk := WithoutKey(right, key);
    var lp := seq(|left|, i requires 0 <= i < |left| => (LeftName(left[i], key, right, lsuf), Get(l, left[i])));
    var rp := seq(|rk|, i requires 0 <= i < |rk| => (RightName(rk[i], left, rsuf), if r.Some? then Get(r.value, rk[i]) else NaN));
    var pairs := lp + rp;
    var p :| 0 <= p < |left| && left[p] == key;
    assert pairs[p] == (key, Get(l, key));
    forall j | |lp| <= j < |pairs| ensures pairs[j].0 != key {
      assert rk[j - |lp|] in rk;
    }
    forall j | 0 <= j < |lp| && pairs[j].0 == key ensures pairs[j].1 == Get(l, key) {
      assert left[j] in left;
    }
    RowOfUniform(pairs, key, Get(l, key), p);
  }

  lemma MergeOneKey(l: Row, right: Frame, leftCols: seq<string>, key: string, lsuf: string, rsuf: string)
    requires KeyKept(leftCols, right.columns, key, lsuf, rsuf)
    ensures forall m :: m in MergeOne(l, right, leftCols, key, lsuf, rsuf) ==> Get(m, key) == Get(l, key)
  {
    var ms := Select(right.rows, KeyMatches(key, Get(l, key)));
    if ms == [] {
      MergedRowKey(l, None, leftCols, right.columns, key, lsuf, rsuf);
    } else {
      forall j | 0 <= j < |ms| ensures Get(MergedRow(l, Some(ms[j]), leftCols, right.columns, key, lsuf, rsuf), key) == Get(l, key) {
        MergedRowKey(l, Some(ms[j]), leftCols, right.columns, key, lsuf, rsuf);
      }
    }
  }

  /** Every merged row carries the key value of some left row. */
  lemma {:induction false} MergeRowsKeys(lrows: seq<Row>, right: Frame, leftCols: seq<string>, key: string, lsuf: string, rsuf: string)
    requires KeyKept(leftCols, right.columns, key, lsuf, rsuf)
    ensures forall m :: m in MergeRows(lrows, right, leftCols, key, lsuf, rsuf) ==>
              exists i :: 0 <= i < |lrows| && Get(m, key) == Get(lrows[i], key)
  {
    if lrows != [] {
      MergeOneKey(lrows[0], right, leftCols, key, lsuf, rsuf);
      MergeRowsKeys(lrows[1..], right, leftCols, key, lsuf, rsuf);
      forall m | m in MergeRows(lrows[1..], right, leftCols, key, lsuf, rsuf)
        ensures exists i :: 0 <= i < |lrows| && Get(m, key) == Get(lrows[i], key)
      {
        var i :| 0 <= i < |lrows[1..]| && Get(m, key) == Get(lrows[1..][i], key);
        assert lrows[1..][i] == lrows[i + 1];
      }
    }
  }

  /** Every row of a left merge carries the key of some left row, and the key column survives. */
  lemma LeftMergeKeys(left: Frame, right: Frame, key: string, lsuf: string, rsuf: string)
    requires KeyKept(left.columns, right.columns, key, lsuf, rsuf)
    ensures key in LeftMerge(left, right, key, lsuf, rsuf).columns
    ensures forall i :: 0 <= i < |LeftMerge(left, right, key, lsuf, rsuf).rows| ==>
              exists j :: 0 <= j < |left.rows| && Get(LeftMerge(left, right, key, lsuf, rsuf).rows[i], key) == Get(left.rows[j], key)
  {
    var m := LeftMerge(left, right, key, lsuf, rsuf);
    MergeRowsKeys(left.rows, right, left.columns, key, lsuf, rsuf);
    var p :| 0 <= p < |left.columns| && left.columns[p] == key;
    assert m.columns[p] == LeftName(key, key, right.columns, lsuf) == key;
    forall i | 0 <= i < |m.rows|
      ensures exists j :: 0 <= j < |left.rows| && Get(m.rows[i], key) == Get(left.rows[j], key)
    {
      assert m.rows[i] in MergeRows(left.rows, right, left.columns, key, lsuf, rsuf);
    }
  }

  lemma ConsKeyAt(head: seq<Row>, tail: seq<Row>, lrows: seq<Row>, key: string)
    requires |head| == 1 && lrows != [] && Get(head[0], key) == Get(lrows[0], key)
    requires |tail| == |lrows| - 1
    requires forall i :: 0 <= i < |tail| ==> Get(tail[i], key) == Get(lrows[1..][i], key)
    ensures forall i :: 0 <= i < |lrows| ==> Get((head + tail)[i], key) == Get(lrows[i], key)
  {
    forall i | 0 < i < |lrows| ensures Get((head + tail)[i], key) == Get(lrows[i], key) {
      assert (head + tail)[i] == tail[i - 1];
      assert lrows[1..][i - 1] == lrows[i];
    }
  }

  /** With unique right keys, row `i` of the merge keeps left row `i`'s key. */
  lemma {:induction false} MergeRowsKeyAt(lrows: seq<Row>, right: Frame, leftCols: seq<string>, key: string, lsuf: string, rsuf: string)
    requires UniqueKeys(right.rows, key)
    requires KeyKept(leftCols, right.columns, key, lsuf, rsuf)
    ensures |MergeRows(lrows, right, leftCols, key, lsuf, rsuf)| == |lrows|
    ensures forall i :: 0 <= i < |lrows| ==> Get(MergeRows(lrows, right, leftCols, key, lsuf, rsuf)[i], key) == Get(lrows[i], key)
  {
    MergeRowsUnique(lrows, right, leftCols, key, lsuf, rsuf);
    if lrows != [] {
      var head := MergeOne(lrows[0], right, leftCols, key, lsuf, rsuf);
      var tail := MergeRows(lrows[1..], right, leftCols, key, lsuf, rsuf);
      assert MergeRows(lrows, right, leftCols, key, lsuf, rsuf) == head + tail;
      MergeOneUnique(lrows[0], right, leftCols, key, lsuf, rsuf);
      MergeOneKey(lrows[0], right, leftCols, key, lsuf, rsuf);
      MergeRowsKeyAt(lrows[1..], right, leftCols, key, lsuf, rsuf);
      assert head[0] in head;
      ConsKeyAt(head, tail, lrows, key);
    }
  }

  /**
   * With unique right keys a left merge is one-to-one: the merged frame has one
   * row per left row, in order, each carrying its left row's key.
   */
  lemma LeftMergeOneToOne(left: Frame, right: Frame, key: string, lsuf: string, rsuf: string)
    requires UniqueKeys(right.rows, key)
    requires KeyKept(left.columns, right.columns, key, lsuf, rsuf)
    ensures |LeftMerge(left, right, key, lsuf, rsuf).rows| == |left.rows|
    ensures forall i :: 0 <= i < |left.rows| ==>
              Get(LeftMerge(left, right, key, lsuf, rsuf).rows[i], key) == Get(left.rows[i], key)
  {
    MergeRowsKeyAt(left.rows, right, left.columns, key, lsuf, rsuf);
  }

  /** Two reference rows with the same key turn one left row into two merged rows. */
  lemma LeftMergeDuplicatesOnSharedKey()
    ensures var left := Frame(["gene_symbol"], [map["gene_symbol" := Str("CYP3A4")]]);
            var right := Frame(["gene_symbol", "species"],
                               [map["gene_symbol" := Str("CYP3A4"), "species" := Str("Homo sapiens")],
                                map["gene_symbol" := Str("CYP3A4"), "species" := Str("Mus musculus")]]);
            |LeftMerge(left, right, "gene_symbol", "_x", "_y").rows| == 2
  {
    var right := Frame(["gene_symbol", "species"],
                       [map["gene_symbol" := Str("CYP3A4"), "species" := Str("Homo sapiens")],
                        map["gene_symbol" := Str("CYP3A4"), "species" := Str("Mus musculus")]]);
    var l := map["gene_symbol" := Str("CYP3A4")];
    var left := Frame(["gene_symbol"], [l]);
    var k := Str("CYP3A4");
    assert Select(right.rows[1..], KeyMatches("gene_symbol", k)) == [right.rows[1]];
    assert |Select(right.rows, KeyMatches("gene_symbol", k))| == 2;
    var one := MergeOne(l, right, left.columns, "gene_symbol", "_x", "_y");
    assert |one| == 2;
    assert left.rows[1..] == [];
  }
}
