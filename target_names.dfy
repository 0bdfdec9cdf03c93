/**
 * How the target model names things: the alias map from every name listed in a
 * reference row's `gene_names_full` to that row's `gene_symbol`, the lookup of a
 * prediction's `From` value in it, and the prediction-file naming rule
 * `<dir_name><compound_id>.xlsx` with the compound-class directory names.
 */
module TargetNames {
  import opened Wrappers
  import opened Text
  import opened Frames

  /** A file in a prediction directory and what reading it as a spreadsheet gives. */
  datatype DataFile = DataFile(name: string, content: Result<Frame>)

  /** One entry of the configured prediction directories, in configuration order. */
  datatype PredictionDir = PredictionDir(compoundType: string, present: bool, files: seq<DataFile>)

  /** Name (or alias) to standard gene symbol. */
  type Aliases = map<string, Cell>

  /** `str(row['gene_names_full']).split()`. */
  function Tokens(row: Row): seq<string>
  {
    Split(CellText(Get(row, "gene_names_full")))
  }

  /** Map every token to `symbol`, in order. */
  function AddTokens(m: Aliases, tokens: seq<string>, symbol: Cell): (r: Aliases)
    ensures forall t :: t in r <==> t in m || t in tokens
    ensures forall t :: t in tokens ==> r[t] == symbol
    ensures forall t :: t in m && t !in tokens ==> r[t] == m[t]
    decreases |tokens|
  {
    if tokens == [] then m
    else
      assert forall t :: t in tokens[1..] ==> t in tokens;
      AddTokens(m[tokens[0] := symbol], tokens[1..], symbol)
  }

  /** The map after processing `rows` in order, starting from `m`. */
  function AliasesFrom(m: Aliases, rows: seq<Row>): Aliases
    decreases |rows|
  {
    if rows == [] then m
    else AliasesFrom(AddTokens(m, Tokens(rows[0]), Get(rows[0], "gene_symbol")), rows[1..])
  }

  predicate HasAliasColumns(reference: Frame)
  {
    "gene_names_full" in reference.columns && "gene_symbol" in reference.columns
  }

  /** The alias map built from the reference table; empty unless it has both columns. */
  function AliasMap(reference: Frame): Aliases
  {
    if HasAliasColumns(reference) then AliasesFrom(map[], reference.rows) else map[]
  }

  /** A name is mapped exactly when it was already, or some row lists it. */
  lemma {:induction false} AliasesFromDomain(m: Aliases, rows: seq<Row>)
    ensures forall t :: t in AliasesFrom(m, rows) <==>
              t in m || exists j :: 0 <= j < |rows| && t in Tokens(rows[j])
    decreases |rows|
  {
    if rows != [] {
      var m' := AddTokens(m, Tokens(rows[0]), Get(rows[0], "gene_symbol"));
      AliasesFromDomain(m', rows[1..]);
      forall t ensures t in AliasesFrom(m, rows) <==> t in m || exists j :: 0 <= j < |rows| && t in Tokens(rows[j]) {
        if exists j :: 0 <= j < |rows[1..]| && t in Tokens(rows[1..][j]) {
          var j :| 0 <= j < |rows[1..]| && t in Tokens(rows[1..][j]);
          assert rows[1..][j] == rows[j + 1];
        }
        if exists j :: 0 <= j < |rows| && t in Tokens(rows[j]) {
          var j :| 0 <= j < |rows| && t in Tokens(rows[j]);
          if j > 0 {
            assert rows[1..][j - 1] == rows[j];
          }
        }
      }
    }
  }

  /** The last row that lists a name decides its symbol. */
  lemma {:induction false} AliasesFromLast(m: Aliases, rows: seq<Row>, t: string, j: nat)
    requires j < |rows| && t in Tokens(rows[j])
    requires forall k :: j < k < |rows| ==> t !in Tokens(rows[k])
    ensures t in AliasesFrom(m, rows)
    ensures AliasesFrom(m, rows)[t] == Get(rows[j], "gene_symbol")
    decreases |rows|
  {
    var m' := AddTokens(m, Tokens(rows[0]), Get(rows[0], "gene_symbol"));
    if j == 0 {
      AliasesFromUntouched(m', rows[1..], t);
    } else {
      forall k | j - 1 < k < |rows[1..]| ensures t !in Tokens(rows[1..][k]) {
        assert rows[1..][k] == rows[k + 1];
      }
      assert rows[1..][j - 1] == rows[j];
      AliasesFromLast(m', rows[1..], t, j - 1);
    }
  }

  /** A name no row lists keeps its value. */
  lemma {:induction false} AliasesFromUntouched(m: Aliases, rows: seq<Row>, t: string)
    requires t in m
    requires forall k :: 0 <= k < |rows| ==> t !in Tokens(rows[k])
    ensures t in AliasesFrom(m, rows) && AliasesFrom(m, rows)[t] == m[t]
    decreases |rows|
  {
    if rows != [] {
      var m' := AddTokens(m, Tokens(rows[0]), Get(rows[0], "gene_symbol"));
      assert t !in Tokens(rows[0]);
      forall k | 0 <= k < |rows[1..]| ensures t !in Tokens(rows[1..][k]) {
        assert rows[1..][k] == rows[k + 1];
      }
      AliasesFromUntouched(m', rows[1..], t);
    }
  }

  /** Every value of the map is already in `m` or is the `gene_symbol` of some row. */
  lemma {:induction false} AliasesFromValues(m: Aliases, rows: seq<Row>)
    ensures forall t :: t in AliasesFrom(m, rows) ==>
              (t in m && AliasesFrom(m, rows)[t] == m[t]) ||
              exists j :: 0 <= j < |rows| && AliasesFrom(m, rows)[t] == Get(rows[j], "gene_symbol")
    decreases |rows|
  {
    if rows != [] {
      var sym := Get(rows[0], "gene_symbol");
      var m' := AddTokens(m, Tokens(rows[0]), sym);
      AliasesFromValues(m', rows[1..]);
      var r := AliasesFrom(m, rows);
      forall t | t in r
        ensures (t in m && r[t] == m[t]) || exists j :: 0 <= j < |rows| && r[t] == Get(rows[j], "gene_symbol")
      {
        if exists j :: 0 <= j < |rows[1..]| && r[t] == Get(rows[1..][j], "gene_symbol") {
          var j :| 0 <= j < |rows[1..]| && r[t] == Get(rows[1..][j], "gene_symbol");
          assert rows[1..][j] == rows[j + 1];
        } else if t in Tokens(rows[0]) {
          assert r[t] == Get(rows[0], "gene_symbol");
        }
      }
    }
  }

  /**
   * The alias map's keys are exactly the whitespace-separated names of the
   * reference's `gene_names_full` column (when both columns exist), and each one
   * maps to the `gene_symbol` of the last row that lists it.
   */
  lemma AliasMapMeaning(reference: Frame, t: string)
    ensures t in AliasMap(reference) <==>
              HasAliasColumns(reference) && exists j :: 0 <= j < |reference.rows| && t in Tokens(reference.rows[j])
    ensures forall j :: (0 <= j < |reference.rows| && t in Tokens(reference.rows[j]) && HasAliasColumns(reference) &&
                         (forall k :: j < k < |reference.rows| ==> t !in Tokens(reference.rows[k]))) ==>
              AliasMap(reference)[t] == Get(reference.rows[j], "gene_symbol")
  {
    if HasAliasColumns(reference) {
      AliasesFromDomain(map[], reference.rows);
      forall j | 0 <= j < |reference.rows| && t in Tokens(reference.rows[j]) &&
                 (forall k :: j < k < |reference.rows| ==> t !in Tokens(reference.rows[k]))
        ensures AliasMap(reference)[t] == Get(reference.rows[j], "gene_symbol")
      {
        AliasesFromLast(map[], reference.rows, t, j);
      }
    }
  }

  /** Every symbol the alias map yields is the `gene_symbol` of some reference row. */
  lemma AliasMapValues(reference: Frame, t: string)
    requires t in AliasMap(reference)
    ensures exists j :: 0 <= j < |reference.rows| && AliasMap(reference)[t] == Get(reference.rows[j], "gene_symbol")
  {
    AliasesFromValues(map[], reference.rows);
  }

  /** A name with whitespace in it, or the empty name, is never a key. */
  lemma AliasMapKeysAreTokens(reference: Frame, t: string)
    requires t in AliasMap(reference)
    ensures |t| > 0 && NoSpace(t)
  {
    AliasMapMeaning(reference, t);
    var j :| 0 <= j < |reference.rows| && t in Tokens(reference.rows[j]);
    SplitTokens(CellText(Get(reference.rows[j], "gene_names_full")));
  }

  /** `_get_gene_symbol_from_name(value)`: only string keys are in the map. */
  function Resolve(aliases: Aliases, name: Cell): (r: Option<Cell>)
    ensures r.Some? <==> name.Str? && name.text in aliases
    ensures r.Some? ==> r.value == aliases[name.text]
  {
    if name.Str? && name.text in aliases then Some(aliases[name.text]) else None
  }

  /** The cell `df['From'].apply(...)` puts in the `gene_symbol` column: `None` when unmapped. */
  function ResolvedCell(aliases: Aliases, name: Cell): (c: Cell)
    ensures Resolve(aliases, name).None? ==> c == Nil
    ensures Resolve(aliases, name).Some? ==> c == Resolve(aliases, name).value
  {
    match Resolve(aliases, name)
    case None => Nil
    case Some(v) => v
  }

  /** `gene_symbol = lookup(name)`, falling back to the name itself when that is falsy. */
  function SymbolFor(aliases: Aliases, name: string): (s: Cell)
    ensures name in aliases && Truthy(aliases[name]) ==> s == aliases[name]
    ensures !(name in aliases && Truthy(aliases[name])) ==> s == Str(name)
  {
    match Resolve(aliases, Str(name))
    case Some(v) => if Truthy(v) then v else Str(name)
    case None => Str(name)
  }

  // ----------------------------------------------------------------- file names

  /** The prediction directory name of each compound class (`type_map`). */
  function DirName(compoundType: string): (r: Option<string>)
    ensures r.Some? <==> compoundType in KnownTypes
    ensures r.Some? ==> |r.value| > 5 && 'a' <= r.value[0] <= 'z'
  {
    if compoundType == "挥发油" then Some("huifayou")
    else if compoundType == "三萜" then Some("santie")
    else if compoundType == "甾醇" then Some("zaichun")
    else None
  }

  /** The compound classes that have prediction directories. */
  const KnownTypes: seq<string> := ["挥发油", "三萜", "甾醇"]

  /** `f'{dir_name}{compound_id}.xlsx'`. */
  function FileName(dirName: string, compoundId: int): string
  {
    dirName + IntToString(compoundId) + ".xlsx"
  }

  /** `file.replace(prefix, '').replace('.xlsx', '')`: the compound id text of a file name. */
  function IdText(prefix: string, file: string): string
    requires |prefix| > 0
  {
    Replace(Replace(file, prefix, ""), ".xlsx", "")
  }

  /**
   * The file a compound's predictions are read from yields that compound's id
   * again when the by-target search takes its name apart.
   */
  lemma {:induction false} FileNameRoundTrip(compoundType: string, id: int)
    requires compoundType in KnownTypes
    ensures var prefix := DirName(compoundType).value;
            ParseInt(IdText(prefix, FileName(prefix, id))) == Some(id)
  {
    var prefix := DirName(compoundType).value;
    var d := IntToString(id);
    var s := prefix + d + ".xlsx";
    assert FileName(prefix, id) == s;
    assert s[..|prefix|] == prefix;
    assert s[|prefix|..] == d + ".xlsx";
    assert Replace(s, prefix, "") == Replace(d + ".xlsx", prefix, "");
    IntToStringChars(id);
    ReplaceAfter(d, ".xlsx", prefix, "");
    assert Replace(".xlsx", prefix, "") == ".xlsx";
    ReplaceAfter(d, ".xlsx", ".xlsx", "");
    assert ".xlsx"[..5] == ".xlsx" && ".xlsx"[5..] == [];
    assert Replace(".xlsx", ".xlsx", "") == "";
    assert d + "" == d;
    IntRoundTrip(id);
  }
}
