/**
 * The per-compound and per-target queries of `Target`: the prediction file of
 * one compound, the detail record of one target and the compounds predicted to
 * hit one target.
 */
module TargetQueries {
  import opened Wrappers
  import opened Text
  import opened Frames
  import opened TargetNames
  import opened TargetAggregate

  // ------------------------------------------------------ one compound's file

  /** `prediction_dirs[compoundType]`: the configured directory of a class. */
  function FindDir(dirs: seq<PredictionDir>, compoundType: string): (r: Option<PredictionDir>)
    ensures r.Some? <==> exists d :: d in dirs && d.compoundType == compoundType
    ensures r.Some? ==> r.value in dirs && r.value.compoundType == compoundType
    decreases |dirs|
  {
    if dirs == [] then None
    else if dirs[0].compoundType == compoundType then Some(dirs[0])
    else
      assert forall d :: d in dirs[1..] ==> d in dirs;
      FindDir(dirs[1..], compoundType)
  }

  /** The file of a directory listing with the given name, if there is one. */
  function FindFile(files: seq<DataFile>, name: string): (r: Option<DataFile>)
    ensures r.Some? <==> exists f :: f in files && f.name == name
    ensures r.Some? ==> r.value in files && r.value.name == name
    decreases |files|
  {
    if files == [] then None
    else if files[0].name == name then Some(files[0])
    else
      assert forall f :: f in files[1..] ==> f in files;
      FindFile(files[1..], name)
  }

  /** `df['gene_symbol'] = df['From'].apply(lookup)`. */
  function WithSymbols(df: Frame, aliases: Aliases): (res: Frame)
    ensures |res.rows| == |df.rows| && "gene_symbol" in res.columns
    ensures forall i :: 0 <= i < |df.rows| ==> Get(res.rows[i], "gene_symbol") == ResolvedCell(aliases, Get(df.rows[i], "From"))
    ensures forall i, c :: 0 <= i < |df.rows| && c != "gene_symbol" ==> Get(res.rows[i], c) == Get(df.rows[i], c)
  {
    WithColumn(df, "gene_symbol", seq(|df.rows|, i requires 0 <= i < |df.rows| => ResolvedCell(aliases, Get(df.rows[i], "From"))))
  }

  /**
   * The enrichment of a compound's prediction frame: with a reference table and a
   * `From` column, the symbol column is added and the reference merged in.
   */
  function Enriched(df: Frame, reference: Frame, aliases: Aliases): (r: Result<Frame>)
    ensures r.Failure? <==> !IsEmpty(reference) && "From" in df.columns && "gene_symbol" !in reference.columns
    ensures (IsEmpty(reference) || "From" !in df.columns) ==> r == Success(df)
  {
    if !IsEmpty(reference) && "From" in df.columns then
      if "gene_symbol" in reference.columns then
        Success(LeftMerge(WithSymbols(df, aliases), reference, "gene_symbol", "", "_from_targets"))
      else Failure("'gene_symbol'")
    else Success(df)
  }

  /**
   * `Target.get_compound_targets(type, id)`: `Success(None)` for a class without a
   * prediction directory name, a missing directory or a missing file; a failure
   * when the class has no configured directory, the file cannot be read or the
   * reference has no `gene_symbol` column to merge on.
   */
  function CompoundTargets(dirs: seq<PredictionDir>, reference: Frame, aliases: Aliases,
                           compoundType: string, compoundId: int): (r: Result<Option<Frame>>)
    ensures compoundType !in KnownTypes ==> r == Success(None)
  {
    match DirName(compoundType)
    case None => Success(None)
    case Some(dirName) =>
      match FindDir(dirs, compoundType)
      case None => Failure("'" + compoundType + "'")
      case Some(d) =>
        if !d.present then Success(None)
        else
          match FindFile(d.files, FileName(dirName, compoundId))
          case None => Success(None)
          case Some(f) =>
            var df :- f.content;
            var e :- Enriched(df, reference, aliases);
            Success(Some(e))
  }

  /**
   * A compound's frame exists exactly when its class is known, configured and
   * its directory holds the file `<dir_name><id>.xlsx`; it is that file's table,
   * unchanged when there is no reference or no `From` column.
   */
  lemma CompoundTargetsFound(dirs: seq<PredictionDir>, reference: Frame, aliases: Aliases, compoundType: string, compoundId: int)
    requires CompoundTargets(dirs, reference, aliases, compoundType, compoundId).Success?
    ensures var r := CompoundTargets(dirs, reference, aliases, compoundType, compoundId).value;
            r.Some? <==>
              (compoundType in KnownTypes &&
               exists d :: d in dirs && d.compoundType == compoundType && d.present && FindDir(dirs, compoundType) == Some(d) &&
                 exists f :: f in d.files && f.name == FileName(DirName(compoundType).value, compoundId))
    ensures var r := CompoundTargets(dirs, reference, aliases, compoundType, compoundId).value;
            r.Some? ==>
              var d := FindDir(dirs, compoundType).value;
              var f := FindFile(d.files, FileName(DirName(compoundType).value, compoundId)).value;
              && f.content.Success?
              && Enriched(f.content.value, reference, aliases) == Success(r.value)
  {
    if compoundType in KnownTypes {
      var fd := FindDir(dirs, compoundType);
      if fd.Some? {
        var d := fd.value;
        if d.present {
          var name := FileName(DirName(compoundType).value, compoundId);
          if FindFile(d.files, name).None? {
            assert !exists f :: f in d.files && f.name == name;
          }
        }
      }
    }
  }

  /**
   * With a reference that lists each symbol at most once, enrichment keeps one
   * row per prediction, in order, each carrying the standard symbol of its `From`.
   */
  lemma EnrichedOneToOne(df: Frame, reference: Frame, aliases: Aliases)
    requires Enriched(df, reference, aliases).Success?
    requires UniqueKeys(reference.rows, "gene_symbol")
    requires !IsEmpty(reference) && "From" in df.columns
    ensures var e := Enriched(df, reference, aliases).value;
            && |e.rows| == |df.rows|
            && forall i :: 0 <= i < |df.rows| ==> Get(e.rows[i], "gene_symbol") == ResolvedCell(aliases, Get(df.rows[i], "From"))
  {
    var s := WithSymbols(df, aliases);
    forall c | c in s.columns && c != "gene_symbol"
      ensures LeftName(c, "gene_symbol", reference.columns, "") != "gene_symbol"
    {
      assert c + "" == c;
    }
    forall c | c in reference.columns && c != "gene_symbol"
      ensures RightName(c, s.columns, "_from_targets") != "gene_symbol"
    {
      SuffixDiffers(c, "_from_targets", "gene_symbol");
    }
    LeftMergeOneToOne(s, reference, "gene_symbol", "", "_from_targets");
  }

  // ------------------------------------------------------------ one target

  /** `target.iloc[0].to_dict()` with the query and the symbol it was mapped to. */
  function Annotated(reference: Frame, row: Row, name: string, symbol: Cell): (rec: Record)
    ensures Lookup(rec, "queried_name") == Some(Str(name))
    ensures Lookup(rec, "mapped_symbol") == Some(symbol)
  {
    DictSet(DictSet(RecordOf(reference.columns, row), "queried_name", Str(name)), "mapped_symbol", symbol)
  }

  /** The reference rows whose `gene_symbol` equals the mapped symbol. */
  function ReferenceHits(reference: Frame, symbol: Cell): seq<Row>
  {
    if !IsEmpty(reference) && "gene_symbol" in reference.columns
    then Select(reference.rows, Equals("gene_symbol", symbol)) else []
  }

  /**
   * `Target.get_target_by_gene_name(name)`: the first reference row for the
   * mapped symbol, annotated with the query; failing that, the first aggregate
   * row for it; `None` when neither has one.
   */
  function TargetByGeneName(dirs: seq<PredictionDir>, reference: Frame, aliases: Aliases,
                            parse: FloatParser, name: string): (r: Result<Option<Record>>)
    ensures ReferenceHits(reference, SymbolFor(aliases, name)) != [] ==>
              r == Success(Some(Annotated(reference, ReferenceHits(reference, SymbolFor(aliases, name))[0], name, SymbolFor(aliases, name))))
  {
    var symbol := SymbolFor(aliases, name);
    var hits := ReferenceHits(reference, symbol);
    if hits != [] then Success(Some(Annotated(reference, hits[0], name, symbol)))
    else
      var all :- UniqueTargets(dirs, reference, aliases, parse);
      if IsEmpty(all) then Success(None)
      else
        var found := Select(all.rows, Equals("gene_symbol", symbol));
        if found == [] then Success(None) else Success(Some(RecordOf(all.columns, found[0])))
  }

  /**
   * When the alias map was built from the reference table, the fallback to the
   * aggregate never finds anything: every symbol the aggregate holds is some
   * reference row's `gene_symbol`, so the reference lookup would have found it.
   * A target is found exactly when some reference row carries its symbol, and
   * then the record is annotated with the query.
   */
  lemma FallbackNeverFinds(dirs: seq<PredictionDir>, reference: Frame, parse: FloatParser, name: string)
    requires TargetByGeneName(dirs, reference, AliasMap(reference), parse, name).Success?
    ensures var aliases := AliasMap(reference);
            var r := TargetByGeneName(dirs, reference, aliases, parse, name).value;
            r.Some? <==> ReferenceHits(reference, SymbolFor(aliases, name)) != []
    ensures var r := TargetByGeneName(dirs, reference, AliasMap(reference), parse, name).value;
            r.Some? ==> Lookup(r.value, "queried_name") == Some(Str(name))
  {
    var aliases := AliasMap(reference);
    var symbol := SymbolFor(aliases, name);
    if ReferenceHits(reference, symbol) == [] {
      var all := UniqueTargets(dirs, reference, aliases, parse).value;
      NoAggregateHit(Scanned(dirs), reference, parse, symbol);
      NoneSelected(all.rows, Equals("gene_symbol", symbol));
    }
  }

  /** No aggregate row carries a symbol that no reference row carries. */
  lemma NoAggregateHit(tagged: seq<Tagged>, reference: Frame, parse: FloatParser, symbol: Cell)
    requires ReferenceHits(reference, symbol) == []
    requires Aggregate(tagged, reference, AliasMap(reference), parse).Success?
    ensures var all := Aggregate(tagged, reference, AliasMap(reference), parse).value;
            forall i :: 0 <= i < |all.rows| ==> !Passes(Equals("gene_symbol", symbol), all.rows[i])
  {
    var aliases := AliasMap(reference);
    var all := Aggregate(tagged, reference, aliases, parse).value;
    AggregateSymbols(tagged, reference, aliases, parse);
    forall i | 0 <= i < |all.rows| ensures !Passes(Equals("gene_symbol", symbol), all.rows[i]) {
      var p :| p in Valid(tagged, aliases, parse) && Get(all.rows[i], "gene_symbol") == Str(p.symbol);
      ReferenceHasSymbol(reference, p.from, p.symbol);
    }
  }

  /** A symbol the alias map yields for a prediction's `From` is in the reference. */
  lemma ReferenceHasSymbol(reference: Frame, from: Cell, symbol: string)
    requires Resolve(AliasMap(reference), from) == Some(Str(symbol))
    ensures ReferenceHits(reference, Str(symbol)) != []
  {
    var aliases := AliasMap(reference);
    AliasMapValues(reference, from.text);
    var j :| 0 <= j < |reference.rows| && aliases[from.text] == Get(reference.rows[j], "gene_symbol");
    assert HasAliasColumns(reference);
    assert reference.rows[j] in Select(reference.rows, Equals("gene_symbol", Str(symbol)));
  }

  // ------------------------------------------------- compounds of one target

  /** One entry of `get_compounds_by_target`. */
  datatype Hit = Hit(compoundId: int, compoundType: string, score: Cell, fromName: Cell,
                     geneNameFull: Cell, sourceFile: string)

  /** `(df['From'] == name) | (df['gene_symbol'] == symbol)`. */
  predicate Matches(aliases: Aliases, name: string, symbol: Cell, r: Row)
  {
    CellEq(Get(r, "From"), Str(name)) || CellEq(ResolvedCell(aliases, Get(r, "From")), symbol)
  }

  function MatchingRows(rows: seq<Row>, aliases: Aliases, name: string, symbol: Cell): (res: seq<Row>)
    ensures |res| <= |rows|
    ensures forall r :: r in res <==> r in rows && Matches(aliases, name, symbol, r)
    decreases |rows|
  {
    if rows == [] then []
    else
      assert rows == [rows[0]] + rows[1..];
      (if Matches(aliases, name, symbol, rows[0]) then [rows[0]] else []) + MatchingRows(rows[1..], aliases, name, symbol)
  }

  /** `float(row.get('score', 0))`. */
  function HitScore(f: Frame, r: Row, parse: FloatParser): Result<Cell>
  {
    if "score" in f.columns then ToFloat(Get(r, "score"), parse) else Success(Num(0.0))
  }

  /** `row.get('Gene Name', '')`. */
  function GeneNameFull(f: Frame, r: Row): Cell
  {
    if "Gene Name" in f.columns then Get(r, "Gene Name") else Str("")
  }

  /**
   * The entries of the matching rows, in order, up to the first row whose score
   * `float()` rejects: the entries before it are kept, the rest of the file is not.
   */
  function RowHits(compoundId: int, compoundType: string, file: string, f: Frame, rows: seq<Row>, parse: FloatParser): (hs: seq<Hit>)
    ensures |hs| <= |rows|
    decreases |rows|
  {
    if rows == [] then []
    else
      match HitScore(f, rows[0], parse)
      case Failure(_) => []
      case Success(score) =>
        [Hit(compoundId, compoundType, score, Get(rows[0], "From"), GeneNameFull(f, rows[0]), file)] +
        RowHits(compoundId, compoundType, file, f, rows[1..], parse)
  }

  /**
   * Entry `k` is row `k`'s: its `From`, its `Gene Name` and its converted score;
   * the entries stop exactly at the first score that does not convert.
   */
  lemma {:induction false} RowHitsMeaning(compoundId: int, compoundType: string, file: string, f: Frame, rows: seq<Row>, parse: FloatParser)
    ensures var hs := RowHits(compoundId, compoundType, file, f, rows, parse);
            && (forall k :: 0 <= k < |hs| ==>
                  HitScore(f, rows[k], parse).Success? &&
                  hs[k] == Hit(compoundId, compoundType, HitScore(f, rows[k], parse).value, Get(rows[k], "From"), GeneNameFull(f, rows[k]), file))
            && ((forall k :: 0 <= k < |rows| ==> HitScore(f, rows[k], parse).Success?) ==> |hs| == |rows|)
            && (|hs| < |rows| ==> HitScore(f, rows[|hs|], parse).Failure?)
    decreases |rows|
  {
    if rows != [] && HitScore(f, rows[0], parse).Success? {
      var tail := rows[1..];
      RowHitsMeaning(compoundId, compoundType, file, f, tail, parse);
      var rest := RowHits(compoundId, compoundType, file, f, tail, parse);
      var hs := RowHits(compoundId, compoundType, file, f, rows, parse);
      assert hs == [hs[0]] + rest;
      forall k | 0 < k < |hs|
        ensures HitScore(f, rows[k], parse).Success? &&
                hs[k] == Hit(compoundId, compoundType, HitScore(f, rows[k], parse).value, Get(rows[k], "From"), GeneNameFull(f, rows[k]), file)
      {
        assert hs[k] == rest[k - 1] && tail[k - 1] == rows[k];
      }
      if forall k :: 0 <= k < |rows| ==> HitScore(f, rows[k], parse).Success? {
        assert forall k :: 0 <= k < |tail| ==> tail[k] == rows[k + 1];
      }
      if |hs| < |rows| {
        assert tail[|rest|] == rows[|hs|];
      }
    }
  }

  /**
   * The entries one file contributes: none unless it is an `.xlsx` file that can
   * be read, is non-empty, has a `From` column, has a matching row and has a
   * name whose id part is an integer.
   */
  function FileHits(compoundType: string, prefix: string, aliases: Aliases, name: string, symbol: Cell,
                    file: DataFile, parse: FloatParser): (hs: seq<Hit>)
    requires |prefix| > 0
  {
    if !EndsWith(file.name, ".xlsx") || file.content.Failure? then []
    else
      var df := file.content.value;
      if IsEmpty(df) || "From" !in df.columns then []
      else
        var target := MatchingRows(df.rows, aliases, name, symbol);
        if target == [] then []
        else
          match ParseInt(IdText(prefix, file.name))
          case None => []
          case Some(id) => RowHits(id, compoundType, file.name, df, target, parse)
  }

  /**
   * A file contributes only when it is a readable, non-empty `.xlsx` table with a
   * `From` column and an integer id in its name; each entry carries the file's
   * class, name and id, and the `From` of a row that matches the query.
   */
  lemma FileHitsMeaning(compoundType: string, prefix: string, aliases: Aliases, name: string, symbol: Cell,
                        file: DataFile, parse: FloatParser)
    requires |prefix| > 0
    ensures var hs := FileHits(compoundType, prefix, aliases, name, symbol, file, parse);
            && (hs != [] ==>
                  && EndsWith(file.name, ".xlsx") && file.content.Success?
                  && !IsEmpty(file.content.value) && "From" in file.content.value.columns
                  && ParseInt(IdText(prefix, file.name)).Some?)
            && (forall h :: h in hs ==>
                  && h.compoundType == compoundType && h.sourceFile == file.name
                  && Some(h.compoundId) == ParseInt(IdText(prefix, file.name))
                  && exists r :: r in file.content.value.rows && Matches(aliases, name, symbol, r) && h.fromName == Get(r, "From"))
  {
    var hs := FileHits(compoundType, prefix, aliases, name, symbol, file, parse);
    if hs != [] {
      var df := file.content.value;
      var target := MatchingRows(df.rows, aliases, name, symbol);
      var id := ParseInt(IdText(prefix, file.name)).value;
      RowHitsMeaning(id, compoundType, file.name, df, target, parse);
      forall h | h in hs
        ensures exists r :: r in df.rows && Matches(aliases, name, symbol, r) && h.fromName == Get(r, "From")
      {
        var k :| 0 <= k < |hs| && hs[k] == h;
        assert target[k] in target;
      }
    }
  }

  function FilesHits(compoundType: string, prefix: string, aliases: Aliases, name: string, symbol: Cell,
                     files: seq<DataFile>, parse: FloatParser): (hs: seq<Hit>)
    requires |prefix| > 0
    decreases |files|
  {
    if files == [] then []
    else
      FileHits(compoundType, prefix, aliases, name, symbol, files[0], parse) +
      FilesHits(compoundType, prefix, aliases, name, symbol, files[1..], parse)
  }

  lemma {:induction false} FilesHitsFrom(compoundType: string, prefix: string, aliases: Aliases, name: string, symbol: Cell,
                                         files: seq<DataFile>, parse: FloatParser)
    requires |prefix| > 0
    ensures forall h :: h in FilesHits(compoundType, prefix, aliases, name, symbol, files, parse) ==>
              exists f :: f in files && h in FileHits(compoundType, prefix, aliases, name, symbol, f, parse)
    decreases |files|
  {
    if files != [] {
      FilesHitsFrom(compoundType, prefix, aliases, name, symbol, files[1..], parse);
      assert forall f :: f in files[1..] ==> f in files;
    }
  }

  /** One directory: an existing directory of a class without a file prefix raises `KeyError`. */
  function DirHits(d: PredictionDir, aliases: Aliases, name: string, symbol: Cell, parse: FloatParser): (r: Result<seq<Hit>>)
    ensures r.Failure? <==> d.present && d.compoundType !in KnownTypes
    ensures !d.present ==> r == Success([])
  {
    if !d.present then Success([])
    else
      match DirName(d.compoundType)
      case None => Failure("'" + d.compoundType + "'")
      case Some(prefix) => Success(FilesHits(d.compoundType, prefix, aliases, name, symbol, d.files, parse))
  }

  function DirsHits(dirs: seq<PredictionDir>, aliases: Aliases, name: string, symbol: Cell, parse: FloatParser): (r: Result<seq<Hit>>)
    decreases |dirs|
  {
    if dirs == [] then Success([])
    else
      var here :- DirHits(dirs[0], aliases, name, symbol, parse);
      var rest :- DirsHits(dirs[1..], aliases, name, symbol, parse);
      Success(here + rest)
  }

  /** The scan fails exactly when some existing directory belongs to a class without a file prefix. */
  lemma {:induction false} DirsHitsFailure(dirs: seq<PredictionDir>, aliases: Aliases, name: string, symbol: Cell, parse: FloatParser)
    ensures DirsHits(dirs, aliases, name, symbol, parse).Failure? <==>
              exists d :: d in dirs && d.present && d.compoundType !in KnownTypes
    decreases |dirs|
  {
    if dirs != [] {
      DirsHitsFailure(dirs[1..], aliases, name, symbol, parse);
      assert forall d :: d in dirs <==> d == dirs[0] || d in dirs[1..];
    }
  }

  /** `Target.get_compounds_by_target(name)`. */
  function CompoundsByTarget(dirs: seq<PredictionDir>, aliases: Aliases, name: string, parse: FloatParser): (r: Result<seq<Hit>>)
    ensures r.Failure? <==> exists d :: d in dirs && d.present && d.compoundType !in KnownTypes
  {
    DirsHitsFailure(dirs, aliases, name, SymbolFor(aliases, name), parse);
    DirsHits(dirs, aliases, name, SymbolFor(aliases, name), parse)
  }

  /**
   * Every entry comes from an existing directory of its class, from a readable
   * `.xlsx` file of it whose name carries the entry's compound id, and from a row
   * whose `From` is the query or maps to the query's symbol.
   */
  lemma {:induction false} DirsHitsSound(dirs: seq<PredictionDir>, aliases: Aliases, name: string, symbol: Cell, parse: FloatParser)
    requires DirsHits(dirs, aliases, name, symbol, parse).Success?
    ensures forall h :: h in DirsHits(dirs, aliases, name, symbol, parse).value ==>
              exists d, f :: d in dirs && d.present && d.compoundType == h.compoundType && d.compoundType in KnownTypes &&
                f in d.files && f.name == h.sourceFile && EndsWith(f.name, ".xlsx") &&
                h in FileHits(d.compoundType, DirName(d.compoundType).value, aliases, name, symbol, f, parse)
    decreases |dirs|
  {
    if dirs != [] {
      var d0 := dirs[0];
      DirsHitsSound(dirs[1..], aliases, name, symbol, parse);
      var all := DirsHits(dirs, aliases, name, symbol, parse).value;
      var here := DirHits(d0, aliases, name, symbol, parse).value;
      var rest := DirsHits(dirs[1..], aliases, name, symbol, parse).value;
      assert all == here + rest;
      forall h | h in all
        ensures exists d, f :: d in dirs && d.present && d.compoundType == h.compoundType && d.compoundType in KnownTypes &&
                  f in d.files && f.name == h.sourceFile && EndsWith(f.name, ".xlsx") &&
                  h in FileHits(d.compoundType, DirName(d.compoundType).value, aliases, name, symbol, f, parse)
      {
        if h in here {
          var prefix := DirName(d0.compoundType).value;
          FilesHitsFrom(d0.compoundType, prefix, aliases, name, symbol, d0.files, parse);
          var f :| f in d0.files && h in FileHits(d0.compoundType, prefix, aliases, name, symbol, f, parse);
          FileHitsMeaning(d0.compoundType, prefix, aliases, name, symbol, f, parse);
          assert d0 in dirs;
        } else {
          assert h in rest;
          var d, f :| d in dirs[1..] && d.present && d.compoundType == h.compoundType && d.compoundType in KnownTypes &&
                      f in d.files && f.name == h.sourceFile && EndsWith(f.name, ".xlsx") &&
                      h in FileHits(d.compoundType, DirName(d.compoundType).value, aliases, name, symbol, f, parse);
          assert d in dirs;
        }
      }
    }
  }

  /**
   * A file named by the compound-file rule `<dir_name><id>.xlsx` yields entries
   * for compound `id`: naming a file and reading its id back agree.
   */
  lemma HitsCarryFileId(d: PredictionDir, aliases: Aliases, name: string, symbol: Cell, parse: FloatParser, f: DataFile, id: int)
    requires d.compoundType in KnownTypes
    requires f.name == FileName(DirName(d.compoundType).value, id)
    ensures forall h :: h in FileHits(d.compoundType, DirName(d.compoundType).value, aliases, name, symbol, f, parse) ==>
              h.compoundId == id
  {
    FileNameRoundTrip(d.compoundType, id);
    FileHitsMeaning(d.compoundType, DirName(d.compoundType).value, aliases, name, symbol, f, parse);
  }

  /**
   * A readable, well-formed file whose scores all convert contributes one entry
   * per matching row, in row order.
   */
  lemma FileHitsComplete(compoundType: string, prefix: string, aliases: Aliases, name: string, symbol: Cell,
                         file: DataFile, parse: FloatParser, id: int)
    requires |prefix| > 0
    requires EndsWith(file.name, ".xlsx") && file.content.Success?
    requires !IsEmpty(file.content.value) && "From" in file.content.value.columns
    requires ParseInt(IdText(prefix, file.name)) == Some(id)
    requires forall r :: r in file.content.value.rows ==> HitScore(file.content.value, r, parse).Success?
    ensures var target := MatchingRows(file.content.value.rows, aliases, name, symbol);
            var hs := FileHits(compoundType, prefix, aliases, name, symbol, file, parse);
            && |hs| == |target|
            && forall k :: 0 <= k < |hs| ==> hs[k].fromName == Get(target[k], "From") && hs[k].compoundId == id
  {
    var df := file.content.value;
    var target := MatchingRows(df.rows, aliases, name, symbol);
    assert forall k :: 0 <= k < |target| ==> target[k] in target;
    RowHitsMeaning(id, compoundType, file.name, df, target, parse);
  }
}
