/**
 * The `Target` object: the configured prediction directories, the reference
 * table and the alias map it fills in when it is created, with the two
 * directory scans that collect prediction files and matching rows.
 */
module TargetModel {
  import opened Wrappers
  import opened PyOps
  import opened Text
  import opened Frames
  import opened TargetNames
  import opened TargetAggregate
  import opened TargetQueries

  class Target {
    /** The prediction directories, one per compound class, in configuration order. */
    const dirs: seq<PredictionDir>
    /** The reference table: the targets file's table, or an empty frame when the file is missing. */
    const reference: Frame
    /** `_gene_name_to_symbol_map`. */
    var aliases: Aliases

    /** `Target(prediction_dirs, targets_file)`; `targets` is the file's table when it exists. */
    constructor (dirs: seq<PredictionDir>, targets: Option<Frame>)
      ensures this.dirs == dirs
      ensures reference == (if targets.Some? then targets.value else EmptyFrame)
      ensures aliases == AliasMap(reference)
    {
      this.dirs := dirs;
      reference := if targets.Some? then targets.value else EmptyFrame;
      aliases := map[];
      new;
      if targets.Some? {
        BuildGeneNameMapping();
      }
    }

    /**
     * `_build_gene_name_mapping()`: every name of each row's `gene_names_full`
     * is mapped to the row's `gene_symbol`, rows and names in order.
     */
    method BuildGeneNameMapping()
      modifies this
      ensures aliases == (if HasAliasColumns(reference) then AliasesFrom(old(aliases), reference.rows) else old(aliases))
    {
      if HasAliasColumns(reference) {
        var rows := reference.rows;
        var i := 0;
        while i < |rows|
          invariant 0 <= i <= |rows|
          invariant AliasesFrom(aliases, rows[i..]) == AliasesFrom(old(aliases), rows)
        {
          var symbol := Get(rows[i], "gene_symbol");
          var names := Tokens(rows[i]);
          ghost var start := aliases;
          var j := 0;
          while j < |names|
            invariant 0 <= j <= |names|
            invariant AddTokens(aliases, names[j..], symbol) == AddTokens(start, names, symbol)
          {
            assert names[j..][1..] == names[j + 1..];
            aliases := aliases[names[j] := symbol];
            j := j + 1;
          }
          assert rows[i..][1..] == rows[i + 1..];
          i := i + 1;
        }
      }
    }

    /** `_get_gene_symbol_from_name(name)`. */
    function GeneSymbolFromName(name: Cell): (r: Option<Cell>)
      reads this
      ensures r.Some? <==> name.Str? && name.text in aliases
      ensures r.Some? ==> r.value == aliases[name.text]
    {
      Resolve(aliases, name)
    }

    /**
     * `get_all_unique_targets()` (the definition in force): collect the
     * readable `.xlsx` files with a `From` column, directory by directory, then
     * aggregate them.
     */
    method GetAllUniqueTargets(parse: FloatParser) returns (r: Result<Frame>)
      ensures r == UniqueTargets(dirs, reference, aliases, parse)
    {
      var collected: seq<Tagged> := [];
      var i := 0;
      while i < |dirs|
        invariant 0 <= i <= |dirs|
        invariant collected + Scanned(dirs[i..]) == Scanned(dirs)
      {
        ScannedStep(dirs, i);
        var found := CollectDirectory(dirs[i]);
        AppendStep(collected, found, Scanned(dirs[i + 1..]), Scanned(dirs));
        collected := collected + found;
        i := i + 1;
      }
      assert dirs[|dirs|..] == [];
      assert collected == Scanned(dirs);
      r := Aggregate(collected, reference, aliases, parse);
    }

    /**
     * `get_compounds_by_target(name)`: the entries of every matching row of
     * every readable prediction file, directory by directory and file by file.
     */
    method GetCompoundsByTarget(name: string, parse: FloatParser) returns (r: Result<seq<Hit>>)
      ensures r == CompoundsByTarget(dirs, aliases, name, parse)
    {
      var symbol := SymbolFor(aliases, name);
      ghost var whole := DirsHits(dirs, aliases, name, symbol, parse);
      var compounds: seq<Hit> := [];
      var i := 0;
      assert dirs[0..] == dirs;
      assert whole.Success? ==> compounds + whole.value == whole.value;
      while i < |dirs|
        invariant 0 <= i <= |dirs|
        invariant DirsHits(dirs[i..], aliases, name, symbol, parse).Failure? ==>
                    whole == DirsHits(dirs[i..], aliases, name, symbol, parse)
        invariant DirsHits(dirs[i..], aliases, name, symbol, parse).Success? ==>
                    whole == Success(compounds + DirsHits(dirs[i..], aliases, name, symbol, parse).value)
      {
        var d := dirs[i];
        DirsHitsStep(dirs, i, aliases, name, symbol, parse);
        ghost var rest := DirsHits(dirs[i + 1..], aliases, name, symbol, parse);
        ghost var before := compounds;
        if d.present {
          var dirName := DirName(d.compoundType);
          if dirName.None? {
            return Failure("'" + d.compoundType + "'");
          }
          var found := ScanDirectory(d.compoundType, dirName.value, name, symbol, d.files, parse);
          compounds := compounds + found;
        } else {
          assert before == before + DirHits(d, aliases, name, symbol, parse).value;
        }
        ghost var here := DirHits(d, aliases, name, symbol, parse).value;
        if rest.Success? {
          assert before + (here + rest.value) == (before + here) + rest.value;
        }
        i := i + 1;
      }
      assert dirs[|dirs|..] == [];
      assert compounds + [] == compounds;
      r := Success(compounds);
    }

    /** The file loop of the collection over one directory: its readable `.xlsx` tables with a `From` column. */
    method CollectDirectory(d: PredictionDir) returns (found: seq<Tagged>)
      ensures found == ScanDir(d)
    {
      found := [];
      if !d.present {
        return;
      }
      var j := 0;
      assert d.files[0..] == d.files;
      while j < |d.files|
        invariant 0 <= j <= |d.files|
        invariant found + ScanFiles(d.compoundType, d.files[j..]) == ScanFiles(d.compoundType, d.files)
      {
        var f := d.files[j];
        ScanFilesStep(d.compoundType, d.files, j);
        if EndsWith(f.name, ".xlsx") {
          match f.content {
            case Success(df) =>
              if !IsEmpty(df) && "From" in df.columns {
                var t := Tagged(d.compoundType, f.name, df);
                AppendStep(found, [t], ScanFiles(d.compoundType, d.files[j + 1..]), ScanFiles(d.compoundType, d.files));
                found := found + [t];
              }
            case Failure(_) =>
          }
        }
        j := j + 1;
      }
      assert d.files[|d.files|..] == [];
    }

    /** The file loop over one existing directory of a class with a file prefix. */
    method ScanDirectory(compoundType: string, prefix: string, name: string, symbol: Cell, files: seq<DataFile>, parse: FloatParser)
      returns (found: seq<Hit>)
      requires |prefix| > 0
      ensures found == FilesHits(compoundType, prefix, aliases, name, symbol, files, parse)
    {
      found := [];
      var j := 0;
      assert files[0..] == files;
      while j < |files|
        invariant 0 <= j <= |files|
        invariant found + FilesHits(compoundType, prefix, aliases, name, symbol, files[j..], parse) ==
                  FilesHits(compoundType, prefix, aliases, name, symbol, files, parse)
      {
        FilesHitsStep(compoundType, prefix, aliases, name, symbol, files, j, parse);
        var more := ScanFile(compoundType, prefix, name, symbol, files[j], parse);
        AppendStep(found, more, FilesHits(compoundType, prefix, aliases, name, symbol, files[j + 1..], parse),
                   FilesHits(compoundType, prefix, aliases, name, symbol, files, parse));
        found := found + more;
        j := j + 1;
      }
      assert files[|files|..] == [];
    }

    /** The body of the file loop: the entries of one file, up to its first unconvertible score. */
    method ScanFile(compoundType: string, prefix: string, name: string, symbol: Cell, f: DataFile, parse: FloatParser)
      returns (found: seq<Hit>)
      requires |prefix| > 0
      ensures found == FileHits(compoundType, prefix, aliases, name, symbol, f, parse)
    {
      found := [];
      if !EndsWith(f.name, ".xlsx") || f.content.Failure? {
        return;
      }
      var df := f.content.value;
      if IsEmpty(df) || "From" !in df.columns {
        return;
      }
      var target := MatchingRows(df.rows, aliases, name, symbol);
      if target == [] {
        return;
      }
      var id := ParseInt(IdText(prefix, f.name));
      if id.None? {
        return;
      }
      var k := 0;
      while k < |target|
        invariant 0 <= k <= |target|
        invariant found + RowHits(id.value, compoundType, f.name, df, target[k..], parse) ==
                  RowHits(id.value, compoundType, f.name, df, target, parse)
      {
        RowHitsStep(id.value, compoundType, f.name, df, target, k, parse);
        var score := HitScore(df, target[k], parse);
        if score.Failure? {
          return;
        }
        var hit := Hit(id.value, compoundType, score.value, Get(target[k], "From"), GeneNameFull(df, target[k]), f.name);
        ghost var rest := RowHits(id.value, compoundType, f.name, df, target[k + 1..], parse);
        assert found + ([hit] + rest) == (found + [hit]) + rest;
        found := found + [hit];
        k := k + 1;
      }
      assert target[|target|..] == [];
    }
  }

  // ------------------------------------------------- one loop step each

  lemma ScannedStep(dirs: seq<PredictionDir>, i: nat)
    requires i < |dirs|
    ensures Scanned(dirs[i..]) == ScanDir(dirs[i]) + Scanned(dirs[i + 1..])
  {
    assert dirs[i..][1..] == dirs[i + 1..];
  }

  lemma ScanFilesStep(compoundType: string, files: seq<DataFile>, j: nat)
    requires j < |files|
    ensures Taken(files[j]) ==>
              ScanFiles(compoundType, files[j..]) ==
              [Tagged(compoundType, files[j].name, files[j].content.value)] + ScanFiles(compoundType, files[j + 1..])
    ensures !Taken(files[j]) ==> ScanFiles(compoundType, files[j..]) == ScanFiles(compoundType, files[j + 1..])
  {
    assert files[j..][1..] == files[j + 1..];
    assert [] + ScanFiles(compoundType, files[j + 1..]) == ScanFiles(compoundType, files[j + 1..]);
  }

  lemma DirsHitsStep(dirs: seq<PredictionDir>, i: nat, aliases: Aliases, name: string, symbol: Cell, parse: FloatParser)
    requires i < |dirs|
    ensures DirsHits(dirs[i..], aliases, name, symbol, parse) ==
              (var here := DirHits(dirs[i], aliases, name, symbol, parse);
               if here.Failure? then here
               else var rest := DirsHits(dirs[i + 1..], aliases, name, symbol, parse);
                    if rest.Failure? then rest else Success(here.value + rest.value))
  {
    assert dirs[i..][1..] == dirs[i + 1..];
  }

  lemma FilesHitsStep(compoundType: string, prefix: string, aliases: Aliases, name: string, symbol: Cell,
                      files: seq<DataFile>, j: nat, parse: FloatParser)
    requires |prefix| > 0 && j < |files|
    ensures FilesHits(compoundType, prefix, aliases, name, symbol, files[j..], parse) ==
              FileHits(compoundType, prefix, aliases, name, symbol, files[j], parse) +
              FilesHits(compoundType, prefix, aliases, name, symbol, files[j + 1..], parse)
  {
    assert files[j..][1..] == files[j + 1..];
  }

  lemma RowHitsStep(compoundId: int, compoundType: string, file: string, f: Frame, rows: seq<Row>, k: nat, parse: FloatParser)
    requires k < |rows|
    ensures RowHits(compoundId, compoundType, file, f, rows[k..], parse) ==
              (var score := HitScore(f, rows[k], parse);
               if score.Failure? then []
               else [Hit(compoundId, compoundType, score.value, Get(rows[k], "From"), GeneNameFull(f, rows[k]), file)] +
                    RowHits(compoundId, compoundType, file, f, rows[k + 1..], parse))
  {
    assert rows[k..][1..] == rows[k + 1..];
  }
}
