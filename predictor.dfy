/**
 * The file-level bookkeeping of `DrugPredictor` in api/predictor.py: scoring
 * every row of a dataset file, and scoring every dataset file of a directory
 * with per-file accounting. The model itself is the scorer, given as a
 * function; reading and writing files are the tables passed in and the
 * outputs returned.
 */
module Predictor {
  import opened Wrappers
  import opened Frames

  /** `predict_single(smiles, sequence)`: the score, or the message of the exception it raises. */
  type Scorer = (Cell, Cell) -> Result<real>

  /** One scored row as both file routines record it. */
  datatype Prediction = Prediction(score: real, gene: Cell, protein: Cell, smiles: Cell, sequence: Cell)

  /** A file the routines write: its path and its rows. */
  datatype Output = Output(path: string, rows: seq<Prediction>)

  /** The columns the recorded rows are read from, whatever columns the scorer read. */
  const RecordColumns: seq<string> := ["Gene", "Protein", "Ingredient_Smile", "Sequence"]

  /** `[c for c in names if c not in columns][0]`, the first column a lookup would miss. */
  function FirstMissing(names: seq<string>, columns: seq<string>): (r: Option<string>)
    ensures r.None? <==> forall c :: c in names ==> c in columns
    ensures r.Some? ==> r.value in names && r.value !in columns
  {
    if names == [] then None
    else if names[0] !in columns then Some(names[0])
    else FirstMissing(names[1..], columns)
  }

  /** The record of one row: the score, then `row['Gene']`, `row['Protein']`, `row['Ingredient_Smile']`, `row['Sequence']`. */
  function PredictionOf(row: Row, score: real): Prediction
  {
    Prediction(score, Get(row, "Gene"), Get(row, "Protein"), Get(row, "Ingredient_Smile"), Get(row, "Sequence"))
  }

  /** The rows scored so far, and the exception that ended the loop, if any. */
  datatype Scan = Scan(results: seq<Prediction>, error: Option<string>)

  /**
   * The row loop after its first `m` rows: each row is scored from the given
   * SMILES and sequence columns and recorded from the fixed columns; the first
   * exception, from the scorer or a missing fixed column, ends the loop.
   */
  function ScanRows(df: Frame, scorer: Scorer, smilesColumn: string, sequenceColumn: string, m: nat): (r: Scan)
    requires m <= |df.rows|
    ensures |r.results| <= m
    ensures r.error.None? ==> |r.results| == m
    decreases m
  {
    if m == 0 then Scan([], None)
    else
      var before := ScanRows(df, scorer, smilesColumn, sequenceColumn, m - 1);
      if before.error.Some? then before
      else
        var row := df.rows[m - 1];
        match scorer(Get(row, smilesColumn), Get(row, sequenceColumn))
        case Failure(e) => Scan(before.results, Some(e))
        case Success(score) =>
          match FirstMissing(RecordColumns, df.columns)
          case Some(c) => Scan(before.results, Some("'" + c + "'"))
          case None => Scan(before.results + [PredictionOf(row, score)], None)
  }

  /**
   * A row loop that met no exception scored every row in order: result `i` is
   * row `i`'s score with row `i`'s fixed columns; and for a non-empty table the
   * fixed columns had to be there.
   */
  lemma {:induction false} ScanRowsInOrder(df: Frame, scorer: Scorer, smilesColumn: string, sequenceColumn: string, m: nat)
    requires m <= |df.rows|
    requires ScanRows(df, scorer, smilesColumn, sequenceColumn, m).error.None?
    ensures var r := ScanRows(df, scorer, smilesColumn, sequenceColumn, m).results;
            forall i :: 0 <= i < m ==>
              && scorer(Get(df.rows[i], smilesColumn), Get(df.rows[i], sequenceColumn)).Success?
              && r[i] == PredictionOf(df.rows[i], scorer(Get(df.rows[i], smilesColumn), Get(df.rows[i], sequenceColumn)).value)
    ensures m > 0 ==> forall c :: c in RecordColumns ==> c in df.columns
    decreases m
  {
    if m > 0 {
      ScanRowsInOrder(df, scorer, smilesColumn, sequenceColumn, m - 1);
    }
  }

  /** A row loop that met an exception stopped at it: the rows before it are all recorded. */
  lemma {:induction false} ScanRowsStops(df: Frame, scorer: Scorer, smilesColumn: string, sequenceColumn: string, k: nat, m: nat)
    requires k <= m <= |df.rows|
    requires ScanRows(df, scorer, smilesColumn, sequenceColumn, k).error.Some?
    ensures ScanRows(df, scorer, smilesColumn, sequenceColumn, m) == ScanRows(df, scorer, smilesColumn, sequenceColumn, k)
    decreases m
  {
    if m > k {
      ScanRowsStops(df, scorer, smilesColumn, sequenceColumn, k, m - 1);
    }
  }

  /**
   * `predict_file`: the four named columns must all be there; then every row is
   * scored in order and the results are written to `outputFile`. Any exception
   * (an unreadable file, a missing column, a failing score) is `False` with
   * nothing written.
   */
  method PredictFile(contents: Result<Frame>, scorer: Scorer, outputFile: string, smilesColumn: string,
                     sequenceColumn: string, geneColumn: string, proteinColumn: string)
    returns (ok: bool, written: Option<Output>)
    ensures ok <==> written.Some?
    ensures ok <==>
              && contents.Success?
              && FirstMissing([smilesColumn, sequenceColumn, geneColumn, proteinColumn], contents.value.columns).None?
              && ScanRows(contents.value, scorer, smilesColumn, sequenceColumn, |contents.value.rows|).error.None?
    ensures ok ==>
              written.value == Output(outputFile, ScanRows(contents.value, scorer, smilesColumn, sequenceColumn, |contents.value.rows|).results)
  {
    if contents.Failure? {
      return false, None;
    }
    var data := contents.value;
    var required := [smilesColumn, sequenceColumn, geneColumn, proteinColumn];
    var c := 0;
    while c < |required|
      invariant 0 <= c <= |required|
      invariant FirstMissing(required, data.columns) == FirstMissing(required[c..], data.columns)
    {
      if required[c] !in data.columns {
        return false, None;
      }
      assert required[c..] == [required[c]] + required[c + 1..];
      c := c + 1;
    }
    assert required[c..] == [];
    var results: seq<Prediction> := [];
    var i := 0;
    while i < |data.rows|
      invariant 0 <= i <= |data.rows|
      invariant ScanRows(data, scorer, smilesColumn, sequenceColumn, i) == Scan(results, None)
    {
      var row := data.rows[i];
      var score := scorer(Get(row, smilesColumn), Get(row, sequenceColumn));
      if score.Failure? {
        ScanRowsStops(data, scorer, smilesColumn, sequenceColumn, i + 1, |data.rows|);
        return false, None;
      }
      var missing := FirstMissing(RecordColumns, data.columns);
      if missing.Some? {
        ScanRowsStops(data, scorer, smilesColumn, sequenceColumn, i + 1, |data.rows|);
        return false, None;
      }
      results := results + [PredictionOf(row, score.value)];
      i := i + 1;
    }
    return true, Some(Output(outputFile, results));
  }

  /**
   * With custom column names and no `Gene` column, a non-empty file is never
   * scored successfully: the recorded row reads the fixed name.
   */
  lemma FixedColumnsMatter(contents: Result<Frame>, scorer: Scorer, smilesColumn: string, sequenceColumn: string)
    requires contents.Success? && |contents.value.rows| > 0 && "Gene" !in contents.value.columns
    ensures ScanRows(contents.value, scorer, smilesColumn, sequenceColumn, |contents.value.rows|).error.Some?
  {
    var df := contents.value;
    if ScanRows(df, scorer, smilesColumn, sequenceColumn, |df.rows|).error.None? {
      ScanRowsInOrder(df, scorer, smilesColumn, sequenceColumn, |df.rows|);
    }
  }

  // --------------------------------------------------------- directory batch

  /** A `*.csv` file of the input directory: its name and what reading it gives. */
  datatype CsvFile = CsvFile(name: string, contents: Result<Frame>)

  /** `stats` of `predict_batch_datasets`; a failed file is its path and the exception's message. */
  datatype BatchStats = BatchStats(totalFiles: nat, processedFiles: nat, failedFiles: seq<(string, string)>,
                                   totalCompounds: nat, processedCompounds: nat)

  /** The columns every dataset file must have. */
  const DatasetColumns: seq<string> := ["Ingredient_Smile", "Sequence", "Gene", "Protein"]

  /** `Path(name).stem` for a name the `*.csv` pattern matched. */
  function Stem(name: string): (s: string)
    ensures |name| > 4 && name[|name| - 4..] == ".csv" ==> s + ".csv" == name
  {
    if |name| > 4 && name[|name| - 4..] == ".csv" then
      assert name == name[..|name| - 4] + name[|name| - 4..];
      name[..|name| - 4]
    else name
  }

  /** `output_path / f"{file_path.stem}_prediction.csv"`. */
  function OutputName(outputDir: string, name: string): string
  {
    outputDir + "/" + Stem(name) + "_prediction.csv"
  }

  /** Where the batch stands after some files: the stats and the files written. */
  datatype Progress = Progress(stats: BatchStats, outputs: seq<Output>)

  /**
   * One file of the loop: an unreadable file fails; a readable one adds its
   * rows to `total_compounds`, fails if a dataset column is missing, and
   * otherwise adds its scored rows to `processed_compounds`, failing at a
   * scorer exception and written and counted as processed when all rows scored.
   */
  function FileStep(p: Progress, f: CsvFile, inputDir: string, outputDir: string, scorer: Scorer): Progress
  {
    var path := inputDir + "/" + f.name;
    var st := p.stats;
    match f.contents
    case Failure(e) => Progress(st.(failedFiles := st.failedFiles + [(path, e)]), p.outputs)
    case Success(df) =>
      var counted := st.(totalCompounds := st.totalCompounds + |df.rows|);
      if FirstMissing(DatasetColumns, df.columns).Some? then
        Progress(counted.(failedFiles := counted.failedFiles + [(path, "文件缺少必要的列: " + path)]), p.outputs)
      else
        var scan := ScanRows(df, scorer, "Ingredient_Smile", "Sequence", |df.rows|);
        var scored := counted.(processedCompounds := counted.processedCompounds + |scan.results|);
        if scan.error.Some? then
          Progress(scored.(failedFiles := scored.failedFiles + [(path, scan.error.value)]), p.outputs)
        else
          Progress(scored.(processedFiles := scored.processedFiles + 1), p.outputs + [Output(OutputName(outputDir, f.name), scan.results)])
  }

  /** The file loop after its first `n` files. */
  function FilesPrefix(files: seq<CsvFile>, inputDir: string, outputDir: string, scorer: Scorer, n: nat): Progress
    requires n <= |files|
    decreases n
  {
    if n == 0 then Progress(BatchStats(|files|, 0, [], 0, 0), [])
    else FileStep(FilesPrefix(files, inputDir, outputDir, scorer, n - 1), files[n - 1], inputDir, outputDir, scorer)
  }

  /**
   * After `n` files each of them is either processed or failed, the
   * processed ones are exactly the files written, every written file is a
   * `_prediction.csv`, and no more rows were scored than were read.
   */
  lemma {:induction false} FilesPrefixCounts(files: seq<CsvFile>, inputDir: string, outputDir: string, scorer: Scorer, n: nat)
    requires n <= |files|
    ensures var p := FilesPrefix(files, inputDir, outputDir, scorer, n);
            && p.stats.totalFiles == |files|
            && p.stats.processedFiles + |p.stats.failedFiles| == n
            && |p.outputs| == p.stats.processedFiles
            && p.stats.processedCompounds <= p.stats.totalCompounds
            && forall k :: 0 <= k < |p.outputs| ==>
                 exists j :: 0 <= j < n && p.outputs[k].path == OutputName(outputDir, files[j].name)
    decreases n
  {
    if n > 0 {
      FilesPrefixCounts(files, inputDir, outputDir, scorer, n - 1);
      var before := FilesPrefix(files, inputDir, outputDir, scorer, n - 1);
      var after := FilesPrefix(files, inputDir, outputDir, scorer, n);
      forall k | 0 <= k < |after.outputs|
        ensures exists j :: 0 <= j < n && after.outputs[k].path == OutputName(outputDir, files[j].name)
      {
        if k < |before.outputs| {
          assert after.outputs[k] == before.outputs[k];
        } else {
          assert after.outputs[k].path == OutputName(outputDir, files[n - 1].name);
        }
      }
    }
  }

  /**
   * `predict_batch_datasets`: a missing input directory (`None`) and a
   * directory without CSV files are errors with empty stats; otherwise every
   * file goes through the file loop and the stats come back with `True`.
   */
  method PredictBatchDatasets(inputDir: string, listing: Option<seq<CsvFile>>, outputDir: string, scorer: Scorer)
    returns (ok: bool, error: Option<string>, stats: Option<BatchStats>, outputs: seq<Output>)
    ensures listing.None? ==> !ok && error == Some("输入目录不存在: " + inputDir) && stats.None? && outputs == []
    ensures listing == Some([]) ==> !ok && error == Some("目录中没有CSV文件: " + inputDir) && stats.None? && outputs == []
    ensures listing.Some? && listing.value != [] ==>
              var p := FilesPrefix(listing.value, inputDir, outputDir, scorer, |listing.value|);
              ok && error.None? && stats == Some(p.stats) && outputs == p.outputs
  {
    if listing.None? {
      return false, Some("输入目录不存在: " + inputDir), None, [];
    }
    var files := listing.value;
    if files == [] {
      return false, Some("目录中没有CSV文件: " + inputDir), None, [];
    }
    var st := BatchStats(|files|, 0, [], 0, 0);
    outputs := [];
    var n := 0;
    while n < |files|
      invariant 0 <= n <= |files|
      invariant FilesPrefix(files, inputDir, outputDir, scorer, n) == Progress(st, outputs)
    {
      var f := files[n];
      var path := inputDir + "/" + f.name;
      if f.contents.Failure? {
        st := st.(failedFiles := st.failedFiles + [(path, f.contents.error)]);
      } else {
        var data := f.contents.value;
        st := st.(totalCompounds := st.totalCompounds + |data.rows|);
        if FirstMissing(DatasetColumns, data.columns).Some? {
          st := st.(failedFiles := st.failedFiles + [(path, "文件缺少必要的列: " + path)]);
        } else {
          var results, failure := ScoreFile(data, scorer);
          st := st.(processedCompounds := st.processedCompounds + |results|);
          if failure.Some? {
            st := st.(failedFiles := st.failedFiles + [(path, failure.value)]);
          } else {
            outputs := outputs + [Output(OutputName(outputDir, f.name), results)];
            st := st.(processedFiles := st.processedFiles + 1);
          }
        }
      }
      n := n + 1;
    }
    return true, None, Some(st), outputs;
  }

  /** The row loop of one dataset file: the rows scored before the first exception, and that exception. */
  method ScoreFile(data: Frame, scorer: Scorer) returns (results: seq<Prediction>, failure: Option<string>)
    ensures ScanRows(data, scorer, "Ingredient_Smile", "Sequence", |data.rows|) == Scan(results, failure)
  {
    results := [];
    var i := 0;
    while i < |data.rows|
      invariant 0 <= i <= |data.rows|
      invariant ScanRows(data, scorer, "Ingredient_Smile", "Sequence", i) == Scan(results, None)
    {
      var row := data.rows[i];
      var score := scorer(Get(row, "Ingredient_Smile"), Get(row, "Sequence"));
      if score.Failure? {
        ScanRowsStops(data, scorer, "Ingredient_Smile", "Sequence", i + 1, |data.rows|);
        return results, Some(score.error);
      }
      var missing := FirstMissing(RecordColumns, data.columns);
      if missing.Some? {
        ScanRowsStops(data, scorer, "Ingredient_Smile", "Sequence", i + 1, |data.rows|);
        return results, Some("'" + missing.value + "'");
      }
      results := results + [PredictionOf(row, score.value)];
      i := i + 1;
    }
    return results, None;
  }
}
