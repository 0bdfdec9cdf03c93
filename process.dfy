/**
 * `DataProcessor` in api/process.py: checking a SMILES string, building the
 * dataset of one compound against the protein panel, and building one dataset
 * file per compound of an uploaded table with per-row accounting. The RDKit
 * parser is given as a function; the panel is the table the constructor
 * loaded; reading the input is the table passed in and writing is the list of
 * files returned.
 */
module DataProcessing {
  import opened Wrappers
  import opened Frames
  import Predictor

  // ------------------------------------------------------------ validation

  /** What `Chem.MolFromSmiles` does with a value: a molecule, `None`, or an exception with its message. */
  datatype Parsed = Molecule | NoMolecule | Raised(message: string)

  type SmilesParser = Cell -> Parsed

  /**
   * `validate_smiles`: `(True, None)` exactly when the parser gives a molecule;
   * `None` is reported as an invalid string and an exception by its message.
   */
  function ValidateSmiles(parse: SmilesParser, smiles: Cell): (r: (bool, Option<string>))
    ensures r.0 <==> parse(smiles).Molecule?
    ensures r.0 <==> r.1.None?
    ensures parse(smiles).NoMolecule? ==> r.1 == Some("无效的SMILES字符串")
    ensures parse(smiles).Raised? ==> r.1 == Some("SMILES验证出错: " + parse(smiles).message)
  {
    match parse(smiles)
    case Molecule => (true, None)
    case NoMolecule => (false, Some("无效的SMILES字符串"))
    case Raised(e) => (false, Some("SMILES验证出错: " + e))
  }

  // --------------------------------------------------------------- dataset

  /** The panel columns a dataset copies, in the order the dict literal reads them. */
  const PanelColumns: seq<string> := ["sequence", "gene", "protein"]

  /** One dataset row: the compound's SMILES beside one protein of the panel. */
  function DatasetRow(protein: Row, smiles: Cell): (r: Row)
    ensures Get(r, "Ingredient_Smile") == smiles
    ensures Get(r, "Sequence") == Get(protein, "sequence")
    ensures Get(r, "Gene") == Get(protein, "gene")
    ensures Get(r, "Protein") == Get(protein, "protein")
  {
    map["Ingredient_Smile" := smiles, "Sequence" := Get(protein, "sequence"),
        "Gene" := Get(protein, "gene"), "Protein" := Get(protein, "protein")]
  }

  /** The SMILES repeated once per panel row, beside that row's protein. */
  function DatasetRows(panel: seq<Row>, smiles: Cell): (rows: seq<Row>)
    ensures |rows| == |panel|
    ensures forall k :: 0 <= k < |rows| ==> rows[k] == DatasetRow(panel[k], smiles)
  {
    if panel == [] then [] else [DatasetRow(panel[0], smiles)] + DatasetRows(panel[1..], smiles)
  }

  /**
   * The `pd.DataFrame({...})` of both builders: the first panel column that
   * is missing raises a `KeyError`, whose text is the quoted column name.
   */
  function Dataset(panel: Frame, smiles: Cell): (r: Result<Frame>)
    ensures r.Failure? <==> Predictor.FirstMissing(PanelColumns, panel.columns).Some?
    ensures r.Failure? ==> r.error == "'" + Predictor.FirstMissing(PanelColumns, panel.columns).value + "'"
  {
    match Predictor.FirstMissing(PanelColumns, panel.columns)
    case Some(c) => Failure("'" + c + "'")
    case None => Success(Frame(Predictor.DatasetColumns, DatasetRows(panel.rows, smiles)))
  }

  /**
   * A dataset has the four columns the predictor's file check asks for, one
   * row per protein of the panel, each with the same SMILES and that protein's
   * sequence, gene and name.
   */
  lemma DatasetShape(panel: Frame, smiles: Cell, k: int)
    requires Dataset(panel, smiles).Success?
    ensures var d := Dataset(panel, smiles).value;
            && Predictor.FirstMissing(Predictor.DatasetColumns, d.columns).None?
            && |d.rows| == |panel.rows|
            && (0 <= k < |d.rows| ==>
                  && Get(d.rows[k], "Ingredient_Smile") == smiles
                  && Get(d.rows[k], "Sequence") == Get(panel.rows[k], "sequence")
                  && Get(d.rows[k], "Gene") == Get(panel.rows[k], "gene")
                  && Get(d.rows[k], "Protein") == Get(panel.rows[k], "protein"))
  {
    var d := Dataset(panel, smiles).value;
    if 0 <= k < |d.rows| {
      assert d.rows[k] == DatasetRow(panel.rows[k], smiles);
    }
  }

  /** A file `to_csv` writes: its path and its table. */
  datatype Written = Written(path: string, data: Frame)

  /** What `build_dataset` ends with: the file it saved, or the message of `(False, message)`. */
  datatype DatasetOutcome = Saved(file: Written) | NotSaved(error: string)

  /**
   * `build_dataset`: an invalid SMILES is rejected with the validation message
   * before anything is built; a missing panel column is reported as an error
   * building the dataset; otherwise the dataset is saved under `savePath`.
   */
  function BuildDataset(parse: SmilesParser, panel: Frame, smiles: string, savePath: string): (r: DatasetOutcome)
    ensures r.Saved? <==> parse(Str(smiles)).Molecule? && Predictor.FirstMissing(PanelColumns, panel.columns).None?
    ensures !parse(Str(smiles)).Molecule? ==> r == NotSaved(ValidateSmiles(parse, Str(smiles)).1.value)
    ensures parse(Str(smiles)).Molecule? && Predictor.FirstMissing(PanelColumns, panel.columns).Some? ==>
              r == NotSaved("构建数据集时出错: '" + Predictor.FirstMissing(PanelColumns, panel.columns).value + "'")
    ensures r.Saved? ==> r.file.path == savePath && |r.file.data.rows| == |panel.rows|
    ensures r.Saved? ==> forall k :: 0 <= k < |r.file.data.rows| ==> Get(r.file.data.rows[k], "Ingredient_Smile") == Str(smiles)
  {
    var (valid, message) := ValidateSmiles(parse, Str(smiles));
    if !valid then NotSaved(message.value)
    else
      match Dataset(panel, Str(smiles))
      case Failure(e) => NotSaved("构建数据集时出错: " + e)
      case Success(d) => Saved(Written(savePath, d))
  }

  // ------------------------------------------------------------ batch build

  /** The default column names of `build_batch_datasets`. */
  const DefaultIdColumn: string := "编号"
  const DefaultSmilesColumn: string := "Smiles格式"

  /** `str.endswith`. */
  predicate EndsWith(s: string, suffix: string)
  {
    |suffix| <= |s| && s[|s| - |suffix|..] == suffix
  }

  /** The names `read_csv` or `read_excel` is asked to read. */
  predicate Readable(inputFile: string)
  {
    EndsWith(inputFile, ".csv") || EndsWith(inputFile, ".xlsx") || EndsWith(inputFile, ".xls")
  }

  /** An entry of `failed_compounds`. */
  datatype FailedCompound = FailedCompound(id: string, error: string)

  /** The `stats` dict. */
  datatype ProcessStats = ProcessStats(total: nat, success: nat, failed: nat, failedCompounds: seq<FailedCompound>)

  /** The stats so far and the files written so far. */
  datatype Built = Built(stats: ProcessStats, written: seq<Written>)

  /** What a batch works with; `show` is `str()` of a cell. */
  datatype BuildEnv = BuildEnv(idColumn: string, smilesColumn: string, panel: Frame, parse: SmilesParser, show: Cell -> string)

  /**
   * One row of the loop: an invalid SMILES is a failed compound with the
   * validation message; a dataset that cannot be built is one with the
   * exception's text; otherwise `<id>.csv` is written and counted.
   */
  function BuildStep(b: Built, row: Row, env: BuildEnv): Built
  {
    var id := env.show(Get(row, env.idColumn));
    var smiles := Get(row, env.smilesColumn);
    var st := b.stats;
    var (valid, message) := ValidateSmiles(env.parse, smiles);
    if !valid then
      Built(st.(failed := st.failed + 1, failedCompounds := st.failedCompounds + [FailedCompound(id, message.value)]), b.written)
    else
      match Dataset(env.panel, smiles)
      case Failure(e) =>
        Built(st.(failed := st.failed + 1, failedCompounds := st.failedCompounds + [FailedCompound(id, e)]), b.written)
      case Success(d) =>
        Built(st.(success := st.success + 1), b.written + [Written(id + ".csv", d)])
  }

  /** The row loop after its first `n` rows, with `total` set to all of them. */
  function BuildPrefix(rows: seq<Row>, env: BuildEnv, n: nat): Built
    requires n <= |rows|
    decreases n
  {
    if n == 0 then Built(ProcessStats(|rows|, 0, 0, []), [])
    else BuildStep(BuildPrefix(rows, env, n - 1), rows[n - 1], env)
  }

  /**
   * After `n` rows each of them was counted once, as a success or as a failed
   * compound; every success wrote one file and every failure left one entry.
   */
  lemma {:induction false} BuildPrefixCounts(rows: seq<Row>, env: BuildEnv, n: nat)
    requires n <= |rows|
    ensures var b := BuildPrefix(rows, env, n);
            && b.stats.total == |rows|
            && b.stats.success + b.stats.failed == n
            && |b.stats.failedCompounds| == b.stats.failed
            && |b.written| == b.stats.success
    decreases n
  {
    if n > 0 {
      BuildPrefixCounts(rows, env, n - 1);
    }
  }

  /**
   * Every file written belongs to a row with a valid SMILES: it is named
   * `<id>.csv` after that row's id and holds that row's dataset.
   */
  lemma {:induction false} BuildPrefixWritten(rows: seq<Row>, env: BuildEnv, n: nat, k: int) returns (j: nat)
    requires n <= |rows| && 0 <= k < |BuildPrefix(rows, env, n).written|
    ensures j < n
    ensures env.parse(Get(rows[j], env.smilesColumn)).Molecule?
    ensures Dataset(env.panel, Get(rows[j], env.smilesColumn)).Success?
    ensures BuildPrefix(rows, env, n).written[k]
            == Written(env.show(Get(rows[j], env.idColumn)) + ".csv", Dataset(env.panel, Get(rows[j], env.smilesColumn)).value)
    decreases n
  {
    var before := BuildPrefix(rows, env, n - 1);
    if k < |before.written| {
      assert BuildPrefix(rows, env, n).written[k] == before.written[k];
      j := BuildPrefixWritten(rows, env, n - 1, k);
    } else {
      j := n - 1;
    }
  }

  /**
   * Every failed compound belongs to a row whose SMILES is invalid, with the
   * validation message, or whose dataset could not be built, with that error.
   */
  lemma {:induction false} BuildPrefixFailed(rows: seq<Row>, env: BuildEnv, n: nat, k: int) returns (j: nat)
    requires n <= |rows| && 0 <= k < |BuildPrefix(rows, env, n).stats.failedCompounds|
    ensures j < n
    ensures var f := BuildPrefix(rows, env, n).stats.failedCompounds[k];
            var smiles := Get(rows[j], env.smilesColumn);
            && f.id == env.show(Get(rows[j], env.idColumn))
            && (!env.parse(smiles).Molecule? ==> Some(f.error) == ValidateSmiles(env.parse, smiles).1)
            && (env.parse(smiles).Molecule? ==> Dataset(env.panel, smiles).Failure? && f.error == Dataset(env.panel, smiles).error)
    decreases n
  {
    var before := BuildPrefix(rows, env, n - 1);
    if k < |before.stats.failedCompounds| {
      assert BuildPrefix(rows, env, n).stats.failedCompounds[k] == before.stats.failedCompounds[k];
      j := BuildPrefixFailed(rows, env, n - 1, k);
    } else {
      j := n - 1;
    }
  }

  /** The body of the row loop, on the stats and files so far. */
  method BuildRow(env: BuildEnv, row: Row, st: ProcessStats, written: seq<Written>)
    returns (st': ProcessStats, written': seq<Written>)
    ensures Built(st', written') == BuildStep(Built(st, written), row, env)
  {
    var compoundId := env.show(Get(row, env.idColumn));
    var smiles := Get(row, env.smilesColumn);
    var (valid, message) := ValidateSmiles(env.parse, smiles);
    written' := written;
    if !valid {
      st' := st.(failed := st.failed + 1, failedCompounds := st.failedCompounds + [FailedCompound(compoundId, message.value)]);
    } else {
      var dataset := Dataset(env.panel, smiles);
      if dataset.Failure? {
        st' := st.(failed := st.failed + 1, failedCompounds := st.failedCompounds + [FailedCompound(compoundId, dataset.error)]);
      } else {
        written' := written + [Written(compoundId + ".csv", dataset.value)];
        st' := st.(success := st.success + 1);
      }
    }
  }

  /**
   * `build_batch_datasets`: an unsupported extension, an unreadable file, a
   * missing id column and a missing SMILES column are errors with `{}`, in that
   * order; otherwise the rows without a SMILES are dropped and the rest go
   * through the row loop, whose stats come back with `True`.
   */
  method BuildBatchDatasets(inputFile: string, contents: Result<Frame>, idColumn: string, smilesColumn: string,
                            panel: Frame, parse: SmilesParser, show: Cell -> string)
    returns (ok: bool, error: Option<string>, stats: Option<ProcessStats>, written: seq<Written>)
    ensures !Readable(inputFile) ==> !ok && error == Some("不支持的文件格式: " + inputFile) && stats.None? && written == []
    ensures Readable(inputFile) && contents.Failure? ==>
              !ok && error == Some("处理过程中出错: " + contents.error) && stats.None? && written == []
    ensures Readable(inputFile) && contents.Success? && idColumn !in contents.value.columns ==>
              !ok && error == Some("找不到ID列: " + idColumn) && stats.None? && written == []
    ensures Readable(inputFile) && contents.Success? && idColumn in contents.value.columns && smilesColumn !in contents.value.columns ==>
              !ok && error == Some("找不到SMILES列: " + smilesColumn) && stats.None? && written == []
    ensures ok <==> Readable(inputFile) && contents.Success? && idColumn in contents.value.columns && smilesColumn in contents.value.columns
    ensures ok ==>
              var rows := NonMissing(contents.value.rows, smilesColumn);
              var b := BuildPrefix(rows, BuildEnv(idColumn, smilesColumn, panel, parse, show), |rows|);
              error.None? && stats == Some(b.stats) && written == b.written
  {
    if !Readable(inputFile) {
      return false, Some("不支持的文件格式: " + inputFile), None, [];
    }
    if contents.Failure? {
      return false, Some("处理过程中出错: " + contents.error), None, [];
    }
    var df := contents.value;
    if idColumn !in df.columns {
      return false, Some("找不到ID列: " + idColumn), None, [];
    }
    if smilesColumn !in df.columns {
      return false, Some("找不到SMILES列: " + smilesColumn), None, [];
    }
    var rows := NonMissing(df.rows, smilesColumn);
    var env := BuildEnv(idColumn, smilesColumn, panel, parse, show);
    var st := ProcessStats(|rows|, 0, 0, []);
    written := [];
    var i := 0;
    while i < |rows|
      invariant 0 <= i <= |rows|
      invariant BuildPrefix(rows, env, i) == Built(st, written)
    {
      st, written := BuildRow(env, rows[i], st, written);
      i := i + 1;
    }
    return true, None, Some(st), written;
  }

  /**
   * A batch that got through its checks accounts for every row with a SMILES
   * exactly once: `success + failed == total`, one entry per failure, and one
   * `<id>.csv` per success.
   */
  lemma BatchAccounting(inputFile: string, contents: Result<Frame>, idColumn: string, smilesColumn: string,
                        panel: Frame, parse: SmilesParser, show: Cell -> string, row: Row)
    requires contents.Success?
    ensures var rows := NonMissing(contents.value.rows, smilesColumn);
            var b := BuildPrefix(rows, BuildEnv(idColumn, smilesColumn, panel, parse, show), |rows|);
            && b.stats.total == |rows|
            && b.stats.success + b.stats.failed == b.stats.total
            && |b.stats.failedCompounds| == b.stats.failed
            && |b.written| == b.stats.success
            && (row in rows <==> row in contents.value.rows && !IsNA(Get(row, smilesColumn)))
  {
    var rows := NonMissing(contents.value.rows, smilesColumn);
    BuildPrefixCounts(rows, BuildEnv(idColumn, smilesColumn, panel, parse, show), |rows|);
  }
}
