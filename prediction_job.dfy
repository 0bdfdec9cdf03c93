/**
 * `PredictionJob` of api/prediction.py: the job's status machine and the
 * counters its single and batch runs update unit by unit. A run is the body of
 * the job's thread, taken here as one sequential call; the scorer and the
 * SMILES check are given as functions, and a cancellation arriving from
 * another request is the check point at which the run first sees it.
 */
module PredictionJobs {
  import opened Wrappers
  import opened Text
  import opened Frames
  import opened Predictor

  /** `'queued' | 'running' | 'completed' | 'failed' | 'cancelled'`. */
  datatype Status = Queued | Running | Completed | Failed | Cancelled {
    predicate Terminal() { this == Completed || this == Failed || this == Cancelled }
  }

  /** `Chem.MolFromSmiles(smiles) is not None`, without raising. */
  type Validity = Cell -> bool

  /** The lowest score a high-confidence prediction has. */
  const HighConfidence: real := 0.95

  /** A row of the protein panel file. */
  datatype Protein = Protein(protein: Cell, gene: Cell, sequence: Cell, id: Option<Cell>)

  /** The job's input: the SMILES of a single job, or the uploaded table and its columns for a batch. */
  datatype JobData =
    | SingleData(smiles: string)
    | BatchData(compounds: Result<Frame>, smilesColumn: string, idColumn: Option<string>)

  /** One predicted interaction; `compoundId` is present in batch results only. */
  datatype Interaction = Interaction(id: string, compoundId: Option<Cell>, smiles: Cell, protein: Cell, gene: Cell,
                                     sequence: Cell, score: real, proteinId: Cell)

  datatype Summary =
    | SingleSummary(totalTargets: nat, successful: int, failed: int, highConfidence: nat)
    | BatchSummary(totalCompounds: nat, processedCompounds: nat, totalTargets: nat, totalInteractions: nat,
                   successful: int, failed: int, highConfidence: nat)

  /** `self.results`. */
  datatype JobResults = JobResults(interactions: seq<Interaction>, summary: Summary)

  /** What `get_status()` reports; the progress percentage is not modelled. */
  datatype JobStatus = JobStatus(jobId: string, status: Status, processed: int, total: nat, successCount: int,
                                 failedCount: int, eta: Option<string>, error: Option<string>)

  // ------------------------------------------------------------- one unit

  /** What scoring one protein gives. */
  datatype Unit = Scored(interaction: Interaction) | Filtered | Unscored

  /**
   * The body of the inner `try`: a scorer exception is a failed unit, a score
   * below 0.95 is filtered out when only high-confidence results are wanted,
   * and otherwise the interaction is recorded with the panel's `id`, or the
   * unit's index when the panel has none.
   */
  function UnitOf(highOnly: bool, scorer: Scorer, smiles: Cell, p: Protein, id: string, compoundId: Option<Cell>, idx: nat): (u: Unit)
    ensures u.Unscored? <==> scorer(smiles, p.sequence).Failure?
    ensures u.Filtered? <==> highOnly && scorer(smiles, p.sequence).Success? && scorer(smiles, p.sequence).value < HighConfidence
    ensures u.Scored? ==>
              && u.interaction.id == id && u.interaction.compoundId == compoundId
              && u.interaction.sequence == p.sequence
              && u.interaction.score == scorer(smiles, p.sequence).value
              && (highOnly ==> u.interaction.score >= HighConfidence)
  {
    match scorer(smiles, p.sequence)
    case Failure(_) => Unscored
    case Success(score) =>
      if highOnly && score < HighConfidence then Filtered
      else Scored(Interaction(id, compoundId, smiles, p.protein, p.gene, p.sequence, score, p.id.GetOr(Num(idx as real))))
  }

  /** `f"{job_id}_{idx}"`. */
  function SingleId(jobId: string, idx: nat): string { jobId + "_" + IntToString(idx) }

  /** `f"{job_id}_{comp_idx}_{prot_idx}"`. */
  function BatchId(jobId: string, row: nat, idx: nat): string { jobId + "_" + IntToString(row) + "_" + IntToString(idx) }

  /** Counters of a run and the interactions it has gathered. */
  datatype Tally = Tally(processed: int, success: int, failed: int, found: seq<Interaction>)

  /** The counter updates of one unit; a filtered unit counts as processed only in a batch. */
  function Apply(t: Tally, u: Unit, countFiltered: bool): (r: Tally)
    ensures r.processed - t.processed == (if u.Filtered? && !countFiltered then 0 else 1)
    ensures r.success - t.success == |r.found| - |t.found| == (if u.Scored? then 1 else 0)
    ensures r.failed - t.failed == (if u.Unscored? then 1 else 0)
  {
    match u
    case Scored(x) => Tally(t.processed + 1, t.success + 1, t.failed, t.found + [x])
    case Unscored => Tally(t.processed + 1, t.success, t.failed + 1, t.found)
    case Filtered => if countFiltered then Tally(t.processed + 1, t.success, t.failed, t.found) else t
  }

  /** The counters of a unit do not depend on the interactions gathered so far, which it only extends. */
  lemma ApplySplit(t: Tally, u: Unit, countFiltered: bool)
    ensures var c := Apply(Tally(t.processed, t.success, t.failed, []), u, countFiltered);
            Apply(t, u, countFiltered) == Tally(c.processed, c.success, c.failed, t.found + (if u.Scored? then [u.interaction] else []))
  {
  }

  /** Where a run stands: still going, returned on a cancellation, or ended by an exception. */
  datatype Run = Going(t: Tally, compounds: nat) | Stopped(t: Tally) | Crashed(t: Tally, error: string)

  /** `len([r for r in results if r['score'] >= 0.95])`. */
  function CountHigh(s: seq<Interaction>): (n: nat)
    ensures n <= |s|
  {
    if s == [] then 0 else CountHigh(s[..|s| - 1]) + (if s[|s| - 1].score >= HighConfidence then 1 else 0)
  }

  /** When every interaction is high-confidence, the count is all of them. */
  lemma {:induction false} CountHighAll(s: seq<Interaction>)
    requires forall k :: 0 <= k < |s| ==> s[k].score >= HighConfidence
    ensures CountHigh(s) == |s|
    decreases |s|
  {
    if s != [] {
      CountHighAll(s[..|s| - 1]);
    }
  }

  // ------------------------------------------------------------ single mode

  /** What a single run works with; `cancelAt` is the protein before which a cancellation is first seen. */
  datatype SingleEnv = SingleEnv(jobId: string, smiles: string, panel: seq<Protein>, scorer: Scorer, highOnly: bool,
                                 cancelAt: Option<nat>)

  function SingleUnit(env: SingleEnv, idx: nat): Unit
    requires idx < |env.panel|
  {
    UnitOf(env.highOnly, env.scorer, Str(env.smiles), env.panel[idx], SingleId(env.jobId, idx), None, idx)
  }

  /** The single loop after its first `m` proteins, from the counters `init`. */
  function SinglePrefix(init: Tally, env: SingleEnv, m: nat): (r: Run)
    requires m <= |env.panel|
    ensures !r.Crashed? && (r.Going? ==> r.compounds == 0)
    decreases m
  {
    if m == 0 then Going(init, 0)
    else
      var before := SinglePrefix(init, env, m - 1);
      if !before.Going? then before
      else if env.cancelAt == Some(m - 1) then Stopped(before.t)
      else Going(Apply(before.t, SingleUnit(env, m - 1), false), 0)
  }

  /** One more protein of a loop that goes on applies its unit. */
  lemma SingleStep(init: Tally, env: SingleEnv, idx: nat)
    requires idx < |env.panel|
    requires SinglePrefix(init, env, idx).Going? && env.cancelAt != Some(idx)
    ensures SinglePrefix(init, env, idx + 1) == Going(Apply(SinglePrefix(init, env, idx).t, SingleUnit(env, idx), false), 0)
  {
  }

  /** Once a run has returned, later proteins change nothing. */
  lemma {:induction false} SinglePrefixStays(init: Tally, env: SingleEnv, k: nat, m: nat)
    requires k <= m <= |env.panel|
    requires !SinglePrefix(init, env, k).Going?
    ensures SinglePrefix(init, env, m) == SinglePrefix(init, env, k)
    decreases m
  {
    if m > k {
      SinglePrefixStays(init, env, k, m - 1);
    }
  }

  /**
   * From zero counters, after `m` proteins: the successes are the interactions,
   * successes and failures add up to `processed`, which is at most `m` and is
   * exactly `m` when nothing is filtered and the loop was not cancelled; with
   * the high-confidence option every interaction scores at least 0.95.
   */
  lemma {:induction false} SingleCounts(env: SingleEnv, m: nat)
    requires m <= |env.panel|
    ensures var t := SinglePrefix(Tally(0, 0, 0, []), env, m).t;
            && t.success == |t.found|
            && t.success + t.failed == t.processed <= m
            && (env.highOnly ==> forall k :: 0 <= k < |t.found| ==> t.found[k].score >= HighConfidence)
    ensures SinglePrefix(Tally(0, 0, 0, []), env, m).Going? && !env.highOnly ==> SinglePrefix(Tally(0, 0, 0, []), env, m).t.processed == m
    decreases m
  {
    if m > 0 {
      SingleCounts(env, m - 1);
      var before := SinglePrefix(Tally(0, 0, 0, []), env, m - 1);
      if before.Going? && env.cancelAt != Some(m - 1) {
        var t := Apply(before.t, SingleUnit(env, m - 1), false);
        assert forall k :: 0 <= k < |before.t.found| ==> t.found[k] == before.t.found[k];
      }
    }
  }

  /**
   * From zero counters, every interaction of a single run carries the id
   * `job_id + "_" + idx` and the sequence of panel entry `idx`, for an `idx`
   * below the number of proteins scored.
   */
  lemma {:induction false} SingleIds(env: SingleEnv, m: nat, k: int) returns (idx: nat)
    requires m <= |env.panel|
    requires 0 <= k < |SinglePrefix(Tally(0, 0, 0, []), env, m).t.found|
    ensures idx < m
    ensures SinglePrefix(Tally(0, 0, 0, []), env, m).t.found[k].id == SingleId(env.jobId, idx)
    ensures SinglePrefix(Tally(0, 0, 0, []), env, m).t.found[k].sequence == env.panel[idx].sequence
    decreases m
  {
    var before := SinglePrefix(Tally(0, 0, 0, []), env, m - 1);
    if before.Going? && env.cancelAt != Some(m - 1) {
      var t := Apply(before.t, SingleUnit(env, m - 1), false);
      if k < |before.t.found| {
        assert t.found[k] == before.t.found[k];
        idx := SingleIds(env, m - 1, k);
      } else {
        assert t.found[k] == SingleUnit(env, m - 1).interaction;
        idx := m - 1;
      }
    } else {
      idx := SingleIds(env, m - 1, k);
    }
  }

  function SingleResults(total: nat, t: Tally): JobResults
  {
    JobResults(t.found, SingleSummary(total, t.success, t.failed, CountHigh(t.found)))
  }

  // ------------------------------------------------------------- batch mode

  /** A point where the batch loop reads the status: before a compound, or before one of its proteins. */
  datatype Check = BeforeCompound(row: nat) | BeforeProtein(row: nat, protein: nat)

  /** What a batch run works with; `cancel` is the check at which a cancellation is first seen. */
  datatype BatchEnv = BatchEnv(jobId: string, df: Frame, smilesColumn: string, idColumn: Option<string>,
                               panel: seq<Protein>, scorer: Scorer, valid: Validity, highOnly: bool,
                               cancel: Option<Check>)

  /** `compound_row[id_column] if id_column else f"compound_{comp_idx}"`; a missing column is a KeyError. */
  function CompoundIdOf(df: Frame, row: Row, idColumn: Option<string>, i: nat): (r: Result<Cell>)
    ensures idColumn.None? || idColumn.value == "" ==> r == Success(Str("compound_" + IntToString(i)))
  {
    if idColumn.Some? && idColumn.value != "" then
      if idColumn.value in df.columns then Success(Get(row, idColumn.value)) else Failure("'" + idColumn.value + "'")
    else Success(Str("compound_" + IntToString(i)))
  }

  function BatchUnit(env: BatchEnv, i: nat, compoundId: Cell, smiles: Cell, idx: nat): Unit
    requires idx < |env.panel|
  {
    UnitOf(env.highOnly, env.scorer, smiles, env.panel[idx], BatchId(env.jobId, i, idx), Some(compoundId), idx)
  }

  /**
   * The protein loop of compound `i` after its first `m` proteins: the job's
   * counters, continued from `t`, and this compound's interactions.
   */
  function CompoundPrefix(t: Tally, env: BatchEnv, i: nat, compoundId: Cell, smiles: Cell, m: nat): (r: Run)
    requires m <= |env.panel|
    ensures !r.Crashed? && (r.Going? ==> r.compounds == 0)
    decreases m
  {
    if m == 0 then Going(Tally(t.processed, t.success, t.failed, []), 0)
    else
      var before := CompoundPrefix(t, env, i, compoundId, smiles, m - 1);
      if !before.Going? then before
      else if env.cancel == Some(BeforeProtein(i, m - 1)) then Stopped(before.t)
      else Going(Apply(before.t, BatchUnit(env, i, compoundId, smiles, m - 1), true), 0)
  }

  /** One more protein of a compound loop that goes on applies its unit. */
  lemma CompoundStep(t: Tally, env: BatchEnv, i: nat, compoundId: Cell, smiles: Cell, j: nat)
    requires j < |env.panel|
    requires CompoundPrefix(t, env, i, compoundId, smiles, j).Going? && env.cancel != Some(BeforeProtein(i, j))
    ensures CompoundPrefix(t, env, i, compoundId, smiles, j + 1)
            == Going(Apply(CompoundPrefix(t, env, i, compoundId, smiles, j).t, BatchUnit(env, i, compoundId, smiles, j), true), 0)
  {
  }

  lemma {:induction false} CompoundPrefixStays(t: Tally, env: BatchEnv, i: nat, compoundId: Cell, smiles: Cell, k: nat, m: nat)
    requires k <= m <= |env.panel|
    requires !CompoundPrefix(t, env, i, compoundId, smiles, k).Going?
    ensures CompoundPrefix(t, env, i, compoundId, smiles, m) == CompoundPrefix(t, env, i, compoundId, smiles, k)
    decreases m
  {
    if m > k {
      CompoundPrefixStays(t, env, i, compoundId, smiles, k, m - 1);
    }
  }

  /**
   * One pass of the compound loop: the cancellation check, the SMILES and id
   * cells, then either the whole panel counted as failed for an invalid SMILES,
   * or the protein loop with its interactions appended.
   */
  function RowStep(r: Run, env: BatchEnv, i: nat): Run
    requires i < |env.df.rows|
  {
    if !r.Going? then r
    else if env.cancel == Some(BeforeCompound(i)) then Stopped(r.t)
    else if env.smilesColumn !in env.df.columns then Crashed(r.t, "'" + env.smilesColumn + "'")
    else
      var row := env.df.rows[i];
      var smiles := Get(row, env.smilesColumn);
      match CompoundIdOf(env.df, row, env.idColumn, i)
      case Failure(e) => Crashed(r.t, e)
      case Success(compoundId) =>
        if !env.valid(smiles) then
          Going(Tally(r.t.processed + |env.panel|, r.t.success, r.t.failed + |env.panel|, r.t.found), r.compounds)
        else
          var inner := CompoundPrefix(Tally(r.t.processed, r.t.success, r.t.failed, []), env, i, compoundId, smiles, |env.panel|);
          if !inner.Going? then inner
          else Going(Tally(inner.t.processed, inner.t.success, inner.t.failed, r.t.found + inner.t.found), r.compounds + 1)
  }

  /** The batch loop after its first `n` compounds, from the counters `init`. */
  function BatchPrefix(init: Tally, env: BatchEnv, n: nat): Run
    requires n <= |env.df.rows|
    decreases n
  {
    if n == 0 then Going(init, 0) else RowStep(BatchPrefix(init, env, n - 1), env, n - 1)
  }

  lemma {:induction false} BatchPrefixStays(init: Tally, env: BatchEnv, k: nat, n: nat)
    requires k <= n <= |env.df.rows|
    requires !BatchPrefix(init, env, k).Going?
    ensures BatchPrefix(init, env, n) == BatchPrefix(init, env, k)
    decreases n
  {
    if n > k {
      BatchPrefixStays(init, env, k, n - 1);
    }
  }

  /** A row with an invalid SMILES counts every protein as failed and adds no interaction. */
  lemma RowSkipped(init: Tally, env: BatchEnv, i: nat, t: Tally, c: nat)
    requires i < |env.df.rows| && BatchPrefix(init, env, i) == Going(t, c)
    requires env.cancel != Some(BeforeCompound(i)) && env.smilesColumn in env.df.columns
    requires CompoundIdOf(env.df, env.df.rows[i], env.idColumn, i).Success?
    requires !env.valid(Get(env.df.rows[i], env.smilesColumn))
    ensures BatchPrefix(init, env, i + 1) == Going(Tally(t.processed + |env.panel|, t.success, t.failed + |env.panel|, t.found), c)
  {
  }

  /** A valid row whose protein loop ran to the end appends that loop's interactions. */
  lemma RowScored(init: Tally, env: BatchEnv, i: nat, t: Tally, c: nat, compoundId: Cell, inner: Run)
    requires i < |env.df.rows| && BatchPrefix(init, env, i) == Going(t, c)
    requires env.cancel != Some(BeforeCompound(i)) && env.smilesColumn in env.df.columns
    requires CompoundIdOf(env.df, env.df.rows[i], env.idColumn, i) == Success(compoundId)
    requires env.valid(Get(env.df.rows[i], env.smilesColumn))
    requires inner == CompoundPrefix(Tally(t.processed, t.success, t.failed, []), env, i, compoundId, Get(env.df.rows[i], env.smilesColumn), |env.panel|)
    ensures BatchPrefix(init, env, i + 1) == RowStep(Going(t, c), env, i)
    ensures inner.Going? ==>
              BatchPrefix(init, env, i + 1) == Going(Tally(inner.t.processed, inner.t.success, inner.t.failed, t.found + inner.t.found), c + 1)
    ensures !inner.Going? ==> BatchPrefix(init, env, i + 1) == inner
  {
  }

  /**
   * A batch still going after row `n` was going before it, was not cancelled at
   * it, found its SMILES column and its id, and holds the interactions it had
   * before followed by those of that row's protein loop when the row was valid.
   */
  lemma RowGoing(init: Tally, env: BatchEnv, n: nat) returns (compoundId: Cell, inner: Run)
    requires 0 < n <= |env.df.rows| && BatchPrefix(init, env, n).Going?
    ensures var before := BatchPrefix(init, env, n - 1);
            var smiles := Get(env.df.rows[n - 1], env.smilesColumn);
            && before.Going?
            && env.smilesColumn in env.df.columns
            && CompoundIdOf(env.df, env.df.rows[n - 1], env.idColumn, n - 1) == Success(compoundId)
            && (!env.valid(smiles) ==> BatchPrefix(init, env, n).t.found == before.t.found)
            && (env.valid(smiles) ==>
                  && inner == CompoundPrefix(Tally(before.t.processed, before.t.success, before.t.failed, []), env, n - 1, compoundId, smiles, |env.panel|)
                  && inner.Going?
                  && BatchPrefix(init, env, n).t.found == before.t.found + inner.t.found)
  {
    var before := BatchPrefix(init, env, n - 1);
    var smiles := Get(env.df.rows[n - 1], env.smilesColumn);
    compoundId := CompoundIdOf(env.df, env.df.rows[n - 1], env.idColumn, n - 1).value;
    inner := CompoundPrefix(Tally(before.t.processed, before.t.success, before.t.failed, []), env, n - 1, compoundId, smiles, |env.panel|);
  }

  /**
   * The protein loop of one compound adds one to `processed` per protein it
   * reaches, a filtered score included; its successes are its interactions, and
   * successes and failures add up to the proteins reached when nothing is
   * filtered.
   */
  lemma {:induction false} CompoundCounts(t: Tally, env: BatchEnv, i: nat, compoundId: Cell, smiles: Cell, m: nat)
    requires m <= |env.panel|
    ensures var r := CompoundPrefix(t, env, i, compoundId, smiles, m);
            && t.processed <= r.t.processed <= t.processed + m
            && r.t.success - t.success == |r.t.found|
            && r.t.failed >= t.failed
            && r.t.success - t.success + r.t.failed - t.failed <= r.t.processed - t.processed
            && (r.Going? ==> r.t.processed == t.processed + m)
            && (!env.highOnly ==> r.t.success - t.success + r.t.failed - t.failed == r.t.processed - t.processed)
            && (env.highOnly ==> forall k :: 0 <= k < |r.t.found| ==> r.t.found[k].score >= HighConfidence)
    decreases m
  {
    if m > 0 {
      CompoundCounts(t, env, i, compoundId, smiles, m - 1);
      var before := CompoundPrefix(t, env, i, compoundId, smiles, m - 1);
      if before.Going? && env.cancel != Some(BeforeProtein(i, m - 1)) {
        var u := BatchUnit(env, i, compoundId, smiles, m - 1);
        var after := Apply(before.t, u, true);
        assert forall k :: 0 <= k < |before.t.found| ==> after.found[k] == before.t.found[k];
      }
    }
  }

  /**
   * From zero counters, after `n` compounds: `processed` never exceeds
   * `n × |panel|` and reaches it when the loop ran to the end; successes and
   * failures never exceed `processed` and make it up exactly when nothing is
   * filtered; at the end the successes are the interactions, with the
   * high-confidence option all scoring at least 0.95, and at most `n`
   * compounds were scored.
   */
  lemma {:induction false} BatchCounts(env: BatchEnv, n: nat)
    requires n <= |env.df.rows|
    ensures var r := BatchPrefix(Tally(0, 0, 0, []), env, n);
            && 0 <= r.t.processed <= n * |env.panel|
            && 0 <= r.t.success && 0 <= r.t.failed
            && r.t.success + r.t.failed <= r.t.processed
            && (!env.highOnly ==> r.t.success + r.t.failed == r.t.processed)
    ensures var r := BatchPrefix(Tally(0, 0, 0, []), env, n);
            r.Going? ==>
              && r.t.processed == n * |env.panel|
              && r.t.success == |r.t.found|
              && r.compounds <= n
              && (env.highOnly ==> forall k :: 0 <= k < |r.t.found| ==> r.t.found[k].score >= HighConfidence)
    decreases n
  {
    if n > 0 {
      BatchCounts(env, n - 1);
      var before := BatchPrefix(Tally(0, 0, 0, []), env, n - 1);
      assert n * |env.panel| == (n - 1) * |env.panel| + |env.panel|;
      if before.Going? && env.cancel != Some(BeforeCompound(n - 1)) && env.smilesColumn in env.df.columns {
        var row := env.df.rows[n - 1];
        var smiles := Get(row, env.smilesColumn);
        var id := CompoundIdOf(env.df, row, env.idColumn, n - 1);
        if id.Success? && env.valid(smiles) {
          CompoundCounts(Tally(before.t.processed, before.t.success, before.t.failed, []), env, n - 1, id.value, smiles, |env.panel|);
        }
      }
    }
  }

  function BatchResults(env: BatchEnv, r: Run): JobResults
    requires r.Going?
  {
    JobResults(r.t.found, BatchSummary(|env.df.rows|, r.compounds, |env.panel|, |r.t.found|, r.t.success, r.t.failed, CountHigh(r.t.found)))
  }

  /** Each interaction of one compound's loop carries that compound's id and the id `job_id_row_j` of one of its proteins `j`. */
  lemma {:induction false} CompoundIds(t: Tally, env: BatchEnv, i: nat, compoundId: Cell, smiles: Cell, m: nat, k: int)
    returns (j: nat)
    requires m <= |env.panel|
    requires 0 <= k < |CompoundPrefix(t, env, i, compoundId, smiles, m).t.found|
    ensures j < m
    ensures CompoundPrefix(t, env, i, compoundId, smiles, m).t.found[k].compoundId == Some(compoundId)
    ensures CompoundPrefix(t, env, i, compoundId, smiles, m).t.found[k].id == BatchId(env.jobId, i, j)
    decreases m
  {
    var before := CompoundPrefix(t, env, i, compoundId, smiles, m - 1);
    if before.Going? && env.cancel != Some(BeforeProtein(i, m - 1)) {
      var after := Apply(before.t, BatchUnit(env, i, compoundId, smiles, m - 1), true);
      if k < |before.t.found| {
        assert after.found[k] == before.t.found[k];
        j := CompoundIds(t, env, i, compoundId, smiles, m - 1, k);
      } else {
        assert after.found[k] == BatchUnit(env, i, compoundId, smiles, m - 1).interaction;
        j := m - 1;
      }
    } else {
      j := CompoundIds(t, env, i, compoundId, smiles, m - 1, k);
    }
  }

  /**
   * From zero counters, each interaction of a batch that ran to the end carries
   * the id `job_id_i_j` of a compound row `i` and a protein `j`, and, when no id
   * column was named, the compound id `compound_<i>` of that same row.
   */
  lemma {:induction false} BatchIds(env: BatchEnv, n: nat, k: int) returns (i: nat, j: nat)
    requires n <= |env.df.rows|
    requires BatchPrefix(Tally(0, 0, 0, []), env, n).Going?
    requires 0 <= k < |BatchPrefix(Tally(0, 0, 0, []), env, n).t.found|
    ensures i < n && j < |env.panel|
    ensures BatchPrefix(Tally(0, 0, 0, []), env, n).t.found[k].id == BatchId(env.jobId, i, j)
    ensures env.idColumn.None? || env.idColumn.value == "" ==>
              BatchPrefix(Tally(0, 0, 0, []), env, n).t.found[k].compoundId == Some(Str("compound_" + IntToString(i)))
    decreases n
  {
    var before := BatchPrefix(Tally(0, 0, 0, []), env, n - 1);
    var cid, inner := RowGoing(Tally(0, 0, 0, []), env, n);
    if k < |before.t.found| {
      PrefixKept(Tally(0, 0, 0, []), env, n, k);
      i, j := BatchIds(env, n - 1, k);
    } else {
      j := RowIds(Tally(0, 0, 0, []), env, n, k);
      i := n - 1;
    }
  }

  /** An interaction gathered before row `n - 1` stays where it was. */
  lemma PrefixKept(init: Tally, env: BatchEnv, n: nat, k: int)
    requires 0 < n <= |env.df.rows| && BatchPrefix(init, env, n).Going?
    requires 0 <= k < |BatchPrefix(init, env, n - 1).t.found|
    ensures BatchPrefix(init, env, n - 1).Going?
    ensures k < |BatchPrefix(init, env, n).t.found| && BatchPrefix(init, env, n).t.found[k] == BatchPrefix(init, env, n - 1).t.found[k]
  {
    var cid, inner := RowGoing(init, env, n);
  }

  /** An interaction gathered at row `n - 1` carries that row's ids. */
  lemma RowIds(init: Tally, env: BatchEnv, n: nat, k: int) returns (j: nat)
    requires 0 < n <= |env.df.rows| && BatchPrefix(init, env, n).Going?
    requires |BatchPrefix(init, env, n - 1).t.found| <= k < |BatchPrefix(init, env, n).t.found|
    ensures j < |env.panel|
    ensures BatchPrefix(init, env, n).t.found[k].id == BatchId(env.jobId, n - 1, j)
    ensures env.idColumn.None? || env.idColumn.value == "" ==>
              BatchPrefix(init, env, n).t.found[k].compoundId == Some(Str("compound_" + IntToString(n - 1)))
  {
    var cid, inner := RowGoing(init, env, n);
    var before := BatchPrefix(init, env, n - 1);
    var smiles := Get(env.df.rows[n - 1], env.smilesColumn);
    var start := Tally(before.t.processed, before.t.success, before.t.failed, []);
    assert BatchPrefix(init, env, n).t.found[k] == inner.t.found[k - |before.t.found|];
    j := CompoundIds(start, env, n - 1, cid, smiles, |env.panel|, k - |before.t.found|);
  }

  /**
   * The summary of a single run that went to the end, from zero counters: the
   * successes are the interactions, and with the high-confidence option every
   * one of them is counted as high-confidence.
   */
  lemma SingleSummarySound(env: SingleEnv)
    requires SinglePrefix(Tally(0, 0, 0, []), env, |env.panel|).Going?
    ensures var r := SingleResults(|env.panel|, SinglePrefix(Tally(0, 0, 0, []), env, |env.panel|).t);
            && r.summary.successful == |r.interactions|
            && r.summary.successful + r.summary.failed <= r.summary.totalTargets
            && (!env.highOnly ==> r.summary.successful + r.summary.failed == r.summary.totalTargets)
            && (env.highOnly ==> r.summary.highConfidence == |r.interactions|)
  {
    var t := SinglePrefix(Tally(0, 0, 0, []), env, |env.panel|).t;
    SingleCounts(env, |env.panel|);
    if env.highOnly {
      CountHighAll(t.found);
    }
  }

  /**
   * The summary of a batch that went to the end, from zero counters: the
   * interactions are the successes, at most every compound was scored, and with
   * the high-confidence option every interaction is counted as high-confidence.
   */
  lemma BatchSummarySound(env: BatchEnv)
    requires BatchPrefix(Tally(0, 0, 0, []), env, |env.df.rows|).Going?
    ensures var r := BatchResults(env, BatchPrefix(Tally(0, 0, 0, []), env, |env.df.rows|));
            && r.summary.totalInteractions == r.summary.successful == |r.interactions|
            && r.summary.processedCompounds <= r.summary.totalCompounds
            && r.summary.totalTargets == |env.panel|
            && (env.highOnly ==> r.summary.highConfidence == |r.interactions|)
  {
    var run := BatchPrefix(Tally(0, 0, 0, []), env, |env.df.rows|);
    BatchCounts(env, |env.df.rows|);
    if env.highOnly {
      CountHighAll(run.t.found);
    }
  }

  // ------------------------------------------------------------------ status

  /** `f"{int(eta_seconds // 60)}:{int(eta_seconds % 60):02d}"`, for the whole seconds of the estimate. */
  function EtaText(seconds: nat): string
  {
    IntToString(seconds / 60) + ":" + Pad2(seconds % 60)
  }

  /** The ETA reads back as minutes, a colon and two digits of seconds that make up the estimate. */
  lemma EtaTextReadsBack(seconds: nat)
    ensures var m := IntToString(seconds / 60);
            var t := EtaText(seconds);
            && |t| == |m| + 3 && t[|m|] == ':'
            && ParseInt(t[..|m|]) == Some(seconds / 60)
            && AllDigits(t[|m| + 1..])
            && (seconds / 60) * 60 + DigitsValue(t[|m| + 1..]) == seconds
  {
    var m := IntToString(seconds / 60);
    var t := EtaText(seconds);
    assert t[..|m|] == m;
    assert t[|m| + 1..] == Pad2(seconds % 60);
    IntRoundTrip(seconds / 60);
    Pad2Value(seconds % 60);
  }

  // --------------------------------------------------------------- the class

  class PredictionJob {
    const jobId: string
    const data: JobData
    /** `options.get('high_confidence_only', False)`. */
    const highConfidenceOnly: bool
    var status: Status
    var processed: int
    var total: nat
    var successCount: int
    var failedCount: int
    var startTime: Option<int>
    var endTime: Option<int>
    var errorMessage: Option<string>
    var results: Option<JobResults>

    /** `'single'` or `'batch'`, as the route that creates the job sets it. */
    function Mode(): string
      reads this
    {
      if data.SingleData? then "single" else "batch"
    }

    /** `PredictionJob(job_id, mode, data, options)`: queued, every counter 0, no times, error or results. */
    constructor (jobId: string, data: JobData, highConfidenceOnly: bool)
      ensures this.jobId == jobId && this.data == data && this.highConfidenceOnly == highConfidenceOnly
      ensures status == Queued
      ensures processed == 0 && total == 0 && successCount == 0 && failedCount == 0
      ensures startTime.None? && endTime.None? && errorMessage.None? && results.None?
    {
      this.jobId := jobId;
      this.data := data;
      this.highConfidenceOnly := highConfidenceOnly;
      status := Queued;
      processed, total, successCount, failedCount := 0, 0, 0, 0;
      startTime, endTime, errorMessage, results := None, None, None, None;
    }

    /**
     * `start()`: without a predictor the job fails at once with no end time;
     * otherwise it is running from `now` (its thread is the run method of its mode).
     */
    method Start(available: bool, now: int)
      modifies this
      ensures !available ==> status == Failed && errorMessage == Some("Prediction service not available") && startTime == old(startTime)
      ensures available ==> status == Running && startTime == Some(now) && errorMessage == old(errorMessage)
      ensures processed == old(processed) && total == old(total) && successCount == old(successCount) && failedCount == old(failedCount)
      ensures endTime == old(endTime) && results == old(results)
    {
      if !available {
        status := Failed;
        errorMessage := Some("Prediction service not available");
        return;
      }
      status := Running;
      startTime := Some(now);
    }

    /** `cancel()`: cancelled, ended `now`, whatever the status was. */
    method Cancel(now: int)
      modifies this
      ensures status == Cancelled && endTime == Some(now)
      ensures processed == old(processed) && total == old(total) && successCount == old(successCount) && failedCount == old(failedCount)
      ensures startTime == old(startTime) && errorMessage == old(errorMessage) && results == old(results)
    {
      status := Cancelled;
      endTime := Some(now);
    }

    /** The outer `except`: failed with the exception's message, ended `now`. */
    method Fail(error: string, now: int)
      modifies this
      ensures status == Failed && errorMessage == Some(error) && endTime == Some(now)
      ensures processed == old(processed) && total == old(total) && successCount == old(successCount) && failedCount == old(failedCount)
      ensures startTime == old(startTime) && results == old(results)
    {
      status := Failed;
      errorMessage := Some(error);
      endTime := Some(now);
    }

    /** What the loops leave alone: the total, the start time, the error message and the results. */
    twostate predicate Unmoved()
      reads this
    {
      total == old(total) && startTime == old(startTime) && errorMessage == old(errorMessage) && results == old(results)
    }

    /** The state a run leaves on an exception before its loop: failed, nothing else changed. */
    twostate predicate FailedEarly(error: string, now: int)
      reads this
    {
      && status == Failed && errorMessage == Some(error) && endTime == Some(now)
      && processed == old(processed) && total == old(total) && successCount == old(successCount) && failedCount == old(failedCount)
      && startTime == old(startTime) && results == old(results)
    }

    /**
     * `_run_single_prediction`: the predictor, then the panel, then the loop
     * over the panel; an exception before the loop fails the job and changes
     * nothing else.
     */
    method RunSingle(predictor: Result<Scorer>, panel: Result<seq<Protein>>, cancelAt: Option<nat>, cancelTime: int, now: int)
      requires data.SingleData? && status == Running
      modifies this
      ensures predictor.Failure? ==> FailedEarly(predictor.error, now)
      ensures predictor.Success? && panel.Failure? ==> FailedEarly(panel.error, now)
      ensures predictor.Success? && panel.Success? ==>
                var env := SingleEnv(jobId, data.smiles, panel.value, predictor.value, highConfidenceOnly, cancelAt);
                var run := SinglePrefix(Tally(old(processed), old(successCount), old(failedCount), []), env, |panel.value|);
                && total == |panel.value|
                && processed == run.t.processed && successCount == run.t.success && failedCount == run.t.failed
                && startTime == old(startTime) && errorMessage == old(errorMessage)
                && (run.Going? ==> status == Completed && endTime == Some(now) && results == Some(SingleResults(total, run.t)))
                && (run.Stopped? ==> status == Cancelled && endTime == Some(cancelTime) && results == old(results))
    {
      if predictor.Failure? {
        Fail(predictor.error, now);
        return;
      }
      var smiles := data.smiles;
      if panel.Failure? {
        Fail(panel.error, now);
        return;
      }
      total := |panel.value|;
      SingleLoop(SingleEnv(jobId, smiles, panel.value, predictor.value, highConfidenceOnly, cancelAt), cancelTime, now);
    }

    /**
     * The protein loop of `_run_single_prediction`, with a cancellation check
     * before each protein: the counters are those of the single loop up to where
     * it returned, and only a loop that went to the end records results.
     */
    method SingleLoop(env: SingleEnv, cancelTime: int, now: int)
      requires env.jobId == jobId && env.highOnly == highConfidenceOnly && status == Running
      modifies this
      ensures var run := SinglePrefix(Tally(old(processed), old(successCount), old(failedCount), []), env, |env.panel|);
              && processed == run.t.processed && successCount == run.t.success && failedCount == run.t.failed
              && total == old(total) && startTime == old(startTime) && errorMessage == old(errorMessage)
              && (run.Going? ==> status == Completed && endTime == Some(now) && results == Some(SingleResults(total, run.t)))
              && (run.Stopped? ==> status == Cancelled && endTime == Some(cancelTime) && results == old(results))
    {
      ghost var init := Tally(processed, successCount, failedCount, []);
      var found: seq<Interaction> := [];
      var idx := 0;
      while idx < |env.panel|
        invariant 0 <= idx <= |env.panel|
        invariant SinglePrefix(init, env, idx) == Going(Tally(processed, successCount, failedCount, found), 0)
        invariant status == Running && total == old(total)
        invariant startTime == old(startTime) && endTime == old(endTime) && errorMessage == old(errorMessage) && results == old(results)
      {
        if env.cancelAt == Some(idx) {
          Cancel(cancelTime);
          SinglePrefixStays(init, env, idx + 1, |env.panel|);
          return;
        }
        var unit := SingleUnit(env, idx);
        SingleStep(init, env, idx);
        ApplySplit(Tally(processed, successCount, failedCount, found), unit, false);
        Count(unit, false);
        if unit.Scored? {
          found := found + [unit.interaction];
        }
        idx := idx + 1;
      }
      results := Some(SingleResults(total, Tally(processed, successCount, failedCount, found)));
      status := Completed;
      endTime := Some(now);
    }

    /**
     * `_run_batch_prediction`: the predictor, the uploaded table, then the panel,
     * then the loop over the table with `total` set to rows × proteins; an
     * exception before the loop fails the job and changes nothing else.
     */
    method RunBatch(predictor: Result<Scorer>, panel: Result<seq<Protein>>, valid: Validity,
                    cancel: Option<Check>, cancelTime: int, now: int)
      requires data.BatchData? && status == Running
      modifies this
      ensures predictor.Failure? ==> FailedEarly(predictor.error, now)
      ensures predictor.Success? && data.compounds.Failure? ==> FailedEarly(data.compounds.error, now)
      ensures predictor.Success? && data.compounds.Success? && panel.Failure? ==> FailedEarly(panel.error, now)
      ensures predictor.Success? && data.compounds.Success? && panel.Success? ==>
                var env := BatchEnv(jobId, data.compounds.value, data.smilesColumn, data.idColumn, panel.value,
                                    predictor.value, valid, highConfidenceOnly, cancel);
                var run := BatchPrefix(Tally(old(processed), old(successCount), old(failedCount), []), env, |env.df.rows|);
                && total == |env.df.rows| * |env.panel|
                && processed == run.t.processed && successCount == run.t.success && failedCount == run.t.failed
                && startTime == old(startTime)
                && (run.Going? ==> status == Completed && endTime == Some(now) && results == Some(BatchResults(env, run))
                                   && errorMessage == old(errorMessage))
                && (run.Stopped? ==> status == Cancelled && endTime == Some(cancelTime) && results == old(results)
                                     && errorMessage == old(errorMessage))
                && (run.Crashed? ==> status == Failed && endTime == Some(now) && results == old(results)
                                     && errorMessage == Some(run.error))
    {
      if predictor.Failure? {
        Fail(predictor.error, now);
        return;
      }
      if data.compounds.Failure? {
        Fail(data.compounds.error, now);
        return;
      }
      var df := data.compounds.value;
      if panel.Failure? {
        Fail(panel.error, now);
        return;
      }
      total := |df.rows| * |panel.value|;
      BatchLoop(BatchEnv(jobId, df, data.smilesColumn, data.idColumn, panel.value, predictor.value, valid, highConfidenceOnly, cancel),
                cancelTime, now);
    }

    /**
     * The compound loop of `_run_batch_prediction`, with a cancellation check
     * before each compound: the counters are those of the batch loop up to where
     * it returned or raised, and only a loop that went to the end records results.
     */
    method BatchLoop(env: BatchEnv, cancelTime: int, now: int)
      requires env.jobId == jobId && env.highOnly == highConfidenceOnly && status == Running
      modifies this
      ensures var run := BatchPrefix(Tally(old(processed), old(successCount), old(failedCount), []), env, |env.df.rows|);
              && processed == run.t.processed && successCount == run.t.success && failedCount == run.t.failed
              && total == old(total) && startTime == old(startTime)
              && (run.Going? ==> status == Completed && endTime == Some(now) && results == Some(BatchResults(env, run))
                                 && errorMessage == old(errorMessage))
              && (run.Stopped? ==> status == Cancelled && endTime == Some(cancelTime) && results == old(results)
                                   && errorMessage == old(errorMessage))
              && (run.Crashed? ==> status == Failed && endTime == Some(now) && results == old(results)
                                   && errorMessage == Some(run.error))
    {
      ghost var init := Tally(processed, successCount, failedCount, []);
      var allResults: seq<Interaction> := [];
      var compoundCount := 0;
      var i := 0;
      while i < |env.df.rows|
        invariant 0 <= i <= |env.df.rows|
        invariant BatchPrefix(init, env, i) == Going(Tally(processed, successCount, failedCount, allResults), compoundCount)
        invariant status == Running && total == old(total)
        invariant startTime == old(startTime) && endTime == old(endTime) && errorMessage == old(errorMessage) && results == old(results)
      {
        ghost var before := Tally(processed, successCount, failedCount, allResults);
        if env.cancel == Some(BeforeCompound(i)) {
          Cancel(cancelTime);
          BatchPrefixStays(init, env, i + 1, |env.df.rows|);
          return;
        }
        if env.smilesColumn !in env.df.columns {
          Fail("'" + env.smilesColumn + "'", now);
          BatchPrefixStays(init, env, i + 1, |env.df.rows|);
          return;
        }
        var smiles := Get(env.df.rows[i], env.smilesColumn);
        var compoundId := CompoundIdOf(env.df, env.df.rows[i], env.idColumn, i);
        if compoundId.Failure? {
          Fail(compoundId.error, now);
          BatchPrefixStays(init, env, i + 1, |env.df.rows|);
          return;
        }
        if !env.valid(smiles) {
          RowSkipped(init, env, i, before, compoundCount);
          failedCount := failedCount + |env.panel|;
          processed := processed + |env.panel|;
        } else {
          var compoundResults, cancelled := CompoundLoop(env, i, compoundId.value, smiles, cancelTime);
          RowScored(init, env, i, before, compoundCount, compoundId.value,
                    CompoundPrefix(Tally(before.processed, before.success, before.failed, []), env, i, compoundId.value, smiles, |env.panel|));
          if cancelled {
            BatchPrefixStays(init, env, i + 1, |env.df.rows|);
            return;
          }
          allResults := allResults + compoundResults;
          compoundCount := compoundCount + 1;
        }
        i := i + 1;
      }
      results := Some(BatchResults(env, Going(Tally(processed, successCount, failedCount, allResults), compoundCount)));
      status := Completed;
      endTime := Some(now);
    }

    /**
     * The protein loop of one valid compound, with a cancellation check before
     * each protein: the counters continue as the compound's protein loop says,
     * and the interactions it found are returned unless it was cancelled.
     */
    method CompoundLoop(env: BatchEnv, i: nat, compoundId: Cell, smiles: Cell, cancelTime: int)
      returns (found: seq<Interaction>, cancelled: bool)
      requires status == Running
      modifies this
      ensures CompoundPrefix(Tally(old(processed), old(successCount), old(failedCount), []), env, i, compoundId, smiles, |env.panel|)
              == (if cancelled then Stopped(Tally(processed, successCount, failedCount, found))
                  else Going(Tally(processed, successCount, failedCount, found), 0))
      ensures if cancelled then status == Cancelled && endTime == Some(cancelTime) else status == Running && endTime == old(endTime)
      ensures Unmoved()
    {
      ghost var start := Tally(processed, successCount, failedCount, []);
      found, cancelled := [], false;
      var j := 0;
      while j < |env.panel| && !cancelled
        invariant 0 <= j <= |env.panel|
        invariant CompoundPrefix(start, env, i, compoundId, smiles, j)
                  == (if cancelled then Stopped(Tally(processed, successCount, failedCount, found))
                      else Going(Tally(processed, successCount, failedCount, found), 0))
        invariant if cancelled then status == Cancelled && endTime == Some(cancelTime) else status == Running && endTime == old(endTime)
        invariant Unmoved()
      {
        found, cancelled := ProteinStep(env, i, compoundId, smiles, j, start, found, cancelTime);
        j := j + 1;
      }
      if cancelled {
        CompoundPrefixStays(start, env, i, compoundId, smiles, j, |env.panel|);
      }
    }

    /**
     * One protein of the compound loop: a cancellation seen before it ends the
     * loop; otherwise its unit is counted and its interaction, if any, kept.
     */
    method ProteinStep(env: BatchEnv, i: nat, compoundId: Cell, smiles: Cell, j: nat, ghost start: Tally,
                       found: seq<Interaction>, cancelTime: int)
      returns (next: seq<Interaction>, cancelled: bool)
      requires j < |env.panel| && status == Running
      requires CompoundPrefix(start, env, i, compoundId, smiles, j) == Going(Tally(processed, successCount, failedCount, found), 0)
      modifies this
      ensures CompoundPrefix(start, env, i, compoundId, smiles, j + 1)
              == (if cancelled then Stopped(Tally(processed, successCount, failedCount, next))
                  else Going(Tally(processed, successCount, failedCount, next), 0))
      ensures if cancelled then status == Cancelled && endTime == Some(cancelTime) else status == Running && endTime == old(endTime)
      ensures Unmoved()
    {
      if env.cancel == Some(BeforeProtein(i, j)) {
        Cancel(cancelTime);
        return found, true;
      }
      var unit := BatchUnit(env, i, compoundId, smiles, j);
      CompoundStep(start, env, i, compoundId, smiles, j);
      ApplySplit(Tally(processed, successCount, failedCount, found), unit, true);
      Count(unit, true);
      next := if unit.Scored? then found + [unit.interaction] else found;
      cancelled := false;
    }

    /**
     * The counter updates of one unit: a score is a success, an exception a
     * failure, and both are processed; a filtered score (`continue`) counts as
     * processed only where the loop increments before continuing.
     */
    method Count(u: Unit, countFiltered: bool)
      modifies this
      ensures var t := Apply(Tally(old(processed), old(successCount), old(failedCount), []), u, countFiltered);
              processed == t.processed && successCount == t.success && failedCount == t.failed
      ensures status == old(status) && total == old(total) && startTime == old(startTime) && endTime == old(endTime)
      ensures errorMessage == old(errorMessage) && results == old(results)
    {
      match u {
        case Scored(_) =>
          successCount := successCount + 1;
          processed := processed + 1;
        case Unscored =>
          failedCount := failedCount + 1;
          processed := processed + 1;
        case Filtered =>
          if countFiltered {
            processed := processed + 1;
          }
      }
    }

    /**
     * `get_status()`: an ETA only while running with something processed, from
     * the whole seconds `etaSeconds` of the estimate.
     */
    function StatusOf(etaSeconds: nat): (s: JobStatus)
      reads this
      ensures s.eta.Some? <==> status == Running && processed > 0
      ensures s.jobId == jobId && s.status == status && s.error == errorMessage
      ensures s.processed == processed && s.total == total && s.successCount == successCount && s.failedCount == failedCount
    {
      JobStatus(jobId, status, processed, total, successCount, failedCount,
                if status == Running && processed > 0 then Some(EtaText(etaSeconds)) else None, errorMessage)
    }
  }
}
