/**
 * The job registries of api/prediction.py: the maps of active jobs, finished
 * jobs and their results, which the submit, status, cancel and cleanup routes
 * read and rewrite in place.
 */
module JobRegistry {
  import opened Wrappers
  import opened Text
  import opened Frames
  import opened PredictionJobs

  // ------------------------------------------------------- submit-time checks

  /** The 400 answers of `start_single_prediction`, in order; `None` when a job is created. */
  function SingleRequestError(smiles: Option<string>, parses: string -> bool): (e: Option<string>)
    ensures e.None? <==> smiles.Some? && smiles.value != "" && parses(smiles.value)
    ensures e == Some("SMILES string required") <==> smiles.None? || smiles.value == ""
    ensures e.Some? ==> e.value in {"SMILES string required", "Invalid SMILES string"}
  {
    if smiles.None? || smiles.value == "" then Some("SMILES string required")
    else if !parses(smiles.value) then Some("Invalid SMILES string")
    else None
  }

  /** `filename.lower().endswith('.csv')`. */
  predicate IsCsvName(filename: string)
  {
    var l := LowerString(filename);
    |l| >= 4 && l[|l| - 4..] == ".csv"
  }

  /** The extension test looks at the last four characters only, in any case. */
  lemma IsCsvNameSuffix(filename: string)
    ensures IsCsvName(filename) <==> |filename| >= 4 && LowerString(filename[|filename| - 4..]) == ".csv"
  {
    if |filename| >= 4 {
      var l := LowerString(filename);
      var tail := LowerString(filename[|filename| - 4..]);
      assert l[|l| - 4..] == tail;
    }
  }

  /** `f'Column "{name}" not found'`. */
  function ColumnMissing(name: string): string
  {
    "Column \"" + name + "\" not found"
  }

  /**
   * The 400 answers of `start_batch_prediction`, in order: no file, an empty
   * file name, a name not ending in `.csv`, no SMILES column, a table that
   * cannot be read, then a SMILES or id column the table does not have.
   */
  function BatchRequestError(hasFile: bool, filename: string, smilesColumn: Option<string>, idColumn: Option<string>,
                             table: Result<Frame>): (e: Option<string>)
    ensures e.None? <==>
              && hasFile && filename != "" && IsCsvName(filename)
              && smilesColumn.Some? && smilesColumn.value != ""
              && table.Success? && smilesColumn.value in table.value.columns
              && (idColumn.None? || idColumn.value == "" || idColumn.value in table.value.columns)
    ensures !hasFile ==> e == Some("No file uploaded")
    ensures hasFile && filename != "" && IsCsvName(filename) && smilesColumn.Some? && smilesColumn.value != "" && table.Failure? ==>
              e == Some("Failed to read CSV file: " + table.error)
  {
    if !hasFile then Some("No file uploaded")
    else if filename == "" then Some("No file selected")
    else if !IsCsvName(filename) then Some("Only CSV files are supported")
    else if smilesColumn.None? || smilesColumn.value == "" then Some("SMILES column required")
    else if table.Failure? then Some("Failed to read CSV file: " + table.error)
    else if smilesColumn.value !in table.value.columns then Some(ColumnMissing(smilesColumn.value))
    else if idColumn.Some? && idColumn.value != "" && idColumn.value !in table.value.columns then Some(ColumnMissing(idColumn.value))
    else None
  }

  /** What a submit route answers: the new job's id, or the message of a 400. */
  datatype Submitted = Accepted(jobId: string) | Rejected(message: string)

  /** What the status route answers: the job's status, with `results` attached for a completed job. */
  datatype StatusReply = StatusReply(status: JobStatus, results: Option<Option<JobResults>>)

  // ------------------------------------------------------------ cleanup order

  /** `a or datetime.min` is no earlier than `b or datetime.min`. */
  predicate EndsLater(a: Option<int>, b: Option<int>)
  {
    b.None? || (a.Some? && a.value >= b.value)
  }

  lemma EndsLaterTotal(a: Option<int>, b: Option<int>)
    ensures EndsLater(a, b) || EndsLater(b, a)
  {
  }

  function End(ends: map<string, Option<int>>, k: string): Option<int>
  {
    if k in ends then ends[k] else None
  }

  /** Latest end first. */
  predicate LatestFirst(s: seq<string>, ends: map<string, Option<int>>)
  {
    forall i, j :: 0 <= i < j < |s| ==> EndsLater(End(ends, s[i]), End(ends, s[j]))
  }

  /** Every id occurs at most once. */
  ghost predicate DistinctIds(s: seq<string>)
  {
    forall x :: multiset(s)[x] <= 1
  }

  /** Inserts `x` after every id that ends no earlier, which keeps the sort stable. */
  function InsertLatest(x: string, s: seq<string>, ends: map<string, Option<int>>): (r: seq<string>)
    ensures multiset(r) == multiset(s) + multiset{x}
    decreases |s|
  {
    if s == [] then [x]
    else if EndsLater(End(ends, s[0]), End(ends, x)) then
      assert s == [s[0]] + s[1..];
      [s[0]] + InsertLatest(x, s[1..], ends)
    else [x] + s
  }

  /** `sorted(ids, key=end_time or datetime.min, reverse=True)`. */
  function SortLatest(s: seq<string>, ends: map<string, Option<int>>): (r: seq<string>)
    ensures multiset(r) == multiset(s)
    decreases |s|
  {
    if s == [] then []
    else
      assert s == s[..|s| - 1] + [s[|s| - 1]];
      InsertLatest(s[|s| - 1], SortLatest(s[..|s| - 1], ends), ends)
  }

  lemma {:induction false} InsertLatestOrdered(x: string, s: seq<string>, ends: map<string, Option<int>>)
    requires LatestFirst(s, ends)
    ensures LatestFirst(InsertLatest(x, s, ends), ends)
    decreases |s|
  {
    if s != [] && EndsLater(End(ends, s[0]), End(ends, x)) {
      var rest := InsertLatest(x, s[1..], ends);
      InsertLatestOrdered(x, s[1..], ends);
      InsertLatestBounded(End(ends, s[0]), x, s[1..], ends);
      assert InsertLatest(x, s, ends) == [s[0]] + rest;
    } else if s != [] {
      EndsLaterTotal(End(ends, s[0]), End(ends, x));
      forall j | 0 <= j < |s| ensures EndsLater(End(ends, x), End(ends, s[j])) {
        if j > 0 {
          EndsLaterTrans(End(ends, x), End(ends, s[0]), End(ends, s[j]));
        }
      }
    }
  }

  /** An end time no earlier than `x`'s and every end in `s` is no earlier than every end after the insertion. */
  lemma {:induction false} InsertLatestBounded(a: Option<int>, x: string, s: seq<string>, ends: map<string, Option<int>>)
    requires EndsLater(a, End(ends, x))
    requires forall k :: 0 <= k < |s| ==> EndsLater(a, End(ends, s[k]))
    ensures forall k :: 0 <= k < |InsertLatest(x, s, ends)| ==> EndsLater(a, End(ends, InsertLatest(x, s, ends)[k]))
    decreases |s|
  {
    if s != [] && EndsLater(End(ends, s[0]), End(ends, x)) {
      InsertLatestBounded(a, x, s[1..], ends);
      assert InsertLatest(x, s, ends) == [s[0]] + InsertLatest(x, s[1..], ends);
    }
  }

  lemma EndsLaterTrans(a: Option<int>, b: Option<int>, c: Option<int>)
    requires EndsLater(a, b) && EndsLater(b, c)
    ensures EndsLater(a, c)
  {
  }

  lemma {:induction false} SortLatestOrdered(s: seq<string>, ends: map<string, Option<int>>)
    ensures LatestFirst(SortLatest(s, ends), ends)
    decreases |s|
  {
    if s != [] {
      SortLatestOrdered(s[..|s| - 1], ends);
      InsertLatestOrdered(s[|s| - 1], SortLatest(s[..|s| - 1], ends), ends);
    }
  }

  /** The ids of `s` whose end time is `e`, in their order in `s`. */
  function WithEnd(s: seq<string>, ends: map<string, Option<int>>, e: Option<int>): (r: seq<string>)
    ensures forall k :: k in r <==> k in s && End(ends, k) == e
  {
    if s == [] then [] else (if End(ends, s[0]) == e then [s[0]] else []) + WithEnd(s[1..], ends, e)
  }

  lemma {:induction false} WithEndAppend(a: seq<string>, b: seq<string>, ends: map<string, Option<int>>, e: Option<int>)
    ensures WithEnd(a + b, ends, e) == WithEnd(a, ends, e) + WithEnd(b, ends, e)
    decreases |a|
  {
    if a != [] {
      assert (a + b)[0] == a[0];
      assert (a + b)[1..] == a[1..] + b;
      WithEndAppend(a[1..], b, ends, e);
    } else {
      assert a + b == b;
    }
  }

  /** Inserting `x` puts it after every id of `s` with the same end time. */
  lemma {:induction false} InsertLatestStable(x: string, s: seq<string>, ends: map<string, Option<int>>, e: Option<int>)
    requires LatestFirst(s, ends)
    ensures WithEnd(InsertLatest(x, s, ends), ends, e) == WithEnd(s, ends, e) + WithEnd([x], ends, e)
    decreases |s|, 1
  {
    if s == [] {
    } else if EndsLater(End(ends, s[0]), End(ends, x)) {
      InsertLaterStable(x, s, ends, e);
    } else {
      assert InsertLatest(x, s, ends) == [x] + s;
      if End(ends, x) == e {
        EarlierThanHead(x, s, ends);
      }
      WithEndAppend([x], s, ends, e);
    }
  }

  lemma {:induction false} InsertLaterStable(x: string, s: seq<string>, ends: map<string, Option<int>>, e: Option<int>)
    requires LatestFirst(s, ends)
    requires s != [] && EndsLater(End(ends, s[0]), End(ends, x))
    ensures WithEnd(InsertLatest(x, s, ends), ends, e) == WithEnd(s, ends, e) + WithEnd([x], ends, e)
    decreases |s|, 0
  {
    var h, t := s[0], s[1..];
    var rest := InsertLatest(x, t, ends);
    var a, b, c := WithEnd([h], ends, e), WithEnd(t, ends, e), WithEnd([x], ends, e);
    var inserted, sorted := WithEnd(InsertLatest(x, s, ends), ends, e), WithEnd(s, ends, e);
    assert inserted == a + (b + c) by {
      LatestFirstTail(s, ends);
      InsertLatestStable(x, t, ends, e);
      InsertLatestLater(x, s, ends);
      ConsWithEnd(h, rest, t, ends, e);
    }
    assert sorted == a + b by {
      ConsWithEnd(h, rest, t, ends, e);
      assert s == [h] + t;
    }
    AppendAssoc(a, b, c);
  }

  lemma AppendAssoc<T>(a: seq<T>, b: seq<T>, c: seq<T>)
    ensures a + (b + c) == (a + b) + c
  {
  }

  lemma LatestFirstTail(s: seq<string>, ends: map<string, Option<int>>)
    requires s != [] && LatestFirst(s, ends)
    ensures LatestFirst(s[1..], ends)
  {
    forall i, j | 0 <= i < j < |s| - 1 ensures EndsLater(End(ends, s[1..][i]), End(ends, s[1..][j])) {
      assert s[1..][i] == s[i + 1] && s[1..][j] == s[j + 1];
    }
  }

  lemma InsertLatestLater(x: string, s: seq<string>, ends: map<string, Option<int>>)
    requires s != [] && EndsLater(End(ends, s[0]), End(ends, x))
    ensures InsertLatest(x, s, ends) == [s[0]] + InsertLatest(x, s[1..], ends)
  {
  }

  lemma ConsWithEnd(h: string, a: seq<string>, b: seq<string>, ends: map<string, Option<int>>, e: Option<int>)
    ensures WithEnd([h] + a, ends, e) == WithEnd([h], ends, e) + WithEnd(a, ends, e)
    ensures WithEnd([h] + b, ends, e) == WithEnd([h], ends, e) + WithEnd(b, ends, e)
  {
    WithEndAppend([h], a, ends, e);
    WithEndAppend([h], b, ends, e);
  }

  /** When `x` ends later than the head of a sorted `s`, no id of `s` shares its end time. */
  lemma EarlierThanHead(x: string, s: seq<string>, ends: map<string, Option<int>>)
    requires LatestFirst(s, ends)
    requires s != [] && !EndsLater(End(ends, s[0]), End(ends, x))
    ensures WithEnd(s, ends, End(ends, x)) == []
  {
    var e := End(ends, x);
    forall k | k in s ensures End(ends, k) != e {
      var j :| 0 <= j < |s| && s[j] == k;
      if j > 0 {
        assert EndsLater(End(ends, s[0]), End(ends, s[j]));
      }
    }
  }

  /**
   * The sort is stable, as Python's `sorted` is: the ids that share an end time
   * keep the order they had in the input.
   */
  lemma {:induction false} SortLatestStable(s: seq<string>, ends: map<string, Option<int>>, e: Option<int>)
    ensures WithEnd(SortLatest(s, ends), ends, e) == WithEnd(s, ends, e)
    decreases |s|
  {
    if s != [] {
      var pre, x := s[..|s| - 1], s[|s| - 1];
      var sortedPre := SortLatest(pre, ends);
      assert s == pre + [x];
      assert SortLatest(s, ends) == InsertLatest(x, sortedPre, ends);
      SortLatestStable(pre, ends, e);
      SortLatestOrdered(pre, ends);
      InsertLatestStable(x, sortedPre, ends, e);
      WithEndAppend(pre, [x], ends, e);
    }
  }

  lemma {:induction false} WithEndAll(s: seq<string>, ends: map<string, Option<int>>, e: Option<int>)
    requires forall k :: k in s ==> End(ends, k) == e
    ensures WithEnd(s, ends, e) == s
    decreases |s|
  {
    if s != [] {
      assert s[0] in s;
      WithEndAll(s[1..], ends, e);
      assert s == [s[0]] + s[1..];
    }
  }

  /**
   * When every id has the same end time (every job failed at start, say), the
   * sort leaves the ids in their input order, so the first `n` are kept.
   */
  lemma SortLatestTied(s: seq<string>, ends: map<string, Option<int>>, e: Option<int>, n: nat)
    requires forall k :: k in s ==> End(ends, k) == e
    requires n <= |s|
    ensures SortLatest(s, ends) == s
    ensures KeepLatest(s, ends, n) == set k | k in s[..n]
  {
    var sorted := SortLatest(s, ends);
    assert sorted == s by {
      forall k | k in sorted ensures End(ends, k) == e {
        assert k in multiset(sorted);
      }
      SortLatestStable(s, ends, e);
      WithEndAll(s, ends, e);
      WithEndAll(sorted, ends, e);
    }
    assert KeepLatest(s, ends, n) == set k | k in sorted[..n];
  }

  /** The first `n` ids of a sequence without repeats are `n` different ids. */
  lemma {:induction false} DistinctPrefixCount(s: seq<string>, n: nat)
    requires DistinctIds(s) && n <= |s|
    ensures |set x | x in s[..n]| == n
    decreases n
  {
    if n > 0 {
      DistinctPrefixCount(s, n - 1);
      var y := s[n - 1];
      var pre := s[..n - 1];
      var cur := s[..n];
      assert cur == pre + [y];
      assert (set x | x in cur) == (set x | x in pre) + {y};
      assert s == cur + s[n..];
      assert multiset(s)[y] >= multiset(cur)[y] == multiset(pre)[y] + 1;
      assert multiset(pre)[y] == 0;
      assert y !in pre;
    }
  }

  /** `dict(sorted_jobs[:n])`: the ids of the `n` latest. */
  function KeepLatest(ids: seq<string>, ends: map<string, Option<int>>, n: nat): set<string>
  {
    var sorted := SortLatest(ids, ends);
    var m := if n <= |sorted| then n else |sorted|;
    set k | k in sorted[..m]
  }

  /**
   * Out of ids without repeats, the `n` kept are `n` of those ids, and each of
   * them ends no earlier than any id left out.
   */
  lemma KeepLatestSound(ids: seq<string>, ends: map<string, Option<int>>, n: nat)
    requires DistinctIds(ids) && n <= |ids|
    ensures |KeepLatest(ids, ends, n)| == n
    ensures forall k :: k in KeepLatest(ids, ends, n) ==> k in ids
    ensures forall k, g :: k in KeepLatest(ids, ends, n) && g in ids && g !in KeepLatest(ids, ends, n) ==>
              EndsLater(End(ends, k), End(ends, g))
  {
    var sorted := SortLatest(ids, ends);
    SortLatestOrdered(ids, ends);
    assert |sorted| == |multiset(sorted)| == |ids|;
    assert KeepLatest(ids, ends, n) == set k | k in sorted[..n];
    assert DistinctIds(sorted);
    DistinctPrefixCount(sorted, n);
    var keep := KeepLatest(ids, ends, n);
    forall k | k in keep ensures k in ids {
      assert k in multiset(sorted);
    }
    forall k, g | k in keep && g in ids && g !in keep ensures EndsLater(End(ends, k), End(ends, g)) {
      assert g in multiset(sorted);
      var p :| 0 <= p < n && sorted[p] == k;
      var q :| 0 <= q < |sorted| && sorted[q] == g;
    }
  }

  // ---------------------------------------------------------------- registry

  /** A day, in the seconds the model keeps times in. */
  const Day: int := 24 * 3600

  /** How many finished jobs `cleanup_jobs` keeps. */
  const KeepFinished: nat := 10

  /** `[k for k in order if k not in ids]`: the order of a dict's keys after deleting `ids`. */
  function Without(order: seq<string>, ids: set<string>): (r: seq<string>)
    ensures forall k :: k in r <==> k in order && k !in ids
    ensures multiset(r) <= multiset(order)
  {
    if order == [] then []
    else
      assert order == [order[0]] + order[1..];
      (if order[0] in ids then [] else [order[0]]) + Without(order[1..], ids)
  }

  lemma WithoutDistinct(order: seq<string>, ids: set<string>)
    requires DistinctIds(order)
    ensures DistinctIds(Without(order, ids))
  {
    var r := Without(order, ids);
    forall y ensures multiset(r)[y] <= 1 { assert multiset(r)[y] <= multiset(order)[y]; }
  }

  /** Deleting the same ids from the finished jobs, their results and their order keeps the three consistent. */
  lemma RemovedValid(order: seq<string>, completed: map<string, PredictionJob>, results: map<string, Option<JobResults>>,
                     ids: set<string>)
    requires DistinctIds(order) && (forall k :: k in order <==> k in completed) && results.Keys <= completed.Keys
    ensures DistinctIds(Without(order, ids))
    ensures forall k :: k in Without(order, ids) <==> k in completed - ids
    ensures (results - ids).Keys <= (completed - ids).Keys
  {
    WithoutDistinct(order, ids);
  }

  /** Deleting one more key; a key already absent changes nothing. */
  lemma RemoveOne<V>(m: map<string, V>, done: set<string>, k: string)
    ensures (m - done) - {k} == m - (done + {k})
    ensures k !in m - done ==> m - done == m - (done + {k})
  {
  }

  lemma TakeOne(ids: set<string>, rest: set<string>, k: string)
    requires rest <= ids && k in rest
    ensures ids - (rest - {k}) == (ids - rest) + {k}
  {
  }

  /** Every id of `ends` listed in `kept` ends no earlier than every id of `ends` not listed. */
  predicate LaterKept(ends: map<string, Option<int>>, kept: set<string>)
  {
    forall k, g :: k in kept && k in ends && g in ends && g !in kept ==> EndsLater(ends[k], ends[g])
  }

  /** Deleting ids the order does not list leaves it as it was. */
  lemma {:induction false} WithoutNone(order: seq<string>, ids: set<string>)
    requires forall k :: k in order ==> k !in ids
    ensures Without(order, ids) == order
    decreases |order|
  {
    if order != [] {
      assert order[0] in order;
      WithoutNone(order[1..], ids);
      assert order == [order[0]] + order[1..];
    }
  }

  /** An order without repeats lists as many ids as the set it enumerates. */
  lemma {:induction false} DistinctSize(s: seq<string>, keys: set<string>)
    requires DistinctIds(s) && forall k :: k in s <==> k in keys
    ensures |s| == |keys|
    decreases |s|
  {
    if s != [] {
      var pre, x := s[..|s| - 1], s[|s| - 1];
      assert s == pre + [x];
      assert multiset(s) == multiset(pre) + multiset{x};
      assert DistinctIds(pre) by {
        forall y ensures multiset(pre)[y] <= 1 { assert multiset(pre)[y] <= multiset(s)[y]; }
      }
      assert x !in pre by { assert multiset(s)[x] == multiset(pre)[x] + 1; }
      DistinctSize(pre, keys - {x});
    }
  }

  /** The end times of the finished jobs, by id. */
  function EndTimes(jobs: map<string, PredictionJob>): map<string, Option<int>>
    reads jobs.Values
  {
    map k | k in jobs :: jobs[k].endTime
  }

  /**
   * `active_jobs`, `completed_jobs` and `job_results`; `finishedOrder` is the
   * order in which ids entered `completed_jobs`, the order Python's dict
   * iterates it in.
   */
  class Registry {
    var active: map<string, PredictionJob>
    var completed: map<string, PredictionJob>
    var jobResults: map<string, Option<JobResults>>
    var finishedOrder: seq<string>

    /** Results are kept only for finished jobs, and the order lists each finished job once. */
    ghost predicate Valid()
      reads this
    {
      && jobResults.Keys <= completed.Keys
      && DistinctIds(finishedOrder)
      && (forall k :: k in finishedOrder <==> k in completed)
    }

    constructor ()
      ensures Valid()
      ensures active == map[] && completed == map[] && jobResults == map[] && finishedOrder == []
    {
      active, completed, jobResults, finishedOrder := map[], map[], map[], [];
    }

    /**
     * `start_single_prediction`: a request that passes the checks registers a
     * new job under `jobId` and starts it; a rejected one changes nothing.
     */
    method SubmitSingle(smiles: Option<string>, parses: string -> bool, jobId: string, highConfidenceOnly: bool,
                        available: bool, now: int) returns (r: Submitted)
      requires Valid()
      modifies this
      ensures Valid()
      ensures SingleRequestError(smiles, parses).Some? ==>
                r == Rejected(SingleRequestError(smiles, parses).value) && active == old(active)
      ensures SingleRequestError(smiles, parses).None? ==>
                && r == Accepted(jobId) && jobId in active && fresh(active[jobId])
                && active == old(active)[jobId := active[jobId]]
                && active[jobId].data == SingleData(smiles.value) && active[jobId].highConfidenceOnly == highConfidenceOnly
                && active[jobId].status == (if available then Running else Failed)
      ensures completed == old(completed) && jobResults == old(jobResults) && finishedOrder == old(finishedOrder)
    {
      var error := SingleRequestError(smiles, parses);
      if error.Some? {
        return Rejected(error.value);
      }
      var job := new PredictionJob(jobId, SingleData(smiles.value), highConfidenceOnly);
      active := active[jobId := job];
      job.Start(available, now);
      return Accepted(jobId);
    }

    /**
     * `start_batch_prediction`: a request that passes the checks registers a new
     * batch job over the uploaded table under `jobId` and starts it; the option
     * is on only for the form value `'true'`.
     */
    method SubmitBatch(hasFile: bool, filename: string, smilesColumn: Option<string>, idColumn: Option<string>,
                       table: Result<Frame>, highConfidenceOnly: Option<string>, jobId: string,
                       available: bool, now: int) returns (r: Submitted)
      requires Valid()
      modifies this
      ensures Valid()
      ensures var e := BatchRequestError(hasFile, filename, smilesColumn, idColumn, table);
              e.Some? ==> r == Rejected(e.value) && active == old(active)
      ensures BatchRequestError(hasFile, filename, smilesColumn, idColumn, table).None? ==>
                && r == Accepted(jobId) && jobId in active && fresh(active[jobId])
                && active == old(active)[jobId := active[jobId]]
                && active[jobId].data == BatchData(table, smilesColumn.value, idColumn)
                && (active[jobId].highConfidenceOnly <==> highConfidenceOnly == Some("true"))
                && active[jobId].status == (if available then Running else Failed)
      ensures completed == old(completed) && jobResults == old(jobResults) && finishedOrder == old(finishedOrder)
    {
      var error := BatchRequestError(hasFile, filename, smilesColumn, idColumn, table);
      if error.Some? {
        return Rejected(error.value);
      }
      var job := new PredictionJob(jobId, BatchData(table, smilesColumn.value, idColumn), highConfidenceOnly == Some("true"));
      active := active[jobId := job];
      job.Start(available, now);
      return Accepted(jobId);
    }

    /**
     * `get_prediction_status`: an active job reports its status, and a finished
     * one moves to the finished jobs with its results copied, attaching them
     * when it completed; a finished job reports its status and stored results;
     * any other id is "Job not found" (`None`).
     */
    method Poll(jobId: string, etaSeconds: nat) returns (r: Option<StatusReply>)
      requires Valid()
      modifies this
      ensures Valid()
      ensures r.None? <==> jobId !in old(active) && jobId !in old(completed)
      ensures jobId in old(active) ==>
                var job := old(active)[jobId];
                && r == Some(StatusReply(job.StatusOf(etaSeconds), if job.status == Completed then Some(job.results) else None))
                && (job.status.Terminal() ==>
                      && active == old(active) - {jobId}
                      && completed == old(completed)[jobId := job]
                      && jobResults == old(jobResults)[jobId := job.results]
                      && finishedOrder == if jobId in old(completed) then old(finishedOrder) else old(finishedOrder) + [jobId])
                && (!job.status.Terminal() ==>
                      active == old(active) && completed == old(completed) && jobResults == old(jobResults)
                      && finishedOrder == old(finishedOrder))
      ensures jobId !in old(active) ==>
                && active == old(active) && completed == old(completed) && jobResults == old(jobResults)
                && finishedOrder == old(finishedOrder)
                && (jobId in completed ==>
                      var job := completed[jobId];
                      r == Some(StatusReply(job.StatusOf(etaSeconds),
                                            if job.status == Completed then Some(if jobId in jobResults then jobResults[jobId] else None)
                                            else None)))
    {
      if jobId in active {
        var job := active[jobId];
        var status := job.StatusOf(etaSeconds);
        if job.status.Terminal() {
          if jobId !in completed {
            assert multiset(finishedOrder + [jobId]) == multiset(finishedOrder) + multiset{jobId};
            finishedOrder := finishedOrder + [jobId];
          }
          completed := completed[jobId := job];
          jobResults := jobResults[jobId := job.results];
          active := active - {jobId};
          if job.status == Completed {
            return Some(StatusReply(status, Some(job.results)));
          }
        }
        return Some(StatusReply(status, None));
      } else if jobId in completed {
        var job := completed[jobId];
        var status := job.StatusOf(etaSeconds);
        if job.status == Completed {
          return Some(StatusReply(status, Some(if jobId in jobResults then jobResults[jobId] else None)));
        }
        return Some(StatusReply(status, None));
      }
      return None;
    }

    /**
     * `cancel_prediction`: only an active job can be cancelled; it becomes
     * cancelled at `now`. An id that is not active is "Job not found or already
     * completed", and nothing changes.
     */
    method CancelPrediction(jobId: string, now: int) returns (ok: bool, message: string)
      modifies if jobId in active then {active[jobId]} else {}
      ensures ok <==> jobId in active
      ensures ok ==> message == "Job cancelled" && active[jobId].status == Cancelled && active[jobId].endTime == Some(now)
      ensures ok ==> var job := active[jobId];
                && job.processed == old(job.processed) && job.total == old(job.total)
                && job.successCount == old(job.successCount) && job.failedCount == old(job.failedCount)
                && job.startTime == old(job.startTime) && job.errorMessage == old(job.errorMessage)
                && job.results == old(job.results)
      ensures !ok ==> message == "Job not found or already completed"
    {
      if jobId in active {
        var job := active[jobId];
        job.Cancel(now);
        return true, "Job cancelled";
      }
      return false, "Job not found or already completed";
    }

    /**
     * `cleanup_jobs`: with more than 10 finished jobs, only the 10 latest by end
     * time stay (a missing end time is the oldest), and the others leave both
     * the finished jobs and the results; the active jobs never change. Among
     * jobs with the same end time the earlier finished ones are kept, since the
     * sort is stable over the dict's order. Answers the two counts.
     */
    method Cleanup() returns (activeCount: nat, completedCount: nat)
      requires Valid()
      modifies this
      ensures Valid()
      ensures active == old(active)
      ensures |old(completed)| <= KeepFinished ==> completed == old(completed) && jobResults == old(jobResults)
      ensures |old(completed)| > KeepFinished ==>
                && completed.Keys <= old(completed).Keys && |completed| == KeepFinished
                && (forall k :: k in completed ==> completed[k] == old(completed)[k])
                && LaterKept(old(EndTimes(completed)), completed.Keys)
                && jobResults == old(jobResults) - (old(completed).Keys - completed.Keys)
                && completed.Keys == KeepLatest(old(finishedOrder), old(EndTimes(completed)), KeepFinished)
      ensures finishedOrder == Without(old(finishedOrder), old(completed).Keys - completed.Keys)
      ensures activeCount == |active| && completedCount == |completed|
    {
      if |completed| > KeepFinished {
        var keep := TrimFinished();
        assert completed.Keys == keep;
      } else {
        assert old(completed).Keys - completed.Keys == {};
        WithoutNone(finishedOrder, {});
      }
      return |active|, |completed|;
    }

    /** The trimming step of `cleanup_jobs`: keep the `KeepFinished` latest finished jobs and delete the rest. */
    method TrimFinished() returns (keep: set<string>)
      requires Valid() && |completed| > KeepFinished
      modifies this
      ensures Valid() && active == old(active)
      ensures keep == KeepLatest(old(finishedOrder), old(EndTimes(completed)), KeepFinished)
      ensures keep <= old(completed).Keys && |keep| == KeepFinished && LaterKept(old(EndTimes(completed)), keep)
      ensures completed == old(completed) - (old(completed).Keys - keep)
      ensures jobResults == old(jobResults) - (old(completed).Keys - keep)
      ensures finishedOrder == Without(old(finishedOrder), old(completed).Keys - keep)
    {
      keep := LatestFinished(KeepFinished);
      RemoveFinished(completed.Keys - keep);
    }

    /**
     * The sweep of `periodic_cleanup`: every finished job whose end time is
     * set and earlier than a day before `now` leaves both the finished jobs and
     * the results, and nothing else does. Answers how many were removed.
     */
    method CleanupOld(now: int) returns (removed: nat)
      requires Valid()
      modifies this
      ensures Valid()
      ensures var stale := set k | k in old(completed) && old(completed)[k].endTime.Some? && old(completed)[k].endTime.value < now - Day;
              && completed == old(completed) - stale
              && jobResults == old(jobResults) - stale
              && finishedOrder == Without(old(finishedOrder), stale)
              && removed == |stale|
      ensures active == old(active)
    {
      var cutoff := now - Day;
      var rest := completed.Keys;
      var stale: set<string> := {};
      while rest != {}
        invariant rest <= completed.Keys
        invariant completed == old(completed) && finishedOrder == old(finishedOrder)
        invariant stale == set k | k in completed && k !in rest && completed[k].endTime.Some? && completed[k].endTime.value < cutoff
        decreases |rest|
      {
        var k :| k in rest;
        if completed[k].endTime.Some? && completed[k].endTime.value < cutoff {
          stale := stale + {k};
        }
        rest := rest - {k};
      }
      RemoveFinished(stale);
      assert stale == set k | k in old(completed) && old(completed)[k].endTime.Some? && old(completed)[k].endTime.value < now - Day;
      removed := |stale|;
    }

    /**
     * The ids of the `n` finished jobs that ended last, a missing end time
     * counting as the oldest, ties going to the job that finished first: `n`
     * of them, each ending no earlier than any finished job left out.
     */
    method LatestFinished(n: nat) returns (keep: set<string>)
      requires Valid() && n <= |completed|
      ensures keep == KeepLatest(finishedOrder, EndTimes(completed), n)
      ensures keep <= completed.Keys && |keep| == n
      ensures LaterKept(EndTimes(completed), keep)
    {
      var ends := EndTimes(completed);
      DistinctSize(finishedOrder, completed.Keys);
      keep := KeepLatest(finishedOrder, ends, n);
      KeepLatestSound(finishedOrder, ends, n);
      forall k, g | k in keep && k in ends && g in ends && g !in keep
        ensures EndsLater(ends[k], ends[g])
      {
        assert g in finishedOrder;
        assert End(ends, k) == ends[k] && End(ends, g) == ends[g];
      }
    }

    /** The deletion loop both cleanups share: each id leaves the finished jobs and, when there, the results. */
    method RemoveFinished(ids: set<string>)
      requires Valid()
      modifies this
      ensures Valid()
      ensures completed == old(completed) - ids && jobResults == old(jobResults) - ids && active == old(active)
      ensures finishedOrder == Without(old(finishedOrder), ids)
    {
      var rest := ids;
      while rest != {}
        invariant rest <= ids
        invariant completed == old(completed) - (ids - rest)
        invariant jobResults == old(jobResults) - (ids - rest)
        invariant active == old(active) && finishedOrder == old(finishedOrder)
        decreases |rest|
      {
        var k :| k in rest;
        ghost var done := ids - rest;
        RemoveOne(old(completed), done, k);
        RemoveOne(old(jobResults), done, k);
        completed := completed - {k};
        if k in jobResults {
          jobResults := jobResults - {k};
        }
        TakeOne(ids, rest, k);
        rest := rest - {k};
      }
      assert ids - rest == ids;
      RemovedValid(finishedOrder, old(completed), old(jobResults), ids);
      finishedOrder := Without(finishedOrder, ids);
    }
  }
}
