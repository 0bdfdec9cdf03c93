/**
 * `Target.get_all_unique_targets` as data: which prediction files are read, which
 * predictions have a standard gene symbol, the per-symbol statistics, the merge
 * with the reference table and the default columns.
 */
module TargetAggregate {
  import opened Wrappers
  import opened Text
  import opened Frames
  import opened TargetNames

  // ------------------------------------------------------------------ scanning

  /** One prediction file that was read, with the compound class and file name it was tagged with. */
  datatype Tagged = Tagged(sourceType: string, sourceFile: string, frame: Frame)

  /** A file that is collected: an `.xlsx` name, readable, non-empty, with a `From` column. */
  predicate Taken(f: DataFile)
  {
    EndsWith(f.name, ".xlsx") && f.content.Success? && !IsEmpty(f.content.value) && "From" in f.content.value.columns
  }

  function ScanFiles(compoundType: string, files: seq<DataFile>): (r: seq<Tagged>)
    ensures |r| <= |files|
    decreases |files|
  {
    if files == [] then []
    else (if Taken(files[0]) then [Tagged(compoundType, files[0].name, files[0].content.value)] else []) +
         ScanFiles(compoundType, files[1..])
  }

  /** The files of one directory, or none when the directory does not exist. */
  function ScanDir(d: PredictionDir): seq<Tagged>
  {
    if d.present then ScanFiles(d.compoundType, d.files) else []
  }

  /** Every collected file, directory by directory, in listing order. */
  function Scanned(dirs: seq<PredictionDir>): (r: seq<Tagged>)
    decreases |dirs|
  {
    if dirs == [] then [] else ScanDir(dirs[0]) + Scanned(dirs[1..])
  }

  /** Each collected file is a taken file of its class's directory, read as it is listed. */
  lemma {:induction false} ScanFilesFrom(compoundType: string, files: seq<DataFile>)
    ensures forall x :: x in ScanFiles(compoundType, files) ==>
              (x.sourceType == compoundType &&
               exists f :: f in files && Taken(f) && x.sourceFile == f.name && x.frame == f.content.value)
    decreases |files|
  {
    if files != [] {
      ScanFilesFrom(compoundType, files[1..]);
      assert forall f :: f in files[1..] ==> f in files;
    }
  }

  /** Every taken file of an existing directory is collected. */
  lemma {:induction false} ScanFilesAll(compoundType: string, files: seq<DataFile>, f: DataFile)
    requires f in files && Taken(f)
    ensures Tagged(compoundType, f.name, f.content.value) in ScanFiles(compoundType, files)
    decreases |files|
  {
    if files[0] != f {
      ScanFilesAll(compoundType, files[1..], f);
    }
  }

  /** The collected files are exactly those each existing directory contributes. */
  lemma {:induction false} ScannedFrom(dirs: seq<PredictionDir>)
    ensures forall x :: x in Scanned(dirs) <==> exists d :: d in dirs && d.present && x in ScanFiles(d.compoundType, d.files)
    decreases |dirs|
  {
    if dirs != [] {
      ScannedFrom(dirs[1..]);
      assert forall d :: d in dirs <==> d == dirs[0] || d in dirs[1..];
    }
  }

  // --------------------------------------------------------------- predictions

  /** A prediction row with a standard gene symbol, after `pd.to_numeric(score, errors='coerce')`. */
  datatype Prediction = Prediction(sourceType: string, sourceFile: string, from: Cell, symbol: string, score: Option<real>)

  /** `pd.to_numeric(value, errors='coerce')`: numbers stay, strings are parsed, the rest is NaN. */
  function Numeric(c: Cell, parse: FloatParser): (r: Option<real>)
    ensures c.Num? ==> r == Some(c.value)
    ensures IsNA(c) || c.Names? ==> r.None?
  {
    match c
    case Num(v) => Some(v)
    case Str(s) => parse(s)
    case _ => None
  }

  /** The numeric score of a row; NaN when its file has no `score` column. */
  function ScoreOf(t: Tagged, r: Row, parse: FloatParser): Option<real>
  {
    if "score" in t.frame.columns then Numeric(Get(r, "score"), parse) else None
  }

  /** The predictions of some rows of one file: the rows whose `From` maps to a string symbol. */
  function RowPredictions(t: Tagged, rows: seq<Row>, aliases: Aliases, parse: FloatParser): (ps: seq<Prediction>)
    ensures |ps| <= |rows|
    ensures forall p :: p in ps ==>
              (p.sourceType == t.sourceType && p.sourceFile == t.sourceFile &&
               Resolve(aliases, p.from) == Some(Str(p.symbol)))
    ensures forall i :: 0 <= i < |rows| && Resolves(aliases, rows[i]) ==> RowPrediction(t, rows[i], aliases, parse) in ps
    decreases |rows|
  {
    if rows == [] then []
    else
      var here := if Resolves(aliases, rows[0]) then [RowPrediction(t, rows[0], aliases, parse)] else [];
      var rest := RowPredictions(t, rows[1..], aliases, parse);
      assert forall i :: 1 <= i < |rows| ==> rows[i] == rows[1..][i - 1];
      here + rest
  }

  /** The row's `From` maps to a string symbol. */
  predicate Resolves(aliases: Aliases, r: Row)
  {
    var sym := Resolve(aliases, Get(r, "From"));
    sym.Some? && sym.value.Str?
  }

  /** The prediction a resolving row of file `t` yields. */
  function RowPrediction(t: Tagged, r: Row, aliases: Aliases, parse: FloatParser): (p: Prediction)
    requires Resolves(aliases, r)
    ensures p.sourceType == t.sourceType && p.sourceFile == t.sourceFile && p.from == Get(r, "From")
    ensures Resolve(aliases, p.from) == Some(Str(p.symbol)) && p.score == ScoreOf(t, r, parse)
  {
    Prediction(t.sourceType, t.sourceFile, Get(r, "From"), Resolve(aliases, Get(r, "From")).value.text, ScoreOf(t, r, parse))
  }

  /** Rows are read in order: the predictions of `a + b` are those of `a` followed by those of `b`. */
  lemma {:induction false} RowPredictionsAppend(t: Tagged, a: seq<Row>, b: seq<Row>, aliases: Aliases, parse: FloatParser)
    ensures RowPredictions(t, a + b, aliases, parse) == RowPredictions(t, a, aliases, parse) + RowPredictions(t, b, aliases, parse)
    decreases |a|
  {
    if a != [] {
      RowPredictionsAppend(t, a[1..], b, aliases, parse);
      assert (a + b)[0] == a[0];
      assert (a + b)[1..] == a[1..] + b;
    } else {
      assert a + b == b;
    }
  }

  /** `combined_df[combined_df['gene_symbol'].notna()]`, file by file. */
  function Valid(tagged: seq<Tagged>, aliases: Aliases, parse: FloatParser): (ps: seq<Prediction>)
    ensures forall p :: p in ps ==> Resolve(aliases, p.from) == Some(Str(p.symbol))
    decreases |tagged|
  {
    if tagged == [] then []
    else RowPredictions(tagged[0], tagged[0].frame.rows, aliases, parse) + Valid(tagged[1..], aliases, parse)
  }

  /** Some collected file has a `score` column, so the concatenated frame has one. */
  predicate HasScore(tagged: seq<Tagged>)
  {
    exists t :: t in tagged && "score" in t.frame.columns
  }

  // ------------------------------------------------------------------ grouping

  predicate StrLt(a: string, b: string) { StrLe(a, b) && a != b }

  predicate StrictlySorted(s: seq<string>)
  {
    forall i, j :: 0 <= i < j < |s| ==> StrLt(s[i], s[j])
  }

  /** Insert into a strictly ascending sequence, keeping one copy. */
  function InsertUnique(x: string, s: seq<string>): (r: seq<string>)
    ensures forall y :: y in r <==> y == x || y in s
    decreases |s|
  {
    if s == [] then [x]
    else if x == s[0] then s
    else if StrLe(x, s[0]) then [x] + s
    else [s[0]] + InsertUnique(x, s[1..])
  }

  lemma {:induction false} InsertUniqueSorted(x: string, s: seq<string>)
    requires StrictlySorted(s)
    ensures StrictlySorted(InsertUnique(x, s))
    decreases |s|
  {
    if s != [] && x != s[0] {
      if StrLe(x, s[0]) {
        var r := [x] + s;
        forall i, j | 0 <= i < j < |r| ensures StrLt(r[i], r[j]) {
          if i == 0 && j > 1 {
            StrLeTrans(x, s[0], s[j - 1]);
            if x == s[j - 1] {
              StrLeAntisym(s[0], s[j - 1]);
            }
          } else if i > 0 {
            assert r[i] == s[i - 1] && r[j] == s[j - 1];
          }
        }
      } else {
        StrLeTotal(x, s[0]);
        var tail := s[1..];
        assert StrictlySorted(tail) by {
          forall i, j | 0 <= i < j < |tail| ensures StrLt(tail[i], tail[j]) {
            assert tail[i] == s[i + 1] && tail[j] == s[j + 1];
          }
        }
        InsertUniqueSorted(x, tail);
        var ins := InsertUnique(x, tail);
        var r := [s[0]] + ins;
        forall i, j | 0 <= i < j < |r| ensures StrLt(r[i], r[j]) {
          if i == 0 {
            assert r[j] in ins;
            if r[j] != x {
              var k :| 0 <= k < |tail| && tail[k] == r[j];
              assert s[k + 1] == r[j];
            }
          } else {
            assert r[i] == ins[i - 1] && r[j] == ins[j - 1];
          }
        }
      }
    }
  }

  /** `groupby('gene_symbol')` keys: every symbol once, in ascending order. */
  function Symbols(ps: seq<Prediction>): (r: seq<string>)
    ensures forall s :: s in r <==> exists p :: p in ps && p.symbol == s
    decreases |ps|
  {
    if ps == [] then []
    else
      var rest := Symbols(ps[1..]);
      assert forall p :: p in ps[1..] ==> p in ps;
      assert forall p :: p in ps ==> p == ps[0] || p in ps[1..];
      InsertUnique(ps[0].symbol, rest)
  }

  lemma {:induction false} SymbolsSorted(ps: seq<Prediction>)
    ensures StrictlySorted(Symbols(ps))
    decreases |ps|
  {
    if ps != [] {
      SymbolsSorted(ps[1..]);
      InsertUniqueSorted(ps[0].symbol, Symbols(ps[1..]));
    }
  }

  /** The predictions of one symbol, in order. */
  function Members(ps: seq<Prediction>, s: string): (g: seq<Prediction>)
    ensures forall p :: p in g <==> p in ps && p.symbol == s
    ensures |g| <= |ps|
    decreases |ps|
  {
    if ps == [] then []
    else
      assert forall p :: p in ps ==> p == ps[0] || p in ps[1..];
      (if ps[0].symbol == s then [ps[0]] else []) + Members(ps[1..], s)
  }

  /** A prediction of the symbol is a member as often as it occurs; any other prediction never. */
  lemma {:induction false} MembersCounts(ps: seq<Prediction>, s: string)
    ensures forall p :: multiset(Members(ps, s))[p] == if p.symbol == s then multiset(ps)[p] else 0
    decreases |ps|
  {
    if ps != [] {
      MembersCounts(ps[1..], s);
      assert ps == [ps[0]] + ps[1..];
    }
  }

  /** The predictions with a numeric score, in order. */
  function Scored(g: seq<Prediction>): (h: seq<Prediction>)
    ensures forall p :: p in h <==> p in g && p.score.Some?
    ensures |h| <= |g|
    decreases |g|
  {
    if g == [] then []
    else
      assert forall p :: p in g ==> p == g[0] || p in g[1..];
      (if g[0].score.Some? then [g[0]] else []) + Scored(g[1..])
  }

  /** A scored prediction is kept as often as it occurs; an unscored one never. */
  lemma {:induction false} ScoredCounts(g: seq<Prediction>)
    ensures forall p :: multiset(Scored(g))[p] == if p.score.Some? then multiset(g)[p] else 0
    decreases |g|
  {
    if g != [] {
      ScoredCounts(g[1..]);
      assert g == [g[0]] + g[1..];
    }
  }

  /** The numeric scores of some predictions, in order (`count` counts these). */
  function Scores(g: seq<Prediction>): (xs: seq<real>)
    ensures |xs| <= |g|
    ensures forall x :: x in xs <==> exists p :: p in g && p.score == Some(x)
    decreases |g|
  {
    if g == [] then []
    else
      assert forall p :: p in g ==> p == g[0] || p in g[1..];
      (if g[0].score.Some? then [g[0].score.value] else []) + Scores(g[1..])
  }

  /** Score `i` is the score of the `i`-th scored prediction: one score per scored prediction. */
  lemma {:induction false} ScoresOfScored(g: seq<Prediction>)
    ensures |Scores(g)| == |Scored(g)|
    ensures forall i :: 0 <= i < |Scores(g)| ==> Scored(g)[i].score == Some(Scores(g)[i])
    decreases |g|
  {
    if g != [] {
      ScoresOfScored(g[1..]);
      var h, t := Scored(g), Scored(g[1..]);
      var xs, ys := Scores(g), Scores(g[1..]);
      if g[0].score.Some? {
        assert h == [g[0]] + t;
        assert xs == [g[0].score.value] + ys;
        forall i | 0 <= i < |xs| ensures h[i].score == Some(xs[i]) {
          if i > 0 {
            assert h[i] == t[i - 1];
            assert xs[i] == ys[i - 1];
          }
        }
      } else {
        assert h == t && xs == ys;
      }
    }
  }

  function Sum(xs: seq<real>): real
    decreases |xs|
  {
    if xs == [] then 0.0 else xs[0] + Sum(xs[1..])
  }

  function MaxOf(xs: seq<real>): (m: real)
    requires xs != []
    ensures m in xs && forall x :: x in xs ==> x <= m
    decreases |xs|
  {
    if |xs| == 1 then xs[0]
    else
      var rest := MaxOf(xs[1..]);
      assert forall x :: x in xs ==> x == xs[0] || x in xs[1..];
      if xs[0] >= rest then xs[0] else rest
  }

  function MinOf(xs: seq<real>): (m: real)
    requires xs != []
    ensures m in xs && forall x :: x in xs ==> m <= x
    decreases |xs|
  {
    if |xs| == 1 then xs[0]
    else
      var rest := MinOf(xs[1..]);
      assert forall x :: x in xs ==> x == xs[0] || x in xs[1..];
      if xs[0] <= rest then xs[0] else rest
  }

  /** A sum of values no smaller than `lo` is at least `n * lo`. */
  lemma {:induction false} SumAtLeast(xs: seq<real>, lo: real)
    requires forall x :: x in xs ==> lo <= x
    ensures (|xs| as real) * lo <= Sum(xs)
    decreases |xs|
  {
    if xs != [] {
      var tail := xs[1..];
      assert forall x :: x in tail ==> x in xs;
      SumAtLeast(tail, lo);
      assert xs[0] in xs;
      Distribute(|tail| as real, lo);
    }
  }

  /** A sum of values no larger than `hi` is at most `n * hi`. */
  lemma {:induction false} SumAtMost(xs: seq<real>, hi: real)
    requires forall x :: x in xs ==> x <= hi
    ensures Sum(xs) <= (|xs| as real) * hi
    decreases |xs|
  {
    if xs != [] {
      var tail := xs[1..];
      assert forall x :: x in tail ==> x in xs;
      SumAtMost(tail, hi);
      assert xs[0] in xs;
      Distribute(|tail| as real, hi);
    }
  }

  lemma Distribute(n: real, v: real)
    ensures (n + 1.0) * v == n * v + v
  {
  }

  /** The aggregated statistics of one gene symbol. */
  datatype TargetStats = TargetStats(
    symbol: string, avg: real, max: real, min: real, count: nat,
    types: set<string>, compounds: nat, fromName: Cell)

  /**
   * `agg({'score': [mean, max, min, count], 'source_type': set, 'source_file': nunique,
   * 'From': first})` for one symbol, with the NaN of an all-NaN group filled with 0.
   */
  function StatsOf(ps: seq<Prediction>, s: string): TargetStats
  {
    var g := Members(ps, s);
    var xs := Scores(g);
    TargetStats(
      s,
      if xs == [] then 0.0 else Sum(xs) / (|xs| as real),
      if xs == [] then 0.0 else MaxOf(xs),
      if xs == [] then 0.0 else MinOf(xs),
      |xs|,
      set p | p in g :: p.sourceType,
      |set p | p in g :: p.sourceFile|,
      if g == [] then Nil else g[0].from)
  }

  /**
   * The statistics of a symbol that has predictions: `min <= avg <= max`, all
   * zero when none of its scores is numeric; its classes and files are those of
   * its predictions, and `from_name` is the `From` of its first prediction.
   */
  lemma StatsOfMeaning(ps: seq<Prediction>, s: string)
    requires exists p :: p in ps && p.symbol == s
    ensures var st := StatsOf(ps, s);
            && st.symbol == s
            && st.min <= st.avg <= st.max
            && st.count == |Scored(Members(ps, s))| <= |Members(ps, s)|
            && (st.count == 0 <==> forall p :: p in ps && p.symbol == s ==> p.score.None?)
            && (st.count == 0 ==> st.avg == 0.0 && st.max == 0.0 && st.min == 0.0)
            && (forall p :: p in ps && p.symbol == s && p.score.Some? ==> st.min <= p.score.value <= st.max)
            && (forall t :: t in st.types <==> exists p :: p in ps && p.symbol == s && p.sourceType == t)
            && st.compounds == |set p | p in ps && p.symbol == s :: p.sourceFile|
            && 1 <= st.compounds <= |Members(ps, s)|
            && st.fromName == Members(ps, s)[0].from
  {
    var g := Members(ps, s);
    var xs := Scores(g);
    var p0 :| p0 in ps && p0.symbol == s;
    assert p0 in g;
    GroupFiles(ps, s);
    ScoresOfScored(g);
    if exists q :: q in ps && q.symbol == s && q.score.Some? {
      var q :| q in ps && q.symbol == s && q.score.Some?;
      assert q in Scored(g);
    }
    if xs != [] {
      MeanOfScores(xs);
      forall p | p in ps && p.symbol == s && p.score.Some? ensures MinOf(xs) <= p.score.value <= MaxOf(xs) {
        assert p in g;
        assert p.score.value in xs;
      }
    }
  }

  /** `source_file: nunique` of a symbol with predictions: its distinct files, at least one and at most one per prediction. */
  lemma GroupFiles(ps: seq<Prediction>, s: string)
    requires exists p :: p in ps && p.symbol == s
    ensures var g := Members(ps, s);
            var files := set p | p in g :: p.sourceFile;
            && files == (set p | p in ps && p.symbol == s :: p.sourceFile)
            && 1 <= |files| <= |g|
  {
    var g := Members(ps, s);
    var p0 :| p0 in ps && p0.symbol == s;
    assert p0 in g;
    var files := set p | p in g :: p.sourceFile;
    assert p0.sourceFile in files;
    SetSizeBound(g);
  }

  /** The mean of some values lies between their minimum and their maximum. */
  lemma MeanOfScores(xs: seq<real>)
    requires xs != []
    ensures MinOf(xs) <= Sum(xs) / (|xs| as real) <= MaxOf(xs)
  {
    MeanWithin(xs, MinOf(xs), MaxOf(xs));
  }

  /** The mean of values between `lo` and `hi` is between them too. */
  lemma MeanWithin(xs: seq<real>, lo: real, hi: real)
    requires xs != []
    requires forall x :: x in xs ==> lo <= x <= hi
    ensures lo <= Sum(xs) / (|xs| as real) <= hi
  {
    SumAtLeast(xs, lo);
    SumAtMost(xs, hi);
    MeanBetween(Sum(xs), |xs| as real, lo, hi);
  }

  lemma MeanBetween(total: real, n: real, lo: real, hi: real)
    requires n > 0.0 && n * lo <= total <= n * hi
    ensures lo <= total / n <= hi
  {
    var avg := total / n;
    DivMul(total, n);
    MulLeCancel(lo, avg, n);
    MulLeCancel(avg, hi, n);
  }

  lemma DivMul(t: real, n: real)
    requires n > 0.0
    ensures (t / n) * n == t
  {
  }

  lemma MulLeCancel(a: real, b: real, n: real)
    requires n > 0.0 && a * n <= b * n
    ensures a <= b
  {
  }

  /** A sequence has at least as many elements as it has distinct file names. */
  lemma {:induction false} SetSizeBound(g: seq<Prediction>)
    ensures |set p | p in g :: p.sourceFile| <= |g|
    decreases |g|
  {
    if g != [] {
      SetSizeBound(g[1..]);
      var tail := set p | p in g[1..] :: p.sourceFile;
      assert (set p | p in g :: p.sourceFile) == tail + {g[0].sourceFile} by {
        assert forall p :: p in g ==> p == g[0] || p in g[1..];
      }
    }
  }

  /** The flattened column names of the statistics frame. */
  const StatsColumns: seq<string> := [
    "gene_symbol", "avg_score", "max_score", "min_score",
    "prediction_count", "compound_types", "compound_count", "from_name"]

  function StatsRow(st: TargetStats): (r: Row)
    ensures Get(r, "gene_symbol") == Str(st.symbol)
  {
    map["gene_symbol" := Str(st.symbol), "avg_score" := Num(st.avg), "max_score" := Num(st.max),
        "min_score" := Num(st.min), "prediction_count" := Num(st.count as real),
        "compound_types" := Names(st.types), "compound_count" := Num(st.compounds as real),
        "from_name" := st.fromName]
  }

  /** `target_stats` after `reset_index()`: one row per symbol, in ascending symbol order. */
  function StatsFrame(ps: seq<Prediction>): (f: Frame)
    ensures f.columns == StatsColumns
    ensures |f.rows| == |Symbols(ps)|
    ensures forall i :: 0 <= i < |f.rows| ==> Get(f.rows[i], "gene_symbol") == Str(Symbols(ps)[i])
    ensures forall i :: 0 <= i < |f.rows| ==> f.rows[i] == StatsRow(StatsOf(ps, Symbols(ps)[i]))
  {
    var syms := Symbols(ps);
    Frame(StatsColumns, seq(|syms|, i requires 0 <= i < |syms| => StatsRow(StatsOf(ps, syms[i]))))
  }

  // -------------------------------------------------------------- enrichment

  /** `df[col] = df[src]`. */
  function CopyColumn(f: Frame, col: string, src: string): (res: Frame)
    ensures |res.rows| == |f.rows| && res.columns == (if col in f.columns then f.columns else f.columns + [col])
    ensures forall i :: 0 <= i < |f.rows| ==> Get(res.rows[i], col) == Get(f.rows[i], src)
    ensures forall i, c :: 0 <= i < |f.rows| && c != col ==> Get(res.rows[i], c) == Get(f.rows[i], c)
  {
    WithColumn(f, col, seq(|f.rows|, i requires 0 <= i < |f.rows| => Get(f.rows[i], src)))
  }

  /** `df[col] = df[col].fillna(df[src])`, row by row. */
  function FillFrom(f: Frame, col: string, src: string): (res: Frame)
    ensures |res.rows| == |f.rows| && res.columns == (if col in f.columns then f.columns else f.columns + [col])
    ensures forall i :: 0 <= i < |f.rows| ==> Get(res.rows[i], col) == FillCell(Get(f.rows[i], col), Get(f.rows[i], src))
    ensures forall i, c :: 0 <= i < |f.rows| && c != col ==> Get(res.rows[i], c) == Get(f.rows[i], c)
  {
    WithColumn(f, col, seq(|f.rows|, i requires 0 <= i < |f.rows| => FillCell(Get(f.rows[i], col), Get(f.rows[i], src))))
  }

  /** `if col not in df.columns: df[col] = v`. */
  function AddIfAbsent(f: Frame, col: string, v: Cell): (res: Frame)
    ensures |res.rows| == |f.rows| && col in res.columns
    ensures forall c :: c in f.columns ==> c in res.columns
    ensures col !in f.columns ==> forall i :: 0 <= i < |f.rows| ==> Get(res.rows[i], col) == v
    ensures forall i, c :: 0 <= i < |f.rows| && (c != col || col in f.columns) ==> Get(res.rows[i], c) == Get(f.rows[i], c)
  {
    if col in f.columns then f else SetColumn(f, col, v)
  }

  /** The merge with the reference table and the `gene_name` fallback. */
  function WithReference(stats: Frame, reference: Frame): (r: Result<Frame>)
    ensures r.Failure? <==> !IsEmpty(reference) && "gene_symbol" !in reference.columns
    ensures IsEmpty(reference) ==>
              && |r.value.rows| == |stats.rows|
              && (forall i :: 0 <= i < |stats.rows| ==> Get(r.value.rows[i], "gene_name") == Get(stats.rows[i], "gene_symbol"))
              && (forall i, c :: 0 <= i < |stats.rows| && c != "gene_name" ==> Get(r.value.rows[i], c) == Get(stats.rows[i], c))
    ensures !IsEmpty(reference) && "gene_symbol" in reference.columns ==>
              var m := LeftMerge(stats, reference, "gene_symbol", "_x", "_y");
              && r.value.columns == MergeColumns(stats.columns, reference.columns, "gene_symbol", "_x", "_y")
              && |r.value.rows| == |m.rows|
              && ("gene_name" !in m.columns ==> r.value == m)
              && ("gene_name" in m.columns ==>
                    forall i :: 0 <= i < |m.rows| ==>
                      Get(r.value.rows[i], "gene_name") == FillCell(Get(m.rows[i], "gene_name"), Get(m.rows[i], "gene_symbol")))
              && (forall i, c :: 0 <= i < |m.rows| && c != "gene_name" ==> Get(r.value.rows[i], c) == Get(m.rows[i], c))
  {
    if IsEmpty(reference) then Success(CopyColumn(stats, "gene_name", "gene_symbol"))
    else if "gene_symbol" !in reference.columns then Failure("'gene_symbol'")
    else
      var m := LeftMerge(stats, reference, "gene_symbol", "_x", "_y");
      Success(if "gene_name" in m.columns then FillFrom(m, "gene_name", "gene_symbol") else m)
  }

  /** `species`, `uniprot_id`, `protein_names` and `function_cc`, each added when absent. */
  function Defaults(f: Frame): Frame
  {
    AddIfAbsent(AddIfAbsent(AddIfAbsent(AddIfAbsent(f, "species", Str("Homo sapiens")),
      "uniprot_id", Str("")), "protein_names", Str("")), "function_cc", Str(""))
  }

  const RequiredColumns: seq<string> := ["gene_symbol", "species", "uniprot_id", "protein_names", "function_cc"]

  /** The whole aggregation over the collected files. */
  function Aggregate(tagged: seq<Tagged>, reference: Frame, aliases: Aliases, parse: FloatParser): (r: Result<Frame>)
    ensures Valid(tagged, aliases, parse) == [] ==> r == Success(EmptyFrame)
    ensures r.Failure? <==>
              (Valid(tagged, aliases, parse) != [] &&
               (!HasScore(tagged) || (!IsEmpty(reference) && "gene_symbol" !in reference.columns)))
  {
    var ps := Valid(tagged, aliases, parse);
    if tagged == [] || ps == [] then Success(EmptyFrame)
    else if !HasScore(tagged) then Failure("Column(s) ['score'] do not exist")
    else
      var merged :- WithReference(StatsFrame(ps), reference);
      Success(Defaults(merged))
  }

  /** `Target.get_all_unique_targets()`. */
  function UniqueTargets(dirs: seq<PredictionDir>, reference: Frame, aliases: Aliases, parse: FloatParser): Result<Frame>
  {
    Aggregate(Scanned(dirs), reference, aliases, parse)
  }

  // -------------------------------------------------------------------- lemmas

  lemma StatsColumnNames()
    ensures StatsColumns[0] == "gene_symbol"
    ensures "gene_name" !in StatsColumns && "species" !in StatsColumns
    ensures forall c :: c in RequiredColumns[1..] ==> c !in StatsColumns
  {
  }

  lemma StatsKeyKept(reference: Frame)
    ensures KeyKept(StatsColumns, reference.columns, "gene_symbol", "_x", "_y")
  {
    forall c | c in StatsColumns && c != "gene_symbol"
      ensures LeftName(c, "gene_symbol", reference.columns, "_x") != "gene_symbol"
    {
      SuffixDiffers(c, "_x", "gene_symbol");
    }
    forall c | c in reference.columns && c != "gene_symbol"
      ensures RightName(c, StatsColumns, "_y") != "gene_symbol"
    {
      SuffixDiffers(c, "_y", "gene_symbol");
    }
  }

  lemma SuffixDiffers(c: string, suf: string, key: string)
    requires |suf| > 0 && |key| > 0 && suf[|suf| - 1] != key[|key| - 1]
    ensures c + suf != key
  {
    var s := c + suf;
    assert s[|s| - 1] == suf[|suf| - 1];
  }

  /** A row whose `gene_symbol` is one of the grouped symbols. */
  predicate SymbolIn(r: Row, syms: seq<string>)
  {
    Get(r, "gene_symbol").Str? && Get(r, "gene_symbol").text in syms
  }

  /** What the enrichment needs to know of the statistics frame. */
  predicate StatsShape(stats: Frame, syms: seq<string>)
  {
    && stats.columns == StatsColumns
    && |stats.rows| == |syms|
    && forall i :: 0 <= i < |syms| ==> Get(stats.rows[i], "gene_symbol") == Str(syms[i])
  }

  lemma StatsFrameShape(ps: seq<Prediction>)
    ensures StatsShape(StatsFrame(ps), Symbols(ps))
  {
  }

  /** Every row of the merge carries the symbol of some statistics row. */
  lemma WithReferenceSymbols(stats: Frame, syms: seq<string>, reference: Frame)
    requires StatsShape(stats, syms)
    requires WithReference(stats, reference).Success?
    ensures var f := WithReference(stats, reference).value;
            "gene_symbol" in f.columns && forall i :: 0 <= i < |f.rows| ==> SymbolIn(f.rows[i], syms)
  {
    var f := WithReference(stats, reference).value;
    assert StatsColumns[0] == "gene_symbol";
    if IsEmpty(reference) {
      assert f == CopyColumn(stats, "gene_name", "gene_symbol");
      forall i | 0 <= i < |f.rows| ensures SymbolIn(f.rows[i], syms) {
        assert Get(f.rows[i], "gene_symbol") == Str(syms[i]);
      }
    } else {
      var m := LeftMerge(stats, reference, "gene_symbol", "_x", "_y");
      MergedSymbols(stats, syms, reference);
      assert f == if "gene_name" in m.columns then FillFrom(m, "gene_name", "gene_symbol") else m;
      forall i | 0 <= i < |f.rows| ensures SymbolIn(f.rows[i], syms) {
        assert Get(f.rows[i], "gene_symbol") == Get(m.rows[i], "gene_symbol");
        assert SymbolIn(m.rows[i], syms);
      }
    }
  }

  lemma MergedSymbols(stats: Frame, syms: seq<string>, reference: Frame)
    requires StatsShape(stats, syms)
    ensures var m := LeftMerge(stats, reference, "gene_symbol", "_x", "_y");
            "gene_symbol" in m.columns && forall i :: 0 <= i < |m.rows| ==> SymbolIn(m.rows[i], syms)
  {
    StatsKeyKept(reference);
    LeftMergeKeys(stats, reference, "gene_symbol", "_x", "_y");
    var m := LeftMerge(stats, reference, "gene_symbol", "_x", "_y");
    forall i | 0 <= i < |m.rows| ensures SymbolIn(m.rows[i], syms) {
      var j :| 0 <= j < |stats.rows| && Get(m.rows[i], "gene_symbol") == Get(stats.rows[j], "gene_symbol");
      assert Get(stats.rows[j], "gene_symbol") == Str(syms[j]);
    }
  }

  /** `Defaults` only adds columns: every cell already there keeps its value. */
  lemma DefaultsKeeps(f: Frame)
    ensures |Defaults(f).rows| == |f.rows|
    ensures forall c :: c in RequiredColumns[1..] ==> c in Defaults(f).columns
    ensures forall c :: c in f.columns ==> c in Defaults(f).columns
    ensures forall i, c :: 0 <= i < |f.rows| && (c in f.columns || c !in RequiredColumns) ==>
              Get(Defaults(f).rows[i], c) == Get(f.rows[i], c)
    ensures "species" !in f.columns ==>
              forall i :: 0 <= i < |f.rows| ==> Get(Defaults(f).rows[i], "species") == Str("Homo sapiens")
  {
  }

  /**
   * A non-empty aggregate has the required columns, and every one of its rows
   * names a symbol that some valid prediction maps to.
   */
  lemma AggregateSymbols(tagged: seq<Tagged>, reference: Frame, aliases: Aliases, parse: FloatParser)
    requires Aggregate(tagged, reference, aliases, parse).Success?
    ensures var f := Aggregate(tagged, reference, aliases, parse).value;
            var ps := Valid(tagged, aliases, parse);
            && (ps == [] ==> f.rows == [])
            && (ps != [] ==> forall c :: c in RequiredColumns ==> c in f.columns)
            && forall i :: 0 <= i < |f.rows| ==>
                 exists p :: p in ps && Get(f.rows[i], "gene_symbol") == Str(p.symbol)
  {
    var ps := Valid(tagged, aliases, parse);
    if tagged != [] && ps != [] {
      StatsFrameShape(ps);
      WithReferenceSymbols(StatsFrame(ps), Symbols(ps), reference);
      var m := WithReference(StatsFrame(ps), reference).value;
      DefaultsKeeps(m);
      var f := Defaults(m);
      assert f == Aggregate(tagged, reference, aliases, parse).value;
      forall i | 0 <= i < |f.rows| ensures exists p :: p in ps && Get(f.rows[i], "gene_symbol") == Str(p.symbol) {
        assert Get(f.rows[i], "gene_symbol") == Get(m.rows[i], "gene_symbol");
        assert SymbolIn(m.rows[i], Symbols(ps));
      }
    }
  }

  /**
   * With a reference that lists each symbol at most once, the aggregate has
   * exactly one row per distinct symbol, in strictly ascending symbol order.
   */
  lemma AggregateOneRowPerTarget(tagged: seq<Tagged>, reference: Frame, aliases: Aliases, parse: FloatParser)
    requires Aggregate(tagged, reference, aliases, parse).Success?
    requires UniqueKeys(reference.rows, "gene_symbol")
    requires Valid(tagged, aliases, parse) != []
    ensures var f := Aggregate(tagged, reference, aliases, parse).value;
            var syms := Symbols(Valid(tagged, aliases, parse));
            && StrictlySorted(syms)
            && |f.rows| == |syms|
            && forall i :: 0 <= i < |f.rows| ==> Get(f.rows[i], "gene_symbol") == Str(syms[i])
  {
    var ps := Valid(tagged, aliases, parse);
    SymbolsSorted(ps);
    StatsFrameShape(ps);
    AggregateUnfold(tagged, reference, aliases, parse);
    DefaultsOneToOne(StatsFrame(ps), Symbols(ps), reference);
  }

  /** A non-empty aggregate that succeeds is the defaults over the enriched statistics. */
  lemma AggregateUnfold(tagged: seq<Tagged>, reference: Frame, aliases: Aliases, parse: FloatParser)
    requires Aggregate(tagged, reference, aliases, parse).Success?
    requires Valid(tagged, aliases, parse) != []
    ensures var stats := StatsFrame(Valid(tagged, aliases, parse));
            && WithReference(stats, reference).Success?
            && Aggregate(tagged, reference, aliases, parse).value == Defaults(WithReference(stats, reference).value)
  {
  }

  lemma DefaultsOneToOne(stats: Frame, syms: seq<string>, reference: Frame)
    requires StatsShape(stats, syms)
    requires WithReference(stats, reference).Success?
    requires UniqueKeys(reference.rows, "gene_symbol")
    ensures var f := Defaults(WithReference(stats, reference).value);
            && |f.rows| == |syms|
            && forall i :: 0 <= i < |f.rows| ==> Get(f.rows[i], "gene_symbol") == Str(syms[i])
  {
    var m := WithReference(stats, reference).value;
    WithReferenceOneToOne(stats, syms, reference);
    DefaultsKeeps(m);
  }

  lemma WithReferenceOneToOne(stats: Frame, syms: seq<string>, reference: Frame)
    requires StatsShape(stats, syms)
    requires WithReference(stats, reference).Success?
    requires UniqueKeys(reference.rows, "gene_symbol")
    ensures var m := WithReference(stats, reference).value;
            && "gene_symbol" in m.columns
            && |m.rows| == |syms|
            && forall i :: 0 <= i < |m.rows| ==> Get(m.rows[i], "gene_symbol") == Str(syms[i])
  {
    StatsColumnNames();
    WithReferenceSymbols(stats, syms, reference);
    if !IsEmpty(reference) {
      StatsKeyKept(reference);
      LeftMergeOneToOne(stats, reference, "gene_symbol", "_x", "_y");
      var m := LeftMerge(stats, reference, "gene_symbol", "_x", "_y");
      var f := WithReference(stats, reference).value;
      assert f == if "gene_name" in m.columns then FillFrom(m, "gene_name", "gene_symbol") else m;
      assert forall i :: 0 <= i < |f.rows| ==> Get(f.rows[i], "gene_symbol") == Get(m.rows[i], "gene_symbol");
    }
  }

  /** Without a reference table, `gene_name` repeats the symbol and `species` is "Homo sapiens". */
  lemma AggregateWithoutReference(tagged: seq<Tagged>, reference: Frame, aliases: Aliases, parse: FloatParser)
    requires Aggregate(tagged, reference, aliases, parse).Success?
    requires IsEmpty(reference)
    ensures var f := Aggregate(tagged, reference, aliases, parse).value;
            forall i :: 0 <= i < |f.rows| ==>
              Get(f.rows[i], "gene_name") == Get(f.rows[i], "gene_symbol") &&
              Get(f.rows[i], "species") == Str("Homo sapiens")
  {
    var ps := Valid(tagged, aliases, parse);
    if tagged != [] && ps != [] {
      var stats := StatsFrame(ps);
      assert stats.columns == StatsColumns;
      assert Aggregate(tagged, reference, aliases, parse).value == Defaults(CopyColumn(stats, "gene_name", "gene_symbol"));
      NameDefaults(stats);
    }
  }

  lemma NameDefaults(stats: Frame)
    requires stats.columns == StatsColumns
    ensures var f := Defaults(CopyColumn(stats, "gene_name", "gene_symbol"));
            forall i :: 0 <= i < |f.rows| ==>
              Get(f.rows[i], "gene_name") == Get(f.rows[i], "gene_symbol") &&
              Get(f.rows[i], "species") == Str("Homo sapiens")
  {
    StatsColumnNames();
    var m := CopyColumn(stats, "gene_name", "gene_symbol");
    assert m.columns == StatsColumns + ["gene_name"];
    assert "species" !in m.columns;
    DefaultsKeeps(m);
    var f := Defaults(m);
    forall i | 0 <= i < |f.rows|
      ensures Get(f.rows[i], "gene_name") == Get(f.rows[i], "gene_symbol")
    {
      assert Get(f.rows[i], "gene_name") == Get(m.rows[i], "gene_name");
      assert Get(f.rows[i], "gene_symbol") == Get(m.rows[i], "gene_symbol");
    }
  }
}
