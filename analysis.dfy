/** The experiment harness: repeated runs of one configuration, and the
    one-parameter sensitivity sweep built on them. */
module Analysis {
  import opened Stats
  import opened Model

  /** What the harness takes from outside the modelled code: the number of
      events of one run (a constant inside `simulate`), the normal sampler
      and the square root of the numeric library. */
  datatype Env = Env(events: nat, gaussian: Gaussian, sqrt: real -> real)

  ghost predicate ValidEnv(env: Env)
  {
    IsSqrt(env.sqrt)
  }

  /** `{**config, name: value}`: the copy of a configuration with one key set. */
  function Override(config: Config, name: string, value: real): (c: Config)
    ensures c.Keys == config.Keys + {name}
    ensures name in c && c[name] == value
    ensures forall k :: k in config && k != name ==> k in c && c[k] == config[k]
    ensures IsComplete(config) ==> IsComplete(c)
  {
    config[name := value]
  }

  // ---------------------------------------------------------------------
  // run_simulation_multiple_times

  /** The successful-attack counts of `runs` runs of `config`, in run order;
      the first run that fails makes the whole list fail. */
  function SuccessCounts(config: Config, runs: nat, env: Env): (r: Result<seq<real>>)
    requires IsComplete(config)
    ensures r.Ok? ==> |r.value| == runs
    ensures r.Ok? ==> forall i :: 0 <= i < runs ==>
      SimulateSpec(config, env.events, env.gaussian).Ok? &&
      r.value[i] == SimulateSpec(config, env.events, env.gaussian).value.successful as real
  {
    if runs == 0 then Ok([])
    else
      match SuccessCounts(config, runs - 1, env)
      case Err(e) => Err(e)
      case Ok(counts) =>
        match SimulateSpec(config, env.events, env.gaussian)
        case Err(e) => Err(e)
        case Ok(res) => Ok(counts + [res.successful as real])
  }

  /** The mean number of successful attacks and its confidence interval. */
  datatype Score = Score(mean: Float, ci: (real, real))

  function ScoreSpec(config: Config, runs: nat, env: Env): Result<Score>
    requires IsComplete(config) && ValidEnv(env)
  {
    match SuccessCounts(config, runs, env)
    case Err(e) => Err(e)
    case Ok(counts) => Ok(Score(NpMean(counts), ConfidenceInterval(counts, env.sqrt)))
  }

  lemma {:induction false} SuccessCountsErrorPersists(config: Config, i: nat, n: nat, env: Env)
    requires IsComplete(config)
    requires i <= n && SuccessCounts(config, i, env).Err?
    ensures SuccessCounts(config, n, env) == SuccessCounts(config, i, env)
    decreases n - i
  {
    if i < n {
      SuccessCountsErrorPersists(config, i + 1, n, env);
    }
  }

  /** `run_simulation_multiple_times`: collects the successful-attack count
      of `runs` runs and returns its mean and confidence interval. */
  method RunSimulationMultipleTimes(config: Config, runs: nat, env: Env) returns (r: Result<Score>)
    requires IsComplete(config) && ValidEnv(env)
    ensures r == ScoreSpec(config, runs, env)
    ensures r.Ok? ==> (r.value.mean.Finite? <==> 0 < runs)
  {
    var counts: seq<real> := [];
    var i := 0;
    while i < runs
      invariant i <= runs
      invariant SuccessCounts(config, i, env) == Ok(counts)
    {
      var res := Simulate(config, env.events, env.gaussian);
      if res.Err? {
        SuccessCountsErrorPersists(config, i + 1, runs, env);
        return Err(res.error);
      }
      counts := counts + [res.value.successful as real];
      i := i + 1;
    }
    r := Ok(Score(NpMean(counts), ConfidenceInterval(counts, env.sqrt)));
  }

  /** Every run of a configuration starts from the same seed, so repeated
      runs agree: the score is the count of one run, and with two runs or
      more its confidence interval is that single point. */
  lemma {:induction false} RepeatedCounts(config: Config, runs: nat, env: Env)
    requires IsComplete(config)
    requires SimulateSpec(config, env.events, env.gaussian).Ok?
    ensures SuccessCounts(config, runs, env)
         == Ok(Repeat(SimulateSpec(config, env.events, env.gaussian).value.successful as real, runs))
    decreases runs
  {
    if runs > 0 {
      RepeatedCounts(config, runs - 1, env);
      var x := SimulateSpec(config, env.events, env.gaussian).value.successful as real;
      assert Repeat(x, runs) == Repeat(x, runs - 1) + [x];
    }
  }

  lemma RepeatedRunsAgree(config: Config, runs: nat, env: Env)
    requires IsComplete(config) && ValidEnv(env)
    requires SimulateSpec(config, env.events, env.gaussian).Ok?
    ensures var x := SimulateSpec(config, env.events, env.gaussian).value.successful as real;
      && (runs == 0 ==> ScoreSpec(config, runs, env) == Ok(Score(NaN, (0.0, 0.0))))
      && (runs == 1 ==> ScoreSpec(config, runs, env) == Ok(Score(Finite(x), (0.0, 0.0))))
      && (runs >= 2 ==> ScoreSpec(config, runs, env) == Ok(Score(Finite(x), (x, x))))
  {
    var x := SimulateSpec(config, env.events, env.gaussian).value.successful as real;
    RepeatedCounts(config, runs, env);
    if runs > 0 {
      ConstantSample(x, runs, env.sqrt);
    }
  }

  // ---------------------------------------------------------------------
  // run_experiments

  /** The three per-run samples gathered for one candidate value. */
  datatype RunStats = RunStats(successful: seq<real>, processingMeans: seq<real>, blocked: seq<real>)

  /** The samples one run contributes: its successful count, the mean latency
      of its successful attacks (0 when there are none) and the attacks
      stopped by the firewall plus those blocked by the IPS. */
  function Collect(stats: RunStats, res: RunResult, sqrt: real -> real): (s: RunStats)
    requires IsSqrt(sqrt)
    ensures s.successful == stats.successful + [res.successful as real]
    ensures s.blocked == stats.blocked + [(res.blocked + res.ipsBlocked) as real]
    ensures |s.processingMeans| == |stats.processingMeans| + 1
    ensures res.latencies == [] ==> s.processingMeans[|stats.processingMeans|] == 0.0
    ensures res.latencies != [] ==>
      s.processingMeans[|stats.processingMeans|] * |res.latencies| as real == Sum(res.latencies)
  {
    RunStats(stats.successful + [res.successful as real],
             stats.processingMeans + [CalculateStats(res.latencies, sqrt).mean],
             stats.blocked + [(res.blocked + res.ipsBlocked) as real])
  }

  /** The samples of `runs` runs of `config`; the first failure wins. */
  function RunsSpec(config: Config, runs: nat, env: Env): (r: Result<RunStats>)
    requires IsComplete(config) && ValidEnv(env)
    ensures r.Ok? ==> |r.value.successful| == |r.value.processingMeans| == |r.value.blocked| == runs
  {
    if runs == 0 then Ok(RunStats([], [], []))
    else
      match RunsSpec(config, runs - 1, env)
      case Err(e) => Err(e)
      case Ok(stats) =>
        match SimulateSpec(config, env.events, env.gaussian)
        case Err(e) => Err(e)
        case Ok(res) => Ok(Collect(stats, res, env.sqrt))
  }

  /** One more run extends the samples by what it contributes, or fails them. */
  lemma RunsStep(config: Config, j: nat, env: Env, stats: RunStats, res: Result<RunResult>)
    requires IsComplete(config) && ValidEnv(env)
    requires RunsSpec(config, j, env) == Ok(stats)
    requires res == SimulateSpec(config, env.events, env.gaussian)
    ensures res.Err? ==> RunsSpec(config, j + 1, env) == Err(res.error)
    ensures res.Ok? ==> RunsSpec(config, j + 1, env) == Ok(Collect(stats, res.value, env.sqrt))
  {
  }

  lemma {:induction false} RunsErrorPersists(config: Config, i: nat, n: nat, env: Env)
    requires IsComplete(config) && ValidEnv(env)
    requires i <= n && RunsSpec(config, i, env).Err?
    ensures RunsSpec(config, n, env) == RunsSpec(config, i, env)
    decreases n - i
  {
    if i < n {
      RunsErrorPersists(config, i + 1, n, env);
    }
  }

  /** One row of the sensitivity table. */
  datatype ExperimentPoint = ExperimentPoint(
    paramValue: real,
    successfulMean: Float, successfulCi: (real, real),
    timeMean: Float, timeCi: (real, real),
    blockedMean: Float, blockedCi: (real, real))

  function PointOf(value: real, stats: RunStats, sqrt: real -> real): (p: ExperimentPoint)
    requires IsSqrt(sqrt)
  {
    ExperimentPoint(value,
      NpMean(stats.successful), ConfidenceInterval(stats.successful, sqrt),
      NpMean(stats.processingMeans), ConfidenceInterval(stats.processingMeans, sqrt),
      NpMean(stats.blocked), ConfidenceInterval(stats.blocked, sqrt))
  }

  /** One row: the runs of the base configuration with `name` set to `value`. */
  function Row(name: string, value: real, base: Config, runs: nat, env: Env): (r: Result<ExperimentPoint>)
    requires IsComplete(base) && ValidEnv(env)
    ensures r.Ok? ==> r.value.paramValue == value
  {
    match RunsSpec(Override(base, name, value), runs, env)
    case Err(e) => Err(e)
    case Ok(stats) => Ok(PointOf(value, stats, env.sqrt))
  }

  /** The rows in order as one table; the first failing row fails it all. */
  function Table<T>(rows: seq<Result<T>>): (r: Result<seq<T>>)
    ensures r.Ok? ==> |r.value| == |rows|
  {
    if rows == [] then Ok([])
    else
      var n := |rows| - 1;
      match Table(rows[..n])
      case Err(e) => Err(e)
      case Ok(xs) =>
        match rows[n]
        case Err(e) => Err(e)
        case Ok(x) => Ok(xs + [x])
  }

  /** A table that was built holds, at each position, the row there. */
  lemma {:induction false} TableAt<T>(rows: seq<Result<T>>)
    requires Table(rows).Ok?
    ensures forall i :: 0 <= i < |rows| ==> rows[i] == Ok(Table(rows).value[i])
  {
    if rows != [] {
      var n := |rows| - 1;
      TableAt(rows[..n]);
      forall i | 0 <= i < n ensures rows[i] == Ok(Table(rows).value[i]) {
        assert rows[..n][i] == rows[i];
      }
    }
  }

  /** A table fails exactly when one of its rows does. */
  lemma {:induction false} TableFailsIff<T>(rows: seq<Result<T>>)
    ensures Table(rows).Err? <==> exists k :: 0 <= k < |rows| && rows[k].Err?
  {
    if rows != [] {
      var n := |rows| - 1;
      TableFailsIff(rows[..n]);
      if Table(rows[..n]).Err? {
        var k :| 0 <= k < n && rows[..n][k].Err?;
        assert rows[k].Err?;
      } else if exists k :: 0 <= k < |rows| && rows[k].Err? {
        var k :| 0 <= k < |rows| && rows[k].Err?;
        if k < n {
          assert rows[..n][k].Err?;
        }
      }
    }
  }

  /** Building a table one row at a time. */
  lemma TableSnoc<T>(rows: seq<Result<T>>, k: nat, xs: seq<T>)
    requires k < |rows| && Table(rows[..k]) == Ok(xs)
    ensures rows[k].Ok? ==> Table(rows[..k + 1]) == Ok(xs + [rows[k].value])
    ensures rows[k].Err? ==> Table(rows[..k + 1]) == Err(rows[k].error)
  {
    assert rows[..k + 1][..k] == rows[..k];
  }

  /** Once a prefix of the rows fails, the whole table fails the same way. */
  lemma {:induction false} TableErrorPersists<T>(rows: seq<Result<T>>, i: nat)
    requires i <= |rows| && Table(rows[..i]).Err?
    ensures Table(rows) == Table(rows[..i])
    decreases |rows| - i
  {
    if i < |rows| {
      assert rows[..i + 1][..i] == rows[..i];
      TableErrorPersists(rows, i + 1);
    } else {
      assert rows[..i] == rows;
    }
  }

  /** The row for a value is built from the samples of its configuration. */
  lemma RowFromRuns(name: string, value: real, base: Config, runs: nat, env: Env, stats: Result<RunStats>)
    requires IsComplete(base) && ValidEnv(env)
    requires stats == RunsSpec(Override(base, name, value), runs, env)
    ensures stats.Err? ==> Row(name, value, base, runs, env) == Err(stats.error)
    ensures stats.Ok? ==> Row(name, value, base, runs, env) == Ok(PointOf(value, stats.value, env.sqrt))
  {
  }

  /** The rows for the values, in order. */
  function Rows(name: string, values: seq<real>, base: Config, runs: nat, env: Env)
    : (r: seq<Result<ExperimentPoint>>)
    requires IsComplete(base) && ValidEnv(env)
  {
    seq(|values|, i requires 0 <= i < |values| => Row(name, values[i], base, runs, env))
  }

  /** The table for the values in order; the first failing run fails it all. */
  function ExperimentsSpec(name: string, values: seq<real>, base: Config, runs: nat, env: Env)
    : (r: Result<seq<ExperimentPoint>>)
    requires IsComplete(base) && ValidEnv(env)
    ensures r.Ok? ==> |r.value| == |values|
  {
    Table(Rows(name, values, base, runs, env))
  }

  /** A successful table has, at position i, the row of the i-th value. */
  lemma ExperimentsRows(name: string, values: seq<real>, base: Config, runs: nat, env: Env)
    requires IsComplete(base) && ValidEnv(env)
    requires ExperimentsSpec(name, values, base, runs, env).Ok?
    ensures var points := ExperimentsSpec(name, values, base, runs, env).value;
      forall i :: 0 <= i < |values| ==> Row(name, values[i], base, runs, env) == Ok(points[i])
  {
    TableAt(Rows(name, values, base, runs, env));
  }

  /** One sweep over the run samples of a single configuration. */
  method CollectRuns(config: Config, runs: nat, env: Env) returns (r: Result<RunStats>)
    requires IsComplete(config) && ValidEnv(env)
    ensures r == RunsSpec(config, runs, env)
  {
    var stats := RunStats([], [], []);
    var j := 0;
    while j < runs
      invariant j <= runs
      invariant RunsSpec(config, j, env) == Ok(stats)
    {
      var res := Simulate(config, env.events, env.gaussian);
      RunsStep(config, j, env, stats, res);
      if res.Err? {
        RunsErrorPersists(config, j + 1, runs, env);
        return Err(res.error);
      }
      stats := Collect(stats, res.value, env.sqrt);
      j := j + 1;
    }
    r := Ok(stats);
  }

  /** `run_experiments`: for each value in order, overrides one parameter of
      the base configuration, runs it `runs` times and summarises the three
      samples. */
  method RunExperiments(name: string, values: seq<real>, base: Config, env: Env, runs: nat := 5)
    returns (r: Result<seq<ExperimentPoint>>)
    requires IsComplete(base) && ValidEnv(env)
    ensures r == ExperimentsSpec(name, values, base, runs, env)
  {
    ghost var rows := Rows(name, values, base, runs, env);
    var results: seq<ExperimentPoint> := [];
    var k := 0;
    while k < |values|
      invariant k <= |values|
      invariant Table(rows[..k]) == Ok(results)
    {
      var config := Override(base, name, values[k]);
      var stats := CollectRuns(config, runs, env);
      RowFromRuns(name, values[k], base, runs, env, stats);
      assert rows[k] == Row(name, values[k], base, runs, env);
      TableSnoc(rows, k, results);
      if stats.Err? {
        TableErrorPersists(rows, k + 1);
        return Err(stats.error);
      }
      var point := PointOf(values[k], stats.value, env.sqrt);
      results := results + [point];
      k := k + 1;
    }
    assert rows[..k] == rows;
    r := Ok(results);
  }

  /** The samples of repeated runs of one configuration are constant, so
      every row of the table has zero-width intervals: (0, 0) for fewer than
      two runs, the mean itself from two runs on. */
  lemma {:induction false} RunsAreConstant(config: Config, runs: nat, env: Env)
    requires IsComplete(config) && ValidEnv(env)
    requires SimulateSpec(config, env.events, env.gaussian).Ok?
    ensures var res := SimulateSpec(config, env.events, env.gaussian).value;
      RunsSpec(config, runs, env) == Ok(RunStats(
        Repeat(res.successful as real, runs),
        Repeat(CalculateStats(res.latencies, env.sqrt).mean, runs),
        Repeat((res.blocked + res.ipsBlocked) as real, runs)))
    decreases runs
  {
    if runs > 0 {
      RunsAreConstant(config, runs - 1, env);
      var res := SimulateSpec(config, env.events, env.gaussian).value;
      var a, m, c := res.successful as real, CalculateStats(res.latencies, env.sqrt).mean,
                     (res.blocked + res.ipsBlocked) as real;
      var prev := RunStats(Repeat(a, runs - 1), Repeat(m, runs - 1), Repeat(c, runs - 1));
      assert RunsSpec(config, runs, env) == Ok(Collect(prev, res, env.sqrt));
      RepeatSnoc(a, runs - 1);
      RepeatSnoc(m, runs - 1);
      RepeatSnoc(c, runs - 1);
    }
  }

  /** A row built from samples that repeat one value per metric reports
      that value as each mean, with intervals of zero width: (0, 0) for a
      single run, the mean itself from two runs on. */
  lemma PointOfRepeats(value: real, a: real, b: real, c: real, runs: nat, sqrt: real -> real)
    requires IsSqrt(sqrt) && 0 < runs
    ensures var p := PointOf(value, RunStats(Repeat(a, runs), Repeat(b, runs), Repeat(c, runs)), sqrt);
      && p.paramValue == value
      && p.successfulMean == Finite(a) && p.timeMean == Finite(b) && p.blockedMean == Finite(c)
      && (runs == 1 ==> p.successfulCi == p.timeCi == p.blockedCi == (0.0, 0.0))
      && (runs >= 2 ==> p.successfulCi == (a, a) && p.timeCi == (b, b) && p.blockedCi == (c, c))
  {
    ConstantSample(a, runs, sqrt);
    ConstantSample(b, runs, sqrt);
    ConstantSample(c, runs, sqrt);
  }

  /** Every run of one configuration starts from the same seed, so each row
      of the sensitivity table is the outcome of a single run, repeated
      (with no runs at all, nothing is simulated and the samples are empty). */
  lemma ConstantRows(name: string, values: seq<real>, base: Config, runs: nat, env: Env, i: nat)
    requires IsComplete(base) && ValidEnv(env)
    requires 0 < runs && i < |values|
    requires ExperimentsSpec(name, values, base, runs, env).Ok?
    ensures var config := Override(base, name, values[i]);
      && SimulateSpec(config, env.events, env.gaussian).Ok?
      && var res := SimulateSpec(config, env.events, env.gaussian).value;
         ExperimentsSpec(name, values, base, runs, env).value[i]
           == PointOf(values[i], RunStats(
                Repeat(res.successful as real, runs),
                Repeat(CalculateStats(res.latencies, env.sqrt).mean, runs),
                Repeat((res.blocked + res.ipsBlocked) as real, runs)), env.sqrt)
  {
    var config := Override(base, name, values[i]);
    ExperimentsRows(name, values, base, runs, env);
    assert Row(name, values[i], base, runs, env).Ok?;
    RunsAreConstant(config, runs, env);
  }
}
