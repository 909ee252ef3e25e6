/**
 The memory watchdog of src/memory_limit.rs over whole runs of samples.  The memory measurements are
 the input; the run is stopped after the last of them.  Ending the process is the outcome
 `Terminated`.
 */
module Watchdog {
  import opened Options

  const U64_MAX: nat := 0xFFFF_FFFF_FFFF_FFFF

  datatype Sample = Usage(bytes: nat) | Failed

  datatype Entry = UsageWarning(step: nat, bytes: nat) | MeasurementWarning(step: nat)

  datatype Outcome = Stopped | Terminated(step: nat)

  datatype Config = Config(limit: nat, percent: nat)

  // -------------------------------------------------------------- thresholds

  function Min(a: nat, b: nat): (r: nat) { if a < b then a else b }

  /** `warning_threshold_bytes`: rounded up, and cut at the largest 64-bit number. */
  function WarningThreshold(c: Config): (r: nat)
  {
    var scaled := c.limit * Min(c.percent, 100);
    Min((scaled + 99) / 100, U64_MAX)
  }

  /** The usage has come to the configured share of the limit; more than all of it is all of it. */
  predicate InRegion(c: Config, bytes: nat) { 100 * bytes >= c.limit * Min(c.percent, 100) }

  type Share = nat -> bool

  function ShareOf(c: Config): (r: Share) { (bytes: nat) => InRegion(c, bytes) }

  /** The rounded threshold is exact, and for a 64-bit limit it is never cut. */
  lemma {:induction false} ThresholdIsExact(c: Config, bytes: nat)
    requires c.limit <= U64_MAX
    ensures WarningThreshold(c) <= c.limit
    ensures bytes >= WarningThreshold(c) <==> InRegion(c, bytes)
  {
    var percent := Min(c.percent, 100);
    Capped(c.limit, percent);
    Ceiling(c.limit * percent, bytes);
    Ceiling(c.limit * percent, c.limit);
  }

  lemma {:induction false} Capped(limit: nat, percent: nat)
    requires percent <= 100
    ensures 0 <= limit * percent <= 100 * limit
  {
  }

  lemma {:induction false} Ceiling(scaled: nat, bytes: nat)
    ensures bytes >= (scaled + 99) / 100 <==> 100 * bytes >= scaled
  {
  }

  // ------------------------------------------------- what a run should report

  /** The last successful measurement before step `i` was in the region. */
  predicate WasInRegion(region: Share, samples: seq<Sample>, i: nat)
    requires i <= |samples|
  {
    i > 0 && match samples[i - 1]
             case Usage(bytes) => region(bytes)
             case Failed => WasInRegion(region, samples, i - 1)
  }

  /** Step `i` brings the usage into the region. */
  predicate Enters(region: Share, samples: seq<Sample>, i: nat)
    requires i < |samples|
  {
    samples[i].Usage? && region(samples[i].bytes) && !WasInRegion(region, samples, i)
  }

  /** Step `i` is the first of a run of failed measurements. */
  predicate StartsFailing(samples: seq<Sample>, i: nat)
    requires i < |samples|
  {
    samples[i].Failed? && (i == 0 || samples[i - 1].Usage?)
  }

  predicate Exceeds(c: Config, sample: Sample) { sample.Usage? && sample.bytes > c.limit }

  function Report(region: Share, samples: seq<Sample>, i: nat): (r: seq<Entry>)
    requires i < |samples|
  {
    if Enters(region, samples, i) then [UsageWarning(i, samples[i].bytes)]
    else if StartsFailing(samples, i) then [MeasurementWarning(i)]
    else []
  }

  /** What is logged in the first `n` steps. */
  function Log(region: Share, samples: seq<Sample>, n: nat): (r: seq<Entry>)
    requires n <= |samples|
  {
    if n == 0 then [] else Log(region, samples, n - 1) + Report(region, samples, n - 1)
  }

  predicate WithinLimit(c: Config, samples: seq<Sample>, n: nat)
    requires n <= |samples|
  {
    forall i :: 0 <= i < n ==> !Exceeds(c, samples[i])
  }

  /** The outcome and the log of a whole run: it ends at the first successful sample above the limit,
      with nothing logged in that step. */
  predicate Correct(c: Config, samples: seq<Sample>, outcome: Outcome, log: seq<Entry>)
  {
    match outcome
    case Stopped => WithinLimit(c, samples, |samples|) && log == Log(ShareOf(c), samples, |samples|)
    case Terminated(n) =>
      n < |samples| && Exceeds(c, samples[n]) && WithinLimit(c, samples, n) && log == Log(ShareOf(c), samples, n)
  }

  // ------------------------------------------------------------------- the loop

  /** The loop keeps two flags; they are just what the past samples say. */
  method WatchdogLoop(limit: Option<nat>, percent: nat, samples: seq<Sample>)
    returns (outcome: Outcome, log: seq<Entry>)
    requires limit.Some? ==> limit.value <= U64_MAX
    ensures limit.None? ==> outcome == Stopped && log == []
    ensures limit.Some? ==> Correct(Config(limit.value, percent), samples, outcome, log)
  {
    log := [];
    if limit.None? {
      return Stopped, log;
    }
    var c := Config(limit.value, percent);
    var warningBytes := WarningThreshold(c);
    var warningReported, errorReported := false, false;
    for n := 0 to |samples|
      invariant WithinLimit(c, samples, n) && log == Log(ShareOf(c), samples, n)
      invariant warningReported == WasInRegion(ShareOf(c), samples, n)
      invariant errorReported == (n > 0 && samples[n - 1].Failed?)
    {
      match samples[n] {
        case Usage(bytes) =>
          ThresholdIsExact(c, bytes);
          if bytes > c.limit {
            return Terminated(n), log;
          }
          if !warningReported && bytes >= WarningThreshold(c) {
            log := log + [UsageWarning(n, bytes)];
            warningReported := true;
          } else if warningReported && bytes < warningBytes {
            warningReported := false;
          }
          errorReported := false;
        case Failed =>
          if !errorReported {
            log := log + [MeasurementWarning(n)];
            errorReported := true;
          }
      }
    }
    return Stopped, log;
  }

  /** How many samples a run took before it stopped or ended the process. */
  function Steps(samples: seq<Sample>, outcome: Outcome): (n: nat)
  {
    match outcome
    case Stopped => |samples|
    case Terminated(n) => n
  }

  // ------------------------------------------------------------------- counting

  /** The successful measurements among the first `n`. */
  function Successes(samples: seq<Sample>, n: nat): (r: seq<nat>)
    requires n <= |samples|
  {
    if n == 0 then []
    else Successes(samples, n - 1) + (if samples[n - 1].Usage? then [samples[n - 1].bytes] else [])
  }

  /** How often a sequence of measurements comes into the region from outside it. */
  function Entrances(region: Share, usage: seq<nat>): (r: nat)
  {
    if usage == [] then 0 else
      var n := |usage| - 1;
      Entrances(region, usage[..n])
      + (if region(usage[n]) && (n == 0 || !region(usage[n - 1])) then 1 else 0)
  }

  function UsageWarnings(log: seq<Entry>): (r: nat)
  {
    if log == [] then 0 else UsageWarnings(log[..|log| - 1]) + (if log[|log| - 1].UsageWarning? then 1 else 0)
  }

  lemma {:induction false} UsageWarningsOf(log: seq<Entry>, report: seq<Entry>)
    requires |report| <= 1
    ensures UsageWarnings(log + report)
      == UsageWarnings(log) + (if report != [] && report[0].UsageWarning? then 1 else 0)
  {
    if report == [] {
      assert log + report == log;
    } else {
      assert (log + report)[..|log|] == log;
    }
  }

  lemma {:induction false} LastSuccess(region: Share, samples: seq<Sample>, n: nat)
    requires n <= |samples|
    ensures var s := Successes(samples, n);
            WasInRegion(region, samples, n) <==> s != [] && region(s[|s| - 1])
  {
    if n > 0 && samples[n - 1].Failed? {
      LastSuccess(region, samples, n - 1);
    }
  }

  lemma {:induction false} EntrancesOf(region: Share, usage: seq<nat>, bytes: nat)
    ensures Entrances(region, usage + [bytes]) == Entrances(region, usage)
      + (if region(bytes) && (usage == [] || !region(usage[|usage| - 1])) then 1 else 0)
  {
    assert (usage + [bytes])[..|usage|] == usage;
  }

  lemma {:induction false} WarningsStep(region: Share, samples: seq<Sample>, i: nat)
    requires i < |samples|
    ensures UsageWarnings(Log(region, samples, i + 1))
      == UsageWarnings(Log(region, samples, i)) + (if Enters(region, samples, i) then 1 else 0)
  {
    UsageWarningsOf(Log(region, samples, i), Report(region, samples, i));
  }

  lemma {:induction false} EntrancesStep(region: Share, samples: seq<Sample>, i: nat)
    requires i < |samples|
    ensures Entrances(region, Successes(samples, i + 1))
      == Entrances(region, Successes(samples, i)) + (if Enters(region, samples, i) then 1 else 0)
  {
    var before := Successes(samples, i);
    LastSuccess(region, samples, i);
    if samples[i].Usage? {
      EntrancesOf(region, before, samples[i].bytes);
    } else {
      assert before + [] == before;
    }
  }

  /** The usage is reported once for each time it comes into the region; failed measurements neither
      add a report nor hide one. */
  lemma {:induction false} WarningsCountEntrances(region: Share, samples: seq<Sample>, n: nat)
    requires n <= |samples|
    ensures UsageWarnings(Log(region, samples, n)) == Entrances(region, Successes(samples, n))
  {
    if n > 0 {
      var i := n - 1;
      assert UsageWarnings(Log(region, samples, i)) == Entrances(region, Successes(samples, i)) by {
        WarningsCountEntrances(region, samples, i);
      }
      WarningsStep(region, samples, i);
      EntrancesStep(region, samples, i);
      assert i + 1 == n;
    }
  }

  /** The failed measurements from `a` up to but not including `b`, with none beside them. */
  predicate FailedRun(samples: seq<Sample>, a: nat, b: nat)
  {
    && a < b <= |samples| && (forall i :: a <= i < b ==> samples[i].Failed?)
    && (a == 0 || samples[a - 1].Usage?) && (b == |samples| || samples[b].Usage?)
  }

  predicate Logged(region: Share, samples: seq<Sample>, n: nat, e: Entry)
    requires n <= |samples|
  {
    e in Log(region, samples, n)
  }

  lemma {:induction false} LoggedExactly(region: Share, samples: seq<Sample>, n: nat, e: Entry)
    requires n <= |samples|
    ensures Logged(region, samples, n, e) <==> e.step < n && e in Report(region, samples, e.step)
  {
    if n > 0 {
      LoggedExactly(region, samples, n - 1, e);
    }
  }

  /** In every run, each maximal row of failed measurements it took is reported once, at its first. */
  lemma {:induction false} FailuresAreReportedOnce(
      c: Config, samples: seq<Sample>, outcome: Outcome, log: seq<Entry>, a: nat, b: nat, i: nat)
    requires Correct(c, samples, outcome, log) && FailedRun(samples, a, b) && a <= i < b
    ensures MeasurementWarning(i) in log <==> i == a && a < Steps(samples, outcome)
    ensures a < Steps(samples, outcome) ==> b <= Steps(samples, outcome)
  {
    LoggedExactly(ShareOf(c), samples, Steps(samples, outcome), MeasurementWarning(i));
    assert i > a ==> samples[i - 1].Failed?;
    assert outcome.Terminated? ==> samples[outcome.step].Usage?;
  }

  /** In every run, the usage warnings are the entrances of the successful samples it took. */
  lemma {:induction false} RunCountsEntrances(c: Config, samples: seq<Sample>, outcome: Outcome, log: seq<Entry>)
    requires Correct(c, samples, outcome, log)
    ensures UsageWarnings(log) == Entrances(ShareOf(c), Successes(samples, Steps(samples, outcome)))
  {
    WarningsCountEntrances(ShareOf(c), samples, Steps(samples, outcome));
  }
}
