/** What a node does with decisions, triggers, evicted signals and the clock. */
module Processor {
  import opened Int64
  import opened Pdata
  import opened Filter
  import opened Identity
  import opened Live
  import opened TimeIndex
  import opened Buffer
  import opened Gossip
  import MetricRollup
  import S = Sampler
  import R = Rollup
  import opened SignalLedger
  import V = ValueLedger

  /** Not the mark that a crash leaves; no received signal carries it. */
  ghost function Genuine(): Signal -> bool {
    (sig: Signal) => sig.MetricSignal? ==> !MetricRollup.HasCrashed(sig.metrics)
  }

  lemma HeldAreGenuine(steps: seq<S.Step>)
    requires S.LegalRun(steps) && V.StoredOk(S.Run(steps), Genuine())
    ensures V.HeldOk(S.Run(steps), Genuine())
  {
    hide *;
    EverySignalInOnePlace(steps);
    V.StoredThenHeld(S.Run(steps), Genuine());
  }

  lemma ZeroInstantReads()
    ensures Wrap64(ZERO_INSTANT) == S.ZERO_TIME
  {
    assert Wrap64(ZERO_INSTANT) == Wrap64(ZERO_INSTANT + TWO_64);
    assert Wrap64(ZERO_INSTANT + TWO_64) == Wrap64(ZERO_INSTANT + 2 * TWO_64);
    assert Wrap64(ZERO_INSTANT + 2 * TWO_64) == Wrap64(ZERO_INSTANT + 3 * TWO_64);
  }

  /** The bounds that are passed to the buffer have wrapped once, and its own upper
      bound wraps them again. */
  lemma WindowBounds(d: Decision)
    ensures S.WindowStart(d) == Wrap64(d.eventStart - 5 * S.SECOND)
    ensures S.WindowEnd(d) == Upto(Wrap64(d.eventEnd + 5 * S.SECOND))
  {
    hide Wrap64;
    WrapSum(d.eventEnd + 5 * S.SECOND, 1);
  }

  class Processor {
    const buffer: InMemoryBuffer
    const gossip: Manager
    const rollup: R.Processor
    var evictedMetrics: seq<Metrics>
    var evictedLogs: seq<Logs>
    var exports: seq<S.Export>
    ghost var dead: bool
    ghost var ledger: S.Ledger

    constructor (buffer: InMemoryBuffer, gossip: Manager, rollup: R.Processor)
      ensures this.buffer == buffer && this.gossip == gossip && this.rollup == rollup
      ensures evictedMetrics == [] && evictedLogs == [] && exports == [] && !dead && ledger == S.START.ledger
    {
      this.buffer, this.gossip, this.rollup := buffer, gossip, rollup;
      evictedMetrics, evictedLogs, exports := [], [], [];
      dead, ledger := false, S.START.ledger;
    }

    ghost function Abs(): S.Proc
      requires buffer.Valid()
      reads this, buffer, rollup
    {
      S.Proc(buffer.Abs(), evictedMetrics, evictedLogs, rollup.currentLevel, exports, dead, ledger)
    }

    method HandleEvictedSignal(sig: Signal)
      requires buffer.Valid()
      modifies this
      ensures Abs() == S.HandleEvicted(old(Abs()), sig)
    {
      match sig
      case MetricSignal(m) => evictedMetrics := evictedMetrics + [m];
      case LogSignal(l) => evictedLogs := evictedLogs + [l];
    }

    /** One turn of the loop that consumes evicted signals. */
    method OnEvicted()
      requires buffer.Valid()
      modifies this, buffer
      ensures buffer.Valid() && Abs() == S.DrainOne(old(Abs()))
      ensures old(buffer.evictedChan) == [] ==> Abs() == old(Abs())
      ensures old(buffer.evictedChan) != [] ==>
                && buffer.evictedChan == old(buffer.evictedChan)[1..]
                && match old(buffer.evictedChan)[0]
                   case MetricSignal(m) =>
                     evictedMetrics == old(evictedMetrics) + [m] && evictedLogs == old(evictedLogs)
                   case LogSignal(l) =>
                     evictedLogs == old(evictedLogs) + [l] && evictedMetrics == old(evictedMetrics)
    {
      if buffer.evictedChan != [] {
        var sig := buffer.NextEvicted();
        HandleEvictedSignal(sig);
      }
    }

    method ProcessTrigger(t: TriggerEvent)
      requires buffer.Valid()
      modifies rollup
      ensures buffer.Valid()
      ensures Abs() == S.Obey(old(Abs()), t)
      ensures rollup.currentLevel ==
              if t.name != "high_load" then old(rollup.currentLevel)
              else if t.value > t.threshold then Coarse else Fine
    {
      if t.name == "high_load" {
        if t.value > t.threshold {
          rollup.SetLevel(Coarse);
        } else {
          rollup.SetLevel(Fine);
        }
      }
    }

    /** One turn of the loop that waits for triggers. */
    method OnTrigger()
      requires buffer.Valid() && gossip.Valid()
      modifies rollup, gossip
      ensures buffer.Valid() && gossip.Valid()
      ensures var mail := old(gossip.Abs());
              if mail.triggers == [] then Abs() == old(Abs()) && gossip.Abs() == mail
              else
                && Abs() == S.Obey(old(Abs()), mail.triggers[0])
                && gossip.Abs() == mail.(triggers := mail.triggers[1..])
    {
      if gossip.triggerChan != [] {
        var t := gossip.NextTrigger();
        ProcessTrigger(t);
      }
    }

    // -------------------------------------------------------------------------
    // Decisions
    // -------------------------------------------------------------------------

    method ExportTrace(tid: TraceID)
      requires buffer.Valid()
      modifies this, buffer
      ensures buffer.Valid() && Abs() == S.ExportTrace(old(Abs()), Hex(tid))
    {
      var trace, _ := buffer.GetTrace(tid);
      if trace.Some? {
        exports := exports + [S.TraceOut(Hex(tid), trace.value)];
        ledger := ledger.(discarded := ledger.discarded + [S.Discard(Hex(tid), buffer.Abs().traces[Hex(tid)].logs)]);
        buffer.RemoveTrace(tid);
      }
    }

    method ExportTraceLogs(tid: TraceID)
      requires buffer.Valid()
      modifies this
      ensures buffer.Valid() && Abs() == S.ExportTraceLogs(old(Abs()), Hex(tid))
    {
      var traceLogs, _ := buffer.GetTraceLogs(tid);
      if traceLogs.Some? {
        exports := exports + [S.TraceLogsOut(Hex(tid), traceLogs.value)];
      }
    }

    method ExportMetricWindow(start: int, end: int)
      requires buffer.Valid()
      modifies this, buffer
      ensures buffer.Valid() && Abs() == S.ExportMetricWindow(old(Abs()), start, Upto(end))
    {
      hide Range, OutOfRange, Concat;
      var metrics, _ := buffer.GetMetricsInRange(start, end);
      if |metrics| > 0 {
        var out := MoveAll(metrics);
        exports := exports + [S.MetricsOut(out)];
        ledger := ledger.(raw := ledger.raw + S.MetricSignals(metrics));
        buffer.RemoveMetricsInRange(start, end);
      }
    }

    method ExportLogWindow(start: int, end: int)
      requires buffer.Valid()
      modifies this, buffer
      ensures buffer.Valid() && Abs() == S.ExportLogWindow(old(Abs()), start, Upto(end))
    {
      hide Range, OutOfRange, Concat;
      var logs, _ := buffer.GetLogsInRange(start, end);
      if |logs| > 0 {
        var out := MoveAll(logs);
        exports := exports + [S.LogsOut(out, false)];
        ledger := ledger.(raw := ledger.raw + S.LogSignals(logs));
        buffer.RemoveLogsInRange(start, end);
      }
    }

    method ProcessDecision(d: Decision)
      requires buffer.Valid()
      modifies this, buffer
      ensures buffer.Valid() && Abs() == S.Decide(old(Abs()), d)
    {
      hide S.ExportTrace, S.ExportTraceLogs, S.ExportMetricWindow, S.ExportLogWindow, Hex, Wrap64, Decode, Upto;
      var b := Decode(d.traceId);
      if b.None? || |b.value| != 16 {
        return;
      }
      var tid: TraceID := b.value;
      ExportTrace(tid);
      ExportTraceLogs(tid);
      var start, end := Wrap64(d.eventStart - 5 * S.SECOND), Wrap64(d.eventEnd + 5 * S.SECOND);
      WindowBounds(d);
      ExportMetricWindow(start, end);
      ExportLogWindow(start, end);
    }

    /** One turn of the loop that waits for decisions. */
    method OnDecision()
      requires buffer.Valid() && gossip.Valid()
      modifies this, buffer, gossip
      ensures buffer.Valid() && gossip.Valid()
      ensures var mail := old(gossip.Abs());
              if mail.decisions == [] then Abs() == old(Abs()) && gossip.Abs() == mail
              else
                && Abs() == S.Decide(old(Abs()), mail.decisions[0])
                && gossip.Abs() == mail.(decisions := mail.decisions[1..])
    {
      hide S.Decide;
      if gossip.decisionChan != [] {
        var d := gossip.NextDecision();
        ProcessDecision(d);
      }
    }

    // -------------------------------------------------------------------------
    // Rollups
    // -------------------------------------------------------------------------

    method RollUpMetrics(allMetrics: seq<Metrics>, end: int) returns (ok: bool)
      requires buffer.Valid() && Upto(end) == end && forall ms <- allMetrics :: !MetricRollup.HasCrashed(ms)
      modifies this, buffer
      ensures buffer.Valid() && Abs() == S.RollupMetricsStep(old(Abs()), rollup.enabled, allMetrics, end)
      ensures !old(dead) ==> ok == !dead
    {
      hide Range, OutOfRange, MetricRollup.RolledUp;
      if |allMetrics| > 0 {
        var rolled := rollup.RollupMetrics(allMetrics);
        if rolled.None? {
          dead := true;
          return false;
        }
        exports := exports + [S.MetricsOut(rolled.value)];
        ledger := ledger.(rolledUp := ledger.rolledUp + S.MetricSignals(allMetrics));
        buffer.RemoveMetricsInRange(S.ZERO_TIME, end);
      }
      return true;
    }

    method RollUpLogs(allLogs: seq<Logs>, end: int)
      requires buffer.Valid() && Upto(end) == end
      modifies this, buffer
      ensures buffer.Valid() && Abs() == S.RollupLogsStep(old(Abs()), rollup.enabled, allLogs, end)
    {
      hide Range, OutOfRange;
      if |allLogs| > 0 {
        var rolled := rollup.RollupLogs(allLogs);
        exports := exports + [S.LogsOut(rolled, rollup.currentLevel != Fine && rollup.enabled)];
        ledger := ledger.(rolledUp := ledger.rolledUp + S.LogSignals(allLogs));
        buffer.RemoveLogsInRange(S.ZERO_TIME, end);
      }
    }

    /** In every run that stores only genuine signals the node holds only genuine
        ones. `dead` after a rollup that ends the process. */
    method PerformRollup(now: int)
      requires 0 <= now < TWO_63
      requires buffer.Valid() && !dead && V.HeldOk(Abs(), Genuine())
      modifies this, buffer
      ensures buffer.Valid() && dead == S.Rollup(old(Abs()), rollup.enabled, now).dead
      ensures !dead ==> Abs() == S.Rollup(old(Abs()), rollup.enabled, now)
    {
      hide Range, S.RollupMetricsStep, S.RollupLogsStep, V.HeldOk, Genuine, Wrap64, Upto;
      var end := now - 10 * S.SECOND;
      ZeroInstantReads();
      UptoIsItself(end);
      var start := Wrap64(ZERO_INSTANT);
      ghost var before := Abs();
      var bufferMetrics, _ := buffer.GetMetricsInRange(start, end);
      var bufferLogs, _ := buffer.GetLogsInRange(start, end);
      var allMetrics := bufferMetrics + evictedMetrics;
      AllGenuine(before, end);
      evictedMetrics := [];
      var allLogs := bufferLogs + evictedLogs;
      evictedLogs := [];
      var ok := RollUpMetrics(allMetrics, end);
      if ok {
        RollUpLogs(allLogs, end);
      }
    }

    static lemma AllGenuine(p: S.Proc, end: int)
      requires V.HeldOk(p, Genuine())
      ensures forall ms <- Data(Range(p.buf.metrics, S.ZERO_TIME, end)) + p.evictedMetrics ::
                !MetricRollup.HasCrashed(ms)
    {
      hide Range;
      V.TakenOk(p, end, Genuine());
    }
  }
}
