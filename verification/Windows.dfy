/** What a decision and a rollup take out of the buffer, and what they leave. */
module Windows {
  import opened Int64
  import opened Keyed
  import opened Pdata
  import opened Filter
  import opened Identity
  import opened Live
  import opened Gossip
  import opened Sampler
  import MetricRollup
  import LogRollup

  /** `q` has what `p` had outside the window, and nothing inside. */
  ghost predicate Cleared(p: Plain, q: Plain, lo: int, hi: int) {
    && (forall t :: t in q.metrics <==> t in p.metrics && !(lo <= t.at.ts <= hi))
    && (forall t :: t in q.logs <==> t in p.logs && !(lo <= t.at.ts <= hi))
  }

  lemma OutsideStays<P(!new)>(s: seq<Timed<P>>, lo: int, hi: int)
    ensures forall t :: t in OutOfRange(s, lo, hi) <==> t in s && !(lo <= t.at.ts <= hi)
    ensures Range(s, lo, hi) == [] ==> forall t <- s :: !(lo <= t.at.ts <= hi)
  {
    KeepMembers(Opposite(Within<P>(lo, hi)), s);
    KeepMembers(Within<P>(lo, hi), s);
  }

  /** The batches of metrics, and of untraced logs, that went out. */
  function SentMetrics(xs: seq<Export>): seq<Metrics> {
    if xs == [] then []
    else SentMetrics(xs[..|xs| - 1]) + if xs[|xs| - 1].MetricsOut? then [xs[|xs| - 1].metrics] else []
  }

  function SentLogs(xs: seq<Export>): seq<Logs> {
    if xs == [] then []
    else SentLogs(xs[..|xs| - 1]) + if xs[|xs| - 1].LogsOut? then [xs[|xs| - 1].logs] else []
  }

  lemma OneMoreOut(xs: seq<Export>, x: Export)
    ensures SentMetrics(xs + [x]) == SentMetrics(xs) + if x.MetricsOut? then [x.metrics] else []
    ensures SentLogs(xs + [x]) == SentLogs(xs) + if x.LogsOut? then [x.logs] else []
  {
    assert (xs + [x])[..|xs|] == xs;
  }

  /** One chunk for everything, or none for nothing. */
  function Chunk<T>(xss: seq<seq<T>>): seq<seq<T>> {
    if xss == [] then [] else [Concat(xss)]
  }

  lemma TraceExportsMoveNoSignals(p: Proc, key: string)
    ensures var q := ExportTraceLogs(ExportTrace(p, key), key);
            && q.buf.metrics == p.buf.metrics && q.buf.logs == p.buf.logs && q.ledger.raw == p.ledger.raw
            && SentMetrics(q.exports) == SentMetrics(p.exports) && SentLogs(q.exports) == SentLogs(p.exports)
  {
    hide SentMetrics, SentLogs;
    var q := ExportTrace(p, key);
    if q != p {
      OneMoreOut(p.exports, q.exports[|p.exports|]);
    }
    var r := ExportTraceLogs(q, key);
    if r != q {
      OneMoreOut(q.exports, r.exports[|q.exports|]);
    }
  }

  /** `q` is `p` without the metrics and untraced logs of a window, which have been
      sent as they were, in order of time, in at most one batch of each kind. */
  ghost predicate Takes(p: Proc, q: Proc, lo: int, hi: int) {
    var ms, ls := Data(Range(p.buf.metrics, lo, hi)), Data(Range(p.buf.logs, lo, hi));
    && Cleared(p.buf, q.buf, lo, hi)
    && q.ledger.raw == p.ledger.raw + MetricSignals(ms) + LogSignals(ls)
    && SentMetrics(q.exports) == SentMetrics(p.exports) + Chunk(ms)
    && SentLogs(q.exports) == SentLogs(p.exports) + Chunk(ls)
  }

  lemma WindowTaken(p: Proc, lo: int, hi: int)
    ensures Takes(p, ExportLogWindow(ExportMetricWindow(p, lo, hi), lo, hi), lo, hi)
  {
    hide SentMetrics, SentLogs, Range, OutOfRange, Concat;
    OutsideStays(p.buf.metrics, lo, hi);
    OutsideStays(p.buf.logs, lo, hi);
    var q := ExportMetricWindow(p, lo, hi);
    var r := ExportLogWindow(q, lo, hi);
    if q != p {
      OneMoreOut(p.exports, q.exports[|p.exports|]);
    }
    if r != q {
      OneMoreOut(q.exports, r.exports[|q.exports|]);
    }
    assert MetricSignals([]) == [] && LogSignals([]) == [];
  }

  /** A decision takes the window between its two bounds as the clock reads them. */
  lemma DecisionTakesAWindow(p: Proc, d: Decision)
    requires ParseID(d.traceId).Some?
    ensures Takes(p, Decide(p, d), WindowStart(d), WindowEnd(d))
  {
    hide ExportTrace, ExportTraceLogs, ExportMetricWindow, ExportLogWindow, Hex, ParseID, SentMetrics, SentLogs, Range,
      Concat, WindowStart, WindowEnd;
    var key := Hex(ParseID(d.traceId).value);
    TraceExportsMoveNoSignals(p, key);
    WindowTaken(ExportTraceLogs(ExportTrace(p, key), key), WindowStart(d), WindowEnd(d));
  }

  function EventStart(d: Decision): int {
    d.eventStart - 5_000_000_000
  }

  function EventEnd(d: Decision): int {
    d.eventEnd + 5_000_000_000
  }

  /** The decision takes what was stored from five seconds before its event to five
      seconds after it. */
  ghost predicate TakesEvent(p: Proc, d: Decision) {
    Takes(p, Decide(p, d), EventStart(d), EventEnd(d))
  }

  /** Neither bound wraps around. */
  predicate BoundsFit(d: Decision) {
    -TWO_63 <= EventStart(d) < TWO_63 && -TWO_63 <= EventEnd(d) + 1 < TWO_63
  }

  predicate BothEmpty(d: Decision) {
    EventStart(d) > EventEnd(d) && WindowStart(d) > WindowEnd(d)
  }

  lemma EmptyRange<P(!new)>(s: seq<Timed<P>>, lo: int, hi: int)
    requires lo > hi
    ensures Range(s, lo, hi) == []
  {
    KeepNone(Within<P>(lo, hi), s);
  }

  lemma SameEmptyWindow(p: Proc, q: Proc, a: int, b: int, lo: int, hi: int)
    requires Takes(p, q, a, b) && a > b && lo > hi
    ensures Takes(p, q, lo, hi)
  {
    hide Range, SentMetrics, SentLogs;
    EmptyRange(p.buf.metrics, a, b);
    EmptyRange(p.buf.logs, a, b);
    EmptyRange(p.buf.metrics, lo, hi);
    EmptyRange(p.buf.logs, lo, hi);
  }

  function OneMetricAt(ts: int): Proc {
    START.(buf := EMPTY.(metrics := [Timed(TimeKey(ts, "m_"), [])]))
  }

  lemma OneMetricTells(q: Proc, ts: int, a: int, b: int, lo: int, hi: int)
    requires Takes(OneMetricAt(ts), q, a, b) && (a <= ts <= b) != (lo <= ts <= hi)
    ensures !Takes(OneMetricAt(ts), q, lo, hi)
  {
    hide Range, SentMetrics, SentLogs;
    var t: Timed<Metrics> := Timed(TimeKey(ts, "m_"), []);
    assert t in OneMetricAt(ts).buf.metrics;
    assert t in q.buf.metrics <==> !(a <= ts <= b);
  }

  lemma Apart(a: int, b: int, lo: int, hi: int) returns (ts: int)
    requires !(a == lo && b == hi) && !(a > b && lo > hi)
    ensures (a <= ts <= b) != (lo <= ts <= hi)
  {
    if lo > hi || (a <= b && a < lo) {
      ts := a;
    } else if a > b || b < hi {
      ts := hi;
    } else if lo < a {
      ts := lo;
    } else {
      ts := b;
    }
  }

  /** A decision takes from every buffer exactly the metrics and untraced logs from
      five seconds before the event to five seconds after it, and exports them as
      they are, if and only if neither bound wraps around, or the window is empty
      with and without wrapping. */
  lemma DecisionTakesItsWindow(d: Decision)
    requires ParseID(d.traceId).Some?
    ensures (forall p :: TakesEvent(p, d)) <==> BoundsFit(d) || BothEmpty(d)
  {
    hide Decide, Takes, ParseID, WindowStart, WindowEnd;
    var a, b, lo, hi := WindowStart(d), WindowEnd(d), EventStart(d), EventEnd(d);
    BoundsReadBack(d);
    if BoundsFit(d) || BothEmpty(d) {
      forall p ensures TakesEvent(p, d) {
        DecisionTakesAWindow(p, d);
        if !BoundsFit(d) {
          SameEmptyWindow(p, Decide(p, d), a, b, lo, hi);
        }
      }
    } else {
      var ts := Apart(a, b, lo, hi);
      var p := OneMetricAt(ts);
      DecisionTakesAWindow(p, d);
      OneMetricTells(Decide(p, d), ts, a, b, lo, hi);
      assert !TakesEvent(p, d);
    }
  }

  lemma BoundsReadBack(d: Decision)
    ensures WindowStart(d) == EventStart(d) && WindowEnd(d) == EventEnd(d) <==> BoundsFit(d)
  {
  }

  /** For events between two instants that a timestamp can hold, it comes down to the
      bounds. */
  lemma InstantsNeedFittingBounds(d: Decision)
    requires -TWO_63 <= d.eventStart < TWO_63 && -TWO_63 <= d.eventEnd < TWO_63
    ensures BothEmpty(d) ==> BoundsFit(d)
  {
  }

  lemma RollupMetricsTakes(p: Proc, enabled: bool, ms: seq<Metrics>, end: int)
    requires ms == [] ==> Range(p.buf.metrics, ZERO_TIME, end) == []
    requires !RollupMetricsStep(p, enabled, ms, end).dead
    ensures var q := RollupMetricsStep(p, enabled, ms, end);
            && q == p.(exports := q.exports, buf := p.buf.(metrics := q.buf.metrics), ledger := q.ledger)
            && (forall t :: t in q.buf.metrics <==> t in p.buf.metrics && !(ZERO_TIME <= t.at.ts <= end))
            && q.ledger.rolledUp == p.ledger.rolledUp + MetricSignals(ms)
            && SentLogs(q.exports) == SentLogs(p.exports)
            && if ms == [] then SentMetrics(q.exports) == SentMetrics(p.exports)
               else
                 && MetricRollup.RolledUp(p.level, enabled, ms).Some?
                 && SentMetrics(q.exports) ==
                    SentMetrics(p.exports) + [MetricRollup.RolledUp(p.level, enabled, ms).value]
  {
    hide Range, OutOfRange, MetricRollup.RolledUp, SentMetrics, SentLogs;
    OutsideStays(p.buf.metrics, ZERO_TIME, end);
    var rolled := MetricRollup.RolledUp(p.level, enabled, ms);
    if ms != [] && rolled.Some? {
      OneMoreOut(p.exports, MetricsOut(rolled.value));
    }
    assert MetricSignals([]) == [];
  }

  lemma RollupLogsTakes(p: Proc, enabled: bool, ls: seq<Logs>, end: int)
    requires ls == [] ==> Range(p.buf.logs, ZERO_TIME, end) == []
    ensures var q := RollupLogsStep(p, enabled, ls, end);
            && q == p.(exports := q.exports, buf := p.buf.(logs := q.buf.logs), ledger := q.ledger)
            && (forall t :: t in q.buf.logs <==> t in p.buf.logs && !(ZERO_TIME <= t.at.ts <= end))
            && q.ledger.rolledUp == p.ledger.rolledUp + LogSignals(ls)
            && SentMetrics(q.exports) == SentMetrics(p.exports)
            && SentLogs(q.exports) ==
               SentLogs(p.exports) + if ls == [] then [] else [LogRollup.RolledUpLogs(p.level, enabled, ls)]
  {
    hide Range, OutOfRange, LogRollup.RolledUpLogs, SentMetrics, SentLogs;
    OutsideStays(p.buf.logs, ZERO_TIME, end);
    if ls != [] {
      OneMoreOut(p.exports, LogsOut(LogRollup.RolledUpLogs(p.level, enabled, ls), p.level != Fine && enabled));
    }
    assert LogSignals([]) == [];
  }

  /** A rollup that does not end the process takes everything up to ten seconds ago
      and everything that had been evicted, and nothing else, and sends its rollup
      at the level in force, in at most one batch of each kind. */
  lemma RollupTakesAllThatIsOld(p: Proc, enabled: bool, now: int)
    requires !p.dead && !Rollup(p, enabled, now).dead
    ensures var q, end := Rollup(p, enabled, now), now - 10_000_000_000;
            && Cleared(p.buf, q.buf, ZERO_TIME, end) && q.evictedMetrics == [] && q.evictedLogs == []
            && q.ledger.rolledUp == p.ledger.rolledUp
                 + MetricSignals(Data(Range(p.buf.metrics, ZERO_TIME, end)) + p.evictedMetrics)
                 + LogSignals(Data(Range(p.buf.logs, ZERO_TIME, end)) + p.evictedLogs)
    ensures var q, end := Rollup(p, enabled, now), now - 10_000_000_000;
            var ms := Data(Range(p.buf.metrics, ZERO_TIME, end)) + p.evictedMetrics;
            var ls := Data(Range(p.buf.logs, ZERO_TIME, end)) + p.evictedLogs;
            && SentLogs(q.exports) ==
               SentLogs(p.exports) + (if ls == [] then [] else [LogRollup.RolledUpLogs(p.level, enabled, ls)])
            && if ms == [] then SentMetrics(q.exports) == SentMetrics(p.exports)
               else
                 && MetricRollup.RolledUp(p.level, enabled, ms).Some?
                 && SentMetrics(q.exports) ==
                    SentMetrics(p.exports) + [MetricRollup.RolledUp(p.level, enabled, ms).value]
  {
    hide Range, RollupMetricsStep, RollupLogsStep, MetricRollup.RolledUp, LogRollup.RolledUpLogs, SentMetrics, SentLogs;
    var end := now - 10 * SECOND;
    var ms := Data(Range(p.buf.metrics, ZERO_TIME, end)) + p.evictedMetrics;
    var ls := Data(Range(p.buf.logs, ZERO_TIME, end)) + p.evictedLogs;
    var p' := p.(evictedMetrics := [], evictedLogs := []);
    assert ms == [] ==> |Range(p.buf.metrics, ZERO_TIME, end)| == 0;
    assert ls == [] ==> |Range(p.buf.logs, ZERO_TIME, end)| == 0;
    RollupMetricsTakes(p', enabled, ms, end);
    RollupLogsTakes(RollupMetricsStep(p', enabled, ms, end), enabled, ls, end);
  }

  /** At Fine, or when rollups are off, a rollup never ends the process, and it sends the
      contents of the signals it takes, one after the other, as they are. */
  lemma FineRollupSendsAsIs(p: Proc, enabled: bool, now: int)
    requires !p.dead && (p.level == Fine || !enabled)
    ensures var q, end := Rollup(p, enabled, now), now - 10_000_000_000;
            var ms := Data(Range(p.buf.metrics, ZERO_TIME, end)) + p.evictedMetrics;
            var ls := Data(Range(p.buf.logs, ZERO_TIME, end)) + p.evictedLogs;
            && !q.dead
            && SentMetrics(q.exports) == SentMetrics(p.exports) + (if ms == [] then [] else [Concat(ms)])
            && SentLogs(q.exports) == SentLogs(p.exports) + (if ls == [] then [] else [Concat(ls)])
  {
    hide Range, SentMetrics, SentLogs, Data, Concat, OutOfRange;
    var end := now - 10 * SECOND;
    var ms := Data(Range(p.buf.metrics, ZERO_TIME, end)) + p.evictedMetrics;
    FineNeverClashes(p.level, enabled, ms);
    FineLogsAsTheyAre(p.level, enabled, Data(Range(p.buf.logs, ZERO_TIME, end)) + p.evictedLogs);
    assert SentMetrics(p.exports) + [] == SentMetrics(p.exports) && SentLogs(p.exports) + [] == SentLogs(p.exports);
    RollupTakesAllThatIsOld(p, enabled, now);
  }

  lemma FineNeverClashes(l: Level, enabled: bool, ms: seq<Metrics>)
    requires l == Fine || !enabled
    ensures MetricRollup.RolledUp(l, enabled, ms) == Some(Concat(ms))
  {
  }

  lemma FineLogsAsTheyAre(l: Level, enabled: bool, ls: seq<Logs>)
    requires l == Fine || !enabled
    ensures LogRollup.RolledUpLogs(l, enabled, ls) == Concat(ls)
  {
  }

  function UpTo<P>(end: int): Timed<P> -> bool {
    (t: Timed<P>) => t.at.ts <= end
  }

  /** Whatever was stored since 1970 and is at least ten seconds old is taken, and what
      is younger stays: the lower bound, the zero time, shuts nothing out. */
  lemma RollupTakesEverythingOld(p: Proc, enabled: bool, now: int)
    requires !p.dead && !Rollup(p, enabled, now).dead
    requires (forall t <- p.buf.metrics :: t.at.ts >= 0) && forall t <- p.buf.logs :: t.at.ts >= 0
    ensures var q, end := Rollup(p, enabled, now), now - 10_000_000_000;
            && (forall t :: t in q.buf.metrics <==> t in p.buf.metrics && t.at.ts > end)
            && (forall t :: t in q.buf.logs <==> t in p.buf.logs && t.at.ts > end)
            && q.ledger.rolledUp == p.ledger.rolledUp
                 + MetricSignals(Data(Keep(UpTo(end), p.buf.metrics)) + p.evictedMetrics)
                 + LogSignals(Data(Keep(UpTo(end), p.buf.logs)) + p.evictedLogs)
  {
    hide Rollup, Data, MetricSignals, LogSignals, SentMetrics, SentLogs;
    var end := now - 10_000_000_000;
    RollupTakesAllThatIsOld(p, enabled, now);
    KeepAgrees(Within<Metrics>(ZERO_TIME, end), UpTo<Metrics>(end), p.buf.metrics);
    KeepAgrees(Within<Logs>(ZERO_TIME, end), UpTo<Logs>(end), p.buf.logs);
  }
}
