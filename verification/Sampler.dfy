/** One node as a state machine: buffer, evicted lists, rollup level and exporter,
    and the steps that stores, evictions, decisions, rollups and triggers take. */
module Sampler {
  import opened Int64
  import opened Keyed
  import opened Pdata
  import opened Filter
  import opened Identity
  import opened Traversal
  import opened Live
  import opened Buffer
  import opened Gossip
  import MetricRollup
  import LogRollup

  /** What has been handed to the exporter, before the processing label is put on
      it. `rolled` log exports carry counts. */
  datatype Export =
    | TraceOut(key: string, spans: Traces)
    | TraceLogsOut(key: string, logs: Logs)
    | MetricsOut(metrics: Metrics)
    | LogsOut(logs: Logs, rolled: bool)

  /** Logs that went with the entry of a trace whose spans were exported. */
  datatype Discard = Discard(key: string, logs: Logs)

  /** Where signals went, what was ever stored of each trace, spans and logs, and
      which logs were thrown away with exported traces. */
  datatype Ledger = Ledger(raw: seq<Signal>, rolledUp: seq<Signal>,
                           history: map<string, Traces>, logHistory: map<string, Logs>, discarded: seq<Discard>)

  /** `dead` after a rollup that ends the process. */
  datatype Proc = Proc(buf: Plain, evictedMetrics: seq<Metrics>, evictedLogs: seq<Logs>, level: Level,
                       exports: seq<Export>, dead: bool, ledger: Ledger)

  const SECOND := 1_000_000_000

  /** The nanosecond reading of the zero time, which wraps around. */
  const ZERO_TIME := -6_795_364_578_871_345_152

  const START := Proc(EMPTY, [], [], Fine, [], false, Ledger([], [], map[], map[], []))

  function MetricSignals(ms: seq<Metrics>): (r: seq<Signal>)
    ensures |r| == |ms| && forall i | 0 <= i < |ms| :: r[i] == MetricSignal(ms[i])
  {
    seq(|ms|, i requires 0 <= i < |ms| => MetricSignal(ms[i]))
  }

  function LogSignals(ls: seq<Logs>): (r: seq<Signal>)
    ensures |r| == |ls| && forall i | 0 <= i < |ls| :: r[i] == LogSignal(ls[i])
  {
    seq(|ls|, i requires 0 <= i < |ls| => LogSignal(ls[i]))
  }

  // ---------------------------------------------------------------------------
  // Decisions
  // ---------------------------------------------------------------------------

  function ExportTrace(p: Proc, key: string): Proc {
    var trace := FindTrace(p.buf, key);
    if trace.None? then p
    else
      p.(exports := p.exports + [TraceOut(key, trace.value)],
         buf := p.buf.(traces := p.buf.traces - {key}),
         ledger := p.ledger.(discarded := p.ledger.discarded + [Discard(key, p.buf.traces[key].logs)]))
  }

  function ExportTraceLogs(p: Proc, key: string): Proc {
    var logs := FindTraceLogs(p.buf, key);
    if logs.None? then p else p.(exports := p.exports + [TraceLogsOut(key, logs.value)])
  }

  function ExportMetricWindow(p: Proc, lo: int, hi: int): Proc {
    var ms := Data(Range(p.buf.metrics, lo, hi));
    if ms == [] then p
    else
      p.(exports := p.exports + [MetricsOut(Concat(ms))],
         buf := p.buf.(metrics := OutOfRange(p.buf.metrics, lo, hi)),
         ledger := p.ledger.(raw := p.ledger.raw + MetricSignals(ms)))
  }

  function ExportLogWindow(p: Proc, lo: int, hi: int): Proc {
    var ls := Data(Range(p.buf.logs, lo, hi));
    if ls == [] then p
    else
      p.(exports := p.exports + [LogsOut(Concat(ls), false)],
         buf := p.buf.(logs := OutOfRange(p.buf.logs, lo, hi)),
         ledger := p.ledger.(raw := p.ledger.raw + LogSignals(ls)))
  }

  /** Nanosecond readings wrap around. */
  function WindowStart(d: Decision): int {
    Wrap64(d.eventStart - 5 * SECOND)
  }

  function WindowEnd(d: Decision): int {
    Upto(d.eventEnd + 5 * SECOND)
  }

  function Decide(p: Proc, d: Decision): Proc {
    var t := ParseID(d.traceId);
    if t.None? then p
    else
      var key, lo, hi := Hex(t.value), WindowStart(d), WindowEnd(d);
      ExportLogWindow(ExportMetricWindow(ExportTraceLogs(ExportTrace(p, key), key), lo, hi), lo, hi)
  }

  // ---------------------------------------------------------------------------
  // Rollups
  // ---------------------------------------------------------------------------

  /** `allMetrics` is what the buffer gave and what had been evicted. */
  ghost function RollupMetricsStep(p: Proc, enabled: bool, allMetrics: seq<Metrics>, end: int): Proc {
    if allMetrics == [] then p
    else
      var rolled := MetricRollup.RolledUp(p.level, enabled, allMetrics);
      if rolled.None? then p.(dead := true)
      else
        p.(exports := p.exports + [MetricsOut(rolled.value)],
           buf := p.buf.(metrics := OutOfRange(p.buf.metrics, ZERO_TIME, end)),
           ledger := p.ledger.(rolledUp := p.ledger.rolledUp + MetricSignals(allMetrics)))
  }

  function RollupLogsStep(p: Proc, enabled: bool, allLogs: seq<Logs>, end: int): Proc {
    if allLogs == [] then p
    else
      var rolled := LogRollup.RolledUpLogs(p.level, enabled, allLogs);
      p.(exports := p.exports + [LogsOut(rolled, p.level != Fine && enabled)],
         buf := p.buf.(logs := OutOfRange(p.buf.logs, ZERO_TIME, end)),
         ledger := p.ledger.(rolledUp := p.ledger.rolledUp + LogSignals(allLogs)))
  }

  /** Everything older than ten seconds, together with what was evicted. */
  ghost function Rollup(p: Proc, enabled: bool, now: int): Proc {
    var end := now - 10 * SECOND;
    var allMetrics := Data(Range(p.buf.metrics, ZERO_TIME, end)) + p.evictedMetrics;
    var allLogs := Data(Range(p.buf.logs, ZERO_TIME, end)) + p.evictedLogs;
    var q := RollupMetricsStep(p.(evictedMetrics := [], evictedLogs := []), enabled, allMetrics, end);
    if q.dead then p.(dead := true) else RollupLogsStep(q, enabled, allLogs, end)
  }

  // ---------------------------------------------------------------------------
  // Evicted signals
  // ---------------------------------------------------------------------------

  function HandleEvicted(p: Proc, sig: Signal): Proc {
    match sig
    case MetricSignal(m) => p.(evictedMetrics := p.evictedMetrics + [m])
    case LogSignal(l) => p.(evictedLogs := p.evictedLogs + [l])
  }

  /** The consumer of the channel takes its oldest signal, if there is one. */
  function DrainOne(p: Proc): Proc {
    if p.buf.chan == [] then p
    else HandleEvicted(p.(buf := p.buf.(chan := p.buf.chan[1..])), p.buf.chan[0])
  }

  // ---------------------------------------------------------------------------
  // Triggers
  // ---------------------------------------------------------------------------

  /** The level a trigger asks for, if it asks for one. */
  function Asked(t: TriggerEvent): Option<Level> {
    if t.name != "high_load" then None
    else if t.value > t.threshold then Some(Coarse)
    else Some(Fine)
  }

  function Obey(p: Proc, t: TriggerEvent): Proc {
    if Asked(t).None? then p else p.(level := Asked(t).value)
  }

  // ---------------------------------------------------------------------------
  // Stores
  // ---------------------------------------------------------------------------

  /** The items the cache has accepted for each trace, added up. */
  function Remembered<T>(id: T -> TraceID, h: map<string, seq<ResourceOf<T>>>, rows: seq<Row<T>>, order: seq<TraceID>,
      os: seq<SetOutcome>): map<string, seq<ResourceOf<T>>>
    requires |os| == |order|
  {
    if order == [] then h
    else
      var n := |order| - 1;
      var g, k := Remembered(id, h, rows, order[..n], os[..n]), Hex(order[n]);
      if os[n].ok then g[k := Past(g, k) + RowsFor(id, rows, order[n])] else g
  }

  function Past<T>(h: map<string, seq<T>>, k: string): seq<T> {
    if k in h then h[k] else []
  }

  datatype Step =
    | StoreMetric(at: TimeKey, metrics: Metrics, o: SetOutcome)
    | StoreSpans(spans: seq<Row<Span>>, order: seq<TraceID>, now: int, os: seq<SetOutcome>)
    | StoreLogs(records: seq<Row<LogRecord>>, order: seq<TraceID>, now: int, os: seq<SetOutcome>,
                at: TimeKey, o: SetOutcome)
    | EvictKey(key: string)
    | DrainEvicted
    | ProcessDecision(d: Decision)
    | PerformRollup(enabled: bool, now: int)
    | SetLevel(level: Level)

  ghost function Next(p: Proc, s: Step): Proc {
    if p.dead then p
    else
      match s
      case StoreMetric(at, m, o) => p.(buf := Live.StoreMetric(p.buf, at, m, o))
      case StoreSpans(rows, order, now, os) =>
        if |os| != |order| then p
        else p.(buf := AddSpansEach(p.buf, rows, order, now, os),
                ledger := p.ledger.(history := Remembered(SpanID(), p.ledger.history, rows, order, os)))
      case StoreLogs(rows, order, now, os, at, o) =>
        if |os| != |order| then p
        else p.(buf := StoreSplit(p.buf, rows, order, now, os, at, o),
                ledger := p.ledger.(logHistory := Remembered(LogID(), p.ledger.logHistory, rows, order, os)))
      case EvictKey(key) => p.(buf := Evict(p.buf, key))
      case DrainEvicted => DrainOne(p)
      case ProcessDecision(d) => Decide(p, d)
      case PerformRollup(enabled, now) => Rollup(p, enabled, now)
      case SetLevel(level) => p.(level := level)
  }

  ghost predicate Unused(p: Plain, key: string) {
    && (forall t <- p.metrics :: t.at.key != key)
    && (forall t <- p.logs :: t.at.key != key)
  }

  /** Generated keys are fresh and carry their prefix; a batch's traces are walked
      in some order, with one write each. */
  ghost predicate Legal(p: Proc, s: Step) {
    match s
    case StoreMetric(at, _, _) => HasPrefix(at.key, "m_") && Unused(p.buf, at.key)
    case StoreSpans(rows, order, _, os) => |os| == |order| && IterationOrder(SpanID(), rows, order)
    case StoreLogs(rows, order, _, os, at, _) =>
      |os| == |order| && IterationOrder(LogID(), rows, order) && HasPrefix(at.key, "l_") && Unused(p.buf, at.key)
    case _ => true
  }

  ghost function Through(p: Proc, steps: seq<Step>): Proc {
    if steps == [] then p else Next(Through(p, steps[..|steps| - 1]), steps[|steps| - 1])
  }

  ghost function Run(steps: seq<Step>): Proc {
    if steps == [] then START else Next(Run(steps[..|steps| - 1]), steps[|steps| - 1])
  }

  ghost predicate LegalRun(steps: seq<Step>) {
    steps != [] ==> LegalRun(steps[..|steps| - 1]) && Legal(Run(steps[..|steps| - 1]), steps[|steps| - 1])
  }
}
