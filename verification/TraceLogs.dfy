/** How often the logs of a trace go out. */
module TraceLogs {
  import opened Pdata
  import opened Identity
  import opened Traversal
  import opened Live
  import opened Buffer
  import opened Gossip
  import opened Sampler
  import opened Subsequence
  import opened Spans
  import opened Overflow
  import opened TraceLedger
  import MetricRollup
  import LogRollup

  /** The chunks of a trace's logs that were exported. */
  function LogChunks(xs: seq<Export>, k: string): seq<Logs> {
    if xs == [] then []
    else
      var x := xs[|xs| - 1];
      LogChunks(xs[..|xs| - 1], k) + if x.TraceLogsOut? && x.key == k then [x.logs] else []
  }

  /** The step is a decision for the trace, taken while its entry has logs and no
      spans. */
  predicate SendsLogs(p: Proc, s: Step, k: string) {
    && !p.dead && s.ProcessDecision?
    && ParseID(s.d.traceId).Some? && Hex(ParseID(s.d.traceId).value) == k
    && BufferedSpans(p.buf, k) == [] && BufferedLogs(p.buf, k) != []
  }

  /** A stretch of a history. */
  datatype Block = Block(from: int, to: int)

  /** The stretch of the log history that is buffered. */
  function Holding(p: Proc, k: string): Block {
    var h := |Past(p.ledger.logHistory, k)|;
    Block(h - |BufferedLogs(p.buf, k)|, h)
  }

  /** The stretches held whenever logs were sent. */
  ghost function Sendings(steps: seq<Step>, k: string): seq<Block> {
    if steps == [] then []
    else
      var init, s := steps[..|steps| - 1], steps[|steps| - 1];
      Sendings(init, k) + if SendsLogs(Run(init), s, k) then [Holding(Run(init), k)] else []
  }

  /** The chunks are these stretches of the history. */
  ghost predicate ChunksAre(chunks: seq<Logs>, blocks: seq<Block>, h: Logs) {
    && |chunks| == |blocks|
    && forall j | 0 <= j < |blocks| ::
         0 <= blocks[j].from <= blocks[j].to <= |h| && chunks[j] == h[blocks[j].from..blocks[j].to]
  }

  lemma ChunksOfMore(chunks: seq<Logs>, blocks: seq<Block>, h: Logs, more: Logs)
    requires ChunksAre(chunks, blocks, h)
    ensures ChunksAre(chunks, blocks, h + more)
  {
    forall j | 0 <= j < |blocks|
      ensures (h + more)[blocks[j].from..blocks[j].to] == h[blocks[j].from..blocks[j].to]
    {
    }
  }

  lemma OneMoreChunk(xs: seq<Export>, x: Export, k: string)
    ensures LogChunks(xs + [x], k) ==
            if x.TraceLogsOut? && x.key == k then LogChunks(xs, k) + [x.logs] else LogChunks(xs, k)
  {
    assert (xs + [x])[..|xs|] == xs;
  }

  lemma WindowsSendNoChunk(p: Proc, lo: int, hi: int, k: string)
    ensures LogChunks(ExportLogWindow(ExportMetricWindow(p, lo, hi), lo, hi).exports, k) == LogChunks(p.exports, k)
  {
    hide LogChunks, Range, OutOfRange, Concat, MetricSignals, LogSignals;
    var r := ExportMetricWindow(p, lo, hi);
    var s := ExportLogWindow(r, lo, hi);
    if r != p {
      OneMoreChunk(p.exports, r.exports[|p.exports|], k);
    }
    if s != r {
      OneMoreChunk(r.exports, s.exports[|r.exports|], k);
    }
  }

  lemma TraceChunks(p: Proc, key: string, k: string)
    ensures LogChunks(ExportTraceLogs(ExportTrace(p, key), key).exports, k) ==
            if key == k && BufferedSpans(p.buf, k) == [] && BufferedLogs(p.buf, k) != []
            then LogChunks(p.exports, k) + [BufferedLogs(p.buf, k)] else LogChunks(p.exports, k)
  {
    hide LogChunks;
    var q := ExportTrace(p, key);
    if q != p {
      OneMoreChunk(p.exports, q.exports[|p.exports|], k);
    }
    var r := ExportTraceLogs(q, key);
    if r != q {
      OneMoreChunk(q.exports, r.exports[|q.exports|], k);
    }
  }

  lemma DecideChunks(p: Proc, d: Decision, k: string)
    requires !p.dead
    ensures LogChunks(Decide(p, d).exports, k) ==
            if SendsLogs(p, ProcessDecision(d), k) then LogChunks(p.exports, k) + [BufferedLogs(p.buf, k)]
            else LogChunks(p.exports, k)
  {
    hide LogChunks, Hex, ParseID, ExportTrace, ExportTraceLogs, ExportMetricWindow, ExportLogWindow, WindowStart,
      WindowEnd, BufferedSpans, BufferedLogs;
    var t := ParseID(d.traceId);
    if t.Some? {
      var key := Hex(t.value);
      TraceChunks(p, key, k);
      WindowsSendNoChunk(ExportTraceLogs(ExportTrace(p, key), key), WindowStart(d), WindowEnd(d), k);
    }
  }

  lemma RollupChunks(p: Proc, enabled: bool, now: int, k: string)
    ensures LogChunks(Rollup(p, enabled, now).exports, k) == LogChunks(p.exports, k)
  {
    hide LogChunks, Range, OutOfRange, MetricSignals, LogSignals, Data, MetricRollup.RolledUp, LogRollup.RolledUpLogs;
    var end := now - 10 * SECOND;
    var ms := Data(Range(p.buf.metrics, ZERO_TIME, end)) + p.evictedMetrics;
    var ls := Data(Range(p.buf.logs, ZERO_TIME, end)) + p.evictedLogs;
    var q := RollupMetricsStep(p.(evictedMetrics := [], evictedLogs := []), enabled, ms, end);
    if q.exports != p.exports {
      OneMoreChunk(p.exports, q.exports[|p.exports|], k);
    }
    var r := RollupLogsStep(q, enabled, ls, end);
    if r.exports != q.exports {
      OneMoreChunk(q.exports, r.exports[|q.exports|], k);
    }
  }

  lemma StepChunks(p: Proc, s: Step, k: string)
    requires !p.dead
    ensures LogChunks(Next(p, s).exports, k) ==
            if SendsLogs(p, s, k) then LogChunks(p.exports, k) + [BufferedLogs(p.buf, k)] else LogChunks(p.exports, k)
  {
    hide LogChunks, Decide, Rollup, Live.StoreMetric, AddSpansEach, StoreSplit, Evict, Remembered, BufferedLogs,
      BufferedSpans;
    match s
    case ProcessDecision(d) => DecideChunks(p, d, k);
    case PerformRollup(enabled, now) => RollupChunks(p, enabled, now, k);
    case DrainEvicted => DrainSendsNothing(p);
    case _ =>
  }

  lemma DrainSendsNothing(p: Proc)
    ensures DrainOne(p).exports == p.exports
  {
  }

  lemma StepLogHistory(p: Proc, s: Step, t: TraceID)
    requires Legal(p, s) && !p.dead
    ensures Past(p.ledger.logHistory, Hex(t)) <= Past(Next(p, s).ledger.logHistory, Hex(t))
  {
    hide Hex, RowsFor, Remembered, Past, AddSpansEach, StoreSplit, Evict, DrainOne, Decide, Rollup,
      Live.StoreMetric, Unused;
    match s
    case StoreLogs(rows, order, now, os, at, o) =>
      RememberedIsStored(LogID(), p.ledger.logHistory, rows, order, os, t);
    case ProcessDecision(d) => DecisionKeepsLogHistory(p, d);
    case PerformRollup(enabled, now) => RollupLeavesTraces(p, enabled, now);
    case DrainEvicted => DrainHistory(p);
    case _ =>
  }

  lemma DecisionKeepsLogHistory(p: Proc, d: Decision)
    ensures Decide(p, d).ledger.logHistory == p.ledger.logHistory
  {
    hide Hex, ParseID, ExportMetricWindow, ExportLogWindow, FindTrace, FindTraceLogs, WindowStart, WindowEnd;
    if ParseID(d.traceId).Some? {
      var key := Hex(ParseID(d.traceId).value);
      WindowsKeepLogHistory(ExportTraceLogs(ExportTrace(p, key), key), WindowStart(d), WindowEnd(d));
    }
  }

  lemma WindowsKeepLogHistory(p: Proc, lo: int, hi: int)
    ensures ExportLogWindow(ExportMetricWindow(p, lo, hi), lo, hi).ledger.logHistory == p.ledger.logHistory
  {
    hide Range, OutOfRange, Data, Concat, MetricSignals, LogSignals;
  }

  /** Over every run, the chunks of a trace's logs that have gone out are exactly the
      stretches of its log history that were buffered, without spans, whenever a
      decision for it was taken. */
  lemma {:induction false} LogChunksAreStretches(steps: seq<Step>, t: TraceID)
    requires LegalRun(steps)
    ensures ChunksAre(LogChunks(Run(steps).exports, Hex(t)), Sendings(steps, Hex(t)),
                      Past(Run(steps).ledger.logHistory, Hex(t)))
  {
    hide Next, Legal, Hex, SendsLogs, LogChunks, ChunksAre, Past, BufferedLogs, Holding;
    var k := Hex(t);
    if steps == [] {
      NoChunks(k);
    } else {
      var init, s := steps[..|steps| - 1], steps[|steps| - 1];
      var p := Run(init);
      LogChunksAreStretches(init, t);
      if p.dead {
        DeadRests(p, s);
        DeadSendsNothing(p, s, k);
        assert Sendings(init, k) + [] == Sendings(init, k);
      } else {
        EveryTraceIsAccountedFor(init, t);
        StepChunks(p, s, k);
        StepLogHistory(p, s, t);
        ChunksGrow(p, Run(steps), s, Sendings(init, k), k);
      }
    }
  }

  lemma DeadSendsNothing(p: Proc, s: Step, k: string)
    requires p.dead
    ensures !SendsLogs(p, s, k)
  {
  }

  lemma NoChunks(k: string)
    ensures ChunksAre(LogChunks(START.exports, k), [], Past(START.ledger.logHistory, k))
  {
  }

  lemma ChunksGrow(p: Proc, q: Proc, s: Step, blocks: seq<Block>, k: string)
    requires ChunksAre(LogChunks(p.exports, k), blocks, Past(p.ledger.logHistory, k)) && LogBooks(p, k)
    requires LogChunks(q.exports, k) ==
             if SendsLogs(p, s, k) then LogChunks(p.exports, k) + [BufferedLogs(p.buf, k)] else LogChunks(p.exports, k)
    requires Past(p.ledger.logHistory, k) <= Past(q.ledger.logHistory, k)
    ensures ChunksAre(LogChunks(q.exports, k), blocks + if SendsLogs(p, s, k) then [Holding(p, k)] else [],
                      Past(q.ledger.logHistory, k))
  {
    hide LogChunks, SendsLogs, Past, BufferedLogs, Sub, DiscardedLogs, LostLogs;
    hide ChunksAre;
    var h, h' := Past(p.ledger.logHistory, k), Past(q.ledger.logHistory, k);
    assert h' == h + h'[|h|..];
    if SendsLogs(p, s, k) {
      LatestChunk(LogChunks(p.exports, k), blocks, h, BufferedLogs(p.buf, k));
      ChunksOfMore(LogChunks(p.exports, k) + [BufferedLogs(p.buf, k)], blocks + [Holding(p, k)], h, h'[|h|..]);
    } else {
      assert blocks + [] == blocks;
      ChunksOfMore(LogChunks(p.exports, k), blocks, h, h'[|h|..]);
    }
  }

  lemma LatestChunk(chunks: seq<Logs>, blocks: seq<Block>, h: Logs, b: Logs)
    requires ChunksAre(chunks, blocks, h) && |b| <= |h| && h[|h| - |b|..] == b
    ensures ChunksAre(chunks + [b], blocks + [Block(|h| - |b|, |h|)], h)
  {
    assert h[|h| - |b|..|h|] == h[|h| - |b|..];
  }

  /** How many of the stretches cover one record of the history. */
  function Covering(blocks: seq<Block>, i: int): nat {
    if blocks == [] then 0
    else
      var b := blocks[|blocks| - 1];
      Covering(blocks[..|blocks| - 1], i) + if b.from <= i < b.to then 1 else 0
  }

  /** How many decisions for the trace were taken while its entry held this record of
      its log history and no spans. */
  ghost function DecisionsHolding(steps: seq<Step>, k: string, i: int): nat {
    if steps == [] then 0
    else
      var init, s := steps[..|steps| - 1], steps[|steps| - 1];
      var b := Holding(Run(init), k);
      DecisionsHolding(init, k, i) + if SendsLogs(Run(init), s, k) && b.from <= i < b.to then 1 else 0
  }

  /** A record goes out once for each of these decisions. */
  lemma {:induction false} ARecordGoesOutOncePerDecision(steps: seq<Step>, k: string, i: int)
    ensures Covering(Sendings(steps, k), i) == DecisionsHolding(steps, k, i)
  {
    hide SendsLogs, Holding, Run;
    if steps != [] {
      var init, s := steps[..|steps| - 1], steps[|steps| - 1];
      ARecordGoesOutOncePerDecision(init, k, i);
      var before := Sendings(init, k);
      if SendsLogs(Run(init), s, k) {
        assert (before + [Holding(Run(init), k)])[..|before|] == before;
      } else {
        assert before + [] == before;
      }
    }
  }
}
