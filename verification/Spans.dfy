/** What becomes of the spans stored for a trace. */
module Spans {
  import opened Keyed
  import opened Pdata
  import opened Identity
  import opened Traversal
  import opened Live
  import opened Buffer
  import opened Gossip
  import opened Sampler
  import opened Splitting
  import opened Subsequence
  import MetricRollup
  import LogRollup

  function BufferedSpans(p: Plain, k: string): Traces {
    if k in p.traces then p.traces[k].spans else []
  }

  /** The chunks exported for a trace, joined. */
  function ExportedSpans(xs: seq<Export>, k: string): Traces {
    if xs == [] then []
    else
      var x := xs[|xs| - 1];
      ExportedSpans(xs[..|xs| - 1], k) + if x.TraceOut? && x.key == k then x.spans else []
  }

  /** Of the spans the cache accepted for a trace, the latest are still buffered,
      and what was exported comes, in order, from before those. */
  ghost predicate SpanSafe(p: Proc, k: string) {
    var h, b := Past(p.ledger.history, k), BufferedSpans(p.buf, k);
    && |b| <= |h| && h[|h| - |b|..] == b
    && Sub(ExportedSpans(p.exports, k), h[..|h| - |b|])
  }

  /** Nothing has gone missing either. */
  ghost predicate SpanExact(p: Proc, k: string) {
    ExportedSpans(p.exports, k) + BufferedSpans(p.buf, k) == Past(p.ledger.history, k)
  }

  // ---------------------------------------------------------------------------
  // One write or removal at a time
  // ---------------------------------------------------------------------------

  /** `q` has the same spans buffered for `k` as `p`, or none any more. */
  ghost predicate SameOrGone(p: Plain, q: Plain, k: string) {
    BufferedSpans(q, k) == BufferedSpans(p, k) || BufferedSpans(q, k) == []
  }

  lemma EvictedSpans(p: Plain, key: string, k: string)
    ensures SameOrGone(p, Evict(p, key), k)
    ensures key != k ==> BufferedSpans(Evict(p, key), k) == BufferedSpans(p, k)
  {
    hide Find, Without;
  }

  lemma {:induction false} RoomForSpans(p: Plain, key: string, victims: seq<string>, k: string)
    ensures SameOrGone(p, MakeRoom(p, key, victims), k)
    ensures k == key || k !in victims ==> BufferedSpans(MakeRoom(p, key, victims), k) == BufferedSpans(p, k)
  {
    hide Evict, BufferedSpans;
    if victims != [] {
      var init, v := victims[..|victims| - 1], victims[|victims| - 1];
      assert victims == init + [v];
      RoomForSpans(p, key, init, k);
      if v != key {
        EvictedSpans(MakeRoom(p, key, init), v, k);
      }
    }
  }

  /** A write that may not lose what it replaces, nor push out `k`. */
  predicate Spares(key: string, o: SetOutcome, k: string) {
    if key == k then o.ok || !o.lost else k !in o.victims
  }

  lemma AddedSpans(p: Plain, key: string, spans: Traces, now: int, o: SetOutcome, k: string)
    ensures var b, b' := BufferedSpans(p, k), BufferedSpans(AddSpans(p, key, spans, now, o), k);
            && (k == key && o.ok ==> b' == b + spans)
            && (k != key || !o.ok ==> b' == b || b' == [])
            && (Spares(key, o, k) && (k != key || !o.ok) ==> b' == b)
  {
    hide MakeRoom;
    RoomForSpans(p, key, o.victims, k);
  }

  lemma AddedLogs(p: Plain, key: string, logs: Logs, now: int, o: SetOutcome, k: string)
    ensures SameOrGone(p, AddLogs(p, key, logs, now, o), k)
    ensures Spares(key, o, k) ==> BufferedSpans(AddLogs(p, key, logs, now, o), k) == BufferedSpans(p, k)
  {
    hide MakeRoom;
    RoomForSpans(p, key, o.victims, k);
  }

  // ---------------------------------------------------------------------------
  // Steps
  // ---------------------------------------------------------------------------

  /** Only the buffered spans change, and only by going away. */
  lemma SafeWhenGone(p: Proc, q: Proc, k: string)
    requires SpanSafe(p, k) && SameOrGone(p.buf, q.buf, k)
    requires q.ledger.history == p.ledger.history && ExportedSpans(q.exports, k) == ExportedSpans(p.exports, k)
    ensures SpanSafe(q, k)
  {
    hide Sub;
    var h, b := Past(p.ledger.history, k), BufferedSpans(p.buf, k);
    assert h == h[..|h| - |b|] + b;
    assert h[..|h|] == h && h[|h|..] == [];
    SubOfMore(ExportedSpans(p.exports, k), h[..|h| - |b|], b);
  }

  lemma {:induction false} AddSpansSafe(p: Proc, rows: seq<Row<Span>>, order: seq<TraceID>, now: int,
      os: seq<SetOutcome>, k: string)
    requires SpanSafe(p, k) && |os| == |order|
    ensures SpanSafe(p.(buf := AddSpansEach(p.buf, rows, order, now, os),
                        ledger := p.ledger.(history := Remembered(SpanID(), p.ledger.history, rows, order, os))), k)
    decreases |order|
  {
    hide Hex, RowsFor, AddSpans, BufferedSpans, Sub, ExportedSpans;
    if order != [] {
      var n := |order| - 1;
      AddSpansSafe(p, rows, order[..n], now, os[..n], k);
      var q := p.(buf := AddSpansEach(p.buf, rows, order[..n], now, os[..n]),
                  ledger := p.ledger.(history := Remembered(SpanID(), p.ledger.history, rows, order[..n], os[..n])));
      var key, spans := Hex(order[n]), RowsFor(SpanID(), rows, order[n]);
      OneWriteSafe(q, key, spans, now, os[n], k);
    }
  }

  lemma OneWriteSafe(q: Proc, key: string, spans: Traces, now: int, o: SetOutcome, k: string)
    requires SpanSafe(q, k)
    ensures var g := q.ledger.history;
            SpanSafe(q.(buf := AddSpans(q.buf, key, spans, now, o),
                        ledger := q.ledger.(history := if o.ok then g[key := Past(g, key) + spans] else g)), k)
  {
    hide AddSpans, BufferedSpans, Sub, ExportedSpans;
    AddedSpans(q.buf, key, spans, now, o, k);
    var g := q.ledger.history;
    var r := q.(buf := AddSpans(q.buf, key, spans, now, o),
                ledger := q.ledger.(history := if o.ok then g[key := Past(g, key) + spans] else g));
    if k == key && o.ok {
      var h, b := Past(g, k), BufferedSpans(q.buf, k);
      var h' := Past(r.ledger.history, k);
      assert h' == h + spans;
      assert h'[|h'| - |b + spans|..] == b + spans;
      assert h'[..|h'| - |b + spans|] == h[..|h| - |b|];
    } else {
      assert Past(r.ledger.history, k) == Past(g, k);
      SafeWhenGone(q, r.(ledger := q.ledger), k);
    }
  }

  lemma {:induction false} AddLogsSpans(p: Plain, rows: seq<Row<LogRecord>>, order: seq<TraceID>, now: int,
      os: seq<SetOutcome>, k: string)
    requires |os| == |order|
    ensures SameOrGone(p, AddLogsEach(p, rows, order, now, os), k)
    ensures (forall n | 0 <= n < |order| :: Spares(Hex(order[n]), os[n], k)) ==>
              BufferedSpans(AddLogsEach(p, rows, order, now, os), k) == BufferedSpans(p, k)
  {
    hide Hex, RowsFor, AddLogs, BufferedSpans;
    if order != [] {
      var n := |order| - 1;
      AddLogsSpans(p, rows, order[..n], now, os[..n], k);
      AddedLogs(AddLogsEach(p, rows, order[..n], now, os[..n]), Hex(order[n]), RowsFor(LogID(), rows, order[n]), now,
        os[n], k);
    }
  }

  lemma StoreSplitSpans(p: Plain, rows: seq<Row<LogRecord>>, order: seq<TraceID>, now: int, os: seq<SetOutcome>,
      at: TimeKey, o: SetOutcome, k: string)
    requires |os| == |order|
    ensures SameOrGone(p, StoreSplit(p, rows, order, now, os, at, o), k)
    ensures (forall n | 0 <= n < |order| :: Spares(Hex(order[n]), os[n], k)) && k !in o.victims ==>
              BufferedSpans(StoreSplit(p, rows, order, now, os, at, o), k) == BufferedSpans(p, k)
  {
    hide Hex, RowsFor, AddLogsEach, MakeRoom;
    AddLogsSpans(p, rows, order, now, os, k);
    RoomForSpans(AddLogsEach(p, rows, order, now, os), at.key, o.victims, k);
  }

  lemma OneMore(xs: seq<Export>, x: Export, k: string)
    ensures ExportedSpans(xs + [x], k) == ExportedSpans(xs, k) + if x.TraceOut? && x.key == k then x.spans else []
  {
    assert (xs + [x])[..|xs|] == xs;
  }

  /** Exporting a trace moves its buffered spans to the exported ones. */
  lemma ExportTraceMoves(p: Proc, key: string, k: string)
    ensures var q := ExportTrace(p, key);
            && q.ledger.history == p.ledger.history
            && (if k == key then
                  && BufferedSpans(q.buf, k) == []
                  && ExportedSpans(q.exports, k) == ExportedSpans(p.exports, k) + BufferedSpans(p.buf, k)
                else
                  && BufferedSpans(q.buf, k) == BufferedSpans(p.buf, k)
                  && ExportedSpans(q.exports, k) == ExportedSpans(p.exports, k))
  {
    var trace := FindTrace(p.buf, key);
    if trace.Some? {
      OneMore(p.exports, TraceOut(key, trace.value), k);
    }
  }

  lemma DecideMoves(p: Proc, d: Decision, k: string)
    ensures var q := Decide(p, d);
            && q.ledger.history == p.ledger.history
            && (if ParseID(d.traceId) != None && Hex(ParseID(d.traceId).value) == k then
                  && BufferedSpans(q.buf, k) == []
                  && ExportedSpans(q.exports, k) == ExportedSpans(p.exports, k) + BufferedSpans(p.buf, k)
                else
                  && BufferedSpans(q.buf, k) == BufferedSpans(p.buf, k)
                  && ExportedSpans(q.exports, k) == ExportedSpans(p.exports, k))
  {
    hide Hex, ParseID, ExportedSpans, Range, OutOfRange, ExportTrace, WindowStart, WindowEnd;
    var t := ParseID(d.traceId);
    if t.Some? {
      ExportTraceMoves(p, Hex(t.value), k);
      OthersKeepSpans(ExportTrace(p, Hex(t.value)), d, Hex(t.value), k);
    }
  }

  lemma OthersKeepSpans(p: Proc, d: Decision, key: string, k: string)
    ensures var lo, hi := WindowStart(d), WindowEnd(d);
            var q := ExportLogWindow(ExportMetricWindow(ExportTraceLogs(p, key), lo, hi), lo, hi);
            && q.ledger.history == p.ledger.history && q.buf.traces == p.buf.traces
            && ExportedSpans(q.exports, k) == ExportedSpans(p.exports, k)
  {
    hide ExportedSpans, Range, OutOfRange, Concat, MetricSignals, LogSignals, WindowStart, WindowEnd;
    var lo, hi := WindowStart(d), WindowEnd(d);
    var q := ExportTraceLogs(p, key);
    var r := ExportMetricWindow(q, lo, hi);
    var s := ExportLogWindow(r, lo, hi);
    if q != p {
      OneMore(p.exports, q.exports[|p.exports|], k);
    }
    if r != q {
      OneMore(q.exports, r.exports[|q.exports|], k);
    }
    if s != r {
      OneMore(r.exports, s.exports[|r.exports|], k);
    }
  }

  lemma RollupKeepsSpans(p: Proc, enabled: bool, now: int, k: string)
    ensures var q := Rollup(p, enabled, now);
            && q.ledger.history == p.ledger.history && q.buf.traces == p.buf.traces
            && ExportedSpans(q.exports, k) == ExportedSpans(p.exports, k)
  {
    hide ExportedSpans, Range, OutOfRange, MetricSignals, LogSignals, Data, MetricRollup.RolledUp,
      LogRollup.RolledUpLogs;
    var end := now - 10 * SECOND;
    var ms := Data(Range(p.buf.metrics, ZERO_TIME, end)) + p.evictedMetrics;
    var ls := Data(Range(p.buf.logs, ZERO_TIME, end)) + p.evictedLogs;
    var p' := p.(evictedMetrics := [], evictedLogs := []);
    var q := RollupMetricsStep(p', enabled, ms, end);
    if q.exports != p.exports {
      OneMore(p.exports, q.exports[|p.exports|], k);
    }
    var r := RollupLogsStep(q, enabled, ls, end);
    if r.exports != q.exports {
      OneMore(q.exports, r.exports[|q.exports|], k);
    }
  }

  lemma SafeWhenMoved(p: Proc, q: Proc, k: string)
    requires SpanSafe(p, k) && BufferedSpans(q.buf, k) == [] && q.ledger.history == p.ledger.history
    requires ExportedSpans(q.exports, k) == ExportedSpans(p.exports, k) + BufferedSpans(p.buf, k)
    ensures SpanSafe(q, k)
  {
    hide Sub, BufferedSpans, ExportedSpans;
    var h, b := Past(p.ledger.history, k), BufferedSpans(p.buf, k);
    assert h == h[..|h| - |b|] + b;
    SubOfBoth(ExportedSpans(p.exports, k), h[..|h| - |b|], b);
    assert h[..|h|] == h && h[|h|..] == [];
  }

  lemma StepSafe(p: Proc, s: Step, k: string)
    requires SpanSafe(p, k)
    ensures SpanSafe(Next(p, s), k)
  {
    hide SpanSafe, ExportedSpans, BufferedSpans, MakeRoom, AddSpansEach, StoreSplit, Remembered, Evict, Decide,
      Rollup, Hex, ParseID;
    if p.dead {
      return;
    }
    match s
    case StoreMetric(at, m, o) =>
      RoomForSpans(p.buf, at.key, o.victims, k);
      SameTracesSameSpans(MakeRoom(p.buf, at.key, o.victims), Next(p, s).buf, k);
      SafeWhenGone(p, Next(p, s), k);
    case StoreSpans(rows, order, now, os) =>
      if |os| == |order| {
        AddSpansSafe(p, rows, order, now, os, k);
      }
    case StoreLogs(rows, order, now, os, at, o) =>
      if |os| == |order| {
        StoreSplitSpans(p.buf, rows, order, now, os, at, o, k);
        SafeWhenGone(p, Next(p, s), k);
      }
    case EvictKey(key) =>
      EvictedSpans(p.buf, key, k);
      SafeWhenGone(p, Next(p, s), k);
    case DrainEvicted =>
      SameTracesSameSpans(p.buf, Next(p, s).buf, k);
      SafeWhenGone(p, Next(p, s), k);
    case ProcessDecision(d) =>
      DecideMoves(p, d, k);
      var q := Next(p, s);
      if ParseID(d.traceId) != None && Hex(ParseID(d.traceId).value) == k {
        SafeWhenMoved(p, q, k);
      } else {
        SafeWhenGone(p, q, k);
      }
    case PerformRollup(enabled, now) =>
      RollupKeepsSpans(p, enabled, now, k);
      SameTracesSameSpans(p.buf, Next(p, s).buf, k);
      SafeWhenGone(p, Next(p, s), k);
    case SetLevel(level) =>
      SafeWhenGone(p, Next(p, s), k);
  }

  lemma SameTracesSameSpans(p: Plain, q: Plain, k: string)
    requires q.traces == p.traces
    ensures BufferedSpans(q, k) == BufferedSpans(p, k)
  {
  }

  /** Over every run, whatever is evicted, lost or decided twice, the spans
      exported for a trace are some of those stored for it, in order, none of them
      twice, and none of them still buffered. */
  lemma {:induction false} SpansExportedAtMostOnce(steps: seq<Step>, k: string)
    ensures SpanSafe(Run(steps), k)
  {
    hide Next;
    if steps != [] {
      SpansExportedAtMostOnce(steps[..|steps| - 1], k);
      StepSafe(Run(steps[..|steps| - 1]), steps[|steps| - 1], k);
    }
  }

  /** Each exported span has a place of its own in the history, before the buffered
      ones. */
  lemma ExportedSpansHavePlaces(p: Proc, k: string)
    requires SpanSafe(p, k)
    ensures var h := Past(p.ledger.history, k);
            HavePositions(ExportedSpans(p.exports, k), h[..|h| - |BufferedSpans(p.buf, k)|])
  {
    hide ExportedSpans, BufferedSpans, Sub, Past, Positions;
    var h := Past(p.ledger.history, k);
    var at := SubPicksPositions(ExportedSpans(p.exports, k), h[..|h| - |BufferedSpans(p.buf, k)|]);
  }

  /** In numbers: no span is exported or buffered more often than it was stored,
      both together. */
  lemma NoMoreOutThanIn(p: Proc, k: string)
    requires SpanSafe(p, k)
    ensures multiset(ExportedSpans(p.exports, k)) + multiset(BufferedSpans(p.buf, k))
            <= multiset(Past(p.ledger.history, k))
  {
    hide ExportedSpans, BufferedSpans, Sub, Past;
    var h, b := Past(p.ledger.history, k), BufferedSpans(p.buf, k);
    SubMembers(ExportedSpans(p.exports, k), h[..|h| - |b|]);
    assert h == h[..|h| - |b|] + b;
  }

  // ---------------------------------------------------------------------------
  // When nothing is lost
  // ---------------------------------------------------------------------------

  /** The step neither evicts the trace nor loses it in a write. */
  ghost predicate SparesTrace(s: Step, k: string) {
    match s
    case StoreMetric(at, _, o) => k == at.key || k !in o.victims
    case StoreSpans(_, order, _, os) =>
      |os| == |order| ==> forall n | 0 <= n < |order| :: Spares(Hex(order[n]), os[n], k)
    case StoreLogs(_, order, _, os, _, o) =>
      |os| == |order| ==> (forall n | 0 <= n < |order| :: Spares(Hex(order[n]), os[n], k)) && k !in o.victims
    case EvictKey(key) => key != k
    case _ => true
  }

  lemma {:induction false} AddSpansExact(p: Proc, rows: seq<Row<Span>>, order: seq<TraceID>, now: int,
      os: seq<SetOutcome>, k: string)
    requires SpanExact(p, k) && |os| == |order|
    requires forall n | 0 <= n < |order| :: Spares(Hex(order[n]), os[n], k)
    ensures SpanExact(p.(buf := AddSpansEach(p.buf, rows, order, now, os),
                         ledger := p.ledger.(history := Remembered(SpanID(), p.ledger.history, rows, order, os))), k)
    decreases |order|
  {
    hide Hex, RowsFor, AddSpans, BufferedSpans, ExportedSpans;
    if order != [] {
      var n := |order| - 1;
      AddSpansExact(p, rows, order[..n], now, os[..n], k);
      var q := AddSpansEach(p.buf, rows, order[..n], now, os[..n]);
      AddedSpans(q, Hex(order[n]), RowsFor(SpanID(), rows, order[n]), now, os[n], k);
    }
  }

  lemma StepExact(p: Proc, s: Step, k: string)
    requires SpanExact(p, k) && SparesTrace(s, k)
    ensures SpanExact(Next(p, s), k)
  {
    hide ExportedSpans, BufferedSpans, MakeRoom, AddSpansEach, StoreSplit, Remembered, Evict, Decide, Rollup, Hex,
      ParseID, Spares;
    if p.dead {
      return;
    }
    match s
    case StoreMetric(at, m, o) =>
      RoomForSpans(p.buf, at.key, o.victims, k);
      SameTracesSameSpans(MakeRoom(p.buf, at.key, o.victims), Next(p, s).buf, k);
    case StoreSpans(rows, order, now, os) =>
      if |os| == |order| {
        AddSpansExact(p, rows, order, now, os, k);
      }
    case StoreLogs(rows, order, now, os, at, o) =>
      if |os| == |order| {
        StoreSplitSpans(p.buf, rows, order, now, os, at, o, k);
      }
    case EvictKey(key) => EvictedSpans(p.buf, key, k);
    case DrainEvicted => SameTracesSameSpans(p.buf, Next(p, s).buf, k);
    case ProcessDecision(d) => DecideMoves(p, d, k);
    case PerformRollup(enabled, now) =>
      RollupKeepsSpans(p, enabled, now, k);
      SameTracesSameSpans(p.buf, Next(p, s).buf, k);
    case SetLevel(level) =>
  }

  /** In a run that spares a trace, the exported chunks followed by the buffered
      spans are everything stored for it, in order. */
  lemma {:induction false} ChunksThenBufferAreHistory(steps: seq<Step>, k: string)
    requires forall s <- steps :: SparesTrace(s, k)
    ensures SpanExact(Run(steps), k)
  {
    hide Next, SparesTrace;
    if steps != [] {
      var init, s := steps[..|steps| - 1], steps[|steps| - 1];
      assert forall x <- init :: x in steps;
      ChunksThenBufferAreHistory(init, k);
      StepExact(Run(init), s, k);
    }
  }

  // ---------------------------------------------------------------------------
  // Everything received
  // ---------------------------------------------------------------------------

  /** The spans of a trace in the batches a run has stored, in traversal order. */
  function Received(steps: seq<Step>, t: TraceID): Traces {
    if steps == [] then []
    else
      var s := steps[|steps| - 1];
      Received(steps[..|steps| - 1], t) + if s.StoreSpans? then RowsFor(SpanID(), s.spans, t) else []
  }

  /** The write of this trace succeeded. */
  predicate Accepted(order: seq<TraceID>, os: seq<SetOutcome>, t: TraceID)
    requires |os| == |order|
  {
    if order == [] then false
    else
      var n := |order| - 1;
      (order[n] == t && os[n].ok) || Accepted(order[..n], os[..n], t)
  }

  lemma {:induction false} AllAccepted(order: seq<TraceID>, os: seq<SetOutcome>, t: TraceID)
    requires |os| == |order|
    ensures Accepted(order, os, t) ==> t in order
    ensures (forall o <- os :: o.ok) ==> (Accepted(order, os, t) <==> t in order)
  {
    if order != [] {
      var n := |order| - 1;
      assert order == order[..n] + [order[n]] && os[n] in os;
      AllAccepted(order[..n], os[..n], t);
    }
  }

  /** The history of a trace grows by its items exactly when its write succeeds. */
  lemma {:induction false} RememberedIsStored<T>(id: T -> TraceID, h: map<string, seq<ResourceOf<T>>>,
      rows: seq<Row<T>>, order: seq<TraceID>, os: seq<SetOutcome>, t: TraceID)
    requires |os| == |order| && NoRepeats(order)
    ensures Past(Remembered(id, h, rows, order, os), Hex(t)) ==
            Past(h, Hex(t)) + if Accepted(order, os, t) then RowsFor(id, rows, t) else []
  {
    hide Hex, RowsFor;
    if order != [] {
      var n := |order| - 1;
      RememberedIsStored(id, h, rows, order[..n], os[..n], t);
      AllAccepted(order[..n], os[..n], t);
      if t != order[n] {
        DistinctHex(t, order[n]);
      }
    }
  }

  predicate WritesSpans(s: Step) {
    s.StoreSpans? ==> forall o <- s.os :: o.ok
  }

  lemma RollupHistory(p: Proc, enabled: bool, now: int)
    ensures Rollup(p, enabled, now).ledger.history == p.ledger.history
  {
    RollupKeepsSpans(p, enabled, now, "");
  }

  lemma HistoryGrows(p: Proc, s: Step, t: TraceID)
    requires (s.StoreSpans? ==> Legal(p, s)) && WritesSpans(s) && !p.dead && !IsEmptyID(t)
    ensures Past(Next(p, s).ledger.history, Hex(t)) ==
            Past(p.ledger.history, Hex(t)) + if s.StoreSpans? then RowsFor(SpanID(), s.spans, t) else []
  {
    hide Hex, RowsFor, Remembered, Past, AddSpansEach, StoreSplit, Evict, DrainOne, Decide, Rollup;
    match s
    case StoreSpans(rows, order, now, os) =>
      RememberedIsStored(SpanID(), p.ledger.history, rows, order, os, t);
      AllAccepted(order, os, t);
      MentionedIffFound(SpanID(), rows, t);
    case ProcessDecision(d) => DecideMoves(p, d, "");
    case PerformRollup(enabled, now) => RollupHistory(p, enabled, now);
    case DrainEvicted => DrainHistory(p);
    case _ =>
  }

  lemma DrainHistory(p: Proc)
    ensures DrainOne(p).ledger == p.ledger
  {
  }

  lemma StaysDead(p: Proc, s: Step)
    requires p.dead
    ensures Next(p, s).dead
  {
  }

  lemma {:induction false} HistoryIsReceived(steps: seq<Step>, t: TraceID)
    requires LegalRun(steps) && !Run(steps).dead && !IsEmptyID(t) && forall s <- steps :: WritesSpans(s)
    ensures Past(Run(steps).ledger.history, Hex(t)) == Received(steps, t)
  {
    hide Next, Legal, Hex, RowsFor, WritesSpans, IsEmptyID;
    if steps != [] {
      var init, s := steps[..|steps| - 1], steps[|steps| - 1];
      assert steps == init + [s];
      if Run(init).dead {
        StaysDead(Run(init), s);
      } else {
        HistoryIsReceived(init, t);
        HistoryGrows(Run(init), s, t);
      }
    }
  }

  /** With every write accepted and the trace never evicted, everything a node has
      received for a trace is what it has exported, chunk by chunk, followed by
      what it still buffers. */
  lemma NothingOfATraceIsLost(steps: seq<Step>, t: TraceID)
    requires LegalRun(steps) && !Run(steps).dead && !IsEmptyID(t)
    requires forall s <- steps :: WritesSpans(s) && SparesTrace(s, Hex(t))
    ensures ExportedSpans(Run(steps).exports, Hex(t)) + BufferedSpans(Run(steps).buf, Hex(t)) == Received(steps, t)
  {
    hide Run, LegalRun, Hex, SparesTrace, WritesSpans;
    ChunksThenBufferAreHistory(steps, Hex(t));
    HistoryIsReceived(steps, t);
  }

  // ---------------------------------------------------------------------------
  // The logs of a trace
  // ---------------------------------------------------------------------------

  function ExportedTraceLogs(xs: seq<Export>, k: string): Logs {
    if xs == [] then []
    else
      var x := xs[|xs| - 1];
      ExportedTraceLogs(xs[..|xs| - 1], k) + if x.TraceLogsOut? && x.key == k then x.logs else []
  }

  lemma OneMoreLogs(xs: seq<Export>, x: Export, k: string)
    ensures ExportedTraceLogs(xs + [x], k) ==
            ExportedTraceLogs(xs, k) + if x.TraceLogsOut? && x.key == k then x.logs else []
  {
    assert (xs + [x])[..|xs|] == xs;
  }

  lemma WindowsExportNoTraceLogs(p: Proc, lo: int, hi: int, k: string)
    ensures var q := ExportLogWindow(ExportMetricWindow(p, lo, hi), lo, hi);
            ExportedTraceLogs(q.exports, k) == ExportedTraceLogs(p.exports, k) && q.buf.traces == p.buf.traces
  {
    hide ExportedTraceLogs, Range, OutOfRange, Concat, MetricSignals, LogSignals;
    var r := ExportMetricWindow(p, lo, hi);
    var s := ExportLogWindow(r, lo, hi);
    if r != p {
      OneMoreLogs(p.exports, r.exports[|p.exports|], k);
    }
    if s != r {
      OneMoreLogs(r.exports, s.exports[|r.exports|], k);
    }
  }

  lemma TraceExports(p: Proc, key: string)
    ensures var q, e := ExportTraceLogs(ExportTrace(p, key), key), EntryAt(p.buf, key, 0);
            && ExportedTraceLogs(q.exports, key) ==
               ExportedTraceLogs(p.exports, key) + (if e.spans == [] then e.logs else [])
            && (key in q.buf.traces <==> key in p.buf.traces && e.spans == [])
            && (key in q.buf.traces ==> q.buf.traces[key] == e)
  {
    hide ExportedTraceLogs;
    var q := ExportTrace(p, key);
    if q != p {
      OneMoreLogs(p.exports, q.exports[|p.exports|], key);
    }
    var r := ExportTraceLogs(q, key);
    if r != q {
      OneMoreLogs(q.exports, r.exports[|q.exports|], key);
    }
  }

  /** A decision removes a trace's entry before it looks for the trace's logs: they
      are exported exactly when the entry has no spans, and then they stay. */
  lemma LogsGoOutOnlyWithoutSpans(p: Proc, d: Decision, t: TraceID)
    requires ParseID(d.traceId) == Some(t)
    ensures var key, q := Hex(t), Decide(p, d);
            var e := EntryAt(p.buf, key, 0);
            && ExportedTraceLogs(q.exports, key) ==
               ExportedTraceLogs(p.exports, key) + (if e.spans == [] then e.logs else [])
            && (key in q.buf.traces <==> key in p.buf.traces && e.spans == [])
            && (key in q.buf.traces ==> q.buf.traces[key] == e)
  {
    hide Hex, ParseID, ExportTrace, ExportTraceLogs, ExportMetricWindow, ExportLogWindow, ExportedTraceLogs,
      WindowStart, WindowEnd;
    var key := Hex(t);
    TraceExports(p, key);
    WindowsExportNoTraceLogs(ExportTraceLogs(ExportTrace(p, key), key), WindowStart(d), WindowEnd(d), key);
  }

  lemma EmptiedWindow<P(!new)>(s: seq<Timed<P>>, lo: int, hi: int)
    ensures Range(OutOfRange(s, lo, hi), lo, hi) == []
  {
    var w := Within<P>(lo, hi);
    KeepMembers(Opposite(w), s);
    KeepNone(w, OutOfRange(s, lo, hi));
  }

  lemma WindowsEmptied(p: Proc, lo: int, hi: int)
    ensures var q := ExportLogWindow(ExportMetricWindow(p, lo, hi), lo, hi);
            Range(q.buf.metrics, lo, hi) == [] && Range(q.buf.logs, lo, hi) == []
  {
    hide OutOfRange, Range, Concat;
    EmptiedWindow(p.buf.metrics, lo, hi);
    EmptiedWindow(p.buf.logs, lo, hi);
  }

  lemma EmptyWindows(p: Proc, lo: int, hi: int)
    requires Range(p.buf.metrics, lo, hi) == [] && Range(p.buf.logs, lo, hi) == []
    ensures ExportLogWindow(ExportMetricWindow(p, lo, hi), lo, hi) == p
  {
    hide OutOfRange, Range, Concat;
  }

  /** Gossip may deliver a decision twice. The second time changes nothing unless
      the trace's entry has logs but no spans: those go out again. */
  lemma DuplicateDecisionIsHarmless(p: Proc, d: Decision)
    ensures Decide(Decide(p, d), d) == Decide(p, d) <==>
            (ParseID(d.traceId).Some? ==>
              var e := EntryAt(p.buf, Hex(ParseID(d.traceId).value), 0); e.spans != [] || e.logs == [])
  {
    hide Hex, ParseID, ExportMetricWindow, ExportLogWindow, ExportedTraceLogs, WindowStart, WindowEnd, Range;
    var t := ParseID(d.traceId);
    if t.Some? {
      var key, lo, hi := Hex(t.value), WindowStart(d), WindowEnd(d);
      var q := Decide(p, d);
      var mid := ExportTraceLogs(ExportTrace(p, key), key);
      TraceExports(p, key);
      WindowsEmptied(mid, lo, hi);
      WindowsExportNoTraceLogs(mid, lo, hi, key);
      var r := ExportTraceLogs(ExportTrace(q, key), key);
      assert r == q || r == q.(exports := q.exports + [TraceLogsOut(key, EntryAt(p.buf, key, 0).logs)]);
      EmptyWindows(r, lo, hi);
      assert Decide(q, d) == r;
      assert |q.exports + [TraceLogsOut(key, EntryAt(p.buf, key, 0).logs)]| == |q.exports| + 1;
    }
  }
}
