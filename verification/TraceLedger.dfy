/** Everything that was ever stored for a trace, spans and logs, accounted for:
    exported or thrown away by decisions, lost with an evicted entry, or buffered. */
module TraceLedger {
  import opened Pdata
  import opened Identity
  import opened Traversal
  import opened Live
  import opened Buffer
  import opened Gossip
  import opened Sampler
  import opened SignalLedger
  import opened Subsequence
  import opened Spans
  import opened Overflow
  import MetricRollup
  import LogRollup

  // ---------------------------------------------------------------------------
  // One account
  // ---------------------------------------------------------------------------

  /** Of the history `h`, `b` is the latest part; `out` comes in order from before it;
      and what is neither is lost. */
  ghost predicate Account<T>(h: seq<T>, b: seq<T>, out: seq<T>, lost: seq<T>) {
    && |b| <= |h| && h[|h| - |b|..] == b && Sub(out, h[..|h| - |b|])
    && |out| + |lost| + |b| == |h| && multiset(out) + multiset(lost) + multiset(b) == multiset(h)
  }

  lemma AccountGrows<T>(h: seq<T>, b: seq<T>, out: seq<T>, lost: seq<T>, more: seq<T>)
    requires Account(h, b, out, lost)
    ensures Account(h + more, b + more, out, lost)
  {
    hide Sub;
    assert (h + more)[|h| - |b|..] == b + more;
    assert (h + more)[..|h| - |b|] == h[..|h| - |b|];
  }

  lemma AccountMoves<T>(h: seq<T>, b: seq<T>, out: seq<T>, lost: seq<T>)
    requires Account(h, b, out, lost)
    ensures Account(h, [], out + b, lost)
  {
    hide Sub;
    assert h == h[..|h| - |b|] + b && h[..|h|] == h && h[|h|..] == [];
    SubOfBoth(out, h[..|h| - |b|], b);
  }

  lemma AccountLoses<T>(h: seq<T>, b: seq<T>, out: seq<T>, lost: seq<T>)
    requires Account(h, b, out, lost)
    ensures Account(h, [], out, lost + b)
  {
    hide Sub;
    assert h == h[..|h| - |b|] + b && h[..|h|] == h && h[|h|..] == [];
    SubOfMore(out, h[..|h| - |b|], b);
  }

  lemma {:induction false} SubOfSameLength<T>(a: seq<T>, b: seq<T>)
    requires Sub(a, b) && |a| >= |b|
    ensures a == b
    decreases |b|
  {
    if b != [] {
      if a[|a| - 1] == b[|b| - 1] && Sub(a[..|a| - 1], b[..|b| - 1]) {
        SubOfSameLength(a[..|a| - 1], b[..|b| - 1]);
        assert a == a[..|a| - 1] + [a[|a| - 1]] && b == b[..|b| - 1] + [b[|b| - 1]];
      } else {
        SubIsNoLonger(a, b[..|b| - 1]);
      }
    }
  }

  lemma {:induction false} SubIsNoLonger<T>(a: seq<T>, b: seq<T>)
    requires Sub(a, b)
    ensures |a| <= |b|
    decreases |b|
  {
    if a != [] {
      if a[|a| - 1] == b[|b| - 1] && Sub(a[..|a| - 1], b[..|b| - 1]) {
        SubIsNoLonger(a[..|a| - 1], b[..|b| - 1]);
      } else {
        SubIsNoLonger(a, b[..|b| - 1]);
      }
    }
  }

  /** What went out followed by what is left is everything exactly when nothing is
      lost. */
  lemma AccountIsExactIffNothingLost<T>(h: seq<T>, b: seq<T>, out: seq<T>, lost: seq<T>)
    requires Account(h, b, out, lost)
    ensures out + b == h <==> lost == []
  {
    if lost == [] {
      SubOfSameLength(out, h[..|h| - |b|]);
    }
  }

  // ---------------------------------------------------------------------------
  // The accounts of a trace
  // ---------------------------------------------------------------------------

  function BufferedLogs(p: Plain, k: string): Logs {
    if k in p.traces then p.traces[k].logs else []
  }

  function LostSpans(xs: seq<LostEntry>, k: string): Traces {
    if xs == [] then []
    else
      var x := xs[|xs| - 1];
      LostSpans(xs[..|xs| - 1], k) + if x.key == k then x.entry.spans else []
  }

  function LostLogs(xs: seq<LostEntry>, k: string): Logs {
    if xs == [] then []
    else
      var x := xs[|xs| - 1];
      LostLogs(xs[..|xs| - 1], k) + if x.key == k then x.entry.logs else []
  }

  function DiscardedLogs(xs: seq<Discard>, k: string): Logs {
    if xs == [] then []
    else
      var x := xs[|xs| - 1];
      DiscardedLogs(xs[..|xs| - 1], k) + if x.key == k then x.logs else []
  }

  ghost predicate SpanBooks(p: Proc, k: string) {
    Account(Past(p.ledger.history, k), BufferedSpans(p.buf, k), ExportedSpans(p.exports, k), LostSpans(p.buf.lost, k))
  }

  ghost predicate LogBooks(p: Proc, k: string) {
    Account(Past(p.ledger.logHistory, k), BufferedLogs(p.buf, k), DiscardedLogs(p.ledger.discarded, k),
      LostLogs(p.buf.lost, k))
  }

  // ---------------------------------------------------------------------------
  // What happens to one entry
  // ---------------------------------------------------------------------------

  ghost predicate Rests(p: Plain, q: Plain, k: string) {
    && BufferedSpans(q, k) == BufferedSpans(p, k) && LostSpans(q.lost, k) == LostSpans(p.lost, k)
    && BufferedLogs(q, k) == BufferedLogs(p, k) && LostLogs(q.lost, k) == LostLogs(p.lost, k)
  }

  ghost predicate Gone(p: Plain, q: Plain, k: string) {
    && BufferedSpans(q, k) == [] && LostSpans(q.lost, k) == LostSpans(p.lost, k) + BufferedSpans(p, k)
    && BufferedLogs(q, k) == [] && LostLogs(q.lost, k) == LostLogs(p.lost, k) + BufferedLogs(p, k)
  }

  ghost predicate RestsOrGone(p: Plain, q: Plain, k: string) {
    Rests(p, q, k) || Gone(p, q, k)
  }

  lemma RestsOrGoneTwice(p: Plain, q: Plain, r: Plain, k: string)
    requires RestsOrGone(p, q, k) && RestsOrGone(q, r, k)
    ensures RestsOrGone(p, r, k)
    ensures Rests(p, q, k) && Rests(q, r, k) ==> Rests(p, r, k)
    ensures Gone(p, q, k) || (Rests(p, q, k) && Gone(q, r, k)) ==> Gone(p, r, k)
  {
    hide BufferedSpans, BufferedLogs, LostSpans, LostLogs;
  }

  lemma OneMoreLost(xs: seq<LostEntry>, x: LostEntry, k: string)
    ensures LostSpans(xs + [x], k) == LostSpans(xs, k) + if x.key == k then x.entry.spans else []
    ensures LostLogs(xs + [x], k) == LostLogs(xs, k) + if x.key == k then x.entry.logs else []
  {
    assert (xs + [x])[..|xs|] == xs;
  }

  lemma LoseIsGone(p: Plain, key: string, k: string)
    ensures key == k ==> Gone(p, Lose(p, key), k)
    ensures key != k ==> Rests(p, Lose(p, key), k)
  {
    hide LostSpans, LostLogs;
    if key in p.traces {
      OneMoreLost(p.lost, LostEntry(key, p.traces[key]), k);
    }
  }

  lemma EvictedEntry(p: Plain, key: string, k: string)
    ensures RestsOrGone(p, Evict(p, key), k)
    ensures key != k || Alive(p, k) ==> Rests(p, Evict(p, key), k)
    ensures key == k && !Alive(p, k) ==> Gone(p, Evict(p, key), k)
  {
    hide Find, Without, LostSpans, LostLogs, Lose;
    LoseIsGone(p, key, k);
  }

  lemma {:induction false} RoomEntry(p: Plain, key: string, victims: seq<string>, k: string)
    requires Named(p) && !Alive(p, k)
    ensures RestsOrGone(p, MakeRoom(p, key, victims), k)
    ensures k == key || k !in victims ==> Rests(p, MakeRoom(p, key, victims), k)
    ensures k != key && k in victims ==> Gone(p, MakeRoom(p, key, victims), k)
    ensures Named(MakeRoom(p, key, victims)) && !Alive(MakeRoom(p, key, victims), k)
  {
    hide Evict, Rests, Gone, Named, Alive;
    if victims == [] {
      NothingHappens(p, k);
    } else {
      var init, v := victims[..|victims| - 1], victims[|victims| - 1];
      var q := MakeRoom(p, key, init);
      assert victims == init + [v];
      RoomEntry(p, key, init, k);
      if v != key {
        EvictConserves(q, v);
        EvictedEntry(q, v, k);
        StaysUnlisted(q, v, k);
        RestsOrGoneTwice(p, q, Evict(q, v), k);
      }
    }
  }

  lemma NothingHappens(p: Plain, k: string)
    ensures Rests(p, p, k)
  {
  }

  lemma StaysUnlisted(p: Plain, key: string, k: string)
    requires Named(p) && !Alive(p, k)
    ensures !Alive(Evict(p, key), k)
  {
    hide Find, Without, Named;
    WithoutFinds(p.metrics, key, k);
    WithoutFinds(p.logs, key, k);
  }

  /** A write of another entry, or of this one. */
  lemma WrittenEntry(p: Plain, key: string, e: TraceEntry, o: SetOutcome, k: string)
    requires Named(p) && !Alive(p, k)
    ensures var q := SetTrace(p, key, e, o);
            && Named(q) && !Alive(q, k)
            && (key != k ==> RestsOrGone(p, q, k) && (if k in o.victims then Gone(p, q, k) else Rests(p, q, k)))
            && (key == k && o.ok ==>
                  && k in q.traces && q.traces[k] == e
                  && LostSpans(q.lost, k) == LostSpans(p.lost, k) && LostLogs(q.lost, k) == LostLogs(p.lost, k))
            && (key == k && !o.ok ==> if o.lost then Gone(p, q, k) else Rests(p, q, k))
  {
    hide MakeRoom, LostSpans, LostLogs, Named, Find;
    RoomEntry(p, key, o.victims, k);
    SetTraceConserves(p, key, e, o);
    var q := MakeRoom(p, key, o.victims);
    LoseIsGone(q, key, k);
  }

  /** An ordinary trace key is nobody else's name. */
  lemma TraceKeyIsFree(p: Plain, t: TraceID)
    requires Named(p)
    ensures !Alive(p, Hex(t))
  {
    TraceKeyNotAlive(p, t);
  }

  // ---------------------------------------------------------------------------
  // Steps
  // ---------------------------------------------------------------------------

  ghost predicate Books(p: Proc, k: string) {
    SpanBooks(p, k) && LogBooks(p, k)
  }

  /** The ledgers outside the buffer say the same about `k`. */
  ghost predicate SameLedgers(p: Proc, q: Proc, k: string) {
    && Past(q.ledger.history, k) == Past(p.ledger.history, k)
    && Past(q.ledger.logHistory, k) == Past(p.ledger.logHistory, k)
    && ExportedSpans(q.exports, k) == ExportedSpans(p.exports, k)
    && DiscardedLogs(q.ledger.discarded, k) == DiscardedLogs(p.ledger.discarded, k)
  }

  lemma BooksAfterEviction(p: Proc, q: Proc, k: string)
    requires Books(p, k) && SameLedgers(p, q, k) && RestsOrGone(p.buf, q.buf, k)
    ensures Books(q, k)
  {
    hide Account, Past, ExportedSpans, DiscardedLogs, BufferedSpans, BufferedLogs, LostSpans, LostLogs;
    AccountLoses(Past(p.ledger.history, k), BufferedSpans(p.buf, k), ExportedSpans(p.exports, k),
      LostSpans(p.buf.lost, k));
    AccountLoses(Past(p.ledger.logHistory, k), BufferedLogs(p.buf, k), DiscardedLogs(p.ledger.discarded, k),
      LostLogs(p.buf.lost, k));
  }

  /** One write of spans, with its entry in the history. */
  function WroteSpans(p: Proc, key: string, spans: Traces, now: int, o: SetOutcome): Proc {
    var g := p.ledger.history;
    p.(buf := AddSpans(p.buf, key, spans, now, o),
       ledger := p.ledger.(history := if o.ok then g[key := Past(g, key) + spans] else g))
  }

  lemma SpanWriteBooks(p: Proc, key: string, spans: Traces, now: int, o: SetOutcome, k: string)
    requires Books(p, k) && Named(p.buf) && !Alive(p.buf, k)
    ensures var q := WroteSpans(p, key, spans, now, o); Books(q, k) && Named(q.buf) && !Alive(q.buf, k)
  {
    hide Account, ExportedSpans, DiscardedLogs, LostSpans, LostLogs, SetTrace, Named, Alive;
    var e := EntryAt(p.buf, key, now);
    var q := WroteSpans(p, key, spans, now, o);
    WrittenEntry(p.buf, key, e.(spans := e.spans + spans), o, k);
    if key == k && o.ok {
      AccountGrows(Past(p.ledger.history, k), BufferedSpans(p.buf, k), ExportedSpans(p.exports, k),
        LostSpans(p.buf.lost, k), spans);
    } else {
      BooksAfterEviction(p, q, k);
    }
  }

  /** One write of logs, with its entry in the history. */
  function WroteLogs(p: Proc, key: string, logs: Logs, now: int, o: SetOutcome): Proc {
    var g := p.ledger.logHistory;
    p.(buf := AddLogs(p.buf, key, logs, now, o),
       ledger := p.ledger.(logHistory := if o.ok then g[key := Past(g, key) + logs] else g))
  }

  lemma LogWriteBooks(p: Proc, key: string, logs: Logs, now: int, o: SetOutcome, k: string)
    requires Books(p, k) && Named(p.buf) && !Alive(p.buf, k)
    ensures var q := WroteLogs(p, key, logs, now, o); Books(q, k) && Named(q.buf) && !Alive(q.buf, k)
  {
    hide Account, ExportedSpans, DiscardedLogs, LostSpans, LostLogs, SetTrace, Named, Alive;
    var e := EntryAt(p.buf, key, now);
    var q := WroteLogs(p, key, logs, now, o);
    WrittenEntry(p.buf, key, e.(logs := e.logs + logs), o, k);
    if key == k && o.ok {
      AccountGrows(Past(p.ledger.logHistory, k), BufferedLogs(p.buf, k), DiscardedLogs(p.ledger.discarded, k),
        LostLogs(p.buf.lost, k), logs);
    } else {
      BooksAfterEviction(p, q, k);
    }
  }

  function WroteSpanBatch(p: Proc, rows: seq<Row<Span>>, order: seq<TraceID>, now: int, os: seq<SetOutcome>): Proc
    requires |os| == |order|
  {
    p.(buf := AddSpansEach(p.buf, rows, order, now, os),
       ledger := p.ledger.(history := Remembered(SpanID(), p.ledger.history, rows, order, os)))
  }

  lemma SpanBatchSnoc(p: Proc, rows: seq<Row<Span>>, order: seq<TraceID>, now: int, os: seq<SetOutcome>)
    requires |os| == |order| && order != []
    ensures var n := |order| - 1;
            WroteSpanBatch(p, rows, order, now, os) ==
            WroteSpans(WroteSpanBatch(p, rows, order[..n], now, os[..n]), Hex(order[n]),
              RowsFor(SpanID(), rows, order[n]), now, os[n])
  {
    hide AddSpans, RowsFor, Hex, Past;
  }

  lemma {:induction false} SpanBatchBooks(p: Proc, rows: seq<Row<Span>>, order: seq<TraceID>, now: int,
      os: seq<SetOutcome>, k: string)
    requires Books(p, k) && Named(p.buf) && !Alive(p.buf, k) && |os| == |order|
    ensures var q := WroteSpanBatch(p, rows, order, now, os); Books(q, k) && Named(q.buf) && !Alive(q.buf, k)
  {
    hide Books, Named, Alive, WroteSpans, Hex, RowsFor;
    if order == [] {
      assert WroteSpanBatch(p, rows, order, now, os) == p;
    } else {
      var n := |order| - 1;
      SpanBatchBooks(p, rows, order[..n], now, os[..n], k);
      SpanBatchSnoc(p, rows, order, now, os);
      SpanWriteBooks(WroteSpanBatch(p, rows, order[..n], now, os[..n]), Hex(order[n]),
        RowsFor(SpanID(), rows, order[n]), now, os[n], k);
    }
  }

  function WroteLogBatch(p: Proc, rows: seq<Row<LogRecord>>, order: seq<TraceID>, now: int, os: seq<SetOutcome>): Proc
    requires |os| == |order|
  {
    p.(buf := AddLogsEach(p.buf, rows, order, now, os),
       ledger := p.ledger.(logHistory := Remembered(LogID(), p.ledger.logHistory, rows, order, os)))
  }

  lemma LogBatchSnoc(p: Proc, rows: seq<Row<LogRecord>>, order: seq<TraceID>, now: int, os: seq<SetOutcome>)
    requires |os| == |order| && order != []
    ensures var n := |order| - 1;
            WroteLogBatch(p, rows, order, now, os) ==
            WroteLogs(WroteLogBatch(p, rows, order[..n], now, os[..n]), Hex(order[n]), RowsFor(LogID(), rows, order[n]),
              now, os[n])
  {
    hide AddLogs, RowsFor, Hex, Past;
  }

  lemma {:induction false} LogBatchBooks(p: Proc, rows: seq<Row<LogRecord>>, order: seq<TraceID>, now: int,
      os: seq<SetOutcome>, k: string)
    requires Books(p, k) && Named(p.buf) && !Alive(p.buf, k) && |os| == |order|
    ensures var q := WroteLogBatch(p, rows, order, now, os); Books(q, k) && Named(q.buf) && !Alive(q.buf, k)
  {
    hide Books, Named, Alive, WroteLogs, Hex, RowsFor;
    if order == [] {
      assert WroteLogBatch(p, rows, order, now, os) == p;
    } else {
      var n := |order| - 1;
      LogBatchBooks(p, rows, order[..n], now, os[..n], k);
      LogBatchSnoc(p, rows, order, now, os);
      LogWriteBooks(WroteLogBatch(p, rows, order[..n], now, os[..n]), Hex(order[n]), RowsFor(LogID(), rows, order[n]),
        now, os[n], k);
    }
  }

  /** Only metrics, untraced logs, the channel and the ledgers of signals change. */
  lemma ElsewhereRests(p: Plain, q: Plain, k: string)
    requires q.traces == p.traces && q.lost == p.lost
    ensures Rests(p, q, k)
  {
  }

  lemma TimeLogsRest(p: Plain, at: TimeKey, l: Logs, o: SetOutcome, k: string)
    requires Named(p) && !Alive(p, k)
    ensures RestsOrGone(p, Live.StoreTimeLogs(p, at, l, o), k)
  {
    hide MakeRoom, Rests, Gone, Named, Alive;
    var q := MakeRoom(p, at.key, o.victims);
    RoomEntry(p, at.key, o.victims, k);
    ElsewhereRests(q, Live.StoreTimeLogs(p, at, l, o), k);
    RestsOrGoneTwice(p, q, Live.StoreTimeLogs(p, at, l, o), k);
  }

  lemma MetricRests(p: Plain, at: TimeKey, m: Metrics, o: SetOutcome, k: string)
    requires Named(p) && !Alive(p, k)
    ensures RestsOrGone(p, Live.StoreMetric(p, at, m, o), k)
  {
    hide MakeRoom, Rests, Gone, Named, Alive;
    var q := MakeRoom(p, at.key, o.victims);
    RoomEntry(p, at.key, o.victims, k);
    ElsewhereRests(q, Live.StoreMetric(p, at, m, o), k);
    RestsOrGoneTwice(p, q, Live.StoreMetric(p, at, m, o), k);
  }

  lemma SplitBooks(p: Proc, s: Step, k: string)
    requires s.StoreLogs? && |s.os| == |s.order| && !p.dead
    requires Books(p, k) && Named(p.buf) && !Alive(p.buf, k)
    ensures Books(Next(p, s), k)
  {
    hide Books, Named, Alive, AddLogsEach, Remembered, Live.StoreTimeLogs, RestsOrGone, RowsFor;
    var q := WroteLogBatch(p, s.records, s.order, s.now, s.os);
    LogBatchBooks(p, s.records, s.order, s.now, s.os, k);
    var l := RowsFor(LogID(), s.records, NO_TRACE);
    if l != [] {
      TimeLogsRest(q.buf, s.at, l, s.o, k);
      BooksAfterEviction(q, Next(p, s), k);
    }
  }

  lemma OneMoreDiscarded(xs: seq<Discard>, x: Discard, k: string)
    ensures DiscardedLogs(xs + [x], k) == if x.key == k then DiscardedLogs(xs, k) + x.logs else DiscardedLogs(xs, k)
  {
    assert (xs + [x])[..|xs|] == xs;
  }

  /** A decision that finds spans moves them to the exports and the logs beside them
      to the discarded ones. */
  lemma ExportTraceBooks(p: Proc, key: string, k: string)
    requires Books(p, k)
    ensures Books(ExportTrace(p, key), k)
  {
    hide Account, ExportedSpans, DiscardedLogs, LostSpans, LostLogs;
    var q := ExportTrace(p, key);
    ExportTraceMoves(p, key, k);
    var trace := FindTrace(p.buf, key);
    if trace.Some? {
      OneMoreDiscarded(p.ledger.discarded, Discard(key, p.buf.traces[key].logs), k);
      if key == k {
        AccountMoves(Past(p.ledger.history, k), BufferedSpans(p.buf, k), ExportedSpans(p.exports, k),
          LostSpans(p.buf.lost, k));
        AccountMoves(Past(p.ledger.logHistory, k), BufferedLogs(p.buf, k), DiscardedLogs(p.ledger.discarded, k),
          LostLogs(p.buf.lost, k));
      }
    }
  }

  lemma WindowBooks(p: Proc, key: string, lo: int, hi: int, k: string)
    requires Books(p, k)
    ensures Books(ExportLogWindow(ExportMetricWindow(ExportTraceLogs(p, key), lo, hi), lo, hi), k)
  {
    hide Account, ExportedSpans, Range, OutOfRange, Concat, MetricSignals, LogSignals;
    var q := ExportTraceLogs(p, key);
    var r := ExportMetricWindow(q, lo, hi);
    var s := ExportLogWindow(r, lo, hi);
    if q != p {
      OneMore(p.exports, q.exports[|p.exports|], k);
    }
    if r != q {
      OneMore(q.exports, r.exports[|q.exports|], k);
    }
    if s != r {
      OneMore(r.exports, s.exports[|r.exports|], k);
    }
    assert ExportedSpans(s.exports, k) == ExportedSpans(p.exports, k);
  }

  lemma DecideBooks(p: Proc, d: Decision, k: string)
    requires Books(p, k)
    ensures Books(Decide(p, d), k)
  {
    hide Books, Hex, ParseID, ExportTrace, ExportTraceLogs, ExportMetricWindow, ExportLogWindow, WindowStart, WindowEnd;
    var t := ParseID(d.traceId);
    if t.Some? {
      ExportTraceBooks(p, Hex(t.value), k);
      WindowBooks(ExportTrace(p, Hex(t.value)), Hex(t.value), WindowStart(d), WindowEnd(d), k);
    }
  }

  lemma RollupBooks(p: Proc, enabled: bool, now: int, k: string)
    requires Books(p, k)
    ensures Books(Rollup(p, enabled, now), k)
  {
    hide Account, Rollup, ExportedSpans, DiscardedLogs, LostSpans, LostLogs;
    RollupKeepsSpans(p, enabled, now, k);
    RollupLeavesTraces(p, enabled, now);
  }

  lemma RollupLeavesTraces(p: Proc, enabled: bool, now: int)
    ensures var q := Rollup(p, enabled, now);
            && q.buf.traces == p.buf.traces && q.buf.lost == p.buf.lost
            && q.ledger.logHistory == p.ledger.logHistory && q.ledger.discarded == p.ledger.discarded
  {
    hide Range, OutOfRange, MetricSignals, LogSignals, Data, MetricRollup.RolledUp, LogRollup.RolledUpLogs;
  }

  lemma StepBooks(p: Proc, s: Step, k: string)
    requires Books(p, k) && Named(p.buf) && !Alive(p.buf, k) && !p.dead && Legal(p, s)
    ensures Books(Next(p, s), k)
  {
    hide Books, Named, Alive, RestsOrGone, Live.StoreMetric, AddSpansEach, StoreSplit, Evict, Decide, Rollup,
      Remembered, IterationOrder, Unused;
    match s
    case StoreMetric(at, m, o) =>
      MetricRests(p.buf, at, m, o, k);
      BooksAfterEviction(p, Next(p, s), k);
    case StoreSpans(rows, order, now, os) => SpanBatchBooks(p, rows, order, now, os, k);
    case StoreLogs(_, _, _, _, _, _) => SplitBooks(p, s, k);
    case EvictKey(key) =>
      EvictedEntry(p.buf, key, k);
      RestsIsEnough(p.buf, Next(p, s).buf, k);
      BooksAfterEviction(p, Next(p, s), k);
    case DrainEvicted =>
      ElsewhereRests(p.buf, Next(p, s).buf, k);
      RestsIsEnough(p.buf, Next(p, s).buf, k);
      BooksAfterEviction(p, Next(p, s), k);
    case ProcessDecision(d) => DecideBooks(p, d, k);
    case PerformRollup(enabled, now) => RollupBooks(p, enabled, now, k);
    case SetLevel(level) =>
      ElsewhereRests(p.buf, Next(p, s).buf, k);
      RestsIsEnough(p.buf, Next(p, s).buf, k);
      BooksAfterEviction(p, Next(p, s), k);
  }

  lemma RestsIsEnough(p: Plain, q: Plain, k: string)
    requires Rests(p, q, k) || RestsOrGone(p, q, k)
    ensures RestsOrGone(p, q, k)
  {
    hide Rests, Gone;
  }

  /** Over every run, every span and every log record ever stored for a trace is in
      one place: sent out or thrown away by a decision, lost with an evicted entry,
      or buffered; the buffered ones are the latest. */
  lemma {:induction false} EveryTraceIsAccountedFor(steps: seq<Step>, t: TraceID)
    requires LegalRun(steps)
    ensures Books(Run(steps), Hex(t))
  {
    hide Next, Legal, Books, Hex, Alive;
    if steps == [] {
      NothingOnTheBooks(Hex(t));
    } else {
      var init, s := steps[..|steps| - 1], steps[|steps| - 1];
      EveryTraceIsAccountedFor(init, t);
      if Run(init).dead {
        DeadRests(Run(init), s);
      } else {
        EverySignalInOnePlace(init);
        BalancedIsNamed(Run(init));
        TraceKeyIsFree(Run(init).buf, t);
        StepBooks(Run(init), s, Hex(t));
      }
    }
  }

  lemma NothingOnTheBooks(k: string)
    ensures Books(START, k)
  {
  }

  // ---------------------------------------------------------------------------
  // Exactly when nothing is lost
  // ---------------------------------------------------------------------------

  datatype Lane = SpanLane | LogLane

  function BufferedCount(p: Plain, k: string, lane: Lane): nat {
    if lane.SpanLane? then |BufferedSpans(p, k)| else |BufferedLogs(p, k)|
  }

  function LostCount(p: Plain, k: string, lane: Lane): nat {
    if lane.SpanLane? then |LostSpans(p.lost, k)| else |LostLogs(p.lost, k)|
  }

  /** A write neither pushes out anything of this kind nor loses it by failing. */
  predicate WriteKeeps(p: Plain, key: string, o: SetOutcome, k: string, lane: Lane) {
    BufferedCount(p, k, lane) == 0 || Spares(key, o, k)
  }

  predicate SpanBatchKeeps(p: Plain, rows: seq<Row<Span>>, order: seq<TraceID>, now: int, os: seq<SetOutcome>,
      k: string, lane: Lane)
    requires |os| == |order|
  {
    if order == [] then true
    else
      var n := |order| - 1;
      SpanBatchKeeps(p, rows, order[..n], now, os[..n], k, lane)
      && WriteKeeps(AddSpansEach(p, rows, order[..n], now, os[..n]), Hex(order[n]), os[n], k, lane)
  }

  predicate LogBatchKeeps(p: Plain, rows: seq<Row<LogRecord>>, order: seq<TraceID>, now: int, os: seq<SetOutcome>,
      k: string, lane: Lane)
    requires |os| == |order|
  {
    if order == [] then true
    else
      var n := |order| - 1;
      LogBatchKeeps(p, rows, order[..n], now, os[..n], k, lane)
      && WriteKeeps(AddLogsEach(p, rows, order[..n], now, os[..n]), Hex(order[n]), os[n], k, lane)
  }

  /** Wherever the step evicts the trace or loses it in a write, nothing of
      this kind is buffered. */
  predicate StepKeeps(p: Proc, s: Step, k: string, lane: Lane) {
    p.dead ||
    match s
    case StoreMetric(at, _, o) => BufferedCount(p.buf, k, lane) == 0 || k == at.key || k !in o.victims
    case StoreSpans(rows, order, now, os) => |os| == |order| ==> SpanBatchKeeps(p.buf, rows, order, now, os, k, lane)
    case StoreLogs(rows, order, now, os, at, o) =>
      |os| == |order| ==>
        && LogBatchKeeps(p.buf, rows, order, now, os, k, lane)
        && (RowsFor(LogID(), rows, NO_TRACE) == [] || k == at.key || k !in o.victims
            || BufferedCount(AddLogsEach(p.buf, rows, order, now, os), k, lane) == 0)
    case EvictKey(key) => BufferedCount(p.buf, k, lane) == 0 || key != k
    case _ => true
  }

  ghost predicate Stays(p: Plain, q: Plain, k: string, lane: Lane) {
    LostCount(q, k, lane) == LostCount(p, k, lane)
  }

  /** What is lost stays lost. */
  ghost predicate LostGrows(p: Plain, q: Plain, k: string, lane: Lane) {
    LostCount(p, k, lane) <= LostCount(q, k, lane)
  }

  lemma StayTwice(p: Plain, q: Plain, r: Plain, k: string, lane: Lane)
    requires LostGrows(p, q, k, lane) && LostGrows(q, r, k, lane)
    ensures LostGrows(p, r, k, lane)
    ensures Stays(p, r, k, lane) <==> Stays(p, q, k, lane) && Stays(q, r, k, lane)
  {
    hide LostCount;
  }

  lemma RestingStays(p: Plain, q: Plain, k: string, lane: Lane)
    requires Rests(p, q, k)
    ensures LostGrows(p, q, k, lane) && Stays(p, q, k, lane)
  {
    hide LostSpans, LostLogs;
  }

  lemma GoingLoses(p: Plain, q: Plain, k: string, lane: Lane)
    requires Gone(p, q, k)
    ensures LostGrows(p, q, k, lane) && (Stays(p, q, k, lane) <==> BufferedCount(p, k, lane) == 0)
  {
    hide LostSpans, LostLogs, BufferedSpans, BufferedLogs;
  }

  lemma WriteLoses(p: Plain, key: string, e: TraceEntry, o: SetOutcome, k: string, lane: Lane)
    requires Named(p) && !Alive(p, k)
    ensures var q := SetTrace(p, key, e, o);
            LostGrows(p, q, k, lane) && (Stays(p, q, k, lane) <==> WriteKeeps(p, key, o, k, lane))
  {
    hide SetTrace, Rests, Gone, LostSpans, LostLogs, BufferedSpans, Named, Alive;
    var q := SetTrace(p, key, e, o);
    WrittenEntry(p, key, e, o, k);
    if Rests(p, q, k) {
      RestingStays(p, q, k, lane);
    }
    if Gone(p, q, k) {
      GoingLoses(p, q, k, lane);
    }
  }

  lemma {:induction false} SpanBatchLoses(p: Plain, rows: seq<Row<Span>>, order: seq<TraceID>, now: int,
      os: seq<SetOutcome>, k: string, lane: Lane)
    requires Named(p) && !Alive(p, k) && |os| == |order|
    ensures var q := AddSpansEach(p, rows, order, now, os);
            && LostGrows(p, q, k, lane) && (Stays(p, q, k, lane) <==> SpanBatchKeeps(p, rows, order, now, os, k, lane))
            && Named(q) && !Alive(q, k)
  {
    hide SetTrace, LostGrows, Stays, WriteKeeps, Named, Alive, Hex, RowsFor;
    if order == [] {
      NothingHappens(p, k);
      RestingStays(p, p, k, lane);
    } else {
      var n := |order| - 1;
      var q := AddSpansEach(p, rows, order[..n], now, os[..n]);
      SpanBatchLoses(p, rows, order[..n], now, os[..n], k, lane);
      var e := EntryAt(q, Hex(order[n]), now);
      var e' := e.(spans := e.spans + RowsFor(SpanID(), rows, order[n]));
      WriteLoses(q, Hex(order[n]), e', os[n], k, lane);
      WrittenEntry(q, Hex(order[n]), e', os[n], k);
      StayTwice(p, q, SetTrace(q, Hex(order[n]), e', os[n]), k, lane);
    }
  }

  lemma {:induction false} LogBatchLoses(p: Plain, rows: seq<Row<LogRecord>>, order: seq<TraceID>, now: int,
      os: seq<SetOutcome>, k: string, lane: Lane)
    requires Named(p) && !Alive(p, k) && |os| == |order|
    ensures var q := AddLogsEach(p, rows, order, now, os);
            && LostGrows(p, q, k, lane) && (Stays(p, q, k, lane) <==> LogBatchKeeps(p, rows, order, now, os, k, lane))
            && Named(q) && !Alive(q, k)
  {
    hide SetTrace, LostGrows, Stays, WriteKeeps, Named, Alive, Hex, RowsFor;
    if order == [] {
      NothingHappens(p, k);
      RestingStays(p, p, k, lane);
    } else {
      var n := |order| - 1;
      var q := AddLogsEach(p, rows, order[..n], now, os[..n]);
      LogBatchLoses(p, rows, order[..n], now, os[..n], k, lane);
      var e := EntryAt(q, Hex(order[n]), now);
      var e' := e.(logs := e.logs + RowsFor(LogID(), rows, order[n]));
      WriteLoses(q, Hex(order[n]), e', os[n], k, lane);
      WrittenEntry(q, Hex(order[n]), e', os[n], k);
      StayTwice(p, q, SetTrace(q, Hex(order[n]), e', os[n]), k, lane);
    }
  }

  lemma RoomLoses(p: Plain, q: Plain, key: string, victims: seq<string>, k: string, lane: Lane)
    requires Named(p) && !Alive(p, k)
    requires q.traces == MakeRoom(p, key, victims).traces && q.lost == MakeRoom(p, key, victims).lost
    ensures LostGrows(p, q, k, lane)
    ensures Stays(p, q, k, lane) <==> BufferedCount(p, k, lane) == 0 || k == key || k !in victims
  {
    hide MakeRoom, Rests, Gone, LostSpans, LostLogs, BufferedSpans, Named, Alive;
    var r := MakeRoom(p, key, victims);
    RoomEntry(p, key, victims, k);
    if Rests(p, r, k) {
      RestingStays(p, r, k, lane);
    }
    if Gone(p, r, k) {
      GoingLoses(p, r, k, lane);
    }
  }

  lemma EvictionLoses(p: Plain, key: string, k: string, lane: Lane)
    requires !Alive(p, k)
    ensures LostGrows(p, Evict(p, key), k, lane)
    ensures Stays(p, Evict(p, key), k, lane) <==> BufferedCount(p, k, lane) == 0 || key != k
  {
    hide Evict, Rests, Gone, LostSpans, LostLogs, BufferedSpans, Alive;
    EvictedEntry(p, key, k);
    if key == k {
      GoingLoses(p, Evict(p, key), k, lane);
    } else {
      RestingStays(p, Evict(p, key), k, lane);
    }
  }

  lemma SplitLoses(p: Plain, rows: seq<Row<LogRecord>>, order: seq<TraceID>, now: int, os: seq<SetOutcome>,
      at: TimeKey, o: SetOutcome, k: string, lane: Lane)
    requires Named(p) && !Alive(p, k) && |os| == |order|
    ensures var q, r := AddLogsEach(p, rows, order, now, os), StoreSplit(p, rows, order, now, os, at, o);
            && LostGrows(p, r, k, lane)
            && (Stays(p, r, k, lane) <==>
                  LogBatchKeeps(p, rows, order, now, os, k, lane)
                  && (RowsFor(LogID(), rows, NO_TRACE) == [] || k == at.key || k !in o.victims
                      || BufferedCount(q, k, lane) == 0))
  {
    hide AddLogsEach, MakeRoom, LostGrows, Stays, LogBatchKeeps, BufferedSpans, Named, Alive, RowsFor;
    var q, r := AddLogsEach(p, rows, order, now, os), StoreSplit(p, rows, order, now, os, at, o);
    LogBatchLoses(p, rows, order, now, os, k, lane);
    if RowsFor(LogID(), rows, NO_TRACE) != [] {
      RoomLoses(q, r, at.key, o.victims, k, lane);
      StayTwice(p, q, r, k, lane);
    }
  }

  lemma QuietStays(p: Proc, s: Step, k: string)
    requires s.DrainEvicted? || s.ProcessDecision? || s.PerformRollup? || s.SetLevel?
    ensures Next(p, s).buf.lost == p.buf.lost
  {
    hide Decide, Rollup;
    match s
    case ProcessDecision(d) => DecisionLosesNothing(p, d);
    case PerformRollup(enabled, now) => RollupLeavesTraces(p, enabled, now);
    case _ =>
  }

  lemma DecisionLosesNothing(p: Proc, d: Decision)
    ensures Decide(p, d).buf.lost == p.buf.lost
  {
    hide Range, OutOfRange, Hex, ParseID, FindTrace, FindTraceLogs, WindowStart, WindowEnd, Data, Concat;
  }

  lemma StepLoses(p: Proc, s: Step, k: string, lane: Lane)
    requires Named(p.buf) && !Alive(p.buf, k) && Legal(p, s) && !p.dead
    ensures var q := Next(p, s);
            LostGrows(p.buf, q.buf, k, lane) && (Stays(p.buf, q.buf, k, lane) <==> StepKeeps(p, s, k, lane))
  {
    hide Named, Alive, LostGrows, Stays, Unused, MakeRoom, AddSpansEach, AddLogsEach, StoreSplit, Evict, DrainOne,
      Decide, Rollup, Remembered, BufferedSpans, SpanBatchKeeps, LogBatchKeeps, IterationOrder, RowsFor;
    match s
    case StoreMetric(at, m, o) => RoomLoses(p.buf, Next(p, s).buf, at.key, o.victims, k, lane);
    case StoreSpans(rows, order, now, os) => SpanBatchLoses(p.buf, rows, order, now, os, k, lane);
    case StoreLogs(rows, order, now, os, at, o) => SplitLoses(p.buf, rows, order, now, os, at, o, k, lane);
    case EvictKey(key) => EvictionLoses(p.buf, key, k, lane);
    case _ =>
      QuietStays(p, s, k);
      SameLostStays(p.buf, Next(p, s).buf, k, lane);
  }

  lemma SameLostStays(p: Plain, q: Plain, k: string, lane: Lane)
    requires q.lost == p.lost
    ensures LostGrows(p, q, k, lane) && Stays(p, q, k, lane)
  {
    hide LostSpans;
  }

  ghost predicate AlwaysKeeps(steps: seq<Step>, k: string, lane: Lane) {
    forall i | 0 <= i < |steps| :: StepKeeps(Run(steps[..i]), steps[i], k, lane)
  }

  lemma AlwaysKeepsSnoc(steps: seq<Step>, k: string, lane: Lane)
    requires steps != []
    ensures var init := steps[..|steps| - 1];
            AlwaysKeeps(steps, k, lane) <==>
            AlwaysKeeps(init, k, lane) && StepKeeps(Run(init), steps[|steps| - 1], k, lane)
  {
    hide Run, StepKeeps;
    var init := steps[..|steps| - 1];
    assert forall i | 0 <= i < |init| :: init[..i] == steps[..i];
    if AlwaysKeeps(steps, k, lane) {
      forall i | 0 <= i < |init| ensures StepKeeps(Run(init[..i]), init[i], k, lane) {
        assert StepKeeps(Run(steps[..i]), steps[i], k, lane);
      }
    }
  }

  /** Nothing of a kind is lost if and only if, whenever the trace's entry was evicted
      or lost in a write, it held nothing of that kind. */
  lemma {:induction false} NothingLostIffAlwaysKept(steps: seq<Step>, t: TraceID, lane: Lane)
    requires LegalRun(steps)
    ensures LostCount(Run(steps).buf, Hex(t), lane) == 0 <==> AlwaysKeeps(steps, Hex(t), lane)
  {
    hide Next, Legal, Hex, Alive, AlwaysKeeps, StepKeeps, LostCount;
    var k := Hex(t);
    if steps == [] {
      NothingKept(k, lane);
    } else {
      var init, s := steps[..|steps| - 1], steps[|steps| - 1];
      var p := Run(init);
      NothingLostIffAlwaysKept(init, t, lane);
      AlwaysKeepsSnoc(steps, k, lane);
      if p.dead {
        DeadRests(p, s);
        DeadKeeps(p, s, k, lane);
      } else {
        EverySignalInOnePlace(init);
        BalancedIsNamed(p);
        TraceKeyIsFree(p.buf, t);
        StepLoses(p, s, k, lane);
      }
    }
  }

  lemma DeadKeeps(p: Proc, s: Step, k: string, lane: Lane)
    requires p.dead
    ensures StepKeeps(p, s, k, lane)
  {
  }

  lemma NothingKept(k: string, lane: Lane)
    ensures LostCount(START.buf, k, lane) == 0 && AlwaysKeeps([], k, lane)
  {
  }

  /** The exported chunks followed by the buffered spans are all that was ever stored
      for a trace if and only if, whenever its entry was evicted or lost in a write,
      none of its spans were buffered. */
  lemma ChunksAreHistoryIffNeverLost(steps: seq<Step>, t: TraceID)
    requires LegalRun(steps)
    ensures SpanExact(Run(steps), Hex(t)) <==> AlwaysKeeps(steps, Hex(t), SpanLane)
  {
    hide Run, LegalRun, Hex, AlwaysKeeps, Account, LogBooks, Past, BufferedSpans, ExportedSpans, LostSpans;
    var p, k := Run(steps), Hex(t);
    EveryTraceIsAccountedFor(steps, t);
    NothingLostIffAlwaysKept(steps, t, SpanLane);
    AccountIsExactIffNothingLost(Past(p.ledger.history, k), BufferedSpans(p.buf, k), ExportedSpans(p.exports, k),
      LostSpans(p.buf.lost, k));
  }

  /** In the same way the discarded logs followed by the buffered ones are all that
      was ever stored with the trace. */
  lemma DiscardedThenBufferedLogs(steps: seq<Step>, t: TraceID)
    requires LegalRun(steps)
    ensures var p, k := Run(steps), Hex(t);
            DiscardedLogs(p.ledger.discarded, k) + BufferedLogs(p.buf, k) == Past(p.ledger.logHistory, k) <==>
            AlwaysKeeps(steps, k, LogLane)
  {
    hide Run, LegalRun, Hex, AlwaysKeeps, Account, SpanBooks, Past, BufferedLogs, DiscardedLogs, LostLogs;
    var p, k := Run(steps), Hex(t);
    EveryTraceIsAccountedFor(steps, t);
    NothingLostIffAlwaysKept(steps, t, LogLane);
    AccountIsExactIffNothingLost(Past(p.ledger.logHistory, k), BufferedLogs(p.buf, k),
      DiscardedLogs(p.ledger.discarded, k), LostLogs(p.buf.lost, k));
  }

  lemma {:induction false} SparingBatchKeeps(p: Plain, rows: seq<Row<Span>>, order: seq<TraceID>, now: int,
      os: seq<SetOutcome>, k: string, lane: Lane)
    requires |os| == |order| && forall n | 0 <= n < |order| :: Spares(Hex(order[n]), os[n], k)
    ensures SpanBatchKeeps(p, rows, order, now, os, k, lane)
  {
    hide Hex, AddSpansEach, BufferedCount;
    if order != [] {
      SparingBatchKeeps(p, rows, order[..|order| - 1], now, os[..|order| - 1], k, lane);
    }
  }

  lemma {:induction false} SparingLogBatchKeeps(p: Plain, rows: seq<Row<LogRecord>>, order: seq<TraceID>, now: int,
      os: seq<SetOutcome>, k: string, lane: Lane)
    requires |os| == |order| && forall n | 0 <= n < |order| :: Spares(Hex(order[n]), os[n], k)
    ensures LogBatchKeeps(p, rows, order, now, os, k, lane)
  {
    hide Hex, AddLogsEach, BufferedCount;
    if order != [] {
      SparingLogBatchKeeps(p, rows, order[..|order| - 1], now, os[..|order| - 1], k, lane);
    }
  }

  /** Runs that spare the trace are of this kind. */
  lemma SparingRunsKeep(steps: seq<Step>, k: string, lane: Lane)
    requires forall s <- steps :: SparesTrace(s, k)
    ensures AlwaysKeeps(steps, k, lane)
  {
    hide Run, SparesTrace, StepKeeps;
    forall i | 0 <= i < |steps| ensures StepKeeps(Run(steps[..i]), steps[i], k, lane) {
      assert steps[i] in steps;
      SparingStepKeeps(Run(steps[..i]), steps[i], k, lane);
    }
  }

  lemma SparingStepKeeps(p: Proc, s: Step, k: string, lane: Lane)
    requires SparesTrace(s, k)
    ensures StepKeeps(p, s, k, lane)
  {
    hide Spares, SpanBatchKeeps, LogBatchKeeps, BufferedCount, Hex, RowsFor, AddLogsEach;
    match s
    case StoreSpans(rows, order, now, os) =>
      if |os| == |order| {
        SparingBatchKeeps(p.buf, rows, order, now, os, k, lane);
      }
    case StoreLogs(rows, order, now, os, at, o) =>
      if |os| == |order| {
        SparingLogBatchKeeps(p.buf, rows, order, now, os, k, lane);
      }
    case _ =>
  }
}
