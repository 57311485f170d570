/** Every stored metric signal and untraced log signal is in exactly one place. */
module SignalLedger {
  import opened Pdata
  import opened Identity
  import opened Traversal
  import opened Live
  import opened Buffer
  import opened Gossip
  import opened Sampler
  import MetricRollup
  import LogRollup

  // ---------------------------------------------------------------------------
  // Lists as bags
  // ---------------------------------------------------------------------------

  /** The signals in a list, each as often as it occurs. */
  function Bag<P>(f: P -> Signal, s: seq<Timed<P>>): multiset<Signal> {
    if s == [] then multiset{} else multiset{f(s[0].data)} + Bag(f, s[1..])
  }

  function AsMetric(): Metrics -> Signal {
    (m: Metrics) => MetricSignal(m)
  }

  function AsLog(): Logs -> Signal {
    (l: Logs) => LogSignal(l)
  }

  lemma {:induction false} BagOfInsert<P(!new)>(f: P -> Signal, s: seq<Timed<P>>, t: Timed<P>)
    requires forall u <- s :: u.at != t.at
    ensures Bag(f, Insert(s, t)) == Bag(f, s) + multiset{f(t.data)}
  {
    if s == [] {
      BagFront(f, t, []);
    } else {
      hide Bag, Insert, Less;
      var first, rest := s[0], s[1..];
      assert s == [first] + rest && forall u <- rest :: u in s;
      InsertFront(first, rest, t);
      if Less(t.at, first.at) {
        BagFront(f, t, s);
      } else {
        BagOfInsert(f, rest, t);
        BagFront(f, first, rest);
        BagFront(f, first, Insert(rest, t));
      }
    }
  }

  lemma InsertFront<P>(first: Timed<P>, rest: seq<Timed<P>>, t: Timed<P>)
    requires first.at != t.at
    ensures Insert([first] + rest, t) ==
            if Less(t.at, first.at) then [t] + ([first] + rest) else [first] + Insert(rest, t)
  {
    hide Less;
    assert ([first] + rest)[1..] == rest;
  }

  lemma BagFront<P(!new)>(f: P -> Signal, t: Timed<P>, s: seq<Timed<P>>)
    ensures Bag(f, [t] + s) == multiset{f(t.data)} + Bag(f, s)
  {
    assert ([t] + s)[1..] == s;
  }

  lemma {:induction false} BagSplits<P(!new)>(f: P -> Signal, p: Timed<P> -> bool, s: seq<Timed<P>>)
    ensures Bag(f, Keep(p, s)) + Bag(f, Keep(Opposite(p), s)) == Bag(f, s)
  {
    if s != [] {
      BagSplits(f, p, s[1..]);
      var a, b := Keep(p, s), Keep(Opposite(p), s);
      if p(s[0]) {
        assert a[1..] == Keep(p, s[1..]);
      } else {
        assert b[1..] == Keep(Opposite(p), s[1..]);
      }
    }
  }

  lemma {:induction false} BagOfWithout<P(!new)>(f: P -> Signal, s: seq<Timed<P>>, key: string)
    requires DistinctNames(s) && Find(s, key).Some?
    ensures Bag(f, Without(s, key)) + multiset{f(Find(s, key).value)} == Bag(f, s)
  {
    var p := Opposite(KeyIs<P>(key));
    TailDistinct(s);
    if s[0].at.key == key {
      forall u | u in s[1..] ensures u.at.key != key {
        var i :| 0 <= i < |s[1..]| && s[1..][i] == u;
        assert s[0].at.key != s[i + 1].at.key;
      }
      KeepAll(p, s[1..]);
    } else {
      BagOfWithout(f, s[1..], key);
      assert Keep(p, s)[1..] == Keep(p, s[1..]);
    }
  }

  lemma TailDistinct<P(!new)>(s: seq<Timed<P>>)
    requires DistinctNames(s) && s != []
    ensures DistinctNames(s[1..])
  {
    forall i, j | 0 <= i < j < |s[1..]| ensures s[1..][i].at.key != s[1..][j].at.key {
      assert s[i + 1].at.key != s[j + 1].at.key;
    }
  }

  lemma {:induction false} BagOfMetrics(s: seq<Timed<Metrics>>)
    ensures multiset(MetricSignals(Data(s))) == Bag(AsMetric(), s)
  {
    if s != [] {
      BagOfMetrics(s[1..]);
      assert MetricSignals(Data(s)) == [MetricSignal(s[0].data)] + MetricSignals(Data(s[1..]));
    }
  }

  lemma {:induction false} BagOfLogs(s: seq<Timed<Logs>>)
    ensures multiset(LogSignals(Data(s))) == Bag(AsLog(), s)
  {
    if s != [] {
      BagOfLogs(s[1..]);
      assert LogSignals(Data(s)) == [LogSignal(s[0].data)] + LogSignals(Data(s[1..]));
    }
  }

  lemma {:induction false} KeepDistinct<P(!new)>(p: Timed<P> -> bool, s: seq<Timed<P>>)
    requires DistinctNames(s)
    ensures DistinctNames(Keep(p, s))
  {
    if s != [] {
      TailDistinct(s);
      KeepDistinct(p, s[1..]);
      KeepMembers(p, s[1..]);
      forall u | u in Keep(p, s[1..]) ensures u.at.key != s[0].at.key {
        var i :| 0 <= i < |s[1..]| && s[1..][i] == u;
        assert s[0].at.key != s[i + 1].at.key;
      }
    }
  }

  lemma {:induction false} InsertDistinct<P(!new)>(s: seq<Timed<P>>, t: Timed<P>)
    requires DistinctNames(s) && forall u <- s :: u.at.key != t.at.key
    ensures DistinctNames(Insert(s, t))
    ensures forall u :: u in Insert(s, t) <==> u == t || u in s
  {
    if s != [] {
      assert s == [s[0]] + s[1..];
      TailDistinct(s);
      InsertDistinct(s[1..], t);
      if !Less(t.at, s[0].at) {
        forall u | u in Insert(s[1..], t) ensures u.at.key != s[0].at.key {
          if u != t {
            var i :| 0 <= i < |s[1..]| && s[1..][i] == u;
            assert s[0].at.key != s[i + 1].at.key;
          }
        }
      }
    }
  }

  // ---------------------------------------------------------------------------
  // The buffer
  // ---------------------------------------------------------------------------

  /** Names are distinct and show which list they are in. */
  ghost predicate Named(p: Plain) {
    && DistinctNames(p.metrics) && (forall t <- p.metrics :: HasPrefix(t.at.key, "m_"))
    && DistinctNames(p.logs) && (forall t <- p.logs :: HasPrefix(t.at.key, "l_"))
  }

  /** What the buffer side of a node holds or has dropped. */
  function Held(p: Plain): multiset<Signal> {
    Bag(AsMetric(), p.metrics) + Bag(AsLog(), p.logs) + multiset(p.chan) + multiset(p.dropped)
  }

  lemma {:induction false} FindNames<P(!new)>(s: seq<Timed<P>>, key: string)
    ensures Find(s, key).Some? <==> exists t <- s :: t.at.key == key
  {
    if s != [] {
      FindNames(s[1..], key);
      assert s == [s[0]] + s[1..];
    }
  }

  lemma WithoutNames<P(!new)>(s: seq<Timed<P>>, key: string)
    requires DistinctNames(s)
    ensures DistinctNames(Without(s, key)) && forall t <- Without(s, key) :: t in s
  {
    KeepDistinct(Opposite(KeyIs(key)), s);
    KeepMembers(Opposite(KeyIs(key)), s);
  }

  lemma EvictConserves(p: Plain, key: string)
    requires Named(p)
    ensures var q := Evict(p, key);
            && Named(q) && Held(q) == Held(p) && q.stored == p.stored
            && forall k :: Unused(p, k) ==> Unused(q, k)
  {
    hide Held, Without, HasPrefix, Find, Emit, DistinctNames;
    WithoutNames(p.metrics, key);
    WithoutNames(p.logs, key);
    if Find(p.metrics, key).Some? {
      var q := p.(metrics := Without(p.metrics, key));
      MetricLeaves(p, key);
      EmitHolds(q, MetricSignal(Find(p.metrics, key).value));
    } else if Find(p.logs, key).Some? {
      var q := p.(logs := Without(p.logs, key));
      LogLeaves(p, key);
      EmitHolds(q, LogSignal(Find(p.logs, key).value));
    } else {
      TracesDoNotCount(p, Lose(p, key));
    }
  }

  lemma MetricLeaves(p: Plain, key: string)
    requires Named(p) && Find(p.metrics, key).Some?
    ensures Held(p.(metrics := Without(p.metrics, key))) + multiset{MetricSignal(Find(p.metrics, key).value)} == Held(p)
  {
    hide Bag, Without, HasPrefix, Find;
    BagOfWithout(AsMetric(), p.metrics, key);
  }

  lemma LogLeaves(p: Plain, key: string)
    requires Named(p) && Find(p.logs, key).Some?
    ensures Held(p.(logs := Without(p.logs, key))) + multiset{LogSignal(Find(p.logs, key).value)} == Held(p)
  {
    hide Bag, Without, HasPrefix, Find;
    BagOfWithout(AsLog(), p.logs, key);
  }

  lemma EmitHolds(p: Plain, sig: Signal)
    ensures Held(Emit(p, sig)) == Held(p) + multiset{sig}
    ensures var q := Emit(p, sig); q == p.(chan := q.chan, dropped := q.dropped)
  {
    hide Bag;
  }

  lemma {:induction false} MakeRoomConserves(p: Plain, key: string, victims: seq<string>)
    requires Named(p)
    ensures var q := MakeRoom(p, key, victims);
            && Named(q) && Held(q) == Held(p) && q.stored == p.stored
            && forall k :: Unused(p, k) ==> Unused(q, k)
  {
    hide Held, Named, Unused, Evict;
    if victims != [] {
      MakeRoomConserves(p, key, victims[..|victims| - 1]);
      EvictConserves(MakeRoom(p, key, victims[..|victims| - 1]), victims[|victims| - 1]);
    }
  }

  lemma StoreMetricConserves(p: Plain, at: TimeKey, m: Metrics, o: SetOutcome)
    requires Named(p) && HasPrefix(at.key, "m_") && Unused(p, at.key)
    ensures var q := Live.StoreMetric(p, at, m, o);
            Named(q) && Held(q) + multiset(p.stored) == Held(p) + multiset(q.stored)
  {
    hide Bag, HasPrefix, Insert;
    MakeRoomConserves(p, at.key, o.victims);
    var q := MakeRoom(p, at.key, o.victims);
    if o.ok {
      BagOfInsert(AsMetric(), q.metrics, Timed(at, m));
      InsertDistinct(q.metrics, Timed(at, m));
    }
  }

  lemma StoreTimeLogsConserves(p: Plain, at: TimeKey, l: Logs, o: SetOutcome)
    requires Named(p) && HasPrefix(at.key, "l_") && Unused(p, at.key)
    ensures var q := Live.StoreTimeLogs(p, at, l, o);
            Named(q) && Held(q) + multiset(p.stored) == Held(p) + multiset(q.stored)
  {
    hide Bag, HasPrefix, Insert;
    MakeRoomConserves(p, at.key, o.victims);
    var q := MakeRoom(p, at.key, o.victims);
    if o.ok {
      BagOfInsert(AsLog(), q.logs, Timed(at, l));
      InsertDistinct(q.logs, Timed(at, l));
    }
  }

  lemma SetTraceConserves(p: Plain, key: string, e: TraceEntry, o: SetOutcome)
    requires Named(p)
    ensures var q := SetTrace(p, key, e, o);
            && Named(q) && Held(q) == Held(p) && q.stored == p.stored
            && forall k :: Unused(p, k) ==> Unused(q, k)
  {
    hide Bag;
    MakeRoomConserves(p, key, o.victims);
  }

  lemma {:induction false} AddSpansConserves(p: Plain, rows: seq<Row<Span>>, order: seq<TraceID>, now: int,
      os: seq<SetOutcome>)
    requires Named(p) && |os| == |order|
    ensures var q := AddSpansEach(p, rows, order, now, os); Named(q) && Held(q) == Held(p) && q.stored == p.stored
  {
    hide Held, Named, Unused, SetTrace;
    if order != [] {
      var n := |order| - 1;
      AddSpansConserves(p, rows, order[..n], now, os[..n]);
      var q := AddSpansEach(p, rows, order[..n], now, os[..n]);
      var e := EntryAt(q, Hex(order[n]), now);
      SetTraceConserves(q, Hex(order[n]), e.(spans := e.spans + RowsFor(SpanID(), rows, order[n])), os[n]);
    }
  }

  lemma {:induction false} AddLogsConserves(p: Plain, rows: seq<Row<LogRecord>>, order: seq<TraceID>, now: int,
      os: seq<SetOutcome>)
    requires Named(p) && |os| == |order|
    ensures var q := AddLogsEach(p, rows, order, now, os);
            && Named(q) && Held(q) == Held(p) && q.stored == p.stored
            && forall k :: Unused(p, k) ==> Unused(q, k)
  {
    hide Held, Named, Unused, SetTrace;
    if order != [] {
      var n := |order| - 1;
      AddLogsConserves(p, rows, order[..n], now, os[..n]);
      var q := AddLogsEach(p, rows, order[..n], now, os[..n]);
      var e := EntryAt(q, Hex(order[n]), now);
      SetTraceConserves(q, Hex(order[n]), e.(logs := e.logs + RowsFor(LogID(), rows, order[n])), os[n]);
    }
  }

  lemma StoreSplitConserves(p: Plain, rows: seq<Row<LogRecord>>, order: seq<TraceID>, now: int, os: seq<SetOutcome>,
      at: TimeKey, o: SetOutcome)
    requires Named(p) && |os| == |order| && HasPrefix(at.key, "l_") && Unused(p, at.key)
    ensures var q := StoreSplit(p, rows, order, now, os, at, o);
            Named(q) && Held(q) + multiset(p.stored) == Held(p) + multiset(q.stored)
  {
    hide Held, Named, Unused, AddLogsEach, Live.StoreTimeLogs;
    AddLogsConserves(p, rows, order, now, os);
    var q, l := AddLogsEach(p, rows, order, now, os), RowsFor(LogID(), rows, NO_TRACE);
    if l != [] {
      StoreTimeLogsConserves(q, at, l, o);
    }
  }

  lemma MetricWindowBag(p: Plain, lo: int, hi: int)
    requires Named(p)
    ensures var q := p.(metrics := OutOfRange(p.metrics, lo, hi));
            Named(q) && Held(p) == Held(q) + multiset(MetricSignals(Data(Range(p.metrics, lo, hi))))
  {
    hide Bag, HasPrefix;
    var w := Within<Metrics>(lo, hi);
    BagSplits(AsMetric(), w, p.metrics);
    BagOfMetrics(Range(p.metrics, lo, hi));
    KeepDistinct(Opposite(w), p.metrics);
    KeepMembers(Opposite(w), p.metrics);
  }

  lemma LogWindowBag(p: Plain, lo: int, hi: int)
    requires Named(p)
    ensures var q := p.(logs := OutOfRange(p.logs, lo, hi));
            Named(q) && Held(p) == Held(q) + multiset(LogSignals(Data(Range(p.logs, lo, hi))))
  {
    hide Bag, HasPrefix;
    var w := Within<Logs>(lo, hi);
    BagSplits(AsLog(), w, p.logs);
    BagOfLogs(Range(p.logs, lo, hi));
    KeepDistinct(Opposite(w), p.logs);
    KeepMembers(Opposite(w), p.logs);
  }

  // ---------------------------------------------------------------------------
  // The node
  // ---------------------------------------------------------------------------

  /** Buffered, in the channel or dropped from it; in the evicted lists; exported
      raw; exported in a rollup. */
  function Places(p: Proc): multiset<Signal> {
    Held(p.buf)
    + (multiset(MetricSignals(p.evictedMetrics)) + multiset(LogSignals(p.evictedLogs)))
    + multiset(p.ledger.raw) + multiset(p.ledger.rolledUp)
  }

  ghost predicate Balanced(p: Proc) {
    Named(p.buf) && multiset(p.buf.stored) == Places(p)
  }

  lemma MetricSignalsConcat(a: seq<Metrics>, b: seq<Metrics>)
    ensures MetricSignals(a + b) == MetricSignals(a) + MetricSignals(b)
  {
  }

  lemma LogSignalsConcat(a: seq<Logs>, b: seq<Logs>)
    ensures LogSignals(a + b) == LogSignals(a) + LogSignals(b)
  {
  }

  lemma DecideBalances(p: Proc, d: Decision)
    requires Balanced(p)
    ensures Balanced(Decide(p, d))
  {
    hide Balanced, ExportMetricWindow, ExportLogWindow, ExportTrace, ExportTraceLogs, ParseID, Hex, WindowStart,
      WindowEnd;
    var t := ParseID(d.traceId);
    if t.Some? {
      var key, lo, hi := Hex(t.value), WindowStart(d), WindowEnd(d);
      TraceExportsBalance(p, key);
      var q := ExportTraceLogs(ExportTrace(p, key), key);
      MetricWindowBalances(q, lo, hi);
      LogWindowBalances(ExportMetricWindow(q, lo, hi), lo, hi);
    }
  }

  lemma TraceExportsBalance(p: Proc, key: string)
    requires Balanced(p)
    ensures Balanced(ExportTraceLogs(ExportTrace(p, key), key))
  {
    hide Held, Named;
    TracesDoNotCount(p.buf, p.buf.(traces := p.buf.traces - {key}));
  }

  lemma TracesDoNotCount(p: Plain, q: Plain)
    requires q == p.(traces := q.traces, lost := q.lost)
    ensures Held(q) == Held(p) && (Named(q) <==> Named(p))
  {
    hide Bag, HasPrefix;
  }

  lemma MetricWindowBalances(p: Proc, lo: int, hi: int)
    requires Balanced(p)
    ensures Balanced(ExportMetricWindow(p, lo, hi))
  {
    hide Held, Named;
    MetricWindowBag(p.buf, lo, hi);
  }

  lemma LogWindowBalances(p: Proc, lo: int, hi: int)
    requires Balanced(p)
    ensures Balanced(ExportLogWindow(p, lo, hi))
  {
    hide Held, Named;
    LogWindowBag(p.buf, lo, hi);
  }

  /** With signals `taken` out of the evicted lists, a node is short of them. */
  ghost predicate Short(p: Proc, taken: multiset<Signal>) {
    Named(p.buf) && multiset(p.buf.stored) == Places(p) + taken
  }

  lemma RollupMetricsBalances(p: Proc, enabled: bool, evicted: seq<Metrics>, end: int, taken: multiset<Signal>)
    requires Short(p, multiset(MetricSignals(evicted)) + taken)
    ensures var q := RollupMetricsStep(p, enabled, Data(Range(p.buf.metrics, ZERO_TIME, end)) + evicted, end);
            q == p.(dead := true) || (
              && Short(q, taken) && q.buf == p.buf.(metrics := q.buf.metrics)
              && q.level == p.level && q.dead == p.dead)
  {
    hide Held, Named, MetricRollup.RolledUp, Range, OutOfRange;
    var ms := Data(Range(p.buf.metrics, ZERO_TIME, end));
    MetricWindowBag(p.buf, ZERO_TIME, end);
    MetricSignalsConcat(ms, evicted);
    if ms + evicted == [] {
      assert ms == [] && evicted == [];
    }
  }

  lemma RollupLogsBalances(p: Proc, enabled: bool, evicted: seq<Logs>, end: int)
    requires Short(p, multiset(LogSignals(evicted)))
    ensures Balanced(RollupLogsStep(p, enabled, Data(Range(p.buf.logs, ZERO_TIME, end)) + evicted, end))
  {
    hide Held, Named, LogRollup.RolledUpLogs, Range, OutOfRange;
    var ls := Data(Range(p.buf.logs, ZERO_TIME, end));
    LogWindowBag(p.buf, ZERO_TIME, end);
    LogSignalsConcat(ls, evicted);
    if ls + evicted == [] {
      assert ls == [] && evicted == [];
    }
  }

  lemma RollupBalances(p: Proc, enabled: bool, now: int)
    requires Balanced(p) && !p.dead
    ensures Balanced(Rollup(p, enabled, now))
  {
    hide Held, Named, RollupMetricsStep, RollupLogsStep, Range;
    var end := now - 10 * SECOND;
    var p' := p.(evictedMetrics := [], evictedLogs := []);
    assert MetricSignals([]) == [] && LogSignals([]) == [];
    assert Short(p', multiset(MetricSignals(p.evictedMetrics)) + multiset(LogSignals(p.evictedLogs)));
    RollupMetricsBalances(p', enabled, p.evictedMetrics, end, multiset(LogSignals(p.evictedLogs)));
    var q := RollupMetricsStep(p', enabled, Data(Range(p.buf.metrics, ZERO_TIME, end)) + p.evictedMetrics, end);
    if !q.dead {
      RollupLogsBalances(q, enabled, p.evictedLogs, end);
    }
  }

  lemma DrainBalances(p: Proc)
    requires Balanced(p)
    ensures Balanced(DrainOne(p))
  {
    hide Bag, HasPrefix;
    if p.buf.chan != [] {
      var sig, rest := p.buf.chan[0], p.buf.chan[1..];
      assert p.buf.chan == [sig] + rest;
      match sig
      case MetricSignal(m) =>
        MetricSignalsConcat(p.evictedMetrics, [m]);
        assert MetricSignals([m]) == [sig];
      case LogSignal(l) =>
        LogSignalsConcat(p.evictedLogs, [l]);
        assert LogSignals([l]) == [sig];
    }
  }

  lemma Cancel(held: multiset<Signal>, stored: multiset<Signal>, held': multiset<Signal>, stored': multiset<Signal>,
      rest: multiset<Signal>)
    requires held' + stored == held + stored' && stored == held + rest
    ensures stored' == held' + rest
  {
    forall x ensures stored'[x] == (held' + rest)[x] {
      assert (held' + stored)[x] == (held + stored')[x];
    }
  }

  /** What a store adds to the ledger it adds to the buffer. */
  lemma StoreBalances(p: Proc, buf: Plain)
    requires Balanced(p) && Named(buf)
    requires Held(buf) + multiset(p.buf.stored) == Held(p.buf) + multiset(buf.stored)
    ensures Balanced(p.(buf := buf))
  {
    hide Held, Named;
    Cancel(Held(p.buf), multiset(p.buf.stored), Held(buf), multiset(buf.stored),
      (multiset(MetricSignals(p.evictedMetrics)) + multiset(LogSignals(p.evictedLogs)))
      + multiset(p.ledger.raw) + multiset(p.ledger.rolledUp));
  }

  lemma StepBalances(p: Proc, s: Step)
    requires Balanced(p) && Legal(p, s)
    ensures Balanced(Next(p, s))
  {
    hide Held, Named, HasPrefix, Live.StoreMetric, AddSpansEach, StoreSplit, Evict, DrainOne, Decide, Rollup,
      Remembered;
    if !p.dead {
      match s
      case StoreMetric(at, m, o) =>
        StoreMetricConserves(p.buf, at, m, o);
        StoreBalances(p, Live.StoreMetric(p.buf, at, m, o));
      case StoreSpans(rows, order, now, os) => AddSpansConserves(p.buf, rows, order, now, os);
      case StoreLogs(rows, order, now, os, at, o) =>
        StoreSplitConserves(p.buf, rows, order, now, os, at, o);
        StoreBalances(p, StoreSplit(p.buf, rows, order, now, os, at, o));
      case EvictKey(key) => EvictConserves(p.buf, key);
      case DrainEvicted => DrainBalances(p);
      case ProcessDecision(d) => DecideBalances(p, d);
      case PerformRollup(enabled, now) => RollupBalances(p, enabled, now);
      case SetLevel(level) =>
    }
  }

  /** Over every run, each signal the buffer has ever accepted is accounted for
      exactly once: buffered, queued, dropped on a full channel, in an evicted
      list, exported raw, or exported in one rollup. */
  lemma {:induction false} EverySignalInOnePlace(steps: seq<Step>)
    requires LegalRun(steps)
    ensures Balanced(Run(steps))
  {
    hide Next, Legal;
    if steps == [] {
      NothingYet();
    } else {
      EverySignalInOnePlace(steps[..|steps| - 1]);
      StepBalances(Run(steps[..|steps| - 1]), steps[|steps| - 1]);
    }
  }

  lemma NothingYet()
    ensures Balanced(START)
  {
    assert MetricSignals([]) == [] && LogSignals([]) == [];
  }
}
