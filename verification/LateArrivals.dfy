/** A rollup fetches first and removes later; other steps may come in between. */
module LateArrivals {
  import opened Pdata
  import opened Identity
  import opened Traversal
  import opened Live
  import opened Buffer
  import opened Gossip
  import opened Sampler
  import opened SignalLedger
  import opened Subsequence
  import MetricRollup
  import LogRollup

  // ---------------------------------------------------------------------------
  // Windows of lists
  // ---------------------------------------------------------------------------

  lemma {:induction false} KeepIsSub<T>(p: T -> bool, s: seq<T>)
    ensures Sub(Keep(p, s), s)
  {
    hide Sub;
    if s == [] {
      SubOfItself(s);
    } else {
      KeepIsSub(p, s[1..]);
      SubAfterHead(Keep(p, s[1..]), s[1..], s[0]);
      assert [s[0]] + s[1..] == s;
    }
  }

  function Both<T>(p: T -> bool, q: T -> bool): T -> bool {
    (x: T) => p(x) && q(x)
  }

  /** Taking elements out of a list takes elements out of its windows. */
  lemma ThinnedWindow<P(!new)>(q: Timed<P> -> bool, s: seq<Timed<P>>, lo: int, hi: int)
    ensures Sub(Range(Keep(q, s), lo, hi), Range(s, lo, hi))
  {
    hide Sub;
    var w := Within<P>(lo, hi);
    KeepTwice(q, w, Both(q, w), s);
    KeepTwice(w, q, Both(q, w), s);
    KeepIsSub(q, Range(s, lo, hi));
  }

  /** What is stored after the window's end is not in the window. */
  lemma {:induction false} LateInsert<P(!new)>(s: seq<Timed<P>>, t: Timed<P>, lo: int, hi: int)
    requires t.at.ts > hi
    ensures Range(Insert(s, t), lo, hi) == Range(s, lo, hi)
  {
    var r := Insert(s, t);
    if s == [] {
      assert r[1..] == [];
    } else {
      LateInsert(s[1..], t, lo, hi);
      if t.at == s[0].at {
        assert r[1..] == s[1..];
      } else if Less(t.at, s[0].at) {
        assert r[1..] == s;
      } else {
        assert r[1..] == Insert(s[1..], t);
      }
    }
  }

  // ---------------------------------------------------------------------------
  // Steps
  // ---------------------------------------------------------------------------

  /** What `q` has in the window, `p` had. */
  ghost predicate Thinned(p: Plain, q: Plain, lo: int, hi: int) {
    Sub(Range(q.metrics, lo, hi), Range(p.metrics, lo, hi)) && Sub(Range(q.logs, lo, hi), Range(p.logs, lo, hi))
  }

  lemma SameIsThinned(p: Plain, q: Plain, lo: int, hi: int)
    requires Range(q.metrics, lo, hi) == Range(p.metrics, lo, hi) && Range(q.logs, lo, hi) == Range(p.logs, lo, hi)
    ensures Thinned(p, q, lo, hi)
  {
    hide Range, Sub;
    SubOfItself(Range(p.metrics, lo, hi));
    SubOfItself(Range(p.logs, lo, hi));
  }

  lemma ThinnedTwice(p: Plain, q: Plain, r: Plain, lo: int, hi: int)
    requires Thinned(p, q, lo, hi) && Thinned(q, r, lo, hi)
    ensures Thinned(p, r, lo, hi)
  {
    hide Range, Sub;
    SubTransitive(Range(r.metrics, lo, hi), Range(q.metrics, lo, hi), Range(p.metrics, lo, hi));
    SubTransitive(Range(r.logs, lo, hi), Range(q.logs, lo, hi), Range(p.logs, lo, hi));
  }

  lemma EvictThins(p: Plain, key: string, lo: int, hi: int)
    ensures Thinned(p, Evict(p, key), lo, hi)
  {
    hide Range, Sub, Find, Keep;
    ThinnedWindow(Opposite(KeyIs(key)), p.metrics, lo, hi);
    ThinnedWindow(Opposite(KeyIs(key)), p.logs, lo, hi);
    SubOfItself(Range(p.metrics, lo, hi));
    SubOfItself(Range(p.logs, lo, hi));
  }

  lemma {:induction false} RoomThins(p: Plain, key: string, victims: seq<string>, lo: int, hi: int)
    ensures Thinned(p, MakeRoom(p, key, victims), lo, hi)
  {
    hide Thinned, Evict;
    if victims == [] {
      SameIsThinned(p, p, lo, hi);
    } else {
      var init, v := victims[..|victims| - 1], victims[|victims| - 1];
      RoomThins(p, key, init, lo, hi);
      if v != key {
        EvictThins(MakeRoom(p, key, init), v, lo, hi);
        ThinnedTwice(p, MakeRoom(p, key, init), Evict(MakeRoom(p, key, init), v), lo, hi);
      }
    }
  }

  lemma SetThins(p: Plain, key: string, e: TraceEntry, o: SetOutcome, lo: int, hi: int)
    ensures Thinned(p, SetTrace(p, key, e, o), lo, hi)
  {
    hide MakeRoom, Thinned;
    RoomThins(p, key, o.victims, lo, hi);
    SameIsThinned(MakeRoom(p, key, o.victims), SetTrace(p, key, e, o), lo, hi);
    ThinnedTwice(p, MakeRoom(p, key, o.victims), SetTrace(p, key, e, o), lo, hi);
  }

  lemma {:induction false} SpansThin(p: Plain, rows: seq<Row<Span>>, order: seq<TraceID>, now: int,
      os: seq<SetOutcome>, lo: int, hi: int)
    requires |os| == |order|
    ensures Thinned(p, AddSpansEach(p, rows, order, now, os), lo, hi)
  {
    hide SetTrace, Thinned, Hex, RowsFor;
    if order == [] {
      SameIsThinned(p, p, lo, hi);
    } else {
      var n := |order| - 1;
      SpansThin(p, rows, order[..n], now, os[..n], lo, hi);
      var q := AddSpansEach(p, rows, order[..n], now, os[..n]);
      var e := EntryAt(q, Hex(order[n]), now);
      var e' := e.(spans := e.spans + RowsFor(SpanID(), rows, order[n]));
      SetThins(q, Hex(order[n]), e', os[n], lo, hi);
      ThinnedTwice(p, q, SetTrace(q, Hex(order[n]), e', os[n]), lo, hi);
    }
  }

  lemma {:induction false} LogsThin(p: Plain, rows: seq<Row<LogRecord>>, order: seq<TraceID>, now: int,
      os: seq<SetOutcome>, lo: int, hi: int)
    requires |os| == |order|
    ensures Thinned(p, AddLogsEach(p, rows, order, now, os), lo, hi)
  {
    hide SetTrace, Thinned, Hex, RowsFor;
    if order == [] {
      SameIsThinned(p, p, lo, hi);
    } else {
      var n := |order| - 1;
      LogsThin(p, rows, order[..n], now, os[..n], lo, hi);
      var q := AddLogsEach(p, rows, order[..n], now, os[..n]);
      var e := EntryAt(q, Hex(order[n]), now);
      var e' := e.(logs := e.logs + RowsFor(LogID(), rows, order[n]));
      SetThins(q, Hex(order[n]), e', os[n], lo, hi);
      ThinnedTwice(p, q, SetTrace(q, Hex(order[n]), e', os[n]), lo, hi);
    }
  }

  lemma LateMetric(p: Plain, at: TimeKey, m: Metrics, o: SetOutcome, lo: int, hi: int)
    requires at.ts > hi
    ensures Thinned(p, Live.StoreMetric(p, at, m, o), lo, hi)
  {
    hide MakeRoom, Thinned, Insert, Range;
    var q := MakeRoom(p, at.key, o.victims);
    RoomThins(p, at.key, o.victims, lo, hi);
    LateInsert(q.metrics, Timed(at, m), lo, hi);
    SameIsThinned(q, Live.StoreMetric(p, at, m, o), lo, hi);
    ThinnedTwice(p, q, Live.StoreMetric(p, at, m, o), lo, hi);
  }

  lemma LateLogs(p: Plain, at: TimeKey, l: Logs, o: SetOutcome, lo: int, hi: int)
    requires at.ts > hi
    ensures Thinned(p, Live.StoreTimeLogs(p, at, l, o), lo, hi)
  {
    hide MakeRoom, Thinned, Insert, Range;
    var q := MakeRoom(p, at.key, o.victims);
    RoomThins(p, at.key, o.victims, lo, hi);
    LateInsert(q.logs, Timed(at, l), lo, hi);
    SameIsThinned(q, Live.StoreTimeLogs(p, at, l, o), lo, hi);
    ThinnedTwice(p, q, Live.StoreTimeLogs(p, at, l, o), lo, hi);
  }

  lemma LateSplit(p: Plain, rows: seq<Row<LogRecord>>, order: seq<TraceID>, now: int, os: seq<SetOutcome>,
      at: TimeKey, o: SetOutcome, lo: int, hi: int)
    requires |os| == |order| && at.ts > hi
    ensures Thinned(p, StoreSplit(p, rows, order, now, os, at, o), lo, hi)
  {
    hide AddLogsEach, Live.StoreTimeLogs, Thinned, RowsFor;
    var q, l := AddLogsEach(p, rows, order, now, os), RowsFor(LogID(), rows, NO_TRACE);
    LogsThin(p, rows, order, now, os, lo, hi);
    if l != [] {
      LateLogs(q, at, l, o, lo, hi);
      ThinnedTwice(p, q, Live.StoreTimeLogs(q, at, l, o), lo, hi);
    }
  }

  lemma DecisionThins(p: Proc, d: Decision, lo: int, hi: int)
    ensures Thinned(p.buf, Decide(p, d).buf, lo, hi)
  {
    hide Range, Sub, Hex, ParseID, WindowStart, WindowEnd, FindTrace, FindTraceLogs, Keep, Concat, MetricSignals,
      LogSignals;
    var from, to := WindowStart(d), WindowEnd(d);
    ThinnedWindow(Opposite(Within<Metrics>(from, to)), p.buf.metrics, lo, hi);
    ThinnedWindow(Opposite(Within<Logs>(from, to)), p.buf.logs, lo, hi);
    SubOfItself(Range(p.buf.metrics, lo, hi));
    SubOfItself(Range(p.buf.logs, lo, hi));
  }

  /** The step may run between the fetch and the removal of a rollup that started
      at `now`; the clock does not go back. */
  predicate Meanwhile(s: Step, now: int) {
    match s
    case StoreMetric(at, _, _) => at.ts >= now
    case StoreLogs(_, _, _, _, at, _) => at.ts >= now
    case PerformRollup(_, _) => false
    case _ => true
  }

  lemma StepThins(p: Proc, s: Step, now: int, lo: int)
    requires Meanwhile(s, now)
    ensures Thinned(p.buf, Next(p, s).buf, lo, now - 10 * SECOND)
  {
    hide Thinned, Live.StoreMetric, AddSpansEach, StoreSplit, Evict, Decide, Remembered;
    var hi := now - 10 * SECOND;
    SameIsThinned(p.buf, p.buf, lo, hi);
    if p.dead {
      return;
    }
    match s
    case StoreMetric(at, m, o) => LateMetric(p.buf, at, m, o, lo, hi);
    case StoreSpans(rows, order, at, os) =>
      if |os| == |order| {
        SpansThin(p.buf, rows, order, at, os, lo, hi);
      }
    case StoreLogs(rows, order, t, os, at, o) =>
      if |os| == |order| {
        LateSplit(p.buf, rows, order, t, os, at, o, lo, hi);
      }
    case EvictKey(key) => EvictThins(p.buf, key, lo, hi);
    case DrainEvicted => SameIsThinned(p.buf, Next(p, s).buf, lo, hi);
    case ProcessDecision(d) => DecisionThins(p, d, lo, hi);
    case SetLevel(level) =>
  }

  ghost predicate LegalFrom(p: Proc, steps: seq<Step>) {
    steps != [] ==> LegalFrom(p, steps[..|steps| - 1]) && Legal(Through(p, steps[..|steps| - 1]), steps[|steps| - 1])
  }

  /** Whatever happens in between, all that a rollup removes it had fetched: no late
      arrival is lost. */
  lemma {:induction false} RemovedWasFetched(p: Proc, steps: seq<Step>, now: int, lo: int)
    requires forall s <- steps :: Meanwhile(s, now)
    ensures Thinned(p.buf, Through(p, steps).buf, lo, now - 10 * SECOND)
  {
    hide Thinned, Next;
    var hi := now - 10 * SECOND;
    if steps == [] {
      SameIsThinned(p.buf, p.buf, lo, hi);
    } else {
      var init, s := steps[..|steps| - 1], steps[|steps| - 1];
      assert s in steps && forall x <- init :: x in steps;
      RemovedWasFetched(p, init, now, lo);
      StepThins(Through(p, init), s, now, lo);
      ThinnedTwice(p.buf, Through(p, init).buf, Through(p, steps).buf, lo, hi);
    }
  }

  // ---------------------------------------------------------------------------
  // The ledger of a rollup that is not one step
  // ---------------------------------------------------------------------------

  function Beyond<T>(s: seq<T>, n: nat): seq<T> {
    if n <= |s| then s[n..] else []
  }

  /** The end of a rollup that fetched metrics when the buffer was `a` and untraced
      logs when it was `b`, took the evicted lists in `m`, and ends in `q`: it exports
      what it fetched and took, and removes what is there now. */
  ghost function Finish(a: Plain, b: Plain, m: Proc, q: Proc, enabled: bool, now: int): Proc {
    var end := now - 10 * SECOND;
    var ms := Data(Range(a.metrics, ZERO_TIME, end)) + m.evictedMetrics;
    var ls := Data(Range(b.logs, ZERO_TIME, end)) + m.evictedLogs;
    var q' := q.(evictedMetrics := Beyond(q.evictedMetrics, |m.evictedMetrics|),
      evictedLogs := Beyond(q.evictedLogs, |m.evictedLogs|));
    var r := RollupMetricsStep(q', enabled, ms, end);
    if r.dead then q.(dead := true) else RollupLogsStep(r, enabled, ls, end)
  }

  /** The lists of evicted signals only grow between rollups. */
  ghost predicate Queued(p: Proc, q: Proc) {
    p.evictedMetrics <= q.evictedMetrics && p.evictedLogs <= q.evictedLogs
  }

  lemma StepQueues(p: Proc, s: Step)
    requires !s.PerformRollup?
    ensures Queued(p, Next(p, s))
  {
    hide Live.StoreMetric, AddSpansEach, StoreSplit, Evict, Remembered, Range, OutOfRange, Hex, ParseID;
  }

  lemma {:induction false} StepsQueue(p: Proc, steps: seq<Step>, now: int)
    requires forall s <- steps :: Meanwhile(s, now)
    ensures Queued(p, Through(p, steps))
  {
    hide Next;
    if steps != [] {
      assert steps[|steps| - 1] in steps && forall x <- steps[..|steps| - 1] :: x in steps;
      StepsQueue(p, steps[..|steps| - 1], now);
      StepQueues(Through(p, steps[..|steps| - 1]), steps[|steps| - 1]);
    }
  }

  lemma {:induction false} StepsBalance(p: Proc, steps: seq<Step>)
    requires Balanced(p) && LegalFrom(p, steps)
    ensures Balanced(Through(p, steps))
  {
    hide Balanced, Next, Legal;
    if steps != [] {
      StepsBalance(p, steps[..|steps| - 1]);
      StepBalances(Through(p, steps[..|steps| - 1]), steps[|steps| - 1]);
    }
  }

  function OldMetrics(p: Plain, end: int): multiset<Signal> {
    multiset(MetricSignals(Data(Range(p.metrics, ZERO_TIME, end))))
  }

  function OldLogs(p: Plain, end: int): multiset<Signal> {
    multiset(LogSignals(Data(Range(p.logs, ZERO_TIME, end))))
  }

  lemma {:induction false} SubBagMetrics(a: seq<Timed<Metrics>>, b: seq<Timed<Metrics>>)
    requires Sub(a, b)
    ensures multiset(MetricSignals(Data(a))) <= multiset(MetricSignals(Data(b)))
    decreases |b|
  {
    if b != [] {
      assert MetricSignals(Data(b)) == MetricSignals(Data(b[..|b| - 1])) + [MetricSignal(b[|b| - 1].data)];
      if a == [] {
        assert MetricSignals(Data(a)) == [];
      } else if a[|a| - 1] == b[|b| - 1] && Sub(a[..|a| - 1], b[..|b| - 1]) {
        assert MetricSignals(Data(a)) == MetricSignals(Data(a[..|a| - 1])) + [MetricSignal(a[|a| - 1].data)];
        SubBagMetrics(a[..|a| - 1], b[..|b| - 1]);
      } else {
        SubBagMetrics(a, b[..|b| - 1]);
      }
    }
  }

  lemma {:induction false} SubBagLogs(a: seq<Timed<Logs>>, b: seq<Timed<Logs>>)
    requires Sub(a, b)
    ensures multiset(LogSignals(Data(a))) <= multiset(LogSignals(Data(b)))
    decreases |b|
  {
    if b != [] {
      assert LogSignals(Data(b)) == LogSignals(Data(b[..|b| - 1])) + [LogSignal(b[|b| - 1].data)];
      if a == [] {
        assert LogSignals(Data(a)) == [];
      } else if a[|a| - 1] == b[|b| - 1] && Sub(a[..|a| - 1], b[..|b| - 1]) {
        assert LogSignals(Data(a)) == LogSignals(Data(a[..|a| - 1])) + [LogSignal(a[|a| - 1].data)];
        SubBagLogs(a[..|a| - 1], b[..|b| - 1]);
      } else {
        SubBagLogs(a, b[..|b| - 1]);
      }
    }
  }

  /** `extra` is counted in two places, nothing else is. */
  ghost predicate OverBy(p: Proc, extra: multiset<Signal>) {
    Named(p.buf) && multiset(p.buf.stored) + extra == Places(p)
  }

  /** What is counted twice after `moved` has gone out, of which only `removed`
      was taken away. */
  lemma Recount(stored: multiset<Signal>, extra: multiset<Signal>, held: multiset<Signal>, removed: multiset<Signal>,
      queued: multiset<Signal>, taken: multiset<Signal>, fetched: multiset<Signal>, rest: multiset<Signal>)
    requires removed <= fetched
    requires stored + extra == (held + removed) + (taken + queued) + rest
    ensures stored + (extra + (fetched - removed)) == held + queued + (rest + (fetched + taken))
  {
    forall x ensures (stored + (extra + (fetched - removed)))[x] == (held + queued + (rest + (fetched + taken)))[x] {
      assert (stored + extra)[x] == ((held + removed) + (taken + queued) + rest)[x];
    }
  }

  lemma MetricPlaces(p: Proc)
    ensures Places(p) == Held(p.buf) + multiset(MetricSignals(p.evictedMetrics))
              + (multiset(LogSignals(p.evictedLogs)) + multiset(p.ledger.raw) + multiset(p.ledger.rolledUp))
  {
    hide Held;
  }

  lemma LogPlaces(p: Proc)
    ensures Places(p) == Held(p.buf) + multiset(LogSignals(p.evictedLogs))
              + (multiset(MetricSignals(p.evictedMetrics)) + multiset(p.ledger.raw) + multiset(p.ledger.rolledUp))
  {
    hide Held;
  }

  lemma FinishMetrics(q: Proc, enabled: bool, fetched: seq<Metrics>, evicted: seq<Metrics>, end: int,
      extra: multiset<Signal>)
    requires evicted <= q.evictedMetrics && OverBy(q, extra) && !q.dead
    requires multiset(MetricSignals(Data(Range(q.buf.metrics, ZERO_TIME, end)))) <= multiset(MetricSignals(fetched))
    ensures var q' := q.(evictedMetrics := q.evictedMetrics[|evicted|..]);
            var r := RollupMetricsStep(q', enabled, fetched + evicted, end);
            var removed := multiset(MetricSignals(Data(Range(q.buf.metrics, ZERO_TIME, end))));
            r.dead || (
              && OverBy(r, extra + (multiset(MetricSignals(fetched)) - removed))
              && r.buf.logs == q.buf.logs && r.evictedLogs == q.evictedLogs)
  {
    hide Held, Named, MetricRollup.RolledUp, Range, OutOfRange, Places;
    MetricWindowBag(q.buf, ZERO_TIME, end);
    MetricSignalsConcat(fetched, evicted);
    MetricSignalsConcat(evicted, q.evictedMetrics[|evicted|..]);
    assert evicted + q.evictedMetrics[|evicted|..] == q.evictedMetrics;
    var q' := q.(evictedMetrics := q.evictedMetrics[|evicted|..]);
    var r := RollupMetricsStep(q', enabled, fetched + evicted, end);
    var rest := multiset(LogSignals(q.evictedLogs)) + multiset(q.ledger.raw) + multiset(q.ledger.rolledUp);
    var removed := multiset(MetricSignals(Data(Range(q.buf.metrics, ZERO_TIME, end))));
    MetricPlaces(q);
    MetricPlaces(r);
    Recount(multiset(q.buf.stored), extra, Held(q.buf.(metrics := OutOfRange(q.buf.metrics, ZERO_TIME, end))), removed,
      multiset(MetricSignals(q'.evictedMetrics)), multiset(MetricSignals(evicted)),
      multiset(MetricSignals(fetched)), rest);
    if fetched + evicted == [] {
      NothingMoved(fetched, evicted);
    }
  }

  lemma NothingMoved(fetched: seq<Metrics>, evicted: seq<Metrics>)
    requires fetched + evicted == []
    ensures MetricSignals(fetched) == [] && MetricSignals(evicted) == []
  {
  }

  lemma NoLogsMoved(fetched: seq<Logs>, evicted: seq<Logs>)
    requires fetched + evicted == []
    ensures LogSignals(fetched) == [] && LogSignals(evicted) == []
  {
  }

  lemma FinishLogs(q: Proc, enabled: bool, fetched: seq<Logs>, evicted: seq<Logs>, end: int, extra: multiset<Signal>)
    requires evicted <= q.evictedLogs && OverBy(q, extra)
    requires multiset(LogSignals(Data(Range(q.buf.logs, ZERO_TIME, end)))) <= multiset(LogSignals(fetched))
    ensures var removed := multiset(LogSignals(Data(Range(q.buf.logs, ZERO_TIME, end))));
            OverBy(RollupLogsStep(q.(evictedLogs := q.evictedLogs[|evicted|..]), enabled, fetched + evicted, end),
                   extra + (multiset(LogSignals(fetched)) - removed))
  {
    hide Held, Named, LogRollup.RolledUpLogs, Range, OutOfRange, Places;
    LogWindowBag(q.buf, ZERO_TIME, end);
    LogSignalsConcat(fetched, evicted);
    LogSignalsConcat(evicted, q.evictedLogs[|evicted|..]);
    assert evicted + q.evictedLogs[|evicted|..] == q.evictedLogs;
    var q' := q.(evictedLogs := q.evictedLogs[|evicted|..]);
    var r := RollupLogsStep(q', enabled, fetched + evicted, end);
    var rest := multiset(MetricSignals(q.evictedMetrics)) + multiset(q.ledger.raw) + multiset(q.ledger.rolledUp);
    var removed := multiset(LogSignals(Data(Range(q.buf.logs, ZERO_TIME, end))));
    LogPlaces(q);
    LogPlaces(r);
    Recount(multiset(q.buf.stored), extra, Held(q.buf.(logs := OutOfRange(q.buf.logs, ZERO_TIME, end))), removed,
      multiset(LogSignals(q'.evictedLogs)), multiset(LogSignals(evicted)), multiset(LogSignals(fetched)), rest);
    if fetched + evicted == [] {
      NoLogsMoved(fetched, evicted);
    }
  }

  /** A rollup is not one step: others come between the fetch of the metrics, that of
      the logs, the taking of the evicted lists and the removal. Each signal is still
      in exactly one place, except those fetched that something else took away before
      the removal: these are in two. */
  lemma OnlySignalsTakenMeanwhileCountTwice(p: Proc, s1: seq<Step>, s2: seq<Step>, s3: seq<Step>, enabled: bool,
      now: int)
    requires var b := Through(p, s1);
             var m := Through(b, s2);
             && Balanced(p) && LegalFrom(p, s1) && LegalFrom(b, s2) && LegalFrom(m, s3)
             && (forall s <- s1 :: Meanwhile(s, now)) && (forall s <- s2 :: Meanwhile(s, now))
             && (forall s <- s3 :: Meanwhile(s, now))
             && !Finish(p.buf, b.buf, m, Through(m, s3), enabled, now).dead
    ensures var b := Through(p, s1);
            var m := Through(b, s2);
            var q, end := Through(m, s3), now - 10 * SECOND;
            && OldMetrics(q.buf, end) <= OldMetrics(p.buf, end) && OldLogs(q.buf, end) <= OldLogs(b.buf, end)
            && OverBy(Finish(p.buf, b.buf, m, q, enabled, now),
                      (OldMetrics(p.buf, end) - OldMetrics(q.buf, end)) + (OldLogs(b.buf, end) - OldLogs(q.buf, end)))
  {
    hide *;
    var b, end := Through(p, s1), now - 10 * SECOND;
    var m := Through(b, s2);
    var q := Through(m, s3);
    RemovedWasFetched(p, s1, now, ZERO_TIME);
    RemovedWasFetched(b, s2, now, ZERO_TIME);
    RemovedWasFetched(m, s3, now, ZERO_TIME);
    ThinnedTwice(b.buf, m.buf, q.buf, ZERO_TIME, end);
    ThinnedTwice(p.buf, b.buf, q.buf, ZERO_TIME, end);
    StepsBalance(p, s1);
    StepsBalance(b, s2);
    StepsBalance(m, s3);
    StepsQueue(m, s3, now);
    BothHalves(p.buf, b.buf, m, q, enabled, now);
  }

  lemma BothHalves(a: Plain, b: Plain, m: Proc, q: Proc, enabled: bool, now: int)
    requires Balanced(q) && Queued(m, q)
    requires Thinned(a, q.buf, ZERO_TIME, now - 10 * SECOND) && Thinned(b, q.buf, ZERO_TIME, now - 10 * SECOND)
    requires !Finish(a, b, m, q, enabled, now).dead
    ensures var end := now - 10 * SECOND;
            && OldMetrics(q.buf, end) <= OldMetrics(a, end) && OldLogs(q.buf, end) <= OldLogs(b, end)
            && OverBy(Finish(a, b, m, q, enabled, now),
                      (OldMetrics(a, end) - OldMetrics(q.buf, end)) + (OldLogs(b, end) - OldLogs(q.buf, end)))
  {
    hide RollupMetricsStep, RollupLogsStep, Range, Data, OverBy, Sub;
    var end := now - 10 * SECOND;
    var fm, fl := Data(Range(a.metrics, ZERO_TIME, end)), Data(Range(b.logs, ZERO_TIME, end));
    SubBagMetrics(Range(q.buf.metrics, ZERO_TIME, end), Range(a.metrics, ZERO_TIME, end));
    SubBagLogs(Range(q.buf.logs, ZERO_TIME, end), Range(b.logs, ZERO_TIME, end));
    NothingOver(q);
    if q.dead {
      DeadStaysDead(a, b, m, q, enabled, now);
      return;
    }
    FinishMetrics(q, enabled, fm, m.evictedMetrics, end, multiset{});
    var q' := q.(evictedMetrics := q.evictedMetrics[|m.evictedMetrics|..]);
    var r := RollupMetricsStep(q', enabled, fm + m.evictedMetrics, end);
    MetricsStepIgnoresLogs(q', enabled, fm + m.evictedMetrics, end, q.evictedLogs[|m.evictedLogs|..]);
    if !r.dead {
      var twice := OldMetrics(a, end) - OldMetrics(q.buf, end);
      assert multiset{} + twice == twice;
      FinishLogs(r, enabled, fl, m.evictedLogs, end, twice);
    }
  }

  lemma DeadStaysDead(a: Plain, b: Plain, m: Proc, q: Proc, enabled: bool, now: int)
    requires q.dead && Queued(m, q)
    ensures Finish(a, b, m, q, enabled, now).dead
  {
    hide MetricRollup.RolledUp, Range, OutOfRange;
  }

  lemma NothingOver(q: Proc)
    requires Balanced(q)
    ensures OverBy(q, multiset{})
  {
    hide Places, Named;
  }

  lemma MetricsStepIgnoresLogs(q: Proc, enabled: bool, ms: seq<Metrics>, end: int, logs: seq<Logs>)
    ensures RollupMetricsStep(q.(evictedLogs := logs), enabled, ms, end) ==
            RollupMetricsStep(q, enabled, ms, end).(evictedLogs := logs)
  {
    hide MetricRollup.RolledUp, OutOfRange;
  }
}
