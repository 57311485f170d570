/** The ledger in values: what was stored adds up to what is held and what was
    exported, whether raw or rolled up. */
module ValueLedger {
  import opened Int64
  import opened Keyed
  import opened Nest
  import opened Measure
  import opened Pdata
  import opened Filter
  import opened Identity
  import opened Live
  import opened Buffer
  import opened Gossip
  import opened Traversal
  import opened Sampler
  import opened SignalLedger
  import MetricRollup
  import MetricTheorems
  import MetricComposition
  import LogRollup
  import LogTheorems

  // ---------------------------------------------------------------------------
  // Any measure that exports respect
  // ---------------------------------------------------------------------------

  ghost predicate RawFair(weight: Signal -> int, exported: Export -> int, ok: Signal -> bool) {
    && (forall k, spans :: exported(TraceOut(k, spans)) == 0)
    && (forall k, logs :: exported(TraceLogsOut(k, logs)) == 0)
    && (forall ms {:trigger exported(MetricsOut(Concat(ms)))} | All(MetricSignals(ms), ok) ::
          Congruent(exported(MetricsOut(Concat(ms))), Sum(weight, MetricSignals(ms))))
    && (forall ls {:trigger exported(LogsOut(Concat(ls), false))} | All(LogSignals(ls), ok) ::
          Congruent(exported(LogsOut(Concat(ls), false)), Sum(weight, LogSignals(ls))))
  }

  ghost predicate RollupFair(weight: Signal -> int, exported: Export -> int, ok: Signal -> bool) {
    && (forall l, e, ms {:trigger MetricRollup.RolledUp(l, e, ms)} |
          All(MetricSignals(ms), ok) && MetricRollup.RolledUp(l, e, ms).Some? ::
          Congruent(exported(MetricsOut(MetricRollup.RolledUp(l, e, ms).value)), Sum(weight, MetricSignals(ms))))
    && (forall l, e, ls {:trigger LogRollup.RolledUpLogs(l, e, ls)} | All(LogSignals(ls), ok) ::
          Congruent(exported(LogsOut(LogRollup.RolledUpLogs(l, e, ls), l != Fine && e)), Sum(weight, LogSignals(ls))))
  }

  /** Exports weigh what was put into them. */
  ghost predicate Fair(weight: Signal -> int, exported: Export -> int, ok: Signal -> bool) {
    RawFair(weight, exported, ok) && RollupFair(weight, exported, ok)
  }

  ghost predicate ExportsAgree(p: Proc, weight: Signal -> int, exported: Export -> int) {
    Congruent(Sum(exported, p.exports), Sum(weight, p.ledger.raw) + Sum(weight, p.ledger.rolledUp))
  }

  lemma OneMoreExport(p: Proc, q: Proc, weight: Signal -> int, exported: Export -> int, x: Export, sigs: seq<Signal>)
    requires ExportsAgree(p, weight, exported) && Congruent(exported(x), Sum(weight, sigs))
    requires q.exports == p.exports + [x]
    requires (q.ledger.raw == p.ledger.raw + sigs && q.ledger.rolledUp == p.ledger.rolledUp)
          || (q.ledger.raw == p.ledger.raw && q.ledger.rolledUp == p.ledger.rolledUp + sigs)
    ensures ExportsAgree(q, weight, exported)
  {
    hide Congruent;
    SumConcat(weight, p.ledger.raw, sigs);
    SumConcat(weight, p.ledger.rolledUp, sigs);
    assert q.exports[..|p.exports|] == p.exports;
    CongruentSums(Sum(exported, p.exports), Sum(weight, p.ledger.raw) + Sum(weight, p.ledger.rolledUp), exported(x),
      Sum(weight, sigs));
  }

  lemma DecideAgrees(p: Proc, d: Decision, weight: Signal -> int, exported: Export -> int, ok: Signal -> bool)
    requires RawFair(weight, exported, ok) && ExportsAgree(p, weight, exported) && HeldOk(p, ok)
    ensures ExportsAgree(Decide(p, d), weight, exported)
  {
    hide RawFair, ExportsAgree, ExportMetricWindow, ExportLogWindow, ExportTrace, ExportTraceLogs, WindowStart,
      WindowEnd;
    var t := ParseID(d.traceId);
    if t.Some? {
      var key, lo, hi := Hex(t.value), WindowStart(d), WindowEnd(d);
      TraceExportsAgree(p, key, weight, exported, ok);
      var q := ExportTraceLogs(ExportTrace(p, key), key);
      MetricWindowAgrees(q, lo, hi, weight, exported, ok);
      LogWindowAgrees(ExportMetricWindow(q, lo, hi), lo, hi, weight, exported, ok);
    }
  }

  /** Everything held is acceptable. */
  ghost predicate HeldOk(p: Proc, ok: Signal -> bool) {
    && (forall t <- p.buf.metrics :: ok(MetricSignal(t.data)))
    && (forall t <- p.buf.logs :: ok(LogSignal(t.data)))
    && (forall m <- p.evictedMetrics :: ok(MetricSignal(m)))
    && (forall l <- p.evictedLogs :: ok(LogSignal(l)))
  }

  lemma TraceExportsAgree(p: Proc, key: string, weight: Signal -> int, exported: Export -> int, ok: Signal -> bool)
    requires RawFair(weight, exported, ok) && ExportsAgree(p, weight, exported) && HeldOk(p, ok)
    ensures var q := ExportTraceLogs(ExportTrace(p, key), key);
            ExportsAgree(q, weight, exported) && HeldOk(q, ok)
  {
    hide Congruent;
    var q := ExportTrace(p, key);
    if q != p {
      assert q.exports[..|p.exports|] == p.exports;
    }
    var r := ExportTraceLogs(q, key);
    if r != q {
      assert r.exports[..|q.exports|] == q.exports;
    }
  }

  lemma DataOk<P(!new)>(s: seq<Timed<P>>, p: Timed<P> -> bool, good: P -> bool)
    requires forall t <- s :: good(t.data)
    ensures forall x <- Data(Keep(p, s)) :: good(x)
  {
    KeepMembers(p, s);
    forall x | x in Data(Keep(p, s)) ensures good(x) {
      var i :| 0 <= i < |Keep(p, s)| && Data(Keep(p, s))[i] == x;
      assert Keep(p, s)[i] in Keep(p, s);
    }
  }

  lemma MetricRangeOk(p: Proc, lo: int, hi: int, ok: Signal -> bool)
    requires HeldOk(p, ok)
    ensures forall m <- Data(Range(p.buf.metrics, lo, hi)) :: ok(MetricSignal(m))
    ensures All(MetricSignals(Data(Range(p.buf.metrics, lo, hi))), ok)
  {
    var good := (m: Metrics) => ok(MetricSignal(m));
    DataOk(p.buf.metrics, Within<Metrics>(lo, hi), good);
    assert forall m <- Data(Range(p.buf.metrics, lo, hi)) :: good(m);
  }

  lemma LogRangeOk(p: Proc, lo: int, hi: int, ok: Signal -> bool)
    requires HeldOk(p, ok)
    ensures forall l <- Data(Range(p.buf.logs, lo, hi)) :: ok(LogSignal(l))
    ensures All(LogSignals(Data(Range(p.buf.logs, lo, hi))), ok)
  {
    var good := (l: Logs) => ok(LogSignal(l));
    DataOk(p.buf.logs, Within<Logs>(lo, hi), good);
    assert forall l <- Data(Range(p.buf.logs, lo, hi)) :: good(l);
  }

  lemma SameExports(p: Proc, q: Proc, weight: Signal -> int, exported: Export -> int)
    requires ExportsAgree(p, weight, exported) && q.exports == p.exports && q.ledger == p.ledger
    ensures ExportsAgree(q, weight, exported)
  {
  }

  lemma MetricWindowAgrees(p: Proc, lo: int, hi: int, weight: Signal -> int, exported: Export -> int,
      ok: Signal -> bool)
    requires RawFair(weight, exported, ok) && ExportsAgree(p, weight, exported) && HeldOk(p, ok)
    ensures ExportsAgree(ExportMetricWindow(p, lo, hi), weight, exported) && HeldOk(ExportMetricWindow(p, lo, hi), ok)
  {
    hide Congruent, ExportsAgree;
    var ms := Data(Range(p.buf.metrics, lo, hi));
    MetricRangeOk(p, lo, hi, ok);
    KeepMembers(Opposite(Within<Metrics>(lo, hi)), p.buf.metrics);
    if ms != [] {
      OneMoreExport(p, ExportMetricWindow(p, lo, hi), weight, exported, MetricsOut(Concat(ms)), MetricSignals(ms));
    }
  }

  lemma LogWindowAgrees(p: Proc, lo: int, hi: int, weight: Signal -> int, exported: Export -> int, ok: Signal -> bool)
    requires RawFair(weight, exported, ok) && ExportsAgree(p, weight, exported) && HeldOk(p, ok)
    ensures ExportsAgree(ExportLogWindow(p, lo, hi), weight, exported)
  {
    hide Congruent, ExportsAgree;
    var ls := Data(Range(p.buf.logs, lo, hi));
    LogRangeOk(p, lo, hi, ok);
    if ls != [] {
      OneMoreExport(p, ExportLogWindow(p, lo, hi), weight, exported, LogsOut(Concat(ls), false), LogSignals(ls));
    }
  }

  lemma RollupMetricsAgree(p: Proc, enabled: bool, ms: seq<Metrics>, end: int,
      weight: Signal -> int, exported: Export -> int, ok: Signal -> bool)
    requires RollupFair(weight, exported, ok) && ExportsAgree(p, weight, exported)
    requires forall m <- ms :: ok(MetricSignal(m))
    ensures ExportsAgree(RollupMetricsStep(p, enabled, ms, end), weight, exported)
  {
    hide Congruent, MetricRollup.RolledUp, OutOfRange;
    var q := RollupMetricsStep(p, enabled, ms, end);
    var rolled := MetricRollup.RolledUp(p.level, enabled, ms);
    if ms != [] && rolled.Some? {
      OneMoreExport(p, q, weight, exported, MetricsOut(rolled.value), MetricSignals(ms));
    }
  }

  lemma RollupLogsAgree(p: Proc, enabled: bool, ls: seq<Logs>, end: int,
      weight: Signal -> int, exported: Export -> int, ok: Signal -> bool)
    requires RollupFair(weight, exported, ok) && ExportsAgree(p, weight, exported)
    requires forall l <- ls :: ok(LogSignal(l))
    ensures ExportsAgree(RollupLogsStep(p, enabled, ls, end), weight, exported)
  {
    hide Congruent, LogRollup.RolledUpLogs, OutOfRange;
    var q := RollupLogsStep(p, enabled, ls, end);
    if ls != [] {
      var out := LogRollup.RolledUpLogs(p.level, enabled, ls);
      OneMoreExport(p, q, weight, exported, LogsOut(out, p.level != Fine && enabled), LogSignals(ls));
    }
  }

  lemma TakenOk(p: Proc, end: int, ok: Signal -> bool)
    requires HeldOk(p, ok)
    ensures forall m <- Data(Range(p.buf.metrics, ZERO_TIME, end)) + p.evictedMetrics :: ok(MetricSignal(m))
    ensures forall l <- Data(Range(p.buf.logs, ZERO_TIME, end)) + p.evictedLogs :: ok(LogSignal(l))
  {
    hide Range;
    MetricRangeOk(p, ZERO_TIME, end, ok);
    LogRangeOk(p, ZERO_TIME, end, ok);
  }

  lemma RollupAgrees(p: Proc, enabled: bool, now: int, weight: Signal -> int, exported: Export -> int,
      ok: Signal -> bool)
    requires RollupFair(weight, exported, ok) && ExportsAgree(p, weight, exported) && HeldOk(p, ok) && !p.dead
    ensures ExportsAgree(Rollup(p, enabled, now), weight, exported)
  {
    hide RollupFair, Range, RollupMetricsStep, RollupLogsStep, ExportsAgree, HeldOk, Data;
    var end := now - 10 * SECOND;
    var p' := p.(evictedMetrics := [], evictedLogs := []);
    var ms := Data(Range(p.buf.metrics, ZERO_TIME, end)) + p.evictedMetrics;
    var ls := Data(Range(p.buf.logs, ZERO_TIME, end)) + p.evictedLogs;
    TakenOk(p, end, ok);
    SameExports(p, p', weight, exported);
    RollupMetricsAgree(p', enabled, ms, end, weight, exported, ok);
    var q := RollupMetricsStep(p', enabled, ms, end);
    RollupLogsAgree(q, enabled, ls, end, weight, exported, ok);
    SameExports(p, p.(dead := true), weight, exported);
  }

  /** Everything ever stored is acceptable. */
  ghost predicate StoredOk(p: Proc, ok: Signal -> bool) {
    forall sig <- p.buf.stored :: ok(sig)
  }

  lemma PlacesOk(p: Proc, ok: Signal -> bool)
    requires Balanced(p) && StoredOk(p, ok)
    ensures forall sig <- Held(p.buf) :: ok(sig)
    ensures forall sig <- MetricSignals(p.evictedMetrics) :: ok(sig)
    ensures forall sig <- LogSignals(p.evictedLogs) :: ok(sig)
  {
    hide Named, Held;
    assert forall sig <- multiset(p.buf.stored) :: ok(sig);
    assert forall sig <- Places(p) :: ok(sig);
    forall sig | sig in MetricSignals(p.evictedMetrics) ensures ok(sig) {
      assert sig in multiset(MetricSignals(p.evictedMetrics));
      assert sig in Places(p);
    }
    forall sig | sig in LogSignals(p.evictedLogs) ensures ok(sig) {
      assert sig in multiset(LogSignals(p.evictedLogs));
      assert sig in Places(p);
    }
  }

  /** What is held was stored. */
  lemma StoredThenHeld(p: Proc, ok: Signal -> bool)
    requires Balanced(p) && StoredOk(p, ok)
    ensures HeldOk(p, ok)
  {
    hide Bag, Balanced, StoredOk;
    PlacesOk(p, ok);
    BagOfMetrics(p.buf.metrics);
    BagOfLogs(p.buf.logs);
    forall t | t in p.buf.metrics ensures ok(MetricSignal(t.data)) {
      var i :| 0 <= i < |p.buf.metrics| && p.buf.metrics[i] == t;
      assert MetricSignals(Data(p.buf.metrics))[i] in Bag(AsMetric(), p.buf.metrics);
    }
    forall t | t in p.buf.logs ensures ok(LogSignal(t.data)) {
      var i :| 0 <= i < |p.buf.logs| && p.buf.logs[i] == t;
      assert LogSignals(Data(p.buf.logs))[i] in Bag(AsLog(), p.buf.logs);
    }
    forall m | m in p.evictedMetrics ensures ok(MetricSignal(m)) {
      var i :| 0 <= i < |p.evictedMetrics| && p.evictedMetrics[i] == m;
      assert MetricSignals(p.evictedMetrics)[i] == MetricSignal(m);
    }
    forall l | l in p.evictedLogs ensures ok(LogSignal(l)) {
      var i :| 0 <= i < |p.evictedLogs| && p.evictedLogs[i] == l;
      assert LogSignals(p.evictedLogs)[i] == LogSignal(l);
    }
  }

  /** Stores, evictions and level changes export nothing. */
  lemma QuietSteps(p: Proc, s: Step)
    requires !s.ProcessDecision? && !s.PerformRollup?
    ensures var q := Next(p, s);
            q.exports == p.exports && q.ledger.raw == p.ledger.raw && q.ledger.rolledUp == p.ledger.rolledUp
  {
  }

  lemma StepAgrees(p: Proc, s: Step, weight: Signal -> int, exported: Export -> int, ok: Signal -> bool)
    requires Fair(weight, exported, ok) && Balanced(p) && ExportsAgree(p, weight, exported) && StoredOk(p, ok)
    ensures ExportsAgree(Next(p, s), weight, exported)
  {
    hide RawFair, RollupFair, Balanced, StoredOk, HeldOk, Decide, Rollup;
    StoredThenHeld(p, ok);
    match s
    case ProcessDecision(d) => DecideAgrees(p, d, weight, exported, ok);
    case PerformRollup(enabled, now) =>
      if !p.dead {
        RollupAgrees(p, enabled, now, weight, exported, ok);
      }
    case _ => QuietSteps(p, s);
  }

  lemma StoredOnlyGrows(p: Proc, s: Step)
    requires Balanced(p) && Legal(p, s)
    ensures p.buf.stored <= Next(p, s).buf.stored
  {
    hide Named, Held, Places, Unused, MakeRoom, AddSpansEach, AddLogsEach, RowsFor, Remembered;
    match s
    case StoreMetric(at, m, o) => MakeRoomConserves(p.buf, at.key, o.victims);
    case StoreSpans(rows, order, now, os) => AddSpansConserves(p.buf, rows, order, now, os);
    case StoreLogs(rows, order, now, os, at, o) =>
      AddLogsConserves(p.buf, rows, order, now, os);
      var q := AddLogsEach(p.buf, rows, order, now, os);
      MakeRoomConserves(q, at.key, o.victims);
    case _ => QuietStores(p, s);
  }

  lemma QuietStores(p: Proc, s: Step)
    requires !s.StoreMetric? && !s.StoreSpans? && !s.StoreLogs?
    ensures Next(p, s).buf.stored == p.buf.stored
  {
  }

  lemma {:induction false} RunAgrees(steps: seq<Step>, weight: Signal -> int, exported: Export -> int,
      ok: Signal -> bool)
    requires LegalRun(steps) && Fair(weight, exported, ok) && StoredOk(Run(steps), ok)
    ensures ExportsAgree(Run(steps), weight, exported)
  {
    hide Fair, Balanced, ExportsAgree, Next, Legal;
    if steps == [] {
      NothingExported(weight, exported);
    } else {
      var init, s := steps[..|steps| - 1], steps[|steps| - 1];
      EverySignalInOnePlace(init);
      StoredOnlyGrows(Run(init), s);
      assert forall sig <- Run(init).buf.stored :: sig in Run(steps).buf.stored;
      RunAgrees(init, weight, exported, ok);
      StepAgrees(Run(init), s, weight, exported, ok);
    }
  }

  lemma NothingExported(weight: Signal -> int, exported: Export -> int)
    ensures ExportsAgree(START, weight, exported)
  {
    SameIsCongruent(0);
  }

  // ---------------------------------------------------------------------------
  // Sums only depend on what is there
  // ---------------------------------------------------------------------------

  lemma {:induction false} SumOfBag(m: Signal -> int, xs: seq<Signal>, ys: seq<Signal>)
    requires multiset(xs) == multiset(ys)
    ensures Sum(m, xs) == Sum(m, ys)
  {
    if xs == [] {
      assert forall y <- ys :: y in multiset(ys);
    } else {
      var x, init := xs[|xs| - 1], xs[..|xs| - 1];
      assert xs == init + [x];
      assert x in multiset(ys);
      var a, b := TakeOut(m, init, ys, x);
      SumOfBag(m, init, a + b);
    }
  }

  lemma TakeOut(m: Signal -> int, rest: seq<Signal>, ys: seq<Signal>, x: Signal)
    returns (a: seq<Signal>, b: seq<Signal>)
    requires multiset(rest) + multiset{x} == multiset(ys)
    ensures multiset(rest) == multiset(a + b) && Sum(m, ys) == Sum(m, a + b) + m(x)
  {
    assert x in multiset(ys);
    var i :| 0 <= i < |ys| && ys[i] == x;
    a, b := ys[..i], ys[i + 1..];
    assert ys == a + [x] + b;
    SameRest(multiset(rest), multiset(a + b), x);
    SumConcat(m, a, b);
    SumConcat(m, a + [x], b);
    SumConcat(m, a, [x]);
  }

  lemma SameRest(a: multiset<Signal>, b: multiset<Signal>, x: Signal)
    requires a + multiset{x} == b + multiset{x}
    ensures a == b
  {
    forall y ensures a[y] == b[y] {
      assert (a + multiset{x})[y] == (b + multiset{x})[y];
    }
  }

  /** Everything a node still has, or has dropped from a full channel. */
  function StillHeld(p: Proc): seq<Signal> {
    MetricSignals(Data(p.buf.metrics)) + LogSignals(Data(p.buf.logs)) + p.buf.chan
    + MetricSignals(p.evictedMetrics) + LogSignals(p.evictedLogs) + p.buf.dropped
  }

  lemma HeldBag(p: Proc)
    requires Balanced(p)
    ensures multiset(p.buf.stored) == multiset(StillHeld(p) + p.ledger.raw + p.ledger.rolledUp)
  {
    hide Bag, Named;
    BagOfMetrics(p.buf.metrics);
    BagOfLogs(p.buf.logs);
  }

  lemma ValuesBalance(p: Proc, weight: Signal -> int, exported: Export -> int)
    requires Balanced(p) && ExportsAgree(p, weight, exported)
    ensures Congruent(Sum(weight, p.buf.stored), Sum(weight, StillHeld(p)) + Sum(exported, p.exports))
  {
    hide Balanced, StillHeld, Congruent, Sum;
    var held := StillHeld(p);
    HeldBag(p);
    SumOfBag(weight, p.buf.stored, held + p.ledger.raw + p.ledger.rolledUp);
    SumConcat(weight, held + p.ledger.raw, p.ledger.rolledUp);
    SumConcat(weight, held, p.ledger.raw);
    var out, moved := Sum(exported, p.exports), Sum(weight, p.ledger.raw) + Sum(weight, p.ledger.rolledUp);
    CongruentSymmetric(out, moved);
    SameIsCongruent(Sum(weight, held));
    CongruentSums(Sum(weight, held), Sum(weight, held), moved, out);
  }

  // ---------------------------------------------------------------------------
  // Metric values
  // ---------------------------------------------------------------------------

  function MetricWeight(rk: string, sk: string, name: string): Signal -> int {
    (sig: Signal) => if sig.MetricSignal? then MetricComposition.Weight(sig.metrics, rk, sk, name) else 0
  }

  function ExportedMetricWeight(rk: string, sk: string, name: string): Export -> int {
    (x: Export) => if x.MetricsOut? then MetricComposition.Weight(x.metrics, rk, sk, name) else 0
  }

  /** Under this resource, scope and name, only integer points, none of which
      repeats an allowed attribute. */
  ghost function CountedAt(rk: string, sk: string, name: string): Signal -> bool {
    (sig: Signal) =>
      sig.MetricSignal? ==> All(MetricTheorems.PointsOf(sig.metrics, rk, sk, name), MetricComposition.Counted())
  }

  lemma {:induction false} PointsNamedConcat(xs: seq<Metric>, ys: seq<Metric>, name: string)
    ensures MetricTheorems.PointsNamed(xs + ys, name) ==
            MetricTheorems.PointsNamed(xs, name) + MetricTheorems.PointsNamed(ys, name)
  {
    if ys == [] {
      assert xs + ys == xs;
    } else {
      assert (xs + ys)[..|xs + ys| - 1] == xs + ys[..|ys| - 1];
      PointsNamedConcat(xs, ys[..|ys| - 1], name);
    }
  }

  lemma PointsOfConcat(xs: Metrics, ys: Metrics, rk: string, sk: string, name: string)
    ensures MetricTheorems.PointsOf(xs + ys, rk, sk, name) ==
            MetricTheorems.PointsOf(xs, rk, sk, name) + MetricTheorems.PointsOf(ys, rk, sk, name)
  {
    PickConcat(AttrKey, xs, ys, rk);
    PickConcat(ScopeKey, Pick(AttrKey, xs, rk), Pick(AttrKey, ys, rk), sk);
    PointsNamedConcat(MetricTheorems.MetricsOf(xs, rk, sk), MetricTheorems.MetricsOf(ys, rk, sk), name);
  }

  lemma OneMoreWeighs(xs: Metrics, m: Metrics, rk: string, sk: string, name: string)
    ensures MetricComposition.Weight(xs + m, rk, sk, name) ==
            MetricComposition.Weight(xs, rk, sk, name) + MetricComposition.Weight(m, rk, sk, name)
  {
    hide MetricTheorems.PointsOf;
    PointsOfConcat(xs, m, rk, sk, name);
    SumConcat(MetricTheorems.IntOf(), MetricTheorems.PointsOf(xs, rk, sk, name),
      MetricTheorems.PointsOf(m, rk, sk, name));
  }

  lemma {:induction false} ConcatWeighs(ms: seq<Metrics>, rk: string, sk: string, name: string)
    ensures MetricComposition.Weight(Concat(ms), rk, sk, name) == Sum(MetricWeight(rk, sk, name), MetricSignals(ms))
  {
    hide MetricTheorems.PointsOf;
    if ms == [] {
      NoPoints(rk, sk, name);
    } else {
      var init, m := ms[..|ms| - 1], ms[|ms| - 1];
      ConcatWeighs(init, rk, sk, name);
      OneMoreWeighs(Concat(init), m, rk, sk, name);
      assert MetricSignals(ms)[..|ms| - 1] == MetricSignals(init);
    }
  }

  lemma {:induction false} ConcatCounted(ms: seq<Metrics>, rk: string, sk: string, name: string)
    requires All(MetricSignals(ms), CountedAt(rk, sk, name))
    ensures All(MetricTheorems.PointsOf(Concat(ms), rk, sk, name), MetricComposition.Counted())
  {
    hide MetricTheorems.PointsOf, MetricComposition.Counted;
    if ms == [] {
      NoPoints(rk, sk, name);
    } else {
      var init, m := ms[..|ms| - 1], ms[|ms| - 1];
      assert forall i | 0 <= i < |init| :: MetricSignals(init)[i] == MetricSignals(ms)[i];
      ConcatCounted(init, rk, sk, name);
      PointsOfConcat(Concat(init), m, rk, sk, name);
      assert MetricSignals(ms)[|ms| - 1] == MetricSignal(m);
      assert CountedAt(rk, sk, name)(MetricSignal(m));
    }
  }

  lemma NoPoints(rk: string, sk: string, name: string)
    ensures MetricTheorems.PointsOf([], rk, sk, name) == []
  {
    var none: Metrics := [];
    assert Pick(AttrKey, none, rk) == [];
    assert MetricTheorems.MetricsOf(none, rk, sk) == [];
  }

  lemma {:induction false} NoMetricWeight(ls: seq<Logs>, rk: string, sk: string, name: string)
    ensures Sum(MetricWeight(rk, sk, name), LogSignals(ls)) == 0
  {
    if ls != [] {
      NoMetricWeight(ls[..|ls| - 1], rk, sk, name);
      assert LogSignals(ls)[..|ls| - 1] == LogSignals(ls[..|ls| - 1]);
    }
  }

  lemma MetricsAreFair(rk: string, sk: string, name: string)
    ensures Fair(MetricWeight(rk, sk, name), ExportedMetricWeight(rk, sk, name), CountedAt(rk, sk, name))
  {
    hide Congruent, MetricRollup.RolledUp, LogRollup.RolledUpLogs, MetricComposition.Weight, Concat;
    var w, x, ok := MetricWeight(rk, sk, name), ExportedMetricWeight(rk, sk, name), CountedAt(rk, sk, name);
    SameIsCongruent(0);
    forall ms | All(MetricSignals(ms), ok) ensures Congruent(x(MetricsOut(Concat(ms))), Sum(w, MetricSignals(ms))) {
      ConcatWeighs(ms, rk, sk, name);
      SameIsCongruent(Sum(w, MetricSignals(ms)));
    }
    forall ls ensures Sum(w, LogSignals(ls)) == 0 {
      NoMetricWeight(ls, rk, sk, name);
    }
    forall l, e, ms | All(MetricSignals(ms), ok) && MetricRollup.RolledUp(l, e, ms).Some?
      ensures Congruent(x(MetricsOut(MetricRollup.RolledUp(l, e, ms).value)), Sum(w, MetricSignals(ms)))
    {
      ConcatWeighs(ms, rk, sk, name);
      ConcatCounted(ms, rk, sk, name);
      MetricComposition.RollupConserves(l, e, ms, MetricRollup.RolledUp(l, e, ms).value, rk, sk, name);
    }
  }

  /** Over every run, under each resource key, scope key and metric name, what was
      stored equals what is held plus what was exported raw or rolled up, as 64-bit
      integers. */
  lemma MetricValueLedger(steps: seq<Step>, rk: string, sk: string, name: string)
    requires LegalRun(steps) && StoredOk(Run(steps), CountedAt(rk, sk, name))
    ensures var p := Run(steps);
            Congruent(Sum(MetricWeight(rk, sk, name), p.buf.stored),
                      Sum(MetricWeight(rk, sk, name), StillHeld(p))
                      + Sum(ExportedMetricWeight(rk, sk, name), p.exports))
  {
    hide *;
    MetricsAreFair(rk, sk, name);
    EverySignalInOnePlace(steps);
    RunAgrees(steps, MetricWeight(rk, sk, name), ExportedMetricWeight(rk, sk, name), CountedAt(rk, sk, name));
    ValuesBalance(Run(steps), MetricWeight(rk, sk, name), ExportedMetricWeight(rk, sk, name));
  }

  // ---------------------------------------------------------------------------
  // Log counts
  // ---------------------------------------------------------------------------

  function LogWeight(rk: string, sk: string): Signal -> int {
    (sig: Signal) => if sig.LogSignal? then |LogTheorems.RecordsOf(sig.logs, rk, sk)| else 0
  }

  /** A record of a rollup weighs its count, any other weighs one. */
  function ExportedLogWeight(rk: string, sk: string): Export -> int {
    (x: Export) =>
      if !x.LogsOut? then 0
      else if x.rolled then Sum(LogTheorems.Counted(), LogTheorems.RecordsOf(x.logs, rk, sk))
      else |LogTheorems.RecordsOf(x.logs, rk, sk)|
  }

  /** No record repeats an attribute key. */
  ghost function UniqueAttrs(): Signal -> bool {
    (sig: Signal) => sig.LogSignal? ==> LogTheorems.UniqueLogs(sig.logs)
  }

  lemma RecordsOfConcat(xs: Logs, ys: Logs, rk: string, sk: string)
    ensures LogTheorems.RecordsOf(xs + ys, rk, sk) ==
            LogTheorems.RecordsOf(xs, rk, sk) + LogTheorems.RecordsOf(ys, rk, sk)
  {
    hide Pick;
    PickConcat(AttrKey, xs, ys, rk);
    PickConcat(ScopeKey, Pick(AttrKey, xs, rk), Pick(AttrKey, ys, rk), sk);
  }

  lemma {:induction false} ConcatCounts(ls: seq<Logs>, rk: string, sk: string)
    ensures |LogTheorems.RecordsOf(Concat(ls), rk, sk)| == Sum(LogWeight(rk, sk), LogSignals(ls))
  {
    hide LogTheorems.RecordsOf;
    if ls == [] {
      NoRecords(rk, sk);
    } else {
      var init, l := ls[..|ls| - 1], ls[|ls| - 1];
      ConcatCounts(init, rk, sk);
      assert LogSignals(ls)[..|ls| - 1] == LogSignals(init);
      RecordsOfConcat(Concat(init), l, rk, sk);
    }
  }

  lemma NoRecords(rk: string, sk: string)
    ensures LogTheorems.RecordsOf([], rk, sk) == []
  {
  }

  lemma {:induction false} ConcatUnique(ls: seq<Logs>)
    requires All(LogSignals(ls), UniqueAttrs())
    ensures LogTheorems.UniqueLogs(Concat(ls))
  {
    if ls != [] {
      var init, l := ls[..|ls| - 1], ls[|ls| - 1];
      assert forall i | 0 <= i < |init| :: LogSignals(init)[i] == LogSignals(ls)[i];
      ConcatUnique(init);
      assert LogSignals(ls)[|ls| - 1] == LogSignal(l);
      assert UniqueAttrs()(LogSignal(l));
    }
  }

  lemma {:induction false} NoLogWeight(ms: seq<Metrics>, rk: string, sk: string)
    ensures Sum(LogWeight(rk, sk), MetricSignals(ms)) == 0
  {
    if ms != [] {
      NoLogWeight(ms[..|ms| - 1], rk, sk);
      assert MetricSignals(ms)[..|ms| - 1] == MetricSignals(ms[..|ms| - 1]);
    }
  }

  lemma LogsAreFair(rk: string, sk: string)
    ensures Fair(LogWeight(rk, sk), ExportedLogWeight(rk, sk), UniqueAttrs())
  {
    hide Congruent, MetricRollup.RolledUp, LogRollup.RolledUpLogs, LogTheorems.RecordsOf, LogTheorems.UniqueLogs,
      Concat;
    var w, x, ok := LogWeight(rk, sk), ExportedLogWeight(rk, sk), UniqueAttrs();
    SameIsCongruent(0);
    forall ms ensures Sum(w, MetricSignals(ms)) == 0 {
      NoLogWeight(ms, rk, sk);
    }
    forall ls | All(LogSignals(ls), ok) ensures Congruent(x(LogsOut(Concat(ls), false)), Sum(w, LogSignals(ls))) {
      ConcatCounts(ls, rk, sk);
      SameIsCongruent(Sum(w, LogSignals(ls)));
    }
    forall l, e, ls | All(LogSignals(ls), ok)
      ensures Congruent(x(LogsOut(LogRollup.RolledUpLogs(l, e, ls), l != Fine && e)), Sum(w, LogSignals(ls)))
    {
      RolledLogsWeigh(l, e, ls, rk, sk);
    }
  }

  lemma RolledLogsWeigh(l: Level, e: bool, ls: seq<Logs>, rk: string, sk: string)
    requires All(LogSignals(ls), UniqueAttrs())
    ensures Congruent(ExportedLogWeight(rk, sk)(LogsOut(LogRollup.RolledUpLogs(l, e, ls), l != Fine && e)),
                      Sum(LogWeight(rk, sk), LogSignals(ls)))
  {
    hide Congruent, LogTheorems.RecordsOf, LogTheorems.UniqueLogs;
    ConcatCounts(ls, rk, sk);
    ConcatUnique(ls);
    if l != Fine && e {
      LogTheorems.LogRollupConservesCounts(l, ls, rk, sk);
    } else {
      SameIsCongruent(Sum(LogWeight(rk, sk), LogSignals(ls)));
    }
  }

  /** Over every run, under each resource key and scope key, the untraced records
      stored equal those held plus those exported, counting a rolled-up record as
      often as it says. */
  lemma LogCountLedger(steps: seq<Step>, rk: string, sk: string)
    requires LegalRun(steps) && StoredOk(Run(steps), UniqueAttrs())
    ensures var p := Run(steps);
            Congruent(Sum(LogWeight(rk, sk), p.buf.stored),
                      Sum(LogWeight(rk, sk), StillHeld(p)) + Sum(ExportedLogWeight(rk, sk), p.exports))
  {
    hide *;
    LogsAreFair(rk, sk);
    EverySignalInOnePlace(steps);
    RunAgrees(steps, LogWeight(rk, sk), ExportedLogWeight(rk, sk), UniqueAttrs());
    ValuesBalance(Run(steps), LogWeight(rk, sk), ExportedLogWeight(rk, sk));
  }
}
