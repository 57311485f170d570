/** What a store leaves behind: the received data under a fresh key at the time of
    the clock, and over whole runs exactly what was received. */
module Landing {
  import opened Keyed
  import opened Pdata
  import opened Identity
  import opened Traversal
  import opened Live
  import opened Buffer
  import opened Sampler
  import opened SignalLedger
  import opened Spans
  import opened Overflow
  import opened Keys
  import Splitting
  import TraceLedger
  import TraceLogs
  import ValueLedger

  // ---------------------------------------------------------------------------
  // Who survives
  // ---------------------------------------------------------------------------

  function NotAmong<P>(ks: set<string>): Timed<P> -> bool {
    (t: Timed<P>) => t.at.key !in ks
  }

  function Except<P>(s: seq<Timed<P>>, ks: set<string>): seq<Timed<P>> {
    Keep(NotAmong(ks), s)
  }

  /** The entries with these names have left the lists, the others stay in order, and
      nothing has been added. */
  ghost predicate Leaves(p: Plain, q: Plain, ks: set<string>) {
    q.metrics == Except(p.metrics, ks) && q.logs == Except(p.logs, ks) && q.stored == p.stored
  }

  lemma ExceptBoth<P(!new)>(s: seq<Timed<P>>, a: set<string>, b: set<string>)
    ensures Except(Except(s, a), b) == Except(s, a + b)
  {
    KeepTwice(NotAmong<P>(a), NotAmong<P>(b), NotAmong<P>(a + b), s);
  }

  lemma ExceptNone<P(!new)>(s: seq<Timed<P>>)
    ensures Except(s, {}) == s
  {
    KeepAll(NotAmong<P>({}), s);
  }

  lemma LeavesBoth(p: Plain, q: Plain, r: Plain, a: set<string>, b: set<string>)
    requires Leaves(p, q, a) && Leaves(q, r, b)
    ensures Leaves(p, r, a + b)
  {
    hide Except;
    ExceptBoth(p.metrics, a, b);
    ExceptBoth(p.logs, a, b);
  }

  /** Only live names matter. */
  lemma LeavesSame(p: Plain, q: Plain, a: set<string>, b: set<string>)
    requires Leaves(p, q, a) && forall k | Alive(p, k) :: k in a <==> k in b
    ensures Leaves(p, q, b)
  {
    hide Alive;
    forall t | t in p.metrics ensures NotAmong<Metrics>(a)(t) == NotAmong<Metrics>(b)(t) {
      ListedIsAlive(p, t.at.key);
    }
    forall t | t in p.logs ensures NotAmong<Logs>(a)(t) == NotAmong<Logs>(b)(t) {
      ListedIsAlive(p, t.at.key);
    }
    KeepAgrees(NotAmong<Metrics>(a), NotAmong<Metrics>(b), p.metrics);
    KeepAgrees(NotAmong<Logs>(a), NotAmong<Logs>(b), p.logs);
  }

  lemma ListedIsAlive(p: Plain, k: string)
    ensures Alive(p, k) <==> (exists t <- p.metrics :: t.at.key == k) || exists t <- p.logs :: t.at.key == k
  {
    FindNames(p.metrics, k);
    FindNames(p.logs, k);
  }

  lemma NothingLeaves(p: Plain, q: Plain)
    requires q.metrics == p.metrics && q.logs == p.logs && q.stored == p.stored
    ensures Leaves(p, q, {})
  {
    hide Except;
    ExceptNone(p.metrics);
    ExceptNone(p.logs);
  }

  lemma WithoutIsExcept<P(!new)>(s: seq<Timed<P>>, k: string)
    ensures Without(s, k) == Except(s, {k})
  {
    KeepAgrees(Opposite(KeyIs<P>(k)), NotAmong<P>({k}), s);
  }

  lemma NoNameNoLoss<P(!new)>(s: seq<Timed<P>>, k: string)
    requires Find(s, k).None?
    ensures Except(s, {k}) == s
  {
    FindNames(s, k);
    KeepAll(NotAmong<P>({k}), s);
  }

  lemma EvictLeaves(p: Plain, key: string)
    requires Named(p)
    ensures Leaves(p, Evict(p, key), {key})
  {
    hide Named, Find, Without, Except;
    WithoutIsExcept(p.metrics, key);
    WithoutIsExcept(p.logs, key);
    if Find(p.metrics, key).Some? {
      OneLane(p, key);
    } else {
      NoNameNoLoss(p.metrics, key);
    }
    if Find(p.logs, key).None? {
      NoNameNoLoss(p.logs, key);
    }
  }

  lemma {:induction false} MakeRoomLeaves(p: Plain, key: string, victims: seq<string>)
    requires Named(p)
    ensures Leaves(p, MakeRoom(p, key, victims), Overflow.Names(victims) - {key})
  {
    hide Named, Leaves, Evict;
    if victims == [] {
      NothingLeaves(p, p);
      assert Overflow.Names(victims) - {key} == {};
    } else {
      var init, v := victims[..|victims| - 1], victims[|victims| - 1];
      var q := MakeRoom(p, key, init);
      MakeRoomLeaves(p, key, init);
      assert victims == init + [v];
      if v == key {
        assert Overflow.Names(victims) - {key} == Overflow.Names(init) - {key};
      } else {
        MakeRoomConserves(p, key, init);
        EvictLeaves(q, v);
        LeavesBoth(p, q, Evict(q, v), Overflow.Names(init) - {key}, {v});
        assert Overflow.Names(victims) - {key} == (Overflow.Names(init) - {key}) + {v};
      }
    }
  }

  /** A write under a key that is not in a list. */
  lemma RoomLeavesAll(p: Plain, key: string, victims: seq<string>)
    requires Named(p) && !Alive(p, key)
    ensures Leaves(p, MakeRoom(p, key, victims), Overflow.Names(victims))
  {
    hide Named, Leaves, MakeRoom, Alive;
    MakeRoomLeaves(p, key, victims);
    LeavesSame(p, MakeRoom(p, key, victims), Overflow.Names(victims) - {key}, Overflow.Names(victims));
  }

  lemma TraceWriteLeaves(p: Plain, t: TraceID, e: TraceEntry, o: SetOutcome)
    requires Named(p)
    ensures Leaves(p, SetTrace(p, Hex(t), e, o), Overflow.Names(o.victims))
  {
    hide Named, MakeRoom, Alive, Hex;
    TraceKeyNotAlive(p, t);
    RoomLeavesAll(p, Hex(t), o.victims);
  }

  lemma {:induction false} SpansLeave(p: Plain, rows: seq<Row<Span>>, order: seq<TraceID>, now: int,
      os: seq<SetOutcome>)
    requires Named(p) && |os| == |order|
    ensures Leaves(p, AddSpansEach(p, rows, order, now, os), AllVictims(os))
  {
    hide Named, Leaves, SetTrace, Hex, RowsFor;
    if order == [] {
      NothingLeaves(p, p);
    } else {
      var n := |order| - 1;
      var q := AddSpansEach(p, rows, order[..n], now, os[..n]);
      SpansLeave(p, rows, order[..n], now, os[..n]);
      AddSpansConserves(p, rows, order[..n], now, os[..n]);
      var e := EntryAt(q, Hex(order[n]), now);
      var e' := e.(spans := e.spans + RowsFor(SpanID(), rows, order[n]));
      TraceWriteLeaves(q, order[n], e', os[n]);
      LeavesBoth(p, q, SetTrace(q, Hex(order[n]), e', os[n]), AllVictims(os[..n]), Overflow.Names(os[n].victims));
    }
  }

  lemma {:induction false} LogsLeave(p: Plain, rows: seq<Row<LogRecord>>, order: seq<TraceID>, now: int,
      os: seq<SetOutcome>)
    requires Named(p) && |os| == |order|
    ensures Leaves(p, AddLogsEach(p, rows, order, now, os), AllVictims(os))
  {
    hide Named, Leaves, SetTrace, Hex, RowsFor;
    if order == [] {
      NothingLeaves(p, p);
    } else {
      var n := |order| - 1;
      var q := AddLogsEach(p, rows, order[..n], now, os[..n]);
      LogsLeave(p, rows, order[..n], now, os[..n]);
      AddLogsConserves(p, rows, order[..n], now, os[..n]);
      var e := EntryAt(q, Hex(order[n]), now);
      var e' := e.(logs := e.logs + RowsFor(LogID(), rows, order[n]));
      TraceWriteLeaves(q, order[n], e', os[n]);
      LeavesBoth(p, q, SetTrace(q, Hex(order[n]), e', os[n]), AllVictims(os[..n]), Overflow.Names(os[n].victims));
    }
  }

  lemma {:induction false} FindListed<P(!new)>(s: seq<Timed<P>>, t: Timed<P>)
    requires t in s && DistinctNames(s)
    ensures Find(s, t.at.key) == Some(t.data)
  {
    if s[0] != t {
      assert s == [s[0]] + s[1..] && t in s[1..];
      TailDistinct(s);
      FindListed(s[1..], t);
      var i :| 0 <= i < |s| && s[i] == t;
      assert s[0].at.key != s[i].at.key;
    }
  }

  /** The signal is last in the channel, or, when a thousand wait, it is dropped. */
  ghost predicate PassedOn(p: Plain, q: Plain, sig: Signal) {
    if |p.chan| < 1000 then q.chan == p.chan + [sig] && q.dropped == p.dropped
    else q.chan == p.chan && q.dropped == p.dropped + [sig]
  }

  /** An evicted metric or untraced log is passed on as it was stored. */
  lemma EvictedIsPassedOn(p: Plain)
    requires Named(p)
    ensures forall t <- p.metrics :: PassedOn(p, Evict(p, t.at.key), MetricSignal(t.data))
    ensures forall t <- p.logs :: PassedOn(p, Evict(p, t.at.key), LogSignal(t.data))
  {
    hide HasPrefix, Find, Without;
    forall t | t in p.metrics ensures PassedOn(p, Evict(p, t.at.key), MetricSignal(t.data)) {
      FindListed(p.metrics, t);
    }
    forall t | t in p.logs ensures PassedOn(p, Evict(p, t.at.key), LogSignal(t.data)) {
      FindListed(p.logs, t);
      if Find(p.metrics, t.at.key).Some? {
        OneLane(p, t.at.key);
      }
    }
  }

  // ---------------------------------------------------------------------------
  // Who arrives
  // ---------------------------------------------------------------------------

  predicate SplicedAt<P(==)>(s: seq<Timed<P>>, r: seq<Timed<P>>, t: Timed<P>, n: int) {
    0 <= n <= |s| && r == s[..n] + [t] + s[n..]
  }

  /** `r` is `s` with one more entry. */
  ghost predicate Adds<P>(s: seq<Timed<P>>, r: seq<Timed<P>>, t: Timed<P>) {
    exists n :: SplicedAt(s, r, t, n)
  }

  lemma SplicedBehind<P>(first: Timed<P>, s: seq<Timed<P>>, r: seq<Timed<P>>, t: Timed<P>, n: int)
    requires SplicedAt(s, r, t, n)
    ensures SplicedAt([first] + s, [first] + r, t, n + 1)
  {
    assert ([first] + s)[..n + 1] == [first] + s[..n] && ([first] + s)[n + 1..] == s[n..];
  }

  lemma {:induction false} InsertAdds<P(!new)>(s: seq<Timed<P>>, t: Timed<P>)
    requires forall u <- s :: u.at != t.at
    ensures Adds(s, Insert(s, t), t)
  {
    hide Less;
    if s == [] {
      assert SplicedAt(s, [t], t, 0);
    } else {
      hide Insert, SplicedAt;
      var first, rest := s[0], s[1..];
      assert s == [first] + rest && forall u <- rest :: u in s;
      InsertFront(first, rest, t);
      if Less(t.at, first.at) {
        SplicedFirst(s, t);
      } else {
        InsertAdds(rest, t);
        var n :| SplicedAt(rest, Insert(rest, t), t, n);
        SplicedBehind(first, rest, Insert(rest, t), t, n);
      }
    }
  }

  lemma SplicedFirst<P>(s: seq<Timed<P>>, t: Timed<P>)
    ensures SplicedAt(s, [t] + s, t, 0)
  {
  }

  lemma StillUnused(p: Plain, q: Plain, key: string, ks: set<string>)
    requires Unused(p, key) && Leaves(p, q, ks)
    ensures Unused(q, key)
  {
    KeepMembers(NotAmong<Metrics>(ks), p.metrics);
    KeepMembers(NotAmong<Logs>(ks), p.logs);
  }

  /** A metric whose write succeeds is added under its key and its instant; what the
      write pushes out leaves, and nothing else changes in the lists. */
  lemma MetricLands(p: Plain, at: TimeKey, m: Metrics, o: SetOutcome)
    requires Named(p) && Unused(p, at.key)
    ensures var q, kept := Live.StoreMetric(p, at, m, o), Except(p.metrics, Overflow.Names(o.victims));
            && q.logs == Except(p.logs, Overflow.Names(o.victims))
            && if o.ok then Adds(kept, q.metrics, Timed(at, m)) && q.stored == p.stored + [MetricSignal(m)]
               else q.metrics == kept && q.stored == p.stored
  {
    hide Named, MakeRoom, Alive, Insert, Adds, Except;
    UnusedNotAlive(p, at.key);
    RoomLeavesAll(p, at.key, o.victims);
    var q := MakeRoom(p, at.key, o.victims);
    StillUnused(p, q, at.key, Overflow.Names(o.victims));
    if o.ok {
      InsertAdds(q.metrics, Timed(at, m));
    }
  }

  lemma TimeLogsLand(p: Plain, at: TimeKey, l: Logs, o: SetOutcome)
    requires Named(p) && Unused(p, at.key)
    ensures var q, kept := Live.StoreTimeLogs(p, at, l, o), Except(p.logs, Overflow.Names(o.victims));
            && q.metrics == Except(p.metrics, Overflow.Names(o.victims))
            && if o.ok then Adds(kept, q.logs, Timed(at, l)) && q.stored == p.stored + [LogSignal(l)]
               else q.logs == kept && q.stored == p.stored
  {
    hide Named, MakeRoom, Alive, Insert, Adds, Except;
    UnusedNotAlive(p, at.key);
    RoomLeavesAll(p, at.key, o.victims);
    var q := MakeRoom(p, at.key, o.victims);
    StillUnused(p, q, at.key, Overflow.Names(o.victims));
    if o.ok {
      InsertAdds(q.logs, Timed(at, l));
    }
  }

  /** The records of a batch that carry no trace, in order. */
  function Untraced(rows: seq<Row<LogRecord>>): seq<Row<LogRecord>> {
    Keep((row: Row<LogRecord>) => IsEmptyID(row.item.traceId), rows)
  }

  lemma UntracedAreFiled(rows: seq<Row<LogRecord>>)
    ensures Rows(RowsFor(LogID(), rows, NO_TRACE)) == Untraced(rows)
    ensures RowsFor(LogID(), rows, NO_TRACE) == [] <==> Untraced(rows) == []
  {
    RowsOfFiled(LogID(), rows, NO_TRACE);
    forall row | row in rows
      ensures OfTrace(LogID(), NO_TRACE)(row) == ((row: Row<LogRecord>) => IsEmptyID(row.item.traceId))(row)
    {
      Splitting.EmptyIsZero(row.item.traceId);
    }
    KeepAgrees(OfTrace(LogID(), NO_TRACE), (row: Row<LogRecord>) => IsEmptyID(row.item.traceId), rows);
    FiledCount(LogID(), rows, NO_TRACE);
  }

  lemma {:induction false} FiledCount<T(!new)>(id: T -> TraceID, rows: seq<Row<T>>, t: TraceID)
    ensures |RowsFor(id, rows, t)| == |Keep(OfTrace(id, t), rows)|
  {
    if rows != [] {
      var init, row := rows[..|rows| - 1], rows[|rows| - 1];
      FiledCount(id, init, t);
      assert rows == init + [row];
      KeepSnoc(OfTrace(id, t), init, row);
    }
  }

  /** The names of the entries that storing a batch of logs pushes out. */
  function LogVictims(rows: seq<Row<LogRecord>>, os: seq<SetOutcome>, o: SetOutcome): set<string> {
    AllVictims(os) + if Untraced(rows) == [] then {} else Overflow.Names(o.victims)
  }

  /** A batch of logs with records of no trace, whose write succeeds, adds one entry with
      exactly those records, in order; without such records, or when the write fails,
      it adds none. */
  lemma LogBatchLands(p: Plain, rows: seq<Row<LogRecord>>, order: seq<TraceID>, now: int, os: seq<SetOutcome>,
      at: TimeKey, o: SetOutcome) returns (l: Logs)
    requires Named(p) && Unused(p, at.key) && |os| == |order|
    ensures Rows(l) == Untraced(rows)
    ensures var q, gone := StoreSplit(p, rows, order, now, os, at, o), LogVictims(rows, os, o);
            && q.metrics == Except(p.metrics, gone)
            && if o.ok && Untraced(rows) != []
               then Adds(Except(p.logs, gone), q.logs, Timed(at, l)) && q.stored == p.stored + [LogSignal(l)]
               else q.logs == Except(p.logs, gone) && q.stored == p.stored
  {
    hide Named, AddLogsEach, Unused, Adds, Except, RowsFor, Rows, Untraced, Live.StoreTimeLogs;
    l := RowsFor(LogID(), rows, NO_TRACE);
    UntracedAreFiled(rows);
    var q := AddLogsEach(p, rows, order, now, os);
    LogsLeave(p, rows, order, now, os);
    AddLogsConserves(p, rows, order, now, os);
    StillUnused(p, q, at.key, AllVictims(os));
    if l != [] {
      TimeLogsLand(q, at, l, o);
      ExceptBoth(p.metrics, AllVictims(os), Overflow.Names(o.victims));
      ExceptBoth(p.logs, AllVictims(os), Overflow.Names(o.victims));
    } else {
      assert AllVictims(os) + {} == AllVictims(os);
    }
  }

  // ---------------------------------------------------------------------------
  // Names and instants
  // ---------------------------------------------------------------------------

  /** Fresh identifiers make fresh keys. */
  lemma KeysTellApart(ts: int, uuid: string, ts': int, uuid': string)
    ensures MetricKey(ts, uuid) == MetricKey(ts', uuid') <==> ts == ts' && uuid == uuid'
    ensures Buffer.LogKey(ts, uuid) == Buffer.LogKey(ts', uuid') <==> ts == ts' && uuid == uuid'
  {
    hide Decimal;
    DecimalHasNo(ts, '_');
    DecimalHasNo(ts', '_');
    DecimalReadsBack(ts);
    DecimalReadsBack(ts');
    var a, b := Decimal(ts) + ['_'] + uuid, Decimal(ts') + ['_'] + uuid';
    assert MetricKey(ts, uuid)[2..] == a && MetricKey(ts', uuid')[2..] == b;
    assert Buffer.LogKey(ts, uuid)[2..] == a && Buffer.LogKey(ts', uuid')[2..] == b;
    if a == b {
      FirstSplits('_', Decimal(ts), uuid, Decimal(ts'), uuid');
    }
  }

  lemma AddedIsThere<P(!new)>(s: seq<Timed<P>>, r: seq<Timed<P>>, t: Timed<P>)
    requires Adds(s, r, t)
    ensures t in r
  {
    var n :| SplicedAt(s, r, t, n);
    assert r[n] == t;
  }

  /** A received metric is listed at the time the clock gave. */
  lemma MetricsAreDated(p: Plain, m: Metrics, plan: Plan)
    requires Named(p) && Unused(p, MetricAt(plan).key) && plan.o.ok && |plan.os| == |plan.order|
    ensures exists t <- Stored(p, MetricIn(m), plan).metrics ::
              t.at.ts == plan.ts && HasPrefix(t.at.key, "m_") && t.data == m
  {
    hide Named, Unused, Adds, Except, Live.StoreMetric, HasPrefix, MetricKey;
    KeyPrefixes(plan.ts, plan.uuid);
    MetricLands(p, MetricAt(plan), m, plan.o);
    var t := Timed(MetricAt(plan), m);
    AddedIsThere(Except(p.metrics, Overflow.Names(plan.o.victims)), Stored(p, MetricIn(m), plan).metrics, t);
  }

  /** And so are received logs without a trace. */
  lemma LogsAreDated(p: Plain, batch: Logs, plan: Plan)
    requires Named(p) && Unused(p, LogAt(plan).key) && plan.o.ok && |plan.os| == |plan.order|
    requires Untraced(Rows(batch)) != []
    ensures exists t <- Stored(p, LogIn(batch), plan).logs ::
              t.at.ts == plan.ts && HasPrefix(t.at.key, "l_") && Rows(t.data) == Untraced(Rows(batch))
  {
    hide Named, Unused, Adds, Except, StoreSplit, HasPrefix, Buffer.LogKey, Rows, Untraced;
    KeyPrefixes(plan.ts, plan.uuid);
    var rows := Rows(batch);
    var l := LogBatchLands(p, rows, plan.order, plan.now, plan.os, LogAt(plan), plan.o);
    AddedIsThere(Except(p.logs, LogVictims(rows, plan.os, plan.o)), Stored(p, LogIn(batch), plan).logs,
      Timed(LogAt(plan), l));
  }

  // ---------------------------------------------------------------------------
  // Whole runs
  // ---------------------------------------------------------------------------

  /** A signal as the receiver saw it. */
  datatype Content = MetricContent(metrics: Metrics) | LogContent(records: seq<Row<LogRecord>>)

  function ContentOf(sig: Signal): Content {
    match sig
    case MetricSignal(m) => MetricContent(m)
    case LogSignal(l) => LogContent(Rows(l))
  }

  function Contents(sigs: seq<Signal>): (r: seq<Content>)
    ensures |r| == |sigs| && forall i | 0 <= i < |sigs| :: r[i] == ContentOf(sigs[i])
  {
    seq(|sigs|, i requires 0 <= i < |sigs| => ContentOf(sigs[i]))
  }

  /** The metrics and untraced logs that a step receives, if their write succeeds. */
  function Brings(s: Step): seq<Content> {
    match s
    case StoreMetric(_, m, o) => if o.ok then [MetricContent(m)] else []
    case StoreLogs(rows, _, _, _, _, o) => if o.ok && Untraced(rows) != [] then [LogContent(Untraced(rows))] else []
    case _ => []
  }

  ghost function Brought(steps: seq<Step>): seq<Content> {
    if steps == [] then []
    else
      var init, s := steps[..|steps| - 1], steps[|steps| - 1];
      Brought(init) + if Run(init).dead then [] else Brings(s)
  }

  lemma StepStores(p: Proc, s: Step)
    requires Named(p.buf) && Legal(p, s) && !p.dead
    ensures Contents(Next(p, s).buf.stored) == Contents(p.buf.stored) + Brings(s)
  {
    hide Named, Unused, Adds, Except, Rows, Untraced, AddSpansEach, StoreSplit, Live.StoreMetric, Evict, Decide, Rollup,
      DrainOne, Remembered, IterationOrder;
    match s
    case StoreMetric(at, m, o) => MetricLands(p.buf, at, m, o);
    case StoreSpans(rows, order, now, os) => AddSpansConserves(p.buf, rows, order, now, os);
    case StoreLogs(rows, order, now, os, at, o) =>
      var l := LogBatchLands(p.buf, rows, order, now, os, at, o);
    case _ => ValueLedger.QuietStores(p, s);
  }

  /** Over every run, what the ledger counts as stored is exactly what was received and
      written, in order: metrics as they came, of logs the records without a trace. */
  lemma {:induction false} StoredIsReceived(steps: seq<Step>)
    requires LegalRun(steps)
    ensures Contents(Run(steps).buf.stored) == Brought(steps)
  {
    hide Next, Legal, Contents, Brings;
    if steps == [] {
      assert Contents([]) == [];
    } else {
      var init, s := steps[..|steps| - 1], steps[|steps| - 1];
      StoredIsReceived(init);
      if Run(init).dead {
        DeadRests(Run(init), s);
      } else {
        EverySignalInOnePlace(init);
        BalancedIsNamed(Run(init));
        StepStores(Run(init), s);
      }
    }
  }

  /** The spans of one trace that a step receives, if the trace's write succeeds. */
  function SpansBrought(s: Step, t: TraceID): seq<Row<Span>> {
    if s.StoreSpans? && |s.os| == |s.order| && Accepted(s.order, s.os, t) then Keep(OfTrace(SpanID(), t), s.spans)
    else []
  }

  function LogsBrought(s: Step, t: TraceID): seq<Row<LogRecord>> {
    if s.StoreLogs? && |s.os| == |s.order| && Accepted(s.order, s.os, t) then Keep(OfTrace(LogID(), t), s.records)
    else []
  }

  ghost function AllSpansBrought(steps: seq<Step>, t: TraceID): seq<Row<Span>> {
    if steps == [] then []
    else
      var init, s := steps[..|steps| - 1], steps[|steps| - 1];
      AllSpansBrought(init, t) + if Run(init).dead then [] else SpansBrought(s, t)
  }

  ghost function AllLogsBrought(steps: seq<Step>, t: TraceID): seq<Row<LogRecord>> {
    if steps == [] then []
    else
      var init, s := steps[..|steps| - 1], steps[|steps| - 1];
      AllLogsBrought(init, t) + if Run(init).dead then [] else LogsBrought(s, t)
  }

  lemma StepBringsSpans(p: Proc, s: Step, t: TraceID)
    requires Legal(p, s) && !p.dead
    ensures Rows(Past(Next(p, s).ledger.history, Hex(t))) == Rows(Past(p.ledger.history, Hex(t))) + SpansBrought(s, t)
  {
    hide Hex, RowsFor, Rows, Remembered, Past, AddSpansEach, StoreSplit, Live.StoreMetric, Evict, DrainOne, Decide,
      Rollup;
    var h := Past(p.ledger.history, Hex(t));
    assert h + [] == h && Rows(h) + [] == Rows(h);
    match s
    case StoreSpans(rows, order, now, os) =>
      RememberedIsStored(SpanID(), p.ledger.history, rows, order, os, t);
      RowsConcat(Past(p.ledger.history, Hex(t)), RowsFor(SpanID(), rows, t));
      RowsOfFiled(SpanID(), rows, t);
    case ProcessDecision(d) => DecideMoves(p, d, "");
    case PerformRollup(enabled, now) => RollupHistory(p, enabled, now);
    case DrainEvicted => DrainHistory(p);
    case _ =>
  }

  lemma StepBringsLogs(p: Proc, s: Step, t: TraceID)
    requires Legal(p, s) && !p.dead
    ensures Rows(Past(Next(p, s).ledger.logHistory, Hex(t))) ==
            Rows(Past(p.ledger.logHistory, Hex(t))) + LogsBrought(s, t)
  {
    hide Hex, RowsFor, Rows, Remembered, Past, AddSpansEach, StoreSplit, Live.StoreMetric, Evict, DrainOne, Decide,
      Rollup, Unused;
    var h := Past(p.ledger.logHistory, Hex(t));
    assert h + [] == h && Rows(h) + [] == Rows(h);
    match s
    case StoreLogs(rows, order, now, os, at, o) =>
      RememberedIsStored(LogID(), p.ledger.logHistory, rows, order, os, t);
      RowsConcat(Past(p.ledger.logHistory, Hex(t)), RowsFor(LogID(), rows, t));
      RowsOfFiled(LogID(), rows, t);
    case ProcessDecision(d) => TraceLogs.DecisionKeepsLogHistory(p, d);
    case PerformRollup(enabled, now) => TraceLedger.RollupLeavesTraces(p, enabled, now);
    case DrainEvicted => DrainHistory(p);
    case _ =>
  }

  /** And what the ledgers remember of a trace is exactly the spans and the logs that
      were received for it and written, in order, with their resources and scopes. */
  lemma {:induction false} HistoriesAreReceived(steps: seq<Step>, t: TraceID)
    requires LegalRun(steps)
    ensures Rows(Past(Run(steps).ledger.history, Hex(t))) == AllSpansBrought(steps, t)
    ensures Rows(Past(Run(steps).ledger.logHistory, Hex(t))) == AllLogsBrought(steps, t)
  {
    hide Next, Legal, SpansBrought, LogsBrought, Hex, Rows;
    if steps == [] {
      NoHistory(t);
    } else {
      var init, s := steps[..|steps| - 1], steps[|steps| - 1];
      HistoriesAreReceived(init, t);
      if Run(init).dead {
        DeadRests(Run(init), s);
      } else {
        StepBringsSpans(Run(init), s, t);
        StepBringsLogs(Run(init), s, t);
      }
    }
  }

  lemma NoHistory(t: TraceID)
    ensures Rows(Past(START.ledger.history, Hex(t))) == [] && Rows(Past(START.ledger.logHistory, Hex(t))) == []
  {
    hide Hex;
  }
}
