/** When evicted signals are dropped instead of rolled up: exactly when the channel
    that carries them is full. */
module Overflow {
  import opened Pdata
  import opened Identity
  import opened Traversal
  import opened Live
  import opened Buffer
  import opened Gossip
  import opened Sampler
  import opened SignalLedger
  import MetricRollup
  import LogRollup

  predicate Alive(p: Plain, k: string) {
    Find(p.metrics, k).Some? || Find(p.logs, k).Some?
  }

  function AliveAmong(p: Plain, ks: set<string>): set<string> {
    set k | k in ks && Alive(p, k)
  }

  function Names(ks: seq<string>): set<string> {
    set k | k in ks
  }

  function Excess(n: nat): nat {
    if n > CHANNEL_CAPACITY then n - CHANNEL_CAPACITY else 0
  }

  /** The channel takes what would be evicted with these names. */
  predicate RoomFor(p: Plain, ks: set<string>) {
    |p.chan| + |AliveAmong(p, ks)| <= 1000
  }

  /** From `p` to `q` as many signals have been dropped as the channel had no room
      for, and it holds no more than it can. */
  ghost predicate Spills(p: Plain, q: Plain, ks: set<string>) {
    && p.dropped <= q.dropped && |q.chan| <= CHANNEL_CAPACITY
    && |q.dropped| == |p.dropped| + Excess(|p.chan| + |AliveAmong(p, ks)|)
  }

  /** Every live signal with one of these names has left its list, for the channel or
      for good. */
  ghost predicate Sheds(p: Plain, q: Plain, ks: set<string>) {
    && Spills(p, q, ks) && |q.chan| + |q.dropped| == |p.chan| + |p.dropped| + |AliveAmong(p, ks)|
    && forall k :: Alive(q, k) <==> Alive(p, k) && k !in ks
  }

  lemma ShedsBoth(p: Plain, q: Plain, r: Plain, a: set<string>, b: set<string>)
    requires Sheds(p, q, a) && Sheds(q, r, b) && |p.chan| <= CHANNEL_CAPACITY
    ensures Sheds(p, r, a + b)
  {
    hide Alive;
    assert AliveAmong(p, a + b) == AliveAmong(p, a) + AliveAmong(q, b);
    assert AliveAmong(p, a) !! AliveAmong(q, b);
    assert p.dropped <= r.dropped;
  }

  /** Only live names matter. */
  lemma ShedsSame(p: Plain, q: Plain, a: set<string>, b: set<string>)
    requires Sheds(p, q, a) && forall k | Alive(p, k) :: k in a <==> k in b
    ensures Sheds(p, q, b)
  {
    hide Alive;
    assert AliveAmong(p, a) == AliveAmong(p, b);
  }

  lemma ShedsNothing(p: Plain, q: Plain)
    requires q == p.(traces := q.traces, lost := q.lost) && |p.chan| <= CHANNEL_CAPACITY
    ensures Sheds(p, q, {})
  {
    hide Find;
    assert AliveAmong(p, {}) == {};
  }

  lemma WithoutFinds<P(!new)>(s: seq<Timed<P>>, key: string, k: string)
    ensures Find(Without(s, key), k).Some? <==> Find(s, k).Some? && k != key
  {
    hide Find;
    FindNames(s, k);
    FindNames(Without(s, key), k);
    KeepMembers(Opposite(KeyIs<P>(key)), s);
  }

  lemma OneLane(p: Plain, key: string)
    requires Named(p) && Find(p.metrics, key).Some?
    ensures Find(p.logs, key).None?
  {
    FindNames(p.metrics, key);
    FindNames(p.logs, key);
    assert "m_"[0] != "l_"[0];
  }

  lemma EvictSheds(p: Plain, key: string)
    requires Named(p) && |p.chan| <= CHANNEL_CAPACITY
    ensures Sheds(p, Evict(p, key), {key})
  {
    hide Named, Find, Without;
    var q := Evict(p, key);
    if Find(p.metrics, key).Some? {
      OneLane(p, key);
    }
    assert AliveAmong(p, {key}) == if Alive(p, key) then {key} else {};
    forall k ensures Alive(q, k) <==> Alive(p, k) && k !in {key} {
      WithoutFinds(p.metrics, key, k);
      WithoutFinds(p.logs, key, k);
    }
  }

  lemma {:induction false} MakeRoomSheds(p: Plain, key: string, victims: seq<string>)
    requires Named(p) && |p.chan| <= CHANNEL_CAPACITY
    ensures Sheds(p, MakeRoom(p, key, victims), Names(victims) - {key})
  {
    hide Named, Sheds, Evict;
    if victims == [] {
      ShedsNothing(p, p);
      assert Names(victims) - {key} == {};
    } else {
      var init, v := victims[..|victims| - 1], victims[|victims| - 1];
      var q := MakeRoom(p, key, init);
      MakeRoomSheds(p, key, init);
      assert victims == init + [v];
      if v == key {
        assert Names(victims) - {key} == Names(init) - {key};
      } else {
        MakeRoomConserves(p, key, init);
        ChannelBound(p, q, Names(init) - {key});
        EvictSheds(q, v);
        ShedsBoth(p, q, Evict(q, v), Names(init) - {key}, {v});
        assert Names(victims) - {key} == (Names(init) - {key}) + {v};
      }
    }
  }

  lemma ChannelBound(p: Plain, q: Plain, ks: set<string>)
    requires Sheds(p, q, ks)
    ensures |q.chan| <= CHANNEL_CAPACITY
  {
  }

  lemma DropsWhenFull(p: Plain, q: Plain, ks: set<string>)
    requires Spills(p, q, ks)
    ensures q.dropped == p.dropped <==> RoomFor(p, ks)
  {
  }

  /** One write drops nothing if and only if the channel has room for every live
      metric and untraced log among the distinct entries it pushes out. */
  lemma WriteDropsNothingIffRoom(p: Plain, key: string, victims: seq<string>)
    requires Named(p) && |p.chan| <= CHANNEL_CAPACITY
    ensures MakeRoom(p, key, victims).dropped == p.dropped <==> RoomFor(p, Names(victims) - {key})
  {
    hide Named;
    MakeRoomSheds(p, key, victims);
    DropsWhenFull(p, MakeRoom(p, key, victims), Names(victims) - {key});
  }

  // ---------------------------------------------------------------------------
  // Batches
  // ---------------------------------------------------------------------------

  function AllVictims(os: seq<SetOutcome>): set<string> {
    if os == [] then {} else AllVictims(os[..|os| - 1]) + Names(os[|os| - 1].victims)
  }

  lemma TraceKeyNotAlive(p: Plain, t: TraceID)
    requires Named(p)
    ensures !Alive(p, Hex(t))
  {
    FindNames(p.metrics, Hex(t));
    FindNames(p.logs, Hex(t));
    TraceKeysStandApart(t);
  }

  /** One write of a trace's entry. */
  lemma TraceWriteSheds(p: Plain, t: TraceID, e: TraceEntry, o: SetOutcome)
    requires Named(p) && |p.chan| <= CHANNEL_CAPACITY
    ensures Sheds(p, SetTrace(p, Hex(t), e, o), Names(o.victims))
  {
    hide Named, Sheds, MakeRoom, Alive, Hex;
    var q, r := MakeRoom(p, Hex(t), o.victims), SetTrace(p, Hex(t), e, o);
    MakeRoomSheds(p, Hex(t), o.victims);
    TraceKeyNotAlive(p, t);
    ChannelBound(p, q, Names(o.victims) - {Hex(t)});
    ShedsNothing(q, r);
    ShedsBoth(p, q, r, Names(o.victims) - {Hex(t)}, {});
    ShedsSame(p, r, Names(o.victims) - {Hex(t)} + {}, Names(o.victims));
  }

  lemma {:induction false} SpansShed(p: Plain, rows: seq<Row<Span>>, order: seq<TraceID>, now: int, os: seq<SetOutcome>)
    requires Named(p) && |p.chan| <= CHANNEL_CAPACITY && |os| == |order|
    ensures Sheds(p, AddSpansEach(p, rows, order, now, os), AllVictims(os))
  {
    hide Named, Sheds, SetTrace, Hex, RowsFor;
    if order == [] {
      ShedsNothing(p, p);
    } else {
      var n := |order| - 1;
      var q := AddSpansEach(p, rows, order[..n], now, os[..n]);
      SpansShed(p, rows, order[..n], now, os[..n]);
      AddSpansConserves(p, rows, order[..n], now, os[..n]);
      ChannelBound(p, q, AllVictims(os[..n]));
      var e := EntryAt(q, Hex(order[n]), now);
      var e' := e.(spans := e.spans + RowsFor(SpanID(), rows, order[n]));
      TraceWriteSheds(q, order[n], e', os[n]);
      ShedsBoth(p, q, SetTrace(q, Hex(order[n]), e', os[n]), AllVictims(os[..n]), Names(os[n].victims));
    }
  }

  lemma {:induction false} LogsShed(p: Plain, rows: seq<Row<LogRecord>>, order: seq<TraceID>, now: int,
      os: seq<SetOutcome>)
    requires Named(p) && |p.chan| <= CHANNEL_CAPACITY && |os| == |order|
    ensures Sheds(p, AddLogsEach(p, rows, order, now, os), AllVictims(os))
  {
    hide Named, Sheds, SetTrace, Hex, RowsFor;
    if order == [] {
      ShedsNothing(p, p);
    } else {
      var n := |order| - 1;
      var q := AddLogsEach(p, rows, order[..n], now, os[..n]);
      LogsShed(p, rows, order[..n], now, os[..n]);
      AddLogsConserves(p, rows, order[..n], now, os[..n]);
      ChannelBound(p, q, AllVictims(os[..n]));
      var e := EntryAt(q, Hex(order[n]), now);
      var e' := e.(logs := e.logs + RowsFor(LogID(), rows, order[n]));
      TraceWriteSheds(q, order[n], e', os[n]);
      ShedsBoth(p, q, SetTrace(q, Hex(order[n]), e', os[n]), AllVictims(os[..n]), Names(os[n].victims));
    }
  }

  lemma UnusedNotAlive(p: Plain, k: string)
    requires Unused(p, k)
    ensures !Alive(p, k)
  {
    FindNames(p.metrics, k);
    FindNames(p.logs, k);
  }

  /** A write under a key that is not in use. */
  lemma NewKeySheds(p: Plain, key: string, victims: seq<string>)
    requires Named(p) && |p.chan| <= CHANNEL_CAPACITY && Unused(p, key)
    ensures Sheds(p, MakeRoom(p, key, victims), Names(victims))
  {
    hide Named, Sheds, MakeRoom, Alive, Unused;
    MakeRoomSheds(p, key, victims);
    UnusedNotAlive(p, key);
    ShedsSame(p, MakeRoom(p, key, victims), Names(victims) - {key}, Names(victims));
  }

  lemma MetricSpills(p: Plain, at: TimeKey, m: Metrics, o: SetOutcome)
    requires Named(p) && |p.chan| <= CHANNEL_CAPACITY && Unused(p, at.key)
    ensures Spills(p, Live.StoreMetric(p, at, m, o), Names(o.victims))
  {
    hide Named, Unused, MakeRoom, Alive;
    NewKeySheds(p, at.key, o.victims);
  }

  lemma SplitSpills(p: Plain, rows: seq<Row<LogRecord>>, order: seq<TraceID>, now: int, os: seq<SetOutcome>,
      at: TimeKey, o: SetOutcome)
    requires Named(p) && |p.chan| <= CHANNEL_CAPACITY && |os| == |order| && Unused(p, at.key)
    ensures Spills(p, StoreSplit(p, rows, order, now, os, at, o),
                   AllVictims(os) + if RowsFor(LogID(), rows, NO_TRACE) == [] then {} else Names(o.victims))
  {
    hide Named, Unused, AddLogsEach, MakeRoom, Alive, RowsFor;
    var q := AddLogsEach(p, rows, order, now, os);
    LogsShed(p, rows, order, now, os);
    AddLogsConserves(p, rows, order, now, os);
    if RowsFor(LogID(), rows, NO_TRACE) != [] {
      NewKeySheds(q, at.key, o.victims);
      ShedsBoth(p, q, MakeRoom(q, at.key, o.victims), AllVictims(os), Names(o.victims));
    } else {
      assert AllVictims(os) + {} == AllVictims(os);
    }
  }

  // ---------------------------------------------------------------------------
  // Runs
  // ---------------------------------------------------------------------------

  /** The names of the entries a step pushes out. */
  function Victims(s: Step): set<string> {
    match s
    case StoreMetric(_, _, o) => Names(o.victims)
    case StoreSpans(_, _, _, os) => AllVictims(os)
    case StoreLogs(rows, _, _, os, _, o) =>
      AllVictims(os) + if RowsFor(LogID(), rows, NO_TRACE) == [] then {} else Names(o.victims)
    case EvictKey(key) => {key}
    case _ => {}
  }

  predicate ChannelHolds(p: Proc, s: Step) {
    p.dead || RoomFor(p.buf, Victims(s))
  }

  function SpilledBy(p: Proc, s: Step): nat {
    if p.dead then 0 else Excess(|p.buf.chan| + |AliveAmong(p.buf, Victims(s))|)
  }

  lemma QuietSpills(p: Plain, q: Plain)
    requires |p.chan| <= CHANNEL_CAPACITY && q.dropped == p.dropped && |q.chan| <= |p.chan|
    ensures Spills(p, q, {})
  {
    hide Alive;
    assert AliveAmong(p, {}) == {};
  }

  lemma QuietChannel(p: Proc, s: Step)
    requires s.DrainEvicted? || s.ProcessDecision? || s.PerformRollup? || s.SetLevel?
    ensures Next(p, s).buf.dropped == p.buf.dropped && |Next(p, s).buf.chan| <= |p.buf.chan|
  {
    hide Decide, Rollup;
    match s
    case ProcessDecision(d) => DecisionIsQuiet(p, d);
    case PerformRollup(enabled, now) => RollupIsQuiet(p, enabled, now);
    case _ =>
  }

  lemma DecisionIsQuiet(p: Proc, d: Decision)
    ensures Decide(p, d).buf.dropped == p.buf.dropped && Decide(p, d).buf.chan == p.buf.chan
  {
    hide Range, OutOfRange, Hex, ParseID, FindTrace, FindTraceLogs, WindowStart, WindowEnd, Data, Concat;
  }

  lemma RollupIsQuiet(p: Proc, enabled: bool, now: int)
    ensures Rollup(p, enabled, now).buf.dropped == p.buf.dropped && Rollup(p, enabled, now).buf.chan == p.buf.chan
  {
    hide Range, OutOfRange, Data, MetricRollup.RolledUp, LogRollup.RolledUpLogs;
  }

  lemma StepSpills(p: Proc, s: Step)
    requires Named(p.buf) && |p.buf.chan| <= CHANNEL_CAPACITY && Legal(p, s) && !p.dead
    ensures Spills(p.buf, Next(p, s).buf, Victims(s))
  {
    hide Named, Spills, Unused, Live.StoreMetric, AddSpansEach, StoreSplit, Evict, DrainOne, Decide, Rollup, Remembered,
      AllVictims, RowsFor, Names;
    match s
    case StoreMetric(at, m, o) => MetricSpills(p.buf, at, m, o);
    case StoreSpans(rows, order, now, os) => SpansShed(p.buf, rows, order, now, os);
    case StoreLogs(rows, order, now, os, at, o) => SplitSpills(p.buf, rows, order, now, os, at, o);
    case EvictKey(key) => EvictSheds(p.buf, key);
    case _ =>
      QuietChannel(p, s);
      QuietSpills(p.buf, Next(p, s).buf);
  }

  /** How many signals a run has dropped. */
  ghost function Spilled(steps: seq<Step>): nat {
    if steps == [] then 0
    else Spilled(steps[..|steps| - 1]) + SpilledBy(Run(steps[..|steps| - 1]), steps[|steps| - 1])
  }

  ghost predicate AlwaysRoom(steps: seq<Step>) {
    forall i | 0 <= i < |steps| :: ChannelHolds(Run(steps[..i]), steps[i])
  }

  lemma AlwaysRoomSnoc(steps: seq<Step>)
    requires steps != []
    ensures var init := steps[..|steps| - 1];
            AlwaysRoom(steps) <==> AlwaysRoom(init) && ChannelHolds(Run(init), steps[|steps| - 1])
  {
    hide Run, ChannelHolds;
    var init := steps[..|steps| - 1];
    assert forall i | 0 <= i < |init| :: init[..i] == steps[..i];
    if AlwaysRoom(steps) {
      forall i | 0 <= i < |init| ensures ChannelHolds(Run(init[..i]), init[i]) {
        assert ChannelHolds(Run(steps[..i]), steps[i]);
      }
    }
  }

  /** Over every run the evicted signals that are not rolled up are counted exactly,
      and there are none if and only if the channel had room at every step. */
  lemma {:induction false} NothingDroppedIffAlwaysRoom(steps: seq<Step>)
    requires LegalRun(steps)
    ensures |Run(steps).buf.chan| <= CHANNEL_CAPACITY && |Run(steps).buf.dropped| == Spilled(steps)
    ensures Run(steps).buf.dropped == [] <==> AlwaysRoom(steps)
  {
    hide Next, Legal, Victims, AliveAmong, AlwaysRoom;
    if steps == [] {
      assert AlwaysRoom([]) by {
        NoStepsNoTrouble();
      }
    } else {
      var init, s := steps[..|steps| - 1], steps[|steps| - 1];
      var p := Run(init);
      NothingDroppedIffAlwaysRoom(init);
      EverySignalInOnePlace(init);
      AlwaysRoomSnoc(steps);
      if p.dead {
        DeadRests(p, s);
      } else {
        BalancedIsNamed(p);
        StepSpills(p, s);
      }
    }
  }

  lemma NoStepsNoTrouble()
    ensures AlwaysRoom([])
  {
  }

  lemma BalancedIsNamed(p: Proc)
    requires Balanced(p)
    ensures Named(p.buf)
  {
  }

  lemma DeadRests(p: Proc, s: Step)
    requires p.dead
    ensures Next(p, s) == p
  {
  }

  // ---------------------------------------------------------------------------
  // A run that drops
  // ---------------------------------------------------------------------------

  /** A metric is stored and evicted, `n` times over, and nobody reads the channel. */
  function Unread(n: nat): seq<Step> {
    if n == 0 then []
    else Unread(n - 1) + [Step.StoreMetric(TimeKey(0, "m_"), [], SetOutcome([], true, false)), EvictKey("m_")]
  }

  lemma UnreadStep(p: Proc)
    requires p.buf.metrics == [] && p.buf.logs == [] && !p.dead
    ensures var s := Step.StoreMetric(TimeKey(0, "m_"), [], SetOutcome([], true, false));
            var q := Next(p, s);
            && Legal(p, s) && Legal(q, EvictKey("m_")) && !q.dead
            && Next(q, EvictKey("m_")).buf == Emit(p.buf.(stored := q.buf.stored), MetricSignal([]))
            && !Next(q, EvictKey("m_")).dead
  {
    var t: Timed<Metrics> := Timed(TimeKey(0, "m_"), []);
    var q := Next(p, Step.StoreMetric(TimeKey(0, "m_"), [], SetOutcome([], true, false)));
    assert q.buf.metrics == [t];
    KeepNone(Opposite(KeyIs<Metrics>("m_")), [t]);
    assert "m_"[..2] == "m_";
  }

  lemma UnreadSnoc(n: nat)
    requires n > 0
    ensures Unread(n) ==
            Unread(n - 1) + [Step.StoreMetric(TimeKey(0, "m_"), [], SetOutcome([], true, false))] + [EvictKey("m_")]
  {
    var s, e := Step.StoreMetric(TimeKey(0, "m_"), [], SetOutcome([], true, false)), EvictKey("m_");
    assert Unread(n) == Unread(n - 1) + [s, e] && [s, e] == [s] + [e];
  }

  lemma RunSnoc(steps: seq<Step>, s: Step)
    ensures Run(steps + [s]) == Next(Run(steps), s)
    ensures LegalRun(steps + [s]) <==> LegalRun(steps) && Legal(Run(steps), s)
  {
    hide Next, Legal;
    assert (steps + [s])[..|steps|] == steps;
  }

  lemma {:induction false} UnreadRun(n: nat)
    ensures LegalRun(Unread(n))
    ensures var p := Run(Unread(n));
            && p.buf.metrics == [] && p.buf.logs == [] && !p.dead
            && |p.buf.chan| == (if n > CHANNEL_CAPACITY then CHANNEL_CAPACITY else n) && |p.buf.dropped| == Excess(n)
  {
    hide Next, Legal;
    if n > 0 {
      hide Run, LegalRun, Unread;
      UnreadRun(n - 1);
      var before := Unread(n - 1);
      var s, e := Step.StoreMetric(TimeKey(0, "m_"), [], SetOutcome([], true, false)), EvictKey("m_");
      UnreadStep(Run(before));
      RunSnoc(before, s);
      RunSnoc(before + [s], e);
      assert Unread(n) == before + [s] + [e] by {
        UnreadSnoc(n);
      }
    }
  }

  /** So the promise that evicted data is rolled up rather than dropped is broken by a
      legal run: one eviction more than the channel holds. */
  lemma ALegalRunDrops()
    ensures LegalRun(Unread(1001)) && |Run(Unread(1001)).buf.dropped| == 1
  {
    hide Run, LegalRun, Unread;
    UnreadRun(1001);
  }
}
