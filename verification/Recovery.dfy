/** Crashes: what is in the buffer, and what the log would put there. */
module Recovery {
  import opened Keyed
  import opened Pdata
  import opened Identity
  import opened Traversal
  import opened Live
  import opened Buffer
  import opened Sampler
  import opened Splitting
  import opened Spans
  import opened Wal

  ghost predicate Suffix<T>(a: seq<T>, b: seq<T>) {
    |a| <= |b| && b[|b| - |a|..] == a
  }

  /** One node with its log. `acked` is all that the log has ever accepted, and `sent`
      what the node exported before it was last started. */
  datatype Machine = Machine(log: seq<Slot>, proc: Proc, acked: seq<Incoming>, sent: seq<Export>)

  datatype Event =
    | Consume(sig: Incoming, receivedAt: int, plan: Plan, logFails: bool)
    | Internal(step: Step)
    | Truncate(before: int)
    | Spoil(i: nat, now: Slot)
    | Restart(plans: seq<Plan>)

  function StepFor(sig: Incoming, plan: Plan): Step {
    match sig
    case TraceIn(batch) => StoreSpans(Rows(batch), plan.order, plan.now, plan.os)
    case MetricIn(m) => Step.StoreMetric(MetricAt(plan), m, plan.o)
    case LogIn(batch) => StoreLogs(Rows(batch), plan.order, plan.now, plan.os, LogAt(plan), plan.o)
  }

  /** The step has the effect that the buffer's own method has. */
  lemma StepForStores(p: Proc, sig: Incoming, plan: Plan)
    requires !p.dead && |plan.os| == |plan.order|
    ensures Next(p, StepFor(sig, plan)).buf == Stored(p.buf, sig, plan)
  {
    hide Rows, AddSpansEach, StoreSplit, Live.StoreMetric, Remembered;
  }

  predicate IsStore(s: Step) {
    s.StoreMetric? || s.StoreSpans? || s.StoreLogs?
  }

  /** A record becomes unreadable: as a whole, or its payload. */
  predicate Spoiled(was: Slot, now: Slot) {
    now.Lost? || (was.Written? && now == Written(was.receivedAt, None))
  }

  /** Hands the log to an empty buffer, record by record. */
  ghost function Rebuilt(log: seq<Record>, plans: seq<Plan>): Proc
    requires |plans| == |log|
  {
    if log == [] then START
    else
      var n := |log| - 1;
      Next(Rebuilt(log[..n], plans[..n]), StepFor(log[n].signal, plans[n]))
  }

  ghost function After(m: Machine, e: Event): Machine {
    match e
    case Consume(sig, at, plan, logFails) =>
      if logFails || m.proc.dead then m
      else Machine(m.log + [Written(at, Some(sig))], Next(m.proc, StepFor(sig, plan)), m.acked + [sig], m.sent)
    case Internal(step) => if IsStore(step) then m else m.(proc := Next(m.proc, step))
    case Truncate(before) => m.(log := Truncated(m.log, before))
    case Spoil(i, now) => if i < |m.log| && Spoiled(m.log[i], now) then m.(log := m.log[i := now]) else m
    case Restart(plans) =>
      if |plans| == |Replayed(m.log)| then
        m.(proc := Rebuilt(Replayed(m.log), plans), sent := m.sent + m.proc.exports)
      else m
  }

  /** A write of spans that fails takes the old entry with it. */
  predicate NeverStale(o: SetOutcome) {
    o.ok || o.lost
  }

  /** The traces of a batch of spans are walked in some order, with one write each. */
  ghost predicate Orderly(sig: Incoming, plan: Plan) {
    sig.TraceIn? ==> IterationOrder(SpanID(), Rows(sig.traces), plan.order) && |plan.os| == |plan.order|
  }

  ghost predicate Sound(sig: Incoming, plan: Plan) {
    Orderly(sig, plan) && (sig.TraceIn? ==> forall o <- plan.os :: NeverStale(o))
  }

  ghost predicate SoundReplay(log: seq<Record>, plans: seq<Plan>) {
    |plans| == |log| ==> forall i | 0 <= i < |plans| :: Sound(log[i].signal, plans[i])
  }

  /** Records stay readable, and no write of spans is stale. */
  ghost predicate SoundEvent(m: Machine, e: Event) {
    match e
    case Consume(sig, _, plan, _) => Sound(sig, plan)
    case Spoil(_, _) => false
    case Restart(plans) => SoundReplay(Replayed(m.log), plans)
    case _ => true
  }

  ghost function MachineAfter(es: seq<Event>): Machine {
    if es == [] then Machine([], START, [], []) else After(MachineAfter(es[..|es| - 1]), es[|es| - 1])
  }

  ghost predicate SoundRun(es: seq<Event>) {
    es != [] ==> SoundRun(es[..|es| - 1]) && SoundEvent(MachineAfter(es[..|es| - 1]), es[|es| - 1])
  }

  function SpansIn(sigs: seq<Incoming>, t: TraceID): Traces {
    if sigs == [] then []
    else
      var s := sigs[|sigs| - 1];
      SpansIn(sigs[..|sigs| - 1], t) + if s.TraceIn? then RowsFor(SpanID(), Rows(s.traces), t) else []
  }

  function Signals(log: seq<Record>): (r: seq<Incoming>)
    ensures |r| == |log| && forall i | 0 <= i < |log| :: r[i] == log[i].signal
  {
    seq(|log|, i requires 0 <= i < |log| => log[i].signal)
  }

  // ---------------------------------------------------------------------------
  // Suffixes
  // ---------------------------------------------------------------------------

  lemma SuffixGrows<T>(a: seq<T>, b: seq<T>, c: seq<T>)
    requires Suffix(a, b)
    ensures Suffix(a + c, b + c)
  {
    assert (b + c)[|b| - |a|..] == b[|b| - |a|..] + c;
  }

  lemma EmptySuffix<T>(b: seq<T>)
    ensures Suffix([], b)
  {
  }

  lemma SuffixOfSuffix<T>(a: seq<T>, b: seq<T>, c: seq<T>)
    requires Suffix(a, b) && Suffix(b, c)
    ensures Suffix(a, c)
  {
    assert c[|c| - |b|..][|b| - |a|..] == c[|c| - |a|..];
  }

  lemma SuffixesNest<T>(a: seq<T>, b: seq<T>, c: seq<T>)
    requires Suffix(a, c) && Suffix(b, c)
    ensures Suffix(a, b) || Suffix(b, a)
  {
    if |a| <= |b| {
      assert c[|c| - |b|..][|b| - |a|..] == c[|c| - |a|..];
    } else {
      assert c[|c| - |a|..][|a| - |b|..] == c[|c| - |b|..];
    }
  }

  lemma {:induction false} SpansInConcat(a: seq<Incoming>, b: seq<Incoming>, t: TraceID)
    ensures SpansIn(a + b, t) == SpansIn(a, t) + SpansIn(b, t)
  {
    hide RowsFor, Rows;
    if b == [] {
      assert a + b == a;
    } else {
      hide SpansIn;
      var init, last := b[..|b| - 1], b[|b| - 1];
      SpansInConcat(a, init, t);
      assert a + b == a + init + [last] && b == init + [last];
      SpansInSnoc(a + init, last, t);
      SpansInSnoc(init, last, t);
    }
  }

  lemma SpansInSnoc(sigs: seq<Incoming>, s: Incoming, t: TraceID)
    ensures SpansIn(sigs + [s], t) ==
            SpansIn(sigs, t) + if s.TraceIn? then RowsFor(SpanID(), Rows(s.traces), t) else []
  {
    hide RowsFor, Rows;
    assert (sigs + [s])[..|sigs|] == sigs;
  }

  lemma SuffixSpans(a: seq<Incoming>, b: seq<Incoming>, t: TraceID)
    requires Suffix(a, b)
    ensures Suffix(SpansIn(a, t), SpansIn(b, t))
  {
    assert b == b[..|b| - |a|] + a;
    SpansInConcat(b[..|b| - |a|], a, t);
  }

  // ---------------------------------------------------------------------------
  // One write
  // ---------------------------------------------------------------------------

  lemma OneWriteSuffix(p: Plain, key: string, spans: Traces, now: int, o: SetOutcome, k: string, h: Traces)
    requires Suffix(BufferedSpans(p, k), h) && NeverStale(o)
    ensures Suffix(BufferedSpans(AddSpans(p, key, spans, now, o), k), if k == key then h + spans else h)
  {
    hide AddSpans, BufferedSpans;
    AddedSpans(p, key, spans, now, o, k);
    if k == key && o.ok {
      SuffixGrows(BufferedSpans(p, k), h, spans);
    } else if k == key {
      LostSpans(p, key, spans, now, o);
    }
  }

  lemma LostSpans(p: Plain, key: string, spans: Traces, now: int, o: SetOutcome)
    requires !o.ok && o.lost
    ensures BufferedSpans(AddSpans(p, key, spans, now, o), key) == []
  {
  }

  /** If the buffered spans were a suffix of some history before a write, they are
      one of that history with the written spans after it. */
  ghost predicate KeepsUp(key: string, now: int, o: SetOutcome, p: Plain, h: Traces, spans: Traces) {
    Suffix(BufferedSpans(p, key), h) ==> Suffix(BufferedSpans(AddSpans(p, key, spans, now, o), key), h + spans)
  }

  /** A write that fails and leaves the old entry breaks the connection to the log,
      for some contents; any other write keeps it, for all contents. */
  lemma OnlyStaleWritesBreakIt(key: string, now: int, o: SetOutcome)
    ensures (forall p, h, spans :: KeepsUp(key, now, o, p, h, spans)) <==> NeverStale(o)
  {
    hide KeepsUp;
    if NeverStale(o) {
      forall p, h, spans ensures KeepsUp(key, now, o, p, h, spans) {
        FreshWriteKeepsUp(key, now, o, p, h, spans);
      }
    } else {
      var p, h, spans := StaleWriteFallsBehind(key, now, o);
      assert !KeepsUp(key, now, o, p, h, spans);
    }
  }

  lemma FreshWriteKeepsUp(key: string, now: int, o: SetOutcome, p: Plain, h: Traces, spans: Traces)
    requires NeverStale(o)
    ensures KeepsUp(key, now, o, p, h, spans)
  {
    hide AddSpans, BufferedSpans, Suffix;
    if Suffix(BufferedSpans(p, key), h) {
      OneWriteSuffix(p, key, spans, now, o, key, h);
    }
  }

  lemma StaleWriteFallsBehind(key: string, now: int, o: SetOutcome) returns (p: Plain, h: Traces, spans: Traces)
    requires !NeverStale(o)
    ensures !KeepsUp(key, now, o, p, h, spans)
  {
    hide AddSpans;
    h, spans := [Wrap(Row([], Scope("", ""), SpanNamed("a")))], [Wrap(Row([], Scope("", ""), SpanNamed("b")))];
    p := EMPTY.(traces := map[key := TraceEntry(now, h, [])]);
    AddedSpans(p, key, spans, now, o, key);
    assert Suffix(h, h) && (h + spans)[1..] == spans;
    assert h[0].items[0].items[0].name == "a" && spans[0].items[0].items[0].name == "b";
  }

  function SpanNamed(name: string): Span {
    Span(NO_TRACE, 0, 0, false, [], name)
  }

  lemma {:induction false} StoreSuffix(p: Plain, rows: seq<Row<Span>>, order: seq<TraceID>, now: int,
      os: seq<SetOutcome>, t: TraceID, h: Traces)
    requires |os| == |order| && NoRepeats(order) && forall o <- os :: NeverStale(o)
    requires Suffix(BufferedSpans(p, Hex(t)), h)
    ensures Suffix(BufferedSpans(AddSpansEach(p, rows, order, now, os), Hex(t)),
                   h + if t in order then RowsFor(SpanID(), rows, t) else [])
  {
    hide Hex, RowsFor, AddSpans, BufferedSpans, Suffix;
    if order == [] {
      assert h + [] == h;
    } else {
      var n := |order| - 1;
      assert order == order[..n] + [order[n]] && os[n] in os;
      StoreSuffix(p, rows, order[..n], now, os[..n], t, h);
      var q, spans := AddSpansEach(p, rows, order[..n], now, os[..n]), RowsFor(SpanID(), rows, order[n]);
      if t == order[n] {
        assert h + [] == h;
        OneWriteSuffix(q, Hex(t), spans, now, os[n], Hex(t), h);
      } else {
        DistinctHex(t, order[n]);
        OneWriteSuffix(q, Hex(order[n]), spans, now, os[n], Hex(t),
          h + if t in order[..n] then RowsFor(SpanID(), rows, t) else []);
      }
    }
  }

  lemma GoneSuffix(p: Plain, q: Plain, k: string, h: Traces)
    requires Suffix(BufferedSpans(p, k), h) && SameOrGone(p, q, k)
    ensures Suffix(BufferedSpans(q, k), h)
  {
  }

  lemma ConsumeSuffix(p: Proc, sig: Incoming, plan: Plan, t: TraceID, h: Traces)
    requires Sound(sig, plan) && !IsEmptyID(t) && Suffix(BufferedSpans(p.buf, Hex(t)), h) && !p.dead
    ensures Suffix(BufferedSpans(Next(p, StepFor(sig, plan)).buf, Hex(t)), h + SpansIn([sig], t))
  {
    hide Hex, RowsFor, Rows, BufferedSpans, MakeRoom, AddSpansEach, StoreSplit, Remembered, Suffix, Mentions;
    SpansInOne(sig, t);
    assert h + [] == h;
    match sig
    case TraceIn(batch) =>
      StoreSuffix(p.buf, Rows(batch), plan.order, plan.now, plan.os, t, h);
      MentionedIffFound(SpanID(), Rows(batch), t);
    case MetricIn(m) =>
      var q := MakeRoom(p.buf, MetricAt(plan).key, plan.o.victims);
      RoomForSpans(p.buf, MetricAt(plan).key, plan.o.victims, Hex(t));
      SameTracesSameSpans(q, Next(p, StepFor(sig, plan)).buf, Hex(t));
      GoneSuffix(p.buf, q, Hex(t), h);
    case LogIn(batch) =>
      if |plan.os| == |plan.order| {
        StoreSplitSpans(p.buf, Rows(batch), plan.order, plan.now, plan.os, LogAt(plan), plan.o, Hex(t));
        GoneSuffix(p.buf, Next(p, StepFor(sig, plan)).buf, Hex(t), h);
      }
  }

  lemma SpansInOne(sig: Incoming, t: TraceID)
    ensures SpansIn([sig], t) == if sig.TraceIn? then RowsFor(SpanID(), Rows(sig.traces), t) else []
  {
    assert [sig][..0] == [];
  }

  lemma InternalSuffix(p: Proc, s: Step, k: string, h: Traces)
    requires !IsStore(s) && Suffix(BufferedSpans(p.buf, k), h)
    ensures Suffix(BufferedSpans(Next(p, s).buf, k), h)
  {
    hide BufferedSpans, Evict, Decide, Rollup, Hex, ParseID, Suffix;
    if p.dead {
      return;
    }
    var q := Next(p, s);
    match s {
      case EvictKey(key) => EvictedSpans(p.buf, key, k);
      case DrainEvicted => SameTracesSameSpans(p.buf, q.buf, k);
      case ProcessDecision(d) => DecideMoves(p, d, k);
      case PerformRollup(enabled, now) =>
        RollupKeepsSpans(p, enabled, now, k);
        SameTracesSameSpans(p.buf, q.buf, k);
      case SetLevel(level) =>
    }
    GoneSuffix(p.buf, q.buf, k, h);
  }

  lemma {:induction false} RebuiltSuffix(log: seq<Record>, plans: seq<Plan>, t: TraceID)
    requires |plans| == |log| && !IsEmptyID(t) && forall i | 0 <= i < |log| :: Sound(log[i].signal, plans[i])
    ensures !Rebuilt(log, plans).dead
    ensures Suffix(BufferedSpans(Rebuilt(log, plans).buf, Hex(t)), SpansIn(Signals(log), t))
  {
    hide Hex, Sound, Next, Suffix, IsEmptyID, StepFor, BufferedSpans, SpansIn;
    if log == [] {
      FreshStart(t);
      EmptySuffix(SpansIn([], t));
    } else {
      var n := |log| - 1;
      RebuiltSuffix(log[..n], plans[..n], t);
      var p := Rebuilt(log[..n], plans[..n]);
      StoresDoNotKill(p, log[n].signal, plans[n]);
      ConsumeSuffix(p, log[n].signal, plans[n], t, SpansIn(Signals(log[..n]), t));
      assert Signals(log) == Signals(log[..n]) + [log[n].signal];
      SpansInConcat(Signals(log[..n]), [log[n].signal], t);
    }
  }

  lemma StoresDoNotKill(p: Proc, sig: Incoming, plan: Plan)
    ensures Next(p, StepFor(sig, plan)).dead == p.dead
  {
  }

  /** When the writes of a replay succeed and push out no spans of the trace, the
      restart brings back everything the log holds for it. */
  lemma {:induction false} RestartBringsEverythingBack(log: seq<Record>, plans: seq<Plan>, t: TraceID)
    requires |plans| == |log| && !IsEmptyID(t)
    requires forall i | 0 <= i < |log| :: Sound(log[i].signal, plans[i])
    requires forall i | 0 <= i < |log| :: SafeReplay(log[i].signal, plans[i], t)
    ensures BufferedSpans(Rebuilt(log, plans).buf, Hex(t)) == SpansIn(Signals(log), t)
    ensures RestoredOnly(Rebuilt(log, plans), t)
  {
    hide Hex, Sound, SafeReplay, Next, IsEmptyID, SpanExact, BufferedSpans, StepFor;
    if log == [] {
      FreshStart(t);
    } else {
      var n := |log| - 1;
      var p, sig := Rebuilt(log[..n], plans[..n]), log[n].signal;
      RestartBringsEverythingBack(log[..n], plans[..n], t);
      assert Signals(log) == Signals(log[..n]) + [sig];
      SpansInConcat(Signals(log[..n]), [sig], t);
      SpansInOne(sig, t);
      RestoreOne(p, sig, plans[n], t);
    }
  }

  ghost predicate SafeReplay(sig: Incoming, plan: Plan, t: TraceID) {
    SparesTrace(StepFor(sig, plan), Hex(t)) && WritesSpans(StepFor(sig, plan))
  }

  ghost predicate RestoredOnly(p: Proc, t: TraceID) {
    !p.dead && p.exports == [] && SpanExact(p, Hex(t))
  }

  lemma FreshStart(t: TraceID)
    ensures RestoredOnly(START, t) && BufferedSpans(START.buf, Hex(t)) == []
  {
    hide Hex;
  }

  lemma RestoreOne(p: Proc, sig: Incoming, plan: Plan, t: TraceID)
    requires RestoredOnly(p, t) && Sound(sig, plan) && SafeReplay(sig, plan, t) && !IsEmptyID(t)
    ensures var q := Next(p, StepFor(sig, plan));
            && RestoredOnly(q, t)
            && BufferedSpans(q.buf, Hex(t)) ==
               BufferedSpans(p.buf, Hex(t)) + if sig.TraceIn? then RowsFor(SpanID(), Rows(sig.traces), t) else []
  {
    hide Hex, SparesTrace, WritesSpans, Next, BufferedSpans, IsEmptyID, IterationOrder, Past, RowsFor, Rows;
    var s := StepFor(sig, plan);
    StoresExportNothing(p, s);
    StoresDoNotKill(p, sig, plan);
    StepExact(p, s, Hex(t));
    HistoryGrows(p, s, t);
    AllBuffered(p, Hex(t));
    AllBuffered(Next(p, s), Hex(t));
  }

  lemma AllBuffered(p: Proc, k: string)
    requires SpanExact(p, k) && p.exports == []
    ensures BufferedSpans(p.buf, k) == Past(p.ledger.history, k)
  {
    hide BufferedSpans, Past;
    assert [] + BufferedSpans(p.buf, k) == BufferedSpans(p.buf, k);
  }

  lemma StoresExportNothing(p: Proc, s: Step)
    requires IsStore(s)
    ensures Next(p, s).exports == p.exports
  {
  }

  lemma {:induction false} RebuiltAlive(log: seq<Record>, plans: seq<Plan>)
    requires |plans| == |log|
    ensures !Rebuilt(log, plans).dead
  {
    hide Next, StepFor;
    if log != [] {
      var n := |log| - 1;
      RebuiltAlive(log[..n], plans[..n]);
      StoresDoNotKill(Rebuilt(log[..n], plans[..n]), log[n].signal, plans[n]);
    }
  }

  // ---------------------------------------------------------------------------
  // Whole runs
  // ---------------------------------------------------------------------------

  /** What a replay would hand on. */
  function Logged(m: Machine): seq<Incoming> {
    Signals(Replayed(m.log))
  }

  ghost predicate Recoverable(m: Machine, t: TraceID) {
    Suffix(BufferedSpans(m.proc.buf, Hex(t)), SpansIn(m.acked, t)) && Suffix(Logged(m), m.acked)
  }

  lemma LoggedMore(log: seq<Slot>, sig: Incoming, at: int)
    ensures Signals(Replayed(log + [Written(at, Some(sig))])) == Signals(Replayed(log)) + [sig]
  {
    var more := [Written(at, Some(sig))];
    ReplayedConcat(log, more);
    assert more[..0] == [] && Replayed(more) == [Record(sig, at)];
  }

  lemma TruncationKeeps(log: seq<Slot>, t: int)
    ensures Suffix(Signals(Replayed(Truncated(log, t))), Signals(Replayed(log)))
  {
    ReplayAfterTruncation(log, t);
  }

  lemma EventKeeps(m: Machine, e: Event, t: TraceID)
    requires Recoverable(m, t) && SoundEvent(m, e) && !IsEmptyID(t)
    ensures Recoverable(After(m, e), t)
  {
    hide Hex, Next, Suffix, Sound, BufferedSpans, Rebuilt, StepFor, Replayed, Signals, Truncated;
    match e
    case Consume(sig, at, plan, logFails) =>
      if !logFails && !m.proc.dead {
        ConsumeSuffix(m.proc, sig, plan, t, SpansIn(m.acked, t));
        SpansInConcat(m.acked, [sig], t);
        SuffixGrows(Logged(m), m.acked, [sig]);
        LoggedMore(m.log, sig, at);
      }
    case Internal(step) =>
      if !IsStore(step) {
        InternalSuffix(m.proc, step, Hex(t), SpansIn(m.acked, t));
      }
    case Truncate(before) =>
      TruncationKeeps(m.log, before);
      SuffixOfSuffix(Signals(Replayed(Truncated(m.log, before))), Logged(m), m.acked);
    case Restart(plans) =>
      var log := Replayed(m.log);
      if |plans| == |log| {
        RebuiltSuffix(log, plans, t);
        SuffixSpans(Signals(log), m.acked, t);
        SuffixOfSuffix(BufferedSpans(Rebuilt(log, plans).buf, Hex(t)), SpansIn(Signals(log), t), SpansIn(m.acked, t));
      }
  }

  lemma {:induction false} RunKeeps(es: seq<Event>, t: TraceID)
    requires SoundRun(es) && !IsEmptyID(t)
    ensures Recoverable(MachineAfter(es), t)
  {
    hide After, SoundEvent, Recoverable, IsEmptyID;
    if es == [] {
      FreshMachine(t);
    } else {
      RunKeeps(es[..|es| - 1], t);
      EventKeeps(MachineAfter(es[..|es| - 1]), es[|es| - 1], t);
    }
  }

  lemma FreshMachine(t: TraceID)
    ensures Recoverable(Machine([], START, [], []), t)
  {
  }

  /** Across consumes, decisions, evictions, truncations, crashes and restarts, the
      spans buffered for a trace and those a replay would bring back are both
      suffixes of what the log has acknowledged for it, hence one of the other. */
  lemma BufferAndLogAgree(es: seq<Event>, t: TraceID)
    requires SoundRun(es) && !IsEmptyID(t)
    ensures var m := MachineAfter(es);
            var buffered := BufferedSpans(m.proc.buf, Hex(t));
            var replayed := SpansIn(Logged(m), t);
            && Suffix(buffered, SpansIn(m.acked, t)) && Suffix(replayed, SpansIn(m.acked, t))
            && (Suffix(buffered, replayed) || Suffix(replayed, buffered))
  {
    hide Hex, MachineAfter, SoundRun, Suffix, IsEmptyID, BufferedSpans, Logged;
    RunKeeps(es, t);
    var m := MachineAfter(es);
    SuffixSpans(Logged(m), m.acked, t);
    SuffixesNest(BufferedSpans(m.proc.buf, Hex(t)), SpansIn(Logged(m), t), SpansIn(m.acked, t));
  }
}
