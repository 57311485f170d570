/** Restarts, whatever the writes and the log do: order is kept, and a span goes out
    at most once between two of them. */
module Restarts {
  import opened Pdata
  import opened Identity
  import opened Traversal
  import opened Live
  import opened Buffer
  import opened Sampler
  import opened Subsequence
  import opened Spans
  import opened Wal
  import opened Recovery

  ghost predicate OrderlyReplay(log: seq<Record>, plans: seq<Plan>) {
    |plans| == |log| ==> forall i | 0 <= i < |plans| :: Orderly(log[i].signal, plans[i])
  }

  ghost predicate OrderlyEvent(m: Machine, e: Event) {
    match e
    case Consume(sig, _, plan, _) => Orderly(sig, plan)
    case Restart(plans) => OrderlyReplay(Replayed(m.log), plans)
    case _ => true
  }

  ghost predicate OrderlyRun(es: seq<Event>) {
    es != [] ==> OrderlyRun(es[..|es| - 1]) && OrderlyEvent(MachineAfter(es[..|es| - 1]), es[|es| - 1])
  }

  // ---------------------------------------------------------------------------
  // The history of a life is part of what was acknowledged
  // ---------------------------------------------------------------------------

  lemma {:induction false} SubSpans(a: seq<Incoming>, b: seq<Incoming>, t: TraceID)
    requires Sub(a, b)
    ensures Sub(SpansIn(a, t), SpansIn(b, t))
    decreases |b|
  {
    hide RowsFor, Rows;
    if a != [] {
      var last := b[|b| - 1];
      var more := if last.TraceIn? then RowsFor(SpanID(), Rows(last.traces), t) else [];
      if a[|a| - 1] == last && Sub(a[..|a| - 1], b[..|b| - 1]) {
        SubSpans(a[..|a| - 1], b[..|b| - 1], t);
        SubOfBoth(SpansIn(a[..|a| - 1], t), SpansIn(b[..|b| - 1], t), more);
      } else {
        SubSpans(a, b[..|b| - 1], t);
        SubOfMore(SpansIn(a, t), SpansIn(b[..|b| - 1], t), more);
      }
    }
  }

  /** A store adds to a trace's history its spans or nothing. */
  lemma StoreHistory(p: Proc, sig: Incoming, plan: Plan, t: TraceID)
    requires Orderly(sig, plan) && !p.dead && !IsEmptyID(t)
    ensures var h, h' := Past(p.ledger.history, Hex(t)), Past(Next(p, StepFor(sig, plan)).ledger.history, Hex(t));
            h' == h || (sig.TraceIn? && h' == h + RowsFor(SpanID(), Rows(sig.traces), t))
  {
    hide Hex, RowsFor, Remembered, Past, AddSpansEach, StoreSplit, Live.StoreMetric, Rows, Mentions;
    if sig.TraceIn? {
      RememberedIsStored(SpanID(), p.ledger.history, Rows(sig.traces), plan.order, plan.os, t);
      var h := Past(p.ledger.history, Hex(t));
      assert h + [] == h;
    }
  }

  lemma OtherHistory(p: Proc, s: Step, t: TraceID)
    requires !IsStore(s)
    ensures Next(p, s).ledger.history == p.ledger.history
  {
    hide Hex, Evict, DrainOne, Decide, Rollup;
    match s
    case ProcessDecision(d) => DecideMoves(p, d, "");
    case PerformRollup(enabled, now) => RollupHistory(p, enabled, now);
    case DrainEvicted => DrainHistory(p);
    case _ =>
  }

  /** The spans accepted in this life come, in order, from the acknowledged ones. */
  ghost predicate Rooted(p: Proc, h: Traces, t: TraceID) {
    SpanSafe(p, Hex(t)) && Sub(Past(p.ledger.history, Hex(t)), h)
  }

  lemma StoreRooted(p: Proc, sig: Incoming, plan: Plan, h: Traces, t: TraceID)
    requires Rooted(p, h, t) && Orderly(sig, plan) && !p.dead && !IsEmptyID(t)
    ensures Rooted(Next(p, StepFor(sig, plan)), h + SpansIn([sig], t), t)
  {
    hide Hex, SpanSafe, Next, Past, Sub, RowsFor, Rows, SpansIn, StepFor, Orderly;
    var past, more := Past(p.ledger.history, Hex(t)), SpansIn([sig], t);
    StepSafe(p, StepFor(sig, plan), Hex(t));
    StoreHistory(p, sig, plan, t);
    SpansInOne(sig, t);
    SubOfMore(past, h, more);
    SubOfBoth(past, h, more);
  }

  lemma {:induction false} RebuiltRooted(log: seq<Record>, plans: seq<Plan>, t: TraceID)
    requires |plans| == |log| && !IsEmptyID(t) && forall i | 0 <= i < |log| :: Orderly(log[i].signal, plans[i])
    ensures Rooted(Rebuilt(log, plans), SpansIn(Signals(log), t), t)
  {
    hide Hex, Rooted, Orderly, Next, IsEmptyID, StepFor, SpansIn;
    if log == [] {
      NothingRooted(SpansIn([], t), t);
    } else {
      var n := |log| - 1;
      RebuiltRooted(log[..n], plans[..n], t);
      RebuiltAlive(log[..n], plans[..n]);
      StoreRooted(Rebuilt(log[..n], plans[..n]), log[n].signal, plans[n], SpansIn(Signals(log[..n]), t), t);
      assert Signals(log) == Signals(log[..n]) + [log[n].signal];
      SpansInConcat(Signals(log[..n]), [log[n].signal], t);
    }
  }

  lemma NothingRooted(h: Traces, t: TraceID)
    ensures Rooted(START, h, t)
  {
    hide Hex;
  }

  // ---------------------------------------------------------------------------
  // The log
  // ---------------------------------------------------------------------------

  lemma {:induction false} SuffixIsSub<T>(a: seq<T>, b: seq<T>)
    requires Suffix(a, b)
    ensures Sub(a, b)
  {
    if a != [] {
      var n := |b| - |a|;
      assert b[..|b| - 1][n..] == a[..|a| - 1];
      assert b[n..][|a| - 1] == b[|b| - 1];
      SuffixIsSub(a[..|a| - 1], b[..|b| - 1]);
    }
  }

  /** A spoiled record is skipped. */
  lemma {:induction false} SpoilingSkips(log: seq<Slot>, i: nat, now: Slot)
    requires i < |log| && Spoiled(log[i], now)
    ensures Sub(Signals(Replayed(log[i := now])), Signals(Replayed(log)))
  {
    hide Sub;
    var n := |log| - 1;
    var rest := log[..n];
    if i == n {
      var more := Signals(Replayed([log[n]]));
      assert log == rest + [log[n]] && log[i := now] == rest + [now];
      ReplayedConcat(rest, [log[n]]);
      ReplayedConcat(rest, [now]);
      assert Replayed([now]) == [] && Replayed(rest) + [] == Replayed(rest);
      SubOfItself(Signals(Replayed(rest)));
      SignalsConcat(Replayed(rest), Replayed([log[n]]));
      SubOfMore(Signals(Replayed(rest)), Signals(Replayed(rest)), more);
    } else {
      SpoilingSkips(rest, i, now);
      var spoiled := rest[i := now];
      assert log == rest + [log[n]] && log[i := now] == spoiled + [log[n]];
      ReplayedConcat(rest, [log[n]]);
      ReplayedConcat(spoiled, [log[n]]);
      SignalsConcat(Replayed(rest), Replayed([log[n]]));
      SignalsConcat(Replayed(spoiled), Replayed([log[n]]));
      SubOfBoth(Signals(Replayed(spoiled)), Signals(Replayed(rest)), Signals(Replayed([log[n]])));
    }
  }

  lemma SignalsConcat(a: seq<Record>, b: seq<Record>)
    ensures Signals(a + b) == Signals(a) + Signals(b)
  {
  }

  // ---------------------------------------------------------------------------
  // Whole runs
  // ---------------------------------------------------------------------------

  ghost predicate InOrder(m: Machine, t: TraceID) {
    Rooted(m.proc, SpansIn(m.acked, t), t) && Sub(Logged(m), m.acked)
  }

  lemma RootedInMore(p: Proc, h: Traces, h': Traces, t: TraceID)
    requires Rooted(p, h, t) && Sub(h, h')
    ensures Rooted(p, h', t)
  {
    hide Hex, SpanSafe, Past, Sub;
    SubTransitive(Past(p.ledger.history, Hex(t)), h, h');
  }

  lemma InternalRooted(p: Proc, s: Step, h: Traces, t: TraceID)
    requires Rooted(p, h, t) && !IsStore(s)
    ensures Rooted(Next(p, s), h, t)
  {
    hide Hex, SpanSafe, Past, Sub, Next;
    StepSafe(p, s, Hex(t));
    OtherHistory(p, s, t);
  }

  lemma EventInOrder(m: Machine, e: Event, t: TraceID)
    requires InOrder(m, t) && OrderlyEvent(m, e) && !IsEmptyID(t)
    ensures InOrder(After(m, e), t)
  {
    hide Hex, Rooted, Next, Sub, Orderly, Rebuilt, StepFor, Replayed, Signals, Truncated, SpansIn, Suffix, Spoiled,
      IsEmptyID;
    var h := SpansIn(m.acked, t);
    match e
    case Consume(sig, at, plan, logFails) =>
      if !logFails && !m.proc.dead {
        StoreRooted(m.proc, sig, plan, h, t);
        SpansInConcat(m.acked, [sig], t);
        LoggedMore(m.log, sig, at);
        SubOfBoth(Logged(m), m.acked, [sig]);
      }
    case Internal(step) =>
      if !IsStore(step) {
        InternalRooted(m.proc, step, h, t);
      }
    case Truncate(before) =>
      TruncationKeeps(m.log, before);
      SuffixIsSub(Signals(Replayed(Truncated(m.log, before))), Logged(m));
      SubTransitive(Signals(Replayed(Truncated(m.log, before))), Logged(m), m.acked);
    case Spoil(i, now) =>
      if i < |m.log| && Spoiled(m.log[i], now) {
        SpoilingSkips(m.log, i, now);
        SubTransitive(Signals(Replayed(m.log[i := now])), Logged(m), m.acked);
      }
    case Restart(plans) =>
      var log := Replayed(m.log);
      if |plans| == |log| {
        RebuiltRooted(log, plans, t);
        SubSpans(Signals(log), m.acked, t);
        RootedInMore(Rebuilt(log, plans), SpansIn(Signals(log), t), h, t);
      }
  }

  lemma {:induction false} RunInOrder(es: seq<Event>, t: TraceID)
    requires OrderlyRun(es) && !IsEmptyID(t)
    ensures InOrder(MachineAfter(es), t)
  {
    hide After, OrderlyEvent, InOrder, IsEmptyID;
    if es == [] {
      FreshInOrder(t);
    } else {
      RunInOrder(es[..|es| - 1], t);
      EventInOrder(MachineAfter(es[..|es| - 1]), es[|es| - 1], t);
    }
  }

  lemma FreshInOrder(t: TraceID)
    ensures InOrder(Machine([], START, [], []), t)
  {
    hide Hex;
    NothingRooted(SpansIn([], t), t);
  }

  /** Even when writes go stale and records become unreadable, the spans buffered for a
      trace and those a replay would bring back come, in order and each at most once,
      from what the log has acknowledged for it. */
  lemma BufferAndLogInOrder(es: seq<Event>, t: TraceID)
    requires OrderlyRun(es) && !IsEmptyID(t)
    ensures var m := MachineAfter(es);
            && Sub(BufferedSpans(m.proc.buf, Hex(t)), SpansIn(m.acked, t))
            && Sub(SpansIn(Logged(m), t), SpansIn(m.acked, t))
  {
    hide Hex, MachineAfter, OrderlyRun, IsEmptyID, BufferedSpans, Logged, Past, ExportedSpans, Sub, SpansIn;
    RunInOrder(es, t);
    var m, k := MachineAfter(es), Hex(t);
    var h := Past(m.proc.ledger.history, k);
    SubSpans(Logged(m), m.acked, t);
    SuffixIsSub(BufferedSpans(m.proc.buf, k), h);
    SubTransitive(BufferedSpans(m.proc.buf, k), h, SpansIn(m.acked, t));
  }

  // ---------------------------------------------------------------------------
  // How often a span goes out
  // ---------------------------------------------------------------------------

  function RestartsIn(es: seq<Event>): nat {
    if es == [] then 0 else RestartsIn(es[..|es| - 1]) + if es[|es| - 1].Restart? then 1 else 0
  }

  lemma {:induction false} ExportedConcat(xs: seq<Export>, ys: seq<Export>, k: string)
    ensures ExportedSpans(xs + ys, k) == ExportedSpans(xs, k) + ExportedSpans(ys, k)
  {
    if ys == [] {
      assert xs + ys == xs;
    } else {
      assert (xs + ys)[..|xs + ys| - 1] == xs + ys[..|ys| - 1];
      ExportedConcat(xs, ys[..|ys| - 1], k);
    }
  }

  /** One life sends each acknowledged span at most once. */
  lemma OneLife(p: Proc, h: Traces, t: TraceID, x: ResourceOf<Span>)
    requires Rooted(p, h, t)
    ensures multiset(ExportedSpans(p.exports, Hex(t)))[x] <= multiset(h)[x]
  {
    hide Hex, SpanSafe, Past, Sub, ExportedSpans, BufferedSpans;
    NoMoreOutThanIn(p, Hex(t));
    SubMembers(Past(p.ledger.history, Hex(t)), h);
  }

  lemma {:induction false} MoreTimesMore(r: nat, a: nat, b: nat)
    requires a <= b
    ensures r * a <= r * b
  {
    if r > 0 {
      MoreTimesMore(r - 1, a, b);
    }
  }

  /** `r` earlier lives have sent each acknowledged span at most `r` times. */
  ghost predicate SentAtMost(m: Machine, r: nat, t: TraceID, x: ResourceOf<Span>) {
    multiset(ExportedSpans(m.sent, Hex(t)))[x] <= r * multiset(SpansIn(m.acked, t))[x]
  }

  lemma AckedGrows(m: Machine, e: Event, t: TraceID, x: ResourceOf<Span>)
    ensures multiset(SpansIn(m.acked, t))[x] <= multiset(SpansIn(After(m, e).acked, t))[x]
  {
    hide SpansIn, Rebuilt, Next, Replayed, Truncated, Spoiled, StepFor;
    if e.Consume? {
      SpansInConcat(m.acked, [e.sig], t);
    }
  }

  lemma SentAfter(m: Machine, e: Event)
    ensures After(m, e).sent == m.sent || (e.Restart? && After(m, e).sent == m.sent + m.proc.exports)
  {
    hide Rebuilt, Next, Replayed, Truncated, Spoiled, StepFor;
  }

  lemma OnceMore(r: nat, a: nat)
    ensures (r + 1) * a == r * a + a
  {
  }

  lemma EventSends(m: Machine, e: Event, r: nat, t: TraceID, x: ResourceOf<Span>)
    requires InOrder(m, t) && SentAtMost(m, r, t, x)
    ensures SentAtMost(After(m, e), if e.Restart? then r + 1 else r, t, x)
  {
    hide SpansIn, Hex, ExportedSpans, Rooted, Logged, After;
    var m' := After(m, e);
    var a, a' := multiset(SpansIn(m.acked, t))[x], multiset(SpansIn(m'.acked, t))[x];
    AckedGrows(m, e, t, x);
    MoreTimesMore(r, a, a');
    SentAfter(m, e);
    if e.Restart? {
      OneLife(m.proc, SpansIn(m.acked, t), t, x);
      ExportedConcat(m.sent, m.proc.exports, Hex(t));
      OnceMore(r, a');
    }
  }

  lemma {:induction false} LivesSend(es: seq<Event>, t: TraceID, x: ResourceOf<Span>)
    requires OrderlyRun(es) && !IsEmptyID(t)
    ensures SentAtMost(MachineAfter(es), RestartsIn(es), t, x)
  {
    hide After, OrderlyEvent, InOrder, IsEmptyID, SentAtMost;
    if es == [] {
      NothingSent(t, x);
    } else {
      var init := es[..|es| - 1];
      LivesSend(init, t, x);
      RunInOrder(init, t);
      EventSends(MachineAfter(init), es[|es| - 1], RestartsIn(init), t, x);
    }
  }

  lemma NothingSent(t: TraceID, x: ResourceOf<Span>)
    ensures SentAtMost(Machine([], START, [], []), 0, t, x)
  {
    hide Hex;
  }

  /** Over a run with r restarts, each acknowledged span is exported at most r + 1
      times, before and after all of them together. */
  lemma ExportedAtMostOncePerLife(es: seq<Event>, t: TraceID, x: ResourceOf<Span>)
    requires OrderlyRun(es) && !IsEmptyID(t)
    ensures var m := MachineAfter(es);
            multiset(ExportedSpans(m.sent + m.proc.exports, Hex(t)))[x] <=
            (RestartsIn(es) + 1) * multiset(SpansIn(m.acked, t))[x]
  {
    hide Hex, MachineAfter, OrderlyRun, IsEmptyID, ExportedSpans, SpansIn, Rooted, Logged, RestartsIn;
    var m, r := MachineAfter(es), RestartsIn(es);
    RunInOrder(es, t);
    LivesSend(es, t, x);
    OneLife(m.proc, SpansIn(m.acked, t), t, x);
    ExportedConcat(m.sent, m.proc.exports, Hex(t));
    OnceMore(r, multiset(SpansIn(m.acked, t))[x]);
  }
}
