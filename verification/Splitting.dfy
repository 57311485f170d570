/** Where the parts of a stored batch end up. */
module Splitting {
  import opened Measure
  import opened Pdata
  import opened Identity
  import opened Traversal
  import opened Live
  import opened Buffer

  /** The write succeeds and pushes nothing out. */
  predicate Calm(o: SetOutcome) {
    o.ok && o.victims == []
  }

  predicate NoRepeats(order: seq<TraceID>) {
    forall i, j | 0 <= i < j < |order| :: order[i] != order[j]
  }

  predicate SameEntry(p: Plain, q: Plain, k: string) {
    && (k in p.traces <==> k in q.traces)
    && (k in p.traces ==> p.traces[k] == q.traces[k])
  }

  lemma DistinctHex(s: TraceID, t: TraceID)
    requires s != t
    ensures Hex(s) != Hex(t)
  {
    if Hex(s) == Hex(t) {
      HexIsInjective(s, t);
    }
  }

  lemma SameTraces(p: Plain, q: Plain)
    requires forall k :: SameEntry(p, q, k)
    ensures p.traces == q.traces
  {
    forall k ensures k in p.traces <==> k in q.traces {
      assert SameEntry(p, q, k);
    }
    forall k | k in p.traces ensures p.traces[k] == q.traces[k] {
      assert SameEntry(p, q, k);
    }
  }

  /** The trace's own write, if there is one, succeeds, and no other pushes its entry
      out. */
  predicate Spared(order: seq<TraceID>, os: seq<SetOutcome>, t: TraceID)
    requires |os| == |order|
  {
    forall n | 0 <= n < |order| :: if order[n] == t then os[n].ok else Hex(t) !in os[n].victims
  }

  lemma CalmSpares(order: seq<TraceID>, os: seq<SetOutcome>, t: TraceID)
    requires |os| == |order| && forall o <- os :: Calm(o)
    ensures Spared(order, os, t)
  {
    assert forall n | 0 <= n < |os| :: os[n] in os;
  }

  lemma EvictionLeaves(p: Plain, key: string, k: string)
    requires key != k
    ensures SameEntry(p, Evict(p, key), k)
  {
    hide Find, Without;
  }

  lemma {:induction false} RoomLeaves(p: Plain, key: string, victims: seq<string>, k: string)
    requires k == key || k !in victims
    ensures SameEntry(p, MakeRoom(p, key, victims), k)
  {
    hide Evict;
    if victims != [] {
      var init, v := victims[..|victims| - 1], victims[|victims| - 1];
      assert victims == init + [v];
      RoomLeaves(p, key, init, k);
      if v != key {
        EvictionLeaves(MakeRoom(p, key, init), v, k);
      }
    }
  }

  /** The entry of a mentioned trace gains exactly that trace's spans, in order, if its
      own write succeeds and no other pushes it out; a trace not mentioned keeps its
      entry as it is. */
  lemma {:induction false} SpansLand(p: Plain, rows: seq<Row<Span>>, order: seq<TraceID>, now: int,
      os: seq<SetOutcome>, t: TraceID)
    requires |os| == |order| && NoRepeats(order) && Spared(order, os, t)
    ensures var q, e := AddSpansEach(p, rows, order, now, os), EntryAt(p, Hex(t), now);
            && (t in order ==>
                  Hex(t) in q.traces && q.traces[Hex(t)] == e.(spans := e.spans + RowsFor(SpanID(), rows, t)))
            && (t !in order ==> SameEntry(p, q, Hex(t)))
  {
    hide Hex, MakeRoom;
    if order != [] {
      var n := |order| - 1;
      var init, last := order[..n], order[n];
      var q := AddSpansEach(p, rows, init, now, os[..n]);
      SpansLand(p, rows, init, now, os[..n], t);
      assert order == init + [last];
      RoomLeaves(q, Hex(last), os[n].victims, Hex(t));
      if t != last {
        DistinctHex(t, last);
      }
    }
  }

  /** Item by item: an entry that was there keeps its time of receipt and its logs, one
      that was not is received now; its spans are those it had and then the batch's
      spans of the trace, in order, with their resources and scopes. */
  lemma SpanRowsLand(p: Plain, rows: seq<Row<Span>>, order: seq<TraceID>, now: int, os: seq<SetOutcome>, t: TraceID)
    requires |os| == |order| && NoRepeats(order) && Spared(order, os, t) && t in order
    ensures var q := AddSpansEach(p, rows, order, now, os);
            && Hex(t) in q.traces
            && var e := q.traces[Hex(t)];
            if Hex(t) in p.traces then
              var d := p.traces[Hex(t)];
              && e.receivedAt == d.receivedAt && e.logs == d.logs
              && Rows(e.spans) == Rows(d.spans) + Keep(OfTrace(SpanID(), t), rows)
            else e.receivedAt == now && e.logs == [] && Rows(e.spans) == Keep(OfTrace(SpanID(), t), rows)
  {
    hide AddSpansEach, Hex, RowsFor, Keep, Spared;
    SpansLand(p, rows, order, now, os, t);
    RowsOfFiled(SpanID(), rows, t);
    RowsConcat(EntryAt(p, Hex(t), now).spans, RowsFor(SpanID(), rows, t));
    assert [] + Keep(OfTrace(SpanID(), t), rows) == Keep(OfTrace(SpanID(), t), rows);
  }

  /** Writes that push nothing out leave every other name alone. */
  lemma {:induction false} SpansLandNowhereElse(p: Plain, rows: seq<Row<Span>>, order: seq<TraceID>, now: int,
      os: seq<SetOutcome>, k: string)
    requires |os| == |order| && (forall o <- os :: Calm(o)) && forall t <- order :: Hex(t) != k
    ensures SameEntry(p, AddSpansEach(p, rows, order, now, os), k)
  {
    hide Hex;
    if order != [] {
      var n := |order| - 1;
      assert os[n] in os && order[n] in order;
      assert forall t <- order[..n] :: t in order;
      SpansLandNowhereElse(p, rows, order[..n], now, os[..n], k);
    }
  }

  lemma {:induction false} SpansTouchTracesOnly(p: Plain, rows: seq<Row<Span>>, order: seq<TraceID>, now: int,
      os: seq<SetOutcome>)
    requires |os| == |order| && forall o <- os :: Calm(o)
    ensures var q := AddSpansEach(p, rows, order, now, os); q == p.(traces := q.traces)
  {
    hide Hex, RowsFor;
    if order != [] {
      var n := |order| - 1;
      assert os[n] in os;
      SpansTouchTracesOnly(p, rows, order[..n], now, os[..n]);
    }
  }

  /** In whatever order two walks write a batch, they leave the same entry for each
      trace that both spare. */
  lemma SpansAgreeAt(p: Plain, rows: seq<Row<Span>>, now: int,
      order: seq<TraceID>, os: seq<SetOutcome>, order': seq<TraceID>, os': seq<SetOutcome>, t: TraceID)
    requires IterationOrder(SpanID(), rows, order) && |os| == |order| && Spared(order, os, t)
    requires IterationOrder(SpanID(), rows, order') && |os'| == |order'| && Spared(order', os', t)
    ensures SameEntry(AddSpansEach(p, rows, order, now, os), AddSpansEach(p, rows, order', now, os'), Hex(t))
  {
    hide AddSpansEach, Hex, RowsFor, Spared;
    SpansLand(p, rows, order, now, os, t);
    SpansLand(p, rows, order', now, os', t);
  }

  /** If nothing is pushed out and nothing fails, they leave the same buffer. */
  lemma SpansAgree(p: Plain, rows: seq<Row<Span>>, now: int,
      order: seq<TraceID>, os: seq<SetOutcome>, order': seq<TraceID>, os': seq<SetOutcome>)
    requires IterationOrder(SpanID(), rows, order) && |os| == |order| && forall o <- os :: Calm(o)
    requires IterationOrder(SpanID(), rows, order') && |os'| == |order'| && forall o <- os' :: Calm(o)
    ensures AddSpansEach(p, rows, order, now, os) == AddSpansEach(p, rows, order', now, os')
  {
    hide AddSpansEach, Hex, RowsFor;
    var q, r := AddSpansEach(p, rows, order, now, os), AddSpansEach(p, rows, order', now, os');
    SpansTouchTracesOnly(p, rows, order, now, os);
    SpansTouchTracesOnly(p, rows, order', now, os');
    forall k ensures SameEntry(q, r, k) {
      if t :| t in order && Hex(t) == k {
        CalmSpares(order, os, t);
        CalmSpares(order', os', t);
        SpansAgreeAt(p, rows, now, order, os, order', os', t);
      } else {
        SpansLandNowhereElse(p, rows, order, now, os, k);
        SpansLandNowhereElse(p, rows, order', now, os', k);
      }
    }
    SameTraces(q, r);
  }

  /** The entry of a mentioned trace gains exactly that trace's records, in order, if its
      own write succeeds and no other pushes it out; a trace not mentioned keeps its
      entry as it is. */
  lemma {:induction false} LogsLand(p: Plain, rows: seq<Row<LogRecord>>, order: seq<TraceID>, now: int,
      os: seq<SetOutcome>, t: TraceID)
    requires |os| == |order| && NoRepeats(order) && Spared(order, os, t)
    ensures var q, e := AddLogsEach(p, rows, order, now, os), EntryAt(p, Hex(t), now);
            && (t in order ==>
                  Hex(t) in q.traces && q.traces[Hex(t)] == e.(logs := e.logs + RowsFor(LogID(), rows, t)))
            && (t !in order ==> SameEntry(p, q, Hex(t)))
  {
    hide Hex, MakeRoom;
    if order != [] {
      var n := |order| - 1;
      var init, last := order[..n], order[n];
      var q := AddLogsEach(p, rows, init, now, os[..n]);
      LogsLand(p, rows, init, now, os[..n], t);
      assert order == init + [last];
      RoomLeaves(q, Hex(last), os[n].victims, Hex(t));
      if t != last {
        DistinctHex(t, last);
      }
    }
  }

  /** Item by item, the same for logs. */
  lemma LogRowsLand(p: Plain, rows: seq<Row<LogRecord>>, order: seq<TraceID>, now: int, os: seq<SetOutcome>, t: TraceID)
    requires |os| == |order| && NoRepeats(order) && Spared(order, os, t) && t in order
    ensures var q := AddLogsEach(p, rows, order, now, os);
            && Hex(t) in q.traces
            && var e := q.traces[Hex(t)];
            if Hex(t) in p.traces then
              var d := p.traces[Hex(t)];
              && e.receivedAt == d.receivedAt && e.spans == d.spans
              && Rows(e.logs) == Rows(d.logs) + Keep(OfTrace(LogID(), t), rows)
            else e.receivedAt == now && e.spans == [] && Rows(e.logs) == Keep(OfTrace(LogID(), t), rows)
  {
    hide AddLogsEach, Hex, RowsFor, Keep, Spared;
    LogsLand(p, rows, order, now, os, t);
    RowsOfFiled(LogID(), rows, t);
    RowsConcat(EntryAt(p, Hex(t), now).logs, RowsFor(LogID(), rows, t));
    assert [] + Keep(OfTrace(LogID(), t), rows) == Keep(OfTrace(LogID(), t), rows);
  }

  /** Writes that push nothing out leave every other name alone. */
  lemma {:induction false} LogsLandNowhereElse(p: Plain, rows: seq<Row<LogRecord>>, order: seq<TraceID>, now: int,
      os: seq<SetOutcome>, k: string)
    requires |os| == |order| && (forall o <- os :: Calm(o)) && forall t <- order :: Hex(t) != k
    ensures SameEntry(p, AddLogsEach(p, rows, order, now, os), k)
  {
    hide Hex;
    if order != [] {
      var n := |order| - 1;
      assert os[n] in os && order[n] in order;
      assert forall t <- order[..n] :: t in order;
      LogsLandNowhereElse(p, rows, order[..n], now, os[..n], k);
    }
  }

  lemma {:induction false} LogsTouchTracesOnly(p: Plain, rows: seq<Row<LogRecord>>, order: seq<TraceID>, now: int,
      os: seq<SetOutcome>)
    requires |os| == |order| && forall o <- os :: Calm(o)
    ensures var q := AddLogsEach(p, rows, order, now, os); q == p.(traces := q.traces)
  {
    hide Hex, RowsFor;
    if order != [] {
      var n := |order| - 1;
      assert os[n] in os;
      LogsTouchTracesOnly(p, rows, order[..n], now, os[..n]);
    }
  }

  /** In whatever order two walks write a batch, they leave the same entry for each
      trace that both spare. */
  lemma LogsAgreeAt(p: Plain, rows: seq<Row<LogRecord>>, now: int,
      order: seq<TraceID>, os: seq<SetOutcome>, order': seq<TraceID>, os': seq<SetOutcome>, t: TraceID)
    requires IterationOrder(LogID(), rows, order) && |os| == |order| && Spared(order, os, t)
    requires IterationOrder(LogID(), rows, order') && |os'| == |order'| && Spared(order', os', t)
    ensures SameEntry(AddLogsEach(p, rows, order, now, os), AddLogsEach(p, rows, order', now, os'), Hex(t))
  {
    hide AddLogsEach, Hex, RowsFor, Spared;
    LogsLand(p, rows, order, now, os, t);
    LogsLand(p, rows, order', now, os', t);
  }

  /** If nothing is pushed out and nothing fails, they leave the same buffer. */
  lemma LogsAgree(p: Plain, rows: seq<Row<LogRecord>>, now: int,
      order: seq<TraceID>, os: seq<SetOutcome>, order': seq<TraceID>, os': seq<SetOutcome>)
    requires IterationOrder(LogID(), rows, order) && |os| == |order| && forall o <- os :: Calm(o)
    requires IterationOrder(LogID(), rows, order') && |os'| == |order'| && forall o <- os' :: Calm(o)
    ensures AddLogsEach(p, rows, order, now, os) == AddLogsEach(p, rows, order', now, os')
  {
    hide AddLogsEach, Hex, RowsFor;
    var q, r := AddLogsEach(p, rows, order, now, os), AddLogsEach(p, rows, order', now, os');
    LogsTouchTracesOnly(p, rows, order, now, os);
    LogsTouchTracesOnly(p, rows, order', now, os');
    forall k ensures SameEntry(q, r, k) {
      if t :| t in order && Hex(t) == k {
        CalmSpares(order, os, t);
        CalmSpares(order', os', t);
        LogsAgreeAt(p, rows, now, order, os, order', os', t);
      } else {
        LogsLandNowhereElse(p, rows, order, now, os, k);
        LogsLandNowhereElse(p, rows, order', now, os', k);
      }
    }
    SameTraces(q, r);
  }

  /** A whole batch of logs leaves the same entry for each trace that both walks and
      the write of the untraced records spare. */
  lemma SplitOrderDoesNotMatterTo(p: Plain, rows: seq<Row<LogRecord>>, now: int, at: TimeKey, o: SetOutcome,
      order: seq<TraceID>, os: seq<SetOutcome>, order': seq<TraceID>, os': seq<SetOutcome>, t: TraceID)
    requires IterationOrder(LogID(), rows, order) && |os| == |order| && Spared(order, os, t)
    requires IterationOrder(LogID(), rows, order') && |os'| == |order'| && Spared(order', os', t)
    requires Hex(t) !in o.victims
    ensures SameEntry(StoreSplit(p, rows, order, now, os, at, o), StoreSplit(p, rows, order', now, os', at, o), Hex(t))
  {
    hide AddLogsEach, Hex, RowsFor, Spared, MakeRoom;
    LogsAgreeAt(p, rows, now, order, os, order', os', t);
    RoomLeaves(AddLogsEach(p, rows, order, now, os), at.key, o.victims, Hex(t));
    RoomLeaves(AddLogsEach(p, rows, order', now, os'), at.key, o.victims, Hex(t));
  }

  /** If no trace write pushes anything out or fails, the order in which the splitting
      map is walked does not show at all. */
  lemma SplitOrderDoesNotMatter(p: Plain, rows: seq<Row<LogRecord>>, now: int, at: TimeKey, o: SetOutcome,
      order: seq<TraceID>, os: seq<SetOutcome>, order': seq<TraceID>, os': seq<SetOutcome>)
    requires IterationOrder(LogID(), rows, order) && |os| == |order| && forall o <- os :: Calm(o)
    requires IterationOrder(LogID(), rows, order') && |os'| == |order'| && forall o <- os' :: Calm(o)
    ensures StoreSplit(p, rows, order, now, os, at, o) == StoreSplit(p, rows, order', now, os', at, o)
  {
    LogsAgree(p, rows, now, order, os, order', os');
  }

  lemma EmptyIsZero(t: TraceID)
    ensures IsEmptyID(t) <==> t == NO_TRACE
  {
  }

  function CountFor<T>(id: T -> TraceID, rows: seq<Row<T>>): TraceID -> int {
    (t: TraceID) => |RowsFor(id, rows, t)|
  }

  lemma {:induction false} SumMoves(f: TraceID -> int, g: TraceID -> int, order: seq<TraceID>, t: TraceID)
    requires NoRepeats(order)
    requires forall s <- order :: g(s) == f(s) + if s == t then 1 else 0
    ensures Sum(g, order) == Sum(f, order) + if t in order then 1 else 0
  {
    if order != [] {
      SumMoves(f, g, order[..|order| - 1], t);
      assert order == order[..|order| - 1] + [order[|order| - 1]];
    }
  }

  /** Every item of a batch is filed under exactly one trace, or, without one,
      among the rest. */
  lemma {:induction false} NothingLostInSplitting<T>(id: T -> TraceID, rows: seq<Row<T>>, order: seq<TraceID>)
    requires NoRepeats(order)
    requires forall t <- order :: !IsEmptyID(t)
    requires forall row <- rows :: IsEmptyID(id(row.item)) || id(row.item) in order
    ensures Sum(CountFor(id, rows), order) + |RowsFor(id, rows, NO_TRACE)| == |rows|
  {
    hide Sum, IsEmptyID;
    if rows == [] {
      NoneFiled(id, order);
    } else {
      var init, row := rows[..|rows| - 1], rows[|rows| - 1];
      assert rows == init + [row];
      NothingLostInSplitting(id, init, order);
      SumMoves(CountFor(id, init), CountFor(id, rows), order, id(row.item));
      EmptyIsZero(id(row.item));
    }
  }

  lemma {:induction false} NoneFiled<T>(id: T -> TraceID, order: seq<TraceID>)
    ensures Sum(CountFor(id, []), order) == 0
  {
    if order != [] {
      NoneFiled(id, order[..|order| - 1]);
    }
  }
}
