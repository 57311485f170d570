/** Decisions arrive: what is decided is queued for the peers and heard, what is heard
    is taken in turn, and what is taken goes out. */
module Delivery {
  import opened Keyed
  import opened Pdata
  import opened Identity
  import opened Traversal
  import opened Live
  import opened Gossip
  import opened Sampler
  import opened Spans
  import opened Cluster
  import E = Engine

  lemma OneMoveMore(config: Config, moves: seq<Move>, m: Move)
    ensures History(config, moves + [m]) == Moved(config, History(config, moves), m)
  {
    assert (moves + [m])[..|moves|] == moves;
  }

  /** What a live node queues and hears when it consumes a logged batch that leads to a
      decision: the decision is last in the queue for the peers and, unless a hundred
      are waiting, last in the node's own channel. */
  lemma AVerdictIsHeard(config: Config, moves: seq<Move>, n: nat, batch: Traces, order: seq<TraceID>, now: int,
      os: seq<SetOutcome>, d: Decision)
    requires n < |config| && !History(config, moves)[n].proc.dead && E.Verdict(config[n], batch, now) == Some(d)
    ensures var mail := History(config, moves)[n].mail;
            var mail' := History(config, moves + [ConsumeTraces(n, batch, order, now, os, true)])[n].mail;
            && mail'.queue == mail.queue + [SamplingDecision(d)]
            && mail'.decisions == (if |mail.decisions| < 100 then mail.decisions + [d] else mail.decisions)
            && mail'.triggers == mail.triggers
  {
    hide E.Verdict, StepsOf, Next, Through;
    OneMoveMore(config, moves, ConsumeTraces(n, batch, order, now, os, true));
  }

  /** A batch without a verdict is heard of nowhere. */
  lemma NoVerdictNoWord(config: Config, moves: seq<Move>, n: nat, batch: Traces, order: seq<TraceID>, now: int,
      os: seq<SetOutcome>, logged: bool)
    requires n < |config| && (!logged || E.Verdict(config[n], batch, now) == None)
    ensures History(config, moves + [ConsumeTraces(n, batch, order, now, os, logged)])[n].mail ==
            History(config, moves)[n].mail
  {
    hide E.Verdict, StepsOf, Next, Through;
    OneMoveMore(config, moves, ConsumeTraces(n, batch, order, now, os, logged));
  }

  /** A decision that some node has queued, when it reaches a live node, is last in that
      node's channel, unless a hundred are waiting. */
  lemma APeerHears(config: Config, moves: seq<Move>, n: nat, from: nat, i: nat, d: Decision)
    requires n < |config| && from < |config| && !History(config, moves)[n].proc.dead
    requires i < |History(config, moves)[from].mail.queue|
    requires History(config, moves)[from].mail.queue[i] == SamplingDecision(d)
    ensures var mail, mail' := History(config, moves)[n].mail, History(config, moves + [Deliver(n, from, i)])[n].mail;
            && mail'.decisions == (if |mail.decisions| < 100 then mail.decisions + [d] else mail.decisions)
            && mail'.queue == mail.queue && mail'.triggers == mail.triggers
  {
    hide StepsOf, Next, Through;
    OneMoveMore(config, moves, Deliver(n, from, i));
  }

  // ---------------------------------------------------------------------------
  // In turn
  // ---------------------------------------------------------------------------

  /** The node takes a decision in this move. */
  predicate Takes(at: Member, m: Move, n: nat) {
    m == TakeDecision(n) && !at.proc.dead && at.mail.decisions != []
  }

  /** How many decisions a node takes in `more`. */
  ghost function Taken(config: Config, moves: seq<Move>, more: seq<Move>, n: nat): nat
    requires n < |config|
  {
    if more == [] then 0
    else
      var init := more[..|more| - 1];
      Taken(config, moves, init, n)
      + if Takes(History(config, moves + init)[n], more[|more| - 1], n) then 1 else 0
  }

  lemma ChannelMoves(config: Config, ms: seq<Member>, m: Move, n: nat)
    requires n < |ms| == |config|
    ensures var a, b := ms[n].mail.decisions, NewMail(config, ms, m, n).decisions;
            if Takes(ms[n], m, n) then b == a[1..] else a <= b
  {
    hide E.Verdict;
  }

  /** A channel is first in, first out: after `k` decisions have been taken, those that
      waited behind them are at its head, in their order. */
  lemma {:induction false} FirstInFirstOut(config: Config, moves: seq<Move>, more: seq<Move>, n: nat)
    requires n < |config|
    ensures var a, b := History(config, moves)[n].mail.decisions, History(config, moves + more)[n].mail.decisions;
            var k := Taken(config, moves, more, n);
            k <= |a| ==> a[k..] <= b
  {
    hide Moved, NewMail, StepsOf, Through;
    if more == [] {
      assert moves + more == moves;
    } else {
      var init, m := more[..|more| - 1], more[|more| - 1];
      FirstInFirstOut(config, moves, init, n);
      assert moves + more == moves + init + [m];
      OneMoveMore(config, moves + init, m);
      ChannelMoves(config, History(config, moves + init), m, n);
      MovedMail(config, History(config, moves + init), m, n);
      var a, k := History(config, moves)[n].mail.decisions, Taken(config, moves, more, n);
      if k <= |a| && Takes(History(config, moves + init)[n], m, n) {
        assert a[k - 1..][1..] == a[k..];
      }
    }
  }

  lemma MovedMail(config: Config, ms: seq<Member>, m: Move, n: nat)
    requires n < |ms| == |config|
    ensures Moved(config, ms, m)[n].mail == NewMail(config, ms, m, n)
  {
  }

  /** Once all decisions before it have been taken, taking a decision that waits in the
      channel of a live node sends all the spans that the node then buffers for its
      trace, whatever has happened to the cluster in between. */
  lemma ADecisionIsServedInTurn(config: Config, moves: seq<Move>, more: seq<Move>, n: nat, i: nat, t: TraceID)
    requires n < |config| && i < |History(config, moves)[n].mail.decisions|
    requires ParseID(History(config, moves)[n].mail.decisions[i].traceId) == Some(t)
    requires Taken(config, moves, more, n) == i && !History(config, moves + more)[n].proc.dead
    ensures Flushes(config, moves + more, n, t)
  {
    hide Hex, ParseID, Decide, ExportedSpans, BufferedSpans, Taken, History;
    FirstInFirstOut(config, moves, more, n);
    var a, at := History(config, moves)[n].mail.decisions, History(config, moves + more)[n];
    assert a[i..][0] == a[i] && at.mail.decisions[0] == a[i];
    TakesDecision(config, moves + more, n);
    DecideMoves(at.proc, a[i], Hex(t));
  }

  /** Taking the next decision sends what the node buffers for the trace. */
  ghost predicate Flushes(config: Config, moves: seq<Move>, n: nat, t: TraceID)
    requires n < |config|
  {
    var p, q := History(config, moves)[n].proc, History(config, moves + [TakeDecision(n)])[n].proc;
    && ExportedSpans(q.exports, Hex(t)) == ExportedSpans(p.exports, Hex(t)) + BufferedSpans(p.buf, Hex(t))
    && BufferedSpans(q.buf, Hex(t)) == []
  }

  /** From the batch to the export: a live node with room consumes a logged batch that
      meets one of its policies. The first trace it names goes out of that node once the
      decisions then waiting have been taken. */
  lemma ASampledTraceGoesOut(config: Config, moves: seq<Move>, n: nat, batch: Traces, order: seq<TraceID>, now: int,
      os: seq<SetOutcome>, more: seq<Move>, i: nat)
    requires n < |config| && !History(config, moves)[n].proc.dead
    requires |History(config, moves)[n].mail.decisions| < 100
    requires (exists p <- config[n] :: E.Found(Rows(batch), E.Wanted(p))) && E.NamesFirst(Rows(batch), i)
    requires var consumed := moves + [ConsumeTraces(n, batch, order, now, os, true)];
             && Taken(config, consumed, more, n) == |History(config, moves)[n].mail.decisions|
             && !History(config, consumed + more)[n].proc.dead
    ensures Flushes(config, moves + [ConsumeTraces(n, batch, order, now, os, true)] + more, n,
                    Rows(batch)[i].item.traceId)
  {
    hide E.Found, E.Wanted, Rows, E.Verdict, ParseID, Hex, History, Taken, Flushes, IsEmptyID;
    var consumed := moves + [ConsumeTraces(n, batch, order, now, os, true)];
    var before := History(config, moves)[n].mail.decisions;
    var d, t := VerdictNames(config, n, batch, now, i);
    AVerdictIsHeard(config, moves, n, batch, order, now, os, d);
    ADecisionIsServedInTurn(config, consumed, more, n, |before|, t);
  }

  lemma VerdictNames(config: Config, n: nat, batch: Traces, now: int, i: nat) returns (d: Decision, t: TraceID)
    requires n < |config| && (exists p <- config[n] :: E.Found(Rows(batch), E.Wanted(p)))
    requires E.NamesFirst(Rows(batch), i)
    ensures t == Rows(batch)[i].item.traceId && E.Verdict(config[n], batch, now) == Some(d)
    ensures ParseID(d.traceId) == Some(t)
  {
    hide E.Found, E.Wanted, Rows, E.Verdict, ParseID, Hex, IsEmptyID;
    E.VerdictMeaning(config[n], batch, now);
    t := Rows(batch)[i].item.traceId;
    assert Rows(batch)[i] in Rows(batch);
    d := E.Verdict(config[n], batch, now).value;
    var j :| E.NamesFirst(Rows(batch), j) && d.traceId == Hex(Rows(batch)[j].item.traceId);
    assert i == j;
    IDRoundTrip(t);
  }

  /** And of any live peer with room that the message reaches, once the decisions then
      waiting there have been taken. */
  lemma ASampledTraceGoesOutOfAPeer(config: Config, moves: seq<Move>, n: nat, batch: Traces, order: seq<TraceID>,
      now: int, os: seq<SetOutcome>, i: nat, peer: nat, between: seq<Move>, more: seq<Move>)
    requires n < |config| && peer < |config| && !History(config, moves)[n].proc.dead
    requires (exists p <- config[n] :: E.Found(Rows(batch), E.Wanted(p))) && E.NamesFirst(Rows(batch), i)
    requires var sent := moves + [ConsumeTraces(n, batch, order, now, os, true)] + between;
             var at := History(config, sent)[peer];
             var heard := sent + [Deliver(peer, n, |History(config, moves)[n].mail.queue|)];
             && !at.proc.dead && |at.mail.decisions| < 100
             && Taken(config, heard, more, peer) == |at.mail.decisions|
             && !History(config, heard + more)[peer].proc.dead
    ensures var sent := moves + [ConsumeTraces(n, batch, order, now, os, true)] + between;
            var heard := sent + [Deliver(peer, n, |History(config, moves)[n].mail.queue|)];
            Flushes(config, heard + more, peer, Rows(batch)[i].item.traceId)
  {
    hide E.Found, E.Wanted, Rows, E.Verdict, ParseID, Hex, History, Taken, Flushes, IsEmptyID;
    var consumed := moves + [ConsumeTraces(n, batch, order, now, os, true)];
    var q := |History(config, moves)[n].mail.queue|;
    var before := History(config, consumed + between)[peer].mail.decisions;
    var d, t := VerdictNames(config, n, batch, now, i);
    AVerdictIsHeard(config, moves, n, batch, order, now, os, d);
    QueuesGrow(config, consumed, between, n);
    APeerHears(config, consumed + between, peer, n, q, d);
    ADecisionIsServedInTurn(config, consumed + between + [Deliver(peer, n, q)], more, peer, |before|, t);
  }

  lemma {:induction false} QueuesGrow(config: Config, moves: seq<Move>, more: seq<Move>, n: nat)
    requires n < |config|
    ensures History(config, moves)[n].mail.queue <= History(config, moves + more)[n].mail.queue
  {
    hide Moved, NewMail, StepsOf, Through;
    if more == [] {
      assert moves + more == moves;
    } else {
      var init, m := more[..|more| - 1], more[|more| - 1];
      QueuesGrow(config, moves, init, n);
      assert moves + more == moves + init + [m];
      OneMoveMore(config, moves + init, m);
      QueueMoves(config, History(config, moves + init), m, n);
      MovedMail(config, History(config, moves + init), m, n);
    }
  }

  lemma QueueMoves(config: Config, ms: seq<Member>, m: Move, n: nat)
    requires n < |ms| == |config|
    ensures ms[n].mail.queue <= NewMail(config, ms, m, n).queue
  {
    hide E.Verdict;
  }
}
