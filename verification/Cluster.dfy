/** Several nodes that gossip their decisions over a network that may lose,
    duplicate and reorder messages. */
module Cluster {
  import opened Keyed
  import opened Pdata
  import opened Identity
  import opened Traversal
  import opened Live
  import opened Gossip
  import opened Sampler
  import opened SignalLedger
  import opened Spans
  import opened Subsequence
  import E = Engine

  datatype Member = Member(proc: Proc, mail: Mail)

  type Config = seq<seq<E.Policy>>

  datatype Move =
    | ConsumeTraces(node: nat, batch: Traces, order: seq<TraceID>, now: int, os: seq<SetOutcome>, logged: bool)
    | Internal(node: nat, step: Step)
    | Deliver(node: nat, from: nat, message: nat)
    | DeliverNoise(node: nat)
    | TakeDecision(node: nat)
    | RaiseTrigger(node: nat, event: TriggerEvent)
    | TakeTrigger(node: nat)

  /** Decisions and spans enter a node in no other way. */
  predicate IsInternal(s: Step) {
    !s.StoreSpans? && !s.ProcessDecision?
  }

  /** The steps that one move makes a node's process take. */
  ghost function StepsOf(ms: seq<Member>, m: Move, n: nat): seq<Step>
    requires n < |ms|
  {
    if m.node != n || ms[n].proc.dead then []
    else
      match m
      case ConsumeTraces(_, batch, order, now, os, logged) =>
        if logged then [StoreSpans(Rows(batch), order, now, os)] else []
      case Internal(_, step) => if IsInternal(step) then [step] else []
      case TakeDecision(_) => if ms[n].mail.decisions == [] then [] else [ProcessDecision(ms[n].mail.decisions[0])]
      case TakeTrigger(_) =>
        if ms[n].mail.triggers == [] then []
        else
          var l := Asked(ms[n].mail.triggers[0]);
          if l.None? then [] else [SetLevel(l.value)]
      case _ => []
  }

  /** Noise is an empty or unreadable message. One that some node has queued may reach any node, at any time, any
      number of times, or never. */
  function NewMail(config: Config, ms: seq<Member>, m: Move, n: nat): Mail
    requires n < |ms| == |config|
  {
    var mail := ms[n].mail;
    if m.node != n || ms[n].proc.dead then mail
    else
      match m
      case ConsumeTraces(_, batch, _, now, _, logged) =>
        if logged then E.Announced(mail, E.Verdict(config[n], batch, now)) else mail
      case Deliver(_, from, i) =>
        if from < |ms| && i < |ms[from].mail.queue| then Hear(mail, ms[from].mail.queue[i]) else mail
      case TakeDecision(_) => if mail.decisions == [] then mail else mail.(decisions := mail.decisions[1..])
      case TakeTrigger(_) => if mail.triggers == [] then mail else mail.(triggers := mail.triggers[1..])
      case RaiseTrigger(_, event) => Broadcast(mail, Trigger(event))
      case _ => mail
  }

  ghost function Moved(config: Config, ms: seq<Member>, m: Move): (r: seq<Member>)
    requires |ms| == |config|
    ensures |r| == |ms|
  {
    seq(|ms|, n requires 0 <= n < |ms| => Member(Through(ms[n].proc, StepsOf(ms, m, n)), NewMail(config, ms, m, n)))
  }

  ghost function History(config: Config, moves: seq<Move>): (r: seq<Member>)
    ensures |r| == |config|
  {
    if moves == [] then seq(|config|, n => Member(START, NO_MAIL))
    else Moved(config, History(config, moves[..|moves| - 1]), moves[|moves| - 1])
  }

  // ---------------------------------------------------------------------------
  // Each node runs as if alone
  // ---------------------------------------------------------------------------

  ghost function StepsAt(config: Config, moves: seq<Move>, n: nat): seq<Step>
    requires n < |config|
  {
    if moves == [] then []
    else
      StepsAt(config, moves[..|moves| - 1], n)
      + StepsOf(History(config, moves[..|moves| - 1]), moves[|moves| - 1], n)
  }

  lemma OneStepMore(steps: seq<Step>, more: seq<Step>)
    requires |more| <= 1
    ensures Run(steps + more) == Through(Run(steps), more)
  {
    hide Next;
    if more == [] {
      assert steps + more == steps;
    } else {
      assert (steps + more)[..|steps|] == steps;
    }
  }

  lemma {:induction false} NodeRunsAlone(config: Config, moves: seq<Move>, n: nat)
    requires n < |config|
    ensures History(config, moves)[n].proc == Run(StepsAt(config, moves, n))
  {
    hide Run, StepsOf, NewMail, Through;
    if moves == [] {
      RunNothing();
    } else {
      var init, m := moves[..|moves| - 1], moves[|moves| - 1];
      NodeRunsAlone(config, init, n);
      AtMostOne(History(config, init), m, n);
      OneStepMore(StepsAt(config, init, n), StepsOf(History(config, init), m, n));
    }
  }

  lemma RunNothing()
    ensures Run([]) == START
  {
  }

  lemma AtMostOne(ms: seq<Member>, m: Move, n: nat)
    requires n < |ms|
    ensures |StepsOf(ms, m, n)| <= 1
  {
  }

  // ---------------------------------------------------------------------------
  // Spans
  // ---------------------------------------------------------------------------

  /** Over every run of the cluster, no node exports a stored span twice, however
      decisions are lost, duplicated and reordered. */
  lemma NoSpanExportedTwice(config: Config, moves: seq<Move>, n: nat, k: string)
    requires n < |config|
    ensures var p := History(config, moves)[n].proc;
            var h := Past(p.ledger.history, k);
            && SpanSafe(p, k)
            && HavePositions(ExportedSpans(p.exports, k), h[..|h| - |BufferedSpans(p.buf, k)|])
            && multiset(ExportedSpans(p.exports, k)) + multiset(BufferedSpans(p.buf, k))
               <= multiset(h)
  {
    hide *;
    NodeRunsAlone(config, moves, n);
    SpansExportedAtMostOnce(StepsAt(config, moves, n), k);
    ExportedSpansHavePlaces(History(config, moves)[n].proc, k);
    NoMoreOutThanIn(History(config, moves)[n].proc, k);
  }

  /** On a node that never evicts a trace or loses it in a write, the exported
      chunks followed by the buffered spans are all that was stored for it. */
  lemma ChunksMakeUpTheTrace(config: Config, moves: seq<Move>, n: nat, k: string)
    requires n < |config| && forall s <- StepsAt(config, moves, n) :: SparesTrace(s, k)
    ensures SpanExact(History(config, moves)[n].proc, k)
  {
    hide *;
    NodeRunsAlone(config, moves, n);
    ChunksThenBufferAreHistory(StepsAt(config, moves, n), k);
  }

  /** The moment such a node takes a decision for the trace, all of it has been
      exported. */
  lemma DecisionsFlushTheTrace(config: Config, moves: seq<Move>, n: nat, t: TraceID)
    requires n < |config| && forall s <- StepsAt(config, moves, n) :: SparesTrace(s, Hex(t))
    requires var at := History(config, moves)[n];
             !at.proc.dead && at.mail.decisions != [] && ParseID(at.mail.decisions[0].traceId) == Some(t)
    ensures var p := History(config, moves + [TakeDecision(n)])[n].proc;
            ExportedSpans(p.exports, Hex(t)) == Past(History(config, moves)[n].proc.ledger.history, Hex(t))
  {
    hide Hex, ParseID, SparesTrace, Decide, ExportedSpans, BufferedSpans, Past, StepsAt;
    ChunksMakeUpTheTrace(config, moves, n, Hex(t));
    var at := History(config, moves)[n];
    DecideMoves(at.proc, at.mail.decisions[0], Hex(t));
    TakesDecision(config, moves, n);
  }

  lemma TakesDecision(config: Config, moves: seq<Move>, n: nat)
    requires n < |config|
    requires var at := History(config, moves)[n]; !at.proc.dead && at.mail.decisions != []
    ensures var at := History(config, moves)[n];
            History(config, moves + [TakeDecision(n)])[n].proc == Decide(at.proc, at.mail.decisions[0])
  {
    hide Decide, Next, StepsOf, NewMail, Through;
    var ms, m := History(config, moves), TakeDecision(n);
    assert (moves + [m])[..|moves|] == moves;
    TakeDecisionSteps(ms, n);
  }

  lemma TakeDecisionSteps(ms: seq<Member>, n: nat)
    requires n < |ms| && !ms[n].proc.dead && ms[n].mail.decisions != []
    ensures Through(ms[n].proc, StepsOf(ms, TakeDecision(n), n)) == Decide(ms[n].proc, ms[n].mail.decisions[0])
  {
    hide Decide, Next;
    var s := ProcessDecision(ms[n].mail.decisions[0]);
    assert StepsOf(ms, TakeDecision(n), n) == [s] && [s][..0] == [];
    NextDecides(ms[n].proc, ms[n].mail.decisions[0]);
  }

  /** Each node keeps its own books: with fresh keys, every signal it has stored is
      in exactly one place. */
  lemma EveryNodeBalances(config: Config, moves: seq<Move>, n: nat)
    requires n < |config| && LegalRun(StepsAt(config, moves, n))
    ensures Balanced(History(config, moves)[n].proc)
  {
    hide *;
    NodeRunsAlone(config, moves, n);
    EverySignalInOnePlace(StepsAt(config, moves, n));
  }

  // ---------------------------------------------------------------------------
  // Provenance
  // ---------------------------------------------------------------------------

  /** This move consumed a batch that led to this decision. */
  predicate Leads(config: Config, m: Move, d: Decision) {
    && m.ConsumeTraces? && m.logged && m.node < |config|
    && E.Verdict(config[m.node], m.batch, m.now) == Some(d)
  }

  ghost predicate Grounded(config: Config, moves: seq<Move>, d: Decision) {
    exists m <- moves :: Leads(config, m, d)
  }

  ghost predicate MailGrounded(config: Config, moves: seq<Move>, mail: Mail) {
    && (forall d <- mail.decisions :: Grounded(config, moves, d))
    && (forall p <- mail.queue | p.SamplingDecision? :: Grounded(config, moves, p.decision))
  }

  predicate ForTrace(x: Export, k: string) {
    (x.TraceOut? || x.TraceLogsOut?) && x.key == k
  }

  ghost predicate ExportGrounded(config: Config, moves: seq<Move>, k: string) {
    exists m <- moves, d :: Leads(config, m, d) && ParseID(d.traceId).Some? && Hex(ParseID(d.traceId).value) == k
  }

  ghost predicate ExportsGrounded(config: Config, moves: seq<Move>, p: Proc) {
    forall x, k | x in p.exports && ForTrace(x, k) :: ExportGrounded(config, moves, k)
  }

  lemma StaysGrounded(config: Config, moves: seq<Move>, m: Move, mail: Mail)
    requires MailGrounded(config, moves, mail)
    ensures MailGrounded(config, moves + [m], mail)
  {
    hide Leads;
    forall d | Grounded(config, moves, d) ensures Grounded(config, moves + [m], d) {
      var x :| x in moves && Leads(config, x, d);
      assert x in moves + [m];
    }
  }

  lemma HearGrounded(config: Config, moves: seq<Move>, mail: Mail, p: Payload)
    requires MailGrounded(config, moves, mail) && (p.SamplingDecision? ==> Grounded(config, moves, p.decision))
    ensures MailGrounded(config, moves, Hear(mail, p))
  {
    hide Grounded;
  }

  lemma AnnounceGrounded(config: Config, moves: seq<Move>, m: Move, mail: Mail)
    requires MailGrounded(config, moves, mail) && m.ConsumeTraces? && m.logged && m.node < |config|
    ensures MailGrounded(config, moves + [m], E.Announced(mail, E.Verdict(config[m.node], m.batch, m.now)))
  {
    hide E.Verdict;
    StaysGrounded(config, moves, m, mail);
    var d := E.Verdict(config[m.node], m.batch, m.now);
    if d.Some? {
      assert m in moves + [m] && Leads(config, m, d.value);
      hide Grounded, Leads;
      var p := Gossip.SamplingDecision(d.value);
      HearGrounded(config, moves + [m], mail.(queue := mail.queue + [p]), p);
    }
  }

  ghost predicate AllGrounded(config: Config, moves: seq<Move>, ms: seq<Member>) {
    forall at <- ms :: MailGrounded(config, moves, at.mail) && ExportsGrounded(config, moves, at.proc)
  }

  lemma MailStaysGrounded(config: Config, moves: seq<Move>, ms: seq<Member>, m: Move, n: nat)
    requires n < |ms| == |config| && AllGrounded(config, moves, ms)
    ensures MailGrounded(config, moves + [m], NewMail(config, ms, m, n))
  {
    hide E.Verdict, E.Announced, Grounded, ExportsGrounded;
    var mail := ms[n].mail;
    assert ms[n] in ms;
    StaysGrounded(config, moves, m, mail);
    if m.node != n || ms[n].proc.dead {
      return;
    }
    match m
    case ConsumeTraces(_, batch, _, now, _, logged) =>
      if logged {
        AnnounceGrounded(config, moves, m, mail);
      }
    case Deliver(_, from, i) =>
      if from < |ms| && i < |ms[from].mail.queue| {
        assert ms[from] in ms;
        StaysGrounded(config, moves, m, ms[from].mail);
        HearGrounded(config, moves + [m], mail, ms[from].mail.queue[i]);
      }
    case RaiseTrigger(_, event) =>
      HearGrounded(config, moves + [m], mail.(queue := mail.queue + [Trigger(event)]), Trigger(event));
    case _ =>
  }

  lemma MoreMovesGroundExports(config: Config, moves: seq<Move>, m: Move, p: Proc)
    requires ExportsGrounded(config, moves, p)
    ensures ExportsGrounded(config, moves + [m], p)
  {
    hide Leads, Hex, ParseID;
    forall k | ExportGrounded(config, moves, k) ensures ExportGrounded(config, moves + [m], k) {
      var x, d :| x in moves && Leads(config, x, d) && ParseID(d.traceId).Some? && Hex(ParseID(d.traceId).value) == k;
      assert x in moves + [m];
    }
  }

  /** A decision exports under the key of its own trace only. */
  lemma DecideExportsOwnTrace(p: Proc, d: Decision, x: Export, k: string)
    requires x in Decide(p, d).exports && x !in p.exports && ForTrace(x, k)
    ensures ParseID(d.traceId).Some? && Hex(ParseID(d.traceId).value) == k
  {
    hide Hex, ParseID, Range, OutOfRange, Concat, MetricSignals, LogSignals, WindowStart, WindowEnd;
  }

  lemma QuietAboutTraces(p: Proc, s: Step, x: Export, k: string)
    requires !s.ProcessDecision? && x in Next(p, s).exports && ForTrace(x, k)
    ensures x in p.exports
  {
    if s.PerformRollup? {
      RollupQuietAboutTraces(p, s.enabled, s.now, x, k);
    }
  }

  lemma RollupQuietAboutTraces(p: Proc, enabled: bool, now: int, x: Export, k: string)
    requires x in Rollup(p, enabled, now).exports && ForTrace(x, k)
    ensures x in p.exports
  {
    hide Range, OutOfRange, MetricSignals, LogSignals, Data;
  }

  lemma ExportsStayGrounded(config: Config, moves: seq<Move>, ms: seq<Member>, m: Move, n: nat)
    requires n < |ms| == |config| && AllGrounded(config, moves, ms)
    ensures ExportsGrounded(config, moves + [m], Through(ms[n].proc, StepsOf(ms, m, n)))
  {
    hide Next, Decide, Leads, Hex, ParseID, Grounded;
    assert ms[n] in ms;
    var p, steps := ms[n].proc, StepsOf(ms, m, n);
    MoreMovesGroundExports(config, moves, m, p);
    if steps != [] {
      assert |steps| == 1 && steps[..0] == [];
      var q := Next(p, steps[0]);
      assert Through(p, steps) == q;
      forall x, k | x in q.exports && ForTrace(x, k) ensures ExportGrounded(config, moves + [m], k) {
        if x in p.exports {
        } else if steps[0].ProcessDecision? {
          var d := ms[n].mail.decisions[0];
          assert d in ms[n].mail.decisions;
          NextDecides(p, d);
          DecideExportsOwnTrace(p, d, x, k);
          GroundedExport(config, moves, m, d);
        } else {
          QuietAboutTraces(p, steps[0], x, k);
        }
      }
    }
  }

  lemma NextDecides(p: Proc, d: Decision)
    ensures Next(p, ProcessDecision(d)) == if p.dead then p else Decide(p, d)
  {
  }

  lemma GroundedExport(config: Config, moves: seq<Move>, m: Move, d: Decision)
    requires Grounded(config, moves, d) && ParseID(d.traceId).Some?
    ensures ExportGrounded(config, moves + [m], Hex(ParseID(d.traceId).value))
  {
    hide Leads, Hex, ParseID;
    var x :| x in moves && Leads(config, x, d);
    assert x in moves + [m];
  }

  lemma {:induction false} EverythingGrounded(config: Config, moves: seq<Move>)
    ensures AllGrounded(config, moves, History(config, moves))
  {
    hide MailGrounded, ExportsGrounded, Through, StepsOf, NewMail;
    if moves == [] {
      NothingToGround(config);
    } else {
      var init, m := moves[..|moves| - 1], moves[|moves| - 1];
      EverythingGrounded(config, init);
      assert moves == init + [m];
      var ms := History(config, init);
      forall n | 0 <= n < |config|
        ensures MailGrounded(config, moves, NewMail(config, ms, m, n))
        ensures ExportsGrounded(config, moves, Through(ms[n].proc, StepsOf(ms, m, n)))
      {
        MailStaysGrounded(config, init, ms, m, n);
        ExportsStayGrounded(config, init, ms, m, n);
      }
    }
  }

  lemma NothingToGround(config: Config)
    ensures AllGrounded(config, [], History(config, []))
  {
    assert MailGrounded(config, [], NO_MAIL) && ExportsGrounded(config, [], START);
  }

  /** A node consumed a batch that met one of its policies and whose first
      non-empty trace identifier prints as `k`. */
  ghost predicate Vouches(config: Config, m: Move, k: string) {
    && m.ConsumeTraces? && m.logged && m.node < |config|
    && (exists p <- config[m.node] :: E.Found(Rows(m.batch), E.Wanted(p)))
    && (exists i :: E.NamesFirst(Rows(m.batch), i) && Hex(Rows(m.batch)[i].item.traceId) == k)
  }

  lemma LeadsVouches(config: Config, m: Move, d: Decision)
    requires Leads(config, m, d) && ParseID(d.traceId).Some?
    ensures Vouches(config, m, Hex(ParseID(d.traceId).value))
  {
    hide E.Found, E.Wanted, Rows, Hex, ParseID, E.Verdict;
    var rows := Rows(m.batch);
    E.VerdictMeaning(config[m.node], m.batch, m.now);
    var i :| E.NamesFirst(rows, i) && d.traceId == Hex(rows[i].item.traceId);
    IDRoundTrip(rows[i].item.traceId);
  }

  /** A trace, or its logs, leave any node only after some node consumed a batch
      that met a policy and named that trace first. */
  lemma EveryExportIsVouchedFor(config: Config, moves: seq<Move>, n: nat, x: Export, k: string)
    requires n < |config| && x in History(config, moves)[n].proc.exports && ForTrace(x, k)
    ensures exists m <- moves :: Vouches(config, m, k)
  {
    hide Vouches, Leads, Hex, ParseID, History, MailGrounded;
    EverythingGrounded(config, moves);
    var at := History(config, moves)[n];
    assert at in History(config, moves);
    assert ExportGrounded(config, moves, k);
    var m, d :| m in moves && Leads(config, m, d) && ParseID(d.traceId).Some? && Hex(ParseID(d.traceId).value) == k;
    LeadsVouches(config, m, d);
  }
}
