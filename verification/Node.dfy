/** One node put together: the consumer and the processor share a buffer and a
    gossip manager, and their turns are the moves of a cluster. */
module Node {
  import opened Pdata
  import opened Traversal
  import opened Buffer
  import opened Gossip
  import opened Cluster
  import E = Engine
  import P = Processor
  import R = Recovery
  import Rollup
  import S = Sampler
  import opened Server
  import Live
  import Wal

  /** What a node becomes when the log has taken a signal. */
  ghost function Consumed(at: Member, policies: seq<E.Policy>, sig: Incoming, plan: Plan): Member {
    Member(S.Next(at.proc, R.StepFor(sig, plan)),
           if sig.TraceIn? then E.Announced(at.mail, E.Verdict(policies, sig.traces, plan.now)) else at.mail)
  }

  class Node {
    const consumer: MainConsumer
    const processor: P.Processor

    constructor (consumer: MainConsumer, processor: P.Processor)
      ensures this.consumer == consumer && this.processor == processor
    {
      this.consumer, this.processor := consumer, processor;
    }

    ghost predicate Ready()
      reads consumer, consumer.buffer, consumer.wal, consumer.decision, consumer.decision.broadcaster
    {
      && consumer.buffer == processor.buffer
      && consumer.decision.broadcaster == processor.gossip
      && consumer.Ready()
    }

    ghost function Abs(): Member
      requires Ready()
      reads consumer, consumer.buffer, consumer.wal, consumer.decision, consumer.decision.broadcaster
      reads processor, processor.rollup
    {
      Member(processor.Abs(), processor.gossip.Abs())
    }

    /** The log as the crash theorems see it, with nothing acknowledged or sent yet. */
    ghost function Machine(): R.Machine
      requires Ready() && consumer.wal != null
      reads consumer, consumer.buffer, consumer.wal, consumer.decision, consumer.decision.broadcaster
      reads processor, processor.rollup
    {
      R.Machine(consumer.wal.slots, processor.Abs(), [], [])
    }

    method Consume(sig: Incoming, receivedAt: int, plan: Plan, logFails: bool) returns (ok: bool)
      requires Ready() && !processor.dead && Fresh(consumer.buffer.Abs(), sig, plan)
      modifies consumer.buffer, consumer.wal, consumer.decision.broadcaster, processor
      ensures Ready() && ok == (consumer.wal == null || !logFails)
      ensures Abs() == if ok then Consumed(old(Abs()), consumer.decision.policies, sig, plan) else old(Abs())
      ensures consumer.wal != null ==>
                Machine() == R.After(old(Machine()), R.Consume(sig, receivedAt, plan, logFails)).(acked := [])
    {
      hide Stored, Fits, Fresh, E.Verdict, E.Announced, R.StepFor, S.Next;
      FreshFits(consumer.buffer, sig, plan);
      R.StepForStores(processor.Abs(), sig, plan);
      StoresKeepTheRest(processor.Abs(), sig, plan);
      ghost var ledger := S.Next(processor.Abs(), R.StepFor(sig, plan)).ledger;
      ok := consumer.Consume(sig, receivedAt, plan, logFails);
      if ok {
        processor.ledger := ledger;
      }
    }
  }

  /** Start-up: the log goes to an empty buffer before anything else runs. */
  method Start(wal: Wal.Log, plans: seq<Plan>, policies: seq<E.Policy>, enabled: bool) returns (node: Node)
    requires wal.Valid() && |plans| == |Wal.Replayed(wal.slots)|
    requires var log := Wal.Replayed(wal.slots);
             forall n | 0 <= n < |log| :: Fresh(Restored(log, plans, n), log[n].signal, plans[n])
    ensures fresh(node) && node.Ready() && !node.processor.dead && node.consumer.wal == wal
    ensures node.consumer.decision.policies == policies && node.processor.rollup.enabled == enabled
    ensures node.Abs() == Member(R.Rebuilt(Wal.Replayed(wal.slots), plans), NO_MAIL)
  {
    hide Fresh, R.Rebuilt, Restored;
    var buffer := ReplayInto(wal, plans);
    var gossip := new Manager();
    var decision := new E.Engine(policies, gossip);
    var rollup := new Rollup.Processor(enabled);
    var processor := new P.Processor(buffer, gossip, rollup);
    processor.ledger := R.Rebuilt(Wal.Replayed(wal.slots), plans).ledger;
    var consumer := new MainConsumer(buffer, decision, wal);
    node := new Node(consumer, processor);
    RebuiltKeepsTheRest(Wal.Replayed(wal.slots), plans);
  }

  lemma {:induction false} RebuiltKeepsTheRest(log: seq<Wal.Record>, plans: seq<Plan>)
    requires |plans| == |log|
    ensures var q := R.Rebuilt(log, plans); q == S.START.(buf := q.buf, ledger := q.ledger)
  {
    hide S.Next, R.StepFor;
    if log != [] {
      var n := |log| - 1;
      RebuiltKeepsTheRest(log[..n], plans[..n]);
      StoresKeepTheRest(R.Rebuilt(log[..n], plans[..n]), log[n].signal, plans[n]);
    }
  }

  lemma StoresKeepTheRest(p: S.Proc, sig: Incoming, plan: Plan)
    ensures var q := S.Next(p, R.StepFor(sig, plan)); q == p.(buf := q.buf, ledger := q.ledger)
  {
  }

  // ---------------------------------------------------------------------------
  // The turns of a node are the moves of a cluster
  // ---------------------------------------------------------------------------

  /** The move that a node makes on a received signal. */
  function MoveFor(n: nat, sig: Incoming, plan: Plan, logged: bool): Move {
    match sig
    case TraceIn(batch) => ConsumeTraces(n, batch, plan.order, plan.now, plan.os, logged)
    case _ => if logged then Cluster.Internal(n, R.StepFor(sig, plan)) else DeliverNoise(n)
  }

  lemma ConsumeIsMove(config: Config, ms: seq<Member>, n: nat, sig: Incoming, plan: Plan, logged: bool)
    requires n < |ms| == |config| && !ms[n].proc.dead
    ensures Moved(config, ms, MoveFor(n, sig, plan, logged))[n] ==
            if logged then Consumed(ms[n], config[n], sig, plan) else ms[n]
  {
    hide E.Verdict, E.Announced, S.Next, Rows;
    ThroughOne(ms[n].proc, R.StepFor(sig, plan));
  }

  lemma ThroughOne(p: S.Proc, s: S.Step)
    ensures S.Through(p, [s]) == S.Next(p, s)
  {
    assert [s][..0] == [];
  }

  /** What the processor's methods make of a node on decisions, triggers, queued
      signals and the clock is what the corresponding moves make of it. */
  lemma TurnsAreMoves(config: Config, ms: seq<Member>, n: nat, enabled: bool, now: int, key: string)
    requires n < |ms| == |config| && !ms[n].proc.dead
    ensures var p, mail := ms[n].proc, ms[n].mail;
            && (mail.decisions != [] ==>
                  Moved(config, ms, TakeDecision(n))[n] ==
                  Member(S.Decide(p, mail.decisions[0]), mail.(decisions := mail.decisions[1..])))
            && (mail.triggers != [] ==>
                  Moved(config, ms, TakeTrigger(n))[n] ==
                  Member(S.Obey(p, mail.triggers[0]), mail.(triggers := mail.triggers[1..])))
            && Moved(config, ms, Cluster.Internal(n, S.DrainEvicted))[n] == Member(S.DrainOne(p), mail)
            && Moved(config, ms, Cluster.Internal(n, S.PerformRollup(enabled, now)))[n] ==
               Member(S.Rollup(p, enabled, now), mail)
            && Moved(config, ms, Cluster.Internal(n, S.EvictKey(key)))[n] ==
               Member(p.(buf := Live.Evict(p.buf, key)), mail)
  {
    hide S.Decide, S.DrainOne, S.Rollup, Live.Evict;
    var p, mail := ms[n].proc, ms[n].mail;
    if mail.decisions != [] {
      ThroughOne(p, S.ProcessDecision(mail.decisions[0]));
    }
    if mail.triggers != [] && S.Asked(mail.triggers[0]).Some? {
      ThroughOne(p, S.SetLevel(S.Asked(mail.triggers[0]).value));
    }
    ThroughOne(p, S.DrainEvicted);
    ThroughOne(p, S.PerformRollup(enabled, now));
    ThroughOne(p, S.EvictKey(key));
  }

  /** And so with what the gossip manager's methods make of its channels. */
  lemma MessagesAreMoves(config: Config, ms: seq<Member>, n: nat, from: nat, i: nat, event: TriggerEvent)
    requires n < |ms| == |config| && !ms[n].proc.dead
    ensures var p, mail := ms[n].proc, ms[n].mail;
            && Moved(config, ms, RaiseTrigger(n, event))[n] == Member(p, Broadcast(mail, Trigger(event)))
            && (from < |ms| && i < |ms[from].mail.queue| ==>
                  Moved(config, ms, Deliver(n, from, i))[n] == Member(p, Hear(mail, ms[from].mail.queue[i])))
  {
    hide Broadcast, Hear;
  }

  /** A move changes its own node and no other. */
  lemma OthersStay(config: Config, ms: seq<Member>, m: Move, n: nat)
    requires n < |ms| == |config| && m.node != n
    ensures Moved(config, ms, m)[n] == ms[n]
  {
  }

  /** Stores with fresh keys are legal steps. */
  lemma FreshIsLegal(p: S.Proc, sig: Incoming, plan: Plan)
    requires Fresh(p.buf, sig, plan)
    ensures S.Legal(p, R.StepFor(sig, plan))
  {
    hide Rows, IterationOrder, MetricKey, LogKey, HasPrefix, S.Unused;
    KeyPrefixes(plan.ts, plan.uuid);
  }
}
