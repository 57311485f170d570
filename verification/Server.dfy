/** What happens to each received signal. */
module Server {
  import opened Keyed
  import opened Pdata
  import opened Traversal
  import opened Live
  import opened Buffer
  import E = Engine
  import S = Sampler
  import Recovery
  import Wal

  class MainConsumer {
    const buffer: InMemoryBuffer
    const decision: E.Engine
    const wal: Wal.Log?

    constructor (buffer: InMemoryBuffer, decision: E.Engine, wal: Wal.Log?)
      ensures this.buffer == buffer && this.decision == decision && this.wal == wal
    {
      this.buffer, this.decision, this.wal := buffer, decision, wal;
    }

    ghost predicate Ready()
      reads this, buffer, wal, decision, decision.broadcaster
    {
      && buffer.Valid()
      && (wal != null ==> wal.Valid())
      && (decision.broadcaster != null ==> decision.broadcaster.Valid())
    }

    /** Log first, then buffer, then decide. When the log refuses, nothing else
        happens. */
    method Consume(sig: Incoming, receivedAt: int, plan: Plan, logFails: bool) returns (ok: bool)
      requires Ready() && Fits(buffer.cache, sig, plan)
      modifies buffer, wal, decision.broadcaster
      ensures Ready() && ok == (wal == null || !logFails)
      ensures !ok ==> buffer.Abs() == old(buffer.Abs())
      ensures ok ==> buffer.Abs() == Stored(old(buffer.Abs()), sig, plan)
      ensures wal != null ==>
                wal.slots == if ok then old(wal.slots) + [Wal.Written(receivedAt, Some(sig))] else old(wal.slots)
      ensures decision.broadcaster != null ==>
                decision.broadcaster.Abs() ==
                  if ok && sig.TraceIn? then
                    E.Announced(old(decision.broadcaster.Abs()), E.Verdict(decision.policies, sig.traces, plan.now))
                  else old(decision.broadcaster.Abs())
    {
      hide Stored, Fits, E.Verdict;
      if wal != null {
        var written := wal.Write(sig, receivedAt, logFails);
        if !written {
          return false;
        }
      }
      buffer.Store(sig, plan);
      if sig.TraceIn? {
        decision.EvaluateTrace(sig.traces, plan.now);
      }
      return true;
    }
  }

  // ---------------------------------------------------------------------------
  // Starting up
  // ---------------------------------------------------------------------------

  /** The generated key is not in use, and the batch's traces are walked in some
      order, with one write each. */
  ghost predicate Fresh(p: Plain, sig: Incoming, plan: Plan) {
    && |plan.os| == |plan.order|
    && match sig
       case TraceIn(batch) => IterationOrder(SpanID(), Rows(batch), plan.order)
       case MetricIn(_) => S.Unused(p, MetricAt(plan).key)
       case LogIn(batch) => IterationOrder(LogID(), Rows(batch), plan.order) && S.Unused(p, LogAt(plan).key)
  }

  lemma CachedIsListed(buffer: InMemoryBuffer, k: string)
    requires buffer.Valid() && k in buffer.cache
    ensures HasPrefix(k, "m_") ==> exists t <- buffer.Abs().metrics :: t.at.key == k
    ensures HasPrefix(k, "l_") ==> exists t <- buffer.Abs().logs :: t.at.key == k
  {
    hide HasPrefix;
    buffer.LanesApart();
    if HasPrefix(k, "m_") {
      assert Timed(TimeKey(buffer.metricKeyMap[k], k), buffer.cache[k].metrics) in buffer.Abs().metrics;
    }
    if HasPrefix(k, "l_") {
      assert Timed(TimeKey(buffer.logKeyMap[k], k), buffer.cache[k].logs) in buffer.Abs().logs;
    }
  }

  lemma FreshFits(buffer: InMemoryBuffer, sig: Incoming, plan: Plan)
    requires buffer.Valid() && Fresh(buffer.Abs(), sig, plan)
    ensures |plan.os| == |plan.order| && Fits(buffer.cache, sig, plan)
  {
    hide Rows, IterationOrder, MetricKey, LogKey, HasPrefix;
    KeyPrefixes(plan.ts, plan.uuid);
    if MetricAt(plan).key in buffer.cache {
      CachedIsListed(buffer, MetricAt(plan).key);
    }
    if LogAt(plan).key in buffer.cache {
      CachedIsListed(buffer, LogAt(plan).key);
    }
  }

  /** What the buffer holds after a prefix of the log has been stored again. */
  ghost function Restored(log: seq<Wal.Record>, plans: seq<Plan>, n: nat): Plain
    requires |plans| == |log| && n <= |log|
  {
    Recovery.Rebuilt(log[..n], plans[..n]).buf
  }

  /** Hands every readable record to an empty buffer. */
  method ReplayInto(wal: Wal.Log, plans: seq<Plan>) returns (buffer: InMemoryBuffer)
    requires wal.Valid() && |plans| == |Wal.Replayed(wal.slots)|
    requires var log := Wal.Replayed(wal.slots);
             forall n | 0 <= n < |log| :: Fresh(Restored(log, plans, n), log[n].signal, plans[n])
    ensures buffer.Valid() && fresh(buffer)
    ensures buffer.Abs() == Recovery.Rebuilt(Wal.Replayed(wal.slots), plans).buf
  {
    hide Stored, Fits, Fresh, Recovery.Rebuilt;
    buffer := new InMemoryBuffer();
    var log := wal.Replay();
    NothingRestored(log, plans);
    for n := 0 to |log|
      invariant buffer.Valid() && fresh(buffer) && buffer.Abs() == Restored(log, plans, n)
    {
      FreshFits(buffer, log[n].signal, plans[n]);
      OneRestored(log, plans, n);
      buffer.Store(log[n].signal, plans[n]);
    }
    assert log[..|log|] == log && plans[..|log|] == plans;
  }

  lemma NothingRestored(log: seq<Wal.Record>, plans: seq<Plan>)
    requires |plans| == |log|
    ensures Restored(log, plans, 0) == EMPTY
  {
  }

  lemma OneRestored(log: seq<Wal.Record>, plans: seq<Plan>, n: nat)
    requires |plans| == |log| && n < |log| && |plans[n].os| == |plans[n].order|
    ensures Restored(log, plans, n + 1) == Stored(Restored(log, plans, n), log[n].signal, plans[n])
  {
    hide Stored;
    assert log[..n + 1][..n] == log[..n] && plans[..n + 1][..n] == plans[..n];
    Recovery.RebuiltAlive(log[..n], plans[..n]);
    Recovery.StepForStores(Recovery.Rebuilt(log[..n], plans[..n]), log[n].signal, plans[n]);
  }
}
