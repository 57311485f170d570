/** The load monitor, the triggers it sends, and the rollup level they set. */
module LoadControl {
  import opened Keyed
  import opened Filter
  import opened Gossip
  import S = Sampler

  function HighLoad(count: nat, threshold: real, now: int): TriggerEvent {
    TriggerEvent("high_load", count as real, threshold, now)
  }

  class LoadMonitor {
    const gossip: Manager
    const threshold: real
    var highLoadActive: bool

    constructor (gossip: Manager, threshold: real)
      ensures this.gossip == gossip && this.threshold == threshold && !highLoadActive
    {
      this.gossip, this.threshold, highLoadActive := gossip, threshold, false;
    }

    /** One tick: only a crossing of the threshold sends a trigger. */
    method Tick(count: nat, now: int)
      requires gossip.Valid()
      modifies this, gossip
      ensures gossip.Valid() && highLoadActive == (count as real > threshold)
      ensures gossip.Abs() == if highLoadActive == old(highLoadActive) then old(gossip.Abs())
                              else Broadcast(old(gossip.Abs()), Trigger(HighLoad(count, threshold, now)))
      ensures var before := Node(old(highLoadActive), old(gossip.Abs()), Fine, [], 0);
              var n := After(before, threshold, Tock.Tick(count, now));
              highLoadActive == n.active && gossip.Abs() == n.mail
    {
      if count as real > threshold && !highLoadActive {
        gossip.BroadcastTrigger(TriggerEvent("high_load", count as real, threshold, now));
        highLoadActive := true;
      } else if count as real <= threshold && highLoadActive {
        gossip.BroadcastTrigger(TriggerEvent("high_load", count as real, threshold, now));
        highLoadActive := false;
      }
    }
  }

  /** A node on its own. `sent` is all that was ever broadcast, and `missed` how
      many of those since the last that got into the channel did not. */
  datatype Node = Node(active: bool, mail: Mail, level: Level, sent: seq<TriggerEvent>, missed: nat)

  const IDLE := Node(false, NO_MAIL, Fine, [], 0)

  datatype Tock = Tick(count: nat, now: int) | TakeTrigger

  function Crossed(n: Node, event: TriggerEvent): Node {
    var mail := Broadcast(n.mail, Trigger(event));
    Node(!n.active, mail, n.level, n.sent + [event], if mail.triggers == n.mail.triggers then n.missed + 1 else 0)
  }

  function After(n: Node, threshold: real, s: Tock): Node {
    match s
    case Tick(count, now) =>
      if (count as real > threshold) == n.active then n else Crossed(n, HighLoad(count, threshold, now))
    case TakeTrigger =>
      if n.mail.triggers == [] then n
      else
        var l := S.Asked(n.mail.triggers[0]);
        n.(mail := n.mail.(triggers := n.mail.triggers[1..]), level := if l.Some? then l.value else n.level)
  }

  function Run(threshold: real, ss: seq<Tock>): Node {
    if ss == [] then IDLE else After(Run(threshold, ss[..|ss| - 1]), threshold, ss[|ss| - 1])
  }

  /** The `i`th trigger of a node that alternates from a high one. */
  predicate Alternates(sent: seq<TriggerEvent>) {
    forall i | 0 <= i < |sent| :: S.Asked(sent[i]) == Some(if i % 2 == 0 then Coarse else Fine)
  }

  /** The level that will be in force once the channel is drained. */
  function Coming(n: Node): Level {
    if n.mail.triggers == [] then n.level
    else
      var l := S.Asked(n.mail.triggers[|n.mail.triggers| - 1]);
      if l.Some? then l.value else n.level
  }

  ghost predicate InStep(n: Node) {
    && Alternates(n.sent)
    && n.active == (|n.sent| % 2 == 1)
    && (forall t <- n.mail.triggers :: S.Asked(t).Some?)
    && ((Coming(n) == Coarse) == n.active <==> n.missed % 2 == 0)
    && Coming(n) in {Coarse, Fine}
    && n.level in {Coarse, Fine}
  }

  lemma CrossingKeepsStep(n: Node, count: nat, threshold: real, now: int)
    requires InStep(n) && (count as real > threshold) != n.active
    ensures InStep(Crossed(n, HighLoad(count, threshold, now)))
  {
    var event := HighLoad(count, threshold, now);
    var r := Crossed(n, event);
    assert |r.sent| == |n.sent| + 1;
    if |n.mail.triggers| < CAPACITY {
      assert r.mail.triggers == n.mail.triggers + [event];
      assert |r.mail.triggers| != |n.mail.triggers|;
    }
  }

  lemma TakingKeepsStep(n: Node, threshold: real)
    requires InStep(n)
    ensures InStep(After(n, threshold, TakeTrigger))
  {
    var ts := n.mail.triggers;
    if ts != [] {
      assert ts[0] in ts && ts[|ts| - 1] in ts;
      assert |ts| > 1 ==> ts[1..][|ts| - 2] == ts[|ts| - 1];
      assert forall t <- ts[1..] :: t in ts;
    }
  }

  lemma {:induction false} AlwaysInStep(threshold: real, ss: seq<Tock>)
    ensures InStep(Run(threshold, ss))
  {
    hide InStep, After;
    if ss == [] {
      IdleInStep();
    } else {
      AlwaysInStep(threshold, ss[..|ss| - 1]);
      StepKeepsStep(Run(threshold, ss[..|ss| - 1]), threshold, ss[|ss| - 1]);
    }
  }

  lemma IdleInStep()
    ensures InStep(IDLE)
  {
  }

  lemma StepKeepsStep(n: Node, threshold: real, s: Tock)
    requires InStep(n)
    ensures InStep(After(n, threshold, s))
  {
    hide InStep, Crossed;
    match s
    case Tick(count, now) =>
      if (count as real > threshold) != n.active {
        CrossingKeepsStep(n, count, threshold, now);
      }
    case TakeTrigger => TakingKeepsStep(n, threshold);
  }

  /** The triggers sent alternate from a high one. Whenever the channel is drained,
      the level is coarse exactly when the load is high, if and only if the number
      of triggers lost to a full channel since the last that got in is even. */
  lemma LevelFollowsLoad(threshold: real, ss: seq<Tock>)
    ensures var n := Run(threshold, ss);
            && Alternates(n.sent)
            && (n.mail.triggers == [] ==> ((n.level == Coarse <==> n.active) <==> n.missed % 2 == 0))
  {
    hide Run;
    AlwaysInStep(threshold, ss);
  }

  /** Without a full channel nothing is ever missed. */
  lemma {:induction false} NothingMissed(threshold: real, ss: seq<Tock>)
    requires forall i | 0 <= i < |ss| :: |Run(threshold, ss[..i]).mail.triggers| < CAPACITY
    ensures Run(threshold, ss).missed == 0
  {
    hide InStep;
    if ss != [] {
      var init := ss[..|ss| - 1];
      forall i | 0 <= i < |init| ensures init[..i] == ss[..i] {
      }
      NothingMissed(threshold, init);
      var n := Run(threshold, init);
      OneIn(n, threshold, ss[|ss| - 1]);
    }
  }

  lemma OneIn(n: Node, threshold: real, s: Tock)
    requires |n.mail.triggers| < CAPACITY && n.missed == 0
    ensures After(n, threshold, s).missed == 0
  {
    match s
    case Tick(count, now) =>
      assert |n.mail.triggers + [HighLoad(count, threshold, now)]| != |n.mail.triggers|;
    case TakeTrigger =>
  }

  lemma LevelIsCoarseExactlyUnderLoad(threshold: real, ss: seq<Tock>)
    requires forall i | 0 <= i < |ss| :: |Run(threshold, ss[..i]).mail.triggers| < CAPACITY
    ensures var n := Run(threshold, ss);
            n.mail.triggers == [] ==> (n.level == Coarse <==> n.active)
  {
    hide Run;
    NothingMissed(threshold, ss);
    LevelFollowsLoad(threshold, ss);
  }
}
