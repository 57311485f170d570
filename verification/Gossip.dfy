/** Telling the other nodes: a queue of broadcasts and two bounded channels of
    what has been heard. */
module Gossip {
  datatype Decision = Decision(traceId: string, reason: string, decidedAt: int, decidedBy: string,
                               eventStart: int, eventEnd: int)

  datatype TriggerEvent = TriggerEvent(name: string, value: real, threshold: real, startedAt: int)

  datatype Payload =
    | SamplingDecision(decision: Decision)
    | Trigger(event: TriggerEvent)
    | UnknownPayload

  /** A received message; what was marshalled is taken to unmarshal to itself. */
  datatype Bytes = NoBytes | Unreadable | Encoded(payload: Payload)

  const CAPACITY := 100

  /** A send that gives up when the channel is full. */
  function Offer<T>(chan: seq<T>, x: T): seq<T> {
    if |chan| < CAPACITY then chan + [x] else chan
  }

  datatype Mail = Mail(decisions: seq<Decision>, triggers: seq<TriggerEvent>, queue: seq<Payload>)

  const NO_MAIL := Mail([], [], [])

  function Hear(m: Mail, p: Payload): Mail {
    match p
    case SamplingDecision(d) => m.(decisions := Offer(m.decisions, d))
    case Trigger(t) => m.(triggers := Offer(m.triggers, t))
    case UnknownPayload => m
  }

  /** To the peers, and to this node as if it were one of them. */
  function Broadcast(m: Mail, p: Payload): Mail {
    Hear(m.(queue := m.queue + [p]), p)
  }

  class Manager {
    var broadcasts: seq<Bytes>
    var decisionChan: seq<Decision>
    var triggerChan: seq<TriggerEvent>

    ghost predicate Valid()
      reads this
    {
      && |decisionChan| <= CAPACITY && |triggerChan| <= CAPACITY
      && forall b <- broadcasts :: b.Encoded?
    }

    function Payloads(bs: seq<Bytes>): (r: seq<Payload>)
      requires forall b <- bs :: b.Encoded?
      ensures |r| == |bs| && forall i | 0 <= i < |bs| :: r[i] == bs[i].payload
    {
      seq(|bs|, i requires 0 <= i < |bs| => bs[i].payload)
    }

    ghost function Abs(): Mail
      requires Valid()
      reads this
    {
      Mail(decisionChan, triggerChan, Payloads(broadcasts))
    }

    constructor ()
      ensures Valid() && Abs() == NO_MAIL
    {
      broadcasts, decisionChan, triggerChan := [], [], [];
    }

    method BroadcastDecision(decision: Decision)
      requires Valid()
      modifies this
      ensures Valid() && Abs() == Broadcast(old(Abs()), SamplingDecision(decision))
      ensures broadcasts == old(broadcasts) + [Encoded(SamplingDecision(decision))] && triggerChan == old(triggerChan)
      ensures |old(decisionChan)| < 100 ==> decisionChan == old(decisionChan) + [decision]
      ensures |old(decisionChan)| == 100 ==> decisionChan == old(decisionChan)
    {
      broadcasts := broadcasts + [Encoded(SamplingDecision(decision))];
      if |decisionChan| < CAPACITY {
        decisionChan := decisionChan + [decision];
      }
    }

    method BroadcastTrigger(trigger: TriggerEvent)
      requires Valid()
      modifies this
      ensures Valid() && Abs() == Broadcast(old(Abs()), Trigger(trigger))
      ensures broadcasts == old(broadcasts) + [Encoded(Trigger(trigger))] && decisionChan == old(decisionChan)
      ensures |old(triggerChan)| < 100 ==> triggerChan == old(triggerChan) + [trigger]
      ensures |old(triggerChan)| == 100 ==> triggerChan == old(triggerChan)
    {
      broadcasts := broadcasts + [Encoded(Trigger(trigger))];
      if |triggerChan| < CAPACITY {
        triggerChan := triggerChan + [trigger];
      }
    }

    /** A message arrives. Whatever cannot be read is ignored. */
    method NotifyMsg(b: Bytes)
      requires Valid()
      modifies this
      ensures Valid() && Abs() == if b.Encoded? then Hear(old(Abs()), b.payload) else old(Abs())
      ensures broadcasts == old(broadcasts)
      ensures b.Encoded? && b.payload.SamplingDecision? && |old(decisionChan)| < 100 ==>
                decisionChan == old(decisionChan) + [b.payload.decision] && triggerChan == old(triggerChan)
      ensures b.Encoded? && b.payload.Trigger? && |old(triggerChan)| < 100 ==>
                triggerChan == old(triggerChan) + [b.payload.event] && decisionChan == old(decisionChan)
      ensures !b.Encoded? || b.payload.UnknownPayload?
              || (b.payload.SamplingDecision? && |old(decisionChan)| == 100)
              || (b.payload.Trigger? && |old(triggerChan)| == 100) ==>
                decisionChan == old(decisionChan) && triggerChan == old(triggerChan)
    {
      if !b.Encoded? {
        return;
      }
      match b.payload {
        case SamplingDecision(d) =>
          if |decisionChan| < CAPACITY {
            decisionChan := decisionChan + [d];
          }
        case Trigger(t) =>
          if |triggerChan| < CAPACITY {
            triggerChan := triggerChan + [t];
          }
        case UnknownPayload =>
      }
    }

    /** The receiver of a channel takes its oldest message. */
    method NextDecision() returns (d: Decision)
      requires Valid() && decisionChan != []
      modifies this
      ensures Valid() && Abs() == old(Abs()).(decisions := old(Abs()).decisions[1..]) && d == old(decisionChan)[0]
    {
      d := decisionChan[0];
      decisionChan := decisionChan[1..];
    }

    method NextTrigger() returns (t: TriggerEvent)
      requires Valid() && triggerChan != []
      modifies this
      ensures Valid() && Abs() == old(Abs()).(triggers := old(Abs()).triggers[1..]) && t == old(triggerChan)[0]
    {
      t := triggerChan[0];
      triggerChan := triggerChan[1..];
    }
  }
}
