/** Whether a batch of spans is worth keeping, and in which window of time. */
module Engine {
  import opened Int64
  import opened Keyed
  import opened Pdata
  import opened Identity
  import opened Traversal
  import Gossip

  datatype Policy = Policy(name: string, kind: string, latencyThresholdMs: int64,
                           attributeKey: string, attributeValue: string)

  /** A timestamp read as an instant: 64 bits, signed. */
  function AsTime(stamp: uint64): int64 {
    if stamp < TWO_63 then stamp else stamp - TWO_64
  }

  /** The difference of two instants saturates. */
  function Since(a: int, b: int): int64 {
    if a - b >= TWO_63 then TWO_63 - 1
    else if a - b < -TWO_63 then -TWO_63
    else a - b
  }

  function IsError(): Span -> bool {
    (s: Span) => s.isError
  }

  function IsSlow(thresholdMs: int64): Span -> bool {
    (s: Span) => Since(AsTime(s.end), AsTime(s.start)) > Wrap64(thresholdMs * 1_000_000)
  }

  function HasAttribute(key: string, value: string): Span -> bool {
    (s: Span) => Lookup(s.attrs, key).Some? && Lookup(s.attrs, key).value.Str() == value
  }

  /** A policy of any other kind asks for nothing. */
  function Wanted(p: Policy): Span -> bool {
    if p.kind == "error" then IsError()
    else if p.kind == "latency" then IsSlow(p.latencyThresholdMs)
    else if p.kind == "attribute" then HasAttribute(p.attributeKey, p.attributeValue)
    else (s: Span) => false
  }

  predicate Found(rows: seq<Row<Span>>, test: Span -> bool) {
    exists row <- rows :: test(row.item)
  }

  lemma FoundSnoc(rows: seq<Row<Span>>, row: Row<Span>, test: Span -> bool)
    ensures Found(rows + [row], test) <==> Found(rows, test) || test(row.item)
  {
    assert row in rows + [row];
  }

  // ---------------------------------------------------------------------------
  // The window scan
  // ---------------------------------------------------------------------------

  /** The first identifier that is not empty, as text. */
  function FirstID(rows: seq<Row<Span>>): string {
    if rows == [] then ""
    else
      var found, t := FirstID(rows[..|rows| - 1]), rows[|rows| - 1].item.traceId;
      if found == "" && !IsEmptyID(t) then Hex(t) else found
  }

  function Earliest(rows: seq<Row<Span>>): int {
    if rows == [] then ZERO_INSTANT
    else
      var e, s := Earliest(rows[..|rows| - 1]), AsTime(rows[|rows| - 1].item.start);
      if e == ZERO_INSTANT || s < e then s else e
  }

  function Latest(rows: seq<Row<Span>>): int {
    if rows == [] then ZERO_INSTANT
    else
      var l, e := Latest(rows[..|rows| - 1]), AsTime(rows[|rows| - 1].item.end);
      if l == ZERO_INSTANT || e > l then e else l
  }

  function FirstMatch(policies: seq<Policy>, rows: seq<Row<Span>>): Option<Policy> {
    if policies == [] then None
    else if Found(rows, Wanted(policies[0])) then Some(policies[0])
    else FirstMatch(policies[1..], rows)
  }

  function DecisionFor(rows: seq<Row<Span>>, reason: string, now: int): Option<Gossip.Decision> {
    if FirstID(rows) == "" then None
    else Some(Gossip.Decision(FirstID(rows), reason, now, "local", Earliest(rows), Latest(rows)))
  }

  /** The decision a batch leads to. */
  function Verdict(policies: seq<Policy>, batch: Traces, now: int): Option<Gossip.Decision> {
    var p := FirstMatch(policies, Rows(batch));
    if p.None? then None else DecisionFor(Rows(batch), p.value.name, now)
  }

  function Announced(m: Gossip.Mail, d: Option<Gossip.Decision>): Gossip.Mail {
    if d.None? then m else Gossip.Broadcast(m, Gossip.SamplingDecision(d.value))
  }

  class Engine {
    const policies: seq<Policy>
    const broadcaster: Gossip.Manager?

    constructor (policies: seq<Policy>, broadcaster: Gossip.Manager?)
      ensures this.policies == policies && this.broadcaster == broadcaster
    {
      this.policies, this.broadcaster := policies, broadcaster;
    }

    method EvaluateTrace(batch: Traces, now: int)
      requires broadcaster != null ==> broadcaster.Valid()
      modifies broadcaster
      ensures broadcaster != null ==>
                && broadcaster.Valid()
                && broadcaster.Abs() == Announced(old(broadcaster.Abs()), Verdict(policies, batch, now))
    {
      hide Found, Rows, FirstID, Earliest, Latest;
      for n := 0 to |policies|
        invariant FirstMatch(policies, Rows(batch)) == FirstMatch(policies[n..], Rows(batch))
        invariant broadcaster != null ==> broadcaster.Valid() && broadcaster.Abs() == old(broadcaster.Abs())
      {
        var policy, matched := policies[n], false;
        match policy.kind {
          case "error" => matched := CheckError(batch);
          case "latency" => matched := CheckLatency(batch, policy.latencyThresholdMs);
          case "attribute" => matched := CheckAttribute(batch, policy.attributeKey, policy.attributeValue);
          case _ => NothingWanted(Rows(batch), policy);
        }
        assert matched == Found(Rows(batch), Wanted(policy));
        if matched {
          TriggerDecision(batch, policy.name, now);
          return;
        }
        assert policies[n..][1..] == policies[n + 1..];
      }
    }

    static lemma NothingWanted(rows: seq<Row<Span>>, p: Policy)
      requires p.kind != "error" && p.kind != "latency" && p.kind != "attribute"
      ensures !Found(rows, Wanted(p))
    {
    }

    static method CheckError(batch: Traces) returns (r: bool)
      ensures r == Found(Rows(batch), IsError())
    {
      for i := 0 to |batch|
        invariant !Found(Rows(batch[..i]), IsError())
      {
        VisitResource(batch, i);
        for j := 0 to |batch[i].items|
          invariant !Found(VisitedScopes(batch, i, j), IsError())
        {
          VisitScope(batch, i, j);
          for k := 0 to |batch[i].items[j].items|
            invariant !Found(Visited(batch, i, j, k), IsError())
          {
            VisitItem(batch, i, j, k);
            VisitedInBatch(batch, i, j, k);
            var span := batch[i].items[j].items[k];
            FoundSnoc(Visited(batch, i, j, k), Row(batch[i].head, batch[i].items[j].head, span), IsError());
            if span.isError {
              return true;
            }
          }
        }
      }
      assert batch[..|batch|] == batch;
      return false;
    }

    static method CheckLatency(batch: Traces, threshold: int64) returns (r: bool)
      ensures r == Found(Rows(batch), IsSlow(threshold))
    {
      hide Wrap64;
      var thresholdNs := Wrap64(threshold * 1_000_000);
      for i := 0 to |batch|
        invariant !Found(Rows(batch[..i]), IsSlow(threshold))
      {
        VisitResource(batch, i);
        for j := 0 to |batch[i].items|
          invariant !Found(VisitedScopes(batch, i, j), IsSlow(threshold))
        {
          VisitScope(batch, i, j);
          for k := 0 to |batch[i].items[j].items|
            invariant !Found(Visited(batch, i, j, k), IsSlow(threshold))
          {
            VisitItem(batch, i, j, k);
            VisitedInBatch(batch, i, j, k);
            var span := batch[i].items[j].items[k];
            FoundSnoc(Visited(batch, i, j, k), Row(batch[i].head, batch[i].items[j].head, span), IsSlow(threshold));
            var duration := Since(AsTime(span.end), AsTime(span.start));
            if duration > thresholdNs {
              return true;
            }
          }
        }
      }
      assert batch[..|batch|] == batch;
      return false;
    }

    static method CheckAttribute(batch: Traces, key: string, value: string) returns (r: bool)
      ensures r == Found(Rows(batch), HasAttribute(key, value))
    {
      for i := 0 to |batch|
        invariant !Found(Rows(batch[..i]), HasAttribute(key, value))
      {
        VisitResource(batch, i);
        for j := 0 to |batch[i].items|
          invariant !Found(VisitedScopes(batch, i, j), HasAttribute(key, value))
        {
          VisitScope(batch, i, j);
          for k := 0 to |batch[i].items[j].items|
            invariant !Found(Visited(batch, i, j, k), HasAttribute(key, value))
          {
            VisitItem(batch, i, j, k);
            VisitedInBatch(batch, i, j, k);
            var span := batch[i].items[j].items[k];
            FoundSnoc(Visited(batch, i, j, k), Row(batch[i].head, batch[i].items[j].head, span),
              HasAttribute(key, value));
            var v := Lookup(span.attrs, key);
            if v.Some? {
              if v.value.Str() == value {
                return true;
              }
            }
          }
        }
      }
      assert batch[..|batch|] == batch;
      return false;
    }

    /** The body of the innermost loop of the scan. */
    static method ScanSpan(ghost seen: seq<Row<Span>>, row: Row<Span>, traceID: string, start: int, end: int)
      returns (traceID': string, start': int, end': int)
      requires traceID == FirstID(seen) && start == Earliest(seen) && end == Latest(seen)
      ensures traceID' == FirstID(seen + [row]) && start' == Earliest(seen + [row]) && end' == Latest(seen + [row])
    {
      hide Hex, AsTime;
      traceID', start', end' := traceID, start, end;
      var span := row.item;
      assert (seen + [row])[..|seen|] == seen;
      if traceID == "" && !IsEmptyID(span.traceId) {
        traceID' := Hex(span.traceId);
      }
      var s := AsTime(span.start);
      if start == ZERO_INSTANT || s < start {
        start' := s;
      }
      var e := AsTime(span.end);
      if end == ZERO_INSTANT || e > end {
        end' := e;
      }
    }

    /** Scans all spans for the window and the first identifier. */
    static method ScanWindow(batch: Traces) returns (traceID: string, start: int, end: int)
      ensures traceID == FirstID(Rows(batch)) && start == Earliest(Rows(batch)) && end == Latest(Rows(batch))
    {
      traceID, start, end := "", ZERO_INSTANT, ZERO_INSTANT;
      for i := 0 to |batch|
        invariant var seen := Rows(batch[..i]);
                  traceID == FirstID(seen) && start == Earliest(seen) && end == Latest(seen)
      {
        VisitResource(batch, i);
        for j := 0 to |batch[i].items|
          invariant var seen := VisitedScopes(batch, i, j);
                    traceID == FirstID(seen) && start == Earliest(seen) && end == Latest(seen)
        {
          VisitScope(batch, i, j);
          for k := 0 to |batch[i].items[j].items|
            invariant var seen := Visited(batch, i, j, k);
                      traceID == FirstID(seen) && start == Earliest(seen) && end == Latest(seen)
          {
            VisitItem(batch, i, j, k);
            var row := Row(batch[i].head, batch[i].items[j].head, batch[i].items[j].items[k]);
            traceID, start, end := ScanSpan(Visited(batch, i, j, k), row, traceID, start, end);
          }
        }
      }
      assert batch[..|batch|] == batch;
    }

    method TriggerDecision(batch: Traces, reason: string, now: int)
      requires broadcaster != null ==> broadcaster.Valid()
      modifies broadcaster
      ensures broadcaster != null ==>
                && broadcaster.Valid()
                && broadcaster.Abs() == Announced(old(broadcaster.Abs()), DecisionFor(Rows(batch), reason, now))
    {
      var traceID, start, end := ScanWindow(batch);
      if traceID == "" {
        return;
      }
      var decision := Gossip.Decision(traceID, reason, now, "local", start, end);
      if broadcaster != null {
        broadcaster.BroadcastDecision(decision);
      }
    }
  }

  // ---------------------------------------------------------------------------
  // What a verdict means
  // ---------------------------------------------------------------------------

  /** The first row that names a trace. */
  predicate NamesFirst(rows: seq<Row<Span>>, i: int) {
    0 <= i < |rows| && !IsEmptyID(rows[i].item.traceId) && forall j | 0 <= j < i :: IsEmptyID(rows[j].item.traceId)
  }

  lemma {:induction false} FirstIDIsFirst(rows: seq<Row<Span>>)
    ensures FirstID(rows) == "" <==> forall row <- rows :: IsEmptyID(row.item.traceId)
    ensures forall i | NamesFirst(rows, i) :: FirstID(rows) == Hex(rows[i].item.traceId)
    ensures FirstID(rows) != "" ==> exists i :: NamesFirst(rows, i)
  {
    hide Hex, IsEmptyID;
    if rows != [] {
      var init, last := rows[..|rows| - 1], rows[|rows| - 1];
      FirstIDIsFirst(init);
      IDRoundTrip(last.item.traceId);
      assert rows == init + [last];
      if FirstID(init) == "" {
        assert forall j | 0 <= j < |init| :: rows[j] in init;
        if !IsEmptyID(last.item.traceId) {
          assert NamesFirst(rows, |rows| - 1);
        }
      } else {
        var i :| NamesFirst(init, i);
        assert NamesFirst(rows, i);
        assert forall k | NamesFirst(rows, k) :: k == i;
      }
    }
  }

  lemma {:induction false} EarliestIsLeast(rows: seq<Row<Span>>)
    requires rows != []
    ensures forall row <- rows :: Earliest(rows) <= AsTime(row.item.start)
    ensures exists row <- rows :: Earliest(rows) == AsTime(row.item.start)
  {
    var init, last := rows[..|rows| - 1], rows[|rows| - 1];
    assert rows == init + [last] && last in rows;
    if init != [] {
      EarliestIsLeast(init);
      var row :| row in init && Earliest(init) == AsTime(row.item.start);
      assert row in rows;
    }
  }

  lemma {:induction false} LatestIsGreatest(rows: seq<Row<Span>>)
    requires rows != []
    ensures forall row <- rows :: AsTime(row.item.end) <= Latest(rows)
    ensures exists row <- rows :: Latest(rows) == AsTime(row.item.end)
  {
    var init, last := rows[..|rows| - 1], rows[|rows| - 1];
    assert rows == init + [last] && last in rows;
    if init != [] {
      LatestIsGreatest(init);
      var row :| row in init && Latest(init) == AsTime(row.item.end);
      assert row in rows;
    }
  }

  /** The first policy in order that some span of the batch meets. */
  predicate DecidesAt(policies: seq<Policy>, rows: seq<Row<Span>>, i: int) {
    && 0 <= i < |policies| && Found(rows, Wanted(policies[i]))
    && forall j | 0 <= j < i :: !Found(rows, Wanted(policies[j]))
  }

  lemma {:induction false} FirstMatchIsFirst(policies: seq<Policy>, rows: seq<Row<Span>>)
    ensures FirstMatch(policies, rows).None? <==> forall p <- policies :: !Found(rows, Wanted(p))
    ensures forall i | DecidesAt(policies, rows, i) :: FirstMatch(policies, rows) == Some(policies[i])
    ensures FirstMatch(policies, rows).Some? ==> exists i :: DecidesAt(policies, rows, i)
  {
    hide Found, Wanted;
    if policies != [] {
      assert policies == [policies[0]] + policies[1..];
      if Found(rows, Wanted(policies[0])) {
        assert DecidesAt(policies, rows, 0);
      } else {
        FirstMatchIsFirst(policies[1..], rows);
        forall i | DecidesAt(policies, rows, i) ensures i > 0 && DecidesAt(policies[1..], rows, i - 1) {
          forall j | 0 <= j < i - 1 ensures !Found(rows, Wanted(policies[1..][j])) {
            assert policies[1..][j] == policies[j + 1];
          }
        }
        if i :| DecidesAt(policies[1..], rows, i) {
          forall j | 0 <= j < i + 1 ensures !Found(rows, Wanted(policies[j])) {
            assert j == 0 || policies[j] == policies[1..][j - 1];
          }
          assert DecidesAt(policies, rows, i + 1);
        }
      }
    }
  }

  /** A batch leads to a decision exactly when some policy is met and some span
      names a trace. The decision names the first such trace and the first such
      policy, and its window is exactly that of the batch's spans. */
  lemma VerdictMeaning(policies: seq<Policy>, batch: Traces, now: int)
    ensures var rows := Rows(batch);
            Verdict(policies, batch, now).Some? <==>
              (exists p <- policies :: Found(rows, Wanted(p))) && (exists row <- rows :: !IsEmptyID(row.item.traceId))
    ensures Verdict(policies, batch, now).Some? ==>
              var d := Verdict(policies, batch, now).value;
              Justified(policies, Rows(batch), d) && d.decidedAt == now && d.decidedBy == "local"
  {
    hide Found, Wanted, IsEmptyID, Hex, Earliest, Latest, FirstID, FirstMatch, Rows, AsTime;
    var rows := Rows(batch);
    FirstIDIsFirst(rows);
    FirstMatchIsFirst(policies, rows);
    if Verdict(policies, batch, now).Some? {
      var i :| NamesFirst(rows, i);
      EarliestIsLeast(rows);
      LatestIsGreatest(rows);
    }
  }

  ghost predicate Justified(policies: seq<Policy>, rows: seq<Row<Span>>, d: Gossip.Decision) {
    && (exists i :: NamesFirst(rows, i) && d.traceId == Hex(rows[i].item.traceId))
    && (exists i :: DecidesAt(policies, rows, i) && d.reason == policies[i].name)
    && (forall row <- rows :: d.eventStart <= AsTime(row.item.start))
    && (exists row <- rows :: d.eventStart == AsTime(row.item.start))
    && (forall row <- rows :: AsTime(row.item.end) <= d.eventEnd)
    && (exists row <- rows :: d.eventEnd == AsTime(row.item.end))
  }

  /** What each kind of policy asks of a span. An attribute is met by a string of that
      text, and by a value that is no string when the text is empty. */
  lemma WantedMeaning(p: Policy, s: Span)
    ensures p.kind == "error" ==> (Wanted(p)(s) <==> s.isError)
    ensures p.kind == "attribute" ==>
              (Wanted(p)(s) <==>
                 var found := Lookup(s.attrs, p.attributeKey);
                 found == Some(StrValue(p.attributeValue))
                 || (found.Some? && !found.value.StrValue? && p.attributeValue == ""))
    ensures p.kind == "latency" && FitsInNanoseconds(p.latencyThresholdMs) ==>
              (Wanted(p)(s) <==> TakesLonger(s, p.latencyThresholdMs))
    ensures p.kind !in {"error", "latency", "attribute"} ==> !Wanted(p)(s)
  {
    hide Wrap64, AsTime;
    LatencyIsExactWhenItFits(p.latencyThresholdMs);
  }

  /** A timestamp is read as the signed number of the same 64 bits. */
  lemma InstantsAreTheSameBits(stamp: uint64)
    ensures AsTime(stamp) == Wrap64(stamp)
  {
  }

  // ---------------------------------------------------------------------------
  // The latency comparison
  // ---------------------------------------------------------------------------

  /** The comparison one would write in unbounded arithmetic. */
  predicate TakesLonger(s: Span, thresholdMs: int) {
    AsTime(s.end) - AsTime(s.start) > thresholdMs * 1_000_000
  }

  predicate FitsInNanoseconds(thresholdMs: int) {
    -TWO_63 <= thresholdMs * 1_000_000 < TWO_63
  }

  /** Wrapping keeps parity, so a scaled threshold is never the largest integer. */
  lemma {:induction false} WrapKeepsParity(n: int)
    ensures exists h :: Wrap64(2 * n) == 2 * h
    decreases if 2 * n < -TWO_63 then -2 * n else if 2 * n >= TWO_63 then 2 * n else 0
  {
    if 2 * n < -TWO_63 {
      assert 2 * n + TWO_64 == 2 * (n + TWO_63);
      WrapKeepsParity(n + TWO_63);
    } else if 2 * n >= TWO_63 {
      assert 2 * n - TWO_64 == 2 * (n - TWO_63);
      WrapKeepsParity(n - TWO_63);
    } else {
      assert Wrap64(2 * n) == 2 * n;
    }
  }

  function Stamp(t: int64): uint64 {
    if t >= 0 then t else t + TWO_64
  }

  /** A span that takes one nanosecond more than `n`. */
  function JustOver(n: int64, s: Span): Span {
    s.(start := Stamp(-1), end := Stamp(n))
  }

  /** Saturation never shows: the latency policy compares as unbounded arithmetic
      would, for all spans, exactly when the threshold in nanoseconds fits. */
  lemma LatencyIsExactWhenItFits(thresholdMs: int64)
    ensures (forall s :: IsSlow(thresholdMs)(s) <==> TakesLonger(s, thresholdMs)) <==> FitsInNanoseconds(thresholdMs)
  {
    hide Wrap64;
    var n := thresholdMs * 1_000_000;
    var w := Wrap64(n);
    WrapKeepsParity(thresholdMs * 500_000);
    assert 2 * (thresholdMs * 500_000) == n;
    var h :| w == 2 * h;
    if FitsInNanoseconds(thresholdMs) {
      WrapOfSmall(n);
    } else {
      var any: Span :| true;
      var s := JustOver(w, any);
      assert AsTime(s.end) - AsTime(s.start) == w + 1;
      WrapOfLarge(n);
      if n > w {
        assert IsSlow(thresholdMs)(s) && !TakesLonger(s, thresholdMs);
      } else {
        var r := s.(start := Stamp(0));
        assert !IsSlow(thresholdMs)(r) && TakesLonger(r, thresholdMs);
      }
    }
  }

  lemma WrapOfSmall(n: int)
    requires -TWO_63 <= n < TWO_63
    ensures Wrap64(n) == n
  {
  }

  lemma WrapOfLarge(n: int)
    requires n < -TWO_63 || n >= TWO_63
    ensures Wrap64(n) != n
  {
  }
}
