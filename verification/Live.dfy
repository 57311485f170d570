/** The buffer as plain data: sorted lists of live metrics and logs, a map of
    traces, and the channel of evicted signals. */
module Live {
  import opened Int64
  import opened Keyed
  import opened Pdata

  // ---------------------------------------------------------------------------
  // Keeping part of a list
  // ---------------------------------------------------------------------------

  function Keep<T>(p: T -> bool, s: seq<T>): seq<T> {
    if s == [] then []
    else if p(s[0]) then [s[0]] + Keep(p, s[1..])
    else Keep(p, s[1..])
  }

  function Opposite<T>(p: T -> bool): T -> bool {
    (x: T) => !p(x)
  }

  lemma {:induction false} KeepMembers<T(!new)>(p: T -> bool, s: seq<T>)
    ensures forall x {:trigger x in Keep(p, s)} {:trigger x in s} :: x in Keep(p, s) <==> x in s && p(x)
  {
    if s != [] {
      KeepMembers(p, s[1..]);
      assert s == [s[0]] + s[1..];
    }
  }

  lemma {:induction false} KeepConcat<T>(p: T -> bool, s: seq<T>, t: seq<T>)
    ensures Keep(p, s + t) == Keep(p, s) + Keep(p, t)
  {
    if s == [] {
      assert s + t == t;
    } else {
      assert (s + t)[1..] == s[1..] + t;
      KeepConcat(p, s[1..], t);
    }
  }

  lemma KeepSnoc<T>(p: T -> bool, s: seq<T>, x: T)
    ensures Keep(p, s + [x]) == Keep(p, s) + if p(x) then [x] else []
  {
    KeepConcat(p, s, [x]);
  }

  lemma {:induction false} KeepAgrees<T(!new)>(p: T -> bool, q: T -> bool, s: seq<T>)
    requires forall x <- s :: p(x) == q(x)
    ensures Keep(p, s) == Keep(q, s)
  {
    if s != [] {
      KeepAgrees(p, q, s[1..]);
    }
  }

  lemma {:induction false} KeepAll<T(!new)>(p: T -> bool, s: seq<T>)
    requires forall x <- s :: p(x)
    ensures Keep(p, s) == s
  {
    if s != [] {
      KeepAll(p, s[1..]);
    }
  }

  lemma {:induction false} KeepNone<T(!new)>(p: T -> bool, s: seq<T>)
    requires forall x <- s :: !p(x)
    ensures Keep(p, s) == []
  {
    if s != [] {
      KeepNone(p, s[1..]);
    }
  }

  lemma {:induction false} KeepTwice<T(!new)>(p: T -> bool, q: T -> bool, r: T -> bool, s: seq<T>)
    requires forall x <- s :: r(x) == (p(x) && q(x))
    ensures Keep(q, Keep(p, s)) == Keep(r, s)
  {
    if s != [] {
      KeepTwice(p, q, r, s[1..]);
      if p(s[0]) {
        assert Keep(p, s)[1..] == Keep(p, s[1..]);
      }
    }
  }

  // ---------------------------------------------------------------------------
  // Time keys
  // ---------------------------------------------------------------------------

  datatype TimeKey = TimeKey(ts: int, key: string)

  /** Byte-wise order of strings. */
  predicate StrLess(a: string, b: string) {
    b != [] && (a == [] || a[0] < b[0] || (a[0] == b[0] && StrLess(a[1..], b[1..])))
  }

  predicate Less(a: TimeKey, b: TimeKey) {
    if a.ts != b.ts then a.ts < b.ts else StrLess(a.key, b.key)
  }

  lemma {:induction false} StrLessTotal(a: string, b: string)
    ensures a == b || StrLess(a, b) || StrLess(b, a)
    ensures !(StrLess(a, b) && StrLess(b, a))
  {
    if a != [] && b != [] {
      StrLessTotal(a[1..], b[1..]);
      assert a == [a[0]] + a[1..] && b == [b[0]] + b[1..];
    }
  }

  lemma {:induction false} StrLessTransitive(a: string, b: string, c: string)
    requires StrLess(a, b) && StrLess(b, c)
    ensures StrLess(a, c)
  {
    if a != [] && a[0] == b[0] == c[0] {
      StrLessTransitive(a[1..], b[1..], c[1..]);
    }
  }

  predicate FirstDifference(a: string, b: string, n: int) {
    0 <= n <= |a| && n < |b| && a[..n] == b[..n] && (n == |a| || a[n] < b[n])
  }

  /** It is the order of the dictionary. */
  lemma {:induction false} StrLessIsLexicographic(a: string, b: string)
    ensures StrLess(a, b) <==> exists n :: FirstDifference(a, b, n)
  {
    if b == [] || a == [] || a[0] < b[0] {
      assert b != [] ==> FirstDifference(a, b, 0);
    } else if a[0] == b[0] {
      StrLessIsLexicographic(a[1..], b[1..]);
      if n :| FirstDifference(a[1..], b[1..], n) {
        assert a == [a[0]] + a[1..] && b == [b[0]] + b[1..];
        assert FirstDifference(a, b, n + 1);
      }
      if n :| FirstDifference(a, b, n) {
        assert a[1..][..n - 1] == a[..n][1..] && b[1..][..n - 1] == b[..n][1..];
        assert FirstDifference(a[1..], b[1..], n - 1);
      }
    } else {
      forall n ensures !FirstDifference(a, b, n) {
        assert 0 < n <= |a| && n < |b| ==> a[..n][0] != b[..n][0];
      }
    }
  }

  /** Earlier instants come first, and within an instant the order of the dictionary
      decides. */
  lemma LessIsByTimeThenText(a: TimeKey, b: TimeKey)
    ensures Less(a, b) <==> a.ts < b.ts || (a.ts == b.ts && exists n :: FirstDifference(a.key, b.key, n))
  {
    StrLessIsLexicographic(a.key, b.key);
  }

  lemma LessIsStrictOrder(a: TimeKey, b: TimeKey, c: TimeKey)
    ensures a == b || Less(a, b) || Less(b, a)
    ensures !(Less(a, b) && Less(b, a))
    ensures Less(a, b) && Less(b, c) ==> Less(a, c)
  {
    StrLessTotal(a.key, b.key);
    if a.ts == b.ts == c.ts && StrLess(a.key, b.key) && StrLess(b.key, c.key) {
      StrLessTransitive(a.key, b.key, c.key);
    }
  }

  // ---------------------------------------------------------------------------
  // Timed lists
  // ---------------------------------------------------------------------------

  datatype Timed<P> = Timed(at: TimeKey, data: P)

  function Insert<P>(s: seq<Timed<P>>, t: Timed<P>): seq<Timed<P>> {
    if s == [] then [t]
    else if t.at == s[0].at then [t] + s[1..]
    else if Less(t.at, s[0].at) then [t] + s
    else [s[0]] + Insert(s[1..], t)
  }

  function KeyIs<P>(key: string): Timed<P> -> bool {
    (t: Timed<P>) => t.at.key == key
  }

  function Without<P>(s: seq<Timed<P>>, key: string): seq<Timed<P>> {
    Keep(Opposite(KeyIs(key)), s)
  }

  function Find<P>(s: seq<Timed<P>>, key: string): Option<P> {
    if s == [] then None
    else if s[0].at.key == key then Some(s[0].data)
    else Find(s[1..], key)
  }

  /** Inclusive at both ends. */
  function Within<P>(lo: int, hi: int): Timed<P> -> bool {
    (t: Timed<P>) => lo <= t.at.ts <= hi
  }

  /** The last instant of a read up to `hi`. The index is asked for what lies below
      the next one, and that wraps around. */
  function Upto(hi: int): int {
    Wrap64(hi + 1) - 1
  }

  function Range<P>(s: seq<Timed<P>>, lo: int, hi: int): seq<Timed<P>> {
    Keep(Within(lo, hi), s)
  }

  function OutOfRange<P>(s: seq<Timed<P>>, lo: int, hi: int): seq<Timed<P>> {
    Keep(Opposite(Within(lo, hi)), s)
  }

  function Data<P>(s: seq<Timed<P>>): (r: seq<P>)
    ensures |r| == |s| && forall i | 0 <= i < |s| :: r[i] == s[i].data
  {
    seq(|s|, i requires 0 <= i < |s| => s[i].data)
  }

  function Times<P>(s: seq<Timed<P>>): (r: seq<int>)
    ensures |r| == |s| && forall i | 0 <= i < |s| :: r[i] == s[i].at.ts
  {
    seq(|s|, i requires 0 <= i < |s| => s[i].at.ts)
  }

  ghost predicate Sorted<P>(s: seq<Timed<P>>) {
    forall i, j | 0 <= i < j < |s| :: Less(s[i].at, s[j].at)
  }

  ghost predicate DistinctNames<P>(s: seq<Timed<P>>) {
    forall i, j | 0 <= i < j < |s| :: s[i].at.key != s[j].at.key
  }

  // ---------------------------------------------------------------------------
  // The whole buffer
  // ---------------------------------------------------------------------------

  datatype Signal = MetricSignal(metrics: Metrics) | LogSignal(logs: Logs)

  /** Spans and logs of one trace share an entry. */
  datatype TraceEntry = TraceEntry(receivedAt: int, spans: Traces, logs: Logs)

  datatype LostEntry = LostEntry(key: string, entry: TraceEntry)

  /** `stored`, `dropped` and `lost` are the ledger: what was ever indexed, what was
      evicted while the channel was full, and the trace entries that were evicted
      or went in a failed write. */
  datatype Plain = Plain(
    metrics: seq<Timed<Metrics>>,
    logs: seq<Timed<Logs>>,
    traces: map<string, TraceEntry>,
    chan: seq<Signal>,
    stored: seq<Signal>,
    dropped: seq<Signal>,
    lost: seq<LostEntry>)

  const CHANNEL_CAPACITY := 1000

  const EMPTY := Plain([], [], map[], [], [], [], [])

  /** A send that gives up when the channel is full. */
  function Emit(p: Plain, sig: Signal): Plain {
    if |p.chan| < CHANNEL_CAPACITY then p.(chan := p.chan + [sig])
    else p.(dropped := p.dropped + [sig])
  }

  /** A trace entry that goes without being exported. */
  function Lose(p: Plain, key: string): Plain {
    if key in p.traces then
      p.(traces := p.traces - {key}, lost := p.lost + [LostEntry(key, p.traces[key])])
    else p
  }

  /** An entry the cache gives up: metrics and logs are passed on for aggregation,
      traces are not. */
  function Evict(p: Plain, key: string): Plain {
    var m, l := Find(p.metrics, key), Find(p.logs, key);
    if m.Some? then Emit(p.(metrics := Without(p.metrics, key)), MetricSignal(m.value))
    else if l.Some? then Emit(p.(logs := Without(p.logs, key)), LogSignal(l.value))
    else Lose(p, key)
  }

  /** How one cache write went: the entries it pushed out, whether it succeeded,
      and, when it did not, whether the old entry under its key is gone too. */
  datatype SetOutcome = SetOutcome(victims: seq<string>, ok: bool, lost: bool)

  /** A write never evicts the key it writes. */
  function MakeRoom(p: Plain, key: string, victims: seq<string>): Plain {
    if victims == [] then p
    else
      var q := MakeRoom(p, key, victims[..|victims| - 1]);
      if victims[|victims| - 1] == key then q else Evict(q, victims[|victims| - 1])
  }

  function StoreMetric(p: Plain, at: TimeKey, m: Metrics, o: SetOutcome): Plain {
    var q := MakeRoom(p, at.key, o.victims);
    if o.ok then q.(metrics := Insert(q.metrics, Timed(at, m)), stored := q.stored + [MetricSignal(m)]) else q
  }

  function StoreTimeLogs(p: Plain, at: TimeKey, l: Logs, o: SetOutcome): Plain {
    var q := MakeRoom(p, at.key, o.victims);
    if o.ok then q.(logs := Insert(q.logs, Timed(at, l)), stored := q.stored + [LogSignal(l)]) else q
  }

  function EntryAt(p: Plain, key: string, now: int): TraceEntry {
    if key in p.traces then p.traces[key] else TraceEntry(now, [], [])
  }

  function SetTrace(p: Plain, key: string, e: TraceEntry, o: SetOutcome): Plain {
    var q := MakeRoom(p, key, o.victims);
    if o.ok then q.(traces := q.traces[key := e])
    else if o.lost then Lose(q, key)
    else q
  }

  function AddSpans(p: Plain, key: string, spans: Traces, now: int, o: SetOutcome): Plain {
    var e := EntryAt(p, key, now);
    SetTrace(p, key, e.(spans := e.spans + spans), o)
  }

  function AddLogs(p: Plain, key: string, logs: Logs, now: int, o: SetOutcome): Plain {
    var e := EntryAt(p, key, now);
    SetTrace(p, key, e.(logs := e.logs + logs), o)
  }
}
