/** The parts of OpenTelemetry's data model that the sampler reads. */
module Pdata {
  import opened Int64
  import opened Keyed
  import opened Nest

  // ---------------------------------------------------------------------------
  // Text
  // ---------------------------------------------------------------------------

  function Digit(d: nat): char
    requires d < 10
  {
    "0123456789"[d]
  }

  function Natural(n: nat): string {
    if n < 10 then [Digit(n)] else Natural(n / 10) + [Digit(n % 10)]
  }

  /** The `%d` format. */
  function Decimal(n: int): string {
    if n < 0 then "-" + Natural(-n) else Natural(n)
  }

  predicate HasPrefix(s: string, prefix: string) {
    |prefix| <= |s| && s[..|prefix|] == prefix
  }

  // ---------------------------------------------------------------------------
  // Attributes
  // ---------------------------------------------------------------------------

  datatype Value =
    | StrValue(s: string)
    | IntValue(i: int64)
    | BoolValue(b: bool)
    | OtherValue(text: string)
  {
    /** The string form used in keys. */
    function AsString(): string {
      match this
      case StrValue(s) => s
      case IntValue(i) => Decimal(i)
      case BoolValue(b) => if b then "true" else "false"
      case OtherValue(text) => text
    }

    /** The string accessor: empty unless the value is a string. */
    function Str(): string {
      if StrValue? then s else ""
    }

    /** The integer accessor: zero unless the value is an integer. */
    function Int(): int64 {
      if IntValue? then i else 0
    }
  }

  datatype Attr = Attr(key: string, val: Value)

  type Attrs = seq<Attr>

  function Lookup(m: Attrs, k: string): Option<Value> {
    if m == [] then None
    else if m[0].key == k then Some(m[0].val)
    else Lookup(m[1..], k)
  }

  /** Overwrites the first entry with the key, or appends one. */
  function PutAttr(m: Attrs, k: string, v: Value): Attrs {
    if m == [] then [Attr(k, v)]
    else if m[0].key == k then [Attr(k, v)] + m[1..]
    else [m[0]] + PutAttr(m[1..], k, v)
  }

  /** Drops the first entry with the key; the last entry takes its place. */
  function RemoveAttr(m: Attrs, k: string): Attrs {
    if m == [] then m
    else if m[0].key == k then
      if |m| == 1 then [] else [m[|m| - 1]] + m[1..|m| - 1]
    else [m[0]] + RemoveAttr(m[1..], k)
  }

  predicate UniqueKeys(m: Attrs) {
    forall i, j | 0 <= i < j < |m| :: m[i].key != m[j].key
  }

  // ---------------------------------------------------------------------------
  // Signals
  // ---------------------------------------------------------------------------

  datatype Scope = Scope(name: string, version: string)

  /** The zero instant, year 1, in nanoseconds from 1970. */
  const ZERO_INSTANT := -62_135_596_800_000_000_000

  type byte = i: int | 0 <= i < 256
  type TraceID = s: seq<byte> | |s| == 16 witness [0, 0, 0, 0, 0, 0, 0, 0, 0, 0, 0, 0, 0, 0, 0, 0]

  predicate IsEmptyID(t: TraceID) {
    forall i | 0 <= i < 16 :: t[i] == 0
  }

  datatype Number = NoNumber | IntNumber(i: int64) | DoubleNumber(d: real)
  datatype PointInfo = PointInfo(start: uint64, time: uint64, flags: int)
  datatype Point = Point(attrs: Attrs, value: Number, info: PointInfo)

  /** `Crashed` is never received: it marks a metric on which a typed accessor of
      another type was used, which ends the process. */
  datatype MetricData =
    | EmptyData
    | SumData(monotonic: bool, temporality: int, points: seq<Point>)
    | GaugeData(points: seq<Point>)
    | OtherData(kind: string, payload: string)
    | Crashed

  datatype Metric = Metric(name: string, description: string, unit: string, data: MetricData)

  datatype LogRecord = LogRecord(severity: int, body: string, traceId: TraceID, attrs: Attrs, time: uint64)

  datatype Span = Span(traceId: TraceID, start: uint64, end: uint64, isError: bool, attrs: Attrs, name: string)

  type ScopeOf<T> = Node<Scope, T>
  type ResourceOf<T> = Node<Attrs, ScopeOf<T>>

  type Metrics = seq<ResourceOf<Metric>>
  type Logs = seq<ResourceOf<LogRecord>>
  type Traces = seq<ResourceOf<Span>>

  /** What a receiver hands over. */
  datatype Incoming = TraceIn(traces: Traces) | MetricIn(metrics: Metrics) | LogIn(logs: Logs)

  // ---------------------------------------------------------------------------
  // Keys
  // ---------------------------------------------------------------------------

  function Entry(a: Attr): string {
    a.key + "=" + a.val.AsString() + ";"
  }

  function AttrKey(m: Attrs): string {
    if m == [] then "" else AttrKey(m[..|m| - 1]) + Entry(m[|m| - 1])
  }

  function ScopeKey(s: Scope): string {
    s.name + s.version
  }

  function Concat<T>(xss: seq<seq<T>>): seq<T> {
    if xss == [] then [] else Concat(xss[..|xss| - 1]) + xss[|xss| - 1]
  }

  lemma {:induction false} ConcatOfConcat<T>(xss: seq<seq<T>>, yss: seq<seq<T>>)
    ensures Concat(xss + yss) == Concat(xss) + Concat(yss)
  {
    if yss == [] {
      assert xss + yss == xss;
    } else {
      assert (xss + yss)[..|xss + yss| - 1] == xss + yss[..|yss| - 1];
      ConcatOfConcat(xss, yss[..|yss| - 1]);
    }
  }

  function TotalLength<T>(xss: seq<seq<T>>): nat {
    if xss == [] then 0 else TotalLength(xss[..|xss| - 1]) + |xss[|xss| - 1]|
  }

  /** Everything is in its place: what is `j`th in the `i`th batch comes after all the
      batches before it and `j` more. */
  lemma {:induction false} ConcatPlaces<T>(xss: seq<seq<T>>, i: nat, j: nat)
    requires i < |xss| && j < |xss[i]|
    ensures var n := TotalLength(xss[..i]) + j; n < |Concat(xss)| && Concat(xss)[n] == xss[i][j]
    ensures |Concat(xss)| == TotalLength(xss)
  {
    ConcatLength(xss);
    var init := xss[..|xss| - 1];
    ConcatLength(init);
    if i < |init| {
      assert init[..i] == xss[..i];
      ConcatPlaces(init, i, j);
    }
  }

  lemma {:induction false} ConcatLength<T>(xss: seq<seq<T>>)
    ensures |Concat(xss)| == TotalLength(xss)
  {
    if xss != [] {
      ConcatLength(xss[..|xss| - 1]);
    }
  }

  /** Moves the contents of all the batches into one. */
  method MoveAll<T>(batches: seq<seq<T>>) returns (out: seq<T>)
    ensures out == Concat(batches)
  {
    out := [];
    for n := 0 to |batches|
      invariant out == Concat(batches[..n])
    {
      assert batches[..n + 1][..n] == batches[..n];
      out := out + batches[n];
    }
    assert batches[..|batches|] == batches;
  }
}
