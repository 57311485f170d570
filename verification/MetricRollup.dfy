/** Metric rollup: resource, scope, metric name, filtered attributes. */
module MetricRollup {
  import opened Int64
  import opened Keyed
  import opened Nest
  import opened Pdata
  import opened Filter

  // ---------------------------------------------------------------------------
  // One level at a time
  // ---------------------------------------------------------------------------

  function AsInt(n: Number): int64 {
    if n.IntNumber? then n.i else 0
  }

  function AsDouble(n: Number): real {
    if n.DoubleNumber? then n.d else 0.0
  }

  /** The type of the later point decides; a value of the other type reads as zero. */
  function Add(n: Number, m: Number): Number {
    if m.IntNumber? then IntNumber(Wrap64(AsInt(n) + m.i))
    else DoubleNumber(AsDouble(n) + AsDouble(m))
  }

  function PointOps(l: Level): Ops<Point, Point> {
    Ops((p: Point) => FilterKey(p.attrs, l),
        (p: Point) => AttrKey(p.attrs),
        (p: Point) => p.(attrs := Filtered(p.attrs, l)),
        (d: Point, p: Point) => d.(value := Add(d.value, p.value)))
  }

  /** The effect of one more metric of the same name on a destination metric. */
  function MergeMetric(d: Metric, x: Metric, l: Level): Metric {
    match x.data
    case SumData(monotonic, temporality, points) =>
      if d.data.EmptyData? then d.(data := SumData(monotonic, temporality, Merge(PointOps(l), [], points)))
      else if d.data.SumData? then
        d.(data := SumData(d.data.monotonic, d.data.temporality, Merge(PointOps(l), d.data.points, points)))
      else d.(data := Crashed)
    case GaugeData(points) =>
      if d.data.EmptyData? then d.(data := GaugeData(Merge(PointOps(l), [], points)))
      else if d.data.GaugeData? then d.(data := GaugeData(Merge(PointOps(l), d.data.points, points)))
      else d.(data := Crashed)
    case EmptyData => if d.data.EmptyData? then x else d
    case OtherData(_, _) => if d.data.EmptyData? then x else d
    case Crashed => d.(data := Crashed)
  }

  function FreshMetric(x: Metric): Metric {
    Metric(x.name, x.description, x.unit, EmptyData)
  }

  function MetricOps(l: Level): Ops<Metric, Metric> {
    Ops((m: Metric) => m.name,
        (m: Metric) => m.name,
        (m: Metric) => MergeMetric(FreshMetric(m), m, l),
        (d: Metric, m: Metric) => MergeMetric(d, m, l))
  }

  function ScopeOps(l: Level): Ops<ScopeOf<Metric>, ScopeOf<Metric>> {
    NestOps(ScopeKey, MetricOps(l))
  }

  function ResourceOps(l: Level): Ops<ResourceOf<Metric>, ResourceOf<Metric>> {
    NestOps(AttrKey, ScopeOps(l))
  }

  // ---------------------------------------------------------------------------
  // Crashes
  // ---------------------------------------------------------------------------

  ghost function CrashedMetric(): Metric -> bool {
    (m: Metric) => m.data.Crashed?
  }

  ghost function CrashedScope(): ScopeOf<Metric> -> bool {
    (n: ScopeOf<Metric>) => Some1(n.items, CrashedMetric())
  }

  ghost function CrashedResource(): ResourceOf<Metric> -> bool {
    (n: ResourceOf<Metric>) => Some1(n.items, CrashedScope())
  }

  ghost predicate HasCrashed(ms: Metrics) {
    Some1(ms, CrashedResource())
  }

  lemma MetricCrashesStay(l: Level)
    ensures Sticky(MetricOps(l), CrashedMetric())
  {
  }

  lemma ScopeCrashesStay(l: Level)
    ensures Sticky(ScopeOps(l), CrashedScope())
  {
    MetricCrashesStay(l);
    forall d, x | CrashedScope()(d) ensures CrashedScope()(ScopeOps(l).merge(d, x)) {
      MarksStay(MetricOps(l), CrashedMetric(), Load(MetricOps(l), d.items), x.items, 0);
    }
  }

  lemma ResourceCrashesStay(l: Level)
    ensures Sticky(ResourceOps(l), CrashedResource())
  {
    ScopeCrashesStay(l);
    forall d, x | CrashedResource()(d) ensures CrashedResource()(ResourceOps(l).merge(d, x)) {
      MarksStay(ScopeOps(l), CrashedScope(), Load(ScopeOps(l), d.items), x.items, 0);
    }
  }

  /** What a rollup exports; nothing when it ends the process. */
  ghost function RolledUp(l: Level, enabled: bool, signals: seq<Metrics>): Option<Metrics> {
    if l == Fine || !enabled then Some(Concat(signals))
    else
      var out := Merge(ResourceOps(l), [], Concat(signals));
      if HasCrashed(out) then None else Some(out)
  }

  // ---------------------------------------------------------------------------
  // The nested in-place merge
  // ---------------------------------------------------------------------------

  method IndexPoints(l: Level, dest: seq<Point>) returns (groups: map<string, nat>)
    ensures groups == Reindex(PointOps(l), dest)
  {
    groups := map[];
    for i := 0 to |dest|
      invariant groups == Reindex(PointOps(l), dest[..i])
    {
      assert dest[..i + 1][..i] == dest[..i];
      var k := AttrKeyOf(dest[i].attrs);
      groups := groups[k := i];
    }
    assert dest[..|dest|] == dest;
  }

  method AddValue(existing: Number, src: Number) returns (sum: Number)
    ensures sum == Add(existing, src)
  {
    if src.IntNumber? {
      sum := IntNumber(Wrap64(AsInt(existing) + src.i));
    } else {
      sum := DoubleNumber(AsDouble(existing) + AsDouble(src));
    }
  }

  /** The body of the loop over source points. */
  method MergeOnePoint(dest: seq<Point>, groups: map<string, nat>, p: Point, l: Level)
    returns (out: seq<Point>, index: map<string, nat>)
    requires Bounded(Table(dest, groups))
    ensures Table(out, index) == Put(PointOps(l), Table(dest, groups), p)
  {
    out, index := dest, groups;
    var key := FilterAttributesKey(p.attrs, l);
    if key in index {
      var e := index[key];
      var value := AddValue(out[e].value, p.value);
      out := out[e := out[e].(value := value)];
    } else {
      var attrs := ApplyFilteredAttributes(p.attrs, l);
      index := index[key := |out|];
      out := out + [p.(attrs := attrs)];
    }
  }

  method RollupDataPoints(dest: seq<Point>, src: seq<Point>, l: Level) returns (out: seq<Point>)
    ensures out == Merge(PointOps(l), dest, src)
  {
    out := dest;
    var groups: map<string, nat> := IndexPoints(l, dest);
    for i := 0 to |src|
      invariant Table(out, groups) == PutAll(PointOps(l), Load(PointOps(l), dest), src[..i])
    {
      assert src[..i + 1][..i] == src[..i];
      out, groups := MergeOnePoint(out, groups, src[i], l);
    }
    assert src[..|src|] == src;
  }

  method RollupMetricData(dest: Metric, src: Metric, l: Level) returns (ok: bool, out: Metric)
    requires !dest.data.Crashed? && !src.data.Crashed?
    ensures ok <==> !MergeMetric(dest, src, l).data.Crashed?
    ensures ok ==> out == MergeMetric(dest, src, l)
  {
    ok, out := true, dest;
    match src.data {
      case SumData(monotonic, temporality, points) =>
        if out.data.EmptyData? {
          out := out.(data := SumData(monotonic, temporality, []));
        }
        if !out.data.SumData? {
          return false, dest;
        }
        var merged := RollupDataPoints(out.data.points, points, l);
        out := out.(data := SumData(out.data.monotonic, out.data.temporality, merged));
      case GaugeData(points) =>
        if out.data.EmptyData? {
          out := out.(data := GaugeData([]));
        }
        if !out.data.GaugeData? {
          return false, dest;
        }
        var merged := RollupDataPoints(out.data.points, points, l);
        out := out.(data := GaugeData(merged));
      case _ =>
        if out.data.EmptyData? {
          out := src;
        }
    }
  }

  method IndexMetrics(l: Level, dest: seq<Metric>) returns (metricMap: map<string, nat>)
    ensures metricMap == Reindex(MetricOps(l), dest)
  {
    metricMap := map[];
    for i := 0 to |dest|
      invariant metricMap == Reindex(MetricOps(l), dest[..i])
    {
      assert dest[..i + 1][..i] == dest[..i];
      metricMap := metricMap[dest[i].name := i];
    }
    assert dest[..|dest|] == dest;
  }

  /** The body of the loop over source metrics: look the name up or append an
      empty metric, then merge into it. */
  method MergeOneMetric(dest: seq<Metric>, metricMap: map<string, nat>, x: Metric, l: Level)
    returns (ok: bool, out: seq<Metric>, index: map<string, nat>)
    requires Bounded(Table(dest, metricMap)) && !Some1(dest, CrashedMetric()) && !x.data.Crashed?
    ensures ok <==> !Some1(Put(MetricOps(l), Table(dest, metricMap), x).rows, CrashedMetric())
    ensures ok ==> Table(out, index) == Put(MetricOps(l), Table(dest, metricMap), x)
  {
    ghost var bad := CrashedMetric();
    out, index := dest, metricMap;
    if x.name !in index {
      index := index[x.name := |out|];
      out := out + [FreshMetric(x)];
    }
    var e := index[x.name];
    assert !bad(out[e]);
    var m;
    ok, m := RollupMetricData(out[e], x, l);
    ghost var rows := out[e := MergeMetric(out[e], x, l)];
    assert rows == Put(MetricOps(l), Table(dest, metricMap), x).rows;
    if !ok {
      assert bad(rows[e]);
    }
    out := out[e := m];
  }

  method MergeMetricsList(dest: seq<Metric>, src: seq<Metric>, l: Level) returns (ok: bool, out: seq<Metric>)
    requires !Some1(dest, CrashedMetric()) && !Some1(src, CrashedMetric())
    ensures ok <==> !Some1(Merge(MetricOps(l), dest, src), CrashedMetric())
    ensures ok ==> out == Merge(MetricOps(l), dest, src)
  {
    ghost var o, t := MetricOps(l), Load(MetricOps(l), dest);
    MetricCrashesStay(l);
    ok, out := true, dest;
    var metricMap: map<string, nat> := IndexMetrics(l, dest);
    for i := 0 to |src|
      invariant Table(out, metricMap) == PutAll(o, t, src[..i])
      invariant !Some1(out, CrashedMetric())
    {
      assert src[..i + 1][..i] == src[..i];
      assert !CrashedMetric()(src[i]);
      ok, out, metricMap := MergeOneMetric(out, metricMap, src[i], l);
      if !ok {
        MarksStay(o, CrashedMetric(), t, src, i + 1);
        return;
      }
    }
    assert src[..|src|] == src;
  }

  method IndexScopes(l: Level, dest: seq<ScopeOf<Metric>>) returns (scopeMap: map<string, nat>)
    ensures scopeMap == Reindex(ScopeOps(l), dest)
  {
    scopeMap := map[];
    for i := 0 to |dest|
      invariant scopeMap == Reindex(ScopeOps(l), dest[..i])
    {
      assert dest[..i + 1][..i] == dest[..i];
      scopeMap := scopeMap[ScopeKey(dest[i].head) := i];
    }
    assert dest[..|dest|] == dest;
  }

  /** The body of the loop over source scopes. */
  method MergeOneScope(dest: seq<ScopeOf<Metric>>, scopeMap: map<string, nat>, x: ScopeOf<Metric>, l: Level)
    returns (ok: bool, out: seq<ScopeOf<Metric>>, index: map<string, nat>)
    requires Bounded(Table(dest, scopeMap)) && !Some1(dest, CrashedScope()) && !Some1(x.items, CrashedMetric())
    ensures ok <==> !Some1(Put(ScopeOps(l), Table(dest, scopeMap), x).rows, CrashedScope())
    ensures ok ==> Table(out, index) == Put(ScopeOps(l), Table(dest, scopeMap), x)
  {
    ghost var bad := CrashedScope();
    out, index := dest, scopeMap;
    var sk := ScopeKey(x.head);
    if sk !in index {
      index := index[sk := |out|];
      out := out + [Node(x.head, [])];
    }
    var e := index[sk];
    assert !bad(out[e]);
    var items;
    ok, items := MergeMetricsList(out[e].items, x.items, l);
    ghost var rows := out[e := Node(out[e].head, Merge(MetricOps(l), out[e].items, x.items))];
    assert rows == Put(ScopeOps(l), Table(dest, scopeMap), x).rows;
    if !ok {
      assert bad(rows[e]);
    }
    out := out[e := Node(out[e].head, items)];
  }

  method MergeScopeMetrics(dest: seq<ScopeOf<Metric>>, src: seq<ScopeOf<Metric>>, l: Level)
    returns (ok: bool, out: seq<ScopeOf<Metric>>)
    requires !Some1(dest, CrashedScope()) && !Some1(src, CrashedScope())
    ensures ok <==> !Some1(Merge(ScopeOps(l), dest, src), CrashedScope())
    ensures ok ==> out == Merge(ScopeOps(l), dest, src)
  {
    ghost var o, t := ScopeOps(l), Load(ScopeOps(l), dest);
    ScopeCrashesStay(l);
    ok, out := true, dest;
    var scopeMap: map<string, nat> := IndexScopes(l, dest);
    for i := 0 to |src|
      invariant Table(out, scopeMap) == PutAll(o, t, src[..i])
      invariant !Some1(out, CrashedScope())
    {
      assert src[..i + 1][..i] == src[..i];
      assert !CrashedScope()(src[i]);
      ok, out, scopeMap := MergeOneScope(out, scopeMap, src[i], l);
      if !ok {
        MarksStay(o, CrashedScope(), t, src, i + 1);
        return;
      }
    }
    assert src[..|src|] == src;
  }

  /** The body of the loop over source resources. */
  method MergeOneResource(dest: Metrics, resMap: map<string, nat>, x: ResourceOf<Metric>, l: Level)
    returns (ok: bool, out: Metrics, index: map<string, nat>)
    requires Bounded(Table(dest, resMap)) && !HasCrashed(dest) && !Some1(x.items, CrashedScope())
    ensures ok <==> !HasCrashed(Put(ResourceOps(l), Table(dest, resMap), x).rows)
    ensures ok ==> Table(out, index) == Put(ResourceOps(l), Table(dest, resMap), x)
  {
    ghost var bad := CrashedResource();
    out, index := dest, resMap;
    var resKey := AttrKeyOf(x.head);
    if resKey !in index {
      index := index[resKey := |out|];
      out := out + [Node(x.head, [])];
    }
    var e := index[resKey];
    assert !bad(out[e]);
    var items;
    ok, items := MergeScopeMetrics(out[e].items, x.items, l);
    ghost var rows := out[e := Node(out[e].head, Merge(ScopeOps(l), out[e].items, x.items))];
    assert rows == Put(ResourceOps(l), Table(dest, resMap), x).rows;
    if !ok {
      assert bad(rows[e]);
    }
    out := out[e := Node(out[e].head, items)];
  }

  /** The loop over the resources of one signal. */
  method MergeSignal(dest: Metrics, resMap: map<string, nat>, rms: Metrics, l: Level)
    returns (ok: bool, out: Metrics, index: map<string, nat>)
    requires Bounded(Table(dest, resMap)) && !HasCrashed(dest) && !HasCrashed(rms)
    ensures ok <==> !HasCrashed(PutAll(ResourceOps(l), Table(dest, resMap), rms).rows)
    ensures ok ==> Table(out, index) == PutAll(ResourceOps(l), Table(dest, resMap), rms)
  {
    ghost var o, t := ResourceOps(l), Table(dest, resMap);
    ResourceCrashesStay(l);
    ok, out, index := true, dest, resMap;
    for i := 0 to |rms|
      invariant Table(out, index) == PutAll(o, t, rms[..i])
      invariant !HasCrashed(out)
    {
      assert rms[..i + 1][..i] == rms[..i];
      assert !CrashedResource()(rms[i]);
      ok, out, index := MergeOneResource(out, index, rms[i], l);
      if !ok {
        MarksStay(o, CrashedResource(), t, rms, i + 1);
        return;
      }
    }
    assert rms[..|rms|] == rms;
  }

  lemma CrashedSignals(l: Level, signals: seq<Metrics>, n: nat)
    requires n <= |signals| && HasCrashed(PutAll(ResourceOps(l), Empty(), Concat(signals[..n])).rows)
    ensures HasCrashed(Merge(ResourceOps(l), [], Concat(signals)))
  {
    hide PutAll, ResourceOps, CrashedResource, Sticky, Concat;
    ResourceCrashesStay(l);
    ConcatOfConcat(signals[..n], signals[n..]);
    assert signals[..n] + signals[n..] == signals;
    MarksSpread(ResourceOps(l), CrashedResource(), Concat(signals[..n]), Concat(signals));
  }

  lemma MarksSpread<T(!new)>(o: Ops<T, T>, bad: T -> bool, some: seq<T>, all: seq<T>)
    requires some <= all && Sticky(o, bad) && Some1(PutAll(o, Empty(), some).rows, bad)
    ensures Some1(PutAll(o, Empty(), all).rows, bad)
  {
    assert all[..|some|] == some;
    MarksStay(o, bad, Empty(), all, |some|);
  }
}
