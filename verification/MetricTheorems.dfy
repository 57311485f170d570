/** What the nested metric rollup amounts to. */
module MetricTheorems {
  import opened Int64
  import opened Keyed
  import opened Nest
  import opened Measure
  import opened Pdata
  import opened Filter
  import opened MetricRollup

  // ---------------------------------------------------------------------------
  // The flat view: what a list of metrics files under each name
  // ---------------------------------------------------------------------------

  function MetricsOf(ms: Metrics, rk: string, sk: string): seq<Metric> {
    Pick(ScopeKey, Pick(AttrKey, ms, rk), sk)
  }

  predicate Summable(d: MetricData) {
    d.SumData? || d.GaugeData?
  }

  function Points(m: Metric): seq<Point> {
    if Summable(m.data) then m.data.points else []
  }

  function PointsNamed(ms: seq<Metric>, name: string): seq<Point> {
    if ms == [] then []
    else
      var m := ms[|ms| - 1];
      PointsNamed(ms[..|ms| - 1], name) + if m.name == name then Points(m) else []
  }

  function PointsOf(ms: Metrics, rk: string, sk: string, name: string): seq<Point> {
    PointsNamed(MetricsOf(ms, rk, sk), name)
  }

  function ResourceKeys(ms: Metrics): seq<string> {
    HeadKeys(AttrKey, ms)
  }

  function ScopeKeys(ms: Metrics, rk: string): seq<string> {
    HeadKeys(ScopeKey, Pick(AttrKey, ms, rk))
  }

  function Names(ms: Metrics, rk: string, sk: string): seq<string> {
    MapKeys((m: Metric) => m.name, MetricsOf(ms, rk, sk))
  }

  /** No allowed attribute key is repeated within the point. */
  ghost function Unique(): Point -> bool {
    (p: Point) => UniqueKept(p.attrs)
  }

  lemma PointsKeep(l: Level)
    ensures Keeps(PointOps(l), Unique(), Any<Point>())
  {
    forall p: Point | UniqueKept(p.attrs)
      ensures AttrKey(Filtered(p.attrs, l)) == FilterKey(p.attrs, l)
    {
      KeysAgree(p.attrs, l);
    }
  }

  lemma MetricsKeep(l: Level)
    ensures Keeps(MetricOps(l), Any<Metric>(), Any<Metric>())
  {
  }

  lemma ScopesKeep(l: Level)
    ensures Keeps(ScopeOps(l), Each<Scope, Metric>(Any<Metric>()), EachRow<Scope, Metric>(MetricOps(l), Any<Metric>()))
  {
    MetricsKeep(l);
    NestKeeps<Scope, Metric>(ScopeKey, MetricOps(l), Any<Metric>(), Any<Metric>());
  }

  /** The points a table of metrics files under a name. */
  ghost function PointsAt(t: Table<Metric>, name: string): seq<Point>
    requires Bounded(t)
  {
    if name in t.index then Points(t.rows[t.index[name]]) else []
  }

  lemma MergedPoints(l: Level, d: Metric, x: Metric)
    requires !MergeMetric(d, x, l).data.Crashed?
    ensures Points(MergeMetric(d, x, l)) == Merge(PointOps(l), Points(d), Points(x))
  {
  }

  lemma PointsAtPut(l: Level, t: Table<Metric>, x: Metric, name: string)
    requires Indexed(MetricOps(l), t) && !Some1(Put(MetricOps(l), t, x).rows, CrashedMetric())
    ensures PointsAt(Put(MetricOps(l), t, x), name) ==
            if x.name == name then Merge(PointOps(l), PointsAt(t, name), Points(x)) else PointsAt(t, name)
  {
    var t' := Put(MetricOps(l), t, x);
    if x.name == name {
      var i := t'.index[name];
      assert !CrashedMetric()(t'.rows[i]);
      MergedPoints(l, if name in t.index then t.rows[i] else FreshMetric(x), x);
    } else if name in t.index {
      assert MetricOps(l).dkey(t.rows[t.index[name]]) == name;
    }
  }

  lemma {:induction false} PointsAtIsMerge(l: Level, ms: seq<Metric>, name: string)
    requires All(PointsNamed(ms, name), Unique())
    requires !Some1(Merge(MetricOps(l), [], ms), CrashedMetric())
    ensures PointsAt(PutAll(MetricOps(l), Empty(), ms), name) == Merge(PointOps(l), [], PointsNamed(ms, name))
  {
    if ms != [] {
      var init, x := ms[..|ms| - 1], ms[|ms| - 1];
      var o := MetricOps(l);
      var t := PutAll(o, Empty(), init);
      MetricCrashesStay(l);
      if Some1(t.rows, CrashedMetric()) {
        MarksStay(o, CrashedMetric(), Empty(), ms, |init|);
      }
      assert PointsNamed(init, name) <= PointsNamed(ms, name);
      PointsAtIsMerge(l, init, name);
      MetricsKeep(l);
      PutAllKeeps(o, Any<Metric>(), Any<Metric>(), Empty(), init);
      PointsAtPut(l, t, x, name);
      if x.name == name {
        PointsKeep(l);
        RebuiltMapIsCarriedMap(PointOps(l), Unique(), Any<Point>(), [], PointsNamed(init, name), Points(x));
      } else {
        assert PointsNamed(ms, name) == PointsNamed(init, name);
      }
    }
  }

  lemma {:induction false} PointsFromTable(l: Level, t: Table<Metric>, n: nat, name: string)
    requires Indexed(MetricOps(l), t) && n <= |t.rows|
    ensures PointsNamed(t.rows[..n], name) ==
            if name in t.index && t.index[name] < n then Points(t.rows[t.index[name]]) else []
  {
    if n > 0 {
      PointsFromTable(l, t, n - 1, name);
      assert t.rows[..n][..n - 1] == t.rows[..n - 1];
      assert MetricOps(l).dkey(t.rows[n - 1]) == t.rows[n - 1].name;
      if name in t.index {
        assert MetricOps(l).dkey(t.rows[t.index[name]]) == name;
      }
    }
  }

  /** Selecting a metric name commutes with rolling up. */
  lemma NamedCommutes(l: Level, ms: seq<Metric>, name: string)
    requires All(PointsNamed(ms, name), Unique())
    requires !Some1(Merge(MetricOps(l), [], ms), CrashedMetric())
    ensures PointsNamed(Merge(MetricOps(l), [], ms), name) == Merge(PointOps(l), [], PointsNamed(ms, name))
  {
    var t := PutAll(MetricOps(l), Empty(), ms);
    PointsAtIsMerge(l, ms, name);
    MetricsKeep(l);
    PutAllKeeps(MetricOps(l), Any<Metric>(), Any<Metric>(), Empty(), ms);
    PointsFromTable(l, t, |t.rows|, name);
    assert t.rows[..|t.rows|] == t.rows;
  }

  /** The metrics of a resource and scope after rolling up, and the rollup of the
      metrics of that resource and scope, are the same. */
  lemma MetricsCommute(l: Level, ms: Metrics, rk: string, sk: string)
    ensures Pick(AttrKey, Merge(ResourceOps(l), [], ms), rk) == Merge(ScopeOps(l), [], Pick(AttrKey, ms, rk))
    ensures MetricsOf(Merge(ResourceOps(l), [], ms), rk, sk) == Merge(MetricOps(l), [], MetricsOf(ms, rk, sk))
  {
    MetricsKeep(l);
    ScopesKeep(l);
    var v, w := Each<Scope, Metric>(Any<Metric>()), EachRow<Scope, Metric>(MetricOps(l), Any<Metric>());
    assert forall n <- ms :: All(n.items, v);
    PickCommutes(AttrKey, ScopeOps(l), v, w, ms, rk);
    PickCommutes(ScopeKey, MetricOps(l), Any<Metric>(), Any<Metric>(), Pick(AttrKey, ms, rk), sk);
  }

  // ---------------------------------------------------------------------------
  // Crashes, exactly
  // ---------------------------------------------------------------------------

  datatype Kind = Untyped | Sums | Gauges | Others

  function KindOf(d: MetricData): Kind {
    match d
    case EmptyData => Untyped
    case SumData(_, _, _) => Sums
    case GaugeData(_) => Gauges
    case OtherData(_, _) => Others
    case Crashed => Untyped
  }

  /** The first type seen under a name. */
  function FirstKind(ms: seq<Metric>, name: string): Kind {
    if ms == [] then Untyped
    else
      var k, m := FirstKind(ms[..|ms| - 1], name), ms[|ms| - 1];
      if k == Untyped && m.name == name then KindOf(m.data) else k
  }

  /** A sum or gauge whose name already belongs to another type. */
  predicate ClashAt(ms: seq<Metric>, j: nat)
    requires j < |ms|
  {
    var first, kind := FirstKind(ms[..j], ms[j].name), KindOf(ms[j].data);
    (kind == Sums || kind == Gauges) && first != Untyped && first != kind
  }

  predicate Clash(ms: seq<Metric>) {
    exists j | 0 <= j < |ms| :: ClashAt(ms, j)
  }

  predicate ClashNamed(ms: seq<Metric>, name: string) {
    exists j | 0 <= j < |ms| :: ms[j].name == name && ClashAt(ms, j)
  }

  lemma ClashSnoc(ms: seq<Metric>, name: string)
    requires ms != []
    ensures ClashNamed(ms, name) <==>
              ClashNamed(ms[..|ms| - 1], name) || (ms[|ms| - 1].name == name && ClashAt(ms, |ms| - 1))
  {
    var init := ms[..|ms| - 1];
    forall j | 0 <= j < |init| ensures ClashAt(ms, j) == ClashAt(init, j) {
      assert init[..j] == ms[..j];
    }
    if ClashNamed(init, name) {
      var j :| 0 <= j < |init| && init[j].name == name && ClashAt(init, j);
      assert ms[j].name == name && ClashAt(ms, j);
    }
  }

  lemma {:induction false} RowCrashes(l: Level, ms: seq<Metric>, name: string)
    requires !Some1(ms, CrashedMetric())
    ensures var g := Group(MetricOps(l), ms, name);
            && (g.None? ==> FirstKind(ms, name) == Untyped && !ClashNamed(ms, name))
            && (g.Some? ==> (g.value.data.Crashed? <==> ClashNamed(ms, name)))
            && (g.Some? && !g.value.data.Crashed? ==> KindOf(g.value.data) == FirstKind(ms, name))
  {
    hide Merge;
    if ms != [] {
      var init, x := ms[..|ms| - 1], ms[|ms| - 1];
      RowCrashes(l, init, name);
      ClashSnoc(ms, name);
      assert !CrashedMetric()(x);
    }
  }

  lemma ListCrashes(l: Level, ms: seq<Metric>)
    requires !Some1(ms, CrashedMetric())
    ensures Some1(Merge(MetricOps(l), [], ms), CrashedMetric()) <==> Clash(ms)
  {
    var o, out := MetricOps(l), Merge(MetricOps(l), [], ms);
    MetricsKeep(l);
    TableIsGroupBy(o, Any<Metric>(), Any<Metric>(), ms);
    forall i | 0 <= i < |out| ensures CrashedMetric()(out[i]) <==> ClashNamed(ms, out[i].name) {
      RowCrashes(l, ms, out[i].name);
      assert o.dkey(out[i]) == out[i].name;
    }
    if Clash(ms) {
      var j :| 0 <= j < |ms| && ClashAt(ms, j);
      var ks := MapKeys(o.skey, ms);
      assert ks[j] == ms[j].name;
      DistinctIsFirstOccurrences(ks);
      assert ms[j].name in MapKeys(o.dkey, out);
      var i :| 0 <= i < |out| && MapKeys(o.dkey, out)[i] == ms[j].name;
      assert ClashNamed(ms, out[i].name);
    }
  }

  /** A rollup ends the process exactly when, under some resource, scope and name,
      a sum or gauge follows a metric of another type. */
  lemma CrashesExactlyOnClash(l: Level, signals: seq<Metrics>)
    requires l != Fine && forall ms <- signals :: !HasCrashed(ms)
    ensures RolledUp(l, true, signals).None? <==>
            exists rk, sk :: Clash(MetricsOf(Concat(signals), rk, sk))
  {
    var ms := Concat(signals);
    var out := Merge(ResourceOps(l), [], ms);
    NoneCrashed(signals);
    CrashView(ms);
    CrashView(out);
    forall rk, sk ensures Some1(MetricsOf(out, rk, sk), CrashedMetric()) <==> Clash(MetricsOf(ms, rk, sk)) {
      MetricsCommute(l, ms, rk, sk);
      ListCrashes(l, MetricsOf(ms, rk, sk));
    }
  }

  lemma {:induction false} NoneCrashed(signals: seq<Metrics>)
    requires forall ms <- signals :: !HasCrashed(ms)
    ensures !HasCrashed(Concat(signals))
  {
    if signals != [] {
      var init, last := signals[..|signals| - 1], signals[|signals| - 1];
      NoneCrashed(init);
      assert !HasCrashed(last);
      forall n | n in Concat(signals) ensures !CrashedResource()(n) {
        assert n in Concat(init) || n in last;
      }
    }
  }

  lemma CrashView(ms: Metrics)
    ensures HasCrashed(ms) <==> exists rk, sk :: Some1(MetricsOf(ms, rk, sk), CrashedMetric())
  {
    if HasCrashed(ms) {
      var i :| 0 <= i < |ms| && CrashedResource()(ms[i]);
      var rk := AttrKey(ms[i].head);
      PickFinds(AttrKey, ms, i, CrashedScope());
      var ns := Pick(AttrKey, ms, rk);
      var j :| 0 <= j < |ns| && CrashedScope()(ns[j]);
      PickFinds(ScopeKey, ns, j, CrashedMetric());
      assert Some1(MetricsOf(ms, rk, ScopeKey(ns[j].head)), CrashedMetric());
    } else {
      forall rk, sk ensures !Some1(MetricsOf(ms, rk, sk), CrashedMetric()) {
        NotCrashedView(ms, rk, sk);
      }
    }
  }

  lemma NotCrashedView(ms: Metrics, rk: string, sk: string)
    requires !HasCrashed(ms)
    ensures !Some1(MetricsOf(ms, rk, sk), CrashedMetric())
  {
    var scope, metric := Not(CrashedScope()), Not(CrashedMetric());
    forall n | n in ms ensures All(n.items, scope) {
      assert !CrashedResource()(n);
    }
    PickAll(AttrKey, ms, rk, scope);
    var ns := Pick(AttrKey, ms, rk);
    forall n | n in ns ensures All(n.items, metric) {
      assert scope(n);
    }
    PickAll(ScopeKey, ns, sk, metric);
    assert forall m <- MetricsOf(ms, rk, sk) :: metric(m);
  }

  // ---------------------------------------------------------------------------
  // The type of a rolled-up metric
  // ---------------------------------------------------------------------------

  /** The data of the first metric of a name that has any. */
  function FirstTyped(ms: seq<Metric>, name: string): MetricData {
    if ms == [] then EmptyData
    else
      var d, m := FirstTyped(ms[..|ms| - 1], name), ms[|ms| - 1];
      if d.EmptyData? && m.name == name then m.data else d
  }

  /** Sums keep the first monotonicity and temporality; what is neither a sum nor a
      gauge is kept as it came first. */
  predicate SameShape(d: MetricData, first: MetricData) {
    match first
    case SumData(monotonic, temporality, _) => d.SumData? && d.monotonic == monotonic && d.temporality == temporality
    case GaugeData(_) => d.GaugeData?
    case _ => d == first
  }

  lemma {:induction false} RowHasFirstShape(l: Level, ms: seq<Metric>, name: string)
    requires !Some1(ms, CrashedMetric())
    ensures var g := Group(MetricOps(l), ms, name);
            && (g.None? ==> FirstTyped(ms, name).EmptyData?)
            && (g.Some? ==> g.value.data.Crashed? || SameShape(g.value.data, FirstTyped(ms, name)))
  {
    hide Merge;
    if ms != [] {
      var init, x := ms[..|ms| - 1], ms[|ms| - 1];
      RowHasFirstShape(l, init, name);
      assert !CrashedMetric()(x);
    }
  }

  /** Each rolled-up metric has the type of the first metric of its name that has
      one. */
  lemma ShapesAreFirst(l: Level, signals: seq<Metrics>, out: Metrics, rk: string, sk: string)
    requires l != Fine && RolledUp(l, true, signals) == Some(out) && forall ms <- signals :: !HasCrashed(ms)
    ensures forall m <- MetricsOf(out, rk, sk) ::
              SameShape(m.data, FirstTyped(MetricsOf(Concat(signals), rk, sk), m.name))
  {
    hide Merge, MetricOps, MetricsOf;
    var ms := MetricsOf(Concat(signals), rk, sk);
    var o, to := MetricOps(l), MetricsOf(out, rk, sk);
    NoneCrashed(signals);
    NotCrashedView(Concat(signals), rk, sk);
    NotCrashedView(out, rk, sk);
    MetricsCommute(l, Concat(signals), rk, sk);
    MetricsKeep(l);
    TableIsGroupBy(o, Any<Metric>(), Any<Metric>(), ms);
    forall m | m in to ensures SameShape(m.data, FirstTyped(ms, m.name)) {
      var i :| 0 <= i < |to| && to[i] == m;
      NamesAreKeys(l, m);
      RowHasFirstShape(l, ms, m.name);
      assert !CrashedMetric()(m);
    }
  }

  lemma NamesAreKeys(l: Level, m: Metric)
    ensures MetricOps(l).dkey(m) == m.name
  {
  }

  // ---------------------------------------------------------------------------
  // The flat group-by
  // ---------------------------------------------------------------------------

  /** The points filed under one filtered key, in order. */
  function Select(l: Level, ps: seq<Point>, k: string): seq<Point> {
    if ps == [] then []
    else
      var p := ps[|ps| - 1];
      Select(l, ps[..|ps| - 1], k) + if FilterKey(p.attrs, l) == k then [p] else []
  }

  /** Values added up one after the other. */
  function Total(ps: seq<Point>): Number
    requires ps != []
  {
    if |ps| == 1 then ps[0].value else Add(Total(ps[..|ps| - 1]), ps[|ps| - 1].value)
  }

  /** The one row that stands for a group of points. */
  function Row(l: Level, group: seq<Point>): Point
    requires group != []
  {
    Point(Filtered(group[0].attrs, l), Total(group), group[0].info)
  }

  lemma RowSnoc(l: Level, group: seq<Point>, p: Point)
    requires group != []
    ensures Row(l, group + [p]) == PointOps(l).merge(Row(l, group), p)
  {
    hide Filtered, FilterKey;
    assert (group + [p])[..|group|] == group;
  }

  lemma {:induction false} GroupIsRow(l: Level, ps: seq<Point>, k: string)
    ensures var sel := Select(l, ps, k);
            Group(PointOps(l), ps, k) == if sel == [] then None else Some(Row(l, sel))
  {
    hide Filtered, FilterKey, Add;
    if ps != [] {
      var init, p := ps[..|ps| - 1], ps[|ps| - 1];
      GroupIsRow(l, init, k);
      var s0, sel := Select(l, init, k), Select(l, ps, k);
      if FilterKey(p.attrs, l) == k {
        assert sel == s0 + [p];
        if s0 != [] {
          RowSnoc(l, s0, p);
        }
      } else {
        assert sel == s0;
      }
    }
  }

  function IntOf(): Point -> int {
    (p: Point) => AsInt(p.value)
  }

  predicate IntPoint(p: Point) {
    p.value.IntNumber?
  }

  /** Where the points from `i` on are integers and the one before `i`, if any, is
      not, the total is the wrapped sum from `i` on: points of the other type do
      not contribute to what follows them. */
  lemma {:induction false} TotalIsLastRun(ps: seq<Point>, i: nat)
    requires i < |ps|
    requires forall j | i <= j < |ps| :: IntPoint(ps[j])
    requires i > 0 ==> !IntPoint(ps[i - 1])
    ensures Total(ps) == IntNumber(Wrap64(Sum(IntOf(), ps[i..])))
  {
    var init, p := ps[..|ps| - 1], ps[|ps| - 1];
    assert ps[i..][..|ps| - 1 - i] == init[i..];
    assert Sum(IntOf(), ps[i..]) == Sum(IntOf(), init[i..]) + AsInt(p.value);
    if i < |ps| - 1 {
      TotalIsLastRun(init, i);
      WrapSum(Sum(IntOf(), init[i..]), AsInt(p.value));
    } else {
      assert init[i..] == [];
      if i > 0 {
        NotIntTotal(init);
      }
    }
  }

  lemma {:induction false} NotIntTotal(ps: seq<Point>)
    requires ps != [] && !IntPoint(ps[|ps| - 1])
    ensures !Total(ps).IntNumber?
  {
  }

  /** Exactly one output point per distinct resource key, scope key, metric name
      and filtered attribute key, in first-occurrence order at every level; each is
      its group's first point with the filtered attributes and the group's total. */
  lemma RollupIsFlatGroupBy(l: Level, signals: seq<Metrics>, out: Metrics, rk: string, sk: string, name: string)
    requires l != Fine && RolledUp(l, true, signals) == Some(out)
    requires All(PointsOf(Concat(signals), rk, sk, name), Unique())
    ensures var ms := Concat(signals);
            && ResourceKeys(out) == Distinct(ResourceKeys(ms))
            && ScopeKeys(out, rk) == Distinct(ScopeKeys(ms, rk))
            && Names(out, rk, sk) == Distinct(Names(ms, rk, sk))
    ensures var from, to := PointsOf(Concat(signals), rk, sk, name), PointsOf(out, rk, sk, name);
            && MapKeys((p: Point) => AttrKey(p.attrs), to) ==
               Distinct(MapKeys((p: Point) => FilterKey(p.attrs, l), from))
            && forall p <- to :: var group := Select(l, from, AttrKey(p.attrs));
                 group != [] && p == Row(l, group)
  {
    var ms := Concat(signals);
    KeysOnce(l, ms, rk, sk);
    MetricsCommute(l, ms, rk, sk);
    CrashView(out);
    NamedCommutes(l, MetricsOf(ms, rk, sk), name);
    PointsOnce(l, PointsOf(ms, rk, sk, name));
  }

  lemma KeysOnce(l: Level, ms: Metrics, rk: string, sk: string)
    ensures var out := Merge(ResourceOps(l), [], ms);
            && ResourceKeys(out) == Distinct(ResourceKeys(ms))
            && ScopeKeys(out, rk) == Distinct(ScopeKeys(ms, rk))
            && Names(out, rk, sk) == Distinct(Names(ms, rk, sk))
  {
    MetricsCommute(l, ms, rk, sk);
    NamesOnce(l, MetricsOf(ms, rk, sk));
    ScopesOnce(l, Pick(AttrKey, ms, rk));
    ResourcesOnce(l, ms);
  }

  lemma ResourcesOnce(l: Level, ms: Metrics)
    ensures ResourceKeys(Merge(ResourceOps(l), [], ms)) == Distinct(ResourceKeys(ms))
  {
    var v, w := Each<Scope, Metric>(Any<Metric>()), EachRow<Scope, Metric>(MetricOps(l), Any<Metric>());
    ScopesKeep(l);
    assert forall n <- ms :: All(n.items, v);
    NodesOnce(AttrKey, ScopeOps(l), v, w, ms);
  }

  lemma ScopesOnce(l: Level, ns: seq<ScopeOf<Metric>>)
    ensures HeadKeys(ScopeKey, Merge(ScopeOps(l), [], ns)) == Distinct(HeadKeys(ScopeKey, ns))
  {
    MetricsKeep(l);
    NodesOnce(ScopeKey, MetricOps(l), Any<Metric>(), Any<Metric>(), ns);
  }

  /** Resources and scopes are copied from the first of their key. */
  lemma FirstResourcesAndScopes(l: Level, signals: seq<Metrics>, out: Metrics, rk: string)
    requires l != Fine && RolledUp(l, true, signals) == Some(out)
    ensures var ms := Concat(signals);
            && (forall n <- out :: FirstHead(AttrKey, ms, AttrKey(n.head)) == Some(n.head))
            && (forall n <- Pick(AttrKey, out, rk) ::
                  FirstHead(ScopeKey, Pick(AttrKey, ms, rk), ScopeKey(n.head)) == Some(n.head))
  {
    hide Merge;
    var ms := Concat(signals);
    var v, w := Each<Scope, Metric>(Any<Metric>()), EachRow<Scope, Metric>(MetricOps(l), Any<Metric>());
    ScopesKeep(l);
    assert forall n <- ms :: All(n.items, v);
    HeadsAreFirst(AttrKey, ScopeOps(l), v, w, ms);
    MetricsCommute(l, ms, rk, "");
    MetricsKeep(l);
    HeadsAreFirst(ScopeKey, MetricOps(l), Any<Metric>(), Any<Metric>(), Pick(AttrKey, ms, rk));
  }

  lemma NamesOnce(l: Level, ms: seq<Metric>)
    ensures MapKeys((m: Metric) => m.name, Merge(MetricOps(l), [], ms)) == Distinct(MapKeys((m: Metric) => m.name, ms))
  {
    MetricsKeep(l);
    TableKeys(MetricOps(l), Any<Metric>(), Any<Metric>(), ms);
    assert MapKeys((m: Metric) => m.name, ms) == MapKeys(MetricOps(l).skey, ms);
    var out := Merge(MetricOps(l), [], ms);
    assert MapKeys((m: Metric) => m.name, out) == MapKeys(MetricOps(l).dkey, out);
  }

  lemma PointsOnce(l: Level, from: seq<Point>)
    requires All(from, Unique())
    ensures var to := Merge(PointOps(l), [], from);
            && MapKeys((p: Point) => AttrKey(p.attrs), to) ==
               Distinct(MapKeys((p: Point) => FilterKey(p.attrs, l), from))
            && forall p <- to :: var group := Select(l, from, AttrKey(p.attrs));
                 group != [] && p == Row(l, group)
  {
    var o, to := PointOps(l), Merge(PointOps(l), [], from);
    PointsKeep(l);
    TableIsGroupBy(o, Unique(), Any<Point>(), from);
    assert MapKeys((p: Point) => AttrKey(p.attrs), to) == MapKeys(o.dkey, to);
    assert MapKeys((p: Point) => FilterKey(p.attrs, l), from) == MapKeys(o.skey, from);
    forall p | p in to
      ensures var group := Select(l, from, AttrKey(p.attrs)); group != [] && p == Row(l, group)
    {
      var i :| 0 <= i < |to| && to[i] == p;
      assert o.dkey(p) == AttrKey(p.attrs);
      GroupIsRow(l, from, AttrKey(p.attrs));
    }
  }
}
