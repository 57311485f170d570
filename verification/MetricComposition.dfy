/** Rolling up rolled-up metrics, and what no rollup loses. */
module MetricComposition {
  import opened Int64
  import opened Keyed
  import opened Absorb
  import opened Nest
  import opened Measure
  import opened Pdata
  import opened Filter
  import opened MetricRollup
  import opened MetricTheorems

  // ---------------------------------------------------------------------------
  // Points
  // ---------------------------------------------------------------------------

  ghost function Counted(): Point -> bool {
    (p: Point) => p.value.IntNumber? && UniqueKept(p.attrs)
  }

  ghost function CountedRow(l: Level): Point -> bool {
    (p: Point) => Counted()(p) && FilterKey(p.attrs, l) == AttrKey(p.attrs)
  }

  lemma AddAssociates(a: Number, b: Number, c: Number)
    requires b.IntNumber? && c.IntNumber?
    ensures Add(a, Add(b, c)) == Add(Add(a, b), c)
    ensures Add(Add(a, b), c) == Add(Add(a, c), b)
  {
    hide Wrap64;
    var x := AsInt(a);
    WrapSum(b.i + c.i, x);
    WrapSum(x + b.i, c.i);
    WrapSum(x + c.i, b.i);
  }

  lemma CountedKeep(l: Level)
    ensures Keeps(PointOps(l), Counted(), CountedRow(l))
  {
    forall p | Counted()(p)
      ensures CountedRow(l)(PointOps(l).start(p)) && PointOps(l).dkey(PointOps(l).start(p)) == PointOps(l).skey(p)
    {
      KeysAgree(p.attrs, l);
      FilteringIsIdempotent(p.attrs, l, l);
    }
  }

  /** Detail can be dropped in one go or in two. */
  lemma PointsBridge(l: Level, l': Level)
    requires Coarser(l, l')
    ensures Bridge(PointOps(l), PointOps(l'), Counted(), CountedRow(l), Any<Point>())
  {
    hide StartsAgree, Associates, Commutes, Keeps;
    CountedKeep(l);
    CountedAnyKeep(l');
    PointStartsAgree(l, l');
    PointsAssociate(l, l');
    assert Within(CountedRow(l), Counted());
  }

  lemma PointStartsAgree(l: Level, l': Level)
    requires Coarser(l, l')
    ensures StartsAgree(PointOps(l), PointOps(l'), Counted(), Any<Point>())
  {
    hide Add;
    var a, b := PointOps(l), PointOps(l');
    forall p | Counted()(p)
      ensures b.skey(a.start(p)) == b.skey(p) && b.start(a.start(p)) == b.start(p)
    {
      FilteringIsIdempotent(p.attrs, l, l');
    }
  }

  lemma CoarserKeysAgree(l: Level, l': Level, r: Point, y: Point)
    requires Coarser(l, l') && CountedRow(l)(r) && Counted()(y) && PointOps(l).dkey(r) == PointOps(l).skey(y)
    ensures PointOps(l').skey(r) == PointOps(l').skey(y)
  {
    assert FilterKey(r.attrs, l) == FilterKey(y.attrs, l);
    assert l' == Coarse || l' == l;
  }

  lemma PointsAssociate(l: Level, l': Level)
    requires Coarser(l, l')
    ensures Associates(PointOps(l), PointOps(l'), Counted(), CountedRow(l), Any<Point>())
    ensures Commutes(PointOps(l), PointOps(l'), Counted(), CountedRow(l), Any<Point>())
  {
    hide Associates, Commutes;
    PointsMergeMerged(l, l');
    PointsSwap(l, l');
  }

  lemma PointsMergeMerged(l: Level, l': Level)
    requires Coarser(l, l')
    ensures Associates(PointOps(l), PointOps(l'), Counted(), CountedRow(l), Any<Point>())
  {
    hide Add, FilterKey;
    var a, b := PointOps(l), PointOps(l');
    forall r, y | CountedRow(l)(r) && Counted()(y) && a.dkey(r) == a.skey(y)
      ensures b.skey(r) == b.skey(y)
    {
      CoarserKeysAgree(l, l', r, y);
    }
    forall d, r, y | CountedRow(l)(r) && Counted()(y)
      ensures b.merge(d, a.merge(r, y)) == b.merge(b.merge(d, r), y)
    {
      MergesAssociate(l, l', d, r, y);
    }
  }

  lemma PointsSwap(l: Level, l': Level)
    requires Coarser(l, l')
    ensures Commutes(PointOps(l), PointOps(l'), Counted(), CountedRow(l), Any<Point>())
  {
    hide Add, FilterKey;
    var a, b := PointOps(l), PointOps(l');
    forall d, r, y | CountedRow(l)(r) && Counted()(y)
      ensures b.merge(b.merge(d, r), y) == b.merge(b.merge(d, y), r)
    {
      MergesAssociate(l, l', d, r, y);
    }
  }

  lemma MergesAssociate(l: Level, l': Level, d: Point, r: Point, y: Point)
    requires r.value.IntNumber? && y.value.IntNumber?
    ensures var a, b := PointOps(l), PointOps(l');
            && b.merge(d, a.merge(r, y)) == b.merge(b.merge(d, r), y)
            && b.merge(b.merge(d, r), y) == b.merge(b.merge(d, y), r)
  {
    hide Add;
    AddAssociates(d.value, r.value, y.value);
  }

  lemma CountedAnyKeep(l: Level)
    ensures Keeps(PointOps(l), Counted(), Any<Point>())
  {
    PointsKeep(l);
  }

  // ---------------------------------------------------------------------------
  // Metrics
  // ---------------------------------------------------------------------------

  /** Sums and gauges of integer points. */
  ghost function CountedMetric(): Metric -> bool {
    (m: Metric) => m.data.Crashed? || (Summable(m.data) && All(Points(m), Counted()))
  }

  ghost function CountedMetricRow(l: Level): Metric -> bool {
    (m: Metric) => m.data.Crashed? ||
      (Summable(m.data) && DistinctKeys(PointOps(l), Points(m)) && All(Points(m), CountedRow(l)))
  }

  ghost function MetricRow(l: Level): Metric -> bool {
    (m: Metric) => m.data.Crashed? || (Summable(m.data) && DistinctKeys(PointOps(l), Points(m)))
  }

  lemma CountedMetricsKeep(l: Level)
    ensures Keeps(MetricOps(l), CountedMetric(), CountedMetricRow(l))
  {
    var o, v, w := MetricOps(l), CountedMetric(), CountedMetricRow(l);
    MetricsKeep(l);
    forall x | v(x) ensures w(o.start(x)) {
      CountedMerge(l, FreshMetric(x), x);
    }
    forall d, x | w(d) && v(x) ensures w(o.merge(d, x)) {
      CountedMerge(l, d, x);
    }
    KeepsBoth(o, v, w);
  }

  lemma CountedMerge(l: Level, d: Metric, x: Metric)
    requires CountedMetric()(x) && (d.data.EmptyData? || CountedMetricRow(l)(d))
    ensures CountedMetricRow(l)(MergeMetric(d, x, l))
  {
    var m := MergeMetric(d, x, l);
    if !m.data.Crashed? {
      MergedPoints(l, d, x);
      CountedKeep(l);
      MergeKeeps(PointOps(l), Counted(), CountedRow(l), Points(d), Points(x));
    }
  }

  lemma MetricRowsKeep(l: Level)
    ensures Keeps(MetricOps(l), CountedMetric(), MetricRow(l))
  {
    var o, v, w := MetricOps(l), CountedMetric(), MetricRow(l);
    MetricsKeep(l);
    forall x | v(x) ensures w(o.start(x)) {
      RowMerge(l, FreshMetric(x), x);
    }
    forall d, x | w(d) && v(x) ensures w(o.merge(d, x)) {
      RowMerge(l, d, x);
    }
    KeepsBoth(o, v, w);
  }

  lemma RowMerge(l: Level, d: Metric, x: Metric)
    requires CountedMetric()(x) && (d.data.EmptyData? || MetricRow(l)(d))
    ensures MetricRow(l)(MergeMetric(d, x, l))
  {
    var m := MergeMetric(d, x, l);
    if !m.data.Crashed? {
      MergedPoints(l, d, x);
      CountedAnyKeep(l);
      MergeKeeps(PointOps(l), Counted(), Any<Point>(), Points(d), Points(x));
    }
  }

  lemma MetricsBridge(l: Level, l': Level)
    requires Coarser(l, l')
    ensures Bridge(MetricOps(l), MetricOps(l'), CountedMetric(), CountedMetricRow(l), MetricRow(l'))
  {
    hide StartsAgree, Associates, Commutes, Keeps;
    CountedMetricsKeep(l);
    MetricRowsKeep(l');
    MetricStartsAgree(l, l');
    MetricsAssociate(l, l');
    MetricsCommuteVacuously(l, l');
    assert Within(CountedMetricRow(l), CountedMetric());
  }

  lemma MetricStartsAgree(l: Level, l': Level)
    requires Coarser(l, l')
    ensures StartsAgree(MetricOps(l), MetricOps(l'), CountedMetric(), MetricRow(l'))
  {
    hide Merge, MetricRow;
    var a, b := MetricOps(l), MetricOps(l');
    forall x | CountedMetric()(x) ensures b.start(a.start(x)) == b.start(x) {
      StartOfStart(l, l', x);
    }
    forall d, x | MetricRow(l')(d) && CountedMetric()(x) ensures b.merge(d, a.start(x)) == b.merge(d, x) {
      MergeOfStart(l, l', d, x);
    }
    forall x | CountedMetric()(x) ensures b.skey(a.start(x)) == b.skey(x) {
      StartShape(l, x);
    }
  }

  lemma MetricsAssociate(l: Level, l': Level)
    requires Coarser(l, l')
    ensures Associates(MetricOps(l), MetricOps(l'), CountedMetric(), CountedMetricRow(l), MetricRow(l'))
  {
    hide Merge, MetricRow, CountedMetricRow;
    var a, b := MetricOps(l), MetricOps(l');
    forall r, y | CountedMetricRow(l)(r) && CountedMetric()(y) && a.dkey(r) == a.skey(y)
      ensures b.start(a.merge(r, y)) == b.merge(b.start(r), y) && b.skey(a.merge(r, y)) == b.skey(r) == b.skey(y)
    {
      StartOfMerge(l, l', r, y);
    }
    forall d, r, y | MetricRow(l')(d) && CountedMetricRow(l)(r) && CountedMetric()(y) && a.dkey(r) == a.skey(y)
      ensures b.merge(d, a.merge(r, y)) == b.merge(b.merge(d, r), y)
    {
      MergeOfMergedMetric(l, l', d, r, y);
    }
  }

  /** Names do not get coarser, so there is nothing to reorder. */
  lemma MetricsCommuteVacuously(l: Level, l': Level)
    ensures Commutes(MetricOps(l), MetricOps(l'), CountedMetric(), CountedMetricRow(l), MetricRow(l'))
  {
    hide Merge;
  }

  lemma PointLists(l: Level, l': Level, rows: seq<Point>, inner: seq<Point>, xs: seq<Point>)
    requires Coarser(l, l')
    requires DistinctKeys(PointOps(l'), rows)
    requires DistinctKeys(PointOps(l), inner) && All(inner, CountedRow(l)) && All(xs, Counted())
    ensures Merge(PointOps(l'), rows, Merge(PointOps(l), inner, xs)) ==
            Merge(PointOps(l'), Merge(PointOps(l'), rows, inner), xs)
    ensures Merge(PointOps(l'), rows, Merge(PointOps(l), [], xs)) == Merge(PointOps(l'), rows, xs)
  {
    PointsBridge(l, l');
    MergeOfMerge(PointOps(l), PointOps(l'), Counted(), CountedRow(l), Any<Point>(), rows, inner, xs);
  }

  /** Metrics that count are one of these. */
  predicate Solid(d: MetricData) {
    Summable(d) || d.Crashed?
  }

  function WithPoints(m: Metric, ps: seq<Point>): Metric
    requires Summable(m.data)
  {
    if m.data.SumData? then m.(data := SumData(m.data.monotonic, m.data.temporality, ps))
    else m.(data := GaugeData(ps))
  }

  /** How a counting metric absorbs another. */
  function Shape(l: Level, d: Metric, x: Metric): Metric {
    if Summable(d.data) && KindOf(d.data) == KindOf(x.data) then
      WithPoints(d, Merge(PointOps(l), Points(d), Points(x)))
    else d.(data := Crashed)
  }

  lemma MergeShape(l: Level, d: Metric, x: Metric)
    requires Solid(d.data) && Solid(x.data)
    ensures MergeMetric(d, x, l) == Shape(l, d, x) && Solid(Shape(l, d, x).data)
  {
  }

  lemma ShapesAssociate(l: Level, l': Level, d: Metric, r: Metric, y: Metric)
    requires Coarser(l, l') && MetricRow(l')(d) && CountedMetricRow(l)(r) && CountedMetric()(y)
    ensures Shape(l', d, Shape(l, r, y)) == Shape(l', Shape(l', d, r), y)
  {
    hide Merge;
    PointLists(l, l', if Summable(d.data) then Points(d) else [], Points(r), Points(y));
  }

  function Started(l: Level, x: Metric): Metric {
    if Summable(x.data) then WithPoints(x, Merge(PointOps(l), [], Points(x))) else x
  }

  lemma StartShape(l: Level, x: Metric)
    requires Solid(x.data)
    ensures MergeMetric(FreshMetric(x), x, l) == Started(l, x) && Solid(Started(l, x).data)
  {
  }

  lemma StartedShape(l: Level, l': Level, r: Metric, y: Metric)
    requires Coarser(l, l') && CountedMetricRow(l)(r) && CountedMetric()(y)
    ensures Started(l', Shape(l, r, y)) == Shape(l', Started(l', r), y)
  {
    hide Merge;
    PointLists(l, l', [], Points(r), Points(y));
  }

  lemma StartOfStart(l: Level, l': Level, x: Metric)
    requires Coarser(l, l') && CountedMetric()(x)
    ensures MetricOps(l').start(MetricOps(l).start(x)) == MetricOps(l').start(x)
  {
    PointLists(l, l', [], [], Points(x));
    StartShape(l, x);
    StartShape(l', x);
    StartShape(l', MergeMetric(FreshMetric(x), x, l));
  }

  lemma MergeOfStart(l: Level, l': Level, d: Metric, x: Metric)
    requires Coarser(l, l') && MetricRow(l')(d) && CountedMetric()(x)
    ensures MetricOps(l').merge(d, MetricOps(l).start(x)) == MetricOps(l').merge(d, x)
  {
    PointLists(l, l', if Summable(d.data) then Points(d) else [], [], Points(x));
    StartShape(l, x);
    MergeShape(l', d, x);
    MergeShape(l', d, MergeMetric(FreshMetric(x), x, l));
  }

  lemma StartOfMerge(l: Level, l': Level, r: Metric, y: Metric)
    requires Coarser(l, l') && CountedMetricRow(l)(r) && CountedMetric()(y)
    ensures MetricOps(l).merge(r, y).name == r.name
    ensures MetricOps(l').start(MetricOps(l).merge(r, y)) == MetricOps(l').merge(MetricOps(l').start(r), y)
  {
    StartedShape(l, l', r, y);
    MergeShape(l, r, y);
    StartShape(l', Shape(l, r, y));
    StartShape(l', r);
    MergeShape(l', Started(l', r), y);
  }

  lemma MergeOfMergedMetric(l: Level, l': Level, d: Metric, r: Metric, y: Metric)
    requires Coarser(l, l') && MetricRow(l')(d) && CountedMetricRow(l)(r) && CountedMetric()(y)
    ensures MetricOps(l').merge(d, MetricOps(l).merge(r, y)) == MetricOps(l').merge(MetricOps(l').merge(d, r), y)
  {
    ShapesAssociate(l, l', d, r, y);
    MergeShape(l, r, y);
    MergeShape(l', d, Shape(l, r, y));
    MergeShape(l', d, r);
    MergeShape(l', Shape(l', d, r), y);
  }

  // ---------------------------------------------------------------------------
  // Composition
  // ---------------------------------------------------------------------------

  /** Only sums and gauges, only integer points, no allowed attribute repeated. */
  ghost predicate CountedMetrics(ms: Metrics) {
    forall n <- ms :: forall s <- n.items :: All(s.items, CountedMetric())
  }

  lemma RollupOfRollup(l: Level, l': Level, xs: Metrics, ys: Metrics)
    requires Coarser(l, l') && CountedMetrics(xs) && CountedMetrics(ys)
    ensures Merge(ResourceOps(l'), [], Merge(ResourceOps(l), [], xs) + Merge(ResourceOps(l), [], ys)) ==
            Merge(ResourceOps(l'), [], xs + ys)
  {
    var v, u, w := CountedMetric(), CountedMetricRow(l), MetricRow(l');
    MetricsBridge(l, l');
    NestBridges<Scope, Metric>(ScopeKey, MetricOps(l), MetricOps(l'), v, u, w);
    var v1 := Each<Scope, Metric>(v);
    var u1, w1 := EachRow<Scope, Metric>(MetricOps(l), u), EachRow<Scope, Metric>(MetricOps(l'), w);
    NestBridges<Attrs, ScopeOf<Metric>>(AttrKey, ScopeOps(l), ScopeOps(l'), v1, u1, w1);
    var v2, u2, w2 := Each<Attrs, ScopeOf<Metric>>(v1), EachRow<Attrs, ScopeOf<Metric>>(ScopeOps(l), u1),
                      EachRow<Attrs, ScopeOf<Metric>>(ScopeOps(l'), w1);
    assert All(xs, v2) && All(ys, v2);
    AbsorbBoth(ResourceOps(l), ResourceOps(l'), v2, u2, w2, xs, ys);
  }

  lemma AbsorbBoth<T(!new)>(a: Ops<T, T>, b: Ops<T, T>, v: T -> bool, u: T -> bool, w: T -> bool, xs: seq<T>,
      ys: seq<T>)
    requires Bridge(a, b, v, u, w) && All(xs, v) && All(ys, v)
    ensures Merge(b, [], Merge(a, [], xs) + Merge(a, [], ys)) == Merge(b, [], xs + ys)
  {
    var rx, ry := Merge(a, [], xs), Merge(a, [], ys);
    MergeKeeps(a, v, u, [], xs);
    RebuiltMapIsCarriedMap(b, v, w, [], rx, ry);
    MergeOfMerge(a, b, v, u, w, [], [], xs);
    MergeKeeps(b, v, w, [], xs);
    MergeOfMerge(a, b, v, u, w, Merge(b, [], xs), [], ys);
    RebuiltMapIsCarriedMap(b, v, w, [], xs, ys);
  }

  lemma SameRollup(l: Level, ss: seq<Metrics>, ts: seq<Metrics>)
    requires l != Fine && Merge(ResourceOps(l), [], Concat(ss)) == Merge(ResourceOps(l), [], Concat(ts))
    ensures RolledUp(l, true, ss) == RolledUp(l, true, ts)
  {
    hide Merge, HasCrashed;
  }

  lemma RolledUpIsMerge(l: Level, ss: seq<Metrics>, out: Metrics)
    requires l != Fine && RolledUp(l, true, ss) == Some(out)
    ensures out == Merge(ResourceOps(l), [], Concat(ss))
  {
    hide Merge, HasCrashed;
  }

  lemma ConcatOne<T>(x: seq<T>, y: seq<T>)
    ensures Concat([x]) == x && Concat([x, y]) == x + y
  {
    assert [x, y][..1] == [x] && [x][..0] == [];
  }

  /** Rolling up two rollups, at the same level or at Coarse, is rolling up what
      went into them: same groups, same order, same copied fields, same values. */
  lemma RollupComposes(l: Level, l': Level, xs: seq<Metrics>, ys: seq<Metrics>, rx: Metrics, ry: Metrics)
    requires l != Fine && l' != Fine && Coarser(l, l')
    requires CountedMetrics(Concat(xs)) && CountedMetrics(Concat(ys))
    requires RolledUp(l, true, xs) == Some(rx) && RolledUp(l, true, ys) == Some(ry)
    ensures RolledUp(l', true, [rx, ry]) == RolledUp(l', true, xs + ys)
    ensures RolledUp(l', true, [rx]) == RolledUp(l', true, xs)
  {
    hide Merge, RolledUp;
    RolledUpIsMerge(l, xs, rx);
    RolledUpIsMerge(l, ys, ry);
    ConcatOne(rx, ry);
    ConcatOfConcat(xs, ys);
    RollupOfRollup(l, l', Concat(xs), Concat(ys));
    SameRollup(l', [rx, ry], xs + ys);
    RollupOfOne(l, l', Concat(xs));
    SameRollup(l', [rx], xs);
  }

  lemma RollupOfOne(l: Level, l': Level, xs: Metrics)
    requires Coarser(l, l') && CountedMetrics(xs)
    ensures Merge(ResourceOps(l'), [], Merge(ResourceOps(l), [], xs)) == Merge(ResourceOps(l'), [], xs)
  {
    RollupOfRollup(l, l', xs, []);
    assert Merge(ResourceOps(l), [], xs) + Merge(ResourceOps(l), [], []) == Merge(ResourceOps(l), [], xs);
    assert xs + [] == xs;
  }

  // ---------------------------------------------------------------------------
  // Conservation
  // ---------------------------------------------------------------------------

  /** What a list of metrics adds up to under one resource, scope and name. */
  function Weight(ms: Metrics, rk: string, sk: string, name: string): int {
    Sum(IntOf(), PointsOf(ms, rk, sk, name))
  }

  lemma PointsWeigh(l: Level)
    ensures Weighs(PointOps(l), Counted(), CountedRow(l), IntOf(), IntOf())
  {
    hide Congruent, Filtered, FilterKey, AttrKey, CountedRow;
    var o, m := PointOps(l), IntOf();
    forall p | Counted()(p) ensures Congruent(m(o.start(p)), m(p)) {
      SameIsCongruent(AsInt(p.value));
    }
    forall d, p | CountedRow(l)(d) && Counted()(p) ensures Congruent(m(o.merge(d, p)), m(d) + m(p)) {
      AddIsCongruent(d.value, p.value);
    }
  }

  lemma AddIsCongruent(a: Number, b: Number)
    requires b.IntNumber?
    ensures Congruent(AsInt(Add(a, b)), AsInt(a) + AsInt(b))
  {
    hide Wrap64;
    WrapIsCongruent(AsInt(a) + AsInt(b));
  }

  lemma PointsConserved(l: Level, ps: seq<Point>)
    requires All(ps, Counted())
    ensures Congruent(Sum(IntOf(), Merge(PointOps(l), [], ps)), Sum(IntOf(), ps))
  {
    hide PutAll, Congruent;
    CountedKeep(l);
    PointsWeigh(l);
    TotalIsConserved(PointOps(l), Counted(), CountedRow(l), IntOf(), IntOf(), Empty(), ps);
    assert Sum(IntOf(), []) == 0;
  }

  /** A rollup at any level adds up to what went into it, as 64-bit integers. */
  lemma RollupConserves(l: Level, enabled: bool, signals: seq<Metrics>, out: Metrics, rk: string, sk: string,
      name: string)
    requires RolledUp(l, enabled, signals) == Some(out)
    requires All(PointsOf(Concat(signals), rk, sk, name), Counted())
    ensures Congruent(Weight(out, rk, sk, name), Weight(Concat(signals), rk, sk, name))
  {
    var ms := Concat(signals);
    if l == Fine || !enabled {
      SameIsCongruent(Weight(ms, rk, sk, name));
    } else {
      MetricsCommute(l, ms, rk, sk);
      CrashView(out);
      NamedCommutes(l, MetricsOf(ms, rk, sk), name);
      PointsConserved(l, PointsOf(ms, rk, sk, name));
    }
  }
}
