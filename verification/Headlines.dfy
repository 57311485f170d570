/** Whose name, description and unit a rolled-up metric carries. */
module Headlines {
  import opened Keyed
  import opened Pdata
  import opened Filter
  import opened Live
  import opened MetricRollup
  import opened MetricTheorems

  function NameIs(name: string): Metric -> bool {
    (m: Metric) => m.name == name
  }

  /** How many metrics without a type come first. */
  function Untyped(ns: seq<Metric>): (k: nat)
    ensures k <= |ns| && forall i | 0 <= i < k :: ns[i].data.EmptyData?
    ensures k < |ns| ==> !ns[k].data.EmptyData?
  {
    if ns == [] then 0
    else
      var k := Untyped(ns[..|ns| - 1]);
      if k < |ns| - 1 || !ns[k].data.EmptyData? then k else k + 1
  }

  /** A metric that is neither a sum nor a gauge is copied whole, and so is one without
      a type while none with a type has come; otherwise the first of its name counts. */
  function Headline(ns: seq<Metric>): (h: Metric)
    requires ns != []
  {
    var k := Untyped(ns);
    if k < |ns| && !ns[k].data.SumData? && !ns[k].data.GaugeData? then ns[k]
    else if k == 0 then ns[0]
    else ns[k - 1]
  }

  predicate SameHeadline(m: Metric, h: Metric) {
    m.name == h.name && m.description == h.description && m.unit == h.unit
  }

  lemma {:induction false} RowHasHeadline(l: Level, ms: seq<Metric>, name: string)
    requires !Some1(ms, CrashedMetric())
    ensures var g, ns := Group(MetricOps(l), ms, name), Keep(NameIs(name), ms);
            && (g.None? <==> ns == [])
            && (g.Some? ==> SameHeadline(g.value, Headline(ns)) && (g.value.data.EmptyData? <==> Untyped(ns) == |ns|))
  {
    hide Merge, MergeMetric, Headline, Untyped;
    if ms == [] {
      assert Untyped([]) == 0;
    } else {
      var init, x := ms[..|ms| - 1], ms[|ms| - 1];
      RowHasHeadline(l, init, name);
      assert !CrashedMetric()(x) && ms == init + [x];
      KeepSnoc(NameIs(name), init, x);
      var ns := Keep(NameIs(name), init);
      if x.name == name {
        var g := Group(MetricOps(l), init, name);
        HeadlineGrows(ns, x);
        MergedHeadline(l, if g.None? then FreshMetric(x) else g.value, x);
      } else {
        assert ns + [] == ns;
      }
    }
  }

  lemma HeadlineGrows(ns: seq<Metric>, x: Metric)
    ensures Untyped(ns + [x]) == if Untyped(ns) == |ns| && x.data.EmptyData? then |ns| + 1 else Untyped(ns)
    ensures Headline(ns + [x]) ==
            if ns == [] || (Untyped(ns) == |ns| && !x.data.SumData? && !x.data.GaugeData?) then x else Headline(ns)
  {
    assert (ns + [x])[..|ns|] == ns;
  }

  /** Only what is neither a sum nor a gauge brings its headline, and only to a metric
      without a type. */
  lemma MergedHeadline(l: Level, d: Metric, x: Metric)
    requires !x.data.Crashed?
    ensures var m := MergeMetric(d, x, l);
            && SameHeadline(m, if d.data.EmptyData? && !x.data.SumData? && !x.data.GaugeData? then x else d)
            && (m.data.EmptyData? <==> d.data.EmptyData? && x.data.EmptyData?)
  {
    hide Merge;
  }

  /** Each rolled-up metric carries the name, description and unit of that metric among
      those of its name in the input. */
  lemma HeadlinesAreFirst(l: Level, signals: seq<Metrics>, out: Metrics, rk: string, sk: string)
    requires l != Fine && RolledUp(l, true, signals) == Some(out) && forall ms <- signals :: !HasCrashed(ms)
    ensures forall m <- MetricsOf(out, rk, sk) ::
              var ns := Keep(NameIs(m.name), MetricsOf(Concat(signals), rk, sk));
              ns != [] && SameHeadline(m, Headline(ns))
  {
    hide Merge, MetricOps, MetricsOf, Keep, Headline;
    var ms := MetricsOf(Concat(signals), rk, sk);
    var o, to := MetricOps(l), MetricsOf(out, rk, sk);
    NoneCrashed(signals);
    NotCrashedView(Concat(signals), rk, sk);
    MetricsCommute(l, Concat(signals), rk, sk);
    MetricsKeep(l);
    TableIsGroupBy(o, Any<Metric>(), Any<Metric>(), ms);
    forall m | m in to
      ensures var ns := Keep(NameIs(m.name), ms); ns != [] && SameHeadline(m, Headline(ns))
    {
      var i :| 0 <= i < |to| && to[i] == m;
      NamesAreKeys(l, m);
      RowHasHeadline(l, ms, m.name);
    }
  }
}
