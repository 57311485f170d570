/** What a group of points of different value types adds up to. */
module MixedTotals {
  import opened Int64
  import opened Keyed
  import opened Measure
  import opened Pdata
  import opened Filter
  import opened MetricRollup
  import opened MetricTheorems

  function RealSum(ps: seq<Point>): real {
    if ps == [] then 0.0 else RealSum(ps[..|ps| - 1]) + AsDouble(ps[|ps| - 1].value)
  }

  lemma {:induction false} RealSumConcat(ps: seq<Point>, qs: seq<Point>)
    ensures RealSum(ps + qs) == RealSum(ps) + RealSum(qs)
  {
    if qs == [] {
      assert ps + qs == ps;
    } else {
      assert (ps + qs)[..|ps + qs| - 1] == ps + qs[..|qs| - 1];
      RealSumConcat(ps, qs[..|qs| - 1]);
    }
  }

  /** Where the last run of integers, or of points that are not, begins. */
  function RunStart(ps: seq<Point>): (i: nat)
    requires ps != []
    ensures i < |ps| && forall j | i <= j < |ps| :: IntPoint(ps[j]) == IntPoint(ps[|ps| - 1])
    ensures i > 0 ==> IntPoint(ps[i - 1]) != IntPoint(ps[|ps| - 1])
  {
    var n := |ps| - 1;
    if n > 0 && IntPoint(ps[n]) == IntPoint(ps[n - 1]) then RunStart(ps[..n]) else n
  }

  /** The mirror of the integer case: after an integer, only the doubles of the last
      run count. */
  lemma {:induction false} TotalIsLastRunOfDoubles(ps: seq<Point>, i: nat)
    requires i < |ps|
    requires forall j | i <= j < |ps| :: !IntPoint(ps[j])
    requires i > 0 ==> IntPoint(ps[i - 1])
    ensures !Total(ps).IntNumber? && AsDouble(Total(ps)) == RealSum(ps[i..])
    ensures |ps| > 1 || ps[0].value.DoubleNumber? ==> Total(ps) == DoubleNumber(RealSum(ps[i..]))
  {
    var init, p := ps[..|ps| - 1], ps[|ps| - 1];
    assert ps[i..][..|ps| - 1 - i] == init[i..];
    assert RealSum(ps[i..]) == RealSum(init[i..]) + AsDouble(p.value);
    if i < |ps| - 1 {
      TotalIsLastRunOfDoubles(init, i);
    } else {
      assert init[i..] == [];
      if i > 0 {
        EndsInInt(init);
      }
    }
  }

  lemma EndsInInt(ps: seq<Point>)
    requires ps != [] && IntPoint(ps[|ps| - 1])
    ensures Total(ps).IntNumber?
  {
  }

  lemma {:induction false} IntsHaveNoReal(ps: seq<Point>)
    requires forall p <- ps :: IntPoint(p)
    ensures RealSum(ps) == 0.0
  {
    if ps != [] {
      assert ps[|ps| - 1] in ps && forall p <- ps[..|ps| - 1] :: p in ps;
      IntsHaveNoReal(ps[..|ps| - 1]);
    }
  }

  lemma {:induction false} OthersHaveNoInt(ps: seq<Point>)
    requires forall p <- ps :: !IntPoint(p)
    ensures Sum(IntOf(), ps) == 0
  {
    if ps != [] {
      assert ps[|ps| - 1] in ps && forall p <- ps[..|ps| - 1] :: p in ps;
      OthersHaveNoInt(ps[..|ps| - 1]);
    }
  }

  /** The number holds the sum of all the integers, as a 64-bit integer, and of all
      the doubles. */
  ghost predicate Counts(n: Number, ps: seq<Point>) {
    Congruent(AsInt(n), Sum(IntOf(), ps)) && AsDouble(n) == RealSum(ps)
  }

  /** What comes before the last run adds up to nothing. */
  ghost predicate NothingBeforeRun(ps: seq<Point>)
    requires ps != []
  {
    var before := ps[..RunStart(ps)];
    Congruent(Sum(IntOf(), before), 0) && RealSum(before) == 0.0
  }

  lemma CongruentDifference(a: int, b: int)
    ensures Congruent(b, a + b) <==> Congruent(a, 0)
  {
    if Congruent(a, 0) {
      SameIsCongruent(b);
      CongruentSums(a, 0, b, b);
      CongruentSymmetric(a + b, b);
    }
    if Congruent(b, a + b) {
      var k :| Shifted(b, a + b, k);
      assert Shifted(a, 0, -k);
    }
  }

  /** The total counts every point if and only if what comes before the last run adds
      up to nothing. */
  lemma TotalCountsEveryPointIff(ps: seq<Point>)
    requires ps != []
    ensures Counts(Total(ps), ps) <==> NothingBeforeRun(ps)
  {
    hide Congruent, Total, Wrap64;
    var i := RunStart(ps);
    var before, run := ps[..i], ps[i..];
    assert ps == before + run;
    SumConcat(IntOf(), before, run);
    RealSumConcat(before, run);
    forall p | p in run ensures IntPoint(p) == IntPoint(ps[|ps| - 1]) {
      var j :| 0 <= j < |run| && run[j] == p;
      assert run[j] == ps[i + j];
    }
    CongruentDifference(Sum(IntOf(), before), Sum(IntOf(), run));
    if IntPoint(ps[|ps| - 1]) {
      TotalIsLastRun(ps, i);
      IntsHaveNoReal(run);
      SameReading(Sum(IntOf(), run), Sum(IntOf(), ps));
    } else {
      TotalIsLastRunOfDoubles(ps, i);
      OthersHaveNoInt(run);
    }
  }

  /** A sum and its 64-bit reading are congruent to the same numbers. */
  lemma SameReading(a: int, b: int)
    ensures Congruent(Wrap64(a), b) <==> Congruent(a, b)
  {
    WrapIsCongruent(a);
    if Congruent(a, b) {
      CongruentTransitive(Wrap64(a), a, b);
    }
    if Congruent(Wrap64(a), b) {
      CongruentSymmetric(Wrap64(a), a);
      CongruentTransitive(a, Wrap64(a), b);
    }
  }

  /** With an integer run at the end, the total is that of all the integers if and only
      if those before the run add up to nothing. */
  lemma IntegerTotalCountsIntegersIff(ps: seq<Point>, i: nat)
    requires i < |ps|
    requires forall j | i <= j < |ps| :: IntPoint(ps[j])
    requires i > 0 ==> !IntPoint(ps[i - 1])
    ensures Total(ps) == IntNumber(Wrap64(Sum(IntOf(), ps))) <==> Congruent(Sum(IntOf(), ps[..i]), 0)
  {
    hide Congruent, Total, Wrap64;
    TotalIsLastRun(ps, i);
    assert ps == ps[..i] + ps[i..];
    SumConcat(IntOf(), ps[..i], ps[i..]);
    CongruentDifference(Sum(IntOf(), ps[..i]), Sum(IntOf(), ps[i..]));
    CongruentMeansSameBits(Sum(IntOf(), ps[i..]), Sum(IntOf(), ps));
  }

  // ---------------------------------------------------------------------------
  // By type alone
  // ---------------------------------------------------------------------------

  predicate SameType(a: Number, b: Number) {
    a.IntNumber? == b.IntNumber? && a.DoubleNumber? == b.DoubleNumber?
  }

  predicate SameTypes(ps: seq<Point>, qs: seq<Point>) {
    |ps| == |qs| && forall i | 0 <= i < |ps| :: SameType(ps[i].value, qs[i].value)
  }

  /** No integer comes before a point that is not one, and no double before an
      integer. */
  predicate Settled(ps: seq<Point>) {
    forall i, j | 0 <= i < j < |ps| ::
      && (ps[i].value.IntNumber? ==> ps[j].value.IntNumber?)
      && (ps[i].value.DoubleNumber? ==> !ps[j].value.IntNumber?)
  }

  predicate OneType(ps: seq<Point>) {
    (forall p <- ps :: p.value.IntNumber?) || (forall p <- ps :: p.value.DoubleNumber?)
  }

  /** Among points that all have a value, that means one value type. */
  lemma SettledMeansOneType(ps: seq<Point>)
    requires forall p <- ps :: p.value.IntNumber? || p.value.DoubleNumber?
    ensures Settled(ps) <==> OneType(ps)
  {
    if Settled(ps) && ps != [] {
      forall p | p in ps ensures SameType(p.value, ps[0].value) {
        var i :| 0 <= i < |ps| && ps[i] == p;
        assert ps[0] in ps;
      }
    }
    if OneType(ps) {
      assert forall i | 0 <= i < |ps| :: ps[i] in ps;
    }
  }

  lemma {:induction false} EmptyPointsAddNothing(ps: seq<Point>)
    requires forall p <- ps :: p.value.NoNumber?
    ensures Sum(IntOf(), ps) == 0 && RealSum(ps) == 0.0
  {
    if ps != [] {
      assert ps[|ps| - 1] in ps && forall p <- ps[..|ps| - 1] :: p in ps;
      EmptyPointsAddNothing(ps[..|ps| - 1]);
    }
  }

  lemma SettledCounts(ps: seq<Point>)
    requires ps != [] && Settled(ps)
    ensures Counts(Total(ps), ps)
  {
    hide Counts, Total;
    var i := RunStart(ps);
    forall p | p in ps[..i] ensures p.value.NoNumber? {
      var j :| 0 <= j < i && ps[j] == p;
      assert j == i - 1 || j < i - 1;
    }
    EmptyPointsAddNothing(ps[..i]);
    SameIsCongruent(0);
    TotalCountsEveryPointIff(ps);
  }

  function Zero(n: Number): Number {
    match n
    case NoNumber => NoNumber
    case IntNumber(_) => IntNumber(0)
    case DoubleNumber(_) => DoubleNumber(0.0)
  }

  function Zeroed(ps: seq<Point>): (r: seq<Point>)
    ensures |r| == |ps| && forall i | 0 <= i < |ps| :: r[i] == ps[i].(value := Zero(ps[i].value))
  {
    seq(|ps|, i requires 0 <= i < |ps| => ps[i].(value := Zero(ps[i].value)))
  }

  lemma {:induction false} ZerosAddNothing(ps: seq<Point>)
    requires forall i | 0 <= i < |ps| :: ps[i].value == Zero(ps[i].value)
    ensures Sum(IntOf(), ps) == 0 && RealSum(ps) == 0.0
  {
    if ps != [] {
      ZerosAddNothing(ps[..|ps| - 1]);
    }
  }

  lemma RealSumUpdate(ps: seq<Point>, i: nat, p: Point)
    requires i < |ps|
    ensures RealSum(ps[i := p]) == RealSum(ps) - AsDouble(ps[i].value) + AsDouble(p.value)
  {
    assert ps == ps[..i] + [ps[i]] + ps[i + 1..];
    assert ps[i := p] == ps[..i] + [p] + ps[i + 1..];
    RealSumConcat(ps[..i] + [ps[i]], ps[i + 1..]);
    RealSumConcat(ps[..i] + [p], ps[i + 1..]);
    RealSumConcat(ps[..i], [ps[i]]);
    RealSumConcat(ps[..i], [p]);
  }

  /** One where `ps` has an integer or a double, zero elsewhere. */
  function OneAt(ps: seq<Point>, k: nat): seq<Point>
    requires k < |ps|
  {
    Zeroed(ps)[k := ps[k].(value := if ps[k].value.IntNumber? then IntNumber(1) else DoubleNumber(1.0))]
  }

  lemma {:induction false} SameRunStart(ps: seq<Point>, qs: seq<Point>)
    requires ps != [] && SameTypes(ps, qs)
    ensures RunStart(ps) == RunStart(qs)
  {
    var n := |ps| - 1;
    if n > 0 && IntPoint(ps[n]) == IntPoint(ps[n - 1]) {
      SameRunStart(ps[..n], qs[..n]);
    }
  }

  lemma OneAddsOne(ps: seq<Point>, i: nat, k: nat)
    requires k < i <= |ps| && !ps[k].value.NoNumber?
    ensures var before := OneAt(ps, k)[..i];
            Sum(IntOf(), before) == (if ps[k].value.IntNumber? then 1 else 0)
            && RealSum(before) == if ps[k].value.IntNumber? then 0.0 else 1.0
  {
    hide Sum, RealSum;
    var qs, zeros := OneAt(ps, k), Zeroed(ps)[..i];
    assert qs[..i] == zeros[k := qs[k]];
    ZerosAddNothing(zeros);
    SumUpdate(IntOf(), zeros, k, qs[k]);
    RealSumUpdate(zeros, k, qs[k]);
  }

  lemma OneHasSameTypes(ps: seq<Point>, k: nat)
    requires k < |ps| && !ps[k].value.NoNumber?
    ensures SameTypes(ps, OneAt(ps, k)) && |OneAt(ps, k)| == |ps|
  {
  }

  lemma OneBeforeRunIsLost(ps: seq<Point>, k: nat)
    requires ps != [] && k < RunStart(ps) && !ps[k].value.NoNumber?
    ensures SameTypes(ps, OneAt(ps, k)) && |OneAt(ps, k)| > 0 && !Counts(Total(OneAt(ps, k)), OneAt(ps, k))
  {
    hide Counts, Total, RunStart, Sum, RealSum, Congruent, OneAt, SameTypes;
    var qs := OneAt(ps, k);
    OneHasSameTypes(ps, k);
    SameRunStart(ps, qs);
    OneAddsOne(ps, RunStart(ps), k);
    OneIsNotZero();
    TotalCountsEveryPointIff(qs);
  }

  lemma OneIsNotZero()
    ensures !Congruent(1, 0)
  {
    CongruentMeansSameBits(1, 0);
  }

  /** For all values of the given types the total counts every point, if and only if
      no integer comes before a point that is not one and no double before an integer. */
  lemma TypesCountIffSettled(ps: seq<Point>)
    requires ps != []
    ensures (forall qs | SameTypes(ps, qs) :: Counts(Total(qs), qs)) <==> Settled(ps)
  {
    hide Counts, Total, RunStart;
    if Settled(ps) {
      forall qs | SameTypes(ps, qs) ensures Counts(Total(qs), qs) {
        SettledCounts(qs);
      }
    } else {
      var k := Unsettled(ps);
      OneBeforeRunIsLost(ps, k);
    }
  }

  lemma Unsettled(ps: seq<Point>) returns (k: nat)
    requires ps != [] && !Settled(ps)
    ensures k < RunStart(ps) && !ps[k].value.NoNumber?
  {
    var i, j :| 0 <= i < j < |ps| && !(
      && (ps[i].value.IntNumber? ==> ps[j].value.IntNumber?)
      && (ps[i].value.DoubleNumber? ==> !ps[j].value.IntNumber?));
    k := i;
  }

  /** Five and two, as an integer and a double: the integer is gone. */
  lemma MixedPointsLose(attrs: Attrs, info: PointInfo)
    ensures var ps := [Point(attrs, IntNumber(5), info), Point(attrs, DoubleNumber(2.0), info)];
            Total(ps) == DoubleNumber(2.0) && !Counts(Total(ps), ps)
  {
    var five, two := Point(attrs, IntNumber(5), info), Point(attrs, DoubleNumber(2.0), info);
    var ps := [five, two];
    assert ps[..1] == [five] && [five][..0] == [];
    assert Sum(IntOf(), [five]) == 5 && [two][..0] == [] && Sum(IntOf(), [two]) == 0 && ps == [five] + [two];
    SumConcat(IntOf(), [five], [two]);
    CongruentMeansSameBits(0, 5);
  }

  // ---------------------------------------------------------------------------
  // In a rollup
  // ---------------------------------------------------------------------------

  /** Each point of a rollup counts every point of its group if and only if what comes
      before the group's last run adds up to nothing; whatever the values, if the
      group's types are settled. */
  lemma RolledUpPointsCountIff(l: Level, signals: seq<Metrics>, out: Metrics, rk: string, sk: string, name: string)
    requires l != Fine && RolledUp(l, true, signals) == Some(out)
    requires All(PointsOf(Concat(signals), rk, sk, name), Unique())
    ensures forall p <- PointsOf(out, rk, sk, name) ::
              var group := Select(l, PointsOf(Concat(signals), rk, sk, name), AttrKey(p.attrs));
              && group != [] && (Counts(p.value, group) <==> NothingBeforeRun(group))
              && (Settled(group) ==> Counts(p.value, group))
  {
    hide Counts, Total, RunStart, NothingBeforeRun, Settled, Select, PointsOf, RolledUp, Distinct, MapKeys;
    RollupIsFlatGroupBy(l, signals, out, rk, sk, name);
    var from := PointsOf(Concat(signals), rk, sk, name);
    forall p | p in PointsOf(out, rk, sk, name)
      ensures var group := Select(l, from, AttrKey(p.attrs));
              && group != [] && (Counts(p.value, group) <==> NothingBeforeRun(group))
              && (Settled(group) ==> Counts(p.value, group))
    {
      var group := Select(l, from, AttrKey(p.attrs));
      TotalCountsEveryPointIff(group);
      if Settled(group) {
        SettledCounts(group);
      }
    }
  }
}
