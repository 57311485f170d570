/** 64-bit integers, on which additions wrap around. */
module Int64 {
  const TWO_63: int := 0x8000_0000_0000_0000
  const TWO_64: int := 0x1_0000_0000_0000_0000

  type int64 = i: int | -TWO_63 <= i < TWO_63
  type uint64 = i: int | 0 <= i < TWO_64

  /** Two's-complement reading of the low 64 bits. */
  function Wrap64(n: int): int64
    decreases if n < -TWO_63 then -n else if n >= TWO_63 then n else 0
  {
    if n < -TWO_63 then Wrap64(n + TWO_64)
    else if n >= TWO_63 then Wrap64(n - TWO_64)
    else n
  }

  predicate Shifted(a: int, b: int, k: int) {
    a == b + k * TWO_64
  }

  /** Equal as 64-bit integers. */
  ghost predicate Congruent(a: int, b: int) {
    exists k :: Shifted(a, b, k)
  }

  lemma {:induction false} WrapIsCongruent(n: int)
    ensures Congruent(Wrap64(n), n)
    decreases if n < -TWO_63 then -n else if n >= TWO_63 then n else 0
  {
    if n < -TWO_63 {
      WrapIsCongruent(n + TWO_64);
      var k :| Shifted(Wrap64(n), n + TWO_64, k);
      assert Shifted(Wrap64(n), n, k + 1);
    } else if n >= TWO_63 {
      WrapIsCongruent(n - TWO_64);
      var k :| Shifted(Wrap64(n), n - TWO_64, k);
      assert Shifted(Wrap64(n), n, k - 1);
    } else {
      assert Shifted(n, n, 0);
    }
  }

  lemma CongruentMeansSameBits(a: int, b: int)
    ensures Congruent(a, b) <==> Wrap64(a) == Wrap64(b)
  {
    WrapIsCongruent(a);
    WrapIsCongruent(b);
    var x, y := Wrap64(a), Wrap64(b);
    if Congruent(a, b) {
      CongruentTransitive(x, a, b);
      CongruentSymmetric(y, b);
      CongruentTransitive(x, b, y);
      var k :| Shifted(x, y, k);
      assert k == 0;
    }
    if x == y {
      CongruentSymmetric(x, a);
      CongruentTransitive(a, x, b);
    }
  }

  lemma WrapSum(a: int, b: int)
    ensures Wrap64(Wrap64(a) + b) == Wrap64(a + b)
  {
    WrapIsCongruent(a);
    SameIsCongruent(b);
    CongruentSums(Wrap64(a), a, b, b);
    CongruentMeansSameBits(Wrap64(a) + b, a + b);
  }

  lemma SameIsCongruent(a: int)
    ensures Congruent(a, a)
  {
    assert Shifted(a, a, 0);
  }

  lemma CongruentSums(a: int, b: int, c: int, d: int)
    requires Congruent(a, b) && Congruent(c, d)
    ensures Congruent(a + c, b + d)
  {
    var k, l :| Shifted(a, b, k) && Shifted(c, d, l);
    assert Shifted(a + c, b + d, k + l);
  }

  lemma CongruentTransitive(a: int, b: int, c: int)
    requires Congruent(a, b) && Congruent(b, c)
    ensures Congruent(a, c)
  {
    var k, l :| Shifted(a, b, k) && Shifted(b, c, l);
    assert Shifted(a, c, k + l);
  }

  lemma CongruentSymmetric(a: int, b: int)
    requires Congruent(a, b)
    ensures Congruent(b, a)
  {
    var k :| Shifted(a, b, k);
    assert Shifted(b, a, -k);
  }
}

/** What a table's rows weigh together. */
module Measure {
  import opened Int64
  import opened Keyed

  function Sum<T>(m: T -> int, xs: seq<T>): int {
    if xs == [] then 0 else Sum(m, xs[..|xs| - 1]) + m(xs[|xs| - 1])
  }

  lemma {:induction false} SumConcat<T>(m: T -> int, xs: seq<T>, ys: seq<T>)
    ensures Sum(m, xs + ys) == Sum(m, xs) + Sum(m, ys)
  {
    if ys == [] {
      assert xs + ys == xs;
    } else {
      assert (xs + ys)[..|xs + ys| - 1] == xs + ys[..|ys| - 1];
      SumConcat(m, xs, ys[..|ys| - 1]);
    }
  }

  lemma SumUpdate<T>(m: T -> int, xs: seq<T>, i: nat, x: T)
    requires i < |xs|
    ensures Sum(m, xs[i := x]) == Sum(m, xs) - m(xs[i]) + m(x)
  {
    assert xs == xs[..i] + [xs[i]] + xs[i + 1..];
    assert xs[i := x] == xs[..i] + [x] + xs[i + 1..];
    SumConcat(m, xs[..i] + [xs[i]], xs[i + 1..]);
    SumConcat(m, xs[..i] + [x], xs[i + 1..]);
    SumConcat(m, xs[..i], [xs[i]]);
    SumConcat(m, xs[..i], [x]);
  }

  /** `m` weighs items and `mu` rows; a row weighs what was put into it. */
  ghost predicate Weighs<S(!new), D(!new)>(o: Ops<S, D>, v: S -> bool, w: D -> bool, m: S -> int, mu: D -> int) {
    && (forall x {:trigger o.start(x)} | v(x) :: Congruent(mu(o.start(x)), m(x)))
    && (forall d, x {:trigger o.merge(d, x)} | w(d) && v(x) && o.dkey(d) == o.skey(x) ::
          Congruent(mu(o.merge(d, x)), mu(d) + m(x)))
  }

  /** Nothing is lost and nothing is counted twice. */
  lemma {:induction false} TotalIsConserved<S(!new), D(!new)>(o: Ops<S, D>, v: S -> bool, w: D -> bool,
      m: S -> int, mu: D -> int, t: Table<D>, xs: seq<S>)
    requires Keeps(o, v, w) && Weighs(o, v, w, m, mu)
    requires Indexed(o, t) && All(t.rows, w) && All(xs, v)
    ensures Congruent(Sum(mu, PutAll(o, t, xs).rows), Sum(mu, t.rows) + Sum(m, xs))
  {
    var before, after := Sum(mu, t.rows), Sum(mu, PutAll(o, t, xs).rows);
    if xs == [] {
      SameIsCongruent(before);
    } else {
      var init, x := xs[..|xs| - 1], xs[|xs| - 1];
      TotalIsConserved(o, v, w, m, mu, t, init);
      PutAllKeeps(o, v, w, t, init);
      var s := PutAll(o, t, init);
      WeighOne(o, v, w, m, mu, s, x);
      SameIsCongruent(m(x));
      CongruentSums(Sum(mu, s.rows), before + Sum(m, init), m(x), m(x));
      assert before + Sum(m, init) + m(x) == before + Sum(m, xs);
      CongruentTransitive(after, Sum(mu, s.rows) + m(x), before + Sum(m, xs));
    }
  }

  lemma WeighOne<S(!new), D(!new)>(o: Ops<S, D>, v: S -> bool, w: D -> bool, m: S -> int, mu: D -> int, t: Table<D>,
      x: S)
    requires Weighs(o, v, w, m, mu) && Indexed(o, t) && All(t.rows, w) && v(x)
    ensures Congruent(Sum(mu, Put(o, t, x).rows), Sum(mu, t.rows) + m(x))
  {
    if o.skey(x) in t.index {
      var i := t.index[o.skey(x)];
      assert w(t.rows[i]);
      var r := o.merge(t.rows[i], x);
      SumUpdate(mu, t.rows, i, r);
      SameIsCongruent(Sum(mu, t.rows) - mu(t.rows[i]));
      CongruentSums(mu(r), mu(t.rows[i]) + m(x), Sum(mu, t.rows) - mu(t.rows[i]), Sum(mu, t.rows) - mu(t.rows[i]));
    } else {
      assert (t.rows + [o.start(x)])[..|t.rows|] == t.rows;
      SameIsCongruent(Sum(mu, t.rows));
      CongruentSums(mu(o.start(x)), m(x), Sum(mu, t.rows), Sum(mu, t.rows));
    }
  }
}
