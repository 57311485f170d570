/** When one table is fed the rows of another instead of the items behind them. */
module Absorb {
  import opened Keyed

  /** A row started by `a` reads, to `b`, like the item that started it. */
  ghost predicate StartsAgree<T(!new)>(a: Ops<T, T>, b: Ops<T, T>, v: T -> bool, w: T -> bool) {
    && (forall x {:trigger a.start(x)} | v(x) :: b.skey(a.start(x)) == b.skey(x) && b.start(a.start(x)) == b.start(x))
    && (forall d, x {:trigger b.merge(d, a.start(x))} | w(d) && v(x) :: b.merge(d, a.start(x)) == b.merge(d, x))
  }

  /** A row merged by `a` reads, to `b`, like its two parts one after the other. */
  ghost predicate Associates<T(!new)>(a: Ops<T, T>, b: Ops<T, T>, v: T -> bool, u: T -> bool, w: T -> bool) {
    && (forall r, y {:trigger a.merge(r, y)} | u(r) && v(y) && a.dkey(r) == a.skey(y) ::
          && b.skey(a.merge(r, y)) == b.skey(r) == b.skey(y)
          && b.start(a.merge(r, y)) == b.merge(b.start(r), y))
    && (forall d, r, y {:trigger b.merge(d, a.merge(r, y))} | w(d) && u(r) && v(y) && a.dkey(r) == a.skey(y) ::
          b.merge(d, a.merge(r, y)) == b.merge(b.merge(d, r), y))
  }

  /** Rows that `a` keeps apart and `b` does not may be merged in either order. */
  ghost predicate Commutes<T(!new)>(a: Ops<T, T>, b: Ops<T, T>, v: T -> bool, u: T -> bool, w: T -> bool) {
    forall d, z, y {:trigger b.merge(b.merge(d, z), y)} |
      w(d) && u(z) && v(y) && a.dkey(z) != a.skey(y) && b.skey(z) == b.skey(y) ::
      b.merge(b.merge(d, z), y) == b.merge(b.merge(d, y), z)
  }

  ghost predicate Within<T(!new)>(u: T -> bool, v: T -> bool) {
    forall r {:trigger u(r)} | u(r) :: v(r)
  }

  /** `a` is the inner level of detail and `b` the outer, equal or coarser, one.
      `v` holds of acceptable items, `u` of rows of `a`, `w` of rows of `b`. */
  ghost predicate Bridge<T(!new)>(a: Ops<T, T>, b: Ops<T, T>, v: T -> bool, u: T -> bool, w: T -> bool) {
    && Keeps(a, v, u) && Keeps(b, v, w) && Within(u, v)
    && StartsAgree(a, b, v, w) && Associates(a, b, v, u, w) && Commutes(a, b, v, u, w)
  }

  /** An item whose key is already present may overtake rows of other inner keys. */
  lemma {:induction false} PutOvertakes<T(!new)>(a: Ops<T, T>, b: Ops<T, T>, v: T -> bool, u: T -> bool, w: T -> bool,
      t: Table<T>, y: T, zs: seq<T>)
    requires Bridge(a, b, v, u, w) && Indexed(b, t) && All(t.rows, w)
    requires v(y) && b.skey(y) in t.index
    requires forall z <- zs :: u(z) && a.dkey(z) != a.skey(y)
    ensures PutAll(b, Put(b, t, y), zs) == Put(b, PutAll(b, t, zs), y)
    ensures b.skey(y) in PutAll(b, t, zs).index
  {
    if zs != [] {
      var n := |zs| - 1;
      PutOvertakes(a, b, v, u, w, t, y, zs[..n]);
      PutAllKeeps(b, v, w, t, zs[..n]);
      OvertakeOne(a, b, v, u, w, PutAll(b, t, zs[..n]), y, zs[n]);
    }
  }

  lemma OvertakeOne<T(!new)>(a: Ops<T, T>, b: Ops<T, T>, v: T -> bool, u: T -> bool, w: T -> bool,
      t: Table<T>, y: T, z: T)
    requires Bridge(a, b, v, u, w) && Indexed(b, t) && All(t.rows, w)
    requires v(y) && b.skey(y) in t.index
    requires u(z) && a.dkey(z) != a.skey(y)
    ensures Put(b, Put(b, t, y), z) == Put(b, Put(b, t, z), y)
  {
    var i := t.index[b.skey(y)];
    var d := t.rows[i];
    assert w(d);
    if b.skey(z) == b.skey(y) {
      assert b.merge(b.merge(d, z), y) == b.merge(b.merge(d, y), z);
      assert Put(b, Put(b, t, y), z).rows == t.rows[i := b.merge(b.merge(d, y), z)];
      assert Put(b, Put(b, t, z), y).rows == t.rows[i := b.merge(b.merge(d, z), y)];
    } else if b.skey(z) in t.index {
      var j := t.index[b.skey(z)];
      assert i != j;
      assert Put(b, Put(b, t, y), z).rows == Put(b, Put(b, t, z), y).rows;
    } else {
      assert Put(b, Put(b, t, y), z).rows == Put(b, Put(b, t, z), y).rows;
    }
  }

  /** Feeding the outer table the rows of the inner one, after items `xs` were put
      into it, is feeding it the old inner rows and then the items themselves. */
  lemma {:induction false} Absorbs<T(!new)>(a: Ops<T, T>, b: Ops<T, T>, v: T -> bool, u: T -> bool, w: T -> bool,
      t: Table<T>, s: Table<T>, xs: seq<T>)
    requires Bridge(a, b, v, u, w)
    requires Indexed(b, t) && All(t.rows, w)
    requires Indexed(a, s) && All(s.rows, u) && All(xs, v)
    ensures PutAll(b, t, PutAll(a, s, xs).rows) == PutAll(b, PutAll(b, t, s.rows), xs)
  {
    if xs != [] {
      var n := |xs| - 1;
      Absorbs(a, b, v, u, w, t, s, xs[..n]);
      PutAllKeeps(a, v, u, s, xs[..n]);
      AbsorbsOne(a, b, v, u, w, t, PutAll(a, s, xs[..n]), xs[n]);
    }
  }

  lemma AbsorbsOne<T(!new)>(a: Ops<T, T>, b: Ops<T, T>, v: T -> bool, u: T -> bool, w: T -> bool,
      t: Table<T>, s: Table<T>, y: T)
    requires Bridge(a, b, v, u, w)
    requires Indexed(b, t) && All(t.rows, w)
    requires Indexed(a, s) && All(s.rows, u) && v(y)
    ensures PutAll(b, t, Put(a, s, y).rows) == Put(b, PutAll(b, t, s.rows), y)
  {
    if a.skey(y) in s.index {
      var i := s.index[a.skey(y)];
      OtherRows(a, u, s, i);
      PutExisting(a, s, y);
      AbsorbsAtRow(a, b, v, u, w, t, s.rows[..i], s.rows[i], s.rows[i + 1..], y);
    } else {
      PutAllKeeps(b, v, w, t, s.rows);
      StartedRow(a, b, v, u, w, PutAll(b, t, s.rows), y);
      assert (s.rows + [a.start(y)])[..|s.rows|] == s.rows;
    }
  }

  lemma StartedRow<T(!new)>(a: Ops<T, T>, b: Ops<T, T>, v: T -> bool, u: T -> bool, w: T -> bool, t: Table<T>, y: T)
    requires Bridge(a, b, v, u, w) && Indexed(b, t) && All(t.rows, w) && v(y)
    ensures Put(b, t, a.start(y)) == Put(b, t, y)
  {
    if b.skey(y) in t.index {
      var d := t.rows[t.index[b.skey(y)]];
      assert w(d);
      assert b.merge(d, a.start(y)) == b.merge(d, y);
    }
  }

  lemma PutExisting<T(!new)>(a: Ops<T, T>, s: Table<T>, y: T)
    requires Bounded(s) && a.skey(y) in s.index
    ensures var i := s.index[a.skey(y)];
            && s.rows == s.rows[..i] + [s.rows[i]] + s.rows[i + 1..]
            && Put(a, s, y).rows == s.rows[..i] + [a.merge(s.rows[i], y)] + s.rows[i + 1..]
  {
  }

  lemma OtherRows<T(!new)>(a: Ops<T, T>, u: T -> bool, s: Table<T>, i: nat)
    requires Indexed(a, s) && All(s.rows, u) && i < |s.rows|
    ensures forall z <- s.rows[i + 1..] :: u(z) && a.dkey(z) != a.dkey(s.rows[i])
    ensures All(s.rows[..i], u) && u(s.rows[i])
  {
    forall z | z in s.rows[i + 1..] ensures u(z) && a.dkey(z) != a.dkey(s.rows[i]) {
      var j :| i < j < |s.rows| && s.rows[j] == z;
      assert s.index[a.dkey(z)] == j;
    }
  }

  lemma AbsorbsAtRow<T(!new)>(a: Ops<T, T>, b: Ops<T, T>, v: T -> bool, u: T -> bool, w: T -> bool,
      t: Table<T>, before: seq<T>, r: T, after: seq<T>, y: T)
    requires Bridge(a, b, v, u, w)
    requires Indexed(b, t) && All(t.rows, w)
    requires All(before, u) && u(r) && v(y) && a.dkey(r) == a.skey(y)
    requires forall z <- after :: u(z) && a.dkey(z) != a.dkey(r)
    ensures PutAll(b, t, before + [a.merge(r, y)] + after) == Put(b, PutAll(b, t, before + [r] + after), y)
  {
    PutAllKeeps(b, v, w, t, before);
    var t1 := PutAll(b, t, before);
    Split(b, t, before, r, after);
    Split(b, t, before, a.merge(r, y), after);
    MergedRow(a, b, v, u, w, t1, r, y);
    PutKeeps(b, v, w, t1, r);
    PutOvertakes(a, b, v, u, w, Put(b, t1, r), y, after);
  }

  lemma MergedRow<T(!new)>(a: Ops<T, T>, b: Ops<T, T>, v: T -> bool, u: T -> bool, w: T -> bool,
      t: Table<T>, r: T, y: T)
    requires Bridge(a, b, v, u, w) && Indexed(b, t) && All(t.rows, w)
    requires u(r) && v(y) && a.dkey(r) == a.skey(y)
    ensures Put(b, t, a.merge(r, y)) == Put(b, Put(b, t, r), y)
    ensures b.skey(y) in Put(b, t, r).index
  {
    var k := b.skey(y);
    assert b.skey(a.merge(r, y)) == b.skey(r) == k;
    if k in t.index {
      var d := t.rows[t.index[k]];
      assert w(d);
      assert b.merge(d, a.merge(r, y)) == b.merge(b.merge(d, r), y);
      assert Put(b, t, a.merge(r, y)).rows == Put(b, Put(b, t, r), y).rows;
    } else {
      assert b.start(a.merge(r, y)) == b.merge(b.start(r), y);
      assert Put(b, t, a.merge(r, y)).rows == Put(b, Put(b, t, r), y).rows;
    }
  }

  lemma Split<T(!new)>(b: Ops<T, T>, t: Table<T>, xs: seq<T>, x: T, ys: seq<T>)
    requires Bounded(t)
    ensures PutAll(b, t, xs + [x] + ys) == PutAll(b, Put(b, PutAll(b, t, xs), x), ys)
  {
    PutAllConcat(b, t, xs + [x], ys);
    assert (xs + [x])[..|xs + [x]| - 1] == xs;
  }

  /** Merging already merged rows is merging what went into them. */
  lemma MergeOfMerge<T(!new)>(a: Ops<T, T>, b: Ops<T, T>, v: T -> bool, u: T -> bool, w: T -> bool,
      rows: seq<T>, inner: seq<T>, xs: seq<T>)
    requires Bridge(a, b, v, u, w)
    requires DistinctKeys(b, rows) && All(rows, w)
    requires DistinctKeys(a, inner) && All(inner, u) && All(xs, v)
    ensures Merge(b, rows, Merge(a, inner, xs)) == Merge(b, Merge(b, rows, inner), xs)
    ensures Merge(b, rows, Merge(a, [], xs)) == Merge(b, rows, xs)
  {
    DistinctRowsAreIndexed(a, inner);
    DistinctRowsAreIndexed(b, rows);
    Absorbs(a, b, v, u, w, Load(b, rows), Load(a, inner), xs);
    Absorbs(a, b, v, u, w, Load(b, rows), Load(a, []), xs);
    RebuiltMapIsCarriedMap(b, v, w, rows, inner, xs);
    PutAllConcat(b, Load(b, rows), inner, xs);
  }
}

/** A level whose items carry a header and a list of the level below: scopes of
    metrics, resources of scopes, and the same for logs. */
module Nest {
  import opened Keyed
  import opened Absorb

  datatype Node<H, T> = Node(head: H, items: seq<T>)

  function NestOps<H, T>(h: H -> string, inner: Ops<T, T>): Ops<Node<H, T>, Node<H, T>> {
    Ops((n: Node<H, T>) => h(n.head),
        (n: Node<H, T>) => h(n.head),
        (n: Node<H, T>) => Node(n.head, Merge(inner, [], n.items)),
        (d: Node<H, T>, n: Node<H, T>) => Node(d.head, Merge(inner, d.items, n.items)))
  }

  ghost function Each<H, T>(p: T -> bool): Node<H, T> -> bool {
    (n: Node<H, T>) => All(n.items, p)
  }

  ghost function EachRow<H, T>(o: Ops<T, T>, p: T -> bool): Node<H, T> -> bool {
    (n: Node<H, T>) => DistinctKeys(o, n.items) && All(n.items, p)
  }

  lemma NestKeeps<H(!new), T(!new)>(h: H -> string, o: Ops<T, T>, v: T -> bool, w: T -> bool)
    requires Keeps(o, v, w)
    ensures Keeps(NestOps(h, o), Each<H, T>(v), EachRow<H, T>(o, w))
  {
    var n := NestOps(h, o);
    var V, W := Each<H, T>(v), EachRow<H, T>(o, w);
    forall x | V(x) ensures W(n.start(x)) {
      MergeKeeps(o, v, w, [], x.items);
    }
    forall d, x | W(d) && V(x) ensures W(n.merge(d, x)) {
      MergeKeeps(o, v, w, d.items, x.items);
    }
  }

  lemma NestBridges<H(!new), T(!new)>(h: H -> string, a: Ops<T, T>, b: Ops<T, T>, v: T -> bool, u: T -> bool,
      w: T -> bool)
    requires Bridge(a, b, v, u, w)
    ensures Bridge(NestOps(h, a), NestOps(h, b), Each<H, T>(v), EachRow<H, T>(a, u), EachRow<H, T>(b, w))
  {
    hide StartsAgree, Associates, Commutes, Keeps;
    NestKeeps<H, T>(h, a, v, u);
    NestKeeps<H, T>(h, b, v, w);
    NestStartsAgree<H, T>(h, a, b, v, u, w);
    NestAssociates<H, T>(h, a, b, v, u, w);
    NestCommutes(h, a, b, Each<H, T>(v), EachRow<H, T>(a, u), EachRow<H, T>(b, w));
    assert Within(EachRow<H, T>(a, u), Each<H, T>(v));
  }

  lemma NestStartsAgree<H(!new), T(!new)>(h: H -> string, a: Ops<T, T>, b: Ops<T, T>, v: T -> bool, u: T -> bool,
      w: T -> bool)
    requires Bridge(a, b, v, u, w)
    ensures StartsAgree(NestOps(h, a), NestOps(h, b), Each<H, T>(v), EachRow<H, T>(b, w))
  {
    hide Bridge, Merge;
    var na, nb := NestOps<H, T>(h, a), NestOps<H, T>(h, b);
    var V, W := Each<H, T>(v), EachRow<H, T>(b, w);
    forall x | V(x) ensures nb.start(na.start(x)) == nb.start(x) {
      MergeOfMerge(a, b, v, u, w, [], [], x.items);
    }
    forall d, x | W(d) && V(x) ensures nb.merge(d, na.start(x)) == nb.merge(d, x) {
      MergeOfMerge(a, b, v, u, w, d.items, [], x.items);
    }
  }

  lemma NestAssociates<H(!new), T(!new)>(h: H -> string, a: Ops<T, T>, b: Ops<T, T>, v: T -> bool, u: T -> bool,
      w: T -> bool)
    requires Bridge(a, b, v, u, w)
    ensures Associates(NestOps(h, a), NestOps(h, b), Each<H, T>(v), EachRow<H, T>(a, u), EachRow<H, T>(b, w))
  {
    hide Bridge, Merge;
    var na, nb := NestOps<H, T>(h, a), NestOps<H, T>(h, b);
    var V, U, W := Each<H, T>(v), EachRow<H, T>(a, u), EachRow<H, T>(b, w);
    forall r, y | U(r) && V(y) && na.dkey(r) == na.skey(y)
      ensures nb.start(na.merge(r, y)) == nb.merge(nb.start(r), y)
    {
      MergeOfMerge(a, b, v, u, w, [], r.items, y.items);
    }
    forall d, r, y | W(d) && U(r) && V(y) && na.dkey(r) == na.skey(y)
      ensures nb.merge(d, na.merge(r, y)) == nb.merge(nb.merge(d, r), y)
    {
      MergeOfMerge(a, b, v, u, w, d.items, r.items, y.items);
    }
  }

  lemma NestCommutes<H(!new), T(!new)>(h: H -> string, a: Ops<T, T>, b: Ops<T, T>,
      V: Node<H, T> -> bool, U: Node<H, T> -> bool, W: Node<H, T> -> bool)
    ensures Commutes(NestOps(h, a), NestOps(h, b), V, U, W)
  {
    hide Merge;
  }

  /** Everything filed under one key, in order. */
  function Pick<H, T>(h: H -> string, ns: seq<Node<H, T>>, k: string): seq<T> {
    if ns == [] then []
    else
      var n := ns[|ns| - 1];
      Pick(h, ns[..|ns| - 1], k) + if h(n.head) == k then n.items else []
  }

  lemma {:induction false} PickConcat<H, T>(h: H -> string, ms: seq<Node<H, T>>, ns: seq<Node<H, T>>, k: string)
    ensures Pick(h, ms + ns, k) == Pick(h, ms, k) + Pick(h, ns, k)
  {
    if ns == [] {
      assert ms + ns == ms;
    } else {
      assert (ms + ns)[..|ms + ns| - 1] == ms + ns[..|ns| - 1];
      PickConcat(h, ms, ns[..|ns| - 1], k);
    }
  }

  lemma {:induction false} PickAll<H, T>(h: H -> string, ns: seq<Node<H, T>>, k: string, v: T -> bool)
    requires forall n <- ns :: All(n.items, v)
    ensures All(Pick(h, ns, k), v)
  {
    if ns != [] {
      PickAll(h, ns[..|ns| - 1], k, v);
    }
  }

  ghost function ItemsAt<H, T>(t: Table<Node<H, T>>, k: string): seq<T>
    requires Bounded(t)
  {
    if k in t.index then t.rows[t.index[k]].items else []
  }

  lemma ItemsAtPut<H(!new), T(!new)>(h: H -> string, o: Ops<T, T>, t: Table<Node<H, T>>, n: Node<H, T>, k: string)
    requires Indexed(NestOps(h, o), t)
    ensures ItemsAt(Put(NestOps(h, o), t, n), k) ==
            if h(n.head) == k then Merge(o, ItemsAt(t, k), n.items) else ItemsAt(t, k)
  {
    var N := NestOps(h, o);
    assert N.skey(n) == h(n.head);
    if k in t.index {
      assert N.dkey(t.rows[t.index[k]]) == k;
    }
  }

  lemma {:induction false} PickFromTable<H(!new), T(!new)>(h: H -> string, o: Ops<T, T>, t: Table<Node<H, T>>, n: nat,
      k: string)
    requires Indexed(NestOps(h, o), t) && n <= |t.rows|
    ensures Pick(h, t.rows[..n], k) == if k in t.index && t.index[k] < n then t.rows[t.index[k]].items else []
  {
    if n > 0 {
      PickFromTable(h, o, t, n - 1, k);
      assert t.rows[..n][..n - 1] == t.rows[..n - 1];
      var last := t.rows[n - 1];
      assert NestOps(h, o).dkey(last) == h(last.head);
      if k in t.index {
        assert NestOps(h, o).dkey(t.rows[t.index[k]]) == k;
      }
    }
  }

  lemma NodesIndexed<H(!new), T(!new)>(h: H -> string, o: Ops<T, T>, v: T -> bool, w: T -> bool, ns: seq<Node<H, T>>)
    requires Keeps(o, v, w) && forall n <- ns :: All(n.items, v)
    ensures Indexed(NestOps(h, o), PutAll(NestOps(h, o), Empty(), ns))
  {
    NestKeeps<H, T>(h, o, v, w);
    assert All(ns, Each<H, T>(v));
    PutAllKeeps(NestOps(h, o), Each<H, T>(v), EachRow<H, T>(o, w), Empty(), ns);
  }

  lemma {:induction false} ItemsAtIsMerge<H(!new), T(!new)>(h: H -> string, o: Ops<T, T>, v: T -> bool, w: T -> bool,
      ns: seq<Node<H, T>>, k: string)
    requires Keeps(o, v, w) && forall n <- ns :: All(n.items, v)
    ensures ItemsAt(PutAll(NestOps(h, o), Empty(), ns), k) == Merge(o, [], Pick(h, ns, k))
  {
    if ns != [] {
      var init, n := ns[..|ns| - 1], ns[|ns| - 1];
      ItemsAtIsMerge(h, o, v, w, init, k);
      NodesIndexed(h, o, v, w, init);
      ItemsAtPut(h, o, PutAll(NestOps(h, o), Empty(), init), n, k);
      if h(n.head) == k {
        PickAll(h, init, k, v);
        RebuiltMapIsCarriedMap(o, v, w, [], Pick(h, init, k), n.items);
      } else {
        assert Pick(h, ns, k) == Pick(h, init, k);
      }
    }
  }

  /** Selecting a key commutes with rolling up: what the rolled-up nodes file under
      a key is the rollup, one level down, of everything the input filed there. */
  lemma PickCommutes<H(!new), T(!new)>(h: H -> string, o: Ops<T, T>, v: T -> bool, w: T -> bool,
      ns: seq<Node<H, T>>, k: string)
    requires Keeps(o, v, w) && forall n <- ns :: All(n.items, v)
    ensures Pick(h, Merge(NestOps(h, o), [], ns), k) == Merge(o, [], Pick(h, ns, k))
  {
    ItemsAtIsMerge(h, o, v, w, ns, k);
    NodesIndexed(h, o, v, w, ns);
    var t := PutAll(NestOps(h, o), Empty(), ns);
    PickFromTable(h, o, t, |t.rows|, k);
    assert t.rows[..|t.rows|] == t.rows;
  }

  lemma {:induction false} PickFinds<H, T>(h: H -> string, ns: seq<Node<H, T>>, i: nat, p: T -> bool)
    requires i < |ns| && Some1(ns[i].items, p)
    ensures Some1(Pick(h, ns, h(ns[i].head)), p)
  {
    var init, n, k := ns[..|ns| - 1], ns[|ns| - 1], h(ns[i].head);
    var a, b := Pick(h, init, k), if h(n.head) == k then n.items else [];
    assert Pick(h, ns, k) == a + b;
    if i < |init| {
      PickFinds(h, init, i, p);
      var x :| x in a && p(x);
      assert x in a + b;
    } else {
      var x :| x in b && p(x);
      assert x in a + b;
    }
  }

  ghost function Not<T>(p: T -> bool): T -> bool {
    (x: T) => !p(x)
  }

  function HeadKeys<H, T>(h: H -> string, ns: seq<Node<H, T>>): seq<string> {
    seq(|ns|, i requires 0 <= i < |ns| => h(ns[i].head))
  }

  lemma NodesOnce<H(!new), T(!new)>(h: H -> string, o: Ops<T, T>, v: T -> bool, w: T -> bool, ns: seq<Node<H, T>>)
    requires Keeps(o, v, w) && forall n <- ns :: All(n.items, v)
    ensures HeadKeys(h, Merge(NestOps(h, o), [], ns)) == Distinct(HeadKeys(h, ns))
  {
    var N := NestOps(h, o);
    NestKeeps<H, T>(h, o, v, w);
    assert All(ns, Each<H, T>(v));
    TableKeys(N, Each<H, T>(v), EachRow<H, T>(o, w), ns);
    assert HeadKeys(h, ns) == MapKeys(N.skey, ns);
    assert HeadKeys(h, Merge(N, [], ns)) == MapKeys(N.dkey, Merge(N, [], ns));
  }

  /** The head of the first node with a key. */
  function FirstHead<H, T>(h: H -> string, ns: seq<Node<H, T>>, k: string): Option<H> {
    if ns == [] then None
    else if h(ns[0].head) == k then Some(ns[0].head)
    else FirstHead(h, ns[1..], k)
  }

  lemma {:induction false} FirstHeadSnoc<H, T>(h: H -> string, ns: seq<Node<H, T>>, n: Node<H, T>, k: string)
    ensures FirstHead(h, ns + [n], k) ==
            if FirstHead(h, ns, k).Some? then FirstHead(h, ns, k)
            else if h(n.head) == k then Some(n.head) else None
  {
    if ns == [] {
      assert ns + [n] == [n] && [n][1..] == [];
    } else {
      assert (ns + [n])[1..] == ns[1..] + [n];
      FirstHeadSnoc(h, ns[1..], n, k);
    }
  }

  lemma {:induction false} GroupKeepsHead<H(!new), T(!new)>(h: H -> string, o: Ops<T, T>, ns: seq<Node<H, T>>,
      k: string)
    ensures var g := Group(NestOps(h, o), ns, k);
            FirstHead(h, ns, k) == if g.None? then None else Some(g.value.head)
  {
    hide Merge;
    if ns != [] {
      var init, n := ns[..|ns| - 1], ns[|ns| - 1];
      GroupKeepsHead(h, o, init, k);
      FirstHeadSnoc(h, init, n, k);
      assert ns == init + [n];
    }
  }

  /** What is copied with a key is what came with it first. */
  lemma HeadsAreFirst<H(!new), T(!new)>(h: H -> string, o: Ops<T, T>, v: T -> bool, w: T -> bool, ns: seq<Node<H, T>>)
    requires Keeps(o, v, w) && forall n <- ns :: All(n.items, v)
    ensures forall n <- Merge(NestOps(h, o), [], ns) :: FirstHead(h, ns, h(n.head)) == Some(n.head)
  {
    hide Merge;
    var N, out := NestOps(h, o), Merge(NestOps(h, o), [], ns);
    NestKeeps<H, T>(h, o, v, w);
    assert All(ns, Each<H, T>(v));
    TableIsGroupBy(N, Each<H, T>(v), EachRow<H, T>(o, w), ns);
    forall n | n in out ensures FirstHead(h, ns, h(n.head)) == Some(n.head) {
      var i :| 0 <= i < |out| && out[i] == n;
      assert N.dkey(out[i]) == h(n.head);
      GroupKeepsHead(h, o, ns, h(n.head));
    }
  }
}
