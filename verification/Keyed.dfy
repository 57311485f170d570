/** First-come tables: rows kept in order of first occurrence and found again
    through a map from key to row position. Every level of the rollup kernel
    (resource, scope, metric name, data point, log record) is one of these. */
module Keyed {

  /** How one level treats its items: the key of an incoming item, the key under
      which an existing row is indexed again, the row an unseen key starts, and
      the effect of one more item on an existing row. */
  datatype Ops<!S, !D> = Ops(skey: S -> string, dkey: D -> string, start: S -> D, merge: (D, S) -> D)

  datatype Table<D> = Table(rows: seq<D>, index: map<string, nat>)

  ghost predicate Bounded<D>(t: Table<D>) {
    forall k <- t.index :: t.index[k] < |t.rows|
  }

  function Put<S, D>(o: Ops<S, D>, t: Table<D>, x: S): (r: Table<D>)
    requires Bounded(t)
    ensures Bounded(r)
  {
    var k := o.skey(x);
    if k in t.index then
      Table(t.rows[t.index[k] := o.merge(t.rows[t.index[k]], x)], t.index)
    else
      Table(t.rows + [o.start(x)], t.index[k := |t.rows|])
  }

  function PutAll<S, D>(o: Ops<S, D>, t: Table<D>, xs: seq<S>): (r: Table<D>)
    requires Bounded(t)
    ensures Bounded(r)
  {
    if xs == [] then t else Put(o, PutAll(o, t, xs[..|xs| - 1]), xs[|xs| - 1])
  }

  /** The map a call rebuilds from the rows it finds; a later row overrides an
      earlier one with the same key. */
  function Reindex<S, D>(o: Ops<S, D>, rows: seq<D>): (index: map<string, nat>)
    ensures Bounded(Table(rows, index))
  {
    if rows == [] then map[]
    else Reindex(o, rows[..|rows| - 1])[o.dkey(rows[|rows| - 1]) := |rows| - 1]
  }

  function Load<S, D>(o: Ops<S, D>, rows: seq<D>): (t: Table<D>)
    ensures Bounded(t)
  {
    Table(rows, Reindex(o, rows))
  }

  /** One call of a level: rebuild the map, then put every source item. */
  function Merge<S, D>(o: Ops<S, D>, rows: seq<D>, xs: seq<S>): seq<D> {
    PutAll(o, Load(o, rows), xs).rows
  }

  lemma {:induction false} PutAllConcat<S(!new), D(!new)>(o: Ops<S, D>, t: Table<D>, xs: seq<S>, ys: seq<S>)
    requires Bounded(t)
    ensures PutAll(o, t, xs + ys) == PutAll(o, PutAll(o, t, xs), ys)
  {
    if ys == [] {
      assert xs + ys == xs;
    } else {
      var n := |ys| - 1;
      assert (xs + ys)[..|xs + ys| - 1] == xs + ys[..n];
      PutAllConcat(o, t, xs, ys[..n]);
    }
  }

  // ---------------------------------------------------------------------------
  // The rebuilt map is the carried map
  // ---------------------------------------------------------------------------

  ghost predicate All<T>(xs: seq<T>, p: T -> bool) {
    forall x <- xs :: p(x)
  }

  /** Rows and map say the same thing: every row is found under its own key. */
  ghost predicate Indexed<S, D>(o: Ops<S, D>, t: Table<D>) {
    && Bounded(t)
    && (forall k <- t.index :: o.dkey(t.rows[t.index[k]]) == k)
    && (forall i | 0 <= i < |t.rows| :: o.dkey(t.rows[i]) in t.index && t.index[o.dkey(t.rows[i])] == i)
  }

  ghost predicate DistinctKeys<S, D>(o: Ops<S, D>, rows: seq<D>) {
    forall i, j | 0 <= i < j < |rows| :: o.dkey(rows[i]) != o.dkey(rows[j])
  }

  /** `v` holds of acceptable items, `w` of the rows they produce: a row is
      indexed under the key its item came in with, and merging does not move it. */
  ghost predicate Keeps<S(!new), D(!new)>(o: Ops<S, D>, v: S -> bool, w: D -> bool) {
    && (forall x {:trigger o.start(x)} | v(x) :: w(o.start(x)) && o.dkey(o.start(x)) == o.skey(x))
    && (forall d, x {:trigger o.merge(d, x)} | w(d) && v(x) && o.dkey(d) == o.skey(x) ::
          w(o.merge(d, x)) && o.dkey(o.merge(d, x)) == o.dkey(d))
  }

  ghost function Any<T>(): T -> bool {
    (x: T) => true
  }

  /** Keys and row properties can be checked separately. */
  lemma KeepsBoth<S(!new), D(!new)>(o: Ops<S, D>, v: S -> bool, w: D -> bool)
    requires Keeps(o, Any<S>(), Any<D>())
    requires forall x {:trigger o.start(x)} | v(x) :: w(o.start(x))
    requires forall d, x {:trigger o.merge(d, x)} | w(d) && v(x) && o.dkey(d) == o.skey(x) :: w(o.merge(d, x))
    ensures Keeps(o, v, w)
  {
    forall d, x | w(d) && v(x) && o.dkey(d) == o.skey(x)
      ensures w(o.merge(d, x)) && o.dkey(o.merge(d, x)) == o.dkey(d)
    {
      assert Any<D>()(o.merge(d, x));
    }
  }

  lemma PutKeeps<S(!new), D(!new)>(o: Ops<S, D>, v: S -> bool, w: D -> bool, t: Table<D>, x: S)
    requires Keeps(o, v, w) && Indexed(o, t) && All(t.rows, w) && v(x)
    ensures Indexed(o, Put(o, t, x)) && All(Put(o, t, x).rows, w)
  {
  }

  lemma {:induction false} PutAllKeeps<S(!new), D(!new)>(o: Ops<S, D>, v: S -> bool, w: D -> bool, t: Table<D>,
      xs: seq<S>)
    requires Keeps(o, v, w) && Indexed(o, t) && All(t.rows, w) && All(xs, v)
    ensures Indexed(o, PutAll(o, t, xs)) && All(PutAll(o, t, xs).rows, w)
  {
    if xs != [] {
      PutAllKeeps(o, v, w, t, xs[..|xs| - 1]);
      PutKeeps(o, v, w, PutAll(o, t, xs[..|xs| - 1]), xs[|xs| - 1]);
    }
  }

  lemma {:induction false} ReindexKeys<S(!new), D(!new)>(o: Ops<S, D>, rows: seq<D>)
    ensures forall k <- Reindex(o, rows) :: exists i :: 0 <= i < |rows| && k == o.dkey(rows[i])
    ensures forall k <- Reindex(o, rows) :: o.dkey(rows[Reindex(o, rows)[k]]) == k
    ensures forall i | 0 <= i < |rows| :: o.dkey(rows[i]) in Reindex(o, rows)
  {
    if rows != [] {
      ReindexKeys(o, rows[..|rows| - 1]);
    }
  }

  lemma {:induction false} DistinctRowsAreIndexed<S(!new), D(!new)>(o: Ops<S, D>, rows: seq<D>)
    requires DistinctKeys(o, rows)
    ensures Indexed(o, Load(o, rows))
  {
    if rows != [] {
      DistinctRowsAreIndexed(o, rows[..|rows| - 1]);
      ReindexKeys(o, rows[..|rows| - 1]);
    }
  }

  lemma IndexIsUnique<S(!new), D(!new)>(o: Ops<S, D>, t: Table<D>)
    requires Indexed(o, t)
    ensures DistinctKeys(o, t.rows) && t == Load(o, t.rows)
  {
    forall i, j | 0 <= i < j < |t.rows|
      ensures o.dkey(t.rows[i]) != o.dkey(t.rows[j])
    {
      assert t.index[o.dkey(t.rows[i])] == i;
      assert t.index[o.dkey(t.rows[j])] == j;
    }
    DistinctRowsAreIndexed(o, t.rows);
    var r := Reindex(o, t.rows);
    assert Indexed(o, Table(t.rows, r));
    ReindexKeys(o, t.rows);
    assert r.Keys <= t.index.Keys;
    forall k | k in t.index ensures k in r && r[k] == t.index[k] {
      assert o.dkey(t.rows[t.index[k]]) == k;
    }
    assert r.Keys == t.index.Keys;
    assert r == t.index;
  }

  /** Rebuilding the map at every call gives what one call over all items, with
      one map carried throughout, would have given. */
  lemma RebuiltMapIsCarriedMap<S(!new), D(!new)>(o: Ops<S, D>, v: S -> bool, w: D -> bool, rows: seq<D>, xs: seq<S>,
      ys: seq<S>)
    requires Keeps(o, v, w) && DistinctKeys(o, rows) && All(rows, w) && All(xs, v)
    ensures Merge(o, Merge(o, rows, xs), ys) == Merge(o, rows, xs + ys)
    ensures Load(o, Merge(o, rows, xs)) == PutAll(o, Load(o, rows), xs)
  {
    DistinctRowsAreIndexed(o, rows);
    PutAllKeeps(o, v, w, Load(o, rows), xs);
    IndexIsUnique(o, PutAll(o, Load(o, rows), xs));
    PutAllConcat(o, Load(o, rows), xs, ys);
  }

  lemma MergeKeeps<S(!new), D(!new)>(o: Ops<S, D>, v: S -> bool, w: D -> bool, rows: seq<D>, xs: seq<S>)
    requires Keeps(o, v, w) && DistinctKeys(o, rows) && All(rows, w) && All(xs, v)
    ensures DistinctKeys(o, Merge(o, rows, xs)) && All(Merge(o, rows, xs), w)
  {
    DistinctRowsAreIndexed(o, rows);
    PutAllKeeps(o, v, w, Load(o, rows), xs);
    IndexIsUnique(o, PutAll(o, Load(o, rows), xs));
  }

  // ---------------------------------------------------------------------------
  // A table is a group-by
  // ---------------------------------------------------------------------------

  datatype Option<+T> = None | Some(value: T)

  function MapKeys<T>(f: T -> string, xs: seq<T>): (r: seq<string>)
    ensures |r| == |xs| && forall i | 0 <= i < |xs| :: r[i] == f(xs[i])
  {
    seq(|xs|, i requires 0 <= i < |xs| => f(xs[i]))
  }

  /** The distinct elements, each at its first occurrence. */
  function Distinct(ks: seq<string>): seq<string> {
    if ks == [] then []
    else
      var d := Distinct(ks[..|ks| - 1]);
      if ks[|ks| - 1] in d then d else d + [ks[|ks| - 1]]
  }

  function First(ks: seq<string>, k: string): (i: nat)
    requires k in ks
    ensures i < |ks| && ks[i] == k && k !in ks[..i]
  {
    var n := |ks| - 1;
    if k in ks[..n] then
      var i := First(ks[..n], k);
      assert ks[..n][..i] == ks[..i];
      i
    else n
  }

  lemma {:induction false} DistinctIsFirstOccurrences(ks: seq<string>)
    ensures forall k :: k in Distinct(ks) <==> k in ks
    ensures forall i, j | 0 <= i < j < |Distinct(ks)| :: First(ks, Distinct(ks)[i]) < First(ks, Distinct(ks)[j])
  {
    if ks != [] {
      var init, last := ks[..|ks| - 1], ks[|ks| - 1];
      DistinctIsFirstOccurrences(init);
      assert ks == init + [last];
      assert forall k <- init :: First(ks, k) == First(init, k);
    }
  }

  /** The row of one key as a plain left-to-right pass over all items. */
  function Group<S, D>(o: Ops<S, D>, xs: seq<S>, k: string): Option<D> {
    if xs == [] then None
    else
      var g, x := Group(o, xs[..|xs| - 1], k), xs[|xs| - 1];
      if o.skey(x) != k then g
      else if g.None? then Some(o.start(x))
      else Some(o.merge(g.value, x))
  }

  function RowAt<D>(t: Table<D>, k: string): Option<D>
    requires Bounded(t)
  {
    if k in t.index then Some(t.rows[t.index[k]]) else None
  }

  function Empty<D>(): (t: Table<D>)
    ensures Bounded(t)
  {
    Table([], map[])
  }

  lemma {:induction false} TableKeys<S(!new), D(!new)>(o: Ops<S, D>, v: S -> bool, w: D -> bool, xs: seq<S>)
    requires Keeps(o, v, w) && All(xs, v)
    ensures MapKeys(o.dkey, Merge(o, [], xs)) == Distinct(MapKeys(o.skey, xs))
  {
    if xs != [] {
      var init, x := xs[..|xs| - 1], xs[|xs| - 1];
      TableKeys(o, v, w, init);
      PutAllKeeps(o, v, w, Empty(), init);
      var t := PutAll(o, Empty(), init);
      PutKeys(o, v, w, t, x);
      assert MapKeys(o.skey, xs)[..|xs| - 1] == MapKeys(o.skey, init);
    }
  }

  lemma PutKeys<S(!new), D(!new)>(o: Ops<S, D>, v: S -> bool, w: D -> bool, t: Table<D>, x: S)
    requires Keeps(o, v, w) && Indexed(o, t) && All(t.rows, w) && v(x)
    ensures var ks := MapKeys(o.dkey, t.rows);
            MapKeys(o.dkey, Put(o, t, x).rows) == if o.skey(x) in ks then ks else ks + [o.skey(x)]
  {
    var ks := MapKeys(o.dkey, t.rows);
    if o.skey(x) in t.index {
      var i := t.index[o.skey(x)];
      assert ks[i] == o.skey(x);
      assert w(t.rows[i]);
    }
  }

  lemma {:induction false} TableRows<S(!new), D(!new)>(o: Ops<S, D>, v: S -> bool, w: D -> bool, xs: seq<S>, k: string)
    requires Keeps(o, v, w) && All(xs, v)
    ensures RowAt(PutAll(o, Empty(), xs), k) == Group(o, xs, k)
  {
    if xs != [] {
      var init := xs[..|xs| - 1];
      TableRows(o, v, w, init, k);
      PutAllKeeps(o, v, w, Empty(), init);
      PutRow(o, PutAll(o, Empty(), init), xs[|xs| - 1], k);
    }
  }

  lemma PutRow<S(!new), D(!new)>(o: Ops<S, D>, t: Table<D>, x: S, k: string)
    requires Indexed(o, t)
    ensures RowAt(Put(o, t, x), k) ==
            if o.skey(x) != k then RowAt(t, k)
            else if RowAt(t, k).None? then Some(o.start(x)) else Some(o.merge(RowAt(t, k).value, x))
  {
  }

  /** One row per distinct key, in order of first occurrence, and each row is the
      pass over the items of its key. */
  lemma TableIsGroupBy<S(!new), D(!new)>(o: Ops<S, D>, v: S -> bool, w: D -> bool, xs: seq<S>)
    requires Keeps(o, v, w) && All(xs, v)
    ensures MapKeys(o.dkey, Merge(o, [], xs)) == Distinct(MapKeys(o.skey, xs))
    ensures forall i | 0 <= i < |Merge(o, [], xs)| ::
              Group(o, xs, o.dkey(Merge(o, [], xs)[i])) == Some(Merge(o, [], xs)[i])
  {
    TableKeys(o, v, w, xs);
    PutAllKeeps(o, v, w, Empty(), xs);
    var t := PutAll(o, Empty(), xs);
    forall i | 0 <= i < |t.rows|
      ensures Group(o, xs, o.dkey(t.rows[i])) == Some(t.rows[i])
    {
      TableRows(o, v, w, xs, o.dkey(t.rows[i]));
    }
  }

  // ---------------------------------------------------------------------------
  // Marks that stay
  // ---------------------------------------------------------------------------

  ghost predicate Some1<T>(xs: seq<T>, p: T -> bool) {
    exists x <- xs :: p(x)
  }

  ghost predicate Sticky<S(!new), D(!new)>(o: Ops<S, D>, p: D -> bool) {
    forall d, x {:trigger o.merge(d, x)} | p(d) :: p(o.merge(d, x))
  }

  lemma MarkStays<S(!new), D(!new)>(o: Ops<S, D>, p: D -> bool, t: Table<D>, x: S)
    requires Bounded(t) && Sticky(o, p) && Some1(t.rows, p)
    ensures Some1(Put(o, t, x).rows, p)
  {
    var i :| 0 <= i < |t.rows| && p(t.rows[i]);
    assert p(Put(o, t, x).rows[i]);
  }

  /** A mark that merging never clears is still in the table at the end. */
  lemma {:induction false} MarksStay<S(!new), D(!new)>(o: Ops<S, D>, p: D -> bool, t: Table<D>, xs: seq<S>, n: nat)
    requires Bounded(t) && Sticky(o, p) && n <= |xs| && Some1(PutAll(o, t, xs[..n]).rows, p)
    ensures Some1(PutAll(o, t, xs).rows, p)
    decreases |xs|
  {
    if n == |xs| {
      assert xs[..n] == xs;
    } else {
      var init := xs[..|xs| - 1];
      assert init[..n] == xs[..n];
      MarksStay(o, p, t, init, n);
      MarkStays(o, p, PutAll(o, t, init), xs[|xs| - 1]);
    }
  }
}
