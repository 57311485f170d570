/** Walking a batch resource by resource, scope by scope, item by item. */
module Traversal {
  import opened Nest
  import opened Pdata
  import opened Live

  datatype Row<T> = Row(resource: Attrs, scope: Scope, item: T)

  function ItemRows<T>(r: Attrs, s: Scope, items: seq<T>): seq<Row<T>> {
    if items == [] then [] else ItemRows(r, s, items[..|items| - 1]) + [Row(r, s, items[|items| - 1])]
  }

  function ScopeRows<T>(r: Attrs, ss: seq<ScopeOf<T>>): seq<Row<T>> {
    if ss == [] then []
    else ScopeRows(r, ss[..|ss| - 1]) + ItemRows(r, ss[|ss| - 1].head, ss[|ss| - 1].items)
  }

  /** Every item of a batch with its resource and scope, in traversal order. */
  function Rows<T>(rs: seq<ResourceOf<T>>): seq<Row<T>> {
    if rs == [] then [] else Rows(rs[..|rs| - 1]) + ScopeRows(rs[|rs| - 1].head, rs[|rs| - 1].items)
  }

  /** What three nested loops have visited when they stand at `i`, `j`, `k`. */
  function Visited<T>(rs: seq<ResourceOf<T>>, i: nat, j: nat, k: nat): seq<Row<T>>
    requires i < |rs| && j < |rs[i].items| && k <= |rs[i].items[j].items|
  {
    VisitedScopes(rs, i, j) + ItemRows(rs[i].head, rs[i].items[j].head, rs[i].items[j].items[..k])
  }

  function VisitedScopes<T>(rs: seq<ResourceOf<T>>, i: nat, j: nat): seq<Row<T>>
    requires i < |rs| && j <= |rs[i].items|
  {
    Rows(rs[..i]) + ScopeRows(rs[i].head, rs[i].items[..j])
  }

  lemma VisitItem<T>(rs: seq<ResourceOf<T>>, i: nat, j: nat, k: nat)
    requires i < |rs| && j < |rs[i].items| && k < |rs[i].items[j].items|
    ensures Visited(rs, i, j, k + 1) ==
            Visited(rs, i, j, k) + [Row(rs[i].head, rs[i].items[j].head, rs[i].items[j].items[k])]
  {
    var items := rs[i].items[j].items;
    assert items[..k + 1][..k] == items[..k];
  }

  lemma VisitScope<T>(rs: seq<ResourceOf<T>>, i: nat, j: nat)
    requires i < |rs| && j < |rs[i].items|
    ensures Visited(rs, i, j, 0) == VisitedScopes(rs, i, j)
    ensures Visited(rs, i, j, |rs[i].items[j].items|) == VisitedScopes(rs, i, j + 1)
  {
    var ss := rs[i].items;
    assert ss[..j + 1][..j] == ss[..j];
    assert ss[j].items[..|ss[j].items|] == ss[j].items;
  }

  lemma VisitResource<T>(rs: seq<ResourceOf<T>>, i: nat)
    requires i < |rs|
    ensures VisitedScopes(rs, i, 0) == Rows(rs[..i])
    ensures VisitedScopes(rs, i, |rs[i].items|) == Rows(rs[..i + 1])
  {
    assert rs[..i + 1][..i] == rs[..i];
    assert rs[i].items[..|rs[i].items|] == rs[i].items;
  }

  // ---------------------------------------------------------------------------
  // Places in a batch
  // ---------------------------------------------------------------------------

  function ScopesSize<T>(ss: seq<ScopeOf<T>>): nat {
    if ss == [] then 0 else ScopesSize(ss[..|ss| - 1]) + |ss[|ss| - 1].items|
  }

  function Size<T>(rs: seq<ResourceOf<T>>): nat {
    if rs == [] then 0 else Size(rs[..|rs| - 1]) + ScopesSize(rs[|rs| - 1].items)
  }

  lemma {:induction false} ItemsBelow<T>(r: Attrs, s: Scope, items: seq<T>, k: nat)
    requires k <= |items|
    ensures ItemRows(r, s, items[..k]) <= ItemRows(r, s, items) && |ItemRows(r, s, items)| == |items|
  {
    if k < |items| {
      assert items[..|items| - 1][..k] == items[..k];
      ItemsBelow(r, s, items[..|items| - 1], k);
    } else {
      assert items[..k] == items;
      if items != [] {
        ItemsBelow(r, s, items[..k - 1], k - 1);
      }
    }
  }

  lemma {:induction false} ScopesBelow<T>(r: Attrs, ss: seq<ScopeOf<T>>, j: nat)
    requires j <= |ss|
    ensures ScopeRows(r, ss[..j]) <= ScopeRows(r, ss) && |ScopeRows(r, ss)| == ScopesSize(ss)
  {
    if ss != [] {
      var last := ss[|ss| - 1];
      assert last.items[..|last.items|] == last.items;
      ItemsBelow(r, last.head, last.items, |last.items|);
      if j < |ss| {
        assert ss[..|ss| - 1][..j] == ss[..j];
        ScopesBelow(r, ss[..|ss| - 1], j);
      } else {
        assert ss[..j] == ss;
        ScopesBelow(r, ss[..j - 1], j - 1);
      }
    }
  }

  lemma {:induction false} RowsBelow<T>(rs: seq<ResourceOf<T>>, i: nat)
    requires i <= |rs|
    ensures Rows(rs[..i]) <= Rows(rs) && |Rows(rs)| == Size(rs)
  {
    if rs != [] {
      var last := rs[|rs| - 1];
      ScopesBelow(last.head, last.items, 0);
      if i < |rs| {
        assert rs[..|rs| - 1][..i] == rs[..i];
        RowsBelow(rs[..|rs| - 1], i);
      } else {
        assert rs[..i] == rs;
        RowsBelow(rs[..i - 1], i - 1);
      }
    }
  }

  /** Each item, with its resource and its scope, is at the place that the sizes of
      what comes before it give, and there is nothing else. */
  lemma EveryItemHasItsPlace<T>(rs: seq<ResourceOf<T>>, i: nat, j: nat, k: nat)
    requires i < |rs| && j < |rs[i].items| && k < |rs[i].items[j].items|
    ensures |Rows(rs)| == Size(rs)
    ensures var n := Size(rs[..i]) + ScopesSize(rs[i].items[..j]) + k;
            n < |Rows(rs)| && Rows(rs)[n] == Row(rs[i].head, rs[i].items[j].head, rs[i].items[j].items[k])
  {
    hide Rows, ScopeRows, ItemRows, Size, ScopesSize;
    var r, ss := rs[i].head, rs[i].items;
    var s, items := ss[j].head, ss[j].items;
    ItemsBelow(r, s, items[..k], k);
    assert items[..k][..k] == items[..k];
    ItemsBelow(r, s, items, k + 1);
    VisitItem(rs, i, j, k);
    ScopesBelow(r, ss[..j], j);
    assert ss[..j][..j] == ss[..j];
    VisitScope(rs, i, j);
    ScopesBelow(r, ss, j + 1);
    RowsBelow(rs[..i], i);
    assert rs[..i][..i] == rs[..i];
    VisitResource(rs, i);
    RowsBelow(rs, i + 1);
    assert items[..|items|] == items && ss[..|ss|] == ss;
    assert Visited(rs, i, j, k + 1) <= Visited(rs, i, j, |items|);
    assert VisitedScopes(rs, i, j + 1) <= VisitedScopes(rs, i, |ss|);
  }

  /** What has been visited is in the batch. */
  lemma VisitedInBatch<T>(rs: seq<ResourceOf<T>>, i: nat, j: nat, k: nat)
    requires i < |rs| && j < |rs[i].items| && k < |rs[i].items[j].items|
    ensures Row(rs[i].head, rs[i].items[j].head, rs[i].items[j].items[k]) in Rows(rs)
  {
    hide *;
    EveryItemHasItsPlace(rs, i, j, k);
  }

  lemma {:induction false} RowsConcat<T>(rs: seq<ResourceOf<T>>, ss: seq<ResourceOf<T>>)
    ensures Rows(rs + ss) == Rows(rs) + Rows(ss)
  {
    hide ScopeRows;
    if ss == [] {
      assert rs + ss == rs;
    } else {
      assert (rs + ss)[..|rs + ss| - 1] == rs + ss[..|ss| - 1];
      RowsConcat(rs, ss[..|ss| - 1]);
    }
  }

  // ---------------------------------------------------------------------------
  // The items of one trace
  // ---------------------------------------------------------------------------

  /** An item on its own, still under its resource and scope. */
  function Wrap<T>(row: Row<T>): ResourceOf<T> {
    Node(row.resource, [Node(row.scope, [row.item])])
  }

  /** The rows of one trace, wrapped, in order. */
  function RowsFor<T>(id: T -> TraceID, rows: seq<Row<T>>, t: TraceID): seq<ResourceOf<T>> {
    if rows == [] then []
    else
      var row := rows[|rows| - 1];
      if id(row.item) == t then RowsFor(id, rows[..|rows| - 1], t) + [Wrap(row)]
      else RowsFor(id, rows[..|rows| - 1], t)
  }

  function OfTrace<T>(id: T -> TraceID, t: TraceID): Row<T> -> bool {
    (row: Row<T>) => id(row.item) == t
  }

  lemma WrapKeepsTheRow<T>(row: Row<T>)
    ensures Rows([Wrap(row)]) == [row]
  {
    var n := Node(row.scope, [row.item]);
    assert [row.item][..0] == [] && ItemRows(row.resource, n.head, n.items) == [row];
    assert [n][..0] == [] && ScopeRows(row.resource, [n]) == [row];
    assert [Wrap(row)][..0] == [];
  }

  /** What is filed for a trace are the batch's items of that trace, in order, each with
      its resource and scope. */
  lemma {:induction false} RowsOfFiled<T>(id: T -> TraceID, rows: seq<Row<T>>, t: TraceID)
    ensures Rows(RowsFor(id, rows, t)) == Keep(OfTrace(id, t), rows)
  {
    hide Rows, Wrap, Keep;
    if rows == [] {
      NoRows<T>(OfTrace(id, t));
    } else {
      var init, row := rows[..|rows| - 1], rows[|rows| - 1];
      RowsOfFiled(id, init, t);
      assert rows == init + [row];
      KeepSnoc(OfTrace(id, t), init, row);
      if id(row.item) == t {
        RowsConcat(RowsFor(id, init, t), [Wrap(row)]);
        WrapKeepsTheRow(row);
      }
    }
  }

  lemma NoRows<T>(p: Row<T> -> bool)
    ensures Rows<T>([]) == [] && Keep(p, []) == []
  {
  }

  ghost predicate Mentions<T>(id: T -> TraceID, rows: seq<Row<T>>, t: TraceID) {
    exists row <- rows :: id(row.item) == t
  }

  lemma {:induction false} MentionedIffFound<T>(id: T -> TraceID, rows: seq<Row<T>>, t: TraceID)
    ensures Mentions(id, rows, t) <==> RowsFor(id, rows, t) != []
  {
    if rows != [] {
      MentionedIffFound(id, rows[..|rows| - 1], t);
      assert rows == rows[..|rows| - 1] + [rows[|rows| - 1]];
    }
  }

  function SpanID(): Span -> TraceID {
    (s: Span) => s.traceId
  }

  function LogID(): LogRecord -> TraceID {
    (r: LogRecord) => r.traceId
  }
}
