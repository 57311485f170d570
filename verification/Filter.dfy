/** Cardinality levels and the attributes each of them keeps. */
module Filter {
  import opened Pdata

  datatype Level = Fine | Medium | Coarse

  /** Rolling up at `l` first does not show in a rollup at `l'`. */
  predicate Coarser(l: Level, l': Level) {
    l' == l || l' == Coarse
  }

  predicate Allowed(k: string) {
    k == "http.method" || k == "http.status_code" || k == "error"
  }

  /** The allowed entries, in order. */
  function Kept(m: Attrs): Attrs {
    if m == [] then []
    else
      var a := m[|m| - 1];
      if Allowed(a.key) then Kept(m[..|m| - 1]) + [a] else Kept(m[..|m| - 1])
  }

  /** The key under which an incoming point is filed. */
  function FilterKey(m: Attrs, l: Level): string {
    if l == Coarse then "" else AttrKey(Kept(m))
  }

  /** The attributes its row carries, built by putting one entry at a time. */
  function Filtered(m: Attrs, l: Level): Attrs {
    if l == Coarse then [] else PutEach(Kept(m))
  }

  function PutEach(m: Attrs): Attrs {
    if m == [] then [] else PutAttr(PutEach(m[..|m| - 1]), m[|m| - 1].key, m[|m| - 1].val)
  }

  lemma KeptGrows(m: Attrs, i: nat)
    requires i < |m|
    ensures Kept(m[..i + 1]) == if Allowed(m[i].key) then Kept(m[..i]) + [m[i]] else Kept(m[..i])
    ensures Allowed(m[i].key) ==>
              && AttrKey(Kept(m[..i + 1])) == AttrKey(Kept(m[..i])) + Entry(m[i])
              && PutEach(Kept(m[..i + 1])) == PutAttr(PutEach(Kept(m[..i])), m[i].key, m[i].val)
  {
    assert m[..i + 1][..i] == m[..i];
    if Allowed(m[i].key) {
      assert (Kept(m[..i]) + [m[i]])[..|Kept(m[..i])|] == Kept(m[..i]);
    }
  }

  method AttrKeyOf(m: Attrs) returns (res: string)
    ensures res == AttrKey(m)
  {
    res := "";
    for i := 0 to |m|
      invariant res == AttrKey(m[..i])
    {
      assert m[..i + 1][..i] == m[..i];
      res := res + Entry(m[i]);
    }
    assert m[..|m|] == m;
  }

  method FilterAttributesKey(m: Attrs, l: Level) returns (result: string)
    ensures result == FilterKey(m, l)
  {
    if l == Coarse {
      return "";
    }
    result := "";
    for i := 0 to |m|
      invariant result == AttrKey(Kept(m[..i]))
    {
      KeptGrows(m, i);
      if Allowed(m[i].key) {
        result := result + Entry(m[i]);
      }
    }
    assert m[..|m|] == m;
  }

  method ApplyFilteredAttributes(m: Attrs, l: Level) returns (dest: Attrs)
    ensures dest == Filtered(m, l)
  {
    dest := [];
    if l == Coarse {
      return;
    }
    for i := 0 to |m|
      invariant dest == PutEach(Kept(m[..i]))
    {
      KeptGrows(m, i);
      if Allowed(m[i].key) {
        dest := PutAttr(dest, m[i].key, m[i].val);
      }
    }
    assert m[..|m|] == m;
  }

  // ---------------------------------------------------------------------------
  // When the two keys agree
  // ---------------------------------------------------------------------------

  /** No two of the entries a level keeps share a key. */
  predicate UniqueKept(m: Attrs) {
    UniqueKeys(Kept(m))
  }

  lemma {:induction false} KeptAreAllowed(m: Attrs)
    ensures forall a <- Kept(m) :: Allowed(a.key)
    ensures (forall a <- m :: Allowed(a.key)) ==> Kept(m) == m
  {
    if m != [] {
      KeptAreAllowed(m[..|m| - 1]);
    }
  }

  lemma {:induction false} PutFresh(m: Attrs, k: string, v: Value)
    requires !HasKey(m, k)
    ensures PutAttr(m, k, v) == m + [Attr(k, v)]
  {
    if m != [] {
      PutFresh(m[1..], k, v);
    }
  }

  lemma {:induction false} PutOverwrites(m: Attrs, k: string, v: Value)
    requires HasKey(m, k)
    ensures |PutAttr(m, k, v)| == |m|
    ensures |AttrKey(PutAttr(m, k, v))| < |AttrKey(m)| + |Entry(Attr(k, v))|
  {
    if m[0].key == k {
      AttrKeyFront(m);
      AttrKeyFront(PutAttr(m, k, v));
    } else {
      assert m == [m[0]] + m[1..];
      PutOverwrites(m[1..], k, v);
      AttrKeyFront(m);
      AttrKeyFront(PutAttr(m, k, v));
    }
  }

  lemma {:induction false} AttrKeyFront(m: Attrs)
    requires m != []
    ensures AttrKey(m) == Entry(m[0]) + AttrKey(m[1..])
  {
    hide Entry;
    if |m| > 1 {
      var init, rest, last := m[..|m| - 1], m[1..], m[|m| - 1];
      AttrKeyFront(init);
      assert init[1..] == rest[..|rest| - 1] && rest[|rest| - 1] == last && init[0] == m[0];
    }
  }

  predicate HasKey(m: Attrs, k: string) {
    exists a <- m :: a.key == k
  }

  lemma {:induction false} PutKeys(m: Attrs, k: string, v: Value, j: string)
    ensures HasKey(PutAttr(m, k, v), j) <==> j == k || HasKey(m, j)
  {
    if m == [] {
      assert PutAttr(m, k, v) == [Attr(k, v)];
    } else if m[0].key == k {
      assert PutAttr(m, k, v) == [Attr(k, v)] + m[1..];
      assert m == [m[0]] + m[1..];
    } else {
      PutKeys(m[1..], k, v, j);
      assert PutAttr(m, k, v) == [m[0]] + PutAttr(m[1..], k, v);
      assert m == [m[0]] + m[1..];
    }
  }

  lemma {:induction false} PutEachKeys(m: Attrs, k: string)
    ensures HasKey(PutEach(m), k) <==> HasKey(m, k)
  {
    if m != [] {
      var init, last := m[..|m| - 1], m[|m| - 1];
      PutEachKeys(init, k);
      PutKeys(PutEach(init), last.key, last.val, k);
      assert m == init + [last];
    }
  }

  /** Putting entries one at a time reproduces them when their keys differ, and
      otherwise gives a strictly shorter key. */
  lemma {:induction false} PutEachKey(m: Attrs)
    ensures UniqueKeys(m) ==> PutEach(m) == m
    ensures |AttrKey(PutEach(m))| <= |AttrKey(m)|
    ensures !UniqueKeys(m) ==> |AttrKey(PutEach(m))| < |AttrKey(m)|
  {
    if m != [] {
      var init, last := m[..|m| - 1], m[|m| - 1];
      PutEachKey(init);
      PutEachKeys(init, last.key);
      UniqueSnoc(init, last);
      assert m == init + [last];
      if HasKey(init, last.key) {
        PutOverwrites(PutEach(init), last.key, last.val);
      } else {
        PutFresh(PutEach(init), last.key, last.val);
        AttrKeySnoc(PutEach(init), last);
      }
    }
  }

  lemma UniqueSnoc(m: Attrs, a: Attr)
    ensures UniqueKeys(m + [a]) <==> UniqueKeys(m) && !HasKey(m, a.key)
  {
    var s := m + [a];
    if UniqueKeys(s) {
      forall i, j | 0 <= i < j < |m| ensures m[i].key != m[j].key {
        assert s[i].key != s[j].key;
      }
      forall i | 0 <= i < |m| ensures m[i].key != a.key {
        assert s[i].key != s[|m|].key;
      }
    }
  }

  lemma AttrKeySnoc(m: Attrs, a: Attr)
    ensures AttrKey(m + [a]) == AttrKey(m) + Entry(a)
  {
    assert (m + [a])[..|m|] == m;
  }

  /** Re-indexing a row finds the group its first point was filed under exactly
      when no allowed key is repeated in that point. */
  lemma KeysAgree(m: Attrs, l: Level)
    ensures AttrKey(Filtered(m, l)) == FilterKey(m, l) <==> l == Coarse || UniqueKept(m)
  {
    PutEachKey(Kept(m));
  }

  /** Filtering twice is filtering once, and a coarser filter does not notice a
      finer one before it. */
  lemma FilteringIsIdempotent(m: Attrs, l: Level, l': Level)
    requires UniqueKept(m) && (l' == Coarse || l' == l)
    ensures Filtered(Filtered(m, l), l') == Filtered(m, l')
    ensures FilterKey(Filtered(m, l), l') == FilterKey(m, l')
    ensures UniqueKept(Filtered(m, l))
  {
    PutEachKey(Kept(m));
    KeptAreAllowed(m);
    KeptAreAllowed(Kept(m));
  }
}
