/** The ordered time index beside the key map: what a B-tree promises, and how the
    index, the key map and the cached data make up one sorted list. */
module TimeIndex {
  import opened Int64
  import opened Keyed
  import opened Live

  /** Replace or insert. */
  function BInsert(index: seq<TimeKey>, x: TimeKey): seq<TimeKey> {
    if index == [] then [x]
    else if x == index[0] then index
    else if Less(x, index[0]) then [x] + index
    else [index[0]] + BInsert(index[1..], x)
  }

  function Is(x: TimeKey): TimeKey -> bool {
    (y: TimeKey) => y == x
  }

  function BDelete(index: seq<TimeKey>, x: TimeKey): seq<TimeKey> {
    Keep(Opposite(Is(x)), index)
  }

  function Between(ge: TimeKey, lt: TimeKey): TimeKey -> bool {
    (y: TimeKey) => !Less(y, ge) && Less(y, lt)
  }

  /** The items from `ge` up to but excluding `lt`, in order. */
  function AscendRange(index: seq<TimeKey>, ge: TimeKey, lt: TimeKey): seq<TimeKey> {
    Keep(Between(ge, lt), index)
  }

  ghost predicate Ascending(index: seq<TimeKey>) {
    forall i, j | 0 <= i < j < |index| :: Less(index[i], index[j])
  }

  /** The index, the key map and the live keys describe the same pairs. */
  ghost predicate Agrees(index: seq<TimeKey>, keyMap: map<string, int>, live: set<string>) {
    && Ascending(index)
    && keyMap.Keys == live
    && (forall x <- index :: x.key in keyMap && keyMap[x.key] == x.ts)
    && (forall k <- keyMap :: TimeKey(keyMap[k], k) in index)
  }

  ghost predicate Covers<P>(data: map<string, P>, index: seq<TimeKey>) {
    forall x <- index :: x.key in data
  }

  /** The entries of the index together with their data. */
  ghost function Joined<P>(index: seq<TimeKey>, data: map<string, P>): seq<Timed<P>>
    requires Covers(data, index)
  {
    seq(|index|, i requires 0 <= i < |index| => Timed(index[i], data[index[i].key]))
  }

  lemma DistinctInIndex(index: seq<TimeKey>, keyMap: map<string, int>, live: set<string>, i: nat, j: nat)
    requires Agrees(index, keyMap, live) && i < |index| && j < |index| && index[i].key == index[j].key
    ensures i == j
  {
    assert index[i] in index && index[j] in index;
    assert index[i] == index[j];
    LessIsStrictOrder(index[i], index[i], index[i]);
  }

  lemma {:induction false} AscendingKeep(p: TimeKey -> bool, index: seq<TimeKey>)
    requires Ascending(index)
    ensures Ascending(Keep(p, index))
  {
    if index != [] {
      var rest := index[1..];
      forall i, j | 0 <= i < j < |rest| ensures Less(rest[i], rest[j]) {
        assert Less(index[i + 1], index[j + 1]);
      }
      AscendingKeep(p, rest);
      KeepMembers(p, rest);
      forall x | x in Keep(p, rest) ensures Less(index[0], x) {
        var j :| 0 <= j < |rest| && rest[j] == x;
        assert index[j + 1] == x;
      }
    }
  }

  /** Dropping keys from the index drops them from the list. */
  lemma {:induction false} JoinedKeep<P(!new)>(p: TimeKey -> bool, q: Timed<P> -> bool, index: seq<TimeKey>,
      data: map<string, P>, data': map<string, P>)
    requires Covers(data, index)
    requires forall x <- index :: p(x) == q(Timed(x, data[x.key]))
    requires forall x <- index | p(x) :: x.key in data' && data'[x.key] == data[x.key]
    ensures Covers(data', Keep(p, index))
    ensures Joined(Keep(p, index), data') == Keep(q, Joined(index, data))
  {
    KeepMembers(p, index);
    if index != [] {
      var rest := index[1..];
      JoinedKeep(p, q, rest, data, data');
      assert Joined(index, data) == [Timed(index[0], data[index[0].key])] + Joined(rest, data);
      if p(index[0]) {
        assert Keep(p, index) == [index[0]] + Keep(p, rest);
        assert Joined(Keep(p, index), data') == [Timed(index[0], data[index[0].key])] + Joined(Keep(p, rest), data');
      }
    }
  }

  lemma {:induction false} FindJoined<P(!new)>(index: seq<TimeKey>, data: map<string, P>, key: string)
    requires Covers(data, index)
    ensures Find(Joined(index, data), key) ==
            if exists x <- index :: x.key == key then Some(data[key]) else None
  {
    if index != [] {
      var rest := index[1..];
      FindJoined(rest, data, key);
      assert index == [index[0]] + rest;
      assert Joined(index, data)[1..] == Joined(rest, data);
    }
  }

  lemma RemovalAgrees(index: seq<TimeKey>, keyMap: map<string, int>, live: set<string>, key: string)
    requires Agrees(index, keyMap, live) && key in live
    ensures Agrees(BDelete(index, TimeKey(keyMap[key], key)), keyMap - {key}, live - {key})
  {
    var p := Opposite(Is(TimeKey(keyMap[key], key)));
    KeepMembers(p, index);
    AscendingKeep(p, index);
  }

  /** The removal callback's repair of one index. */
  lemma RemoveFromIndex<P(!new)>(index: seq<TimeKey>, keyMap: map<string, int>, data: map<string, P>, key: string)
    requires Agrees(index, keyMap, data.Keys) && key in data
    ensures var index' := BDelete(index, TimeKey(keyMap[key], key));
            && Agrees(index', keyMap - {key}, (data - {key}).Keys)
            && Joined(index', data - {key}) == Without(Joined(index, data), key)
    ensures Find(Joined(index, data), key) == Some(data[key])
  {
    hide Joined, Find, Keep;
    var x := TimeKey(keyMap[key], key);
    RemovalAgrees(index, keyMap, data.Keys, key);
    assert (data - {key}).Keys == data.Keys - {key};
    JoinedKeep(Opposite(Is(x)), Opposite(KeyIs(key)), index, data, data - {key});
    FindJoined(index, data, key);
    assert x in index;
  }

  lemma AbsentFromIndex<P(!new)>(index: seq<TimeKey>, keyMap: map<string, int>, data: map<string, P>, key: string)
    requires Agrees(index, keyMap, data.Keys) && key !in data
    ensures Find(Joined(index, data), key) == None
    ensures Without(Joined(index, data), key) == Joined(index, data)
  {
    FindJoined(index, data, key);
    KeepAll(Opposite(KeyIs(key)), Joined(index, data));
  }

  lemma {:induction false} BInsertMembers(index: seq<TimeKey>, x: TimeKey)
    ensures forall y :: y in BInsert(index, x) <==> y == x || y in index
  {
    if index != [] {
      BInsertMembers(index[1..], x);
      assert index == [index[0]] + index[1..];
    }
  }

  lemma {:induction false} BInsertAscending(index: seq<TimeKey>, x: TimeKey)
    requires Ascending(index)
    ensures Ascending(BInsert(index, x))
  {
    if index != [] {
      var rest := index[1..];
      forall i, j | 0 <= i < j < |rest| ensures Less(rest[i], rest[j]) {
        assert Less(index[i + 1], index[j + 1]);
      }
      LessIsStrictOrder(x, index[0], index[0]);
      if Less(x, index[0]) {
        forall j | 0 <= j < |index| ensures Less(x, index[j]) {
          LessIsStrictOrder(x, index[0], index[j]);
        }
      } else if x != index[0] {
        BInsertAscending(rest, x);
        BInsertMembers(rest, x);
        forall y | y in BInsert(rest, x) ensures Less(index[0], y) {
          if y != x {
            var j :| 0 <= j < |rest| && rest[j] == y;
            assert index[j + 1] == y;
          }
        }
      }
    }
  }

  lemma {:induction false} JoinedInsert<P(!new)>(index: seq<TimeKey>, data: map<string, P>, x: TimeKey, d: P)
    requires Covers(data, index) && forall y <- index :: y.key != x.key
    ensures Covers(data[x.key := d], BInsert(index, x))
    ensures Joined(BInsert(index, x), data[x.key := d]) == Insert(Joined(index, data), Timed(x, d))
  {
    BInsertMembers(index, x);
    if index != [] {
      var rest, data' := index[1..], data[x.key := d];
      JoinedInsert(rest, data, x, d);
      assert Joined(index, data) == [Timed(index[0], data[index[0].key])] + Joined(rest, data);
      assert index[0] in index;
      if Less(x, index[0]) {
        assert Joined([x] + index, data') == [Timed(x, d)] + Joined(index, data);
      } else {
        assert Joined([index[0]] + BInsert(rest, x), data') ==
               [Timed(index[0], data[index[0].key])] + Joined(BInsert(rest, x), data');
      }
    }
  }

  lemma AddToIndex<P(!new)>(index: seq<TimeKey>, keyMap: map<string, int>, data: map<string, P>, x: TimeKey, d: P)
    requires Agrees(index, keyMap, data.Keys) && x.key !in data
    ensures Agrees(BInsert(index, x), keyMap[x.key := x.ts], data[x.key := d].Keys)
    ensures Joined(BInsert(index, x), data[x.key := d]) == Insert(Joined(index, data), Timed(x, d))
  {
    BInsertMembers(index, x);
    BInsertAscending(index, x);
    JoinedInsert(index, data, x, d);
  }

  /** The B-tree bounds used by the range reads select the closed time window, up to
      the instant before the upper bound, which may have wrapped around. */
  lemma AscendRangeIsWindow<P(!new)>(index: seq<TimeKey>, data: map<string, P>, lo: int, hi: int)
    requires Covers(data, index)
    ensures var found := AscendRange(index, TimeKey(lo, ""), TimeKey(Wrap64(hi + 1), ""));
            Covers(data, found) && Joined(found, data) == Range(Joined(index, data), lo, Upto(hi))
  {
    hide Wrap64;
    var end: int := Wrap64(hi + 1);
    JoinedKeep(Between(TimeKey(lo, ""), TimeKey(end, "")), Live.Within(lo, end - 1), index, data, data);
  }

  /** Nothing wraps below the last instant. */
  lemma UptoIsItself(hi: int)
    ensures Upto(hi) == hi <==> -TWO_63 <= hi + 1 < TWO_63
  {
  }

  /** The list is the live entries, each once, in order of time and then key. */
  lemma JoinedIsSortedListing<P(!new)>(index: seq<TimeKey>, keyMap: map<string, int>, data: map<string, P>)
    requires Agrees(index, keyMap, data.Keys)
    ensures Sorted(Joined(index, data)) && DistinctNames(Joined(index, data))
    ensures forall t: Timed<P> :: t in Joined(index, data) <==>
              t.at.key in data && keyMap[t.at.key] == t.at.ts && data[t.at.key] == t.data
  {
    var s := Joined(index, data);
    forall i, j | 0 <= i < j < |s| ensures s[i].at.key != s[j].at.key {
      if s[i].at.key == s[j].at.key {
        DistinctInIndex(index, keyMap, data.Keys, i, j);
      }
    }
    forall t: Timed<P> | t.at.key in data && keyMap[t.at.key] == t.at.ts && data[t.at.key] == t.data ensures t in s {
      assert t.at in index;
      var i :| 0 <= i < |index| && index[i] == t.at;
      assert s[i] == t;
    }
  }
}
