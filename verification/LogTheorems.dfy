/** What the log rollup counts. */
module LogTheorems {
  import opened Int64
  import opened Keyed
  import opened Nest
  import opened Measure
  import opened Pdata
  import opened Filter
  import opened LogRollup

  // ---------------------------------------------------------------------------
  // Attribute maps without repeated keys
  // ---------------------------------------------------------------------------

  lemma {:induction false} LookupIsMembership(m: Attrs, k: string, v: Value)
    requires UniqueKeys(m)
    ensures Lookup(m, k) == Some(v) <==> Attr(k, v) in m
  {
    if m != [] {
      UniqueTail(m);
      LookupIsMembership(m[1..], k, v);
      assert m == [m[0]] + m[1..];
    }
  }

  lemma UniqueTail(m: Attrs)
    requires UniqueKeys(m) && m != []
    ensures UniqueKeys(m[1..]) && forall a <- m[1..] :: a.key != m[0].key
  {
    forall i, j | 0 <= i < j < |m[1..]| ensures m[1..][i].key != m[1..][j].key {
      assert m[i + 1].key != m[j + 1].key;
    }
  }

  lemma {:induction false} PutMembers(m: Attrs, k: string, v: Value)
    requires UniqueKeys(m)
    ensures UniqueKeys(PutAttr(m, k, v))
    ensures forall a :: a in PutAttr(m, k, v) <==> a == Attr(k, v) || (a in m && a.key != k)
  {
    if m != [] {
      UniqueTail(m);
      assert m == [m[0]] + m[1..];
      if m[0].key != k {
        PutMembers(m[1..], k, v);
      }
    }
  }

  lemma {:induction false} RemoveMembers(m: Attrs, k: string)
    requires UniqueKeys(m)
    ensures UniqueKeys(RemoveAttr(m, k))
    ensures forall a :: a in RemoveAttr(m, k) <==> a in m && a.key != k
  {
    if m != [] {
      UniqueTail(m);
      assert m == [m[0]] + m[1..];
      if m[0].key != k {
        RemoveMembers(m[1..], k);
      } else if |m| > 1 {
        RemoveFirst(m);
      }
    }
  }

  /** The last entry takes the place of the first. */
  lemma RemoveFirst(m: Attrs)
    requires UniqueKeys(m) && |m| > 1
    ensures UniqueKeys(RemoveAttr(m, m[0].key))
    ensures forall a :: a in RemoveAttr(m, m[0].key) <==> a in m[1..]
  {
    var r := RemoveAttr(m, m[0].key);
    assert m[1..] == m[1..|m| - 1] + [m[|m| - 1]];
    assert r == [m[|m| - 1]] + m[1..|m| - 1];
    forall i, j | 0 <= i < j < |r| ensures r[i].key != r[j].key {
      assert r[j] == m[j];
      assert i > 0 ==> r[i] == m[i];
    }
  }

  // ---------------------------------------------------------------------------
  // Counts
  // ---------------------------------------------------------------------------

  function Count(r: LogRecord): Option<Value> {
    Lookup(r.attrs, COUNT)
  }

  /** What a rolled-up record stands for. */
  function Counted(): LogRecord -> int {
    (r: LogRecord) => if Count(r).Some? then Count(r).value.Int() else 0
  }

  function One(): LogRecord -> int {
    (r: LogRecord) => 1
  }

  ghost function UniqueLog(): LogRecord -> bool {
    (r: LogRecord) => UniqueKeys(r.attrs)
  }

  /** Every row of a rollup carries an integer count, so the branch for a missing
      count is never taken. */
  ghost function CountedLog(): LogRecord -> bool {
    (r: LogRecord) => UniqueKeys(r.attrs) && Count(r).Some? && Count(r).value.IntValue?
  }

  lemma FirstCopyCounts(m: Attrs, l: Level)
    requires UniqueKeys(m)
    ensures UniqueKeys(FirstCopy(m, l)) && Lookup(FirstCopy(m, l), COUNT) == Some(IntValue(1))
    ensures l == Coarse ==> Lookup(FirstCopy(m, l), "request_id") == Lookup(FirstCopy(m, l), "user_id") == None
  {
    hide Lookup, PutAttr, RemoveAttr, UniqueKeys;
    var p := PutAttr(m, COUNT, IntValue(1));
    PutMembers(m, COUNT, IntValue(1));
    LookupIsMembership(p, COUNT, IntValue(1));
    if l == Coarse {
      assert COUNT[1] != "request_id"[1] && COUNT[0] != "user_id"[0];
      StripKeeps(p, "request_id", "user_id", COUNT, IntValue(1));
    }
  }

  lemma StripKeeps(p: Attrs, j: string, k: string, c: string, v: Value)
    requires UniqueKeys(p) && Attr(c, v) in p && c != j && c != k
    ensures var r := RemoveAttr(RemoveAttr(p, j), k);
            UniqueKeys(r) && Lookup(r, c) == Some(v) && Lookup(r, j) == None && Lookup(r, k) == None
  {
    hide Lookup, PutAttr, RemoveAttr, UniqueKeys;
    var q := RemoveAttr(p, j);
    var r := RemoveAttr(q, k);
    RemoveMembers(p, j);
    RemoveMembers(q, k);
    LookupIsMembership(r, c, v);
    NoSuchKey(r, j);
    NoSuchKey(r, k);
  }

  lemma {:induction false} NoSuchKey(m: Attrs, k: string)
    requires forall a <- m :: a.key != k
    ensures Lookup(m, k) == None
  {
    if m != [] {
      NoSuchKey(m[1..], k);
    }
  }

  lemma BumpedCounts(m: Attrs)
    requires UniqueKeys(m) && Lookup(m, COUNT).Some?
    ensures UniqueKeys(Bumped(m))
    ensures Lookup(Bumped(m), COUNT) == Some(IntValue(Wrap64(Lookup(m, COUNT).value.Int() + 1)))
  {
    var v := IntValue(Wrap64(Lookup(m, COUNT).value.Int() + 1));
    PutMembers(m, COUNT, v);
    LookupIsMembership(Bumped(m), COUNT, v);
  }

  predicate Stripped(k: string, l: Level) {
    l == Coarse && (k == "request_id" || k == "user_id")
  }

  /** Apart from the count, the attributes are those of the original, without the
      ones a coarse rollup strips. */
  ghost predicate SameAttrs(l: Level, attrs: Attrs, from: Attrs) {
    forall a: Attr {:trigger a in attrs} {:trigger a in from} ::
      a.key != COUNT ==> (a in attrs <==> a in from && !Stripped(a.key, l))
  }

  lemma FirstCopyAttrs(m: Attrs, l: Level)
    requires UniqueKeys(m)
    ensures SameAttrs(l, FirstCopy(m, l), m)
  {
    hide PutAttr, RemoveAttr, UniqueKeys;
    var p := PutAttr(m, COUNT, IntValue(1));
    PutMembers(m, COUNT, IntValue(1));
    if l == Coarse {
      RemoveMembers(p, "request_id");
      RemoveMembers(RemoveAttr(p, "request_id"), "user_id");
    }
  }

  lemma BumpedAttrs(l: Level, attrs: Attrs, from: Attrs)
    requires UniqueKeys(attrs) && SameAttrs(l, attrs, from)
    ensures SameAttrs(l, Bumped(attrs), from)
  {
    hide PutAttr, UniqueKeys;
    var found := Lookup(attrs, COUNT);
    PutMembers(attrs, COUNT, IntValue(if found.Some? then Wrap64(found.value.Int() + 1) else 1));
  }

  lemma LogsKeep(l: Level)
    ensures Keeps(LogOps(l), UniqueLog(), CountedLog())
  {
    var o, v, w := LogOps(l), UniqueLog(), CountedLog();
    forall r | v(r) ensures w(o.start(r)) && o.dkey(o.start(r)) == o.skey(r) {
      FirstCopyCounts(r.attrs, l);
    }
    forall d, r | w(d) && v(r) ensures w(o.merge(d, r)) && o.dkey(o.merge(d, r)) == o.dkey(d) {
      BumpedCounts(d.attrs);
    }
  }

  function LogKeys(l: Level, rs: seq<LogRecord>): seq<string> {
    seq(|rs|, i requires 0 <= i < |rs| => LogKey(rs[i], l))
  }

  /** The records filed under one key, in order. */
  function Select(l: Level, rs: seq<LogRecord>, k: string): seq<LogRecord> {
    if rs == [] then []
    else
      var r := rs[|rs| - 1];
      if LogKey(r, l) == k then Select(l, rs[..|rs| - 1], k) + [r] else Select(l, rs[..|rs| - 1], k)
  }

  /** The row that stands for a group: its first record, less what is stripped, with
      the group's size. */
  ghost predicate StandsFor(l: Level, row: LogRecord, group: seq<LogRecord>) {
    && group != []
    && row.severity == group[0].severity && row.body == group[0].body
    && row.traceId == group[0].traceId && row.time == group[0].time
    && UniqueKeys(row.attrs) && SameAttrs(l, row.attrs, group[0].attrs)
    && Count(row) == Some(IntValue(Wrap64(|group|)))
  }

  lemma {:induction false} GroupIsCounted(l: Level, rs: seq<LogRecord>, k: string)
    requires All(rs, UniqueLog())
    ensures var g := Group(LogOps(l), rs, k);
            if Select(l, rs, k) == [] then g.None? else g.Some? && StandsFor(l, g.value, Select(l, rs, k))
  {
    if rs != [] {
      hide StandsFor;
      var init, r := rs[..|rs| - 1], rs[|rs| - 1];
      GroupIsCounted(l, init, k);
      assert UniqueLog()(r);
      var g, sel := Group(LogOps(l), init, k), Select(l, init, k);
      if LogKey(r, l) == k {
        if g.None? {
          StandsForFirst(l, r);
        } else {
          StandsForMore(l, g.value, sel, r);
        }
      }
    }
  }

  lemma StandsForFirst(l: Level, r: LogRecord)
    requires UniqueLog()(r)
    ensures StandsFor(l, LogOps(l).start(r), [r])
  {
    hide SameAttrs, FirstCopy;
    FirstCopyCounts(r.attrs, l);
    FirstCopyAttrs(r.attrs, l);
  }

  lemma StandsForMore(l: Level, row: LogRecord, group: seq<LogRecord>, r: LogRecord)
    requires StandsFor(l, row, group)
    ensures StandsFor(l, LogOps(l).merge(row, r), group + [r])
  {
    hide Wrap64, SameAttrs, Bumped;
    BumpedCounts(row.attrs);
    BumpedAttrs(l, row.attrs, group[0].attrs);
    WrapSum(|group|, 1);
    assert (group + [r])[0] == group[0];
  }

  function RecordsOf(ms: Logs, rk: string, sk: string): seq<LogRecord> {
    Pick(ScopeKey, Pick(AttrKey, ms, rk), sk)
  }

  /** No record repeats an attribute key. */
  ghost predicate UniqueLogs(ms: Logs) {
    forall n <- ms :: forall s <- n.items :: All(s.items, UniqueLog())
  }

  lemma RecordsCommute(l: Level, ms: Logs, rk: string, sk: string)
    requires UniqueLogs(ms)
    ensures Pick(AttrKey, Merge(ResourceLogOps(l), [], ms), rk) == Merge(ScopeLogOps(l), [], Pick(AttrKey, ms, rk))
    ensures RecordsOf(Merge(ResourceLogOps(l), [], ms), rk, sk) == Merge(LogOps(l), [], RecordsOf(ms, rk, sk))
    ensures All(RecordsOf(ms, rk, sk), UniqueLog())
  {
    hide Merge;
    LogsKeep(l);
    var v, w := Each<Scope, LogRecord>(UniqueLog()), EachRow<Scope, LogRecord>(LogOps(l), CountedLog());
    NestKeeps<Scope, LogRecord>(ScopeKey, LogOps(l), UniqueLog(), CountedLog());
    assert forall n <- ms :: All(n.items, v);
    PickCommutes(AttrKey, ScopeLogOps(l), v, w, ms, rk);
    PickAll(AttrKey, ms, rk, v);
    var ns := Pick(AttrKey, ms, rk);
    assert forall n <- ns :: All(n.items, UniqueLog()) by {
      assert forall n <- ns :: v(n);
    }
    PickCommutes(ScopeKey, LogOps(l), UniqueLog(), CountedLog(), ns, sk);
    PickAll(ScopeKey, ns, sk, UniqueLog());
  }

  lemma RecordsOnce(l: Level, from: seq<LogRecord>)
    requires All(from, UniqueLog())
    ensures var to := Merge(LogOps(l), [], from);
            && LogKeys(l, to) == Distinct(LogKeys(l, from))
            && forall r <- to :: StandsFor(l, r, Select(l, from, LogKey(r, l)))
  {
    var o, to := LogOps(l), Merge(LogOps(l), [], from);
    LogsKeep(l);
    TableIsGroupBy(o, UniqueLog(), CountedLog(), from);
    assert LogKeys(l, to) == MapKeys(o.dkey, to);
    assert LogKeys(l, from) == MapKeys(o.skey, from);
    forall r | r in to ensures StandsFor(l, r, Select(l, from, LogKey(r, l))) {
      var i :| 0 <= i < |to| && to[i] == r;
      assert o.dkey(r) == LogKey(r, l);
      GroupIsCounted(l, from, LogKey(r, l));
    }
  }

  /** Exactly one record per distinct resource key, scope key and log key, in
      first-occurrence order; it is the group's first record, carrying the number
      of records of the group. */
  lemma LogRollupIsCountedGroupBy(l: Level, signals: seq<Logs>, rk: string, sk: string)
    requires l != Fine && UniqueLogs(Concat(signals))
    ensures var ms, out := Concat(signals), RolledUpLogs(l, true, signals);
            && HeadKeys(AttrKey, out) == Distinct(HeadKeys(AttrKey, ms))
            && HeadKeys(ScopeKey, Pick(AttrKey, out, rk)) == Distinct(HeadKeys(ScopeKey, Pick(AttrKey, ms, rk)))
            && var from, to := RecordsOf(ms, rk, sk), RecordsOf(out, rk, sk);
               && LogKeys(l, to) == Distinct(LogKeys(l, from))
               && forall r <- to :: StandsFor(l, r, Select(l, from, LogKey(r, l)))
  {
    hide Merge;
    var ms := Concat(signals);
    RecordsCommute(l, ms, rk, sk);
    RecordsOnce(l, RecordsOf(ms, rk, sk));
    LogHeadsOnce(l, ms, rk);
  }

  lemma LogHeadsOnce(l: Level, ms: Logs, rk: string)
    requires UniqueLogs(ms)
    ensures HeadKeys(AttrKey, Merge(ResourceLogOps(l), [], ms)) == Distinct(HeadKeys(AttrKey, ms))
    ensures HeadKeys(ScopeKey, Merge(ScopeLogOps(l), [], Pick(AttrKey, ms, rk))) ==
            Distinct(HeadKeys(ScopeKey, Pick(AttrKey, ms, rk)))
  {
    hide Merge;
    LogsKeep(l);
    var v, w := Each<Scope, LogRecord>(UniqueLog()), EachRow<Scope, LogRecord>(LogOps(l), CountedLog());
    NestKeeps<Scope, LogRecord>(ScopeKey, LogOps(l), UniqueLog(), CountedLog());
    assert forall n <- ms :: All(n.items, v);
    NodesOnce(AttrKey, ScopeLogOps(l), v, w, ms);
    PickAll(AttrKey, ms, rk, v);
    var ns := Pick(AttrKey, ms, rk);
    assert forall n <- ns :: All(n.items, UniqueLog()) by {
      assert forall n <- ns :: v(n);
    }
    NodesOnce(ScopeKey, LogOps(l), UniqueLog(), CountedLog(), ns);
  }

  /** Resources and scopes are copied from the first of their key. */
  lemma FirstLogResourcesAndScopes(l: Level, signals: seq<Logs>, rk: string)
    requires l != Fine && UniqueLogs(Concat(signals))
    ensures var ms, out := Concat(signals), RolledUpLogs(l, true, signals);
            && (forall n <- out :: FirstHead(AttrKey, ms, AttrKey(n.head)) == Some(n.head))
            && (forall n <- Pick(AttrKey, out, rk) ::
                  FirstHead(ScopeKey, Pick(AttrKey, ms, rk), ScopeKey(n.head)) == Some(n.head))
  {
    hide Merge;
    var ms := Concat(signals);
    LogsKeep(l);
    var v, w := Each<Scope, LogRecord>(UniqueLog()), EachRow<Scope, LogRecord>(LogOps(l), CountedLog());
    NestKeeps<Scope, LogRecord>(ScopeKey, LogOps(l), UniqueLog(), CountedLog());
    assert forall n <- ms :: All(n.items, v);
    HeadsAreFirst(AttrKey, ScopeLogOps(l), v, w, ms);
    RecordsCommute(l, ms, rk, "");
    PickAll(AttrKey, ms, rk, v);
    var ns := Pick(AttrKey, ms, rk);
    assert forall n <- ns :: All(n.items, UniqueLog()) by {
      assert forall n <- ns :: v(n);
    }
    HeadsAreFirst(ScopeKey, LogOps(l), UniqueLog(), CountedLog(), ns);
  }

  lemma LogsWeigh(l: Level)
    ensures Weighs(LogOps(l), UniqueLog(), CountedLog(), One(), Counted())
  {
    hide Congruent;
    var o := LogOps(l);
    forall r | UniqueLog()(r) ensures Congruent(Counted()(o.start(r)), One()(r)) {
      FirstCopyCounts(r.attrs, l);
      SameIsCongruent(1);
    }
    forall d, r | CountedLog()(d) && UniqueLog()(r)
      ensures Congruent(Counted()(o.merge(d, r)), Counted()(d) + One()(r))
    {
      BumpedCounts(d.attrs);
      WrapIsCongruent(Count(d).value.Int() + 1);
    }
  }

  lemma {:induction false} SumOfOnes(rs: seq<LogRecord>)
    ensures Sum(One(), rs) == |rs|
  {
    if rs != [] {
      SumOfOnes(rs[..|rs| - 1]);
    }
  }

  /** The counts of a rollup add up to the number of records that went into it. */
  lemma LogRollupConservesCounts(l: Level, signals: seq<Logs>, rk: string, sk: string)
    requires l != Fine && UniqueLogs(Concat(signals))
    ensures Congruent(Sum(Counted(), RecordsOf(RolledUpLogs(l, true, signals), rk, sk)),
                      |RecordsOf(Concat(signals), rk, sk)|)
  {
    var ms := Concat(signals);
    RecordsCommute(l, ms, rk, sk);
    LogsKeep(l);
    LogsWeigh(l);
    SumOfOnes(RecordsOf(ms, rk, sk));
    CountsAddUp(l, RecordsOf(ms, rk, sk));
  }

  lemma CountsAddUp(l: Level, rs: seq<LogRecord>)
    requires All(rs, UniqueLog())
    ensures Congruent(Sum(Counted(), Merge(LogOps(l), [], rs)), Sum(One(), rs))
  {
    hide PutAll, Congruent;
    LogsKeep(l);
    LogsWeigh(l);
    TotalIsConserved(LogOps(l), UniqueLog(), CountedLog(), One(), Counted(), Empty(), rs);
    assert Sum(Counted(), []) == 0;
  }

  // ---------------------------------------------------------------------------
  // Rolling up a rollup forgets the counts
  // ---------------------------------------------------------------------------

  lemma {:induction false} SelectSingles(l: Level, rs: seq<LogRecord>, k: string)
    requires DistinctKeys(LogOps(l), rs)
    ensures |Select(l, rs, k)| <= 1
    ensures k !in LogKeys(l, rs) ==> Select(l, rs, k) == []
  {
    hide LogKey;
    if rs != [] {
      var init, r := rs[..|rs| - 1], rs[|rs| - 1];
      SelectSingles(l, init, k);
      assert LogKeys(l, rs) == LogKeys(l, init) + [LogKey(r, l)];
      if LogKey(r, l) == k {
        forall i | 0 <= i < |init| ensures LogKeys(l, init)[i] != k {
          assert LogOps(l).dkey(rs[i]) != LogOps(l).dkey(rs[|init|]);
        }
      }
    }
  }

  lemma {:induction false} KeysAlreadyDistinct(ks: seq<string>)
    requires forall i, j | 0 <= i < j < |ks| :: ks[i] != ks[j]
    ensures Distinct(ks) == ks
  {
    if ks != [] {
      KeysAlreadyDistinct(ks[..|ks| - 1]);
    }
  }

  lemma SinglesCountOne(l: Level, once: seq<LogRecord>)
    requires All(once, UniqueLog()) && DistinctKeys(LogOps(l), once)
    ensures LogKeys(l, Merge(LogOps(l), [], once)) == LogKeys(l, once)
    ensures forall r <- Merge(LogOps(l), [], once) :: Count(r) == Some(IntValue(1))
  {
    hide Merge, LogKey, Select;
    RecordsOnce(l, once);
    DistinctLogKeys(l, once);
    KeysAlreadyDistinct(LogKeys(l, once));
    forall r | r in Merge(LogOps(l), [], once) ensures Count(r) == Some(IntValue(1)) {
      SelectSingles(l, once, LogKey(r, l));
    }
  }

  lemma DistinctLogKeys(l: Level, rs: seq<LogRecord>)
    requires DistinctKeys(LogOps(l), rs)
    ensures forall i, j | 0 <= i < j < |rs| :: LogKeys(l, rs)[i] != LogKeys(l, rs)[j]
  {
    hide LogKey;
    forall i, j | 0 <= i < j < |rs| ensures LogKeys(l, rs)[i] != LogKeys(l, rs)[j] {
      assert LogOps(l).dkey(rs[i]) != LogOps(l).dkey(rs[j]);
    }
  }

  /** A second rollup finds every key once and starts its count again, so it keeps
      a count exactly when the first rollup had one record, up to wrap-around,
      under that key. */
  lemma RerollingRestartsCounts(l: Level, rs: seq<LogRecord>, i: nat)
    requires All(rs, UniqueLog()) && i < |Merge(LogOps(l), [], rs)|
    ensures var once := Merge(LogOps(l), [], rs);
            var twice := Merge(LogOps(l), [], once);
            && LogKeys(l, twice) == LogKeys(l, once)
            && Count(twice[i]) == Some(IntValue(1))
            && (Count(twice[i]) == Count(once[i]) <==> Congruent(|Select(l, rs, LogKey(once[i], l))|, 1))
  {
    hide Merge, Congruent;
    var once := Merge(LogOps(l), [], rs);
    var twice := Merge(LogOps(l), [], once);
    LogsKeep(l);
    MergeKeeps(LogOps(l), UniqueLog(), CountedLog(), [], rs);
    SinglesCountOne(l, once);
    assert |LogKeys(l, twice)| == |LogKeys(l, once)|;
    assert twice[i] in twice;
    RecordsOnce(l, rs);
    assert once[i] in once;
    CongruentMeansSameBits(|Select(l, rs, LogKey(once[i], l))|, 1);
  }
}
