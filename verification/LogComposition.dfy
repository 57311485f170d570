/** Rolling up rolled-up logs: what the second count says. */
module LogComposition {
  import opened Int64
  import opened Keyed
  import opened Nest
  import opened Measure
  import opened Pdata
  import opened Filter
  import opened LogRollup
  import opened LogTheorems
  import opened Keys

  // ---------------------------------------------------------------------------
  // Keys at two levels
  // ---------------------------------------------------------------------------

  /** Records with one key at a level have one key at every coarser level. */
  lemma KeysRefine(l: Level, l': Level, r: LogRecord, s: LogRecord)
    requires Coarser(l, l') && LogKey(r, l) == LogKey(s, l)
    ensures LogKey(r, l') == LogKey(s, l')
  {
    hide LogKey;
    LogKeysTellApart(r, s, l);
    LogKeysTellApart(r, s, l');
  }

  // ---------------------------------------------------------------------------
  // Counts under a coarser key
  // ---------------------------------------------------------------------------

  function Under(l: Level, k: string): LogRecord -> int {
    (r: LogRecord) => if LogKey(r, l) == k then 1 else 0
  }

  function CountUnder(l: Level, k: string): LogRecord -> int {
    (r: LogRecord) => if LogKey(r, l) == k then Counted()(r) else 0
  }

  lemma FirstUnder(l: Level, l': Level, k: string, r: LogRecord)
    requires UniqueLog()(r)
    ensures CountUnder(l', k)(LogOps(l).start(r)) == Under(l', k)(r)
  {
    hide FirstCopy, LogKey;
    var row := r.(attrs := FirstCopy(r.attrs, l));
    FirstCopyCounts(r.attrs, l);
    SameKey(r, FirstCopy(r.attrs, l), l');
    assert LogOps(l).start(r) == row && Count(row) == Some(IntValue(1));
    assert LogKey(row, l') == LogKey(r, l');
    assert Counted()(row) == 1;
    assert CountUnder(l', k)(row) == if LogKey(row, l') == k then Counted()(row) else 0;
    assert Under(l', k)(r) == if LogKey(r, l') == k then 1 else 0;
  }

  lemma MoreUnder(l: Level, l': Level, k: string, d: LogRecord, r: LogRecord)
    requires Coarser(l, l') && CountedLog()(d) && LogKey(d, l) == LogKey(r, l)
    ensures Congruent(CountUnder(l', k)(LogOps(l).merge(d, r)), CountUnder(l', k)(d) + Under(l', k)(r))
  {
    hide Congruent, Bumped, Wrap64, LogKey;
    KeysRefine(l, l', d, r);
    BumpedCounts(d.attrs);
    SameKey(d, Bumped(d.attrs), l');
    WrapIsCongruent(Counted()(d) + 1);
    SameIsCongruent(0);
  }

  lemma UnderWeighs(l: Level, l': Level, k: string)
    requires Coarser(l, l')
    ensures Weighs(LogOps(l), UniqueLog(), CountedLog(), Under(l', k), CountUnder(l', k))
  {
    hide Congruent, FirstCopy, Bumped, LogKey, Counted, CountedLog, UniqueLog, Under, CountUnder;
    var o, v, w, m, mu := LogOps(l), UniqueLog(), CountedLog(), Under(l', k), CountUnder(l', k);
    forall r | v(r) ensures Congruent(mu(o.start(r)), m(r)) {
      FirstUnder(l, l', k, r);
      SameIsCongruent(m(r));
    }
    forall d, r | w(d) && v(r) && o.dkey(d) == o.skey(r) ensures Congruent(mu(o.merge(d, r)), mu(d) + m(r)) {
      MoreUnder(l, l', k, d, r);
    }
  }

  lemma SameKey(r: LogRecord, attrs: Attrs, l: Level)
    ensures LogKey(r.(attrs := attrs), l) == LogKey(r, l)
  {
  }

  lemma {:induction false} SumUnder(l: Level, rs: seq<LogRecord>, k: string)
    ensures Sum(Under(l, k), rs) == |Select(l, rs, k)|
    ensures Sum(CountUnder(l, k), rs) == Sum(Counted(), Select(l, rs, k))
  {
    hide LogKey, Count;
    if rs != [] {
      var init, r := rs[..|rs| - 1], rs[|rs| - 1];
      SumUnder(l, init, k);
      var sel := Select(l, init, k);
      assert (sel + [r])[..|sel|] == sel;
    }
  }

  /** The counts of the rows under a coarser key add up to the records there. */
  lemma CountsUnderKey(l: Level, l': Level, rs: seq<LogRecord>, k: string)
    requires Coarser(l, l') && All(rs, UniqueLog())
    ensures Congruent(Sum(Counted(), Select(l', Merge(LogOps(l), [], rs), k)), |Select(l', rs, k)|)
  {
    hide PutAll, Congruent, LogOps;
    LogsKeep(l);
    UnderWeighs(l, l', k);
    TotalIsConserved(LogOps(l), UniqueLog(), CountedLog(), Under(l', k), CountUnder(l', k), Empty(), rs);
    assert Sum(CountUnder(l', k), []) == 0;
    SumUnder(l', rs, k);
    SumUnder(l', Merge(LogOps(l), [], rs), k);
  }

  // ---------------------------------------------------------------------------
  // The same groups
  // ---------------------------------------------------------------------------

  lemma {:induction false} DistinctMembers(ks: seq<string>)
    ensures forall k :: k in Distinct(ks) <==> k in ks
  {
    DistinctIsFirstOccurrences(ks);
  }

  /** One more record in the table. */
  lemma OneMoreRow(l: Level, l': Level, t: Table<LogRecord>, r: LogRecord)
    requires Coarser(l, l') && Indexed(LogOps(l), t)
    ensures var ks := LogKeys(l', t.rows);
            LogKeys(l', Put(LogOps(l), t, r).rows) ==
            if LogKey(r, l) in t.index then ks else ks + [LogKey(r, l')]
    ensures LogKey(r, l) in t.index ==> LogKey(r, l') in LogKeys(l', t.rows)
  {
    hide LogKey, FirstCopy, Bumped;
    if LogKey(r, l) in t.index {
      var i := t.index[LogKey(r, l)];
      var d := t.rows[i];
      assert LogOps(l).dkey(d) == LogKey(r, l);
      KeysRefine(l, l', d, r);
      SameKey(d, Bumped(d.attrs), l');
      assert LogKeys(l', t.rows)[i] == LogKey(r, l');
    } else {
      SameKey(r, FirstCopy(r.attrs, l), l');
    }
  }

  lemma OneMoreGroup(ks: seq<string>, js: seq<string>, k: string, known: bool)
    requires Distinct(ks) == Distinct(js) && (known ==> k in ks)
    ensures Distinct(if known then ks else ks + [k]) == Distinct(js + [k])
  {
    hide Distinct;
    DistinctSnoc(ks, k);
    DistinctSnoc(js, k);
    DistinctMembers(ks);
  }

  lemma {:induction false} SameGroups(l: Level, l': Level, rs: seq<LogRecord>)
    requires Coarser(l, l') && All(rs, UniqueLog())
    ensures Distinct(LogKeys(l', Merge(LogOps(l), [], rs))) == Distinct(LogKeys(l', rs))
  {
    hide LogKey, LogOps, Put, Keeps, Distinct, Indexed;
    if rs != [] {
      var init, r := rs[..|rs| - 1], rs[|rs| - 1];
      SameGroups(l, l', init);
      LogsKeep(l);
      PutAllKeeps(LogOps(l), UniqueLog(), CountedLog(), Empty(), init);
      var t := PutAll(LogOps(l), Empty(), init);
      OneMoreRow(l, l', t, r);
      var ks, k := LogKeys(l', t.rows), LogKey(r, l');
      assert LogKeys(l', rs) == LogKeys(l', init) + [k];
      OneMoreGroup(ks, LogKeys(l', init), k, LogKey(r, l) in t.index);
    }
  }

  lemma DistinctSnoc(ks: seq<string>, k: string)
    ensures Distinct(ks + [k]) == if k in Distinct(ks) then Distinct(ks) else Distinct(ks) + [k]
  {
    assert (ks + [k])[..|ks|] == ks;
  }

  // ---------------------------------------------------------------------------
  // The second count
  // ---------------------------------------------------------------------------

  /** `twice` is a rollup at `l'` of the rollup `once`, and `direct` the same of what
      went into `once`: they have the same groups; a count of `twice` is the number of
      rows of `once` in its group, and is that of `direct` if and only if the counts of
      those rows add up to their number. */
  ghost predicate CountsRows(l': Level, once: seq<LogRecord>, twice: seq<LogRecord>, direct: seq<LogRecord>) {
    && LogKeys(l', twice) == LogKeys(l', direct) && |twice| == |direct|
    && forall i | 0 <= i < |twice| ::
         var rows := Select(l', once, LogKey(twice[i], l'));
         && Count(twice[i]) == Some(IntValue(Wrap64(|rows|)))
         && (Count(twice[i]) == Count(direct[i]) <==> Congruent(Sum(Counted(), rows), |rows|))
  }

  lemma CountOfRow(l: Level, from: seq<LogRecord>, i: nat)
    requires All(from, UniqueLog()) && i < |Merge(LogOps(l), [], from)|
    ensures var row := Merge(LogOps(l), [], from)[i];
            && Count(row) == Some(IntValue(Wrap64(|Select(l, from, LogKey(row, l))|)))
            && LogKey(row, l) == LogKeys(l, Merge(LogOps(l), [], from))[i]
  {
    hide Merge, LogKey, Wrap64, Count, Select, SameAttrs, Distinct;
    RecordsOnce(l, from);
    assert Merge(LogOps(l), [], from)[i] in Merge(LogOps(l), [], from);
  }

  lemma RerolledCounts(l: Level, l': Level, rs: seq<LogRecord>)
    requires Coarser(l, l') && All(rs, UniqueLog())
    ensures var once := Merge(LogOps(l), [], rs);
            CountsRows(l', once, Merge(LogOps(l'), [], once), Merge(LogOps(l'), [], rs))
  {
    hide Merge, Congruent, LogKey, Wrap64, Count, Select, StandsFor, Distinct, LogOps;
    var once := Merge(LogOps(l), [], rs);
    var twice, direct := Merge(LogOps(l'), [], once), Merge(LogOps(l'), [], rs);
    LogsKeep(l);
    MergeKeeps(LogOps(l), UniqueLog(), CountedLog(), [], rs);
    RecordsOnce(l', once);
    RecordsOnce(l', rs);
    SameGroups(l, l', rs);
    assert |LogKeys(l', twice)| == |LogKeys(l', direct)|;
    forall i | 0 <= i < |twice|
      ensures var rows := Select(l', once, LogKey(twice[i], l'));
              && Count(twice[i]) == Some(IntValue(Wrap64(|rows|)))
              && (Count(twice[i]) == Count(direct[i]) <==> Congruent(Sum(Counted(), rows), |rows|))
    {
      var k := LogKey(twice[i], l');
      CountOfRow(l', once, i);
      CountOfRow(l', rs, i);
      CountsUnderKey(l, l', rs, k);
      SameCount(|Select(l', once, k)|, |Select(l', rs, k)|, Sum(Counted(), Select(l', once, k)));
    }
  }

  lemma SameCount(n: int, m: int, sum: int)
    requires Congruent(sum, m)
    ensures IntValue(Wrap64(n)) == IntValue(Wrap64(m)) <==> Congruent(sum, n)
  {
    CongruentMeansSameBits(n, m);
    CongruentMeansSameBits(sum, m);
    CongruentMeansSameBits(sum, n);
  }

  lemma RolledLogsUnique(l: Level, ms: Logs)
    requires UniqueLogs(ms)
    ensures UniqueLogs(Merge(ResourceLogOps(l), [], ms))
  {
    hide Merge;
    LogsKeep(l);
    var v, w := Each<Scope, LogRecord>(UniqueLog()), EachRow<Scope, LogRecord>(LogOps(l), CountedLog());
    NestKeeps<Scope, LogRecord>(ScopeKey, LogOps(l), UniqueLog(), CountedLog());
    NestKeeps<Attrs, ScopeOf<LogRecord>>(AttrKey, ScopeLogOps(l), v, w);
    assert forall n <- ms :: All(n.items, v);
    var V, W := Each<Attrs, ScopeOf<LogRecord>>(v), EachRow<Attrs, ScopeOf<LogRecord>>(ScopeLogOps(l), w);
    assert All(ms, V);
    MergeKeeps(ResourceLogOps(l), V, W, [], ms);
    var out := Merge(ResourceLogOps(l), [], ms);
    forall n, s | n in out && s in n.items ensures All(s.items, UniqueLog()) {
      assert W(n) && w(s);
      assert forall r <- s.items :: CountedLog()(r);
    }
  }

  /** Rolling up rolled-up logs, at the same level or at Coarse: under each resource and
      scope key the groups are those of the direct rollup, but a count is that of the
      rows merged, not of the records behind them. */
  lemma RerolledLogsCountRows(l: Level, l': Level, signals: seq<Logs>, rk: string, sk: string)
    requires l != Fine && l' != Fine && Coarser(l, l') && UniqueLogs(Concat(signals))
    ensures var once := RolledUpLogs(l, true, signals);
            var twice, direct := RolledUpLogs(l', true, [once]), RolledUpLogs(l', true, signals);
            CountsRows(l', RecordsOf(once, rk, sk), RecordsOf(twice, rk, sk), RecordsOf(direct, rk, sk))
  {
    hide Merge, CountsRows, RecordsOf, UniqueLogs;
    var ms := Concat(signals);
    var once := RolledUpLogs(l, true, signals);
    ConcatOfOne(once);
    RolledLogsUnique(l, ms);
    RecordsCommute(l, ms, rk, sk);
    RecordsCommute(l', ms, rk, sk);
    RecordsCommute(l', once, rk, sk);
    RerolledCounts(l, l', RecordsOf(ms, rk, sk));
  }

  lemma ConcatOfOne(ms: Logs)
    ensures Concat([ms]) == ms
  {
    assert [ms][..0] == [];
  }
}
