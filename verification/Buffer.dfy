/** The in-memory buffer: an evicting cache shadowed by key maps and time indices
    that only the cache's removal callback repairs. */
module Buffer {
  import opened Int64
  import opened Keyed
  import opened Pdata
  import opened Identity
  import opened Traversal
  import opened Live
  import opened TimeIndex

  /** What the cache holds under a key; serialisation is taken to round-trip. */
  datatype Entry =
    | MetricBytes(metrics: Metrics)
    | LogBytes(logs: Logs)
    | TraceBytes(entry: TraceEntry)

  datatype RemoveReason = Expired | NoSpace | Deleted

  type Cache = map<string, Entry>

  ghost function MetricsIn(c: Cache): map<string, Metrics> {
    map k | k in c && c[k].MetricBytes? :: c[k].metrics
  }

  ghost function LogsIn(c: Cache): map<string, Logs> {
    map k | k in c && c[k].LogBytes? :: c[k].logs
  }

  ghost function TracesIn(c: Cache): map<string, TraceEntry> {
    map k | k in c && c[k].TraceBytes? :: c[k].entry
  }

  /** The prefix of a key tells what is stored under it. */
  ghost predicate WellKeyed(c: Cache) {
    forall k <- c :: (c[k].MetricBytes? <==> HasPrefix(k, "m_")) && (c[k].LogBytes? <==> HasPrefix(k, "l_"))
  }

  function MetricKey(ts: int, uuid: string): string {
    "m_" + Decimal(ts) + "_" + uuid
  }

  function LogKey(ts: int, uuid: string): string {
    "l_" + Decimal(ts) + "_" + uuid
  }

  /** An explicit deletion: nothing is passed on. */
  function Forget(p: Plain, key: string): Plain {
    p.(metrics := Without(p.metrics, key), logs := Without(p.logs, key), traces := p.traces - {key})
  }

  class InMemoryBuffer {
    var cache: Cache
    var metricTimeIndex: seq<TimeKey>
    var logTimeIndex: seq<TimeKey>
    var metricKeyMap: map<string, int>
    var logKeyMap: map<string, int>
    var evictedChan: seq<Signal>
    ghost var stored: seq<Signal>
    ghost var dropped: seq<Signal>
    ghost var lost: seq<LostEntry>

    ghost predicate ValidFor(c: Cache)
      reads this
    {
      && WellKeyed(c)
      && Agrees(metricTimeIndex, metricKeyMap, MetricsIn(c).Keys)
      && Agrees(logTimeIndex, logKeyMap, LogsIn(c).Keys)
    }

    ghost function AbsFor(c: Cache): Plain
      requires ValidFor(c)
      reads this
    {
      Plain(Joined(metricTimeIndex, MetricsIn(c)), Joined(logTimeIndex, LogsIn(c)), TracesIn(c),
            evictedChan, stored, dropped, lost)
    }

    ghost predicate Valid()
      reads this
    {
      ValidFor(cache)
    }

    ghost function Abs(): Plain
      requires Valid()
      reads this
    {
      AbsFor(cache)
    }

    constructor ()
      ensures Valid() && Abs() == EMPTY
    {
      cache, metricTimeIndex, logTimeIndex := map[], [], [];
      metricKeyMap, logKeyMap, evictedChan := map[], map[], [];
      stored, dropped, lost := [], [], [];
    }

    /** Called by the cache after it has removed `key`. */
    method OnCacheEvictionWithReason(key: string, entry: Entry, reason: RemoveReason, ghost before: Cache)
      requires key in before && before[key] == entry && cache == before - {key} && ValidFor(before)
      modifies `metricTimeIndex, `logTimeIndex, `metricKeyMap, `logKeyMap, `evictedChan, `dropped, `lost
      ensures Valid()
      ensures Abs() == if reason == Deleted then Forget(old(AbsFor(before)), key) else Evict(old(AbsFor(before)), key)
    {
      hide Joined, Without, BDelete, Find, MetricsIn, LogsIn, TracesIn, HasPrefix, WellKeyed;
      var isMetric := HasPrefix(key, "m_");
      var isLog := HasPrefix(key, "l_");
      KeyInOneLane(before, key);
      if isMetric {
        RemoveFromIndex(metricTimeIndex, metricKeyMap, MetricsIn(before), key);
        AbsentFromIndex(logTimeIndex, logKeyMap, LogsIn(before), key);
        if key in metricKeyMap {
          metricTimeIndex := BDelete(metricTimeIndex, TimeKey(metricKeyMap[key], key));
          metricKeyMap := metricKeyMap - {key};
        }
      } else if isLog {
        AbsentFromIndex(metricTimeIndex, metricKeyMap, MetricsIn(before), key);
        RemoveFromIndex(logTimeIndex, logKeyMap, LogsIn(before), key);
        if key in logKeyMap {
          logTimeIndex := BDelete(logTimeIndex, TimeKey(logKeyMap[key], key));
          logKeyMap := logKeyMap - {key};
        }
      } else {
        AbsentFromIndex(metricTimeIndex, metricKeyMap, MetricsIn(before), key);
        AbsentFromIndex(logTimeIndex, logKeyMap, LogsIn(before), key);
      }
      if reason == Expired || reason == NoSpace {
        if isMetric {
          Send(MetricSignal(entry.metrics));
        } else if isLog {
          Send(LogSignal(entry.logs));
        } else {
          lost := lost + [LostEntry(key, entry.entry)];
        }
      }
    }

    /** A send that drops the signal when the channel is full. */
    method Send(sig: Signal)
      modifies `evictedChan, `dropped
      ensures |old(evictedChan)| < CHANNEL_CAPACITY ==>
                evictedChan == old(evictedChan) + [sig] && dropped == old(dropped)
      ensures |old(evictedChan)| >= CHANNEL_CAPACITY ==>
                evictedChan == old(evictedChan) && dropped == old(dropped) + [sig]
    {
      if |evictedChan| < CHANNEL_CAPACITY {
        evictedChan := evictedChan + [sig];
      } else {
        dropped := dropped + [sig];
      }
    }

    /** The receiver of the channel takes its oldest signal. */
    method NextEvicted() returns (sig: Signal)
      requires Valid() && evictedChan != []
      modifies `evictedChan
      ensures Valid() && Abs() == old(Abs()).(chan := old(Abs()).chan[1..]) && sig == old(Abs()).chan[0]
    {
      sig := evictedChan[0];
      evictedChan := evictedChan[1..];
    }

    /** The cache removes a key, if it is there, and calls back. */
    method Remove(key: string, reason: RemoveReason)
      requires Valid()
      modifies this
      ensures Valid() && cache == old(cache) - {key} && stored == old(stored)
      ensures Abs() == if reason == Deleted then Forget(old(Abs()), key) else Evict(old(Abs()), key)
    {
      if key in cache {
        ghost var before := cache;
        var entry := cache[key];
        cache := cache - {key};
        OnCacheEvictionWithReason(key, entry, reason, before);
      } else {
        NotCached(cache, key);
        AbsentFromIndex(metricTimeIndex, metricKeyMap, MetricsIn(cache), key);
        AbsentFromIndex(logTimeIndex, logKeyMap, LogsIn(cache), key);
      }
    }

    /** The evictions that one write causes. */
    method MakeRoomFor(key: string, victims: seq<string>)
      requires Valid()
      modifies this
      ensures Valid() && Abs() == MakeRoom(old(Abs()), key, victims)
      ensures cache.Keys <= old(cache).Keys
    {
      for i := 0 to |victims|
        invariant Valid() && Abs() == MakeRoom(old(Abs()), key, victims[..i])
        invariant cache.Keys <= old(cache).Keys
      {
        assert victims[..i + 1][..i] == victims[..i];
        if victims[i] != key {
          Remove(victims[i], NoSpace);
        }
      }
      assert victims[..|victims|] == victims;
    }

    // -------------------------------------------------------------------------
    // Metrics and untraced logs
    // -------------------------------------------------------------------------

    method StoreMetric(m: Metrics, ts: int, uuid: string, o: SetOutcome)
      requires Valid() && MetricKey(ts, uuid) !in cache
      modifies this
      ensures Valid()
      ensures Abs() == Live.StoreMetric(old(Abs()), TimeKey(ts, MetricKey(ts, uuid)), m, o)
    {
      hide Joined, BInsert, Insert, HasPrefix, MetricsIn, LogsIn, TracesIn, MetricKey;
      var key := MetricKey(ts, uuid);
      KeyPrefixes(ts, uuid);
      MakeRoomFor(key, o.victims);
      if o.ok {
        NewKey(cache, key, MetricBytes(m));
        AddToIndex(metricTimeIndex, metricKeyMap, MetricsIn(cache), TimeKey(ts, key), m);
        cache := cache[key := MetricBytes(m)];
        metricKeyMap := metricKeyMap[key := ts];
        metricTimeIndex := BInsert(metricTimeIndex, TimeKey(ts, key));
        stored := stored + [MetricSignal(m)];
      }
    }

    method StoreTimeLogs(l: Logs, ts: int, uuid: string, o: SetOutcome)
      requires Valid() && LogKey(ts, uuid) !in cache
      modifies this
      ensures Valid()
      ensures Abs() == Live.StoreTimeLogs(old(Abs()), TimeKey(ts, LogKey(ts, uuid)), l, o)
    {
      hide Joined, BInsert, Insert, HasPrefix, MetricsIn, LogsIn, TracesIn, LogKey;
      var key := LogKey(ts, uuid);
      KeyPrefixes(ts, uuid);
      MakeRoomFor(key, o.victims);
      if o.ok {
        NewKey(cache, key, LogBytes(l));
        AddToIndex(logTimeIndex, logKeyMap, LogsIn(cache), TimeKey(ts, key), l);
        cache := cache[key := LogBytes(l)];
        logKeyMap := logKeyMap[key := ts];
        logTimeIndex := BInsert(logTimeIndex, TimeKey(ts, key));
        stored := stored + [LogSignal(l)];
      }
    }

    /** The signals of the window with the times at which they were stored. */
    method GetMetricsInRange(lo: int, hi: int) returns (result: seq<Metrics>, receivedAt: seq<int>)
      requires Valid()
      ensures result == Data(Range(Abs().metrics, lo, Upto(hi)))
      ensures receivedAt == Times(Range(Abs().metrics, lo, Upto(hi)))
    {
      hide Wrap64;
      var keys := AscendRange(metricTimeIndex, TimeKey(lo, ""), TimeKey(Wrap64(hi + 1), ""));
      AscendRangeIsWindow(metricTimeIndex, MetricsIn(cache), lo, hi);
      result, receivedAt := [], [];
      for i := 0 to |keys|
        invariant result == Data(Joined(keys, MetricsIn(cache))[..i])
        invariant receivedAt == Times(Joined(keys, MetricsIn(cache))[..i])
      {
        var k := keys[i].key;
        if k in cache && cache[k].MetricBytes? {
          result := result + [cache[k].metrics];
          receivedAt := receivedAt + [keys[i].ts];
        }
      }
      assert Joined(keys, MetricsIn(cache))[..|keys|] == Joined(keys, MetricsIn(cache));
    }

    /** The signals of the window with the times at which they were stored. */
    method GetLogsInRange(lo: int, hi: int) returns (result: seq<Logs>, receivedAt: seq<int>)
      requires Valid()
      ensures result == Data(Range(Abs().logs, lo, Upto(hi)))
      ensures receivedAt == Times(Range(Abs().logs, lo, Upto(hi)))
    {
      hide Wrap64;
      var keys := AscendRange(logTimeIndex, TimeKey(lo, ""), TimeKey(Wrap64(hi + 1), ""));
      AscendRangeIsWindow(logTimeIndex, LogsIn(cache), lo, hi);
      result, receivedAt := [], [];
      for i := 0 to |keys|
        invariant result == Data(Joined(keys, LogsIn(cache))[..i])
        invariant receivedAt == Times(Joined(keys, LogsIn(cache))[..i])
      {
        var k := keys[i].key;
        if k in cache && cache[k].LogBytes? {
          result := result + [cache[k].logs];
          receivedAt := receivedAt + [keys[i].ts];
        }
      }
      assert Joined(keys, LogsIn(cache))[..|keys|] == Joined(keys, LogsIn(cache));
    }

    /** Collects the keys first and deletes them one by one; the callbacks shrink
        the index meanwhile. */
    method RemoveMetricsInRange(lo: int, hi: int)
      requires Valid()
      modifies this
      ensures Valid() && Abs() == old(Abs()).(metrics := OutOfRange(old(Abs()).metrics, lo, Upto(hi)))
      ensures cache.Keys <= old(cache).Keys
    {
      ghost var p := Abs();
      var keys := KeysInRange(metricTimeIndex, lo, hi);
      AscendRangeIsWindow(metricTimeIndex, MetricsIn(cache), lo, hi);
      assert keys == Names(Range(p.metrics, lo, Upto(hi)));
      LanesApart();
      DeleteKeys(keys);
      RemovingMetrics(p, lo, Upto(hi));
    }

    method RemoveLogsInRange(lo: int, hi: int)
      requires Valid()
      modifies this
      ensures Valid() && Abs() == old(Abs()).(logs := OutOfRange(old(Abs()).logs, lo, Upto(hi)))
      ensures cache.Keys <= old(cache).Keys
    {
      ghost var p := Abs();
      var keys := KeysInRange(logTimeIndex, lo, hi);
      AscendRangeIsWindow(logTimeIndex, LogsIn(cache), lo, hi);
      assert keys == Names(Range(p.logs, lo, Upto(hi)));
      LanesApart();
      DeleteKeys(keys);
      RemovingLogs(p, lo, Upto(hi));
    }

    // -------------------------------------------------------------------------
    // Traces
    // -------------------------------------------------------------------------

    method GetTrace(t: TraceID) returns (r: Option<Traces>, receivedAt: int)
      requires Valid()
      ensures r == FindTrace(Abs(), Hex(t))
      ensures r.Some? ==> receivedAt == Abs().traces[Hex(t)].receivedAt
    {
      var key := Hex(t);
      TraceKeysStandApart(t);
      if key !in cache || !cache[key].TraceBytes? || cache[key].entry.spans == [] {
        return None, 0;
      }
      return Some(cache[key].entry.spans), cache[key].entry.receivedAt;
    }

    method GetTraceLogs(t: TraceID) returns (r: Option<Logs>, receivedAt: int)
      requires Valid()
      ensures r == FindTraceLogs(Abs(), Hex(t))
      ensures r.Some? ==> receivedAt == Abs().traces[Hex(t)].receivedAt
    {
      var key := Hex(t);
      TraceKeysStandApart(t);
      if key !in cache || !cache[key].TraceBytes? || cache[key].entry.logs == [] {
        return None, 0;
      }
      return Some(cache[key].entry.logs), cache[key].entry.receivedAt;
    }

    /** Counts every entry of the cache, not only traces. */
    method GetTraceCount() returns (n: nat)
      requires Valid()
      ensures n == |Abs().metrics| + |Abs().logs| + |Abs().traces|
    {
      n := |cache|;
      CacheSplits(cache);
      CountListing(metricTimeIndex, metricKeyMap, MetricsIn(cache));
      CountListing(logTimeIndex, logKeyMap, LogsIn(cache));
    }

    method RemoveTrace(t: TraceID)
      requires Valid()
      modifies this
      ensures Valid() && Abs() == old(Abs()).(traces := old(Abs()).traces - {Hex(t)})
      ensures cache.Keys <= old(cache).Keys
    {
      TraceKeysStandApart(t);
      TraceKeyElsewhere(Hex(t));
      Remove(Hex(t), Deleted);
    }

    /** A trace key is in neither time index. */
    lemma TraceKeyElsewhere(key: string)
      requires Valid() && !HasPrefix(key, "m_") && !HasPrefix(key, "l_")
      ensures Without(Abs().metrics, key) == Abs().metrics && Without(Abs().logs, key) == Abs().logs
    {
      AbsentFromIndex(metricTimeIndex, metricKeyMap, MetricsIn(cache), key);
      AbsentFromIndex(logTimeIndex, logKeyMap, LogsIn(cache), key);
    }

    /** One write of a trace entry. */
    method SetEntry(key: string, e: TraceEntry, o: SetOutcome)
      requires Valid() && !HasPrefix(key, "m_") && !HasPrefix(key, "l_")
      modifies this
      ensures Valid() && Abs() == SetTrace(old(Abs()), key, e, o)
      ensures cache.Keys <= old(cache).Keys + {key}
    {
      hide Joined, HasPrefix, MetricsIn, LogsIn, TracesIn;
      MakeRoomFor(key, o.victims);
      if o.ok {
        NewTraceKey(cache, key, e);
        cache := cache[key := TraceBytes(e)];
      } else if o.lost {
        LostTraceKey(cache, key);
        if key in cache {
          lost := lost + [LostEntry(key, cache[key].entry)];
        }
        cache := cache - {key};
      }
    }

    /** Reads the entry of a trace, or starts one. */
    method ReadEntry(key: string, now: int) returns (e: TraceEntry)
      requires Valid() && !HasPrefix(key, "m_") && !HasPrefix(key, "l_")
      ensures e == EntryAt(Abs(), key, now)
    {
      if key in cache {
        e := cache[key].entry;
      } else {
        e := TraceEntry(now, [], []);
      }
    }

    /** The body of the loop over the traces of a span batch. */
    method AddSpansTo(tid: TraceID, spans: Traces, now: int, o: SetOutcome)
      requires Valid()
      modifies this
      ensures Valid() && Abs() == AddSpans(old(Abs()), Hex(tid), spans, now, o)
    {
      TraceKeysStandApart(tid);
      var e := ReadEntry(Hex(tid), now);
      SetEntry(Hex(tid), e.(spans := e.spans + spans), o);
    }

    /** The body of the loop over the traces of a log batch. */
    method AddLogsTo(tid: TraceID, logs: Logs, now: int, o: SetOutcome)
      requires Valid()
      modifies this
      ensures Valid() && Abs() == AddLogs(old(Abs()), Hex(tid), logs, now, o)
      ensures cache.Keys <= old(cache).Keys + {Hex(tid)}
    {
      TraceKeysStandApart(tid);
      var e := ReadEntry(Hex(tid), now);
      SetEntry(Hex(tid), e.(logs := e.logs + logs), o);
    }

    method StoreTraces(batch: Traces, order: seq<TraceID>, now: int, os: seq<SetOutcome>)
      requires Valid() && IterationOrder(SpanID(), Rows(batch), order) && |os| == |order|
      modifies this
      ensures Valid() && Abs() == AddSpansEach(old(Abs()), Rows(batch), order, now, os)
    {
      hide AddSpans, HasPrefix, Rows;
      var traceMap := SplitSpans(batch);
      for n := 0 to |order|
        invariant Valid() && Abs() == AddSpansEach(old(Abs()), Rows(batch), order[..n], now, os[..n])
      {
        assert order[..n + 1][..n] == order[..n] && os[..n + 1][..n] == os[..n];
        assert order[n] in order;
        AddSpansTo(order[n], traceMap[order[n]], now, os[n]);
      }
      assert order[..|order|] == order && os[..|os|] == os;
    }

    /** The loop over the traces of a log batch. */
    method StoreTraceLogs(traceLogs: map<TraceID, Logs>, ghost rows: seq<Row<LogRecord>>, order: seq<TraceID>,
        now: int, os: seq<SetOutcome>, ghost unused: string)
      requires Valid() && IterationOrder(LogID(), rows, order) && |os| == |order| && SplitOf(LogID(), rows, traceLogs)
      requires HasPrefix(unused, "l_") && unused !in cache
      modifies this
      ensures Valid() && Abs() == AddLogsEach(old(Abs()), rows, order, now, os)
      ensures unused !in cache
    {
      hide AddLogs, HasPrefix, Hex;
      for n := 0 to |order|
        invariant Valid() && Abs() == AddLogsEach(old(Abs()), rows, order[..n], now, os[..n])
        invariant unused !in cache
      {
        assert order[..n + 1][..n] == order[..n] && os[..n + 1][..n] == os[..n];
        assert order[n] in order;
        TraceKeysStandApart(order[n]);
        AddLogsTo(order[n], traceLogs[order[n]], now, os[n]);
      }
      assert order[..|order|] == order && os[..|os|] == os;
    }

    method StoreSplitLogs(batch: Logs, order: seq<TraceID>, now: int, os: seq<SetOutcome>, ts: int, uuid: string,
        o: SetOutcome)
      requires Valid() && IterationOrder(LogID(), Rows(batch), order) && |os| == |order|
      requires LogKey(ts, uuid) !in cache
      modifies this
      ensures Valid()
      ensures Abs() == StoreSplit(old(Abs()), Rows(batch), order, now, os, TimeKey(ts, LogKey(ts, uuid)), o)
    {
      hide AddLogsEach, Live.StoreTimeLogs, LogKey, HasPrefix, IterationOrder;
      KeyPrefixes(ts, uuid);
      var traceLogs, timeLogs := SplitLogs(batch);
      StoreTraceLogs(traceLogs, Rows(batch), order, now, os, LogKey(ts, uuid));
      if timeLogs != [] {
        StoreTimeLogs(timeLogs, ts, uuid, o);
      }
    }

    method Store(sig: Incoming, plan: Plan)
      requires Valid() && Fits(cache, sig, plan)
      modifies this
      ensures Valid() && Abs() == Stored(old(Abs()), sig, plan)
    {
      hide Rows, AddSpansEach, StoreSplit, Live.StoreMetric, IterationOrder, MetricKey, LogKey;
      match sig
      case TraceIn(batch) => StoreTraces(batch, plan.order, plan.now, plan.os);
      case MetricIn(m) => StoreMetric(m, plan.ts, plan.uuid, plan.o);
      case LogIn(batch) => StoreSplitLogs(batch, plan.order, plan.now, plan.os, plan.ts, plan.uuid, plan.o);
    }

    static method KeysInRange(index: seq<TimeKey>, lo: int, hi: int) returns (keys: seq<string>)
      ensures var window := AscendRange(index, TimeKey(lo, ""), TimeKey(Wrap64(hi + 1), ""));
              |keys| == |window| && forall i | 0 <= i < |window| :: keys[i] == window[i].key
    {
      var window := AscendRange(index, TimeKey(lo, ""), TimeKey(Wrap64(hi + 1), ""));
      keys := [];
      for i := 0 to |window|
        invariant |keys| == i && forall j | 0 <= j < i :: keys[j] == window[j].key
      {
        keys := keys + [window[i].key];
      }
    }

    method DeleteKeys(keys: seq<string>)
      requires Valid()
      modifies this
      ensures Valid() && Abs() == ForgetAll(old(Abs()), keys)
      ensures cache.Keys <= old(cache).Keys
    {
      for i := 0 to |keys|
        invariant Valid() && Abs() == ForgetAll(old(Abs()), keys[..i])
        invariant cache.Keys <= old(cache).Keys
      {
        assert keys[..i + 1][..i] == keys[..i];
        Remove(keys[i], Deleted);
      }
      assert keys[..|keys|] == keys;
    }

    /** In every valid state the lists are sorted listings of what is cached, and no
        key is in two of them. */
    lemma LanesApart()
      requires Valid()
      ensures Apart(Abs())
      ensures forall t: Timed<Metrics> :: t in Abs().metrics <==>
                t.at.key in cache && cache[t.at.key] == MetricBytes(t.data) && metricKeyMap[t.at.key] == t.at.ts
      ensures forall t: Timed<Logs> :: t in Abs().logs <==>
                t.at.key in cache && cache[t.at.key] == LogBytes(t.data) && logKeyMap[t.at.key] == t.at.ts
    {
      JoinedIsSortedListing(metricTimeIndex, metricKeyMap, MetricsIn(cache));
      JoinedIsSortedListing(logTimeIndex, logKeyMap, LogsIn(cache));
    }
  }

  lemma CacheSplits(c: Cache)
    ensures |c| == |MetricsIn(c)| + |LogsIn(c)| + |TracesIn(c)|
  {
    var m, l, t := MetricsIn(c).Keys, LogsIn(c).Keys, TracesIn(c).Keys;
    assert c.Keys == m + l + t;
    assert m !! l && (m + l) !! t;
  }

  ghost function NameSet<P>(s: seq<Timed<P>>): set<string> {
    if s == [] then {} else {s[0].at.key} + NameSet(s[1..])
  }

  lemma {:induction false} CountNames<P(!new)>(s: seq<Timed<P>>)
    requires DistinctNames(s)
    ensures |NameSet(s)| == |s|
    ensures forall k :: k in NameSet(s) <==> exists i :: 0 <= i < |s| && s[i].at.key == k
  {
    if s != [] {
      assert forall i | 0 <= i < |s[1..]| :: s[1..][i] == s[i + 1];
      CountNames(s[1..]);
      assert s[0].at.key !in NameSet(s[1..]);
      forall k ensures k in NameSet(s) <==> exists i :: 0 <= i < |s| && s[i].at.key == k {
        if k in NameSet(s[1..]) {
          var i :| 0 <= i < |s[1..]| && s[1..][i].at.key == k;
          assert s[i + 1].at.key == k;
        }
        if i :| 0 <= i < |s| && s[i].at.key == k {
          if i > 0 {
            assert s[1..][i - 1].at.key == k;
          }
        }
      }
    }
  }

  /** A list of what is in a map, each key once, is as long as the map. */
  lemma CountListing<P(!new)>(index: seq<TimeKey>, keyMap: map<string, int>, data: map<string, P>)
    requires Agrees(index, keyMap, data.Keys)
    ensures |Joined(index, data)| == |data|
  {
    hide Joined, Sorted;
    var s := Joined(index, data);
    JoinedIsSortedListing(index, keyMap, data);
    CountNames(s);
    forall k ensures k in NameSet(s) <==> k in data.Keys {
      if k in data {
        KeyIsListed(index, keyMap, data, k);
      }
    }
    assert NameSet(s) == data.Keys;
  }

  lemma KeyIsListed<P(!new)>(index: seq<TimeKey>, keyMap: map<string, int>, data: map<string, P>, k: string)
    requires Agrees(index, keyMap, data.Keys) && k in data
    ensures exists i :: 0 <= i < |Joined(index, data)| && Joined(index, data)[i].at.key == k
  {
    JoinedIsSortedListing(index, keyMap, data);
    var t := Timed(TimeKey(keyMap[k], k), data[k]);
    assert t in Joined(index, data);
  }

  /** Sorted, each name once, and no name in two places. */
  ghost predicate Apart(p: Plain) {
    && Sorted(p.metrics) && DistinctNames(p.metrics)
    && Sorted(p.logs) && DistinctNames(p.logs)
    && (forall t <- p.metrics :: t.at.key !in p.traces)
    && (forall t <- p.logs :: t.at.key !in p.traces)
    && (forall t <- p.metrics, u <- p.logs :: t.at.key != u.at.key)
  }

  function Names<P>(s: seq<Timed<P>>): (r: seq<string>)
    ensures |r| == |s| && forall i | 0 <= i < |s| :: r[i] == s[i].at.key
  {
    seq(|s|, i requires 0 <= i < |s| => s[i].at.key)
  }

  function NotNamed<P>(keys: seq<string>): Timed<P> -> bool {
    (t: Timed<P>) => t.at.key !in keys
  }

  lemma {:induction false} ForgetAllIs(p: Plain, keys: seq<string>)
    ensures ForgetAll(p, keys) == p.(metrics := Keep(NotNamed(keys), p.metrics), logs := Keep(NotNamed(keys), p.logs),
                                     traces := p.traces - set k | k in keys)
  {
    if keys == [] {
      KeepAll(NotNamed(keys), p.metrics);
      KeepAll(NotNamed(keys), p.logs);
    } else {
      var init, k := keys[..|keys| - 1], keys[|keys| - 1];
      assert keys == init + [k];
      ForgetAllIs(p, init);
      KeepTwice(NotNamed(init), Opposite(KeyIs(k)), NotNamed(keys), p.metrics);
      KeepTwice(NotNamed(init), Opposite(KeyIs(k)), NotNamed(keys), p.logs);
      assert (set x | x in keys) == (set x | x in init) + {k};
    }
  }

  lemma SameName<P(!new)>(s: seq<Timed<P>>, t: Timed<P>, u: Timed<P>)
    requires DistinctNames(s) && t in s && u in s && t.at.key == u.at.key
    ensures t == u
  {
    var i :| 0 <= i < |s| && s[i] == t;
    var j :| 0 <= j < |s| && s[j] == u;
    assert i == j;
  }

  lemma WindowNames<P(!new)>(s: seq<Timed<P>>, lo: int, hi: int)
    requires DistinctNames(s)
    ensures Keep(NotNamed(Names(Range(s, lo, hi))), s) == OutOfRange(s, lo, hi)
  {
    var window := Range(s, lo, hi);
    KeepMembers(Live.Within(lo, hi), s);
    forall t | t in s ensures t.at.key in Names(window) <==> lo <= t.at.ts <= hi {
      if lo <= t.at.ts <= hi {
        assert t in window;
        var i :| 0 <= i < |window| && window[i] == t;
        assert Names(window)[i] == t.at.key;
      }
      if t.at.key in Names(window) {
        var i :| 0 <= i < |window| && Names(window)[i] == t.at.key;
        assert window[i] in window;
        SameName(s, t, window[i]);
      }
    }
    KeepAgrees(NotNamed(Names(window)), Opposite(Live.Within(lo, hi)), s);
  }

  lemma NamesFromList<P(!new)>(s: seq<Timed<P>>, lo: int, hi: int, k: string)
    requires k in Names(Range(s, lo, hi))
    ensures exists t <- s :: t.at.key == k
  {
    var window := Range(s, lo, hi);
    var i :| 0 <= i < |window| && Names(window)[i] == k;
    InList(Live.Within(lo, hi), s, window[i]);
  }

  lemma InList<T(!new)>(p: T -> bool, s: seq<T>, x: T)
    requires x in Keep(p, s)
    ensures x in s && p(x)
  {
    KeepMembers(p, s);
  }

  lemma RemovingMetrics(p: Plain, lo: int, hi: int)
    requires Apart(p)
    ensures ForgetAll(p, Names(Range(p.metrics, lo, hi))) == p.(metrics := OutOfRange(p.metrics, lo, hi))
  {
    var keys := Names(Range(p.metrics, lo, hi));
    ForgetAllIs(p, keys);
    WindowNames(p.metrics, lo, hi);
    forall k | k in keys ensures k !in p.traces && forall u <- p.logs :: u.at.key != k {
      NamesFromList(p.metrics, lo, hi, k);
    }
    KeepAll(NotNamed(keys), p.logs);
    assert p.traces - (set k | k in keys) == p.traces;
  }

  lemma RemovingLogs(p: Plain, lo: int, hi: int)
    requires Apart(p)
    ensures ForgetAll(p, Names(Range(p.logs, lo, hi))) == p.(logs := OutOfRange(p.logs, lo, hi))
  {
    var keys := Names(Range(p.logs, lo, hi));
    ForgetAllIs(p, keys);
    WindowNames(p.logs, lo, hi);
    forall k | k in keys ensures k !in p.traces && forall u <- p.metrics :: u.at.key != k {
      NamesFromList(p.logs, lo, hi, k);
    }
    KeepAll(NotNamed(keys), p.metrics);
    assert p.traces - (set k | k in keys) == p.traces;
  }

  lemma KeyPrefixes(ts: int, uuid: string)
    ensures HasPrefix(MetricKey(ts, uuid), "m_") && !HasPrefix(MetricKey(ts, uuid), "l_")
    ensures HasPrefix(LogKey(ts, uuid), "l_") && !HasPrefix(LogKey(ts, uuid), "m_")
  {
    assert MetricKey(ts, uuid)[..2] == "m_" && LogKey(ts, uuid)[..2] == "l_";
    assert "m_"[0] != "l_"[0];
  }

  // ---------------------------------------------------------------------------
  // Splitting a batch by trace
  // ---------------------------------------------------------------------------

  const NO_TRACE: TraceID := [0, 0, 0, 0, 0, 0, 0, 0, 0, 0, 0, 0, 0, 0, 0, 0]

  function FindTrace(p: Plain, key: string): Option<Traces> {
    if key in p.traces && p.traces[key].spans != [] then Some(p.traces[key].spans) else None
  }

  function FindTraceLogs(p: Plain, key: string): Option<Logs> {
    if key in p.traces && p.traces[key].logs != [] then Some(p.traces[key].logs) else None
  }

  /** Some order of the trace identifiers a batch mentions: the order in which a
      map happens to be walked. */
  ghost predicate IterationOrder<T>(id: T -> TraceID, rows: seq<Row<T>>, order: seq<TraceID>) {
    && (forall i, j | 0 <= i < j < |order| :: order[i] != order[j])
    && forall t :: t in order <==> !IsEmptyID(t) && Mentions(id, rows, t)
  }

  function AddSpansEach(p: Plain, rows: seq<Row<Span>>, order: seq<TraceID>, now: int, os: seq<SetOutcome>): Plain
    requires |os| == |order|
  {
    if order == [] then p
    else
      var n := |order| - 1;
      var q := AddSpansEach(p, rows, order[..n], now, os[..n]);
      AddSpans(q, Hex(order[n]), RowsFor(SpanID(), rows, order[n]), now, os[n])
  }

  function AddLogsEach(p: Plain, rows: seq<Row<LogRecord>>, order: seq<TraceID>, now: int, os: seq<SetOutcome>): Plain
    requires |os| == |order|
  {
    if order == [] then p
    else
      var n := |order| - 1;
      var q := AddLogsEach(p, rows, order[..n], now, os[..n]);
      AddLogs(q, Hex(order[n]), RowsFor(LogID(), rows, order[n]), now, os[n])
  }

  /** What the splitting map holds after some rows. */
  ghost predicate SplitOf<T>(id: T -> TraceID, rows: seq<Row<T>>, m: map<TraceID, seq<ResourceOf<T>>>) {
    && (forall t :: t in m <==> !IsEmptyID(t) && Mentions(id, rows, t))
    && (forall t <- m :: m[t] == RowsFor(id, rows, t))
  }

  /** Each trace that the batch mentions has its items, in order, with their resources
      and scopes. */
  ghost predicate Files<T>(id: T -> TraceID, rows: seq<Row<T>>, m: map<TraceID, seq<ResourceOf<T>>>) {
    && (forall t :: t in m <==> !IsEmptyID(t) && Mentions(id, rows, t))
    && (forall t <- m :: Rows(m[t]) == Keep(OfTrace(id, t), rows))
  }

  lemma SplitFiles<T>(id: T -> TraceID, rows: seq<Row<T>>, m: map<TraceID, seq<ResourceOf<T>>>)
    requires SplitOf(id, rows, m)
    ensures Files(id, rows, m)
  {
    hide Rows, Keep, RowsFor, Mentions;
    forall t | t in m ensures Rows(m[t]) == Keep(OfTrace(id, t), rows) {
      RowsOfFiled(id, rows, t);
    }
  }

  lemma SplitGrows<T(!new)>(id: T -> TraceID, rows: seq<Row<T>>, row: Row<T>, m: map<TraceID, seq<ResourceOf<T>>>)
    requires SplitOf(id, rows, m)
    ensures var t := id(row.item);
            if IsEmptyID(t) then SplitOf(id, rows + [row], m)
            else SplitOf(id, rows + [row], m[t := (if t in m then m[t] else []) + [Wrap(row)]])
  {
    var t := id(row.item);
    var rows' := rows + [row];
    assert rows'[..|rows|] == rows;
    forall s ensures Mentions(id, rows', s) <==> Mentions(id, rows, s) || s == t {
      if Mentions(id, rows, s) {
        var r :| r in rows && id(r.item) == s;
        assert r in rows';
      }
      assert row in rows';
    }
    MentionedIffFound(id, rows, t);
  }

  /** The body of the innermost loop: file one span, or skip it. */
  method FileSpan(ghost rows: seq<Row<Span>>, row: Row<Span>, traceMap: map<TraceID, Traces>)
    returns (traceMap': map<TraceID, Traces>)
    requires SplitOf(SpanID(), rows, traceMap)
    ensures SplitOf(SpanID(), rows + [row], traceMap')
  {
    hide SplitOf;
    SplitGrows(SpanID(), rows, row, traceMap);
    traceMap' := traceMap;
    var tid := row.item.traceId;
    if IsEmptyID(tid) {
      return;
    }
    if tid !in traceMap' {
      traceMap' := traceMap'[tid := []];
    }
    traceMap' := traceMap'[tid := traceMap'[tid] + [Wrap(row)]];
    assert traceMap' == traceMap[tid := (if tid in traceMap then traceMap[tid] else []) + [Wrap(row)]];
  }

  method SplitSpans(batch: Traces) returns (traceMap: map<TraceID, Traces>)
    ensures SplitOf(SpanID(), Rows(batch), traceMap)
    ensures Files(SpanID(), Rows(batch), traceMap)
  {
    hide Files;
    traceMap := map[];
    for i := 0 to |batch|
      invariant SplitOf(SpanID(), Rows(batch[..i]), traceMap)
    {
      VisitResource(batch, i);
      for j := 0 to |batch[i].items|
        invariant SplitOf(SpanID(), VisitedScopes(batch, i, j), traceMap)
      {
        VisitScope(batch, i, j);
        for k := 0 to |batch[i].items[j].items|
          invariant SplitOf(SpanID(), Visited(batch, i, j, k), traceMap)
        {
          VisitItem(batch, i, j, k);
          var row := Row(batch[i].head, batch[i].items[j].head, batch[i].items[j].items[k]);
          traceMap := FileSpan(Visited(batch, i, j, k), row, traceMap);
        }
      }
    }
    assert batch[..|batch|] == batch;
    SplitFiles(SpanID(), Rows(batch), traceMap);
  }

  ghost predicate LogSplitOf(rows: seq<Row<LogRecord>>, traceLogs: map<TraceID, Logs>, timeLogs: Logs) {
    SplitOf(LogID(), rows, traceLogs) && timeLogs == RowsFor(LogID(), rows, NO_TRACE)
  }

  /** The body of the innermost loop: file one record. */
  method FileRecord(ghost rows: seq<Row<LogRecord>>, row: Row<LogRecord>, traceLogs: map<TraceID, Logs>, timeLogs: Logs)
    returns (traceLogs': map<TraceID, Logs>, timeLogs': Logs)
    requires LogSplitOf(rows, traceLogs, timeLogs)
    ensures LogSplitOf(rows + [row], traceLogs', timeLogs')
  {
    hide SplitOf;
    SplitGrows(LogID(), rows, row, traceLogs);
    assert (rows + [row])[..|rows|] == rows;
    traceLogs', timeLogs' := traceLogs, timeLogs;
    var tid := row.item.traceId;
    if !IsEmptyID(tid) {
      if tid !in traceLogs' {
        traceLogs' := traceLogs'[tid := []];
      }
      traceLogs' := traceLogs'[tid := traceLogs'[tid] + [Wrap(row)]];
      assert traceLogs' == traceLogs[tid := (if tid in traceLogs then traceLogs[tid] else []) + [Wrap(row)]];
    } else {
      assert tid == NO_TRACE;
      timeLogs' := timeLogs' + [Wrap(row)];
    }
  }

  method SplitLogs(batch: Logs) returns (traceLogs: map<TraceID, Logs>, timeLogs: Logs)
    ensures LogSplitOf(Rows(batch), traceLogs, timeLogs)
    ensures Files(LogID(), Rows(batch), traceLogs)
    ensures Rows(timeLogs) == Keep(OfTrace(LogID(), NO_TRACE), Rows(batch))
  {
    hide Files, Keep;
    traceLogs, timeLogs := map[], [];
    for i := 0 to |batch|
      invariant LogSplitOf(Rows(batch[..i]), traceLogs, timeLogs)
    {
      VisitResource(batch, i);
      for j := 0 to |batch[i].items|
        invariant LogSplitOf(VisitedScopes(batch, i, j), traceLogs, timeLogs)
      {
        VisitScope(batch, i, j);
        for k := 0 to |batch[i].items[j].items|
          invariant LogSplitOf(Visited(batch, i, j, k), traceLogs, timeLogs)
        {
          VisitItem(batch, i, j, k);
          var row := Row(batch[i].head, batch[i].items[j].head, batch[i].items[j].items[k]);
          traceLogs, timeLogs := FileRecord(Visited(batch, i, j, k), row, traceLogs, timeLogs);
        }
      }
    }
    assert batch[..|batch|] == batch;
    SplitFiles(LogID(), Rows(batch), traceLogs);
    RowsOfFiled(LogID(), Rows(batch), NO_TRACE);
  }

  function StoreSplit(p: Plain, rows: seq<Row<LogRecord>>, order: seq<TraceID>, now: int, os: seq<SetOutcome>,
      at: TimeKey, o: SetOutcome): Plain
    requires |os| == |order|
  {
    var q, timeLogs := AddLogsEach(p, rows, order, now, os), RowsFor(LogID(), rows, NO_TRACE);
    if timeLogs == [] then q else Live.StoreTimeLogs(q, at, timeLogs, o)
  }

  /** What one store leaves open: the order in which the splitting map is walked,
      the clock, the generated identifier, and how each cache write goes. */
  datatype Plan = Plan(order: seq<TraceID>, os: seq<SetOutcome>, now: int, ts: int, uuid: string, o: SetOutcome)

  function MetricAt(plan: Plan): TimeKey {
    TimeKey(plan.ts, MetricKey(plan.ts, plan.uuid))
  }

  function LogAt(plan: Plan): TimeKey {
    TimeKey(plan.ts, LogKey(plan.ts, plan.uuid))
  }

  ghost predicate Fits(c: Cache, sig: Incoming, plan: Plan) {
    && |plan.os| == |plan.order|
    && match sig
       case TraceIn(batch) => IterationOrder(SpanID(), Rows(batch), plan.order)
       case MetricIn(_) => MetricAt(plan).key !in c
       case LogIn(batch) => IterationOrder(LogID(), Rows(batch), plan.order) && LogAt(plan).key !in c
  }

  function Stored(p: Plain, sig: Incoming, plan: Plan): Plain
    requires |plan.os| == |plan.order|
  {
    match sig
    case TraceIn(batch) => AddSpansEach(p, Rows(batch), plan.order, plan.now, plan.os)
    case MetricIn(m) => Live.StoreMetric(p, MetricAt(plan), m, plan.o)
    case LogIn(batch) => StoreSplit(p, Rows(batch), plan.order, plan.now, plan.os, LogAt(plan), plan.o)
  }

  lemma NewTraceKey(c: Cache, key: string, e: TraceEntry)
    requires WellKeyed(c) && !HasPrefix(key, "m_") && !HasPrefix(key, "l_")
    ensures var c' := c[key := TraceBytes(e)];
            && WellKeyed(c') && MetricsIn(c') == MetricsIn(c) && LogsIn(c') == LogsIn(c)
            && TracesIn(c') == TracesIn(c)[key := e]
  {
  }

  lemma LostTraceKey(c: Cache, key: string)
    requires WellKeyed(c) && !HasPrefix(key, "m_") && !HasPrefix(key, "l_")
    ensures var c' := c - {key};
            && WellKeyed(c') && MetricsIn(c') == MetricsIn(c) && LogsIn(c') == LogsIn(c)
            && TracesIn(c') == TracesIn(c) - {key}
    ensures key in TracesIn(c) <==> key in c
    ensures key in c ==> c[key] == TraceBytes(TracesIn(c)[key])
  {
  }

  function ForgetAll(p: Plain, keys: seq<string>): Plain {
    if keys == [] then p else Forget(ForgetAll(p, keys[..|keys| - 1]), keys[|keys| - 1])
  }

  lemma NotCached(c: Cache, key: string)
    requires key !in c
    ensures key !in MetricsIn(c) && key !in LogsIn(c) && c - {key} == c && TracesIn(c) - {key} == TracesIn(c)
  {
  }

  lemma NewKey(c: Cache, key: string, e: Entry)
    requires WellKeyed(c) && key !in c
    requires (e.MetricBytes? <==> HasPrefix(key, "m_")) && (e.LogBytes? <==> HasPrefix(key, "l_"))
    ensures WellKeyed(c[key := e]) && key !in MetricsIn(c) && key !in LogsIn(c)
    ensures MetricsIn(c[key := e]) == if e.MetricBytes? then MetricsIn(c)[key := e.metrics] else MetricsIn(c)
    ensures LogsIn(c[key := e]) == if e.LogBytes? then LogsIn(c)[key := e.logs] else LogsIn(c)
    ensures TracesIn(c[key := e]) == if e.TraceBytes? then TracesIn(c)[key := e.entry] else TracesIn(c)
  {
  }

  lemma KeyInOneLane(c: Cache, key: string)
    requires WellKeyed(c) && key in c
    ensures MetricsIn(c - {key}) == MetricsIn(c) - {key}
    ensures LogsIn(c - {key}) == LogsIn(c) - {key}
    ensures TracesIn(c - {key}) == TracesIn(c) - {key}
    ensures WellKeyed(c - {key})
    ensures key in MetricsIn(c) <==> HasPrefix(key, "m_")
    ensures HasPrefix(key, "m_") ==> c[key] == MetricBytes(MetricsIn(c)[key])
    ensures key in LogsIn(c) <==> HasPrefix(key, "l_")
    ensures HasPrefix(key, "l_") ==> c[key] == LogBytes(LogsIn(c)[key])
    ensures HasPrefix(key, "m_") ==> !HasPrefix(key, "l_")
    ensures key !in MetricsIn(c) ==> MetricsIn(c) - {key} == MetricsIn(c)
    ensures key !in LogsIn(c) ==> LogsIn(c) - {key} == LogsIn(c)
    ensures key !in TracesIn(c) ==> TracesIn(c) - {key} == TracesIn(c)
    ensures HasPrefix(key, "m_") || HasPrefix(key, "l_") <==> key !in TracesIn(c)
    ensures key in TracesIn(c) ==> c[key] == TraceBytes(TracesIn(c)[key])
  {
    if HasPrefix(key, "m_") {
      assert key[..2][0] == 'm';
    }
  }
}
