/** Log rollup: resource, scope, severity and body pattern, with a running count. */
module LogRollup {
  import opened Int64
  import opened Keyed
  import opened Nest
  import opened Pdata
  import opened Filter

  const COUNT := "rollup.count"

  /** Severity and body; at Coarse only the first 20 bytes of a longer body. */
  function LogKey(r: LogRecord, l: Level): string {
    var body := if |r.body| > 20 && l == Coarse then r.body[..20] + "..." else r.body;
    Decimal(r.severity) + ":" + body
  }

  function Bumped(m: Attrs): Attrs {
    var found := Lookup(m, COUNT);
    PutAttr(m, COUNT, IntValue(if found.Some? then Wrap64(found.value.Int() + 1) else 1))
  }

  function FirstCopy(m: Attrs, l: Level): Attrs {
    var counted := PutAttr(m, COUNT, IntValue(1));
    if l == Coarse then RemoveAttr(RemoveAttr(counted, "request_id"), "user_id") else counted
  }

  function LogOps(l: Level): Ops<LogRecord, LogRecord> {
    Ops((r: LogRecord) => LogKey(r, l),
        (r: LogRecord) => LogKey(r, l),
        (r: LogRecord) => r.(attrs := FirstCopy(r.attrs, l)),
        (d: LogRecord, r: LogRecord) => d.(attrs := Bumped(d.attrs)))
  }

  function ScopeLogOps(l: Level): Ops<ScopeOf<LogRecord>, ScopeOf<LogRecord>> {
    NestOps(ScopeKey, LogOps(l))
  }

  function ResourceLogOps(l: Level): Ops<ResourceOf<LogRecord>, ResourceOf<LogRecord>> {
    NestOps(AttrKey, ScopeLogOps(l))
  }

  function RolledUpLogs(l: Level, enabled: bool, signals: seq<Logs>): Logs {
    if l == Fine || !enabled then Concat(signals) else Merge(ResourceLogOps(l), [], Concat(signals))
  }

  // ---------------------------------------------------------------------------
  // The nested in-place merge
  // ---------------------------------------------------------------------------

  method IndexRecords(l: Level, dest: seq<LogRecord>) returns (groups: map<string, nat>)
    ensures groups == Reindex(LogOps(l), dest)
  {
    groups := map[];
    for i := 0 to |dest|
      invariant groups == Reindex(LogOps(l), dest[..i])
    {
      assert dest[..i + 1][..i] == dest[..i];
      groups := groups[LogKey(dest[i], l) := i];
    }
    assert dest[..|dest|] == dest;
  }

  /** The body of the loop over source records. */
  method MergeOneRecord(dest: seq<LogRecord>, groups: map<string, nat>, r: LogRecord, l: Level)
    returns (out: seq<LogRecord>, index: map<string, nat>)
    requires Bounded(Table(dest, groups))
    ensures Table(out, index) == Put(LogOps(l), Table(dest, groups), r)
  {
    out, index := dest, groups;
    var key := LogKey(r, l);
    if key in index {
      var e := index[key];
      var found := Lookup(out[e].attrs, COUNT);
      var count := 1;
      if found.Some? {
        count := Wrap64(found.value.Int() + 1);
      }
      out := out[e := out[e].(attrs := PutAttr(out[e].attrs, COUNT, IntValue(count)))];
    } else {
      var attrs := PutAttr(r.attrs, COUNT, IntValue(1));
      if l == Coarse {
        attrs := RemoveAttr(attrs, "request_id");
        attrs := RemoveAttr(attrs, "user_id");
      }
      index := index[key := |out|];
      out := out + [r.(attrs := attrs)];
    }
  }

  method RollupLogRecords(dest: seq<LogRecord>, src: seq<LogRecord>, l: Level) returns (out: seq<LogRecord>)
    ensures out == Merge(LogOps(l), dest, src)
  {
    ghost var o, t := LogOps(l), Load(LogOps(l), dest);
    out := dest;
    var groups: map<string, nat> := IndexRecords(l, dest);
    for i := 0 to |src|
      invariant Table(out, groups) == PutAll(o, t, src[..i])
    {
      assert src[..i + 1][..i] == src[..i];
      out, groups := MergeOneRecord(out, groups, src[i], l);
    }
    assert src[..|src|] == src;
  }

  method IndexLogScopes(l: Level, dest: seq<ScopeOf<LogRecord>>) returns (scopeMap: map<string, nat>)
    ensures scopeMap == Reindex(ScopeLogOps(l), dest)
  {
    scopeMap := map[];
    for i := 0 to |dest|
      invariant scopeMap == Reindex(ScopeLogOps(l), dest[..i])
    {
      assert dest[..i + 1][..i] == dest[..i];
      scopeMap := scopeMap[ScopeKey(dest[i].head) := i];
    }
    assert dest[..|dest|] == dest;
  }

  method MergeScopeLogs(dest: seq<ScopeOf<LogRecord>>, src: seq<ScopeOf<LogRecord>>, l: Level)
    returns (out: seq<ScopeOf<LogRecord>>)
    ensures out == Merge(ScopeLogOps(l), dest, src)
  {
    ghost var o, t := ScopeLogOps(l), Load(ScopeLogOps(l), dest);
    out := dest;
    var scopeMap: map<string, nat> := IndexLogScopes(l, dest);
    for i := 0 to |src|
      invariant Table(out, scopeMap) == PutAll(o, t, src[..i])
    {
      assert src[..i + 1][..i] == src[..i];
      out, scopeMap := MergeOneLogScope(out, scopeMap, src[i], l);
    }
    assert src[..|src|] == src;
  }

  /** The body of the loop over source scopes. */
  method MergeOneLogScope(dest: seq<ScopeOf<LogRecord>>, scopeMap: map<string, nat>, x: ScopeOf<LogRecord>, l: Level)
    returns (out: seq<ScopeOf<LogRecord>>, index: map<string, nat>)
    requires Bounded(Table(dest, scopeMap))
    ensures Table(out, index) == Put(ScopeLogOps(l), Table(dest, scopeMap), x)
  {
    out, index := dest, scopeMap;
    var sk := ScopeKey(x.head);
    if sk !in index {
      index := index[sk := |out|];
      out := out + [Node(x.head, [])];
    }
    var e := index[sk];
    var items := RollupLogRecords(out[e].items, x.items, l);
    out := out[e := Node(out[e].head, items)];
  }

  /** The body of the loop over source resources. */
  method MergeOneLogResource(dest: Logs, resMap: map<string, nat>, x: ResourceOf<LogRecord>, l: Level)
    returns (out: Logs, index: map<string, nat>)
    requires Bounded(Table(dest, resMap))
    ensures Table(out, index) == Put(ResourceLogOps(l), Table(dest, resMap), x)
  {
    out, index := dest, resMap;
    var resKey := AttrKeyOf(x.head);
    if resKey !in index {
      index := index[resKey := |out|];
      out := out + [Node(x.head, [])];
    }
    var e := index[resKey];
    var items := MergeScopeLogs(out[e].items, x.items, l);
    out := out[e := Node(out[e].head, items)];
  }

  /** The loop over the resources of one signal. */
  method MergeLogSignal(dest: Logs, resMap: map<string, nat>, rls: Logs, l: Level)
    returns (out: Logs, index: map<string, nat>)
    requires Bounded(Table(dest, resMap))
    ensures Table(out, index) == PutAll(ResourceLogOps(l), Table(dest, resMap), rls)
  {
    ghost var o, t := ResourceLogOps(l), Table(dest, resMap);
    out, index := dest, resMap;
    for i := 0 to |rls|
      invariant Table(out, index) == PutAll(o, t, rls[..i])
    {
      assert rls[..i + 1][..i] == rls[..i];
      out, index := MergeOneLogResource(out, index, rls[i], l);
    }
    assert rls[..|rls|] == rls;
  }
}
