/** The rollup processor as the rest of the sampler sees it. */
module Rollup {
  import opened Keyed
  import opened Pdata
  import opened Filter
  import opened MetricRollup
  import opened LogRollup

  /** The rollup processor: a level that triggers move up and down. */
  class Processor {
    const enabled: bool
    var currentLevel: Level

    constructor (enabled: bool)
      ensures this.enabled == enabled && currentLevel == Fine
    {
      this.enabled := enabled;
      currentLevel := Fine;
    }

    method SetLevel(level: Level)
      modifies this
      ensures currentLevel == level
    {
      currentLevel := level;
    }

    method MergeMetrics(signals: seq<Metrics>) returns (out: Metrics)
      ensures out == Concat(signals)
    {
      out := MoveAll(signals);
    }

    /** `None` is a crash of the process. */
    method RollupMetrics(signals: seq<Metrics>) returns (r: Option<Metrics>)
      requires currentLevel != Fine && enabled ==> forall ms <- signals :: !HasCrashed(ms)
      ensures r == RolledUp(currentLevel, enabled, signals)
      ensures currentLevel == Fine || !enabled ==> r == Some(Concat(signals))
    {
      var l := currentLevel;
      if l == Fine || !enabled {
        var all := MergeMetrics(signals);
        return Some(all);
      }
      ghost var o := ResourceOps(l);
      var out: Metrics, resMap: map<string, nat> := [], map[];
      for n := 0 to |signals|
        invariant Table(out, resMap) == PutAll(o, Empty(), Concat(signals[..n]))
        invariant !HasCrashed(out)
      {
        assert signals[..n + 1][..n] == signals[..n];
        PutAllConcat(o, Empty(), Concat(signals[..n]), signals[n]);
        var ok;
        ok, out, resMap := MergeSignal(out, resMap, signals[n], l);
        if !ok {
          CrashedSignals(l, signals, n + 1);
          return None;
        }
      }
      assert signals[..|signals|] == signals;
      return Some(out);
    }

    method MergeLogs(signals: seq<Logs>) returns (out: Logs)
      ensures out == Concat(signals)
    {
      out := MoveAll(signals);
    }

    method RollupLogs(signals: seq<Logs>) returns (out: Logs)
      ensures out == RolledUpLogs(currentLevel, enabled, signals)
      ensures currentLevel == Fine || !enabled ==> out == Concat(signals)
    {
      var l := currentLevel;
      if l == Fine || !enabled {
        out := MergeLogs(signals);
        return;
      }
      ghost var o := ResourceLogOps(l);
      out := [];
      var resMap: map<string, nat> := map[];
      for n := 0 to |signals|
        invariant Table(out, resMap) == PutAll(o, Empty(), Concat(signals[..n]))
      {
        assert signals[..n + 1][..n] == signals[..n];
        PutAllConcat(o, Empty(), Concat(signals[..n]), signals[n]);
        out, resMap := MergeLogSignal(out, resMap, signals[n], l);
      }
      assert signals[..|signals|] == signals;
    }
  }
}
