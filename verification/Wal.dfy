/** The write-ahead log: an indexed run of records, some of which may have become
    unreadable, that grows at the end and is cut at the front. */
module Wal {
  import opened Keyed
  import opened Pdata
  import opened Live

  /** A signal with the instant it was received at. */
  datatype Record = Record(signal: Incoming, receivedAt: int)

  /** `Lost`: neither its bytes nor its timestamp can be read. Otherwise the
      payload may still not be: then `signal` is `None`. */
  datatype Slot = Lost | Written(receivedAt: int, signal: Option<Incoming>)

  predicate Old(s: Slot, t: int) {
    s.Written? && s.receivedAt < t
  }

  predicate Recent(s: Slot, t: int) {
    s.Written? && s.receivedAt >= t
  }

  /** What a replay hands on. */
  function Replayed(slots: seq<Slot>): seq<Record> {
    if slots == [] then []
    else
      var s := slots[|slots| - 1];
      Replayed(slots[..|slots| - 1])
      + if s.Written? && s.signal.Some? then [Record(s.signal.value, s.receivedAt)] else []
  }

  /** How many slots lie before the first recent record, not counting those after
      the last old one. */
  function CutPoint(slots: seq<Slot>, t: int): (n: nat)
    ensures n <= |slots|
  {
    if slots == [] || Recent(slots[0], t) then 0
    else
      var n := CutPoint(slots[1..], t);
      if n > 0 then n + 1
      else if Old(slots[0], t) then 1
      else 0
  }

  /** The library refuses to cut everything away. */
  function Truncated(slots: seq<Slot>, t: int): seq<Slot> {
    if CutPoint(slots, t) == |slots| then slots else slots[CutPoint(slots, t)..]
  }

  /** What a scan that stands at `k` and would cut `done` slots will end with. */
  function Best(slots: seq<Slot>, t: int, k: nat, done: nat): nat
    requires k <= |slots|
  {
    var n := CutPoint(slots[k..], t);
    if n > 0 then k + n else done
  }

  function Cut(truncateIndex: nat, first: nat): nat
    requires truncateIndex > 0 ==> first <= truncateIndex
  {
    if truncateIndex == 0 then 0 else truncateIndex + 1 - first
  }

  lemma StartOfScan(slots: seq<Slot>, t: int)
    ensures CutPoint(slots, t) == Best(slots, t, 0, 0) && CutPoint([], t) == 0
  {
    assert slots[0..] == slots;
  }

  lemma ScanOne(slots: seq<Slot>, t: int, k: nat, done: nat)
    requires k < |slots|
    ensures var s := slots[k];
            Best(slots, t, k, done) ==
              if s.Lost? then Best(slots, t, k + 1, done)
              else if s.receivedAt < t then Best(slots, t, k + 1, k + 1)
              else done
  {
    assert slots[k..][1..] == slots[k + 1..];
  }

  lemma EndOfScan(slots: seq<Slot>, t: int, done: nat)
    ensures Best(slots, t, |slots|, done) == done
  {
    assert slots[|slots|..] == [];
  }

  /** Indices run on from `first`; an empty log reports zero for both ends. */
  class Log {
    var first: nat
    var slots: seq<Slot>

    ghost predicate Valid()
      reads this
    {
      first >= 1 && (slots == [] ==> first == 1)
    }

    constructor ()
      ensures Valid() && slots == [] && first == 1
    {
      first, slots := 1, [];
    }

    function FirstIndex(): nat
      reads this
    {
      if slots == [] then 0 else first
    }

    function LastIndex(): nat
      requires Valid()
      reads this
    {
      if slots == [] then 0 else first + |slots| - 1
    }

    method Read(i: nat) returns (r: Slot)
      ensures r == if first <= i < first + |slots| then slots[i - first] else Lost
    {
      r := if first <= i && i < first + |slots| then slots[i - first] else Lost;
    }

    /** Fails on an index outside the log and then changes nothing. */
    method TruncateFront(i: nat) returns (ok: bool)
      requires Valid()
      modifies this
      ensures Valid() && ok == (old(first) <= i < old(first) + |old(slots)|)
      ensures ok ==> first == i && slots == old(slots)[i - old(first)..]
      ensures !ok ==> first == old(first) && slots == old(slots)
    {
      if i < FirstIndex() || i > LastIndex() || slots == [] {
        return false;
      }
      slots, first := slots[i - first..], i;
      return true;
    }

    /** The library accepts only the next index. */
    method WriteAt(i: nat, s: Slot, fails: bool) returns (ok: bool)
      requires Valid()
      modifies this
      ensures Valid() && first == old(first)
      ensures ok == (!fails && i == old(LastIndex()) + 1)
      ensures slots == if ok then old(slots) + [s] else old(slots)
    {
      if fails || i != LastIndex() + 1 {
        return false;
      }
      slots := slots + [s];
      return true;
    }

    /** Appends the signal, or fails and leaves the log as it was. */
    method Write(sig: Incoming, receivedAt: int, fails: bool) returns (ok: bool)
      requires Valid()
      modifies this
      ensures Valid() && first == old(first) && ok == !fails
      ensures slots == if ok then old(slots) + [Written(receivedAt, Some(sig))] else old(slots)
    {
      var lastIndex := LastIndex();
      ok := WriteAt(lastIndex + 1, Written(receivedAt, Some(sig)), fails);
    }

    method Replay() returns (calls: seq<Record>)
      requires Valid()
      ensures calls == Replayed(slots)
    {
      calls := [];
      var last := LastIndex();
      var i := FirstIndex();
      while i <= last
        invariant slots != [] ==> first <= i <= last + 1 && calls == Replayed(slots[..i - first])
        invariant slots == [] ==> calls == []
        decreases last + 1 - i
      {
        var s := Read(i);
        if slots != [] {
          assert slots[..i + 1 - first][..i - first] == slots[..i - first];
        }
        if s.Written? && s.signal.Some? {
          calls := calls + [Record(s.signal.value, s.receivedAt)];
        }
        i := i + 1;
      }
      if slots != [] {
        assert slots[..|slots|] == slots;
      }
    }

    /** The index of the last slot to go, or zero. */
    method ScanForCut(t: int) returns (truncateIndex: nat)
      requires Valid()
      ensures truncateIndex == if CutPoint(slots, t) == 0 then 0 else first + CutPoint(slots, t) - 1
    {
      hide CutPoint, Best;
      truncateIndex := 0;
      var last := LastIndex();
      var i := FirstIndex();
      StartOfScan(slots, t);
      while i <= last
        invariant truncateIndex > 0 ==> first <= truncateIndex < i
        invariant slots == [] ==> truncateIndex == 0
        invariant slots != [] ==> first <= i <= last + 1
        invariant slots != [] ==> CutPoint(slots, t) == Best(slots, t, i - first, Cut(truncateIndex, first))
        decreases last + 1 - i
      {
        var s := Read(i);
        if slots != [] {
          ScanOne(slots, t, i - first, Cut(truncateIndex, first));
        }
        if s.Lost? {
          i := i + 1;
          continue;
        }
        if s.receivedAt < t {
          truncateIndex := i;
        } else {
          return;
        }
        i := i + 1;
      }
      if slots != [] {
        EndOfScan(slots, t, Cut(truncateIndex, first));
      }
    }

    /** Fails exactly when every slot would go; then nothing goes. */
    method TruncateBefore(t: int) returns (ok: bool)
      requires Valid()
      modifies this
      ensures Valid() && slots == Truncated(old(slots), t)
      ensures ok == (old(slots) == [] || CutPoint(old(slots), t) < |old(slots)|)
      ensures first == old(first) + |old(slots)| - |slots|
    {
      var truncateIndex := ScanForCut(t);
      if truncateIndex > 0 {
        ok := TruncateFront(truncateIndex + 1);
        return;
      }
      return true;
    }
  }

  // ---------------------------------------------------------------------------
  // What truncation keeps
  // ---------------------------------------------------------------------------

  lemma {:induction false} CutMeaning(slots: seq<Slot>, t: int)
    ensures var n := CutPoint(slots, t);
            && (forall i | 0 <= i < n :: !Recent(slots[i], t))
            && (n > 0 ==> Old(slots[n - 1], t))
            && (forall i | n <= i < |slots| && Old(slots[i], t) :: exists j :: n <= j < i && Recent(slots[j], t))
  {
    if slots != [] && !Recent(slots[0], t) {
      CutMeaning(slots[1..], t);
      var n := CutPoint(slots, t);
      var m := CutPoint(slots[1..], t);
      forall i | n <= i < |slots| && Old(slots[i], t) ensures exists j :: n <= j < i && Recent(slots[j], t) {
        if i > 0 {
          assert slots[i] == slots[1..][i - 1];
          var j :| m <= j < i - 1 && Recent(slots[1..][j], t);
          assert Recent(slots[j + 1], t);
        }
      }
      forall i | 0 <= i < n ensures !Recent(slots[i], t) {
        assert i == 0 || slots[i] == slots[1..][i - 1];
      }
    }
  }

  /** Only a prefix goes, and no readable record from `t` on is in it, whatever
      order the timestamps are in. */
  lemma TruncationCutsAPrefix(slots: seq<Slot>, t: int)
    ensures var kept := Truncated(slots, t);
            && |kept| <= |slots| && kept == slots[|slots| - |kept|..]
            && forall i | 0 <= i < |slots| - |kept| :: !Recent(slots[i], t)
  {
    CutMeaning(slots, t);
  }

  lemma {:induction false} ReplayedConcat(a: seq<Slot>, b: seq<Slot>)
    ensures Replayed(a + b) == Replayed(a) + Replayed(b)
  {
    if b == [] {
      assert a + b == a;
    } else {
      assert (a + b)[..|a + b| - 1] == a + b[..|b| - 1];
      ReplayedConcat(a, b[..|b| - 1]);
    }
  }

  predicate AllReadable(slots: seq<Slot>) {
    forall s <- slots :: s.Written? && s.signal.Some?
  }

  predicate InOrder(slots: seq<Slot>)
    requires AllReadable(slots)
  {
    forall i, j | 0 <= i < j < |slots| :: slots[i].receivedAt <= slots[j].receivedAt
  }

  function RecentSlot(t: int): Slot -> bool {
    (s: Slot) => Recent(s, t)
  }

  lemma {:induction false} SplitAtTime(slots: seq<Slot>, n: nat, t: int)
    requires n <= |slots|
    requires forall i | 0 <= i < n :: !Recent(slots[i], t)
    requires forall i | n <= i < |slots| :: Recent(slots[i], t)
    ensures Keep(RecentSlot(t), slots) == slots[n..]
  {
    if slots != [] {
      if n > 0 {
        SplitAtTime(slots[1..], n - 1, t);
        assert slots[1..][n - 1..] == slots[n..];
      } else {
        assert forall i | 0 <= i < |slots[1..]| :: slots[1..][i] == slots[i + 1];
        SplitAtTime(slots[1..], 0, t);
        assert slots == [slots[0]] + slots[1..];
      }
    }
  }

  /** With readable records in order of time, what survives is exactly what is
      recent enough if and only if nothing is too old or something is recent. */
  lemma TruncationIsExact(slots: seq<Slot>, t: int)
    requires AllReadable(slots) && InOrder(slots)
    ensures Truncated(slots, t) == Keep(RecentSlot(t), slots) <==>
            (forall s <- slots :: !Old(s, t)) || (exists s <- slots :: Recent(s, t))
  {
    CutMeaning(slots, t);
    var n := CutPoint(slots, t);
    forall i | n <= i < |slots| ensures Recent(slots[i], t) {
      assert slots[i] in slots;
    }
    SplitAtTime(slots, n, t);
    if n == |slots| && n > 0 {
      assert slots[n - 1] in slots;
    }
    if n < |slots| {
      assert slots[n] in slots;
    }
  }

  /** `after` is `before` without its first `n` records, which are older than `t`. */
  ghost predicate CutAt(before: seq<Record>, after: seq<Record>, t: int, n: int) {
    0 <= n <= |before| && after == before[n..] && forall i | 0 <= i < n :: before[i].receivedAt < t
  }

  /** A replay after a truncation hands on what one before would have, short of a
      prefix of signals older than `t`. */
  lemma ReplayAfterTruncation(slots: seq<Slot>, t: int)
    ensures exists n :: CutAt(Replayed(slots), Replayed(Truncated(slots, t)), t, n)
  {
    var kept := Truncated(slots, t);
    TruncationCutsAPrefix(slots, t);
    var gone := slots[..|slots| - |kept|];
    assert slots == gone + kept;
    ReplayedConcat(gone, kept);
    ReplayedOld(gone, t);
    var n := |Replayed(gone)|;
    assert Replayed(slots)[n..] == Replayed(kept);
    assert forall i | 0 <= i < n :: Replayed(slots)[i] == Replayed(gone)[i];
    assert CutAt(Replayed(slots), Replayed(kept), t, n);
  }

  /** With readable records in order of time, one of them recent, it hands on exactly
      the recent ones. */
  lemma ReplayIsRecent(slots: seq<Slot>, t: int)
    requires AllReadable(slots) && InOrder(slots) && exists s <- slots :: Recent(s, t)
    ensures exists n :: CutAt(Replayed(slots), Replayed(Truncated(slots, t)), t, n)
    ensures forall r <- Replayed(Truncated(slots, t)) :: r.receivedAt >= t
  {
    hide Truncated, Replayed, CutAt, InOrder;
    ReplayAfterTruncation(slots, t);
    TruncationIsExact(slots, t);
    KeepMembers(RecentSlot(t), slots);
    ReplayedRecent(Truncated(slots, t), t);
  }

  lemma {:induction false} ReplayedRecent(slots: seq<Slot>, t: int)
    requires forall s <- slots :: Recent(s, t)
    ensures forall r <- Replayed(slots) :: r.receivedAt >= t
  {
    if slots != [] {
      ReplayedRecent(slots[..|slots| - 1], t);
      assert slots[|slots| - 1] in slots;
    }
  }

  lemma {:induction false} ReplayedOld(slots: seq<Slot>, t: int)
    requires forall i | 0 <= i < |slots| :: !Recent(slots[i], t)
    ensures forall r <- Replayed(slots) :: r.receivedAt < t
  {
    if slots != [] {
      ReplayedOld(slots[..|slots| - 1], t);
      assert !Recent(slots[|slots| - 1], t);
    }
  }

  function AsWritten(rs: seq<Record>): (r: seq<Slot>)
    ensures |r| == |rs| && forall i | 0 <= i < |rs| :: r[i] == Written(rs[i].receivedAt, Some(rs[i].signal))
  {
    seq(|rs|, i requires 0 <= i < |rs| => Written(rs[i].receivedAt, Some(rs[i].signal)))
  }

  /** Every record that was written and can be read comes back, in order, with its
      type, contents and instant. */
  lemma {:induction false} ReplayGivesBackWrites(rs: seq<Record>)
    ensures Replayed(AsWritten(rs)) == rs
  {
    if rs != [] {
      assert AsWritten(rs)[..|rs| - 1] == AsWritten(rs[..|rs| - 1]);
      ReplayGivesBackWrites(rs[..|rs| - 1]);
    }
  }
}
