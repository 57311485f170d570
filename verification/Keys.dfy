/** What the text keys tell apart, and what they run together. */
module Keys {
  import opened Int64
  import opened Keyed
  import opened Pdata
  import opened Filter
  import opened Live
  import opened LogRollup

  // ---------------------------------------------------------------------------
  // Decimal numbers
  // ---------------------------------------------------------------------------

  function DigitValue(c: char): int {
    c as int - '0' as int
  }

  function ReadNatural(s: string): int {
    if s == [] then 0 else 10 * ReadNatural(s[..|s| - 1]) + DigitValue(s[|s| - 1])
  }

  function ReadDecimal(s: string): int {
    if s != [] && s[0] == '-' then -ReadNatural(s[1..]) else ReadNatural(s)
  }

  predicate Numeral(s: string) {
    s != [] && forall c <- s :: '0' <= c <= '9'
  }

  lemma {:induction false} NaturalReadsBack(n: nat)
    ensures Numeral(Natural(n)) && ReadNatural(Natural(n)) == n
  {
    if n >= 10 {
      NaturalReadsBack(n / 10);
      assert Natural(n)[..|Natural(n)| - 1] == Natural(n / 10);
    }
  }

  /** A number printed is read back. */
  lemma DecimalReadsBack(n: int)
    ensures ReadDecimal(Decimal(n)) == n
    ensures n >= 0 ==> Numeral(Decimal(n))
    ensures n < 0 ==> Decimal(n)[0] == '-' && Numeral(Decimal(n)[1..])
  {
    hide Natural, ReadNatural;
    if n < 0 {
      NaturalReadsBack(-n);
      assert Decimal(n)[1..] == Natural(-n);
    } else {
      NaturalReadsBack(n);
      assert Natural(n)[0] in Natural(n);
    }
  }

  lemma DecimalHasNo(n: int, c: char)
    requires c != '-' && !('0' <= c <= '9')
    ensures c !in Decimal(n)
  {
    hide Decimal;
    DecimalReadsBack(n);
    if n < 0 {
      assert Decimal(n) == [Decimal(n)[0]] + Decimal(n)[1..];
    }
  }

  // ---------------------------------------------------------------------------
  // Separators
  // ---------------------------------------------------------------------------

  /** Text splits in one way at the first separator. */
  lemma {:induction false} FirstSplits(c: char, a: string, x: string, b: string, y: string)
    requires c !in a && c !in b && a + [c] + x == b + [c] + y
    ensures a == b && x == y
  {
    var s, t := a + [c] + x, b + [c] + y;
    assert s[0] == (if a == [] then c else a[0]) && t[0] == if b == [] then c else b[0];
    assert (a != [] ==> a[0] in a) && (b != [] ==> b[0] in b);
    if a == [] {
      assert s[1..] == x && t[1..] == y;
    } else {
      assert s[1..] == a[1..] + [c] + x && t[1..] == b[1..] + [c] + y;
      FirstSplits(c, a[1..], x, b[1..], y);
      assert a == [a[0]] + a[1..] && b == [b[0]] + b[1..];
    }
  }

  // ---------------------------------------------------------------------------
  // Attributes
  // ---------------------------------------------------------------------------

  /** The string forms of values. */
  lemma StringForms(s: string, i: int64, b: bool)
    ensures StrValue(s).AsString() == s && OtherValue(s).AsString() == s
    ensures ReadDecimal(IntValue(i).AsString()) == i
    ensures BoolValue(b).AsString() == if b then "true" else "false"
  {
    DecimalReadsBack(i);
  }

  /** Same keys and string forms, in the same order. */
  predicate SameText(m: Attrs, n: Attrs) {
    |m| == |n| && forall i | 0 <= i < |m| :: m[i].key == n[i].key && m[i].val.AsString() == n[i].val.AsString()
  }

  /** No separator where it would be read as one. */
  predicate Plain(m: Attrs) {
    forall a <- m :: '=' !in a.key && ';' !in a.val.AsString()
  }

  lemma EntrySplits(a: Attr, x: string, b: Attr, y: string)
    requires Plain([a]) && Plain([b]) && Entry(a) + x == Entry(b) + y
    ensures a.key == b.key && a.val.AsString() == b.val.AsString() && x == y
  {
    var v, w := a.val.AsString(), b.val.AsString();
    assert a in [a] && b in [b];
    assert Entry(a) + x == a.key + ['='] + (v + [';'] + x);
    assert Entry(b) + y == b.key + ['='] + (w + [';'] + y);
    FirstSplits('=', a.key, v + [';'] + x, b.key, w + [';'] + y);
    FirstSplits(';', v, x, w, y);
  }

  lemma EntryNotEmpty(m: Attrs)
    requires m != []
    ensures AttrKey(m) != ""
  {
  }

  /** Unless text holds the separators, two attribute keys are equal if and only if
      the keys and the string forms are, in order. */
  lemma {:induction false} AttrKeysTellApart(m: Attrs, n: Attrs)
    requires Plain(m) && Plain(n)
    ensures AttrKey(m) == AttrKey(n) <==> SameText(m, n)
  {
    hide Entry, AttrKey;
    if m == [] || n == [] {
      if m != [] {
        EntryNotEmpty(m);
      }
      if n != [] {
        EntryNotEmpty(n);
      }
      assert AttrKey([]) == "" by {
        NoAttrKey();
      }
    } else {
      AttrKeyFront(m);
      AttrKeyFront(n);
      assert m == [m[0]] + m[1..] && n == [n[0]] + n[1..];
      AttrKeysTellApart(m[1..], n[1..]);
      if AttrKey(m) == AttrKey(n) {
        EntrySplits(m[0], AttrKey(m[1..]), n[0], AttrKey(n[1..]));
      }
      if SameText(m, n) {
        SameEntry(m[0], n[0]);
        assert SameText(m[1..], n[1..]);
      }
    }
  }

  /** A separator inside a value: one attribute is taken for two. */
  lemma AttrsRunTogether()
    ensures AttrKey([Attr("a", StrValue("1;b=2"))]) == AttrKey([Attr("a", StrValue("1")), Attr("b", StrValue("2"))])
  {
    var m, n := [Attr("a", StrValue("1;b=2"))], [Attr("a", StrValue("1")), Attr("b", StrValue("2"))];
    assert m[..0] == [] && n[..1] == [n[0]] && [n[0]][..0] == [];
    assert Entry(m[0]) == Entry(n[0]) + Entry(n[1]);
  }

  lemma NoAttrKey()
    ensures AttrKey([]) == ""
  {
  }

  lemma SameEntry(a: Attr, b: Attr)
    requires a.key == b.key && a.val.AsString() == b.val.AsString()
    ensures Entry(a) == Entry(b)
  {
  }

  /** The three attributes a Medium rollup keeps. */
  function KeptEntry(): Attr -> bool {
    (a: Attr) => a.key == "http.method" || a.key == "http.status_code" || a.key == "error"
  }

  lemma {:induction false} KeptIsKeep(m: Attrs)
    ensures Kept(m) == Keep(KeptEntry(), m)
  {
    if m != [] {
      var init, last := m[..|m| - 1], m[|m| - 1];
      KeptIsKeep(init);
      assert m == init + [last];
      KeepSnoc(KeptEntry(), init, last);
    }
  }

  predicate PlainValues(m: Attrs) {
    forall a <- m :: ';' !in a.val.AsString()
  }

  lemma PlainKept(m: Attrs)
    requires PlainValues(m)
    ensures Plain(Kept(m))
  {
    KeptIsKeep(m);
    KeepMembers(KeptEntry(), m);
  }

  lemma NoKeyAtCoarse(m: Attrs, l: Level)
    ensures FilterKey(m, l) == if l == Coarse then "" else AttrKey(Kept(m))
  {
  }

  /** Points are filed together if and only if the level is Coarse, or the attributes
      of these three names are the same text in the same order. */
  lemma FilterKeysTellApart(m: Attrs, n: Attrs, l: Level)
    requires PlainValues(m) && PlainValues(n)
    ensures FilterKey(m, l) == FilterKey(n, l) <==>
            l == Coarse || SameText(Keep(KeptEntry(), m), Keep(KeptEntry(), n))
  {
    KeptIsKeep(m);
    KeptIsKeep(n);
    hide *;
    PlainKept(m);
    PlainKept(n);
    NoKeyAtCoarse(m, l);
    NoKeyAtCoarse(n, l);
    AttrKeysTellApart(Kept(m), Kept(n));
  }

  /** What a put changes. */
  lemma {:induction false} PutIsLookedUp(m: Attrs, k: string, v: Value, j: string)
    ensures Lookup(PutAttr(m, k, v), j) == if j == k then Some(v) else Lookup(m, j)
  {
    if m != [] && m[0].key != k {
      PutIsLookedUp(m[1..], k, v, j);
    }
  }

  /** The value of the last entry with a key. */
  function LastOf(m: Attrs, k: string): Option<Value> {
    if m == [] then None
    else if m[|m| - 1].key == k then Some(m[|m| - 1].val)
    else LastOf(m[..|m| - 1], k)
  }

  lemma {:induction false} PutEachHasLast(m: Attrs, k: string)
    ensures Lookup(PutEach(m), k) == LastOf(m, k)
  {
    if m != [] {
      var init, last := m[..|m| - 1], m[|m| - 1];
      PutEachHasLast(init, k);
      PutIsLookedUp(PutEach(init), last.key, last.val, k);
    }
  }

  lemma {:induction false} PutKeepsUnique(m: Attrs, k: string, v: Value)
    requires UniqueKeys(m)
    ensures UniqueKeys(PutAttr(m, k, v))
  {
    if HasKey(m, k) {
      PutInPlace(m, k, v);
    } else {
      PutFresh(m, k, v);
      UniqueSnoc(m, Attr(k, v));
    }
  }

  lemma {:induction false} PutInPlace(m: Attrs, k: string, v: Value)
    requires HasKey(m, k)
    ensures var n := PutAttr(m, k, v); |n| == |m| && forall i | 0 <= i < |m| :: n[i].key == m[i].key
  {
    if m[0].key != k {
      assert m == [m[0]] + m[1..];
      PutInPlace(m[1..], k, v);
    }
  }

  lemma {:induction false} PutEachIsUnique(m: Attrs)
    ensures UniqueKeys(PutEach(m))
  {
    if m != [] {
      PutEachIsUnique(m[..|m| - 1]);
      PutKeepsUnique(PutEach(m[..|m| - 1]), m[|m| - 1].key, m[|m| - 1].val);
    }
  }

  /** A row carries each of the three attributes once, with the last value that its
      first point has for it, and nothing else; at Coarse it carries none. Without
      repeats they are those of the point, in order. */
  lemma RowsCarryTheThree(m: Attrs, l: Level, k: string)
    ensures UniqueKeys(Filtered(m, l))
    ensures Lookup(Filtered(m, l), k) == if l == Coarse then None else LastOf(Keep(KeptEntry(), m), k)
    ensures l != Coarse && UniqueKeys(Keep(KeptEntry(), m)) ==> Filtered(m, l) == Keep(KeptEntry(), m)
  {
    KeptIsKeep(m);
    PutEachHasLast(Kept(m), k);
    PutEachIsUnique(Kept(m));
    PutEachKey(Kept(m));
  }

  // ---------------------------------------------------------------------------
  // Scopes
  // ---------------------------------------------------------------------------

  /** What is at the end of the name of one is at the start of the version of the
      other. */
  ghost predicate Shifts(s: Scope, t: Scope) {
    |s.name| <= |t.name| && t.name[..|s.name|] == s.name && s.version == t.name[|s.name|..] + t.version
  }

  /** Name and version are run together: scopes get one key if and only if moving
      the boundary makes them the same. */
  lemma ScopeKeysTellApart(s: Scope, t: Scope)
    ensures ScopeKey(s) == ScopeKey(t) <==> Shifts(s, t) || Shifts(t, s)
    ensures |s.name| == |t.name| ==> (ScopeKey(s) == ScopeKey(t) <==> s == t)
  {
    if ScopeKey(s) == ScopeKey(t) {
      if |s.name| <= |t.name| {
        ShiftsIfEqual(s, t);
      } else {
        ShiftsIfEqual(t, s);
      }
    }
    if Shifts(s, t) {
      EqualIfShifts(s, t);
    }
    if Shifts(t, s) {
      EqualIfShifts(t, s);
    }
  }

  lemma ShiftsIfEqual(s: Scope, t: Scope)
    requires ScopeKey(s) == ScopeKey(t) && |s.name| <= |t.name|
    ensures Shifts(s, t)
  {
    var k, n := ScopeKey(s), |s.name|;
    assert k[..n] == s.name && k[..n] == t.name[..n];
    assert k[n..] == s.version && k[n..] == t.name[n..] + t.version;
  }

  lemma EqualIfShifts(s: Scope, t: Scope)
    requires Shifts(s, t)
    ensures ScopeKey(s) == ScopeKey(t)
  {
    var n := |s.name|;
    assert t.name == t.name[..n] + t.name[n..];
    assert s.name + (t.name[n..] + t.version) == (s.name + t.name[n..]) + t.version;
  }

  /** A scope "ab" of version "c" is taken for a scope "a" of version "bc". */
  lemma ScopesRunTogether()
    ensures ScopeKey(Scope("ab", "c")) == ScopeKey(Scope("a", "bc"))
  {
  }

  // ---------------------------------------------------------------------------
  // Log records
  // ---------------------------------------------------------------------------

  /** The bodies are the same, or, at Coarse, both are longer than twenty and begin
      with the same twenty. */
  predicate SamePattern(b: string, c: string, l: Level) {
    b == c || (l == Coarse && |b| > 20 && |c| > 20 && b[..20] == c[..20])
  }

  /** Records are counted together if and only if their severities are equal and
      their bodies follow one pattern. */
  lemma LogKeysTellApart(r: LogRecord, s: LogRecord, l: Level)
    ensures LogKey(r, l) == LogKey(s, l) <==> r.severity == s.severity && SamePattern(r.body, s.body, l)
  {
    hide Decimal;
    var b := if |r.body| > 20 && l == Coarse then r.body[..20] + "..." else r.body;
    var c := if |s.body| > 20 && l == Coarse then s.body[..20] + "..." else s.body;
    DecimalHasNo(r.severity, ':');
    DecimalHasNo(s.severity, ':');
    DecimalReadsBack(r.severity);
    DecimalReadsBack(s.severity);
    assert (|r.body| > 20 && l == Coarse ==> |b| == 23 && b[..20] == r.body[..20]);
    assert (|s.body| > 20 && l == Coarse ==> |c| == 23 && c[..20] == s.body[..20]);
    if LogKey(r, l) == LogKey(s, l) {
      assert Decimal(r.severity) + [':'] + b == Decimal(s.severity) + [':'] + c;
      FirstSplits(':', Decimal(r.severity), b, Decimal(s.severity), c);
    }
  }
}
