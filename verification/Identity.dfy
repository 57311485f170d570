/** Trace identifiers as text: two lower-case hexadecimal digits a byte. */
module Identity {
  import opened Keyed
  import opened Pdata

  const DIGITS := "0123456789abcdef"

  function HexOf(bytes: seq<byte>): string {
    if bytes == [] then ""
    else [DIGITS[bytes[0] / 16], DIGITS[bytes[0] % 16]] + HexOf(bytes[1..])
  }

  function Hex(t: TraceID): string {
    HexOf(t)
  }

  function Nibble(c: char): Option<nat> {
    if '0' <= c <= '9' then Some((c - '0') as nat)
    else if 'a' <= c <= 'f' then Some((c - 'a') as nat + 10)
    else if 'A' <= c <= 'F' then Some((c - 'A') as nat + 10)
    else None
  }

  /** Reads pairs of digits of either case; anything else is an error. */
  function Decode(s: string): Option<seq<byte>> {
    if s == "" then Some([])
    else if |s| == 1 then None
    else
      var hi, lo, rest := Nibble(s[0]), Nibble(s[1]), Decode(s[2..]);
      if hi.Some? && lo.Some? && rest.Some? && hi.value < 16 && lo.value < 16 then
        Some([16 * hi.value + lo.value] + rest.value)
      else None
  }

  /** The identifier a decision names, if it names one. */
  function ParseID(s: string): Option<TraceID> {
    var b := Decode(s);
    if b.Some? && |b.value| == 16 then Some(b.value) else None
  }

  predicate IsHexDigit(c: char) {
    '0' <= c <= '9' || 'a' <= c <= 'f'
  }

  lemma DigitNibble(d: nat)
    requires d < 16
    ensures Nibble(DIGITS[d]) == Some(d) && IsHexDigit(DIGITS[d])
  {
    assert d == 0 || d == 1 || d == 2 || d == 3 || d == 4 || d == 5 || d == 6 || d == 7
        || d == 8 || d == 9 || d == 10 || d == 11 || d == 12 || d == 13 || d == 14 || d == 15;
  }

  lemma {:induction false} DecodeOfHex(bytes: seq<byte>)
    ensures Decode(HexOf(bytes)) == Some(bytes)
    ensures |HexOf(bytes)| == 2 * |bytes| && forall c <- HexOf(bytes) :: IsHexDigit(c)
  {
    hide Nibble;
    if bytes != [] {
      var s := HexOf(bytes);
      var hi, lo := bytes[0] / 16, bytes[0] % 16;
      DecodeOfHex(bytes[1..]);
      DigitNibble(hi);
      DigitNibble(lo);
      assert s == [DIGITS[hi], DIGITS[lo]] + HexOf(bytes[1..]);
      assert s[2..] == HexOf(bytes[1..]);
      assert 16 * hi + lo == bytes[0];
      assert bytes == [bytes[0]] + bytes[1..];
    }
  }

  /** Printing a trace identifier and reading it back gives the same 16 bytes. */
  lemma IDRoundTrip(t: TraceID)
    ensures ParseID(Hex(t)) == Some(t)
    ensures |Hex(t)| == 32 && forall c <- Hex(t) :: IsHexDigit(c)
  {
    DecodeOfHex(t);
  }

  predicate IsHexChar(c: char) {
    '0' <= c <= '9' || 'a' <= c <= 'f' || 'A' <= c <= 'F'
  }

  lemma NibbleReadsDigits(c: char)
    ensures Nibble(c).Some? <==> IsHexChar(c)
    ensures Nibble(c).Some? ==> Nibble(c).value < 16
  {
  }

  predicate AllHex(s: string) {
    forall c <- s :: IsHexChar(c)
  }

  lemma AllHexPair(s: string)
    requires |s| >= 2
    ensures AllHex(s) <==> IsHexChar(s[0]) && IsHexChar(s[1]) && AllHex(s[2..])
  {
    hide IsHexChar;
    assert s == [s[0], s[1]] + s[2..];
  }

  lemma DecodePair(s: string)
    requires |s| >= 2
    ensures Decode(s).Some? <==> Nibble(s[0]).Some? && Nibble(s[1]).Some? && Decode(s[2..]).Some?
    ensures Decode(s).Some? ==> |Decode(s).value| == 1 + |Decode(s[2..]).value|
  {
    NibbleReadsDigits(s[0]);
    NibbleReadsDigits(s[1]);
    hide Nibble;
  }

  /** Text is read as bytes exactly when it is pairs of digits, of either case. */
  lemma {:induction false} DecodeReadsPairs(s: string)
    ensures Decode(s).Some? <==> |s| % 2 == 0 && AllHex(s)
    ensures Decode(s).Some? ==> 2 * |Decode(s).value| == |s|
  {
    hide Nibble, IsHexChar;
    if |s| >= 2 {
      hide Decode, AllHex;
      DecodeReadsPairs(s[2..]);
      NibbleReadsDigits(s[0]);
      NibbleReadsDigits(s[1]);
      AllHexPair(s);
      DecodePair(s);
    }
  }

  /** An identifier is read exactly from 32 digits of either case, and the case of a
      letter does not matter. */
  lemma ReadableIDs(s: string)
    ensures ParseID(s).Some? <==> |s| == 32 && AllHex(s)
    ensures ParseID(Lowered(s)) == ParseID(s)
  {
    DecodeReadsPairs(s);
    DecodeIgnoresCase(s);
  }

  function Lowered(s: string): (r: string)
    ensures |r| == |s| && forall i | 0 <= i < |s| :: r[i] == Lower(s[i])
  {
    seq(|s|, i requires 0 <= i < |s| => Lower(s[i]))
  }

  function Lower(c: char): char {
    if 'A' <= c <= 'F' then c - 'A' + 'a' else c
  }

  lemma NibbleIgnoresCase(c: char)
    ensures Nibble(Lower(c)) == Nibble(c)
  {
  }

  lemma {:induction false} DecodeIgnoresCase(s: string)
    ensures Decode(Lowered(s)) == Decode(s)
  {
    if |s| >= 2 {
      DecodeIgnoresCase(s[2..]);
      NibbleIgnoresCase(s[0]);
      NibbleIgnoresCase(s[1]);
      hide Nibble, Lower;
      assert Lowered(s)[2..] == Lowered(s[2..]);
    }
  }

  /** Trace keys and the keys of metrics and untraced logs never meet. */
  lemma TraceKeysStandApart(t: TraceID)
    ensures !HasPrefix(Hex(t), "m_") && !HasPrefix(Hex(t), "l_")
  {
    IDRoundTrip(t);
    assert IsHexDigit(Hex(t)[0]);
    assert Hex(t)[..2][0] == Hex(t)[0];
  }

  lemma HexIsInjective(s: TraceID, t: TraceID)
    requires Hex(s) == Hex(t)
    ensures s == t
  {
    IDRoundTrip(s);
    IDRoundTrip(t);
  }
}
