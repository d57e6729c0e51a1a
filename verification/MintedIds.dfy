/** The one shape of session id the server mints and accepts back: a canonical lower-case UUID. */
module MintedIds {
  type SessionId = string

  predicate IsHex(ch: char) {
    '0' <= ch <= '9' || 'a' <= ch <= 'f'
  }

  /** The one id shape the server mints: a canonical lower-case UUID. */
  predicate Minted(id: SessionId) {
    && |id| == 36
    && forall i :: 0 <= i < 36 ==> if i in {8, 13, 18, 23} then id[i] == '-' else IsHex(id[i])
  }

  /** The value of one hexadecimal digit, and the digit of a value. */
  function DigitOf(n: nat): char
    requires n < 16
  {
    "0123456789abcdef"[n]
  }

  function ValueOf(ch: char): (n: nat)
    requires IsHex(ch)
    ensures n < 16
  {
    if '0' <= ch <= '9' then ch as int - '0' as int else 10 + (ch as int - 'a' as int)
  }

  lemma DigitIsHex(n: nat)
    requires n < 16
    ensures IsHex(DigitOf(n)) && ValueOf(DigitOf(n)) == n
  {
  }

  lemma HexIsDigit(ch: char)
    requires IsHex(ch)
    ensures DigitOf(ValueOf(ch)) == ch
  {
  }

  function Pow16(n: nat): (p: nat)
    ensures p >= 1
  {
    if n == 0 then 1 else 16 * Pow16(n - 1)
  }

  /** `value` in `width` lower-case hexadecimal digits. */
  function Hex(value: nat, width: nat): (s: string)
    ensures |s| == width
  {
    if width == 0 then "" else Hex(value / 16, width - 1) + [DigitOf(value % 16)]
  }

  predicate AllHex(s: string) {
    forall i :: 0 <= i < |s| ==> IsHex(s[i])
  }

  function Parse(s: string): nat
    requires AllHex(s)
  {
    if s == [] then 0 else 16 * Parse(s[..|s| - 1]) + ValueOf(s[|s| - 1])
  }

  lemma {:induction false} HexParses(value: nat, width: nat)
    requires value < Pow16(width)
    ensures AllHex(Hex(value, width)) && Parse(Hex(value, width)) == value
    decreases width
  {
    if width > 0 {
      HexParses(value / 16, width - 1);
      DigitIsHex(value % 16);
      var s := Hex(value, width);
      assert s[..|s| - 1] == Hex(value / 16, width - 1);
      assert forall i :: 0 <= i < width - 1 ==> s[i] == Hex(value / 16, width - 1)[i];
    }
  }

  lemma {:induction false} ParsePrints(s: string)
    requires AllHex(s)
    ensures Parse(s) < Pow16(|s|) && Hex(Parse(s), |s|) == s
    decreases |s|
  {
    if s != [] {
      var front, last := s[..|s| - 1], s[|s| - 1];
      ParsePrints(front);
      HexIsDigit(last);
      assert Parse(s) / 16 == Parse(front) && Parse(s) % 16 == ValueOf(last);
      assert front + [last] == s;
    }
  }

  /** A 128-bit value as `str(uuid)` prints it: 32 digits in groups of 8, 4, 4, 4 and 12. */
  function Grouped(h: string): (id: SessionId)
    requires |h| == 32
    ensures |id| == 36
  {
    h[..8] + "-" + h[8..12] + "-" + h[12..16] + "-" + h[16..20] + "-" + h[20..]
  }

  function Print(value: nat): SessionId {
    Grouped(Hex(value, 32))
  }

  function Digits(id: SessionId): (h: string)
    requires |id| == 36
    ensures |h| == 32
  {
    id[..8] + id[9..13] + id[14..18] + id[19..23] + id[24..]
  }

  lemma GroupedIsMinted(h: string)
    requires |h| == 32 && AllHex(h)
    ensures Minted(Grouped(h)) && Digits(Grouped(h)) == h
  {
    var id := Grouped(h);
    assert id[..8] == h[..8] && id[9..13] == h[8..12] && id[14..18] == h[12..16];
    assert id[19..23] == h[16..20] && id[24..] == h[20..];
    assert forall i :: 0 <= i < 8 ==> id[i] == h[i];
    assert forall i :: 9 <= i < 13 ==> id[i] == h[i - 1];
    assert forall i :: 14 <= i < 18 ==> id[i] == h[i - 2];
    assert forall i :: 19 <= i < 23 ==> id[i] == h[i - 3];
    assert forall i :: 24 <= i < 36 ==> id[i] == h[i - 4];
  }

  lemma MintedIsGrouped(id: SessionId)
    requires Minted(id)
    ensures AllHex(Digits(id)) && Grouped(Digits(id)) == id
  {
    var h := Digits(id);
    assert h[..8] == id[..8] && h[8..12] == id[9..13] && h[12..16] == id[14..18];
    assert h[16..20] == id[19..23] && h[20..] == id[24..];
    assert forall i :: 0 <= i < 8 ==> h[i] == id[i];
    assert forall i :: 8 <= i < 12 ==> h[i] == id[i + 1];
    assert forall i :: 12 <= i < 16 ==> h[i] == id[i + 2];
    assert forall i :: 16 <= i < 20 ==> h[i] == id[i + 3];
    assert forall i :: 20 <= i < 32 ==> h[i] == id[i + 4];
    assert id[8..9] == "-" && id[13..14] == "-" && id[18..19] == "-" && id[23..24] == "-";
  }

  lemma Is128Bits()
    ensures Pow16(32) == 0x1_0000_0000_0000_0000_0000_0000_0000_0000
  {
    assert Pow16(8) == 0x1_0000_0000;
    assert Pow16(16) == 0x1_0000_0000 * 0x1_0000_0000;
    assert Pow16(24) == 0x1_0000_0000 * 0x1_0000_0000 * 0x1_0000_0000;
  }

  predicate Is128Bit(value: nat) {
    value < 0x1_0000_0000_0000_0000_0000_0000_0000_0000
  }

  /** The id is the printed form of a 128-bit value. */
  ghost predicate Printed(id: SessionId) {
    exists value: nat :: Is128Bit(value) && Print(value) == id
  }

  /** Every printed value is accepted, and every accepted id is printed from exactly one value. */
  lemma MintedIffPrinted(id: SessionId)
    ensures Minted(id) <==> Printed(id)
    ensures forall u: nat, v: nat :: Is128Bit(u) && Is128Bit(v) && Print(u) == id && Print(v) == id ==> u == v
  {
    Is128Bits();
    if Minted(id) {
      MintedIsGrouped(id);
      ParsePrints(Digits(id));
      assert Print(Parse(Digits(id))) == id;
    }
    forall v: nat | Is128Bit(v) && Print(v) == id ensures Minted(id) && v == Parse(Digits(id)) {
      HexParses(v, 32);
      GroupedIsMinted(Hex(v, 32));
    }
  }

  lemma MintedIsPrinted(id: SessionId)
    ensures Minted(id) <==> Printed(id)
  {
    MintedIffPrinted(id);
  }

  /** An id as the server mints them; without its hyphens, in upper case or with a hyphen misplaced it is none. */
  lemma ShapeByExample()
    ensures Minted("123e4567-e89b-12d3-a456-426614174000")
    ensures !Minted("123e4567e89b12d3a456426614174000")
    ensures !Minted("123E4567-E89B-12D3-A456-426614174000")
    ensures !Minted("123e4567-e89b-12d3-a45-6426614174000")
  {
    assert "123E4567-E89B-12D3-A456-426614174000"[3] == 'E';
    assert "123e4567-e89b-12d3-a45-6426614174000"[22] == '-';
  }
}
