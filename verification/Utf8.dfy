/** UTF-8 and the JSON strings of the canonical encoder (internal/canonical/seal.go:136-168). */
module Utf8 {
  import opened Ids

  newtype byte = x: int | 0 <= x < 256
  type Bytes = seq<byte>

  // A literal of the source, as bytes.
  function Lit(s: string): (b: Bytes)
    requires forall i :: 0 <= i < |s| ==> s[i] as int < 128
    ensures |b| == |s| && forall i :: 0 <= i < |s| ==> b[i] as int == s[i] as int
  {
    seq(|s|, i requires 0 <= i < |s| => s[i] as int as byte)
  }

  // Unicode scalar values: no surrogates.
  predicate IsScalar(r: int) {
    0 <= r < 0x11_0000 && !(0xD800 <= r < 0xE000)
  }

  type Rune = r: int | 0 <= r < 0x11_0000 && !(0xD800 <= r < 0xE000) witness 0

  // utf8.AppendRune.
  function RuneBytes(r: Rune): Bytes {
    if r < 0x80 then [r as byte]
    else if r < 0x800 then [(0xC0 + r / 64) as byte, (0x80 + r % 64) as byte]
    else if r < 0x1_0000 then [(0xE0 + r / 4096) as byte, (0x80 + r / 64 % 64) as byte, (0x80 + r % 64) as byte]
    else [(0xF0 + r / 262144) as byte, (0x80 + r / 4096 % 64) as byte, (0x80 + r / 64 % 64) as byte,
        (0x80 + r % 64) as byte]
  }

  predicate Continues(b: byte) {
    0x80 <= b < 0xC0
  }

  function Scalar(r: int, least: int, width: nat): Option<(Rune, nat)> {
    if IsScalar(r) && r >= least then Some((r, width)) else None
  }

  // The rune at the front, in shortest form only, and how many bytes it takes.
  function DecodeRune(b: Bytes): Option<(Rune, nat)> {
    if b == [] then None
    else if b[0] < 0x80 then Some((b[0] as int, 1))
    else if 0xC0 <= b[0] < 0xE0 && |b| >= 2 && Continues(b[1]) then
      Scalar((b[0] as int - 0xC0) * 64 + (b[1] as int - 0x80), 0x80, 2)
    else if 0xE0 <= b[0] < 0xF0 && |b| >= 3 && Continues(b[1]) && Continues(b[2]) then
      Scalar((b[0] as int - 0xE0) * 4096 + (b[1] as int - 0x80) * 64 + (b[2] as int - 0x80), 0x800, 3)
    else if 0xF0 <= b[0] < 0xF8 && |b| >= 4 && Continues(b[1]) && Continues(b[2]) && Continues(b[3]) then
      Scalar((b[0] as int - 0xF0) * 262144 + (b[1] as int - 0x80) * 4096 + (b[2] as int - 0x80) * 64
          + (b[3] as int - 0x80), 0x1_0000, 4)
    else None
  }

  lemma Recomposed(r: nat)
    ensures r / 64 / 64 == r / 4096 && r / 4096 / 64 == r / 262144
    ensures r / 64 * 64 + r % 64 == r
    ensures r / 4096 * 4096 + r / 64 % 64 * 64 + r % 64 == r
    ensures r / 262144 * 262144 + r / 4096 % 64 * 4096 + r / 64 % 64 * 64 + r % 64 == r
  {
    var a, b := r / 64, r / 4096;
    assert a / 64 == b && b / 64 == r / 262144;
    assert a == a / 64 * 64 + a % 64 && b == b / 64 * 64 + b % 64;
  }

  lemma RuneDecodes(r: Rune, rest: Bytes)
    ensures DecodeRune(RuneBytes(r) + rest) == Some((r, |RuneBytes(r)|))
    ensures (RuneBytes(r) + rest)[|RuneBytes(r)|..] == rest
  {
    var head, b := RuneBytes(r), RuneBytes(r) + rest;
    assert b[|head|..] == rest && b[0] == head[0];
    Recomposed(r);
    if 0x80 <= r < 0x800 {
      assert b[1] == head[1];
    } else if 0x800 <= r < 0x1_0000 {
      assert b[1] == head[1] && b[2] == head[2];
    } else if 0x1_0000 <= r {
      assert b[1] == head[1] && b[2] == head[2] && b[3] == head[3];
    }
  }

  lemma TwoParts(a: nat, b: nat)
    requires b < 64
    ensures (a * 64 + b) / 64 == a && (a * 64 + b) % 64 == b
  {
  }

  lemma ThreeParts(a: nat, b: nat, c: nat)
    requires b < 64 && c < 64
    ensures (a * 4096 + b * 64 + c) / 4096 == a && (a * 4096 + b * 64 + c) / 64 % 64 == b
              && (a * 4096 + b * 64 + c) % 64 == c
  {
    TwoParts(a * 64 + b, c);
    TwoParts(a, b);
    assert a * 4096 + b * 64 + c == (a * 64 + b) * 64 + c;
  }

  lemma FourParts(a: nat, b: nat, c: nat, d: nat)
    requires b < 64 && c < 64 && d < 64
    ensures var r := a * 262144 + b * 4096 + c * 64 + d;
            r / 262144 == a && r / 4096 % 64 == b && r / 64 % 64 == c && r % 64 == d
  {
    var r := a * 262144 + b * 4096 + c * 64 + d;
    ThreeParts(a * 64 + b, c, d);
    TwoParts(a, b);
    assert r == (a * 64 + b) * 4096 + c * 64 + d;
    assert r / 262144 == a;
  }

  lemma DecodedEncodes(b: Bytes)
    ensures DecodeRune(b).Some? ==> 0 < DecodeRune(b).value.1 <= |b|
    ensures DecodeRune(b).Some? ==> RuneBytes(DecodeRune(b).value.0) == b[..DecodeRune(b).value.1]
  {
    if DecodeRune(b).Some? {
      if b[0] < 0x80 {
        assert b[..1] == [b[0]];
      } else if b[0] < 0xE0 {
        TwoParts(b[0] as int - 0xC0, b[1] as int - 0x80);
        assert b[..2] == [b[0], b[1]];
      } else if b[0] < 0xF0 {
        ThreeParts(b[0] as int - 0xE0, b[1] as int - 0x80, b[2] as int - 0x80);
        assert b[..3] == [b[0], b[1], b[2]];
      } else {
        FourParts(b[0] as int - 0xF0, b[1] as int - 0x80, b[2] as int - 0x80, b[3] as int - 0x80);
        assert b[..4] == [b[0], b[1], b[2], b[3]];
      }
    }
  }

  // utf8.ValidString, with the runes a range loop yields.
  function Runes(b: Bytes): Option<seq<Rune>>
    decreases |b|
  {
    if b == [] then Some([])
    else
      var first := DecodeRune(b);
      if first.None? then None
      else
        DecodedEncodes(b);
        var rest := Runes(b[first.value.1..]);
        if rest.None? then None else Some([first.value.0] + rest.value)
  }

  function Encoded(rs: seq<Rune>): Bytes {
    if rs == [] then [] else RuneBytes(rs[0]) + Encoded(rs[1..])
  }

  // Valid strings and rune sequences are the same thing.
  lemma {:induction false} RunesRoundTrip(rs: seq<Rune>)
    ensures Runes(Encoded(rs)) == Some(rs)
  {
    if rs != [] {
      RunesRoundTrip(rs[1..]);
      RuneDecodes(rs[0], Encoded(rs[1..]));
      assert [rs[0]] + rs[1..] == rs;
    }
  }

  lemma {:induction false} ValidIsEncoded(b: Bytes)
    ensures Runes(b).Some? ==> Encoded(Runes(b).value) == b
    decreases |b|
  {
    if b != [] && Runes(b).Some? {
      DecodedEncodes(b);
      var n := DecodeRune(b).value.1;
      ValidIsEncoded(b[n..]);
      assert b == b[..n] + b[n..];
      var rs := Runes(b).value;
      assert rs[1..] == Runes(b[n..]).value;
    }
  }

  // ------------------------------------------------------------ JSON strings

  const QUOTE: byte := 34
  const BACKSLASH: byte := 92
  const LETTER_U: byte := 117

  function HexDigit(d: nat): byte
    requires d < 16
  {
    if d < 10 then (48 + d) as byte else (87 + d) as byte
  }

  // The single letter that follows the backslash, for the runes that have one.
  function ShortEscape(r: Rune): Option<byte> {
    if r == 34 || r == 92 then Some(r as byte)
    else if r == 8 then Some(98)
    else if r == 9 then Some(116)
    else if r == 10 then Some(110)
    else if r == 12 then Some(102)
    else if r == 13 then Some(114)
    else None
  }

  function EscapedRune(r: Rune): Bytes {
    if ShortEscape(r).Some? then [BACKSLASH, ShortEscape(r).value]
    else if r < 0x20 then [BACKSLASH, LETTER_U, 48, 48, HexDigit(r / 16), HexDigit(r % 16)]
    else RuneBytes(r)
  }

  function Escaped(rs: seq<Rune>): Bytes {
    if rs == [] then [] else EscapedRune(rs[0]) + Escaped(rs[1..])
  }

  function Quoted(rs: seq<Rune>): Bytes {
    [QUOTE] + Escaped(rs) + [QUOTE]
  }

  lemma {:induction false} EscapedNext(rs: seq<Rune>, k: nat)
    requires k < |rs|
    ensures Escaped(rs[..k + 1]) == Escaped(rs[..k]) + EscapedRune(rs[k])
    decreases k
  {
    if k > 0 {
      EscapedNext(rs[1..], k - 1);
      assert rs[1..][..k] == rs[..k + 1][1..];
      assert rs[1..][..k - 1] == rs[..k][1..];
      assert rs[1..][k - 1] == rs[k];
      var first, mid, last := EscapedRune(rs[0]), Escaped(rs[..k][1..]), EscapedRune(rs[k]);
      assert Escaped(rs[..k + 1]) == first + Escaped(rs[..k + 1][1..]);
      assert first + (mid + last) == first + mid + last;
    } else {
      assert rs[..1][1..] == [] && rs[..1][0] == rs[0];
      assert Escaped(rs[..1]) == EscapedRune(rs[0]) + Escaped([]);
    }
  }

  // The switch of AppendString.
  method AppendEscaped(b: Bytes, r: Rune) returns (out: Bytes)
    ensures out == b + EscapedRune(r)
  {
    if r == 34 || r == 92 {
      out := b + [BACKSLASH, r as byte];
    } else if r == 8 {
      out := b + [BACKSLASH, 98];
    } else if r == 9 {
      out := b + [BACKSLASH, 116];
    } else if r == 10 {
      out := b + [BACKSLASH, 110];
    } else if r == 12 {
      out := b + [BACKSLASH, 102];
    } else if r == 13 {
      out := b + [BACKSLASH, 114];
    } else if r < 0x20 {
      out := b + [BACKSLASH, LETTER_U, 48, 48, HexDigit(r / 16), HexDigit(r % 16)];
    } else {
      out := b + RuneBytes(r);
    }
  }

  // AppendString: it refuses exactly the strings that are not valid UTF-8.
  method AppendString(b: Bytes, value: Bytes) returns (res: Option<Bytes>)
    ensures res.Some? <==> Runes(value).Some?
    ensures res.Some? ==> res.value == b + Quoted(Runes(value).value)
  {
    var decoded := Runes(value);
    if decoded.None? {
      return None;
    }
    var out, rs := b + [QUOTE], decoded.value;
    for k := 0 to |rs|
      invariant out == b + [QUOTE] + Escaped(rs[..k])
    {
      EscapedNext(rs, k);
      var escaped := AppendEscaped(out, rs[k]);
      assert escaped == b + [QUOTE] + Escaped(rs[..k + 1]);
      out := escaped;
    }
    assert rs[..|rs|] == rs;
    res := Some(out + [QUOTE]);
  }

  // ------------------------------------------------- reading a JSON string back

  function HexValue(b: byte): Option<nat> {
    if 48 <= b < 58 then Some(b as int - 48)
    else if 97 <= b < 103 then Some(b as int - 87)
    else if 65 <= b < 71 then Some(b as int - 55)
    else None
  }

  // Four hexadecimal digits.
  function CodeUnit(b: Bytes): Option<nat> {
    if |b| < 4 || HexValue(b[0]).None? || HexValue(b[1]).None? || HexValue(b[2]).None? || HexValue(b[3]).None? then None
    else Some(HexValue(b[0]).value * 4096 + HexValue(b[1]).value * 256 + HexValue(b[2]).value * 16
        + HexValue(b[3]).value)
  }

  function LetterRune(b: byte): Option<Rune> {
    if b == 34 || b == 92 || b == 47 then Some(b as int)
    else if b == 98 then Some(8)
    else if b == 102 then Some(12)
    else if b == 110 then Some(10)
    else if b == 114 then Some(13)
    else if b == 116 then Some(9)
    else None
  }

  // One character of a JSON string: unescaped, a letter escape, a code unit, or a
  // surrogate pair (section 7 of RFC 8259).
  function ParseRune(b: Bytes): Option<(Rune, nat)> {
    if b == [] || b[0] < 0x20 then None
    else if b[0] != BACKSLASH then DecodeRune(b)
    else if |b| >= 2 && LetterRune(b[1]).Some? then Some((LetterRune(b[1]).value, 2))
    else if |b| < 2 || b[1] != LETTER_U || CodeUnit(b[2..]).None? then None
    else
      var unit := CodeUnit(b[2..]).value;
      if IsScalar(unit) then Some((unit, 6))
      else if unit < 0xDC00 && |b| >= 12 && b[6] == BACKSLASH && b[7] == LETTER_U && CodeUnit(b[8..]).Some? then
        var low := CodeUnit(b[8..]).value;
        if 0xDC00 <= low < 0xE000 then Scalar(0x1_0000 + (unit - 0xD800) * 1024 + (low - 0xDC00), 0x1_0000, 12)
            else None
      else None
  }

  lemma ParseRuneWidth(b: Bytes)
    ensures ParseRune(b).Some? ==> 0 < ParseRune(b).value.1 <= |b|
  {
    DecodedEncodes(b);
  }

  function ParseChars(b: Bytes): Option<(seq<Rune>, Bytes)>
    decreases |b|
  {
    if b == [] then None
    else if b[0] == QUOTE then Some(([], b[1..]))
    else
      var first := ParseRune(b);
      if first.None? then None
      else
        ParseRuneWidth(b);
        var rest := ParseChars(b[first.value.1..]);
        if rest.None? then None else Some(([first.value.0] + rest.value.0, rest.value.1))
  }

  // The string at the front and the bytes after it.
  function ParseString(b: Bytes): Option<(seq<Rune>, Bytes)> {
    if b == [] || b[0] != QUOTE then None else ParseChars(b[1..])
  }

  lemma EscapedRuneParses(r: Rune, rest: Bytes)
    ensures EscapedRune(r) != [] && EscapedRune(r)[0] != QUOTE
    ensures ParseRune(EscapedRune(r) + rest) == Some((r, |EscapedRune(r)|))
    ensures (EscapedRune(r) + rest)[|EscapedRune(r)|..] == rest
  {
    var b := EscapedRune(r) + rest;
    if ShortEscape(r).Some? {
      assert b[1] == ShortEscape(r).value;
    } else if r < 0x20 {
      assert b[2..][0] == 48 && b[2..][1] == 48 && b[2..][2] == HexDigit(r / 16) && b[2..][3] == HexDigit(r % 16);
    } else {
      RuneDecodes(r, rest);
    }
  }

  // No other JSON spelling of the character is shorter; the hexadecimal digits are small letters.
  lemma ShortestEscape(r: Rune, b: Bytes)
    requires b != [] && b[0] != QUOTE && ParseRune(b).Some? && ParseRune(b).value.0 == r
    ensures |EscapedRune(r)| <= ParseRune(b).value.1
    ensures r < 0x20 && |EscapedRune(r)| == 6 ==>
              forall i :: 2 <= i < 6 ==> EscapedRune(r)[i] in Lit("0123456789abcdef")
  {
    var digits := Lit("0123456789abcdef");
    if b[0] != BACKSLASH {
      DecodedEncodes(b);
      assert RuneBytes(r) == b[..ParseRune(b).value.1];
    }
    if r < 0x20 && |EscapedRune(r)| == 6 {
      assert digits[0] == 48;
      forall d: nat | d < 16 ensures HexDigit(d) in digits {
        assert digits[d] == HexDigit(d);
      }
    }
  }

  lemma {:induction false} EscapedParses(rs: seq<Rune>, rest: Bytes)
    ensures ParseChars(Escaped(rs) + [QUOTE] + rest) == Some((rs, rest))
  {
    if rs == [] {
      assert ([QUOTE] + rest)[1..] == rest;
      assert Escaped(rs) + [QUOTE] + rest == [QUOTE] + rest;
    } else {
      EscapedParses(rs[1..], rest);
      var tail := Escaped(rs[1..]) + [QUOTE] + rest;
      EscapedRuneParses(rs[0], tail);
      assert Escaped(rs) + [QUOTE] + rest == EscapedRune(rs[0]) + tail;
      assert [rs[0]] + rs[1..] == rs;
    }
  }

  // The parser undoes the printer, whatever bytes follow.
  lemma QuotedParses(rs: seq<Rune>, rest: Bytes)
    ensures ParseString(Quoted(rs) + rest) == Some((rs, rest))
  {
    EscapedParses(rs, rest);
    assert (Quoted(rs) + rest)[1..] == Escaped(rs) + [QUOTE] + rest;
  }
}
