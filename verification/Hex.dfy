/** Hexadecimal text of byte strings. */
module Hex {
  import opened Common

  type nibble = x: int | 0 <= x < 16 witness 0

  function NibbleChar(x: nibble): (c: char)
    ensures IsLowerHex(c)
  {
    if x < 10 then '0' + x as char else 'a' + (x - 10) as char
  }

  predicate IsLowerHex(c: char) {
    '0' <= c <= '9' || 'a' <= c <= 'f'
  }

  function NibbleValue(c: char): (r: Option<nibble>) {
    if '0' <= c <= '9' then Some((c - '0') as int)
    else if 'a' <= c <= 'f' then Some((c - 'a') as int + 10)
    else if 'A' <= c <= 'F' then Some((c - 'A') as int + 10)
    else None
  }

  function Encode(b: seq<byte>): (t: string)
    ensures |t| == 2 * |b|
    ensures forall i | 0 <= i < |t| :: IsLowerHex(t[i])
  {
    if b == [] then "" else [NibbleChar(b[0] / 16), NibbleChar(b[0] % 16)] + Encode(b[1..])
  }

  /** Accepts both letter cases, and only whole bytes. */
  function Decode(t: string): (r: Option<seq<byte>>)
    ensures r.Some? ==> |t| == 2 * |r.value|
  {
    if t == "" then Some([])
    else if |t| == 1 then None
    else
      var hi, lo, rest := NibbleValue(t[0]), NibbleValue(t[1]), Decode(t[2..]);
      if hi.None? || lo.None? || rest.None? then None
      else
        var h: int, l: int := hi.value, lo.value;
        Some([h * 16 + l] + rest.value)
  }

  lemma {:induction false} DecodeInvertsEncode(b: seq<byte>)
    ensures Decode(Encode(b)) == Some(b)
  {
    hide NibbleChar, NibbleValue, IsLowerHex;
    if b != [] {
      DecodeInvertsEncode(b[1..]);
      CharOfNibble(b[0] / 16);
      CharOfNibble(b[0] % 16);
      assert Encode(b)[2..] == Encode(b[1..]);
      assert b == [b[0]] + b[1..];
    }
  }

  lemma NibbleOfChar(c: char)
    requires IsLowerHex(c)
    ensures NibbleValue(c).Some? && NibbleChar(NibbleValue(c).value) == c
  {
  }

  lemma CharOfNibble(x: nibble)
    ensures NibbleValue(NibbleChar(x)) == Some(x)
  {
  }

  /** Lower-case text decodes, and re-encodes to itself. */
  lemma {:induction false} EncodeInvertsDecode(t: string)
    requires |t| % 2 == 0 && forall i | 0 <= i < |t| :: IsLowerHex(t[i])
    ensures Decode(t).Some? && Encode(Decode(t).value) == t
  {
    hide NibbleChar, NibbleValue, IsLowerHex;
    if t != "" {
      EncodeInvertsDecode(t[2..]);
      NibbleOfChar(t[0]);
      NibbleOfChar(t[1]);
      var b := Decode(t).value;
      assert b[1..] == Decode(t[2..]).value;
      assert t == [t[0], t[1]] + t[2..];
    }
  }

  lemma EncodeInjective(a: seq<byte>, b: seq<byte>)
    requires Encode(a) == Encode(b)
    ensures a == b
  {
    DecodeInvertsEncode(a);
    DecodeInvertsEncode(b);
  }

  predicate IsHex(c: char) {
    IsLowerHex(c) || 'A' <= c <= 'F'
  }

  /** A text decodes exactly when it is made of pairs of hexadecimal digits, of either case. */
  lemma {:induction false} DecodesExactly(t: string)
    ensures Decode(t).Some? <==> |t| % 2 == 0 && forall i | 0 <= i < |t| :: IsHex(t[i])
  {
    hide IsHex, NibbleValue, IsLowerHex;
    if |t| >= 2 {
      DecodesExactly(t[2..]);
      DigitExactly(t[0]);
      DigitExactly(t[1]);
      assert forall i | 2 <= i < |t| :: t[i] == t[2..][i - 2];
      assert forall i | 0 <= i < |t| - 2 :: t[2..][i] == t[i + 2];
    }
  }

  lemma DigitExactly(c: char)
    ensures NibbleValue(c).Some? <==> IsHex(c)
    ensures 'A' <= c <= 'F' ==> NibbleValue(c) == NibbleValue('a' + (c - 'A'))
  {
  }
}
