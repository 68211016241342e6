/**
  Base64 without padding (sections 3.2, 4 and 5 of RFC 4648), written out, and
  the canonical 43-character digests built on it.
*/
module Base64 {
  import opened Common

  type sextet = x: int | 0 <= x < 64 witness 0

  /** The bits of the bytes, six at a time, the last group filled with zero bits. */
  function Sextets(b: seq<byte>): (s: seq<sextet>)
    ensures |s| == (|b| * 4 + 2) / 3
  {
    if |b| == 0 then []
    else if |b| == 1 then [b[0] / 4, b[0] % 4 * 16]
    else if |b| == 2 then [b[0] / 4, b[0] % 4 * 16 + b[1] / 16, b[1] % 16 * 4]
    else [b[0] / 4, b[0] % 4 * 16 + b[1] / 16, b[1] % 16 * 4 + b[2] / 64, b[2] % 64] + Sextets(b[3..])
  }

  /** Decoding; bits left over in the last group are dropped. */
  function Octets(s: seq<sextet>): seq<byte>
    requires |s| % 4 != 1
  {
    if |s| == 0 then []
    else
      var w: int, x: int := s[0], s[1];
      if |s| == 2 then [w * 4 + x / 16]
      else
        var y: int := s[2];
        if |s| == 3 then [w * 4 + x / 16, x % 16 * 16 + y / 4]
        else
          var z: int := s[3];
          [w * 4 + x / 16, x % 16 * 16 + y / 4, y % 4 * 64 + z] + Octets(s[4..])
  }

  /** Regrouping the bits of three bytes, and of the one or two at the end. */
  lemma BitsRegroup(x: byte, y: byte, z: byte)
    ensures x / 4 * 4 + (x % 4 * 16 + y / 16) / 16 == x && x / 4 * 4 + x % 4 * 16 / 16 == x
    ensures (x % 4 * 16 + y / 16) % 16 * 16 + (y % 16 * 4 + z / 64) / 4 == y
    ensures (x % 4 * 16 + y / 16) % 16 * 16 + y % 16 * 4 / 4 == y
    ensures (y % 16 * 4 + z / 64) % 4 * 64 + z % 64 == z
  {
  }

  lemma {:induction false} OctetsInvertSextets(b: seq<byte>)
    ensures Octets(Sextets(b)) == b
  {
    if |b| == 1 {
      BitsRegroup(b[0], 0, 0);
    } else if |b| == 2 {
      BitsRegroup(b[0], b[1], 0);
    } else if |b| >= 3 {
      OctetsInvertSextets(b[3..]);
      BitsRegroup(b[0], b[1], b[2]);
      var s := Sextets(b);
      assert s[4..] == Sextets(b[3..]);
      assert b == b[..3] + b[3..];
    }
  }

  datatype Alphabet = Standard | UrlSafe

  function CharOf(a: Alphabet, x: sextet): char {
    if x < 26 then 'A' + x as char
    else if x < 52 then 'a' + (x - 26) as char
    else if x < 62 then '0' + (x - 52) as char
    else if x == 62 then (if a == Standard then '+' else '-')
    else (if a == Standard then '/' else '_')
  }

  function SextetOf(a: Alphabet, c: char): (r: Option<sextet>)
    ensures r.Some? ==> CharOf(a, r.value) == c
  {
    if 'A' <= c <= 'Z' then Some((c - 'A') as int)
    else if 'a' <= c <= 'z' then Some((c - 'a') as int + 26)
    else if '0' <= c <= '9' then Some((c - '0') as int + 52)
    else if c == CharOf(a, 62) then Some(62)
    else if c == CharOf(a, 63) then Some(63)
    else None
  }

  function Text(a: Alphabet, s: seq<sextet>): (t: string)
    ensures |t| == |s|
  {
    seq(|s|, i requires 0 <= i < |s| => CharOf(a, s[i]))
  }

  function Values(a: Alphabet, t: string): (r: Option<seq<sextet>>)
    ensures r.Some? ==> |r.value| == |t|
  {
    if t == "" then Some([])
    else
      var head, tail := SextetOf(a, t[0]), Values(a, t[1..]);
      if head.None? || tail.None? then None else Some([head.value] + tail.value)
  }

  lemma SextetOfChar(a: Alphabet, x: sextet)
    ensures SextetOf(a, CharOf(a, x)) == Some(x)
  {
  }

  lemma {:induction false} ValuesOfText(a: Alphabet, s: seq<sextet>)
    ensures Values(a, Text(a, s)) == Some(s)
  {
    hide CharOf, SextetOf;
    if s != [] {
      SextetOfChar(a, s[0]);
      ValuesOfText(a, s[1..]);
      assert Text(a, s)[1..] == Text(a, s[1..]);
      assert s == [s[0]] + s[1..];
    }
  }

  function Encode(a: Alphabet, b: seq<byte>): string {
    Text(a, Sextets(b))
  }

  function Decode(a: Alphabet, t: string): Option<seq<byte>> {
    var v := Values(a, t);
    if v.None? || |t| % 4 == 1 then None else Some(Octets(v.value))
  }

  lemma DecodeInvertsEncode(a: Alphabet, b: seq<byte>)
    ensures Decode(a, Encode(a, b)) == Some(b)
  {
    hide Sextets, Octets, Values, Text;
    ValuesOfText(a, Sextets(b));
    OctetsInvertSextets(b);
    NeverOneOver(|b|);
  }

  /** No number of bytes leaves a single sextet over. */
  lemma NeverOneOver(n: nat)
    ensures (n * 4 + 2) / 3 % 4 != 1
  {
    var q, r := n / 3, n % 3;
    assert n * 4 + 2 == 3 * (4 * q) + (4 * r + 2);
    assert (n * 4 + 2) / 3 == 4 * q + (4 * r + 2) / 3;
  }

  /** Padded standard encoding, as used for execution digests. */
  function StdEncode(b: seq<byte>): string {
    Encode(Standard, b) + seq((3 - |b| % 3) % 3, _ => '=')
  }

  lemma StdEncodeInjective(b: seq<byte>, c: seq<byte>)
    requires StdEncode(b) == StdEncode(c)
    ensures b == c
  {
    var n, m := |Sextets(b)|, |Sextets(c)|;
    var t := StdEncode(b);
    assert forall i | 0 <= i < |t| :: t[i] == '=' <==> i >= n;
    assert forall i | 0 <= i < |t| :: StdEncode(c)[i] == '=' <==> i >= m;
    assert n < |t| ==> t[n] == '=';
    assert m < |t| ==> t[m] == '=';
    assert Encode(Standard, b) == StdEncode(b)[..n] == StdEncode(c)[..n] == Encode(Standard, c);
    DecodeInvertsEncode(Standard, b);
    DecodeInvertsEncode(Standard, c);
  }

  const DIGEST_BYTES := 32

  type Digest = d: seq<byte> | |d| == DIGEST_BYTES witness seq(32, _ => 0)

  function DigestText(d: Digest): string {
    Encode(UrlSafe, d)
  }

  /** `parseSHA256Digest`. */
  function ParseDigest(raw: string): Option<Digest> {
    if |raw| != 43 then None
    else
      var decoded := Decode(UrlSafe, raw);
      if decoded.None? || |decoded.value| != DIGEST_BYTES || Encode(UrlSafe, decoded.value) != raw then None
      else Some(decoded.value)
  }

  /** Parsing accepts exactly the text of a digest, and yields that digest. */
  lemma DigestRoundTrip(raw: string, d: Digest)
    ensures ParseDigest(raw) == Some(d) <==> raw == DigestText(d)
  {
    DecodeInvertsEncode(UrlSafe, d);
  }

  /** The alphabets of RFC 4648, sections 4 and 5: letters and digits in order, and two characters in which they differ. */
  lemma Alphabets(a: Alphabet, x: sextet)
    ensures x < 26 ==> CharOf(a, x) == 'A' + x as char
    ensures 26 <= x < 52 ==> CharOf(a, x) == 'a' + (x - 26) as char
    ensures 52 <= x < 62 ==> CharOf(a, x) == '0' + (x - 52) as char
    ensures CharOf(Standard, 62) == '+' && CharOf(Standard, 63) == '/' && CharOf(UrlSafe, 62) == '-' && CharOf(UrlSafe, 63) == '_'
  {
  }
}
