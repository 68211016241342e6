/** Protobuf lengths: variable-length integers and the size of a signed TRON transaction. */
module Protobuf {
  import opened Common

  function Varint(n: nat): (b: seq<byte>)
    ensures b != []
  {
    if n < 128 then [n] else [n % 128 + 128] + Varint(n / 128)
  }

  function Pow128(n: nat): nat {
    if n == 0 then 1 else 128 * Pow128(n - 1)
  }

  /** `varintSize`: the length of the encoding, by shifting seven bits at a time. */
  method VarintSize(n: nat) returns (s: nat)
    ensures s == |Varint(n)|
  {
    s := 1;
    var rest := n;
    while rest >= 128
      invariant s - 1 + |Varint(rest)| == |Varint(n)|
    {
      s := s + 1;
      rest := rest / 128;
    }
  }

  /** That length is the least number of seven-bit groups that hold the number. */
  lemma {:induction false} VarintIsShortest(n: nat, s: nat)
    requires s > 0
    ensures |Varint(n)| <= s <==> n < Pow128(s)
  {
    if s == 1 {
      assert Pow128(1) == 128;
    } else {
      VarintIsShortest(n / 128, s - 1);
      assert n < Pow128(s) <==> n / 128 < Pow128(s - 1);
      if n < 128 { OneGroup(s - 1); }
    }
  }

  lemma {:induction false} OneGroup(s: nat)
    ensures Pow128(s) >= 1
  {
    if s > 0 { OneGroup(s - 1); }
  }

  /** A length-delimited field. */
  function Field(tag: byte, content: seq<byte>): seq<byte> {
    [tag] + Varint(|content|) + content
  }

  /** The signed transaction: raw data as field 1, one 65-byte signature as field 2. */
  function SignedTransaction(raw: seq<byte>, signature: seq<byte>): seq<byte> {
    Field(0x0a, raw) + Field(0x12, signature)
  }

  /** The size the fee check computes: an empty raw message, with the raw bytes and their length put in. */
  function SignedSize(raw: seq<byte>): nat {
    |SignedTransaction([], seq(65, _ => 0))| + |raw| + |Varint(|raw|)| - 1
  }

  /** It is the exact length of the signed transaction, whatever the signature. */
  lemma SignedSizeIsExact(raw: seq<byte>, signature: seq<byte>)
    requires |signature| == 65
    ensures |SignedTransaction(raw, signature)| == SignedSize(raw) == 68 + |raw| + |Varint(|raw|)|
  {
    assert Varint(0) == [0] && Varint(65) == [65];
  }
}
