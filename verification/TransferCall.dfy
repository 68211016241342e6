/** The ABI call data of `transfer(address,uint256)`. */
module TransferCall {
  import opened Common
  import opened BigEndian
  import Decimals
  import Hex

  const SELECTOR: seq<byte> := [0xa9, 0x05, 0x9c, 0xbb]

  function TrimHexPrefix(s: string): string {
    if |s| >= 2 && s[0] == '0' && s[1] == 'x' then s[2..] else s
  }

  /** `big.Int.SetString` in base 10: an optional sign and at least one digit. */
  function Number(s: string): Option<int> {
    var signed := s != "" && (s[0] == '-' || s[0] == '+');
    var digits := if signed then s[1..] else s;
    if digits == "" || !Decimals.AllDigits(digits) then None
    else
      var value: int := Decimals.Value(digits);
      Some(if signed && s[0] == '-' then -value else value)
  }

  function AddressBytes(address: string): Option<seq<byte>> {
    var b := Hex.Decode(TrimHexPrefix(address));
    if b.None? || |b.value| != 20 then None else b
  }

  /** A value the 32-byte word can hold. */
  predicate IsWord(n: int) {
    0 <= n < Pow256(32)
  }

  function Zeros(n: nat): seq<byte> {
    seq(n, _ => 0)
  }

  /** The call, or nothing where the address or the amount does not fit. */
  function CallData(address: string, amount: string): Option<seq<byte>> {
    var a, n := AddressBytes(address), Number(amount);
    if a.None? || n.None? || !IsWord(n.value) then None
    else Some(SELECTOR + Zeros(12) + a.value + Fixed(n.value, 32))
  }

  /** `transferCall`, filling a 68-byte buffer; the nil failure reads as no bytes at all. */
  method EncodeTransfer(address: string, amount: string) returns (call: seq<byte>)
    ensures call == if CallData(address, amount).Some? then CallData(address, amount).value else []
  {
    hide Fixed, Pow256;
    var a, number := AddressBytes(address), Number(amount);
    if a.None? || number.None? || !IsWord(number.value) {
      return [];
    }
    var b := new byte[68](_ => 0);
    assert b[..] == Zeros(68);
    Copy(b, 0, SELECTOR);
    Copy(b, 16, a.value);
    FillBytes(b, 36, number.value);
    call := b[..];
    assert call[..36] == SELECTOR + Zeros(12) + a.value;
  }

  /** Go's `copy` into a slice of the buffer. */
  method Copy(b: array<byte>, at: nat, source: seq<byte>)
    requires at + |source| <= b.Length
    modifies b
    ensures b[..] == old(b[..at]) + source + old(b[at + |source|..])
  {
    for i := 0 to |source|
      invariant b[..] == old(b[..at]) + source[..i] + old(b[at + i..])
    {
      b[at + i] := source[i];
    }
    assert source[..|source|] == source;
  }

  /** `FillBytes`: the number, big-endian, to the end of the buffer. */
  method FillBytes(b: array<byte>, at: nat, n: nat)
    requires at <= b.Length
    modifies b
    ensures b[..] == old(b[..at]) + Fixed(n, b.Length - at)
  {
    var rest, i := n, b.Length;
    while i > at
      invariant at <= i <= b.Length
      invariant b[..i] == old(b[..i]) && Fixed(rest, i - at) + b[i..] == Fixed(n, b.Length - at)
    {
      i := i - 1;
      ghost var tail := b[i + 1..];
      b[i] := rest % 256;
      assert b[i + 1..] == tail;
      assert b[i..] == [b[i]] + b[i + 1..];
      assert b[i..] == [rest % 256] + tail;
      FixedLastByte(rest, i + 1 - at, tail, b[i..]);
      rest := rest / 256;
    }
    assert Fixed(rest, 0) + b[at..] == b[at..];
    assert b[..] == b[..at] + b[at..];
  }

  lemma FixedLastByte(n: nat, width: nat, tail: seq<byte>, grown: seq<byte>)
    requires width > 0 && grown == [n % 256] + tail
    ensures Fixed(n, width) + tail == Fixed(n / 256, width - 1) + grown
  {
  }

  /** Reading a call back: recipient and amount. */
  function Decode(call: seq<byte>): Option<(seq<byte>, nat)> {
    if |call| != 68 || call[..4] != SELECTOR || call[4..16] != Zeros(12) then None
    else Some((call[16..36], ValueOf(call[36..])))
  }

  /** A call that was built is 68 bytes and decodes to exactly its recipient and amount. */
  lemma DecodeInvertsCallData(address: string, amount: string)
    requires CallData(address, amount).Some?
    ensures |CallData(address, amount).value| == 68
    ensures Decode(CallData(address, amount).value) == Some((AddressBytes(address).value, Number(amount).value))
  {
    hide Pow256;
    var a, n := AddressBytes(address).value, Number(amount).value;
    var call := CallData(address, amount).value;
    ValueOfFixed(n, 32);
    assert call[..4] == SELECTOR && call[4..16] == Zeros(12) && call[16..36] == a && call[36..] == Fixed(n, 32);
  }

  /** Conversely, whatever decodes is the call of its recipient and amount. */
  lemma CallDataInvertsDecode(call: seq<byte>, address: string, amount: string)
    requires Decode(call).Some? && AddressBytes(address) == Some(Decode(call).value.0) && Number(amount) == Some(Decode(call).value.1)
    ensures CallData(address, amount) == Some(call)
  {
    hide Pow256;
    FixedOfValue(call[36..]);
    assert call == call[..4] + call[4..16] + call[16..36] + call[36..];
  }

  predicate IsEvmAddress(s: string) {
    |s| == 42 && s[0] == '0' && s[1] == 'x' && forall i | 2 <= i < 42 :: Hex.IsLowerHex(s[i])
  }

  /** A canonical address names twenty bytes and is their only canonical text. */
  lemma EvmAddressBytes(s: string)
    requires IsEvmAddress(s)
    ensures AddressBytes(s).Some? && s == "0x" + Hex.Encode(AddressBytes(s).value)
  {
    var t := s[2..];
    assert forall i | 0 <= i < |t| :: t[i] == s[i + 2];
    Hex.EncodeInvertsDecode(t);
    assert s == "0x" + t;
  }

  /** A canonical decimal is a number, and the text of that number. */
  lemma CanonicalNumber(s: string)
    requires Decimals.Canonical(s)
    ensures Number(s) == Some(Decimals.Value(s)) && s == Decimals.Dec(Decimals.Value(s))
  {
    Decimals.DecOfValue(s);
  }

  lemma NumberOfDec(n: nat)
    ensures Number(Decimals.Dec(n)) == Some(n)
  {
    Decimals.DecIsCanonical(n);
    Decimals.ValueOfDec(n);
    CanonicalNumber(Decimals.Dec(n));
  }

  /** Exactly the prefix "0x" is dropped, once. */
  lemma PrefixIsDropped(t: string)
    ensures TrimHexPrefix("0x" + t) == t
    ensures !("0x" <= t) ==> TrimHexPrefix(t) == t
  {
    assert ("0x" + t)[2..] == t;
    if |t| >= 2 && t[0] == '0' && t[1] == 'x' { assert t[..2] == "0x"; }
  }

  /** A number may carry one sign; without digits there is none. */
  lemma SignedNumbers(digits: string)
    requires digits != "" && Decimals.AllDigits(digits)
    ensures var n: int := Decimals.Value(digits); Number(digits) == Number("+" + digits) == Some(n) && Number("-" + digits) == Some(-n)
    ensures Number("") == Number("+") == Number("-") == None
  {
    hide Decimals.Value;
    assert ("+" + digits)[1..] == digits && ("-" + digits)[1..] == digits && "+"[1..] == "" && "-"[1..] == "";
    assert Decimals.IsDigit(digits[0]);
  }
}
