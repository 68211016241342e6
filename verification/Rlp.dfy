/** The RLP encoding of Appendix B of the Ethereum Yellow Paper, as far as transactions need it. */
module Rlp {
  import opened Common
  import opened BigEndian

  /** Lengths the encoding can express. */
  predicate Fits(n: nat) {
    n < Pow256(8)
  }

  /** The header of a payload of `n` bytes; `base` is 0x80 for a string and 0xc0 for a list. */
  function Header(base: byte, n: nat): (h: seq<byte>)
    requires base == 0x80 || base == 0xc0
    requires Fits(n)
    ensures h != []
  {
    if n < 56 then [base + n]
    else
      MinimalLength(n, 8);
      [base + 55 + |Minimal(n)|] + Minimal(n)
  }

  function Str(b: seq<byte>): (e: seq<byte>)
    requires Fits(|b|)
    ensures e != []
  {
    if |b| == 1 && b[0] < 128 then b else Header(0x80, |b|) + b
  }

  /** The payload of a list of strings. */
  function Payload(items: seq<seq<byte>>): seq<byte>
    requires forall i | 0 <= i < |items| :: Fits(|items[i]|)
  {
    if items == [] then [] else Str(items[0]) + Payload(items[1..])
  }

  // ---- Unique reading ----

  /** Two payloads after headers of the same kind: headers and payloads agree. */
  lemma HeaderReadsBack(base: byte, m: nat, n: nat, s: seq<byte>, t: seq<byte>)
    requires (base == 0x80 || base == 0xc0) && Fits(m) && Fits(n)
    requires Header(base, m) + s == Header(base, n) + t
    ensures m == n && s == t
  {
    hide Pow256;
    var g, h := Header(base, m), Header(base, n);
    assert (g + s)[0] == g[0] && (h + t)[0] == h[0];
    if m >= 56 && n >= 56 {
      var k := |Minimal(m)|;
      assert k == |Minimal(n)|;
      assert (g + s)[1..k + 1] == Minimal(m) && (h + t)[1..k + 1] == Minimal(n);
      MinimalInjective(m, n);
    } else if m >= 56 {
      ValueOfMinimal(m);
    } else if n >= 56 {
      ValueOfMinimal(n);
    }
    assert s == (g + s)[|g|..] && t == (h + t)[|h|..];
  }

  predicate IsShort(b: seq<byte>) {
    |b| == 1 && b[0] < 128
  }

  lemma StartsWith(b: seq<byte>, s: seq<byte>)
    requires Fits(|b|)
    ensures (Str(b) + s)[0] < 128 <==> IsShort(b)
  {
    hide Pow256;
    if !IsShort(b) {
      assert (Str(b) + s)[0] == Header(0x80, |b|)[0];
    }
  }

  /** A string reads back from the front of any text: the encoding is prefix free. */
  lemma StrReadsBack(a: seq<byte>, b: seq<byte>, s: seq<byte>, t: seq<byte>)
    requires Fits(|a|) && Fits(|b|) && Str(a) + s == Str(b) + t
    ensures a == b && s == t
  {
    hide Pow256, Header;
    StartsWith(a, s);
    StartsWith(b, t);
    if IsShort(a) {
      assert a[0] == (Str(a) + s)[0] == (Str(b) + t)[0] == b[0];
      assert s == (Str(a) + s)[1..] && t == (Str(b) + t)[1..];
    } else {
      var g, h := Header(0x80, |a|), Header(0x80, |b|);
      assert Str(a) + s == g + (a + s) && Str(b) + t == h + (b + t);
      HeaderReadsBack(0x80, |a|, |b|, a + s, b + t);
      assert a == (a + s)[..|a|] && b == (b + t)[..|b|] && s == (a + s)[|a|..] && t == (b + t)[|b|..];
    }
  }

  /** Lists of the same number of strings read back, whatever follows. */
  lemma {:induction false} PayloadReadsBack(x: seq<seq<byte>>, y: seq<seq<byte>>, s: seq<byte>, t: seq<byte>)
    requires |x| == |y|
    requires forall i | 0 <= i < |x| :: Fits(|x[i]|) && Fits(|y[i]|)
    requires Payload(x) + s == Payload(y) + t
    ensures x == y && s == t
  {
    hide Fits, Str;
    if x == [] {
      assert Payload(x) + s == s && Payload(y) + t == t;
    } else {
      assert Payload(x) + s == Str(x[0]) + (Payload(x[1..]) + s);
      assert Payload(y) + t == Str(y[0]) + (Payload(y[1..]) + t);
      StrReadsBack(x[0], y[0], Payload(x[1..]) + s, Payload(y[1..]) + t);
      PayloadReadsBack(x[1..], y[1..], s, t);
      assert x == [x[0]] + x[1..] && y == [y[0]] + y[1..];
    }
  }

  // ---- Unsigned EIP-1559 transactions ----

  datatype Tx = Tx(
    chainId: nat, nonce: nat, priority: nat, maxFee: nat, gas: nat, to: seq<byte>, value: nat, data: seq<byte>)

  /** The fields before the access list, as strings. */
  function Fields(tx: Tx): seq<seq<byte>> {
    [Minimal(tx.chainId), Minimal(tx.nonce), Minimal(tx.priority), Minimal(tx.maxFee), Minimal(tx.gas),
     tx.to, Minimal(tx.value), tx.data]
  }

  predicate Encodable(tx: Tx) {
    && (forall i | 0 <= i < |Fields(tx)| :: Fits(|Fields(tx)[i]|))
    && Fits(|Payload(Fields(tx))| + 1)
  }

  /** The list with an empty access list. */
  function EncodeTx(tx: Tx): seq<byte>
    requires Encodable(tx)
  {
    var payload := Payload(Fields(tx)) + [0xc0];
    Header(0xc0, |payload|) + payload
  }

  /** The bytes determine the transaction. */
  lemma EncodeTxInjective(x: Tx, y: Tx)
    requires Encodable(x) && Encodable(y) && EncodeTx(x) == EncodeTx(y)
    ensures x == y
  {
    hide Fits, Header, Payload;
    var p, q := Payload(Fields(x)) + [0xc0], Payload(Fields(y)) + [0xc0];
    HeaderReadsBack(0xc0, |p|, |q|, p, q);
    PayloadReadsBack(Fields(x), Fields(y), [0xc0], [0xc0]);
    assert Fields(x)[0] == Fields(y)[0] && Fields(x)[1] == Fields(y)[1] && Fields(x)[2] == Fields(y)[2]
        && Fields(x)[3] == Fields(y)[3] && Fields(x)[4] == Fields(y)[4] && Fields(x)[5] == Fields(y)[5]
        && Fields(x)[6] == Fields(y)[6] && Fields(x)[7] == Fields(y)[7];
    MinimalInjective(x.chainId, y.chainId);
    MinimalInjective(x.nonce, y.nonce);
    MinimalInjective(x.priority, y.priority);
    MinimalInjective(x.maxFee, y.maxFee);
    MinimalInjective(x.gas, y.gas);
    MinimalInjective(x.value, y.value);
  }

  /** The layout of EIP-1559: the eight fields in this order, then an empty access list, in one list. */
  lemma TxLayout(tx: Tx)
    requires Encodable(tx)
    ensures Fits(|Minimal(tx.chainId)|) && Fits(|Minimal(tx.nonce)|) && Fits(|Minimal(tx.priority)|) && Fits(|Minimal(tx.maxFee)|)
         && Fits(|Minimal(tx.gas)|) && Fits(|tx.to|) && Fits(|Minimal(tx.value)|) && Fits(|tx.data|)
    ensures var body := Str(Minimal(tx.chainId)) + Str(Minimal(tx.nonce)) + Str(Minimal(tx.priority)) + Str(Minimal(tx.maxFee))
                      + Str(Minimal(tx.gas)) + Str(tx.to) + Str(Minimal(tx.value)) + Str(tx.data) + [0xc0];
            Fits(|body|) && EncodeTx(tx) == Header(0xc0, |body|) + body
  {
    hide Fits, Header, Str, Minimal;
    var f := Fields(tx);
    assert Fits(|f[0]|) && Fits(|f[1]|) && Fits(|f[2]|) && Fits(|f[3]|) && Fits(|f[4]|) && Fits(|f[5]|) && Fits(|f[6]|) && Fits(|f[7]|);
    assert Payload(f[8..]) == [];
    assert Payload(f[7..]) == Str(f[7]) by { Unfold(f, 7); }
    assert Payload(f[6..]) == Str(f[6]) + Payload(f[7..]) by { Unfold(f, 6); }
    assert Payload(f[5..]) == Str(f[5]) + Payload(f[6..]) by { Unfold(f, 5); }
    assert Payload(f[4..]) == Str(f[4]) + Payload(f[5..]) by { Unfold(f, 4); }
    assert Payload(f[3..]) == Str(f[3]) + Payload(f[4..]) by { Unfold(f, 3); }
    assert Payload(f[2..]) == Str(f[2]) + Payload(f[3..]) by { Unfold(f, 2); }
    assert Payload(f[1..]) == Str(f[1]) + Payload(f[2..]) by { Unfold(f, 1); }
    var body := Str(f[0]) + Str(f[1]) + Str(f[2]) + Str(f[3]) + Str(f[4]) + Str(f[5]) + Str(f[6]) + Str(f[7]) + [0xc0];
    assert Payload(f) + [0xc0] == body;
  }

  lemma Unfold(items: seq<seq<byte>>, k: nat)
    requires k < |items| && forall i | 0 <= i < |items| :: Fits(|items[i]|)
    ensures Payload(items[k..]) == Str(items[k]) + Payload(items[k + 1..])
  {
    assert items[k..][1..] == items[k + 1..];
  }
}
