/** Big-endian bytes of naturals, of fixed width and minimal. */
module BigEndian {
  import opened Common

  function Pow256(n: nat): nat {
    if n == 0 then 1 else 256 * Pow256(n - 1)
  }

  /** Exactly `width` bytes, the most significant first. */
  function Fixed(n: nat, width: nat): (b: seq<byte>)
    ensures |b| == width
  {
    if width == 0 then [] else Fixed(n / 256, width - 1) + [n % 256]
  }

  /** As few bytes as possible; none for zero. */
  function Minimal(n: nat): seq<byte> {
    if n == 0 then [] else Minimal(n / 256) + [n % 256]
  }

  function ValueOf(b: seq<byte>): nat {
    if b == [] then 0 else ValueOf(b[..|b| - 1]) * 256 + b[|b| - 1]
  }

  lemma {:induction false} ValueOfFixed(n: nat, width: nat)
    requires n < Pow256(width)
    ensures ValueOf(Fixed(n, width)) == n
  {
    if width > 0 {
      ValueOfFixed(n / 256, width - 1);
      var b := Fixed(n, width);
      assert b[..|b| - 1] == Fixed(n / 256, width - 1);
    }
  }

  lemma {:induction false} FixedOfValue(b: seq<byte>)
    ensures ValueOf(b) < Pow256(|b|) && Fixed(ValueOf(b), |b|) == b
  {
    if b != [] {
      var front := b[..|b| - 1];
      FixedOfValue(front);
      assert ValueOf(b) / 256 == ValueOf(front) && ValueOf(b) % 256 == b[|b| - 1];
      assert b == front + [b[|b| - 1]];
    }
  }

  lemma {:induction false} ValueOfMinimal(n: nat)
    ensures ValueOf(Minimal(n)) == n
  {
    if n > 0 {
      var q: nat, r: byte := n / 256, n % 256;
      ValueOfMinimal(q);
      ValueOfAppend(Minimal(q), r);
      assert Minimal(n) == Minimal(q) + [r];
    }
  }

  lemma ValueOfAppend(b: seq<byte>, x: byte)
    ensures ValueOf(b + [x]) == ValueOf(b) * 256 + x
  {
    assert (b + [x])[..|b|] == b;
  }

  lemma {:induction false} MinimalLength(n: nat, width: nat)
    requires n < Pow256(width)
    ensures |Minimal(n)| <= width
  {
    if n > 0 {
      MinimalLength(n / 256, width - 1);
    }
  }

  lemma MinimalInjective(m: nat, n: nat)
    requires Minimal(m) == Minimal(n)
    ensures m == n
  {
    ValueOfMinimal(m);
    ValueOfMinimal(n);
  }
}
