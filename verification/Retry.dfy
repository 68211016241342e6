/** The terminal publisher's retry delay, in 64-bit arithmetic. */
module Retry {

  const TWO_63: int := 0x8000_0000_0000_0000
  const TWO_64: int := 0x1_0000_0000_0000_0000

  /** Two's-complement truncation to a signed 64-bit integer. */
  function Wrap(x: int): int {
    var low := x % TWO_64;
    if low < TWO_63 then low else low - TWO_64
  }

  function Pow2(n: nat): nat {
    if n == 0 then 1 else 2 * Pow2(n - 1)
  }

  function Min(a: int, b: int): int {
    if a < b then a else b
  }

  datatype Kind = Transient | Protocol

  datatype Config = Config(initialDelay: int, maxDelay: int, protocolDelay: int, maxProtocolDelay: int, jittered: bool)

  /** The delays the constructor accepts. */
  predicate ValidConfig(c: Config) {
    && 0 < c.initialDelay <= c.maxDelay < TWO_63
    && 0 < c.protocolDelay <= c.maxProtocolDelay < TWO_63
  }

  function Initial(c: Config, kind: Kind): int {
    if kind == Protocol then c.protocolDelay else c.initialDelay
  }

  function Maximum(c: Config, kind: Kind): int {
    if kind == Protocol then c.maxProtocolDelay else c.maxDelay
  }

  /** The delay before jitter; every product and shift is truncated as the machine does. */
  function CappedExponential(initial: int, maximum: int, attempt: nat): int
    requires 0 < initial <= maximum < TWO_63
  {
    if attempt <= 1 then initial
    else
      var shift := attempt - 1;
      if shift >= 63 then maximum
      else
        ShiftFits(shift);
        var factor := Wrap(Pow2(shift));
        if initial > maximum / factor then maximum
        else
          var delay := Wrap(initial * factor);
          if delay > maximum then maximum else delay
  }

  /** `product` is the jittered delay the floating-point unit yields, whatever it is. */
  function NextDelay(c: Config, attempt: nat, kind: Kind, product: int): int
    requires ValidConfig(c)
  {
    var delay := CappedExponential(Initial(c, kind), Maximum(c, kind), attempt);
    if delay <= 0 || !c.jittered then delay
    else if product > Maximum(c, kind) then Maximum(c, kind)
    else if product < 0 then 0
    else product
  }

  function NextAttempt(attempt: nat): nat {
    if attempt == TWO_64 - 1 then attempt else attempt + 1
  }

  lemma {:induction false} Pow2Grows(a: nat, b: nat)
    requires a <= b
    ensures 1 <= Pow2(a) <= Pow2(b)
  {
    if b == 0 {
    } else if a == b {
      Pow2Grows(a - 1, a - 1);
    } else {
      Pow2Grows(a, b - 1);
    }
  }

  lemma Pow2At63()
    ensures Pow2(63) == TWO_63 && Pow2(62) == TWO_63 / 2
  {
    assert Pow2(8) == 256;
    assert Pow2(16) == 0x1_0000;
    assert Pow2(24) == 0x100_0000;
    assert Pow2(32) == 0x1_0000_0000;
    assert Pow2(40) == 0x100_0000_0000;
    assert Pow2(48) == 0x1_0000_0000_0000;
    assert Pow2(56) == 0x100_0000_0000_0000;
    assert Pow2(62) == 0x4000_0000_0000_0000;
  }

  lemma WrapFits(x: int)
    requires 0 <= x < TWO_63
    ensures Wrap(x) == x
  {
  }

  lemma ShiftFits(shift: nat)
    requires shift < 63
    ensures 1 <= Pow2(shift) < TWO_63 && Wrap(Pow2(shift)) == Pow2(shift)
  {
    hide Pow2, Wrap;
    Pow2At63();
    Pow2Grows(shift, 62);
    WrapFits(Pow2(shift));
  }

  lemma ProductBounds(initial: int, factor: int, maximum: int)
    requires 0 < initial && 0 < factor && 0 <= maximum
    ensures initial <= maximum / factor <==> initial * factor <= maximum
  {
    assert maximum == maximum / factor * factor + maximum % factor;
    if initial <= maximum / factor {
      assert initial * factor <= maximum / factor * factor;
    } else {
      assert initial * factor >= (maximum / factor + 1) * factor == maximum / factor * factor + factor;
    }
  }

  /** The initial delay doubled `attempt - 1` times, but at most the maximum. */
  function CappedDoubling(initial: int, maximum: int, attempt: nat): int {
    Min(initial * Pow2(if attempt <= 1 then 0 else attempt - 1), maximum)
  }

  /** For every attempt the delay is the capped doubling: no 64-bit operation overflows. */
  lemma DelayIsCappedDoubling(initial: int, maximum: int, attempt: nat)
    requires 0 < initial <= maximum < TWO_63
    ensures CappedExponential(initial, maximum, attempt) == CappedDoubling(initial, maximum, attempt)
  {
    hide Pow2, Wrap;
    Pow2At63();
    if attempt <= 1 {
      assert Pow2(0) == 1 by { Pow2AtZero(); }
    } else {
      var shift := attempt - 1;
      var p := Pow2(shift);
      if shift >= 63 {
        Pow2Grows(63, shift);
        ProductGrows(1, initial, p);
      } else {
        ShiftFits(shift);
        ProductBounds(initial, p, maximum);
        if initial * p <= maximum { WrapFits(initial * p); }
      }
    }
  }

  lemma Pow2AtZero()
    ensures Pow2(0) == 1
  {
  }

  lemma ProductGrows(a: int, b: int, p: int)
    requires a <= b && 0 <= p
    ensures a * p <= b * p
  {
  }

  /** Later attempts never wait less. */
  lemma DelayNeverShrinks(initial: int, maximum: int, a: nat, b: nat)
    requires 0 < initial <= maximum < TWO_63 && a <= b
    ensures CappedExponential(initial, maximum, a) <= CappedExponential(initial, maximum, b)
  {
    hide Pow2, CappedExponential;
    DelayIsCappedDoubling(initial, maximum, a);
    DelayIsCappedDoubling(initial, maximum, b);
    var i, j := if a <= 1 then 0 else a - 1, if b <= 1 then 0 else b - 1;
    Pow2Grows(i, j);
    ProductGrows(Pow2(i), Pow2(j), initial);
  }

  /** Any jitter keeps the delay between zero and the configured maximum; without jitter it is the capped doubling. */
  lemma JitterStaysInRange(c: Config, attempt: nat, kind: Kind, product: int)
    requires ValidConfig(c)
    ensures 0 <= NextDelay(c, attempt, kind, product) <= Maximum(c, kind)
    ensures !c.jittered ==>
      NextDelay(c, attempt, kind, product) == CappedDoubling(Initial(c, kind), Maximum(c, kind), attempt)
  {
    hide Pow2, CappedExponential;
    var e := if attempt <= 1 then 0 else attempt - 1;
    DelayIsCappedDoubling(Initial(c, kind), Maximum(c, kind), attempt);
    Pow2Grows(0, e);
    ProductGrows(0, Pow2(e), Initial(c, kind));
  }

  /** The attempt counter saturates, so the undisturbed delay never falls back. */
  lemma AttemptsKeepWaiting(initial: int, maximum: int, attempt: nat)
    requires 0 < initial <= maximum < TWO_63 && attempt < TWO_64
    ensures NextAttempt(attempt) < TWO_64
    ensures CappedExponential(initial, maximum, attempt) <= CappedExponential(initial, maximum, NextAttempt(attempt))
  {
    DelayNeverShrinks(initial, maximum, attempt, NextAttempt(attempt));
  }
}
