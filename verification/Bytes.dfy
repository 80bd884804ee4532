/** Eight-bit cells as integers, and the handful of 6502 operations the netcode uses on them. */
module Bytes {

  type byte = x: int | 0 <= x < 256

  /** The low eight bits of an integer: what a cell keeps of it. */
  function Low(n: int): (b: byte) {
    n % 256
  }

  /** `INC`. */
  function Inc(b: byte): (r: byte) {
    if b == 255 then 0 else b + 1
  }

  /** `SEC / SBC / BPL`: the sign test on an eight-bit difference. */
  predicate NotBehind(a: byte, b: byte) {
    (a - b) % 256 < 128
  }

  /** The signed compare decides the comparison of the unbounded values exactly when they lie
      within a signed byte of each other. */
  lemma NotBehindIsExact(x: int, y: int)
    requires -128 <= x - y <= 127
    ensures NotBehind(Low(x), Low(y)) <==> x >= y
  {
    assert (Low(x) - Low(y)) % 256 == (x - y) % 256;
  }

  lemma LowInc(x: int)
    ensures Inc(Low(x)) == Low(x + 1)
  {
    var q := x / 256;
    assert x == 256 * q + Low(x);
    if Low(x) == 255 {
      assert x + 1 == 256 * (q + 1);
    } else {
      assert x + 1 == 256 * q + (Low(x) + 1);
    }
  }

  lemma WholeLaps(m: int, r: int)
    ensures (4 * m + r) % 4 == r % 4
    ensures (8 * m + r) % 8 == r % 8
    ensures (256 * m + r) % 256 == r % 256
  {
    Remainder4(m + r / 4, r % 4);
    Remainder8(m + r / 8, r % 8);
    Remainder256(m + r / 256, r % 256);
  }

  lemma Remainder4(q: int, s: int)
    requires 0 <= s < 4
    ensures (4 * q + s) % 4 == s
  {
  }

  lemma Remainder8(q: int, s: int)
    requires 0 <= s < 8
    ensures (8 * q + s) % 8 == s
  {
  }

  lemma Remainder256(q: int, s: int)
    requires 0 <= s < 256
    ensures (256 * q + s) % 256 == s
  {
  }

  /** A ring index reads only low bits, so truncation is invisible to it. */
  lemma LowIndex(x: int, d: int)
    ensures (Low(x) + d) % 4 == (x + d) % 4 && (Low(x) + d) % 8 == (x + d) % 8
    ensures Low(Low(x) + d) == Low(x + d)
  {
    var laps, rest := x / 256, Low(x) + d;
    assert x + d == 256 * laps + rest;
    WholeLaps(64 * laps, rest);
    WholeLaps(32 * laps, rest);
    WholeLaps(laps, rest);
  }

  /** Equal cells name equal values as long as the values are less than a lap apart. */
  lemma LowIsInjective(x: int, y: int)
    requires -256 < x - y < 256
    ensures Low(x) == Low(y) <==> x == y
  {
  }

  /** The bit of weight `m` (a power of two) in `b`. */
  predicate Has(b: byte, m: int)
    requires m in {1, 2, 4, 8, 16, 32, 64, 128}
  {
    b / m % 2 == 1
  }

  /** `AND #$FF-m`. */
  function Clear(b: byte, m: int): (r: byte)
    requires m in {1, 2, 4, 8, 16, 32, 64, 128}
  {
    if Has(b, m) then b - m else b
  }

  /** `ORA #m`. */
  function Set(b: byte, m: int): (r: byte)
    requires m in {1, 2, 4, 8, 16, 32, 64, 128}
  {
    if Has(b, m) then b else b + m
  }

  function Pow2(n: nat): (p: nat)
    ensures p >= 1
  {
    if n == 0 then 1 else 2 * Pow2(n - 1)
  }

  /** Exclusive or of the low `n` bits. */
  function XorBits(n: nat, a: nat, b: nat): (r: nat)
    ensures r < Pow2(n)
  {
    if n == 0 then 0 else 2 * XorBits(n - 1, a / 2, b / 2) + (a % 2 + b % 2) % 2
  }

  function Xor(a: byte, b: byte): (r: byte) {
    assert Pow2(8) == 256;
    XorBits(8, a, b)
  }

  lemma {:induction false} XorBitsCommutes(n: nat, a: nat, b: nat)
    ensures XorBits(n, a, b) == XorBits(n, b, a)
  {
    if n > 0 {
      XorBitsCommutes(n - 1, a / 2, b / 2);
    }
  }

  lemma {:induction false} XorBitsAssociates(n: nat, a: nat, b: nat, c: nat)
    ensures XorBits(n, XorBits(n, a, b), c) == XorBits(n, a, XorBits(n, b, c))
  {
    if n > 0 {
      XorBitsAssociates(n - 1, a / 2, b / 2, c / 2);
      SameHalves(n, a, b, c);
    }
  }

  lemma SameHalves(n: nat, a: nat, b: nat, c: nat)
    requires n > 0
    requires XorBits(n - 1, XorBits(n - 1, a / 2, b / 2), c / 2) == XorBits(n - 1, a / 2, XorBits(n - 1, b / 2, c / 2))
    ensures XorBits(n, XorBits(n, a, b), c) == XorBits(n, a, XorBits(n, b, c))
  {
    hide XorBits;
    XorBitsHalves(n, a, b);
    XorBitsHalves(n, b, c);
    XorBitsHalves(n, XorBits(n, a, b), c);
    XorBitsHalves(n, a, XorBits(n, b, c));
    BitsAssociate(a % 2, b % 2, c % 2);
  }

  lemma BitsAssociate(a: nat, b: nat, c: nat)
    ensures ((a + b) % 2 + c) % 2 == (a + (b + c) % 2) % 2
  {
    Mod2(a + b, c);
    Mod2(b + c, a);
  }

  lemma Mod2(x: nat, y: nat)
    ensures (x % 2 + y) % 2 == (x + y) % 2
  {
    assert x == x / 2 * 2 + x % 2;
  }

  lemma XorBitsHalves(n: nat, a: nat, b: nat)
    requires n > 0
    ensures XorBits(n, a, b) / 2 == XorBits(n - 1, a / 2, b / 2)
    ensures XorBits(n, a, b) % 2 == (a % 2 + b % 2) % 2
  {
  }

  lemma {:induction false} XorBitsCancels(n: nat, a: nat, b: nat, c: nat)
    requires a < Pow2(n) && b < Pow2(n)
    requires XorBits(n, a, c) == XorBits(n, b, c)
    ensures a == b
  {
    if n > 0 {
      XorBitsHalves(n, a, c);
      XorBitsHalves(n, b, c);
      XorBitsCancels(n - 1, a / 2, b / 2, c / 2);
      assert (a % 2 + c % 2) % 2 == (b % 2 + c % 2) % 2;
    }
  }

  lemma XorCommutes(a: byte, b: byte)
    ensures Xor(a, b) == Xor(b, a)
  {
    XorBitsCommutes(8, a, b);
  }

  lemma XorAssociates(a: byte, b: byte, c: byte)
    ensures Xor(Xor(a, b), c) == Xor(a, Xor(b, c))
  {
    XorBitsAssociates(8, a, b, c);
  }

  lemma XorCancels(a: byte, b: byte, c: byte)
    requires Xor(a, c) == Xor(b, c)
    ensures a == b
  {
    assert Pow2(8) == 256;
    XorBitsCancels(8, a, b, c);
  }

  lemma {:induction false} XorBitsZero(n: nat, a: nat)
    requires a < Pow2(n)
    ensures XorBits(n, 0, a) == a
  {
    if n > 0 {
      XorBitsZero(n - 1, a / 2);
    }
  }

  lemma {:induction false} XorBitsSelf(n: nat, a: nat)
    ensures XorBits(n, a, a) == 0
  {
    if n > 0 {
      XorBitsSelf(n - 1, a / 2);
    }
  }

  lemma XorZero(a: byte)
    ensures Xor(0, a) == a
  {
    assert Pow2(8) == 256;
    XorBitsZero(8, a);
  }

  lemma XorSelf(a: byte)
    ensures Xor(a, a) == 0
  {
    XorBitsSelf(8, a);
  }
}
