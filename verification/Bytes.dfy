/** Machine integers, big-endian byte strings and powers of two. */
module Bytes {

  type byte = x: int | 0 <= x < 256
  type u16 = x: int | 0 <= x < 0x1_0000
  type u32 = x: int | 0 <= x < 0x1_0000_0000

  function Pow2(n: nat): (r: nat)
    ensures r > 0
  {
    if n == 0 then 1 else 2 * Pow2(n - 1)
  }

  lemma {:induction false} Pow2Add(m: nat, n: nat)
    ensures Pow2(m + n) == Pow2(m) * Pow2(n)
  {
    if m > 0 {
      Pow2Add(m - 1, n);
      assert Pow2(m + n) == 2 * Pow2(m - 1 + n);
      assert 2 * (Pow2(m - 1) * Pow2(n)) == (2 * Pow2(m - 1)) * Pow2(n);
    }
  }

  lemma {:induction false} Pow2Monotone(m: nat, n: nat)
    requires m <= n
    ensures Pow2(m) <= Pow2(n)
    ensures m < n ==> Pow2(m) < Pow2(n)
    decreases n - m
  {
    if m < n { Pow2Monotone(m, n - 1); }
  }

  /** Splitting a division by a product, as two shifts in a row do. */
  lemma DivDiv(x: nat, a: nat, b: nat)
    requires a > 0 && b > 0
    ensures a * b > 0 && x / a / b == x / (a * b)
  {
    var q := x / a / b;
    var r := x / a % b;
    assert x == a * (b * q + r) + x % a;
    assert a * (b * q + r) == a * b * q + a * r;
    assert a * r + x % a < a * b by {
      assert r <= b - 1;
      MulLe(r, b - 1, a);
      assert a * (b - 1) == a * b - a;
    }
    DivUnique(x, a * b, q, a * r + x % a);
  }

  lemma MulLe(x: int, y: int, a: nat)
    requires x <= y
    ensures a * x <= a * y
  {}

  lemma DivUnique(x: nat, d: nat, q: int, r: nat)
    requires d > 0 && x == d * q + r && r < d
    ensures x / d == q && x % d == r
  {
    var q' := x / d;
    assert x == d * q' + x % d;
    assert d * (q - q') == x % d - r;
    if q > q' {
      MulLe(1, q - q', d);
    } else if q < q' {
      MulLe(q - q', -1, d);
    }
  }

  /** The number a byte string denotes, most significant byte first. */
  function FromBE(s: seq<byte>): (v: nat)
  {
    if |s| == 0 then 0 else FromBE(s[..|s| - 1]) * 256 + s[|s| - 1]
  }

  /** The low n bytes of a number, most significant byte first. */
  function ToBE(v: nat, n: nat): (s: seq<byte>)
    ensures |s| == n
  {
    if n == 0 then [] else ToBE(v / 256, n - 1) + [v % 256]
  }

  lemma {:induction false} ToBEFromBE(s: seq<byte>)
    ensures ToBE(FromBE(s), |s|) == s
    ensures FromBE(s) < Pow2(8 * |s|)
  {
    if |s| > 0 {
      var t := s[..|s| - 1];
      ToBEFromBE(t);
      Pow2Add(8 * |t|, 8);
      assert Pow2(8) == 256;
      assert FromBE(s) / 256 == FromBE(t);
      assert s == t + [s[|s| - 1]];
    }
  }

  lemma {:induction false} FromBEToBE(v: nat, n: nat)
    requires v < Pow2(8 * n)
    ensures FromBE(ToBE(v, n)) == v
  {
    if n > 0 {
      Pow2Add(8 * (n - 1), 8);
      assert Pow2(8) == 256;
      FromBEToBE(v / 256, n - 1);
      assert ToBE(v, n)[..n - 1] == ToBE(v / 256, n - 1);
    }
  }
}
