/** Bytes, powers of two and the little-endian words the codecs are written in. */
module Words {

  type Byte = b: int | 0 <= b < 256 witness 0

  type U32 = n: int | 0 <= n < 0x1_0000_0000 witness 0

  datatype Option<+T> = None | Some(value: T)

  function Pow2(n: nat): (p: nat)
    ensures p > 0
  {
    if n == 0 then 1 else 2 * Pow2(n - 1)
  }

  lemma {:induction false} Pow2Add(a: nat, b: nat)
    ensures Pow2(a + b) == Pow2(a) * Pow2(b)
    decreases b
  {
    if b != 0 {
      Pow2Add(a, b - 1);
      assert Pow2(a + b) == 2 * Pow2(a + (b - 1));
      assert Pow2(a) * Pow2(b) == 2 * (Pow2(a) * Pow2(b - 1)) by {
        assert Pow2(b) == 2 * Pow2(b - 1);
        MulAssoc(Pow2(a), 2, Pow2(b - 1));
        MulAssoc(2, Pow2(a), Pow2(b - 1));
      }
    }
  }

  lemma Pow2Monotone(a: nat, b: nat)
    requires a <= b
    ensures Pow2(a) <= Pow2(b)
    decreases b
  {
    if a < b {
      Pow2Monotone(a, b - 1);
    }
  }

  lemma Pow2Small()
    ensures Pow2(2) == 4 && Pow2(7) == 0x80 && Pow2(8) == 0x100 && Pow2(15) == 0x8000 && Pow2(16) == 0x1_0000
    ensures Pow2(23) == 0x80_0000 && Pow2(24) == 0x100_0000
  {
    Pow2Add(8, 7);
    Pow2Add(8, 8);
    Pow2Add(8, 15);
    Pow2Add(8, 16);
  }

  lemma Pow2Wide()
    ensures Pow2(30) == 0x4000_0000 && Pow2(31) == 0x8000_0000 && Pow2(32) == 0x1_0000_0000
    ensures Pow2(63) == 0x8000_0000_0000_0000 && Pow2(64) == 0x1_0000_0000_0000_0000
  {
    Pow2Small();
    Pow2Add(15, 15);
    Pow2Add(15, 16);
    Pow2Add(16, 16);
    Pow2Add(31, 32);
    Pow2Add(32, 32);
  }

  lemma MulAssoc(a: int, b: int, c: int)
    ensures a * b * c == a * (b * c)
    ensures a * b * c == b * a * c
  {
  }

  lemma QuotientUnique(q: int, r: int, q': int, r': int, d: int)
    requires q * d + r == q' * d + r'
    requires 0 <= r < d && 0 <= r' < d
    ensures q == q' && r == r'
  {
    assert (q - q') * d == r' - r;
    if q > q' {
      MulMonotone(1, q - q', d);
    } else if q < q' {
      MulMonotone(1, q' - q, d);
    }
  }

  /** Euclid: quotient and remainder are determined by q * d + r with 0 <= r < d. */
  lemma DivModUnique(q: int, r: int, d: int)
    requires 0 <= r < d
    ensures (q * d + r) / d == q && (q * d + r) % d == r
  {
    var n := q * d + r;
    QuotientUnique(n / d, n % d, q, r, d);
  }

  lemma MulMonotone(a: int, b: int, c: int)
    requires a <= b && 0 <= c
    ensures a * c <= b * c
  {
  }

  lemma DivModIdentity(x: int, d: int)
    requires d > 0
    ensures x == x / d * d + x % d && 0 <= x % d < d
  {
  }

  lemma DivLower(x: int, d: int, q: int)
    requires d > 0 && q * d <= x
    ensures q <= x / d
  {
    if x / d < q {
      MulMonotone(x / d + 1, q, d);
      assert false;
    }
  }

  lemma DivUpper(x: int, d: int, q: int)
    requires d > 0 && x < q * d
    ensures x / d < q
  {
    if q <= x / d {
      MulMonotone(q, x / d, d);
      assert false;
    }
  }

  lemma DivIs(n: int, d: int, q: int)
    requires q * d <= n < q * d + d
    ensures n / d == q
  {
    DivModUnique(q, n - q * d, d);
  }

  lemma DivDiv(n: nat, a: nat, b: nat)
    requires a > 0 && b > 0
    ensures n / a / b == n / (a * b)
  {
    var q := n / a / b;
    var r := n / a % b;
    var m := n % a;
    assert n == q * (a * b) + (r * a + m) by {
      assert n == (n / a) * a + m;
      assert n / a == q * b + r;
      assert (q * b + r) * a == q * (a * b) + r * a;
    }
    assert r * a + m < a * b by {
      MulMonotone(r + 1, b, a);
      assert (r + 1) * a == r * a + a;
      assert b * a == a * b;
    }
    DivModUnique(q, r * a + m, a * b);
  }

  // ---------------------------------------------------------------- shifts and masks

  /** n << k */
  function ShiftLeft(n: nat, k: nat): nat {
    if k == 0 then n else 2 * ShiftLeft(n, k - 1)
  }

  /** n >> k */
  function ShiftRight(n: nat, k: nat): nat
    decreases k
  {
    if k == 0 then n else ShiftRight(n / 2, k - 1)
  }

  /** n & (2^k - 1) */
  function LowBits(n: nat, k: nat): nat
    decreases k
  {
    if k == 0 then 0 else n % 2 + 2 * LowBits(n / 2, k - 1)
  }

  lemma {:induction false} ShiftLeftIs(n: nat, k: nat)
    ensures ShiftLeft(n, k) == n * Pow2(k)
  {
    if k > 0 {
      ShiftLeftIs(n, k - 1);
      assert n * (2 * Pow2(k - 1)) == 2 * (n * Pow2(k - 1));
    }
  }

  lemma {:induction false} ShiftRightIs(n: nat, k: nat)
    ensures ShiftRight(n, k) == n / Pow2(k)
    decreases k
  {
    if k > 0 {
      ShiftRightIs(n / 2, k - 1);
      DivDiv(n, 2, Pow2(k - 1));
    }
  }

  lemma {:induction false} LowBitsIs(n: nat, k: nat)
    ensures LowBits(n, k) == n % Pow2(k)
    ensures n == ShiftRight(n, k) * Pow2(k) + LowBits(n, k) && LowBits(n, k) < Pow2(k)
    decreases k
  {
    if k > 0 {
      var q, p := ShiftRight(n, k), Pow2(k - 1);
      LowBitsIs(n / 2, k - 1);
      assert q * (2 * p) == 2 * (q * p);
      DivModUnique(q, LowBits(n, k), Pow2(k));
    } else {
      assert Pow2(0) == 1;
    }
  }

  // ---------------------------------------------------------------- little-endian words

  function Le4(v: nat): (s: seq<Byte>)
    requires v < 0x1_0000_0000
    ensures |s| == 4
  {
    [v % 256, v / 256 % 256, v / 0x1_0000 % 256, v / 0x100_0000]
  }

  function FromLe4(s: seq<Byte>): (v: nat)
    requires |s| == 4
    ensures v < 0x1_0000_0000
  {
    var b0: int, b1: int, b2: int, b3: int := s[0], s[1], s[2], s[3];
    b0 + 256 * b1 + 0x1_0000 * b2 + 0x100_0000 * b3
  }

  lemma Le4RoundTrip(v: nat)
    requires v < 0x1_0000_0000
    ensures FromLe4(Le4(v)) == v
  {
    var v1 := v / 256;
    var v2 := v1 / 256;
    assert v / 0x1_0000 == v2 && v / 0x100_0000 == v2 / 256;
  }

  function ReadU32(data: seq<Byte>, at: nat): U32
    requires at + 4 <= |data|
  {
    FromLe4(data[at..at + 4])
  }
}
