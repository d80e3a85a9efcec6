/** The bit-level printer of the program stream, and its time stamps. */
module PsBits {
  import opened Words

  const CLOCK_LIMIT: nat := 0x2_0000_0000  // 2^33

  /** Bytes read as one big-endian number. */
  function Number(s: seq<Byte>): nat {
    if s == [] then 0 else 256 * Number(s[..|s| - 1]) + s[|s| - 1]
  }

  lemma {:induction false} NumberInjective(s: seq<Byte>, t: seq<Byte>)
    requires |s| == |t| && Number(s) == Number(t)
    ensures s == t
  {
    if s != [] {
      var n := |s| - 1;
      NumberInjective(s[..n], t[..n]);
      assert s == s[..n] + [s[n]] && t == t[..n] + [t[n]];
    }
  }

  lemma NumberAppend(s: seq<Byte>, b: Byte)
    ensures Number(s + [b]) == 256 * Number(s) + b
  {
    assert (s + [b])[..|s|] == s;
  }

  // ---------------------------------------------------------------- the writer

  class BitWriter {
    ghost const start: seq<Byte>
    var out: seq<Byte>
    var cur: nat
    var bits: nat

    ghost predicate Valid()
      reads this
    {
      start <= out && bits < 8 && cur < Pow2(bits)
    }

    /** How many bits have been put. */
    ghost function Count(): int
      reads this
    {
      8 * (|out| - |start|) + bits
    }

    /** The bits put so far, as one number. */
    ghost function Value(): nat
      reads this
      requires Valid()
    {
      ShiftLeft(Number(out[|start|..]), bits) + cur
    }

    constructor (o: seq<Byte>)
      ensures Valid() && start == o && out == o && bits == 0 && Count() == 0 && Value() == 0
    {
      start := o;
      out, cur, bits := o, 0, 0;
    }

    method PutBit(bit: nat)
      requires Valid() && bit < 2
      modifies this`out, this`cur, this`bits
      ensures Valid() && Count() == old(Count()) + 1 && Value() == 2 * old(Value()) + bit
    {
      ghost var number := Number(out[|start|..]);
      assert ShiftLeft(number, bits + 1) == 2 * ShiftLeft(number, bits);
      assert Pow2(bits + 1) == 2 * Pow2(bits);
      cur := 2 * cur + bit;
      bits := bits + 1;
      if bits == 8 {
        Pow2Small();
        ShiftLeftIs(number, 8);
        NumberAppend(out[|start|..], cur);
        assert (out + [cur])[|start|..] == out[|start|..] + [cur];
        out := out + [cur];
        cur, bits := 0, 0;
        assert Pow2(0) == 1;
      }
    }

    /** The low n bits of v, the highest first; size is the n-th power of two. */
    method Put(v: U32, n: nat, ghost size: nat)
      requires Valid() && n <= 32 && size == Pow2(n)
      modifies this`out, this`cur, this`bits
      ensures Valid() && Count() == old(Count()) + n
      ensures Value() == old(Value()) * size + v % size
    {
      var i := n;
      while i > 0
        invariant 0 <= i <= n && Valid() && Count() == old(Count()) + n - i
        invariant Value() == ShiftLeft(old(Value()), n - i) + LowBits(ShiftRight(v, i), n - i)
      {
        i := i - 1;
        ShiftRightStep(v, i);
        PutBit(ShiftRight(v, i) % 2);
      }
      ShiftLeftIs(old(Value()), n);
      LowBitsIs(v, n);
    }

    /** put(1, 1) */
    method Marker()
      requires Valid()
      modifies this`out, this`cur, this`bits
      ensures Valid() && Count() == old(Count()) + 1 && Value() == old(Value()) * 2 + 1
    {
      FieldPow2();
      Put(1, 1, 2);
    }

    /** A 33-bit clock in three fields, each followed by a marker bit. */
    method PutClock(t: nat)
      requires Valid() && t < CLOCK_LIMIT
      modifies this`out, this`cur, this`bits
      ensures Valid() && Count() == old(Count()) + 36
      ensures Value() == ClockNumber(old(Value()), High3(t), Mid15(t), Low15(t))
    {
      FieldPow2();
      CastFields(t);
      Put(Cast32(t / 0x4000_0000), 3, 8);
      Marker();
      Put(Cast32(t / 0x8000), 15, 0x8000);
      Marker();
      Put(Cast32(t), 15, 0x8000);
      Marker();
    }
  }

  function ClockNumber(head: nat, a: nat, b: nat, c: nat): nat {
    ((((head * 8 + a) * 2 + 1) * 0x8000 + b) * 2 + 1) * 0x8000 * 2 + c * 2 + 1
  }

  lemma {:induction false} ShiftRightStep(n: nat, k: nat)
    ensures ShiftRight(n, k) / 2 == ShiftRight(n, k + 1)
    decreases k
  {
    if k > 0 { ShiftRightStep(n / 2, k - 1); }
  }

  /** What a writer that stands on a byte boundary has written. */
  lemma Written(w: BitWriter, bytes: seq<Byte>)
    requires w.Valid() && w.Count() == 8 * |bytes| && w.Value() == Number(bytes)
    ensures w.bits == 0 && w.out == w.start + bytes
  {
    assert w.bits == 0;
    NumberInjective(w.out[|w.start|..], bytes);
    assert w.out == w.start + w.out[|w.start|..];
  }

  // ---------------------------------------------------------------- time stamps

  /** A time stamp as the stream carries it: 0 if negative, otherwise modulo 2^33. */
  function Clock(pts: int): (t: nat)
    ensures t < CLOCK_LIMIT == 0x2_0000_0000
    ensures pts < 0 ==> t == 0
    ensures 0 <= pts < 0x2_0000_0000 ==> t == pts
    ensures pts >= 0 ==> (pts - t) % 0x2_0000_0000 == 0
  {
    if pts < 0 then 0 else pts % CLOCK_LIMIT
  }

  /** Its three fields: 3, 15 and 15 bits. */
  function High3(t: nat): nat { t / 0x4000_0000 }

  function Mid15(t: nat): nat { t / 0x8000 % 0x8000 }

  function Low15(t: nat): nat { t % 0x8000 }

  lemma Fields(t: nat)
    requires t < CLOCK_LIMIT
    ensures t == High3(t) * 0x4000_0000 + Mid15(t) * 0x8000 + Low15(t)
    ensures High3(t) < 8 && Mid15(t) < 0x8000 && Low15(t) < 0x8000
  {
    var q := t / 0x8000;
    assert t / 0x4000_0000 == q / 0x8000;
  }

  /** The five bytes of a time stamp field, '0010' and three marker bits among them. */
  function PtsBytes(t: nat): (s: seq<Byte>)
    requires t < CLOCK_LIMIT
    ensures |s| == 5
  {
    Fields(t);
    var b, c := Mid15(t), Low15(t);
    [0x21 + 2 * High3(t), b / 0x80, b % 0x80 * 2 + 1, c / 0x80, c % 0x80 * 2 + 1]
  }

  function ReadPts(s: seq<Byte>): nat
    requires |s| == 5
  {
    var p0: int, p1: int, p2: int, p3: int, p4: int := s[0], s[1], s[2], s[3], s[4];
    p0 / 2 % 8 * 0x4000_0000 + (p1 * 256 + p2) / 2 * 0x8000 + (p3 * 256 + p4) / 2
  }

  lemma PairReads(b: nat)
    requires b < 0x8000
    ensures (b / 0x80 * 256 + (b % 0x80 * 2 + 1)) / 2 == b
  {
  }

  /** Reading undoes writing. */
  lemma PtsRoundTrip(t: nat)
    requires t < CLOCK_LIMIT
    ensures ReadPts(PtsBytes(t)) == t
  {
    Fields(t);
    PairReads(Mid15(t));
    PairReads(Low15(t));
    assert (0x21 + 2 * High3(t)) / 2 % 8 == High3(t);
  }

  lemma Number5(s: seq<Byte>)
    requires |s| == 5
    ensures var p0: int, p1: int, p2: int, p3: int, p4: int := s[0], s[1], s[2], s[3], s[4];
            Number(s) == 0x1_0000_0000 * p0 + 0x100_0000 * p1 + 0x1_0000 * p2 + 0x100 * p3 + p4
  {
    assert s[..4][..3] == s[..3] && s[..3][..2] == s[..2] && s[..2][..1] == s[..1] && s[..1][..0] == [];
    assert Number(s[..1]) == s[0];
    assert Number(s[..2]) == 256 * Number(s[..1]) + s[1];
    assert Number(s[..3]) == 256 * Number(s[..2]) + s[2];
    assert Number(s[..4]) == 256 * Number(s[..3]) + s[3];
  }

  lemma FieldPow2()
    ensures Pow2(1) == 2 && Pow2(2) == 4 && Pow2(3) == 8 && Pow2(4) == 16 && Pow2(5) == 32 && Pow2(6) == 64
    ensures Pow2(7) == 128 && Pow2(8) == 256 && Pow2(9) == 512 && Pow2(13) == 0x2000 && Pow2(15) == 0x8000
    ensures Pow2(22) == 0x40_0000
  {
    Pow2Small();
    assert Pow2(1) == 2 * Pow2(0);
    Pow2Add(2, 2);
    Pow2Add(2, 3);
    Pow2Add(2, 1);
    Pow2Add(3, 3);
    Pow2Add(8, 1);
    Pow2Add(8, 5);
    Pow2Add(15, 7);
  }

  /** The low 32 bits, as a cast keeps them. */
  function Cast32(n: nat): U32 {
    n % 0x1_0000_0000
  }

  lemma CastFields(t: nat)
    requires t < CLOCK_LIMIT
    ensures Cast32(t / 0x4000_0000) % 8 == High3(t)
    ensures Cast32(t / 0x8000) % 0x8000 == Mid15(t)
    ensures Cast32(t) % 0x8000 == Low15(t)
  {
  }

  /** wr_pts */
  method WritePts(o: seq<Byte>, pts: int) returns (r: seq<Byte>)
    ensures r == o + PtsBytes(Clock(pts))
  {
    var p := if pts < 0 then 0 else pts % CLOCK_LIMIT;
    FieldPow2();
    var w := new BitWriter(o);
    w.Put(2, 4, 16);
    w.PutClock(p);
    PtsNumber(p);
    Written(w, PtsBytes(p));
    r := w.out;
  }

  lemma PtsNumber(t: nat)
    requires t < CLOCK_LIMIT
    ensures Number(PtsBytes(t))
            == ClockNumber(2, High3(t), Mid15(t), Low15(t))
  {
    Fields(t);
    Number5(PtsBytes(t));
    var b, c := Mid15(t), Low15(t);
    assert b == b / 0x80 * 0x80 + b % 0x80 && c == c / 0x80 * 0x80 + c % 0x80;
  }
}
