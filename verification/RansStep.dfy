/**
 * One step of the range coder: renormalise, put a symbol, and the decoder's advance.
 *
 * A coder state together with the bytes that lie in front of it is a Stream. The encoder grows
 * `bytes` at the front and the decoder eats it from the front, so both walk over the same values.
 */
module RansStep {
  import opened Words

  datatype Variant = ByteUnits | Rans64

  datatype Stream = Stream(x: nat, bytes: seq<Byte>)

  /** The precomputed encoder entry of one symbol. */
  datatype EncSym = EncSym(xMaxHi: nat, rcpShift: nat, rcp: nat, rcpHi: nat, cmpl: nat, bias: nat)

  function Lower(v: Variant): nat {
    if v.ByteUnits? then 0x80_0000 else 0x8000_0000
  }

  function UnitBase(v: Variant): nat {
    if v.ByteUnits? then 0x100 else 0x1_0000_0000
  }

  function Word(v: Variant): nat {
    if v.ByteUnits? then 0x1_0000_0000 else 0x1_0000_0000_0000_0000
  }

  /** Number of bits a state may occupy: 31 for byte units, 63 for 32-bit units. */
  function StateBits(v: Variant): nat {
    if v.ByteUnits? then 31 else 63
  }

  function MaxScaleBits(v: Variant): nat {
    if v.ByteUnits? then 30 else 31
  }

  predicate InRange(v: Variant, s: Stream) {
    s.x < Lower(v) * UnitBase(v)
  }

  /** The renormalisation interval [L, L * B). */
  predicate Normal(v: Variant, s: Stream) {
    Lower(v) <= s.x && InRange(v, s)
  }

  /** The lower bound is a multiple of 2^bits, which is what inversion needs. */
  predicate Divides(v: Variant, bits: nat) {
    bits <= if v.ByteUnits? then 23 else 31
  }

  function XMax(v: Variant, freq: nat, bits: nat): nat
    requires bits <= MaxScaleBits(v)
  {
    ShiftLeft(freq, StateBits(v) - bits)
  }

  // ---------------------------------------------------------------- renormalisation

  function RenormByte(s: Stream, xMax: nat): Stream
    requires xMax > 0
    decreases s.x
  {
    if s.x >= xMax then RenormByte(Stream(s.x / 256, [s.x % 256] + s.bytes), xMax) else s
  }

  function Renorm64(s: Stream, xMax: nat): Stream
  {
    if s.x >= xMax
    then Stream(s.x / 0x1_0000_0000, Le4(s.x % 0x1_0000_0000) + s.bytes)
    else s
  }

  function Renorm(v: Variant, s: Stream, xMax: nat): Stream
    requires xMax > 0
  {
    if v.ByteUnits? then RenormByte(s, xMax) else Renorm64(s, xMax)
  }

  function RefillByte(s: Stream): Option<Stream>
    decreases |s.bytes|
  {
    if s.x >= 0x80_0000 then Some(s)
    else if s.bytes == [] then None
    else RefillByte(Stream(s.x * 256 + s.bytes[0], s.bytes[1..]))
  }

  function Refill64(s: Stream): Option<Stream>
  {
    if s.x >= 0x8000_0000 then Some(s)
    else if |s.bytes| < 4 then None
    else Some(Stream(s.x * 0x1_0000_0000 + FromLe4(s.bytes[..4]), s.bytes[4..]))
  }

  function Refill(v: Variant, s: Stream): Option<Stream> {
    if v.ByteUnits? then RefillByte(s) else Refill64(s)
  }

  /** Whatever the encoder's renormalisation pushed out, the decoder's refill takes back in. */
  lemma {:induction false} RefillUndoesRenormByte(s: Stream, xMax: nat)
    requires xMax > 0 && s.x < 0x8000_0000
    ensures RefillByte(RenormByte(s, xMax)) == RefillByte(s)
    decreases s.x
  {
    if s.x >= xMax {
      var t := Stream(s.x / 256, [s.x % 256] + s.bytes);
      RefillUndoesRenormByte(t, xMax);
      assert t.x < 0x80_0000 && t.bytes[1..] == s.bytes;
      assert t.x * 256 + t.bytes[0] == s.x;
      assert RefillByte(t) == RefillByte(Stream(s.x, s.bytes));
    }
  }

  lemma RefillUndoesRenorm(v: Variant, s: Stream, xMax: nat)
    requires xMax > 0 && Normal(v, s)
    ensures Refill(v, Renorm(v, s, xMax)) == Some(s)
  {
    if v.ByteUnits? {
      RefillUndoesRenormByte(s, xMax);
    } else if s.x >= xMax {
      var low := s.x % 0x1_0000_0000;
      var t := Renorm64(s, xMax);
      Le4RoundTrip(low);
      assert t.bytes[..4] == Le4(low) && t.bytes[4..] == s.bytes;
    }
  }

  /** With x_max = m * B and x in [m, L * B), renormalisation ends in [m, m * B). */
  lemma {:induction false} RenormByteLands(s: Stream, m: nat)
    requires 0 < m <= s.x
    ensures m <= RenormByte(s, m * 256).x < m * 256
    decreases s.x
  {
    if s.x >= m * 256 {
      RenormByteLands(Stream(s.x / 256, [s.x % 256] + s.bytes), m);
    }
  }

  lemma {:induction false} RenormByteBelow(s: Stream, xMax: nat)
    requires xMax > 0
    ensures RenormByte(s, xMax).x < xMax && RenormByte(s, xMax).x <= s.x
    decreases s.x
  {
    if s.x >= xMax {
      RenormByteBelow(Stream(s.x / 256, [s.x % 256] + s.bytes), xMax);
    }
  }

  lemma RenormBelow(v: Variant, s: Stream, xMax: nat)
    requires xMax > 0 && InRange(v, s)
    requires v.Rans64? ==> xMax >= 0x8000_0000
    ensures Renorm(v, s, xMax).x < xMax && Renorm(v, s, xMax).x <= s.x
  {
    if v.ByteUnits? {
      RenormByteBelow(s, xMax);
    }
  }

  /** x_max as m * B, where m = freq * (L / 2^bits). */
  lemma XMaxIsMultiple(v: Variant, freq: nat, bits: nat)
    requires bits <= MaxScaleBits(v) && Divides(v, bits)
    ensures var k := Pow2(StateBits(v) - bits) / UnitBase(v);
            k > 0 && k * Pow2(bits) == Lower(v) && XMax(v, freq, bits) == freq * k * UnitBase(v)
  {
    ShiftLeftIs(freq, StateBits(v) - bits);
    Pow2Small();
    Pow2Wide();
    var unitBits := if v.ByteUnits? then 8 else 32;
    var rest := StateBits(v) - bits - unitBits;
    Pow2Add(rest, unitBits);
    Pow2Add(rest, bits);
    var k := Pow2(rest);
    assert Pow2(StateBits(v) - bits) == k * UnitBase(v);
    DivModUnique(k, 0, UnitBase(v));
    MulAssoc(freq, k, UnitBase(v));
  }

  lemma BetweenOneAndScale(f: nat, k: nat, scale: nat)
    requires 0 < f <= scale && k > 0
    ensures 0 < k <= f * k <= k * scale
  {
    MulMonotone(1, f, k);
    MulMonotone(f, scale, k);
  }

  lemma RenormLandsAt(v: Variant, s: Stream, m: nat)
    requires Normal(v, s) && 0 < m <= Lower(v)
    ensures m <= Renorm(v, s, m * UnitBase(v)).x < m * UnitBase(v)
  {
    if v.ByteUnits? {
      RenormByteLands(s, m);
    }
  }

  lemma RenormLands(v: Variant, s: Stream, freq: nat, bits: nat, k: nat)
    requires bits <= MaxScaleBits(v) && Normal(v, s) && 0 < freq <= Pow2(bits)
    requires k > 0 && k * Pow2(bits) == Lower(v) && XMax(v, freq, bits) == freq * k * UnitBase(v)
    ensures XMax(v, freq, bits) > 0
    ensures 0 < freq * k <= Renorm(v, s, XMax(v, freq, bits)).x < XMax(v, freq, bits)
  {
    BetweenOneAndScale(freq, k, Pow2(bits));
    RenormLandsAt(v, s, freq * k);
  }

  // ---------------------------------------------------------------- put and advance

  /** The put step by true division, as put_raw computes it. */
  function PutRaw(v: Variant, start: nat, freq: nat, bits: nat, s: Stream): Stream
    requires bits <= MaxScaleBits(v) && freq > 0 && XMax(v, freq, bits) > 0
  {
    var t := Renorm(v, s, XMax(v, freq, bits));
    Stream(Slot(start, freq, bits, t.x), t.bytes)
  }

  /** x in quotient and remainder by freq, the remainder moved into the symbol's slot. */
  function Slot(start: nat, freq: nat, bits: nat, x: nat): nat
    requires freq > 0
  {
    DivLower(x, freq, 0);
    ShiftLeft(x / freq, bits) + start + x % freq
  }

  function Advance(v: Variant, start: nat, freq: nat, bits: nat, s: Stream): Option<Stream>
    requires start <= LowBits(s.x, bits)
  {
    MulMonotone(0, freq, ShiftRight(s.x, bits));
    Refill(v, Stream(freq * ShiftRight(s.x, bits) + LowBits(s.x, bits) - start, s.bytes))
  }

  /** The slot of a put state holds the symbol, and the quotient and remainder come back out. */
  lemma SlotSplits(x: nat, freq: nat, start: nat, bits: nat)
    requires freq > 0 && start + freq <= Pow2(bits)
    ensures var y := Slot(start, freq, bits, x);
            ShiftRight(y, bits) == x / freq && LowBits(y, bits) == start + x % freq
            && freq * ShiftRight(y, bits) + LowBits(y, bits) - start == x
  {
    var y := Slot(start, freq, bits, x);
    ShiftLeftIs(x / freq, bits);
    ShiftRightIs(y, bits);
    LowBitsIs(y, bits);
    DivModUnique(x / freq, start + x % freq, Pow2(bits));
    DivModIdentity(x, freq);
  }

  lemma SlotBoundsCore(q: nat, r: nat, f: nat, start: nat, scale: nat, k: nat, base: nat)
    requires r < f && start + f <= scale && base > 0
    requires f * k <= q * f + r < f * k * base
    ensures k * scale <= q * scale + start + r < k * scale * base
  {
    assert f * k == k * f && f * k * base == k * base * f;
    assert (q + 1) * f == q * f + f;
    if q < k { MulMonotone(q + 1, k, f); assert false; }
    if k * base <= q { MulMonotone(k * base, q, f); assert false; }
    MulMonotone(k, q, scale);
    MulMonotone(q + 1, k * base, scale);
    assert (q + 1) * scale == q * scale + scale;
    assert k * base * scale == k * scale * base;
  }

  lemma SlotBounds(x: nat, freq: nat, start: nat, bits: nat, k: nat, base: nat)
    requires freq > 0 && start + freq <= Pow2(bits) && base > 0
    requires freq * k <= x < freq * k * base
    ensures k * Pow2(bits) <= Slot(start, freq, bits, x) < k * Pow2(bits) * base
  {
    var q, r := SlotParts(x, freq, start, bits);
    SlotBoundsOf(x, q, r, freq, start, Pow2(bits), k, base, Slot(start, freq, bits, x));
  }

  lemma SlotParts(x: nat, freq: nat, start: nat, bits: nat) returns (q: nat, r: nat)
    requires freq > 0
    ensures x == q * freq + r && r < freq && Slot(start, freq, bits, x) == q * Pow2(bits) + start + r
  {
    DivLower(x, freq, 0);
    DivModIdentity(x, freq);
    q, r := x / freq, x % freq;
    ShiftLeftIs(q, bits);
  }

  lemma SlotBoundsOf(x: nat, q: nat, r: nat, f: nat, start: nat, scale: nat, k: nat, base: nat, y: nat)
    requires x == q * f + r && r < f && y == q * scale + start + r && start + f <= scale && base > 0
    requires f * k <= x < f * k * base
    ensures k * scale <= y < k * scale * base
  {
    SlotBoundsCore(q, r, f, start, scale, k, base);
  }

  /**
   * Step inversion: from any normalised state a put leads to a normalised state whose slot names
   * the symbol, and the decoder's advance returns the state and the bytes exactly as they were.
   */
  lemma AdvanceUndoesPut(v: Variant, start: nat, freq: nat, bits: nat, s: Stream)
    requires bits <= MaxScaleBits(v) && Divides(v, bits)
    requires freq > 0 && start + freq <= Pow2(bits) && Normal(v, s)
    ensures XMax(v, freq, bits) > 0
    ensures var t := PutRaw(v, start, freq, bits, s);
            Normal(v, t) && start <= LowBits(t.x, bits) < start + freq
            && Advance(v, start, freq, bits, t) == Some(s)
  {
    var k := Pow2(StateBits(v) - bits) / UnitBase(v);
    var xMax := XMax(v, freq, bits);
    XMaxIsMultiple(v, freq, bits);
    RenormLands(v, s, freq, bits, k);
    var r := Renorm(v, s, xMax);
    SlotBounds(r.x, freq, start, bits, k, UnitBase(v));
    SlotSplits(r.x, freq, start, bits);
    RefillUndoesRenorm(v, s, xMax);
    assert Stream(Slot(start, freq, bits, r.x), r.bytes) == PutRaw(v, start, freq, bits, s);
  }
}
