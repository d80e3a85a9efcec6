/** Division by a precomputed reciprocal: how symbols are prepared and why the put step is exact. */
module RansReciprocal {
  import opened Words
  import opened RansStep

  function CeilDiv(n: nat, d: nat): nat
    requires d > 0
  {
    DivLower(n + d - 1, d, 0);
    (n + d - 1) / d
  }

  /** shift is the number of bits of freq - 1, at least one. */
  predicate IsShift(freq: nat, shift: nat) {
    shift >= 1 && Pow2(shift - 1) < freq <= Pow2(shift)
  }

  function Reciprocal(v: Variant, sym: EncSym): nat {
    if v.ByteUnits? then sym.rcp else sym.rcpHi * 0x1_0000_0000 + sym.rcp
  }

  /** The bits the product is shifted down by in all: the 64-bit form drops 64 in the high half. */
  function TotalShift(v: Variant, sym: EncSym): nat {
    if v.ByteUnits? then sym.rcpShift else sym.rcpShift + 64
  }

  /** rcp is the reciprocal of freq, rounded up, scaled by 2^total. */
  ghost predicate RoundedReciprocal(v: Variant, freq: nat, rcp: nat, total: nat)
    requires freq > 0
  {
    exists shift: nat :: IsShift(freq, shift) && total == StateBits(v) + shift
                         && rcp == CeilDiv(Pow2(StateBits(v) + shift), freq)
  }

  /** sym is the encoder entry of the symbol that owns [start, start + freq). */
  ghost predicate SymFor(v: Variant, sym: EncSym, start: nat, freq: nat, bits: nat) {
    && bits <= MaxScaleBits(v)
    && 0 < freq && start + freq <= Pow2(bits)
    && sym.xMaxHi == ShiftLeft(freq, 31 - bits)
    && sym.cmpl == Pow2(bits) - freq
    && if freq == 1 then
         && Reciprocal(v, sym) == Word(v) - 1
         && sym.rcpShift == (if v.ByteUnits? then 32 else 0)
         && sym.bias == start + Pow2(bits) - 1
       else
         && sym.bias == start
         && RoundedReciprocal(v, freq, Reciprocal(v, sym), TotalShift(v, sym))
  }

  /** High half of a 64 x 64 bit product. */
  function Mul64Hi(a: nat, b: nat): nat {
    MulMonotone(0, a, b);
    a * b / 0x1_0000_0000_0000_0000
  }

  function Quotient(v: Variant, sym: EncSym, x: nat): nat {
    MulMonotone(0, x, sym.rcp);
    if v.ByteUnits?
    then ShiftRight(x * sym.rcp, sym.rcpShift) % 0x1_0000_0000
    else ShiftRight(Mul64Hi(x, Reciprocal(v, sym)), sym.rcpShift)
  }

  function XMaxOf(v: Variant, sym: EncSym): nat {
    if v.ByteUnits? then sym.xMaxHi else sym.xMaxHi * 0x1_0000_0000
  }

  /** The word the encoder computes from a renormalised state x. */
  function PutWord(v: Variant, sym: EncSym, x: nat): nat {
    MulMonotone(0, Quotient(v, sym, x), sym.cmpl);
    (x + Quotient(v, sym, x) * sym.cmpl + sym.bias) % Word(v)
  }

  /** The put step as the encoder computes it, in machine words. */
  function PutSym(v: Variant, sym: EncSym, s: Stream): Stream
    requires sym.xMaxHi > 0
  {
    var t := Renorm(v, s, XMaxOf(v, sym));
    Stream(PutWord(v, sym, t.x), t.bytes)
  }

  // ---------------------------------------------------------------- the quotient

  lemma StrictMul(a: int, b: int, c: int)
    requires a < b && c > 0
    ensures a * c < b * c
  {
    MulMonotone(1, b - a, c);
    assert (b - a) * c == b * c - a * c;
  }

  lemma BetweenMultiples(d: int, f: int, p: int)
    requires f > 0 && 0 <= d * f < p * f
    ensures 0 <= d < p
  {
    if d < 0 { StrictMul(d, 0, f); }
    if d >= p { MulMonotone(p, d, f); }
  }

  /** The error of x * rcp against q * p, scaled by f. */
  lemma ScaledError(q: int, f: int, r: int, p: int, e: int, rcp: int)
    requires rcp * f == p + e
    ensures ((q * f + r) * rcp - q * p) * f == r * p + (q * f + r) * e
  {
    var x := q * f + r;
    assert (x * rcp - q * p) * f == x * (rcp * f) - q * p * f;
    assert x * (rcp * f) == x * p + x * e by { assert x * (p + e) == x * p + x * e; }
    assert x * p == q * p * f + r * p by { assert x * p == q * f * p + r * p; }
  }

  lemma ErrorBelow(x: nat, e: nat, f: nat, r: nat, w: nat, sh: nat)
    requires e < f <= sh && r < f && x < w
    ensures 0 <= r * (w * sh) + x * e < w * sh * f
  {
    var p := w * sh;
    assert x * e < p by {
      MulMonotone(x, w - 1, e);
      MulMonotone(e, sh, w - 1);
      assert (w - 1) * e == e * (w - 1) <= sh * (w - 1) == p - sh;
    }
    MulMonotone(r + 1, f, p);
    assert (r + 1) * p == r * p + p;
    assert f * p == p * f;
  }

  lemma ReciprocalCore(q: nat, f: nat, r: nat, e: nat, rcp: nat, w: nat, sh: nat)
    requires rcp * f == w * sh + e && e < f <= sh && r < f && q * f + r < w
    ensures q * (w * sh) <= (q * f + r) * rcp < q * (w * sh) + w * sh
  {
    var p := w * sh;
    var x := q * f + r;
    ErrorBelow(x, e, f, r, w, sh);
    ScaledError(q, f, r, p, e, rcp);
    BetweenMultiples(x * rcp - q * p, f, p);
  }

  lemma ReciprocalByParts(x: nat, freq: nat, rcp: nat, w: nat, sh: nat, p: nat)
    requires 0 < freq <= sh && x < w && p == w * sh && p <= rcp * freq < p + freq
    ensures x * rcp / p == x / freq
  {
    var q, r := x / freq, x % freq;
    assert x == q * freq + r;
    ReciprocalCore(q, freq, r, rcp * freq - p, rcp, w, sh);
    DivIs(x * rcp, p, q);
  }

  lemma CeilDivExcess(n: nat, d: nat)
    requires d > 0
    ensures n <= CeilDiv(n, d) * d < n + d
  {
    DivModIdentity(n + d - 1, d);
  }

  /** Multiplying by the rounded-up reciprocal and shifting down is exact division below 2^w. */
  lemma ReciprocalDivides(x: nat, freq: nat, rcp: nat, w: nat, shift: nat)
    requires IsShift(freq, shift) && x < Pow2(w)
    requires rcp == CeilDiv(Pow2(w + shift), freq)
    ensures x * rcp / Pow2(w + shift) == x / freq
  {
    var p, sh, wp := Pow2(w + shift), Pow2(shift), Pow2(w);
    Pow2Add(w, shift);
    CeilDivExcess(p, freq);
    ReciprocalByParts(x, freq, rcp, wp, sh, p);
  }

  lemma FreqOneQuotient(x: nat, w: nat)
    requires 0 < x <= w
    ensures x * (w - 1) / w == x - 1
  {
    assert x * (w - 1) == (x - 1) * w + (w - x);
    DivIs(x * (w - 1), w, x - 1);
  }

  lemma QuotientOne(v: Variant, sym: EncSym, x: nat)
    requires Reciprocal(v, sym) == Word(v) - 1 && sym.rcpShift == (if v.ByteUnits? then 32 else 0)
    requires x < Word(v)
    ensures Quotient(v, sym, x) == if x == 0 then 0 else x - 1
  {
    if x > 0 { FreqOneQuotient(x, Word(v)); }
    if v.ByteUnits? {
      OneByteShift(x * sym.rcp);
    }
  }

  lemma OneByteShift(n: nat)
    ensures ShiftRight(n, 32) == n / 0x1_0000_0000
  {
    ShiftRightIs(n, 32);
    Pow2Wide();
  }

  lemma QuotientMany(v: Variant, sym: EncSym, freq: nat, x: nat)
    requires freq > 1 && x < Pow2(StateBits(v))
    requires RoundedReciprocal(v, freq, Reciprocal(v, sym), TotalShift(v, sym))
    ensures Quotient(v, sym, x) == x / freq
  {
    var rcp := Reciprocal(v, sym);
    var shift: nat :| IsShift(freq, shift) && TotalShift(v, sym) == StateBits(v) + shift
                      && rcp == CeilDiv(Pow2(StateBits(v) + shift), freq);
    ReciprocalDivides(x, freq, rcp, StateBits(v), shift);
    DivAtMost(x, freq);
    if v.ByteUnits? {
      ByteShift(x * sym.rcp, sym.rcpShift, x / freq, x);
    } else {
      HighHalfShift(x * rcp, shift);
    }
  }

  lemma ByteShift(n: nat, total: nat, q: nat, x: nat)
    requires n / Pow2(total) == q <= x < Pow2(31)
    ensures ShiftRight(n, total) % 0x1_0000_0000 == q
  {
    ShiftRightIs(n, total);
    Pow2Wide();
  }

  lemma HighHalfShift(n: nat, shift: nat)
    requires shift >= 1
    ensures ShiftRight(n / 0x1_0000_0000_0000_0000, shift - 1) == n / Pow2(63 + shift)
  {
    Pow2Wide();
    Pow2Add(64, shift - 1);
    ShiftRightIs(n / 0x1_0000_0000_0000_0000, shift - 1);
    DivDiv(n, 0x1_0000_0000_0000_0000, Pow2(shift - 1));
  }

  lemma DivAtMost(x: nat, d: nat)
    requires d > 0
    ensures 0 <= x / d <= x
  {
    DivLower(x, d, 0);
    MulMonotone(1, d, x / d);
    DivModIdentity(x, d);
  }

  // ---------------------------------------------------------------- the put

  lemma XMaxAgrees(v: Variant, sym: EncSym, start: nat, freq: nat, bits: nat)
    requires SymFor(v, sym, start, freq, bits)
    ensures XMaxOf(v, sym) == XMax(v, freq, bits) > 0 && sym.xMaxHi > 0
    ensures v.Rans64? ==> XMaxOf(v, sym) >= 0x8000_0000
  {
    var rest := 31 - bits;
    ShiftLeftIs(freq, rest);
    MulMonotone(1, freq, Pow2(rest));
    if v.Rans64? {
      Pow2Wide();
      ShiftLeftIs(freq, rest + 32);
      Pow2Add(rest, 32);
      MulAssoc(freq, Pow2(rest), 0x1_0000_0000);
    }
  }

  /** x + q * (scale - f) + start, with x = q * f + r, is the put by division. */
  lemma ComplementPut(q: int, f: int, r: int, scale: int, start: int)
    ensures q * f + r + q * (scale - f) + start == q * scale + start + r
  {
  }

  /** For frequency one the quotient is one short; the bias makes up for it unless x is zero. */
  lemma BiasRepairsFreqOne(x: int, scale: int, start: int)
    ensures x + (x - 1) * (scale - 1) + (start + scale - 1) == x * scale + start
  {
  }

  lemma SlotOfFreqOne(start: nat, bits: nat, x: nat)
    ensures Slot(start, 1, bits, x) == x * Pow2(bits) + start
  {
    ShiftLeftIs(x, bits);
    assert x / 1 == x && x % 1 == 0;
  }

  /** The sum in unbounded integers: the slot by division, or the wrong slot at zero. */
  lemma PutValue(v: Variant, sym: EncSym, start: nat, freq: nat, bits: nat, x: nat)
    requires SymFor(v, sym, start, freq, bits) && x < Pow2(StateBits(v))
    ensures x + Quotient(v, sym, x) * sym.cmpl + sym.bias
            == if freq > 1 || x > 0 then Slot(start, freq, bits, x) else start + Pow2(bits) - 1
  {
    if freq > 1 {
      QuotientMany(v, sym, freq, x);
      ShiftLeftIs(x / freq, bits);
      DivModIdentity(x, freq);
      ComplementPut(x / freq, freq, x % freq, Pow2(bits), start);
    } else {
      WordHoldsState(v);
      QuotientOne(v, sym, x);
      SlotOfFreqOne(start, bits, x);
      BiasRepairsFreqOne(x, Pow2(bits), start);
    }
  }

  lemma WordHoldsState(v: Variant)
    ensures Pow2(StateBits(v)) < Word(v)
    ensures forall s: Stream :: InRange(v, s) <==> s.x < Pow2(StateBits(v))
  {
    Pow2Wide();
  }

  lemma SlotFitsCore(x: nat, q: nat, r: nat, start: nat, f: nat, scale: nat, m: nat)
    requires x == q * f + r && x < f * m && r < f && start + f <= scale
    ensures q * scale + start + r < m * scale
  {
    if m <= q { MulMonotone(m, q, f); assert false; }
    MulMonotone(q + 1, m, scale);
    assert (q + 1) * scale == q * scale + scale;
  }

  lemma SlotFitsParts(v: Variant, freq: nat, start: nat, bits: nat, x: nat, q: nat, r: nat)
    requires bits <= MaxScaleBits(v) && start + freq <= Pow2(bits)
    requires x == q * freq + r && r < freq && x < XMax(v, freq, bits)
    ensures ShiftLeft(q, bits) + start + r < Pow2(StateBits(v))
  {
    var rest := StateBits(v) - bits;
    Pow2Add(rest, bits);
    ShiftLeftIs(freq, rest);
    ShiftLeftIs(q, bits);
    SlotFitsCore(x, q, r, start, freq, Pow2(bits), Pow2(rest));
  }

  /** A put state always fits StateBits(v), so no word ever wraps. */
  lemma SlotFits(v: Variant, freq: nat, start: nat, bits: nat, x: nat)
    requires bits <= MaxScaleBits(v) && freq > 0 && start + freq <= Pow2(bits)
    requires x < XMax(v, freq, bits)
    ensures Slot(start, freq, bits, x) < Pow2(StateBits(v))
  {
    DivModIdentity(x, freq);
    DivLower(x, freq, 0);
    SlotFitsParts(v, freq, start, bits, x, x / freq, x % freq);
  }

  lemma TwoScalesFit(v: Variant, bits: nat)
    requires bits <= MaxScaleBits(v)
    ensures 2 * Pow2(bits) <= Pow2(StateBits(v))
  {
    Pow2Monotone(bits + 1, StateBits(v));
  }

  /** The machine word put: exact unless a frequency of one meets a zero state. */
  lemma PutWordExact(v: Variant, sym: EncSym, start: nat, freq: nat, bits: nat, x: nat)
    requires SymFor(v, sym, start, freq, bits) && x < XMax(v, freq, bits)
    requires x < Pow2(StateBits(v)) && bits > 0
    ensures PutWord(v, sym, x) < Pow2(StateBits(v))
    ensures Slot(start, freq, bits, x) < Pow2(StateBits(v))
    ensures PutWord(v, sym, x) == Slot(start, freq, bits, x) <==> freq > 1 || x > 0
  {
    PutValue(v, sym, start, freq, bits, x);
    SlotFits(v, freq, start, bits, x);
    WordHoldsState(v);
    if freq > 1 || x > 0 {
      PutWordIs(v, sym, x, Slot(start, freq, bits, x));
    } else {
      TwoScalesFit(v, bits);
      PutWordIs(v, sym, x, start + Pow2(bits) - 1);
      SlotOfFreqOne(start, bits, x);
      Pow2Monotone(1, bits);
    }
  }

  lemma PutWordIs(v: Variant, sym: EncSym, x: nat, total: nat)
    requires total == x + Quotient(v, sym, x) * sym.cmpl + sym.bias && total < Word(v)
    ensures PutWord(v, sym, x) == total
  {
  }

  /**
   * The multiply-and-shift put equals the put by true division on every state in range, exactly
   * when the renormalised state is not zero under a frequency of one. The result stays in range.
   */
  lemma PutSymExact(v: Variant, sym: EncSym, start: nat, freq: nat, bits: nat, s: Stream)
    requires SymFor(v, sym, start, freq, bits) && InRange(v, s) && bits > 0
    ensures sym.xMaxHi > 0 && XMax(v, freq, bits) > 0
    ensures PutSym(v, sym, s) == PutRaw(v, start, freq, bits, s)
            <==> (freq > 1 || Renorm(v, s, XMax(v, freq, bits)).x > 0)
    ensures InRange(v, PutSym(v, sym, s)) && InRange(v, PutRaw(v, start, freq, bits, s))
  {
    XMaxAgrees(v, sym, start, freq, bits);
    RenormBelow(v, s, XMax(v, freq, bits));
    WordHoldsState(v);
    PutWordExact(v, sym, start, freq, bits, Renorm(v, s, XMax(v, freq, bits)).x);
  }

  lemma PutSymIsDivision(v: Variant, sym: EncSym, start: nat, freq: nat, bits: nat, s: Stream)
    requires SymFor(v, sym, start, freq, bits) && Divides(v, bits) && Normal(v, s) && bits > 0
    ensures sym.xMaxHi > 0 && XMax(v, freq, bits) > 0
    ensures PutSym(v, sym, s) == PutRaw(v, start, freq, bits, s)
  {
    var k := Pow2(StateBits(v) - bits) / UnitBase(v);
    XMaxIsMultiple(v, freq, bits);
    RenormLands(v, s, freq, bits, k);
    PutSymExact(v, sym, start, freq, bits, s);
  }

  // ---------------------------------------------------------------- preparing a symbol

  lemma CeilFitsCore(p: nat, f: nat, top: nat, half: nat)
    requires p == top * half && half < f && half <= top - 1
    ensures p + f - 1 < top * f
  {
    MulMonotone(half + 1, f, top - 1);
    assert (half + 1) * (top - 1) == half * top + top - half - 1;
    assert top * half == half * top;
    assert f * (top - 1) == top * f - f;
  }

  /** The rounded-up reciprocal fits the word it is stored in. */
  lemma ReciprocalFits(freq: nat, w: nat, shift: nat)
    requires IsShift(freq, shift) && shift <= w + 1
    ensures CeilDiv(Pow2(w + shift), freq) < Pow2(w + 1)
  {
    Pow2Add(w + 1, shift - 1);
    Pow2Monotone(shift - 1, w);
    CeilFitsCore(Pow2(w + shift), freq, Pow2(w + 1), Pow2(shift - 1));
    DivUpper(Pow2(w + shift) + freq - 1, freq, Pow2(w + 1));
  }

  method FindShift(freq: nat) returns (shift: nat)
    requires 1 < freq <= 0x8000_0000
    ensures IsShift(freq, shift) && shift <= 31
  {
    shift := 1;
    Pow2Wide();
    assert Pow2(0) == 1 && Pow2(1) == 2;
    while freq > Pow2(shift)
      invariant 1 <= shift <= 31 && Pow2(shift - 1) < freq
      decreases 31 - shift
    {
      shift := shift + 1;
      if shift > 31 {
        Pow2Monotone(31, shift - 1);
        assert false;
      }
    }
  }

  lemma FreqBelow(freq: nat, bits: nat)
    requires freq <= Pow2(bits) && bits <= 31
    ensures freq <= 0x8000_0000
  {
    Pow2Wide();
    Pow2Monotone(bits, 31);
  }

  lemma ByteReciprocal(freq: nat, shift: nat, rcp: nat)
    requires IsShift(freq, shift) && shift <= 31
    requires rcp == (Pow2(shift + 32 - 1) + (freq - 1)) / freq
    ensures RoundedReciprocal(ByteUnits, freq, rcp, shift - 1 + 32) && rcp < 0x1_0000_0000
  {
    assert rcp == CeilDiv(Pow2(31 + shift), freq);
    ReciprocalFits(freq, 31, shift);
    Pow2Wide();
  }

  method InitSymByte(start: nat, freq: nat, bits: nat) returns (sym: EncSym)
    requires bits <= 30 && 0 < freq && start + freq <= Pow2(bits)
    ensures SymFor(ByteUnits, sym, start, freq, bits)
    ensures sym.rcp < 0x1_0000_0000 && sym.rcpHi == 0
  {
    FreqBelow(freq, bits);
    var scale := Pow2(bits);
    var xMaxHi := ShiftLeft(freq, 31 - bits);
    if freq > 1 {
      var shift := FindShift(freq);
      var rcp := (Pow2(shift + 32 - 1) + (freq - 1)) / freq;
      ByteReciprocal(freq, shift, rcp);
      sym := EncSym(xMaxHi, shift - 1 + 32, rcp % 0x1_0000_0000, 0, scale - freq, start);
    } else {
      sym := EncSym(xMaxHi, 32, 0xFFFF_FFFF, 0, scale - freq, start + scale - 1);
    }
  }

  lemma LongDivisionHigh(r1: nat, t0: nat, r0: nat, f: nat, b: nat)
    requires f - 1 + r1 * b == t0 * f + r0 && r1 < f <= b && r0 < f
    ensures t0 < b
  {
    MulMonotone(r1 + 1, f, b);
    assert (r1 + 1) * b == r1 * b + b;
    assert b * f == f * b;
    if b <= t0 { MulMonotone(b, t0, f); assert false; }
  }

  lemma LongDivisionSum(t1: int, r1: int, t0: int, r0: int, f: int, b: int)
    requires f - 1 + r1 * b == t0 * f + r0
    ensures (t1 * f + r1) * b + f - 1 == (t0 + t1 * b) * f + r0
  {
  }

  /** Long division in two steps of base b gives the ceiling quotient. */
  lemma LongDivision(x1: nat, freq: nat, b: nat)
    requires 0 < freq <= b
    ensures var t1 := x1 / freq;
            var t0 := (freq - 1 + x1 % freq * b) / freq;
            0 <= t0 < b && t0 + t1 * b == CeilDiv(x1 * b, freq)
  {
    var t1, r1 := x1 / freq, x1 % freq;
    var x0 := freq - 1 + r1 * b;
    DivModIdentity(x1, freq);
    DivModIdentity(x0, freq);
    DivLower(x0, freq, 0);
    LongDivisionHigh(r1, x0 / freq, x0 % freq, freq, b);
    LongDivisionSum(t1, r1, x0 / freq, x0 % freq, freq, b);
    DivIs(x1 * b + freq - 1, freq, x0 / freq + t1 * b);
  }

  lemma Reciprocal64(freq: nat, shift: nat, rcp: nat)
    requires IsShift(freq, shift) && shift <= 31
    requires rcp == CeilDiv(Pow2(shift + 31) * 0x1_0000_0000, freq)
    ensures RoundedReciprocal(Rans64, freq, rcp, shift - 1 + 64) && rcp < 0x1_0000_0000_0000_0000
  {
    Pow2Wide();
    Pow2Add(shift + 31, 32);
    assert rcp == CeilDiv(Pow2(63 + shift), freq);
    ReciprocalFits(freq, 63, shift);
  }

  /** The two-step long division of enc_sym_init_64. */
  method LongReciprocal(freq: nat, shift: nat) returns (rcp: nat)
    requires IsShift(freq, shift) && shift <= 31 && freq <= 0x8000_0000
    ensures RoundedReciprocal(Rans64, freq, rcp, shift - 1 + 64) && rcp < 0x1_0000_0000_0000_0000
  {
    var x0 := freq - 1;
    var x1 := Pow2(shift + 31);
    var t1 := x1 / freq;
    x0 := x0 + x1 % freq * 0x1_0000_0000;
    var t0 := x0 / freq;
    LongDivision(x1, freq, 0x1_0000_0000);
    rcp := t0 + t1 * 0x1_0000_0000;
    Reciprocal64(freq, shift, rcp);
  }

  method InitSym64(start: nat, freq: nat, bits: nat) returns (sym: EncSym)
    requires bits <= 31 && 0 < freq && start + freq <= Pow2(bits)
    ensures SymFor(Rans64, sym, start, freq, bits)
    ensures sym.rcp < 0x1_0000_0000 && sym.rcpHi < 0x1_0000_0000
  {
    FreqBelow(freq, bits);
    var scale := Pow2(bits);
    var xMaxHi := ShiftLeft(freq, 31 - bits);
    if freq > 1 {
      var shift := FindShift(freq);
      var rcp := LongReciprocal(freq, shift);
      sym := EncSym(xMaxHi, shift - 1, rcp % 0x1_0000_0000, rcp / 0x1_0000_0000, scale - freq, start);
    } else {
      sym := EncSym(xMaxHi, 0, 0xFFFF_FFFF, 0xFFFF_FFFF, scale - freq, start + scale - 1);
    }
  }
}
