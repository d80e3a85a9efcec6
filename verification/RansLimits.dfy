/** Which accepted coders can be inverted at all: exactly those whose scales divide the lower bound. */
module RansLimits {
  import opened Words
  import opened RansStep
  import opened RansReciprocal
  import opened RansCoder
  import opened RansRoundTrip
  import opened RansStream

  /** From s, putting symbol i of d keeps the state normalised and the decoder takes it back. */
  ghost predicate SymbolInverts(c: Coder, d: Dist, i: nat, s: Stream)
    requires ValidCoder(c) && ValidDist(c, d) && i <= d.sentinel
  {
    var t := PutSymbol(c, d, i, s);
    Normal(c.variant, t) && SymbolAt(c, d, t) == i && Cum(c, d, i) <= LowBits(t.x, c.symbolBits)
    && Advance(c.variant, Cum(c, d, i), Cum(c, d, i + 1) - Cum(c, d, i), c.symbolBits, t) == Some(s)
  }

  ghost predicate DigitInverts(c: Coder, value: nat, s: Stream)
    requires ValidCoder(c)
  {
    Normal(c.variant, PutOne(c, value, s)) && GetOne(c, PutOne(c, value, s)) == Some((value, s))
  }

  /** Every step the coder can take from every normalised state is undone by the decoder. */
  ghost predicate StepsInvert(c: Coder)
    requires ValidCoder(c)
  {
    && (forall k: nat, i: nat, s: Stream ::
          k < |c.dists| && i <= c.dists[k].sentinel && Normal(c.variant, s) ==>
            ValidDist(c, c.dists[k]) && SymbolInverts(c, c.dists[k], i, s))
    && (forall value: nat, s: Stream ::
          value <= c.bypassMax && Normal(c.variant, s) ==> DigitInverts(c, value, s))
  }

  /** Multiplies up by bytes until the state is normalised; renormalising goes all the way back. */
  function Lift(x: nat): nat
    requires x > 0
    decreases 0x80_0000 - x
  {
    if x >= 0x80_0000 then x else Lift(x * 256)
  }

  lemma {:induction false} LiftRenorms(x: nat, xMax: nat)
    requires 0 < xMax <= x < 0x8000_0000
    ensures 0x80_0000 <= Lift(x) < 0x8000_0000
    ensures RenormByte(Stream(Lift(x), []), xMax).x == RenormByte(Stream(x, []), xMax).x
    decreases 0x80_0000 - x
  {
    if x < 0x80_0000 {
      LiftRenorms(x * 256, xMax);
      assert x * 256 / 256 == x;
      SameState(Stream(x, [x * 256 % 256] + []), Stream(x, []), xMax);
    }
  }

  lemma {:induction false} SameState(s: Stream, t: Stream, xMax: nat)
    requires xMax > 0 && s.x == t.x
    ensures RenormByte(s, xMax).x == RenormByte(t, xMax).x
    decreases s.x
  {
    if s.x >= xMax {
      SameState(Stream(s.x / 256, [s.x % 256] + s.bytes), Stream(t.x / 256, [t.x % 256] + t.bytes), xMax);
    }
  }

  /** A normalised state that renormalisation takes down to x_max / 256. */
  function Trap(xMax: nat): Stream
    requires 0 < xMax < 0x8000_0000
  {
    Stream(Lift(xMax), [])
  }

  lemma TrapSinks(xMax: nat)
    requires 0 < xMax < 0x8000_0000
    ensures Normal(ByteUnits, Trap(xMax)) && RenormByte(Trap(xMax), xMax).x == xMax / 256
  {
    LiftRenorms(xMax, xMax);
    assert RenormByte(Stream(xMax, []), xMax) == RenormByte(Stream(xMax / 256, [xMax % 256] + []), xMax);
  }

  /** Above 23 bits a slot that starts at zero is wider than what the trap leaves of the state. */
  lemma TrapBelow(freq: nat, bits: nat)
    requires 24 <= bits <= 30 && 0 < freq < Pow2(bits)
    ensures var xMax := ShiftLeft(freq, 31 - bits);
            0 < xMax < 0x8000_0000 && xMax / 256 < freq && xMax / 256 < 0x80_0000
            && (freq == 1 ==> xMax / 256 == 0)
  {
    var rest := 31 - bits;
    var p := Pow2(rest);
    ShiftLeftIs(freq, rest);
    Pow2Small();
    Pow2Wide();
    Pow2Add(rest, bits);
    Pow2Monotone(rest, 7);
    TrapBounds(freq, p, Pow2(bits));
  }

  lemma TrapBounds(f: nat, p: nat, scale: nat)
    requires 0 < f < scale && 0 < p <= 128
    ensures 0 < f * p <= f * 128 && f * p < p * scale
  {
    MulMonotone(1, f, p);
    MulMonotone(p, 128, f);
    MulMonotone(f + 1, scale, p);
    assert (f + 1) * p == f * p + p && p * f == f * p && scale * p == p * scale;
  }

  /** A wide slot swallows the trapped state: the put leaves it below the lower bound. */
  lemma TrappedPut(sym: EncSym, freq: nat, bits: nat, s: Stream)
    requires SymFor(ByteUnits, sym, 0, freq, bits) && freq > 1 && 24 <= bits <= 30
    requires InRange(ByteUnits, s) && sym.xMaxHi > 0
    requires var x := RenormByte(s, sym.xMaxHi).x; x < freq && x < 0x80_0000
    ensures PutSym(ByteUnits, sym, s).x < 0x80_0000
  {
    var x := RenormByte(s, sym.xMaxHi).x;
    XMaxAgrees(ByteUnits, sym, 0, freq, bits);
    PutSymExact(ByteUnits, sym, 0, freq, bits, s);
    SmallDivMod(x, freq);
    ShiftLeftIs(0, bits);
  }

  /** With frequency one the state is trapped at zero and the bias lands on the last slot. */
  lemma TrappedOne(sym: EncSym, bits: nat, s: Stream)
    requires SymFor(ByteUnits, sym, 0, 1, bits) && 24 <= bits <= 30
    requires sym.xMaxHi > 0 && RenormByte(s, sym.xMaxHi).x == 0
    ensures LowBits(PutSym(ByteUnits, sym, s).x, bits) == Pow2(bits) - 1
  {
    PutValue(ByteUnits, sym, 0, 1, bits, 0);
    Pow2Monotone(bits, 30);
    Pow2Wide();
    PutWordIs(ByteUnits, sym, 0, Pow2(bits) - 1);
    LowBitsIs(Pow2(bits) - 1, bits);
    SmallDivMod(Pow2(bits) - 1, Pow2(bits));
  }

  lemma FirstSymbol(c: Coder)
    requires ValidCoder(c)
    ensures var d := c.dists[0];
            ValidDist(c, d) && 0 < Cum(c, d, 1) < Pow2(c.symbolBits)
            && SymFor(c.variant, c.encSyms[d.encSymOffset], 0, Cum(c, d, 1), c.symbolBits)
  {
    var d := c.dists[0];
    assert ValidDist(c, d) && ValidSymbol(c, d, 0) && ValidSymbol(c, d, 1);
  }

  lemma WideSymbolFails(c: Coder)
    requires ValidCoder(c) && !Divides(c.variant, c.symbolBits)
    ensures !StepsInvert(c)
  {
    FirstSymbol(c);
    var d := c.dists[0];
    var sym, freq, bits := c.encSyms[d.encSymOffset], Cum(c, d, 1), c.symbolBits;
    TrapBelow(freq, bits);
    var s := Trap(sym.xMaxHi);
    TrapSinks(sym.xMaxHi);
    if freq > 1 {
      TrappedPut(sym, freq, bits, s);
    } else {
      TrappedOne(sym, bits, s);
      SymbolAtBounds(c, d, PutSymbol(c, d, 0, s));
      Pow2Monotone(1, bits);
    }
    assert !SymbolInverts(c, d, 0, s);
  }

  lemma SmallDivMod(x: nat, d: nat)
    requires x < d
    ensures x / d == 0 && x % d == x
  {
    DivModUnique(0, x, d);
  }

  lemma WideDigitFails(c: Coder)
    requires ValidCoder(c) && !Divides(c.variant, c.bypassBits)
    ensures !StepsInvert(c)
  {
    Pow2Monotone(1, c.bypassBits);
    TrapBelow(1, c.bypassBits);
    var xMax := ShiftLeft(1, 31 - c.bypassBits);
    var s := Trap(xMax);
    TrapSinks(xMax);
    ShiftLeftIs(0, c.bypassBits);
    assert PutOne(c, 0, s).x == 0;
    assert !DigitInverts(c, 0, s);
  }

  lemma NarrowInverts(c: Coder)
    requires ValidCoder(c) && Invertible(c)
    ensures StepsInvert(c)
  {
    forall k: nat, i: nat, s: Stream
      | k < |c.dists| && i <= c.dists[k].sentinel && Normal(c.variant, s)
      ensures ValidDist(c, c.dists[k]) && SymbolInverts(c, c.dists[k], i, s)
    {
      SymbolRoundTrip(c, c.dists[k], i, s);
    }
    forall value: nat, s: Stream | value <= c.bypassMax && Normal(c.variant, s)
      ensures DigitInverts(c, value, s)
    {
      GetUndoesPut(c, value, s);
    }
  }

  /**
   * Exactly which accepted coders invert step by step: byte units need at most 23 bits in both
   * scales, though creation accepts up to 30; 32-bit units always invert.
   */
  lemma StepsInvertIff(c: Coder)
    requires ValidCoder(c)
    ensures StepsInvert(c) <==> Invertible(c)
  {
    if Invertible(c) {
      NarrowInverts(c);
    } else if !Divides(c.variant, c.symbolBits) {
      WideSymbolFails(c);
    } else {
      WideDigitFails(c);
    }
  }

  /** An accepted coder with 24 symbol bits and the frequencies 256 and 1. */
  function WideCoder(): Coder {
    Coder(ByteUnits, 24, 2, 3, [Dist(0, 1, 0, 0)],
          [EncSym(0x8000, 39, 0x8000_0000, 0, 0x100_0000 - 256, 0),
           EncSym(0x80, 32, 0xFFFF_FFFF, 0, 0x100_0000 - 1, 256 + 0x100_0000 - 1)],
          [0, 256, 257])
  }

  lemma WideSymbols()
    ensures SymFor(ByteUnits, WideCoder().encSyms[0], 0, 256, 24)
    ensures SymFor(ByteUnits, WideCoder().encSyms[1], 256, 1, 24)
  {
    Pow2Small();
    Pow2Wide();
    Pow2Add(31, 8);
    assert IsShift(256, 8);
    assert CeilDiv(Pow2(31 + 8), 256) == 0x8000_0000;
    ShiftLeftIs(256, 7);
    ShiftLeftIs(1, 7);
  }

  /** A coder with one distribution of two symbols, given by its parts. */
  ghost predicate TwoSymbols(c: Coder, f0: nat, f1: nat) {
    && 2 <= c.symbolBits <= MaxScaleBits(c.variant)
    && 2 <= c.bypassBits <= MaxScaleBits(c.variant)
    && c.bypassMax == Pow2(c.bypassBits) - 1
    && c.dists == [Dist(0, 1, 0, 0)] && c.cdf == [0, f0, f0 + f1] && |c.encSyms| == 2
    && SymFor(c.variant, c.encSyms[0], 0, f0, c.symbolBits)
    && SymFor(c.variant, c.encSyms[1], f0, f1, c.symbolBits)
  }

  lemma TwoSymbolsValid(c: Coder, f0: nat, f1: nat)
    requires TwoSymbols(c, f0, f1)
    ensures ValidCoder(c)
  {
    var d := c.dists[0];
    forall i: nat | i <= d.sentinel ensures ValidSymbol(c, d, i) {
      if i == 0 { assert Cum(c, d, 1) - Cum(c, d, 0) == f0; } else { assert Cum(c, d, 2) - Cum(c, d, 1) == f1; }
    }
    assert ValidDist(c, d);
  }

  lemma EncodesFirstSymbol(c: Coder, f0: nat, f1: nat)
    requires TwoSymbols(c, f0, f1)
    ensures ValidCoder(c) && c.encSyms[0].xMaxHi > 0 && AllFit(c, [0], [0])
    ensures EncodeBytes(c, [0], [0]) == Flushed(c.variant, PutSym(c.variant, c.encSyms[0], Initial(c.variant)))
  {
    TwoSymbolsValid(c, f0, f1);
    var d := c.dists[0];
    var s := Initial(c.variant);
    XMaxAgrees(c.variant, c.encSyms[0], 0, f0, c.symbolBits);
    assert EncodeSeq(c, [0][1..], [0][1..], s) == s;
    assert EncodeSeq(c, [0], [0], s) == EncodeOne(c, 0, 0, s);
    assert DistOf(c, 0) == d && !Escaped(d, 0);
    assert EncodeShifted(c, d, 0, s) == PutSymbol(c, d, 0, s);
  }

  lemma WideQuotient()
    ensures Quotient(ByteUnits, WideCoder().encSyms[0], 128) == 0
  {
    ShiftRightIs(128 * 0x8000_0000, 39);
    Pow2Add(31, 8);
    Pow2Small();
    Pow2Wide();
    assert 128 * 0x8000_0000 < Pow2(39);
    SmallDivMod(128 * 0x8000_0000, Pow2(39));
  }

  lemma WidePut()
    ensures PutSym(ByteUnits, WideCoder().encSyms[0], Initial(ByteUnits)) == Stream(128, [0, 0])
  {
    var s := Initial(ByteUnits);
    assert RenormByte(Stream(128, [0, 0]), 0x8000) == Stream(128, [0, 0]);
    assert [0] + [0] == [0, 0] && [0] + [] == [0];
    assert RenormByte(Stream(0x8000, [0]), 0x8000) == RenormByte(Stream(128, [0, 0]), 0x8000);
    assert RenormByte(s, 0x8000) == RenormByte(Stream(0x8000, [0]), 0x8000);
    WideQuotient();
  }

  /** The round trip fails on it: the single value 0 encodes to bytes that do not even open. */
  lemma WideCoderFails()
    ensures ValidCoder(WideCoder()) && AllFit(WideCoder(), [0], [0])
    ensures EncodeBytes(WideCoder(), [0], [0]) == [128, 0, 0, 0, 0, 0]
    ensures DecodeBytes(WideCoder(), [0], EncodeBytes(WideCoder(), [0], [0])) == None
  {
    var c := WideCoder();
    WideSymbols();
    EncodesFirstSymbol(c, 256, 1);
    WidePut();
    assert Le4(128) + [0, 0] == [128, 0, 0, 0, 0, 0];
    var data := EncodeBytes(c, [0], [0]);
    assert data[..4] == [128, 0, 0, 0];
  }

  // ---------------------------------------------------------------- wide digits lose a value

  /** What a digit of more than 23 bits makes of the initial state: nothing is left of it. */
  const SUNK: Stream := Stream(0, [128, 0, 0])

  lemma SinksToZero(xMax: nat)
    requires 0 < xMax <= 128
    ensures RenormByte(Initial(ByteUnits), xMax) == SUNK
  {
    assert RenormByte(Stream(0, [128, 0, 0]), xMax) == SUNK;
    assert [128] + [0, 0] == [128, 0, 0] && [0] + [0] == [0, 0] && [0] + [] == [0];
    assert RenormByte(Stream(128, [0, 0]), xMax) == SUNK;
    assert RenormByte(Stream(0x8000, [0]), xMax) == SUNK;
  }

  lemma RefillsFromZero()
    ensures Refill(ByteUnits, SUNK) == Some(Initial(ByteUnits))
  {
    assert [128, 0, 0][1..] == [0, 0] && [0, 0][1..] == [0] && [0][1..] == [];
    assert RefillByte(Stream(0x8000, [0])) == Some(Stream(0x80_0000, []));
    assert RefillByte(Stream(128, [0, 0])) == RefillByte(Stream(0x8000, [0]));
    assert RefillByte(SUNK) == RefillByte(Stream(128, [0, 0]));
  }

  /** The count of an empty escape code, put first. */
  lemma CountSinks(c: Coder)
    requires ValidCoder(c) && c.variant == ByteUnits && c.bypassBits >= 24
    ensures c.bypassMax > 0 && PutBypass(c, 0, Initial(ByteUnits)) == SUNK
  {
    CoderBasics(c);
    var rest := 31 - c.bypassBits;
    Pow2Monotone(0, rest);
    Pow2Monotone(rest, 7);
    Pow2Small();
    ShiftLeftIs(1, rest);
    SinksToZero(Pow2(rest));
    ShiftLeftIs(0, c.bypassBits);
    assert PutOne(c, 0, Initial(ByteUnits)) == SUNK;
  }

  /** The escape symbol on top: its own start, or one turn too far if it has frequency one. */
  lemma SentinelOnZero(c: Coder, d: Dist)
    requires ValidCoder(c) && c.variant == ByteUnits && ValidDist(c, d)
    ensures var start, freq := Cum(c, d, d.sentinel), Cum(c, d, d.sentinel + 1) - Cum(c, d, d.sentinel);
            PutSymbol(c, d, d.sentinel, SUNK)
            == Stream(if freq > 1 then start else start + Pow2(c.symbolBits) - 1, SUNK.bytes)
  {
    assert ValidSymbol(c, d, d.sentinel);
    var start, freq := Cum(c, d, d.sentinel), Cum(c, d, d.sentinel + 1) - Cum(c, d, d.sentinel);
    var sym := c.encSyms[d.encSymOffset + d.sentinel];
    XMaxAgrees(ByteUnits, sym, start, freq, c.symbolBits);
    PutValue(ByteUnits, sym, start, freq, c.symbolBits, 0);
    ShiftLeftIs(0, c.symbolBits);
    SmallDivMod(0, freq);
    Pow2Monotone(c.symbolBits, 30);
    Pow2Wide();
    PutWordIs(ByteUnits, sym, 0, if freq > 1 then start else start + Pow2(c.symbolBits) - 1);
  }

  /** The last slot of the symbol before the escape symbol is not the escape symbol's. */
  lemma SymbolBefore(c: Coder, d: Dist, t: Stream)
    requires ValidCoder(c) && ValidDist(c, d) && LowBits(t.x, c.symbolBits) < Cum(c, d, d.sentinel)
    ensures SymbolAt(c, d, t) < d.sentinel
  {
    if SymbolAt(c, d, t) >= d.sentinel {
      BelowSymbol(c, d, t, d.sentinel);
    }
  }

  lemma SymbolFrom(c: Coder, d: Dist, t: Stream)
    requires ValidCoder(c) && ValidDist(c, d) && LowBits(t.x, c.symbolBits) >= Cum(c, d, d.sentinel)
    ensures SymbolAt(c, d, t) >= d.sentinel
  {
    var i := SymbolAt(c, d, t);
    if i < d.sentinel {
      SymbolAtBounds(c, d, t);
      CumMonotone(c, d, i + 1, d.sentinel);
    }
  }

  lemma CountRefused(c: Coder)
    requires ValidCoder(c) && c.variant == ByteUnits && c.bypassBits >= 24
    ensures c.bypassMax > 0 && GetBypass(c, Initial(ByteUnits)) == None
  {
    CoderBasics(c);
    Pow2Monotone(24, c.bypassBits);
    Pow2Small();
    Pow2Wide();
    LowBitsIs(0x80_0000, c.bypassBits);
    SmallDivMod(0x80_0000, Pow2(c.bypassBits));
    DivUpper(32, c.bypassBits, 2);
  }

  /** A state of freq at least two holds the escape symbol and nothing behind it that could be its count. */
  lemma StartRefused(c: Coder, d: Dist, t: Stream)
    requires ValidCoder(c) && c.variant == ByteUnits && ValidDist(c, d) && c.bypassBits >= 24
    requires t == Stream(Cum(c, d, d.sentinel), SUNK.bytes)
    ensures DecodeShifted(c, d, t) == None
  {
    assert ValidSymbol(c, d, d.sentinel);
    LowBitsIs(t.x, c.symbolBits);
    ShiftRightIs(t.x, c.symbolBits);
    SmallDivMod(t.x, Pow2(c.symbolBits));
    SymbolFrom(c, d, t);
    RefillsFromZero();
    CountRefused(c);
  }

  lemma TurnDecodesOther(c: Coder, d: Dist, t: Stream)
    requires ValidCoder(c) && c.variant == ByteUnits && ValidDist(c, d)
    requires t.x == Cum(c, d, d.sentinel) + Pow2(c.symbolBits) - 1
    ensures DecodeShifted(c, d, t).Some? ==> DecodeShifted(c, d, t).value.0 < d.sentinel
  {
    assert ValidSymbol(c, d, d.sentinel);
    CumMonotone(c, d, 1, d.sentinel);
    assert ValidSymbol(c, d, 0);
    LowBitsIs(t.x, c.symbolBits);
    DivModUnique(1, Cum(c, d, d.sentinel) - 1, Pow2(c.symbolBits));
    SymbolBefore(c, d, t);
  }

  /** The value just beyond those with a symbol of their own. */
  function FirstEscaped(c: Coder): int
    requires c.dists != []
  {
    c.dists[0].sentinel - c.dists[0].valueOffset
  }

  lemma EncodesFirstEscaped(c: Coder)
    requires ValidCoder(c) && c.variant == ByteUnits && c.bypassBits >= 24
    ensures var d := c.dists[0];
            ValidDist(c, d) && EncodeSeq(c, [0], [FirstEscaped(c)], Initial(ByteUnits)) == PutSymbol(c, d, d.sentinel, SUNK)
  {
    var d, v := c.dists[0], FirstEscaped(c);
    var s := Initial(ByteUnits);
    CountSinks(c);
    assert DistOf(c, 0) == d && Escaped(d, d.sentinel) && EscapeCode(d, d.sentinel) == 0;
    assert EncodeShifted(c, d, d.sentinel, s) == PutSymbol(c, d, d.sentinel, SUNK);
    assert EncodeOne(c, 0, v, s) == EncodeShifted(c, d, d.sentinel, s);
    OneEncodes(c, v, s);
  }

  lemma OneEncodes(c: Coder, v: int, s: Stream)
    requires ValidCoder(c)
    ensures EncodeSeq(c, [0], [v], s) == EncodeOne(c, 0, v, s)
  {
    assert EncodeSeq(c, [0][1..], [v][1..], s) == s;
  }

  lemma OneDecodes(c: Coder, v: int, t: Stream)
    requires ValidCoder(c) && (DecodeShifted(c, DistOf(c, 0), t).Some? ==>
                                 DecodeShifted(c, DistOf(c, 0), t).value.0 != v + DistOf(c, 0).valueOffset)
    ensures DecodeSeq(c, [0], t).Some? ==> DecodeSeq(c, [0], t).value.0 != [v]
  {
    var one := DecodeOne(c, 0, t);
    if one.Some? && DecodeSeq(c, [0], t).Some? {
      var rest := DecodeSeq(c, [0][1..], one.value.1);
      assert DecodeSeq(c, [0], t).value.0 == [one.value.0] + rest.value.0;
      assert ([one.value.0] + rest.value.0)[0] == one.value.0 != v;
    }
  }

  /** With digits of more than 23 bits every byte coder loses the value just beyond its symbols. */
  lemma WideDigitsLose(c: Coder)
    requires ValidCoder(c) && c.variant == ByteUnits && c.bypassBits >= 24
    ensures AllFit(c, [0], [FirstEscaped(c)])
    ensures DecodeBytes(c, [0], EncodeBytes(c, [0], [FirstEscaped(c)])) != Some([FirstEscaped(c)])
  {
    var d, v := c.dists[0], FirstEscaped(c);
    EncodesFirstEscaped(c);
    SentinelOnZero(c, d);
    var t := PutSymbol(c, d, d.sentinel, SUNK);
    if Cum(c, d, d.sentinel + 1) - Cum(c, d, d.sentinel) > 1 {
      StartRefused(c, d, t);
    } else {
      TurnDecodesOther(c, d, t);
    }
    OneDecodes(c, v, t);
    OpensOrNot(c, t, [0]);
    EmptyCodeFits(c);
    assert DistOf(c, 0) == d && EscapeCode(d, d.sentinel) == 0;
  }

  lemma EmptyCodeFits(c: Coder)
    requires c.bypassBits > 0
    ensures CodeFits(c, 0)
  {
    Pow2Monotone(0, c.bypassBits * MaxDigits(c));
  }

  /** Flushing and opening gives the stream back or nothing. */
  lemma OpensOrNot(c: Coder, t: Stream, indices: seq<int>)
    requires ValidCoder(c) && c.variant == ByteUnits && t.x < 0x1_0000_0000
    ensures DecodeBytes(c, indices, Flushed(ByteUnits, t)).Some? ==>
              DecodeSeq(c, indices, t).Some?
              && DecodeBytes(c, indices, Flushed(ByteUnits, t)).value == DecodeSeq(c, indices, t).value.0
  {
    var data := Flushed(ByteUnits, t);
    Le4RoundTrip(t.x);
    assert data[..4] == Le4(t.x) && data[4..] == t.bytes;
  }

  /** Every sequence whose escape codes fit comes back. */
  ghost predicate RoundTrips(c: Coder)
    requires ValidCoder(c)
  {
    forall indices: seq<int>, values: seq<int> :: |indices| == |values| && AllFit(c, indices, values) ==>
      DecodeBytes(c, indices, EncodeBytes(c, indices, values)) == Some(AllDecoded(indices, values))
  }

  /** With symbols narrow enough, a coder round-trips exactly when its digits are narrow enough too. */
  lemma RoundTripsIff(c: Coder)
    requires ValidCoder(c) && Divides(c.variant, c.symbolBits)
    ensures RoundTrips(c) <==> Divides(c.variant, c.bypassBits)
  {
    if Divides(c.variant, c.bypassBits) {
      forall indices: seq<int>, values: seq<int> | |indices| == |values| && AllFit(c, indices, values)
        ensures DecodeBytes(c, indices, EncodeBytes(c, indices, values)) == Some(AllDecoded(indices, values))
      {
        BytesRoundTrip(c, indices, values);
      }
    } else {
      WideDigitsLose(c);
      var v := FirstEscaped(c);
      assert AllDecoded([0], [v]) == [v];
      assert AllFit(c, [0], [v]) && |[0]| == |[v]|;
    }
  }
}
