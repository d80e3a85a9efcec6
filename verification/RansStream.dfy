/** Whole byte streams: flush and open, the end-of-stream check, and the size of what is written. */
module RansStream {
  import opened Words
  import opened RansStep
  import opened RansCoder
  import opened RansRoundTrip

  function Initial(v: Variant): Stream {
    Stream(Lower(v), [])
  }

  /** The state goes out little-endian, in front of everything written before. */
  function Flushed(v: Variant, s: Stream): seq<Byte> {
    if v.ByteUnits?
    then Le4(s.x % 0x1_0000_0000) + s.bytes
    else Le4(s.x % 0x1_0000_0000) + (Le4(s.x / 0x1_0000_0000 % 0x1_0000_0000) + s.bytes)
  }

  function Opened(v: Variant, data: seq<Byte>): Option<Stream> {
    if v.ByteUnits? then
      if |data| < 4 || FromLe4(data[..4]) < Lower(v) then None
      else Some(Stream(FromLe4(data[..4]), data[4..]))
    else if |data| % 4 != 0 || |data| < 8 then None
    else
      var x := FromLe4(data[..4]) + 0x1_0000_0000 * FromLe4(data[4..8]);
      if x < Lower(v) then None else Some(Stream(x, data[8..]))
  }

  predicate AtEnd(v: Variant, s: Stream) {
    s == Initial(v)
  }

  /** 64-bit streams are written and read in whole 32-bit units. */
  predicate Aligned(v: Variant, s: Stream) {
    v.Rans64? ==> |s.bytes| % 4 == 0
  }

  lemma OpenUndoesFlush(v: Variant, s: Stream)
    requires Normal(v, s) && Aligned(v, s)
    ensures Opened(v, Flushed(v, s)) == Some(s)
  {
    var data := Flushed(v, s);
    var low := s.x % 0x1_0000_0000;
    Le4RoundTrip(low);
    assert data[..4] == Le4(low);
    if v.ByteUnits? {
      assert data[4..] == s.bytes;
    } else {
      var high := s.x / 0x1_0000_0000 % 0x1_0000_0000;
      Le4RoundTrip(high);
      assert data[4..8] == Le4(high) && data[8..] == s.bytes;
    }
  }

  function EncodeBytes(c: Coder, indices: seq<int>, values: seq<int>): seq<Byte>
    requires ValidCoder(c) && |indices| == |values|
  {
    Flushed(c.variant, EncodeSeq(c, indices, values, Initial(c.variant)))
  }

  /** rans_decode: open, decode, and insist that the stream is used up exactly. */
  function DecodeBytes(c: Coder, indices: seq<int>, data: seq<Byte>): Option<seq<int>>
    requires ValidCoder(c)
  {
    match Opened(c.variant, data)
    case None => None
    case Some(s) =>
      match DecodeSeq(c, indices, s)
      case None => None
      case Some((values, t)) => if AtEnd(c.variant, t) then Some(values) else None
  }

  // ---------------------------------------------------------------- alignment

  lemma PutOneAligned(c: Coder, value: nat, s: Stream)
    requires ValidCoder(c) && Aligned(c.variant, s)
    ensures Aligned(c.variant, PutOne(c, value, s))
  {
  }

  lemma {:induction false} DigitsAligned(c: Coder, n: nat, s: Stream)
    requires ValidCoder(c) && Aligned(c.variant, s)
    ensures Aligned(c.variant, PutDigits(c, n, s))
    decreases n
  {
    if n > 0 {
      ShiftShrinks(n, c.bypassBits);
      var high := ShiftRight(n, c.bypassBits);
      DigitsAligned(c, high, s);
      PutOneAligned(c, LowBits(n, c.bypassBits), PutDigits(c, high, s));
    }
  }

  lemma {:induction false} CountAligned(c: Coder, n: nat, s: Stream)
    requires ValidCoder(c) && Aligned(c.variant, s)
    ensures c.bypassMax > 0 && Aligned(c.variant, PutCount(c, n, s))
    decreases n
  {
    CoderBasics(c);
    if n >= c.bypassMax {
      CountAligned(c, n - c.bypassMax, s);
      PutOneAligned(c, c.bypassMax, PutCount(c, n - c.bypassMax, s));
    } else {
      PutOneAligned(c, n, s);
    }
  }

  lemma PutSymbolAligned(c: Coder, d: Dist, i: nat, s: Stream)
    requires ValidCoder(c) && ValidDist(c, d) && i <= d.sentinel && Aligned(c.variant, s)
    ensures Aligned(c.variant, PutSymbol(c, d, i, s))
  {
  }

  lemma ShiftedAligned(c: Coder, d: Dist, shifted: int, s: Stream)
    requires ValidCoder(c) && ValidDist(c, d) && Aligned(c.variant, s)
    ensures Aligned(c.variant, EncodeShifted(c, d, shifted, s))
  {
    if Escaped(d, shifted) {
      var code := EscapeCode(d, shifted);
      DigitsAligned(c, code, s);
      CountAligned(c, DigitCount(code, c.bypassBits), PutDigits(c, code, s));
      PutSymbolAligned(c, d, d.sentinel, PutBypass(c, code, s));
    } else {
      PutSymbolAligned(c, d, shifted, s);
    }
  }

  lemma {:induction false} SeqAligned(c: Coder, indices: seq<int>, values: seq<int>, s: Stream)
    requires ValidCoder(c) && |indices| == |values| && Aligned(c.variant, s)
    ensures Aligned(c.variant, EncodeSeq(c, indices, values, s))
  {
    if indices != [] {
      var t := EncodeSeq(c, indices[1..], values[1..], s);
      SeqAligned(c, indices[1..], values[1..], s);
      if indices[0] >= 0 {
        var d := DistOf(c, indices[0]);
        ShiftedAligned(c, d, values[0] + d.valueOffset, t);
      }
    }
  }

  /**
   * rans_decode inverts rans_encode: every value comes back, the stream is used up exactly and the
   * state is back at its lower bound, if and only if every escape code fits.
   */
  lemma BytesRoundTrip(c: Coder, indices: seq<int>, values: seq<int>)
    requires ValidCoder(c) && Invertible(c) && |indices| == |values|
    ensures DecodeBytes(c, indices, EncodeBytes(c, indices, values))
            == if AllFit(c, indices, values) then Some(AllDecoded(indices, values)) else None
  {
    var s := Initial(c.variant);
    SeqAligned(c, indices, values, s);
    SequenceRoundTrip(c, indices, values, s);
    OpenUndoesFlush(c.variant, EncodeSeq(c, indices, values, s));
  }

  // ---------------------------------------------------------------- size

  lemma {:induction false} RenormByteGrowth(s: Stream, xMax: nat, j: nat)
    requires xMax > 0 && j <= 2
    requires s.x < xMax || (j > 0 && s.x / 256 < xMax) || (j > 1 && s.x / 0x1_0000 < xMax)
    ensures |RenormByte(s, xMax).bytes| <= |s.bytes| + j
    decreases j
  {
    if s.x >= xMax {
      RenormByteGrowth(Stream(s.x / 256, [s.x % 256] + s.bytes), xMax, j - 1);
    }
  }

  /** The byte-unit coders whose puts write little: at most 16 symbol bits and 8 bypass bits. */
  ghost predicate Compact(c: Coder) {
    ValidCoder(c) && c.variant.ByteUnits? && c.symbolBits <= 16 && c.bypassBits <= 8
  }

  lemma PutOneGrowth(c: Coder, value: nat, s: Stream)
    requires Compact(c) && Normal(c.variant, s)
    ensures |PutOne(c, value, s).bytes| <= |s.bytes| + 1
  {
    var xMax := XMax(c.variant, 1, c.bypassBits);
    ShiftLeftIs(1, 31 - c.bypassBits);
    Pow2Monotone(23, 31 - c.bypassBits);
    Pow2Small();
    RenormByteGrowth(s, xMax, 1);
  }

  lemma PutSymbolGrowth(c: Coder, d: Dist, i: nat, s: Stream)
    requires Compact(c) && ValidDist(c, d) && i <= d.sentinel && Normal(c.variant, s)
    ensures |PutSymbol(c, d, i, s).bytes| <= |s.bytes| + 2
  {
    assert ValidSymbol(c, d, i);
    var freq := Cum(c, d, i + 1) - Cum(c, d, i);
    var xMax := ShiftLeft(freq, 31 - c.symbolBits);
    ShiftLeftIs(freq, 31 - c.symbolBits);
    MulMonotone(1, freq, Pow2(31 - c.symbolBits));
    Pow2Monotone(15, 31 - c.symbolBits);
    Pow2Small();
    RenormByteGrowth(s, xMax, 2);
  }

  lemma {:induction false} DigitsGrowth(c: Coder, n: nat, s: Stream)
    requires Compact(c) && Normal(c.variant, s)
    ensures |PutDigits(c, n, s).bytes| <= |s.bytes| + DigitCount(n, c.bypassBits)
    decreases n
  {
    if n > 0 {
      ShiftShrinks(n, c.bypassBits);
      var high := ShiftRight(n, c.bypassBits);
      DigitsGrowth(c, high, s);
      DigitsRoundTrip(c, high, s);
      PutOneGrowth(c, LowBits(n, c.bypassBits), PutDigits(c, high, s));
    }
  }

  lemma {:induction false} CountGrowth(c: Coder, n: nat, s: Stream)
    requires Compact(c) && Normal(c.variant, s)
    ensures c.bypassMax > 0
    ensures 3 * |PutCount(c, n, s).bytes| <= 3 * |s.bytes| + n + 3
    decreases n
  {
    CoderBasics(c);
    if n >= c.bypassMax {
      CountGrowth(c, n - c.bypassMax, s);
      CountRoundTrip(c, 0, 0, n - c.bypassMax, s);
      PutOneGrowth(c, c.bypassMax, PutCount(c, n - c.bypassMax, s));
    } else {
      PutOneGrowth(c, n, s);
    }
  }

  lemma EscapeGrowth(c: Coder, d: Dist, code: nat, s: Stream)
    requires Compact(c) && ValidDist(c, d) && Normal(c.variant, s) && DigitCount(code, c.bypassBits) <= 16
    ensures c.bypassMax > 0
    ensures |PutSymbol(c, d, d.sentinel, PutBypass(c, code, s)).bytes| <= |s.bytes| + 24
  {
    DigitsGrowth(c, code, s);
    DigitsRoundTrip(c, code, s);
    CountGrowth(c, DigitCount(code, c.bypassBits), PutDigits(c, code, s));
    BypassRoundTrip(c, code, s);
    PutSymbolGrowth(c, d, d.sentinel, PutBypass(c, code, s));
  }

  lemma ShiftedGrowth(c: Coder, d: Dist, shifted: int, s: Stream)
    requires Compact(c) && ValidDist(c, d) && Normal(c.variant, s)
    requires -0x8000_0000 < shifted < 0x8000_0000
    ensures |EncodeShifted(c, d, shifted, s).bytes| <= |s.bytes| + 24
  {
    CoderBasics(c);
    if Escaped(d, shifted) {
      var code := EscapeCode(d, shifted);
      Pow2Wide();
      Pow2Monotone(32, c.bypassBits * 16);
      DigitCountBound(code, c.bypassBits, 16);
      EscapeGrowth(c, d, code, s);
    } else {
      PutSymbolGrowth(c, d, shifted, s);
    }
  }

  /** Every shifted value of the sequence stays in int32 above its minimum, as the encoder needs. */
  predicate ShiftsInRange(c: Coder, indices: seq<int>, values: seq<int>)
    requires c.dists != [] && |indices| == |values|
  {
    forall k :: 0 <= k < |indices| && indices[k] >= 0 ==>
      -0x8000_0000 < values[k] + DistOf(c, indices[k]).valueOffset < 0x8000_0000
  }

  lemma {:induction false} SeqGrowth(c: Coder, indices: seq<int>, values: seq<int>, s: Stream)
    requires Compact(c) && |indices| == |values| && ShiftsInRange(c, indices, values)
    requires Normal(c.variant, s)
    ensures |EncodeSeq(c, indices, values, s).bytes| <= |s.bytes| + 24 * |indices|
  {
    if indices != [] {
      var ixs, vs := indices[1..], values[1..];
      assert ShiftsInRange(c, ixs, vs) by {
        assert forall k :: 0 <= k < |ixs| ==> ixs[k] == indices[k + 1] && vs[k] == values[k + 1];
      }
      SeqGrowth(c, ixs, vs, s);
      SequenceRoundTrip(c, ixs, vs, s);
      if indices[0] >= 0 {
        var d := DistOf(c, indices[0]);
        ShiftedGrowth(c, d, values[0] + d.valueOffset, EncodeSeq(c, ixs, vs, s));
      }
    }
  }

  /** A flushed stream of n values takes at most 4 + 24 n bytes. */
  lemma BytesBound(c: Coder, indices: seq<int>, values: seq<int>)
    requires Compact(c) && |indices| == |values| && ShiftsInRange(c, indices, values)
    ensures 4 <= |EncodeBytes(c, indices, values)| <= 4 + 24 * |values|
  {
    SeqGrowth(c, indices, values, Initial(c.variant));
  }
}
