/** Decoding undoes encoding, from one digit up to whole sequences. */
module RansRoundTrip {
  import opened Words
  import opened RansStep
  import opened RansReciprocal
  import opened RansCoder

  lemma GetUndoesPut(c: Coder, value: nat, s: Stream)
    requires ValidCoder(c) && Divides(c.variant, c.bypassBits) && Normal(c.variant, s)
    requires value <= c.bypassMax
    ensures Normal(c.variant, PutOne(c, value, s))
    ensures GetOne(c, PutOne(c, value, s)) == Some((value, s))
  {
    AdvanceUndoesPut(c.variant, value, 1, c.bypassBits, s);
  }

  lemma GetDigitsStep(c: Coder, n: nat, digit: nat, rest: nat, t: Stream, u: Stream, s: Stream)
    requires n > 0 && GetOne(c, t) == Some((digit, u)) && GetDigits(c, n - 1, u) == Some((rest, s))
    ensures GetDigits(c, n, t) == Some((digit + ShiftLeft(rest, c.bypassBits), s))
  {
  }

  lemma {:induction false} DigitsRoundTrip(c: Coder, n: nat, s: Stream)
    requires ValidCoder(c) && Divides(c.variant, c.bypassBits) && Normal(c.variant, s)
    ensures Normal(c.variant, PutDigits(c, n, s))
    ensures GetDigits(c, DigitCount(n, c.bypassBits), PutDigits(c, n, s)) == Some((n, s))
    decreases n
  {
    if n > 0 {
      CoderBasics(c);
      var bits := c.bypassBits;
      var high, digit := ShiftRight(n, bits), LowBits(n, bits);
      ShiftShrinks(n, bits);
      LowBitsIs(n, bits);
      ShiftLeftIs(high, bits);
      DigitsRoundTrip(c, high, s);
      var u := PutDigits(c, high, s);
      GetUndoesPut(c, digit, u);
      GetDigitsStep(c, DigitCount(n, bits), digit, high, PutOne(c, digit, u), u, s);
    }
  }

  lemma GetCountStep(c: Coder, max: nat, sum: nat, value: nat, t: Stream, u: Stream)
    requires c.bypassMax > 0 && GetOne(c, t) == Some((value, u))
    ensures GetCount(c, max, sum, t) == if sum + value > max then None
                                        else if value == c.bypassMax then GetCount(c, max, sum + value, u)
                                        else Some((sum + value, u))
  {
  }

  /** The decoder's cap on the running sum is met exactly when the whole count is within it. */
  lemma {:induction false} CountRoundTrip(c: Coder, max: nat, sum: nat, n: nat, s: Stream)
    requires ValidCoder(c) && Divides(c.variant, c.bypassBits) && Normal(c.variant, s)
    ensures c.bypassMax > 0 && Normal(c.variant, PutCount(c, n, s))
    ensures GetCount(c, max, sum, PutCount(c, n, s)) == if sum + n <= max then Some((sum + n, s)) else None
    decreases n
  {
    CoderBasics(c);
    var value := if n >= c.bypassMax then c.bypassMax else n;
    var u := if n >= c.bypassMax then PutCount(c, n - c.bypassMax, s) else s;
    if n >= c.bypassMax {
      CountRoundTrip(c, max, sum + c.bypassMax, n - c.bypassMax, s);
    }
    GetUndoesPut(c, value, u);
    GetCountStep(c, max, sum, value, PutOne(c, value, u), u);
    assert PutCount(c, n, s) == PutOne(c, value, u);
  }

  lemma BypassRoundTrip(c: Coder, code: nat, s: Stream)
    requires ValidCoder(c) && Divides(c.variant, c.bypassBits) && Normal(c.variant, s)
    ensures c.bypassMax > 0 && Normal(c.variant, PutBypass(c, code, s))
    ensures GetBypass(c, PutBypass(c, code, s)) == if CodeFits(c, code) then Some((code, s)) else None
  {
    var count := DigitCount(code, c.bypassBits);
    DigitsRoundTrip(c, code, s);
    CountRoundTrip(c, MaxDigits(c), 0, count, PutDigits(c, code, s));
    DigitCountBound(code, c.bypassBits, MaxDigits(c));
  }

  /** An escape code the bypass decoder accepts: it has at most 32 / bypassBits digits. */
  predicate CodeFits(c: Coder, code: nat)
    requires c.bypassBits > 0
  {
    code < Pow2(c.bypassBits * MaxDigits(c))
  }

  lemma {:induction false} CumMonotone(c: Coder, d: Dist, i: nat, j: nat)
    requires ValidCoder(c) && ValidDist(c, d) && i <= j <= d.sentinel + 1
    ensures Cum(c, d, i) <= Cum(c, d, j)
    decreases j
  {
    if i < j {
      CumMonotone(c, d, i, j - 1);
      assert ValidSymbol(c, d, j - 1);
    }
  }

  lemma SymbolRoundTrip(c: Coder, d: Dist, i: nat, s: Stream)
    requires ValidCoder(c) && ValidDist(c, d) && i <= d.sentinel
    requires Divides(c.variant, c.symbolBits) && Normal(c.variant, s)
    ensures var t := PutSymbol(c, d, i, s);
            Normal(c.variant, t) && SymbolAt(c, d, t) == i && Cum(c, d, i) <= LowBits(t.x, c.symbolBits)
            && Advance(c.variant, Cum(c, d, i), Cum(c, d, i + 1) - Cum(c, d, i), c.symbolBits, t) == Some(s)
  {
    assert ValidSymbol(c, d, i);
    var start, freq := Cum(c, d, i), Cum(c, d, i + 1) - Cum(c, d, i);
    PutSymIsDivision(c.variant, c.encSyms[d.encSymOffset + i], start, freq, c.symbolBits, s);
    AdvanceUndoesPut(c.variant, start, freq, c.symbolBits, s);
    var t := PutSymbol(c, d, i, s);
    var r := SymbolAt(c, d, t);
    SymbolAtBounds(c, d, t);
    if r < i {
      CumMonotone(c, d, r + 1, i);
      assert false;
    } else if i < r {
      BelowSymbol(c, d, t, i + 1);
      assert false;
    }
  }

  lemma {:induction false} DigitCountBound(n: nat, bits: nat, k: nat)
    requires bits > 0
    ensures DigitCount(n, bits) <= k <==> n < Pow2(bits * k)
    decreases n
  {
    if n == 0 {
    } else if k == 0 {
      assert Pow2(bits * 0) == 1;
    } else {
      ShiftShrinks(n, bits);
      DigitCountBound(ShiftRight(n, bits), bits, k - 1);
      assert bits * k == bits * (k - 1) + bits;
      Pow2Add(bits * (k - 1), bits);
      ShiftBelow(n, bits, Pow2(bits * (k - 1)));
    }
  }

  lemma ShiftBelow(n: nat, bits: nat, m: nat)
    ensures ShiftRight(n, bits) < m <==> n < m * Pow2(bits)
  {
    ShiftRightIs(n, bits);
    if n < m * Pow2(bits) {
      DivUpper(n, Pow2(bits), m);
    } else {
      DivLower(n, Pow2(bits), m);
    }
  }

  lemma UnescapeInverts(d: Dist, shifted: int)
    requires Escaped(d, shifted)
    ensures Unescape(d, EscapeCode(d, shifted)) == shifted
  {
  }

  /** What decoding gives back for one value: zero where the index is negative. */
  function Decoded(index: int, value: int): int {
    if index < 0 then 0 else value
  }

  /** The value is skipped, has a symbol of its own, or has an escape code that fits. */
  predicate ValueFits(c: Coder, index: int, value: int)
    requires c.dists != [] && c.bypassBits > 0
  {
    index < 0 || ShiftedFits(c, DistOf(c, index), value + DistOf(c, index).valueOffset)
  }

  predicate ShiftedFits(c: Coder, d: Dist, shifted: int)
    requires c.bypassBits > 0
  {
    !Escaped(d, shifted) || CodeFits(c, EscapeCode(d, shifted))
  }

  lemma PlainRoundTrip(c: Coder, d: Dist, i: nat, s: Stream)
    requires ValidCoder(c) && ValidDist(c, d) && i < d.sentinel
    requires Invertible(c) && Normal(c.variant, s)
    ensures Normal(c.variant, PutSymbol(c, d, i, s))
    ensures DecodeShifted(c, d, PutSymbol(c, d, i, s)) == Some((i, s))
  {
    SymbolRoundTrip(c, d, i, s);
  }

  lemma EscapeRoundTrip(c: Coder, d: Dist, code: nat, s: Stream)
    requires ValidCoder(c) && ValidDist(c, d) && Invertible(c) && Normal(c.variant, s)
    ensures c.bypassBits > 0 && c.bypassMax > 0
    ensures var t := PutSymbol(c, d, d.sentinel, PutBypass(c, code, s));
            Normal(c.variant, t) &&
            DecodeShifted(c, d, t) == if CodeFits(c, code) then Some((Unescape(d, code), s)) else None
  {
    BypassRoundTrip(c, code, s);
    SymbolRoundTrip(c, d, d.sentinel, PutBypass(c, code, s));
  }

  lemma ShiftedRoundTrip(c: Coder, d: Dist, shifted: int, s: Stream)
    requires ValidCoder(c) && ValidDist(c, d) && Invertible(c) && Normal(c.variant, s)
    ensures Normal(c.variant, EncodeShifted(c, d, shifted, s))
    ensures DecodeShifted(c, d, EncodeShifted(c, d, shifted, s))
            == if ShiftedFits(c, d, shifted) then Some((shifted, s)) else None
  {
    if Escaped(d, shifted) {
      EscapeRoundTrip(c, d, EscapeCode(d, shifted), s);
      UnescapeInverts(d, shifted);
    } else {
      PlainRoundTrip(c, d, shifted, s);
    }
  }

  lemma OneRoundTrip(c: Coder, index: int, value: int, s: Stream)
    requires ValidCoder(c) && Invertible(c) && Normal(c.variant, s)
    ensures Normal(c.variant, EncodeOne(c, index, value, s))
    ensures DecodeOne(c, index, EncodeOne(c, index, value, s))
            == if ValueFits(c, index, value) then Some((Decoded(index, value), s)) else None
  {
    if index >= 0 {
      var d := DistOf(c, index);
      var sh := value + d.valueOffset;
      var t := EncodeShifted(c, d, sh, s);
      ShiftedRoundTrip(c, d, sh, s);
      assert t == EncodeOne(c, index, value, s);
      assert DecodeShifted(c, d, t) == if ShiftedFits(c, d, sh) then Some((sh, s)) else None;
      assert ShiftedFits(c, d, sh) == ValueFits(c, index, value);
    }
  }

  predicate AllFit(c: Coder, indices: seq<int>, values: seq<int>)
    requires c.dists != [] && c.bypassBits > 0 && |indices| == |values|
  {
    forall k :: 0 <= k < |indices| ==> ValueFits(c, indices[k], values[k])
  }

  function AllDecoded(indices: seq<int>, values: seq<int>): seq<int>
    requires |indices| == |values|
  {
    seq(|indices|, k requires 0 <= k < |indices| => Decoded(indices[k], values[k]))
  }

  lemma AllFitHead(c: Coder, indices: seq<int>, values: seq<int>)
    requires c.dists != [] && c.bypassBits > 0 && |indices| == |values| && indices != []
    ensures AllFit(c, indices, values) <==> ValueFits(c, indices[0], values[0]) && AllFit(c, indices[1..], values[1..])
  {
    var ixs, vs := indices[1..], values[1..];
    if ValueFits(c, indices[0], values[0]) && AllFit(c, ixs, vs) {
      forall k | 0 <= k < |indices| ensures ValueFits(c, indices[k], values[k]) {
        if k > 0 { assert ValueFits(c, ixs[k - 1], vs[k - 1]); }
      }
    }
    if AllFit(c, indices, values) {
      forall k | 0 <= k < |ixs| ensures ValueFits(c, ixs[k], vs[k]) {
        assert ValueFits(c, indices[k + 1], values[k + 1]);
      }
    }
  }

  /** A head that decodes, and what the rest of the sequence makes of the stream behind it. */
  lemma DecodedHead(c: Coder, indices: seq<int>, values: seq<int>, u: Stream, t: Stream, rest: Option<(seq<int>, Stream)>)
    requires ValidCoder(c) && |indices| == |values| && indices != []
    requires DecodeOne(c, indices[0], u) == Some((Decoded(indices[0], values[0]), t))
    requires DecodeSeq(c, indices[1..], t) == rest
    requires rest.Some? ==> rest.value.0 == AllDecoded(indices[1..], values[1..])
    ensures DecodeSeq(c, indices, u)
            == if rest.Some? then Some((AllDecoded(indices, values), rest.value.1)) else None
  {
    if rest.Some? {
      assert [Decoded(indices[0], values[0])] + AllDecoded(indices[1..], values[1..]) == AllDecoded(indices, values);
    }
  }

  lemma RefusedHead(c: Coder, indices: seq<int>, u: Stream)
    requires ValidCoder(c) && indices != [] && DecodeOne(c, indices[0], u) == None
    ensures DecodeSeq(c, indices, u) == None
  {
  }

  /** One value in front of a sequence that round-trips. */
  lemma SequenceStep(c: Coder, indices: seq<int>, values: seq<int>, s: Stream, t: Stream, u: Stream)
    requires ValidCoder(c) && Invertible(c) && |indices| == |values| && indices != [] && Normal(c.variant, t)
    requires DecodeSeq(c, indices[1..], t)
             == if AllFit(c, indices[1..], values[1..]) then Some((AllDecoded(indices[1..], values[1..]), s)) else None
    requires DecodeOne(c, indices[0], u)
             == if ValueFits(c, indices[0], values[0]) then Some((Decoded(indices[0], values[0]), t)) else None
    ensures DecodeSeq(c, indices, u)
            == if AllFit(c, indices, values) then Some((AllDecoded(indices, values), s)) else None
  {
    AllFitHead(c, indices, values);
    if ValueFits(c, indices[0], values[0]) {
      DecodedHead(c, indices, values, u, t, DecodeSeq(c, indices[1..], t));
    } else {
      RefusedHead(c, indices, u);
    }
  }

  /**
   * The stream round trip. From any normalised stream, decoding what was encoded returns every
   * value and leaves exactly the stream the encoder started from, if and only if every escape code
   * fits; otherwise decoding reports a format error.
   */
  lemma {:induction false} SequenceRoundTrip(c: Coder, indices: seq<int>, values: seq<int>, s: Stream)
    requires ValidCoder(c) && Invertible(c) && Normal(c.variant, s) && |indices| == |values|
    ensures Normal(c.variant, EncodeSeq(c, indices, values, s))
    ensures DecodeSeq(c, indices, EncodeSeq(c, indices, values, s))
            == if AllFit(c, indices, values) then Some((AllDecoded(indices, values), s)) else None
  {
    if indices == [] {
      assert AllDecoded(indices, values) == [];
    } else {
      var t := EncodeSeq(c, indices[1..], values[1..], s);
      SequenceRoundTrip(c, indices[1..], values[1..], s);
      OneRoundTrip(c, indices[0], values[0], t);
      var u := EncodeOne(c, indices[0], values[0], t);
      SequenceStep(c, indices, values, s, t, u);
      assert EncodeSeq(c, indices, values, s) == u;
    }
  }

  /** With bypassBits dividing 32 and values in int32 every escape code fits. */
  lemma DividingBitsFitAll(c: Coder, indices: seq<int>, values: seq<int>)
    requires ValidCoder(c) && |indices| == |values| && 32 % c.bypassBits == 0
    requires forall k :: 0 <= k < |indices| && indices[k] >= 0 ==>
               -0x8000_0000 < values[k] + DistOf(c, indices[k]).valueOffset < 0x8000_0000
    ensures AllFit(c, indices, values)
  {
    DivModIdentity(32, c.bypassBits);
    assert c.bypassBits * MaxDigits(c) == 32;
    Pow2Wide();
  }
}
