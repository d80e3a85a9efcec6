/** What the coder writes, value by value: which distribution, which slot, which digits, which bytes. */
module RansFormat {
  import opened Words
  import opened RansStep
  import opened RansReciprocal
  import opened RansCoder
  import opened RansRoundTrip
  import opened RansStream
  import opened RansTables

  // ---------------------------------------------------------------- one put

  /** What a state below the top of its symbol becomes: quotient scaled up, remainder in the slot. */
  function Scaled(start: nat, freq: nat, bits: nat, x: nat): int
    requires freq > 0
  {
    x / freq * Pow2(bits) + start + x % freq
  }

  lemma SlotIsScaled(start: nat, freq: nat, bits: nat, x: nat)
    requires freq > 0
    ensures Slot(start, freq, bits, x) == Scaled(start, freq, bits, x)
  {
    DivLower(x, freq, 0);
    ShiftLeftIs(x / freq, bits);
  }

  /** The state from which a put first has to write a unit. */
  function Top(v: Variant, freq: nat, bits: nat): nat
    requires bits <= MaxScaleBits(v)
  {
    MulMonotone(0, freq, Pow2((if v.ByteUnits? then 31 else 63) - bits));
    freq * Pow2((if v.ByteUnits? then 31 else 63) - bits)
  }

  lemma TopIs(v: Variant, freq: nat, bits: nat)
    requires bits <= MaxScaleBits(v) && freq > 0
    ensures XMax(v, freq, bits) == Top(v, freq, bits) > 0
  {
    ShiftLeftIs(freq, StateBits(v) - bits);
    MulMonotone(1, freq, Pow2(StateBits(v) - bits));
  }

  /** A put by division, in plain arithmetic: below the top the state is scaled up and nothing is written. */
  lemma PutBelowTop(v: Variant, start: nat, freq: nat, bits: nat, s: Stream)
    requires bits <= MaxScaleBits(v) && freq > 0 && s.x < Top(v, freq, bits)
    ensures XMax(v, freq, bits) > 0 && Scaled(start, freq, bits, s.x) >= 0
    ensures PutRaw(v, start, freq, bits, s) == Stream(Scaled(start, freq, bits, s.x), s.bytes)
  {
    TopIs(v, freq, bits);
    SlotIsScaled(start, freq, bits, s.x);
  }

  /** From the top on in byte units: the low byte goes out, and it starts again with the rest. */
  lemma PutWritesByte(start: nat, freq: nat, bits: nat, s: Stream)
    requires bits <= 30 && freq > 0 && s.x >= Top(ByteUnits, freq, bits)
    ensures XMax(ByteUnits, freq, bits) > 0
    ensures PutRaw(ByteUnits, start, freq, bits, s)
            == PutRaw(ByteUnits, start, freq, bits, Stream(s.x / 256, [s.x % 256] + s.bytes))
  {
    TopIs(ByteUnits, freq, bits);
  }

  /** From the top on in 32-bit units: four bytes go out, the lowest in front, and the rest is scaled up. */
  lemma PutWritesUnit(start: nat, freq: nat, bits: nat, s: Stream)
    requires bits <= 31 && freq > 0 && s.x >= Top(Rans64, freq, bits)
    ensures XMax(Rans64, freq, bits) > 0 && Scaled(start, freq, bits, s.x / 0x1_0000_0000) >= 0
    ensures PutRaw(Rans64, start, freq, bits, s)
            == Stream(Scaled(start, freq, bits, s.x / 0x1_0000_0000),
                      [s.x % 256, s.x / 256 % 256, s.x / 0x1_0000 % 256, s.x / 0x100_0000 % 256] + s.bytes)
  {
    TopIs(Rans64, freq, bits);
    SlotIsScaled(start, freq, bits, s.x / 0x1_0000_0000);
    LowWord(s.x);
  }

  /** The four low bytes of a number are those of its low word. */
  lemma LowWord(x: nat)
    ensures Le4(x % 0x1_0000_0000) == [x % 256, x / 256 % 256, x / 0x1_0000 % 256, x / 0x100_0000 % 256]
  {
    LowBytes(x, x / 0x1_0000_0000, x % 0x1_0000_0000);
    HighBytes(x, x / 0x1_0000_0000, x % 0x1_0000_0000);
  }

  lemma LowBytes(x: nat, high: nat, w: nat)
    requires x == high * 0x1_0000_0000 + w && w < 0x1_0000_0000
    ensures w % 256 == x % 256 && w / 256 % 256 == x / 256 % 256
  {
    assert x / 256 == high * 0x100_0000 + w / 256;
  }

  lemma HighBytes(x: nat, high: nat, w: nat)
    requires x == high * 0x1_0000_0000 + w && w < 0x1_0000_0000
    ensures w / 0x1_0000 % 256 == x / 0x1_0000 % 256 && w / 0x100_0000 == x / 0x100_0000 % 256
  {
    assert x / 0x1_0000 == high * 0x1_0000 + w / 0x1_0000;
    assert x / 0x100_0000 == high * 256 + w / 0x100_0000;
  }

  // ---------------------------------------------------------------- one value

  /** The distribution an index selects: its own, or the last one for indices beyond it. */
  predicate Selects(c: Coder, index: nat, k: nat) {
    k < |c.dists| && (index == k || k + 1 == |c.dists| <= index)
  }

  lemma SymbolPut(c: Coder, d: Dist, i: nat, s: Stream)
    requires ValidCoder(c) && ValidDist(c, d) && i <= d.sentinel && Invertible(c) && Normal(c.variant, s)
    ensures var freq := Cum(c, d, i + 1) - Cum(c, d, i);
            && freq > 0 && XMax(c.variant, freq, c.symbolBits) > 0
            && PutSymbol(c, d, i, s) == PutRaw(c.variant, Cum(c, d, i), freq, c.symbolBits, s)
  {
    assert ValidSymbol(c, d, i);
    PutSymIsDivision(c.variant, c.encSyms[d.encSymOffset + i], Cum(c, d, i), Cum(c, d, i + 1) - Cum(c, d, i),
                     c.symbolBits, s);
  }

  /** A value with a symbol of its own goes into that symbol's slot of the distribution its index selects. */
  lemma SymbolWritten(c: Coder, index: nat, k: nat, value: int, s: Stream)
    requires ValidCoder(c) && Invertible(c) && Normal(c.variant, s) && Selects(c, index, k)
    requires 0 <= value + c.dists[k].valueOffset < c.dists[k].sentinel
    ensures var d := c.dists[k];
            var i: nat := value + d.valueOffset;
            && ValidDist(c, d) && Cum(c, d, i) < Cum(c, d, i + 1)
            && XMax(c.variant, Cum(c, d, i + 1) - Cum(c, d, i), c.symbolBits) > 0
            && EncodeOne(c, index, value, s)
               == PutRaw(c.variant, Cum(c, d, i), Cum(c, d, i + 1) - Cum(c, d, i), c.symbolBits, s)
  {
    SymbolPut(c, c.dists[k], value + c.dists[k].valueOffset, s);
  }

  /** Bypass symbols put from the last to the first, so that the first comes out first. */
  function PutAll(c: Coder, symbols: seq<nat>, s: Stream): Stream
    requires 0 < c.bypassBits <= MaxScaleBits(c.variant)
  {
    ShiftLeftIs(1, StateBits(c.variant) - c.bypassBits);
    if symbols == [] then s else PutRaw(c.variant, symbols[0], 1, c.bypassBits, PutAll(c, symbols[1..], s))
  }

  lemma {:induction false} PutAllAppend(c: Coder, a: seq<nat>, b: seq<nat>, s: Stream)
    requires 0 < c.bypassBits <= MaxScaleBits(c.variant)
    ensures PutAll(c, a + b, s) == PutAll(c, a, PutAll(c, b, s))
  {
    if a == [] {
      assert a + b == b;
    } else {
      PutAllAppend(c, a[1..], b, s);
      assert (a + b)[0] == a[0] && (a + b)[1..] == a[1..] + b;
    }
  }

  /** n as whole runs of max and a rest. */
  function CountSymbols(n: nat, max: nat): seq<nat>
    requires max > 0
  {
    if n < max then [n] else [max] + CountSymbols(n - max, max)
  }

  lemma {:induction false} CountSymbolsAre(n: nat, max: nat)
    requires max > 0
    ensures n / max >= 0 && |CountSymbols(n, max)| == n / max + 1 && CountSymbols(n, max)[n / max] == n % max
    ensures forall i :: 0 <= i < n / max ==> CountSymbols(n, max)[i] == max
  {
    if n < max {
      DivIs(n, max, 0);
      DivModIdentity(n, max);
    } else {
      CountSymbolsAre(n - max, max);
      DivModIdentity(n - max, max);
      DivModUnique((n - max) / max + 1, (n - max) % max, max);
      assert ((n - max) / max + 1) * max == (n - max) / max * max + max;
    }
  }

  function LowDigit(code: nat, bits: nat): nat {
    DivModIdentity(code, Pow2(bits));
    code % Pow2(bits)
  }

  function HighDigits(code: nat, bits: nat): nat {
    DivLower(code, Pow2(bits), 0);
    code / Pow2(bits)
  }

  /** The n low digits of code to the base 2^bits, the lowest first. */
  function CodeDigits(code: nat, bits: nat, n: nat): seq<nat>
    decreases n
  {
    if n == 0 then [] else [LowDigit(code, bits)] + CodeDigits(HighDigits(code, bits), bits, n - 1)
  }

  lemma {:induction false} CodeDigitsAre(code: nat, bits: nat, n: nat, j: nat)
    requires j < n
    ensures |CodeDigits(code, bits, n)| == n && CodeDigits(code, bits, n)[j] == code / Pow2(bits * j) % Pow2(bits)
    decreases n
  {
    DivLower(code, Pow2(bits), 0);
    var high: nat := code / Pow2(bits);
    if j > 0 {
      CodeDigitsAre(high, bits, n - 1, j - 1);
      assert bits * j == bits + bits * (j - 1);
      Pow2Add(bits, bits * (j - 1));
      DivDiv(code, Pow2(bits), Pow2(bits * (j - 1)));
    } else {
      assert bits * j == 0 && Pow2(0) == 1;
      if n > 1 { CodeDigitsAre(high, bits, n - 1, 0); }
    }
  }

  lemma {:induction false} DigitsPut(c: Coder, code: nat, s: Stream)
    requires ValidCoder(c)
    ensures PutDigits(c, code, s) == PutAll(c, CodeDigits(code, c.bypassBits, DigitCount(code, c.bypassBits)), s)
    decreases code
  {
    if code > 0 {
      var b := c.bypassBits;
      ShiftShrinks(code, b);
      ShiftRightIs(code, b);
      LowBitsIs(code, b);
      DigitsPut(c, ShiftRight(code, b), s);
      var ds := CodeDigits(code, b, DigitCount(code, b));
      assert ds[1..] == CodeDigits(ShiftRight(code, b), b, DigitCount(code, b) - 1);
    }
  }

  lemma {:induction false} CountPut(c: Coder, n: nat, s: Stream)
    requires ValidCoder(c)
    ensures c.bypassMax > 0 && PutCount(c, n, s) == PutAll(c, CountSymbols(n, c.bypassMax), s)
    decreases n
  {
    CoderBasics(c);
    if n >= c.bypassMax {
      CountPut(c, n - c.bypassMax, s);
      assert CountSymbols(n, c.bypassMax)[1..] == CountSymbols(n - c.bypassMax, c.bypassMax);
    } else {
      assert PutAll(c, [n][1..], s) == s;
    }
  }

  /** n is how many digits code has. */
  predicate HasDigits(code: nat, bits: nat, n: nat) {
    code < Pow2(bits * n) && (n > 0 ==> Pow2(bits * (n - 1)) <= code)
  }

  lemma CountOfDigits(code: nat, bits: nat, n: nat)
    requires bits > 0 && HasDigits(code, bits, n)
    ensures DigitCount(code, bits) == n
  {
    DigitCountBound(code, bits, n);
    if n > 0 { DigitCountBound(code, bits, n - 1); }
  }

  /** An escape code of n digits: their number in runs of the largest digit, then the digits from the lowest. */
  lemma CodeWritten(c: Coder, code: nat, n: nat, s: Stream)
    requires ValidCoder(c) && HasDigits(code, c.bypassBits, n)
    ensures Pow2(c.bypassBits) > 1 && c.bypassBits > 0 && c.bypassMax > 0
    ensures PutBypass(c, code, s)
            == PutAll(c, CountSymbols(n, Pow2(c.bypassBits) - 1) + CodeDigits(code, c.bypassBits, n), s)
  {
    CoderBasics(c);
    CountOfDigits(code, c.bypassBits, n);
    DigitsPut(c, code, s);
    CountPut(c, n, PutDigits(c, code, s));
    PutAllAppend(c, CountSymbols(n, c.bypassMax), CodeDigits(code, c.bypassBits, n), s);
  }

  /** Any other value goes in as the sentinel of the selected distribution and an escape code behind it. */
  lemma EscapeWritten(c: Coder, index: nat, k: nat, value: int, code: nat, n: nat, s: Stream)
    requires ValidCoder(c) && Invertible(c) && Normal(c.variant, s) && Selects(c, index, k)
    requires var i := value + c.dists[k].valueOffset;
             if i < 0 then code == -2 * i - 1 else i >= c.dists[k].sentinel && code == 2 * (i - c.dists[k].sentinel)
    requires HasDigits(code, c.bypassBits, n)
    ensures var d := c.dists[k];
            && ValidDist(c, d) && Cum(c, d, d.sentinel) < Cum(c, d, d.sentinel + 1) && c.bypassBits > 0 && Pow2(c.bypassBits) > 1
            && XMax(c.variant, Cum(c, d, d.sentinel + 1) - Cum(c, d, d.sentinel), c.symbolBits) > 0
            && EncodeOne(c, index, value, s)
               == PutRaw(c.variant, Cum(c, d, d.sentinel), Cum(c, d, d.sentinel + 1) - Cum(c, d, d.sentinel), c.symbolBits,
                         PutAll(c, CountSymbols(n, Pow2(c.bypassBits) - 1) + CodeDigits(code, c.bypassBits, n), s))
  {
    var d := c.dists[k];
    CodeWritten(c, code, n, s);
    BypassRoundTrip(c, code, s);
    SymbolPut(c, d, d.sentinel, PutBypass(c, code, s));
    EscapeOf(c, index, k, value, code, s);
  }

  lemma EscapeOf(c: Coder, index: nat, k: nat, value: int, code: nat, s: Stream)
    requires ValidCoder(c) && Selects(c, index, k)
    requires var i := value + c.dists[k].valueOffset;
             if i < 0 then code == -2 * i - 1 else i >= c.dists[k].sentinel && code == 2 * (i - c.dists[k].sentinel)
    ensures c.bypassBits > 0 && c.bypassMax > 0 && ValidDist(c, c.dists[k])
    ensures EncodeOne(c, index, value, s) == PutSymbol(c, c.dists[k], c.dists[k].sentinel, PutBypass(c, code, s))
  {
    CoderBasics(c);
  }

  /** In terms of the tables the coder was built from: symbol i starts where the frequencies before it end. */
  lemma TableSymbolWritten(c: Coder, lengths: seq<int>, offsets: seq<int>, table: seq<int>, k: nat, value: int, s: Stream)
    requires ValidCoder(c) && Invertible(c) && Normal(c.variant, s)
    requires LengthsOk(lengths, |table|) && |offsets| == |lengths| && Represents(c, lengths, offsets, table)
    requires k < |lengths| && 0 <= value + offsets[k] < lengths[k] - 1
    ensures var from, i: nat := SumFrom(lengths, 0, k), value + offsets[k];
            && 0 <= from && from + i < |table| && 0 <= SumFrom(table, from, i) && 0 < table[from + i]
            && XMax(c.variant, table[from + i], c.symbolBits) > 0
            && EncodeOne(c, k, value, s) == PutRaw(c.variant, SumFrom(table, from, i), table[from + i], c.symbolBits, s)
  {
    assert RepresentsDist(c, lengths, offsets, table, k);
    OffsetFits(lengths, |table|, k);
    SumsAscend(lengths, 0, k);
    var d, i: nat := c.dists[k], value + offsets[k];
    assert Cum(c, d, i) == SumFrom(table, Offset(lengths, k), i) && Cum(c, d, i + 1) == SumFrom(table, Offset(lengths, k), i + 1);
    SymbolWritten(c, k, k, value, s);
  }

  // ---------------------------------------------------------------- which tables are accepted

  predicate AllPositive(table: seq<int>, from: int, to: int)
    requires 0 <= from <= to <= |table|
  {
    forall i :: from <= i < to ==> table[i] > 0
  }

  lemma {:induction false} FreqsMean(table: seq<int>, from: nat, n: nat, bits: nat)
    requires from + n <= |table| && bits <= 30
    ensures DistFreqsOk(table, from, n, bits) <==> AllPositive(table, from, from + n) && SumFrom(table, from, n) <= Pow2(bits)
    ensures AllPositive(table, from, from + n) ==> SumFrom(table, from, n) >= n
  {
    if n > 0 {
      var m := n - 1;
      FreqsMean(table, from, m, bits);
      FreqMeans(table[from + m], SumFrom(table, from, m), bits);
      assert AllPositive(table, from, from + n) <==> AllPositive(table, from, from + m) && table[from + m] > 0;
      assert DistFreqsOk(table, from, n, bits)
             <==> DistFreqsOk(table, from, m, bits) && FreqOk(table[from + m], SumFrom(table, from, m), bits);
    }
  }

  lemma FreqMeans(freq: int, start: int, bits: nat)
    requires bits <= 30
    ensures FreqOk(freq, start, bits) <==> 0 < freq && 0 <= start && start + freq <= Pow2(bits)
  {
    Pow2Wide();
    Pow2Monotone(bits, 30);
  }

  /** The frequencies of distribution k are positive and sum to no more than the scale. */
  predicate DistFits(lengths: seq<int>, table: seq<int>, bits: nat, k: nat)
    requires k < |lengths|
  {
    var from := SumFrom(lengths, 0, k);
    0 <= from <= from + lengths[k] <= |table|
    && AllPositive(table, from, from + lengths[k]) && SumFrom(table, from, lengths[k]) <= Pow2(bits)
  }

  lemma DistAcceptedWhen(lengths: seq<int>, table: seq<int>, bits: nat, k: nat)
    requires LengthsOk(lengths, |table|) && bits <= 30 && k < |lengths|
    ensures KthFreqsOk(lengths, table, bits, k) <==> DistFits(lengths, table, bits, k)
  {
    OffsetFits(lengths, |table|, k);
    SumsAscend(lengths, 0, k);
    FreqsMean(table, Offset(lengths, k), lengths[k], bits);
  }

  /**
   * Up to 30 bits the frequency test passes exactly when all frequencies are positive and those of each
   * distribution sum to at most 2^bits; with 31 it passes for none.
   */
  lemma FrequenciesAcceptedWhen(lengths: seq<int>, table: seq<int>, bits: nat)
    requires LengthsOk(lengths, |table|) && lengths != [] && bits <= 31
    ensures FreqsOk(lengths, table, bits) <==> bits <= 30 && forall k: nat :: k < |lengths| ==> DistFits(lengths, table, bits, k)
  {
    if bits == 31 {
      ThirtyOneBitsNeverAccepted(lengths, table);
    } else {
      forall k: nat | k < |lengths| ensures KthFreqsOk(lengths, table, bits, k) <==> DistFits(lengths, table, bits, k) {
        DistAcceptedWhen(lengths, table, bits, k);
      }
    }
  }

  // ---------------------------------------------------------------- one value read

  lemma SlotFound(c: Coder, d: Dist, s: Stream, i: nat)
    requires ValidCoder(c) && ValidDist(c, d) && i <= d.sentinel
    requires Cum(c, d, i) <= LowBits(s.x, c.symbolBits) < Cum(c, d, i + 1)
    ensures SymbolAt(c, d, s) == i
  {
    var r := SymbolAt(c, d, s);
    SymbolAtBounds(c, d, s);
    if r < i {
      CumMonotone(c, d, r + 1, i);
      assert false;
    } else if i < r {
      BelowSymbol(c, d, s, i + 1);
      assert false;
    }
  }

  /** From any state whatever: the slot in the state's low bits decides the value, and the state moves on by it. */
  lemma SymbolRead(c: Coder, index: nat, k: nat, i: nat, s: Stream)
    requires ValidCoder(c) && Selects(c, index, k) && i < c.dists[k].sentinel
    requires ValidDist(c, c.dists[k]) && Cum(c, c.dists[k], i) <= s.x % Pow2(c.symbolBits) < Cum(c, c.dists[k], i + 1)
    ensures var low, high := Cum(c, c.dists[k], i), Cum(c, c.dists[k], i + 1);
            var x := (high - low) * (s.x / Pow2(c.symbolBits)) + s.x % Pow2(c.symbolBits) - low;
            && x >= 0
            && DecodeOne(c, index, s) == match Refill(c.variant, Stream(x, s.bytes))
                                         case None => None
                                         case Some(t) => Some((i - c.dists[k].valueOffset, t))
  {
    LowBitsIs(s.x, c.symbolBits);
    ShiftRightIs(s.x, c.symbolBits);
    DivLower(s.x, Pow2(c.symbolBits), 0);
    MulMonotone(0, Cum(c, c.dists[k], i + 1) - Cum(c, c.dists[k], i), s.x / Pow2(c.symbolBits));
    SlotFound(c, c.dists[k], s, i);
  }

  /** A slot beyond the last symbol belongs to nobody and is refused. */
  lemma NoSymbol(c: Coder, index: nat, k: nat, s: Stream)
    requires ValidCoder(c) && Selects(c, index, k)
    requires ValidDist(c, c.dists[k]) && Cum(c, c.dists[k], c.dists[k].sentinel + 1) <= s.x % Pow2(c.symbolBits)
    ensures DecodeOne(c, index, s) == None
  {
    var d := c.dists[k];
    LowBitsIs(s.x, c.symbolBits);
    SymbolAtBounds(c, d, s);
    if SymbolAt(c, d, s) <= d.sentinel {
      CumMonotone(c, d, SymbolAt(c, d, s) + 1, d.sentinel + 1);
    }
  }

  // ---------------------------------------------------------------- whole streams

  /** The value has a symbol, or a code short enough for the 32 bits of digits the decoder allows. */
  predicate Representable(c: Coder, index: int, value: int)
    requires c.dists != [] && c.bypassBits > 0
  {
    index >= 0 ==>
      var d := c.dists[if index < |c.dists| then index else |c.dists| - 1];
      var i := value + d.valueOffset;
      DivLower(32, c.bypassBits, 0);
      0 <= i < d.sentinel || (if i < 0 then -2 * i - 1 else 2 * (i - d.sentinel)) < Pow2(c.bypassBits * (32 / c.bypassBits))
  }

  /** When a stream decodes, in terms of the values: if and only if each of them can be represented. */
  lemma DecodesExactlyWhen(c: Coder, indices: seq<int>, values: seq<int>)
    requires ValidCoder(c) && Invertible(c) && |indices| == |values|
    ensures DecodeBytes(c, indices, EncodeBytes(c, indices, values)).Some?
            <==> forall k :: 0 <= k < |indices| ==> Representable(c, indices[k], values[k])
    ensures DecodeBytes(c, indices, EncodeBytes(c, indices, values)).Some? ==>
              var back := DecodeBytes(c, indices, EncodeBytes(c, indices, values)).value;
              |back| == |values| && forall k :: 0 <= k < |values| ==> back[k] == if indices[k] < 0 then 0 else values[k]
  {
    BytesRoundTrip(c, indices, values);
    forall k | 0 <= k < |indices| ensures Representable(c, indices[k], values[k]) <==> ValueFits(c, indices[k], values[k]) {
    }
  }

  /** The first value of a sequence is the one in front: the slot in the state's low bits is that of its symbol. */
  lemma FirstInFront(c: Coder, indices: seq<int>, values: seq<int>, k: nat, s: Stream)
    requires ValidCoder(c) && Invertible(c) && Normal(c.variant, s) && |indices| == |values| && indices != []
    requires indices[0] >= 0 && Selects(c, indices[0], k)
    requires 0 <= values[0] + c.dists[k].valueOffset < c.dists[k].sentinel
    ensures ValidDist(c, c.dists[k])
    ensures var d := c.dists[k];
            var i: nat := values[0] + d.valueOffset;
            Cum(c, d, i) <= EncodeSeq(c, indices, values, s).x % Pow2(c.symbolBits) < Cum(c, d, i + 1)
  {
    hide EncodeOne, EncodeSeq, DecodeSeq, AllFit, AllDecoded, ValidCoder, ValidDist, Invertible, Normal;
    var t := EncodeSeq(c, indices[1..], values[1..], s);
    SequenceRoundTrip(c, indices[1..], values[1..], s);
    SymbolInSlot(c, indices[0], k, values[0], t);
    HeadEncoded(c, indices, values, s);
  }

  lemma HeadEncoded(c: Coder, indices: seq<int>, values: seq<int>, s: Stream)
    requires ValidCoder(c) && |indices| == |values| && indices != []
    ensures EncodeSeq(c, indices, values, s) == EncodeOne(c, indices[0], values[0], EncodeSeq(c, indices[1..], values[1..], s))
  {
  }

  /** A put state lies in the slot of its symbol. */
  lemma SlotOfPut(v: Variant, start: nat, freq: nat, bits: nat, t: Stream)
    requires bits <= MaxScaleBits(v) && Divides(v, bits) && freq > 0 && start + freq <= Pow2(bits) && Normal(v, t)
    ensures XMax(v, freq, bits) > 0 && start <= PutRaw(v, start, freq, bits, t).x % Pow2(bits) < start + freq
  {
    AdvanceUndoesPut(v, start, freq, bits, t);
    LowBitsIs(PutRaw(v, start, freq, bits, t).x, bits);
    hide PutRaw, Advance, LowBits, ShiftRight;
  }

  lemma SlotInScale(c: Coder, d: Dist, i: nat)
    requires ValidDist(c, d) && i <= d.sentinel
    ensures Cum(c, d, i) < Cum(c, d, i + 1) <= Pow2(c.symbolBits)
  {
    assert ValidSymbol(c, d, i);
  }

  lemma SymbolInSlot(c: Coder, index: nat, k: nat, value: int, t: Stream)
    requires ValidCoder(c) && Invertible(c) && Normal(c.variant, t) && Selects(c, index, k)
    requires 0 <= value + c.dists[k].valueOffset < c.dists[k].sentinel
    ensures ValidDist(c, c.dists[k])
    ensures var d := c.dists[k];
            var i: nat := value + d.valueOffset;
            Cum(c, d, i) <= EncodeOne(c, index, value, t).x % Pow2(c.symbolBits) < Cum(c, d, i + 1)
  {
    var d := c.dists[k];
    var i: nat := value + d.valueOffset;
    SymbolWritten(c, index, k, value, t);
    SlotInScale(c, d, i);
    SlotOfPut(c.variant, Cum(c, d, i), Cum(c, d, i + 1) - Cum(c, d, i), c.symbolBits, t);
    hide EncodeOne, PutRaw, ValidDist, XMax;
  }

  /** The flushed stream: the state in four or eight bytes, the lowest first, and what was written before. */
  lemma FlushWritten(v: Variant, s: Stream, i: nat)
    requires InRange(v, s) && i < if v.ByteUnits? then 4 else 8
    ensures var n := if v.ByteUnits? then 4 else 8;
            |Flushed(v, s)| == n + |s.bytes| && Flushed(v, s)[n..] == s.bytes
            && Flushed(v, s)[i] == s.x / Pow2(8 * i) % 256
  {
    var low := Le4(s.x % 0x1_0000_0000);
    LowWordBytes(s.x);
    if v.Rans64? {
      HighWordBytes(s.x);
      var high := Le4(s.x / 0x1_0000_0000 % 0x1_0000_0000);
      assert Flushed(v, s)[i] == if i < 4 then low[i] else high[i - 4];
    } else {
      assert Flushed(v, s)[i] == low[i];
    }
  }

  lemma LowWordBytes(x: nat)
    ensures forall i: nat :: i < 4 ==> Le4(x % 0x1_0000_0000)[i] == x / Pow2(8 * i) % 256
  {
    LowWord(x);
    BytePowers();
    hide Le4, Pow2;
  }

  lemma HighWordBytes(x: nat)
    ensures forall i: nat :: 4 <= i < 8 ==> Le4(x / 0x1_0000_0000 % 0x1_0000_0000)[i - 4] == x / Pow2(8 * i) % 256
  {
    HighWord(x);
    BytePowers();
    hide Le4, Pow2;
  }

  lemma BytePowers()
    ensures Pow2(0) == 1 && Pow2(8) == 0x100 && Pow2(16) == 0x1_0000 && Pow2(24) == 0x100_0000
    ensures Pow2(32) == 0x1_0000_0000 && Pow2(40) == 0x100_0000_0000 && Pow2(48) == 0x1_0000_0000_0000
    ensures Pow2(56) == 0x100_0000_0000_0000
  {
    Pow2Small();
    Pow2Wide();
    Pow2Add(32, 8);
    Pow2Add(32, 16);
    Pow2Add(32, 24);
  }

  lemma HighWord(x: nat)
    ensures Le4(x / 0x1_0000_0000 % 0x1_0000_0000)
            == [x / 0x1_0000_0000 % 256, x / 0x100_0000_0000 % 256, x / 0x1_0000_0000_0000 % 256, x / 0x100_0000_0000_0000 % 256]
  {
    var h := x / 0x1_0000_0000;
    LowWord(h);
    DivDiv(x, 0x1_0000_0000, 0x100);
    DivDiv(x, 0x1_0000_0000, 0x1_0000);
    DivDiv(x, 0x1_0000_0000, 0x100_0000);
  }

  /** Which byte strings open: whole units, enough of them, and a state not below 2^23 or 2^31. */
  lemma OpensExactly(v: Variant, data: seq<Byte>)
    ensures Opened(v, data).Some? <==>
            if v.ByteUnits? then |data| >= 4 && data[3] as int * 0x100_0000 + data[2] as int * 0x1_0000 >= 0x80_0000
            else |data| >= 8 && |data| % 4 == 0
                 && (data[3] as int >= 128 || data[4] as int + data[5] as int + data[6] as int + data[7] as int > 0)
  {
  }

  // ---------------------------------------------------------------- an example

  /** Two distributions in byte units; only the second gives value 1 a symbol of its own. */
  ghost predicate TwoDists(c: Coder) {
    && ValidCoder(c) && c.variant.ByteUnits? && c.symbolBits == 16 && c.bypassBits == 2
    && SumFrom([2, 3], 0, 2) == 5 && Represents(c, [2, 3], [0, 0], TABLE)
  }

  lemma ExamplePut()
    ensures XMax(ByteUnits, 65534, 16) > 0
    ensures PutRaw(ByteUnits, 1, 65534, 16, Stream(0x80_0000, [])) == Stream(0x80_0101, [])
  {
    Pow2Small();
    PutBelowTop(ByteUnits, 1, 65534, 16, Stream(0x80_0000, []));
    assert 0x80_0000 / 65534 == 128 && 0x80_0000 % 65534 == 256;
  }

  lemma ExampleSums(table: seq<int>)
    requires table == TABLE
    ensures SumFrom([2, 3], 0, 0) == 0 && SumFrom([2, 3], 0, 1) == 2 && LengthsOk([2, 3], 5)
    ensures SumFrom(table, 2, 0) == 0 && SumFrom(table, 2, 1) == 1
  {
    assert SumFrom([2, 3], 0, 2) == SumFrom([2, 3], 0, 1) + 3;
  }

  const TABLE: seq<int> := [65535, 1, 1, 65534, 1]

  lemma ExampleValue(c: Coder, s: Stream)
    requires TwoDists(c) && s == Stream(0x80_0000, [])
    ensures EncodeOne(c, 1, 1, s) == Stream(0x80_0101, [])
  {
    ExampleSums(TABLE);
    TableSymbolWritten(c, [2, 3], [0, 0], TABLE, 1, 1, s);
    ExamplePut();
  }

  /** Value 1 under index 1 is symbol 1 of the second distribution: four bytes in all. */
  lemma TwoDistsBytes(c: Coder)
    requires TwoDists(c)
    ensures EncodeBytes(c, [1], [1]) == [0x01, 0x01, 0x80, 0x00]
  {
    ExampleValue(c, Stream(0x80_0000, []));
    OneValue(c, 1, 1, Stream(0x80_0000, []));
    ExampleFlush(Stream(0x80_0101, []));
  }

  lemma ExampleFlush(s: Stream)
    requires s == Stream(0x80_0101, [])
    ensures Flushed(ByteUnits, s) == [0x01, 0x01, 0x80, 0x00]
  {
  }

  lemma OneValue(c: Coder, index: int, value: int, s: Stream)
    requires ValidCoder(c)
    ensures EncodeSeq(c, [index], [value], s) == EncodeOne(c, index, value, s)
  {
    assert EncodeSeq(c, [index][1..], [value][1..], s) == s;
  }
}
