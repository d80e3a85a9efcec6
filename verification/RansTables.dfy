/** RansCoder::create: checking the distribution tables and building the coder from them. */
module RansTables {
  import opened Words
  import opened Statuses
  import opened RansStep
  import opened RansReciprocal
  import opened RansCoder

  /** Sum of n entries from position from on. */
  function SumFrom(s: seq<int>, from: nat, n: nat): int
    requires from + n <= |s|
  {
    if n == 0 then 0 else SumFrom(s, from, n - 1) + s[from + n - 1]
  }

  /** static_cast<int32_t> of a 32-bit word. */
  function ToInt32(n: nat): int {
    if n < 0x8000_0000 then n else n - 0x1_0000_0000
  }

  predicate FreqOk(freq: int, start: int, bits: nat) {
    0 < freq && 0 <= start <= Pow2(bits) && freq <= ToInt32(Pow2(bits) - start)
  }

  /** The lengths are at least two and account for the whole table. */
  predicate LengthsOk(lengths: seq<int>, tableSize: nat) {
    (forall k :: 0 <= k < |lengths| ==> lengths[k] > 1) && SumFrom(lengths, 0, |lengths|) == tableSize
  }

  predicate DistFreqsOk(table: seq<int>, from: nat, n: nat, bits: nat)
    requires from + n <= |table|
  {
    forall i: nat :: i < n ==> FreqOk(table[from + i], SumFrom(table, from, i), bits)
  }

  lemma {:induction false} SumsAscend(lengths: seq<int>, j: nat, k: nat)
    requires j <= k <= |lengths| && forall i :: j <= i < k ==> lengths[i] > 1
    ensures SumFrom(lengths, 0, j) + 2 * (k - j) <= SumFrom(lengths, 0, k)
    decreases k
  {
    if j < k {
      SumsAscend(lengths, j, k - 1);
    }
  }

  /** Where distribution k starts in the table; the sum is never negative for acceptable lengths. */
  function Offset(lengths: seq<int>, k: nat): nat
    requires k <= |lengths|
  {
    var sum := SumFrom(lengths, 0, k);
    if sum < 0 then 0 else sum
  }

  lemma OffsetNext(lengths: seq<int>, k: nat)
    requires k < |lengths| && forall i :: 0 <= i <= k ==> lengths[i] > 1
    ensures Offset(lengths, k) == SumFrom(lengths, 0, k)
    ensures Offset(lengths, k + 1) == Offset(lengths, k) + lengths[k] == SumFrom(lengths, 0, k + 1)
  {
    SumsAscend(lengths, 0, k);
  }

  lemma OffsetFits(lengths: seq<int>, tableSize: nat, k: nat)
    requires LengthsOk(lengths, tableSize) && k < |lengths|
    ensures Offset(lengths, k) + lengths[k] == Offset(lengths, k + 1) <= tableSize
  {
    OffsetNext(lengths, k);
    SumsAscend(lengths, k + 1, |lengths|);
  }

  predicate FreqsOk(lengths: seq<int>, table: seq<int>, bits: nat)
    requires LengthsOk(lengths, |table|)
  {
    forall k: nat :: k < |lengths| ==>
      KthFreqsOk(lengths, table, bits, k)
  }

  predicate KthFreqsOk(lengths: seq<int>, table: seq<int>, bits: nat, k: nat)
    requires LengthsOk(lengths, |table|) && k < |lengths|
  {
    OffsetFits(lengths, |table|, k);
    DistFreqsOk(table, Offset(lengths, k), lengths[k], bits)
  }

  predicate TablesOk(lengths: seq<int>, table: seq<int>, bits: nat) {
    LengthsOk(lengths, |table|) && FreqsOk(lengths, table, bits)
  }

  predicate BitsOk(v: Variant, bits: int) {
    2 <= bits <= MaxScaleBits(v)
  }

  /** The coder lists the distributions with the frequencies and offsets it was given. */
  ghost predicate Represents(c: Coder, lengths: seq<int>, offsets: seq<int>, table: seq<int>)
    requires LengthsOk(lengths, |table|) && |offsets| == |lengths|
  {
    && |c.dists| == |lengths| && |c.encSyms| == |table| && |c.cdf| == |table| + |lengths|
    && forall k: nat :: k < |lengths| ==> RepresentsDist(c, lengths, offsets, table, k)
  }

  ghost predicate RepresentsDist(c: Coder, lengths: seq<int>, offsets: seq<int>, table: seq<int>, k: nat)
    requires LengthsOk(lengths, |table|) && |offsets| == |lengths|
    requires k < |lengths| == |c.dists| && |c.encSyms| == |table| && |c.cdf| == |table| + |lengths|
  {
    OffsetFits(lengths, |table|, k);
    var d := c.dists[k];
    && d == Dist(offsets[k], lengths[k] - 1, Offset(lengths, k), Offset(lengths, k) + k)
    && d.decCdfOffset + d.sentinel + 1 < |c.cdf|
    && (forall i: nat :: i <= lengths[k] ==> Cum(c, d, i) == SumFrom(table, Offset(lengths, k), i))
    && DistSyms(c.variant, c.symbolBits, table, Offset(lengths, k),
                c.encSyms[Offset(lengths, k)..Offset(lengths, k) + lengths[k]])
  }

  // ---------------------------------------------------------------- the three loops

  method BuildDists(lengths: seq<int>, offsets: seq<int>, tableSize: nat) returns (ok: bool, dists: seq<Dist>)
    requires |offsets| == |lengths|
    ensures ok <==> LengthsOk(lengths, tableSize)
    ensures ok ==> |dists| == |lengths| && forall k: nat :: k < |lengths| ==>
                     dists[k] == Dist(offsets[k], lengths[k] - 1, Offset(lengths, k), Offset(lengths, k) + k)
  {
    var cursor: nat := 0;
    dists := [];
    var i: nat := 0;
    while i < |lengths|
      invariant i <= |lengths| && |dists| == i
      invariant forall k :: 0 <= k < i ==> lengths[k] > 1
      invariant cursor == Offset(lengths, i) <= tableSize
      invariant forall k: nat :: k < i ==>
        dists[k] == Dist(offsets[k], lengths[k] - 1, Offset(lengths, k), Offset(lengths, k) + k)
    {
      var length := lengths[i];
      if length <= 1 || tableSize - cursor < length {
        if LengthsOk(lengths, tableSize) {
          OffsetFits(lengths, tableSize, i);
          assert false;
        }
        return false, [];
      }
      OffsetNext(lengths, i);
      dists := dists + [Dist(offsets[i], length - 1, cursor, cursor + i)];
      cursor := cursor + length;
      i := i + 1;
    }
    SumsAscend(lengths, 0, |lengths|);
    ok := cursor == tableSize;
  }

  /** sym is the entry of the i-th symbol of the distribution that starts at from. */
  ghost predicate SymAt(v: Variant, sym: EncSym, table: seq<int>, from: nat, i: nat, bits: nat)
    requires from + i < |table|
  {
    var start, freq := SumFrom(table, from, i), table[from + i];
    start >= 0 && freq > 0 && SymFor(v, sym, start, freq, bits)
  }

  ghost predicate DistSyms(v: Variant, bits: nat, table: seq<int>, from: nat, syms: seq<EncSym>)
    requires from + |syms| <= |table|
  {
    forall i: nat :: i < |syms| ==> SymAt(v, syms[i], table, from, i, bits)
  }

  /** One pass of the inner loop over the symbols of a distribution. */
  method BuildDistSyms(v: Variant, bits: nat, table: seq<int>, from: nat, n: nat)
      returns (ok: bool, syms: seq<EncSym>)
    requires BitsOk(v, bits) && from + n <= |table|
    ensures ok <==> DistFreqsOk(table, from, n, bits)
    ensures ok ==> |syms| == n && DistSyms(v, bits, table, from, syms)
  {
    syms := [];
    var start: nat := 0;
    var i: nat := 0;
    while i < n
      invariant i <= n && |syms| == i && start == SumFrom(table, from, i) && start <= Pow2(bits)
      invariant DistFreqsOk(table, from, i, bits)
      invariant DistSyms(v, bits, table, from, syms)
    {
      var freq := table[from + i];
      if !(freq > 0 && freq <= ToInt32(Pow2(bits) - start)) {
        assert !FreqOk(table[from + i], SumFrom(table, from, i), bits);
        return false, [];
      }
      var sym;
      if v.ByteUnits? {
        sym := InitSymByte(start, freq, bits);
      } else {
        sym := InitSym64(start, freq, bits);
      }
      syms := syms + [sym];
      start := start + freq;
      i := i + 1;
    }
    ok := true;
  }

  lemma SymsExtend(v: Variant, bits: nat, lengths: seq<int>, table: seq<int>, syms: seq<EncSym>,
                   more: seq<EncSym>, d: nat, k: nat)
    requires LengthsOk(lengths, |table|) && k <= d < |lengths| && |syms| == Offset(lengths, d)
    requires |more| == lengths[d] && Offset(lengths, d) + lengths[d] <= |table|
    requires DistSyms(v, bits, table, Offset(lengths, d), more)
    requires k < d ==> SymsBuilt(v, bits, lengths, table, syms, k)
    ensures SymsBuilt(v, bits, lengths, table, syms + more, k)
  {
    OffsetFits(lengths, |table|, k);
    var from, to := Offset(lengths, k), Offset(lengths, k) + lengths[k];
    if k < d {
      assert (syms + more)[from..to] == syms[from..to];
    } else {
      SecondHalf(syms, more);
    }
  }

  lemma SecondHalf(syms: seq<EncSym>, more: seq<EncSym>)
    ensures (syms + more)[|syms|..|syms| + |more|] == more
  {
  }

  method BuildSyms(v: Variant, bits: nat, lengths: seq<int>, table: seq<int>)
      returns (ok: bool, syms: seq<EncSym>)
    requires BitsOk(v, bits) && LengthsOk(lengths, |table|)
    ensures ok <==> FreqsOk(lengths, table, bits)
    ensures ok ==> |syms| == |table| && forall k: nat :: k < |lengths| ==> SymsBuilt(v, bits, lengths, table, syms, k)
  {
    syms := [];
    var d: nat := 0;
    while d < |lengths|
      invariant d <= |lengths| && |syms| == Offset(lengths, d) <= |table|
      invariant forall k: nat :: k < d ==> KthFreqsOk(lengths, table, bits, k)
      invariant forall k: nat :: k < d ==> SymsBuilt(v, bits, lengths, table, syms, k)
    {
      OffsetFits(lengths, |table|, d);
      var more;
      ok, more := BuildDistSyms(v, bits, table, Offset(lengths, d), lengths[d]);
      if !ok {
        assert !KthFreqsOk(lengths, table, bits, d);
        return false, [];
      }
      forall k: nat | k <= d ensures SymsBuilt(v, bits, lengths, table, syms + more, k) {
        SymsExtend(v, bits, lengths, table, syms, more, d, k);
      }
      syms := syms + more;
      d := d + 1;
    }
    ok := true;
  }

  ghost predicate SymsBuilt(v: Variant, bits: nat, lengths: seq<int>, table: seq<int>, syms: seq<EncSym>, k: nat)
    requires LengthsOk(lengths, |table|) && k < |lengths|
  {
    OffsetFits(lengths, |table|, k);
    var from := Offset(lengths, k);
    from + lengths[k] <= |syms| && DistSyms(v, bits, table, from, syms[from..from + lengths[k]])
  }

  ghost predicate CdfBuilt(lengths: seq<int>, table: seq<int>, cdf: seq<nat>, k: nat)
    requires LengthsOk(lengths, |table|) && k < |lengths|
  {
    OffsetFits(lengths, |table|, k);
    var from := Offset(lengths, k);
    from + k + lengths[k] < |cdf| &&
    forall i: nat :: i <= lengths[k] ==> cdf[from + k + i] == SumFrom(table, from, i)
  }

  ghost predicate CumulativeFrom(table: seq<int>, from: nat, cdf: seq<nat>)
    requires from + |cdf| <= |table| + 1
  {
    forall i: nat :: i < |cdf| ==> cdf[i] == SumFrom(table, from, i)
  }

  method BuildDistCdf(bits: nat, table: seq<int>, from: nat, n: nat) returns (ok: bool, cdf: seq<nat>)
    requires from + n <= |table|
    ensures ok <==> DistFreqsOk(table, from, n, bits)
    ensures ok ==> |cdf| == n + 1 && CumulativeFrom(table, from, cdf)
  {
    cdf := [];
    var start: nat := 0;
    var i: nat := 0;
    while i < n
      invariant i <= n && |cdf| == i && start == SumFrom(table, from, i) && start <= Pow2(bits)
      invariant DistFreqsOk(table, from, i, bits) && CumulativeFrom(table, from, cdf)
    {
      var freq := table[from + i];
      if !(freq > 0 && freq <= ToInt32(Pow2(bits) - start)) {
        assert !FreqOk(table[from + i], SumFrom(table, from, i), bits);
        return false, [];
      }
      cdf := cdf + [start];
      start := start + freq;
      i := i + 1;
    }
    cdf := cdf + [start];
    ok := true;
  }

  lemma CdfExtend(lengths: seq<int>, table: seq<int>, cdf: seq<nat>, more: seq<nat>, d: nat, k: nat)
    requires LengthsOk(lengths, |table|) && k <= d < |lengths| && |cdf| == Offset(lengths, d) + d
    requires |more| == lengths[d] + 1 && Offset(lengths, d) + lengths[d] <= |table|
    requires CumulativeFrom(table, Offset(lengths, d), more)
    requires k < d ==> CdfBuilt(lengths, table, cdf, k)
    ensures CdfBuilt(lengths, table, cdf + more, k)
  {
    OffsetFits(lengths, |table|, k);
    if k < d { assert CdfBuilt(lengths, table, cdf, k); }
  }

  method BuildCdf(bits: nat, lengths: seq<int>, table: seq<int>) returns (ok: bool, cdf: seq<nat>)
    requires LengthsOk(lengths, |table|)
    ensures ok <==> FreqsOk(lengths, table, bits)
    ensures ok ==> |cdf| == |table| + |lengths| && forall k: nat :: k < |lengths| ==> CdfBuilt(lengths, table, cdf, k)
  {
    cdf := [];
    var d: nat := 0;
    while d < |lengths|
      invariant d <= |lengths| && |cdf| == Offset(lengths, d) + d
      invariant forall k: nat :: k < d ==> KthFreqsOk(lengths, table, bits, k)
      invariant forall k: nat :: k < d ==> CdfBuilt(lengths, table, cdf, k)
    {
      OffsetFits(lengths, |table|, d);
      var more;
      ok, more := BuildDistCdf(bits, table, Offset(lengths, d), lengths[d]);
      if !ok {
        assert !KthFreqsOk(lengths, table, bits, d);
        return false, [];
      }
      forall k: nat | k <= d ensures CdfBuilt(lengths, table, cdf + more, k) {
        CdfExtend(lengths, table, cdf, more, d, k);
      }
      cdf := cdf + more;
      d := d + 1;
    }
    ok := true;
  }

  // ---------------------------------------------------------------- create

  lemma BuiltIsValid(c: Coder, lengths: seq<int>, offsets: seq<int>, table: seq<int>)
    requires TablesOk(lengths, table, c.symbolBits) && |offsets| == |lengths| && lengths != []
    requires |lengths| < 0x8000_0000 && forall k :: 0 <= k < |lengths| ==> lengths[k] < 0x8000_0000
    requires BitsOk(c.variant, c.symbolBits) && BitsOk(c.variant, c.bypassBits)
    requires c.bypassMax == Pow2(c.bypassBits) - 1
    requires Represents(c, lengths, offsets, table)
    ensures ValidCoder(c)
  {
    forall k | 0 <= k < |c.dists| ensures ValidDist(c, c.dists[k]) {
      assert RepresentsDist(c, lengths, offsets, table, k);
      OffsetFits(lengths, |table|, k);
      var d := c.dists[k];
      var from := Offset(lengths, k);
      assert KthFreqsOk(lengths, table, c.symbolBits, k);
      var syms := c.encSyms[from..from + lengths[k]];
      forall i: nat | i <= d.sentinel ensures ValidSymbol(c, d, i) {
        assert SymAt(c.variant, syms[i], table, from, i, c.symbolBits) && syms[i] == c.encSyms[from + i];
        assert Cum(c, d, i + 1) == SumFrom(table, from, i + 1);
        assert Cum(c, d, i + 1) - Cum(c, d, i) == table[from + i];
        assert FreqOk(table[from + i], SumFrom(table, from, i), c.symbolBits);
      }
      assert Cum(c, d, 0) == 0;
    }
  }

  /**
   * Creation accepts exactly the tables whose lengths are at least two and cover the table, and
   * whose frequencies are positive and sum to at most 2^symbolBits in every distribution. An
   * accepted coder is valid and represents the tables it was built from.
   */
  method Create(v: Variant, lengths: seq<int>, offsets: seq<int>, table: seq<int>,
                symbolBits: int, bypassBits: int) returns (r: Result<Coder>)
    requires |lengths| < 0x8000_0000
    requires forall k :: 0 <= k < |lengths| ==> IsInt32(lengths[k])
    ensures r == Failure(Invalid) <==>
            || lengths == [] || |lengths| != |offsets| || table == []
            || !(2 <= symbolBits <= if v.ByteUnits? then 30 else 31)
            || !(2 <= bypassBits <= if v.ByteUnits? then 30 else 31)
    ensures r != Failure(Invalid) ==> (r == Failure(Format) <==> !TablesOk(lengths, table, symbolBits))
    ensures r.Failure? ==> r.status in {Invalid, Format}
    ensures r.Success? ==>
              ValidCoder(r.value) && Represents(r.value, lengths, offsets, table)
              && r.value.variant == v && r.value.symbolBits == symbolBits && r.value.bypassBits == bypassBits
  {
    if lengths == [] || |lengths| != |offsets| || table == [] {
      return Failure(Invalid);
    }
    var maxScale := MaxScaleBits(v);
    if symbolBits < 2 || symbolBits > maxScale || bypassBits < 2 || bypassBits > maxScale {
      return Failure(Invalid);
    }
    var ok, dists := BuildDists(lengths, offsets, |table|);
    if !ok {
      return Failure(Format);
    }
    var syms;
    ok, syms := BuildSyms(v, symbolBits, lengths, table);
    if !ok {
      return Failure(Format);
    }
    var cdf;
    ok, cdf := BuildCdf(symbolBits, lengths, table);
    if !ok {
      return Failure(Format);
    }
    var c := Coder(v, symbolBits, bypassBits, Pow2(bypassBits) - 1, dists, syms, cdf);
    forall k: nat | k < |lengths| ensures RepresentsDist(c, lengths, offsets, table, k) {
      OffsetFits(lengths, |table|, k);
      assert SymsBuilt(v, symbolBits, lengths, table, syms, k) && CdfBuilt(lengths, table, cdf, k);
    }
    BuiltIsValid(c, lengths, offsets, table);
    return Success(c);
  }

  lemma NoFreqAt31(freq: int)
    ensures !FreqOk(freq, 0, 31)
  {
    Pow2Wide();
  }

  /** 31 symbol bits pass the range check but no table: the cast of 2^31 to int32 is negative. */
  lemma ThirtyOneBitsNeverAccepted(lengths: seq<int>, table: seq<int>)
    requires lengths != []
    ensures !TablesOk(lengths, table, 31)
  {
    if LengthsOk(lengths, |table|) {
      OffsetFits(lengths, |table|, 0);
      NoFreqAt31(table[0]);
      assert !DistFreqsOk(table, 0, lengths[0], 31) by { assert SumFrom(table, 0, 0) == 0; }
      assert !KthFreqsOk(lengths, table, 31, 0);
    }
  }
}
