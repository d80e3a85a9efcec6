/** The streaming decoder, and rans_encode / rans_decode over one coder. */
module RansDecoding {
  import opened Words
  import opened Statuses
  import opened RansStep
  import opened RansCoder
  import opened RansRoundTrip
  import opened RansStream
  import opened RansEncoding

  class RansDecoder {
    const variant: Variant
    var state: nat
    var data: seq<Byte>
    var pos: nat
    var isOpen: bool

    ghost predicate Valid()
      reads this
    {
      pos <= |data|
    }

    /** The state and the bytes still to be read. */
    ghost function View(): Stream
      reads this
      requires pos <= |data|
    {
      Stream(state, data[pos..])
    }

    constructor (v: Variant)
      ensures Valid() && variant == v && !isOpen
    {
      variant := v;
      state := 0;
      data := [];
      pos := 0;
      isOpen := false;
    }

    method ReadByte() returns (ok: bool, b: Byte)
      requires Valid()
      modifies this`pos
      ensures Valid()
      ensures ok <==> old(View()).bytes != []
      ensures ok ==> b == old(View()).bytes[0] && View() == Stream(state, old(View()).bytes[1..])
      ensures !ok ==> pos == old(pos)
    {
      if pos >= |data| {
        return false, 0;
      }
      b := data[pos];
      pos := pos + 1;
      ok := true;
    }

    method ReadUnit32() returns (ok: bool, w: nat)
      requires Valid()
      modifies this`pos
      ensures Valid()
      ensures ok <==> |old(View()).bytes| >= 4
      ensures ok ==> w == FromLe4(old(View()).bytes[..4]) && View() == Stream(state, old(View()).bytes[4..])
      ensures !ok ==> pos == old(pos)
    {
      if |data| - pos < 4 {
        return false, 0;
      }
      w := FromLe4(data[pos..pos + 4]);
      assert data[pos..pos + 4] == data[pos..][..4];
      pos := pos + 4;
      ok := true;
    }

    /** Reads a state of four bytes, the lowest first. */
    method InitByte() returns (ok: bool)
      requires Valid() && variant.ByteUnits?
      modifies this`pos, this`state
      ensures Valid()
      ensures ok <==> Opened(variant, old(data[pos..])).Some?
      ensures ok ==> Opened(variant, old(data[pos..])) == Some(View())
    {
      ghost var bytes := data[pos..];
      var read, u := ReadByte();
      if !read {
        return false;
      }
      var x: nat := u;
      var i: nat := 1;
      assert ShiftLeft(u, 0) == x && PartialWord(bytes, 0) == 0;
      while i < 4
        invariant 1 <= i <= 4 && Valid() && |bytes| >= i && data[pos..] == bytes[i..]
        invariant x == PartialWord(bytes, i)
      {
        read, u := ReadByte();
        if !read {
          return false;
        }
        x := x + ShiftLeft(u, i * 8);
        i := i + 1;
      }
      WholeWord(bytes);
      if x < 0x80_0000 {
        return false;
      }
      state := x;
      return true;
    }

    /** Reads a state of two 32-bit units, the lower one first. */
    method Init64() returns (ok: bool)
      requires Valid() && variant.Rans64? && (|data| - pos) % 4 == 0
      modifies this`pos, this`state
      ensures Valid()
      ensures ok <==> Opened(variant, old(data[pos..])).Some?
      ensures ok ==> Opened(variant, old(data[pos..])) == Some(View())
    {
      ghost var bytes := data[pos..];
      var read, u := ReadUnit32();
      if !read {
        return false;
      }
      var x: nat := u;
      read, u := ReadUnit32();
      if !read {
        return false;
      }
      assert bytes[4..][..4] == bytes[4..8] && bytes[4..][4..] == bytes[8..];
      x := x + u * 0x1_0000_0000;
      if x < 0x8000_0000 {
        return false;
      }
      state := x;
      return true;
    }

    method Open(input: seq<Byte>) returns (st: Status)
      modifies this
      ensures st in {Ok, Format}
      ensures st == Ok <==> Opened(variant, input).Some?
      ensures st == Ok ==> Valid() && isOpen && Opened(variant, input) == Some(View())
      ensures st == Format ==> !isOpen || unchanged(this)
    {
      if variant.Rans64? && |input| % 4 != 0 {
        return Format;
      }
      data := input;
      pos := 0;
      isOpen := false;
      assert data[pos..] == input;
      var ok;
      if variant.ByteUnits? {
        ok := InitByte();
      } else {
        ok := Init64();
      }
      if !ok {
        return Format;
      }
      isOpen := true;
      return Ok;
    }

    /** Refills a state below the lower bound. On failure the input is used up. */
    method RefillLoop(x0: nat) returns (ok: bool)
      requires Valid()
      modifies this`pos, this`state
      ensures Valid()
      ensures ok <==> Refill(variant, Stream(x0, old(data[pos..]))).Some?
      ensures ok ==> Refill(variant, Stream(x0, old(data[pos..]))) == Some(View())
      ensures !ok ==> state == old(state) && |data| - pos < (if variant.ByteUnits? then 1 else 4)
    {
      var x: nat := x0;
      if variant.ByteUnits? {
        while x < 0x80_0000
          invariant Valid() && state == old(state)
          invariant RefillByte(Stream(x, data[pos..])) == RefillByte(Stream(x0, old(data[pos..])))
          decreases |data| - pos
        {
          var read, u := ReadByte();
          if !read {
            return false;
          }
          x := x * 256 + u;
        }
      } else if x < 0x8000_0000 {
        var read, u := ReadUnit32();
        if !read {
          return false;
        }
        x := x * 0x1_0000_0000 + u;
      }
      state := x;
      return true;
    }

    method AdvanceStep(start: nat, freq: nat, bits: nat) returns (ok: bool)
      requires Valid() && start <= LowBits(state, bits)
      modifies this`pos, this`state
      ensures Valid()
      ensures ok <==> Advance(variant, start, freq, bits, old(View())).Some?
      ensures ok ==> Advance(variant, start, freq, bits, old(View())) == Some(View())
    {
      var value := LowBits(state, bits);
      MulMonotone(0, freq, ShiftRight(state, bits));
      ok := RefillLoop(freq * ShiftRight(state, bits) + value - start);
    }

    method GetStep(c: Coder) returns (ok: bool, value: nat)
      requires Valid() && c.variant == variant
      modifies this`pos, this`state
      ensures Valid()
      ensures ok <==> GetOne(c, old(View())).Some?
      ensures ok ==> GetOne(c, old(View())) == Some((value, View()))
    {
      value := LowBits(state, c.bypassBits);
      ok := AdvanceStep(value, 1, c.bypassBits);
    }

    /** Reads the digit count, giving up as soon as it exceeds the cap. */
    method CountLoop(c: Coder, max: nat) returns (ok: bool, count: nat)
      requires Valid() && c.variant == variant && c.bypassMax > 0
      modifies this`pos, this`state
      ensures Valid()
      ensures ok <==> GetCount(c, max, 0, old(View())).Some?
      ensures ok ==> GetCount(c, max, 0, old(View())) == Some((count, View()))
    {
      var value;
      ok, value := GetStep(c);
      if !ok {
        return false, 0;
      }
      count := value;
      if count > max {
        return false, 0;
      }
      while value == c.bypassMax
        invariant Valid() && count <= max
        invariant GetCount(c, max, 0, old(View()))
                  == if value == c.bypassMax then GetCount(c, max, count, View()) else Some((count, View()))
        decreases max - count, if value == c.bypassMax then 1 else 0
      {
        ok, value := GetStep(c);
        if !ok {
          return false, 0;
        }
        count := count + value;
        if count > max {
          return false, 0;
        }
      }
      ok := true;
    }

    /** Reads count digits, each shifted into place above the ones before. */
    method DigitLoop(c: Coder, count: nat) returns (ok: bool, encoded: nat)
      requires Valid() && c.variant == variant
      modifies this`pos, this`state
      ensures Valid()
      ensures ok <==> GetDigits(c, count, old(View())).Some?
      ensures ok ==> GetDigits(c, count, old(View())) == Some((encoded, View()))
    {
      encoded := 0;
      var shift, left: nat := 0, count;
      while left > 0
        invariant Valid() && shift >= 0
        invariant GetDigits(c, count, old(View())) == OverLow(encoded, shift, GetDigits(c, left, View()))
      {
        var value;
        ghost var before := View();
        ok, value := GetStep(c);
        if !ok {
          return false, 0;
        }
        ghost var rest := GetDigits(c, left - 1, View());
        if rest.Some? { JoinHigh(shift, value, rest.value.0, c.bypassBits); }
        encoded := encoded + ShiftLeft(value, shift);
        shift := shift + c.bypassBits;
        left := left - 1;
      }
      ok := true;
      assert ShiftLeft(0, shift) == 0 by { ShiftLeftIs(0, shift); }
    }

    method Bypass(c: Coder) returns (ok: bool, code: nat)
      requires Valid() && c.variant == variant && c.bypassMax > 0 && c.bypassBits > 0
      modifies this`pos, this`state
      ensures Valid()
      ensures ok <==> GetBypass(c, old(View())).Some?
      ensures ok ==> GetBypass(c, old(View())) == Some((code, View()))
    {
      var count;
      ok, count := CountLoop(c, MaxDigits(c));
      if !ok {
        return false, 0;
      }
      ok, code := DigitLoop(c, count);
    }

    /** Decodes one symbol: the search, the range check and the advance. */
    method DecodeSymbol(c: Coder, d: Dist) returns (ok: bool, symbol: nat)
      requires Valid() && ValidCoder(c) && c.variant == variant && ValidDist(c, d)
      modifies this`pos, this`state
      ensures Valid()
      ensures ok ==> SymbolTaken(c, d, old(View()), symbol, View())
      ensures !ok ==> DecodeShifted(c, d, old(View())) == None
    {
      symbol := BinarySearch(c, d, LowBits(state, c.symbolBits));
      if symbol > d.sentinel {
        return false, 0;
      }
      SymbolAtBounds(c, d, View());
      assert ValidSymbol(c, d, symbol);
      ok := AdvanceStep(Cum(c, d, symbol), Cum(c, d, symbol + 1) - Cum(c, d, symbol), c.symbolBits);
    }

    /** Decodes one value, still shifted by the offset of its distribution. */
    method DecodeValue(c: Coder, d: Dist) returns (ok: bool, symbol: int)
      requires Valid() && ValidCoder(c) && c.variant == variant && ValidDist(c, d)
      modifies this`pos, this`state
      ensures Valid()
      ensures ok <==> DecodeShifted(c, d, old(View())).Some?
      ensures ok ==> DecodeShifted(c, d, old(View())) == Some((symbol, View()))
    {
      var i;
      ok, i := DecodeSymbol(c, d);
      if !ok {
        return false, 0;
      }
      TakenDecodes(c, d, old(View()), i, View());
      ok, symbol := FinishValue(c, d, i);
    }

    /** The escape symbol is followed by an escape code. */
    method FinishValue(c: Coder, d: Dist, i: nat) returns (ok: bool, symbol: int)
      requires Valid() && ValidCoder(c) && c.variant == variant && i <= d.sentinel
      modifies this`pos, this`state
      ensures Valid()
      ensures ok <==> Finished(c, d, i, old(View())).Some?
      ensures ok ==> Finished(c, d, i, old(View())) == Some((symbol, View()))
    {
      CoderBasics(c);
      ok, symbol := true, i;
      if symbol == d.sentinel {
        var code;
        ok, code := Bypass(c);
        if !ok {
          return false, 0;
        }
        symbol := if code % 2 == 1 then -(code / 2) - 1 else code / 2 + d.sentinel;
      }
    }

    /** One value for one index: nothing is read where the index is negative. */
    method DecodeIndexed(c: Coder, index: int) returns (ok: bool, value: int)
      requires Valid() && ValidCoder(c) && c.variant == variant
      modifies this`pos, this`state
      ensures Valid()
      ensures ok <==> DecodeOne(c, index, old(View())).Some?
      ensures ok ==> DecodeOne(c, index, old(View())) == Some((value, View()))
    {
      if index < 0 {
        return true, 0;
      }
      var d := c.dists[if index >= |c.dists| then |c.dists| - 1 else index];
      assert d == DistOf(c, index);
      var symbol;
      IndexedDecodes(c, index, View(), DecodeShifted(c, d, View()));
      ok, symbol := DecodeValue(c, d);
      value := symbol - d.valueOffset;
    }

    /** Decodes one value per index into values; zero where the index is negative. */
    method Decode(c: Coder, values: array<int>, indices: seq<int>) returns (st: Status)
      requires Valid() && (c.dists != [] && c.cdf != [] ==> ValidCoder(c) && c.variant == variant)
      modifies this`pos, this`state, values
      ensures Valid() && st in {Ok, Invalid, Format}
      ensures st == Invalid <==> values.Length != |indices| || !isOpen || c.dists == [] || c.cdf == []
      ensures st == Invalid ==> View() == old(View()) && values[..] == old(values[..])
      ensures st == Ok ==> ValidCoder(c) && DecodeSeq(c, indices, old(View())) == Some((values[..], View()))
      ensures st == Format ==> ValidCoder(c) && DecodeSeq(c, indices, old(View())) == None
    {
      if values.Length != |indices| {
        return Invalid;
      }
      if !isOpen || c.dists == [] || c.cdf == [] {
        return Invalid;
      }
      PrefixEmpty(DecodeSeq(c, indices, View()));
      var i := 0;
      assert indices[i..] == indices;
      while i < values.Length
        invariant 0 <= i <= values.Length && Valid()
        invariant DecodeSeq(c, indices, old(View())) == Prefixed(values[..i], DecodeSeq(c, indices[i..], View()))
      {
        ghost var before := View();
        assert indices[i..][1..] == indices[i + 1..];
        var ok, value := DecodeIndexed(c, indices[i]);
        if !ok {
          return Format;
        }
        values[i] := value;
        assert values[..i + 1] == values[..i] + [values[i]];
        PrefixGrows(values[..i], values[i], DecodeSeq(c, indices[i + 1..], View()));
        i := i + 1;
      }
      assert indices[i..] == [] && values[..i] + [] == values[..];
      return Ok;
    }

    method CheckEof() returns (atEnd: bool)
      requires Valid()
      ensures atEnd <==> isOpen && AtEnd(variant, View())
    {
      if !isOpen || pos != |data| {
        return false;
      }
      return state == if variant.ByteUnits? then 0x80_0000 else 0x8000_0000;
    }
  }

  /** From s the decoder takes symbol i and is left with t. */
  ghost predicate SymbolTaken(c: Coder, d: Dist, s: Stream, i: nat, t: Stream)
    requires ValidCoder(c) && ValidDist(c, d)
  {
    && i == SymbolAt(c, d, s) && i <= d.sentinel && Cum(c, d, i) <= LowBits(s.x, c.symbolBits)
    && Cum(c, d, i) < Cum(c, d, i + 1)
    && Advance(c.variant, Cum(c, d, i), Cum(c, d, i + 1) - Cum(c, d, i), c.symbolBits, s) == Some(t)
  }

  lemma TakenDecodes(c: Coder, d: Dist, s: Stream, i: nat, t: Stream)
    requires ValidCoder(c) && ValidDist(c, d) && SymbolTaken(c, d, s, i, t)
    ensures DecodeShifted(c, d, s) == Finished(c, d, i, t)
  {
    CoderBasics(c);
  }

  /** The value behind symbol i. */
  function Finished(c: Coder, d: Dist, i: nat, t: Stream): Option<(int, Stream)>
    requires ValidCoder(c)
  {
    CoderBasics(c);
    if i < d.sentinel then Some((i, t))
    else
      match GetBypass(c, t)
      case None => None
      case Some((code, u)) => Some((Unescape(d, code), u))
  }

  lemma IndexedDecodes(c: Coder, index: nat, s: Stream, r: Option<(int, Stream)>)
    requires ValidCoder(c) && r == DecodeShifted(c, DistOf(c, index), s)
    ensures r.Some? ==> DecodeOne(c, index, s) == Some((r.value.0 - DistOf(c, index).valueOffset, r.value.1))
    ensures r == None ==> DecodeOne(c, index, s) == None
  {
  }

  lemma HasTables(c: Coder)
    requires ValidCoder(c)
    ensures c.dists != [] && c.encSyms != [] && c.cdf != []
  {
    assert ValidDist(c, c.dists[0]);
  }

  /** The first n bytes as a little-endian number. */
  function PartialWord(bytes: seq<Byte>, n: nat): nat
    requires n <= |bytes|
  {
    if n == 0 then 0 else PartialWord(bytes, n - 1) + ShiftLeft(bytes[n - 1], (n - 1) * 8)
  }

  lemma WholeWord(bytes: seq<Byte>)
    requires |bytes| >= 4
    ensures PartialWord(bytes, 4) == FromLe4(bytes[..4])
  {
    ShiftLeftIs(bytes[1], 8);
    ShiftLeftIs(bytes[2], 16);
    ShiftLeftIs(bytes[3], 24);
    Pow2Small();
    assert ShiftLeft(bytes[0], 0) == bytes[0];
    assert PartialWord(bytes, 2) == bytes[0] + 256 * (bytes[1] as int) by { assert PartialWord(bytes, 1) == bytes[0]; }
    assert PartialWord(bytes, 3) == PartialWord(bytes, 2) + 0x1_0000 * (bytes[2] as int);
  }

  /** encoded below bit shift, the rest of the digits above it. */
  function OverLow(encoded: nat, shift: nat, rest: Option<(nat, Stream)>): Option<(nat, Stream)> {
    match rest
    case None => None
    case Some((high, s)) => Some((encoded + ShiftLeft(high, shift), s))
  }

  lemma JoinHigh(shift: nat, value: nat, high: nat, bits: nat)
    ensures ShiftLeft(value + ShiftLeft(high, bits), shift)
            == ShiftLeft(value, shift) + ShiftLeft(high, shift + bits)
  {
    ShiftLeftSum(value, ShiftLeft(high, bits), shift);
    ShiftLeftTwice(high, bits, shift);
  }

  lemma {:induction false} ShiftLeftSum(a: nat, b: nat, k: nat)
    ensures ShiftLeft(a + b, k) == ShiftLeft(a, k) + ShiftLeft(b, k)
  {
    if k > 0 { ShiftLeftSum(a, b, k - 1); }
  }

  lemma {:induction false} ShiftLeftTwice(n: nat, j: nat, k: nat)
    ensures ShiftLeft(ShiftLeft(n, j), k) == ShiftLeft(n, k + j)
  {
    if k > 0 { ShiftLeftTwice(n, j, k - 1); }
  }

  function Prefixed(done: seq<int>, rest: Option<(seq<int>, Stream)>): Option<(seq<int>, Stream)> {
    match rest
    case None => None
    case Some((values, s)) => Some((done + values, s))
  }

  lemma PrefixEmpty(rest: Option<(seq<int>, Stream)>)
    ensures Prefixed([], rest) == rest
  {
    if rest.Some? {
      assert [] + rest.value.0 == rest.value.0;
    }
  }

  lemma PrefixGrows(done: seq<int>, value: int, rest: Option<(seq<int>, Stream)>)
    ensures Prefixed(done, Prefixed([value], rest)) == Prefixed(done + [value], rest)
  {
    if rest.Some? {
      assert done + ([value] + rest.value.0) == done + [value] + rest.value.0;
    }
  }

  /** Binary search over the cumulative table finds the same symbol as a scan from the left. */
  method BinarySearch(c: Coder, d: Dist, cum: nat) returns (lo: nat)
    requires ValidCoder(c) && ValidDist(c, d)
    ensures lo == FindSymbol(Segment(c, d), 0, d.sentinel + 1, cum)
  {
    var hi: nat := d.sentinel + 1;
    lo := 0;
    while lo < hi
      invariant lo <= hi <= d.sentinel + 1
      invariant lo > 0 ==> Cum(c, d, lo) <= cum
      invariant hi <= d.sentinel ==> cum < Cum(c, d, hi + 1)
    {
      var mid := lo + (hi - lo) / 2;
      if Cum(c, d, mid + 1) <= cum {
        lo := mid + 1;
      } else {
        hi := mid;
      }
    }
    SearchAgrees(c, d, cum, lo);
  }

  lemma SearchAgrees(c: Coder, d: Dist, cum: nat, lo: nat)
    requires ValidCoder(c) && ValidDist(c, d) && lo <= d.sentinel + 1
    requires lo > 0 ==> Cum(c, d, lo) <= cum
    requires lo <= d.sentinel ==> cum < Cum(c, d, lo + 1)
    ensures lo == FindSymbol(Segment(c, d), 0, d.sentinel + 1, cum)
  {
    var base := Segment(c, d);
    var r := FindSymbol(base, 0, d.sentinel + 1, cum);
    assert forall j: nat :: j <= d.sentinel + 1 ==> base[j] == Cum(c, d, j);
    if lo < r {
      assert false;
    } else if r < lo {
      CumMonotone(c, d, r + 1, lo);
      assert false;
    }
  }

  /** rans_encode: one encoder, one encode, one flush. */
  method RansEncode(c: Coder, indices: seq<int>, values: seq<int>) returns (r: Result<seq<Byte>>)
    requires ValidCoder(c) && (|indices| == |values| ==> ShiftsInRange(c, indices, values))
    ensures r == Failure(Invalid) <==> |indices| != |values|
    ensures r.Failure? ==> r.status in {Invalid, Nomem}
    ensures r.Success? ==> r.value == EncodeBytes(c, indices, values)
  {
    HasTables(c);
    var enc := new RansEncoder(c.variant, 65536);
    var st := enc.Encode(c, indices, values);
    if st != Ok {
      return Failure(st);
    }
    var out;
    st, out := enc.Flush();
    if st != Ok {
      return Failure(st);
    }
    return Success(out);
  }

  /** rans_decode: anything but a clean end of stream is a format error. */
  method RansDecode(c: Coder, values: array<int>, indices: seq<int>, data: seq<Byte>) returns (st: Status)
    requires ValidCoder(c)
    modifies values
    ensures st == Ok ==> DecodeBytes(c, indices, data) == Some(values[..])
    ensures st == Format ==> DecodeBytes(c, indices, data) == None
    ensures st in {Ok, Format, Invalid}
    ensures st == Invalid ==> values.Length != |indices| && Opened(c.variant, data).Some?
  {
    var dec := new RansDecoder(c.variant);
    st := dec.Open(data);
    if st != Ok {
      return;
    }
    HasTables(c);
    st := dec.Decode(c, values, indices);
    if st != Ok {
      return;
    }
    var atEnd := dec.CheckEof();
    st := if atEnd then Ok else Format;
  }

  /** What was encoded decodes: the methods composed, with the exact condition for success. */
  method EncodeThenDecode(c: Coder, indices: seq<int>, values: seq<int>) returns (r: Result<seq<Byte>>, st: Status, back: array<int>)
    requires ValidCoder(c) && Invertible(c) && |indices| == |values| && ShiftsInRange(c, indices, values)
    ensures r.Success? ==> (st == Ok <==> AllFit(c, indices, values))
    ensures r.Success? && st == Ok ==> back[..] == AllDecoded(indices, values)
    ensures r.Success? && Compact(c) ==> |r.value| <= 4 + 24 * |values|
  {
    back := new int[|values|](_ => 0);
    r := RansEncode(c, indices, values);
    st := Ok;
    if r.Success? {
      st := RansDecode(c, back, indices, r.value);
      BytesRoundTrip(c, indices, values);
      if Compact(c) { BytesBound(c, indices, values); }
    }
  }
}
