/** The streaming encoder: a buffer filled from its end towards its front. */
module RansEncoding {
  import opened Words
  import opened Statuses
  import opened RansStep
  import opened RansReciprocal
  import opened RansCoder
  import opened RansRoundTrip
  import opened RansStream

  /** One more than the largest size_t. */
  const SIZE_LIMIT: nat := 0x1_0000_0000_0000_0000

  /** Twice the capacity or 64 KiB more, in size_t arithmetic. */
  function NextCapacity(cap: nat): (ncap: nat)
    ensures ncap < SIZE_LIMIT
    ensures cap < SIZE_LIMIT && ncap <= cap ==> cap >= SIZE_LIMIT / 2
    ensures cap < SIZE_LIMIT && ncap > cap && cap >= 512 ==> ncap >= cap + 4
  {
    var doubled := cap * 2 % SIZE_LIMIT;
    var added := (cap + 65536) % SIZE_LIMIT;
    if doubled < added then added else doubled
  }

  class RansEncoder {
    const variant: Variant
    var state: nat
    var buf: array<Byte>
    var ptr: nat
    var flushed: bool
    var oom: bool

    ghost predicate Valid()
      reads this, buf
    {
      && 512 <= buf.Length < SIZE_LIMIT
      && ptr <= buf.Length
      && InRange(variant, Stream(state, []))
      && (oom ==> buf.Length >= SIZE_LIMIT / 2)
    }

    /** The state and the bytes written so far, the latest first. */
    ghost function View(): Stream
      reads this, buf
      requires ptr <= buf.Length
    {
      Stream(state, buf[ptr..])
    }

    constructor (v: Variant, initialCapacity: nat)
      requires initialCapacity < SIZE_LIMIT
      ensures Valid() && variant == v && !flushed && !oom
      ensures View() == Initial(v) && fresh(buf)
    {
      var capacity := if initialCapacity < 512 then 512 else initialCapacity;
      variant := v;
      buf := new Byte[capacity](_ => 0);
      ptr := capacity;
      state := if v.ByteUnits? then 0x80_0000 else 0x8000_0000;
      flushed := false;
      oom := false;
    }

    /** Doubles the buffer, or adds 64 KiB if that is more, and keeps what was written. */
    method Grow() returns (grown: bool)
      requires Valid()
      modifies this`buf, this`ptr, this`oom
      ensures Valid() && (buf == old(buf) || fresh(buf))
      ensures grown ==> View() == old(View()) && !oom && ptr >= 4
      ensures !grown ==> oom && View() == old(View())
    {
      if oom {
        return false;
      }
      var cap := buf.Length;
      var ncap := NextCapacity(cap);
      if ncap <= cap {
        oom := true;
        return false;
      }
      var nbuf := new Byte[ncap](_ => 0);
      var content := cap - ptr;
      var start := ncap - content;
      forall i | 0 <= i < content {
        nbuf[start + i] := buf[ptr + i];
      }
      assert nbuf[start..] == buf[ptr..];
      buf := nbuf;
      ptr := start;
      return true;
    }

    method WriteByte(b: Byte)
      requires Valid()
      modifies this`buf, this`ptr, this`oom, buf
      ensures Valid() && (buf == old(buf) || fresh(buf)) && (old(oom) ==> oom)
      ensures !oom ==> View() == Stream(state, [b] + old(View()).bytes)
    {
      if oom {
        return;
      }
      if ptr == 0 {
        var grown := Grow();
        if !grown {
          return;
        }
      }
      ptr := ptr - 1;
      ghost var rest := buf[ptr + 1..];
      buf[ptr] := b;
      assert buf[ptr..] == [b] + rest;
    }

    static lemma FourThenRest(s: seq<Byte>, four: seq<Byte>, rest: seq<Byte>)
      requires |four| == 4 && |s| >= 4 && s[..4] == four && s[4..] == rest
      ensures s == four + rest
    {
    }

    method WriteUnit32(w: nat)
      requires Valid() && w < 0x1_0000_0000
      modifies this`buf, this`ptr, this`oom, buf
      ensures Valid() && (buf == old(buf) || fresh(buf)) && (old(oom) ==> oom)
      ensures !oom ==> View() == Stream(state, Le4(w) + old(View()).bytes)
    {
      if oom {
        return;
      }
      if ptr < 4 {
        var grown := Grow();
        if !grown {
          return;
        }
      }
      ptr := ptr - 4;
      ghost var rest := buf[ptr + 4..];
      var bytes := Le4(w);
      buf[ptr], buf[ptr + 1], buf[ptr + 2], buf[ptr + 3] := bytes[0], bytes[1], bytes[2], bytes[3];
      FourThenRest(buf[ptr..], Le4(w), rest);
    }

    method RenormByteLoop(xMax: nat)
      requires Valid() && variant.ByteUnits? && xMax > 0
      modifies this`state, this`buf, this`ptr, this`oom, buf
      ensures Valid() && (buf == old(buf) || fresh(buf)) && (old(oom) ==> oom)
      ensures state < xMax && !oom ==> View() == RenormByte(old(View()), xMax)
      ensures state < xMax
    {
      var x: nat := state;
      while x >= xMax
        invariant Valid() && x <= state && (buf == old(buf) || fresh(buf)) && (old(oom) ==> oom)
        invariant !oom ==> RenormByte(Stream(x, buf[ptr..]), xMax) == RenormByte(old(View()), xMax)
      {
        WriteByte(x % 256);
        x := x / 256;
      }
      state := x;
    }

    method Renorm64Loop(xMax: nat)
      requires Valid() && variant.Rans64? && xMax >= 0x8000_0000
      modifies this`state, this`buf, this`ptr, this`oom, buf
      ensures Valid() && (buf == old(buf) || fresh(buf)) && (old(oom) ==> oom)
      ensures !oom ==> View() == Renorm64(old(View()), xMax)
      ensures state < xMax
    {
      var x: nat := state;
      if x >= xMax {
        WriteUnit32(x % 0x1_0000_0000);
        x := x / 0x1_0000_0000;
      }
      state := x;
    }

    method PutSymbolStep(sym: EncSym, ghost start: nat, ghost freq: nat, ghost bits: nat)
      requires Valid() && SymFor(variant, sym, start, freq, bits) && bits > 0
      modifies this`state, this`buf, this`ptr, this`oom, buf
      ensures Valid() && (buf == old(buf) || fresh(buf)) && (old(oom) ==> oom)
      ensures sym.xMaxHi > 0 && (!oom ==> View() == PutSym(variant, sym, old(View())))
    {
      XMaxAgrees(variant, sym, start, freq, bits);
      if variant.ByteUnits? {
        RenormByteLoop(sym.xMaxHi);
      } else {
        Renorm64Loop(sym.xMaxHi * 0x1_0000_0000);
      }
      WordHoldsState(variant);
      assert InRange(variant, Stream(state, []));
      PutWordExact(variant, sym, start, freq, bits, state);
      state := PutWord(variant, sym, state);
      assert InRange(variant, Stream(state, []));
    }

    method PutRawStep(start: nat, freq: nat, bits: nat)
      requires Valid() && bits <= MaxScaleBits(variant) && freq > 0 && start + freq <= Pow2(bits)
      modifies this`state, this`buf, this`ptr, this`oom, buf
      ensures Valid() && (buf == old(buf) || fresh(buf)) && (old(oom) ==> oom)
      ensures XMax(variant, freq, bits) > 0
      ensures !oom ==> View() == PutRaw(variant, start, freq, bits, old(View()))
    {
      var xMax := ShiftLeft(freq, StateBits(variant) - bits);
      XMaxLarge(variant, freq, bits);
      if variant.ByteUnits? {
        RenormByteLoop(xMax);
      } else {
        Renorm64Loop(xMax);
      }
      SlotFits(variant, freq, start, bits, state);
      state := Slot(start, freq, bits, state);
      WordHoldsState(variant);
      assert InRange(variant, Stream(state, []));
    }

    /** Puts the digits of code from the highest down. */
    method PutDigitLoop(c: Coder, ghost code: nat, digits: seq<nat>)
      requires Valid() && ValidCoder(c) && c.variant == variant && DigitsOf(digits, code, c.bypassBits)
      modifies this`state, this`buf, this`ptr, this`oom, buf
      ensures Valid() && (buf == old(buf) || fresh(buf)) && (old(oom) ==> oom)
      ensures !oom ==> View() == PutDigits(c, code, old(View()))
    {
      var n := |digits|;
      while n > 0
        invariant 0 <= n <= |digits| && Valid()
        invariant (buf == old(buf) || fresh(buf)) && (old(oom) ==> oom)
        invariant !oom ==> View() == PutDigits(c, ShiftedBy(code, c.bypassBits, n as nat), old(View()))
      {
        n := n - 1;
        DigitInRange(digits, code, c.bypassBits, n);
        PutRawStep(digits[n], 1, c.bypassBits);
      }
    }

    /** Puts a count: what remains after taking bypassMax away, then bypassMax as often as it went. */
    method PutCountLoop(c: Coder, total: nat)
      requires Valid() && ValidCoder(c) && c.variant == variant
      modifies this`state, this`buf, this`ptr, this`oom, buf
      ensures Valid() && (buf == old(buf) || fresh(buf)) && (old(oom) ==> oom)
      ensures c.bypassMax > 0 && (!oom ==> View() == PutCount(c, total, old(View())))
    {
      CoderBasics(c);
      var count: nat, prefix: nat := total, 0;
      while count >= c.bypassMax
        invariant count + Times(prefix, c.bypassMax) == total
      {
        count := count - c.bypassMax;
        prefix := prefix + 1;
      }
      PutRawStep(count, 1, c.bypassBits);
      ghost var done: nat := count;
      while prefix > 0
        invariant done + Times(prefix, c.bypassMax) == total && Valid()
        invariant (buf == old(buf) || fresh(buf)) && (old(oom) ==> oom)
        invariant !oom ==> View() == PutCount(c, done, old(View()))
      {
        PutRawStep(c.bypassMax, 1, c.bypassBits);
        prefix := prefix - 1;
        done := done + c.bypassMax;
      }
    }

    /** The escape code: digits from the highest, then the digit count. */
    method Bypass(c: Coder, code: nat)
      requires Valid() && ValidCoder(c) && c.variant == variant && code < 0x1_0000_0000
      modifies this`state, this`buf, this`ptr, this`oom, buf
      ensures Valid() && (buf == old(buf) || fresh(buf)) && (old(oom) ==> oom)
      ensures c.bypassMax > 0 && c.bypassBits > 0
      ensures !oom ==> View() == PutBypass(c, code, old(View()))
    {
      var digits := SplitDigits(c, code);
      PutDigitLoop(c, code, digits);
      PutCountLoop(c, |digits|);
    }

    /** Encodes values under indices, from the last to the first. */
    method Encode(c: Coder, indices: seq<int>, values: seq<int>) returns (st: Status)
      requires Valid()
      requires c.dists != [] && c.encSyms != [] ==> ValidCoder(c) && c.variant == variant
      requires c.dists != [] && c.encSyms != [] && |indices| == |values| ==> ShiftsInRange(c, indices, values)
      modifies this`state, this`buf, this`ptr, this`oom, buf
      ensures Valid() && (buf == old(buf) || fresh(buf))
      ensures st in {Ok, Invalid, Nomem}
      ensures st == Invalid <==>
              |indices| != |values| || c.dists == [] || c.encSyms == [] || flushed || old(oom)
      ensures st == Invalid ==> View() == old(View()) && oom == old(oom)
      ensures st == Nomem ==> oom
      ensures st == Ok ==> !oom && View() == EncodeSeq(c, indices, values, old(View()))
    {
      if |indices| != |values| {
        return Invalid;
      }
      if c.dists == [] || c.encSyms == [] {
        return Invalid;
      }
      if flushed || oom {
        return Invalid;
      }
      var k := |values|;
      while k > 0
        invariant 0 <= k <= |values| && Valid() && !oom && (buf == old(buf) || fresh(buf))
        invariant View() == EncodeSeq(c, indices[k..], values[k..], old(View()))
      {
        k := k - 1;
        var index := indices[k];
        assert indices[k..][1..] == indices[k + 1..] && values[k..][1..] == values[k + 1..];
        if index >= 0 {
          if index >= |c.dists| {
            index := |c.dists| - 1;
          }
          var d := c.dists[index];
          assert d == DistOf(c, indices[k]);
          EncodeValue(c, d, values[k] + d.valueOffset);
          if oom {
            return Nomem;
          }
        }
      }
      return Ok;
    }

    method PutDistSymbol(c: Coder, d: Dist, i: nat)
      requires Valid() && ValidCoder(c) && c.variant == variant && ValidDist(c, d) && i <= d.sentinel
      modifies this`state, this`buf, this`ptr, this`oom, buf
      ensures Valid() && (buf == old(buf) || fresh(buf)) && (old(oom) ==> oom)
      ensures !oom ==> View() == PutSymbol(c, d, i, old(View()))
    {
      assert ValidSymbol(c, d, i);
      PutSymbolStep(c.encSyms[d.encSymOffset + i], Cum(c, d, i), Cum(c, d, i + 1) - Cum(c, d, i), c.symbolBits);
    }

    method EncodeValue(c: Coder, d: Dist, shifted: int)
      requires Valid() && ValidCoder(c) && c.variant == variant && ValidDist(c, d)
      requires -0x8000_0000 < shifted < 0x8000_0000
      modifies this`state, this`buf, this`ptr, this`oom, buf
      ensures Valid() && (buf == old(buf) || fresh(buf)) && (old(oom) ==> oom)
      ensures !oom ==> View() == EncodeShifted(c, d, shifted, old(View()))
    {
      var value := shifted;
      if value < 0 || value >= d.sentinel {
        var code := EscapeWord(d, value);
        Bypass(c, code);
        value := d.sentinel;
      }
      PutDistSymbol(c, d, value);
    }

    /** Writes the state in front of the bytes and hands the stream out; only once. */
    method Flush() returns (st: Status, out: seq<Byte>)
      requires Valid()
      modifies this`buf, this`ptr, this`oom, this`flushed, buf
      ensures Valid() && (buf == old(buf) || fresh(buf))
      ensures st in {Ok, Invalid, Nomem}
      ensures st == Invalid <==> old(flushed) || old(oom)
      ensures st == Nomem ==> oom && flushed == old(flushed)
      ensures st == Ok ==> flushed && out == Flushed(variant, old(View())) && buf[ptr..] == out
      ensures st != Ok ==> out == []
    {
      if flushed || oom {
        return Invalid, [];
      }
      if variant.ByteUnits? {
        WriteByte(state / 0x100_0000 % 256);
        WriteByte(state / 0x1_0000 % 256);
        WriteByte(state / 0x100 % 256);
        WriteByte(state % 256);
      } else {
        WriteUnit32(state / 0x1_0000_0000 % 0x1_0000_0000);
        WriteUnit32(state % 0x1_0000_0000);
      }
      if oom {
        return Nomem, [];
      }
      flushed := true;
      out := buf[ptr..];
      if variant.ByteUnits? {
        BytesOfWord(state, old(buf[ptr..]));
      }
      return Ok, out;
    }

    method Reset()
      requires Valid()
      modifies this`ptr, this`flushed, this`state
      ensures Valid() && !flushed && View() == Initial(variant)
    {
      ptr := buf.Length;
      flushed := false;
      state := if variant.ByteUnits? then 0x80_0000 else 0x8000_0000;
    }
  }

  /** Four single bytes, the highest first, make the little-endian word. */
  lemma BytesOfWord(x: nat, rest: seq<Byte>)
    requires x < 0x8000_0000
    ensures [x % 256] + ([x / 0x100 % 256] + ([x / 0x1_0000 % 256] + ([x / 0x100_0000 % 256] + rest)))
            == Le4(x % 0x1_0000_0000) + rest
  {
  }

  /** The escape code in 32-bit arithmetic. */
  method EscapeWord(d: Dist, value: int) returns (code: nat)
    requires Escaped(d, value) && -0x8000_0000 < value < 0x8000_0000
    ensures code == EscapeCode(d, value) && code < 0x1_0000_0000
  {
    code := if value < 0 then (2 * -value - 1) % 0x1_0000_0000 else 2 * (value - d.sentinel) % 0x1_0000_0000;
  }

  // ---------------------------------------------------------------- digits

  /** code >> (bits * n), one shift at a time. */
  function ShiftedBy(code: nat, bits: nat, n: nat): nat {
    if n == 0 then code else ShiftRight(ShiftedBy(code, bits, n - 1), bits)
  }

  function Times(n: nat, m: nat): nat {
    if n == 0 then 0 else Times(n - 1, m) + m
  }

  /** digits are the digits of code from the lowest up, without leading zeros. */
  ghost predicate DigitsOf(digits: seq<nat>, code: nat, bits: nat) {
    && ShiftedBy(code, bits, |digits|) == 0
    && forall i: nat :: i < |digits| ==> DigitIs(code, bits, i, digits[i])
  }

  /** digit is the i-th of code, and code has that many. */
  predicate DigitIs(code: nat, bits: nat, i: nat, digit: nat) {
    ShiftedBy(code, bits, i) > 0 && digit == LowBits(ShiftedBy(code, bits, i), bits)
  }

  lemma DigitInRange(digits: seq<nat>, code: nat, bits: nat, n: nat)
    requires DigitsOf(digits, code, bits) && n < |digits|
    ensures digits[n] < Pow2(bits) && ShiftedBy(code, bits, n) > 0
    ensures digits[n] == LowBits(ShiftedBy(code, bits, n), bits)
  {
    assert DigitIs(code, bits, n, digits[n]);
    LowBitsIs(ShiftedBy(code, bits, n), bits);
  }

  lemma SixteenDigits(code: nat, bits: nat)
    requires code < 0x1_0000_0000 && bits >= 2
    ensures DigitCount(code, bits) <= 16
  {
    Pow2Wide();
    Pow2Monotone(32, bits * 16);
    DigitCountBound(code, bits, 16);
  }

  /** The digits of code from the lowest; never more than the sixteen the encoder makes room for. */
  method SplitDigits(c: Coder, code: nat) returns (digits: seq<nat>)
    requires ValidCoder(c) && code < 0x1_0000_0000
    ensures c.bypassBits > 0 && |digits| == DigitCount(code, c.bypassBits) <= 16
    ensures DigitsOf(digits, code, c.bypassBits)
  {
    var bits := c.bypassBits;
    SixteenDigits(code, bits);
    var buf := new nat[16](_ => 0);
    var n: nat := 0;
    var v := code;
    while v != 0
      invariant n + DigitCount(v, bits) == DigitCount(code, bits) && n <= 16
      invariant v == ShiftedBy(code, bits, n)
      invariant forall i: nat :: i < n ==> DigitIs(code, bits, i, buf[i])
      decreases v
    {
      ShiftShrinks(v, bits);
      buf[n] := LowBits(v, bits);
      assert DigitIs(code, bits, n, buf[n]);
      n := n + 1;
      v := ShiftRight(v, bits);
    }
    digits := buf[..n];
  }

  lemma XMaxLarge(v: Variant, freq: nat, bits: nat)
    requires bits <= MaxScaleBits(v) && freq > 0
    ensures XMax(v, freq, bits) > 0 && (v.Rans64? ==> XMax(v, freq, bits) >= 0x8000_0000)
  {
    var rest := StateBits(v) - bits;
    ShiftLeftIs(freq, rest);
    MulMonotone(1, freq, Pow2(rest));
    if v.Rans64? {
      Pow2Monotone(31, rest);
      Pow2Wide();
    }
  }
}
