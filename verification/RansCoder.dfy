/** Coder tables, and what encoding and decoding a sequence of values means on streams. */
module RansCoder {
  import opened Words
  import opened RansStep
  import opened RansReciprocal

  datatype Dist = Dist(valueOffset: int, sentinel: nat, encSymOffset: nat, decCdfOffset: nat)

  datatype Coder = Coder(variant: Variant, symbolBits: nat, bypassBits: nat, bypassMax: nat,
                         dists: seq<Dist>, encSyms: seq<EncSym>, cdf: seq<nat>)

  predicate IsInt32(n: int) {
    -0x8000_0000 <= n < 0x8000_0000
  }

  function Cum(c: Coder, d: Dist, i: nat): nat
    requires d.decCdfOffset + i < |c.cdf|
  {
    c.cdf[d.decCdfOffset + i]
  }

  /** Symbol i of d owns [Cum(i), Cum(i + 1)) and its encoder entry is prepared for that slot. */
  ghost predicate ValidSymbol(c: Coder, d: Dist, i: nat)
    requires d.encSymOffset + d.sentinel < |c.encSyms| && d.decCdfOffset + d.sentinel + 1 < |c.cdf|
    requires i <= d.sentinel
  {
    && Cum(c, d, i) < Cum(c, d, i + 1) <= Pow2(c.symbolBits)
    && SymFor(c.variant, c.encSyms[d.encSymOffset + i], Cum(c, d, i), Cum(c, d, i + 1) - Cum(c, d, i),
              c.symbolBits)
  }

  ghost predicate ValidDist(c: Coder, d: Dist) {
    && 1 <= d.sentinel < 0x7FFF_FFFF
    && d.encSymOffset + d.sentinel < |c.encSyms|
    && d.decCdfOffset + d.sentinel + 1 < |c.cdf|
    && Cum(c, d, 0) == 0
    && forall i: nat :: i <= d.sentinel ==> ValidSymbol(c, d, i)
  }

  /** What RansCoder::create guarantees of an accepted coder. */
  ghost predicate ValidCoder(c: Coder) {
    && 2 <= c.symbolBits <= MaxScaleBits(c.variant)
    && 2 <= c.bypassBits <= MaxScaleBits(c.variant)
    && c.bypassMax == Pow2(c.bypassBits) - 1
    && c.dists != []
    && |c.dists| < 0x8000_0000
    && forall k :: 0 <= k < |c.dists| ==> ValidDist(c, c.dists[k])
  }

  /** Both scales divide the lower bound of the state interval. */
  predicate Invertible(c: Coder) {
    Divides(c.variant, c.symbolBits) && Divides(c.variant, c.bypassBits)
  }

  // ---------------------------------------------------------------- encoding

  function DistIndex(c: Coder, index: nat): nat
    requires c.dists != []
  {
    if index >= |c.dists| then |c.dists| - 1 else index
  }

  function DistOf(c: Coder, index: nat): Dist
    requires c.dists != []
  {
    c.dists[DistIndex(c, index)]
  }

  predicate Escaped(d: Dist, shifted: int) {
    shifted < 0 || shifted >= d.sentinel
  }

  /** Negative values take odd codes, values from the sentinel up take even ones. */
  function EscapeCode(d: Dist, shifted: int): nat
    requires Escaped(d, shifted)
  {
    if shifted < 0 then 2 * -shifted - 1 else 2 * (shifted - d.sentinel)
  }

  function PutOne(c: Coder, value: nat, s: Stream): Stream
    requires c.bypassBits <= MaxScaleBits(c.variant)
  {
    ShiftLeftIs(1, StateBits(c.variant) - c.bypassBits);
    PutRaw(c.variant, value, 1, c.bypassBits, s)
  }

  lemma ShiftShrinks(n: nat, bits: nat)
    requires n > 0 && bits > 0
    ensures ShiftRight(n, bits) < n
    decreases bits
  {
    if bits > 1 && n / 2 > 0 {
      ShiftShrinks(n / 2, bits - 1);
    } else if bits > 1 {
      ShiftRightIs(0, bits - 1);
    }
  }

  function DigitCount(n: nat, bits: nat): nat
    requires bits > 0
  {
    if n == 0 then 0 else ShiftShrinks(n, bits); 1 + DigitCount(ShiftRight(n, bits), bits)
  }

  /** The digits of n go in with the highest first, so the lowest comes out first. */
  function PutDigits(c: Coder, n: nat, s: Stream): Stream
    requires 0 < c.bypassBits <= MaxScaleBits(c.variant)
    decreases n
  {
    if n == 0 then s
    else
      ShiftShrinks(n, c.bypassBits);
      PutOne(c, LowBits(n, c.bypassBits), PutDigits(c, ShiftRight(n, c.bypassBits), s))
  }

  /** A count is a run of bypassMax digits and one smaller digit, which goes in first. */
  function PutCount(c: Coder, n: nat, s: Stream): Stream
    requires 0 < c.bypassBits <= MaxScaleBits(c.variant) && c.bypassMax > 0
    decreases n
  {
    if n >= c.bypassMax
    then PutOne(c, c.bypassMax, PutCount(c, n - c.bypassMax, s))
    else PutOne(c, n, s)
  }

  function PutBypass(c: Coder, code: nat, s: Stream): Stream
    requires 0 < c.bypassBits <= MaxScaleBits(c.variant) && c.bypassMax > 0
  {
    PutCount(c, DigitCount(code, c.bypassBits), PutDigits(c, code, s))
  }

  lemma CoderBasics(c: Coder)
    requires ValidCoder(c)
    ensures 0 < c.bypassBits <= MaxScaleBits(c.variant) && c.bypassMax >= 3
    ensures c.bypassMax < Pow2(c.bypassBits)
  {
    Pow2Monotone(2, c.bypassBits);
    assert Pow2(2) == 4;
  }

  function PutSymbol(c: Coder, d: Dist, i: nat, s: Stream): Stream
    requires ValidCoder(c) && ValidDist(c, d) && i <= d.sentinel
  {
    assert ValidSymbol(c, d, i);
    XMaxAgrees(c.variant, c.encSyms[d.encSymOffset + i], Cum(c, d, i), Cum(c, d, i + 1) - Cum(c, d, i),
               c.symbolBits);
    PutSym(c.variant, c.encSyms[d.encSymOffset + i], s)
  }

  /** Encodes a value already shifted by the offset of its distribution. */
  function EncodeShifted(c: Coder, d: Dist, shifted: int, s: Stream): Stream
    requires ValidCoder(c) && ValidDist(c, d)
  {
    CoderBasics(c);
    if Escaped(d, shifted)
    then PutSymbol(c, d, d.sentinel, PutBypass(c, EscapeCode(d, shifted), s))
    else PutSymbol(c, d, shifted, s)
  }

  function EncodeOne(c: Coder, index: int, value: int, s: Stream): Stream
    requires ValidCoder(c)
  {
    if index < 0 then s
    else EncodeShifted(c, DistOf(c, index), value + DistOf(c, index).valueOffset, s)
  }

  /** Values are encoded from the last to the first. */
  function EncodeSeq(c: Coder, indices: seq<int>, values: seq<int>, s: Stream): Stream
    requires ValidCoder(c) && |indices| == |values|
  {
    if indices == [] then s
    else EncodeOne(c, indices[0], values[0], EncodeSeq(c, indices[1..], values[1..], s))
  }

  // ---------------------------------------------------------------- decoding

  function GetOne(c: Coder, s: Stream): Option<(nat, Stream)>
  {
    var value := LowBits(s.x, c.bypassBits);
    match Advance(c.variant, value, 1, c.bypassBits, s)
    case None => None
    case Some(t) => Some((value, t))
  }

  function MaxDigits(c: Coder): nat
    requires c.bypassBits > 0
  {
    DivLower(32, c.bypassBits, 0);
    32 / c.bypassBits
  }

  /** The digit count, read symbol by symbol and given up as soon as the sum exceeds max. */
  function GetCount(c: Coder, max: nat, sum: nat, s: Stream): Option<(nat, Stream)>
    requires c.bypassMax > 0
    decreases max - sum
  {
    match GetOne(c, s)
    case None => None
    case Some((value, t)) =>
      if sum + value > max then None
      else if value == c.bypassMax then GetCount(c, max, sum + value, t)
      else Some((sum + value, t))
  }

  function GetDigits(c: Coder, count: nat, s: Stream): Option<(nat, Stream)>
  {
    if count == 0 then Some((0, s))
    else
      match GetOne(c, s)
      case None => None
      case Some((value, t)) =>
        match GetDigits(c, count - 1, t)
        case None => None
        case Some((rest, u)) => Some((value + ShiftLeft(rest, c.bypassBits), u))
  }

  function GetBypass(c: Coder, s: Stream): Option<(nat, Stream)>
    requires c.bypassBits > 0 && c.bypassMax > 0
  {
    match GetCount(c, MaxDigits(c), 0, s)
    case None => None
    case Some((count, t)) => GetDigits(c, count, t)
  }

  /** The least symbol from i on whose upper bound exceeds cum, or n when there is none. */
  function FindSymbol(base: seq<nat>, i: nat, n: nat, cum: nat): (r: nat)
    requires i <= n < |base|
    ensures i <= r <= n
    ensures forall j :: i < j <= r ==> base[j] <= cum
    ensures r < n ==> cum < base[r + 1]
    decreases n - i
  {
    if i == n || cum < base[i + 1] then i else FindSymbol(base, i + 1, n, cum)
  }

  /** The part of the cumulative table that belongs to d. */
  function Segment(c: Coder, d: Dist): seq<nat>
    requires d.decCdfOffset + d.sentinel + 1 < |c.cdf|
  {
    c.cdf[d.decCdfOffset..d.decCdfOffset + d.sentinel + 2]
  }

  function SymbolAt(c: Coder, d: Dist, s: Stream): nat
    requires ValidCoder(c) && ValidDist(c, d)
  {
    FindSymbol(Segment(c, d), 0, d.sentinel + 1, LowBits(s.x, c.symbolBits))
  }

  function Unescape(d: Dist, code: nat): int {
    if code % 2 == 1 then -(code / 2) - 1 else code / 2 + d.sentinel
  }

  lemma BelowSymbol(c: Coder, d: Dist, s: Stream, j: nat)
    requires ValidCoder(c) && ValidDist(c, d) && 0 < j <= SymbolAt(c, d, s)
    ensures Cum(c, d, j) <= LowBits(s.x, c.symbolBits)
  {
    assert Segment(c, d)[j] <= LowBits(s.x, c.symbolBits);
  }

  lemma SymbolAtBounds(c: Coder, d: Dist, s: Stream)
    requires ValidCoder(c) && ValidDist(c, d)
    ensures SymbolAt(c, d, s) <= d.sentinel ==>
              Cum(c, d, SymbolAt(c, d, s)) <= LowBits(s.x, c.symbolBits) < Cum(c, d, SymbolAt(c, d, s) + 1)
  {
    var i := SymbolAt(c, d, s);
    if 0 < i {
      BelowSymbol(c, d, s, i);
    }
  }

  /** Decodes a value still shifted by the offset of its distribution. */
  function DecodeShifted(c: Coder, d: Dist, s: Stream): Option<(int, Stream)>
    requires ValidCoder(c) && ValidDist(c, d)
  {
    CoderBasics(c);
    var i := SymbolAt(c, d, s);
    if i > d.sentinel then None
    else
      SymbolAtBounds(c, d, s);
      assert ValidSymbol(c, d, i);
      match Advance(c.variant, Cum(c, d, i), Cum(c, d, i + 1) - Cum(c, d, i), c.symbolBits, s)
      case None => None
      case Some(t) =>
        if i < d.sentinel then Some((i, t))
        else
          match GetBypass(c, t)
          case None => None
          case Some((code, u)) => Some((Unescape(d, code), u))
  }

  function DecodeOne(c: Coder, index: int, s: Stream): Option<(int, Stream)>
    requires ValidCoder(c)
  {
    if index < 0 then Some((0, s))
    else
      match DecodeShifted(c, DistOf(c, index), s)
      case None => None
      case Some((shifted, t)) => Some((shifted - DistOf(c, index).valueOffset, t))
  }

  function DecodeSeq(c: Coder, indices: seq<int>, s: Stream): Option<(seq<int>, Stream)>
    requires ValidCoder(c)
  {
    if indices == [] then Some(([], s))
    else
      match DecodeOne(c, indices[0], s)
      case None => None
      case Some((value, t)) =>
        match DecodeSeq(c, indices[1..], t)
        case None => None
        case Some((rest, u)) => Some(([value] + rest, u))
  }
}
