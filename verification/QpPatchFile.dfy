/** The QPP1 file: written by one program, applied by two. */
module QpPatchFiles {
  import opened Words
  import opened Statuses
  import opened Crc
  import opened QpPatch

  function AsNat(c: bv32): (n: nat)
    ensures n < 0x1_0000_0000
  {
    c as nat
  }

  function CrcOf(data: seq<Byte>): U32 {
    AsNat(Crc32(data))
  }

  // ---------------------------------------------------------------- writing

  predicate Fits32(r: Range) {
    r.off < 0x1_0000_0000 && r.len < 0x1_0000_0000
  }

  function RangeBytes(r: Range): (s: seq<Byte>)
    requires Fits32(r)
    ensures |s| == RANGE_SIZE
  {
    Le4(r.off) + Le4(r.len)
  }

  function RangesBytes(rs: seq<Range>): (s: seq<Byte>)
    requires forall i :: 0 <= i < |rs| ==> Fits32(rs[i])
    ensures |s| == RANGE_SIZE * |rs|
  {
    if rs == [] then [] else RangesBytes(rs[..|rs| - 1]) + RangeBytes(rs[|rs| - 1])
  }

  /** Up to the number of ranges. */
  function HeaderHead(size: U32, qp: U32, num: U32): (s: seq<Byte>)
    ensures |s| == 24
  {
    MAGIC + Le4(1) + (Le4(size) + Le4(0)) + Le4(qp) + Le4(num)
  }

  function HeaderTail(baseCrc: U32, payloadCrc: U32, gap: U32): (s: seq<Byte>)
    ensures |s| == 24
  {
    Le4(0) + Le4(baseCrc) + Le4(payloadCrc) + Le4(gap) + [0, 0, 0, 0, 0, 0, 0, 0]
  }

  function HeaderBytes(size: U32, qp: U32, num: U32, baseCrc: U32, payloadCrc: U32, gap: U32): (s: seq<Byte>)
    ensures |s| == HEADER_SIZE
  {
    HeaderHead(size, qp, num) + HeaderTail(baseCrc, payloadCrc, gap)
  }

  /** Ranges as diff_ranges returns them. */
  ghost predicate Differences(rs: seq<Range>, base: seq<Byte>, target: seq<Byte>, gap: int) {
    && |base| == |target| < SIZE_LIMIT && gap >= 0
    && IsDiff(rs, base, target, gap)
  }

  /** Ranges more than gap apart: each starts at least step bytes behind the one before it. */
  lemma {:induction false} RangeStarts(rs: seq<Range>, base: seq<Byte>, target: seq<Byte>, gap: int, i: nat, step: nat)
    requires Differences(rs, base, target, gap) && i < |rs| && step <= gap + 2 && step in {2, 9}
    ensures (if step == 2 then 2 * i else 9 * i) <= rs[i].off
  {
    if i > 0 {
      RangeStarts(rs, base, target, gap, i - 1, step);
      assert Tight(rs[i - 1], base, target);
      assert End(rs[i - 1]) + gap < rs[i].off;
    }
  }

  lemma RangesFit(rs: seq<Range>, base: seq<Byte>, target: seq<Byte>, gap: int)
    requires Differences(rs, base, target, gap)
    ensures |rs| < 0x1_0000_0000 && InBounds(rs, |base|)
    ensures forall i :: 0 <= i < |rs| ==> Fits32(rs[i])
    ensures gap >= 7 ==> |rs| <= RANGE_LIMIT
  {
    forall i | 0 <= i < |rs| ensures End(rs[i]) <= |base| && Fits32(rs[i]) && rs[i].off < |base| {
      assert Tight(rs[i], base, target);
    }
    if rs != [] {
      RangeStarts(rs, base, target, gap, |rs| - 1, 2);
      if gap >= 7 {
        RangeStarts(rs, base, target, gap, |rs| - 1, 9);
      }
    }
  }

  function FileBytes(base: seq<Byte>, target: seq<Byte>, rs: seq<Range>, qp: U32, gap: U32): seq<Byte>
    requires |base| == |target| < SIZE_LIMIT && |rs| < 0x1_0000_0000 && InBounds(rs, |base|)
    requires forall i :: 0 <= i < |rs| ==> Fits32(rs[i])
  {
    var payload := PayloadOf(target, rs);
    HeaderBytes(|base|, qp, |rs|, CrcOf(base), CrcOf(payload), gap) + RangesBytes(rs) + payload
  }

  lemma BoundsNext(rs: seq<Range>, i: nat, n: nat)
    requires i < |rs|
    ensures InBounds(rs[..i + 1], n) <==> InBounds(rs[..i], n) && End(rs[i]) <= n
  {
    assert rs[..i + 1] == rs[..i] + [rs[i]];
    if InBounds(rs[..i + 1], n) {
      assert rs[..i + 1][i] == rs[i];
      forall j | 0 <= j < i ensures End(rs[..i][j]) <= n {
        assert rs[..i + 1][j] == rs[..i][j];
      }
    }
  }

  lemma BoundsOf(rs: seq<Range>, i: nat, n: nat)
    requires i < |rs|
    ensures InBounds(rs, n) ==> End(rs[i]) <= n
  {
  }

  method JoinSlices(target: seq<Byte>, rs: seq<Range>) returns (payload: seq<Byte>)
    requires InBounds(rs, |target|)
    ensures payload == PayloadOf(target, rs)
  {
    payload := [];
    var i := 0;
    while i < |rs|
      invariant 0 <= i <= |rs| && InBounds(rs[..i], |target|) && payload == PayloadOf(target, rs[..i])
    {
      assert rs[..i + 1] == rs[..i] + [rs[i]];
      BoundsNext(rs, i, |target|);
      BoundsOf(rs, i, |target|);
      PayloadLast(target, rs[..i + 1], rs[..i], rs[i]);
      payload := payload + target[rs[i].off..End(rs[i])];
      i := i + 1;
    }
    assert rs[..i] == rs;
  }

  method PackRanges(rs: seq<Range>) returns (body: seq<Byte>)
    requires forall i :: 0 <= i < |rs| ==> Fits32(rs[i])
    ensures body == RangesBytes(rs)
  {
    body := [];
    var i := 0;
    while i < |rs|
      invariant 0 <= i <= |rs| && body == RangesBytes(rs[..i])
    {
      assert rs[..i + 1][..i] == rs[..i];
      body := body + RangeBytes(rs[i]);
      i := i + 1;
    }
    assert rs[..i] == rs;
  }

  /** encode(): the packing refuses what does not fit its fields. */
  method Encode(base: seq<Byte>, target: seq<Byte>, qp: int, gap: int) returns (r: Result<seq<Byte>>, ghost rs: seq<Range>)
    ensures r.Success? <==> 0 <= qp < 0x1_0000_0000 && 0 <= gap < 0x1_0000_0000 && |base| == |target| < SIZE_LIMIT
    ensures r.Success? ==>
              Differences(rs, base, target, gap)
              && |rs| < 0x1_0000_0000 && InBounds(rs, |base|) && (forall i :: 0 <= i < |rs| ==> Fits32(rs[i]))
              && r.value == FileBytes(base, target, rs, qp, gap)
  {
    rs := [];
    if qp < 0 {
      return Failure(Invalid), rs;
    }
    var diff := DiffRanges(base, target, gap);
    if diff.Failure? {
      return Failure(diff.status), rs;
    }
    var ranges := diff.value;
    rs := ranges;
    RangesFit(ranges, base, target, Apart(gap));
    var payload := JoinSlices(target, ranges);
    if qp > 0xFFFF_FFFF || gap < 0 || gap > 0xFFFF_FFFF {
      return Failure(Invalid), rs;
    }
    var baseCrc := Crc32ByBits(base);
    var payloadCrc := Crc32ByBits(payload);
    var header := HeaderBytes(|base|, qp, |ranges|, AsNat(baseCrc), AsNat(payloadCrc), gap);
    var body := PackRanges(ranges);
    return Success(header + body + payload), rs;
  }

  // ---------------------------------------------------------------- reading

  function NumRanges(p: seq<Byte>): U32
    requires |p| >= HEADER_SIZE
  {
    ReadU32(p, 20)
  }

  function PayloadStart(p: seq<Byte>): nat
    requires |p| >= HEADER_SIZE
  {
    HEADER_SIZE + RANGE_SIZE * NumRanges(p)
  }

  function RangeAt(p: seq<Byte>, i: nat): Range
    requires HEADER_SIZE + RANGE_SIZE * (i + 1) <= |p|
  {
    Range(ReadU32(p, HEADER_SIZE + RANGE_SIZE * i), ReadU32(p, HEADER_SIZE + RANGE_SIZE * i + 4))
  }

  function RangesOf(p: seq<Byte>): (rs: seq<Range>)
    requires |p| >= HEADER_SIZE && PayloadStart(p) <= |p|
    ensures |rs| == NumRanges(p)
  {
    seq(NumRanges(p), i requires 0 <= i < NumRanges(p) => RangeAt(p, i))
  }

  /** The header fits the base. */
  predicate HeaderOk(base: seq<Byte>, p: seq<Byte>) {
    && |p| >= HEADER_SIZE && p[..4] == MAGIC && ReadU32(p, 4) == 1 && ReadU32(p, 24) == 0
    && ReadU32(p, 8) + 0x1_0000_0000 * ReadU32(p, 12) == |base|
    && CrcOf(base) == ReadU32(p, 28)
  }

  /** The ranges lie in the base and account for the whole payload, whose sum is right. */
  predicate BodyOk(base: seq<Byte>, p: seq<Byte>)
    requires |p| >= HEADER_SIZE
  {
    && PayloadStart(p) <= |p|
    && InBounds(RangesOf(p), |base|)
    && Total(RangesOf(p)) == |p| - PayloadStart(p)
    && CrcOf(p[PayloadStart(p)..]) == ReadU32(p, 32)
  }

  function Applied(base: seq<Byte>, p: seq<Byte>): seq<Byte>
    requires HeaderOk(base, p) && BodyOk(base, p)
  {
    Pasted(base, RangesOf(p), p[PayloadStart(p)..])
  }

  predicate PyAccepts(base: seq<Byte>, p: seq<Byte>, expectedQp: Option<int>) {
    HeaderOk(base, p) && (expectedQp.Some? ==> ReadU32(p, 16) == expectedQp.value) && BodyOk(base, p)
  }

  /** The C++ side asks for no qp with a negative number, and bounds the number of ranges. */
  predicate CppAccepts(base: seq<Byte>, p: seq<Byte>, expectedQp: int) {
    && HeaderOk(base, p) && (expectedQp >= 0 ==> ReadU32(p, 16) == expectedQp)
    && NumRanges(p) <= RANGE_LIMIT && BodyOk(base, p)
  }

  // ---------------------------------------------------------------- what was written reads back

  lemma HeadSlices(size: U32, qp: U32, num: U32)
    ensures var p := HeaderHead(size, qp, num);
            p[..4] == MAGIC && p[4..8] == Le4(1) && p[8..12] == Le4(size) && p[12..16] == Le4(0)
            && p[16..20] == Le4(qp) && p[20..24] == Le4(num)
  {
  }

  lemma TailSlices(baseCrc: U32, payloadCrc: U32, gap: U32)
    ensures var p := HeaderTail(baseCrc, payloadCrc, gap);
            p[..4] == Le4(0) && p[4..8] == Le4(baseCrc) && p[8..12] == Le4(payloadCrc)
  {
  }

  lemma HeaderSlices(size: U32, qp: U32, num: U32, baseCrc: U32, payloadCrc: U32, gap: U32, rest: seq<Byte>)
    ensures var p := HeaderBytes(size, qp, num, baseCrc, payloadCrc, gap) + rest;
            p[..4] == MAGIC && p[4..8] == Le4(1) && p[8..12] == Le4(size) && p[12..16] == Le4(0)
            && p[16..20] == Le4(qp) && p[20..24] == Le4(num) && p[24..28] == Le4(0)
            && p[28..32] == Le4(baseCrc) && p[32..36] == Le4(payloadCrc) && p[HEADER_SIZE..] == rest
  {
    HeadSlices(size, qp, num);
    TailSlices(baseCrc, payloadCrc, gap);
    var a, b := HeaderHead(size, qp, num), HeaderTail(baseCrc, payloadCrc, gap);
    var p := HeaderBytes(size, qp, num, baseCrc, payloadCrc, gap) + rest;
    assert [] + a + (b + rest) == p == a + b + rest;
    forall i: nat, j: nat | i <= j <= 24 ensures p[i..j] == a[i..j] && p[24 + i..24 + j] == b[i..j] {
      SliceIn([], a, b + rest, i, j);
      SliceIn(a, b, rest, i, j);
    }
  }

  lemma HeaderReads(size: U32, qp: U32, num: U32, baseCrc: U32, payloadCrc: U32, gap: U32, rest: seq<Byte>)
    ensures var p := HeaderBytes(size, qp, num, baseCrc, payloadCrc, gap) + rest;
            p[..4] == MAGIC && ReadU32(p, 4) == 1 && ReadU32(p, 8) == size && ReadU32(p, 12) == 0
            && ReadU32(p, 16) == qp && ReadU32(p, 20) == num && ReadU32(p, 24) == 0
            && ReadU32(p, 28) == baseCrc && ReadU32(p, 32) == payloadCrc
  {
    HeaderSlices(size, qp, num, baseCrc, payloadCrc, gap, rest);
    Le4RoundTrip(1);
    Le4RoundTrip(0);
    Le4RoundTrip(size);
    Le4RoundTrip(qp);
    Le4RoundTrip(num);
    Le4RoundTrip(baseCrc);
    Le4RoundTrip(payloadCrc);
  }

  lemma {:induction false} RangesSlice(rs: seq<Range>, i: nat)
    requires (forall j :: 0 <= j < |rs| ==> Fits32(rs[j])) && i < |rs|
    ensures RangesBytes(rs)[RANGE_SIZE * i..RANGE_SIZE * i + 8] == RangeBytes(rs[i])
  {
    var n := |rs| - 1;
    if i < n {
      RangesSlice(rs[..n], i);
      assert RangesBytes(rs)[RANGE_SIZE * i..RANGE_SIZE * i + 8] == RangesBytes(rs[..n])[RANGE_SIZE * i..RANGE_SIZE * i + 8];
    }
  }

  lemma SliceIn(head: seq<Byte>, mid: seq<Byte>, tail: seq<Byte>, i: nat, j: nat)
    requires i <= j <= |mid|
    ensures (head + mid + tail)[|head| + i..|head| + j] == mid[i..j]
  {
  }

  lemma Halves(b: seq<Byte>, at: nat, x: seq<Byte>, y: seq<Byte>)
    requires at + 8 <= |b| && b[at..at + 8] == x + y && |x| == 4 && |y| == 4
    ensures b[at..at + 4] == x && b[at + 4..at + 8] == y
  {
    assert b[at..at + 4] == b[at..at + 8][..4] == x;
    assert b[at + 4..at + 8] == b[at..at + 8][4..] == y;
  }

  lemma RangeHalves(rs: seq<Range>, i: nat)
    requires (forall j :: 0 <= j < |rs| ==> Fits32(rs[j])) && i < |rs|
    ensures RangesBytes(rs)[RANGE_SIZE * i..RANGE_SIZE * i + 4] == Le4(rs[i].off)
    ensures RangesBytes(rs)[RANGE_SIZE * i + 4..RANGE_SIZE * i + 8] == Le4(rs[i].len)
  {
    RangesSlice(rs, i);
    HalvesOf(RangesBytes(rs), RANGE_SIZE * i, rs[i]);
  }

  lemma HalvesOf(b: seq<Byte>, at: nat, r: Range)
    requires Fits32(r) && at + RANGE_SIZE <= |b| && b[at..at + RANGE_SIZE] == RangeBytes(r)
    ensures b[at..at + 4] == Le4(r.off) && b[at + 4..at + 8] == Le4(r.len)
  {
    Halves(b, at, Le4(r.off), Le4(r.len));
  }

  lemma RangeReads(head: seq<Byte>, rs: seq<Range>, payload: seq<Byte>, i: nat)
    requires |head| == HEADER_SIZE && (forall j :: 0 <= j < |rs| ==> Fits32(rs[j])) && i < |rs|
    ensures RangeAt(head + RangesBytes(rs) + payload, i) == rs[i]
  {
    var at := RANGE_SIZE * i;
    RangeHalves(rs, i);
    SliceIn(head, RangesBytes(rs), payload, at, at + 4);
    SliceIn(head, RangesBytes(rs), payload, at + 4, at + 8);
    Le4RoundTrip(rs[i].off);
    Le4RoundTrip(rs[i].len);
  }

  lemma BodyReads(head: seq<Byte>, rs: seq<Range>, payload: seq<Byte>)
    requires |head| == HEADER_SIZE && (forall j :: 0 <= j < |rs| ==> Fits32(rs[j])) && |rs| < 0x1_0000_0000
    requires ReadU32(head + RangesBytes(rs) + payload, 20) == |rs|
    ensures var p := head + RangesBytes(rs) + payload;
            PayloadStart(p) <= |p| && RangesOf(p) == rs && p[PayloadStart(p)..] == payload
  {
    var p := head + RangesBytes(rs) + payload;
    forall i | 0 <= i < |rs| ensures RangeAt(p, i) == rs[i] {
      RangeReads(head, rs, payload, i);
    }
    assert |RangesOf(p)| == |rs|;
  }

  /** A written file fits its base, is accepted, and turns the base into the target. */
  lemma FileApplies(base: seq<Byte>, target: seq<Byte>, rs: seq<Range>, qp: U32, gap: U32)
    requires Differences(rs, base, target, gap)
    requires |rs| < 0x1_0000_0000 && InBounds(rs, |base|) && forall i :: 0 <= i < |rs| ==> Fits32(rs[i])
    ensures var p := FileBytes(base, target, rs, qp, gap);
            && HeaderOk(base, p) && BodyOk(base, p) && Applied(base, p) == target
            && ReadU32(p, 16) == qp && NumRanges(p) == |rs|
  {
    var payload := PayloadOf(target, rs);
    var head := HeaderBytes(|base|, qp, |rs|, CrcOf(base), CrcOf(payload), gap);
    assert head + RangesBytes(rs) + payload == head + (RangesBytes(rs) + payload);
    HeaderReads(|base|, qp, |rs|, CrcOf(base), CrcOf(payload), gap, RangesBytes(rs) + payload);
    BodyReads(head, rs, payload);
    PastedTarget(base, target, rs);
  }

  /**
   * The delta round trip. Python always gives back the target; C++ does exactly when the ranges can
   * be counted, which they can for every gap of 7 or more.
   */
  lemma DeltaRoundTrip(base: seq<Byte>, target: seq<Byte>, rs: seq<Range>, qp: U32, gap: U32)
    requires Differences(rs, base, target, gap)
    ensures |rs| < 0x1_0000_0000 && InBounds(rs, |base|) && forall i :: 0 <= i < |rs| ==> Fits32(rs[i])
    ensures var p := FileBytes(base, target, rs, qp, gap);
            && PyAccepts(base, p, Some(qp)) && Applied(base, p) == target
            && (CppAccepts(base, p, qp) <==> |rs| <= RANGE_LIMIT)
            && (gap >= 7 ==> CppAccepts(base, p, qp))
  {
    RangesFit(rs, base, target, gap);
    FileApplies(base, target, rs, qp, gap);
  }

  // ---------------------------------------------------------------- when C++ takes what was written

  /** A file that encode() may have written for a base. */
  ghost predicate Written(base: seq<Byte>, p: seq<Byte>, qp: U32, gap: U32) {
    exists target, rs :: WrittenFrom(base, target, rs, p, qp, gap)
  }

  ghost predicate WrittenFrom(base: seq<Byte>, target: seq<Byte>, rs: seq<Range>, p: seq<Byte>, qp: U32, gap: U32) {
    && Differences(rs, base, target, gap)
    && |rs| < 0x1_0000_0000 && InBounds(rs, |base|) && (forall i :: 0 <= i < |rs| ==> Fits32(rs[i]))
    && p == FileBytes(base, target, rs, qp, gap)
  }

  /** One byte in eight differs, n + 1 of them in all. */
  function Sparse(n: nat): seq<Byte> {
    seq(8 * n + 1, k requires 0 <= k => if k % 8 == 0 then 1 else 0)
  }

  function Blank(n: nat): seq<Byte> {
    seq(8 * n + 1, _ => 0)
  }

  function SparseRanges(n: nat): seq<Range> {
    seq(n + 1, i requires 0 <= i => Range(8 * i, 1))
  }

  lemma SparseDense(n: nat, gap: nat)
    ensures Dense(SparseRanges(n), Blank(n), Sparse(n), gap)
  {
    forall i | 0 <= i < n + 1 ensures DenseRange(SparseRanges(n)[i], Blank(n), Sparse(n), 0) {
      assert Blank(n)[8 * i] == 0 && Sparse(n)[8 * i] == 1;
      Differs(Blank(n), Sparse(n), 8 * i, 0, 8 * i);
    }
    forall i | 0 <= i < n + 1 ensures DenseRange(SparseRanges(n)[i], Blank(n), Sparse(n), gap) {
      DenseAnyGap(SparseRanges(n)[i], Blank(n), Sparse(n), gap);
    }
  }

  /** Seven equal bytes between two that differ: no gap below seven joins them. */
  lemma SparseDifferences(n: nat, gap: nat)
    requires gap < 7 && 8 * n + 1 < SIZE_LIMIT
    ensures Differences(SparseRanges(n), Blank(n), Sparse(n), gap)
  {
    SparseDense(n, gap);
    forall k: nat | k < 8 * n + 1 && Blank(n)[k] != Sparse(n)[k] ensures Covered(k, SparseRanges(n)) {
      assert k == 8 * (k / 8) && Inside(k, SparseRanges(n)[k / 8]);
    }
  }

  /** Gap zero is such a gap: a file of RANGE_LIMIT + 1 ranges that Python applies and C++ refuses. */
  lemma SparseFileRefused(qp: U32, gap: U32)
    requires gap < 7
    ensures var rs := SparseRanges(RANGE_LIMIT);
            && |rs| == RANGE_LIMIT + 1 && InBounds(rs, |Blank(RANGE_LIMIT)|) && (forall i :: 0 <= i < |rs| ==> Fits32(rs[i]))
            && var p := FileBytes(Blank(RANGE_LIMIT), Sparse(RANGE_LIMIT), rs, qp, gap);
               && WrittenFrom(Blank(RANGE_LIMIT), Sparse(RANGE_LIMIT), rs, p, qp, gap)
               && PyAccepts(Blank(RANGE_LIMIT), p, Some(qp)) && !CppAccepts(Blank(RANGE_LIMIT), p, qp)
  {
    SparseDifferences(RANGE_LIMIT, gap);
    DeltaRoundTrip(Blank(RANGE_LIMIT), Sparse(RANGE_LIMIT), SparseRanges(RANGE_LIMIT), qp, gap);
  }

  /** C++ takes every file that can be written with a gap exactly when the gap is at least seven. */
  lemma CppTakesAllIff(gap: U32)
    ensures (forall base, p, qp: U32 :: Written(base, p, qp, gap) ==> CppAccepts(base, p, qp)) <==> gap >= 7
  {
    if gap >= 7 {
      forall base, p, qp: U32 | Written(base, p, qp, gap) ensures CppAccepts(base, p, qp) {
        var target, rs :| WrittenFrom(base, target, rs, p, qp, gap);
        DeltaRoundTrip(base, target, rs, qp, gap);
      }
    } else {
      SparseFileRefused(0, gap);
      var rs := SparseRanges(RANGE_LIMIT);
      var p := FileBytes(Blank(RANGE_LIMIT), Sparse(RANGE_LIMIT), rs, 0, gap);
      assert WrittenFrom(Blank(RANGE_LIMIT), Sparse(RANGE_LIMIT), rs, p, 0, gap);
      assert Written(Blank(RANGE_LIMIT), p, 0, gap) && !CppAccepts(Blank(RANGE_LIMIT), p, 0);
    }
  }

  // ---------------------------------------------------------------- the two programs

  /** The base after i ranges. */
  ghost predicate PastedUpTo(base: seq<Byte>, rs: seq<Range>, payload: seq<Byte>, i: nat, out: seq<Byte>)
    requires i <= |rs|
  {
    InBounds(rs[..i], |base|) && Total(rs[..i]) <= |payload| && out == Pasted(base, rs[..i], payload)
  }

  lemma PastedNext(base: seq<Byte>, rs: seq<Range>, payload: seq<Byte>, i: nat, out: seq<Byte>, data: seq<Byte>)
    requires i < |rs| && PastedUpTo(base, rs, payload, i, out) && End(rs[i]) <= |base|
    requires Total(rs[..i]) + rs[i].len <= |payload|
    requires data == payload[Total(rs[..i])..Total(rs[..i]) + rs[i].len]
    ensures |out| == |base| && PastedUpTo(base, rs, payload, i + 1, Paste(out, rs[i].off, data))
  {
    TotalNext(rs, i);
    assert rs[..i + 1][..i] == rs[..i] && rs[..i + 1][i] == rs[i];
    assert InBounds(rs[..i + 1], |base|);
  }

  /** apply() of the Python tool. */
  method ApplyPy(base: seq<Byte>, blob: seq<Byte>, expectedQp: Option<int>) returns (r: Result<seq<Byte>>)
    ensures r == if PyAccepts(base, blob, expectedQp) then Success(Applied(base, blob)) else Failure(Format)
  {
    if |blob| < HEADER_SIZE || blob[..4] != MAGIC || ReadU32(blob, 4) != 1 {
      return Failure(Format);
    }
    if ReadU32(blob, 24) != 0 {
      return Failure(Format);
    }
    if expectedQp.Some? && ReadU32(blob, 16) != expectedQp.value {
      return Failure(Format);
    }
    if ReadU32(blob, 8) + 0x1_0000_0000 * ReadU32(blob, 12) != |base| {
      return Failure(Format);
    }
    var baseCrc := Crc32ByBits(base);
    if AsNat(baseCrc) != ReadU32(blob, 28) || |blob| < PayloadStart(blob) {
      return Failure(Format);
    }
    r := PasteAll(base, blob);
  }

  lemma SliceShift(p: seq<Byte>, start: nat, a: nat, b: nat)
    requires a <= b && start + b <= |p|
    ensures p[start..][a..b] == p[start + a..start + b]
  {
  }

  /** What the loops know of the next range: where its bytes are. */
  lemma NextBytes(p: seq<Byte>, i: nat, cursor: nat)
    requires |p| >= HEADER_SIZE && PayloadStart(p) <= |p| && i < NumRanges(p)
    requires cursor == PayloadStart(p) + Total(RangesOf(p)[..i])
    ensures RangeAt(p, i) == RangesOf(p)[i]
    ensures PayloadStart(p) + Total(RangesOf(p)[..i + 1]) == cursor + RangeAt(p, i).len
    ensures cursor + RangeAt(p, i).len <= |p| ==>
              p[cursor..cursor + RangeAt(p, i).len]
              == p[PayloadStart(p)..][Total(RangesOf(p)[..i])..Total(RangesOf(p)[..i]) + RangeAt(p, i).len]
  {
    TotalNext(RangesOf(p), i);
    var from, len := Total(RangesOf(p)[..i]), RangeAt(p, i).len;
    if cursor + len <= |p| {
      SliceShift(p, PayloadStart(p), from, from + len);
    }
  }

  /** And that it fits if the body is right. */
  lemma NextRange(base: seq<Byte>, p: seq<Byte>, i: nat, cursor: nat)
    requires |p| >= HEADER_SIZE && PayloadStart(p) <= |p| && i < NumRanges(p)
    requires cursor == PayloadStart(p) + Total(RangesOf(p)[..i])
    ensures End(RangeAt(p, i)) > |base| || cursor + RangeAt(p, i).len > |p| ==> !BodyOk(base, p)
  {
    NextBytes(p, i, cursor);
    TotalMonotone(RangesOf(p), i + 1);
  }

  /** One pass of the loop: the range is refused, or pasted. */
  method PasteNext(base: seq<Byte>, blob: seq<Byte>, i: nat, cursor: nat, out: seq<Byte>)
    returns (ok: bool, next: nat, o: seq<Byte>)
    requires |blob| >= HEADER_SIZE && PayloadStart(blob) <= |blob| && i < NumRanges(blob)
    requires cursor == PayloadStart(blob) + Total(RangesOf(blob)[..i])
    requires PastedUpTo(base, RangesOf(blob), blob[PayloadStart(blob)..], i, out)
    ensures !ok ==> !BodyOk(base, blob)
    ensures ok ==> next == PayloadStart(blob) + Total(RangesOf(blob)[..i + 1])
                   && PastedUpTo(base, RangesOf(blob), blob[PayloadStart(blob)..], i + 1, o)
  {
    var range := RangeAt(blob, i);
    NextBytes(blob, i, cursor);
    NextRange(base, blob, i, cursor);
    if End(range) > |out| || cursor + range.len > |blob| {
      return false, cursor, out;
    }
    PastedNext(base, RangesOf(blob), blob[PayloadStart(blob)..], i, out, blob[cursor..cursor + range.len]);
    return true, cursor + range.len, Paste(out, range.off, blob[cursor..cursor + range.len]);
  }

  /** The loop over the ranges, and the two checks behind it. */
  method PasteAll(base: seq<Byte>, blob: seq<Byte>) returns (r: Result<seq<Byte>>)
    requires HeaderOk(base, blob) && PayloadStart(blob) <= |blob|
    ensures r == if BodyOk(base, blob) then Success(Applied(base, blob)) else Failure(Format)
  {
    var out := base;
    var cursor: nat := PayloadStart(blob);
    var i := 0;
    while i < NumRanges(blob)
      invariant 0 <= i <= NumRanges(blob) && cursor == PayloadStart(blob) + Total(RangesOf(blob)[..i])
      invariant PastedUpTo(base, RangesOf(blob), blob[PayloadStart(blob)..], i, out)
    {
      var ok;
      ok, cursor, out := PasteNext(base, blob, i, cursor, out);
      if !ok {
        return Failure(Format);
      }
      i := i + 1;
    }
    assert RangesOf(blob)[..i] == RangesOf(blob);
    if cursor != |blob| {
      return Failure(Format);
    }
    var crc := Crc32ByBits(blob[PayloadStart(blob)..]);
    if AsNat(crc) != ReadU32(blob, 32) {
      return Failure(Format);
    }
    return Success(out);
  }

  /** The first pass of the C++ side: bounds and total, nothing written. */
  method CheckRanges(patch: seq<Byte>, baseSize: nat) returns (ok: bool)
    requires |patch| >= HEADER_SIZE && PayloadStart(patch) <= |patch|
    ensures ok <==> InBounds(RangesOf(patch), baseSize) && Total(RangesOf(patch)) == |patch| - PayloadStart(patch)
  {
    var need := 0;
    ghost var rs := RangesOf(patch);
    var i := 0;
    while i < NumRanges(patch)
      invariant 0 <= i <= NumRanges(patch) && InBounds(rs[..i], baseSize) && need == Total(rs[..i])
    {
      var range := RangeAt(patch, i);
      assert range == rs[i];
      TotalNext(rs, i);
      BoundsNext(rs, i, baseSize);
      BoundsOf(rs, i, baseSize);
      if range.off + range.len > baseSize {
        return false;
      }
      need := need + range.len;
      i := i + 1;
    }
    assert rs[..i] == rs;
    return need == |patch| - PayloadStart(patch);
  }

  /** One memcpy. */
  method Copy(base: array<Byte>, off: nat, data: seq<Byte>)
    requires off + |data| <= base.Length
    modifies base
    ensures base[..] == Paste(old(base[..]), off, data)
  {
    var k := 0;
    while k < |data|
      invariant 0 <= k <= |data|
      invariant forall j :: 0 <= j < base.Length ==>
                  base[j] == if off <= j < off + k then data[j - off] else old(base[j])
    {
      base[off + k] := data[k];
      k := k + 1;
    }
  }

  lemma TotalWithin(rs: seq<Range>, i: nat)
    requires i < |rs|
    ensures Total(rs[..i + 1]) == Total(rs[..i]) + rs[i].len <= Total(rs)
  {
    TotalNext(rs, i);
    TotalMonotone(rs, i + 1);
  }

  /** Range i fits the base, and its bytes the payload. */
  lemma RangeFits(patch: seq<Byte>, start: nat, rs: seq<Range>, i: nat, n: nat)
    requires start <= |patch| && i < |rs| && InBounds(rs, n) && Total(rs) == |patch| - start
    ensures Total(rs[..i + 1]) == Total(rs[..i]) + rs[i].len <= |patch| - start && End(rs[i]) <= n
  {
    TotalWithin(rs, i);
  }

  /** One pass of the copying loop. */
  method CopyNext(base: array<Byte>, patch: seq<Byte>, i: nat, cursor: nat, ghost b: seq<Byte>) returns (next: nat)
    requires |patch| >= HEADER_SIZE && PayloadStart(patch) <= |patch| && i < NumRanges(patch)
    requires InBounds(RangesOf(patch), |b|) && Total(RangesOf(patch)) == |patch| - PayloadStart(patch)
    requires cursor == PayloadStart(patch) + Total(RangesOf(patch)[..i])
    requires PastedUpTo(b, RangesOf(patch), patch[PayloadStart(patch)..], i, base[..])
    modifies base
    ensures next == PayloadStart(patch) + Total(RangesOf(patch)[..i + 1])
    ensures PastedUpTo(b, RangesOf(patch), patch[PayloadStart(patch)..], i + 1, base[..])
  {
    var range := RangeAt(patch, i);
    NextBytes(patch, i, cursor);
    RangeFits(patch, PayloadStart(patch), RangesOf(patch), i, |b|);
    var data := patch[cursor..cursor + range.len];
    PastedNext(b, RangesOf(patch), patch[PayloadStart(patch)..], i, base[..], data);
    Copy(base, range.off, data);
    next := cursor + range.len;
  }

  /** The second pass: the ranges copied into the base in place. */
  method CopyRanges(base: array<Byte>, patch: seq<Byte>)
    requires HeaderOk(base[..], patch) && BodyOk(base[..], patch)
    modifies base
    ensures base[..] == Applied(old(base[..]), patch)
  {
    ghost var b := base[..];
    var cursor: nat := PayloadStart(patch);
    var i := 0;
    while i < NumRanges(patch)
      invariant 0 <= i <= NumRanges(patch) && cursor == PayloadStart(patch) + Total(RangesOf(patch)[..i])
      invariant PastedUpTo(b, RangesOf(patch), patch[PayloadStart(patch)..], i, base[..])
    {
      cursor := CopyNext(base, patch, i, cursor, b);
      i := i + 1;
    }
    assert RangesOf(patch)[..i] == RangesOf(patch);
  }

  /** apply_qppatch: everything is checked before the first byte is written. */
  method ApplyQppatch(base: array<Byte>, patch: seq<Byte>, expectedQp: int) returns (st: Status)
    modifies base
    ensures st == if CppAccepts(old(base[..]), patch, expectedQp) then Ok else Format
    ensures st == Ok ==> base[..] == Applied(old(base[..]), patch)
    ensures st != Ok ==> base[..] == old(base[..])
  {
    if |patch| < HEADER_SIZE || patch[..4] != MAGIC || ReadU32(patch, 4) != 1 {
      return Format;
    }
    if ReadU32(patch, 8) + 0x1_0000_0000 * ReadU32(patch, 12) != base.Length {
      return Format;
    }
    if ReadU32(patch, 24) != 0 || (expectedQp >= 0 && ReadU32(patch, 16) != expectedQp) {
      return Format;
    }
    var baseCrc := Crc32ByTable(base[..]);
    if AsNat(baseCrc) != ReadU32(patch, 28) || NumRanges(patch) > RANGE_LIMIT {
      return Format;
    }
    if |patch| < PayloadStart(patch) {
      return Format;
    }
    var ok := CheckRanges(patch, base.Length);
    if !ok {
      return Format;
    }
    var crc := Crc32ByTable(patch[PayloadStart(patch)..]);
    if AsNat(crc) != ReadU32(patch, 32) {
      return Format;
    }
    CopyRanges(base, patch);
    return Ok;
  }

  /**
   * The two programs on one base and one patch: C++ succeeds exactly when Python does and it can count
   * the ranges, and then they leave the same bytes.
   */
  method ApplyBoth(base: array<Byte>, patch: seq<Byte>, expectedQp: Option<U32>) returns (r: Result<seq<Byte>>, st: Status)
    modifies base
    ensures r.Success? ==> |patch| >= HEADER_SIZE
    ensures st == Ok <==> r.Success? && NumRanges(patch) <= RANGE_LIMIT
    ensures st == Ok ==> r == Success(base[..])
    ensures st != Ok ==> base[..] == old(base[..])
  {
    var qp: Option<int> := if expectedQp.Some? then Some(expectedQp.value) else None;
    r := ApplyPy(base[..], patch, qp);
    st := ApplyQppatch(base, patch, if expectedQp.Some? then expectedQp.value else -1);
  }

  /** write_patch: the self-check after encoding never fails. */
  method WritePatch(base: seq<Byte>, target: seq<Byte>, qp: int, gap: int) returns (r: Result<seq<Byte>>)
    ensures r.Success? <==> 0 <= qp < 0x1_0000_0000 && 0 <= gap < 0x1_0000_0000 && |base| == |target| < SIZE_LIMIT
    ensures r.Success? ==> PyAccepts(base, r.value, Some(qp)) && Applied(base, r.value) == target
  {
    ghost var rs;
    r, rs := Encode(base, target, qp, gap);
    if r.Success? {
      DeltaRoundTrip(base, target, rs, qp, gap);
      var restored := ApplyPy(base, r.value, Some(qp));
      if restored.Failure? || restored.value != target {
        return Failure(Integrity);
      }
    }
  }
}
