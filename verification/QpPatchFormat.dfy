/** The QPP1 file byte by byte: what is written, what is accepted, and what any accepted file does. */
module QpPatchFormat {
  import opened Words
  import opened Statuses
  import opened QpPatch
  import opened QpPatchFiles

  /** A 32-bit word, the lowest byte first. */
  function Word(s: seq<Byte>, i: nat): int
    requires i + 4 <= |s|
  {
    (s[i] as int) + 0x100 * (s[i + 1] as int) + 0x1_0000 * (s[i + 2] as int) + 0x100_0000 * (s[i + 3] as int)
  }

  lemma WordIs(s: seq<Byte>, i: nat)
    requires i + 4 <= |s|
    ensures ReadU32(s, i) == Word(s, i)
  {
    var w := s[i..i + 4];
    assert w[0] == s[i] && w[1] == s[i + 1] && w[2] == s[i + 2] && w[3] == s[i + 3];
  }

  lemma HeaderWords(p: seq<Byte>)
    requires |p| >= 48
    ensures forall i: nat :: i <= 44 ==> ReadU32(p, i) == Word(p, i)
  {
    forall i: nat | i <= 44 ensures ReadU32(p, i) == Word(p, i) {
      WordIs(p, i);
    }
  }

  lemma GapWritten(size: U32, qp: U32, num: U32, baseCrc: U32, payloadCrc: U32, gap: U32, rest: seq<Byte>)
    ensures var p := HeaderBytes(size, qp, num, baseCrc, payloadCrc, gap) + rest;
            p[36..40] == Le4(gap) && p[40..48] == [0, 0, 0, 0, 0, 0, 0, 0]
  {
    var a, b := HeaderHead(size, qp, num), HeaderTail(baseCrc, payloadCrc, gap);
    assert b[12..16] == Le4(gap) && b[16..24] == [0, 0, 0, 0, 0, 0, 0, 0];
    SliceIn(a, b, rest, 12, 16);
    SliceIn(a, b, rest, 16, 24);
  }

  lemma FieldsRead(size: U32, qp: U32, num: U32, baseCrc: U32, payloadCrc: U32, gap: U32, rest: seq<Byte>)
    ensures var p := HeaderBytes(size, qp, num, baseCrc, payloadCrc, gap) + rest;
            && p[..4] == [0x51, 0x50, 0x50, 0x31] && Word(p, 4) == 1 && Word(p, 8) == size && Word(p, 12) == 0
            && Word(p, 16) == qp && Word(p, 20) == num && Word(p, 24) == 0
            && Word(p, 28) == baseCrc && Word(p, 32) == payloadCrc && Word(p, 36) == gap
            && p[40..48] == [0, 0, 0, 0, 0, 0, 0, 0]
  {
    var p := HeaderBytes(size, qp, num, baseCrc, payloadCrc, gap) + rest;
    HeaderReads(size, qp, num, baseCrc, payloadCrc, gap, rest);
    GapWritten(size, qp, num, baseCrc, payloadCrc, gap, rest);
    Le4RoundTrip(gap);
    WordIs(p, 36);
    HeaderWords(p);
  }

  lemma RangesRead(head: seq<Byte>, rs: seq<Range>, payload: seq<Byte>, i: nat)
    requires |head| == 48 && (forall j :: 0 <= j < |rs| ==> Fits32(rs[j])) && i < |rs|
    ensures var p := head + RangesBytes(rs) + payload;
            48 + 8 * i + 8 <= |p| && Word(p, 48 + 8 * i) == rs[i].off && Word(p, 48 + 8 * i + 4) == rs[i].len
  {
    var p := head + RangesBytes(rs) + payload;
    RangeReads(head, rs, payload, i);
    WordIs(p, 48 + 8 * i);
    WordIs(p, 48 + 8 * i + 4);
  }

  /** A written file: magic, version, sizes, sums and gap in the header. */
  lemma FileFields(base: seq<Byte>, target: seq<Byte>, rs: seq<Range>, qp: U32, gap: U32)
    requires Differences(rs, base, target, gap)
    requires |rs| < 0x1_0000_0000 && InBounds(rs, |base|) && forall i :: 0 <= i < |rs| ==> Fits32(rs[i])
    ensures var p := FileBytes(base, target, rs, qp, gap);
            && |p| == 48 + 8 * |rs| + Total(rs)
            && p[..4] == [0x51, 0x50, 0x50, 0x31] && Word(p, 4) == 1 && Word(p, 8) == |base| && Word(p, 12) == 0
            && Word(p, 16) == qp && Word(p, 20) == |rs| && Word(p, 24) == 0
            && Word(p, 28) == CrcOf(base) && Word(p, 32) == CrcOf(PayloadOf(target, rs)) && Word(p, 36) == gap
            && p[40..48] == [0, 0, 0, 0, 0, 0, 0, 0]
  {
    hide HeaderBytes, RangesBytes, PayloadOf, CrcOf, IsDiff, Word;
    var payload := PayloadOf(target, rs);
    var head := HeaderBytes(|base|, qp, |rs|, CrcOf(base), CrcOf(payload), gap);
    FieldsRead(|base|, qp, |rs|, CrcOf(base), CrcOf(payload), gap, RangesBytes(rs) + payload);
    assert head + (RangesBytes(rs) + payload) == FileBytes(base, target, rs, qp, gap);
  }

  /** Behind the header its ranges, place and length, and behind them the target's bytes in each. */
  lemma FileRanges(base: seq<Byte>, target: seq<Byte>, rs: seq<Range>, qp: U32, gap: U32, i: nat)
    requires Differences(rs, base, target, gap) && i < |rs|
    requires |rs| < 0x1_0000_0000 && InBounds(rs, |base|) && forall i :: 0 <= i < |rs| ==> Fits32(rs[i])
    ensures var p, at := FileBytes(base, target, rs, qp, gap), 48 + 8 * |rs| + Total(rs[..i]);
            && |p| == 48 + 8 * |rs| + Total(rs)
            && Word(p, 48 + 8 * i) == rs[i].off && Word(p, 48 + 8 * i + 4) == rs[i].len
            && at + rs[i].len <= |p| && p[at..at + rs[i].len] == target[rs[i].off..End(rs[i])]
  {
    hide HeaderBytes, RangesBytes, PayloadOf, CrcOf, IsDiff, Word;
    var payload := PayloadOf(target, rs);
    var head := HeaderBytes(|base|, qp, |rs|, CrcOf(base), CrcOf(payload), gap);
    RangesRead(head, rs, payload, i);
    SliceOfTarget(target, rs, i);
    var from := Total(rs[..i]);
    SliceIn(head + RangesBytes(rs), payload, [], from, from + rs[i].len);
    assert head + RangesBytes(rs) + payload + [] == FileBytes(base, target, rs, qp, gap);
  }

  lemma {:induction false} SliceOfTarget(target: seq<Byte>, rs: seq<Range>, i: nat)
    requires InBounds(rs, |target|) && i < |rs|
    ensures Total(rs[..i]) + rs[i].len <= Total(rs)
    ensures PayloadOf(target, rs)[Total(rs[..i])..Total(rs[..i]) + rs[i].len] == target[rs[i].off..End(rs[i])]
    decreases |rs|
  {
    var n := |rs| - 1;
    assert rs == rs[..n] + [rs[n]];
    PayloadLast(target, rs, rs[..n], rs[n]);
    if i < n {
      SliceOfTarget(target, rs[..n], i);
      assert rs[..n][..i] == rs[..i];
      SliceIn([], PayloadOf(target, rs[..n]), target[rs[n].off..End(rs[n])], Total(rs[..i]), Total(rs[..i]) + rs[i].len);
      assert [] + PayloadOf(target, rs[..n]) + target[rs[n].off..End(rs[n])] == PayloadOf(target, rs);
    }
  }

  /** The ranges of any bytes that are long enough, as a reader finds them. */
  ghost predicate RangesAre(p: seq<Byte>, rs: seq<Range>) {
    && |p| >= 48 && |rs| == Word(p, 20) && 48 + 8 * |rs| <= |p|
    && forall i: nat :: i < |rs| ==> rs[i].off == Word(p, 48 + 8 * i) && rs[i].len == Word(p, 48 + 8 * i + 4)
  }

  lemma RangesFound(p: seq<Byte>, rs: seq<Range>)
    requires RangesAre(p, rs)
    ensures PayloadStart(p) == 48 + 8 * |rs| <= |p| && RangesOf(p) == rs
  {
    WordIs(p, 20);
    forall i | 0 <= i < |rs| ensures RangeAt(p, i) == rs[i] {
      WordIs(p, 48 + 8 * i);
      WordIs(p, 48 + 8 * i + 4);
    }
  }

  /**
   * What is accepted, of any bytes: by Python exactly what has magic, version, no flags, the size and sum of
   * this base, the level asked for, ranges inside the base that account for the rest of the file, and its sum;
   * by C++ the same with its limit on the number of ranges.
   */
  lemma AcceptsExactly(base: seq<Byte>, p: seq<Byte>, rs: seq<Range>, expected: Option<int>)
    requires RangesAre(p, rs)
    ensures PyAccepts(base, p, expected) <==>
              PlainHeader(base, p) && (expected.Some? ==> Word(p, 16) == expected.value) && PlainBody(base, p, rs)
    ensures forall qp: int :: CppAccepts(base, p, qp) <==>
              PyAccepts(base, p, if qp >= 0 then Some(qp) else None) && |rs| <= 536870905
  {
    RangesFound(p, rs);
    HeaderAccepted(base, p);
    BodyAccepted(base, p, rs);
    WordIs(p, 16);
    WordIs(p, 20);
    hide HeaderOk, BodyOk, PlainHeader, PlainBody, RangesOf, RangesAre;
  }

  predicate PlainHeader(base: seq<Byte>, p: seq<Byte>)
    requires |p| >= 48
  {
    && p[..4] == [0x51, 0x50, 0x50, 0x31] && Word(p, 4) == 1 && Word(p, 24) == 0
    && Word(p, 8) + 0x1_0000_0000 * Word(p, 12) == |base| && Word(p, 28) == CrcOf(base)
  }

  predicate PlainBody(base: seq<Byte>, p: seq<Byte>, rs: seq<Range>)
    requires 48 + 8 * |rs| <= |p|
  {
    && (forall i: nat :: i < |rs| ==> rs[i].off + rs[i].len <= |base|)
    && 48 + 8 * |rs| + Total(rs) == |p| && Word(p, 32) == CrcOf(p[48 + 8 * |rs|..])
  }

  lemma HeaderAccepted(base: seq<Byte>, p: seq<Byte>)
    requires |p| >= 48
    ensures HeaderOk(base, p) <==> PlainHeader(base, p)
  {
    HeaderWords(p);
    hide CrcOf;
  }

  lemma BodyAccepted(base: seq<Byte>, p: seq<Byte>, rs: seq<Range>)
    requires |p| >= 48 && PayloadStart(p) == 48 + 8 * |rs| <= |p| && RangesOf(p) == rs
    ensures BodyOk(base, p) <==> PlainBody(base, p, rs)
  {
    WordIs(p, 32);
    hide CrcOf, Total;
  }

  /** Bytes that are not even long enough for their own ranges are refused by both. */
  lemma TruncatedRefused(base: seq<Byte>, p: seq<Byte>, expected: Option<int>, qp: int)
    requires |p| < 48 || |p| < 48 + 8 * Word(p, 20)
    ensures !PyAccepts(base, p, expected) && !CppAccepts(base, p, qp)
  {
    if |p| >= 48 { WordIs(p, 20); }
  }

  /** Range i is the last that covers byte k. */
  predicate LastOver(rs: seq<Range>, k: nat, i: nat) {
    i < |rs| && Inside(k, rs[i]) && forall j :: i < j < |rs| ==> !Inside(k, rs[j])
  }

  /** What any accepted file does to a byte that no range covers: nothing. */
  lemma {:induction false} PastedFree(b: seq<Byte>, rs: seq<Range>, payload: seq<Byte>, k: nat)
    requires InBounds(rs, |b|) && Total(rs) <= |payload| && k < |b| && forall j :: 0 <= j < |rs| ==> !Inside(k, rs[j])
    ensures Pasted(b, rs, payload)[k] == b[k]
    decreases |rs|
  {
    if rs != [] {
      var m, r := rs[..|rs| - 1], rs[|rs| - 1];
      PastedUnfolds(b, rs, payload, m, r);
      PastedFree(b, m, payload, k);
      RangePasted(Pasted(b, m, payload), r, payload, Total(m), k);
    }
  }

  /** And to any other: the last range over it decides. */
  lemma {:induction false} PastedByte(b: seq<Byte>, rs: seq<Range>, payload: seq<Byte>, k: nat, i: nat)
    requires InBounds(rs, |b|) && Total(rs) <= |payload| && k < |b| && LastOver(rs, k, i)
    ensures 0 <= Total(rs[..i]) + k - rs[i].off < |payload|
    ensures Pasted(b, rs, payload)[k] == payload[Total(rs[..i]) + k - rs[i].off]
    decreases |rs|
  {
    var n := |rs| - 1;
    var m, r := rs[..n], rs[n];
    PastedUnfolds(b, rs, payload, m, r);
    RangePasted(Pasted(b, m, payload), r, payload, Total(m), k);
    hide Pasted, PasteRange, Total;
    if i < n {
      assert m[..i] == rs[..i] && LastOver(m, k, i);
      PastedByte(b, m, payload, k, i);
    }
  }

  lemma PastedUnfolds(b: seq<Byte>, rs: seq<Range>, payload: seq<Byte>, m: seq<Range>, r: Range)
    requires rs != [] && m == rs[..|rs| - 1] && r == rs[|rs| - 1] && InBounds(rs, |b|) && Total(rs) <= |payload|
    ensures InBounds(m, |b|) && End(r) <= |b| && Total(m) + r.len == Total(rs)
    ensures Pasted(b, rs, payload) == PasteRange(Pasted(b, m, payload), r, payload, Total(m))
  {
    assert forall i :: 0 <= i < |m| ==> m[i] == rs[i];
    hide PasteRange;
  }

  lemma RangePasted(was: seq<Byte>, r: Range, payload: seq<Byte>, at: nat, k: nat)
    requires End(r) <= |was| && at + r.len <= |payload| && k < |was|
    ensures PasteRange(was, r, payload, at)[k] == if Inside(k, r) then payload[at + k - r.off] else was[k]
  {
    hide Paste;
  }
}
