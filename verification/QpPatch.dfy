/** The QPP1 binary delta: which bytes differ, how that is written, and two programs that apply it. */
module QpPatch {
  import opened Words
  import opened Statuses

  const MAGIC: seq<Byte> := [0x51, 0x50, 0x50, 0x31]  // "QPP1"
  const HEADER_SIZE: nat := 48
  const RANGE_SIZE: nat := 8
  const SIZE_LIMIT: nat := 0x1_0000_0000
  const RANGE_LIMIT: nat := 536870905  // (2^32 - 1 - 48) / 8

  datatype Range = Range(off: nat, len: nat)

  function End(r: Range): nat { r.off + r.len }

  // ---------------------------------------------------------------- differing ranges

  predicate Inside(k: nat, r: Range) {
    r.off <= k < End(r)
  }

  predicate Covered(k: nat, rs: seq<Range>) {
    exists i :: 0 <= i < |rs| && Inside(k, rs[i])
  }

  /** Nonempty and inside n bytes, starting and ending with a byte that differs. */
  predicate Tight(r: Range, base: seq<Byte>, target: seq<Byte>)
    requires |base| == |target|
  {
    r.len > 0 && End(r) <= |base| && base[r.off] != target[r.off] && base[End(r) - 1] != target[End(r) - 1]
  }

  /** Sorted and more than gap apart. */
  ghost predicate Spread(rs: seq<Range>, gap: int) {
    forall i, j :: 0 <= i < j < |rs| ==> End(rs[i]) + gap < rs[j].off
  }

  ghost predicate AllTight(rs: seq<Range>, base: seq<Byte>, target: seq<Byte>)
    requires |base| == |target|
  {
    forall i :: 0 <= i < |rs| ==> Tight(rs[i], base, target)
  }

  /** Every byte up to n that differs lies in a range. */
  ghost predicate Covers(rs: seq<Range>, base: seq<Byte>, target: seq<Byte>, n: nat)
    requires |base| == |target| && n <= |base|
  {
    forall k: nat :: k < n && base[k] != target[k] ==> Covered(k, rs)
  }

  /** Of the gap + 1 bytes from k on one differs. */
  ghost predicate SomeDiffers(base: seq<Byte>, target: seq<Byte>, k: nat, gap: nat)
    requires |base| == |target| && k + gap < |base|
  {
    exists j :: k <= j <= k + gap && base[j] != target[j]
  }

  /** Nowhere inside are there more than gap bytes in a row that are equal. */
  ghost predicate DenseRange(r: Range, base: seq<Byte>, target: seq<Byte>, gap: nat)
    requires |base| == |target| && End(r) <= |base|
  {
    forall k: nat :: r.off <= k && k + gap < End(r) ==> SomeDiffers(base, target, k, gap)
  }

  ghost predicate Dense(rs: seq<Range>, base: seq<Byte>, target: seq<Byte>, gap: nat)
    requires |base| == |target|
  {
    forall i :: 0 <= i < |rs| ==> End(rs[i]) <= |base| && DenseRange(rs[i], base, target, gap)
  }

  lemma CoveredAppend(k: nat, rs: seq<Range>, r: Range)
    ensures Covered(k, rs + [r]) <==> Covered(k, rs) || Inside(k, r)
  {
    if Covered(k, rs) {
      var i :| 0 <= i < |rs| && Inside(k, rs[i]);
      assert (rs + [r])[i] == rs[i];
    }
    if Inside(k, r) {
      assert (rs + [r])[|rs|] == r;
    }
  }

  lemma SpreadAppend(rs: seq<Range>, r: Range, gap: int)
    requires gap >= 0 && Spread(rs, gap) && (rs != [] ==> End(rs[|rs| - 1]) + gap < r.off)
    ensures Spread(rs + [r], gap)
  {
    forall i, j | 0 <= i < j < |rs + [r]| ensures End((rs + [r])[i]) + gap < (rs + [r])[j].off {
      if j == |rs| && i < |rs| - 1 {
        assert End(rs[i]) + gap < rs[|rs| - 1].off;
      }
    }
  }

  lemma CoversRun(rs: seq<Range>, base: seq<Byte>, target: seq<Byte>, i: nat, j: nat)
    requires |base| == |target| && i <= j <= |base| && Covers(rs, base, target, i)
    ensures Covers(rs + [Range(i, j - i)], base, target, j)
  {
    forall k: nat | k < j && base[k] != target[k] ensures Covered(k, rs + [Range(i, j - i)]) {
      CoveredAppend(k, rs, Range(i, j - i));
    }
  }

  method RunEnd(base: seq<Byte>, target: seq<Byte>, i: nat) returns (j: nat)
    requires |base| == |target| && i < |base| && base[i] != target[i]
    ensures i < j <= |base| && (forall k :: i <= k < j ==> base[k] != target[k])
    ensures j < |base| ==> base[j] == target[j]
  {
    j := i + 1;
    while j < |base| && base[j] != target[j]
      invariant i < j <= |base| && forall k :: i <= k < j ==> base[k] != target[k]
    {
      j := j + 1;
    }
  }

  /** The runs found up to i; the last one ends before i unless i has just been reached by one. */
  ghost predicate Scanned(raw: seq<Range>, base: seq<Byte>, target: seq<Byte>, i: nat)
    requires |base| == |target|
  {
    && i <= |base| && Spread(raw, 0) && AllTight(raw, base, target) && Covers(raw, base, target, i) && Dense(raw, base, target, 0)
    && (raw != [] ==> End(raw[|raw| - 1]) <= i)
    && (raw != [] && i < |base| && base[i] != target[i] ==> End(raw[|raw| - 1]) < i)
  }

  lemma RunFound(raw: seq<Range>, base: seq<Byte>, target: seq<Byte>, i: nat, j: nat)
    requires |base| == |target| && Scanned(raw, base, target, i) && i < j <= |base|
    requires (forall k :: i <= k < j ==> base[k] != target[k]) && (j < |base| ==> base[j] == target[j])
    ensures Scanned(raw + [Range(i, j - i)], base, target, j)
  {
    SpreadAppend(raw, Range(i, j - i), 0);
    CoversRun(raw, base, target, i, j);
    assert Tight(Range(i, j - i), base, target);
    forall k: nat | i <= k < j ensures SomeDiffers(base, target, k, 0) {
      assert base[k] != target[k];
    }
    assert DenseRange(Range(i, j - i), base, target, 0);
  }

  lemma SameByte(raw: seq<Range>, base: seq<Byte>, target: seq<Byte>, i: nat)
    requires |base| == |target| && Scanned(raw, base, target, i) && i < |base| && base[i] == target[i]
    ensures Scanned(raw, base, target, i + 1)
  {
  }

  /** The maximal runs of differing bytes. */
  method RawRuns(base: seq<Byte>, target: seq<Byte>) returns (raw: seq<Range>)
    requires |base| == |target|
    ensures Spread(raw, 0) && AllTight(raw, base, target) && Covers(raw, base, target, |base|) && Dense(raw, base, target, 0)
  {
    raw := [];
    var i := 0;
    while i < |base|
      invariant 0 <= i <= |base| && Scanned(raw, base, target, i)
    {
      if base[i] != target[i] {
        var j := RunEnd(base, target, i);
        RunFound(raw, base, target, i, j);
        raw := raw + [Range(i, j - i)];
        i := j;
      } else {
        SameByte(raw, base, target, i);
        i := i + 1;
      }
    }
  }

  /** Runs are never closer than a byte apart, so a negative gap joins no more than zero does. */
  function Apart(gap: int): nat {
    if gap < 0 then 0 else gap
  }

  /** A run joins the last range if it is no more than gap behind it. */
  function AddRun(merged: seq<Range>, next: Range, gap: int): seq<Range>
    requires merged != [] && merged[|merged| - 1].off <= End(next)
  {
    var n := |merged| - 1;
    if next.off - End(merged[n]) <= gap
    then merged[..n] + [Range(merged[n].off, End(next) - merged[n].off)]
    else merged + [next]
  }

  lemma AddRunCovers(k: nat, merged: seq<Range>, next: Range, gap: int)
    requires merged != [] && End(merged[|merged| - 1]) <= End(next) && (Covered(k, merged) || Inside(k, next))
    requires merged[|merged| - 1].off <= next.off
    ensures Covered(k, AddRun(merged, next, gap))
  {
    var n := |merged| - 1;
    CoveredAppend(k, merged, next);
    CoveredAppend(k, merged[..n], merged[n]);
    CoveredAppend(k, merged[..n], Range(merged[n].off, End(next) - merged[n].off));
    assert merged == merged[..n] + [merged[n]];
  }

  lemma Differs(base: seq<Byte>, target: seq<Byte>, k: nat, gap: nat, j: nat)
    requires |base| == |target| && k + gap < |base| && k <= j <= k + gap && base[j] != target[j]
    ensures SomeDiffers(base, target, k, gap)
  {
  }

  lemma AllDiffer(r: Range, base: seq<Byte>, target: seq<Byte>, k: nat)
    requires |base| == |target| && End(r) <= |base| && DenseRange(r, base, target, 0) && Inside(k, r)
    ensures base[k] != target[k]
  {
    assert SomeDiffers(base, target, k, 0);
  }

  /** Bytes that all differ stay dense for any gap. */
  lemma DenseAnyGap(r: Range, base: seq<Byte>, target: seq<Byte>, gap: nat)
    requires |base| == |target| && End(r) <= |base| && DenseRange(r, base, target, 0)
    ensures DenseRange(r, base, target, gap)
  {
    forall k: nat | r.off <= k && k + gap < End(r) ensures SomeDiffers(base, target, k, gap) {
      AllDiffer(r, base, target, k);
      Differs(base, target, k, gap, k);
    }
  }

  /** Two dense ranges no more than gap apart make a dense one. */
  lemma JoinedDense(a: Range, b: Range, base: seq<Byte>, target: seq<Byte>, gap: nat)
    requires |base| == |target| && Tight(a, base, target) && Tight(b, base, target)
    requires DenseRange(a, base, target, gap) && DenseRange(b, base, target, 0)
    requires End(a) <= b.off <= End(a) + gap
    ensures DenseRange(Range(a.off, End(b) - a.off), base, target, gap)
  {
    forall k: nat | a.off <= k && k + gap < End(b) ensures SomeDiffers(base, target, k, gap) {
      if k + gap >= b.off {
        AllDiffer(b, base, target, k + gap);
        Differs(base, target, k, gap, k + gap);
      } else if k + gap >= End(a) {
        Differs(base, target, k, gap, End(a) - 1);
      } else {
        assert SomeDiffers(base, target, k, gap);
      }
    }
  }

  lemma AddRunShape(merged: seq<Range>, next: Range, gap: int, base: seq<Byte>, target: seq<Byte>)
    requires |base| == |target| && merged != []
    requires Spread(merged, Apart(gap)) && AllTight(merged, base, target) && Tight(next, base, target)
    requires End(merged[|merged| - 1]) < next.off
    ensures var out := AddRun(merged, next, gap);
            out != [] && Spread(out, Apart(gap)) && AllTight(out, base, target) && End(out[|out| - 1]) == End(next)
  {
    var n := |merged| - 1;
    if next.off - End(merged[n]) <= gap {
      SpreadAppend(merged[..n], Range(merged[n].off, End(next) - merged[n].off), Apart(gap));
    } else {
      SpreadAppend(merged, next, Apart(gap));
    }
  }

  lemma AddRunDense(merged: seq<Range>, next: Range, gap: int, base: seq<Byte>, target: seq<Byte>)
    requires |base| == |target| && merged != []
    requires Tight(merged[|merged| - 1], base, target) && Tight(next, base, target) && End(merged[|merged| - 1]) < next.off
    requires Dense(merged, base, target, Apart(gap)) && DenseRange(next, base, target, 0)
    ensures Dense(AddRun(merged, next, gap), base, target, Apart(gap))
  {
    var n := |merged| - 1;
    DenseAnyGap(next, base, target, Apart(gap));
    if next.off - End(merged[n]) <= gap {
      JoinedDense(merged[n], next, base, target, gap);
    }
  }

  /** What the first ranges cover the second cover too. */
  ghost predicate Keeps(rs: seq<Range>, ms: seq<Range>) {
    forall k: nat :: Covered(k, rs) ==> Covered(k, ms)
  }

  lemma AddRunKeeps(rs: seq<Range>, merged: seq<Range>, next: Range, gap: int)
    requires merged != [] && End(merged[|merged| - 1]) <= End(next) && merged[|merged| - 1].off <= next.off
    requires Keeps(rs, merged)
    ensures Keeps(rs + [next], AddRun(merged, next, gap))
  {
    forall k: nat | Covered(k, rs + [next]) ensures Covered(k, AddRun(merged, next, gap)) {
      CoveredAppend(k, rs, next);
      AddRunCovers(k, merged, next, gap);
    }
  }

  method Merge(raw: seq<Range>, base: seq<Byte>, target: seq<Byte>, gap: int) returns (merged: seq<Range>)
    requires |base| == |target| && raw != [] && Spread(raw, 0) && AllTight(raw, base, target) && Dense(raw, base, target, 0)
    ensures Spread(merged, Apart(gap)) && AllTight(merged, base, target) && Keeps(raw, merged)
    ensures Dense(merged, base, target, Apart(gap))
  {
    merged := [raw[0]];
    var i := 1;
    DenseAnyGap(raw[0], base, target, Apart(gap));
    assert raw[..1] == [raw[0]];
    while i < |raw|
      invariant 1 <= i <= |raw| && merged != []
      invariant Spread(merged, Apart(gap)) && AllTight(merged, base, target) && Dense(merged, base, target, Apart(gap))
      invariant End(merged[|merged| - 1]) == End(raw[i - 1])
      invariant Keeps(raw[..i], merged)
    {
      assert raw[..i + 1] == raw[..i] + [raw[i]];
      AddRunKeeps(raw[..i], merged, raw[i], gap);
      AddRunShape(merged, raw[i], gap, base, target);
      AddRunDense(merged, raw[i], gap, base, target);
      merged := AddRun(merged, raw[i], gap);
      i := i + 1;
    }
    assert raw[..i] == raw;
  }

  /** Runs no more than gap apart become one range. */
  method DiffRanges(base: seq<Byte>, target: seq<Byte>, gap: int) returns (r: Result<seq<Range>>)
    ensures r.Failure? <==> |base| != |target| || |base| >= SIZE_LIMIT
    ensures r.Success? ==>
              && Spread(r.value, Apart(gap)) && AllTight(r.value, base, target) && Covers(r.value, base, target, |base|)
              && Dense(r.value, base, target, Apart(gap))
  {
    if |base| != |target| || |base| > 0xFFFF_FFFF {
      return Failure(Invalid);
    }
    var raw := RawRuns(base, target);
    if raw == [] {
      return Success([]);
    }
    var merged := Merge(raw, base, target, gap);
    return Success(merged);
  }

  // ---------------------------------------------------------------- there is only one such list

  /** Ranges that cover every difference, begin and end with one, are more than gap apart and have no longer gap inside. */
  ghost predicate IsDiff(rs: seq<Range>, base: seq<Byte>, target: seq<Byte>, gap: nat)
    requires |base| == |target|
  {
    Spread(rs, gap) && AllTight(rs, base, target) && Covers(rs, base, target, |base|) && Dense(rs, base, target, gap)
  }

  lemma RangeOf(rs: seq<Range>, base: seq<Byte>, target: seq<Byte>, k: nat) returns (j: nat)
    requires |base| == |target| && Covers(rs, base, target, |base|) && k < |base| && base[k] != target[k]
    ensures j < |rs| && Inside(k, rs[j])
  {
    assert Covered(k, rs);
    j :| 0 <= j < |rs| && Inside(k, rs[j]);
  }

  lemma InOrder(rs: seq<Range>, gap: nat, i: nat, j: nat)
    requires Spread(rs, gap) && i < j < |rs|
    ensures rs[i].off <= End(rs[i]) < rs[j].off
  {
  }

  /** The start of a range lies in none of those before it. */
  lemma NotEarlier(rs: seq<Range>, gap: nat, i: nat, j: nat, r: Range)
    requires Spread(rs, gap) && i < |rs| && Inside(rs[i].off, r) && (j < i ==> rs[j] == r)
    ensures j >= i
  {
  }

  /** If two lists agree up to i, the range of the second is not behind that of the first. */
  lemma NotBehind(rs: seq<Range>, ts: seq<Range>, base: seq<Byte>, target: seq<Byte>, gap: nat, i: nat)
    requires |base| == |target| && IsDiff(rs, base, target, gap) && IsDiff(ts, base, target, gap)
    requires i < |rs| && i <= |ts| && forall m :: 0 <= m < i ==> rs[m] == ts[m]
    ensures i < |ts| && ts[i].off <= rs[i].off
  {
    assert Tight(rs[i], base, target);
    var j := RangeOf(ts, base, target, rs[i].off);
    NotEarlier(rs, gap, i, j, ts[j]);
    if i < j { InOrder(ts, gap, i, j); }
  }

  /** Nor does a dense range that starts where it does end later. */
  lemma NotLonger(rs: seq<Range>, t: Range, base: seq<Byte>, target: seq<Byte>, gap: nat, i: nat)
    requires |base| == |target| && Spread(rs, gap) && Covers(rs, base, target, |base|) && i < |rs|
    requires Tight(t, base, target) && DenseRange(t, base, target, gap) && rs[i].off == t.off
    ensures End(t) <= End(rs[i])
  {
    if End(t) > End(rs[i]) {
      NothingBehind(rs, base, target, gap, i, End(t) - 1);
      var j := DiffersWithin(t, base, target, gap, End(rs[i]));
      NothingBehind(rs, base, target, gap, i, j);
    }
  }

  lemma DiffersWithin(r: Range, base: seq<Byte>, target: seq<Byte>, gap: nat, e: nat) returns (j: nat)
    requires |base| == |target| && End(r) <= |base| && DenseRange(r, base, target, gap) && r.off <= e && e + gap < End(r)
    ensures e <= j <= e + gap && base[j] != target[j]
  {
    assert SomeDiffers(base, target, e, gap);
    j :| e <= j <= e + gap && base[j] != target[j];
  }

  /** Behind a range come more than gap bytes that are equal. */
  lemma NothingBehind(rs: seq<Range>, base: seq<Byte>, target: seq<Byte>, gap: nat, i: nat, k: nat)
    requires |base| == |target| && Spread(rs, gap) && Covers(rs, base, target, |base|) && i < |rs|
    requires End(rs[i]) <= k < |base| && base[k] != target[k]
    ensures End(rs[i]) + gap < k
  {
    var j := RangeOf(rs, base, target, k);
    BeyondIsLater(rs, gap, i, j, k);
  }

  lemma BeyondIsLater(rs: seq<Range>, gap: nat, i: nat, j: nat, k: nat)
    requires Spread(rs, gap) && i < |rs| && j < |rs| && Inside(k, rs[j]) && End(rs[i]) <= k
    ensures End(rs[i]) + gap < k
  {
    assert j > i;
  }

  lemma {:induction false} SamePrefix(rs: seq<Range>, ts: seq<Range>, base: seq<Byte>, target: seq<Byte>, gap: nat, i: nat)
    requires |base| == |target| && IsDiff(rs, base, target, gap) && IsDiff(ts, base, target, gap) && i <= |rs|
    ensures i <= |ts| && rs[..i] == ts[..i]
  {
    if i > 0 {
      SamePrefix(rs, ts, base, target, gap, i - 1);
      SameNext(rs, ts, base, target, gap, i - 1);
    }
  }

  lemma SameNext(rs: seq<Range>, ts: seq<Range>, base: seq<Byte>, target: seq<Byte>, gap: nat, n: nat)
    requires |base| == |target| && IsDiff(rs, base, target, gap) && IsDiff(ts, base, target, gap)
    requires n < |rs| && n <= |ts| && rs[..n] == ts[..n]
    ensures n < |ts| && rs[..n + 1] == ts[..n + 1]
  {
    assert forall m :: 0 <= m < n ==> rs[m] == rs[..n][m] && ts[m] == ts[..n][m];
    NotBehind(rs, ts, base, target, gap, n);
    NotBehind(ts, rs, base, target, gap, n);
    NotLonger(rs, ts[n], base, target, gap, n);
    NotLonger(ts, rs[n], base, target, gap, n);
    SameLonger(rs, ts, n);
  }

  lemma SameLonger(rs: seq<Range>, ts: seq<Range>, n: nat)
    requires n < |rs| && n < |ts| && rs[..n] == ts[..n] && rs[n].off == ts[n].off && End(rs[n]) == End(ts[n])
    ensures rs[..n + 1] == ts[..n + 1]
  {
    assert rs[..n + 1] == rs[..n] + [rs[n]] && ts[..n + 1] == ts[..n] + [ts[n]];
  }

  /** The ranges are determined by the two byte strings and the gap: any list with these properties is the same list. */
  lemma OneDiffOnly(rs: seq<Range>, ts: seq<Range>, base: seq<Byte>, target: seq<Byte>, gap: nat)
    requires |base| == |target| && IsDiff(rs, base, target, gap) && IsDiff(ts, base, target, gap)
    ensures rs == ts
  {
    SamePrefix(rs, ts, base, target, gap, |rs|);
    SamePrefix(ts, rs, base, target, gap, |ts|);
    assert rs[..|rs|] == rs && ts[..|ts|] == ts;
  }

  // ---------------------------------------------------------------- applying ranges

  function Total(rs: seq<Range>): nat {
    if rs == [] then 0 else Total(rs[..|rs| - 1]) + rs[|rs| - 1].len
  }

  predicate InBounds(rs: seq<Range>, n: nat) {
    forall i :: 0 <= i < |rs| ==> End(rs[i]) <= n
  }

  lemma TotalNext(rs: seq<Range>, i: nat)
    requires i < |rs|
    ensures Total(rs[..i + 1]) == Total(rs[..i]) + rs[i].len
  {
    assert rs[..i + 1][..i] == rs[..i];
  }

  lemma {:induction false} TotalMonotone(rs: seq<Range>, i: nat)
    requires i <= |rs|
    ensures Total(rs[..i]) <= Total(rs)
    decreases |rs| - i
  {
    if i < |rs| {
      TotalNext(rs, i);
      TotalMonotone(rs, i + 1);
    } else {
      assert rs[..i] == rs;
    }
  }

  /** data over b from off on */
  function Paste(b: seq<Byte>, off: nat, data: seq<Byte>): (r: seq<Byte>)
    requires off + |data| <= |b|
    ensures |r| == |b|
    ensures forall k :: 0 <= k < |b| ==> r[k] == if off <= k < off + |data| then data[k - off] else b[k]
  {
    b[..off] + data + b[off + |data|..]
  }

  /** The ranges of b overwritten, one after the other, from the payload. */
  function Pasted(b: seq<Byte>, rs: seq<Range>, payload: seq<Byte>): (r: seq<Byte>)
    requires InBounds(rs, |b|) && Total(rs) <= |payload|
    ensures |r| == |b|
  {
    if rs == [] then b
    else
      var m, r := rs[..|rs| - 1], rs[|rs| - 1];
      assert InBounds(m, |b|);
      PasteRange(Pasted(b, m, payload), r, payload, Total(m))
  }

  /** The range's bytes taken from the payload at a position. */
  function PasteRange(b: seq<Byte>, r: Range, payload: seq<Byte>, at: nat): (o: seq<Byte>)
    requires End(r) <= |b| && at + r.len <= |payload|
    ensures |o| == |b|
  {
    Paste(b, r.off, payload[at..at + r.len])
  }

  /** The target's bytes in the ranges. */
  function PayloadOf(target: seq<Byte>, rs: seq<Range>): (p: seq<Byte>)
    requires InBounds(rs, |target|)
    ensures |p| == Total(rs)
  {
    if rs == [] then []
    else
      var n := |rs| - 1;
      assert InBounds(rs[..n], |target|);
      PayloadOf(target, rs[..n]) + target[rs[n].off..End(rs[n])]
  }

  lemma PayloadLast(target: seq<Byte>, rs: seq<Range>, m: seq<Range>, r: Range)
    requires rs == m + [r] && InBounds(rs, |target|)
    ensures InBounds(m, |target|) && End(r) <= |target|
    ensures PayloadOf(target, rs) == PayloadOf(target, m) + target[r.off..End(r)] && Total(rs) == Total(m) + r.len
  {
    assert rs[|m|] == r && rs[..|m|] == m;
    assert forall i :: 0 <= i < |m| ==> m[i] == rs[i];
  }

  lemma PayloadEnd(target: seq<Byte>, rs: seq<Range>, m: seq<Range>, r: Range, payload: seq<Byte>)
    requires rs == m + [r] && InBounds(rs, |target|) && PayloadOf(target, rs) <= payload
    ensures InBounds(m, |target|) && PayloadOf(target, m) <= payload
    ensures End(r) <= |target| && Total(m) + r.len <= |payload|
    ensures payload[Total(m)..Total(m) + r.len] == target[r.off..End(r)]
  {
    PayloadLast(target, rs, m, r);
    SplitPrefix(PayloadOf(target, rs), PayloadOf(target, m), target[r.off..End(r)], payload);
  }

  lemma SplitPrefix(p: seq<Byte>, a: seq<Byte>, b: seq<Byte>, payload: seq<Byte>)
    requires p == a + b && p <= payload
    ensures a <= payload && payload[|a|..|a| + |b|] == b
  {
    assert payload[|a|..|a| + |b|] == p[|a|..];
  }

  lemma PasteAt(was: seq<Byte>, target: seq<Byte>, r: Range, payload: seq<Byte>, at: nat, k: nat)
    requires |was| == |target| && End(r) <= |was| && k < |was|
    requires at + r.len <= |payload| && payload[at..at + r.len] == target[r.off..End(r)]
    ensures PasteRange(was, r, payload, at)[k] == if Inside(k, r) then target[k] else was[k]
  {
  }

  /** Pasting the target's bytes gives the target wherever a range covers, and leaves the rest. */
  lemma {:induction false} PastedBytes(b: seq<Byte>, target: seq<Byte>, rs: seq<Range>, payload: seq<Byte>, k: nat)
    requires |b| == |target| && InBounds(rs, |b|) && k < |b| && PayloadOf(target, rs) <= payload
    ensures Pasted(b, rs, payload)[k] == if Covered(k, rs) then target[k] else b[k]
  {
    if rs != [] {
      var m, r := rs[..|rs| - 1], rs[|rs| - 1];
      assert rs == m + [r];
      CoveredAppend(k, m, r);
      PayloadEnd(target, rs, m, r, payload);
      PastedBytes(b, target, m, payload, k);
      PasteAt(Pasted(b, m, payload), target, r, payload, Total(m), k);
    }
  }

  /** Ranges that cover every difference turn the base into the target. */
  lemma PastedTarget(b: seq<Byte>, target: seq<Byte>, rs: seq<Range>)
    requires |b| == |target| && InBounds(rs, |b|) && Covers(rs, b, target, |b|)
    ensures Pasted(b, rs, PayloadOf(target, rs)) == target
  {
    var p := PayloadOf(target, rs);
    forall k: nat | k < |b| ensures Pasted(b, rs, p)[k] == target[k] {
      PastedBytes(b, target, rs, p, k);
    }
  }
}
