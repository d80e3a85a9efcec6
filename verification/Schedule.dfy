/** The encoder's schedule, read off the records of a run: key frames, long-term marks, drops, levels and references. */
module Schedules {
  import opened Words
  import opened Statuses
  import opened Containers
  import opened Payloads
  import opened MlvcModel
  import opened Lockstep

  // ---------------------------------------------------------------- the k-th record

  /** The encoder before its k-th input. */
  ghost function EncAt(m: Setup, gopSize: U32, inputs: seq<Input>, k: nat): (e: Enc)
    requires SetupOk(m) && k <= |inputs|
    ensures EncOk(m, e)
  {
    EncAfter(m, EncOpened(m, gopSize), inputs[..k])
  }

  ghost function RecordAt(m: Setup, gopSize: U32, inputs: seq<Input>, k: nat): Record
    requires SetupOk(m) && k < |inputs|
  {
    RecordOf(m, EncAt(m, gopSize, inputs, k), inputs[k])
  }

  lemma {:induction false} AfterOneMore(m: Setup, e: Enc, inputs: seq<Input>, i: Input)
    requires SetupOk(m) && EncOk(m, e)
    ensures EncAfter(m, e, inputs + [i]) == NextEnc(m, EncAfter(m, e, inputs), i)
    decreases |inputs|
  {
    if inputs == [] {
      assert [i][1..] == [];
    } else {
      assert (inputs + [i])[1..] == inputs[1..] + [i];
      AfterOneMore(m, NextEnc(m, e, inputs[0]), inputs[1..], i);
    }
  }

  lemma EncNext(m: Setup, gopSize: U32, inputs: seq<Input>, k: nat)
    requires SetupOk(m) && k < |inputs|
    ensures EncAt(m, gopSize, inputs, k + 1) == NextEnc(m, EncAt(m, gopSize, inputs, k), inputs[k])
    ensures EncAt(m, gopSize, inputs, 0) == EncOpened(m, gopSize)
  {
    assert inputs[..k + 1] == inputs[..k] + [inputs[k]] && inputs[..0] == [];
    AfterOneMore(m, EncOpened(m, gopSize), inputs[..k], inputs[k]);
  }

  /** The first flag bit of every record. */
  ghost function KeyFlags(m: Setup, gopSize: U32, inputs: seq<Input>): (s: seq<bool>)
    requires SetupOk(m)
    ensures |s| == |inputs|
  {
    seq(|inputs|, k requires 0 <= k < |inputs| => RecordAt(m, gopSize, inputs, k).flags % 2 == 1)
  }

  /** The second: the record is kept as the long-term reference. */
  ghost function MarkFlags(m: Setup, gopSize: U32, inputs: seq<Input>): (s: seq<bool>)
    requires SetupOk(m)
    ensures |s| == |inputs|
  {
    seq(|inputs|, k requires 0 <= k < |inputs| => RecordAt(m, gopSize, inputs, k).flags / 2 % 2 == 1)
  }

  /** The third: the record is coded against it. */
  ghost function RecoveryFlags(m: Setup, gopSize: U32, inputs: seq<Input>): (s: seq<bool>)
    requires SetupOk(m)
    ensures |s| == |inputs|
  {
    seq(|inputs|, k requires 0 <= k < |inputs| => RecordAt(m, gopSize, inputs, k).flags / 4 % 2 == 1)
  }

  /** The records that stand for a dropped picture. */
  ghost function Drops(m: Setup, gopSize: U32, inputs: seq<Input>): (s: seq<bool>)
    requires SetupOk(m)
    ensures |s| == |inputs|
  {
    seq(|inputs|, k requires 0 <= k < |inputs| => RecordAt(m, gopSize, inputs, k).qIndex == -1)
  }

  lemma FlagBits(m: Setup, gopSize: U32, inputs: seq<Input>, k: nat, e: Enc)
    requires SetupOk(m) && k < |inputs| && e == EncAt(m, gopSize, inputs, k)
    ensures KeyFlags(m, gopSize, inputs)[k] == IsIdr(e, inputs[k])
    ensures MarkFlags(m, gopSize, inputs)[k] == MarksLtr(m, e, inputs[k])
    ensures RecoveryFlags(m, gopSize, inputs)[k] == Recovers(m, e, inputs[k])
    ensures Drops(m, gopSize, inputs)[k] == Dropped(m, e, inputs[k])
  {
    FlagsRead(m, e, inputs[k]);
    if !Dropped(m, e, inputs[k]) { EncodedOk(m, e, inputs[k]); }
  }

  /** What one record does to the encoder, told by its flags. */
  predicate Moved(e: Enc, e': Enc, i: Input, key: bool, mark: bool, drop: bool, feature: Feature) {
    && e'.frameCount == Increment(e.frameCount)
    && e'.iframePeriod == (if i.gopSize > 0 then i.gopSize else e.iframePeriod)
    && e'.curIdx == (if key then 1 else Increment(e.curIdx))
    && (e'.haveLtr <==> mark || (e.haveLtr && !key))
    && e'.refPrev == (if drop then e.refPrev else feature)
  }

  /** A run as a sequence of encoder states with what each record says between two of them. */
  datatype History = History(encs: seq<Enc>, inputs: seq<Input>, keys: seq<bool>, marks: seq<bool>, drops: seq<bool>,
                             features: seq<Feature>)

  predicate Told(h: History, gopSize: U32) {
    && |h.encs| == |h.inputs| + 1 && |h.keys| == |h.marks| == |h.drops| == |h.features| == |h.inputs|
    && h.encs[0].frameCount == 0 && h.encs[0].curIdx == 0 && h.encs[0].iframePeriod == gopSize && !h.encs[0].haveLtr
    && (h.inputs != [] ==> h.keys[0] && !h.marks[0])
    && forall k: nat :: k < |h.inputs| ==> MovedAt(h, k)
  }

  predicate MovedAt(h: History, k: nat)
    requires |h.encs| == |h.inputs| + 1 && |h.keys| == |h.marks| == |h.drops| == |h.features| == |h.inputs| && k < |h.inputs|
  {
    Moved(h.encs[k], h.encs[k + 1], h.inputs[k], h.keys[k], h.marks[k], h.drops[k], h.features[k])
  }

  ghost function HistoryOf(m: Setup, gopSize: U32, inputs: seq<Input>): History
    requires SetupOk(m)
  {
    History(seq(|inputs| + 1, k requires 0 <= k <= |inputs| => EncAt(m, gopSize, inputs, k)), inputs,
            KeyFlags(m, gopSize, inputs), MarkFlags(m, gopSize, inputs), Drops(m, gopSize, inputs),
            seq(|inputs|, k requires 0 <= k < |inputs| => FeatureAt(m, gopSize, inputs, k)))
  }

  lemma RecordMoves(m: Setup, gopSize: U32, inputs: seq<Input>, k: nat, e: Enc, e': Enc)
    requires SetupOk(m) && k < |inputs| && e == EncAt(m, gopSize, inputs, k) && e' == EncAt(m, gopSize, inputs, k + 1)
    ensures Moved(e, e', inputs[k], KeyFlags(m, gopSize, inputs)[k], MarkFlags(m, gopSize, inputs)[k],
                  Drops(m, gopSize, inputs)[k], FeatureAt(m, gopSize, inputs, k))
  {
    EncNext(m, gopSize, inputs, k);
    FlagBits(m, gopSize, inputs, k, e);
  }

  lemma FirstIsKey(m: Setup, gopSize: U32, inputs: seq<Input>)
    requires SetupOk(m) && inputs != []
    ensures KeyFlags(m, gopSize, inputs)[0] && !MarkFlags(m, gopSize, inputs)[0]
  {
    EncNext(m, gopSize, inputs, 0);
    FlagBits(m, gopSize, inputs, 0, EncAt(m, gopSize, inputs, 0));
  }

  lemma RunsAreTold(m: Setup, gopSize: U32, inputs: seq<Input>)
    requires SetupOk(m)
    ensures Told(HistoryOf(m, gopSize, inputs), gopSize)
  {
    var h := HistoryOf(m, gopSize, inputs);
    assert inputs[..0] == [];
    if inputs != [] { FirstIsKey(m, gopSize, inputs); }
    forall k: nat | k < |inputs| ensures MovedAt(h, k) {
      RecordMoves(m, gopSize, inputs, k, EncAt(m, gopSize, inputs, k), EncAt(m, gopSize, inputs, k + 1));
    }
  }

  ghost function FeatureAt(m: Setup, gopSize: U32, inputs: seq<Input>, k: nat): Feature
    requires SetupOk(m) && k < |inputs|
  {
    Encoded(m, EncAt(m, gopSize, inputs, k), inputs[k]).1
  }

  // ---------------------------------------------------------------- key frames

  /** The period in force at input k: the last one given that is not zero. */
  function PeriodAt(gopSize: U32, inputs: seq<Input>, k: nat): U32
    requires k < |inputs|
  {
    if inputs[k].gopSize > 0 then inputs[k].gopSize else if k == 0 then gopSize else PeriodAt(gopSize, inputs, k - 1)
  }

  /** Of the first k flags the j-th is the last that is set. */
  predicate LastSet(flags: seq<bool>, k: int, j: int) {
    0 <= j < k <= |flags| && flags[j] && forall i :: j < i < k ==> !flags[i]
  }

  /** cur counts the records since the last key frame, that one included. */
  predicate CountsFromKey(keys: seq<bool>, k: nat, cur: U32) {
    k <= |keys| && if k == 0 then cur == 0 else cur > 0 && LastSet(keys, k, k - cur)
  }

  lemma CountGoesOn(keys: seq<bool>, k: nat, cur: U32, cur': U32)
    requires k + 1 < |keys| <= 0x1_0000_0000 && CountsFromKey(keys, k, cur) && (k == 0 ==> keys[0])
    requires cur' == if keys[k] then 1 else Increment(cur)
    ensures CountsFromKey(keys, k + 1, cur')
  {
    if keys[k] {
      assert LastSet(keys, k + 1, k);
    } else {
      assert cur <= k && LastSet(keys, k + 1, k - cur);
    }
  }

  lemma {:induction false} FramesCounted(h: History, gopSize: U32, k: nat)
    requires Told(h, gopSize) && k < |h.inputs| <= 0x1_0000_0000
    ensures h.encs[k].frameCount == k
    ensures (if h.inputs[k].gopSize > 0 then h.inputs[k].gopSize else h.encs[k].iframePeriod) == PeriodAt(gopSize, h.inputs, k)
  {
    if k > 0 {
      FramesCounted(h, gopSize, k - 1);
      assert MovedAt(h, k - 1);
    }
  }

  lemma {:induction false} Counted(h: History, gopSize: U32, k: nat)
    requires Told(h, gopSize) && k < |h.inputs| <= 0x1_0000_0000
    ensures CountsFromKey(h.keys, k, h.encs[k].curIdx)
  {
    if k > 0 {
      Counted(h, gopSize, k - 1);
      assert MovedAt(h, k - 1);
      CountGoesOn(h.keys, k - 1, h.encs[k - 1].curIdx, h.encs[k].curIdx);
    }
  }

  /** The encoder's counters before input k. */
  lemma Counters(m: Setup, gopSize: U32, inputs: seq<Input>, k: nat) returns (e: Enc)
    requires SetupOk(m) && k < |inputs| <= 0x1_0000_0000
    ensures e == EncAt(m, gopSize, inputs, k) && e.frameCount == k && Period(e, inputs[k]) == PeriodAt(gopSize, inputs, k)
    ensures CountsFromKey(KeyFlags(m, gopSize, inputs), k, e.curIdx)
  {
    var h := HistoryOf(m, gopSize, inputs);
    RunsAreTold(m, gopSize, inputs);
    e := h.encs[k];
    FramesCounted(h, gopSize, k);
    Counted(h, gopSize, k);
  }

  lemma OneLast(keys: seq<bool>, k: nat, cur: U32, j: int)
    requires CountsFromKey(keys, k, cur) && LastSet(keys, k, j)
    ensures cur == k - j
  {
  }

  /**
   * When a key frame comes, for all runs up to the wrap of the frame counter: the first record is one, and
   * a later one is exactly when it is forced or the number of records since the last key frame, drops
   * counted, is a multiple of the period in force.
   */
  lemma KeyFrameWhen(m: Setup, gopSize: U32, inputs: seq<Input>, k: nat, j: int)
    requires SetupOk(m) && k < |inputs| <= 0x1_0000_0000
    ensures var keys, period := KeyFlags(m, gopSize, inputs), PeriodAt(gopSize, inputs, k);
            && (k == 0 ==> keys[k])
            && (LastSet(keys, k, j) ==> (keys[k] <==> inputs[k].forceIdr || (period != 0 && (k - j) % period == 0)))
  {
    var keys := KeyFlags(m, gopSize, inputs);
    var e := Counters(m, gopSize, inputs, k);
    FlagBits(m, gopSize, inputs, k, e);
    if LastSet(keys, k, j) { OneLast(keys, k, e.curIdx, j); }
  }

  /** Behind the first record there always is a last key frame. */
  lemma SomeLastKey(m: Setup, gopSize: U32, inputs: seq<Input>, k: nat) returns (j: nat)
    requires SetupOk(m) && 0 < k < |inputs| <= 0x1_0000_0000
    ensures LastSet(KeyFlags(m, gopSize, inputs), k, j)
  {
    var e := Counters(m, gopSize, inputs, k);
    j := k - e.curIdx;
  }

  lemma {:induction false} ConstantPeriod(gopSize: U32, inputs: seq<Input>, k: nat)
    requires k < |inputs| && forall i :: 0 <= i < |inputs| ==> inputs[i].gopSize in {0, gopSize}
    ensures PeriodAt(gopSize, inputs, k) == gopSize
  {
    if k > 0 { ConstantPeriod(gopSize, inputs, k - 1); }
  }

  lemma NextMultiple(p: nat, j: nat, k: nat)
    requires p > 0 && j < k && j % p == 0
    ensures (k - j) % p == 0 <==> k % p == 0
  {
    DivModIdentity(j, p);
    DivModIdentity(k - j, p);
    var q, r := (k - j) / p, (k - j) % p;
    assert k == (j / p + q) * p + r;
    DivModUnique(j / p + q, r, p);
  }

  /** With a constant period and nothing forced, key frames are exactly the records whose number is a multiple of it. */
  lemma {:induction false} KeyFramesPeriodic(m: Setup, gopSize: U32, inputs: seq<Input>, k: nat)
    requires SetupOk(m) && gopSize > 0 && k < |inputs| <= 0x1_0000_0000
    requires forall i :: 0 <= i < |inputs| ==> !inputs[i].forceIdr && inputs[i].gopSize in {0, gopSize}
    ensures RecordAt(m, gopSize, inputs, k).flags % 2 == 1 <==> k % gopSize == 0
  {
    assert KeyFlags(m, gopSize, inputs)[k] == (RecordAt(m, gopSize, inputs, k).flags % 2 == 1);
    if k == 0 {
      KeyFrameWhen(m, gopSize, inputs, 0, 0);
    } else {
      var j := SomeLastKey(m, gopSize, inputs, k);
      KeyFrameWhen(m, gopSize, inputs, k, j);
      KeyFramesPeriodic(m, gopSize, inputs, j);
      ConstantPeriod(gopSize, inputs, k);
      NextMultiple(gopSize, j, k);
    }
  }

  /** With a constant period, whatever is forced, there is a key frame among any so many records in a row. */
  lemma KeyFrameInEveryPeriod(m: Setup, gopSize: U32, inputs: seq<Input>, from: nat)
    requires SetupOk(m) && gopSize > 0 && from + gopSize <= |inputs| <= 0x1_0000_0000
    requires forall i :: 0 <= i < |inputs| ==> inputs[i].gopSize in {0, gopSize}
    ensures exists k :: from <= k < from + gopSize && RecordAt(m, gopSize, inputs, k).flags % 2 == 1
  {
    var keys := KeyFlags(m, gopSize, inputs);
    var k: nat := from;
    if from == 0 {
      KeyFrameWhen(m, gopSize, inputs, 0, 0);
    } else {
      var j := SomeLastKey(m, gopSize, inputs, from);
      k := NextKey(m, gopSize, inputs, keys, from, j);
    }
    assert RecordAt(m, gopSize, inputs, k).flags % 2 == 1;
  }

  lemma NextKey(m: Setup, gopSize: U32, inputs: seq<Input>, keys: seq<bool>, from: nat, j: nat) returns (k: nat)
    requires SetupOk(m) && gopSize > 0 && 0 < from && from + gopSize <= |inputs| <= 0x1_0000_0000
    requires forall i :: 0 <= i < |inputs| ==> inputs[i].gopSize in {0, gopSize}
    requires keys == KeyFlags(m, gopSize, inputs) && LastSet(keys, from, j)
    ensures from <= k < from + gopSize && keys[k]
  {
    k := j + gopSize;
    ConstantPeriod(gopSize, inputs, k);
    KeyFrameWhen(m, gopSize, inputs, k, j);
    if k < from {
      assert LastSet(keys, k, j);
      assert false;
    } else if i :| from <= i < k && keys[i] {
      k := i;
    } else {
      assert LastSet(keys, k, j);
    }
  }

  // ---------------------------------------------------------------- long-term marks and drops

  /** Whether a mark is due n records after a key frame. */
  predicate MarkDue(start: U32, period: U32, n: int) {
    period != 0 && (n == start || (n > start && n % period == 0))
  }

  lemma MarkRule(m: Setup, gopSize: U32, inputs: seq<Input>, k: nat, e: Enc)
    requires SetupOk(m) && k < |inputs| && e == EncAt(m, gopSize, inputs, k)
    ensures MarkFlags(m, gopSize, inputs)[k] <==> !KeyFlags(m, gopSize, inputs)[k] && MarkDue(m.ltrStart, m.ltrPeriod, e.curIdx)
  {
    FlagBits(m, gopSize, inputs, k, e);
  }

  /**
   * A record is marked exactly when it is no key frame and the number of records since the last one is
   * ltrStart, or beyond it and a multiple of ltrPeriod (MarkDue); with a period of zero none is.
   */
  lemma MarkWhen(m: Setup, gopSize: U32, inputs: seq<Input>, k: nat, j: int)
    requires SetupOk(m) && k < |inputs| <= 0x1_0000_0000
    ensures var keys, marks := KeyFlags(m, gopSize, inputs), MarkFlags(m, gopSize, inputs);
            && (k == 0 ==> !marks[k])
            && (LastSet(keys, k, j) ==> (marks[k] <==> !keys[k] && MarkDue(m.ltrStart, m.ltrPeriod, k - j)))
  {
    hide MarkDue, KeyFlags, MarkFlags, EncAt;
    FirstIsKey(m, gopSize, inputs);
    if LastSet(KeyFlags(m, gopSize, inputs), k, j) {
      var e := Counters(m, gopSize, inputs, k);
      OneLast(KeyFlags(m, gopSize, inputs), k, e.curIdx, j);
      MarkRule(m, gopSize, inputs, k, e);
    }
  }

  /** Among the first k records there is a mark with no key frame behind it. */
  predicate MarkStands(keys: seq<bool>, marks: seq<bool>, k: nat)
    requires |keys| == |marks| && k <= |keys|
  {
    exists i :: 0 <= i < k && MarkAt(keys, marks, k, i)
  }

  predicate MarkAt(keys: seq<bool>, marks: seq<bool>, k: nat, i: nat)
    requires |keys| == |marks| && i < k <= |keys|
  {
    marks[i] && forall l :: i < l < k ==> !keys[l]
  }

  lemma MarkGoesOn(keys: seq<bool>, marks: seq<bool>, k: nat)
    requires |keys| == |marks| && k < |keys|
    ensures MarkStands(keys, marks, k + 1) <==> marks[k] || (MarkStands(keys, marks, k) && !keys[k])
  {
    if marks[k] {
      assert MarkAt(keys, marks, k + 1, k);
    } else if MarkStands(keys, marks, k) && !keys[k] {
      var i :| 0 <= i < k && MarkAt(keys, marks, k, i);
      assert MarkAt(keys, marks, k + 1, i);
    }
    if MarkStands(keys, marks, k + 1) {
      var i :| 0 <= i < k + 1 && MarkAt(keys, marks, k + 1, i);
      assert i < k ==> MarkAt(keys, marks, k, i);
    }
  }

  lemma {:induction false} LtrHeld(h: History, gopSize: U32, k: nat)
    requires Told(h, gopSize) && k <= |h.inputs|
    ensures h.encs[k].haveLtr <==> MarkStands(h.keys, h.marks, k)
  {
    if k > 0 {
      LtrHeld(h, gopSize, k - 1);
      assert MovedAt(h, k - 1);
      MarkGoesOn(h.keys, h.marks, k - 1);
    }
  }

  /** A record recovers exactly when it is marked and there is a mark since the last key frame already. */
  lemma RecoveryWhen(m: Setup, gopSize: U32, inputs: seq<Input>, k: nat)
    requires SetupOk(m) && k < |inputs|
    ensures RecoveryFlags(m, gopSize, inputs)[k]
            <==> MarkFlags(m, gopSize, inputs)[k] && MarkStands(KeyFlags(m, gopSize, inputs), MarkFlags(m, gopSize, inputs), k)
  {
    RunsAreTold(m, gopSize, inputs);
    LtrHeld(HistoryOf(m, gopSize, inputs), gopSize, k);
    FlagBits(m, gopSize, inputs, k, EncAt(m, gopSize, inputs, k));
  }

  /** A record is an empty one exactly when the controller asks for it and it is neither key frame nor marked. */
  lemma DropWhen(m: Setup, gopSize: U32, inputs: seq<Input>, k: nat)
    requires SetupOk(m) && k < |inputs|
    ensures Drops(m, gopSize, inputs)[k] <==>
              inputs[k].verdict.Drop? && !KeyFlags(m, gopSize, inputs)[k] && !MarkFlags(m, gopSize, inputs)[k]
    ensures Drops(m, gopSize, inputs)[k] <==> RecordAt(m, gopSize, inputs, k).payload == []
  {
    FlagBits(m, gopSize, inputs, k, EncAt(m, gopSize, inputs, k));
  }

  // ---------------------------------------------------------------- levels

  /** The level asked for: the session's without a controller, 0 for a frame that may not be dropped. */
  function Asked(m: Setup, v: Verdict): int {
    if v.Off? then m.qp else if v.Drop? then 0 else v.q
  }

  /**
   * A coded record has the level asked for if the model takes any; otherwise that of a rung of the model
   * at the least distance from it, the first of the two if there are two.
   */
  lemma LevelOf(m: Setup, gopSize: U32, inputs: seq<Input>, k: nat)
    requires SetupOk(m) && k < |inputs| && !Drops(m, gopSize, inputs)[k]
    ensures var q, a := RecordAt(m, gopSize, inputs, k).qIndex, Asked(m, inputs[k].verdict);
            if m.qpRows.Some? then q == a else NearestOf(RungsOf(m), a, q)
  {
    var e := EncAt(m, gopSize, inputs, k);
    FlagBits(m, gopSize, inputs, k, e);
    EncodedOk(m, e, inputs[k]);
    RungsInRange(m.patchQps, m.qp);
    if m.qpRows.None? {
      NearestIs(RungsOf(m), Asked(m, inputs[k].verdict));
    }
  }

  /** Of an ascending list, the member at the least distance from a, the smaller one of two. */
  predicate NearestOf(rungs: seq<int>, a: int, q: int) {
    q in rungs && forall r :: r in rungs ==> Gap(q, a) < Gap(r, a) || (Gap(q, a) == Gap(r, a) && q <= r)
  }

  lemma NearestIs(rungs: seq<int>, a: int)
    requires rungs != [] && Ascending(rungs)
    ensures NearestOf(rungs, a, rungs[Nearest(rungs, a)])
  {
    var n := Nearest(rungs, a);
    forall r | r in rungs ensures Gap(rungs[n], a) < Gap(r, a) || (Gap(rungs[n], a) == Gap(r, a) && rungs[n] <= r) {
      var i :| 0 <= i < |rungs| && rungs[i] == r;
      assert Distance(rungs[n], a) <= Distance(rungs[i], a);
    }
  }

  function Gap(a: int, b: int): int {
    if a < b then b - a else a - b
  }

  // ---------------------------------------------------------------- references and pictures

  /** Record i is coded, and those between it and k are dropped. */
  predicate LastCoded(drops: seq<bool>, k: int, i: int) {
    0 <= i < k <= |drops| && !drops[i] && forall l :: i < l < k ==> drops[l]
  }

  lemma {:induction false} PrevFeature(h: History, gopSize: U32, k: nat, i: nat)
    requires Told(h, gopSize) && k <= |h.inputs| && LastCoded(h.drops, k, i)
    ensures h.encs[k].refPrev == h.features[i]
    decreases k
  {
    assert MovedAt(h, k - 1);
    if i < k - 1 {
      PrevFeature(h, gopSize, k - 1, i);
    }
  }

  /** What a record is coded against: nothing for a key frame, otherwise the last coded record unless it recovers. */
  lemma CodedAgainst(m: Setup, gopSize: U32, inputs: seq<Input>, k: nat, i: nat)
    requires SetupOk(m) && k < |inputs|
    ensures var ref := Reference(m, EncAt(m, gopSize, inputs, k), inputs[k]);
            && (KeyFlags(m, gopSize, inputs)[k] ==> ref == seq(m.featureSize, _ => 0))
            && (LastCoded(Drops(m, gopSize, inputs), k, i) ==>
                  KeyFlags(m, gopSize, inputs)[k] || RecoveryFlags(m, gopSize, inputs)[k] || ref == FeatureAt(m, gopSize, inputs, i))
  {
    FlagBits(m, gopSize, inputs, k, EncAt(m, gopSize, inputs, k));
    if LastCoded(Drops(m, gopSize, inputs), k, i) {
      RunsAreTold(m, gopSize, inputs);
      PrevFeature(HistoryOf(m, gopSize, inputs), gopSize, k, i);
    }
  }

  /** A network that gives back the picture it was given. */
  ghost predicate Lossless(m: Setup) {
    forall rung, qp, picture, ref :: Exact(m, rung, qp, picture, ref)
  }

  ghost predicate Exact(m: Setup, rung: nat, qp: nat, picture: Picture, ref: Feature) {
    m.npu.decode(rung, qp, m.npu.encode(rung, qp, picture, ref).0, ref).0 == picture
  }

  lemma {:induction false} PictureAt(m: Setup, e: Enc, last: Picture, inputs: seq<Input>, k: nat)
    requires SetupOk(m) && EncOk(m, e) && k < |inputs|
    ensures Pictures(m, e, last, inputs)[k]
            == PictureOf(m, EncAfter(m, e, inputs[..k]), inputs[k], if k == 0 then last else Pictures(m, e, last, inputs)[k - 1])
    decreases |inputs|
  {
    var p := PictureOf(m, e, inputs[0], last);
    if k == 0 {
      assert inputs[..0] == [];
    } else {
      PictureAt(m, NextEnc(m, e, inputs[0]), p, inputs[1..], k - 1);
      assert inputs[..k][1..] == inputs[1..][..k - 1];
    }
  }

  /**
   * What is shown, in terms of what was put in: with a lossless network every coded picture comes out as it
   * was, whatever rung, level and reference it was coded with, and a dropped one repeats the one before it.
   */
  lemma LosslessRunShowsInputs(m: Setup, gopSize: U32, inputs: seq<Input>, k: nat)
    requires SetupOk(m) && Lossless(m) && k < |inputs|
    ensures var shown := Pictures(m, EncOpened(m, gopSize), [], inputs);
            && |shown| == |inputs|
            && (!Drops(m, gopSize, inputs)[k] ==> shown[k] == inputs[k].picture)
            && (Drops(m, gopSize, inputs)[k] ==> k > 0 && shown[k] == shown[k - 1])
  {
    var e := EncAt(m, gopSize, inputs, k);
    FlagBits(m, gopSize, inputs, k, e);
    PictureAt(m, EncOpened(m, gopSize), [], inputs, k);
    assert Exact(m, UsedRung(m, e, inputs[k]), UsedQp(m, e, inputs[k]), inputs[k].picture, Reference(m, e, inputs[k]));
    if k == 0 {
      EncNext(m, gopSize, inputs, 0);
    }
  }

  // ---------------------------------------------------------------- what the decoder does with any record

  /** Set-up takes the session's level as the only rung if no patch is valid, and otherwise wants it among the patches. */
  lemma RungsAccepted(patchQps: seq<int>, sessionQp: int)
    ensures var none := forall q :: q in patchQps ==> !(0 <= q <= 63);
            && (none ==> Rungs(patchQps, sessionQp) == Success([sessionQp]))
            && (!none && sessionQp in RungList(patchQps) ==> Rungs(patchQps, sessionQp) == Success(RungList(patchQps)))
            && (!none && sessionQp !in RungList(patchQps) ==> Rungs(patchQps, sessionQp) == Failure(Format))
  {
    RungListShape(patchQps);
    var s := RungList(patchQps);
    if s != [] { assert s[0] in s && s[0] in patchQps; }
  }

  /**
   * The rungs: the first eight different levels from 0 to 63 among the patches, in ascending order. What is in
   * stays in whatever patches follow, and what is left out was out of range or came when there were eight.
   */
  lemma {:induction false} RungsAre(patchQps: seq<int>, k: nat)
    requires k <= |patchQps|
    ensures var s, t := RungList(patchQps[..k]), RungList(patchQps);
            && |t| <= 8 && Ascending(t) && (forall q :: q in t ==> 0 <= q <= 63 && q in patchQps)
            && (forall q :: q in s ==> q in t) && |s| <= |t|
            && (k < |patchQps| && 0 <= patchQps[k] <= 63 ==> patchQps[k] in t || |s| == 8)
    decreases |patchQps|
  {
    RungListShape(patchQps);
    var n := |patchQps| - 1;
    if k == |patchQps| {
      assert patchQps[..k] == patchQps;
    } else {
      RungsAre(patchQps[..n], if k < n then k else n);
      assert k < n ==> patchQps[..n][..k] == patchQps[..k] && patchQps[..n][k] == patchQps[k];
      assert k == n ==> patchQps[..n][..n] == patchQps[..n];
      InsertedMembers(RungList(patchQps[..n]), patchQps[n]);
    }
  }

  /**
   * The decoder's set-up on any header: refused where the rungs are, where tables meet more than one rung, and
   * for a level that is negative as a signed number or beyond those the model knows; otherwise nothing is held.
   */
  lemma SetUpWhen(m: Setup, h: Header)
    ensures var qp := if h.qp < 0x8000_0000 then h.qp else h.qp - 0x1_0000_0000;
            var rungs := Rungs(m.patchQps, qp);
            var none := seq(m.featureSize, _ => 0);
            if rungs.Failure? || (m.qpRows.Some? && |rungs.value| != 1) || h.qp >= 0x8000_0000 || h.qp >= m.qpNum
            then DecOpened(m, h) == Failure(Format)
            else DecOpened(m, h) == Success(Core(rungs.value, Dec(none, none, false, 0, [], false)))
  {
  }

  /** The rung of a record: in a static model one with its level, or the only one; with tables any level that has a row. */
  lemma RungOfRecord(m: Setup, c: Core, q: int)
    requires CoreOk(c)
    ensures m.qpRows.Some? ==> RungFor(m, c, q) == if 0 <= q < m.qpRows.value then Success(0) else Failure(Format)
    ensures m.qpRows.None? && q in c.rungs ==> RungFor(m, c, q).Success? && c.rungs[RungFor(m, c, q).value] == q
    ensures m.qpRows.None? && q !in c.rungs ==>
              RungFor(m, c, q) == if |c.rungs| == 1 then Success(0) else Failure(Format)
  {
  }

  /** A call with nothing, or after a format error, is a format error and changes nothing. */
  lemma EmptyChunkRefused(m: Setup, n: Node, chunk: seq<Byte>)
    requires CodecOk(m.codec) && NodeOk(n) && (chunk == [] || n.demux.failed)
    ensures Process(m, n, chunk) == Played(n, [], Format)
  {
  }

  /** A dropped record shows the last picture again, or nothing while there was none, and moves nothing. */
  lemma DropRepeats(m: Setup, c: Core, r: Record)
    requires CodecOk(m.codec) && CoreOk(c) && r.qIndex == -1
    ensures DecStep(m, c, r) == Success((c, if c.state.haveLast && c.state.last != [] then [c.state.last] else []))
  {
  }

  /**
   * Any other record that can be read: a key frame forgets both references first; a recovery is decoded against
   * the long-term one if one is held, everything else against the previous one; and a mark keeps the new feature.
   */
  lemma RecordShows(m: Setup, c: Core, r: Record, rung: nat, latents: Latents)
    requires CodecOk(m.codec) && CoreOk(c) && r.qIndex != -1 && RungFor(m, c, r.qIndex) == Success(rung)
    requires rung < |c.rungs| && (m.qpRows.Some? ==> r.qIndex >= 0)
    requires DecodePayload(m.codec, if m.qpRows.Some? then r.qIndex else c.rungs[rung], r.payload) == Some(latents)
    ensures var qp: nat := if m.qpRows.Some? then r.qIndex else c.rungs[rung];
            var key, mark, recovery := r.flags % 2 == 1, r.flags / 2 % 2 == 1, r.flags / 4 % 2 == 1;
            var none := seq(m.featureSize, _ => 0);
            var prev, ltr, held := if key then none else c.state.refPrev, if key then none else c.state.refLtr, c.state.haveLtr && !key;
            var out := m.npu.decode(rung, qp, latents, if recovery && held then ltr else prev);
            DecStep(m, c, r) == if |out.1| != m.featureSize then Failure(Hw)
                                else Success((Core(c.rungs, Dec(out.1, if mark then out.1 else ltr, held || mark, rung, out.0, true)), [out.0]))
  {
  }

  // ---------------------------------------------------------------- the header

  lemma HeaderFlags(m: Setup, e: Enc, i: Input)
    ensures var f := HeaderOf(m, e, i).flags;
            (f % 2 == 1 <==> m.ltrPeriod != 0) && (f / 2 % 2 == 1 <==> !i.verdict.Off?) && f < 4
  {
  }

  /** What the stream opens with, as a reader of the container sees it. */
  lemma OpeningHeader(m: Setup, gopSize: U32, inputs: seq<Input>, h: Header)
    requires SetupOk(m) && inputs != [] && ParseHeader(StreamBytes(m, EncOpened(m, gopSize), inputs)) == Success(h)
    ensures h.width == m.width && h.height == m.height && h.qp == m.qp
    ensures h.fpsNum == (if m.fps == 0 then 30 else m.fps) && h.fpsDen == 1 && h.frameCount == 0
    ensures h.iframePeriod == PeriodAt(gopSize, inputs, 0) && h.ltrStartIdx == m.ltrStart && h.ltrPeriod == m.ltrPeriod
    ensures h.flags < 4 && (h.flags % 2 == 1 <==> m.ltrPeriod != 0) && (h.flags / 2 % 2 == 1 <==> !inputs[0].verdict.Off?)
    ensures h.targetBitrate == inputs[0].bitrate
  {
    var e := EncOpened(m, gopSize);
    HeaderRoundTrip(HeaderOf(m, e, inputs[0]), TailBytes(m, e, inputs));
    HeaderFlags(m, e, inputs[0]);
  }
}
