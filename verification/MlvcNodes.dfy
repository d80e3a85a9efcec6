/** The node code, against the state machines of MlvcModel. */
module MlvcNodes {
  import opened Words
  import opened Statuses
  import opened Containers
  import opened Payloads
  import opened MlvcModel

  // ---------------------------------------------------------------- rungs

  method HasRung(rungs: seq<int>, qp: int) returns (dup: bool)
    ensures dup <==> qp in rungs
  {
    dup := false;
    var j := 0;
    while j < |rungs|
      invariant 0 <= j <= |rungs| && (dup <==> qp in rungs[..j])
    {
      if rungs[j] == qp {
        dup := true;
      }
      j := j + 1;
    }
    assert rungs[..j] == rungs;
  }

  /** One step of the scan from the end. */
  lemma InsertedBefore(rungs: seq<int>, qp: int, at: nat)
    requires 0 < at <= |rungs| && rungs[at - 1] > qp
    ensures Inserted(rungs[..at], qp) + rungs[at..] == Inserted(rungs[..at - 1], qp) + rungs[at - 1..]
  {
    assert rungs[..at][..at - 1] == rungs[..at - 1];
    assert [rungs[at - 1]] + rungs[at..] == rungs[at - 1..];
  }

  /** One patch's qp put in its place, unless it is out of range, known already or one too many. */
  method InsertRung(rungs: seq<int>, qp: int) returns (r: seq<int>)
    ensures r == AddRung(rungs, qp)
  {
    if qp < 0 || qp > MAX_QP {
      return rungs;
    }
    var dup := HasRung(rungs, qp);
    if dup || |rungs| >= MAX_RUNGS {
      return rungs;
    }
    var at := |rungs|;
    assert rungs[..at] == rungs && Inserted(rungs, qp) == Inserted(rungs, qp) + rungs[at..];
    while at > 0 && rungs[at - 1] > qp
      invariant 0 <= at <= |rungs|
      invariant Inserted(rungs, qp) == Inserted(rungs[..at], qp) + rungs[at..]
    {
      InsertedBefore(rungs, qp, at);
      at := at - 1;
    }
    assert Inserted(rungs[..at], qp) == rungs[..at] + [qp];
    r := rungs[..at] + [qp] + rungs[at..];
  }

  /** The rungs a model offers; the session's qp must be one of them. */
  method CollectRungs(patchQps: seq<int>, sessionQp: int) returns (r: Result<seq<int>>)
    ensures r == Rungs(patchQps, sessionQp)
  {
    var rungs: seq<int> := [];
    var i := 0;
    while i < |patchQps|
      invariant 0 <= i <= |patchQps| && rungs == RungList(patchQps[..i])
    {
      rungs := InsertRung(rungs, patchQps[i]);
      assert patchQps[..i + 1][..i] == patchQps[..i];
      i := i + 1;
    }
    assert patchQps[..i] == patchQps;
    if rungs == [] {
      return Success([sessionQp]);
    }
    var j := 0;
    while j < |rungs|
      invariant 0 <= j <= |rungs| && sessionQp !in rungs[..j]
    {
      if rungs[j] == sessionQp {
        return Success(rungs);
      }
      j := j + 1;
    }
    return Failure(Format);
  }

  method NearestRung(rungs: seq<int>, q: int) returns (best: nat)
    requires rungs != []
    ensures best == Nearest(rungs, q)
  {
    best := 0;
    var bestD := Distance(rungs[0], q);
    var i := 1;
    assert rungs[..1] == [rungs[0]];
    while i < |rungs|
      invariant 1 <= i <= |rungs| && best == Nearest(rungs[..i], q) && bestD == Distance(rungs[best], q)
    {
      var d := if rungs[i] > q then rungs[i] - q else q - rungs[i];
      assert rungs[..i + 1][..i] == rungs[..i];
      if d < bestD {
        bestD := d;
        best := i;
      }
      i := i + 1;
    }
    assert rungs[..i] == rungs;
  }

  /** The decoder's search: the last rung that matches. */
  method LastRung(rungs: seq<int>, q: int) returns (found: Option<nat>)
    ensures found == FindRung(rungs, q)
  {
    found := None;
    var i := 0;
    while i < |rungs|
      invariant 0 <= i <= |rungs| && found == FindRung(rungs[..i], q)
    {
      assert rungs[..i + 1][..i] == rungs[..i];
      if rungs[i] == q {
        found := Some(i);
      }
      i := i + 1;
    }
    assert rungs[..i] == rungs;
  }

  // ---------------------------------------------------------------- the encoder

  class MlvcEncoder {
    const m: Setup
    const rungs: seq<int>
    var refPrev: Feature
    var refLtr: Feature
    var haveLtr: bool
    var active: nat
    var iframePeriod: U32
    var curIdx: U32
    var frameCount: U32

    ghost function View(): Enc
      reads this
    {
      Enc(refPrev, refLtr, haveLtr, active, iframePeriod, curIdx, frameCount)
    }

    ghost predicate Valid()
      reads this
    {
      SetupOk(m) && rungs == RungsOf(m) && EncOk(m, View())
    }

    constructor (setup: Setup, gopSize: U32)
      requires SetupOk(setup)
      ensures Valid() && m == setup && View() == EncOpened(setup, gopSize)
    {
      m := setup;
      rungs := Rungs(setup.patchQps, setup.qp).value;
      refPrev, refLtr := Zeros(setup.featureSize), Zeros(setup.featureSize);
      haveLtr, active := false, 0;
      iframePeriod, curIdx, frameCount := gopSize, 0, 0;
      new;
      ghost var e := EncOpened(setup, gopSize);
    }

    /** One picture in, one record out, the header ahead of it while no frame has been counted. */
    method Process(i: Input) returns (r: Result<seq<Byte>>)
      requires Valid()
      modifies this
      ensures r.Success? ==> Valid() && View() == NextEnc(m, old(View()), i)
      ensures r.Success? ==>
                r.value == (if old(frameCount) == 0 then HeaderBytes(HeaderOf(m, old(View()), i)) else [])
                           + RecordBytes(RecordOf(m, old(View()), i))
      ensures r.Failure? ==> r.status == Internal && curIdx == old(curIdx) && frameCount == old(frameCount)
    {
      ghost var e := View();
      if i.gopSize > 0 {
        iframePeriod := i.gopSize;
      }
      var cur := curIdx;
      var isIdr := frameCount == 0 || i.forceIdr || (iframePeriod != 0 && cur > 0 && cur % iframePeriod == 0);
      var mark, recovery := false, false;
      if !isIdr && m.ltrPeriod != 0 {
        mark := cur == m.ltrStart || (cur > m.ltrStart && cur % m.ltrPeriod == 0);
        recovery := mark && haveLtr;
      }
      assert isIdr == IsIdr(e, i) && mark == MarksLtr(m, e, i) && recovery == Recovers(m, e, i);
      var q: nat := m.qp;
      if i.verdict.Drop? {
        if !isIdr && !recovery && !mark {
          frameCount := Increment(frameCount);
          curIdx := Increment(cur);
          var dropped := RecordBytes(Record(QINDEX_DROPPED, 0, []));
          assert [] + dropped == dropped;
          return Success(dropped);
        }
        q := 0;
      } else if i.verdict.Level? {
        q := i.verdict.q;
      }
      r := EncodeAndAdvance(e, i, cur, isIdr, mark, recovery, q);
    }

    method ChooseRung(ghost e: Enc, i: Input, q: nat) returns (used: nat)
      requires Valid() && e == View().(iframePeriod := e.iframePeriod) && q == WantedQp(m, i)
      modifies this`active
      ensures used == UsedQp(m, e, i) && active == UsedRung(m, e, i)
    {
      RungsInRange(m.patchQps, m.qp);
      used := q;
      if m.qpRows.None? {
        active := NearestRung(rungs, q);
        used := rungs[active];
      }
    }

    /** Rung choice, reference choice, one run of the model, reference update. */
    method RunModel(ghost e: Enc, i: Input, isIdr: bool, mark: bool, recovery: bool, q: nat)
      returns (used: nat, latents: Latents)
      requires Valid() && e == View().(iframePeriod := e.iframePeriod) && !Dropped(m, e, i)
      requires iframePeriod == Period(e, i) && q == WantedQp(m, i)
      requires isIdr == IsIdr(e, i) && mark == MarksLtr(m, e, i) && recovery == Recovers(m, e, i)
      modifies this`active, this`refPrev, this`refLtr, this`haveLtr
      ensures used == UsedQp(m, e, i) && latents == Encoded(m, e, i).0
      ensures View() == NextEnc(m, e, i).(curIdx := e.curIdx, frameCount := e.frameCount)
    {
      used := ChooseRung(e, i, q);
      if isIdr {
        refPrev, refLtr := Zeros(m.featureSize), Zeros(m.featureSize);
        haveLtr := false;
      }
      var ref := if recovery && haveLtr then refLtr else refPrev;
      assert ref == Reference(m, e, i);
      var outputs := m.npu.encode(active, used, i.picture, ref);
      assert outputs == Encoded(m, e, i);
      latents := outputs.0;
      refPrev := outputs.1;
      if mark {
        refLtr := refPrev;
        haveLtr := true;
      }
    }

    /** The record as bytes, with the header in front of the first one. */
    method Serialize(ghost e: Enc, i: Input, isIdr: bool, mark: bool, recovery: bool, used: nat, bits: seq<Byte>)
      returns (record: seq<Byte>)
      requires SetupOk(m) && EncOk(m, e) && !Dropped(m, e, i) && used == UsedQp(m, e, i)
      requires iframePeriod == Period(e, i) && frameCount == e.frameCount
      requires isIdr == IsIdr(e, i) && mark == MarksLtr(m, e, i) && recovery == Recovers(m, e, i)
      requires bits == RecordOf(m, e, i).payload
      ensures record == (if e.frameCount == 0 then HeaderBytes(HeaderOf(m, e, i)) else [])
                        + RecordBytes(RecordOf(m, e, i))
    {
      var flags: U32 := (if isIdr then REC_KEYFRAME else 0) + (if mark then REC_LTR_MARK else 0)
                        + (if recovery then REC_LTR_RECOVERY else 0);
      assert Record(used, flags, bits) == RecordOf(m, e, i);
      record := RecordBytes(Record(used, flags, bits));
      record := WithHeader(e, i, record);
    }

    /** While no frame has been counted, the header goes ahead of the record. */
    method WithHeader(ghost e: Enc, i: Input, body: seq<Byte>) returns (record: seq<Byte>)
      requires iframePeriod == Period(e, i) && frameCount == e.frameCount
      ensures record == (if e.frameCount == 0 then HeaderBytes(HeaderOf(m, e, i)) else []) + body
    {
      record := body;
      if frameCount == 0 {
        var hdr := Header(m.width, m.height, m.fps, 1, m.qp, 0, iframePeriod, m.ltrStart, m.ltrPeriod,
                          (if m.ltrPeriod != 0 then HDR_PROACTIVE_LTR else 0)
                          + (if i.verdict.Off? then 0 else HDR_CBR), i.bitrate);
        record := HeaderBytes(hdr) + record;
      } else {
        assert [] + record == record;
      }
    }

    method PayloadFor(ghost e: Enc, i: Input, used: nat, latents: Latents) returns (bits: Result<seq<Byte>>)
      requires SetupOk(m) && EncOk(m, e) && !Dropped(m, e, i)
      requires used == UsedQp(m, e, i) && latents == Encoded(m, e, i).0
      ensures bits.Success? ==> bits.value == RecordOf(m, e, i).payload
    {
      EncodedOk(m, e, i);
      bits := EncodeFrame(m.codec, used, latents);
    }

    method EncodeAndAdvance(ghost e: Enc, i: Input, cur: U32, isIdr: bool, mark: bool, recovery: bool, q: nat)
      returns (r: Result<seq<Byte>>)
      requires Valid() && e == View().(iframePeriod := e.iframePeriod) && !Dropped(m, e, i)
      requires iframePeriod == Period(e, i) && cur == curIdx && q == WantedQp(m, i)
      requires isIdr == IsIdr(e, i) && mark == MarksLtr(m, e, i) && recovery == Recovers(m, e, i)
      modifies this
      ensures r.Success? ==> Valid() && View() == NextEnc(m, e, i)
      ensures r.Success? ==>
                r.value == (if e.frameCount == 0 then HeaderBytes(HeaderOf(m, e, i)) else [])
                           + RecordBytes(RecordOf(m, e, i))
      ensures r.Failure? ==> r.status == Internal && curIdx == old(curIdx) && frameCount == old(frameCount)
    {
      var used, latents := RunModel(e, i, isIdr, mark, recovery, q);
      var bits := PayloadFor(e, i, used, latents);
      if bits.Failure? {
        return Failure(Internal);
      }
      var record := Serialize(e, i, isIdr, mark, recovery, used, bits.value);
      frameCount := Increment(frameCount);
      curIdx := if isIdr then 1 else Increment(cur);
      return Success(record);
    }
  }

  // ---------------------------------------------------------------- the decoder

  class MlvcDecoder {
    const m: Setup
    const demux: Demuxer
    var rungs: seq<int>
    var modelReady: bool
    var refPrev: Feature
    var refLtr: Feature
    var haveLtr: bool
    var active: nat
    var last: Picture
    var haveLast: bool
    var frameCount: U32

    ghost function CoreView(): Core
      reads this
    {
      Core(rungs, Dec(refPrev, refLtr, haveLtr, active, last, haveLast))
    }

    ghost function View(): Node
      reads this, demux
    {
      Node(demux.View(), if modelReady then Some(CoreView()) else None)
    }

    ghost predicate Valid()
      reads this, demux
    {
      CodecOk(m.codec) && NodeOk(View())
    }

    constructor (setup: Setup)
      requires CodecOk(setup.codec)
      ensures Valid() && m == setup && View() == EMPTY_NODE && fresh(demux)
    {
      m := setup;
      demux := new Demuxer();
      rungs, modelReady := [], false;
      refPrev, refLtr, haveLtr, active := [], [], false, 0;
      last, haveLast, frameCount := [], false, 0;
    }

    /** Once the header is there: rungs, references, no picture yet. */
    method LazyInit(h: Header) returns (st: Status)
      modifies this
      ensures st == Ok <==> DecOpened(m, h).Success?
      ensures st == Ok ==> modelReady && CoreView() == DecOpened(m, h).value
      ensures st != Ok ==> DecOpened(m, h) == Failure(st)
    {
      var qp := AsInt32(h.qp);
      var r := CollectRungs(m.patchQps, qp);
      if r.Failure? {
        return r.status;
      }
      if (m.qpRows.Some? && |r.value| != 1) || qp < 0 || qp >= m.qpNum {
        return Format;
      }
      rungs, modelReady := r.value, true;
      refPrev, refLtr := Zeros(m.featureSize), Zeros(m.featureSize);
      haveLtr, active, last, haveLast := false, 0, [], false;
      return Ok;
    }

    method PickRung(q: int) returns (st: Status)
      requires CoreOk(CoreView())
      modifies this`active
      ensures st == Ok ==> RungFor(m, old(CoreView()), q) == Success(active)
      ensures st != Ok ==> RungFor(m, old(CoreView()), q) == Failure(st)
    {
      if m.qpRows.Some? {
        active := 0;
        if q < 0 || q >= m.qpRows.value {
          return Format;
        }
      } else if q != rungs[active] {
        var found := LastRung(rungs, q);
        if found.None? {
          if |rungs| > 1 {
            return Format;
          }
        } else {
          active := found.value;
        }
      }
      return Ok;
    }

    method DecodeRecord(r: Record) returns (st: Status, picture: Picture)
      requires Valid() && modelReady && r.qIndex != QINDEX_DROPPED
      modifies this
      ensures modelReady && rungs == old(rungs)
      ensures st == Ok ==> DecStep(m, old(CoreView()), r) == Success((CoreView(), [picture]))
      ensures st != Ok ==> DecStep(m, old(CoreView()), r) == Failure(st)
    {
      picture := [];
      ghost var c := CoreView();
      st := PickRung(r.qIndex);
      if st != Ok {
        return;
      }
      var qp: nat := if m.qpRows.Some? then r.qIndex else rungs[active];
      var decoded := DecodeFrame(m.codec, qp, r.payload);
      if decoded.Failure? {
        return Format, [];
      }
      assert DecStep(m, c, r) == Shown(m, c, r.flags, active, qp, decoded.value);
      st, picture := Show(c, r.flags, qp, decoded.value);
    }

    /** Runs the model on the decoded latents and moves the references on. */
    method Show(ghost c: Core, flags: U32, qp: nat, latents: Latents) returns (st: Status, picture: Picture)
      requires CoreOk(c) && active < |c.rungs| && CoreView() == c.(state := c.state.(active := active))
      modifies this
      ensures modelReady == old(modelReady) && rungs == old(rungs)
      ensures st == Ok ==> Shown(m, c, flags, old(active), qp, latents) == Success((CoreView(), [picture]))
      ensures st != Ok ==> Shown(m, c, flags, old(active), qp, latents) == Failure(st)
    {
      if HasFlag(flags, REC_KEYFRAME) {
        refPrev, refLtr := Zeros(m.featureSize), Zeros(m.featureSize);
        haveLtr := false;
      }
      var ref := if HasFlag(flags, REC_LTR_RECOVERY) && haveLtr then refLtr else refPrev;
      var outputs := m.npu.decode(active, qp, latents, ref);
      if |outputs.1| != m.featureSize {
        return Hw, [];
      }
      refPrev := outputs.1;
      if HasFlag(flags, REC_LTR_MARK) {
        refLtr := refPrev;
        haveLtr := true;
      }
      picture := outputs.0;
      last, haveLast := picture, true;
      frameCount := Increment(frameCount);
      st := Ok;
    }

    /** The record at the front: repeated picture or decoded one, and the record gone. */
    method HandleRecord(r: Record) returns (st: Status, shown: seq<Picture>)
      requires Valid() && modelReady && 0 < demux.lastRecord <= |demux.buf|
      modifies this, demux
      ensures st != Ok ==> DecStep(m, old(CoreView()), r) == Failure(st) && shown == []
      ensures st == Ok ==> DecStep(m, old(CoreView()), r) == Success((CoreView(), shown)) && modelReady
      ensures st == Ok ==> demux.View() == old(demux.View()).(buf := old(demux.buf)[old(demux.lastRecord)..])
    {
      shown, st := [], Ok;
      if r.qIndex == QINDEX_DROPPED {
        if haveLast && last != [] {
          shown := [last];
          frameCount := Increment(frameCount);
        }
      } else {
        var picture;
        st, picture := DecodeRecord(r);
        if st != Ok {
          return;
        }
        shown := [picture];
      }
      demux.ConsumeRecord();
    }

    /** Bytes in, pictures out. */
    method Process(chunk: seq<Byte>) returns (st: Status, pictures: seq<Picture>)
      requires Valid()
      modifies this, demux
      ensures var p := MlvcModel.Process(m, old(View()), chunk);
              st == p.status && pictures == p.pictures && (st == Ok ==> Valid() && View() == p.node)
    {
      pictures := [];
      if chunk == [] {
        return Format, [];
      }
      st := demux.Append(chunk);
      if st != Ok {
        return Format, [];
      }
      st, pictures := Loop();
    }

    /** Records until more bytes are needed or something fails. */
    method Loop() returns (st: Status, pictures: seq<Picture>)
      requires Valid()
      modifies this, demux
      ensures var p := Play(m, old(View()));
              st == p.status && pictures == p.pictures && (st == Ok ==> Valid() && View() == p.node)
    {
      pictures := [];
      ghost var whole := Play(m, View());
      assert Before([], whole) == whole by { assert [] + whole.pictures == whole.pictures; }
      while true
        invariant Valid() && SameOutcome(whole, Before(pictures, Play(m, View())))
        decreases |demux.buf|, if modelReady then 0 else 1
      {
        ghost var before := View();
        TakeKeepsHeader(demux.View());
        TakeStatus(demux.View());
        var r := demux.Next();
        PlayPeeked(m, before, View());
        PlayOfTake(m, View(), Take(before.demux).0, r);
        if r.Failure? {
          if r.status == Again && !modelReady && demux.haveHeader {
          } else if r.status == Again {
            return Ok, pictures;
          } else {
            return Format, pictures;
          }
        }
        if !modelReady {
          if !demux.haveHeader {
            return Ok, pictures;
          }
          ghost var peeked := View();
          st := LazyInit(demux.header);
          if st != Ok {
            SetUpFails(m, peeked);
            return;
          }
          PlaySetUp(m, peeked, CoreView());
          continue;
        }
        if r.Failure? {
          return Ok, pictures;
        }
        TakeShrinks(before.demux);
        var shown;
        st, shown := HandleRecord(r.value);
        if st != Ok {
          return;
        }
        BeforeTwice(pictures, shown, Play(m, View()));
        pictures := pictures + shown;
      }
    }
  }
}
