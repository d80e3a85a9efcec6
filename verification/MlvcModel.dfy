/** The mlvc encoder and decoder nodes: two state machines that share nothing but a byte stream. */
module MlvcModel {
  import opened Words
  import opened Statuses
  import opened Containers
  import opened Payloads

  type Feature = seq<int>
  type Picture = seq<int>

  const MAX_RUNGS: nat := 8
  const MAX_QP: int := 63
  const REC_KEYFRAME: U32 := 1
  const REC_LTR_MARK: U32 := 2
  const REC_LTR_RECOVERY: U32 := 4
  const HDR_PROACTIVE_LTR: U32 := 1
  const HDR_CBR: U32 := 2

  /**
   * The accelerator with one rung's model loaded and one row of the qp tables fed. Nothing is known
   * about it but that it is a function.
   */
  datatype Npu = Npu(encode: (nat, nat, Picture, Feature) -> (Latents, Feature),
                     decode: (nat, nat, Latents, Feature) -> (Picture, Feature))

  /**
   * What both nodes are bound to. patchQps are the qp values of the model's patch payloads, -1 where
   * one is malformed; qpRows is the smallest row count of the qp tables, None for a static model.
   */
  datatype Setup = Setup(codec: Codec, npu: Npu, patchQps: seq<int>, qpRows: Option<nat>, qpNum: nat,
                         qp: U32, featureSize: nat, width: U32, height: U32, fps: U32,
                         ltrStart: U32, ltrPeriod: U32)

  // ---------------------------------------------------------------- rungs

  /** q inserted into an ascending list, scanning from the end. */
  function Inserted(s: seq<int>, q: int): seq<int> {
    if s != [] && s[|s| - 1] > q then Inserted(s[..|s| - 1], q) + [s[|s| - 1]] else s + [q]
  }

  function AddRung(s: seq<int>, q: int): seq<int> {
    if q < 0 || q > MAX_QP || q in s || |s| >= MAX_RUNGS then s else Inserted(s, q)
  }

  function RungList(patchQps: seq<int>): seq<int> {
    if patchQps == [] then [] else AddRung(RungList(patchQps[..|patchQps| - 1]), patchQps[|patchQps| - 1])
  }

  function Rungs(patchQps: seq<int>, sessionQp: int): Result<seq<int>> {
    var s := RungList(patchQps);
    if s == [] then Success([sessionQp]) else if sessionQp in s then Success(s) else Failure(Format)
  }

  predicate Ascending(s: seq<int>) {
    forall i, j :: 0 <= i < j < |s| ==> s[i] < s[j]
  }

  function Distance(a: int, b: int): nat {
    if a > b then a - b else b - a
  }

  /** The first rung at the least distance from q. */
  function Nearest(rungs: seq<int>, q: int): (best: nat)
    requires rungs != []
    ensures best < |rungs|
    ensures forall i :: 0 <= i < |rungs| ==> Distance(rungs[best], q) <= Distance(rungs[i], q)
    ensures forall i :: 0 <= i < best ==> Distance(rungs[best], q) < Distance(rungs[i], q)
  {
    var n := |rungs| - 1;
    if n == 0 then 0
    else
      var b := Nearest(rungs[..n], q);
      if Distance(rungs[n], q) < Distance(rungs[b], q) then n else b
  }

  /** The last rung equal to q. */
  function FindRung(rungs: seq<int>, q: int): (r: Option<nat>)
    ensures r.Some? ==> r.value < |rungs| && rungs[r.value] == q
    ensures r.None? ==> q !in rungs
  {
    if rungs == [] then None
    else if rungs[|rungs| - 1] == q then Some(|rungs| - 1)
    else FindRung(rungs[..|rungs| - 1], q)
  }

  // ---------------------------------------------------------------- what is assumed

  /** Both nodes agree on the model, and the decoder's network reproduces the encoder's feature. */
  ghost predicate SetupOk(m: Setup) {
    && CodecOk(m.codec)
    && m.width != 0 && m.height != 0
    && m.qp <= MAX_QP && m.qp < m.qpNum
    && Rungs(m.patchQps, m.qp).Success?
    && (m.qpRows.Some? ==> |Rungs(m.patchQps, m.qp).value| == 1)
    && PayloadLimit(m.codec) < 0x1_0000_0000
    && forall rung, qp, picture, ref :: |ref| == m.featureSize ==> NpuAgrees(m, rung, qp, picture, ref)
  }

  ghost predicate NpuAgrees(m: Setup, rung: nat, qp: nat, picture: Picture, ref: Feature)
    requires CodecOk(m.codec)
  {
    var (latents, feature) := m.npu.encode(rung, qp, picture, ref);
    && LatentsOk(m.codec, qp, latents)
    && |feature| == m.featureSize
    && m.npu.decode(rung, qp, latents, ref).1 == feature
    && m.npu.decode(rung, qp, latents, ref).0 != []
  }

  /** No payload of this geometry is longer. */
  function PayloadLimit(k: Codec): int {
    var g := k.geom;
    4 + 24 * (g.zc * g.zh * g.zw + 2 * (g.yc * g.yh * g.yw))
  }

  function Zeros(n: nat): (s: seq<int>)
    ensures |s| == n
  {
    seq(n, _ => 0)
  }

  // ---------------------------------------------------------------- the encoder node

  /** What the rate controller said: it is not running, drop, or a level. */
  datatype Verdict = Off | Drop | Level(q: Qp)

  type Qp = q: int | 0 <= q <= MAX_QP witness 0

  datatype Input = Input(picture: Picture, forceIdr: bool, gopSize: U32, verdict: Verdict, bitrate: U32)

  datatype Enc = Enc(refPrev: Feature, refLtr: Feature, haveLtr: bool, active: nat,
                     iframePeriod: U32, curIdx: U32, frameCount: U32)

  function Increment(n: U32): U32 {
    (n + 1) % 0x1_0000_0000
  }

  function RungsOf(m: Setup): seq<int>
    requires Rungs(m.patchQps, m.qp).Success?
  {
    Rungs(m.patchQps, m.qp).value
  }

  ghost predicate EncOk(m: Setup, e: Enc)
    requires SetupOk(m)
  {
    |e.refPrev| == m.featureSize && |e.refLtr| == m.featureSize && e.active < |RungsOf(m)|
  }

  ghost function EncOpened(m: Setup, gopSize: U32): (e: Enc)
    requires SetupOk(m)
    ensures EncOk(m, e)
  {
    RungsInRange(m.patchQps, m.qp);
    Enc(Zeros(m.featureSize), Zeros(m.featureSize), false, 0, gopSize, 0, 0)
  }

  function Period(e: Enc, i: Input): U32 {
    if i.gopSize > 0 then i.gopSize else e.iframePeriod
  }

  predicate IsIdr(e: Enc, i: Input) {
    e.frameCount == 0 || i.forceIdr || (Period(e, i) != 0 && e.curIdx > 0 && e.curIdx % Period(e, i) == 0)
  }

  predicate MarksLtr(m: Setup, e: Enc, i: Input) {
    && !IsIdr(e, i) && m.ltrPeriod != 0
    && (e.curIdx == m.ltrStart || (e.curIdx > m.ltrStart && e.curIdx % m.ltrPeriod == 0))
  }

  predicate Recovers(m: Setup, e: Enc, i: Input) {
    MarksLtr(m, e, i) && e.haveLtr
  }

  /** Only a plain predicted frame can be dropped. */
  predicate Dropped(m: Setup, e: Enc, i: Input) {
    i.verdict.Drop? && !IsIdr(e, i) && !MarksLtr(m, e, i)
  }

  function RecordFlags(m: Setup, e: Enc, i: Input): U32 {
    (if IsIdr(e, i) then REC_KEYFRAME else 0) + (if MarksLtr(m, e, i) then REC_LTR_MARK else 0)
    + (if Recovers(m, e, i) then REC_LTR_RECOVERY else 0)
  }

  function WantedQp(m: Setup, i: Input): nat {
    match i.verdict
    case Off => m.qp
    case Drop => 0
    case Level(q) => q
  }

  ghost function UsedRung(m: Setup, e: Enc, i: Input): nat
    requires SetupOk(m) && EncOk(m, e)
  {
    if m.qpRows.Some? then e.active else Nearest(RungsOf(m), WantedQp(m, i))
  }

  ghost function UsedQp(m: Setup, e: Enc, i: Input): (q: nat)
    requires SetupOk(m) && EncOk(m, e)
  {
    RungsInRange(m.patchQps, m.qp);
    if m.qpRows.Some? then WantedQp(m, i) else RungsOf(m)[UsedRung(m, e, i)]
  }

  function Reference(m: Setup, e: Enc, i: Input): Feature {
    if Recovers(m, e, i) then e.refLtr else if IsIdr(e, i) then Zeros(m.featureSize) else e.refPrev
  }

  ghost function Encoded(m: Setup, e: Enc, i: Input): (Latents, Feature)
    requires SetupOk(m) && EncOk(m, e)
  {
    m.npu.encode(UsedRung(m, e, i), UsedQp(m, e, i), i.picture, Reference(m, e, i))
  }

  ghost function NextEnc(m: Setup, e: Enc, i: Input): (e': Enc)
    requires SetupOk(m) && EncOk(m, e)
    ensures EncOk(m, e')
  {
    if Dropped(m, e, i) then
      e.(iframePeriod := Period(e, i), curIdx := Increment(e.curIdx), frameCount := Increment(e.frameCount))
    else
      assert |Reference(m, e, i)| == m.featureSize;
      assert NpuAgrees(m, UsedRung(m, e, i), UsedQp(m, e, i), i.picture, Reference(m, e, i));
      var f := Encoded(m, e, i).1;
      Enc(f,
          if MarksLtr(m, e, i) then f else if IsIdr(e, i) then Zeros(m.featureSize) else e.refLtr,
          MarksLtr(m, e, i) || (e.haveLtr && !IsIdr(e, i)),
          UsedRung(m, e, i), Period(e, i),
          if IsIdr(e, i) then 1 else Increment(e.curIdx),
          Increment(e.frameCount))
  }

  lemma PayloadSize(k: Codec, qp: nat, l: Latents)
    requires CodecOk(k) && LatentsOk(k, qp, l)
    ensures 4 <= |EncodePayload(k, qp, l)| <= PayloadLimit(k)
  {
    PayloadRoundTrip(k, qp, l);
    var a, b := |l.z|, |l.y0|;
    assert PayloadLimit(k) == 4 + 24 * (a + 2 * b);
  }

  lemma EncodedOk(m: Setup, e: Enc, i: Input)
    requires SetupOk(m) && EncOk(m, e)
    ensures 0 <= UsedQp(m, e, i) <= MAX_QP
    ensures LatentsOk(m.codec, UsedQp(m, e, i), Encoded(m, e, i).0)
  {
    assert |Reference(m, e, i)| == m.featureSize;
    assert NpuAgrees(m, UsedRung(m, e, i), UsedQp(m, e, i), i.picture, Reference(m, e, i));
    RungsInRange(m.patchQps, m.qp);
  }

  ghost function RecordOf(m: Setup, e: Enc, i: Input): (r: Record)
    requires SetupOk(m) && EncOk(m, e)
    ensures -1 <= r.qIndex <= MAX_QP && |r.payload| < 0x1_0000_0000
    ensures (r.qIndex == QINDEX_DROPPED <==> Dropped(m, e, i)) && (r.payload == [] <==> Dropped(m, e, i))
    ensures !Dropped(m, e, i) ==> |r.payload| <= PayloadLimit(m.codec)
  {
    EncodedOk(m, e, i);
    if Dropped(m, e, i) then Record(QINDEX_DROPPED, 0, [])
    else
      PayloadSize(m.codec, UsedQp(m, e, i), Encoded(m, e, i).0);
      Record(UsedQp(m, e, i), RecordFlags(m, e, i),
             EncodePayload(m.codec, UsedQp(m, e, i), Encoded(m, e, i).0))
  }

  function HeaderOf(m: Setup, e: Enc, i: Input): Header {
    Header(m.width, m.height, m.fps, 1, m.qp, 0, Period(e, i), m.ltrStart, m.ltrPeriod,
           (if m.ltrPeriod != 0 then HDR_PROACTIVE_LTR else 0) + (if i.verdict.Off? then 0 else HDR_CBR),
           i.bitrate)
  }

  lemma {:induction false} RungListShape(patchQps: seq<int>)
    ensures Ascending(RungList(patchQps)) && |RungList(patchQps)| <= MAX_RUNGS
    ensures forall q :: q in RungList(patchQps) ==> 0 <= q <= MAX_QP && q in patchQps
    ensures |RungList(patchQps)| < MAX_RUNGS ==>
              forall q :: q in patchQps && 0 <= q <= MAX_QP ==> q in RungList(patchQps)
  {
    if patchQps != [] {
      var n := |patchQps| - 1;
      RungListShape(patchQps[..n]);
      assert patchQps == patchQps[..n] + [patchQps[n]];
      var s := RungList(patchQps[..n]);
      if patchQps[n] !in s {
        InsertedShape(s, patchQps[n]);
      }
    }
  }

  lemma {:induction false} InsertedMembers(s: seq<int>, q: int)
    ensures |Inserted(s, q)| == |s| + 1
    ensures forall x :: x in Inserted(s, q) <==> x in s || x == q
  {
    if s != [] && s[|s| - 1] > q {
      var n := |s| - 1;
      InsertedMembers(s[..n], q);
      assert s == s[..n] + [s[n]];
    }
  }

  lemma {:induction false} InsertedShape(s: seq<int>, q: int)
    requires Ascending(s) && q !in s
    ensures Ascending(Inserted(s, q)) && |Inserted(s, q)| == |s| + 1
    ensures forall x :: x in Inserted(s, q) <==> x in s || x == q
  {
    InsertedMembers(s, q);
    if s != [] && s[|s| - 1] > q {
      var n := |s| - 1;
      assert s == s[..n] + [s[n]];
      InsertedMembers(s[..n], q);
      InsertedShape(s[..n], q);
      AppendAscending(Inserted(s[..n], q), s[n]);
    } else {
      AppendAscending(s, q);
    }
  }

  lemma AppendAscending(s: seq<int>, q: int)
    requires Ascending(s) && forall x :: x in s ==> x < q
    ensures Ascending(s + [q])
  {
    forall i, j | 0 <= i < j < |s + [q]| ensures (s + [q])[i] < (s + [q])[j] {
      assert s[i] in s;
    }
  }

  /** The rungs a model offers: ascending, at most eight, in range, and the session's qp among them. */
  lemma RungsInRange(patchQps: seq<int>, sessionQp: int)
    ensures Rungs(patchQps, sessionQp).Success? ==>
              var s := Rungs(patchQps, sessionQp).value;
              && Ascending(s) && 1 <= |s| <= MAX_RUNGS && sessionQp in s
              && forall k :: 0 <= k < |s| ==> 0 <= s[k] <= MAX_QP || (s[k] == sessionQp && |s| == 1)
  {
    RungListShape(patchQps);
    var s := RungList(patchQps);
    assert forall k :: 0 <= k < |s| ==> s[k] in s;
  }

  /** In an ascending list a rung is found where it is. */
  lemma FindRungAt(rungs: seq<int>, k: nat)
    requires Ascending(rungs) && k < |rungs|
    ensures FindRung(rungs, rungs[k]) == Some(k)
  {
    assert rungs[k] in rungs;
  }

  // ---------------------------------------------------------------- the decoder node

  datatype Dec = Dec(refPrev: Feature, refLtr: Feature, haveLtr: bool, active: nat,
                     last: Picture, haveLast: bool)

  datatype Core = Core(rungs: seq<int>, state: Dec)

  predicate CoreOk(c: Core) {
    c.state.active < |c.rungs| && forall k :: 0 <= k < |c.rungs| ==> c.rungs[k] >= 0
  }

  predicate HasFlag(flags: U32, bit: U32)
    requires bit > 0
  {
    flags / bit % 2 == 1
  }

  /** lazy_init: the rungs come from the header's qp. */
  function DecOpened(m: Setup, h: Header): (r: Result<Core>)
    ensures r.Success? ==> CoreOk(r.value)
  {
    var qp := AsInt32(h.qp);
    match Rungs(m.patchQps, qp)
    case Failure(status) => Failure(status)
    case Success(rungs) =>
      if (m.qpRows.Some? && |rungs| != 1) || qp < 0 || qp >= m.qpNum then Failure(Format)
      else
        RungsInRange(m.patchQps, qp);
        Success(Core(rungs, Dec(Zeros(m.featureSize), Zeros(m.featureSize), false, 0, [], false)))
  }

  /** The rung to run a record on. */
  function RungFor(m: Setup, c: Core, q: int): (r: Result<nat>)
    requires CoreOk(c)
    ensures r.Success? ==> r.value < |c.rungs|
  {
    match m.qpRows
    case Some(rows) => if q < 0 || q >= rows then Failure(Format) else Success(0)
    case None =>
      if q == c.rungs[c.state.active] then Success(c.state.active)
      else
        match FindRung(c.rungs, q)
        case Some(k) => Success(k)
        case None => if |c.rungs| > 1 then Failure(Format) else Success(c.state.active)
  }

  /** One record: a dropped frame repeats the last picture, any other is decoded. */
  ghost function DecStep(m: Setup, c: Core, r: Record): (o: Result<(Core, seq<Picture>)>)
    requires CodecOk(m.codec) && CoreOk(c)
    ensures o.Success? ==> CoreOk(o.value.0)
  {
    if r.qIndex == QINDEX_DROPPED then
      Success((c, if c.state.haveLast && c.state.last != [] then [c.state.last] else []))
    else
      match RungFor(m, c, r.qIndex)
      case Failure(status) => Failure(status)
      case Success(rung) =>
        var qp: nat := if m.qpRows.Some? then r.qIndex else c.rungs[rung];
        match DecodePayload(m.codec, qp, r.payload)
        case None => Failure(Format)
        case Some(latents) => Shown(m, c, r.flags, rung, qp, latents)
  }

  /** The reference update and the picture once a payload is decoded. */
  function Shown(m: Setup, c: Core, flags: U32, rung: nat, qp: nat, latents: Latents): (o: Result<(Core, seq<Picture>)>)
    requires CoreOk(c) && rung < |c.rungs|
    ensures o.Success? ==> CoreOk(o.value.0)
  {
    var key := HasFlag(flags, REC_KEYFRAME);
    var prev := if key then Zeros(m.featureSize) else c.state.refPrev;
    var ltr := if key then Zeros(m.featureSize) else c.state.refLtr;
    var haveLtr := c.state.haveLtr && !key;
    var ref := if HasFlag(flags, REC_LTR_RECOVERY) && haveLtr then ltr else prev;
    var (picture, feature) := m.npu.decode(rung, qp, latents, ref);
    if |feature| != m.featureSize then Failure(Hw)
    else
      var mark := HasFlag(flags, REC_LTR_MARK);
      Success((Core(c.rungs, Dec(feature, if mark then feature else ltr, haveLtr || mark, rung, picture, true)),
               [picture]))
  }

  // ---------------------------------------------------------------- the decoder over its input

  datatype Node = Node(demux: Demux, core: Option<Core>)

  const EMPTY_NODE: Node := Node(EMPTY_DEMUX, None)

  /** What a call to process leaves, emits and returns. */
  datatype Played = Played(node: Node, pictures: seq<Picture>, status: Status)

  ghost predicate NodeOk(n: Node) {
    (n.core.Some? ==> CoreOk(n.core.value)) && (n.core.Some? ==> n.demux.header.Some?)
  }

  /** The core once a header is there. */
  function Ready(m: Setup, core: Option<Core>, h: Header): (r: Result<Core>)
    requires core.Some? ==> CoreOk(core.value)
    ensures r.Success? ==> CoreOk(r.value)
  {
    if core.Some? then Success(core.value) else DecOpened(m, h)
  }

  function Before(pictures: seq<Picture>, p: Played): Played {
    p.(pictures := pictures + p.pictures)
  }

  /** Every record that is complete, until more bytes are needed or something fails. */
  ghost function Play(m: Setup, n: Node): Played
    requires CodecOk(m.codec) && NodeOk(n)
    decreases |n.demux.buf|, 0
  {
    TakeKeepsHeader(n.demux);
    TakeShrinks(n.demux);
    match Take(n.demux)
    case (d, Success(r)) => PlayRecord(m, n.core, d, r)
    case (d, Failure(status)) => PlayEnd(m, Node(d, n.core), status)
  }

  /** With a record r in hand and d what is left after it. */
  ghost function PlayRecord(m: Setup, core: Option<Core>, d: Demux, r: Record): Played
    requires CodecOk(m.codec) && (core.Some? ==> CoreOk(core.value)) && d.header.Some?
    decreases |d.buf|, 1
  {
    match Ready(m, core, d.header.value)
    case Failure(status) => Played(Node(d, core), [], status)
    case Success(c) =>
      match DecStep(m, c, r)
      case Failure(status) => Played(Node(d, Some(c)), [], status)
      case Success((c', pictures)) => Before(pictures, Play(m, Node(d, Some(c'))))
  }

  /** With no record to be had: the model is set up as soon as the header is there. */
  function PlayEnd(m: Setup, n: Node, status: Status): Played
    requires n.core.Some? ==> CoreOk(n.core.value)
  {
    if status != Again then Played(n, [], Format)
    else if n.demux.header.None? then Played(n, [], Ok)
    else
      match Ready(m, n.core, n.demux.header.value)
      case Failure(bad) => Played(n, [], bad)
      case Success(c) => Played(Node(n.demux, Some(c)), [], Ok)
  }

  lemma TakeKeepsHeader(d: Demux)
    ensures d.header.Some? ==> Take(d).0.header == d.header
    ensures Take(d).1.Success? ==> Take(d).0.header.Some?
  {
  }

  /** process() on one chunk. */
  ghost function Process(m: Setup, n: Node, chunk: seq<Byte>): Played
    requires CodecOk(m.codec) && NodeOk(n)
  {
    if chunk == [] || n.demux.failed then Played(n, [], Format)
    else Play(m, Node(Appended(n.demux, chunk), n.core))
  }

  /** process() on chunk after chunk; the pipeline stops at the first failure. */
  ghost function ProcessAll(m: Setup, n: Node, chunks: seq<seq<Byte>>): Played
    requires CodecOk(m.codec) && NodeOk(n)
    decreases |chunks|
  {
    if chunks == [] then Played(n, [], Ok)
    else
      var p := Process(m, n, chunks[0]);
      PlayKeepsOk(m, Node(Appended(n.demux, chunks[0]), n.core));
      if p.status != Ok then p else Before(p.pictures, ProcessAll(m, p.node, chunks[1..]))
  }

  lemma {:induction false} PlayKeepsOk(m: Setup, n: Node)
    requires CodecOk(m.codec) && NodeOk(n)
    ensures NodeOk(Play(m, n).node) && (n.demux.held ==> Play(m, n).node.demux.held)
    ensures Play(m, n).status == Ok ==> !Play(m, n).node.demux.failed
    decreases |n.demux.buf|, 0
  {
    TakeKeepsHeader(n.demux);
    TakeStatus(n.demux);
    TakeShrinks(n.demux);
    var (d, r) := Take(n.demux);
    if r.Success? {
      PlayRecordKeepsOk(m, n.core, d, r.value);
    }
  }

  lemma {:induction false} PlayRecordKeepsOk(m: Setup, core: Option<Core>, d: Demux, r: Record)
    requires CodecOk(m.codec) && (core.Some? ==> CoreOk(core.value)) && d.header.Some?
    ensures var p := PlayRecord(m, core, d, r);
            NodeOk(p.node) && (d.held ==> p.node.demux.held) && (p.status == Ok ==> !p.node.demux.failed)
    decreases |d.buf|, 1
  {
    if Ready(m, core, d.header.value).Success? {
      var o := DecStep(m, Ready(m, core, d.header.value).value, r);
      if o.Success? {
        PlayKeepsOk(m, Node(d, Some(o.value.0)));
      }
    }
  }

  /** Same pictures, same status, and the same node if nothing failed. */
  predicate SameOutcome(p: Played, q: Played) {
    p.pictures == q.pictures && p.status == q.status && (p.status == Ok ==> p.node == q.node)
  }

  lemma BeforeTwice(a: seq<Picture>, b: seq<Picture>, p: Played)
    ensures Before(a, Before(b, p)) == Before(a + b, p)
  {
    assert a + (b + p.pictures) == (a + b) + p.pictures;
  }

  /** It makes no difference whether the model is set up before the next record or along with it. */
  lemma SetUpEarly(m: Setup, core: Option<Core>, c: Core, d: Demux, r: Result<Record>)
    requires CodecOk(m.codec) && (core.Some? ==> CoreOk(core.value)) && CoreOk(c) && d.header.Some?
    requires Ready(m, core, d.header.value) == Success(c)
    ensures r.Success? ==> PlayRecord(m, core, d, r.value) == PlayRecord(m, Some(c), d, r.value)
    ensures r.Failure? ==> SameOutcome(PlayEnd(m, Node(d, core), r.status), PlayEnd(m, Node(d, Some(c)), r.status))
  {
  }

  lemma PlayOfTake(m: Setup, n: Node, d: Demux, r: Result<Record>)
    requires CodecOk(m.codec) && NodeOk(n) && Take(n.demux) == (d, r)
    ensures r.Success? ==> d.header.Some? && Play(m, n) == PlayRecord(m, n.core, d, r.value)
    ensures r.Failure? ==> Play(m, n) == PlayEnd(m, Node(d, n.core), r.status)
  {
    TakeKeepsHeader(n.demux);
  }

  /** Looking at the next record does not change what will be played. */
  lemma PlayPeeked(m: Setup, n: Node, peeked: Node)
    requires CodecOk(m.codec) && NodeOk(n) && NodeOk(peeked)
    requires n.core == peeked.core && Take(n.demux) == Take(peeked.demux)
    ensures Play(m, n) == Play(m, peeked)
  {
  }

  /** Nor does setting the model up. */
  lemma PlaySetUp(m: Setup, n: Node, c: Core)
    requires CodecOk(m.codec) && NodeOk(n) && n.core.None? && CoreOk(c)
    requires n.demux.header.Some? && DecOpened(m, n.demux.header.value) == Success(c)
    ensures SameOutcome(Play(m, n), Play(m, Node(n.demux, Some(c))))
  {
    TakeKeepsHeader(n.demux);
    var (d, r) := Take(n.demux);
    PlayOfTake(m, n, d, r);
    PlayOfTake(m, Node(n.demux, Some(c)), d, r);
    SetUpEarly(m, None, c, d, r);
  }

  lemma SetUpFails(m: Setup, n: Node)
    requires CodecOk(m.codec) && NodeOk(n) && n.core.None?
    requires n.demux.header.Some? && DecOpened(m, n.demux.header.value).Failure?
    requires Take(n.demux).1.Success? || Take(n.demux).1.status == Again
    ensures Play(m, n).pictures == [] && Play(m, n).status == DecOpened(m, n.demux.header.value).status
  {
    TakeKeepsHeader(n.demux);
  }
}
