/** The .mlvc container: a 64-byte header, then 16-byte record heads with their payloads. */
module Containers {
  import opened Words
  import opened Statuses
  import opened Chunks

  const HDR_SIZE: nat := 64
  const REC_SIZE: nat := 16
  const MAX_FRAME_BYTES: nat := 0x400_0000
  const QINDEX_DROPPED: int := -1
  const MAGIC: seq<Byte> := [0x4D, 0x4C, 0x56, 0x43, 0x31, 0x02]  // "MLVC1" and the format byte

  datatype Header = Header(width: U32, height: U32, fpsNum: U32, fpsDen: U32, qp: U32, frameCount: U32,
                           iframePeriod: U32, ltrStartIdx: U32, ltrPeriod: U32, flags: U32, targetBitrate: U32)

  /** A record as the reader sees it; a dropped frame has no payload. */
  datatype Record = Record(qIndex: int, flags: U32, payload: seq<Byte>)

  function AsU32(n: int): U32
    requires -0x8000_0000 <= n < 0x1_0000_0000
  {
    if n < 0 then n + 0x1_0000_0000 else n
  }

  function AsInt32(n: U32): int {
    if n < 0x8000_0000 then n else n - 0x1_0000_0000
  }

  // ---------------------------------------------------------------- writing

  /** Up to the quantiser. */
  function HeaderHead(h: Header): (s: seq<Byte>)
    ensures |s| == 28
  {
    MAGIC + [0, 0] + Le4(h.width) + Le4(h.height)
    + Le4(if h.fpsNum != 0 then h.fpsNum else 30) + Le4(if h.fpsDen != 0 then h.fpsDen else 1) + Le4(h.qp)
  }

  function HeaderTail(h: Header): (s: seq<Byte>)
    ensures |s| == 36
  {
    [0, 0, 0, 0] + Le4(h.iframePeriod) + Le4(h.ltrStartIdx) + Le4(h.ltrPeriod)
    + Le4(h.flags) + Le4(h.targetBitrate) + [0, 0, 0, 0, 0, 0, 0, 0, 0, 0, 0, 0]
  }

  function HeaderBytes(h: Header): (s: seq<Byte>)
    ensures |s| == HDR_SIZE
  {
    HeaderHead(h) + HeaderTail(h)
  }

  function RecordHead(payloadSize: U32, qIndex: int, flags: U32): (s: seq<Byte>)
    requires -0x8000_0000 <= qIndex < 0x8000_0000
    ensures |s| == REC_SIZE
  {
    Le4(payloadSize) + Le4(AsU32(qIndex)) + Le4(flags) + Le4(0)
  }

  /** Records the reader accepts: a drop carries nothing, a frame 1 byte to 64 MiB. */
  predicate RecordOk(r: Record) {
    && -0x8000_0000 <= r.qIndex < 0x8000_0000
    && if r.qIndex == QINDEX_DROPPED then r.payload == [] else 0 < |r.payload| <= MAX_FRAME_BYTES
  }

  function RecordBytes(r: Record): seq<Byte>
    requires -0x8000_0000 <= r.qIndex < 0x8000_0000 && |r.payload| < 0x1_0000_0000
  {
    RecordHead(|r.payload|, r.qIndex, r.flags) + r.payload
  }

  function RecordsBytes(rs: seq<Record>): seq<Byte>
    requires forall k :: 0 <= k < |rs| ==> RecordOk(rs[k])
  {
    if rs == [] then []
    else
      assert RecordOk(rs[0]);
      RecordBytes(rs[0]) + RecordsBytes(rs[1..])
  }

  // ---------------------------------------------------------------- parsing

  function ParseHeader(data: seq<Byte>): Result<Header> {
    if |data| < HDR_SIZE then Failure(Again)
    else if data[..6] != MAGIC then Failure(Format)
    else
      var h := Header(ReadU32(data, 8), ReadU32(data, 12), ReadU32(data, 16), ReadU32(data, 20),
                      ReadU32(data, 24), ReadU32(data, 28), ReadU32(data, 32), ReadU32(data, 36),
                      ReadU32(data, 40), ReadU32(data, 44), ReadU32(data, 48));
      if h.width == 0 || h.height == 0 then Failure(Format) else Success(h)
  }

  /** What the writer's header reads back as: zero rates are replaced, the frame count is not stored. */
  function Normalized(h: Header): Header {
    h.(fpsNum := if h.fpsNum != 0 then h.fpsNum else 30, fpsDen := if h.fpsDen != 0 then h.fpsDen else 1,
       frameCount := 0)
  }

  lemma HeadFields(h: Header)
    ensures var d := HeaderHead(h);
            d[..6] == MAGIC && d[8..12] == Le4(h.width) && d[12..16] == Le4(h.height)
            && d[16..20] == Le4(Normalized(h).fpsNum) && d[20..24] == Le4(Normalized(h).fpsDen)
            && d[24..28] == Le4(h.qp)
  {
  }

  lemma TailFields(h: Header)
    ensures var d := HeaderTail(h);
            d[..4] == [0, 0, 0, 0] && d[4..8] == Le4(h.iframePeriod) && d[8..12] == Le4(h.ltrStartIdx)
            && d[12..16] == Le4(h.ltrPeriod) && d[16..20] == Le4(h.flags) && d[20..24] == Le4(h.targetBitrate)
  {
  }

  /** Slices of a middle part are slices of the whole. */
  lemma SliceWithin(head: seq<Byte>, mid: seq<Byte>, rest: seq<Byte>, i: nat, j: nat)
    requires i <= j <= |mid|
    ensures (head + mid + rest)[|head| + i..|head| + j] == mid[i..j]
  {
  }

  lemma HeaderFields(h: Header, rest: seq<Byte>)
    ensures var d := HeaderBytes(h) + rest;
            d[..6] == MAGIC && d[HDR_SIZE..] == rest
            && d[8..12] == Le4(h.width) && d[12..16] == Le4(h.height)
            && d[16..20] == Le4(Normalized(h).fpsNum) && d[20..24] == Le4(Normalized(h).fpsDen)
            && d[24..28] == Le4(h.qp) && d[28..32] == [0, 0, 0, 0] && d[32..36] == Le4(h.iframePeriod)
            && d[36..40] == Le4(h.ltrStartIdx) && d[40..44] == Le4(h.ltrPeriod)
            && d[44..48] == Le4(h.flags) && d[48..52] == Le4(h.targetBitrate)
  {
    HeadFields(h);
    TailFields(h);
    var a, b := HeaderHead(h), HeaderTail(h);
    assert [] + a + (b + rest) == HeaderBytes(h) + rest == a + b + rest;
    forall i: nat, j: nat | i <= j <= 28 ensures (HeaderBytes(h) + rest)[i..j] == a[i..j] {
      SliceWithin([], a, b + rest, i, j);
    }
    forall i: nat, j: nat | i <= j <= 36 ensures (HeaderBytes(h) + rest)[28 + i..28 + j] == b[i..j] {
      SliceWithin(a, b, rest, i, j);
    }
  }

  /** A written header parses back to itself, unless it has no extent. */
  lemma HeaderRoundTrip(h: Header, rest: seq<Byte>)
    ensures ParseHeader(HeaderBytes(h) + rest)
            == if h.width == 0 || h.height == 0 then Failure(Format) else Success(Normalized(h))
  {
    HeaderFields(h, rest);
    var n := Normalized(h);
    Le4RoundTrip(h.width);
    Le4RoundTrip(h.height);
    Le4RoundTrip(n.fpsNum);
    Le4RoundTrip(n.fpsDen);
    Le4RoundTrip(h.qp);
    Le4RoundTrip(h.iframePeriod);
    Le4RoundTrip(h.ltrStartIdx);
    Le4RoundTrip(h.ltrPeriod);
    Le4RoundTrip(h.flags);
    Le4RoundTrip(h.targetBitrate);
  }

  /** The reader's next record, without consuming it. */
  function ParseRecord(data: seq<Byte>): Result<Record> {
    if |data| < REC_SIZE then Failure(Again)
    else
      var size, q, flags := ReadU32(data, 0), AsInt32(ReadU32(data, 4)), ReadU32(data, 8);
      if q == QINDEX_DROPPED then
        if size != 0 then Failure(Format) else Success(Record(q, flags, []))
      else if size == 0 || size > MAX_FRAME_BYTES then Failure(Format)
      else if |data| < REC_SIZE + size then Failure(Again)
      else Success(Record(q, flags, data[REC_SIZE..REC_SIZE + size]))
  }

  lemma RecordRoundTrip(r: Record, rest: seq<Byte>)
    requires RecordOk(r)
    ensures ParseRecord(RecordBytes(r) + rest) == Success(r)
    ensures (RecordBytes(r) + rest)[REC_SIZE + |r.payload|..] == rest
  {
    var d := RecordBytes(r) + rest;
    assert d[0..4] == Le4(|r.payload|) && d[4..8] == Le4(AsU32(r.qIndex)) && d[8..12] == Le4(r.flags);
    Le4RoundTrip(|r.payload|);
    Le4RoundTrip(AsU32(r.qIndex));
    Le4RoundTrip(r.flags);
    assert d[REC_SIZE..REC_SIZE + |r.payload|] == r.payload;
  }

  lemma ReadPrefix(data: seq<Byte>, more: seq<Byte>, at: nat)
    requires at + 4 <= |data|
    ensures ReadU32(data + more, at) == ReadU32(data, at)
  {
    assert (data + more)[at..at + 4] == data[at..at + 4];
  }

  /** A verdict on a prefix stays the verdict when more bytes follow. */
  lemma HeaderPrefix(data: seq<Byte>, more: seq<Byte>)
    requires |data| >= HDR_SIZE
    ensures ParseHeader(data + more) == ParseHeader(data) && ParseHeader(data) != Failure(Again)
  {
    assert (data + more)[..6] == data[..6];
    forall at: nat | at + 4 <= HDR_SIZE ensures ReadU32(data + more, at) == ReadU32(data, at) {
      ReadPrefix(data, more, at);
    }
  }

  lemma RecordPrefix(data: seq<Byte>, more: seq<Byte>)
    ensures ParseRecord(data) != Failure(Again) ==> ParseRecord(data + more) == ParseRecord(data)
    ensures ParseRecord(data).Success? ==>
              var n := REC_SIZE + |ParseRecord(data).value.payload|;
              n <= |data| && (data + more)[n..] == data[n..] + more
  {
    if |data| >= REC_SIZE {
      ReadPrefix(data, more, 0);
      ReadPrefix(data, more, 4);
      ReadPrefix(data, more, 8);
      var size := ReadU32(data, 0);
      if |data| >= REC_SIZE + size {
        assert (data + more)[REC_SIZE..REC_SIZE + size] == data[REC_SIZE..REC_SIZE + size];
      }
    }
  }

  // ---------------------------------------------------------------- the demuxer

  /** held is false until the first byte arrives: the buffer then has no storage to point into. */
  datatype Demux = Demux(buf: seq<Byte>, held: bool, header: Option<Header>, failed: bool)

  const EMPTY_DEMUX: Demux := Demux([], false, None, false)

  function Appended(d: Demux, data: seq<Byte>): Demux {
    if d.failed || data == [] then d else d.(buf := d.buf + data, held := true)
  }

  /** Reads the header if it is still to come; a status means that there is no record to look for. */
  function TakeHeader(d: Demux): (Demux, Option<Status>) {
    if d.failed then (d, Some(Format))
    else if d.header != None then (d, None)
    else if !d.held then (d.(failed := true), Some(Format))
    else
      match ParseHeader(d.buf)
      case Failure(status) => if status == Again then (d, Some(Again)) else (d.(failed := true), Some(Format))
      case Success(h) => (d.(buf := d.buf[HDR_SIZE..], header := Some(h)), None)
  }

  /** next() followed, when it yields a record, by consume_record(). */
  function Take(d: Demux): (Demux, Result<Record>) {
    match TakeHeader(d)
    case (e, Some(status)) => (e, Failure(status))
    case (e, None) => TakeRecord(e)
  }

  function TakeRecord(d: Demux): (Demux, Result<Record>) {
    match ParseRecord(d.buf)
    case Failure(status) => if status == Again then (d, Failure(Again)) else (d.(failed := true), Failure(Format))
    case Success(r) => (d.(buf := d.buf[REC_SIZE + |r.payload|..]), Success(r))
  }

  /** Takes records until the demuxer wants more bytes or fails. */
  function Drain(d: Demux): (Demux, seq<Record>)
    decreases |d.buf|
  {
    var (d', r) := Take(d);
    match r
    case Failure(_) => (d', [])
    case Success(rec) =>
      TakeShrinks(d);
      var (d'', more) := Drain(d');
      (d'', [rec] + more)
  }

  lemma TakeShrinks(d: Demux)
    ensures Take(d).1.Success? ==> |Take(d).0.buf| < |d.buf|
  {
  }

  /** Feeds chunk after chunk, draining after each. */
  function Feed(d: Demux, chunks: seq<seq<Byte>>): (Demux, seq<Record>)
    decreases |chunks|
  {
    if chunks == [] then (d, [])
    else
      var (d', rs) := Drain(Appended(d, chunks[0]));
      var (d'', more) := Feed(d', chunks[1..]);
      (d'', rs + more)
  }

  /** Two states that behave alike from now on: equal, or both past their first error. */
  predicate Same(d: Demux, e: Demux) {
    d == e || (d.failed && e.failed)
  }

  lemma TakeRecordAppend(d: Demux, more: seq<Byte>)
    requires d.held && more != [] && !d.failed
    ensures TakeRecord(d).1.Success? ==>
              TakeRecord(Appended(d, more)) == (Appended(TakeRecord(d).0, more), TakeRecord(d).1)
    ensures TakeRecord(d).1 == Failure(Again) ==> TakeRecord(d).0 == d
    ensures TakeRecord(d).1 == Failure(Format) ==>
              TakeRecord(Appended(d, more)).1 == Failure(Format) && TakeRecord(Appended(d, more)).0.failed
  {
    RecordPrefix(d.buf, more);
  }

  lemma TakeHeaderDone(d: Demux, more: seq<Byte>)
    requires d.held && more != [] && TakeHeader(d).1 == None
    ensures TakeHeader(Appended(d, more)) == (Appended(TakeHeader(d).0, more), None)
    ensures TakeHeader(d).0.held && !TakeHeader(d).0.failed
    ensures TakeHeader(Appended(TakeHeader(d).0, more)) == (Appended(TakeHeader(d).0, more), None)
  {
    if d.header.None? {
      HeaderPrefix(d.buf, more);
      hide ParseHeader;
      assert (d.buf + more)[HDR_SIZE..] == d.buf[HDR_SIZE..] + more;
    }
  }

  lemma TakeHeaderStops(d: Demux, more: seq<Byte>)
    requires d.held && more != [] && TakeHeader(d).1.Some?
    ensures TakeHeader(d).1.value in {Again, Format}
    ensures TakeHeader(d).1.value == Format ==>
              TakeHeader(Appended(d, more)).1 == Some(Format) && TakeHeader(Appended(d, more)).0.failed
    ensures TakeHeader(d).1.value == Again ==> TakeHeader(d).0 == d
  {
    if |d.buf| >= HDR_SIZE {
      HeaderPrefix(d.buf, more);
    }
  }

  /** What Take decides it decides the same when more bytes have already been appended. */
  lemma TakeAppend(d: Demux, more: seq<Byte>)
    requires d.held && more != []
    ensures Take(d).1.Success? ==> Take(Appended(d, more)) == (Appended(Take(d).0, more), Take(d).1)
    ensures Take(d).1 == Failure(Again) ==> Take(Appended(d, more)) == Take(Appended(Take(d).0, more))
    ensures Take(d).1 == Failure(Format) ==>
              Take(Appended(d, more)).1 == Failure(Format) && Take(Appended(d, more)).0.failed
  {
    if TakeHeader(d).1 != None {
      TakeHeaderStops(d, more);
    } else {
      TakeHeaderDone(d, more);
      TakeRecordAppend(TakeHeader(d).0, more);
    }
  }

  lemma TakeStatus(d: Demux)
    ensures Take(d).1.Failure? ==> Take(d).1.status in {Again, Format}
    ensures Take(d).1 == Failure(Format) <==> Take(d).0.failed
    ensures d.held ==> Take(d).0.held
    ensures Take(d).1 == Failure(Again) ==> Take(Take(d).0) == Take(d)
  {
  }

  lemma {:induction false} DrainAppend(d: Demux, more: seq<Byte>)
    requires d.held && more != []
    ensures var (d1, rs1) := Drain(d);
            var (d2, rs2) := Drain(Appended(d1, more));
            var (d3, rs3) := Drain(Appended(d, more));
            d1.held && rs3 == rs1 + rs2 && Same(d2, d3)
    decreases |d.buf|
  {
    if Take(d).1.Success? {
      var d', rec := Take(d).0, Take(d).1.value;
      TakeAppend(d, more);
      DrainGoes(d, d', rec);
      DrainGoes(Appended(d, more), Appended(d', more), rec);
      TakeStatus(d);
      DrainAppend(d', more);
      Regroup([rec], Drain(d').1, Drain(Appended(Drain(d').0, more)).1);
    } else {
      DrainStopped(d, more);
    }
  }

  lemma Regroup(a: seq<Record>, b: seq<Record>, c: seq<Record>)
    ensures a + (b + c) == (a + b) + c
  {
  }

  lemma DrainGoes(d: Demux, d': Demux, rec: Record)
    requires Take(d) == (d', Success(rec))
    ensures |d'.buf| < |d.buf| && Drain(d) == (Drain(d').0, [rec] + Drain(d').1)
  {
    TakeShrinks(d);
  }

  lemma DrainStopped(d: Demux, more: seq<Byte>)
    requires d.held && more != [] && Take(d).1.Failure?
    ensures Drain(d) == (Take(d).0, []) && Take(d).0.held
    ensures Same(Drain(Appended(Take(d).0, more)).0, Drain(Appended(d, more)).0)
    ensures Drain(Appended(Take(d).0, more)).1 == Drain(Appended(d, more)).1
  {
    TakeAppend(d, more);
    TakeStatus(d);
    var d' := Take(d).0;
    if Take(d).1 == Failure(Format) {
      assert Drain(Appended(d', more)) == (d', []);
    } else {
      assert Drain(Appended(d', more)) == Drain(Appended(d, more));
    }
  }

  lemma {:induction false} DrainTwice(d: Demux)
    ensures Drain(Drain(d).0) == (Drain(d).0, []) && (d.held ==> Drain(d).0.held)
    decreases |d.buf|
  {
    TakeStatus(d);
    if Take(d).1.Success? {
      TakeShrinks(d);
      DrainTwice(Take(d).0);
    }
  }

  lemma {:induction false} FeedFailed(d: Demux, chunks: seq<seq<Byte>>)
    requires d.failed
    ensures Feed(d, chunks) == (d, [])
    decreases |chunks|
  {
    if chunks != [] {
      var none: seq<Record> := [];
      assert Drain(Appended(d, chunks[0])) == (d, none) && none + none == none;
      FeedFailed(d, chunks[1..]);
    }
  }

  /** Feeding a drained state chunk by chunk is feeding it everything at once. */
  lemma {:induction false} FeedIsDrain(d: Demux, chunks: seq<seq<Byte>>)
    requires Drain(d) == (d, []) && d.held
    ensures var (d1, rs1) := Feed(d, chunks);
            var (d2, rs2) := Drain(Appended(d, Joined(chunks)));
            rs1 == rs2 && Same(d1, d2)
    decreases |chunks|, 1
  {
    if chunks != [] {
      if chunks[0] == [] {
        FeedIsDrain(d, chunks[1..]);
        SkipsEmpty(d, chunks);
      } else {
        ChunkStep(d, chunks);
      }
    }
  }

  lemma SkipsEmpty(d: Demux, chunks: seq<seq<Byte>>)
    requires Drain(d) == (d, []) && chunks != [] && chunks[0] == []
    ensures Feed(d, chunks) == Feed(d, chunks[1..]) && Joined(chunks) == Joined(chunks[1..])
  {
    var none: seq<Record> := [];
    assert none + Feed(d, chunks[1..]).1 == Feed(d, chunks[1..]).1;
    assert [] + Joined(chunks[1..]) == Joined(chunks[1..]);
  }

  lemma ChunkStep(d: Demux, chunks: seq<seq<Byte>>)
    requires chunks != [] && chunks[0] != []
    ensures var (d1, rs1) := Feed(d, chunks);
            var (d2, rs2) := Drain(Appended(d, Joined(chunks)));
            rs1 == rs2 && Same(d1, d2)
    decreases |chunks|, 0
  {
    var c, rest := chunks[0], chunks[1..];
    var e := Appended(d, c);
    if d.failed {
      FeedFailed(d, chunks);
    } else {
      assert Appended(e, Joined(rest)) == Appended(d, Joined(chunks)) by {
        assert d.buf + c + Joined(rest) == d.buf + (c + Joined(rest));
        assert Joined(rest) == [] ==> d.buf + (c + Joined(rest)) == d.buf + c;
      }
      DrainTwice(e);
      FeedIsDrain(Drain(e).0, rest);
      if Joined(rest) == [] {
        assert Drain(e).1 + [] == Drain(e).1;
      } else {
        DrainAppend(e, Joined(rest));
      }
    }
  }

  /** Nobody asks for a record before the first byte is there. */
  predicate WaitsForBytes(chunks: seq<seq<Byte>>) {
    chunks == [] || chunks[0] != []
  }

  /**
   * The demuxer does not see how its input is cut: any split of a byte string, empty chunks included,
   * gives the same records and the same outcome, and an error is final. The one exception is a split
   * whose first chunk is empty: it yields no record and fails for good, whatever follows.
   */
  lemma ChunkingIndependent(chunks: seq<seq<Byte>>, chunks': seq<seq<Byte>>)
    requires Joined(chunks) == Joined(chunks') && WaitsForBytes(chunks')
    ensures var (d1, rs1) := Feed(EMPTY_DEMUX, chunks);
            var (d2, rs2) := Feed(EMPTY_DEMUX, chunks');
            if WaitsForBytes(chunks) then rs1 == rs2 && Same(d1, d2)
            else (d1, rs1) == (EMPTY_DEMUX.(failed := true), [])
  {
    if !WaitsForBytes(chunks) {
      EmptyFirstChunk(chunks);
    } else if chunks != [] && chunks' != [] {
      ChunkStep(EMPTY_DEMUX, chunks);
      ChunkStep(EMPTY_DEMUX, chunks');
    }
  }

  lemma EmptyFirstChunk(chunks: seq<seq<Byte>>)
    requires !WaitsForBytes(chunks)
    ensures Feed(EMPTY_DEMUX, chunks) == (EMPTY_DEMUX.(failed := true), [])
  {
    NextBeforeFirstByte(chunks[1..]);
    var d := Take(EMPTY_DEMUX).0;
    var none: seq<Record> := [];
    assert Drain(Appended(EMPTY_DEMUX, chunks[0])) == (d, none) && none + none == none;
  }

  /** Asking for a record before the first byte is a format error, and stays one. */
  lemma NextBeforeFirstByte(chunks: seq<seq<Byte>>)
    ensures Take(EMPTY_DEMUX).1 == Failure(Format)
    ensures Feed(Take(EMPTY_DEMUX).0, chunks) == (Take(EMPTY_DEMUX).0, [])
  {
    FeedFailed(Take(EMPTY_DEMUX).0, chunks);
  }

  lemma {:induction false} DrainRecords(d: Demux, rs: seq<Record>)
    requires !d.failed && d.header != None && forall k :: 0 <= k < |rs| ==> RecordOk(rs[k])
    requires d.buf == RecordsBytes(rs)
    ensures Drain(d) == (d.(buf := []), rs)
    decreases |rs|
  {
    if rs != [] {
      assert RecordOk(rs[0]);
      RecordRoundTrip(rs[0], RecordsBytes(rs[1..]));
      DrainRecords(d.(buf := RecordsBytes(rs[1..])), rs[1..]);
      assert [rs[0]] + rs[1..] == rs;
    }
  }

  /** A printed header and any well-formed records parse back exactly when the first chunk is not empty. */
  lemma StreamRoundTrip(h: Header, rs: seq<Record>, chunks: seq<seq<Byte>>)
    requires h.width != 0 && h.height != 0 && forall k :: 0 <= k < |rs| ==> RecordOk(rs[k])
    requires Joined(chunks) == HeaderBytes(h) + RecordsBytes(rs)
    ensures Feed(EMPTY_DEMUX, chunks) == (Demux([], true, Some(Normalized(h)), false), rs) <==> WaitsForBytes(chunks)
  {
    if WaitsForBytes(chunks) {
      var all := Joined(chunks);
      assert [] + all == all;
      WholeStream(h, rs, Appended(EMPTY_DEMUX, all));
      ChunkStep(EMPTY_DEMUX, chunks);
    } else {
      EmptyFirstChunk(chunks);
    }
  }

  lemma WholeStream(h: Header, rs: seq<Record>, d: Demux)
    requires h.width != 0 && h.height != 0 && forall k :: 0 <= k < |rs| ==> RecordOk(rs[k])
    requires d == Demux(HeaderBytes(h) + RecordsBytes(rs), true, None, false)
    ensures Drain(d) == (Demux([], true, Some(Normalized(h)), false), rs)
  {
    var e := Demux(RecordsBytes(rs), true, Some(Normalized(h)), false);
    HeaderRoundTrip(h, RecordsBytes(rs));
    assert d.buf[HDR_SIZE..] == e.buf;
    assert TakeHeader(d) == (e, None) == TakeHeader(e);
    assert Take(d) == Take(e);
    DrainRecords(e, rs);
  }

  // ---------------------------------------------------------------- the class

  class Demuxer {
    var buf: seq<Byte>
    var held: bool
    var header: Header
    var haveHeader: bool
    var parseError: bool
    var framesEmitted: nat
    var lastRecord: nat

    ghost function View(): Demux
      reads this
    {
      Demux(buf, held, if haveHeader then Some(header) else None, parseError)
    }

    constructor ()
      ensures View() == EMPTY_DEMUX && framesEmitted == 0 && lastRecord == 0
    {
      buf, held := [], false;
      header := Header(0, 0, 30, 1, 0, 0, 0, 0, 0, 0, 0);
      haveHeader, parseError := false, false;
      framesEmitted, lastRecord := 0, 0;
    }

    method Append(data: seq<Byte>) returns (st: Status)
      modifies this`buf, this`held
      ensures st == if parseError then Format else Ok
      ensures View() == Appended(old(View()), data)
    {
      if parseError {
        return Format;
      }
      if |data| == 0 {
        return Ok;
      }
      buf := buf + data;
      held := true;
      return Ok;
    }

    /** Parses the header once it is complete. */
    method NeedHeader() returns (stop: Option<Status>)
      modifies this`header, this`haveHeader, this`parseError, this`buf
      ensures (View(), stop) == TakeHeader(old(View()))
      ensures stop == None ==> !parseError && haveHeader
    {
      if parseError {
        return Some(Format);
      }
      if haveHeader {
        return None;
      }
      if !held {
        parseError := true;
        return Some(Format);
      }
      var h := ParseHeader(buf);
      if h.Failure? {
        if h.status == Again {
          return Some(Again);
        }
        parseError := true;
        return Some(Format);
      }
      header := h.value;
      haveHeader := true;
      buf := buf[HDR_SIZE..];
      return None;
    }

    /** The next record, left in the buffer until it is consumed. */
    method Next() returns (r: Result<Record>)
      modifies this
      ensures r == Take(old(View())).1 && |buf| <= |old(buf)|
      ensures r.Failure? ==> View() == Take(old(View())).0 && framesEmitted == old(framesEmitted)
      ensures r.Success? ==>
                lastRecord == REC_SIZE + |r.value.payload| <= |buf| && framesEmitted == old(framesEmitted) + 1
                && View().(buf := buf[lastRecord..]) == Take(old(View())).0 && Take(View()) == Take(old(View()))
    {
      var stop := NeedHeader();
      if stop.Some? {
        return Failure(stop.value);
      }
      if |buf| < REC_SIZE {
        return Failure(Again);
      }
      var size := ReadU32(buf, 0);
      var q := AsInt32(ReadU32(buf, 4));
      var flags := ReadU32(buf, 8);
      if q == QINDEX_DROPPED {
        if size != 0 {
          parseError := true;
          return Failure(Format);
        }
        lastRecord := REC_SIZE;
        framesEmitted := framesEmitted + 1;
        return Success(Record(q, flags, []));
      }
      if size == 0 || size > MAX_FRAME_BYTES {
        parseError := true;
        return Failure(Format);
      }
      if |buf| < REC_SIZE + size {
        return Failure(Again);
      }
      lastRecord := REC_SIZE + size;
      framesEmitted := framesEmitted + 1;
      return Success(Record(q, flags, buf[REC_SIZE..REC_SIZE + size]));
    }

    method ConsumeRecord()
      modifies this`buf, this`lastRecord
      ensures if 0 < old(lastRecord) <= |old(buf)|
              then buf == old(buf)[old(lastRecord)..] && lastRecord == 0
              else buf == old(buf) && lastRecord == old(lastRecord)
    {
      if lastRecord == 0 || lastRecord > |buf| {
        return;
      }
      buf := buf[lastRecord..];
      lastRecord := 0;
    }
  }
}
