/** The program stream byte by byte: what the multiplexer prints, and what the parser makes of anybody's stream. */
module PsFormat {
  import opened Words
  import opened Statuses
  import opened Chunks
  import opened PsBits
  import opened PsMux
  import opened PsDemux
  import opened Crc
  import opened PsRoundTrip
  import opened PsStreams

  /** The byte at i as a number. */
  function At(s: seq<Byte>, i: nat): int
    requires i < |s|
  {
    s[i]
  }

  /** Two bytes, the higher first. */
  function Word(s: seq<Byte>, i: nat): int
    requires i + 1 < |s|
  {
    256 * At(s, i) + At(s, i + 1)
  }

  // ---------------------------------------------------------------- what is printed

  /** Access units without bytes are invalid, those beyond 64 MiB a format error, all others are printed. */
  lemma MuxRefuses(a: Access)
    ensures Muxed(a) == Failure(Invalid) <==> |a.data| == 0
    ensures Muxed(a) == Failure(Format) <==> |a.data| > 67108864
    ensures Muxed(a).Success? <==> 1 <= |a.data| <= 67108864
    ensures AccessOk(a) <==> Muxed(a).Success?
  {
  }

  /** The packets an access unit is cut into, 60000 bytes each but for the last. */
  function Packets(n: nat): nat {
    (n + 59999) / 60000
  }

  /** The bytes of packet j. */
  function PacketData(a: Access, j: nat): (s: seq<Byte>)
    requires j < Packets(|a.data|)
    ensures 0 < |s| <= 60000
  {
    a.data[60000 * j..if 60000 * (j + 1) <= |a.data| then 60000 * (j + 1) else |a.data|]
  }

  lemma ChunkIs(a: Access, j: nat)
    requires j < Packets(|a.data|)
    ensures 60000 * j < |a.data|
    ensures a.data[60000 * j..60000 * j + ChunkAt(a, 60000 * j)] == PacketData(a, j)
    ensures 60000 * j + ChunkAt(a, 60000 * j) == if j + 1 < Packets(|a.data|) then 60000 * (j + 1) else |a.data|
  {
  }

  /** The pack and the packet of the passes from the j-th on. */
  function Rest(a: Access, j: nat, pack: Unit): seq<Unit>
    requires 0 < j <= Packets(|a.data|)
    decreases Packets(|a.data|) - j
  {
    if j == Packets(|a.data|) then [] else
      var more: Unit := More(PacketData(a, j));
      [pack, more] + Rest(a, j + 1, pack)
  }

  lemma {:induction false} FragmentsRest(a: Access, j: nat, pack: Unit)
    requires 0 < j < Packets(|a.data|) && pack == Pack(Clock(a.pts), Rate(a))
    ensures 60000 * j < |a.data| && Fragments(a, 60000 * j) == Rest(a, j, pack)
    decreases Packets(|a.data|) - j
  {
    ChunkIs(a, j);
    var more: Unit := More(PacketData(a, j));
    assert Fragment(a, 60000 * j) == [pack, more];
    if j + 1 < Packets(|a.data|) {
      FragmentsRest(a, j + 1, pack);
    }
  }

  /**
   * The units of an access unit: a pack; ahead of a key frame's first packet the system header and the map
   * with its codec; the stamped packet; then pack and packet in turn. Every pack has the clock and the rate.
   */
  lemma UnitsOfAccess(a: Access) returns (pack: Unit, head: Unit)
    requires AccessOk(a)
    ensures pack.Pack? && Stamped(a.pts, pack.scr) && pack.rate == a.muxRate % 0x40_0000
    ensures head.Head? && Stamped(a.pts, head.clock) && head.data == PacketData(a, 0)
    ensures Fragments(a, 0)
            == [pack] + (if a.keyframe then [System(pack.rate), Map(a.codec)] else []) + [head] + Rest(a, 1, pack)
  {
    pack, head := Pack(Clock(a.pts), Rate(a)), Head(Clock(a.pts), PacketData(a, 0));
    ChunkIs(a, 0);
    var tables: seq<Unit> := if a.keyframe then [System(pack.rate), Map(a.codec)] else [];
    assert Fragment(a, 0) == [pack] + tables + [head];
    if Packets(|a.data|) > 1 {
      FragmentsRest(a, 1, pack);
    }
  }

  lemma SizeOne(u: Unit)
    ensures |UnitBytes(u)| == match u case Pack(_, _) => 14 case System(_) => 15 case Map(_) => 20
                                      case Head(_, data) => 14 + |data| case More(data) => 9 + |data|
  {
  }

  lemma {:induction false} RestSize(a: Access, j: nat, pack: Unit)
    requires 0 < j <= Packets(|a.data|) && pack.Pack? && AccessOk(a)
    ensures |UnitsBytes(Rest(a, j, pack))|
            == (if j < Packets(|a.data|) then |a.data| - 60000 * j else 0) + 23 * (Packets(|a.data|) - j)
    decreases Packets(|a.data|) - j
  {
    if j < Packets(|a.data|) {
      var more: Unit := More(PacketData(a, j));
      RestSize(a, j + 1, pack);
      UnitsAppend([pack, more], Rest(a, j + 1, pack));
      TwoUnits(pack, more);
      SizeOne(pack);
      SizeOne(more);
    }
  }

  /** How long the output is: the data, a pack and a packet header for each packet, a time stamp, and the tables. */
  lemma MuxedSize(a: Access)
    requires AccessOk(a)
    ensures Muxed(a).Success?
    ensures |Muxed(a).value| == |a.data| + 23 * ((|a.data| + 59999) / 60000) + 5 + if a.keyframe then 35 else 0
  {
    var pack, head := UnitsOfAccess(a);
    SizeOne(pack);
    SizeOne(head);
    RestSize(a, 1, pack);
    if a.keyframe {
      var system: Unit, table: Unit := System(pack.rate), Map(a.codec);
      FourUnits(pack, system, table, head);
      SizeOne(system);
      SizeOne(table);
      UnitsAppend([pack, system, table, head], Rest(a, 1, pack));
      assert Fragments(a, 0) == [pack, system, table, head] + Rest(a, 1, pack);
    } else {
      TwoUnits(pack, head);
      UnitsAppend([pack, head], Rest(a, 1, pack));
      assert Fragments(a, 0) == [pack, head] + Rest(a, 1, pack);
    }
  }

  /**
   * The fields of a pack header where sections 2.5.3.3 and 2.5.3.4 of ISO/IEC 13818-1 put them: the clock
   * base in three parts between marker bits, no extension, the rate, two markers, no stuffing.
   */
  lemma PackFields(scr: nat, rate: nat)
    requires scr < 0x2_0000_0000 && rate < 0x40_0000
    ensures var b := UnitBytes(Pack(scr, rate));
            && |b| == 14 && b[..4] == [0, 0, 1, 0xBA] && At(b, 4) / 64 == 1
            && At(b, 4) / 4 % 2 == 1 && At(b, 6) / 4 % 2 == 1 && At(b, 8) / 4 % 2 == 1 && At(b, 8) % 4 == 0 && b[9] == 1
            && At(b, 4) / 8 % 8 * 0x4000_0000 + (At(b, 4) % 4 * 0x2000 + At(b, 5) * 32 + At(b, 6) / 8) * 0x8000
               + (At(b, 6) % 4 * 0x2000 + At(b, 7) * 32 + At(b, 8) / 8) == scr
            && At(b, 10) * 0x4000 + At(b, 11) * 64 + At(b, 12) / 4 == rate && At(b, 12) % 4 == 3 && b[13] == 0xF8
  {
    Fields(scr);
    Split15(Mid15(scr));
    Split15(Low15(scr));
    RateSplit(rate);
    var body := PackBody(scr, rate);
    var b := UnitBytes(Pack(scr, rate));
    assert forall i :: 0 <= i < 10 ==> b[4 + i] == body[i];
    PackParts(High3(scr), Mid15(scr) / 0x2000, Mid15(scr) % 32, Low15(scr) / 0x2000, Low15(scr) % 32);
    assert b[4] == body[0] && b[5] == body[1] && b[6] == body[2] && b[7] == body[3] && b[8] == body[4] && b[9] == body[5];
    assert b[10] == body[6] && b[11] == body[7] && b[12] == body[8] && b[13] == body[9];
  }

  /** The bytes that fields share: a high part, a marker bit and the top of the next field. */
  lemma PackParts(a: nat, b: nat, c: nat, d: nat, e: nat)
    requires a < 8 && b < 4 && c < 32 && d < 4 && e < 32
    ensures var x := 0x44 + 8 * a + b; x / 64 == 1 && x / 8 % 8 == a && x / 4 % 2 == 1 && x % 4 == b
    ensures var x := c * 8 + 4 + d; x / 8 == c && x / 4 % 2 == 1 && x % 4 == d
    ensures var x := e * 8 + 4; x / 8 == e && x / 4 % 2 == 1 && x % 4 == 0
  {
  }

  /** The packets: length, alignment flag on the first only, and its time stamp between marker bits. */
  lemma HeadFields(clock: nat, data: seq<Byte>)
    requires clock < 0x2_0000_0000 && 0 < |data| <= 60000
    ensures var b := UnitBytes(Head(clock, data));
            && |b| == 14 + |data| && b[..4] == [0, 0, 1, 0xE0] && Word(b, 4) == |data| + 8 && b[6..9] == [0x84, 0x80, 5]
            && At(b, 9) / 16 == 2 && At(b, 9) % 2 == 1 && At(b, 11) % 2 == 1 && At(b, 13) % 2 == 1
            && At(b, 9) / 2 % 8 * 0x4000_0000 + (At(b, 10) * 128 + At(b, 11) / 2) * 0x8000
               + (At(b, 12) * 128 + At(b, 13) / 2) == clock
            && b[14..] == data
  {
    Fields(clock);
    var b := UnitBytes(Head(clock, data));
    var s := PtsBytes(clock);
    assert b[4..6] == Be16(|data| + 8) && b[4] == b[4..6][0] && b[5] == b[4..6][1];
    assert b[9..14] == s;
    assert b[9] == s[0] && b[10] == s[1] && b[11] == s[2] && b[12] == s[3] && b[13] == s[4];
    PtsParts(High3(clock), Mid15(clock), Low15(clock));
  }

  lemma PtsParts(a: nat, b: nat, c: nat)
    requires a < 8 && b < 0x8000 && c < 0x8000
    ensures (0x21 + 2 * a) / 16 == 2 && (0x21 + 2 * a) % 2 == 1 && (0x21 + 2 * a) / 2 % 8 == a
    ensures (b % 0x80 * 2 + 1) % 2 == 1 && b / 0x80 * 128 + (b % 0x80 * 2 + 1) / 2 == b
    ensures (c % 0x80 * 2 + 1) % 2 == 1 && c / 0x80 * 128 + (c % 0x80 * 2 + 1) / 2 == c
  {
  }

  lemma MoreFields(data: seq<Byte>)
    requires 0 < |data| <= 60000
    ensures var b := UnitBytes(More(data));
            |b| == 9 + |data| && b[..4] == [0, 0, 1, 0xE0] && Word(b, 4) == |data| + 3 && b[6..9] == [0x80, 0, 0] && b[9..] == data
  {
    var b := UnitBytes(More(data));
    assert b[4..6] == Be16(|data| + 3) && b[4] == b[4..6][0] && b[5] == b[4..6][1];
  }

  /** The tables: rate bound and one video stream; a map of one entry with the codec's stream type. */
  lemma SystemFields(rate: nat)
    requires rate < 0x40_0000
    ensures var b := UnitBytes(System(rate));
            && |b| == 15 && b[..6] == [0, 0, 1, 0xBB, 0, 9] && At(b, 6) / 128 == 1
            && At(b, 6) % 128 * 0x8000 + At(b, 7) * 128 + At(b, 8) / 2 == rate && At(b, 8) % 2 == 1
            && b[9..] == [0x00, 0x21, 0x7F, 0xE0, 0xE0, 0xE6]
  {
    RateSplit(rate);
    var b := UnitBytes(System(rate));
    var body := SystemBody(rate);
    assert b[6..] == body && b[6] == body[0] && b[7] == body[1] && b[8] == body[2];
    BoundParts(rate / 0x8000, rate % 128);
  }

  lemma BoundParts(a: nat, c: nat)
    requires a < 128 && c < 128
    ensures (0x80 + a) / 128 == 1 && (0x80 + a) % 128 == a && (c * 2 + 1) / 2 == c && (c * 2 + 1) % 2 == 1
  {
  }

  lemma MapFields(codec: VideoCodec)
    ensures var b := UnitBytes(Map(codec));
            && |b| == 20 && b[..6] == [0, 0, 1, 0xBC, 0, 14]
            && b[6..16] == [0xC0, 0xFF, 0, 0, 0, 4, if codec.Avc? then 0x1B else 0x24, 0xE0, 0, 0]
            && b[16..] == if codec.Avc? then [0x09, 0x00, 0xCC, 0x62] else [0xA1, 0x48, 0x24, 0x95]
  {
    MapSum(codec);
    MapLayout(codec);
    hide MapBody, Be32, Be16, StartCode, UnitBytes;
    MiddleOf(StartCode(0xBC) + Be16(14), MapBody(codec), UnitBytes(Map(codec)), Be32(Crc32(MapBody(codec))));
  }

  lemma MapLayout(codec: VideoCodec)
    ensures StartCode(0xBC) + Be16(14) == [0, 0, 1, 0xBC, 0, 14]
    ensures MapBody(codec) == [0xC0, 0xFF, 0, 0, 0, 4, if codec.Avc? then 0x1B else 0x24, 0xE0, 0, 0]
    ensures UnitBytes(Map(codec)) == StartCode(0xBC) + Be16(14) + MapBody(codec) + Be32(Crc32(MapBody(codec)))
  {
  }

  lemma MapSum(codec: VideoCodec)
    ensures Be32(Crc32(MapBody(codec))) == if codec.Avc? then [0x09, 0x00, 0xCC, 0x62] else [0xA1, 0x48, 0x24, 0x95]
  {
    MapCrc(codec);
    SumBytes();
  }

  lemma SumBytes()
    ensures Be32(0x0900_CC62) == [0x09, 0x00, 0xCC, 0x62] && Be32(0xA148_2495) == [0xA1, 0x48, 0x24, 0x95]
  {
  }

  lemma MiddleOf(head: seq<Byte>, body: seq<Byte>, all: seq<Byte>, tail: seq<Byte>)
    requires all == head + body + tail
    ensures all[..|head|] == head && all[|head|..|head| + |body|] == body && all[|head| + |body|..] == tail
  {
  }

  // ---------------------------------------------------------------- anybody's stream

  /** The buffer takes 65 MiB and no more; an empty chunk changes nothing. */
  lemma AppendLimit(p: Ps, data: seq<Byte>)
    ensures AppendOf(p, data).Some? <==> data == [] || |p.buf| + |data| <= 68157440
    ensures AppendOf(p, data).Some? ==> AppendOf(p, data).value == Ps(p.buf + data, p.cursor, p.asm)
  {
    if data == [] { assert p.buf + data == p.buf; }
  }

  /**
   * A whole unit that carries no video: a pack header, a system header, a packet of another stream, a video
   * packet without payload, or a start code that begins nothing the parser knows.
   */
  predicate Foreign(f: seq<Byte>) {
    && |f| >= 4 && f[0] == 0 && f[1] == 0 && f[2] == 1
    && var id := f[3];
       || (id == 0xBA && |f| == 14)
       || (id == 0xBB && |f| >= 6 && |f| == 6 + Word(f, 4))
       || (0xBD <= id <= 0xEF && |f| >= 9 && |f| == 6 + Word(f, 4) && |f| >= 9 + At(f, 8)
           && (id >= 0xE0 ==> |f| == 9 + At(f, 8)) && (f[7] >= 0x80 ==> |f| >= 14))
       || ((id < 0xBA || 0xEF < id) && |f| == 4)
  }

  lemma ForeignSkipped(f: seq<Byte>, rest: seq<Byte>, psm: Option<VideoCodec>)
    requires Foreign(f)
    ensures Look(f + rest, 0, psm) == Skip(|f|, psm)
  {
    var d := f + rest;
    assert CodeHere(d, 0) && d[3] == f[3] && FindCode(d, 0) == Some(0);
    if |f| >= 6 { assert d[4] == f[4] && d[5] == f[5]; }
    if |f| >= 9 { assert d[6] == f[6] && d[7] == f[7] && d[8] == f[8]; }
  }

  lemma {:induction false} FindShift(f: seq<Byte>, d: seq<Byte>, from: nat)
    ensures FindCode(f + d, |f| + from) == match FindCode(d, from) case None => None case Some(i) => Some(|f| + i)
    decreases |d| - from
  {
    if from + 2 < |d| {
      assert CodeHere(f + d, |f| + from) == CodeHere(d, from);
      FindShift(f, d, from + 1);
    }
  }

  /** What is seen further on in the buffer. */
  function Shifted(n: nat, s: Sight): Sight {
    match s
    case Wait(c) => Wait(n + c)
    case Bad => Bad
    case Skip(pos, psm) => Skip(n + pos, psm)
    case Payload(pay, end, start, pts) => Payload(n + pay, n + end, start, pts)
  }

  lemma PesShift(f: seq<Byte>, d: seq<Byte>, sc: nat, id: Byte, psm: Option<VideoCodec>)
    requires sc + 4 <= |d|
    ensures LookPes(f + d, |f| + sc, id, psm) == Shifted(|f|, LookPes(d, sc, id, psm))
  {
    var e := f + d;
    if sc + 9 <= |d| {
      assert e[|f| + sc + 4] == d[sc + 4] && e[|f| + sc + 5] == d[sc + 5] && e[|f| + sc + 6] == d[sc + 6];
      assert e[|f| + sc + 7] == d[sc + 7] && e[|f| + sc + 8] == d[sc + 8];
      FindShift(f, d, sc + 9 + d[sc + 8]);
      if sc + 14 <= |d| { assert e[|f| + sc + 9..|f| + sc + 14] == d[sc + 9..sc + 14]; }
    }
  }

  lemma TableShift(f: seq<Byte>, d: seq<Byte>, sc: nat, id: Byte, psm: Option<VideoCodec>)
    requires sc + 4 <= |d|
    ensures LookTable(f + d, |f| + sc, id, psm) == Shifted(|f|, LookTable(d, sc, id, psm))
  {
    var e := f + d;
    if sc + 6 <= |d| {
      assert e[|f| + sc + 4] == d[sc + 4] && e[|f| + sc + 5] == d[sc + 5];
      var end := sc + 6 + Read16(d, sc + 4);
      if end <= |d| { assert e[|f| + sc..|f| + end] == d[sc..end]; }
    }
  }

  lemma LookShift(f: seq<Byte>, d: seq<Byte>, pos: nat, psm: Option<VideoCodec>)
    requires pos <= |d|
    ensures var s, t := Look(d, pos, psm), Look(f + d, |f| + pos, psm);
            if s.Wait? then t.Wait? else t == Shifted(|f|, s)
  {
    FindShift(f, d, pos);
    if FindCode(d, pos).Some? {
      var sc := FindCode(d, pos).value;
      if sc + 4 <= |d| {
        assert (f + d)[|f| + sc + 3] == d[sc + 3];
        PesShift(f, d, sc, d[sc + 3], psm);
        TableShift(f, d, sc, d[sc + 3], psm);
      }
    }
  }

  lemma ScanSkips(d: seq<Byte>, pos: nat, c: nat, a: Assembly, p: nat, psm: Option<VideoCodec>)
    requires pos <= |d| && c <= |d| && Look(d, pos, a.psm) == Skip(p, psm)
    ensures pos < p <= |d| && Scan(d, pos, c, a) == Scan(d, p, c, a.(psm := psm))
  {
  }

  lemma ScanTakes(d: seq<Byte>, pos: nat, c: nat, a: Assembly, pay: nat, end: nat, start: bool, pts: int,
                  data: seq<Byte>, next: Assembly, stop: Option<Result<Frame>>)
    requires pos <= |d| && c <= |d| && Look(d, pos, a.psm) == Payload(pay, end, start, pts)
    requires pay <= end <= |d| ==> d[pay..end] == data
    requires Assembled(a, data, start, pts) == (next, stop)
    ensures pos < pay < end <= |d|
    ensures stop.Some? ==> Scan(d, pos, c, a).asm == next && Scan(d, pos, c, a).result == stop.value
    ensures stop.None? ==> Scan(d, pos, c, a) == Scan(d, end, if Taken(a, data, start) then end else c, next)
  {
  }

  /** Same frame or status, same assembly. */
  predicate SameScan(r: Scanned, r': Scanned) {
    r'.asm == r.asm && r'.result == r.result
  }

  /** At n + pos one sees in e what one sees at pos in d. */
  predicate LooksSame(d: seq<Byte>, e: seq<Byte>, n: nat, pos: nat, psm: Option<VideoCodec>)
    requires pos <= |d| && |e| == n + |d|
  {
    var s, t := Look(d, pos, psm), Look(e, n + pos, psm);
    if s.Wait? then t.Wait? else t == Shifted(n, s)
  }

  predicate SliceSame(d: seq<Byte>, e: seq<Byte>, n: nat, i: nat, j: nat)
    requires i <= j <= |d| && |e| == n + |d|
  {
    e[n + i..n + j] == d[i..j]
  }

  /** From n on e is what d is from its start. */
  ghost predicate SameBehind(d: seq<Byte>, e: seq<Byte>, n: nat) {
    && |e| == n + |d|
    && (forall pos: nat, psm :: pos <= |d| ==> LooksSame(d, e, n, pos, psm))
    && (forall i: nat, j: nat :: i <= j <= |d| ==> SliceSame(d, e, n, i, j))
  }

  lemma Behind(f: seq<Byte>, d: seq<Byte>)
    ensures SameBehind(d, f + d, |f|)
  {
    forall pos: nat, psm | pos <= |d| ensures LooksSame(d, f + d, |f|, pos, psm) {
      LookShift(f, d, pos, psm);
    }
  }

  lemma ScanStops(d: seq<Byte>, pos: nat, c: nat, a: Assembly)
    requires pos <= |d| && c <= |d| && (Look(d, pos, a.psm).Wait? || Look(d, pos, a.psm).Bad?)
    ensures Scan(d, pos, c, a).asm == a
    ensures Scan(d, pos, c, a).result == Failure(if Look(d, pos, a.psm).Wait? then Again else Format)
  {
  }

  /** One pass in both buffers: it ends the scan in the same way, or goes on in the same place. */
  ghost predicate Passed(d: seq<Byte>, e: seq<Byte>, n: nat, pos: nat, c: nat, c': nat, a: Assembly,
                         over: bool, p: nat, k: nat, k': nat, x: Assembly)
    requires |e| == n + |d| && pos <= |d| && c <= |d| && c' <= |e|
  {
    && pos <= p <= |d| && k <= |d| && k' <= |e|
    && if over then SameScan(Scan(d, pos, c, a), Scan(e, n + pos, c', a))
       else pos < p && Scan(d, pos, c, a) == Scan(d, p, k, x) && Scan(e, n + pos, c', a) == Scan(e, n + p, k', x)
  }

  lemma PassShift(d: seq<Byte>, e: seq<Byte>, n: nat, pos: nat, c: nat, c': nat, a: Assembly)
    returns (over: bool, p: nat, k: nat, k': nat, x: Assembly)
    requires SameBehind(d, e, n) && pos <= |d| && c <= |d| && c' <= |e|
    ensures Passed(d, e, n, pos, c, c', a, over, p, k, k', x)
  {
    assert LooksSame(d, e, n, pos, a.psm);
    var s := Look(d, pos, a.psm);
    if s.Payload? { assert SliceSame(d, e, n, s.pay, s.end); }
    if s.Skip? {
      over, p, k, k', x := false, s.pos, c, c', a.(psm := s.psm);
      SkipShift(d, e, n, pos, c, c', a, s.pos, s.psm);
    } else if s.Payload? {
      over, p, k, k', x := PayloadShift(d, e, n, pos, c, c', a, s.pay, s.end, s.start, s.pts);
    } else {
      over, p, k, k', x := true, pos, c, c', a;
      StopShift(d, e, n, pos, c, c', a);
    }
  }

  lemma SkipShift(d: seq<Byte>, e: seq<Byte>, n: nat, pos: nat, c: nat, c': nat, a: Assembly, p: nat, psm: Option<VideoCodec>)
    requires |e| == n + |d| && pos <= |d| && c <= |d| && c' <= |e|
    requires Look(d, pos, a.psm) == Skip(p, psm) && Look(e, n + pos, a.psm) == Skip(n + p, psm)
    ensures Passed(d, e, n, pos, c, c', a, false, p, c, c', a.(psm := psm))
  {
    ScanSkips(d, pos, c, a, p, psm);
    ScanSkips(e, n + pos, c', a, n + p, psm);
  }

  lemma StopShift(d: seq<Byte>, e: seq<Byte>, n: nat, pos: nat, c: nat, c': nat, a: Assembly)
    requires |e| == n + |d| && pos <= |d| && c <= |d| && c' <= |e|
    requires Look(d, pos, a.psm).Wait? || Look(d, pos, a.psm).Bad?
    requires Look(d, pos, a.psm).Wait? <==> Look(e, n + pos, a.psm).Wait?
    requires Look(d, pos, a.psm).Bad? <==> Look(e, n + pos, a.psm).Bad?
    ensures Passed(d, e, n, pos, c, c', a, true, pos, c, c', a)
  {
    ScanStops(d, pos, c, a);
    ScanStops(e, n + pos, c', a);
  }

  lemma PayloadShift(d: seq<Byte>, e: seq<Byte>, n: nat, pos: nat, c: nat, c': nat, a: Assembly,
                     pay: nat, end: nat, start: bool, pts: int)
    returns (over: bool, p: nat, k: nat, k': nat, x: Assembly)
    requires |e| == n + |d| && pos <= |d| && c <= |d| && c' <= |e| && pay <= end <= |d| && SliceSame(d, e, n, pay, end)
    requires Look(d, pos, a.psm) == Payload(pay, end, start, pts)
    requires Look(e, n + pos, a.psm) == Payload(n + pay, n + end, start, pts)
    ensures Passed(d, e, n, pos, c, c', a, over, p, k, k', x)
  {
    hide Assembled, Taken, Look, Scan;
    var data := d[pay..end];
    var (next, stop) := Assembled(a, data, start, pts);
    var taken := Taken(a, data, start);
    ScanTakes(d, pos, c, a, pay, end, start, pts, data, next, stop);
    ScanTakes(e, n + pos, c', a, n + pay, n + end, start, pts, data, next, stop);
    over, p, x := stop.Some?, end, next;
    k, k' := if taken then end else c, if taken then n + end else c';
  }

  /** Where in the buffer a unit stands makes no difference to what it is. */
  lemma {:induction false} ScanShift(d: seq<Byte>, e: seq<Byte>, n: nat, pos: nat, c: nat, c': nat, a: Assembly)
    requires SameBehind(d, e, n) && pos <= |d| && c <= |d| && c' <= |e|
    ensures SameScan(Scan(d, pos, c, a), Scan(e, n + pos, c', a))
    decreases |d| - pos
  {
    var over, p, k, k', x := PassShift(d, e, n, pos, c, c', a);
    if !over {
      ScanShift(d, e, n, p, k, k', x);
    }
  }

  /** A foreign unit in front makes no difference: the parser finds and assembles what it finds without it. */
  lemma ForeignIgnored(a: Assembly, f: seq<Byte>, rest: seq<Byte>)
    requires Foreign(f)
    ensures NextOf(Ps(f + rest, 0, a)).1 == NextOf(Ps(rest, 0, a)).1
    ensures NextOf(Ps(f + rest, 0, a)).0.asm == NextOf(Ps(rest, 0, a)).0.asm
  {
    ForeignSkipped(f, rest, a.psm);
    PastFront(a, f, rest);
  }

  /** Nor does a byte in front that begins no start code. */
  lemma GarbageIgnored(a: Assembly, b: Byte, rest: seq<Byte>)
    requires |rest| >= 2 && !CodeHere([b] + rest, 0)
    ensures NextOf(Ps([b] + rest, 0, a)).1 == NextOf(Ps(rest, 0, a)).1
    ensures NextOf(Ps([b] + rest, 0, a)).0.asm == NextOf(Ps(rest, 0, a)).0.asm
  {
    var d := [b] + rest;
    assert d[0..] == d && rest[0..] == rest;
    assert FindCode(d, 0) == FindCode(d, 1);
    Behind([b], rest);
    ScanShift(rest, d, 1, 0, 0, 0, a);
  }

  /**
   * A packet of another stream that states no length, up to the next start code: bytes of such a packet, among
   * which behind its header none begins, in front of one.
   */
  ghost predicate Unbounded(f: seq<Byte>, rest: seq<Byte>) {
    && |f| >= 14 && f[0] == 0 && f[1] == 0 && f[2] == 1 && 0xBD <= f[3] <= 0xDF && Word(f, 4) == 0 && |f| >= 9 + At(f, 8)
    && |rest| >= 3 && CodeHere(rest, 0)
    && forall i: nat :: 9 + At(f, 8) <= i < |f| ==> !CodeHere(f + rest, i)
  }

  lemma UnboundedSkipped(f: seq<Byte>, rest: seq<Byte>, psm: Option<VideoCodec>)
    requires Unbounded(f, rest)
    ensures Look(f + rest, 0, psm) == Skip(|f|, psm)
  {
    var d := f + rest;
    assert CodeHere(d, 0) && FindCode(d, 0) == Some(0);
    assert d[3] == f[3] && d[4] == f[4] && d[5] == f[5] && d[7] == f[7] && d[8] == f[8];
    assert CodeHere(d, |f|);
    NextCode(d, 9 + At(f, 8), |f|);
  }

  lemma NextCode(d: seq<Byte>, from: nat, at: nat)
    requires from <= at && at + 2 < |d| && CodeHere(d, at) && forall i: nat :: from <= i < at ==> !CodeHere(d, i)
    ensures FindCode(d, from) == Some(at)
  {
    var r := FindCode(d, from);
  }

  /** Such a packet is ignored up to that start code. */
  lemma UnboundedIgnored(a: Assembly, f: seq<Byte>, rest: seq<Byte>)
    requires Unbounded(f, rest)
    ensures NextOf(Ps(f + rest, 0, a)).1 == NextOf(Ps(rest, 0, a)).1
    ensures NextOf(Ps(f + rest, 0, a)).0.asm == NextOf(Ps(rest, 0, a)).0.asm
  {
    UnboundedSkipped(f, rest, a.psm);
    PastFront(a, f, rest);
  }

  lemma PastFront(a: Assembly, f: seq<Byte>, rest: seq<Byte>)
    requires Look(f + rest, 0, a.psm) == Skip(|f|, a.psm)
    ensures NextOf(Ps(f + rest, 0, a)).1 == NextOf(Ps(rest, 0, a)).1
    ensures NextOf(Ps(f + rest, 0, a)).0.asm == NextOf(Ps(rest, 0, a)).0.asm
  {
    Behind(f, rest);
    hide Scan, Look, SameBehind;
    ScanSkips(f + rest, 0, 0, a, |f|, a.psm);
    ScanShift(rest, f + rest, |f|, 0, 0, 0, a);
    assert (f + rest)[0..] == f + rest && rest[0..] == rest;
    assert a.(psm := a.psm) == a;
  }

  // ---------------------------------------------------------------- anybody's video packets

  /** A video packet with any flags and any header: id from E0 to EF, a header of so many bytes, and data. */
  datatype Packet = Packet(id: Byte, flags1: Byte, flags2: Byte, header: seq<Byte>, data: seq<Byte>)

  predicate PacketOk(p: Packet) {
    && 0xE0 <= p.id <= 0xEF && |p.header| < 256 && 0 < |p.data| && 3 + |p.header| + |p.data| < 0x1_0000
    && (p.flags2 >= 0x80 ==> |p.header| >= 5)
  }

  function PacketBytes(p: Packet): (s: seq<Byte>)
    requires PacketOk(p)
    ensures |s| == 9 + |p.header| + |p.data|
  {
    [0, 0, 1, p.id] + Be16(3 + |p.header| + |p.data|) + [p.flags1, p.flags2, |p.header|] + p.header + p.data
  }

  /** Its time stamp, 0 without one: 3, 15 and 15 bits with a bit left out behind each. */
  function PacketPts(p: Packet): int
    requires PacketOk(p)
  {
    if p.flags2 < 0x80 then 0
    else At(p.header, 0) / 2 % 8 * 0x4000_0000 + Word(p.header, 1) / 2 * 0x8000 + Word(p.header, 3) / 2
  }

  predicate Aligned(p: Packet) {
    p.flags1 / 4 % 2 == 1
  }

  lemma PacketSeen(p: Packet, rest: seq<Byte>, psm: Option<VideoCodec>)
    requires PacketOk(p)
    ensures var pay := 9 + |p.header|;
            Look(PacketBytes(p) + rest, 0, psm) == Payload(pay, pay + |p.data|, Aligned(p), PacketPts(p))
    ensures (PacketBytes(p) + rest)[9 + |p.header|..9 + |p.header| + |p.data|] == p.data
  {
    var d := PacketBytes(p) + rest;
    var len := 3 + |p.header| + |p.data|;
    assert CodeHere(d, 0) && FindCode(d, 0) == Some(0);
    assert d[3] == p.id && d[4] == Be16(len)[0] && d[5] == Be16(len)[1];
    assert d[6] == p.flags1 && d[7] == p.flags2 && d[8] == |p.header|;
    if p.flags2 >= 0x80 {
      assert d[9..14] == p.header[..5];
      StampRead(p.header);
    }
  }

  lemma StampRead(h: seq<Byte>)
    requires |h| >= 5
    ensures ReadPts(h[..5]) == At(h, 0) / 2 % 8 * 0x4000_0000 + Word(h, 1) / 2 * 0x8000 + Word(h, 3) / 2
  {
  }

  /**
   * What the parser does with any video packet in front. An aligned one starts an access unit with its data
   * and time stamp, and if another was being put together hands that one over; any other adds its data to the
   * one being put together, is dropped without one, and is a format error beyond 64 MiB.
   */
  lemma PacketTaken(a: Assembly, p: Packet, rest: seq<Byte>)
    requires PacketOk(p)
    ensures var (q, r) := NextOf(Ps(PacketBytes(p) + rest, 0, a));
            var begun := Assembly(p.data, PacketPts(p), true, a.psm);
            && (Aligned(p) && a.isOpen && a.au != [] ==>
                  && r.Success? && r.value.annexb == a.au && r.value.pts90 == a.pts
                  && q == Ps(PacketBytes(p) + rest, |PacketBytes(p)|, begun))
            && (Aligned(p) && !(a.isOpen && a.au != []) ==> SameNext(q, r, rest, begun))
            && (!Aligned(p) && !a.isOpen ==> SameNext(q, r, rest, a))
            && (!Aligned(p) && a.isOpen && |a.au| + |p.data| <= 67108864 ==> SameNext(q, r, rest, a.(au := a.au + p.data)))
            && (!Aligned(p) && a.isOpen && |a.au| + |p.data| > 67108864 ==> r == Failure(Format) && q == Ps(PacketBytes(p) + rest, 0, a))
  {
    var d := PacketBytes(p) + rest;
    assert d[0..] == d && rest[0..] == rest;
    var (next, stop) := Assembled(a, p.data, Aligned(p), PacketPts(p));
    PacketScanned(a, p, rest, next, stop);
    PacketEffect(a, p.data, Aligned(p), PacketPts(p), next, stop);
    hide Scan, Look, PacketBytes, Assembled, Emitted, PacketPts, Aligned;
  }

  /** What a payload does to the assembly. */
  lemma PacketEffect(a: Assembly, data: seq<Byte>, start: bool, pts: int, next: Assembly, stop: Option<Result<Frame>>)
    requires Assembled(a, data, start, pts) == (next, stop)
    ensures start ==> next == Assembly(data, pts, true, a.psm) && Taken(a, data, start)
    ensures start && a.isOpen && a.au != [] ==>
              stop.Some? && stop.value.Success? && stop.value.value.annexb == a.au && stop.value.value.pts90 == a.pts
    ensures start && !(a.isOpen && a.au != []) ==> stop == None
    ensures !start && !a.isOpen ==> next == a && stop == None
    ensures !start && a.isOpen && |a.au| + |data| <= 67108864 ==> next == a.(au := a.au + data) && stop == None
    ensures !start && a.isOpen && |a.au| + |data| > 67108864 ==> stop == Some(Failure(Format)) && next == a && !Taken(a, data, start)
    ensures Taken(a, data, start) <==> start || (a.isOpen && |a.au| + |data| <= 67108864)
  {
  }

  /** Where the parser stops at an error: behind the packets it has taken, and in front of one it has not. */
  lemma PlaceKept(a: Assembly, p: Packet, rest: seq<Byte>)
    requires PacketOk(p) && |rest| >= 14 && CodeHere(rest, 0) && 0xE0 <= rest[3] <= 0xEF && |rest| >= 9 + At(rest, 8)
    requires Word(rest, 4) == 0 || Word(rest, 4) < 3 + At(rest, 8)
    ensures var (q, r) := NextOf(Ps(PacketBytes(p) + rest, 0, a));
            if Aligned(p) && a.isOpen && a.au != [] then r.Success? && q.cursor == |PacketBytes(p)|
            else r == Failure(Format)
                 && q.cursor == if Aligned(p) || (a.isOpen && |a.au| + |p.data| <= 67108864) then |PacketBytes(p)| else 0
  {
    var f := PacketBytes(p);
    var d := f + rest;
    assert d[0..] == d;
    var (next, stop) := Assembled(a, p.data, Aligned(p), PacketPts(p));
    PacketEffect(a, p.data, Aligned(p), PacketPts(p), next, stop);
    BadSeen(rest, next.psm);
    PlaceScanned(a, p, rest, next, stop);
    hide Scan, Look, PacketBytes, Assembled, Emitted, PacketPts, Aligned, Taken;
  }

  lemma BadSeen(rest: seq<Byte>, psm: Option<VideoCodec>)
    requires |rest| >= 14 && CodeHere(rest, 0) && 0xE0 <= rest[3] <= 0xEF && |rest| >= 9 + At(rest, 8)
    requires Word(rest, 4) == 0 || Word(rest, 4) < 3 + At(rest, 8)
    ensures Look(rest, 0, psm) == Bad
  {
    assert FindCode(rest, 0) == Some(0);
  }

  lemma PlaceScanned(a: Assembly, p: Packet, rest: seq<Byte>, next: Assembly, stop: Option<Result<Frame>>)
    requires PacketOk(p) && Assembled(a, p.data, Aligned(p), PacketPts(p)) == (next, stop) && Look(rest, 0, next.psm) == Bad
    ensures var c := if Taken(a, p.data, Aligned(p)) then |PacketBytes(p)| else 0;
            Scan(PacketBytes(p) + rest, 0, 0, a)
            == if stop.Some? then Scanned(c, next, stop.value) else Scanned(c, next, Failure(Format))
  {
    hide Assembled, Taken, PacketBytes, PacketPts, Aligned, Scan, Look, SameBehind;
    var f := PacketBytes(p);
    PacketSeen(p, rest, a.psm);
    LookShift(f, rest, 0, next.psm);
    var c: nat := if Taken(a, p.data, Aligned(p)) then |f| else 0;
    ScanTakesFrom(f + rest, a, 9 + |p.header|, |f|, Aligned(p), PacketPts(p), p.data, next, stop);
    ScanBad(f + rest, |f|, c, next);
  }

  lemma ScanBad(d: seq<Byte>, pos: nat, c: nat, a: Assembly)
    requires pos <= |d| && c <= |d| && Look(d, pos, a.psm) == Bad
    ensures Scan(d, pos, c, a) == Scanned(c, a, Failure(Format))
  {
  }

  lemma PacketScanned(a: Assembly, p: Packet, rest: seq<Byte>, next: Assembly, stop: Option<Result<Frame>>)
    requires PacketOk(p) && Assembled(a, p.data, Aligned(p), PacketPts(p)) == (next, stop)
    ensures var d := PacketBytes(p) + rest;
            var c := if Taken(a, p.data, Aligned(p)) then |PacketBytes(p)| else 0;
            && (stop.Some? ==> Scan(d, 0, 0, a) == Scanned(c, next, stop.value))
            && (stop.None? ==> SameScan(Scan(rest, 0, 0, next), Scan(d, 0, 0, a)))
  {
    hide Assembled, Taken, PacketBytes, PacketPts, Aligned, Scan, Look, SameBehind;
    var f := PacketBytes(p);
    PacketSeen(p, rest, a.psm);
    Behind(f, rest);
    FrontTaken(f + rest, rest, a, 9 + |p.header|, |f|, Aligned(p), PacketPts(p), p.data, next, stop);
  }

  lemma FrontTaken(d: seq<Byte>, rest: seq<Byte>, a: Assembly, pay: nat, end: nat, start: bool, pts: int,
                   data: seq<Byte>, next: Assembly, stop: Option<Result<Frame>>)
    requires pay <= end <= |d| && SameBehind(rest, d, end) && Look(d, 0, a.psm) == Payload(pay, end, start, pts)
    requires d[pay..end] == data && Assembled(a, data, start, pts) == (next, stop)
    ensures var c := if Taken(a, data, start) then end else 0;
            && (stop.Some? ==> Scan(d, 0, 0, a) == Scanned(c, next, stop.value))
            && (stop.None? ==> SameScan(Scan(rest, 0, 0, next), Scan(d, 0, 0, a)))
  {
    hide Assembled, Taken, Scan, Look;
    var c: nat := if Taken(a, data, start) then end else 0;
    ScanTakesFrom(d, a, pay, end, start, pts, data, next, stop);
    ScanShift(rest, d, end, 0, 0, c, next);
  }

  lemma ScanTakesFrom(d: seq<Byte>, a: Assembly, pay: nat, end: nat, start: bool, pts: int,
                      data: seq<Byte>, next: Assembly, stop: Option<Result<Frame>>)
    requires Look(d, 0, a.psm) == Payload(pay, end, start, pts) && (pay <= end <= |d| ==> d[pay..end] == data)
    requires Assembled(a, data, start, pts) == (next, stop)
    ensures 0 < end <= |d|
    ensures var c := if Taken(a, data, start) then end else 0;
            Scan(d, 0, 0, a) == if stop.Some? then Scanned(c, next, stop.value) else Scan(d, end, c, next)
  {
  }

  /** The call gives what it gives on the rest alone with this assembly. */
  predicate SameNext(q: Ps, r: Result<Frame>, rest: seq<Byte>, a: Assembly) {
    r == NextOf(Ps(rest, 0, a)).1 && q.asm == NextOf(Ps(rest, 0, a)).0.asm
  }

  /** The end: what is being put together comes out, if anything is; without a map its codec is a guess. */
  lemma FlushAnswers(a: Assembly)
    ensures !a.isOpen || a.au == [] ==> Emitted(a) == Failure(Eof)
    ensures a.isOpen && a.au != [] ==>
              && Emitted(a).Success?
              && var f := Emitted(a).value;
                 && f.annexb == a.au && f.pts90 == a.pts && (f.keyframe <==> HasKeyNal(f.codec, a.au))
                 && f.codec == (if a.psm.Some? then a.psm.value else if HasKeyNal(Hevc, a.au) then Hevc
                                else if HasKeyNal(Avc, a.au) then Avc else Hevc)
  {
    SniffIs(a.au);
    if a.isOpen && a.au != [] { KeyframeIs(Emitted(a).value.codec, a.au); }
    hide IsKeyframe, HasKeyNal, Sniff;
  }

  lemma SniffIs(d: seq<Byte>)
    ensures Sniff(d) == if HasKeyNal(Hevc, d) then Hevc else if HasKeyNal(Avc, d) then Avc else Hevc
  {
    KeyFound(Avc, d);
    KeyFound(Hevc, d);
    hide NalHeaders, HasKeyNal;
  }


  /** A unit that is not there in full: nothing is taken, and the parser waits. */
  lemma IncompleteWaits(a: Assembly, d: seq<Byte>)
    requires |d| >= 3 && CodeHere(d, 0)
    requires || |d| == 3
             || (d[3] == 0xBA && |d| < 14)
             || ((d[3] == 0xBB || d[3] == 0xBC) && (|d| < 6 || |d| < 6 + Word(d, 4)))
             || (0xBD <= d[3] <= 0xEF && (|d| < 9 || |d| < 9 + At(d, 8) || (d[7] >= 0x80 && |d| < 14)))
             || (0xBD <= d[3] <= 0xEF && |d| >= 9 && Word(d, 4) >= 3 + At(d, 8) && |d| < 6 + Word(d, 4))
    ensures NextOf(Ps(d, 0, a)) == (Ps(d, 0, a), Failure(Again))
  {
    assert d[0..] == d && FindCode(d, 0) == Some(0);
  }

  /** The first video packet that has no length, or one too short for its own header, is a format error. */
  lemma BadVideoRefused(a: Assembly, d: seq<Byte>)
    requires |d| >= 14 && d[0] == 0 && d[1] == 0 && d[2] == 1 && 0xE0 <= d[3] <= 0xEF && |d| >= 9 + At(d, 8)
    requires Word(d, 4) == 0 || Word(d, 4) < 3 + At(d, 8)
    ensures NextOf(Ps(d, 0, a)).1 == Failure(Format)
  {
    assert d[0..] == d && CodeHere(d, 0) && FindCode(d, 0) == Some(0);
  }

  /** A continuation that would make the access unit larger than 64 MiB is a format error. */
  lemma TooLargeRefused(a: Assembly, data: seq<Byte>, rest: seq<Byte>)
    requires a.isOpen && 0 < |data| <= 60000 && |a.au| + |data| > 67108864
    ensures var more: Unit := More(data);
            NextOf(Ps(UnitBytes(more) + rest, 0, a)).1 == Failure(Format)
  {
    var more: Unit := More(data);
    var d := UnitBytes(more) + rest;
    MoreFields(data);
    assert d[0..] == d && d[..9] == UnitBytes(more)[..9];
    assert d[..4] == [0, 0, 1, 0xE0] && CodeHere(d, 0) && FindCode(d, 0) == Some(0);
    assert d[4] == UnitBytes(more)[4] && d[5] == UnitBytes(more)[5] && d[6..9] == [0x80, 0, 0];
    assert d[6] == d[6..9][0] && d[7] == d[6..9][1] && d[8] == d[6..9][2];
    assert d[9..9 + |data|] == data;
  }

  // ---------------------------------------------------------------- anybody's program map

  /** One entry of a program map. */
  datatype Entry = Entry(kind: Byte, id: Byte, info: seq<Byte>)

  predicate EntryOk(e: Entry) {
    |e.info| < 0x1_0000
  }

  function EntriesBytes(es: seq<Entry>): seq<Byte>
    requires forall k :: 0 <= k < |es| ==> EntryOk(es[k])
  {
    if es == [] then []
    else
      assert EntryOk(es[0]);
      [es[0].kind, es[0].id] + Be16(|es[0].info|) + es[0].info + EntriesBytes(es[1..])
  }

  /** The codec of a video entry, if it is one of the two known. */
  function VideoType(e: Entry): Option<VideoCodec> {
    if e.id < 0xE0 || e.id > 0xEF then None
    else if e.kind == 0x1B then Some(Avc)
    else if e.kind == 0x24 then Some(Hevc)
    else None
  }

  /** The k-th entry is the last known video entry. */
  predicate LastVideo(es: seq<Entry>, k: nat) {
    k < |es| && VideoType(es[k]).Some? && forall j :: k < j < |es| ==> VideoType(es[j]) == None
  }

  lemma EntryHead(u: seq<Byte>, at: nat, e: Entry, tail: seq<Byte>)
    requires EntryOk(e) && at <= |u| && u[at..] == [e.kind, e.id] + Be16(|e.info|) + e.info + tail
    ensures at + 4 + |e.info| <= |u| && u[at] == e.kind && u[at + 1] == e.id && Read16(u, at + 2) == |e.info|
    ensures u[at + 4 + |e.info|..] == tail
  {
    var s := u[at..];
    assert s[0] == u[at] && s[1] == u[at + 1] && s[2] == u[at + 2] && s[3] == u[at + 3];
    assert u[at + 4 + |e.info|..] == s[4 + |e.info|..];
  }

  lemma EntryRead(u: seq<Byte>, at: nat, end: nat, e: Entry, tail: seq<Byte>, psm: Option<VideoCodec>)
    requires EntryOk(e) && at <= |u| && u[at..] == [e.kind, e.id] + Be16(|e.info|) + e.info + tail
    requires at + 4 + |e.info| <= end <= |u|
    ensures MapEntries(u, at, end, psm)
            == MapEntries(u, at + 4 + |e.info|, end, if VideoType(e).Some? then VideoType(e) else psm)
  {
    EntryHead(u, at, e, tail);
  }

  /** The codec after these entries. */
  function LastType(es: seq<Entry>, psm: Option<VideoCodec>): Option<VideoCodec> {
    if es == [] then psm else LastType(es[1..], if VideoType(es[0]).Some? then VideoType(es[0]) else psm)
  }

  lemma {:induction false} LastTypeIs(es: seq<Entry>, psm: Option<VideoCodec>)
    ensures (forall k :: 0 <= k < |es| ==> VideoType(es[k]) == None) ==> LastType(es, psm) == psm
    ensures forall k: nat :: LastVideo(es, k) ==> LastType(es, psm) == VideoType(es[k])
    decreases |es|
  {
    if es != [] {
      var rest := es[1..];
      assert forall j :: 0 <= j < |rest| ==> rest[j] == es[j + 1];
      LastTypeIs(rest, if VideoType(es[0]).Some? then VideoType(es[0]) else psm);
      forall k: nat | LastVideo(es, k) ensures LastType(es, psm) == VideoType(es[k]) {
        if k > 0 { assert LastVideo(rest, k - 1); }
      }
    }
  }

  lemma {:induction false} EntriesRead(u: seq<Byte>, at: nat, end: nat, es: seq<Entry>, crc: seq<Byte>, psm: Option<VideoCodec>)
    requires forall k :: 0 <= k < |es| ==> EntryOk(es[k])
    requires |crc| == 4 && at <= end && end + 4 == |u| && u[at..] == EntriesBytes(es) + crc
    ensures MapEntries(u, at, end, psm) == LastType(es, psm)
    decreases |es|
  {
    if es != [] {
      var e, rest := es[0], es[1..];
      assert EntryOk(e);
      var tail := EntriesBytes(rest) + crc;
      assert u[at..] == [e.kind, e.id] + Be16(|e.info|) + e.info + tail;
      EntryHead(u, at, e, tail);
      EntryRead(u, at, end, e, tail, psm);
      hide MapEntries, EntriesBytes, Read16;
      EntriesRead(u, at + 4 + |e.info|, end, rest, crc, if VideoType(e).Some? then VideoType(e) else psm);
    }
  }

  /** A whole program map: two bytes of version, descriptors, entries and a check sum nobody looks at. */
  function MapUnit(version: seq<Byte>, info: seq<Byte>, es: seq<Entry>, crc: seq<Byte>): seq<Byte>
    requires |version| == 2 && |info| < 0x8000 && |crc| == 4 && forall k :: 0 <= k < |es| ==> EntryOk(es[k])
    requires |info| + |EntriesBytes(es)| + 10 < 0x1_0000
  {
    StartCode(0xBC) + Be16(|info| + |EntriesBytes(es)| + 10) + version + Be16(|info|) + info
    + Be16(|EntriesBytes(es)|) + (EntriesBytes(es) + crc)
  }

  /** A map too short, or whose descriptors or entries run into its check sum, changes nothing. */
  lemma BrokenMapIgnored(u: seq<Byte>, psm: Option<VideoCodec>)
    requires |u| >= 6
    requires || |u| < 10
             || Word(u, 8) % 0x8000 + 16 > |u|
             || Word(u, 8) % 0x8000 + 16 + Word(u, Word(u, 8) % 0x8000 + 10) > |u|
    ensures MapCodec(u, psm) == psm
  {
  }

  lemma TwoBytes(u: seq<Byte>, head: seq<Byte>, v: nat, tail: seq<Byte>)
    requires v < 0x1_0000 && u == head + Be16(v) + tail
    ensures |head| + 2 <= |u| && Read16(u, |head|) == v && u[|head| + 2..] == tail
  {
    assert u[|head|] == Be16(v)[0] && u[|head| + 1] == Be16(v)[1];
  }

  lemma MapInside(u: seq<Byte>, q: nat, psm: Option<VideoCodec>)
    requires |u| >= 10 && Read16(u, 8) < 0x8000 && q == 10 + Read16(u, 8) && q + 6 <= |u|
    requires q + 2 + Read16(u, q) + 4 == |u|
    ensures MapCodec(u, psm) == MapEntries(u, q + 2, |u| - 4, psm)
  {
  }

  lemma MapParts(version: seq<Byte>, info: seq<Byte>, es: seq<Entry>, crc: seq<Byte>) returns (head: seq<Byte>)
    requires |version| == 2 && |info| < 0x8000 && |crc| == 4 && forall k :: 0 <= k < |es| ==> EntryOk(es[k])
    requires |info| + |EntriesBytes(es)| + 10 < 0x1_0000
    ensures var u, body := MapUnit(version, info, es, crc), EntriesBytes(es);
            && |head| == 10 + |info| && |u| == |head| + 2 + |body| + 4
            && Read16(u, 8) == |info| && Read16(u, |head|) == |body| && u[|head| + 2..] == body + crc
  {
    var u, body := MapUnit(version, info, es, crc), EntriesBytes(es);
    var front := StartCode(0xBC) + Be16(|info| + |body| + 10) + version;
    head := front + Be16(|info|) + info;
    assert u == front + Be16(|info|) + (info + Be16(|body|) + (body + crc));
    TwoBytes(u, front, |info|, info + Be16(|body|) + (body + crc));
    TwoBytes(u, head, |body|, body + crc);
  }

  /** Of any such map the last video entry of a known type decides, and without one nothing changes. */
  lemma MapReads(version: seq<Byte>, info: seq<Byte>, es: seq<Entry>, crc: seq<Byte>, psm: Option<VideoCodec>)
    requires |version| == 2 && |info| < 0x8000 && |crc| == 4 && forall k :: 0 <= k < |es| ==> EntryOk(es[k])
    requires |info| + |EntriesBytes(es)| + 10 < 0x1_0000
    ensures var u := MapUnit(version, info, es, crc);
            && |u| >= 6
            && (forall k: nat :: LastVideo(es, k) ==> MapCodec(u, psm) == VideoType(es[k]))
            && ((forall k :: 0 <= k < |es| ==> VideoType(es[k]) == None) ==> MapCodec(u, psm) == psm)
  {
    hide MapUnit, MapCodec, MapEntries, Read16;
    var u, body := MapUnit(version, info, es, crc), EntriesBytes(es);
    var head := MapParts(version, info, es, crc);
    MapInside(u, |head|, psm);
    EntriesRead(u, |head| + 2, |u| - 4, es, crc, psm);
    LastTypeIs(es, psm);
  }
}
