/** The program stream multiplexer: one access unit in, packs and packets out. */
module PsMux {
  import opened Words
  import opened Statuses
  import opened Chunks
  import opened PsBits
  import opened Crc

  const MAX_PAYLOAD: nat := 0x400_0000
  const PES_CHUNK: nat := 60000
  const VIDEO_STREAM_ID: Byte := 0xE0
  const RATE_LIMIT: nat := 0x40_0000  // 2^22

  datatype VideoCodec = Avc | Hevc

  datatype Access = Access(codec: VideoCodec, data: seq<Byte>, pts: int, keyframe: bool, muxRate: U32)

  /** The pieces of the stream. A head starts an access unit and carries its time stamp. */
  datatype Piece =
    | Pack(scr: nat, rate: nat)
    | System(rate: nat)
    | Map(codec: VideoCodec)
    | Head(clock: nat, data: seq<Byte>)
    | More(data: seq<Byte>)

  predicate PieceOk(u: Piece) {
    match u
    case Pack(scr, rate) => scr < CLOCK_LIMIT && rate < RATE_LIMIT
    case System(rate) => rate < RATE_LIMIT
    case Map(_) => true
    case Head(clock, data) => clock < CLOCK_LIMIT && 0 < |data| <= PES_CHUNK
    case More(data) => 0 < |data| <= PES_CHUNK
  }

  type Unit = u: Piece | PieceOk(u) witness Map(Avc)

  // ---------------------------------------------------------------- the bytes of each piece

  function StartCode(id: Byte): seq<Byte> {
    [0, 0, 1, id]
  }

  function Be16(v: nat): seq<Byte>
    requires v < 0x1_0000
  {
    [v / 256, v % 256]
  }

  function Be32(c: bv32): seq<Byte> {
    [Low8(c >> 24), Low8(c >> 16), Low8(c >> 8), Low8(c)]
  }

  /** The ten bytes of a pack header behind its start code. */
  function PackBody(scr: nat, rate: nat): (s: seq<Byte>)
    requires scr < CLOCK_LIMIT && rate < RATE_LIMIT
    ensures |s| == 10 && s[0] >= 0x44 && s[2] >= 4 && s[4] >= 4 && s[5] == 1 && s[8] >= 3 && s[9] == 0xF8
  {
    Fields(scr);
    var b, c := Mid15(scr), Low15(scr);
    [0x44 + 8 * High3(scr) + b / 0x2000, b / 32 % 256, b % 32 * 8 + 4 + c / 0x2000, c / 32 % 256, c % 32 * 8 + 4, 1,
     rate / 0x4000, rate / 64 % 256, rate % 64 * 4 + 3, 0xF8]
  }

  function SystemBody(rate: nat): (s: seq<Byte>)
    requires rate < RATE_LIMIT
    ensures |s| == 9
  {
    [0x80 + rate / 0x8000, rate / 128 % 256, rate % 128 * 2 + 1, 0x00, 0x21, 0x7F, 0xE0, 0xE0, 0xE6]
  }

  function StreamType(c: VideoCodec): Byte {
    if c.Avc? then 0x1B else 0x24
  }

  function MapBody(c: VideoCodec): (s: seq<Byte>)
    ensures |s| == 10
  {
    [0xC0, 0xFF, 0x00, 0x00, 0x00, 0x04, StreamType(c), VIDEO_STREAM_ID, 0x00, 0x00]
  }

  function UnitBytes(u: Unit): (s: seq<Byte>)
    ensures |s| > 6 && s[..3] == [0, 0, 1]
  {
    match u
    case Pack(scr, rate) => StartCode(0xBA) + PackBody(scr, rate)
    case System(rate) => StartCode(0xBB) + Be16(9) + SystemBody(rate)
    case Map(codec) => StartCode(0xBC) + Be16(14) + MapBody(codec) + Be32(Crc32(MapBody(codec)))
    case Head(clock, data) =>
      StartCode(VIDEO_STREAM_ID) + Be16(3 + 5 + |data|) + [0x84, 0x80, 5] + PtsBytes(clock) + data
    case More(data) => StartCode(VIDEO_STREAM_ID) + Be16(3 + |data|) + [0x80, 0x00, 0] + data
  }

  function Parts(us: seq<Unit>): (s: seq<seq<Byte>>)
    ensures |s| == |us|
  {
    seq(|us|, i requires 0 <= i < |us| => UnitBytes(us[i]))
  }

  function UnitsBytes(us: seq<Unit>): seq<Byte> {
    Joined(Parts(us))
  }

  lemma UnitsAppend(us: seq<Unit>, vs: seq<Unit>)
    ensures UnitsBytes(us + vs) == UnitsBytes(us) + UnitsBytes(vs)
  {
    assert Parts(us + vs) == Parts(us) + Parts(vs);
    JoinedAppend(Parts(us), Parts(vs));
  }

  lemma UnitsFirst(us: seq<Unit>)
    requires us != []
    ensures UnitsBytes(us) == UnitBytes(us[0]) + UnitsBytes(us[1..])
  {
    assert Parts(us)[0] == UnitBytes(us[0]) && Parts(us)[1..] == Parts(us[1..]);
  }

  // ---------------------------------------------------------------- the plan of one access unit

  function ChunkAt(a: Access, off: nat): (n: nat)
    requires off < |a.data|
    ensures 0 < n <= PES_CHUNK && off + n <= |a.data|
  {
    if |a.data| - off > PES_CHUNK then PES_CHUNK else |a.data| - off
  }

  function Rate(a: Access): (r: nat)
    ensures r < RATE_LIMIT
  {
    a.muxRate % RATE_LIMIT
  }

  /** One pass of the loop: a pack, the tables ahead of a key frame, a packet. */
  function Fragment(a: Access, off: nat): seq<Unit>
    requires off < |a.data|
  {
    var data := a.data[off..off + ChunkAt(a, off)];
    [Pack(Clock(a.pts), Rate(a))]
    + (if a.keyframe && off == 0 then [System(Rate(a)), Map(a.codec)] else [])
    + [if off == 0 then Head(Clock(a.pts), data) else More(data)]
  }

  function Fragments(a: Access, off: nat): seq<Unit>
    requires off <= |a.data|
    decreases |a.data| - off
  {
    if off == |a.data| then [] else Fragment(a, off) + Fragments(a, off + ChunkAt(a, off))
  }

  /** Access units the multiplexer takes. */
  predicate AccessOk(a: Access) {
    0 < |a.data| <= MAX_PAYLOAD
  }

  function Muxed(a: Access): Result<seq<Byte>> {
    if |a.data| == 0 then Failure(Invalid)
    else if |a.data| > MAX_PAYLOAD then Failure(Format)
    else Success(UnitsBytes(Fragments(a, 0)))
  }

  // ---------------------------------------------------------------- the printing

  /** The clock behind '01' and a marker bit, then nine zero bits and a marker. */
  lemma ClockFieldNumber(scr: nat)
    requires scr < CLOCK_LIMIT
    ensures Number(PackBody(scr, 0)[..6]) == ClockNumber(1, High3(scr), Mid15(scr), Low15(scr)) * 1024 + 1
  {
    Fields(scr);
    var a, b, c := High3(scr), Mid15(scr), Low15(scr);
    var s := PackBody(scr, 0);
    assert s[..1] == [] + [s[0]] && s[..2] == s[..1] + [s[1]] && s[..3] == s[..2] + [s[2]];
    assert s[..4] == s[..3] + [s[3]] && s[..5] == s[..4] + [s[4]] && s[..6] == s[..5] + [s[5]];
    NumberAppend([], s[0]);
    NumberAppend(s[..1], s[1]);
    NumberAppend(s[..2], s[2]);
    NumberAppend(s[..3], s[3]);
    NumberAppend(s[..4], s[4]);
    NumberAppend(s[..5], s[5]);
    Split15(b);
    Split15(c);
  }

  lemma Split15(b: nat)
    requires b < 0x8000
    ensures b == b / 0x2000 * 0x2000 + b / 32 % 256 * 32 + b % 32
  {
    assert b / 32 / 256 == b / 0x2000;
  }

  method WriteStart(o: seq<Byte>, id: Byte) returns (r: seq<Byte>)
    ensures r == o + StartCode(id)
  {
    r := o + [0];
    r := r + [0];
    r := r + [1];
    r := r + [id];
  }

  /** The rate field of a pack: 22 bits and two markers, five ones, three zeros. */
  lemma RateFieldNumber(head: seq<Byte>, scr: nat, rate: nat)
    requires scr < CLOCK_LIMIT && rate < RATE_LIMIT && head == PackBody(scr, 0)[..6]
    ensures Number(PackBody(scr, rate)) == (((Number(head) * 0x40_0000 + rate) * 2 + 1) * 2 + 1) * 256 + 0xF8
  {
    var s := PackBody(scr, rate);
    assert s[..6] == head && s[..7] == head + [s[6]] && s[..8] == s[..7] + [s[7]];
    assert s[..9] == s[..8] + [s[8]] && s == s[..9] + [s[9]];
    NumberAppend(head, s[6]);
    NumberAppend(s[..7], s[7]);
    NumberAppend(s[..8], s[8]);
    NumberAppend(s[..9], s[9]);
    RateSplit(rate);
  }

  lemma RateSplit(rate: nat)
    ensures rate == rate / 0x4000 * 0x4000 + rate / 64 % 256 * 64 + rate % 64
    ensures rate == rate / 0x8000 * 0x8000 + rate / 128 % 256 * 128 + rate % 128
  {
    assert rate / 64 / 256 == rate / 0x4000;
    assert rate / 128 / 256 == rate / 0x8000;
  }

  /** 22 bits of rate, two markers, five ones and three zeros. */
  method PutRate(w: BitWriter, rate: nat)
    requires w.Valid() && rate < RATE_LIMIT
    modifies w
    ensures w.Valid() && w.Count() == old(w.Count()) + 32
    ensures w.Value() == ((old(w.Value()) * 0x40_0000 + rate) * 4 + 3) * 256 + 0xF8
  {
    FieldPow2();
    w.Put(rate, 22, 0x40_0000);
    w.Marker();
    w.Marker();
    assert w.Value() == (old(w.Value()) * 0x40_0000 + rate) * 4 + 3;
    w.Put(0x1F, 5, 32);
    w.Put(0, 3, 8);
  }

  method PutPack(w: BitWriter, scr: nat, rate: nat)
    requires w.Valid() && w.Count() == 0 && w.Value() == 0 && scr < CLOCK_LIMIT && rate < RATE_LIMIT
    modifies w
    ensures w.Valid() && w.Count() == 80
    ensures w.Value() == ((((ClockNumber(1, High3(scr), Mid15(scr), Low15(scr)) * 1024 + 1) * 0x40_0000 + rate) * 2 + 1)
                          * 2 + 1) * 256 + 0xF8
  {
    FieldPow2();
    w.Put(1, 2, 4);
    w.PutClock(scr);
    ghost var clock := w.Value();
    w.Put(0, 9, 512);
    w.Marker();
    assert w.Value() == clock * 1024 + 1;
    PutRate(w, rate);
  }

  lemma PackNumber(scr: nat, rate: nat)
    requires scr < CLOCK_LIMIT && rate < RATE_LIMIT
    ensures Number(PackBody(scr, rate))
            == ((((ClockNumber(1, High3(scr), Mid15(scr), Low15(scr)) * 1024 + 1) * 0x40_0000 + rate) * 2 + 1)
                * 2 + 1) * 256 + 0xF8
  {
    ClockFieldNumber(scr);
    RateFieldNumber(PackBody(scr, 0)[..6], scr, rate);
  }

  method WritePack(o: seq<Byte>, scr: nat, rate: nat) returns (r: seq<Byte>)
    requires scr < CLOCK_LIMIT && rate < RATE_LIMIT
    ensures r == o + UnitBytes(Pack(scr, rate))
  {
    var start := WriteStart(o, 0xBA);
    var w := new BitWriter(start);
    PutPack(w, scr, rate);
    PackNumber(scr, rate);
    Written(w, PackBody(scr, rate));
    r := w.out;
  }

  lemma SystemNumber(rate: nat)
    requires rate < RATE_LIMIT
    ensures Number(SystemBody(rate)) == ((0x40_0000 + rate) * 2 + 1) * 0x1_0000_0000_0000 + 0x21_7FE0_E0E6
  {
    var s := SystemBody(rate);
    assert s[..1] == [] + [s[0]] && s[..2] == s[..1] + [s[1]] && s[..3] == s[..2] + [s[2]];
    assert s[..4] == s[..3] + [s[3]] && s[..5] == s[..4] + [s[4]] && s[..6] == s[..5] + [s[5]];
    assert s[..7] == s[..6] + [s[6]] && s[..8] == s[..7] + [s[7]] && s == s[..8] + [s[8]];
    NumberAppend([], s[0]);
    NumberAppend(s[..1], s[1]);
    NumberAppend(s[..2], s[2]);
    NumberAppend(s[..3], s[3]);
    NumberAppend(s[..4], s[4]);
    NumberAppend(s[..5], s[5]);
    NumberAppend(s[..6], s[6]);
    NumberAppend(s[..7], s[7]);
    NumberAppend(s[..8], s[8]);
    RateSplit(rate);
  }

  method PutBound(w: BitWriter, rate: nat)
    requires w.Valid() && rate < RATE_LIMIT
    modifies w
    ensures w.Valid() && w.Count() == old(w.Count()) + 24
    ensures w.Value() == (old(w.Value()) * 2 + 1) * 0x80_0000 + rate * 2 + 1
  {
    FieldPow2();
    w.Marker();
    w.Put(rate, 22, 0x40_0000);
    w.Marker();
  }

  method PutFlags(w: BitWriter)
    requires w.Valid()
    modifies w
    ensures w.Valid() && w.Count() == old(w.Count()) + 16 && w.Value() == old(w.Value()) * 0x1_0000 + 0x21
  {
    FieldPow2();
    ghost var v := w.Value();
    w.Put(0, 6, 64);
    w.Put(0, 1, 2);
    w.Put(0, 1, 2);
    assert w.Value() == v * 256;
    w.Put(0, 1, 2);
    w.Put(0, 1, 2);
    w.Marker();
    w.Put(1, 5, 32);
  }

  method PutStream(w: BitWriter)
    requires w.Valid()
    modifies w
    ensures w.Valid() && w.Count() == old(w.Count()) + 32 && w.Value() == old(w.Value()) * 0x1_0000_0000 + 0x7FE0_E0E6
  {
    FieldPow2();
    ghost var v := w.Value();
    w.Put(0, 1, 2);
    w.Put(0x7F, 7, 128);
    w.Put(VIDEO_STREAM_ID, 8, 256);
    assert w.Value() == v * 0x1_0000 + 0x7FE0;
    PutBoundSize(w);
  }

  method PutBoundSize(w: BitWriter)
    requires w.Valid()
    modifies w
    ensures w.Valid() && w.Count() == old(w.Count()) + 16 && w.Value() == old(w.Value()) * 0x1_0000 + 0xE0E6
  {
    FieldPow2();
    w.Put(3, 2, 4);
    w.Marker();
    w.Put(230, 13, 0x2000);
  }

  method PutSystem(w: BitWriter, rate: nat)
    requires w.Valid() && w.Count() == 0 && w.Value() == 0 && rate < RATE_LIMIT
    modifies w
    ensures w.Valid() && w.Count() == 72
    ensures w.Value() == ((0x40_0000 + rate) * 2 + 1) * 0x1_0000_0000_0000 + 0x21_7FE0_E0E6
  {
    PutBound(w, rate);
    ghost var bound := w.Value();
    PutFlags(w);
    PutStream(w);
    assert w.Value() == bound * 0x1_0000_0000_0000 + 0x21_7FE0_E0E6;
  }

  method WriteSystem(o: seq<Byte>, rate: nat) returns (r: seq<Byte>)
    requires rate < RATE_LIMIT
    ensures r == o + UnitBytes(System(rate))
  {
    hide SystemBody, Be16, StartCode;
    var start := WriteStart(o, 0xBB);
    start := start + Be16(9);
    var w := new BitWriter(start);
    PutSystem(w, rate);
    SystemNumber(rate);
    Written(w, SystemBody(rate));
    r := w.out;
  }

  method WriteMap(o: seq<Byte>, codec: VideoCodec) returns (r: seq<Byte>)
    ensures r == o + UnitBytes(Map(codec))
  {
    r := WriteSummed(o, MapBody(codec));
  }

  /** A sized unit with a check sum behind its body. */
  method WriteSummed(o: seq<Byte>, body: seq<Byte>) returns (r: seq<Byte>)
    requires |body| + 4 < 0x1_0000
    ensures r == o + (StartCode(0xBC) + Be16(|body| + 4) + body + Be32(Crc32(body)))
  {
    r := WriteStart(o, 0xBC);
    r := r + Be16(|body| + 4);
    r := r + body;
    var crc := Crc32ByBits(body);
    r := r + Be32(crc);
    FourParts(o, StartCode(0xBC), Be16(|body| + 4), body, Be32(crc));
  }

  lemma FourParts(o: seq<Byte>, a: seq<Byte>, b: seq<Byte>, c: seq<Byte>, d: seq<Byte>)
    ensures o + a + b + c + d == o + (a + b + c + d)
  {
  }

  method WriteHead(o: seq<Byte>, pts: int, data: seq<Byte>) returns (r: seq<Byte>)
    requires 0 < |data| <= PES_CHUNK
    ensures r == o + UnitBytes(Head(Clock(pts), data))
  {
    r := WriteStart(o, VIDEO_STREAM_ID);
    r := r + Be16(3 + 5 + |data|);
    r := r + [0x84, 0x80, 5];
    ghost var front := StartCode(VIDEO_STREAM_ID) + Be16(3 + 5 + |data|) + [0x84, 0x80, 5];
    assert r == o + front;
    r := WritePts(r, pts);
    r := r + data;
    assert o + front + PtsBytes(Clock(pts)) + data == o + (front + PtsBytes(Clock(pts)) + data);
  }

  method WriteMore(o: seq<Byte>, data: seq<Byte>) returns (r: seq<Byte>)
    requires 0 < |data| <= PES_CHUNK
    ensures r == o + UnitBytes(More(data))
  {
    r := WriteStart(o, VIDEO_STREAM_ID);
    r := r + Be16(3 + |data|);
    r := r + [0x80, 0x00, 0];
    r := r + data;
  }

  /** One packet; only the first of an access unit is aligned and stamped. */
  method WritePes(o: seq<Byte>, first: bool, pts: int, data: seq<Byte>) returns (r: seq<Byte>)
    requires 0 < |data| <= PES_CHUNK
    ensures r == o + UnitBytes(if first then Head(Clock(pts), data) else More(data))
  {
    if first {
      r := WriteHead(o, pts, data);
    } else {
      r := WriteMore(o, data);
    }
  }

  lemma NextFragment(a: Access, off: nat, before: seq<Byte>)
    requires off < |a.data|
    ensures before + UnitsBytes(Fragments(a, off))
            == before + UnitsBytes(Fragment(a, off)) + UnitsBytes(Fragments(a, off + ChunkAt(a, off)))
  {
    UnitsAppend(Fragment(a, off), Fragments(a, off + ChunkAt(a, off)));
  }

  /** mux_frame */
  method MuxFrame(a: Access) returns (r: Result<seq<Byte>>)
    ensures r == Muxed(a)
  {
    if |a.data| == 0 {
      return Failure(Invalid);
    }
    if |a.data| > MAX_PAYLOAD {
      return Failure(Format);
    }
    var out := [];
    var off := 0;
    var first := true;
    ghost var whole := UnitsBytes(Fragments(a, 0));
    while off < |a.data|
      invariant 0 <= off <= |a.data| && (first <==> off == 0)
      invariant out + UnitsBytes(Fragments(a, off)) == whole
    {
      NextFragment(a, off, out);
      out := WriteFragment(a, out, off, first);
      off := off + ChunkAt(a, off);
      first := false;
    }
    assert out + [] == out;
    return Success(out);
  }

  lemma FragmentBytes(a: Access, off: nat)
    requires off < |a.data|
    ensures var data := a.data[off..off + ChunkAt(a, off)];
            var pack: Unit := Pack(Clock(a.pts), Rate(a));
            var pes: Unit := if off == 0 then Head(Clock(a.pts), data) else More(data);
            UnitsBytes(Fragment(a, off))
            == UnitBytes(pack)
               + Tables(a, Rate(a), off == 0) + UnitBytes(pes)
  {
    var data := a.data[off..off + ChunkAt(a, off)];
    var pack: Unit := Pack(Clock(a.pts), Rate(a));
    var pes: Unit := if off == 0 then Head(Clock(a.pts), data) else More(data);
    if a.keyframe && off == 0 {
      var system: Unit := System(Rate(a));
      var table: Unit := Map(a.codec);
      FourUnits(pack, system, table, pes);
      assert Fragment(a, off) == [pack, system, table, pes];
    } else {
      TwoUnits(pack, pes);
      assert Fragment(a, off) == [pack, pes];
    }
  }

  lemma TwoUnits(u: Unit, v: Unit)
    ensures UnitsBytes([u, v]) == UnitBytes(u) + [] + UnitBytes(v)
  {
    assert Parts([u, v]) == [UnitBytes(u), UnitBytes(v)];
    JoinedTwo(UnitBytes(u), UnitBytes(v));
  }

  lemma FourUnits(u: Unit, v: Unit, w: Unit, x: Unit)
    ensures UnitsBytes([u, v, w, x]) == UnitBytes(u) + (UnitBytes(v) + UnitBytes(w)) + UnitBytes(x)
  {
    assert Parts([u, v, w, x]) == [UnitBytes(u), UnitBytes(v), UnitBytes(w), UnitBytes(x)];
    JoinedFour(UnitBytes(u), UnitBytes(v), UnitBytes(w), UnitBytes(x));
  }

  lemma Chain(o: seq<Byte>, x: seq<Byte>, y: seq<Byte>, z: seq<Byte>, w: seq<Byte>,
              r1: seq<Byte>, r2: seq<Byte>, r3: seq<Byte>)
    requires r1 == o + x && r2 == r1 + y && r3 == r2 + z && w == x + y + z
    ensures r3 == o + w
  {
  }

  /** The body of the loop. */
  method WriteFragment(a: Access, o: seq<Byte>, off: nat, first: bool) returns (r: seq<Byte>)
    requires off < |a.data| && (first <==> off == 0)
    ensures r == o + UnitsBytes(Fragment(a, off))
  {
    var scr, rate := Clock(a.pts), Rate(a);
    var data := a.data[off..off + ChunkAt(a, off)];
    var r1 := WritePack(o, scr, rate);
    var r2 := WriteTables(r1, a, rate, first);
    r := WritePes(r2, first, a.pts, data);
    FragmentBytes(a, off);
    Chain(o, UnitBytes(Pack(scr, rate)), Tables(a, rate, first),
          UnitBytes(if first then Head(Clock(a.pts), data) else More(data)), UnitsBytes(Fragment(a, off)), r1, r2, r);
  }

  function Tables(a: Access, rate: nat, first: bool): seq<Byte>
    requires rate < RATE_LIMIT
  {
    if a.keyframe && first then UnitBytes(System(rate)) + UnitBytes(Map(a.codec)) else []
  }

  /** The tables go ahead of the first packet of a key frame. */
  method WriteTables(o: seq<Byte>, a: Access, rate: nat, first: bool) returns (r: seq<Byte>)
    requires rate < RATE_LIMIT
    ensures r == o + Tables(a, rate, first)
  {
    r := o;
    if a.keyframe && first {
      r := WriteSystem(r, rate);
      r := WriteMap(r, a.codec);
    }
  }
}
