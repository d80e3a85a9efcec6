/** What the multiplexer writes the demultiplexer reads back, however the bytes are cut. */
module PsRoundTrip {
  import opened Words
  import opened Statuses
  import opened Crc
  import opened PsBits
  import opened PsMux
  import opened PsDemux

  // ---------------------------------------------------------------- bytes ahead of a unit

  const CODE: seq<Byte> := [0, 0, 1]

  /** No start code begins in t when one follows it. */
  ghost predicate Quiet(t: seq<Byte>) {
    forall i: nat :: i < |t| ==> !CodeHere(t + CODE, i)
  }

  /** A unit with its bytes. */
  datatype Link = Link(bytes: seq<Byte>, unit: Unit)

  ghost predicate Printed(l: Link) {
    l.bytes == UnitBytes(l.unit)
  }

  ghost predicate AllPrinted(ls: seq<Link>) {
    forall k {:trigger Printed(ls[k])} :: 0 <= k < |ls| ==> Printed(ls[k])
  }

  function LinkBytes(ls: seq<Link>): seq<Byte> {
    if ls == [] then [] else ls[0].bytes + LinkBytes(ls[1..])
  }

  lemma PrintedRest(ls: seq<Link>)
    requires AllPrinted(ls) && ls != []
    ensures Printed(ls[0]) && AllPrinted(ls[1..])
  {
    forall k | 0 <= k < |ls[1..]| ensures Printed(ls[1..][k]) {
      assert Printed(ls[k + 1]);
    }
  }

  /** Bytes that may stand ahead of the units without harm: a false start code only ahead of a pack. */
  ghost predicate Lead(t: seq<Byte>, ls: seq<Link>) {
    Quiet(t) || (t == CODE && (ls == [] || ls[0].unit.Pack?))
  }

  lemma QuietSuffix(t: seq<Byte>, k: nat)
    requires Quiet(t) && k <= |t|
    ensures Quiet(t[k..])
  {
    forall i: nat | i < |t[k..]| ensures !CodeHere(t[k..] + CODE, i) {
      assert (t[k..] + CODE)[i..i + 3] == (t + CODE)[k + i..k + i + 3];
      assert !CodeHere(t + CODE, k + i);
      assert (t + CODE)[k + i] == (t[k..] + CODE)[i] && (t + CODE)[k + i + 1] == (t[k..] + CODE)[i + 1]
             && (t + CODE)[k + i + 2] == (t[k..] + CODE)[i + 2];
    }
  }

  lemma ShortQuiet(t: seq<Byte>)
    requires |t| <= 3 && t != CODE
    ensures Quiet(t)
  {
    forall i: nat | i < |t| ensures !CodeHere(t + CODE, i) {
      var s := t + CODE;
      if i + 2 >= |t| {
        if i + 2 == |t| || i + 2 == |t| + 1 {
          assert s[i + 2] == 0;
        }
      }
    }
  }

  /** The marker bits keep start codes out of a pack header, also when its first byte is lost. */
  lemma PackQuiet(scr: nat, rate: nat)
    requires scr < CLOCK_LIMIT && rate < RATE_LIMIT
    ensures Quiet(UnitBytes(Pack(scr, rate))[1..])
  {
    var t := UnitBytes(Pack(scr, rate))[1..];
    var body := PackBody(scr, rate);
    assert t == [0, 1, 0xBA] + body;
    forall i: nat | i < |t| ensures !CodeHere(t + CODE, i) {
      assert t[1] == 1 && t[2] == 0xBA && t[3] == body[0] && t[5] == body[2] && t[7] == body[4];
      assert t[8] == body[5] && t[11] == body[8] && t[12] == body[9];
    }
  }

  lemma Known(c: bv32, b: Byte, x: bv32, r: bv32)
    requires c ^ (b as bv32) == x && Steps(x, 8) == r
    ensures Update(c, b) == r
  {
  }

  lemma VersionCrc(m: seq<Byte>)
    requires 0 + 1 < |m| && m[0] == 0xC0 && m[1] == 0xFF && Fold(0xFFFF_FFFF, m[..0]) == 0xFFFF_FFFF
    ensures Fold(0xFFFF_FFFF, m[..2]) == 0x58DE_D5C3
  {
    Known(0xFFFF_FFFF, 0xC0, 0xFFFF_FF3F, 0xB699_D2C2);
    Known(0xB699_D2C2, 0xFF, 0xB699_D23D, 0x58DE_D5C3);
    FoldNext(0xFFFF_FFFF, m, 0);
    FoldNext(0xFFFF_FFFF, m, 1);
  }

  lemma InfoLengthCrc(m: seq<Byte>)
    requires 2 + 1 < |m| && m[2] == 0x00 && m[3] == 0x00 && Fold(0xFFFF_FFFF, m[..2]) == 0x58DE_D5C3
    ensures Fold(0xFFFF_FFFF, m[..4]) == 0x166E_FA08
  {
    Known(0x58DE_D5C3, 0x00, 0x58DE_D5C3, 0x0235_4DDF);
    Known(0x0235_4DDF, 0x00, 0x0235_4DDF, 0x166E_FA08);
    FoldNext(0xFFFF_FFFF, m, 2);
    FoldNext(0xFFFF_FFFF, m, 3);
  }

  lemma MapLengthCrc(m: seq<Byte>)
    requires 4 + 1 < |m| && m[4] == 0x00 && m[5] == 0x04 && Fold(0xFFFF_FFFF, m[..4]) == 0x166E_FA08
    ensures Fold(0xFFFF_FFFF, m[..6]) == 0x92DC_437D
  {
    Known(0x166E_FA08, 0x00, 0x166E_FA08, 0x0ECD_E6C8);
    Known(0x0ECD_E6C8, 0x04, 0x0ECD_E6CC, 0x92DC_437D);
    FoldNext(0xFFFF_FFFF, m, 4);
    FoldNext(0xFFFF_FFFF, m, 5);
  }

  lemma AvcTypeCrc(m: seq<Byte>)
    requires 6 < |m| && m[6] == 0x1B && Fold(0xFFFF_FFFF, m[..6]) == 0x92DC_437D
    ensures Fold(0xFFFF_FFFF, m[..7]) == 0xA443_182E
  {
    Known(0x92DC_437D, 0x1B, 0x92DC_4366, 0xA443_182E);
    FoldNext(0xFFFF_FFFF, m, 6);
  }

  lemma AvcIdCrc(m: seq<Byte>)
    requires 7 < |m| && m[7] == 0xE0 && Fold(0xFFFF_FFFF, m[..7]) == 0xA443_182E
    ensures Fold(0xFFFF_FFFF, m[..8]) == 0x7C78_ACAF
  {
    AvcIdStep();
    FoldNext(0xFFFF_FFFF, m, 7);
  }

  lemma AvcIdStep()
    ensures Update(0xA443_182E, 0xE0) == 0x7C78_ACAF
  {
    Known(0xA443_182E, 0xE0, 0xA443_18CE, 0x7C78_ACAF);
  }

  lemma AvcEndCrc(m: seq<Byte>)
    requires 8 + 1 < |m| && m[8] == 0x00 && m[9] == 0x00 && Fold(0xFFFF_FFFF, m[..8]) == 0x7C78_ACAF
    ensures Fold(0xFFFF_FFFF, m[..10]) == 0xF6FF_339D
  {
    Known(0x7C78_ACAF, 0x00, 0x7C78_ACAF, 0x4615_C6D5);
    Known(0x4615_C6D5, 0x00, 0x4615_C6D5, 0xF6FF_339D);
    FoldNext(0xFFFF_FFFF, m, 8);
    FoldNext(0xFFFF_FFFF, m, 9);
  }

  lemma HevcTypeCrc(m: seq<Byte>)
    requires 6 < |m| && m[6] == 0x24 && Fold(0xFFFF_FFFF, m[..6]) == 0x92DC_437D
    ensures Fold(0xFFFF_FFFF, m[..7]) == 0x1225_3513
  {
    Known(0x92DC_437D, 0x24, 0x92DC_4359, 0x1225_3513);
    FoldNext(0xFFFF_FFFF, m, 6);
  }

  lemma HevcIdCrc(m: seq<Byte>)
    requires 7 < |m| && m[7] == 0xE0 && Fold(0xFFFF_FFFF, m[..7]) == 0x1225_3513
    ensures Fold(0xFFFF_FFFF, m[..8]) == 0x24A6_8693
  {
    HevcIdStep();
    FoldNext(0xFFFF_FFFF, m, 7);
  }

  lemma HevcIdStep()
    ensures Update(0x1225_3513, 0xE0) == 0x24A6_8693
  {
    Known(0x1225_3513, 0xE0, 0x1225_35F3, 0x24A6_8693);
  }

  lemma HevcEndCrc(m: seq<Byte>)
    requires 8 + 1 < |m| && m[8] == 0x00 && m[9] == 0x00 && Fold(0xFFFF_FFFF, m[..8]) == 0x24A6_8693
    ensures Fold(0xFFFF_FFFF, m[..10]) == 0x5EB7_DB6A
  {
    Known(0x24A6_8693, 0x00, 0x24A6_8693, 0x6922_6478);
    Known(0x6922_6478, 0x00, 0x6922_6478, 0x5EB7_DB6A);
    FoldNext(0xFFFF_FFFF, m, 8);
    FoldNext(0xFFFF_FFFF, m, 9);
  }

  lemma SharedCrc(m: seq<Byte>)
    requires |m| >= 6 && m[0] == 0xC0 && m[1] == 0xFF && m[2] == 0 && m[3] == 0 && m[4] == 0 && m[5] == 4
    ensures Fold(0xFFFF_FFFF, m[..6]) == 0x92DC_437D
  {
    assert m[..0] == [];
    VersionCrc(m);
    InfoLengthCrc(m);
    MapLengthCrc(m);
  }

  lemma AvcMap(m: seq<Byte>)
    requires |m| == 10 && m[0] == 0xC0 && m[1] == 0xFF && m[2] == 0 && m[3] == 0 && m[4] == 0 && m[5] == 4
    requires m[6] == 0x1B && m[7] == 0xE0 && m[8] == 0 && m[9] == 0
    ensures Fold(0xFFFF_FFFF, m) == 0xF6FF_339D
  {
    SharedCrc(m);
    AvcTypeCrc(m);
    AvcIdCrc(m);
    AvcEndCrc(m);
    assert m[..10] == m;
  }

  lemma HevcMap(m: seq<Byte>)
    requires |m| == 10 && m[0] == 0xC0 && m[1] == 0xFF && m[2] == 0 && m[3] == 0 && m[4] == 0 && m[5] == 4
    requires m[6] == 0x24 && m[7] == 0xE0 && m[8] == 0 && m[9] == 0
    ensures Fold(0xFFFF_FFFF, m) == 0x5EB7_DB6A
  {
    SharedCrc(m);
    HevcTypeCrc(m);
    HevcIdCrc(m);
    HevcEndCrc(m);
    assert m[..10] == m;
  }

  /** The check sums of the two maps; all that matters here is that neither ends in a start code. */
  lemma MapCrc(codec: VideoCodec)
    ensures Crc32(MapBody(codec)) == if codec.Avc? then 0x0900_CC62 else 0xA148_2495
  {
    if codec.Avc? {
      AvcMap(MapBody(codec));
    } else {
      HevcMap(MapBody(codec));
    }
  }

  lemma MapTail(codec: VideoCodec)
    ensures var u := UnitBytes(Map(codec)); |u| == 20 && u[18] != 0
  {
    MapCrc(codec);
    var c := Crc32(MapBody(codec));
    assert UnitBytes(Map(codec))[18] == Low8(c >> 8);
  }

  /** A packet is followed by a pack. */
  predicate Follows(ls: seq<Link>) {
    |ls| > 1 && (ls[0].unit.Head? || ls[0].unit.More?) ==> ls[1].unit.Pack?
  }

  /** The last bytes of a unit that is no packet are not a start code. */
  lemma TailOf(l: Link)
    requires Printed(l) && !l.unit.Head? && !l.unit.More?
    ensures |l.bytes| > 6 && l.bytes[|l.bytes| - 3..] != CODE
  {
    if l.unit.Map? {
      MapTail(l.unit.codec);
    }
    assert l.bytes[|l.bytes| - 3..][1] == l.bytes[|l.bytes| - 2] && l.bytes[|l.bytes| - 3..][2] == l.bytes[|l.bytes| - 1];
  }

  /** The last bytes of a unit do no harm ahead of the next. */
  lemma TailLead(ls: seq<Link>, t: seq<Byte>)
    requires ls != [] && Follows(ls) && Printed(ls[0]) && |t| <= 3 <= |ls[0].bytes|
    requires t == ls[0].bytes[|ls[0].bytes| - |t|..]
    ensures Lead(t, ls[1..])
  {
    if t != CODE {
      ShortQuiet(t);
    } else if !ls[0].unit.Head? && !ls[0].unit.More? {
      TailOf(ls[0]);
    }
  }

  // ---------------------------------------------------------------- finding the next unit

  lemma CodeIn(d: seq<Byte>, i: nat, s: seq<Byte>, k: nat)
    requires i + 2 < |d| && k + 2 < |s| && d[i] == s[k] && d[i + 1] == s[k + 1] && d[i + 2] == s[k + 2]
    ensures CodeHere(d, i) <==> CodeHere(s, k)
  {
  }

  /** d, from pos on, is as much as has arrived of a quiet lead and the bytes behind it. */
  ghost predicate Arrived(d: seq<Byte>, pos: nat, t: seq<Byte>, rest: seq<Byte>) {
    pos <= |d| <= pos + |t| + |rest| && d[pos..] == (t + rest)[..|d| - pos]
  }

  lemma NoCodeInLead(d: seq<Byte>, pos: nat, t: seq<Byte>, rest: seq<Byte>, i: nat)
    requires Quiet(t) && Arrived(d, pos, t, rest) && (rest == [] || CODE <= rest)
    requires pos <= i < pos + |t| && i + 2 < |d|
    ensures !CodeHere(d, i)
  {
    var k := i - pos;
    assert d[i] == d[pos..][k] && d[i + 1] == d[pos..][k + 1] && d[i + 2] == d[pos..][k + 2];
    assert !CodeHere(t + CODE, k);
    if rest != [] {
      assert rest[0] == 0 && rest[1] == 0 && rest[2] == 1;
    }
    CodeIn(d, i, t + CODE, k);
  }

  lemma FindsUnit(d: seq<Byte>, pos: nat, t: seq<Byte>, rest: seq<Byte>)
    requires Quiet(t) && Arrived(d, pos, t, rest) && (rest == [] || CODE <= rest)
    ensures FindCode(d, pos) == if rest != [] && |d| >= pos + |t| + 3 then Some(pos + |t|) else None
  {
    var sc := pos + |t|;
    forall i: nat | pos <= i < sc && i + 2 < |d| ensures !CodeHere(d, i) {
      NoCodeInLead(d, pos, t, rest, i);
    }
    if rest != [] && |d| >= sc + 3 {
      assert rest[0] == 0 && rest[1] == 0 && rest[2] == 1;
      assert d[sc] == d[pos..][|t|] && d[sc + 1] == d[pos..][|t| + 1] && d[sc + 2] == d[pos..][|t| + 2];
      assert CodeHere(d, sc);
    }
  }

  // ---------------------------------------------------------------- looking at a unit

  function Psm(u: Unit, psm: Option<VideoCodec>): Option<VideoCodec> {
    if u.Map? then Some(u.codec) else psm
  }

  /** What Look is to say of a whole unit at sc. */
  function Expected(u: Unit, sc: nat, psm: Option<VideoCodec>): Sight {
    match u
    case Head(clock, data) => Payload(sc + 14, sc + 14 + |data|, true, clock)
    case More(data) => Payload(sc + 9, sc + 9 + |data|, false, 0)
    case _ => Skip(sc + |UnitBytes(u)|, Psm(u, psm))
  }

  /** A unit starts at sc, whole or cut short by the end of the buffer. */
  ghost predicate AtUnit(d: seq<Byte>, sc: nat, u: Unit) {
    Begins(d, sc, UnitBytes(u))
  }

  ghost predicate Whole(d: seq<Byte>, sc: nat, u: Unit) {
    sc + |UnitBytes(u)| <= |d|
  }

  lemma ByteAt(d: seq<Byte>, sc: nat, b: seq<Byte>, k: nat)
    requires sc <= |d| && (d[sc..] <= b || b <= d[sc..]) && sc + k < |d| && k < |b|
    ensures d[sc + k] == b[k]
  {
    assert d[sc + k] == d[sc..][k];
  }

  lemma SliceAt(d: seq<Byte>, sc: nat, b: seq<Byte>, i: nat, j: nat)
    requires sc <= |d| && (d[sc..] <= b || b <= d[sc..]) && i <= j <= |b| && sc + j <= |d|
    ensures d[sc + i..sc + j] == b[i..j]
  {
    forall k: nat | k < j - i ensures d[sc + i..sc + j][k] == b[i..j][k] {
      ByteAt(d, sc, b, i + k);
    }
  }

  lemma LookAtPack(d: seq<Byte>, sc: nat, u: Unit, psm: Option<VideoCodec>)
    requires u.Pack? && AtUnit(d, sc, u)
    ensures LookCode(d, sc, psm) == if Whole(d, sc, u) then Expected(u, sc, psm) else Wait(sc)
  {
    var b := UnitBytes(u);
    assert |b| == 14 && b[3] == 0xBA;
    if sc + 4 <= |d| {
      ByteAt(d, sc, b, 3);
    }
  }

  lemma MapReads(u: Unit, psm: Option<VideoCodec>)
    requires u.Map?
    ensures MapCodec(UnitBytes(u), psm) == Some(u.codec)
  {
    var b := UnitBytes(u);
    assert |b| == 20 && b[8] == 0 && b[9] == 0 && b[10] == 0 && b[11] == 4;
    assert b[12] == StreamType(u.codec) && b[13] == 0xE0 && b[14] == 0 && b[15] == 0;
    assert Read16(b, 8) == 0 && Read16(b, 10) == 4 && Read16(b, 14) == 0;
    assert MapEntries(b, 16, 16, Some(u.codec)) == Some(u.codec);
  }

  /** b starts at sc, whole or cut short. */
  ghost predicate Begins(d: seq<Byte>, sc: nat, b: seq<Byte>) {
    sc + 3 <= |d| && (d[sc..] <= b || b <= d[sc..])
  }

  lemma LookAtSized(d: seq<Byte>, sc: nat, b: seq<Byte>, psm: Option<VideoCodec>)
    requires |b| >= 6 && b[3] in {0xBB, 0xBC} && Read16(b, 4) == |b| - 6
    requires Begins(d, sc, b)
    ensures LookCode(d, sc, psm)
            == if sc + |b| <= |d| then Skip(sc + |b|, if b[3] == 0xBC then MapCodec(b, psm) else psm) else Wait(sc)
  {
    if sc + 4 <= |d| {
      ByteAt(d, sc, b, 3);
      if sc + 6 <= |d| {
        ByteAt(d, sc, b, 4);
        ByteAt(d, sc, b, 5);
        if sc + |b| <= |d| {
          SliceAt(d, sc, b, 0, |b|);
          assert d[sc..sc + |b|] == b[0..|b|] == b;
        }
      }
    }
  }

  lemma TableBytes(u: Unit)
    requires u.System? || u.Map?
    ensures var b := UnitBytes(u); b[3] == (if u.System? then 0xBB else 0xBC) && Read16(b, 4) == |b| - 6
  {
    var b := UnitBytes(u);
    assert b[4] == 0 && b[5] as int == |b| - 6;
  }

  lemma LookAtTable(d: seq<Byte>, sc: nat, u: Unit, psm: Option<VideoCodec>)
    requires (u.System? || u.Map?) && AtUnit(d, sc, u)
    ensures LookCode(d, sc, psm) == if Whole(d, sc, u) then Expected(u, sc, psm) else Wait(sc)
  {
    TableBytes(u);
    LookAtSized(d, sc, UnitBytes(u), psm);
    if u.Map? { MapReads(u, psm); }
  }

  lemma HeadBytes(u: Unit)
    requires u.Head?
    ensures var b := UnitBytes(u);
            |b| == 14 + |u.data| && b[3] == 0xE0 && b[4..6] == Be16(8 + |u.data|) && b[6] == 0x84 && b[7] == 0x80 && b[8] == 5
            && b[9..14] == PtsBytes(u.clock) && b[14..] == u.data
  {
  }

  lemma MoreBytes(u: Unit)
    requires u.More?
    ensures var b := UnitBytes(u);
            |b| == 9 + |u.data| && b[3] == 0xE0 && b[4..6] == Be16(3 + |u.data|) && b[6] == 0x80 && b[7] == 0 && b[8] == 0
            && b[9..] == u.data
  {
  }

  /** A video packet with hlen header bytes: its length field covers all behind it. */
  lemma LookAtPes(d: seq<Byte>, sc: nat, b: seq<Byte>, hlen: nat, psm: Option<VideoCodec>)
    requires |b| > 9 + hlen && b[3] == 0xE0 && Read16(b, 4) == |b| - 6 && b[8] as int == hlen
    requires (b[7] as int >= 0x80) == (hlen == 5) && hlen in {0, 5}
    requires Begins(d, sc, b)
    ensures LookCode(d, sc, psm)
            == if sc + |b| <= |d|
               then Payload(sc + 9 + hlen, sc + |b|, (b[6] as int) / 4 % 2 == 1, if hlen == 5 then ReadPts(b[9..14]) else 0)
               else Wait(sc)
    ensures sc + |b| <= |d| ==> d[sc + 9 + hlen..sc + |b|] == b[9 + hlen..]
  {
    if sc + 4 <= |d| {
      ByteAt(d, sc, b, 3);
      if sc + 9 <= |d| {
        ByteAt(d, sc, b, 4);
        ByteAt(d, sc, b, 5);
        ByteAt(d, sc, b, 6);
        ByteAt(d, sc, b, 7);
        ByteAt(d, sc, b, 8);
        if sc + 14 <= |d| && hlen == 5 {
          SliceAt(d, sc, b, 9, 14);
        }
        if sc + |b| <= |d| {
          SliceAt(d, sc, b, 9 + hlen, |b|);
        }
      }
    }
  }

  lemma LookAtHead(d: seq<Byte>, sc: nat, u: Unit, psm: Option<VideoCodec>)
    requires u.Head? && AtUnit(d, sc, u)
    ensures LookCode(d, sc, psm) == if Whole(d, sc, u) then Expected(u, sc, psm) else Wait(sc)
    ensures Whole(d, sc, u) ==> d[sc + 14..sc + 14 + |u.data|] == u.data
  {
    var b := UnitBytes(u);
    HeadBytes(u);
    assert b[4..6][0] == b[4] && b[4..6][1] == b[5];
    PtsRoundTrip(u.clock);
    LookAtPes(d, sc, b, 5, psm);
  }

  lemma LookAtMore(d: seq<Byte>, sc: nat, u: Unit, psm: Option<VideoCodec>)
    requires u.More? && AtUnit(d, sc, u)
    ensures LookCode(d, sc, psm) == if Whole(d, sc, u) then Expected(u, sc, psm) else Wait(sc)
    ensures Whole(d, sc, u) ==> d[sc + 9..sc + 9 + |u.data|] == u.data
  {
    var b := UnitBytes(u);
    MoreBytes(u);
    assert b[4..6][0] == b[4] && b[4..6][1] == b[5];
    LookAtPes(d, sc, b, 0, psm);
  }

  // ---------------------------------------------------------------- what units deliver

  /** A continuation finds an open access unit with room for it. */
  predicate Fits(a: Assembly, u: Unit) {
    u.More? ==> a.isOpen && |a.au| + |u.data| <= MAX_PAYLOAD
  }

  function After(a: Assembly, u: Unit): Assembly {
    match u
    case Map(codec) => a.(psm := Some(codec))
    case Head(clock, data) => Assembled(a, data, true, clock).0
    case More(data) => Assembled(a, data, false, 0).0
    case _ => a
  }

  /** A head hands over the access unit before it. */
  function HandedOver(a: Assembly, u: Unit): seq<Frame> {
    if u.Head? && Emitted(a).Success? then [Emitted(a).value] else []
  }

  /** From a on, the units deliver fs and leave fin behind. */
  predicate Delivers(ls: seq<Link>, a: Assembly, fs: seq<Frame>, fin: Assembly)
    decreases |ls|
  {
    if ls == [] then fs == [] && fin == a
    else
      && Follows(ls) && Fits(a, ls[0].unit) && HandedOver(a, ls[0].unit) <= fs
      && Delivers(ls[1..], After(a, ls[0].unit), fs[|HandedOver(a, ls[0].unit)|..], fin)
  }

  /** s is a harmless lead and units that deliver fs and leave fin behind. */
  ghost predicate Splits(s: seq<Byte>, t: seq<Byte>, ls: seq<Link>, a: Assembly, fs: seq<Frame>, fin: Assembly) {
    s == t + LinkBytes(ls) && Lead(t, ls) && AllPrinted(ls) && Delivers(ls, a, fs, fin)
  }

  // ---------------------------------------------------------------- going back

  /** Every end of back may stand ahead of the units. */
  ghost predicate AllLead(back: seq<Byte>, ls: seq<Link>) {
    forall k: nat {:trigger Lead(back[k..], ls)} :: k <= |back| ==> Lead(back[k..], ls)
  }

  function BackTo(pos: nat): nat {
    if pos > 3 then pos - 3 else 0
  }

  /**
   * A scan that has reached pos without finding anything more resumes up to three bytes before it;
   * from there on the input is back and the units ls, wherever in back it resumes.
   */
  ghost predicate Resumable(r: seq<Byte>, pos: nat, back: seq<Byte>, ls: seq<Link>,
                            a: Assembly, fs: seq<Frame>, fin: Assembly) {
    && pos <= |r| && pos <= BackTo(pos) + |back| + 1
    && r[BackTo(pos)..] == back + LinkBytes(ls) && AllLead(back, ls) && AllPrinted(ls) && Delivers(ls, a, fs, fin)
  }

  lemma Cut(r: seq<Byte>, pos: nat, t: seq<Byte>, rest: seq<Byte>, k: nat)
    requires pos <= |r| && r[pos..] == t + rest && k <= |t|
    ensures pos + k <= |r| && r[pos + k..] == t[k..] + rest
  {
    assert r[pos + k..] == r[pos..][k..];
  }

  lemma ResumesAt(r: seq<Byte>, pos: nat, back: seq<Byte>, ls: seq<Link>,
                  a: Assembly, fs: seq<Frame>, fin: Assembly, c: nat)
    requires Resumable(r, pos, back, ls, a, fs, fin) && BackTo(pos) <= c < pos
    ensures c - BackTo(pos) <= |back| && Splits(r[c..], back[c - BackTo(pos)..], ls, a, fs, fin)
  {
    Cut(r, BackTo(pos), back, LinkBytes(ls), c - BackTo(pos));
    assert Lead(back[c - BackTo(pos)..], ls);
  }

  lemma ResumesWithin(r: seq<Byte>, pos: nat, c: nat, a: Assembly, t: seq<Byte>, ls: seq<Link>,
                      fs: seq<Frame>, fin: Assembly)
    requires pos <= c <= pos + |t| && c <= |r| && Splits(r[pos..], t, ls, a, fs, fin) && (c == pos || Quiet(t))
    ensures Splits(r[c..], t[c - pos..], ls, a, fs, fin)
  {
    if c > pos { QuietSuffix(t, c - pos); }
    Cut(r, pos, t, LinkBytes(ls), c - pos);
    assert t[0..] == t;
  }

  // ---------------------------------------------------------------- the unit behind a lead

  lemma BytesStart(d: seq<Byte>, todo: seq<Byte>, pos: nat, t: seq<Byte>, b: seq<Byte>, rest: seq<Byte>)
    requires pos <= |d| && (d + todo)[pos..] == t + (b + rest) && pos + |t| + 3 <= |d|
    ensures Begins(d, pos + |t|, b)
  {
    var sc := pos + |t|;
    var r := d + todo;
    assert r[sc..] == r[pos..][|t|..] == b + rest;
    assert r[sc..] == d[sc..] + todo;
    if |d| - sc <= |b| {
      assert d[sc..] == (b + rest)[..|d| - sc] == b[..|d| - sc];
    } else {
      assert d[sc..][..|b|] == (b + rest)[..|b|] == b;
    }
  }

  lemma BytesLeft(r: seq<Byte>, pos: nat, t: seq<Byte>, b: seq<Byte>, rest: seq<Byte>)
    requires pos <= |r| && r[pos..] == t + (b + rest) && |b| > 3
    ensures var end := pos + |t| + |b|;
            end <= |r| && BackTo(end) == end - 3 && r[end..] == rest && r[end - 3..] == b[|b| - 3..] + rest
  {
    var end := pos + |t| + |b|;
    assert r[end..] == r[pos..][|t| + |b|..];
    assert r[end - 3..] == r[pos..][|t| + |b| - 3..];
  }

  lemma LeadArrives(d: seq<Byte>, todo: seq<Byte>, pos: nat, t: seq<Byte>, rest: seq<Byte>)
    requires pos <= |d| && (d + todo)[pos..] == t + rest
    ensures Arrived(d, pos, t, rest)
  {
    assert (d + todo)[pos..] == d[pos..] + todo;
    assert (t + rest)[..|d| - pos] == d[pos..];
  }

  lemma LinkStarts(l: Link)
    requires Printed(l)
    ensures |l.bytes| > 6 && CODE <= l.bytes
  {
  }

  lemma LinksStart(ls: seq<Link>)
    requires AllPrinted(ls)
    ensures LinkBytes(ls) == [] <==> ls == []
    ensures ls != [] ==> CODE <= LinkBytes(ls) && |LinkBytes(ls)| > 6 && |ls[0].bytes| > 6
  {
    if ls != [] {
      assert Printed(ls[0]);
      LinkStarts(ls[0]);
      assert ls[0].bytes <= LinkBytes(ls);
    }
  }

  /** Look sees the unit u, which ends at end. */
  ghost predicate Sees(d: seq<Byte>, sc: nat, u: Unit, end: nat, psm: Option<VideoCodec>) {
    && sc + 3 <= end <= |d|
    && match u
       case Head(clock, data) =>
         sc < end - |data| && LookCode(d, sc, psm) == Payload(end - |data|, end, true, clock) && d[end - |data|..end] == data
       case More(data) =>
         sc < end - |data| && LookCode(d, sc, psm) == Payload(end - |data|, end, false, 0) && d[end - |data|..end] == data
       case _ => LookCode(d, sc, psm) == Skip(end, Psm(u, psm))
  }

  /** Look sees the unit, or waits at its start code until it is all there. */
  ghost predicate Meets(d: seq<Byte>, sc: nat, u: Unit, end: nat, psm: Option<VideoCodec>)
    requires sc + 3 <= |d|
  {
    if end <= |d| then Sees(d, sc, u, end, psm) else LookCode(d, sc, psm) == Wait(sc)
  }

  lemma MeetsHead(d: seq<Byte>, sc: nat, u: Unit, psm: Option<VideoCodec>)
    requires u.Head? && AtUnit(d, sc, u)
    ensures Meets(d, sc, u, sc + |UnitBytes(u)|, psm)
  {
    HeadBytes(u);
    LookAtHead(d, sc, u, psm);
  }

  lemma MeetsMore(d: seq<Byte>, sc: nat, u: Unit, psm: Option<VideoCodec>)
    requires u.More? && AtUnit(d, sc, u)
    ensures Meets(d, sc, u, sc + |UnitBytes(u)|, psm)
  {
    MoreBytes(u);
    LookAtMore(d, sc, u, psm);
  }

  lemma MeetsOther(d: seq<Byte>, sc: nat, u: Unit, psm: Option<VideoCodec>)
    requires !u.Head? && !u.More? && AtUnit(d, sc, u)
    ensures Meets(d, sc, u, sc + |UnitBytes(u)|, psm)
  {
    if u.Pack? {
      LookAtPack(d, sc, u, psm);
    } else {
      LookAtTable(d, sc, u, psm);
    }
  }

  lemma MeetsLink(d: seq<Byte>, sc: nat, l: Link, psm: Option<VideoCodec>)
    requires Printed(l) && Begins(d, sc, l.bytes)
    ensures Meets(d, sc, l.unit, sc + |l.bytes|, psm)
  {
    if l.unit.Head? {
      MeetsHead(d, sc, l.unit, psm);
    } else if l.unit.More? {
      MeetsMore(d, sc, l.unit, psm);
    } else {
      MeetsOther(d, sc, l.unit, psm);
    }
  }

  lemma UnitTail(ls: seq<Link>, back: seq<Byte>)
    requires ls != [] && Follows(ls) && Printed(ls[0]) && |ls[0].bytes| >= 3 && back == ls[0].bytes[|ls[0].bytes| - 3..]
    ensures AllLead(back, ls[1..])
  {
    var b := ls[0].bytes;
    forall k: nat | k <= |back| ensures Lead(back[k..], ls[1..]) {
      assert back[k..] == b[|b| - (|back| - k)..];
      TailLead(ls, back[k..]);
    }
  }

  // ---------------------------------------------------------------- one pass of the loop

  lemma ScanSkip(d: seq<Byte>, pos: nat, cursor: nat, a: Assembly, p: nat, psm: Option<VideoCodec>)
    requires pos < p <= |d| && cursor <= |d| && Look(d, pos, a.psm) == Skip(p, psm)
    ensures Scan(d, pos, cursor, a) == Scan(d, p, cursor, a.(psm := psm))
  {
  }

  lemma ScanPayload(d: seq<Byte>, pos: nat, cursor: nat, a: Assembly, pay: nat, end: nat, start: bool, pts: int)
    requires pos < pay < end <= |d| && cursor <= |d| && Look(d, pos, a.psm) == Payload(pay, end, start, pts)
    requires Taken(a, d[pay..end], start)
    ensures var (next, stop) := Assembled(a, d[pay..end], start, pts);
            Scan(d, pos, cursor, a) == if stop.Some? then Scanned(end, next, stop.value) else Scan(d, end, end, next)
  {
  }

  lemma ScanWait(d: seq<Byte>, pos: nat, cursor: nat, a: Assembly, c: nat)
    requires pos <= |d| && cursor <= |d| && Look(d, pos, a.psm) == Wait(c)
    ensures Scan(d, pos, cursor, a) == Scanned(c, a, Failure(Again))
  {
  }

  /** Whether the unit ends what the loop can do in one call. */
  predicate Stops(a: Assembly, u: Unit) {
    u.Head? && Emitted(a).Success?
  }

  /** What the loop does with a unit that it sees and that ends at end. */
  function Past(d: seq<Byte>, end: nat, cursor: nat, a: Assembly, u: Unit): Scanned
    requires end <= |d| && cursor <= |d|
  {
    if Stops(a, u) then Scanned(end, After(a, u), Emitted(a))
    else Scan(d, end, if u.Head? || u.More? then end else cursor, After(a, u))
  }

  lemma ScanUnit(d: seq<Byte>, pos: nat, sc: nat, cursor: nat, a: Assembly, u: Unit, end: nat)
    requires pos <= |d| && FindCode(d, pos) == Some(sc)
    requires cursor <= |d| && Fits(a, u) && Sees(d, sc, u, end, a.psm)
    ensures Scan(d, pos, cursor, a) == Past(d, end, cursor, a, u)
  {
    match u
    case Head(_, _) => ScanHead(d, pos, sc, cursor, a, u, end);
    case More(_) => ScanMore(d, pos, sc, cursor, a, u, end);
    case _ => ScanOther(d, pos, sc, cursor, a, u, end);
  }

  lemma ScanHead(d: seq<Byte>, pos: nat, sc: nat, cursor: nat, a: Assembly, u: Unit, end: nat)
    requires pos <= |d| && FindCode(d, pos) == Some(sc) && u.Head?
    requires cursor <= |d| && Fits(a, u) && Sees(d, sc, u, end, a.psm)
    ensures Scan(d, pos, cursor, a) == Past(d, end, cursor, a, u)
  {
    ScanPayload(d, pos, cursor, a, end - |u.data|, end, true, u.clock);
  }

  lemma ScanMore(d: seq<Byte>, pos: nat, sc: nat, cursor: nat, a: Assembly, u: Unit, end: nat)
    requires pos <= |d| && FindCode(d, pos) == Some(sc) && u.More?
    requires cursor <= |d| && Fits(a, u) && Sees(d, sc, u, end, a.psm)
    ensures Scan(d, pos, cursor, a) == Past(d, end, cursor, a, u)
  {
    ScanPayload(d, pos, cursor, a, end - |u.data|, end, false, 0);
  }

  lemma ScanOther(d: seq<Byte>, pos: nat, sc: nat, cursor: nat, a: Assembly, u: Unit, end: nat)
    requires pos <= |d| && FindCode(d, pos) == Some(sc) && !u.Head? && !u.More?
    requires cursor <= |d| && Fits(a, u) && Sees(d, sc, u, end, a.psm)
    ensures Scan(d, pos, cursor, a) == Past(d, end, cursor, a, u)
  {
    ScanSkip(d, pos, cursor, a, end, Psm(u, a.psm));
  }

  /**
   * Next hands over the next frame, or waits without losing anything: what is left of the input is
   * the lead t and the units ls, of which less than one unit is there. With everything there, all is
   * delivered.
   */
  ghost predicate ScanOk(d: seq<Byte>, todo: seq<Byte>, s: Scanned, fs: seq<Frame>, fin: Assembly,
                         t: seq<Byte>, ls: seq<Link>) {
    && s.cursor <= |d|
    && (s.result.Failure? ==>
          s.result.status == Again && Splits((d + todo)[s.cursor..], t, ls, s.asm, fs, fin)
          && (todo == [] ==> ls == []) && |d| < s.cursor + UNIT_LIMIT)
    && (s.result.Success? ==>
          fs != [] && fs[0] == s.result.value && Splits((d + todo)[s.cursor..], t, ls, s.asm, fs[1..], fin))
  }

  /** More than any unit takes. */
  const UNIT_LIMIT: nat := 0x1_0000

  lemma UnitSize(ls: seq<Link>)
    requires AllPrinted(ls) && ls != []
    ensures |ls[0].bytes| < UNIT_LIMIT
  {
    assert Printed(ls[0]);
    LinkSize(ls[0]);
  }

  lemma LinkSize(l: Link)
    requires Printed(l)
    ensures |l.bytes| < UNIT_LIMIT
  {
  }

  lemma LeadLength(r: seq<Byte>, pos: nat, t: seq<Byte>, ls: seq<Link>)
    requires pos <= |r| && r[pos..] == t + LinkBytes(ls) && AllPrinted(ls)
    ensures |r| == pos + |t| + |LinkBytes(ls)|
    ensures ls != [] ==> |LinkBytes(ls)| > 6
    ensures ls == [] ==> |LinkBytes(ls)| == 0
  {
    LinksStart(ls);
  }

  /** Nothing is found: the scan will resume three bytes before the end of the buffer. */
  lemma NothingFound(d: seq<Byte>, todo: seq<Byte>, pos: nat, a: Assembly, t: seq<Byte>, ls: seq<Link>,
                     back: seq<Byte>, bls: seq<Link>, fs: seq<Frame>, fin: Assembly)
    returns (t': seq<Byte>, ls': seq<Link>)
    requires pos <= |d| && Splits((d + todo)[pos..], t, ls, a, fs, fin)
    requires Resumable(d + todo, pos, back, bls, a, fs, fin)
    requires (t == CODE && |d| < pos + 3) || (Quiet(t) && (ls == [] || |d| < pos + |t| + 3))
    ensures ScanOk(d, todo, Scanned(BackTo(|d|), a, Failure(Again)), fs, fin, t', ls')
  {
    var c := BackTo(|d|);
    LeadLength(d + todo, pos, t, ls);
    if c < pos {
      ResumesAt(d + todo, pos, back, bls, a, fs, fin, c);
      t', ls' := back[c - BackTo(pos)..], bls;
      LeadLength(d + todo, c, t', ls');
    } else {
      ResumesWithin(d + todo, pos, c, a, t, ls, fs, fin);
      t', ls' := t[c - pos..], ls;
    }
  }

  // ---------------------------------------------------------------- a false start code

  lemma LostByte(r: seq<Byte>, pos: nat, b: seq<Byte>, rest: seq<Byte>)
    requires pos <= |r| && r[pos..] == CODE + (b + rest) && b != []
    ensures pos + 4 <= |r| && r[pos + 4..] == b[1..] + rest
  {
    assert r[pos + 4..] == r[pos..][4..];
  }

  lemma InsideCode(ls: seq<Link>)
    ensures AllLead([0, 1], ls)
  {
    forall k: nat | k <= 2 ensures Lead([0, 1][k..], ls) {
      ShortQuiet([0, 1][k..]);
    }
  }

  lemma LostPack(l: Link)
    requires Printed(l) && l.unit.Pack?
    ensures l.bytes != [] && Quiet(l.bytes[1..])
  {
    PackQuiet(l.unit.scr, l.unit.rate);
  }

  /** The pack behind a false start code loses its first byte and is passed over. */
  lemma PackLost(r: seq<Byte>, pos: nat, a: Assembly, ls: seq<Link>, fs: seq<Frame>, fin: Assembly)
    requires pos <= |r| && Splits(r[pos..], CODE, ls, a, fs, fin) && ls != [] && ls[0].unit.Pack?
    ensures ls[0].bytes != [] && pos + 4 <= |r|
    ensures Quiet(ls[0].bytes[1..]) && Splits(r[pos + 4..], ls[0].bytes[1..], ls[1..], a, fs, fin)
    ensures Resumable(r, pos + 4, [0, 1], ls, a, fs, fin)
  {
    PrintedRest(ls);
    LostPack(ls[0]);
    LostByte(r, pos, ls[0].bytes, LinkBytes(ls[1..]));
    assert fs[0..] == fs;
    InsideCode(ls);
    Cut(r, pos, CODE, LinkBytes(ls), 1);
    assert CODE[1..] == [0, 1];
  }

  lemma FalseCodeSkips(d: seq<Byte>, todo: seq<Byte>, pos: nat, rest: seq<Byte>, psm: Option<VideoCodec>)
    requires pos + 3 <= |d| && (d + todo)[pos..] == CODE + rest && (rest == [] || CODE <= rest)
    ensures |d| == pos + 3 ==> Look(d, pos, psm) == Wait(pos)
    ensures |d| > pos + 3 ==> rest != [] && Look(d, pos, psm) == Skip(pos + 4, psm)
  {
    var r := (d + todo)[pos..];
    assert |r| == 3 + |rest|;
    assert r[0] == d[pos] && r[1] == d[pos + 1] && r[2] == d[pos + 2];
    assert CodeHere(d, pos);
    assert FindCode(d, pos) == Some(pos);
    if |d| > pos + 3 {
      assert r[3] == d[pos + 3] && rest[0] == 0;
    }
  }

  lemma FalseCode(d: seq<Byte>, todo: seq<Byte>, pos: nat, cursor: nat, a: Assembly, ls: seq<Link>,
                  back: seq<Byte>, bls: seq<Link>, fs: seq<Frame>, fin: Assembly)
    returns (t': seq<Byte>, ls': seq<Link>)
    requires pos <= |d| && cursor <= |d| && Splits((d + todo)[pos..], CODE, ls, a, fs, fin)
    requires Resumable(d + todo, pos, back, bls, a, fs, fin) && (ls == [] || ls[0].unit.Pack?)
    ensures ScanOk(d, todo, Scan(d, pos, cursor, a), fs, fin, t', ls')
    decreases |d| - pos, 0
  {
    LinksStart(ls);
    if |d| < pos + 3 {
      assert FindCode(d, pos) == None;
      ScanWait(d, pos, cursor, a, BackTo(|d|));
      t', ls' := NothingFound(d, todo, pos, a, CODE, ls, back, bls, fs, fin);
    } else {
      FalseCodeSkips(d, todo, pos, LinkBytes(ls), a.psm);
      if |d| == pos + 3 {
        ScanWait(d, pos, cursor, a, pos);
        LeadLength(d + todo, pos, CODE, ls);
        t', ls' := CODE, ls;
      } else {
        ScanSkip(d, pos, cursor, a, pos + 4, a.psm);
        PackLost(d + todo, pos, a, ls, fs, fin);
        t', ls' := ScanGood(d, todo, pos + 4, cursor, a, ls[0].bytes[1..], ls[1..], [0, 1], ls, fs, fin);
      }
    }
  }

  // ---------------------------------------------------------------- a unit

  lemma MeetsFirst(d: seq<Byte>, sc: nat, ls: seq<Link>, psm: Option<VideoCodec>)
    requires ls != [] && AllPrinted(ls) && Begins(d, sc, ls[0].bytes)
    ensures Meets(d, sc, ls[0].unit, sc + |ls[0].bytes|, psm)
  {
    assert Printed(ls[0]);
    MeetsLink(d, sc, ls[0], psm);
  }

  /** What the scan does with the first unit, at the start code it finds. */
  lemma ScanFirst(d: seq<Byte>, pos: nat, sc: nat, cursor: nat, a: Assembly, ls: seq<Link>)
    requires pos <= |d| && cursor <= |d| && FindCode(d, pos) == Some(sc)
    requires ls != [] && AllPrinted(ls) && Begins(d, sc, ls[0].bytes) && Fits(a, ls[0].unit)
    ensures sc + |ls[0].bytes| <= |d| ==> Scan(d, pos, cursor, a) == Past(d, sc + |ls[0].bytes|, cursor, a, ls[0].unit)
    ensures sc + |ls[0].bytes| > |d| ==> Scan(d, pos, cursor, a) == Scanned(sc, a, Failure(Again))
  {
    MeetsFirst(d, sc, ls, a.psm);
    hide Scan, Past, FindCode;
    if sc + |ls[0].bytes| <= |d| {
      ScanUnit(d, pos, sc, cursor, a, ls[0].unit, sc + |ls[0].bytes|);
    } else {
      ScanWait(d, pos, cursor, a, sc);
    }
  }

  /** What is left behind the unit that follows the lead t. */
  lemma UnitLeft(r: seq<Byte>, pos: nat, t: seq<Byte>, ls: seq<Link>, a: Assembly, fs: seq<Frame>, fin: Assembly)
    requires pos <= |r| && Splits(r[pos..], t, ls, a, fs, fin) && ls != []
    ensures |ls[0].bytes| > 6
    ensures var end := pos + |t| + |ls[0].bytes|;
            var fs' := fs[|HandedOver(a, ls[0].unit)|..];
            var a' := After(a, ls[0].unit);
            && end <= |r| && Splits(r[end..], [], ls[1..], a', fs', fin)
            && Resumable(r, end, ls[0].bytes[|ls[0].bytes| - 3..], ls[1..], a', fs', fin)
  {
    PrintedRest(ls);
    LinkStarts(ls[0]);
    BytesLeft(r, pos, t, ls[0].bytes, LinkBytes(ls[1..]));
    UnitTail(ls, ls[0].bytes[|ls[0].bytes| - 3..]);
    ShortQuiet([]);
  }

  lemma FirstBegins(d: seq<Byte>, todo: seq<Byte>, pos: nat, t: seq<Byte>, ls: seq<Link>,
                    a: Assembly, fs: seq<Frame>, fin: Assembly)
    requires pos <= |d| && Splits((d + todo)[pos..], t, ls, a, fs, fin) && |d| >= pos + |t| + 3 && ls != []
    ensures AllPrinted(ls) && Fits(a, ls[0].unit) && Begins(d, pos + |t|, ls[0].bytes) && |ls[0].bytes| > 6
  {
    LinksStart(ls);
    BytesStart(d, todo, pos, t, ls[0].bytes, LinkBytes(ls[1..]));
  }

  /** A unit at the front, behind a quiet lead. */
  lemma UnitStep(d: seq<Byte>, todo: seq<Byte>, pos: nat, cursor: nat, a: Assembly,
                 t: seq<Byte>, ls: seq<Link>, fs: seq<Frame>, fin: Assembly)
    returns (t': seq<Byte>, ls': seq<Link>)
    requires pos <= |d| && cursor <= |d| && Splits((d + todo)[pos..], t, ls, a, fs, fin) && |d| >= pos + |t| + 3
    requires ls != [] && FindCode(d, pos) == Some(pos + |t|)
    ensures ScanOk(d, todo, Scan(d, pos, cursor, a), fs, fin, t', ls')
    decreases |d| - pos, 2
  {
    FirstBegins(d, todo, pos, t, ls, a, fs, fin);
    ScanFirst(d, pos, pos + |t|, cursor, a, ls);
    if pos + |t| + |ls[0].bytes| <= |d| {
      t', ls' := UnitWhole(d, todo, pos, cursor, a, t, ls, fs, fin);
    } else {
      t', ls' := UnitWaits(d, todo, pos, a, t, ls, fs, fin);
    }
  }

  lemma UnitWhole(d: seq<Byte>, todo: seq<Byte>, pos: nat, cursor: nat, a: Assembly,
                  t: seq<Byte>, ls: seq<Link>, fs: seq<Frame>, fin: Assembly)
    returns (t': seq<Byte>, ls': seq<Link>)
    requires pos <= |d| && cursor <= |d| && Splits((d + todo)[pos..], t, ls, a, fs, fin)
    requires ls != [] && |ls[0].bytes| > 0 && pos + |t| + |ls[0].bytes| <= |d|
    ensures ScanOk(d, todo, Past(d, pos + |t| + |ls[0].bytes|, cursor, a, ls[0].unit), fs, fin, t', ls')
    decreases |d| - pos, 1
  {
    UnitLeft(d + todo, pos, t, ls, a, fs, fin);
    t', ls' := UnitTaken(d, todo, pos, pos + |t| + |ls[0].bytes|, ls[0].bytes[|ls[0].bytes| - 3..], cursor, a, ls, fs, fin);
  }

  lemma UnitWaits(d: seq<Byte>, todo: seq<Byte>, pos: nat, a: Assembly,
                  t: seq<Byte>, ls: seq<Link>, fs: seq<Frame>, fin: Assembly)
    returns (t': seq<Byte>, ls': seq<Link>)
    requires pos <= |d| && Splits((d + todo)[pos..], t, ls, a, fs, fin) && ls != []
    requires pos + |t| <= |d| < pos + |t| + |ls[0].bytes|
    ensures ScanOk(d, todo, Scanned(pos + |t|, a, Failure(Again)), fs, fin, t', ls')
  {
    UnitSize(ls);
    LeadLength(d + todo, pos, t, ls);
    Cut(d + todo, pos, t, LinkBytes(ls), |t|);
    ShortQuiet([]);
    assert t[|t|..] == [];
    t', ls' := [], ls;
  }

  lemma UnitTaken(d: seq<Byte>, todo: seq<Byte>, pos: nat, end: nat, back: seq<Byte>, cursor: nat, a: Assembly,
                  ls: seq<Link>, fs: seq<Frame>, fin: Assembly)
    returns (t': seq<Byte>, ls': seq<Link>)
    requires pos < end <= |d| && cursor <= |d| && ls != []
    requires HandedOver(a, ls[0].unit) <= fs
    requires var fs' := fs[|HandedOver(a, ls[0].unit)|..];
             var a' := After(a, ls[0].unit);
             Splits((d + todo)[end..], [], ls[1..], a', fs', fin) && Resumable(d + todo, end, back, ls[1..], a', fs', fin)
    ensures ScanOk(d, todo, Past(d, end, cursor, a, ls[0].unit), fs, fin, t', ls')
    decreases |d| - pos, 0
  {
    var u := ls[0].unit;
    if Stops(a, u) {
      t', ls' := [], ls[1..];
    } else {
      assert fs[0..] == fs;
      t', ls' := ScanGood(d, todo, end, if u.Head? || u.More? then end else cursor, After(a, u), [], ls[1..],
                          back, ls[1..], fs, fin);
    }
  }

  lemma ScanGood(d: seq<Byte>, todo: seq<Byte>, pos: nat, cursor: nat, a: Assembly, t: seq<Byte>, ls: seq<Link>,
                 back: seq<Byte>, bls: seq<Link>, fs: seq<Frame>, fin: Assembly)
    returns (t': seq<Byte>, ls': seq<Link>)
    requires pos <= |d| && cursor <= |d| && Splits((d + todo)[pos..], t, ls, a, fs, fin)
    requires Resumable(d + todo, pos, back, bls, a, fs, fin)
    ensures ScanOk(d, todo, Scan(d, pos, cursor, a), fs, fin, t', ls')
    decreases |d| - pos, 3
  {
    if Quiet(t) {
      LinksStart(ls);
      LeadArrives(d, todo, pos, t, LinkBytes(ls));
      FindsUnit(d, pos, t, LinkBytes(ls));
      if ls == [] || |d| < pos + |t| + 3 {
        ScanWait(d, pos, cursor, a, BackTo(|d|));
        t', ls' := NothingFound(d, todo, pos, a, t, ls, back, bls, fs, fin);
      } else {
        t', ls' := UnitStep(d, todo, pos, cursor, a, t, ls, fs, fin);
      }
    } else {
      t', ls' := FalseCode(d, todo, pos, cursor, a, ls, back, bls, fs, fin);
    }
  }
}
