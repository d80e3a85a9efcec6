/** The program stream demultiplexer: an incremental, resynchronising parser. */
module PsDemux {
  import opened Words
  import opened Statuses
  import opened PsBits
  import opened PsMux

  const MAX_BUFFERED: nat := MAX_PAYLOAD + 0x10_0000

  datatype Frame = Frame(annexb: seq<Byte>, pts90: int, keyframe: bool, codec: VideoCodec)

  /** The access unit being put together, and the program map seen last. */
  datatype Assembly = Assembly(au: seq<Byte>, pts: int, isOpen: bool, psm: Option<VideoCodec>)

  datatype Ps = Ps(buf: seq<Byte>, cursor: nat, asm: Assembly)

  const EMPTY_PS: Ps := Ps([], 0, Assembly([], 0, false, None))

  // ---------------------------------------------------------------- elementary stream units

  /** Length of the start code at i: three bytes, four, or none. */
  function CodeAt(d: seq<Byte>, i: nat): nat
    requires i + 3 < |d|
  {
    if d[i..i + 3] == [0, 0, 1] then 3
    else if i + 4 < |d| && d[i..i + 4] == [0, 0, 0, 1] then 4
    else 0
  }

  /** The byte behind every start code from i on. */
  function NalHeaders(d: seq<Byte>, i: nat): seq<Byte>
    decreases |d| - i
  {
    if i + 3 >= |d| then []
    else if CodeAt(d, i) == 0 then NalHeaders(d, i + 1)
    else [d[i + CodeAt(d, i)]] + NalHeaders(d, i + CodeAt(d, i))
  }

  predicate HevcKey(b: Byte) {
    b / 2 % 64 in {19, 20, 32}
  }

  predicate AvcKey(b: Byte) {
    b % 32 in {5, 7}
  }

  predicate IsKeyframe(codec: VideoCodec, d: seq<Byte>) {
    exists b :: b in NalHeaders(d, 0) && if codec.Avc? then AvcKey(b) else HevcKey(b)
  }

  /** HEVC first: the low bits of its header bytes can look like AVC types. */
  function Sniff(d: seq<Byte>): VideoCodec {
    if exists b :: b in NalHeaders(d, 0) && HevcKey(b) then Hevc
    else if exists b :: b in NalHeaders(d, 0) && AvcKey(b) then Avc
    else Hevc
  }

  // ---------------------------------------------------------------- one look at the buffer

  predicate CodeHere(d: seq<Byte>, i: nat)
    requires i + 2 < |d|
  {
    d[i] == 0 && d[i + 1] == 0 && d[i + 2] == 1
  }

  /** The first start code prefix at or after from. */
  function FindCode(d: seq<Byte>, from: nat): (r: Option<nat>)
    ensures r.Some? ==> from <= r.value && r.value + 2 < |d| && CodeHere(d, r.value)
    ensures forall i: nat :: from <= i && i + 2 < |d| && (r.Some? ==> i < r.value) ==> !CodeHere(d, i)
    decreases |d| - from
  {
    if from + 2 >= |d| then None else if CodeHere(d, from) then Some(from) else FindCode(d, from + 1)
  }

  function Read16(d: seq<Byte>, at: nat): (v: nat)
    requires at + 2 <= |d|
    ensures v < 0x1_0000
  {
    256 * (d[at] as int) + d[at + 1]
  }

  /** The entries of an elementary stream map; the last video entry of a known type wins. */
  function MapEntries(u: seq<Byte>, at: nat, end: nat, psm: Option<VideoCodec>): (r: Option<VideoCodec>)
    requires end <= |u|
    ensures psm.Some? ==> r.Some?
    decreases end - at
  {
    if at + 4 > end then psm
    else
      var kind, id := u[at], u[at + 1];
      var psm' :=
        if 0xE0 <= id <= 0xEF && kind == 0x1B then Some(Avc)
        else if 0xE0 <= id <= 0xEF && kind == 0x24 then Some(Hevc)
        else psm;
      MapEntries(u, at + 4 + Read16(u, at + 2), end, psm')
  }

  /** A whole program stream map, from its start code to its check sum. */
  function MapCodec(u: seq<Byte>, psm: Option<VideoCodec>): (r: Option<VideoCodec>)
    requires |u| >= 6
    ensures psm.Some? ==> r.Some?
  {
    if |u| < 10 then psm
    else
      var mapEnd := |u| - 4;
      var q := 10 + Read16(u, 8) % 0x8000;
      if q + 2 > mapEnd then psm
      else
        var end := q + 2 + Read16(u, q);
        if end > mapEnd then psm else MapEntries(u, q + 2, end, psm)
  }

  /** What one pass of the loop finds, up to a video payload. */
  datatype Sight =
    | Wait(cursor: nat)
    | Bad
    | Skip(pos: nat, psm: Option<VideoCodec>)
    | Payload(pay: nat, end: nat, start: bool, pts: int)

  function Look(d: seq<Byte>, pos: nat, psm: Option<VideoCodec>): (s: Sight)
    requires pos <= |d|
    ensures s.Skip? ==> pos < s.pos <= |d| && (psm.Some? ==> s.psm.Some?)
    ensures s.Payload? ==> pos < s.pay < s.end <= |d|
    ensures s.Wait? ==> s.cursor <= |d|
  {
    match FindCode(d, pos)
    case None => Wait(if |d| > 3 then |d| - 3 else 0)
    case Some(sc) => LookCode(d, sc, psm)
  }

  /** At a start code. */
  function LookCode(d: seq<Byte>, sc: nat, psm: Option<VideoCodec>): (s: Sight)
    requires sc + 3 <= |d|
    ensures s.Skip? ==> sc < s.pos <= |d| && (psm.Some? ==> s.psm.Some?)
    ensures s.Payload? ==> sc < s.pay < s.end <= |d|
    ensures s.Wait? ==> s.cursor == sc
  {
    if sc + 4 > |d| then Wait(sc)
    else
      var id := d[sc + 3];
      if id == 0xBA then if sc + 14 > |d| then Wait(sc) else Skip(sc + 14, psm)
      else if id == 0xBB || id == 0xBC then LookTable(d, sc, id, psm)
      else if !(0xBD <= id <= 0xEF) then Skip(sc + 4, psm)
      else LookPes(d, sc, id, psm)
  }

  function LookTable(d: seq<Byte>, sc: nat, id: Byte, psm: Option<VideoCodec>): (s: Sight)
    requires sc + 4 <= |d|
    ensures s.Skip? ==> sc < s.pos <= |d| && (psm.Some? ==> s.psm.Some?)
    ensures s.Wait? ==> s.cursor == sc
    ensures s.Skip? || s.Wait?
  {
    if sc + 6 > |d| then Wait(sc)
    else
      var end := sc + 6 + Read16(d, sc + 4);
      if end > |d| then Wait(sc) else Skip(end, if id == 0xBC then MapCodec(d[sc..end], psm) else psm)
  }

  function LookPes(d: seq<Byte>, sc: nat, id: Byte, psm: Option<VideoCodec>): (s: Sight)
    requires sc + 4 <= |d|
    ensures s.Skip? ==> sc < s.pos <= |d| && (psm.Some? ==> s.psm.Some?)
    ensures s.Payload? ==> sc < s.pay < s.end <= |d|
    ensures s.Wait? ==> s.cursor == sc
  {
    var n := |d|;
    if sc + 9 > n then Wait(sc)
    else
      var len, flags2, hlen: nat := Read16(d, sc + 4), d[sc + 7], d[sc + 8];
      var pay: nat := sc + 9 + hlen;
      var stamped := flags2 >= 0x80;
      if pay > n || (stamped && sc + 14 > n) then Wait(sc)
      else
        var pts := if stamped then ReadPts(d[sc + 9..sc + 14]) else 0;
        if len == 0 then
          if id >= 0xE0 then Bad
          else
            match FindCode(d, pay)
            case None => Wait(sc)
            case Some(nx) => Skip(nx, psm)
        else if len < 3 + hlen then Bad
        else
          var plen: nat := len - 3 - hlen;
          var end: nat := pay + plen;
          if end > n then Wait(sc)
          else if id < 0xE0 || plen == 0 then Skip(end, psm)
          else Payload(pay, end, (d[sc + 6] as int) / 4 % 2 == 1, pts)
  }

  // ---------------------------------------------------------------- assembling

  /** emit_au: the access unit put together so far, if there is one. */
  function Emitted(a: Assembly): Result<Frame> {
    if !a.isOpen || a.au == [] then Failure(Eof)
    else
      var codec := if a.psm.Some? then a.psm.value else Sniff(a.au);
      Success(Frame(a.au, a.pts, IsKeyframe(codec, a.au), codec))
  }

  datatype Scanned = Scanned(cursor: nat, asm: Assembly, result: Result<Frame>)

  /** What a payload does: a start closes the unit before it, the rest is appended. */
  function Assembled(a: Assembly, data: seq<Byte>, start: bool, pts: int): (Assembly, Option<Result<Frame>>) {
    if start then
      (Assembly(data, pts, true, a.psm), if Emitted(a).Success? then Some(Emitted(a)) else None)
    else if !a.isOpen then (a, None)
    else if |a.au| + |data| > MAX_PAYLOAD then (a, Some(Failure(Format)))
    else (a.(au := a.au + data), None)
  }

  /** Whether a payload is taken, so that the bytes up to its end are done with. */
  predicate Taken(a: Assembly, data: seq<Byte>, start: bool) {
    start || (a.isOpen && |a.au| + |data| <= MAX_PAYLOAD)
  }

  /** The loop of next() over a buffer, from pos. */
  function Scan(d: seq<Byte>, pos: nat, cursor: nat, a: Assembly): (r: Scanned)
    requires pos <= |d| && cursor <= |d|
    ensures r.cursor <= |d|
    ensures r.result.Success? ==> 0 < r.cursor
    decreases |d| - pos
  {
    match Look(d, pos, a.psm)
    case Wait(c) => Scanned(c, a, Failure(Again))
    case Bad => Scanned(cursor, a, Failure(Format))
    case Skip(p, psm) => Scan(d, p, cursor, a.(psm := psm))
    case Payload(pay, end, start, pts) =>
      var (next, stop) := Assembled(a, d[pay..end], start, pts);
      var c := if Taken(a, d[pay..end], start) then end else cursor;
      match stop
      case Some(result) => Scanned(c, next, result)
      case None => Scan(d, end, c, next)
  }

  function NextOf(p: Ps): (Ps, Result<Frame>)
    requires p.cursor <= |p.buf|
  {
    var d := p.buf[p.cursor..];
    var r := Scan(d, 0, 0, p.asm);
    (Ps(d, r.cursor, r.asm), r.result)
  }

  function AppendOf(p: Ps, data: seq<Byte>): Option<Ps> {
    if data == [] then Some(p)
    else if |p.buf| + |data| > MAX_BUFFERED then None
    else Some(p.(buf := p.buf + data))
  }

  // ---------------------------------------------------------------- the class

  class Demux {
    var buf: seq<Byte>
    var cursor: nat
    var au: seq<Byte>
    var auPts: int
    var auOpen: bool
    var havePsm: bool
    var psmCodec: VideoCodec

    ghost function Asm(): Assembly
      reads this
    {
      Assembly(au, auPts, auOpen, if havePsm then Some(psmCodec) else None)
    }

    ghost function View(): Ps
      reads this
    {
      Ps(buf, cursor, Asm())
    }

    ghost predicate Valid()
      reads this
    {
      cursor <= |buf|
    }

    constructor ()
      ensures Valid() && View() == EMPTY_PS
    {
      buf, cursor := [], 0;
      au, auPts, auOpen := [], 0, false;
      havePsm, psmCodec := false, Hevc;
    }

    method Append(data: seq<Byte>) returns (st: Status)
      requires Valid()
      modifies this`buf
      ensures Valid()
      ensures st == if AppendOf(old(View()), data).Some? then Ok else Format
      ensures st == Ok ==> Some(View()) == AppendOf(old(View()), data)
      ensures st != Ok ==> View() == old(View())
    {
      if |data| == 0 {
        return Ok;
      }
      if |buf| + |data| > MAX_BUFFERED {
        return Format;
      }
      buf := buf + data;
      return Ok;
    }

    method EmitAu() returns (r: Result<Frame>)
      modifies this`au, this`auOpen
      ensures r == Emitted(old(Asm()))
      ensures r.Success? ==> au == [] && !auOpen
      ensures r.Failure? ==> Asm() == old(Asm())
    {
      if !auOpen || au == [] {
        return Failure(Eof);
      }
      var codec := psmCodec;
      if !havePsm {
        codec := SniffCodec(au);
      }
      var key := FindKey(codec, au);
      r := Success(Frame(au, auPts, key, codec));
      au, auOpen := [], false;
    }

    method Flush() returns (r: Result<Frame>)
      modifies this`au, this`auOpen
      ensures r == Emitted(old(Asm()))
      ensures r.Success? ==> au == [] && !auOpen
      ensures r.Failure? ==> Asm() == old(Asm())
    {
      r := EmitAu();
    }

    method TakePayload(pay: nat, end: nat, start: bool, pts: int) returns (stop: Option<Result<Frame>>)
      requires Valid() && pay <= end <= |buf|
      modifies this`au, this`auPts, this`auOpen, this`cursor
      ensures Valid() && (Asm(), stop) == Assembled(old(Asm()), buf[pay..end], start, pts)
      ensures cursor == if Taken(old(Asm()), buf[pay..end], start) then end else old(cursor)
    {
      stop := None;
      if start {
        var done := EmitAu();
        au, auPts, auOpen := buf[pay..end], pts, true;
        cursor := end;
        if done.Success? {
          return Some(done);
        }
      } else if auOpen {
        if |au| + (end - pay) > MAX_PAYLOAD {
          return Some(Failure(Format));
        }
        au := au + buf[pay..end];
        cursor := end;
      }
    }

    /** The next access unit; Again when more bytes are needed. */
    method Next() returns (r: Result<Frame>)
      requires Valid()
      modifies this
      ensures Valid() && (View(), r) == NextOf(old(View()))
    {
      if cursor > 0 {
        buf := buf[cursor..];
        cursor := 0;
      }
      r := Loop();
    }

    method Loop() returns (r: Result<Frame>)
      requires Valid() && cursor == 0
      modifies this
      ensures Valid() && buf == old(buf) && Scanned(cursor, Asm(), r) == Scan(buf, 0, 0, old(Asm()))
    {
      var pos := 0;
      while true
        invariant Valid() && pos <= |buf| && buf == old(buf)
        invariant Scan(buf, pos, cursor, Asm()) == Scan(buf, 0, 0, old(Asm()))
        decreases |buf| - pos
      {
        var s := Look(buf, pos, if havePsm then Some(psmCodec) else None);
        match s
        case Wait(c) =>
          cursor := c;
          return Failure(Again);
        case Bad =>
          return Failure(Format);
        case Skip(p, psm) =>
          if psm.Some? {
            havePsm, psmCodec := true, psm.value;
          }
          pos := p;
        case Payload(pay, end, start, pts) =>
          var stop := TakePayload(pay, end, start, pts);
          if stop.Some? {
            return stop.value;
          }
          pos := end;
      }
    }
  }

  /** One walk over the start codes, collecting whether any header byte passes. */
  method AnyNal(d: seq<Byte>, avc: bool) returns (found: bool)
    ensures found <==> exists b :: b in NalHeaders(d, 0) && if avc then AvcKey(b) else HevcKey(b)
  {
    found := false;
    ghost var seen: seq<Byte> := [];
    var i := 0;
    while i + 3 < |d|
      invariant 0 <= i && seen + NalHeaders(d, i) == NalHeaders(d, 0)
      invariant found <==> exists b :: b in seen && if avc then AvcKey(b) else HevcKey(b)
      decreases |d| - i
    {
      var hdr := CodeAt(d, i);
      if hdr == 0 {
        i := i + 1;
      } else {
        var b := d[i + hdr];
        assert seen + ([b] + NalHeaders(d, i + hdr)) == (seen + [b]) + NalHeaders(d, i + hdr);
        ghost var before := seen;
        seen := seen + [b];
        assert forall x :: x in seen <==> x in before || x == b;
        if (avc && AvcKey(b)) || (!avc && HevcKey(b)) {
          found := true;
          assert b in seen;
        }
        i := i + hdr;
      }
    }
    assert seen == NalHeaders(d, 0);
  }

  method FindKey(codec: VideoCodec, d: seq<Byte>) returns (key: bool)
    ensures key == IsKeyframe(codec, d)
  {
    key := AnyNal(d, codec.Avc?);
  }

  method SniffCodec(d: seq<Byte>) returns (codec: VideoCodec)
    ensures codec == Sniff(d)
  {
    var hevc := AnyNal(d, false);
    var avc := AnyNal(d, true);
    codec := if hevc then Hevc else if avc then Avc else Hevc;
  }
}
