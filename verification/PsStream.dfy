/** Whole streams: access units multiplexed one after the other, demultiplexed chunk by chunk. */
module PsStreams {
  import opened Words
  import opened Statuses
  import opened Chunks
  import opened PsBits
  import opened PsMux
  import opened PsDemux
  import opened PsRoundTrip

  // ---------------------------------------------------------------- draining and feeding

  /** next() until it has nothing more to give. */
  function DrainPs(p: Ps): (r: (Ps, seq<Frame>, Status))
    requires p.cursor <= |p.buf|
    ensures r.0.cursor <= |r.0.buf|
    decreases |p.buf| - p.cursor
  {
    match NextOf(p)
    case (q, Failure(status)) => (q, [], status)
    case (q, Success(f)) =>
      var (q', fs, status) := DrainPs(q);
      (q', [f] + fs, status)
  }

  /** append() takes every chunk, draining after each. */
  predicate Accepted(p: Ps, chunks: seq<seq<Byte>>)
    requires p.cursor <= |p.buf|
    decreases |chunks|
  {
    chunks != [] ==>
      AppendOf(p, chunks[0]).Some? && Accepted(DrainPs(AppendOf(p, chunks[0]).value).0, chunks[1..])
  }

  function FeedPs(p: Ps, chunks: seq<seq<Byte>>): (r: (Ps, seq<Frame>))
    requires p.cursor <= |p.buf| && Accepted(p, chunks)
    decreases |chunks|
  {
    if chunks == [] then (p, [])
    else
      var (q, fs, _) := DrainPs(AppendOf(p, chunks[0]).value);
      var (q', more) := FeedPs(q, chunks[1..]);
      (q', fs + more)
  }

  function FlushOf(a: Assembly): seq<Frame> {
    if Emitted(a).Success? then [Emitted(a).value] else []
  }

  lemma LeadAll(t: seq<Byte>, ls: seq<Link>)
    requires Lead(t, ls)
    ensures AllLead(t, ls)
  {
    forall k: nat | k <= |t| ensures Lead(t[k..], ls) {
      if Quiet(t) {
        QuietSuffix(t, k);
      } else if k == 0 {
        assert t[0..] == t;
      } else {
        ShortQuiet(t[k..]);
      }
    }
  }

  /** One call of next(). */
  lemma NextGood(p: Ps, todo: seq<Byte>, t: seq<Byte>, ls: seq<Link>, fs: seq<Frame>, fin: Assembly)
    returns (t': seq<Byte>, ls': seq<Link>)
    requires p.cursor <= |p.buf| && Splits(p.buf[p.cursor..] + todo, t, ls, p.asm, fs, fin)
    ensures var (q, r) := NextOf(p);
            && q.cursor <= |q.buf| == |p.buf| - p.cursor
            && (r.Failure? ==>
                  r.status == Again && Splits(q.buf[q.cursor..] + todo, t', ls', q.asm, fs, fin)
                  && (todo == [] ==> ls' == []) && |q.buf| < q.cursor + UNIT_LIMIT)
            && (r.Success? ==>
                  fs != [] && fs[0] == r.value && Splits(q.buf[q.cursor..] + todo, t', ls', q.asm, fs[1..], fin))
  {
    var d := p.buf[p.cursor..];
    assert (d + todo)[0..] == d + todo;
    LeadAll(t, ls);
    t', ls' := ScanGood(d, todo, 0, 0, p.asm, t, ls, t, ls, fs, fin);
    var c := Scan(d, 0, 0, p.asm).cursor;
    assert (d + todo)[c..] == d[c..] + todo;
  }

  lemma DrainUnfolds(p: Ps, q: Ps, r: Result<Frame>)
    requires p.cursor <= |p.buf| && NextOf(p) == (q, r)
    ensures q.cursor <= |q.buf|
    ensures r.Success? ==> |q.buf| - q.cursor < |p.buf| - p.cursor
    ensures r.Success? ==> DrainPs(p) == (DrainPs(q).0, [r.value] + DrainPs(q).1, DrainPs(q).2)
    ensures r.Failure? ==> DrainPs(p) == (q, [], r.status)
  {
  }

  lemma PrefixStep(f: Frame, gs: seq<Frame>, fs: seq<Frame>)
    requires fs != [] && fs[0] == f && gs <= fs[1..]
    ensures [f] + gs <= fs && fs[|[f] + gs|..] == fs[1..][|gs|..]
  {
    assert fs == [f] + fs[1..];
  }

  lemma {:induction false} DrainGood(p: Ps, todo: seq<Byte>, t: seq<Byte>, ls: seq<Link>, fs: seq<Frame>, fin: Assembly)
    returns (t': seq<Byte>, ls': seq<Link>)
    requires p.cursor <= |p.buf| && Splits(p.buf[p.cursor..] + todo, t, ls, p.asm, fs, fin)
    ensures var (q, gs, status) := DrainPs(p);
            && status == Again && gs <= fs
            && Splits(q.buf[q.cursor..] + todo, t', ls', q.asm, fs[|gs|..], fin)
            && (todo == [] ==> ls' == [])
            && |q.buf| < q.cursor + UNIT_LIMIT && |q.buf| <= |p.buf| - p.cursor
    decreases |p.buf| - p.cursor
  {
    t', ls' := NextGood(p, todo, t, ls, fs, fin);
    var (q, r) := NextOf(p);
    DrainUnfolds(p, q, r);
    if r.Success? {
      t', ls' := DrainGood(q, todo, t', ls', fs[1..], fin);
      PrefixStep(r.value, DrainPs(q).1, fs);
    } else {
      assert fs[0..] == fs;
    }
  }

  lemma AppendKeeps(p: Ps, c: seq<Byte>, todo: seq<Byte>)
    requires p.cursor <= |p.buf| && AppendOf(p, c).Some?
    ensures var q := AppendOf(p, c).value;
            q.cursor <= |q.buf| && q.asm == p.asm && q.buf[q.cursor..] + todo == p.buf[p.cursor..] + (c + todo)
  {
    assert (p.buf + c)[p.cursor..] == p.buf[p.cursor..] + c;
    if c == [] { assert p.buf + c == p.buf; }
  }

  lemma FeedUnfolds(p: Ps, chunks: seq<seq<Byte>>)
    requires p.cursor <= |p.buf| && Accepted(p, chunks) && chunks != []
    ensures var (q, gs, _) := DrainPs(AppendOf(p, chunks[0]).value);
            Accepted(q, chunks[1..])
            && FeedPs(p, chunks) == (FeedPs(q, chunks[1..]).0, gs + FeedPs(q, chunks[1..]).1)
  {
  }

  lemma {:induction false} FeedGood(p: Ps, chunks: seq<seq<Byte>>, t: seq<Byte>, ls: seq<Link>, fs: seq<Frame>, fin: Assembly)
    requires p.cursor <= |p.buf| && Accepted(p, chunks)
    requires Splits(p.buf[p.cursor..] + Joined(chunks), t, ls, p.asm, fs, fin) && (chunks == [] ==> ls == [])
    ensures FeedPs(p, chunks).1 == fs && FeedPs(p, chunks).0.asm == fin
    decreases |chunks|
  {
    if chunks != [] {
      FeedUnfolds(p, chunks);
      var p' := AppendOf(p, chunks[0]).value;
      var t', ls' := ChunkGood(p, chunks, t, ls, fs, fin);
      var (q, gs, _) := DrainPs(p');
      FeedGood(q, chunks[1..], t', ls', fs[|gs|..], fin);
      PrefixWhole(gs, fs);
    }
  }

  lemma PrefixWhole(gs: seq<Frame>, fs: seq<Frame>)
    requires gs <= fs
    ensures gs + fs[|gs|..] == fs
  {
  }

  /** One chunk appended and drained. */
  lemma ChunkGood(p: Ps, chunks: seq<seq<Byte>>, t: seq<Byte>, ls: seq<Link>, fs: seq<Frame>, fin: Assembly)
    returns (t': seq<Byte>, ls': seq<Link>)
    requires p.cursor <= |p.buf| && chunks != [] && AppendOf(p, chunks[0]).Some?
    requires Splits(p.buf[p.cursor..] + Joined(chunks), t, ls, p.asm, fs, fin)
    ensures var p' := AppendOf(p, chunks[0]).value;
            && p'.cursor <= |p'.buf|
            && var (q, gs, _) := DrainPs(p');
               gs <= fs && Splits(q.buf[q.cursor..] + Joined(chunks[1..]), t', ls', q.asm, fs[|gs|..], fin)
               && (chunks[1..] == [] ==> ls' == [])
  {
    var c, rest := chunks[0], chunks[1..];
    AppendKeeps(p, c, Joined(rest));
    t', ls' := DrainGood(AppendOf(p, c).value, Joined(rest), t, ls, fs, fin);
    if rest == [] { assert Joined(rest) == []; }
  }

  // ---------------------------------------------------------------- the units of a stream

  function Linked(us: seq<Unit>): seq<Link> {
    seq(|us|, i requires 0 <= i < |us| => Link(UnitBytes(us[i]), us[i]))
  }

  lemma NoUnits()
    ensures UnitsBytes([]) == []
  {
  }

  lemma {:induction false} LinkedBytes(us: seq<Unit>)
    ensures LinkBytes(Linked(us)) == UnitsBytes(us)
  {
    hide UnitBytes, UnitsBytes;
    if us != [] {
      LinkedBytes(us[1..]);
      UnitsFirst(us);
      assert Linked(us)[1..] == Linked(us[1..]);
    } else {
      NoUnits();
    }
  }

  lemma LinkedPrinted(us: seq<Unit>)
    ensures AllPrinted(Linked(us))
  {
    forall k | 0 <= k < |us| ensures Printed(Linked(us)[k]) {
    }
  }

  function StreamUnits(aus: seq<Access>): seq<Unit> {
    if aus == [] then [] else Fragments(aus[0], 0) + StreamUnits(aus[1..])
  }

  /** The multiplexer's outputs, one after the other. */
  function StreamBytes(aus: seq<Access>): seq<Byte>
    requires forall k :: 0 <= k < |aus| ==> AccessOk(aus[k])
  {
    if aus == [] then [] else assert AccessOk(aus[0]); Muxed(aus[0]).value + StreamBytes(aus[1..])
  }

  lemma {:induction false} StreamBytesAre(aus: seq<Access>)
    requires forall k :: 0 <= k < |aus| ==> AccessOk(aus[k])
    ensures StreamBytes(aus) == UnitsBytes(StreamUnits(aus))
  {
    if aus != [] {
      assert AccessOk(aus[0]);
      StreamBytesAre(aus[1..]);
      UnitsAppend(Fragments(aus[0], 0), StreamUnits(aus[1..]));
    }
  }

  // ---------------------------------------------------------------- what the units deliver

  /** The program map after an access unit's tables. */
  function MapAfter(psm: Option<VideoCodec>, a: Access): Option<VideoCodec> {
    if a.keyframe then Some(a.codec) else psm
  }

  /** An access unit fully assembled. */
  function Whole(a: Access, psm: Option<VideoCodec>): Assembly {
    Assembly(a.data, Clock(a.pts), true, psm)
  }

  /** Frames handed over while the access units come in, and the assembly they leave. */
  function Handed(asm: Assembly, aus: seq<Access>): seq<Frame>
    decreases |aus|
  {
    if aus == [] then []
    else
      var psm := MapAfter(asm.psm, aus[0]);
      FlushOf(asm.(psm := psm)) + Handed(Whole(aus[0], psm), aus[1..])
  }

  function Left(asm: Assembly, aus: seq<Access>): Assembly
    decreases |aus|
  {
    if aus == [] then asm else Left(Whole(aus[0], MapAfter(asm.psm, aus[0])), aus[1..])
  }

  lemma Step(l: Link, ls: seq<Link>, a: Assembly, fs: seq<Frame>, fin: Assembly)
    requires Fits(a, l.unit) && !l.unit.Head? && Delivers(ls, After(a, l.unit), fs, fin)
    requires (l.unit.More? ==> ls == [] || ls[0].unit.Pack?)
    ensures Delivers([l] + ls, a, fs, fin)
  {
    assert ([l] + ls)[1..] == ls && fs[0..] == fs;
  }

  lemma HeadStep(l: Link, ls: seq<Link>, a: Assembly, fs: seq<Frame>, fin: Assembly)
    requires l.unit.Head? && Delivers(ls, After(a, l.unit), fs, fin) && (ls == [] || ls[0].unit.Pack?)
    ensures Delivers([l] + ls, a, FlushOf(a) + fs, fin)
  {
    assert ([l] + ls)[1..] == ls && (FlushOf(a) + fs)[|FlushOf(a)|..] == fs;
  }

  lemma LinkedAppend(us: seq<Unit>, vs: seq<Unit>)
    ensures Linked(us + vs) == Linked(us) + Linked(vs)
  {
  }

  lemma LinkedUnit(us: seq<Unit>, i: nat)
    requires i < |us|
    ensures |Linked(us)| == |us| && Linked(us)[i].unit == us[i]
  {
  }

  /** A pack and a continuation packet. */
  lemma MoreStep(l: seq<Link>, data: seq<Byte>, rest: seq<Link>, asm: Assembly, fs: seq<Frame>, fin: Assembly)
    requires |l| == 2 && l[0].unit.Pack? && l[1].unit.More? && l[1].unit.data == data
    requires asm.isOpen && |asm.au| + |data| <= MAX_PAYLOAD && (rest == [] || rest[0].unit.Pack?)
    requires Delivers(rest, asm.(au := asm.au + data), fs, fin)
    ensures Delivers(l + rest, asm, fs, fin)
  {
    Step(l[1], rest, asm, fs, fin);
    Step(l[0], [l[1]] + rest, asm, fs, fin);
    assert l + rest == [l[0]] + ([l[1]] + rest);
  }

  lemma FragmentsStart(a: Access, off: nat)
    requires off < |a.data|
    ensures Fragments(a, off) != [] && Fragments(a, off)[0].Pack?
  {
  }

  lemma StartsWithPack(a: Access, off: nat, ls: seq<Link>)
    requires off <= |a.data| && (ls == [] || ls[0].unit.Pack?)
    ensures var all := Linked(Fragments(a, off)) + ls; all == [] || all[0].unit.Pack?
  {
    if off < |a.data| {
      FragmentsStart(a, off);
      assert Linked(Fragments(a, off))[0].unit == Fragments(a, off)[0];
    }
  }

  lemma LinkedThree(front: seq<Unit>, last: Unit, us: seq<Unit>, ls: seq<Link>)
    returns (h: Link)
    ensures h.unit == last
    ensures Linked(front + [last] + us) + ls == Linked(front) + ([h] + (Linked(us) + ls))
  {
    LinkedUnit([last], 0);
    h := Linked([last])[0];
    LinkedAppend(front, [last]);
    LinkedAppend(front + [last], us);
    assert Linked([last]) == [h];
    Regroup(Linked(front), h, Linked(us), ls);
  }

  lemma LinkedPair(pack: Unit, more: Unit, us: seq<Unit>, ls: seq<Link>)
    returns (l: seq<Link>)
    ensures |l| == 2 && l[0].unit == pack && l[1].unit == more
    ensures Linked([pack] + [more] + us) + ls == l + (Linked(us) + ls)
  {
    var h := LinkedThree([pack], more, us, ls);
    LinkedUnit([pack], 0);
    l := Linked([pack]) + [h];
    assert Linked([pack]) + ([h] + (Linked(us) + ls)) == l + (Linked(us) + ls);
  }

  lemma Regroup(a: seq<Link>, h: Link, b: seq<Link>, ls: seq<Link>)
    ensures a + [h] + b + ls == a + ([h] + (b + ls))
  {
  }

  lemma PassUnits(a: Access, off: nat, pack: Unit, more: Unit, us: seq<Unit>)
    requires 0 < off < |a.data| && pack == Pack(Clock(a.pts), Rate(a)) && more == More(a.data[off..off + ChunkAt(a, off)])
    requires us == Fragments(a, off + ChunkAt(a, off))
    ensures Fragments(a, off) == [pack] + [more] + us
  {
    assert Fragment(a, off) == [pack] + [more];
  }

  /** One pass after the first, as links. */
  lemma ContinuationLinks(a: Access, off: nat, ls: seq<Link>)
    returns (l: seq<Link>, rest: seq<Link>)
    requires 0 < off < |a.data| && (ls == [] || ls[0].unit.Pack?)
    ensures |l| == 2 && l[0].unit.Pack? && l[1].unit == More(a.data[off..off + ChunkAt(a, off)])
    ensures rest == Linked(Fragments(a, off + ChunkAt(a, off))) + ls && (rest == [] || rest[0].unit.Pack?)
    ensures Linked(Fragments(a, off)) + ls == l + rest
  {
    var n := ChunkAt(a, off);
    var pack: Unit, more: Unit := Pack(Clock(a.pts), Rate(a)), More(a.data[off..off + n]);
    PassUnits(a, off, pack, more, Fragments(a, off + n));
    rest := Linked(Fragments(a, off + n)) + ls;
    StartsWithPack(a, off + n, ls);
    l := LinkedPair(pack, more, Fragments(a, off + n), ls);
  }

  lemma NothingMore(a: Access, ls: seq<Link>)
    ensures a.data[..|a.data|] == a.data && Linked(Fragments(a, |a.data|)) + ls == ls
  {
  }

  lemma NextSlice(a: Access, off: nat)
    requires off < |a.data|
    ensures a.data[..off] + a.data[off..off + ChunkAt(a, off)] == a.data[..off + ChunkAt(a, off)]
  {
  }

  /** The access unit as far as off. */
  function Partial(a: Access, off: nat, psm: Option<VideoCodec>): Assembly
    requires off <= |a.data|
  {
    Whole(a, psm).(au := a.data[..off])
  }

  lemma PartialGrows(a: Access, off: nat, psm: Option<VideoCodec>)
    requires AccessOk(a) && off < |a.data|
    ensures var x, data := Partial(a, off, psm), a.data[off..off + ChunkAt(a, off)];
            x.isOpen && |x.au| + |data| <= MAX_PAYLOAD
            && x.(au := x.au + data) == Partial(a, off + ChunkAt(a, off), psm)
  {
    NextSlice(a, off);
  }

  /** The continuation packets complete the access unit. */
  lemma {:induction false} MoreDeliver(a: Access, off: nat, psm: Option<VideoCodec>, ls: seq<Link>, fs: seq<Frame>, fin: Assembly)
    requires AccessOk(a) && 0 < off <= |a.data|
    requires Delivers(ls, Whole(a, psm), fs, fin) && (ls == [] || ls[0].unit.Pack?)
    ensures Delivers(Linked(Fragments(a, off)) + ls, Partial(a, off, psm), fs, fin)
    decreases |a.data| - off
  {
    if off == |a.data| {
      NothingMore(a, ls);
    } else {
      var l, rest := ContinuationLinks(a, off, ls);
      MoreDeliver(a, off + ChunkAt(a, off), psm, ls, fs, fin);
      MorePass(a, off, psm, l, rest, fs, fin);
    }
  }

  lemma MorePass(a: Access, off: nat, psm: Option<VideoCodec>, l: seq<Link>, rest: seq<Link>, fs: seq<Frame>, fin: Assembly)
    requires AccessOk(a) && 0 < off < |a.data| && (rest == [] || rest[0].unit.Pack?)
    requires |l| == 2 && l[0].unit.Pack? && l[1].unit == More(a.data[off..off + ChunkAt(a, off)])
    requires Delivers(rest, Partial(a, off + ChunkAt(a, off), psm), fs, fin)
    ensures Delivers(l + rest, Partial(a, off, psm), fs, fin)
  {
    PartialGrows(a, off, psm);
    MoreStep(l, a.data[off..off + ChunkAt(a, off)], rest, Partial(a, off, psm), fs, fin);
  }

  function Front(a: Access): seq<Unit> {
    [Pack(Clock(a.pts), Rate(a))] + if a.keyframe then [System(Rate(a)), Map(a.codec)] else []
  }

  lemma FrontLinks(a: Access)
    ensures var l := Linked(Front(a));
            if a.keyframe then |l| == 3 && l[0].unit.Pack? && l[1].unit.System? && l[2].unit == Map(a.codec)
            else |l| == 1 && l[0].unit.Pack?
  {
    LinkedUnit(Front(a), 0);
    if a.keyframe {
      LinkedUnit(Front(a), 1);
      LinkedUnit(Front(a), 2);
    }
  }

  /** The first pass: a pack, the tables ahead of a key frame, and the head, which hands over what was before. */
  lemma FirstLinks(a: Access, ls: seq<Link>)
    returns (h: Link, rest: seq<Link>)
    requires AccessOk(a) && (ls == [] || ls[0].unit.Pack?)
    ensures h.unit == Head(Clock(a.pts), a.data[..ChunkAt(a, 0)])
    ensures rest == Linked(Fragments(a, ChunkAt(a, 0))) + ls && (rest == [] || rest[0].unit.Pack?)
    ensures Linked(Fragments(a, 0)) + ls == Linked(Front(a)) + ([h] + rest)
  {
    var n := ChunkAt(a, 0);
    assert a.data[0..n] == a.data[..n];
    var us := Fragments(a, n);
    assert Fragment(a, 0) == Front(a) + [Head(Clock(a.pts), a.data[..n])];
    rest := Linked(us) + ls;
    StartsWithPack(a, n, ls);
    h := LinkedThree(Front(a), Head(Clock(a.pts), a.data[..n]), us, ls);
  }

  lemma FrontStep(l: seq<Link>, a: Access, rest: seq<Link>, asm: Assembly, fs: seq<Frame>, fin: Assembly)
    requires if a.keyframe then |l| == 3 && l[0].unit.Pack? && l[1].unit.System? && l[2].unit == Map(a.codec)
             else |l| == 1 && l[0].unit.Pack?
    requires Delivers(rest, asm.(psm := MapAfter(asm.psm, a)), fs, fin)
    ensures Delivers(l + rest, asm, fs, fin)
  {
    if a.keyframe {
      Step(l[2], rest, asm, fs, fin);
      Step(l[1], [l[2]] + rest, asm, fs, fin);
      Step(l[0], [l[1]] + ([l[2]] + rest), asm, fs, fin);
      assert l + rest == [l[0]] + ([l[1]] + ([l[2]] + rest));
    } else {
      Step(l[0], rest, asm, fs, fin);
      assert l + rest == [l[0]] + rest;
      assert asm.(psm := asm.psm) == asm;
    }
  }

  /** One access unit: what was open is handed over under the new map, and this one is left whole. */
  lemma AccessDelivers(a: Access, asm: Assembly, ls: seq<Link>, fs: seq<Frame>, fin: Assembly)
    requires AccessOk(a) && (ls == [] || ls[0].unit.Pack?)
    requires Delivers(ls, Whole(a, MapAfter(asm.psm, a)), fs, fin)
    ensures Delivers(Linked(Fragments(a, 0)) + ls, asm, FlushOf(asm.(psm := MapAfter(asm.psm, a))) + fs, fin)
  {
    var n := ChunkAt(a, 0);
    var x := asm.(psm := MapAfter(asm.psm, a));
    var h, rest := FirstLinks(a, ls);
    FrontLinks(a);
    MoreDeliver(a, n, x.psm, ls, fs, fin);
    HeadStep(h, rest, x, fs, fin);
    FrontStep(Linked(Front(a)), a, [h] + rest, asm, FlushOf(x) + fs, fin);
  }

  lemma {:induction false} StreamDelivers(aus: seq<Access>, asm: Assembly)
    requires forall k :: 0 <= k < |aus| ==> AccessOk(aus[k])
    ensures Delivers(Linked(StreamUnits(aus)), asm, Handed(asm, aus), Left(asm, aus))
    ensures aus != [] ==> StreamUnits(aus) != [] && StreamUnits(aus)[0].Pack?
    decreases |aus|
  {
    if aus != [] {
      var a, rest := aus[0], aus[1..];
      assert AccessOk(a);
      var y := Whole(a, MapAfter(asm.psm, a));
      StreamDelivers(rest, y);
      var ls := Linked(StreamUnits(rest));
      if rest != [] { assert ls[0].unit == StreamUnits(rest)[0]; }
      AccessDelivers(a, asm, ls, Handed(y, rest), Left(y, rest));
      LinkedAppend(Fragments(a, 0), StreamUnits(rest));
      FragmentsStart(a, 0);
    }
  }

  // ---------------------------------------------------------------- what a frame must be

  /** A time stamp as it must come out: 0 for a negative one, otherwise the same modulo 2^33. */
  predicate Stamped(pts: int, pts90: int) {
    && 0 <= pts90 < 0x2_0000_0000
    && (pts < 0 ==> pts90 == 0)
    && (0 <= pts < 0x2_0000_0000 ==> pts90 == pts)
    && (pts >= 0 ==> (pts - pts90) % 0x2_0000_0000 == 0)
  }

  /** At i there is a start code and behind it a parameter set or a random access slice. */
  predicate KeyNalAt(codec: VideoCodec, d: seq<Byte>, i: nat)
    requires i + 3 < |d|
  {
    && d[i] == 0 && d[i + 1] == 0 && d[i + 2] == 1
    && if codec.Avc? then d[i + 3] % 32 == 5 || d[i + 3] % 32 == 7
       else d[i + 3] / 2 % 64 == 19 || d[i + 3] / 2 % 64 == 20 || d[i + 3] / 2 % 64 == 32
  }

  predicate HasKeyNal(codec: VideoCodec, d: seq<Byte>) {
    exists i: nat :: i + 3 < |d| && KeyNalAt(codec, d, i)
  }

  /** Of the first m access units the j-th is the last key frame. */
  predicate LastKey(aus: seq<Access>, m: nat, j: nat)
    requires m <= |aus|
  {
    j < m && aus[j].keyframe && forall i :: j < i < m ==> !aus[i].keyframe
  }

  /**
   * What must come out for the k-th access unit: its bytes and its time stamp; the codec of the last key
   * frame, the next access unit counted in, or a guess while there was none; and whether the bytes hold a
   * unit of a key frame in that codec.
   */
  predicate RightFrame(aus: seq<Access>, k: nat, f: Frame)
    requires k < |aus|
  {
    var d, m := aus[k].data, if k + 2 <= |aus| then k + 2 else |aus|;
    && f.annexb == d && Stamped(aus[k].pts, f.pts90)
    && ((exists j :: 0 <= j < m && aus[j].keyframe) ==> exists j: nat :: j < m && LastKey(aus, m, j) && f.codec == aus[j].codec)
    && ((forall j :: 0 <= j < m ==> !aus[j].keyframe) ==>
          f.codec == if HasKeyNal(Hevc, d) then Hevc else if HasKeyNal(Avc, d) then Avc else Hevc)
    && (f.keyframe <==> HasKeyNal(f.codec, d))
  }

  /** The walk over the start codes, which steps over three or four bytes at a time, misses none of them. */
  lemma {:induction false} WalkFindsAll(d: seq<Byte>, from: nat, b: Byte)
    ensures b in NalHeaders(d, from)
            <==> exists i: nat :: from <= i && i + 3 < |d| && CodeHere(d, i) && d[i + 3] == b
    decreases |d| - from
  {
    if from + 3 < |d| {
      var n := CodeAt(d, from);
      CodeAtIs(d, from);
      WalkFindsAll(d, if n == 0 then from + 1 else from + n, b);
      if i: nat :| from <= i && i + 3 < |d| && CodeHere(d, i) && d[i + 3] == b {
        assert n == 0 ==> i > from;
        assert n > 0 ==> i == from + n - 3 || i >= from + n;
      }
    }
  }

  lemma CodeAtIs(d: seq<Byte>, i: nat)
    requires i + 3 < |d|
    ensures CodeAt(d, i) == 3 <==> CodeHere(d, i)
    ensures CodeAt(d, i) == 4 ==> CodeHere(d, i + 1) && d[i] == 0 && i + 4 < |d|
    ensures CodeAt(d, i) in {0, 3, 4} && (CodeAt(d, i) == 0 ==> !CodeHere(d, i))
  {
    assert d[i..i + 3] == [d[i], d[i + 1], d[i + 2]];
    if i + 4 < |d| { assert d[i..i + 4] == [d[i], d[i + 1], d[i + 2], d[i + 3]]; }
  }

  lemma KeyFound(codec: VideoCodec, d: seq<Byte>)
    ensures (exists b :: b in NalHeaders(d, 0) && if codec.Avc? then AvcKey(b) else HevcKey(b)) <==> HasKeyNal(codec, d)
  {
    if b :| b in NalHeaders(d, 0) && if codec.Avc? then AvcKey(b) else HevcKey(b) {
      WalkFindsAll(d, 0, b);
      var i: nat :| i + 3 < |d| && CodeHere(d, i) && d[i + 3] == b;
      assert KeyNalAt(codec, d, i);
    }
    if i: nat :| i + 3 < |d| && KeyNalAt(codec, d, i) {
      assert CodeHere(d, i);
      WalkFindsAll(d, 0, d[i + 3]);
    }
  }

  lemma {:induction false} MapSeenIs(aus: seq<Access>, m: nat)
    requires m <= |aus|
    ensures MapSeen(aus, m) == None <==> forall j :: 0 <= j < m ==> !aus[j].keyframe
    ensures MapSeen(aus, m) != None ==> exists j: nat :: j < m && LastKey(aus, m, j) && MapSeen(aus, m) == Some(aus[j].codec)
  {
    if m > 0 {
      MapSeenIs(aus, m - 1);
      if aus[m - 1].keyframe {
        assert LastKey(aus, m, m - 1);
      } else if MapSeen(aus, m - 1) != None {
        var j: nat :| j < m - 1 && LastKey(aus, m - 1, j) && MapSeen(aus, m - 1) == Some(aus[j].codec);
        assert LastKey(aus, m, j);
      }
    }
  }

  lemma CodecIsRight(aus: seq<Access>, k: nat, m: nat)
    requires k < |aus| && m <= |aus|
    ensures var codec, d := FrameWith(aus[k], MapSeen(aus, m)).codec, aus[k].data;
            && ((exists j :: 0 <= j < m && aus[j].keyframe) ==> exists j: nat :: j < m && LastKey(aus, m, j) && codec == aus[j].codec)
            && ((forall j :: 0 <= j < m ==> !aus[j].keyframe) ==>
                  codec == if HasKeyNal(Hevc, d) then Hevc else if HasKeyNal(Avc, d) then Avc else Hevc)
  {
    MapSeenIs(aus, m);
    KeyFound(Avc, aus[k].data);
    KeyFound(Hevc, aus[k].data);
    hide MapSeen, HasKeyNal, NalHeaders;
  }

  lemma KeyframeIs(codec: VideoCodec, d: seq<Byte>)
    ensures IsKeyframe(codec, d) == HasKeyNal(codec, d)
  {
    KeyFound(codec, d);
  }

  lemma KeyIsRight(a: Access, psm: Option<VideoCodec>)
    ensures var f := FrameWith(a, psm);
            f.annexb == a.data && Stamped(a.pts, f.pts90) && (f.keyframe <==> HasKeyNal(f.codec, a.data))
  {
    KeyframeIs(FrameWith(a, psm).codec, a.data);
    hide HasKeyNal, IsKeyframe, Sniff;
  }

  lemma FrameIsRight(aus: seq<Access>, k: nat)
    requires k < |aus|
    ensures RightFrame(aus, k, FrameOf(aus, k))
  {
    var m := if k + 2 <= |aus| then k + 2 else |aus|;
    CodecIsRight(aus, k, m);
    KeyIsRight(aus[k], MapSeen(aus, m));
    hide FrameWith, MapSeen, HasKeyNal, Stamped, LastKey;
  }

  // ---------------------------------------------------------------- the round trip

  /** The program map in force after the tables of the first n access units. */
  function MapSeen(aus: seq<Access>, n: nat): Option<VideoCodec>
    requires n <= |aus|
  {
    if n == 0 then None else MapAfter(MapSeen(aus, n - 1), aus[n - 1])
  }

  /** What comes out for an access unit that is handed over under a map; without one the codec is guessed. */
  function FrameWith(a: Access, psm: Option<VideoCodec>): Frame {
    var codec := if psm.Some? then psm.value else Sniff(a.data);
    Frame(a.data, Clock(a.pts), IsKeyframe(codec, a.data), codec)
  }

  lemma FlushWhole(a: Access, psm: Option<VideoCodec>)
    requires AccessOk(a)
    ensures FlushOf(Whole(a, psm)) == [FrameWith(a, psm)]
  {
  }

  /**
   * What comes out for the k-th access unit. It is handed over when the next one starts, after that
   * one's tables, so a change of codec shows one unit early.
   */
  function FrameOf(aus: seq<Access>, k: nat): Frame
    requires k < |aus|
  {
    FrameWith(aus[k], MapSeen(aus, if k + 2 <= |aus| then k + 2 else |aus|))
  }

  function FramesFrom(aus: seq<Access>, k: nat): (fs: seq<Frame>)
    requires k <= |aus|
    ensures |fs| == |aus| - k && forall i :: 0 <= i < |fs| ==> fs[i] == FrameOf(aus, k + i)
    decreases |aus| - k
  {
    if k == |aus| then [] else [FrameOf(aus, k)] + FramesFrom(aus, k + 1)
  }

  /** The assembly after n access units. */
  function Held(aus: seq<Access>, n: nat): Assembly
    requires n <= |aus|
  {
    if n == 0 then EMPTY_PS.asm else Whole(aus[n - 1], MapSeen(aus, n))
  }

  /** Handing over what is held, once the next unit's tables are in. */
  lemma FlushHeld(aus: seq<Access>, n: nat)
    requires n <= |aus| && forall k :: 0 <= k < |aus| ==> AccessOk(aus[k])
    ensures n < |aus| ==>
              FlushOf(Held(aus, n).(psm := MapSeen(aus, n + 1))) == if n == 0 then [] else [FrameOf(aus, n - 1)]
    ensures n == |aus| ==> FlushOf(Held(aus, n)) == if n == 0 then [] else [FrameOf(aus, n - 1)]
    ensures n < |aus| ==> MapAfter(Held(aus, n).psm, aus[n]) == MapSeen(aus, n + 1)
  {
    if n > 0 {
      assert AccessOk(aus[n - 1]);
      FlushWhole(aus[n - 1], MapSeen(aus, if n < |aus| then n + 1 else n));
    }
  }

  /** All that comes out from the n-th access unit on, the flush included. */
  function Output(aus: seq<Access>, n: nat): seq<Frame>
    requires n <= |aus|
  {
    Handed(Held(aus, n), aus[n..]) + FlushOf(Left(Held(aus, n), aus[n..]))
  }

  lemma OutputStep(aus: seq<Access>, n: nat)
    requires n < |aus| && MapAfter(Held(aus, n).psm, aus[n]) == MapSeen(aus, n + 1)
    ensures Output(aus, n) == FlushOf(Held(aus, n).(psm := MapSeen(aus, n + 1))) + Output(aus, n + 1)
  {
    assert aus[n..][0] == aus[n] && aus[n..][1..] == aus[n + 1..];
  }

  lemma OutputEnd(aus: seq<Access>)
    ensures Output(aus, |aus|) == FlushOf(Held(aus, |aus|))
  {
    assert aus[|aus|..] == [];
  }

  lemma {:induction false} OutputFrames(aus: seq<Access>, n: nat)
    requires n <= |aus| && forall k :: 0 <= k < |aus| ==> AccessOk(aus[k])
    ensures Output(aus, n) == FramesFrom(aus, if n == 0 then 0 else n - 1)
    decreases |aus| - n
  {
    FlushHeld(aus, n);
    if n == |aus| {
      OutputEnd(aus);
    } else {
      OutputFrames(aus, n + 1);
      OutputStep(aus, n);
    }
  }

  /**
   * The program stream round trip: the outputs of the multiplexer for any access units, cut into any
   * chunks that append accepts, give back the same byte strings in order, each with its time stamp as
   * the stream carries it.
   */
  lemma ProgramStreamRoundTrip(aus: seq<Access>, chunks: seq<seq<Byte>>)
    requires forall k :: 0 <= k < |aus| ==> AccessOk(aus[k])
    requires Joined(chunks) == StreamBytes(aus) && Accepted(EMPTY_PS, chunks)
    ensures var (p, fs) := FeedPs(EMPTY_PS, chunks);
            var frames := fs + FlushOf(p.asm);
            |frames| == |aus| && forall k :: 0 <= k < |aus| ==> frames[k] == FrameOf(aus, k) && RightFrame(aus, k, frames[k])
  {
    var asm := EMPTY_PS.asm;
    var ls := Linked(StreamUnits(aus));
    StreamSplits(aus, asm);
    assert EMPTY_PS.buf[EMPTY_PS.cursor..] + Joined(chunks) == Joined(chunks);
    if chunks == [] { assert Joined(chunks) == []; }
    FeedGood(EMPTY_PS, chunks, [], ls, Handed(asm, aus), Left(asm, aus));
    OutputFrames(aus, 0);
    assert aus[0..] == aus;
    forall k | 0 <= k < |aus| ensures RightFrame(aus, k, FrameOf(aus, k)) {
      FrameIsRight(aus, k);
    }
  }

  /** Half of what append will hold. */
  const CHUNK_LIMIT: nat := MAX_PAYLOAD / 2

  /** A drained buffer waits for at most one unit, so that append always has room for a chunk of this size. */
  lemma {:induction false} SmallChunksAccepted(p: Ps, chunks: seq<seq<Byte>>, t: seq<Byte>, ls: seq<Link>,
                                               fs: seq<Frame>, fin: Assembly)
    requires p.cursor <= |p.buf| < p.cursor + UNIT_LIMIT && |p.buf| < UNIT_LIMIT + CHUNK_LIMIT
    requires Splits(p.buf[p.cursor..] + Joined(chunks), t, ls, p.asm, fs, fin)
    requires forall k :: 0 <= k < |chunks| ==> |chunks[k]| <= CHUNK_LIMIT
    ensures Accepted(p, chunks)
    decreases |chunks|
  {
    if chunks != [] {
      var c, rest := chunks[0], chunks[1..];
      assert AppendOf(p, c).Some?;
      AppendKeeps(p, c, Joined(rest));
      var p' := AppendOf(p, c).value;
      var t', ls' := DrainGood(p', Joined(rest), t, ls, fs, fin);
      var (q, gs, _) := DrainPs(p');
      SmallChunksAccepted(q, rest, t', ls', fs[|gs|..], fin);
    }
  }

  /** The round trip holds for every cut into chunks of at most 32 MiB: append takes each of them. */
  lemma SmallChunksRoundTrip(aus: seq<Access>, chunks: seq<seq<Byte>>)
    requires forall k :: 0 <= k < |aus| ==> AccessOk(aus[k])
    requires Joined(chunks) == StreamBytes(aus) && forall k :: 0 <= k < |chunks| ==> |chunks[k]| <= CHUNK_LIMIT
    ensures Accepted(EMPTY_PS, chunks)
    ensures var (p, fs) := FeedPs(EMPTY_PS, chunks);
            var frames := fs + FlushOf(p.asm);
            |frames| == |aus| && forall k :: 0 <= k < |aus| ==> frames[k] == FrameOf(aus, k) && RightFrame(aus, k, frames[k])
  {
    var asm := EMPTY_PS.asm;
    StreamSplits(aus, asm);
    assert EMPTY_PS.buf[EMPTY_PS.cursor..] + Joined(chunks) == Joined(chunks);
    SmallChunksAccepted(EMPTY_PS, chunks, [], Linked(StreamUnits(aus)), Handed(asm, aus), Left(asm, aus));
    ProgramStreamRoundTrip(aus, chunks);
  }

  lemma StreamSplits(aus: seq<Access>, asm: Assembly)
    requires forall k :: 0 <= k < |aus| ==> AccessOk(aus[k])
    ensures Splits(StreamBytes(aus), [], Linked(StreamUnits(aus)), asm, Handed(asm, aus), Left(asm, aus))
    ensures StreamBytes(aus) == [] ==> Linked(StreamUnits(aus)) == []
  {
    var us := StreamUnits(aus);
    StreamBytesAre(aus);
    LinkedBytes(us);
    LinkedPrinted(us);
    StreamDelivers(aus, asm);
    ShortQuiet([]);
    if StreamBytes(aus) == [] {
      BytesOfUnits(us);
    }
    assert [] + LinkBytes(Linked(us)) == StreamBytes(aus);
  }

  lemma BytesOfUnits(us: seq<Unit>)
    requires UnitsBytes(us) == []
    ensures us == []
  {
    if us != [] {
      UnitsFirst(us);
    }
  }

  /** In a stream of one codec that opens with a key frame, codec and key frame flag are exact too. */
  lemma OneCodecRoundTrip(aus: seq<Access>, chunks: seq<seq<Byte>>, codec: VideoCodec)
    requires forall k :: 0 <= k < |aus| ==> AccessOk(aus[k]) && aus[k].codec == codec
    requires aus != [] && aus[0].keyframe
    requires Joined(chunks) == StreamBytes(aus) && Accepted(EMPTY_PS, chunks)
    ensures var (p, fs) := FeedPs(EMPTY_PS, chunks);
            var frames := fs + FlushOf(p.asm);
            |frames| == |aus|
            && forall k :: 0 <= k < |aus| ==>
                 && frames[k].annexb == aus[k].data && Stamped(aus[k].pts, frames[k].pts90)
                 && frames[k].codec == codec && (frames[k].keyframe <==> HasKeyNal(codec, aus[k].data))
  {
    ProgramStreamRoundTrip(aus, chunks);
    forall k | 0 <= k < |aus| ensures IsKeyframe(codec, aus[k].data) == HasKeyNal(codec, aus[k].data) {
      KeyframeIs(codec, aus[k].data);
    }
    forall n: nat | 0 < n <= |aus| ensures MapSeen(aus, n) == Some(codec) {
      OneMap(aus, n, codec);
    }
  }

  lemma {:induction false} OneMap(aus: seq<Access>, n: nat, codec: VideoCodec)
    requires 0 < n <= |aus| && aus[0].keyframe && forall k :: 0 <= k < |aus| ==> aus[k].codec == codec
    ensures MapSeen(aus, n) == Some(codec)
  {
    if n > 1 {
      OneMap(aus, n - 1, codec);
    }
  }
}
