/** The two nodes stay in step over every run, however the bytes between them are cut. */
module Lockstep {
  import opened Words
  import opened Statuses
  import opened Chunks
  import opened Containers
  import opened Payloads
  import opened MlvcModel

  // ---------------------------------------------------------------- cutting the input

  function Given(n: Node, more: seq<Byte>): Node {
    Node(Appended(n.demux, more), n.core)
  }

  /** What p leaves open, done on more bytes. */
  ghost function Continued(m: Setup, p: Played, more: seq<Byte>): Played
    requires CodecOk(m.codec) && NodeOk(p.node)
  {
    if p.status != Ok then p else Before(p.pictures, Play(m, Given(p.node, more)))
  }

  /** What Play has done it does the same when more bytes have already arrived. */
  lemma {:induction false} PlayAppend(m: Setup, n: Node, more: seq<Byte>)
    requires CodecOk(m.codec) && NodeOk(n) && n.demux.held && more != []
    ensures NodeOk(Play(m, n).node)
    ensures SameOutcome(Play(m, Given(n, more)), Continued(m, Play(m, n), more))
    decreases |n.demux.buf|, 0
  {
    PlayKeepsOk(m, n);
    TakeAppend(n.demux, more);
    TakeStatus(n.demux);
    TakeKeepsHeader(n.demux);
    TakeShrinks(n.demux);
    var (d, r) := Take(n.demux);
    if r.Success? {
      RecordAppend(m, n.core, d, r.value, more);
    } else if r.status == Again {
      WaitAppend(m, n, d, more);
    }
  }

  lemma RecordAppend(m: Setup, core: Option<Core>, d: Demux, r: Record, more: seq<Byte>)
    requires CodecOk(m.codec) && (core.Some? ==> CoreOk(core.value)) && d.header.Some? && d.held && more != []
    ensures NodeOk(PlayRecord(m, core, d, r).node)
    ensures SameOutcome(PlayRecord(m, core, Appended(d, more), r), Continued(m, PlayRecord(m, core, d, r), more))
    decreases |d.buf|, 1
  {
    PlayRecordKeepsOk(m, core, d, r);
    if Ready(m, core, d.header.value).Success? {
      var o := DecStep(m, Ready(m, core, d.header.value).value, r);
      if o.Success? {
        var (c, pictures) := o.value;
        PlayAppend(m, Node(d, Some(c)), more);
        BeforeContinued(m, pictures, Play(m, Node(d, Some(c))), more);
      }
    }
  }

  lemma BeforeContinued(m: Setup, pictures: seq<Picture>, p: Played, more: seq<Byte>)
    requires CodecOk(m.codec) && NodeOk(p.node)
    ensures Continued(m, Before(pictures, p), more) == Before(pictures, Continued(m, p, more))
  {
    if p.status == Ok {
      BeforeTwice(pictures, p.pictures, Play(m, Given(p.node, more)));
    }
  }

  lemma WaitAppend(m: Setup, n: Node, d: Demux, more: seq<Byte>)
    requires CodecOk(m.codec) && NodeOk(n) && n.demux.held && more != []
    requires Take(n.demux) == (d, Failure(Again)) && NodeOk(Node(d, n.core)) && NodeOk(PlayEnd(m, Node(d, n.core), Again).node)
    requires Take(Appended(n.demux, more)) == Take(Appended(d, more))
    ensures SameOutcome(Play(m, Given(n, more)), Continued(m, PlayEnd(m, Node(d, n.core), Again), more))
  {
    var p := PlayEnd(m, Node(d, n.core), Again);
    HeaderStays(n.demux, more);
    if p.status == Ok {
      var q := Play(m, Given(p.node, more));
      assert Before([], q) == q by { assert [] + q.pictures == q.pictures; }
      var (d', r) := Take(Appended(d, more));
      PlayOfTake(m, Given(n, more), d', r);
      PlayOfTake(m, Given(p.node, more), d', r);
      if d.header.Some? {
        SetUpEarly(m, n.core, p.node.core.value, d', r);
      }
    }
  }

  lemma HeaderStays(d: Demux, more: seq<Byte>)
    requires d.held && more != [] && Take(d).1 == Failure(Again)
    ensures Take(d).0.header.Some? ==> Take(Appended(d, more)).0.header == Take(d).0.header
  {
    if TakeHeader(d).1 == None { TakeHeaderDone(d, more); } else { TakeHeaderStops(d, more); }
    TakeAppend(d, more);
    TakeKeepsHeader(Appended(Take(d).0, more));
  }

  lemma JoinLast(n: Node, c: seq<Byte>)
    ensures Joined([c]) == c && Given(n, Joined([c])) == Given(n, c)
  {
    assert Joined([c]) == c + [];
  }

  lemma JoinFirst(n: Node, c: seq<Byte>, more: seq<Byte>)
    requires !n.demux.failed && c != [] && more != []
    ensures Given(Given(n, c), more) == Given(n, c + more)
  {
    assert n.demux.buf + c + more == n.demux.buf + (c + more);
  }

  /** Chunk by chunk the node does what it does with everything at once. */
  lemma {:induction false} ChunksPlay(m: Setup, n: Node, chunks: seq<seq<Byte>>)
    requires CodecOk(m.codec) && NodeOk(n) && !n.demux.failed
    requires chunks != [] && forall k :: 0 <= k < |chunks| ==> chunks[k] != []
    ensures SameOutcome(ProcessAll(m, n, chunks), Play(m, Given(n, Joined(chunks))))
    decreases |chunks|
  {
    var c, rest := chunks[0], chunks[1..];
    var p := Play(m, Given(n, c));
    PlayKeepsOk(m, Given(n, c));
    if rest == [] {
      JoinLast(n, c);
      assert chunks == [c];
      assert p.pictures + [] == p.pictures;
    } else {
      JoinedNonempty(rest);
      JoinFirst(n, c, Joined(rest));
      PlayAppend(m, Given(n, c), Joined(rest));
      if p.status == Ok {
        ChunksPlay(m, p.node, rest);
      }
      ChunksPlayRest(m, n, chunks, p, Play(m, Given(n, Joined(chunks))));
    }
  }

  lemma ChunksPlayRest(m: Setup, n: Node, chunks: seq<seq<Byte>>, p: Played, q: Played)
    requires CodecOk(m.codec) && NodeOk(n) && NodeOk(p.node) && !n.demux.failed
    requires |chunks| > 1 && chunks[0] != [] && p == Play(m, Given(n, chunks[0]))
    requires SameOutcome(q, Continued(m, p, Joined(chunks[1..])))
    requires p.status == Ok ==>
               SameOutcome(ProcessAll(m, p.node, chunks[1..]), Play(m, Given(p.node, Joined(chunks[1..]))))
    ensures SameOutcome(ProcessAll(m, n, chunks), q)
  {
    assert Process(m, n, chunks[0]) == p;
  }

  /**
   * The decoder does not see how its input is cut: any two splits of a byte string give the same
   * pictures and the same outcome, for every byte string.
   */
  lemma DecoderIgnoresChunking(m: Setup, chunks: seq<seq<Byte>>, chunks': seq<seq<Byte>>)
    requires CodecOk(m.codec) && Joined(chunks) == Joined(chunks')
    requires forall k :: 0 <= k < |chunks| ==> chunks[k] != []
    requires forall k :: 0 <= k < |chunks'| ==> chunks'[k] != []
    ensures SameOutcome(ProcessAll(m, EMPTY_NODE, chunks), ProcessAll(m, EMPTY_NODE, chunks'))
  {
    JoinedNonempty(chunks);
    JoinedNonempty(chunks');
    if chunks != [] {
      ChunksPlay(m, EMPTY_NODE, chunks);
      ChunksPlay(m, EMPTY_NODE, chunks');
    }
  }

  // ---------------------------------------------------------------- one record

  /** Encoder and decoder hold the same references, flag and rung. */
  ghost predicate InStep(m: Setup, e: Enc, c: Core)
    requires SetupOk(m)
  {
    && c.rungs == RungsOf(m)
    && c.state.refPrev == e.refPrev && c.state.refLtr == e.refLtr && c.state.haveLtr == e.haveLtr
    && c.state.active == e.active
    && (e.frameCount != 0 ==> c.state.haveLast && c.state.last != [])
  }

  /** The picture an observer of the encoder alone expects: its latents, seen through its own reference. */
  ghost function PictureOf(m: Setup, e: Enc, i: Input, last: Picture): Picture
    requires SetupOk(m) && EncOk(m, e)
  {
    if Dropped(m, e, i) then last
    else m.npu.decode(UsedRung(m, e, i), UsedQp(m, e, i), Encoded(m, e, i).0, Reference(m, e, i)).0
  }

  /** The two things the encoder does not check: the reader's payload limit and the table's rows. */
  ghost predicate InputFits(m: Setup, e: Enc, i: Input)
    requires SetupOk(m) && EncOk(m, e)
  {
    Dropped(m, e, i) || (|RecordOf(m, e, i).payload| <= MAX_FRAME_BYTES
                         && (m.qpRows.Some? ==> UsedQp(m, e, i) < m.qpRows.value))
  }

  lemma FlagsRead(m: Setup, e: Enc, i: Input)
    ensures HasFlag(RecordFlags(m, e, i), REC_KEYFRAME) <==> IsIdr(e, i)
    ensures HasFlag(RecordFlags(m, e, i), REC_LTR_MARK) <==> MarksLtr(m, e, i)
    ensures HasFlag(RecordFlags(m, e, i), REC_LTR_RECOVERY) <==> Recovers(m, e, i)
  {
  }

  /** The decoder finds the rung the encoder used, exactly when the qp has a row. */
  lemma RungFound(m: Setup, e: Enc, i: Input, c: Core)
    requires SetupOk(m) && EncOk(m, e) && InStep(m, e, c) && CoreOk(c)
    ensures RungFor(m, c, UsedQp(m, e, i))
            == if m.qpRows.Some? && UsedQp(m, e, i) >= m.qpRows.value then Failure(Format)
               else Success(UsedRung(m, e, i))
    ensures m.qpRows.None? ==> c.rungs[UsedRung(m, e, i)] == UsedQp(m, e, i)
  {
    RungsInRange(m.patchQps, m.qp);
    if m.qpRows.None? {
      FindRungAt(c.rungs, UsedRung(m, e, i));
    }
  }

  lemma PayloadDecodes(m: Setup, e: Enc, i: Input)
    requires SetupOk(m) && EncOk(m, e) && !Dropped(m, e, i)
    ensures RecordOf(m, e, i).qIndex == UsedQp(m, e, i) && RecordOf(m, e, i).flags == RecordFlags(m, e, i)
    ensures DecodePayload(m.codec, UsedQp(m, e, i), RecordOf(m, e, i).payload) == Some(Encoded(m, e, i).0)
    ensures NpuAgrees(m, UsedRung(m, e, i), UsedQp(m, e, i), i.picture, Reference(m, e, i))
  {
    EncodedOk(m, e, i);
    assert |Reference(m, e, i)| == m.featureSize;
    assert NpuAgrees(m, UsedRung(m, e, i), UsedQp(m, e, i), i.picture, Reference(m, e, i));
    PayloadRoundTrip(m.codec, UsedQp(m, e, i), Encoded(m, e, i).0);
  }

  /** One record keeps the two in step and yields one picture; without a row it is refused. */
  lemma StepInStep(m: Setup, e: Enc, i: Input, c: Core)
    requires SetupOk(m) && EncOk(m, e) && InStep(m, e, c) && CoreOk(c)
    ensures var o := DecStep(m, c, RecordOf(m, e, i));
            if m.qpRows.Some? && !Dropped(m, e, i) && UsedQp(m, e, i) >= m.qpRows.value then o == Failure(Format)
            else
              o.Success? && InStep(m, NextEnc(m, e, i), o.value.0)
              && o.value.1 == [PictureOf(m, e, i, c.state.last)] && o.value.0.state.last == PictureOf(m, e, i, c.state.last)
  {
    if !Dropped(m, e, i) {
      PayloadDecodes(m, e, i);
      RungFound(m, e, i, c);
      FlagsRead(m, e, i);
    }
  }

  // ---------------------------------------------------------------- a whole run

  ghost function EncAfter(m: Setup, e: Enc, inputs: seq<Input>): (e': Enc)
    requires SetupOk(m) && EncOk(m, e)
    ensures EncOk(m, e')
    decreases |inputs|
  {
    if inputs == [] then e else EncAfter(m, NextEnc(m, e, inputs[0]), inputs[1..])
  }

  ghost function Pictures(m: Setup, e: Enc, last: Picture, inputs: seq<Input>): (s: seq<Picture>)
    requires SetupOk(m) && EncOk(m, e)
    ensures |s| == |inputs|
    decreases |inputs|
  {
    if inputs == [] then []
    else
      var p := PictureOf(m, e, inputs[0], last);
      [p] + Pictures(m, NextEnc(m, e, inputs[0]), p, inputs[1..])
  }

  /** What the encoder emits; the header goes out whenever the frame counter stands at zero. */
  ghost function StreamBytes(m: Setup, e: Enc, inputs: seq<Input>): seq<Byte>
    requires SetupOk(m) && EncOk(m, e)
    decreases |inputs|, 1
  {
    if inputs == [] then []
    else (if e.frameCount == 0 then HeaderBytes(HeaderOf(m, e, inputs[0])) else []) + TailBytes(m, e, inputs)
  }

  /** The same without a header at the front. */
  ghost function TailBytes(m: Setup, e: Enc, inputs: seq<Input>): seq<Byte>
    requires SetupOk(m) && EncOk(m, e)
    decreases |inputs|, 0
  {
    if inputs == [] then []
    else RecordBytes(RecordOf(m, e, inputs[0])) + StreamBytes(m, NextEnc(m, e, inputs[0]), inputs[1..])
  }

  /** Every record is one the decoder takes, and the frame counter does not come round to zero before the end. */
  ghost predicate RunFits(m: Setup, e: Enc, inputs: seq<Input>)
    requires SetupOk(m) && EncOk(m, e)
    decreases |inputs|
  {
    inputs != [] ==>
      && InputFits(m, e, inputs[0])
      && (|inputs| > 1 ==> NextEnc(m, e, inputs[0]).frameCount != 0)
      && RunFits(m, NextEnc(m, e, inputs[0]), inputs[1..])
  }

  lemma TooLong(r: Record, rest: seq<Byte>)
    requires r.qIndex != QINDEX_DROPPED && -0x8000_0000 <= r.qIndex < 0x8000_0000
    requires MAX_FRAME_BYTES < |r.payload| < 0x1_0000_0000
    ensures ParseRecord(RecordBytes(r) + rest) == Failure(Format)
  {
    var d := RecordBytes(r) + rest;
    assert d[0..4] == Le4(|r.payload|) && d[4..8] == Le4(AsU32(r.qIndex)) && d[8..12] == Le4(r.flags);
    Le4RoundTrip(|r.payload|);
    Le4RoundTrip(AsU32(r.qIndex));
  }

  /** A header where a record is due is refused. */
  lemma HeaderIsNoRecord(h: Header, rest: seq<Byte>)
    ensures ParseRecord(HeaderBytes(h) + rest) == Failure(Format)
  {
    var d := HeaderBytes(h) + rest;
    HeaderFields(h, rest);
    assert d[0..4] == d[..6][0..4] == [0x4D, 0x4C, 0x56, 0x43];
    assert d[4..8] == [0x31, 0x02, 0, 0];
  }

  /** What is known of the decoder while it reads one encoder's stream. */
  ghost predicate Reading(m: Setup, e: Enc, n: Node)
    requires SetupOk(m)
  {
    && n.demux.held && !n.demux.failed && n.demux.header.Some?
    && n.core.Some? && CoreOk(n.core.value) && InStep(m, e, n.core.value)
  }

  lemma TakeWhenReading(d: Demux)
    requires !d.failed && d.header.Some?
    ensures Take(d) == TakeRecord(d)
  {
  }

  /** The head of the stream, whatever follows it. */
  lemma PlayHead(m: Setup, e: Enc, i: Input, rest: seq<Byte>, n: Node)
    requires SetupOk(m) && EncOk(m, e) && Reading(m, e, n)
    requires n.demux.buf == RecordBytes(RecordOf(m, e, i)) + rest
    ensures !InputFits(m, e, i) ==> Play(m, n).status == Format && Play(m, n).pictures == []
    ensures InputFits(m, e, i) ==>
              var p := PictureOf(m, e, i, n.core.value.state.last);
              exists c :: CoreOk(c) && InStep(m, NextEnc(m, e, i), c) && c.state.last == p
                          && Play(m, n) == Before([p], Play(m, Node(n.demux.(buf := rest), Some(c))))
  {
    var r := RecordOf(m, e, i);
    var c := n.core.value;
    TakeWhenReading(n.demux);
    StepInStep(m, e, i, c);
    if !RecordOk(r) {
      TooLong(r, rest);
      PlayOfTake(m, n, n.demux.(failed := true), Failure(Format));
    } else {
      RecordRoundTrip(r, rest);
      var d := n.demux.(buf := rest);
      assert Take(n.demux) == (d, Success(r));
      PlayOfTake(m, n, d, Success(r));
      var o := DecStep(m, c, r);
      if InputFits(m, e, i) {
        assert Play(m, n) == Before(o.value.1, Play(m, Node(d, Some(o.value.0))));
      }
    }
  }

  /** The whole run is played if it fits; otherwise the decoder stops at the first record that does not. */
  ghost predicate RunPlayed(m: Setup, e: Enc, inputs: seq<Input>, last: Picture, fits: bool, p: Played)
    requires SetupOk(m) && EncOk(m, e)
  {
    if fits then
      p.status == Ok && p.pictures == Pictures(m, e, last, inputs) && Reading(m, EncAfter(m, e, inputs), p.node)
    else p.status == Format && p.pictures < Pictures(m, e, last, inputs)
  }

  lemma {:induction false} PlayTail(m: Setup, e: Enc, inputs: seq<Input>, n: Node)
    requires SetupOk(m) && EncOk(m, e) && Reading(m, e, n)
    requires n.demux.buf == TailBytes(m, e, inputs)
    ensures RunPlayed(m, e, inputs, n.core.value.state.last, RunFits(m, e, inputs), Play(m, n))
    decreases |inputs|, 0
  {
    if inputs == [] {
      TakeWhenReading(n.demux);
      PlayOfTake(m, n, n.demux, Failure(Again));
    } else {
      var i, e', rest := inputs[0], NextEnc(m, e, inputs[0]), inputs[1..];
      PlayHead(m, e, i, StreamBytes(m, e', rest), n);
      if InputFits(m, e, i) {
        var p := PictureOf(m, e, i, n.core.value.state.last);
        var c :| CoreOk(c) && InStep(m, e', c) && c.state.last == p
                 && Play(m, n) == Before([p], Play(m, Node(n.demux.(buf := StreamBytes(m, e', rest)), Some(c))));
        var n' := Node(n.demux.(buf := StreamBytes(m, e', rest)), Some(c));
        PlayStream(m, e', rest, n');
        RunExtends(m, e, inputs, n.core.value.state.last, e', Play(m, n'));
      }
    }
  }

  /** The same in the middle of a stream, where another header would be out of place. */
  lemma PlayStream(m: Setup, e: Enc, inputs: seq<Input>, n: Node)
    requires SetupOk(m) && EncOk(m, e) && Reading(m, e, n)
    requires n.demux.buf == StreamBytes(m, e, inputs)
    ensures RunPlayed(m, e, inputs, n.core.value.state.last,
                      (inputs == [] || e.frameCount != 0) && RunFits(m, e, inputs), Play(m, n))
    decreases |inputs|, 1
  {
    if inputs == [] || e.frameCount != 0 {
      assert StreamBytes(m, e, inputs) == TailBytes(m, e, inputs);
      PlayTail(m, e, inputs, n);
    } else {
      HeaderIsNoRecord(HeaderOf(m, e, inputs[0]), TailBytes(m, e, inputs));
      TakeWhenReading(n.demux);
      PlayOfTake(m, n, n.demux.(failed := true), Failure(Format));
    }
  }

  /** One input at the front of a run, with e' the encoder after it. */
  lemma RunUnfolds(m: Setup, e: Enc, inputs: seq<Input>, last: Picture, e': Enc)
    requires SetupOk(m) && EncOk(m, e) && inputs != [] && e' == NextEnc(m, e, inputs[0])
    ensures EncAfter(m, e, inputs) == EncAfter(m, e', inputs[1..])
    ensures var q := PictureOf(m, e, inputs[0], last);
            Pictures(m, e, last, inputs) == [q] + Pictures(m, e', q, inputs[1..])
    ensures RunFits(m, e, inputs) <==> (InputFits(m, e, inputs[0]) && (inputs[1..] == [] || e'.frameCount != 0)
                                        && RunFits(m, e', inputs[1..]))
  {
  }

  lemma RunExtends(m: Setup, e: Enc, inputs: seq<Input>, last: Picture, e': Enc, p: Played)
    requires SetupOk(m) && EncOk(m, e) && inputs != [] && InputFits(m, e, inputs[0]) && e' == NextEnc(m, e, inputs[0])
    requires RunPlayed(m, e', inputs[1..], PictureOf(m, e, inputs[0], last),
                       (inputs[1..] == [] || e'.frameCount != 0) && RunFits(m, e', inputs[1..]), p)
    ensures RunPlayed(m, e, inputs, last, RunFits(m, e, inputs), Before([PictureOf(m, e, inputs[0], last)], p))
  {
    RunUnfolds(m, e, inputs, last, e');
  }

  /** The first chunk of bytes sets the decoder up, in step with an encoder that has just been opened. */
  lemma OpensInStep(m: Setup, gopSize: U32, i: Input, tail: seq<Byte>)
    requires SetupOk(m) && tail != []
    ensures var e := EncOpened(m, gopSize);
            var h := Normalized(HeaderOf(m, e, i));
            var n := Node(Demux(tail, true, Some(h), false), Some(DecOpened(m, h).value));
            DecOpened(m, h).Success? && Reading(m, e, n) && n.core.value.state.last == []
            && SameOutcome(Play(m, Given(EMPTY_NODE, HeaderBytes(HeaderOf(m, e, i)) + tail)), Play(m, n))
  {
    var e := EncOpened(m, gopSize);
    var h := HeaderOf(m, e, i);
    RungsInRange(m.patchQps, m.qp);
    var c := DecOpened(m, Normalized(h)).value;
    var n := Node(Demux(tail, true, Some(Normalized(h)), false), Some(c));
    var start := Given(EMPTY_NODE, HeaderBytes(h) + tail);
    HeaderRoundTrip(h, tail);
    assert start.demux.buf == HeaderBytes(h) + tail;
    assert start.demux.buf[HDR_SIZE..] == tail;
    assert TakeHeader(start.demux) == (n.demux, None);
    TakeWhenReading(n.demux);
    var (d, r) := Take(n.demux);
    TakeKeepsHeader(n.demux);
    PlayOfTake(m, start, d, r);
    PlayOfTake(m, n, d, r);
    SetUpEarly(m, None, c, d, r);
  }

  /** Every record taken on its own is one the decoder takes. */
  ghost predicate EachFits(m: Setup, e: Enc, inputs: seq<Input>)
    requires SetupOk(m) && EncOk(m, e)
    decreases |inputs|
  {
    inputs != [] ==> InputFits(m, e, inputs[0]) && EachFits(m, NextEnc(m, e, inputs[0]), inputs[1..])
  }

  const FRAME_LIMIT: nat := 0x1_0000_0000

  lemma RunUnfoldsFits(m: Setup, e: Enc, inputs: seq<Input>, e': Enc)
    requires SetupOk(m) && EncOk(m, e) && inputs != [] && e' == NextEnc(m, e, inputs[0])
    ensures e'.frameCount == Increment(e.frameCount)
    ensures EachFits(m, e, inputs) <==> InputFits(m, e, inputs[0]) && EachFits(m, e', inputs[1..])
    ensures RunFits(m, e, inputs) <==> InputFits(m, e, inputs[0]) && (|inputs| == 1 || e'.frameCount != 0)
                                       && RunFits(m, e', inputs[1..])
  {
    RunUnfolds(m, e, inputs, [], e');
  }

  lemma CounterRoom(c: U32, n: nat, head: bool, run: bool, each: bool, runRest: bool, eachRest: bool)
    requires n > 0 && (each <==> head && eachRest)
    requires run <==> head && (n == 1 || Increment(c) != 0) && runRest
    requires runRest <==> Increment(c) + n - 1 <= FRAME_LIMIT && eachRest
    ensures run <==> c + n <= FRAME_LIMIT && each
  {
  }

  lemma {:induction false} RunFitsIff(m: Setup, e: Enc, inputs: seq<Input>)
    requires SetupOk(m) && EncOk(m, e)
    ensures RunFits(m, e, inputs) <==> e.frameCount + |inputs| <= FRAME_LIMIT && EachFits(m, e, inputs)
    decreases |inputs|
  {
    if inputs != [] {
      var e', rest := NextEnc(m, e, inputs[0]), inputs[1..];
      RunUnfoldsFits(m, e, inputs, e');
      RunFitsIff(m, e', rest);
      CounterRoom(e.frameCount, |inputs|, InputFits(m, e, inputs[0]), RunFits(m, e, inputs), EachFits(m, e, inputs),
                  RunFits(m, e', rest), EachFits(m, e', rest));
    }
  }

  /** A geometry whose payloads cannot reach the reader's limit, and a table with a row for every qp, suffice. */
  lemma {:induction false} SmallModelsFit(m: Setup, e: Enc, inputs: seq<Input>)
    requires SetupOk(m) && EncOk(m, e)
    requires PayloadLimit(m.codec) <= MAX_FRAME_BYTES && (m.qpRows.Some? ==> m.qpRows.value > MAX_QP)
    ensures EachFits(m, e, inputs)
    decreases |inputs|
  {
    if inputs != [] {
      EncodedOk(m, e, inputs[0]);
      SmallModelsFit(m, NextEnc(m, e, inputs[0]), inputs[1..]);
    }
  }

  /**
   * Encoder and decoder in lockstep, for every run with any mix of key frames, long-term marks,
   * recoveries, rungs and drops, and for every way of cutting the bytes. The decoder plays the run
   * without an error exactly when every record fits and the frame counter does not wrap: then it
   * emits one picture per input, the one the encoder's own state predicts, and ends with the
   * encoder's references. Otherwise it has shown a proper part of them and reports a format error.
   * As every prefix of a run is a run, this holds after each record.
   */
  lemma StaysInLockstep(m: Setup, gopSize: U32, inputs: seq<Input>, chunks: seq<seq<Byte>>)
    requires SetupOk(m) && inputs != []
    requires forall k :: 0 <= k < |chunks| ==> chunks[k] != []
    requires Joined(chunks) == StreamBytes(m, EncOpened(m, gopSize), inputs)
    ensures var e := EncOpened(m, gopSize);
            var p := ProcessAll(m, EMPTY_NODE, chunks);
            var fits := |inputs| <= FRAME_LIMIT && EachFits(m, e, inputs);
            && (p.status == Ok <==> fits)
            && (fits ==> p.pictures == Pictures(m, e, [], inputs) && |p.pictures| == |inputs|)
            && (fits ==> p.node.core.Some? && InStep(m, EncAfter(m, e, inputs), p.node.core.value))
            && (!fits ==> p.status == Format && p.pictures < Pictures(m, e, [], inputs))
  {
    var e := EncOpened(m, gopSize);
    var tail := TailBytes(m, e, inputs);
    var all := StreamBytes(m, e, inputs);
    assert all == HeaderBytes(HeaderOf(m, e, inputs[0])) + tail;
    OpensInStep(m, gopSize, inputs[0], tail);
    var h := Normalized(HeaderOf(m, e, inputs[0]));
    PlayTail(m, e, inputs, Node(Demux(tail, true, Some(h), false), Some(DecOpened(m, h).value)));
    JoinedNonempty(chunks);
    ChunksPlay(m, EMPTY_NODE, chunks);
    RunFitsIff(m, e, inputs);
  }

  /** Runs that are too long fail, whatever is in them: a later record comes with a second header. */
  lemma LongRunFails(m: Setup, gopSize: U32, inputs: seq<Input>, chunks: seq<seq<Byte>>)
    requires SetupOk(m) && |inputs| > FRAME_LIMIT
    requires forall k :: 0 <= k < |chunks| ==> chunks[k] != []
    requires Joined(chunks) == StreamBytes(m, EncOpened(m, gopSize), inputs)
    ensures ProcessAll(m, EMPTY_NODE, chunks).status == Format
  {
    StaysInLockstep(m, gopSize, inputs, chunks);
  }

  /**
   * The encoder codes at any level the rate controller chooses, also one the tables have no row for;
   * the decoder refuses that record. A stream that opens with one is refused at once.
   */
  lemma {:induction false} MissingRowFails(m: Setup, gopSize: U32, inputs: seq<Input>, chunks: seq<seq<Byte>>)
    requires SetupOk(m) && inputs != [] && m.qpRows.Some?
    requires inputs[0].verdict.Level? && inputs[0].verdict.q >= m.qpRows.value
    requires forall k :: 0 <= k < |chunks| ==> chunks[k] != []
    requires Joined(chunks) == StreamBytes(m, EncOpened(m, gopSize), inputs)
    ensures ProcessAll(m, EMPTY_NODE, chunks).status == Format
    ensures |inputs| == 1 ==> ProcessAll(m, EMPTY_NODE, chunks).pictures == []
  {
    NoRowNoFit(m, gopSize, inputs);
    StaysInLockstep(m, gopSize, inputs, chunks);
  }

  lemma {:induction false} NoRowNoFit(m: Setup, gopSize: U32, inputs: seq<Input>)
    requires SetupOk(m) && inputs != [] && m.qpRows.Some?
    requires inputs[0].verdict.Level? && inputs[0].verdict.q >= m.qpRows.value
    ensures !EachFits(m, EncOpened(m, gopSize), inputs)
  {
    LevelWithoutRow(m, EncOpened(m, gopSize), inputs[0]);
  }

  lemma LevelWithoutRow(m: Setup, e: Enc, i: Input)
    requires SetupOk(m) && EncOk(m, e) && e.frameCount == 0
    requires m.qpRows.Some? && i.verdict.Level? && i.verdict.q >= m.qpRows.value
    ensures !InputFits(m, e, i)
  {
    assert !Dropped(m, e, i) && UsedQp(m, e, i) == i.verdict.q;
  }

  // ---------------------------------------------------------------- long-term references

  /** A run so far: the encoder's state, the flags of its records and the features it encoded. */
  datatype Trace = Trace(enc: Enc, flags: seq<U32>, features: seq<Feature>)

  ghost predicate TraceOk(m: Setup, t: Trace)
    requires SetupOk(m)
  {
    EncOk(m, t.enc) && |t.flags| == |t.features| && HoldsMark(t.flags, t.features, t.enc.haveLtr, t.enc.refLtr)
  }

  ghost function Extended(m: Setup, t: Trace, i: Input): Trace
    requires SetupOk(m) && EncOk(m, t.enc)
  {
    Trace(NextEnc(m, t.enc, i), t.flags + [RecordOf(m, t.enc, i).flags], t.features + [Encoded(m, t.enc, i).1])
  }

  ghost function TraceOf(m: Setup, t: Trace, inputs: seq<Input>): Trace
    requires SetupOk(m) && EncOk(m, t.enc)
    decreases |inputs|
  {
    if inputs == [] then t else TraceOf(m, Extended(m, t, inputs[0]), inputs[1..])
  }

  /** Where the last mark stands, unless a key frame came after it. */
  function LastMark(flags: seq<U32>): (j: Option<nat>)
    ensures j.Some? ==> j.value < |flags| && HasFlag(flags[j.value], REC_LTR_MARK)
    ensures j.Some? ==> forall i :: j.value <= i < |flags| ==> !HasFlag(flags[i], REC_KEYFRAME)
    ensures j.Some? ==> forall i :: j.value < i < |flags| ==> !HasFlag(flags[i], REC_LTR_MARK)
  {
    if flags == [] then None
    else
      var n := |flags| - 1;
      if HasFlag(flags[n], REC_KEYFRAME) then None
      else if HasFlag(flags[n], REC_LTR_MARK) then Some(n)
      else LastMark(flags[..n])
  }

  /** What a record's flags say of the long-term reference after it. */
  lemma FlagsMoveLtr(m: Setup, e: Enc, i: Input)
    requires SetupOk(m) && EncOk(m, e)
    ensures var f := RecordOf(m, e, i).flags;
            var x := NextEnc(m, e, i);
            && !(HasFlag(f, REC_KEYFRAME) && HasFlag(f, REC_LTR_MARK))
            && (x.haveLtr <==> HasFlag(f, REC_LTR_MARK) || (e.haveLtr && !HasFlag(f, REC_KEYFRAME)))
            && (HasFlag(f, REC_LTR_MARK) ==> x.refLtr == Encoded(m, e, i).1)
            && (!HasFlag(f, REC_LTR_MARK) && !HasFlag(f, REC_KEYFRAME) ==> x.refLtr == e.refLtr)
            && (HasFlag(f, REC_LTR_RECOVERY) ==> e.haveLtr && Reference(m, e, i) == e.refLtr)
  {
    FlagsRead(m, e, i);
    assert !HasFlag(0, REC_KEYFRAME) && !HasFlag(0, REC_LTR_MARK) && !HasFlag(0, REC_LTR_RECOVERY);
  }

  /** The reference held after records with these flags and features is that of the last mark. */
  predicate HoldsMark(flags: seq<U32>, features: seq<Feature>, haveLtr: bool, ltr: Feature)
    requires |flags| == |features|
  {
    var j := LastMark(flags);
    haveLtr == j.Some? && (j.Some? ==> ltr == features[j.value])
  }

  lemma MarkStep(flags: seq<U32>, features: seq<Feature>, haveLtr: bool, ltr: Feature,
                 flag: U32, feature: Feature, haveLtr': bool, ltr': Feature)
    requires |flags| == |features| && HoldsMark(flags, features, haveLtr, ltr)
    requires haveLtr' <==> HasFlag(flag, REC_LTR_MARK) || (haveLtr && !HasFlag(flag, REC_KEYFRAME))
    requires !(HasFlag(flag, REC_KEYFRAME) && HasFlag(flag, REC_LTR_MARK))
    requires HasFlag(flag, REC_LTR_MARK) ==> ltr' == feature
    requires !HasFlag(flag, REC_LTR_MARK) && !HasFlag(flag, REC_KEYFRAME) ==> ltr' == ltr
    ensures HoldsMark(flags + [flag], features + [feature], haveLtr', ltr')
  {
    assert (flags + [flag])[..|flags|] == flags;
  }

  lemma ExtendedOk(m: Setup, t: Trace, i: Input)
    requires SetupOk(m) && TraceOk(m, t)
    ensures TraceOk(m, Extended(m, t, i))
  {
    var x, y := t.enc, NextEnc(m, t.enc, i);
    FlagsMoveLtr(m, x, i);
    MarkStep(t.flags, t.features, x.haveLtr, x.refLtr,
             RecordOf(m, x, i).flags, Encoded(m, x, i).1, y.haveLtr, y.refLtr);
  }

  lemma {:induction false} TracesOk(m: Setup, t: Trace, inputs: seq<Input>)
    requires SetupOk(m) && TraceOk(m, t)
    ensures TraceOk(m, TraceOf(m, t, inputs)) && TraceOf(m, t, inputs).enc == EncAfter(m, t.enc, inputs)
    decreases |inputs|
  {
    if inputs != [] {
      ExtendedOk(m, t, inputs[0]);
      TracesOk(m, Extended(m, t, inputs[0]), inputs[1..]);
    }
  }

  /**
   * After any run, a recovery record finds a long-term reference marked since the last key frame, and
   * is coded against the feature of the last record so marked.
   */
  lemma RecoveryFindsMark(m: Setup, gopSize: U32, inputs: seq<Input>, next: Input)
    requires SetupOk(m)
    requires HasFlag(RecordOf(m, EncAfter(m, EncOpened(m, gopSize), inputs), next).flags, REC_LTR_RECOVERY)
    ensures var t := TraceOf(m, Trace(EncOpened(m, gopSize), [], []), inputs);
            var j := LastMark(t.flags);
            && t.enc == EncAfter(m, EncOpened(m, gopSize), inputs)
            && j.Some? && |t.features| == |t.flags|
            && Reference(m, t.enc, next) == t.features[j.value]
  {
    var t := Trace(EncOpened(m, gopSize), [], []);
    TracesOk(m, t, inputs);
    FlagsMoveLtr(m, TraceOf(m, t, inputs).enc, next);
  }
}
