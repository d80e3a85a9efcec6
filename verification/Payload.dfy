/** One frame's payload: hyperprior and latents under two coders in one stream. */
module Payloads {
  import opened Words
  import opened Statuses
  import opened ScaleMaps
  import opened ScaleExtraction
  import opened RansStep
  import opened RansCoder
  import opened RansRoundTrip
  import opened RansStream
  import opened RansEncoding
  import opened RansDecoding

  datatype Codec = Codec(gaussian: Coder, bitest: Coder, geom: Geom)

  datatype Latents = Latents(z: seq<int>, y0: seq<int>, y1: seq<int>)

  /** What init_rans_coders sets up: byte units, 16 symbol bits and 2 bypass bits for both coders. */
  ghost predicate CoderOk(c: Coder) {
    ValidCoder(c) && c.variant.ByteUnits? && c.symbolBits == 16 && c.bypassBits == 2
  }

  ghost predicate CodecOk(k: Codec) {
    CoderOk(k.gaussian) && CoderOk(k.bitest) && GeomOk(k.geom)
  }

  /** build_z_idx: every cell of channel c selects distribution qp * ZC + c. */
  function ZIndex(g: Geom, qp: nat): (s: seq<int>)
    requires GeomOk(g)
    ensures |s| == Size(g.zc, g.zh, g.zw)
    ensures forall k :: 0 <= k < |s| ==> s[k] >= 0
  {
    MulMonotone(0, qp, g.zc);
    seq(Size(g.zc, g.zh, g.zw), k requires 0 <= k < Size(g.zc, g.zh, g.zw) => qp * g.zc + ChannelOf(k, g.zh, g.zw))
  }

  ghost predicate LatentsOk(k: Codec, qp: nat, l: Latents)
    requires CodecOk(k)
  {
    && |l.z| == Size(k.geom.zc, k.geom.zh, k.geom.zw)
    && |l.y0| == |l.y1| == Size(k.geom.yc, k.geom.yh, k.geom.yw)
    && ShiftsInRange(k.bitest, ZIndex(k.geom, qp), l.z)
    && ShiftsInRange(k.gaussian, ScaleMap(k.geom, l.z, false), l.y0)
    && ShiftsInRange(k.gaussian, ScaleMap(k.geom, l.z, true), l.y1)
  }

  /** y1 goes in first, then y0, then z, so that z comes out first. */
  function PayloadStream(k: Codec, qp: nat, l: Latents): Stream
    requires CodecOk(k) && LatentsOk(k, qp, l)
  {
    var a := EncodeSeq(k.gaussian, ScaleMap(k.geom, l.z, true), l.y1, Initial(ByteUnits));
    var b := EncodeSeq(k.gaussian, ScaleMap(k.geom, l.z, false), l.y0, a);
    EncodeSeq(k.bitest, ZIndex(k.geom, qp), l.z, b)
  }

  function EncodePayload(k: Codec, qp: nat, l: Latents): seq<Byte>
    requires CodecOk(k) && LatentsOk(k, qp, l)
  {
    Flushed(ByteUnits, PayloadStream(k, qp, l))
  }

  /** z first; the scales for y0 and y1 are computed from the z just decoded. */
  function DecodePayload(k: Codec, qp: nat, data: seq<Byte>): Option<Latents>
    requires CodecOk(k)
  {
    match Opened(ByteUnits, data)
    case None => None
    case Some(s) =>
      match DecodeSeq(k.bitest, ZIndex(k.geom, qp), s)
      case None => None
      case Some((z, t)) =>
        if |z| != Size(k.geom.zc, k.geom.zh, k.geom.zw) then None
        else DecodeLatents(k, z, t)
  }

  function DecodeLatents(k: Codec, z: seq<int>, s: Stream): Option<Latents>
    requires CodecOk(k) && |z| == Size(k.geom.zc, k.geom.zh, k.geom.zw)
  {
    match DecodeSeq(k.gaussian, ScaleMap(k.geom, z, false), s)
    case None => None
    case Some((y0, t)) =>
      match DecodeSeq(k.gaussian, ScaleMap(k.geom, z, true), t)
      case None => None
      case Some((y1, u)) => if AtEnd(ByteUnits, u) then Some(Latents(z, y0, y1)) else None
  }

  /** With nonnegative indices one of the codec's coders gives back exactly what went in. */
  lemma ExactRoundTrip(c: Coder, indices: seq<int>, values: seq<int>, s: Stream)
    requires CoderOk(c) && |indices| == |values| && ShiftsInRange(c, indices, values)
    requires Normal(ByteUnits, s) && forall k :: 0 <= k < |indices| ==> indices[k] >= 0
    ensures Normal(ByteUnits, EncodeSeq(c, indices, values, s))
    ensures DecodeSeq(c, indices, EncodeSeq(c, indices, values, s)) == Some((values, s))
    ensures |EncodeSeq(c, indices, values, s).bytes| <= |s.bytes| + 24 * |values|
  {
    SequenceRoundTrip(c, indices, values, s);
    DividingBitsFitAll(c, indices, values);
    SeqGrowth(c, indices, values, s);
    assert AllDecoded(indices, values) == values;
  }

  /**
   * A frame payload round-trips for all tensors, although two coders share the stream and the
   * decoder learns the scales only from what it decoded; and its size is bounded.
   */
  lemma PayloadRoundTrip(k: Codec, qp: nat, l: Latents)
    requires CodecOk(k) && LatentsOk(k, qp, l)
    ensures DecodePayload(k, qp, EncodePayload(k, qp, l)) == Some(l)
    ensures 4 <= |EncodePayload(k, qp, l)| <= 4 + 24 * (|l.z| + |l.y0| + |l.y1|)
  {
    var s1, s0, zi := ScaleMap(k.geom, l.z, true), ScaleMap(k.geom, l.z, false), ZIndex(k.geom, qp);
    var a := EncodeSeq(k.gaussian, s1, l.y1, Initial(ByteUnits));
    ExactRoundTrip(k.gaussian, s1, l.y1, Initial(ByteUnits));
    var b := EncodeSeq(k.gaussian, s0, l.y0, a);
    ExactRoundTrip(k.gaussian, s0, l.y0, a);
    var c := EncodeSeq(k.bitest, zi, l.z, b);
    ExactRoundTrip(k.bitest, zi, l.z, b);
    OpenUndoesFlush(ByteUnits, c);
    assert DecodeLatents(k, l.z, b) == Some(l);
  }

  // ---------------------------------------------------------------- the node code

  method BuildZIdx(g: Geom, qp: nat) returns (z: array<int>)
    requires GeomOk(g)
    ensures fresh(z) && z[..] == ZIndex(g, qp)
  {
    z := new int[Size(g.zc, g.zh, g.zw)](_ => 0);
    var plane: nat := Size(1, g.zh, g.zw);
    var c: nat := 0;
    while c < g.zc
      invariant c <= g.zc && z.Length == Size(g.zc, g.zh, g.zw) && fresh(z)
      invariant forall k: nat :: k < z.Length && ChannelOf(k, g.zh, g.zw) < c ==>
                  z[k] == qp * g.zc + ChannelOf(k, g.zh, g.zw)
    {
      var p := At(c, 0, 0, g.zh, g.zw);
      AtInRange(c, g.zh - 1, g.zw - 1, g.zc, g.zh, g.zw);
      var i := 0;
      ghost var before := z[..];
      PlaneEnd(c, g);
      while i < plane
        invariant 0 <= i <= plane && z.Length == Size(g.zc, g.zh, g.zw)
        invariant forall k: nat :: k < z.Length ==>
                    z[k] == if p <= k < p + i then qp * g.zc + c else before[k]
      {
        z[p + i] := qp * g.zc + c;
        i := i + 1;
      }
      forall k: nat | k < z.Length && ChannelOf(k, g.zh, g.zw) < c + 1
        ensures z[k] == qp * g.zc + ChannelOf(k, g.zh, g.zw)
      {
        InPlane(k, c, g);
      }
      c := c + 1;
    }
    forall k: nat | k < z.Length ensures ChannelOf(k, g.zh, g.zw) < g.zc {
      ReadBackAt(k, g.zc, g.zh, g.zw);
    }
  }

  lemma PlaneEnd(c: nat, g: Geom)
    requires GeomOk(g) && c < g.zc
    ensures At(c, 0, 0, g.zh, g.zw) + Size(1, g.zh, g.zw) <= Size(g.zc, g.zh, g.zw)
  {
    assert At(c, 0, 0, g.zh, g.zw) == Size(c, g.zh, g.zw);
    assert Size(c, g.zh, g.zw) + Size(1, g.zh, g.zw) == Size(c + 1, g.zh, g.zw) by {
      assert (c + 1) * g.zh == c * g.zh + g.zh;
      assert (c * g.zh + g.zh) * g.zw == c * g.zh * g.zw + g.zh * g.zw;
    }
    MulMonotone(c + 1, g.zc, g.zh);
    MulMonotone((c + 1) * g.zh, g.zc * g.zh, g.zw);
  }

  lemma InPlane(k: nat, c: nat, g: Geom)
    requires GeomOk(g)
    ensures var p := At(c, 0, 0, g.zh, g.zw);
            ChannelOf(k, g.zh, g.zw) == c <==> p <= k < p + Size(1, g.zh, g.zw)
  {
    DivDiv(k, g.zw, g.zh);
    assert g.zw * g.zh == g.zh * g.zw == Size(1, g.zh, g.zw);
    var plane := Size(1, g.zh, g.zw);
    MulMonotone(1, g.zh, g.zw);
    assert c * plane == At(c, 0, 0, g.zh, g.zw) by { MulAssoc(c, g.zh, g.zw); }
    DivModIdentity(k, plane);
    if c * plane <= k < c * plane + plane {
      DivIs(k, plane, c);
    }
  }

  /** The encoder's rANS section. */
  method EncodeFrame(k: Codec, qp: nat, l: Latents) returns (r: Result<seq<Byte>>)
    requires CodecOk(k) && LatentsOk(k, qp, l)
    ensures r.Success? ==> r.value == EncodePayload(k, qp, l)
    ensures r.Failure? ==> r.status == Internal
  {
    var zIdx := BuildZIdx(k.geom, qp);
    HasTables(k.gaussian);
    HasTables(k.bitest);
    var s0, s1 := ScaleMap(k.geom, l.z, false), ScaleMap(k.geom, l.z, true);
    var enc := new RansEncoder(ByteUnits, 65536);
    var st := enc.Encode(k.gaussian, s1, l.y1);
    if st == Ok {
      st := enc.Encode(k.gaussian, s0, l.y0);
    }
    if st == Ok {
      st := enc.Encode(k.bitest, zIdx[..], l.z);
    }
    if st != Ok {
      return Failure(Internal);
    }
    var out;
    st, out := enc.Flush();
    if st != Ok {
      return Failure(Internal);
    }
    return Success(out);
  }

  function OrFormat(l: Option<Latents>): Result<Latents> {
    match l
    case None => Failure(Format)
    case Some(latents) => Success(latents)
  }

  /** Both scale maps from z, then y0 and y1, then end of stream. */
  method DecodeMaps(k: Codec, z: seq<int>, dec: RansDecoder) returns (r: Result<Latents>)
    requires CodecOk(k) && |z| == Size(k.geom.zc, k.geom.zh, k.geom.zw)
    requires dec.Valid() && dec.isOpen && dec.variant == ByteUnits
    modifies dec
    ensures r == OrFormat(DecodeLatents(k, z, old(dec.View())))
  {
    var ny: nat := Size(k.geom.yc, k.geom.yh, k.geom.yw);
    var s0, s1 := new int[ny](_ => 0), new int[ny](_ => 0);
    var st := ExtractScales(k.geom, z, s0, s1, false);
    assert st == Ok;
    r := DecodeBoth(k, z, s0[..], s1[..], dec);
  }

  method DecodeBoth(k: Codec, z: seq<int>, s0: seq<int>, s1: seq<int>, dec: RansDecoder) returns (r: Result<Latents>)
    requires CodecOk(k) && |z| == Size(k.geom.zc, k.geom.zh, k.geom.zw)
    requires s0 == ScaleMap(k.geom, z, false) && s1 == ScaleMap(k.geom, z, true)
    requires dec.Valid() && dec.isOpen && dec.variant == ByteUnits
    modifies dec
    ensures r == OrFormat(DecodeLatents(k, z, old(dec.View())))
  {
    var y0, y1 := new int[|s0|](_ => 0), new int[|s1|](_ => 0);
    HasTables(k.gaussian);
    var st := dec.Decode(k.gaussian, y0, s0);
    if st != Ok {
      return Failure(Format);
    }
    ghost var first := y0[..];
    st := dec.Decode(k.gaussian, y1, s1);
    if st != Ok {
      return Failure(Format);
    }
    var atEnd := dec.CheckEof();
    assert y0[..] == first;
    return if atEnd then Success(Latents(z, y0[..], y1[..])) else Failure(Format);
  }

  /** The decoder's rANS section. */
  method DecodeFrame(k: Codec, qp: nat, data: seq<Byte>) returns (r: Result<Latents>)
    requires CodecOk(k)
    ensures r == OrFormat(DecodePayload(k, qp, data))
  {
    var zIdx := BuildZIdx(k.geom, qp);
    var z := new int[zIdx.Length](_ => 0);
    var dec := new RansDecoder(ByteUnits);
    var st := dec.Open(data);
    if st != Ok {
      return Failure(Format);
    }
    HasTables(k.bitest);
    st := dec.Decode(k.bitest, z, zIdx[..]);
    if st != Ok {
      return Failure(Format);
    }
    assert |zIdx[..]| == Size(k.geom.zc, k.geom.zh, k.geom.zw);
    r := DecodeMaps(k, z[..], dec);
  }
}
