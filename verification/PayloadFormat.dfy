/** Which distribution codes which cell of a frame, cell by cell, and in which order the tensors lie in the stream. */
module PayloadFormat {
  import opened Words
  import opened ScaleMaps
  import opened RansStep
  import opened RansCoder
  import opened RansRoundTrip
  import opened RansStream
  import opened Payloads

  // ---------------------------------------------------------------- the indices, in plain arithmetic

  /** Of geometries with an extent those are accepted whose last channel, 2 * yc - 1, still has its plane in z. */
  lemma AcceptedWhen(g: Geom)
    ensures GeomOk(g) <==>
              && 1 <= g.yc && 1 <= g.yh && 1 <= g.yw && 1 <= g.zc && 1 <= g.zh && 1 <= g.zw
              && 1 <= g.channelRepeat && 1 <= g.spatialRepeat && 0 <= g.maxIndex
              && (2 * g.yc - 1) / g.channelRepeat < g.zc
  {
    if g.channelRepeat >= 1 {
      DivModIdentity(2 * g.yc - 1, g.channelRepeat);
      DivModUnique((2 * g.yc - 1) / g.channelRepeat + 1, (2 * g.yc - 1) % g.channelRepeat, g.channelRepeat);
      assert ((2 * g.yc - 1) / g.channelRepeat + 1) * g.channelRepeat == (2 * g.yc - 1) / g.channelRepeat * g.channelRepeat + g.channelRepeat;
    }
  }

  /** Cell (c, y, x) of z is coded under the c-th of the distributions of its level. */
  lemma ZIndexAt(g: Geom, qp: nat, c: nat, y: nat, x: nat)
    requires GeomOk(g) && c < g.zc && y < g.zh && x < g.zw
    ensures 0 <= (c * g.zh + y) * g.zw + x < |ZIndex(g, qp)| == g.zc * g.zh * g.zw
    ensures ZIndex(g, qp)[(c * g.zh + y) * g.zw + x] == qp * g.zc + c
  {
    AtInRange(c, y, x, g.zc, g.zh, g.zw);
    AtReadsBack(c, y, x, g.zh, g.zw);
  }

  /** Where in z the scale of a latent channel at (y, x) is looked up. */
  function CellOf(g: Geom, ch: nat, y: nat, x: nat): int
    requires g.channelRepeat > 0 && g.spatialRepeat > 0
  {
    var row := if y / g.spatialRepeat < g.zh then y / g.spatialRepeat else g.zh - 1;
    var column := if x / g.spatialRepeat < g.zw then x / g.spatialRepeat else g.zw - 1;
    (ch / g.channelRepeat * g.zh + row) * g.zw + column
  }

  /**
   * The checkerboard: in the first map a cell whose row and column are both even or both odd has the scale of
   * its own channel and any other that of the channel yc further on; in the second map it is the other way
   * round. The scale is the magnitude of a cell of z, cut to the largest index.
   */
  lemma ScaleMapAt(g: Geom, z: seq<int>, second: bool, c: nat, y: nat, x: nat)
    requires GeomOk(g) && |z| == g.zc * g.zh * g.zw && c < g.yc && y < g.yh && x < g.yw
    ensures var k := (c * g.yh + y) * g.yw + x;
            var j := CellOf(g, if ((y + x) % 2 == 0) == !second then c else c + g.yc, y, x);
            && |z| == Size(g.zc, g.zh, g.zw)
            && 0 <= k < |ScaleMap(g, z, second)| == g.yc * g.yh * g.yw && 0 <= j < |z|
            && ScaleMap(g, z, second)[k] == (var v := if z[j] < 0 then -z[j] else z[j]; if v < g.maxIndex then v else g.maxIndex)
  {
    AtInRange(c, y, x, g.yc, g.yh, g.yw);
    AtReadsBack(c, y, x, g.yh, g.yw);
    assert (y + x) % 2 == 0 <==> y % 2 == x % 2;
    var ch: nat := if ((y + x) % 2 == 0) == !second then c else c + g.yc;
    ScaleCellInRange(g, ch, y, x);
  }

  // ---------------------------------------------------------------- the order of the tensors

  lemma {:induction false} EncodeAppend(c: Coder, i: seq<int>, j: seq<int>, v: seq<int>, w: seq<int>, s: Stream)
    requires ValidCoder(c) && |i| == |v| && |j| == |w|
    ensures EncodeSeq(c, i + j, v + w, s) == EncodeSeq(c, i, v, EncodeSeq(c, j, w, s))
  {
    if i == [] {
      assert i + j == j && v + w == w;
    } else {
      EncodeAppend(c, i[1..], j, v[1..], w, s);
      assert (i + j)[1..] == i[1..] + j && (v + w)[1..] == v[1..] + w;
    }
  }

  /**
   * The order of the tensors, against the plain coder: where both coders are one, a payload is the stream of z,
   * y0 and y1 one after the other under their indices, coded in one go.
   */
  lemma PayloadIsOneStream(k: Codec, qp: nat, l: Latents)
    requires CodecOk(k) && LatentsOk(k, qp, l) && k.bitest == k.gaussian
    ensures EncodePayload(k, qp, l)
            == EncodeBytes(k.gaussian, ZIndex(k.geom, qp) + (ScaleMap(k.geom, l.z, false) + ScaleMap(k.geom, l.z, true)),
                           l.z + (l.y0 + l.y1))
  {
    var c, s := k.gaussian, Initial(ByteUnits);
    var zi, s0, s1 := ZIndex(k.geom, qp), ScaleMap(k.geom, l.z, false), ScaleMap(k.geom, l.z, true);
    EncodeAppend(c, s0, s1, l.y0, l.y1, s);
    EncodeAppend(c, zi, s0 + s1, l.z, l.y0 + l.y1, s);
  }

  /** What comes out of a payload first, whatever the coders: z under its own coder, before any scale is known. */
  lemma ZComesFirst(k: Codec, qp: nat, l: Latents)
    requires CodecOk(k) && LatentsOk(k, qp, l)
    ensures Opened(ByteUnits, EncodePayload(k, qp, l)).Some?
    ensures var first := DecodeSeq(k.bitest, ZIndex(k.geom, qp), Opened(ByteUnits, EncodePayload(k, qp, l)).value);
            first.Some? && first.value.0 == l.z
            && DecodeLatents(k, l.z, first.value.1) == Some(l)
  {
    var s1, s0, zi := ScaleMap(k.geom, l.z, true), ScaleMap(k.geom, l.z, false), ZIndex(k.geom, qp);
    var a := EncodeSeq(k.gaussian, s1, l.y1, Initial(ByteUnits));
    ExactRoundTrip(k.gaussian, s1, l.y1, Initial(ByteUnits));
    var b := EncodeSeq(k.gaussian, s0, l.y0, a);
    ExactRoundTrip(k.gaussian, s0, l.y0, a);
    ExactRoundTrip(k.bitest, zi, l.z, b);
    OpenUndoesFlush(ByteUnits, EncodeSeq(k.bitest, zi, l.z, b));
  }
}
