/** Scale extraction: spreading the hyperprior over the latent grid in a checkerboard. */
module ScaleMaps {
  import opened Words

  datatype Geom = Geom(yc: int, yh: int, yw: int, zc: int, zh: int, zw: int,
                       channelRepeat: int, spatialRepeat: int, maxIndex: int)

  /** The guards of extract_scales. */
  predicate GeomOk(g: Geom) {
    && g.yc > 0 && g.yh > 0 && g.yw > 0 && g.zc > 0 && g.zh > 0 && g.zw > 0
    && g.channelRepeat > 0 && g.spatialRepeat > 0 && g.maxIndex >= 0
    && (2 * g.yc + g.channelRepeat - 1) / g.channelRepeat <= g.zc
  }

  /** Position of (c, y, x) in a channel-major buffer of height h and width w. */
  function At(c: nat, y: nat, x: nat, h: nat, w: nat): nat {
    MulMonotone(0, c, h);
    MulMonotone(0, c * h + y, w);
    (c * h + y) * w + x
  }

  function Size(c: nat, h: nat, w: nat): nat {
    MulMonotone(0, c, h);
    MulMonotone(0, c * h, w);
    c * h * w
  }

  lemma AtInRange(c: nat, y: nat, x: nat, n: nat, h: nat, w: nat)
    requires c < n && y < h && x < w
    ensures At(c, y, x, h, w) < Size(n, h, w)
  {
    MulMonotone(c + 1, n, h);
    assert (c + 1) * h == c * h + h;
    MulMonotone(c * h + y + 1, n * h, w);
    assert (c * h + y + 1) * w == (c * h + y) * w + w;
  }

  /** The three coordinates of a position, read back. */
  function ChannelOf(k: nat, h: nat, w: nat): nat
    requires h > 0 && w > 0
  {
    DivLower(k, w, 0);
    DivLower(k / w, h, 0);
    k / w / h
  }

  function RowOf(k: nat, h: nat, w: nat): nat
    requires h > 0 && w > 0
  {
    DivLower(k, w, 0);
    k / w % h
  }

  function ColumnOf(k: nat, w: nat): nat
    requires w > 0
  {
    k % w
  }

  lemma AtReadsBack(c: nat, y: nat, x: nat, h: nat, w: nat)
    requires y < h && x < w
    ensures var k := At(c, y, x, h, w);
            ChannelOf(k, h, w) == c && RowOf(k, h, w) == y && ColumnOf(k, w) == x
  {
    DivModUnique(c * h + y, x, w);
    DivModUnique(c, y, h);
  }

  lemma ReadBackAt(k: nat, n: nat, h: nat, w: nat)
    requires h > 0 && w > 0 && k < Size(n, h, w)
    ensures ChannelOf(k, h, w) < n && RowOf(k, h, w) < h && ColumnOf(k, w) < w
    ensures At(ChannelOf(k, h, w), RowOf(k, h, w), ColumnOf(k, w), h, w) == k
  {
    DivModIdentity(k, w);
    DivModIdentity(k / w, h);
    DivUpper(k, w, n * h);
    DivUpper(k / w, h, n);
  }

  /** clamp_abs_scale */
  function ClampAbs(value: int, maxIndex: int): int {
    var mag := if value < 0 then -value else value;
    if mag > maxIndex then maxIndex else mag
  }

  function Min(a: int, b: int): int {
    if a < b then a else b
  }

  /** Where the scale of channel ch at (y, x) sits in z: the cell it falls in, clamped to the edge. */
  function ScaleCell(g: Geom, ch: nat, y: nat, x: nat): nat
    requires GeomOk(g)
  {
    DivLower(ch, g.channelRepeat, 0);
    DivLower(y, g.spatialRepeat, 0);
    DivLower(x, g.spatialRepeat, 0);
    At(ch / g.channelRepeat, Min(y / g.spatialRepeat, g.zh - 1), Min(x / g.spatialRepeat, g.zw - 1), g.zh, g.zw)
  }

  lemma ScaleCellInRange(g: Geom, ch: nat, y: nat, x: nat)
    requires GeomOk(g) && ch < 2 * g.yc
    ensures ScaleCell(g, ch, y, x) < Size(g.zc, g.zh, g.zw)
  {
    DivLower(ch, g.channelRepeat, 0);
    DivLower(y, g.spatialRepeat, 0);
    DivLower(x, g.spatialRepeat, 0);
    var need := (2 * g.yc + g.channelRepeat - 1) / g.channelRepeat;
    DivModIdentity(2 * g.yc + g.channelRepeat - 1, g.channelRepeat);
    assert ch < need * g.channelRepeat;
    DivUpper(ch, g.channelRepeat, need);
    AtInRange(ch / g.channelRepeat, Min(y / g.spatialRepeat, g.zh - 1), Min(x / g.spatialRepeat, g.zw - 1),
              g.zc, g.zh, g.zw);
  }

  /** The checkerboard: even cells of the first map take the channel's own scale, odd ones its twin's. */
  function ScaleAt(g: Geom, z: seq<int>, second: bool, c: nat, y: nat, x: nat): int
    requires GeomOk(g) && |z| == Size(g.zc, g.zh, g.zw) && c < g.yc
  {
    var own := (y % 2 == x % 2) != second;
    var ch: nat := if own then c else c + g.yc;
    ScaleCellInRange(g, ch, y, x);
    ClampAbs(z[ScaleCell(g, ch, y, x)], g.maxIndex)
  }

  function ScaleMap(g: Geom, z: seq<int>, second: bool): (s: seq<int>)
    requires GeomOk(g) && |z| == Size(g.zc, g.zh, g.zw)
    ensures |s| == Size(g.yc, g.yh, g.yw)
    ensures forall k :: 0 <= k < |s| ==> 0 <= s[k] <= g.maxIndex
  {
    seq(Size(g.yc, g.yh, g.yw), k requires 0 <= k < Size(g.yc, g.yh, g.yw) =>
      ReadBackAt(k, g.yc, g.yh, g.yw);
      ScaleAt(g, z, second, ChannelOf(k, g.yh, g.yw), RowOf(k, g.yh, g.yw), ColumnOf(k, g.yw)))
  }
}
