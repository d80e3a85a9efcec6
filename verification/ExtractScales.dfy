/** extract_scales: the tiled loops, in their scalar and their four-wide form. */
module ScaleExtraction {
  import opened Words
  import opened Statuses
  import opened ScaleMaps

  /** Position k lies on row y of channel c, between columns x0 and xe. */
  predicate InSegment(g: Geom, k: nat, c: nat, y: nat, x0: nat, xe: nat)
    requires GeomOk(g)
  {
    ChannelOf(k, g.yh, g.yw) == c && RowOf(k, g.yh, g.yw) == y && x0 <= ColumnOf(k, g.yw) < xe
  }

  lemma SegmentIs(g: Geom, k: nat, c: nat, y: nat, x0: nat, xe: nat)
    requires GeomOk(g) && y < g.yh && x0 <= xe <= g.yw
    ensures InSegment(g, k, c, y, x0, xe) <==> At(c, y, x0, g.yh, g.yw) <= k < At(c, y, 0, g.yh, g.yw) + xe
    ensures InSegment(g, k, c, y, x0, xe) ==> k == At(c, y, 0, g.yh, g.yw) + ColumnOf(k, g.yw)
  {
    DivModIdentity(k, g.yw);
    DivModIdentity(k / g.yw, g.yh);
    var base := At(c, y, 0, g.yh, g.yw);
    if base <= k < base + g.yw {
      AtReadsBack(c, y, k - base, g.yh, g.yw);
      assert At(c, y, k - base, g.yh, g.yw) == k;
    }
  }

  /** The value the checkerboard puts into column x of row y when the tile's scales are v0 and v1. */
  function Checker(y: nat, x: nat, v0: int, v1: int): int {
    if y % 2 == x % 2 then v0 else v1
  }

  /** The inner loops over a row that starts at position r: four columns at a time, then one. */
  method FillSpan(p: array<int>, r: nat, y: nat, x0: nat, xe: nat, v0: int, v1: int, wide: bool)
    requires x0 <= xe && r + xe <= p.Length
    modifies p
    ensures forall k: nat :: k < p.Length ==>
              p[k] == if r + x0 <= k < r + xe then Checker(y, k - r, v0, v1) else old(p[k])
  {
    var x := x0;
    if wide {
      while x + 4 <= xe
        invariant x0 <= x <= xe
        invariant forall k: nat :: k < p.Length ==>
          p[k] == if r + x0 <= k < r + x then Checker(y, k - r, v0, v1) else old(p[k])
      {
        if (y + x) % 2 == 0 {
          p[r + x], p[r + x + 1], p[r + x + 2], p[r + x + 3] := v0, v1, v0, v1;
        } else {
          p[r + x], p[r + x + 1], p[r + x + 2], p[r + x + 3] := v1, v0, v1, v0;
        }
        x := x + 4;
      }
    }
    while x < xe
      invariant x0 <= x <= xe
      invariant forall k: nat :: k < p.Length ==>
        p[k] == if r + x0 <= k < r + x then Checker(y, k - r, v0, v1) else old(p[k])
    {
      p[r + x] := if y % 2 == x % 2 then v0 else v1;
      x := x + 1;
    }
  }

  method FillRow(g: Geom, p: array<int>, c: nat, y: nat, x0: nat, xe: nat, v0: int, v1: int, wide: bool)
    requires GeomOk(g) && p.Length == Size(g.yc, g.yh, g.yw)
    requires c < g.yc && y < g.yh && x0 <= xe <= g.yw
    modifies p
    ensures forall k: nat :: k < p.Length ==>
              p[k] == if InSegment(g, k, c, y, x0, xe) then Checker(y, ColumnOf(k, g.yw), v0, v1) else old(p[k])
  {
    var r := At(c, y, 0, g.yh, g.yw);
    AtInRange(c, y, g.yw - 1, g.yc, g.yh, g.yw);
    FillSpan(p, r, y, x0, xe, v0, v1, wide);
    forall k: nat | k < p.Length
      ensures p[k] == if InSegment(g, k, c, y, x0, xe) then Checker(y, ColumnOf(k, g.yw), v0, v1) else old(p[k])
    {
      SegmentIs(g, k, c, y, x0, xe);
    }
  }

  /** The cells of one tile, both maps. */
  predicate InTile(g: Geom, k: nat, c: nat, y0: nat, ye: nat, x0: nat, xe: nat)
    requires GeomOk(g)
  {
    ChannelOf(k, g.yh, g.yw) == c && y0 <= RowOf(k, g.yh, g.yw) < ye && x0 <= ColumnOf(k, g.yw) < xe
  }

  function Cell(g: Geom, z: seq<int>, second: bool, k: nat): int
    requires GeomOk(g) && |z| == Size(g.zc, g.zh, g.zw) && k < Size(g.yc, g.yh, g.yw)
  {
    ReadBackAt(k, g.yc, g.yh, g.yw);
    ScaleAt(g, z, second, ChannelOf(k, g.yh, g.yw), RowOf(k, g.yh, g.yw), ColumnOf(k, g.yw))
  }

  /** Inside a tile every row and column falls into the tile's own cell of z. */
  lemma TileCell(g: Geom, ch: nat, ty: nat, y: nat, tx: nat, x: nat)
    requires GeomOk(g)
    requires ty * g.spatialRepeat <= y < ty * g.spatialRepeat + g.spatialRepeat
    requires tx * g.spatialRepeat <= x < tx * g.spatialRepeat + g.spatialRepeat
    ensures ScaleCell(g, ch, y, x) == ScaleCell(g, ch, ty * g.spatialRepeat, tx * g.spatialRepeat)
  {
    DivIs(y, g.spatialRepeat, ty);
    DivIs(x, g.spatialRepeat, tx);
    DivIs(ty * g.spatialRepeat, g.spatialRepeat, ty);
    DivIs(tx * g.spatialRepeat, g.spatialRepeat, tx);
  }

  method FillTile(g: Geom, z: seq<int>, s0: array<int>, s1: array<int>, c: nat, ty: nat, tx: nat, wide: bool)
    requires GeomOk(g) && |z| == Size(g.zc, g.zh, g.zw) && s0 != s1
    requires s0.Length == Size(g.yc, g.yh, g.yw) == s1.Length && c < g.yc
    requires 0 <= ty * g.spatialRepeat < g.yh && 0 <= tx * g.spatialRepeat < g.yw
    modifies s0, s1
    ensures var y0, x0 := ty * g.spatialRepeat, tx * g.spatialRepeat;
            forall k: nat :: k < s0.Length ==>
              if InTile(g, k, c, y0, Min(y0 + g.spatialRepeat, g.yh), x0, Min(x0 + g.spatialRepeat, g.yw))
              then s0[k] == Cell(g, z, false, k) && s1[k] == Cell(g, z, true, k)
              else s0[k] == old(s0[k]) && s1[k] == old(s1[k])
  {
    var y0: nat, x0: nat := ty * g.spatialRepeat, tx * g.spatialRepeat;
    var ye: nat, xe: nat := Min(y0 + g.spatialRepeat, g.yh), Min(x0 + g.spatialRepeat, g.yw);
    ScaleCellInRange(g, c, y0, x0);
    ScaleCellInRange(g, c + g.yc, y0, x0);
    var v0 := ClampAbs(z[ScaleCell(g, c, y0, x0)], g.maxIndex);
    var v1 := ClampAbs(z[ScaleCell(g, c + g.yc, y0, x0)], g.maxIndex);
    var y := y0;
    while y < ye
      invariant y0 <= y <= ye
      invariant forall k: nat :: k < s0.Length ==>
        if InTile(g, k, c, y0, y, x0, xe)
        then s0[k] == Checker(RowOf(k, g.yh, g.yw), ColumnOf(k, g.yw), v0, v1)
             && s1[k] == Checker(RowOf(k, g.yh, g.yw), ColumnOf(k, g.yw), v1, v0)
        else s0[k] == old(s0[k]) && s1[k] == old(s1[k])
    {
      FillRow(g, s0, c, y, x0, xe, v0, v1, wide);
      FillRow(g, s1, c, y, x0, xe, v1, v0, wide);
      y := y + 1;
    }
    forall k: nat | k < s0.Length && InTile(g, k, c, y0, ye, x0, xe)
      ensures s0[k] == Cell(g, z, false, k) && s1[k] == Cell(g, z, true, k)
    {
      TileCell(g, c, ty, RowOf(k, g.yh, g.yw), tx, ColumnOf(k, g.yw));
      TileCell(g, c + g.yc, ty, RowOf(k, g.yh, g.yw), tx, ColumnOf(k, g.yw));
    }
  }

  /** The cells finished before tile (ty, tx) of channel c: earlier channels, tile rows and tiles. */
  predicate Finished(g: Geom, k: nat, c: nat, y0: nat, x0: nat)
    requires GeomOk(g)
  {
    var kc, ky, kx := ChannelOf(k, g.yh, g.yw), RowOf(k, g.yh, g.yw), ColumnOf(k, g.yw);
    kc < c || (kc == c && (ky < y0 || (ky < y0 + g.spatialRepeat && kx < x0)))
  }

  ghost predicate Extracted(g: Geom, z: seq<int>, s0: array<int>, s1: array<int>, c: nat, y0: nat, x0: nat)
    requires GeomOk(g) && |z| == Size(g.zc, g.zh, g.zw)
    requires s0.Length == Size(g.yc, g.yh, g.yw) == s1.Length
    reads s0, s1
  {
    forall k: nat :: k < s0.Length && Finished(g, k, c, y0, x0) ==>
      s0[k] == Cell(g, z, false, k) && s1[k] == Cell(g, z, true, k)
  }

  /** Both forms of the loop write every cell of both maps with the pointwise checkerboard. */
  method ExtractScales(g: Geom, z: seq<int>, s0: array<int>, s1: array<int>, wide: bool) returns (st: Status)
    requires GeomOk(g) ==> |z| == Size(g.zc, g.zh, g.zw)
                           && s0.Length == Size(g.yc, g.yh, g.yw) == s1.Length && s0 != s1
    modifies s0, s1
    ensures st == if GeomOk(g) then Ok else Invalid
    ensures st == Ok ==> s0[..] == ScaleMap(g, z, false) && s1[..] == ScaleMap(g, z, true)
    ensures st == Invalid ==> s0[..] == old(s0[..]) && s1[..] == old(s1[..])
  {
    if g.yc <= 0 || g.yh <= 0 || g.yw <= 0 || g.zc <= 0 || g.zh <= 0 || g.zw <= 0
       || g.channelRepeat <= 0 || g.spatialRepeat <= 0 || g.maxIndex < 0 {
      return Invalid;
    }
    var needZ := (2 * g.yc + g.channelRepeat - 1) / g.channelRepeat;
    if needZ > g.zc {
      return Invalid;
    }
    var c: nat := 0;
    while c < g.yc
      invariant c <= g.yc && Extracted(g, z, s0, s1, c, 0, 0)
    {
      ExtractChannel(g, z, s0, s1, c, wide);
      c := c + 1;
    }
    forall k: nat | k < s0.Length ensures Finished(g, k, c, 0, 0) {
      ReadBackAt(k, g.yc, g.yh, g.yw);
    }
    st := Ok;
  }

  method ExtractChannel(g: Geom, z: seq<int>, s0: array<int>, s1: array<int>, c: nat, wide: bool)
    requires GeomOk(g) && |z| == Size(g.zc, g.zh, g.zw) && s0 != s1
    requires s0.Length == Size(g.yc, g.yh, g.yw) == s1.Length && c < g.yc
    requires Extracted(g, z, s0, s1, c, 0, 0)
    modifies s0, s1
    ensures Extracted(g, z, s0, s1, c + 1, 0, 0)
  {
    var y0: nat, ty: nat := 0, 0;
    while y0 < g.yh
      invariant y0 == ty * g.spatialRepeat && Extracted(g, z, s0, s1, c, y0, 0)
      decreases g.yh - y0
    {
      var x0: nat, tx: nat := 0, 0;
      while x0 < g.yw
        invariant x0 == tx * g.spatialRepeat && Extracted(g, z, s0, s1, c, y0, x0)
        decreases g.yw - x0
      {
        FillTile(g, z, s0, s1, c, ty, tx, wide);
        TileDone(g, z, s0, s1, c, y0, x0);
        assert (tx + 1) * g.spatialRepeat == tx * g.spatialRepeat + g.spatialRepeat;
        x0, tx := x0 + g.spatialRepeat, tx + 1;
      }
      forall k: nat | k < s0.Length && Finished(g, k, c, y0 + g.spatialRepeat, 0)
        ensures Finished(g, k, c, y0, x0)
      {
        ReadBackAt(k, g.yc, g.yh, g.yw);
      }
      assert (ty + 1) * g.spatialRepeat == ty * g.spatialRepeat + g.spatialRepeat;
      y0, ty := y0 + g.spatialRepeat, ty + 1;
    }
    forall k: nat | k < s0.Length && Finished(g, k, c + 1, 0, 0) ensures Finished(g, k, c, y0, 0) {
      ReadBackAt(k, g.yc, g.yh, g.yw);
    }
  }

  lemma TileDone(g: Geom, z: seq<int>, s0: array<int>, s1: array<int>, c: nat, y0: nat, x0: nat)
    requires GeomOk(g) && |z| == Size(g.zc, g.zh, g.zw)
    requires s0.Length == Size(g.yc, g.yh, g.yw) == s1.Length
    requires Extracted(g, z, s0, s1, c, y0, x0)
    requires var ye, xe := Min(y0 + g.spatialRepeat, g.yh), Min(x0 + g.spatialRepeat, g.yw);
             forall k: nat :: k < s0.Length && InTile(g, k, c, y0, ye, x0, xe) ==>
               s0[k] == Cell(g, z, false, k) && s1[k] == Cell(g, z, true, k)
    ensures Extracted(g, z, s0, s1, c, y0, x0 + g.spatialRepeat)
  {
    forall k: nat | k < s0.Length && Finished(g, k, c, y0, x0 + g.spatialRepeat)
      ensures s0[k] == Cell(g, z, false, k) && s1[k] == Cell(g, z, true, k)
    {
      ReadBackAt(k, g.yc, g.yh, g.yw);
    }
  }
}
