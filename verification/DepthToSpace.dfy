/** Depth to space: the plain loops, the fused loops over the packed layout, and the inverse graph. */
module DepthToSpace {
  import opened Words
  import opened ScaleMaps

  /** oc output channels; the input is h by w with oc * bs * bs channels. */
  datatype Blocks = Blocks(oc: nat, h: nat, w: nat, bs: nat)

  predicate BlocksOk(g: Blocks) {
    g.oc > 0 && g.h > 0 && g.w > 0 && g.bs > 0
  }

  function OutH(g: Blocks): (n: nat)
    requires BlocksOk(g)
    ensures n > 0
  {
    MulMonotone(1, g.h, g.bs);
    g.h * g.bs
  }

  function OutW(g: Blocks): (n: nat)
    requires BlocksOk(g)
    ensures n > 0
  {
    MulMonotone(1, g.w, g.bs);
    g.w * g.bs
  }

  function InC(g: Blocks): nat
    requires BlocksOk(g)
  {
    g.bs * g.bs * g.oc
  }

  /** The input channel that holds output channel c at offset (dy, dx) in its block. */
  function BlockChannel(g: Blocks, c: nat, dy: nat, dx: nat): nat
    requires BlocksOk(g)
  {
    At(dy, dx, c, g.bs, g.oc)
  }

  /** Two coordinates in one: block and offset. */
  function Inside(block: nat, offset: nat, bs: nat): nat {
    MulMonotone(0, block, bs);
    block * bs + offset
  }

  lemma InsideSplits(block: nat, offset: nat, bs: nat, n: nat)
    requires offset < bs && block < n
    ensures Inside(block, offset, bs) / bs == block && Inside(block, offset, bs) % bs == offset
    ensures Inside(block, offset, bs) < n * bs
  {
    DivModUnique(block, offset, bs);
    MulMonotone(block + 1, n, bs);
    assert (block + 1) * bs == block * bs + bs;
  }

  lemma SplitInside(v: nat, bs: nat, n: nat)
    requires bs > 0 && v < n * bs
    ensures v / bs < n && v % bs < bs && Inside(v / bs, v % bs, bs) == v
  {
    DivLower(v, bs, 0);
    DivUpper(v, bs, n);
    DivModIdentity(v, bs);
  }

  /** Where an output cell comes from. */
  function FromIndex(g: Blocks, k: nat): nat
    requires BlocksOk(g)
  {
    var c, y, x := ChannelOf(k, OutH(g), OutW(g)), RowOf(k, OutH(g), OutW(g)), ColumnOf(k, OutW(g));
    DivLower(y, g.bs, 0);
    DivLower(x, g.bs, 0);
    At(BlockChannel(g, c, y % g.bs, x % g.bs), y / g.bs, x / g.bs, g.h, g.w)
  }

  /** Where an input cell goes to. */
  function ToIndex(g: Blocks, j: nat): nat
    requires BlocksOk(g)
  {
    var i, hy, wx := ChannelOf(j, g.h, g.w), RowOf(j, g.h, g.w), ColumnOf(j, g.w);
    var c, dx, dy := ColumnOf(i, g.oc), RowOf(i, g.bs, g.oc), ChannelOf(i, g.bs, g.oc);
    At(c, Inside(hy, dy, g.bs), Inside(wx, dx, g.bs), OutH(g), OutW(g))
  }

  lemma ChannelSplits(g: Blocks, c: nat, dy: nat, dx: nat)
    requires BlocksOk(g) && c < g.oc && dy < g.bs && dx < g.bs
    ensures BlockChannel(g, c, dy, dx) < InC(g)
    ensures var i := BlockChannel(g, c, dy, dx);
            ColumnOf(i, g.oc) == c && RowOf(i, g.bs, g.oc) == dx && ChannelOf(i, g.bs, g.oc) == dy
  {
    AtInRange(dy, dx, c, g.bs, g.bs, g.oc);
    AtReadsBack(dy, dx, c, g.bs, g.oc);
  }

  /** The output cell at offset (dy, dx) of block (hy, wx) in channel c. */
  function OutCell(g: Blocks, c: nat, hy: nat, dy: nat, wx: nat, dx: nat): nat
    requires BlocksOk(g)
  {
    At(c, Inside(hy, dy, g.bs), Inside(wx, dx, g.bs), OutH(g), OutW(g))
  }

  function InCell(g: Blocks, c: nat, hy: nat, dy: nat, wx: nat, dx: nat): nat
    requires BlocksOk(g)
  {
    At(BlockChannel(g, c, dy, dx), hy, wx, g.h, g.w)
  }

  predicate Coordinates(g: Blocks, c: nat, hy: nat, dy: nat, wx: nat, dx: nat) {
    c < g.oc && hy < g.h && dy < g.bs && wx < g.w && dx < g.bs
  }

  lemma OutComesFrom(g: Blocks, c: nat, hy: nat, dy: nat, wx: nat, dx: nat)
    requires BlocksOk(g) && Coordinates(g, c, hy, dy, wx, dx)
    ensures OutCell(g, c, hy, dy, wx, dx) < Size(g.oc, OutH(g), OutW(g))
    ensures FromIndex(g, OutCell(g, c, hy, dy, wx, dx)) == InCell(g, c, hy, dy, wx, dx)
  {
    InsideSplits(hy, dy, g.bs, g.h);
    InsideSplits(wx, dx, g.bs, g.w);
    AtInRange(c, Inside(hy, dy, g.bs), Inside(wx, dx, g.bs), g.oc, OutH(g), OutW(g));
    AtReadsBack(c, Inside(hy, dy, g.bs), Inside(wx, dx, g.bs), OutH(g), OutW(g));
  }

  lemma InGoesTo(g: Blocks, c: nat, hy: nat, dy: nat, wx: nat, dx: nat)
    requires BlocksOk(g) && Coordinates(g, c, hy, dy, wx, dx)
    ensures InCell(g, c, hy, dy, wx, dx) < Size(InC(g), g.h, g.w)
    ensures ToIndex(g, InCell(g, c, hy, dy, wx, dx)) == OutCell(g, c, hy, dy, wx, dx)
  {
    ChannelSplits(g, c, dy, dx);
    AtInRange(BlockChannel(g, c, dy, dx), hy, wx, InC(g), g.h, g.w);
    AtReadsBack(BlockChannel(g, c, dy, dx), hy, wx, g.h, g.w);
  }

  lemma Locate(k: nat, n: nat, h: nat, w: nat) returns (c: nat, y: nat, x: nat)
    requires h > 0 && w > 0 && k < Size(n, h, w)
    ensures c < n && y < h && x < w && At(c, y, x, h, w) == k
  {
    ReadBackAt(k, n, h, w);
    c, y, x := ChannelOf(k, h, w), RowOf(k, h, w), ColumnOf(k, w);
  }

  lemma Split(v: nat, bs: nat, n: nat) returns (block: nat, offset: nat)
    requires bs > 0 && v < n * bs
    ensures block < n && offset < bs && Inside(block, offset, bs) == v
  {
    SplitInside(v, bs, n);
    DivLower(v, bs, 0);
    block, offset := v / bs, v % bs;
  }

  lemma OutCoordinates(g: Blocks, k: nat) returns (c: nat, hy: nat, dy: nat, wx: nat, dx: nat)
    requires BlocksOk(g) && k < Size(g.oc, OutH(g), OutW(g))
    ensures Coordinates(g, c, hy, dy, wx, dx) && OutCell(g, c, hy, dy, wx, dx) == k
  {
    var y, x;
    c, y, x := Locate(k, g.oc, OutH(g), OutW(g));
    hy, dy := Split(y, g.bs, g.h);
    wx, dx := Split(x, g.bs, g.w);
  }

  lemma InCoordinates(g: Blocks, j: nat) returns (c: nat, hy: nat, dy: nat, wx: nat, dx: nat)
    requires BlocksOk(g) && j < Size(InC(g), g.h, g.w)
    ensures Coordinates(g, c, hy, dy, wx, dx) && InCell(g, c, hy, dy, wx, dx) == j
  {
    var i;
    i, hy, wx := Locate(j, InC(g), g.h, g.w);
    dy, dx, c := Locate(i, g.bs, g.bs, g.oc);
  }

  /** Going there and back, from an output cell and from an input cell. */
  lemma ToFrom(g: Blocks, k: nat)
    requires BlocksOk(g) && k < Size(g.oc, OutH(g), OutW(g))
    ensures FromIndex(g, k) < Size(InC(g), g.h, g.w) && ToIndex(g, FromIndex(g, k)) == k
  {
    var c, hy, dy, wx, dx := OutCoordinates(g, k);
    OutComesFrom(g, c, hy, dy, wx, dx);
    InGoesTo(g, c, hy, dy, wx, dx);
  }

  lemma FromTo(g: Blocks, j: nat)
    requires BlocksOk(g) && j < Size(InC(g), g.h, g.w)
    ensures ToIndex(g, j) < Size(g.oc, OutH(g), OutW(g)) && FromIndex(g, ToIndex(g, j)) == j
  {
    var c, hy, dy, wx, dx := InCoordinates(g, j);
    OutComesFrom(g, c, hy, dy, wx, dx);
    InGoesTo(g, c, hy, dy, wx, dx);
  }

  /** Depth to space and space to depth as maps on whole tensors. */
  function D2s<T>(g: Blocks, src: seq<T>): (dst: seq<T>)
    requires BlocksOk(g) && |src| == Size(InC(g), g.h, g.w)
    ensures |dst| == Size(g.oc, OutH(g), OutW(g))
  {
    seq(Size(g.oc, OutH(g), OutW(g)), k requires 0 <= k < Size(g.oc, OutH(g), OutW(g)) =>
      ToFrom(g, k);
      src[FromIndex(g, k)])
  }

  function S2d<T>(g: Blocks, src: seq<T>): (dst: seq<T>)
    requires BlocksOk(g) && |src| == Size(g.oc, OutH(g), OutW(g))
    ensures |dst| == Size(InC(g), g.h, g.w)
  {
    seq(Size(InC(g), g.h, g.w), j requires 0 <= j < Size(InC(g), g.h, g.w) =>
      FromTo(g, j);
      src[ToIndex(g, j)])
  }

  /** Depth to space undoes space to depth, and the other way round. */
  lemma Inverses<T>(g: Blocks, deep: seq<T>, wide: seq<T>)
    requires BlocksOk(g) && |deep| == Size(InC(g), g.h, g.w) && |wide| == Size(g.oc, OutH(g), OutW(g))
    ensures S2d(g, D2s(g, deep)) == deep && D2s(g, S2d(g, wide)) == wide
  {
    forall j: nat | j < |deep| ensures S2d(g, D2s(g, deep))[j] == deep[j] {
      FromTo(g, j);
    }
    forall k: nat | k < |wide| ensures D2s(g, S2d(g, wide))[k] == wide[k] {
      ToFrom(g, k);
    }
  }

  /** Cell by cell in plain arithmetic: column by row by channel, a block's cells in bs * bs channels groups. */
  lemma D2sCell<T>(g: Blocks, src: seq<T>, c: nat, hy: nat, dy: nat, wx: nat, dx: nat)
    requires BlocksOk(g) && |src| == Size(InC(g), g.h, g.w) && Coordinates(g, c, hy, dy, wx, dx)
    ensures var to := (c * (g.h * g.bs) + (hy * g.bs + dy)) * (g.w * g.bs) + (wx * g.bs + dx);
            var from := (((dy * g.bs + dx) * g.oc + c) * g.h + hy) * g.w + wx;
            0 <= to < |D2s(g, src)| && 0 <= from < |src| && D2s(g, src)[to] == src[from]
  {
    OutComesFrom(g, c, hy, dy, wx, dx);
    InGoesTo(g, c, hy, dy, wx, dx);
  }

  // ---------------------------------------------------------------- the graph that replaces SpaceToDepth

  predicate InDims(idx: seq<nat>, dims: seq<nat>) {
    |idx| == |dims| && forall i :: 0 <= i < |dims| ==> idx[i] < dims[i]
  }

  /** A position in flat data, the last dimension running fastest. A reshape leaves the flat data alone. */
  function Flat(idx: seq<nat>, dims: seq<nat>): nat
    requires |idx| == |dims|
    decreases |dims|
  {
    if dims == [] then 0
    else
      var n := |dims| - 1;
      Inside(Flat(idx[..n], dims[..n]), idx[n], dims[n])
  }

  function Permuted(s: seq<nat>, perm: seq<nat>): seq<nat>
    requires forall i :: 0 <= i < |perm| ==> perm[i] < |s|
  {
    seq(|perm|, i requires 0 <= i < |perm| => s[perm[i]])
  }

  /** out is the transpose of src, a tensor of shape dims, by perm. */
  ghost predicate Transposed<T(!new)>(src: seq<T>, dims: seq<nat>, perm: seq<nat>, out: seq<T>)
    requires forall i :: 0 <= i < |perm| ==> perm[i] < |dims|
  {
    && |out| == |src|
    && forall idx :: InDims(idx, dims) ==> CellMoved(src, dims, perm, out, idx)
  }

  ghost predicate CellMoved<T(!new)>(src: seq<T>, dims: seq<nat>, perm: seq<nat>, out: seq<T>, idx: seq<nat>)
    requires |idx| == |dims| && forall i :: 0 <= i < |perm| ==> perm[i] < |dims|
  {
    var from, to := Flat(idx, dims), Flat(Permuted(idx, perm), Permuted(dims, perm));
    from < |src| && to < |out| && out[to] == src[from]
  }

  /** One sample of a batch. */
  function Sample<T>(s: seq<T>, b: nat, size: nat): (r: seq<T>)
    requires b * size + size <= |s|
    ensures |r| == size
  {
    MulMonotone(0, b, size);
    s[b * size..b * size + size]
  }

  /** The shape before the transpose. */
  function Split6(g: Blocks, n: nat): seq<nat> {
    [n, g.oc, g.h, g.bs, g.w, g.bs]
  }

  const PERM: seq<nat> := [0, 3, 5, 1, 2, 4]

  lemma FlatNext(idx: seq<nat>, dims: seq<nat>, i: nat, n: nat)
    requires |idx| == |dims|
    ensures Flat(idx + [i], dims + [n]) == Inside(Flat(idx, dims), i, n)
  {
    assert (idx + [i])[..|idx|] == idx && (dims + [n])[..|dims|] == dims;
  }

  /** A leading index steps over as many cells as the dimensions behind it hold. */
  lemma LeadStep(x: nat, b: nat, m: nat, y: nat, i: nat, n: nat)
    requires x == b * m + y
    ensures Inside(x, i, n) == b * (m * n) + Inside(y, i, n)
  {
    MulAssoc(b, m, n);
    assert (b * m + y) * n == b * m * n + y * n;
  }

  lemma Flat6(b: nat, i1: nat, i2: nat, i3: nat, i4: nat, i5: nat,
              n: nat, n1: nat, n2: nat, n3: nat, n4: nat, n5: nat)
    ensures Flat([b, i1, i2, i3, i4, i5], [n, n1, n2, n3, n4, n5])
            == b * (n1 * n2 * n3 * n4 * n5) + Inside(Inside(Inside(Inside(i1, i2, n2), i3, n3), i4, n4), i5, n5)
  {
    assert Flat([b], [n]) == Inside(Flat([], []), b, n) == b;
    FlatNext([b], [n], i1, n1);
    FlatNext([b, i1], [n, n1], i2, n2);
    FlatNext([b, i1, i2], [n, n1, n2], i3, n3);
    FlatNext([b, i1, i2, i3], [n, n1, n2, n3], i4, n4);
    FlatNext([b, i1, i2, i3, i4], [n, n1, n2, n3, n4], i5, n5);
    assert [b] + [i1] == [b, i1] && [b, i1] + [i2] == [b, i1, i2] && [b, i1, i2] + [i3] == [b, i1, i2, i3];
    assert [b, i1, i2, i3] + [i4] == [b, i1, i2, i3, i4] && [b, i1, i2, i3, i4] + [i5] == [b, i1, i2, i3, i4, i5];
    assert [n] + [n1] == [n, n1] && [n, n1] + [n2] == [n, n1, n2] && [n, n1, n2] + [n3] == [n, n1, n2, n3];
    assert [n, n1, n2, n3] + [n4] == [n, n1, n2, n3, n4] && [n, n1, n2, n3, n4] + [n5] == [n, n1, n2, n3, n4, n5];
    Lead6(b, i1, i2, i3, i4, i5, n1, n2, n3, n4, n5);
  }

  lemma Lead6(b: nat, i1: nat, i2: nat, i3: nat, i4: nat, i5: nat, n1: nat, n2: nat, n3: nat, n4: nat, n5: nat)
    ensures Inside(Inside(Inside(Inside(Inside(b, i1, n1), i2, n2), i3, n3), i4, n4), i5, n5)
            == b * (n1 * n2 * n3 * n4 * n5) + Inside(Inside(Inside(Inside(i1, i2, n2), i3, n3), i4, n4), i5, n5)
  {
    var x1 := Inside(b, i1, n1);
    var x2, y2 := Inside(x1, i2, n2), Inside(i1, i2, n2);
    var x3, y3 := Inside(x2, i3, n3), Inside(y2, i3, n3);
    MulMonotone(0, n1, n2);
    MulMonotone(0, n1 * n2, n3);
    MulMonotone(0, n1 * n2 * n3, n4);
    LeadStep(x1, b, n1, i1, i2, n2);
    LeadStep(x2, b, n1 * n2, y2, i3, n3);
    LeadStep(x3, b, n1 * n2 * n3, y3, i4, n4);
    LeadStep(Inside(x3, i4, n4), b, n1 * n2 * n3 * n4, Inside(y3, i4, n4), i5, n5);
  }

  /** The two shapes hold the same number of cells. */
  lemma SameSize(g: Blocks)
    requires BlocksOk(g)
    ensures Size(g.oc, OutH(g), OutW(g)) == g.oc * g.h * g.bs * g.w * g.bs
    ensures Size(InC(g), g.h, g.w) == g.bs * g.bs * g.oc * g.h * g.w == g.oc * g.h * g.bs * g.w * g.bs
  {
    MulAssoc(g.oc, g.h, g.bs);
    MulAssoc(g.oc * (g.h * g.bs), g.w, g.bs);
    var x := g.oc * g.h;
    assert g.bs * g.bs * g.oc * g.h == x * g.bs * g.bs by {
      MulAssoc(g.bs * g.bs, g.oc, g.h);
      MulAssoc(x, g.bs, g.bs);
    }
    assert x * g.bs * g.bs * g.w == x * g.bs * g.w * g.bs by {
      MulAssoc(x * g.bs, g.bs, g.w);
      MulAssoc(x * g.bs, g.w, g.bs);
    }
  }

  /** Where the expansion takes a cell of sample b, before and after. */
  lemma ExpansionMoves(g: Blocks, n: nat, b: nat, c: nat, hy: nat, dy: nat, wx: nat, dx: nat)
    requires BlocksOk(g) && Coordinates(g, c, hy, dy, wx, dx)
    ensures var idx := [b, c, hy, dy, wx, dx];
            && Flat(idx, Split6(g, n)) == b * Size(g.oc, OutH(g), OutW(g)) + OutCell(g, c, hy, dy, wx, dx)
            && Flat(Permuted(idx, PERM), Permuted(Split6(g, n), PERM))
               == b * Size(InC(g), g.h, g.w) + InCell(g, c, hy, dy, wx, dx)
  {
    var idx := [b, c, hy, dy, wx, dx];
    assert Permuted(idx, PERM) == [b, dy, dx, c, hy, wx];
    assert Permuted(Split6(g, n), PERM) == [n, g.bs, g.bs, g.oc, g.h, g.w];
    Flat6(b, c, hy, dy, wx, dx, n, g.oc, g.h, g.bs, g.w, g.bs);
    Flat6(b, dy, dx, c, hy, wx, n, g.bs, g.bs, g.oc, g.h, g.w);
    SameSize(g);
    FlatRow(c, hy, dy, g.h, g.bs);
    FlatRow(Inside(c * g.h + hy, dy, g.bs), wx, dx, g.w, g.bs);
    assert Inside(c, hy, g.h) == c * g.h + hy;
  }

  /** A sample lies where its number says. */
  lemma SampleFits(n: nat, b: nat, size: nat)
    requires b < n
    ensures b * size + size <= n * size
  {
    MulMonotone(b + 1, n, size);
    assert (b + 1) * size == b * size + size;
  }

  /** One cell of a sample comes from the cell that space to depth takes it from. */
  lemma CellComesFrom<T(!new)>(g: Blocks, n: nat, src: seq<T>, out: seq<T>, b: nat, j: nat)
    requires BlocksOk(g) && |src| == n * Size(g.oc, OutH(g), OutW(g)) && b < n && j < Size(InC(g), g.h, g.w)
    requires Transposed(src, Split6(g, n), PERM, out)
    ensures ToIndex(g, j) < Size(g.oc, OutH(g), OutW(g))
    ensures var to, from := b * Size(InC(g), g.h, g.w) + j, b * Size(g.oc, OutH(g), OutW(g)) + ToIndex(g, j);
            0 <= to < |out| && 0 <= from < |src| && out[to] == src[from]
  {
    var c, hy, dy, wx, dx := InCoordinates(g, j);
    InGoesTo(g, c, hy, dy, wx, dx);
    OutComesFrom(g, c, hy, dy, wx, dx);
    ExpansionMoves(g, n, b, c, hy, dy, wx, dx);
    var idx: seq<nat> := [b, c, hy, dy, wx, dx];
    assert InDims(idx, Split6(g, n));
    assert CellMoved(src, Split6(g, n), PERM, out, idx);
    MulMonotone(0, b, Size(InC(g), g.h, g.w));
    MulMonotone(0, b, Size(g.oc, OutH(g), OutW(g)));
  }

  /** The same cell in the sample itself. */
  lemma ExpandedCell<T(!new)>(g: Blocks, n: nat, src: seq<T>, out: seq<T>, b: nat, j: nat)
    requires BlocksOk(g) && |src| == n * Size(g.oc, OutH(g), OutW(g)) && b < n && j < Size(InC(g), g.h, g.w)
    requires Transposed(src, Split6(g, n), PERM, out)
    ensures var size := Size(InC(g), g.h, g.w);
            && size == Size(g.oc, OutH(g), OutW(g)) && b * size + size <= |src| == |out|
            && Sample(out, b, size)[j] == S2d(g, Sample(src, b, size))[j]
  {
    var size := Size(InC(g), g.h, g.w);
    SameSize(g);
    SampleFits(n, b, size);
    CellComesFrom(g, n, src, out, b, j);
  }

  /**
   * Reshape to [n, c, h/b, b, w/b, b], transpose by [0, 3, 5, 1, 2, 4], reshape to [n, c*b*b, h/b, w/b]:
   * on every batch this is space to depth sample by sample, and the plain loops undo it.
   */
  lemma ReshapeTransposeReshape<T(!new)>(g: Blocks, n: nat, src: seq<T>, out: seq<T>, b: nat)
    requires BlocksOk(g) && |src| == n * Size(g.oc, OutH(g), OutW(g)) && b < n
    requires Transposed(src, Split6(g, n), PERM, out)
    ensures var size := Size(InC(g), g.h, g.w);
            && size == Size(g.oc, OutH(g), OutW(g)) && b * size + size <= |src| == |out|
            && Sample(out, b, size) == S2d(g, Sample(src, b, size))
            && D2s(g, Sample(out, b, size)) == Sample(src, b, size)
  {
    var size := Size(InC(g), g.h, g.w);
    SameSize(g);
    SampleFits(n, b, size);
    var sample := Sample(src, b, size);
    forall j: nat | j < size ensures Sample(out, b, size)[j] == S2d(g, sample)[j] {
      ExpandedCell(g, n, src, out, b, j);
    }
    Inverses(g, S2d(g, sample), sample);
  }

  /** (a * n + b) * m + d, with m * n in one step. */
  lemma FlatRow(a: nat, b: nat, d: nat, n: nat, m: nat)
    ensures Inside(Inside(a, b, n), d, m) == Inside(a, Inside(b, d, m), n * m)
  {
    MulMonotone(0, n, m);
    assert (a * n + b) * m + d == a * (n * m) + (b * m + d) by {
      MulAssoc(a, n, m);
      assert (a * n + b) * m == a * n * m + b * m;
    }
  }

  // ---------------------------------------------------------------- the plain loops

  lemma NextCell(c: nat, y: nat, x: nat, h: nat, w: nat)
    ensures At(c, y, x + 1, h, w) == At(c, y, x, h, w) + 1
    ensures At(c, y, w, h, w) == At(c, y + 1, 0, h, w)
    ensures At(c, h, 0, h, w) == At(c + 1, 0, 0, h, w)
  {
    assert (c * h + y) * w + w == (c * h + y + 1) * w;
    assert (c + 1) * h == c * h + h;
  }

  /** One row, cell after cell. */
  method PlainRow<T>(g: Blocks, src: seq<T>, dst: array<T>, c: nat, y: nat)
    requires BlocksOk(g) && |src| == Size(InC(g), g.h, g.w) && dst.Length == Size(g.oc, OutH(g), OutW(g))
    requires c < g.oc && y < OutH(g)
    requires forall j: nat :: j < dst.Length && j < At(c, y, 0, OutH(g), OutW(g)) ==> dst[j] == D2s(g, src)[j]
    modifies dst
    ensures forall j: nat :: j < dst.Length && j < At(c, y + 1, 0, OutH(g), OutW(g)) ==> dst[j] == D2s(g, src)[j]
  {
    var x: nat := 0;
    while x < OutW(g)
      invariant x <= OutW(g)
      invariant forall j: nat :: j < dst.Length && j < At(c, y, x, OutH(g), OutW(g)) ==> dst[j] == D2s(g, src)[j]
    {
      var k := At(c, y, x, OutH(g), OutW(g));
      AtInRange(c, y, x, g.oc, OutH(g), OutW(g));
      ToFrom(g, k);
      PlainIndex(g, c, y, x);
      DivLower(y, g.bs, 0);
      DivLower(x, g.bs, 0);
      dst[k] := src[At(BlockChannel(g, c, y % g.bs, x % g.bs), y / g.bs, x / g.bs, g.h, g.w)];
      NextCell(c, y, x, OutH(g), OutW(g));
      x := x + 1;
    }
    NextCell(c, y, x, OutH(g), OutW(g));
  }

  lemma PlainIndex(g: Blocks, c: nat, y: nat, x: nat)
    requires BlocksOk(g) && c < g.oc && y < OutH(g) && x < OutW(g)
    ensures y / g.bs >= 0 && x / g.bs >= 0
    ensures FromIndex(g, At(c, y, x, OutH(g), OutW(g)))
            == At(BlockChannel(g, c, y % g.bs, x % g.bs), y / g.bs, x / g.bs, g.h, g.w)
  {
    AtReadsBack(c, y, x, OutH(g), OutW(g));
    DivLower(y, g.bs, 0);
    DivLower(x, g.bs, 0);
  }

  /** nchw_d2s_dcr_f16 */
  method NchwD2s<T>(g: Blocks, src: seq<T>, dst: array<T>)
    requires BlocksOk(g) && |src| == Size(InC(g), g.h, g.w) && dst.Length == Size(g.oc, OutH(g), OutW(g))
    modifies dst
    ensures dst[..] == D2s(g, src)
  {
    var c: nat := 0;
    while c < g.oc
      invariant c <= g.oc
      invariant forall j: nat :: j < dst.Length && j < At(c, 0, 0, OutH(g), OutW(g)) ==> dst[j] == D2s(g, src)[j]
    {
      var y: nat := 0;
      while y < OutH(g)
        invariant y <= OutH(g)
        invariant forall j: nat :: j < dst.Length && j < At(c, y, 0, OutH(g), OutW(g)) ==> dst[j] == D2s(g, src)[j]
      {
        PlainRow(g, src, dst, c, y);
        y := y + 1;
      }
      NextCell(c, 0, 0, OutH(g), OutW(g));
      c := c + 1;
    }
    assert At(g.oc, 0, 0, OutH(g), OutW(g)) == Size(g.oc, OutH(g), OutW(g));
  }

  // ---------------------------------------------------------------- the packed layout

  /** Position of channel i at (y, x) when channels come in groups of c2, the group running fastest. */
  function PackedAt(g: Blocks, c2: nat, i: nat, y: nat, x: nat): nat
    requires c2 > 0
  {
    DivLower(i, c2, 0);
    Inside(At(i / c2, y, x, g.h, g.w), i % c2, c2)
  }

  lemma PackedInRange(g: Blocks, c1: nat, c2: nat, i: nat, y: nat, x: nat)
    requires c2 > 0 && i < c1 * c2 && y < g.h && x < g.w
    ensures PackedAt(g, c2, i, y, x) < Size(c1, g.h, g.w) * c2
  {
    SplitInside(i, c2, c1);
    DivLower(i, c2, 0);
    AtInRange(i / c2, y, x, c1, g.h, g.w);
    InsideSplits(At(i / c2, y, x, g.h, g.w), i % c2, c2, Size(c1, g.h, g.w));
  }

  /** The first InC(g) channels of a packed buffer, unpacked. */
  function Unpacked<T>(g: Blocks, c1: nat, c2: nat, src: seq<T>): (dst: seq<T>)
    requires BlocksOk(g) && c2 > 0 && InC(g) <= c1 * c2 && |src| == Size(c1, g.h, g.w) * c2
    ensures |dst| == Size(InC(g), g.h, g.w)
  {
    seq(Size(InC(g), g.h, g.w), j requires 0 <= j < Size(InC(g), g.h, g.w) =>
      ReadBackAt(j, InC(g), g.h, g.w);
      PackedInRange(g, c1, c2, ChannelOf(j, g.h, g.w), RowOf(j, g.h, g.w), ColumnOf(j, g.w));
      src[PackedAt(g, c2, ChannelOf(j, g.h, g.w), RowOf(j, g.h, g.w), ColumnOf(j, g.w))])
  }

  lemma UnpackedAt<T>(g: Blocks, c1: nat, c2: nat, src: seq<T>, i: nat, y: nat, x: nat)
    requires BlocksOk(g) && c2 > 0 && InC(g) <= c1 * c2 && |src| == Size(c1, g.h, g.w) * c2
    requires i < InC(g) && y < g.h && x < g.w
    ensures At(i, y, x, g.h, g.w) < Size(InC(g), g.h, g.w) && PackedAt(g, c2, i, y, x) < |src|
    ensures Unpacked(g, c1, c2, src)[At(i, y, x, g.h, g.w)] == src[PackedAt(g, c2, i, y, x)]
  {
    AtInRange(i, y, x, InC(g), g.h, g.w);
    AtReadsBack(i, y, x, g.h, g.w);
    PackedInRange(g, c1, c2, i, y, x);
  }

  /** What the fused loop is to produce: unpack, then depth to space. */
  function Fused<T>(g: Blocks, c1: nat, c2: nat, src: seq<T>): (dst: seq<T>)
    requires BlocksOk(g) && c2 > 0 && InC(g) <= c1 * c2 && |src| == Size(c1, g.h, g.w) * c2
    ensures |dst| == Size(g.oc, OutH(g), OutW(g))
  {
    D2s(g, Unpacked(g, c1, c2, src))
  }

  lemma FusedAt<T>(g: Blocks, c1: nat, c2: nat, src: seq<T>, c: nat, hy: nat, dy: nat, wx: nat, dx: nat)
    requires BlocksOk(g) && c2 > 0 && InC(g) <= c1 * c2 && |src| == Size(c1, g.h, g.w) * c2
    requires Coordinates(g, c, hy, dy, wx, dx)
    ensures var i := BlockChannel(g, c, dy, dx);
            && OutCell(g, c, hy, dy, wx, dx) < Size(g.oc, OutH(g), OutW(g))
            && PackedAt(g, c2, i, hy, wx) < |src|
            && Fused(g, c1, c2, src)[OutCell(g, c, hy, dy, wx, dx)] == src[PackedAt(g, c2, i, hy, wx)]
  {
    OutComesFrom(g, c, hy, dy, wx, dx);
    ChannelSplits(g, c, dy, dx);
    UnpackedAt(g, c1, c2, src, BlockChannel(g, c, dy, dx), hy, wx);
    ToFrom(g, OutCell(g, c, hy, dy, wx, dx));
  }

  /** Out of the packed layout, in plain arithmetic: the c2 channels of a group lie side by side. */
  lemma FusedCellIs<T>(g: Blocks, c1: nat, c2: nat, src: seq<T>, c: nat, hy: nat, dy: nat, wx: nat, dx: nat)
    requires BlocksOk(g) && c2 > 0 && InC(g) <= c1 * c2 && |src| == Size(c1, g.h, g.w) * c2
    requires Coordinates(g, c, hy, dy, wx, dx)
    ensures var ic := (dy * g.bs + dx) * g.oc + c;
            var to := (c * (g.h * g.bs) + (hy * g.bs + dy)) * (g.w * g.bs) + (wx * g.bs + dx);
            var from := ((ic / c2 * g.h + hy) * g.w + wx) * c2 + ic % c2;
            && 0 <= to < Size(g.oc, OutH(g), OutW(g)) && 0 <= from < |src|
            && D2s(g, Unpacked(g, c1, c2, src))[to] == src[from]
  {
    FusedAt(g, c1, c2, src, c, hy, dy, wx, dx);
  }

  /** The loop's own sum: the row's base, the column and the channel's offset. */
  lemma OffsetSum(g: Blocks, c2: nat, i: nat, y: nat, x: nat)
    requires c2 > 0
    ensures i / c2 >= 0
    ensures y * g.w * c2 + x * c2 + (i / c2 * g.h * g.w * c2 + i % c2) == PackedAt(g, c2, i, y, x)
  {
    DivLower(i, c2, 0);
    var q: nat := i / c2;
    Distribute(q, g.h, y, g.w, x, c2);
  }

  lemma Distribute(q: nat, h: nat, y: nat, w: nat, x: nat, c: nat)
    ensures ((q * h + y) * w + x) * c == q * h * w * c + y * w * c + x * c
  {
    assert (q * h + y) * w == q * h * w + y * w;
    assert (q * h * w + (y * w + x)) * c == q * h * w * c + (y * w + x) * c;
    assert (y * w + x) * c == y * w * c + x * c;
  }

  // ---------------------------------------------------------------- the fused loops

  /** Where row y of channel c begins. */
  function RowStart(g: Blocks, c: nat, y: nat): nat
    requires BlocksOk(g)
  {
    At(c, y, 0, OutH(g), OutW(g))
  }

  lemma InRow(g: Blocks, k: nat, c: nat, y: nat)
    requires BlocksOk(g) && k < Size(g.oc, OutH(g), OutW(g)) && c < g.oc && y < OutH(g)
    ensures RowStart(g, c, y) <= k < RowStart(g, c, y) + OutW(g)
            <==> ChannelOf(k, OutH(g), OutW(g)) == c && RowOf(k, OutH(g), OutW(g)) == y
  {
    ReadBackAt(k, g.oc, OutH(g), OutW(g));
    if RowStart(g, c, y) <= k < RowStart(g, c, y) + OutW(g) {
      AtReadsBack(c, y, k - RowStart(g, c, y), OutH(g), OutW(g));
    }
  }

  /** The offsets of the bs channels that share a row of output; the source keeps room for sixteen. */
  method ChannelOffsets(g: Blocks, c2: nat, c: nat, dy: nat) returns (off: seq<nat>)
    requires BlocksOk(g) && g.bs <= 16 && c2 > 0 && dy < g.bs
    ensures |off| == g.bs
    ensures forall dx: nat :: dx < g.bs ==> OffsetIs(g, c2, BlockChannel(g, c, dy, dx), off[dx])
  {
    off := [];
    var dx: nat := 0;
    while dx < g.bs
      invariant dx <= g.bs && |off| == dx
      invariant forall e: nat :: e < dx ==> OffsetIs(g, c2, BlockChannel(g, c, dy, e), off[e])
    {
      var ic: nat := BlockChannel(g, c, dy, dx);
      DivLower(ic, c2, 0);
      MulMonotone(0, ic / c2, g.h);
      MulMonotone(0, ic / c2 * g.h, g.w);
      MulMonotone(0, ic / c2 * g.h * g.w, c2);
      off := off + [ic / c2 * g.h * g.w * c2 + ic % c2];
      dx := dx + 1;
    }
  }

  predicate OffsetIs(g: Blocks, c2: nat, ic: nat, off: int)
    requires c2 > 0
  {
    off == ic / c2 * g.h * g.w * c2 + ic % c2
  }

  lemma FusedCell<T>(g: Blocks, c1: nat, c2: nat, src: seq<T>, c: nat, hy: nat, dy: nat, wx: nat, dx: nat, off: nat)
    requires BlocksOk(g) && c2 > 0 && InC(g) <= c1 * c2 && |src| == Size(c1, g.h, g.w) * c2
    requires Coordinates(g, c, hy, dy, wx, dx) && OffsetIs(g, c2, BlockChannel(g, c, dy, dx), off)
    ensures var k := RowStart(g, c, Inside(hy, dy, g.bs)) + (wx * g.bs + dx);
            var from := hy * g.w * c2 + wx * c2 + off;
            && 0 <= k < Size(g.oc, OutH(g), OutW(g)) && 0 <= from < |src|
            && wx * g.bs + dx < OutW(g)
            && Fused(g, c1, c2, src)[k] == src[from]
  {
    FusedAt(g, c1, c2, src, c, hy, dy, wx, dx);
    OffsetSum(g, c2, BlockChannel(g, c, dy, dx), hy, wx);
    InsideSplits(wx, dx, g.bs, g.w);
  }

  /** One row of output, block after block. */
  method FusedRow<T>(g: Blocks, c1: nat, c2: nat, src: seq<T>, out: array<T>, c: nat, hy: nat, dy: nat, off: seq<nat>)
    requires BlocksOk(g) && c2 > 0 && InC(g) <= c1 * c2 && |src| == Size(c1, g.h, g.w) * c2
    requires out.Length == Size(g.oc, OutH(g), OutW(g)) && c < g.oc && hy < g.h && dy < g.bs && |off| == g.bs
    requires forall dx: nat :: dx < g.bs ==> OffsetIs(g, c2, BlockChannel(g, c, dy, dx), off[dx])
    modifies out
    ensures var start := RowStart(g, c, Inside(hy, dy, g.bs));
            forall k :: 0 <= k < out.Length ==>
              out[k] == if start <= k < start + OutW(g) then Fused(g, c1, c2, src)[k] else old(out[k])
  {
    var start := RowStart(g, c, Inside(hy, dy, g.bs));
    var wx: nat := 0;
    while wx < g.w
      invariant wx <= g.w
      invariant forall k :: 0 <= k < out.Length ==>
                  out[k] == if start <= k < start + wx * g.bs then Fused(g, c1, c2, src)[k] else old(out[k])
    {
      var dx: nat := 0;
      while dx < g.bs
        invariant dx <= g.bs
        invariant forall k :: 0 <= k < out.Length ==>
                    out[k] == if start <= k < start + (wx * g.bs + dx) then Fused(g, c1, c2, src)[k] else old(out[k])
      {
        FusedCell(g, c1, c2, src, c, hy, dy, wx, dx, off[dx]);
        out[start + (wx * g.bs + dx)] := src[hy * g.w * c2 + wx * c2 + off[dx]];
        dx := dx + 1;
      }
      assert (wx + 1) * g.bs == wx * g.bs + g.bs;
      wx := wx + 1;
    }
  }

  /** The cells of the rows done before row hy of offset dy in channel c. */
  predicate CellDone(g: Blocks, k: nat, c: nat, dy: nat, hy: nat)
    requires BlocksOk(g)
  {
    var c', y' := ChannelOf(k, OutH(g), OutW(g)), RowOf(k, OutH(g), OutW(g));
    c' < c || (c' == c && (y' % g.bs < dy || (y' % g.bs == dy && y' / g.bs < hy)))
  }

  lemma DoneNext(g: Blocks, k: nat, c: nat, dy: nat, hy: nat)
    requires BlocksOk(g) && k < Size(g.oc, OutH(g), OutW(g)) && c < g.oc && dy < g.bs && hy < g.h
    ensures var start := RowStart(g, c, Inside(hy, dy, g.bs));
            CellDone(g, k, c, dy, hy + 1) <==> CellDone(g, k, c, dy, hy) || start <= k < start + OutW(g)
  {
    var y: nat := RowOf(k, OutH(g), OutW(g));
    InsideSplits(hy, dy, g.bs, g.h);
    InRow(g, k, c, Inside(hy, dy, g.bs));
    ReadBackAt(k, g.oc, OutH(g), OutW(g));
    SplitInside(y, g.bs, g.h);
  }

  lemma DoneCarries(g: Blocks, k: nat, c: nat, dy: nat)
    requires BlocksOk(g) && k < Size(g.oc, OutH(g), OutW(g))
    ensures CellDone(g, k, c, dy, g.h) <==> CellDone(g, k, c, dy + 1, 0)
    ensures CellDone(g, k, c, g.bs, 0) <==> CellDone(g, k, c + 1, 0, 0)
    ensures CellDone(g, k, g.oc, 0, 0) && !CellDone(g, k, 0, 0, 0)
  {
    var y: nat := RowOf(k, OutH(g), OutW(g));
    ReadBackAt(k, g.oc, OutH(g), OutW(g));
    SplitInside(y, g.bs, g.h);
    DivLower(y, g.bs, 0);
  }

  ghost predicate AllDone<T>(g: Blocks, out: seq<T>, want: seq<T>, c: nat, dy: nat, hy: nat)
    requires BlocksOk(g) && |out| == |want|
  {
    forall k: nat :: k < |out| && CellDone(g, k, c, dy, hy) ==> out[k] == want[k]
  }

  /** The rows of one channel at one offset. */
  method FusedBand<T>(g: Blocks, c1: nat, c2: nat, src: seq<T>, out: array<T>, c: nat, dy: nat)
    requires BlocksOk(g) && g.bs <= 16 && c2 > 0 && InC(g) <= c1 * c2 && |src| == Size(c1, g.h, g.w) * c2
    requires out.Length == Size(g.oc, OutH(g), OutW(g)) && c < g.oc && dy < g.bs
    requires AllDone(g, out[..], Fused(g, c1, c2, src), c, dy, 0)
    modifies out
    ensures AllDone(g, out[..], Fused(g, c1, c2, src), c, dy + 1, 0)
  {
    var off := ChannelOffsets(g, c2, c, dy);
    var hy: nat := 0;
    while hy < g.h
      invariant hy <= g.h && AllDone(g, out[..], Fused(g, c1, c2, src), c, dy, hy)
    {
      ghost var before := out[..];
      FusedRow(g, c1, c2, src, out, c, hy, dy, off);
      forall k: nat | k < out.Length && CellDone(g, k, c, dy, hy + 1) ensures out[..][k] == Fused(g, c1, c2, src)[k] {
        DoneNext(g, k, c, dy, hy);
        if CellDone(g, k, c, dy, hy) { assert before[k] == Fused(g, c1, c2, src)[k]; }
      }
      hy := hy + 1;
    }
    forall k: nat | k < out.Length && CellDone(g, k, c, dy + 1, 0) ensures out[..][k] == Fused(g, c1, c2, src)[k] {
      DoneCarries(g, k, c, dy);
    }
  }

  /** nc1hwc2_d2s_dcr_f16: equal to unpacking and then the plain loops. */
  method Nc1hwc2D2s<T>(g: Blocks, c1: nat, c2: nat, src: seq<T>, out: array<T>)
    requires BlocksOk(g) && g.bs <= 16 && c2 > 0 && InC(g) <= c1 * c2 && |src| == Size(c1, g.h, g.w) * c2
    requires out.Length == Size(g.oc, OutH(g), OutW(g))
    modifies out
    ensures out[..] == D2s(g, Unpacked(g, c1, c2, src))
  {
    ghost var want := Fused(g, c1, c2, src);
    var c: nat := 0;
    forall k: nat | k < out.Length ensures !CellDone(g, k, 0, 0, 0) {
      DoneCarries(g, k, 0, 0);
    }
    while c < g.oc
      invariant c <= g.oc && AllDone(g, out[..], want, c, 0, 0)
    {
      var dy: nat := 0;
      while dy < g.bs
        invariant dy <= g.bs && AllDone(g, out[..], want, c, dy, 0)
      {
        FusedBand(g, c1, c2, src, out, c, dy);
        dy := dy + 1;
      }
      forall k: nat | k < out.Length && CellDone(g, k, c + 1, 0, 0) ensures out[..][k] == want[k] {
        DoneCarries(g, k, c, 0);
      }
      c := c + 1;
    }
    forall k: nat | k < out.Length ensures out[..][k] == want[k] {
      DoneCarries(g, k, c, 0);
    }
  }
}
