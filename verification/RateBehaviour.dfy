/** How the rate controller reacts: less room means fewer bits, and what a frame cost moves its model. */
module RateBehaviour {
  import opened Words
  import opened RateControl

  // ---------------------------------------------------------------- the bucket

  /** What a bucket holds at a time, in plain terms: the rate times the seconds gone by is out, or everything. */
  lemma FillIs(b: Bucket, pt: real)
    requires b.bitrate > 0.0 && b.fps > 0.0 && b.fill >= 0 && (b.lastTs.Some? ==> b.lastTs.value <= pt)
    ensures var secs := if b.lastTs.Some? then pt - b.lastTs.value else 1.0 / b.fps;
            var out := (secs * b.bitrate).Floor;
            out >= 0 && FillAt(b, pt) == if out < b.fill then b.fill - out else 0
  {
    if b.lastTs.None? { Positive(1.0, b.fps); }
    NotNegative(Elapsed(b, pt), b.bitrate);
  }

  /** The size of a frame of this weight at an even rate. */
  lemma NominalIs(b: Bucket, weight: real)
    requires b.bitrate > 0.0 && b.fps > 0.0 && weight >= 0.0
    ensures b.bitrate / b.fps > 0.0 && Nominal(b, weight) == (weight * (b.bitrate / b.fps)).Floor >= 0
  {
    Positive(b.bitrate, b.fps);
    NotNegative(weight, b.bitrate / b.fps);
  }

  lemma DecayIs(a: Allocator, pt: real)
    requires a.bucket.fps > 0.0 && a.excess >= 0 && (a.bucket.lastTs.Some? ==> a.bucket.lastTs.value <= pt)
    ensures var secs := if a.bucket.lastTs.Some? then pt - a.bucket.lastTs.value else 1.0 / a.bucket.fps;
            && Decay(a, pt) == (secs / 0.5 * (a.excess as real)).Floor >= 0
            && (secs >= 0.5 ==> Decay(a, pt) >= a.excess)
  {
    ElapsedOk(a.bucket, pt);
    var secs := Elapsed(a.bucket, pt);
    NotNegative(secs / 0.5, a.excess as real);
    if secs >= 0.5 { AllDecays(secs / 0.5, a.excess); }
  }

  lemma AllDecays(k: real, excess: nat)
    requires k >= 1.0
    ensures (k * (excess as real)).Floor >= excess
  {
    NotNegative(k - 1.0, excess as real);
    assert (k - 1.0) * (excess as real) == k * (excess as real) - (excess as real);
    FloorAtLeast(k * (excess as real), excess);
  }

  lemma ExtraIs(b: Bucket, weight: real)
    requires b.bitrate > 0.0 && b.fps > 0.0 && weight >= 1.0
    ensures b.bitrate / b.fps > 0.0 && Extra(b, weight) == ((weight - 1.0) * (b.bitrate / b.fps)).Floor >= 0
  {
    Positive(b.bitrate, b.fps);
    NotNegative(weight - 1.0, b.bitrate / b.fps);
  }

  /**
   * What heavy frames are let off: the old excess is forgotten within half a second, a frame adds what its
   * weight exceeds one by, and there is never more than half a bucket.
   */
  lemma ExcessIs(a: Allocator, pt: real, weight: real)
    requires a.bucket.bitrate > 0.0 && a.bucket.fps > 0.0 && a.bucket.capacity >= 0 && a.excess >= 0 && weight >= 1.0
    requires a.bucket.lastTs.Some? ==> a.bucket.lastTs.value <= pt
    ensures a.bucket.bitrate / a.bucket.fps > 0.0
    ensures var secs := if a.bucket.lastTs.Some? then pt - a.bucket.lastTs.value else 1.0 / a.bucket.fps;
            var more := ((weight - 1.0) * (a.bucket.bitrate / a.bucket.fps)).Floor;
            var next, most := a.excess - (secs / 0.5 * (a.excess as real)).Floor + more, (0.5 * (a.bucket.capacity as real)).Floor;
            && more >= 0
            && PlannedExcess(a, pt, weight) == (if next < 0 then 0 else if next > most then most else next)
            && (secs >= 0.5 ==> PlannedExcess(a, pt, weight) <= more)
  {
    DecayIs(a, pt);
    ExtraIs(a.bucket, weight);
    TruncMonotone(0.0, 0.5 * (a.bucket.capacity as real));
    hide Decay, Extra;
  }

  lemma FloorAtLeast(x: real, n: int)
    requires x >= n as real
    ensures x.Floor >= n
  {
  }

  // ---------------------------------------------------------------- the allocation

  lemma TruncGrows(x: real, y: real)
    requires x <= y
    ensures Trunc(x) <= Trunc(y)
  {
  }

  lemma Scales(k: real, x: real, y: real)
    requires k > 0.0 && x <= y
    ensures k * x <= k * y
  {
    NotNegative(k, y - x);
    assert k * (y - x) == k * y - k * x;
  }

  lemma SpreadGrows(tau: real, fps: real, e: int, f: int)
    requires tau > 0.0 && fps > 0.0 && e <= f
    ensures Spread(tau, fps, e) <= Spread(tau, fps, f)
    ensures (e >= 0 ==> Spread(tau, fps, e) >= 0) && (e <= 0 ==> Spread(tau, fps, e) <= 0)
  {
    Positive(tau, fps);
    Positive(1.0, tau * fps);
    var k := 1.0 / (tau * fps);
    ShareGrows(k, e, f);
    assert Spread(tau, fps, e) == Trunc(k * (e as real)) && Spread(tau, fps, f) == Trunc(k * (f as real));
  }

  lemma ShareGrows(k: real, e: int, f: int)
    requires k > 0.0 && e <= f
    ensures Trunc(k * (e as real)) <= Trunc(k * (f as real))
    ensures (e >= 0 ==> Trunc(k * (e as real)) >= 0) && (e <= 0 ==> Trunc(k * (e as real)) <= 0)
  {
    Scales(k, e as real, f as real);
    TruncGrows(k * (e as real), k * (f as real));
    if e >= 0 {
      NotNegative(k, e as real);
    } else {
      NotNegative(k, (-e) as real);
      NegatedProduct(k, e);
    }
  }

  lemma CorrectionFalls(e: int, f: int, fps: real, override: real)
    requires fps > 0.0 && e <= f
    ensures Spread(Tau(e, override), fps, e) <= Spread(Tau(f, override), fps, f)
  {
    SpreadGrows(Tau(e, override), fps, e, if e < 0 <= f then 0 else f);
    SpreadGrows(Tau(f, override), fps, if e < 0 <= f then 0 else e, f);
  }

  lemma CutFalls(wanted: int, wanted': int, nominal: int, fill: int, fill': int, most: int)
    requires wanted' <= wanted && fill <= fill' && nominal >= 0
    ensures Cut(wanted', nominal, fill', most) <= Cut(wanted, nominal, fill, most)
  {
    TruncGrows(0.33 * (nominal as real), 2.0 * (nominal as real));
  }

  /** Two allocators that differ in the fill alone: the fuller one is allocated no more. */
  lemma FullerGetsLess(a: Allocator, fill: int, pt: real, weight: real, override: real)
    requires a.bucket.bitrate > 0.0 && a.bucket.fps > 0.0 && weight >= 0.0 && 0 <= a.bucket.fill <= fill
    requires a.bucket.lastTs.Some? ==> a.bucket.lastTs.value <= pt
    ensures var fuller := a.(bucket := a.bucket.(fill := fill));
            Allocate(fuller, pt, weight, override) <= Allocate(a, pt, weight, override)
  {
    var b := a.bucket;
    var fuller := a.(bucket := b.(fill := fill));
    SameButFill(a, fuller, pt, weight);
    AllocateFalls(a, fuller, pt, weight, override, Nominal(b, weight), Target(a, pt, weight), FillAt(b, pt), FillAt(fuller.bucket, pt));
  }

  lemma SameButFill(a: Allocator, a': Allocator, pt: real, weight: real)
    requires a.bucket.bitrate > 0.0 && a.bucket.fps > 0.0 && weight >= 0.0 && 0 <= a.bucket.fill <= a'.bucket.fill
    requires (a.bucket.lastTs.Some? ==> a.bucket.lastTs.value <= pt) && a' == a.(bucket := a.bucket.(fill := a'.bucket.fill))
    ensures FillAt(a.bucket, pt) <= FillAt(a'.bucket, pt) && BucketMax(a'.bucket) == BucketMax(a.bucket)
    ensures Nominal(a'.bucket, weight) == Nominal(a.bucket, weight) >= 0 && Target(a', pt, weight) == Target(a, pt, weight)
  {
    FillFallsLess(a.bucket, a'.bucket, pt);
    NominalIs(a.bucket, weight);
    SameNominal(a.bucket, a'.bucket, weight);
    SameTarget(a, a', pt, weight);
    hide FillAt, Elapsed, Nominal, Target;
  }

  lemma SameNominal(b: Bucket, c: Bucket, weight: real)
    requires b.fps > 0.0 && c == b.(fill := c.fill)
    ensures Nominal(b, weight) == Nominal(c, weight) && Extra(b, weight) == Extra(c, weight)
  {
  }

  lemma SameTarget(a: Allocator, a': Allocator, pt: real, weight: real)
    requires a.bucket.fps > 0.0 && a' == a.(bucket := a.bucket.(fill := a'.bucket.fill))
    ensures Target(a, pt, weight) == Target(a', pt, weight)
  {
    SameNominal(a.bucket, a'.bucket, weight);
    SameDecay(a, a', pt);
    hide Extra, Decay;
  }

  lemma SameDecay(a: Allocator, a': Allocator, pt: real)
    requires a.bucket.fps > 0.0 && a' == a.(bucket := a.bucket.(fill := a'.bucket.fill))
    ensures Decay(a, pt) == Decay(a', pt)
  {
  }

  lemma FillFallsLess(b: Bucket, c: Bucket, pt: real)
    requires b.bitrate > 0.0 && b.fps > 0.0 && 0 <= b.fill <= c.fill && c == b.(fill := c.fill)
    requires b.lastTs.Some? ==> b.lastTs.value <= pt
    ensures FillAt(b, pt) <= FillAt(c, pt)
  {
    FillIs(b, pt);
    FillIs(c, pt);
    hide FillAt;
  }

  lemma AllocateFalls(a: Allocator, a': Allocator, pt: real, weight: real, override: real,
                      nominal: nat, target: int, fill: int, fill': int)
    requires a.bucket.fps > 0.0 && a'.bucket.fps == a.bucket.fps && BucketMax(a'.bucket) == BucketMax(a.bucket)
    requires Nominal(a.bucket, weight) == nominal == Nominal(a'.bucket, weight)
    requires Target(a, pt, weight) == target == Target(a', pt, weight)
    requires FillAt(a.bucket, pt) == fill <= fill' == FillAt(a'.bucket, pt)
    ensures Allocate(a', pt, weight, override) <= Allocate(a, pt, weight, override)
  {
    hide Nominal, Target, FillAt, BucketMax, Spread, Tau, Cut;
    var e, e' := target - (fill + nominal), target - (fill' + nominal);
    CorrectionFalls(e', e, a.bucket.fps, override);
    CutFalls(nominal + Correction(a, pt, weight, override), nominal + Correction(a', pt, weight, override),
             nominal, fill, fill', BucketMax(a.bucket));
  }

  /** There is room for twice the nominal size. */
  predicate Roomy(a: Allocator, pt: real, weight: real)
    requires a.bucket.fps > 0.0
  {
    FillAt(a.bucket, pt) + 2 * Nominal(a.bucket, weight) <= (0.9 * (a.bucket.capacity as real)).Floor
  }

  /**
   * With room, a frame that would fill the bucket to the target gets its nominal size; one that would leave
   * it emptier gets the difference over the frames of a second, or of as many as its type asks for, on top,
   * up to twice its size; one that would overfill it pays the difference within a quarter of a second, down
   * to a third of its size.
   */
  lemma AllocationIs(a: Allocator, pt: real, weight: real, override: real)
    requires a.bucket.bitrate > 0.0 && a.bucket.fps > 0.0 && a.bucket.capacity >= 0 && weight >= 0.0 && Roomy(a, pt, weight)
    ensures var b, n := a.bucket, Allocate(a, pt, weight, override);
            var nominal, over := Nominal(b, weight), FillAt(b, pt) + Nominal(b, weight) - Target(a, pt, weight);
            var secs := if over > 0 then 0.25 else if override > 0.0 then override else 1.0;
            var share := Spread(secs, b.fps, if over < 0 then -over else over);
            && 0 <= nominal && share >= 0
            && (over == 0 ==> n == nominal)
            && (over < 0 ==> n == if share < nominal then nominal + share else 2 * nominal)
            && (over > 0 ==> n == if nominal - share > (0.33 * (nominal as real)).Floor then nominal - share
                                  else (0.33 * (nominal as real)).Floor)
  {
    var b := a.bucket;
    NominalNatural(b, weight);
    var nominal, over := Nominal(b, weight), FillAt(b, pt) + Nominal(b, weight) - Target(a, pt, weight);
    var secs := if over > 0 then 0.25 else if override > 0.0 then override else 1.0;
    assert Tau(-over, override) == secs;
    SpreadOdd(secs, b.fps, over);
    hide Nominal, FillAt, Target, Spread, Cut, BucketMax, Tau;
    CutIs(Spread(secs, b.fps, if over < 0 then -over else over), over, nominal, FillAt(b, pt), BucketMax(b));
  }

  lemma SpreadOdd(tau: real, fps: real, error: int)
    requires tau > 0.0 && fps > 0.0
    ensures var share := Spread(tau, fps, if error < 0 then -error else error);
            share >= 0 && Spread(tau, fps, -error) == if error < 0 then share else -share
  {
    SpreadIs(tau, fps, error);
    SpreadIs(tau, fps, -error);
  }

  lemma NominalNatural(b: Bucket, weight: real)
    requires b.bitrate > 0.0 && b.fps > 0.0 && weight >= 0.0
    ensures Nominal(b, weight) >= 0
  {
    NominalIs(b, weight);
  }


  lemma CutIs(share: nat, over: int, nominal: nat, fill: int, most: int)
    requires fill + 2 * nominal <= most
    ensures over < 0 ==> Cut(nominal + share, nominal, fill, most) == if share < nominal then nominal + share else 2 * nominal
    ensures over >= 0 ==>
              Cut(nominal - share, nominal, fill, most)
              == if nominal - share > (0.33 * (nominal as real)).Floor then nominal - share else (0.33 * (nominal as real)).Floor
  {
    ThirdOf(nominal);
  }

  /** What the difference comes to for each of the frames of tau seconds, the fraction of a bit left off. */
  lemma SpreadIs(tau: real, fps: real, error: int)
    requires tau > 0.0 && fps > 0.0
    ensures tau * fps > 0.0
    ensures var share := (1.0 / (tau * fps) * ((if error < 0 then -error else error) as real)).Floor;
            share >= 0 && Spread(tau, fps, error) == if error < 0 then -share else share
  {
    Positive(tau, fps);
    Positive(1.0, tau * fps);
    var k := 1.0 / (tau * fps);
    ShareOdd(k, error);
    assert Spread(tau, fps, error) == Trunc(k * (error as real));
  }

  lemma ShareOdd(k: real, n: int)
    requires k > 0.0
    ensures var share := (k * ((if n < 0 then -n else n) as real)).Floor;
            share >= 0 && Trunc(k * (n as real)) == if n < 0 then -share else share
  {
    if n >= 0 {
      NotNegative(k, n as real);
    } else {
      Positive(k, (-n) as real);
      NegatedProduct(k, n);
    }
  }

  lemma NegatedProduct(k: real, n: int)
    ensures k * ((-n) as real) == -(k * (n as real))
  {
    assert (-n) as real == -(n as real);
  }

  lemma ThirdOf(nominal: nat)
    ensures 0 <= Trunc(0.33 * (nominal as real)) == (0.33 * (nominal as real)).Floor <= nominal
    ensures Trunc(2.0 * (nominal as real)) == 2 * nominal
    ensures nominal > 0 ==> Trunc(0.33 * (nominal as real)) < nominal
  {
    assert 2.0 * (nominal as real) == (2 * nominal) as real;
  }

  /** Above the target a frame gets less than its nominal size as soon as the overshoot is a quarter of the frame rate. */
  lemma OvershootIsPaid(a: Allocator, pt: real, weight: real, override: real)
    requires a.bucket.bitrate > 0.0 && a.bucket.fps > 0.0 && a.bucket.capacity >= 0 && weight >= 0.0 && Roomy(a, pt, weight)
    requires Nominal(a.bucket, weight) > 0
    requires (FillAt(a.bucket, pt) + Nominal(a.bucket, weight) - Target(a, pt, weight)) as real >= 0.25 * a.bucket.fps
    ensures Allocate(a, pt, weight, override) < Nominal(a.bucket, weight)
  {
    var over := FillAt(a.bucket, pt) + Nominal(a.bucket, weight) - Target(a, pt, weight);
    NominalIs(a.bucket, weight);
    AllocationIs(a, pt, weight, override);
    ThirdOf(Nominal(a.bucket, weight));
    hide Nominal, FillAt, Target, Allocate;
    ShareAtLeastOne(0.25 * a.bucket.fps, over);
  }

  lemma ShareAtLeastOne(q: real, over: int)
    requires q > 0.0 && over as real >= q
    ensures (1.0 / q * (over as real)).Floor >= 1
  {
    Positive(1.0, q);
    Scales(1.0 / q, q, over as real);
    assert 1.0 / q * q == 1.0;
    FloorAtLeast(1.0 / q * (over as real), 1);
  }

  /** A frame is allocated nothing exactly when not even a third of its nominal size fits under nine tenths. */
  lemma NothingWhen(a: Allocator, pt: real, weight: real, override: real)
    requires a.bucket.fps > 0.0 && a.bucket.capacity >= 0 && Nominal(a.bucket, weight) >= 4
    ensures Allocate(a, pt, weight, override) == 0
            <==> FillAt(a.bucket, pt) + (0.33 * (Nominal(a.bucket, weight) as real)).Floor > (0.9 * (a.bucket.capacity as real)).Floor
  {
    var wanted := Nominal(a.bucket, weight) + Correction(a, pt, weight, override);
    CutToNothing(wanted, Nominal(a.bucket, weight), FillAt(a.bucket, pt), BucketMax(a.bucket));
    hide Nominal, FillAt, Correction, Cut;
  }

  lemma CutToNothing(wanted: int, nominal: int, fill: int, most: int)
    requires nominal >= 4
    ensures Cut(wanted, nominal, fill, most) == 0 <==> fill + (0.33 * (nominal as real)).Floor > most
  {
    ThirdOf(nominal);
  }

  /** A full bucket: 1 Mbit a second at 25 frames, 260000 bits in it when a plain frame comes, gets it a third of 40000. */
  lemma FullBucketExample(a: Allocator)
    requires a == Allocator(Bucket(1000000.0, 25.0, 1000000, 300000, None), 0)
    ensures Allocate(a, 0.0, 1.0, -1.0) == 13200
  {
    var b := a.bucket;
    assert 1.0 / 25.0 == 0.04 && 0.04 * 1000000.0 == 40000.0 && 1000000.0 / 25.0 == 40000.0;
    FillIs(b, 0.0);
    assert FillAt(b, 0.0) == 260000 && Nominal(b, 1.0) == 40000;
    ExcessIs(a, 0.0, 1.0);
    assert PlannedExcess(a, 0.0, 1.0) == 0;
    assert Target(a, 0.0, 1.0) == 100000;
    AllocationIs(a, 0.0, 1.0, -1.0);
    assert 0.25 * 25.0 == 6.25 && 1.0 / 6.25 == 0.16 && 0.16 * 200000.0 == 32000.0;
    assert (0.33 * 40000.0).Floor == 13200;
  }

  // ---------------------------------------------------------------- solving for a frame

  /**
   * The weight of a frame: half of what the last one weighed above one is left, and a key frame weighs at
   * least ten, a recovery six.
   */
  lemma WeightIs(w: Maths, s: Rc, pt: real, kind: FrameType, reserved: int)
    requires s.alloc.bucket.fps > 0.0 && s.pixels > 0.0
    ensures var t := Solved(w, s, pt, kind, reserved);
            && t.pending.Some? && t.pending.value.pt == pt && t.pending.value.kind == kind
            && var left := (s.prevWeight + 1.0) / 2.0;
               var least := if kind.IFrame? then 10.0 else if kind.LtrRecovery? then 6.0 else 1.0;
               t.pending.value.weight == if left < least then least else left
  {
  }

  /** The level asked of a frame: its own model's for the bits a pixel may cost, and nothing else changes. */
  lemma SolveAsksModel(w: Maths, s: Rc, pt: real, kind: FrameType, reserved: int)
    requires s.alloc.bucket.fps > 0.0 && s.pixels > 0.0
    ensures var t := Solved(w, s, pt, kind, reserved);
            && t == s.(pending := t.pending) && t.pending.Some?
            && var p := t.pending.value;
               && p.allotted == Allocate(s.alloc, pt, p.weight, if kind.PFrame? then -1.0 else 100.0)
               && var bits := if p.allotted < reserved then 0 else p.allotted - reserved;
                  var model := if kind.IFrame? then s.i else if kind.LtrRecovery? then s.ltr
                               else if s.lastRecovery.IFrame? then s.pIdr else s.pLtr;
                  var q := w.pick(model, (bits as real) / s.pixels);
                  p.q == if q < 0 then 0 else if q > 63 then 63 else q
  {
  }

  /** The models a controller starts with, and its bucket: a second at the rate, a tenth of it full. */
  lemma StartsWith(pixels: real, bitrate: real, fps: real)
    requires bitrate > 0.0
    ensures var s := Created(pixels, bitrate, fps);
            && s.alloc == Allocator(Bucket(bitrate, fps, bitrate.Floor, bitrate.Floor / 10, None), 0)
            && s.pending == None && s.prevWeight == 1.0 && s.lastRecovery == IFrame
            && (s.i.alpha, s.i.beta, s.i.ramp) == (0.04969, -0.03626, false)
            && (s.ltr.alpha, s.ltr.beta, s.ltr.ramp) == (0.01047, -0.05306, false)
            && (s.pIdr.alpha, s.pIdr.beta, s.pIdr.rampTarget) == (0.02156, -0.03173, -0.07654)
            && (s.pLtr.alpha, s.pLtr.beta, s.pLtr.rampTarget) == (0.00315, -0.05925, -0.08307)
            && s.pIdr.ramp && s.pLtr.ramp && s.pIdr.rampDuration == 9.0 == s.pLtr.rampDuration
            && AtSeed(s.i, s.i) && AtSeed(s.ltr, s.ltr) && AtSeed(s.pIdr, s.pIdr) && AtSeed(s.pLtr, s.pLtr)
            && forall m :: m in {s.i, s.ltr, s.pIdr, s.pLtr} ==> m.alphaTau == 2.0 == m.seedTau
  {
    TruncMonotone(0.0, bitrate);
    Tenths(bitrate.Floor);
  }

  // ---------------------------------------------------------------- learning from a frame

  /** exp turns sums into products. */
  ghost predicate ExpAdds(w: Maths) {
    w.exp(0.0) == 1.0 && forall x, y :: w.exp(x + y) == w.exp(x) * w.exp(y)
  }

  /** What a model takes a pixel to cost at level q. */
  function Predicted(w: Maths, m: Rq, q: int): real {
    Times(m.alpha, w.exp(-Times(m.curBeta, q as real)))
  }

  lemma ExpCancels(w: Maths, x: real)
    requires ExpAdds(w)
    ensures w.exp(x) * w.exp(-x) == 1.0
  {
    assert x + -x == 0.0;
    assert w.exp(x + -x) == w.exp(x) * w.exp(-x);
  }

  /** A blend of alphas is a blend of costs. */
  lemma BlendScales(was: real, bpp: real, up: real, down: real, tau: real)
    requires tau != 0.0 && up * down == 1.0
    ensures Times(Blend(was, Times(bpp, up), tau), down) == Blend(Times(was, down), bpp, tau)
  {
    var k := 1.0 / tau;
    assert (was + k * (bpp * up - was)) * down == was * down + k * (bpp * (up * down) - was * down);
  }

  lemma RampCancels(w: Maths, alpha: real, beta: real, beta': real, q: real)
    requires ExpAdds(w)
    ensures Times(Times(alpha, w.exp(Times(beta' - beta, q))), w.exp(-Times(beta', q))) == Times(alpha, w.exp(-Times(beta, q)))
  {
    var x, y := (beta' - beta) * q, -(beta' * q);
    assert x + y == -(beta * q);
    assert w.exp(x + y) == w.exp(x) * w.exp(y);
    MulAssocReal(alpha, w.exp(x), w.exp(y));
  }

  lemma MulAssocReal(a: real, b: real, c: real)
    ensures a * b * c == a * (b * c)
  {
  }

  /**
   * What a frame teaches: at the level it was coded with, the model's cost moves towards the real one by one
   * part in alphaTau (Blend), whatever the ramp does to the model meanwhile. With the time constant of two that all
   * models have it ends up half way.
   */
  lemma LearnsCost(w: Maths, m: Rq, q: int, bpp: real)
    requires ExpAdds(w) && m.alphaTau != 0.0 && m.seedTau != 0.0
    ensures Predicted(w, Learned(w, m, q, bpp), q) == Blend(Predicted(w, m, q), bpp, m.alphaTau)
    ensures m.alphaTau == 2.0 ==> Predicted(w, Learned(w, m, q, bpp), q) == (Predicted(w, m, q) + bpp) / 2.0
  {
    var x := Times(m.curBeta, q as real);
    ExpCancels(w, x);
    BlendScales(m.alpha, bpp, w.exp(x), w.exp(-x), m.alphaTau);
    RampKeepsCost(w, m, q, bpp);
    hide Learned, Blend, Times;
    HalfWay(Predicted(w, m, q), bpp, m.alphaTau);
  }

  lemma HalfWay(was: real, seen: real, tau: real)
    requires tau != 0.0
    ensures tau == 2.0 ==> Blend(was, seen, tau) == (was + seen) / 2.0
  {
  }

  /** The ramp moves beta and alpha so that the cost at the level in use stays what it was. */
  lemma RampKeepsCost(w: Maths, m: Rq, q: int, bpp: real)
    requires ExpAdds(w) && m.alphaTau != 0.0 && m.seedTau != 0.0
    ensures Predicted(w, Learned(w, m, q, bpp), q)
            == Times(Blend(m.alpha, Observed(w, m, q, bpp), m.alphaTau), w.exp(-Times(m.curBeta, q as real)))
  {
    var alpha := Blend(m.alpha, Observed(w, m, q, bpp), m.alphaTau);
    hide Blend, Observed, Ramped, Times;
    if m.ramp {
      RampCancels(w, alpha, m.curBeta, Ramped(m, m.updates + 1), q as real);
    }
  }

  /** The first frame after a reset also moves the seed, in the same way; later ones leave it. */
  lemma LearnsSeed(w: Maths, m: Rq, q: int, bpp: real)
    requires ExpAdds(w) && m.alphaTau != 0.0 && m.seedTau != 0.0
    ensures var was, now := m.(alpha := m.seedAlpha), m.(alpha := Learned(w, m, q, bpp).seedAlpha);
            Predicted(w, now, q) == if m.updates > 0 then Predicted(w, was, q) else Blend(Predicted(w, was, q), bpp, m.seedTau)
    ensures Learned(w, m, q, bpp).updates == m.updates + 1
  {
    var x := Times(m.curBeta, q as real);
    ExpCancels(w, x);
    BlendScales(m.seedAlpha, bpp, w.exp(x), w.exp(-x), m.seedTau);
    SeedLearned(w, m, q, bpp);
    hide Learned, Blend, Times;
  }

  lemma SeedLearned(w: Maths, m: Rq, q: int, bpp: real)
    requires m.alphaTau != 0.0 && m.seedTau != 0.0
    ensures Learned(w, m, q, bpp).seedAlpha
            == if m.updates > 0 then m.seedAlpha else Blend(m.seedAlpha, Times(bpp, w.exp(Times(m.curBeta, q as real))), m.seedTau)
  {
  }

  /** The ramp: so many even steps from the base to the target, and no further. */
  lemma RampSteps(w: Maths, m: Rq, q: int, bpp: real)
    requires m.alphaTau != 0.0 && m.seedTau != 0.0 && m.rampDuration == 9.0
    ensures var n := m.updates + 1;
            Learned(w, m, q, bpp).curBeta == if !m.ramp then m.curBeta
                                             else if n >= 9 then m.rampTarget
                                             else m.beta + (n as real) / 9.0 * (m.rampTarget - m.beta)
  {
  }

  /**
   * The record of a frame's cost: the bucket drains to its time and takes all its bits, its own model learns
   * if there was a payload, and a key frame or recovery sends both models of predicted frames back to their seeds.
   */
  lemma UpdateBooks(w: Maths, s: Rc, header: int, payload: int)
    requires Running(s) && s.pending.Some?
    ensures var p, t := s.pending.value, Updated(w, s, header, payload);
            && t.pending == None && t.prevWeight == p.weight && t.pixels == s.pixels
            && t.alloc.bucket.fill == FillAt(s.alloc.bucket, p.pt) + header + payload && t.alloc.bucket.lastTs == Some(p.pt)
            && t.alloc.bucket.capacity == s.alloc.bucket.capacity && t.alloc.bucket.bitrate == s.alloc.bucket.bitrate
            && t.alloc.excess == PlannedExcess(s.alloc, p.pt, p.weight)
            && (payload <= 0 ==> (t.i, t.ltr, t.pIdr, t.pLtr, t.lastRecovery) == (s.i, s.ltr, s.pIdr, s.pLtr, s.lastRecovery))
            && (payload > 0 ==>
                  var bpp := (payload as real) / s.pixels;
                  && t.i == (if p.kind.IFrame? then Learned(w, s.i, p.q, bpp) else s.i)
                  && t.ltr == (if p.kind.LtrRecovery? then Learned(w, s.ltr, p.q, bpp) else s.ltr)
                  && (p.kind.PFrame? ==>
                        && t.lastRecovery == s.lastRecovery
                        && t.pIdr == (if s.lastRecovery.IFrame? then Learned(w, s.pIdr, p.q, bpp) else s.pIdr)
                        && t.pLtr == (if s.lastRecovery.IFrame? then s.pLtr else Learned(w, s.pLtr, p.q, bpp)))
                  && (!p.kind.PFrame? ==> t.lastRecovery == p.kind && AtSeed(t.pIdr, s.pIdr) && AtSeed(t.pLtr, s.pLtr)))
  {
  }

  /** m as it was, but with its seed for alpha, its base for beta and nothing learned. */
  predicate AtSeed(m: Rq, was: Rq) {
    && m.alpha == was.seedAlpha == m.seedAlpha && m.curBeta == was.beta == m.beta && m.updates == 0
    && m == was.(alpha := m.alpha, curBeta := m.curBeta, updates := 0)
  }

  /** A new rate: the bucket holds a second of it, and is as far above a tenth as it was, within its bounds. */
  lemma RetuneShifts(s: Rc, bitrate: real)
    requires s.alloc.bucket.capacity >= 0
    ensures var b, c := s.alloc.bucket, Configured(s, bitrate).alloc.bucket;
            && (bitrate <= 0.0 ==> Configured(s, bitrate) == s)
            && (bitrate > 0.0 ==>
                  var fill := b.fill - b.capacity / 10 + bitrate.Floor / 10;
                  c == b.(bitrate := bitrate, capacity := bitrate.Floor,
                          fill := if fill < 0 then 0 else if fill > bitrate.Floor then bitrate.Floor else fill)
                  && Configured(s, bitrate) == s.(alloc := s.alloc.(bucket := c)))
  {
    if bitrate > 0.0 {
      TruncMonotone(0.0, bitrate);
      Tenths(s.alloc.bucket.capacity);
      Tenths(bitrate.Floor);
    }
  }

  /** The bounds in numbers: fill from empty to nine tenths, excess up to half, weights from 1 to 10, positive alphas. */
  lemma BoundedMeans(s: Rc, now: real)
    requires Bounded(s, now)
    ensures var b := s.alloc.bucket;
            && b.capacity == b.bitrate.Floor >= 0 && 0 <= b.fill <= (0.9 * (b.capacity as real)).Floor
            && 0 <= s.alloc.excess <= (0.5 * (b.capacity as real)).Floor && 1.0 <= s.prevWeight <= 10.0
            && (s.pending.Some? ==> 1.0 <= s.pending.value.weight <= 10.0 && 0 <= s.pending.value.allotted
                                    && s.pending.value.allotted <= (0.9 * (b.capacity as real)).Floor)
    ensures forall m :: m in {s.i, s.ltr, s.pIdr, s.pLtr} ==>
              && m.alpha > 0.0 && m.seedAlpha > 0.0
              && (!m.ramp ==> m.curBeta == m.beta)
              && (m.ramp ==> m.beta <= m.curBeta <= m.rampTarget || m.rampTarget <= m.curBeta <= m.beta)
  {
    if s.pending.Some? { FillFalls(s.alloc.bucket, s.pending.value.pt); }
    hide FillAt;
  }
}
