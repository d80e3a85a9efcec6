/** The rate controller: a leaky bucket and adaptive models, with doubles as reals and int64 casts as truncation. */
module RateControl {
  import opened Words

  datatype FrameType = IFrame | PFrame | LtrRecovery

  datatype Bucket = Bucket(bitrate: real, fps: real, capacity: int, fill: int, lastTs: Option<real>)

  datatype Allocator = Allocator(bucket: Bucket, excess: int)

  datatype Rq = Rq(beta: real, alphaTau: real, seedTau: real, ramp: bool, rampTarget: real, rampDuration: real,
                   seedAlpha: real, alpha: real, curBeta: real, updates: nat)

  /** What solve() left for update(). */
  datatype Pending = Pending(pt: real, kind: FrameType, weight: real, allotted: int, q: int)

  datatype Rc = Rc(pixels: real, alloc: Allocator, i: Rq, ltr: Rq, pIdr: Rq, pLtr: Rq, lastRecovery: FrameType,
                   pending: Option<Pending>, prevWeight: real)

  /** exp, of which only the sign is known, and the choice of a level from a model. */
  datatype Maths = Maths(exp: real -> real, pick: (Rq, real) -> int)

  ghost predicate ExpPositive(m: Maths) {
    forall x :: m.exp(x) > 0.0
  }

  /** static_cast<int64_t> of a double */
  function Trunc(r: real): int {
    if r >= 0.0 then r.Floor else -(-r).Floor
  }

  lemma TruncMonotone(a: real, b: real)
    requires 0.0 <= a <= b
    ensures 0 <= Trunc(a) <= Trunc(b)
  {
  }

  // ---------------------------------------------------------------- the bucket

  function Elapsed(b: Bucket, pt: real): real
    requires b.fps > 0.0
  {
    if b.lastTs.Some? then pt - b.lastTs.value else 1.0 / b.fps
  }

  /** What the rate takes out since the last drain. */
  function Flow(b: Bucket, pt: real): int
    requires b.fps > 0.0
  {
    Trunc(Times(Elapsed(b, pt), b.bitrate))
  }

  function Times(a: real, b: real): real {
    a * b
  }

  function Drain(b: Bucket, pt: real): int
    requires b.fps > 0.0
  {
    var drain := Flow(b, pt);
    if drain < b.fill then drain else b.fill
  }

  function FillAt(b: Bucket, pt: real): int
    requires b.fps > 0.0
  {
    b.fill - Drain(b, pt)
  }

  function BucketMax(b: Bucket): int {
    Trunc(0.9 * (b.capacity as real))
  }

  /** How much of the excess is forgotten by a time: all of it in half a second. */
  function Decay(a: Allocator, pt: real): int
    requires a.bucket.fps > 0.0
  {
    Trunc(Elapsed(a.bucket, pt) / 0.5 * (a.excess as real))
  }

  /** What a frame of this weight may take beyond its share. */
  function Extra(b: Bucket, weight: real): int
    requires b.fps > 0.0
  {
    Trunc((weight - 1.0) * (b.bitrate / b.fps))
  }

  function PlannedExcess(a: Allocator, pt: real, weight: real): int
    requires a.bucket.fps > 0.0
  {
    var more := Extra(a.bucket, weight);
    Clamped(a.excess - Decay(a, pt) + (if more < 0 then 0 else more), 0, Trunc(0.5 * (a.bucket.capacity as real)))
  }

  function Clamped(v: int, lo: int, hi: int): int {
    var low := if v < lo then lo else v;
    if low > hi then hi else low
  }

  function Nominal(b: Bucket, weight: real): int
    requires b.fps > 0.0
  {
    Trunc(weight * (b.bitrate / b.fps))
  }

  /** Where the fill should be: a tenth of the bucket, and what heavy frames have been let off lately. */
  function Target(a: Allocator, pt: real, weight: real): int
    requires a.bucket.fps > 0.0
  {
    Trunc(0.1 * (a.bucket.capacity as real)) + PlannedExcess(a, pt, weight)
  }

  /** The time constant: a quarter of a second above the target, below it a second or what the frame type asks for. */
  function Tau(error: int, override: real): (t: real)
    ensures t > 0.0
  {
    if error >= 0 then (if override > 0.0 then override else 1.0) else 0.25
  }

  /** A deviation from the target divided over the frames of tau seconds. */
  function Spread(tau: real, fps: real, error: int): int
    requires tau > 0.0 && fps > 0.0
  {
    Positive(tau, fps);
    Trunc(1.0 / (tau * fps) * (error as real))
  }

  function Correction(a: Allocator, pt: real, weight: real, tauOverride: real): int
    requires a.bucket.fps > 0.0
  {
    var error := Target(a, pt, weight) - (FillAt(a.bucket, pt) + Nominal(a.bucket, weight));
    Spread(Tau(error, tauOverride), a.bucket.fps, error)
  }

  lemma Positive(a: real, b: real)
    requires a > 0.0 && b > 0.0
    ensures a * b > 0.0 && a / b > 0.0
  {
  }

  lemma NotNegative(a: real, b: real)
    requires a >= 0.0 && b >= 0.0
    ensures a * b >= 0.0
  {
  }

  /** What is wanted, cut to the room there is, kept within a third and twice the nominal size, or nothing. */
  function Cut(wanted: int, nominal: int, fill: int, most: int): int {
    var headroom := most - fill;
    var capped := if wanted > headroom then headroom else wanted;
    var lo, hi := Trunc(0.33 * (nominal as real)), Trunc(2.0 * (nominal as real));
    var raised := if capped < lo then lo else capped;
    var allotted := if raised > hi then hi else raised;
    if fill + allotted > most then 0 else allotted
  }

  function Allocate(a: Allocator, pt: real, weight: real, tauOverride: real): int
    requires a.bucket.fps > 0.0
  {
    var nominal := Nominal(a.bucket, weight);
    Cut(nominal + Correction(a, pt, weight, tauOverride), nominal, FillAt(a.bucket, pt), BucketMax(a.bucket))
  }

  // ---------------------------------------------------------------- the models

  function Reset(m: Rq): Rq {
    m.(alpha := m.seedAlpha, curBeta := m.beta, updates := 0)
  }

  /** One step of exponential smoothing. */
  function Blend(was: real, seen: real, tau: real): real
    requires tau != 0.0
  {
    was + 1.0 / tau * (seen - was)
  }

  function Observed(w: Maths, m: Rq, q: int, bpp: real): real {
    Times(bpp, w.exp(Times(m.curBeta, q as real)))
  }

  /** What the ramp multiplies alpha by, so that the level in use costs the same as before. */
  function Rescale(w: Maths, m: Rq, q: int): real {
    w.exp(Times(Ramped(m, m.updates + 1) - m.curBeta, q as real))
  }

  function Learned(w: Maths, m: Rq, q: int, bpp: real): Rq
    requires m.alphaTau != 0.0 && m.seedTau != 0.0
  {
    var seen := Observed(w, m, q, bpp);
    var alpha := Blend(m.alpha, seen, m.alphaTau);
    var seed := if m.updates == 0 then Blend(m.seedAlpha, seen, m.seedTau) else m.seedAlpha;
    if !m.ramp then m.(alpha := alpha, seedAlpha := seed, updates := m.updates + 1)
    else
      m.(alpha := Times(alpha, Rescale(w, m, q)), seedAlpha := seed, updates := m.updates + 1,
         curBeta := Ramped(m, m.updates + 1))
  }

  function Progress(m: Rq, n: nat): real {
    var p := (n as real) / (if m.rampDuration > 1.0 then m.rampDuration else 1.0);
    if p > 1.0 then 1.0 else p
  }

  function Ramped(m: Rq, n: nat): real {
    m.beta + Progress(m, n) * (m.rampTarget - m.beta)
  }

  predicate Between(x: real, a: real, b: real) {
    a <= x <= b || b <= x <= a
  }

  /** Every alpha is positive and every beta between its base and its ramp target. */
  predicate ModelOk(m: Rq) {
    && Paced(m) && m.alpha > 0.0 && m.seedAlpha > 0.0
    && if m.ramp then Between(m.curBeta, m.beta, m.rampTarget) else m.curBeta == m.beta
  }

  lemma Reciprocal(tau: real)
    requires tau >= 1.0
    ensures 0.0 < 1.0 / tau <= 1.0
  {
    Positive(1.0, tau);
    NotNegative(tau - 1.0, 1.0 / tau);
    assert (tau - 1.0) * (1.0 / tau) == 1.0 - 1.0 / tau;
  }

  lemma Mixed(was: real, seen: real, s: real)
    requires was > 0.0 && seen > 0.0 && 0.0 < s <= 1.0
    ensures was + s * (seen - was) > 0.0
  {
    Positive(s, seen);
    NotNegative(1.0 - s, was);
    assert was + s * (seen - was) == (1.0 - s) * was + s * seen;
  }

  lemma BlendPositive(was: real, seen: real, tau: real)
    requires was > 0.0 && seen > 0.0 && tau >= 1.0
    ensures Blend(was, seen, tau) > 0.0
  {
    Reciprocal(tau);
    Mixed(was, seen, 1.0 / tau);
  }

  lemma RampBetween(beta: real, target: real, p: real)
    requires 0.0 <= p <= 1.0
    ensures Between(beta + p * (target - beta), beta, target)
  {
    if target >= beta {
      NotNegative(p, target - beta);
      NotNegative(1.0 - p, target - beta);
      assert (1.0 - p) * (target - beta) == (target - beta) - p * (target - beta);
    } else {
      NotNegative(p, beta - target);
      NotNegative(1.0 - p, beta - target);
      assert (1.0 - p) * (beta - target) == (beta - target) - p * (beta - target);
      assert p * (target - beta) == -(p * (beta - target));
    }
  }

  lemma RampedBetween(m: Rq, n: nat)
    ensures Between(Ramped(m, n), m.beta, m.rampTarget)
  {
    var d := if m.rampDuration > 1.0 then m.rampDuration else 1.0;
    if n > 0 { Positive(n as real, d); }
    RampBetween(m.beta, m.rampTarget, Progress(m, n));
  }

  lemma LearnedOk(w: Maths, m: Rq, q: int, bpp: real)
    requires ExpPositive(w) && ModelOk(m) && bpp > 0.0
    ensures ModelOk(Learned(w, m, q, bpp))
  {
    var seen := Observed(w, m, q, bpp);
    Positive(bpp, w.exp(Times(m.curBeta, q as real)));
    BlendPositive(m.alpha, seen, m.alphaTau);
    BlendPositive(m.seedAlpha, seen, m.seedTau);
    RampedBetween(m, m.updates + 1);
    Positive(Blend(m.alpha, seen, m.alphaTau), Rescale(w, m, q));
  }

  // ---------------------------------------------------------------- solve and update

  function FrameWeight(prev: real, kind: FrameType): real {
    var w := prev + 0.5 * (1.0 - prev);
    var t := match kind case IFrame => 10.0 case LtrRecovery => 6.0 case PFrame => 1.0;
    if t > w then t else w
  }

  function ModelFor(s: Rc, kind: FrameType): Rq {
    match kind
    case IFrame => s.i
    case LtrRecovery => s.ltr
    case PFrame => if s.lastRecovery.IFrame? then s.pIdr else s.pLtr
  }

  function WithModel(s: Rc, kind: FrameType, m: Rq): Rc {
    match kind
    case IFrame => s.(i := m)
    case LtrRecovery => s.(ltr := m)
    case PFrame => if s.lastRecovery.IFrame? then s.(pIdr := m) else s.(pLtr := m)
  }

  function Solved(w: Maths, s: Rc, pt: real, kind: FrameType, reserved: int): Rc
    requires s.alloc.bucket.fps > 0.0 && s.pixels > 0.0
  {
    var weight := FrameWeight(s.prevWeight, kind);
    var allotted := Allocate(s.alloc, pt, weight, if kind.PFrame? then -1.0 else 100.0);
    var bits := (allotted - reserved) as real;
    var bpp := (if bits < 0.0 then 0.0 else bits) / s.pixels;
    s.(pending := Some(Pending(pt, kind, weight, allotted, Clamped(w.pick(ModelFor(s, kind), bpp), 0, 63))))
  }

  function Spent(a: Allocator, p: Pending, bits: int): Allocator
    requires a.bucket.fps > 0.0
  {
    Allocator(a.bucket.(fill := FillAt(a.bucket, p.pt) + bits, lastTs := Some(p.pt)), PlannedExcess(a, p.pt, p.weight))
  }

  /** The fill a retune leaves: as far above the initial level as before, kept within the new capacity. */
  function Shifted(b: Bucket, bitrate: real): int {
    Trunc(0.1 * (Trunc(bitrate) as real)) + b.fill - Trunc(0.1 * (b.capacity as real))
  }

  function Retuned(b: Bucket, bitrate: real): Bucket {
    b.(bitrate := bitrate, capacity := Trunc(bitrate), fill := Clamped(Shifted(b, bitrate), 0, Trunc(bitrate)))
  }

  function Configured(s: Rc, bitrate: real): Rc {
    if bitrate <= 0.0 then s else s.(alloc := s.alloc.(bucket := Retuned(s.alloc.bucket, bitrate)))
  }

  /** Rates and time constants that no step changes. */
  predicate Running(s: Rc) {
    && s.pixels > 0.0 && s.alloc.bucket.fps > 0.0
    && Paced(s.i) && Paced(s.ltr) && Paced(s.pIdr) && Paced(s.pLtr)
  }

  predicate Paced(m: Rq) {
    m.alphaTau >= 1.0 && m.seedTau >= 1.0
  }

  function Taught(w: Maths, s: Rc, p: Pending, payload: int): Rc
    requires Running(s)
  {
    if payload <= 0 then s
    else
      var t := WithModel(s, p.kind, Learned(w, ModelFor(s, p.kind), p.q, (payload as real) / s.pixels));
      if p.kind.PFrame? then t else t.(pIdr := Reset(t.pIdr), pLtr := Reset(t.pLtr), lastRecovery := p.kind)
  }

  function Updated(w: Maths, s: Rc, header: int, payload: int): Rc
    requires Running(s)
  {
    if s.pending.None? then s
    else
      var p := s.pending.value;
      Taught(w, s.(alloc := Spent(s.alloc, p, header + payload)), p, payload).(pending := None, prevWeight := p.weight)
  }

  predicate ModelsOk(s: Rc) {
    ModelOk(s.i) && ModelOk(s.ltr) && ModelOk(s.pIdr) && ModelOk(s.pLtr)
  }

  predicate WeightOk(x: real) {
    1.0 <= x <= 10.0
  }

  predicate BucketOk(b: Bucket, now: real) {
    && b.bitrate > 0.0 && b.fps > 0.0 && b.capacity == Trunc(b.bitrate) >= 0
    && 0 <= b.fill <= BucketMax(b) && (b.lastTs.Some? ==> b.lastTs.value <= now)
  }

  /** The bounds, at a time not before anything that has happened. */
  predicate Bounded(s: Rc, now: real) {
    && s.pixels > 0.0 && BucketOk(s.alloc.bucket, now)
    && 0 <= s.alloc.excess <= Trunc(0.5 * (s.alloc.bucket.capacity as real))
    && WeightOk(s.prevWeight) && ModelsOk(s)
    && (s.pending.Some? ==>
          s.pending.value.pt <= now && WeightOk(s.pending.value.weight) && AllocationOk(s.alloc.bucket, s.pending.value))
  }

  /** What has been allocated fits the bucket at its time; time has not run backwards since the last drain. */
  predicate AllocationOk(b: Bucket, p: Pending)
    requires b.fps > 0.0
  {
    && 0 <= p.allotted && FillAt(b, p.pt) + p.allotted <= BucketMax(b)
    && (b.lastTs.Some? ==> b.lastTs.value <= p.pt)
  }

  // ---------------------------------------------------------------- every run

  datatype Event =
    | Solve(pt: real, kind: FrameType, reserved: int)
    | Update(header: int, payload: int)
    | Retune(bitrate: real)

  /** What is held fits the bucket of the new rate: the shifted fill, the excess and what is allocated. */
  predicate RetuneFits(s: Rc, bitrate: real)
    requires s.alloc.bucket.fps > 0.0
  {
    var b := Retuned(s.alloc.bucket, bitrate);
    bitrate <= 0.0 || (
      && (Shifted(s.alloc.bucket, bitrate) <= BucketMax(b) || b.capacity == 0)
      && s.alloc.excess <= Trunc(0.5 * (b.capacity as real))
      && (s.pending.Some? ==> FillAt(b, s.pending.value.pt) + s.pending.value.allotted <= BucketMax(b)))
  }

  /** Time does not run backwards, a frame spends no more than it was allocated, and a new rate has room. */
  predicate EventOk(s: Rc, now: real, e: Event)
    requires s.alloc.bucket.fps > 0.0
  {
    match e
    case Solve(pt, _, _) => now <= pt
    case Update(header, payload) =>
      s.pending.Some? ==> 0 <= header && 0 <= payload && header + payload <= s.pending.value.allotted
    case Retune(bitrate) => RetuneFits(s, bitrate)
  }

  function Now(now: real, e: Event): real {
    match e case Solve(pt, _, _) => pt case _ => now
  }

  function Next(w: Maths, s: Rc, e: Event): (t: Rc)
    requires Running(s)
    ensures Running(t)
  {
    match e
    case Solve(pt, kind, reserved) => Solved(w, s, pt, kind, reserved)
    case Update(header, payload) => Updated(w, s, header, payload)
    case Retune(bitrate) => Configured(s, bitrate)
  }

  lemma FillFalls(b: Bucket, pt: real)
    requires b.bitrate > 0.0 && b.fps > 0.0 && b.fill >= 0 && (b.lastTs.Some? ==> b.lastTs.value <= pt)
    ensures 0 <= FillAt(b, pt) <= b.fill
  {
    if b.lastTs.None? { Positive(1.0, b.fps); }
    NotNegative(Elapsed(b, pt), b.bitrate);
  }

  lemma AllocateFits(a: Allocator, pt: real, weight: real, tauOverride: real)
    requires BucketOk(a.bucket, pt) && WeightOk(weight)
    ensures var n := Allocate(a, pt, weight, tauOverride);
            0 <= n && FillAt(a.bucket, pt) + n <= BucketMax(a.bucket)
  {
    var b := a.bucket;
    FillFalls(b, pt);
    Positive(b.bitrate, b.fps);
    NotNegative(weight, b.bitrate / b.fps);
    var nominal := Nominal(b, weight);
    assert nominal >= 0;
    assert Trunc(0.33 * (nominal as real)) >= 0 && Trunc(2.0 * (nominal as real)) >= 0;
  }

  lemma WeightStays(prev: real, kind: FrameType)
    requires WeightOk(prev)
    ensures WeightOk(FrameWeight(prev, kind))
  {
  }

  lemma ExcessStays(a: Allocator, pt: real, weight: real)
    requires a.bucket.fps > 0.0 && a.bucket.capacity >= 0
    ensures 0 <= PlannedExcess(a, pt, weight) <= Trunc(0.5 * (a.bucket.capacity as real))
  {
    TruncMonotone(0.0, 0.5 * (a.bucket.capacity as real));
  }

  lemma TaughtOk(w: Maths, s: Rc, p: Pending, payload: int)
    requires ExpPositive(w) && Running(s) && ModelsOk(s)
    ensures var t := Taught(w, s, p, payload);
            ModelsOk(t) && t.alloc == s.alloc && t.pixels == s.pixels && t.pending == s.pending && t.prevWeight == s.prevWeight
  {
    if payload > 0 {
      Positive(payload as real, s.pixels);
      LearnedOk(w, ModelFor(s, p.kind), p.q, (payload as real) / s.pixels);
    }
  }

  lemma SolveKeeps(w: Maths, s: Rc, now: real, pt: real, kind: FrameType, reserved: int)
    requires Bounded(s, now) && now <= pt
    ensures Bounded(Solved(w, s, pt, kind, reserved), pt)
  {
    WeightStays(s.prevWeight, kind);
    AllocateFits(s.alloc, pt, FrameWeight(s.prevWeight, kind), if kind.PFrame? then -1.0 else 100.0);
  }

  lemma UpdateKeeps(w: Maths, s: Rc, now: real, header: int, payload: int)
    requires ExpPositive(w) && Bounded(s, now) && EventOk(s, now, Update(header, payload))
    ensures Bounded(Updated(w, s, header, payload), now)
  {
    if s.pending.Some? {
      var p := s.pending.value;
      FillFalls(s.alloc.bucket, p.pt);
      ExcessStays(s.alloc, p.pt, p.weight);
      TaughtOk(w, s.(alloc := Spent(s.alloc, p, header + payload)), p, payload);
    }
  }

  /** A retune keeps the bounds exactly when what is held fits the new bucket. */
  lemma RetuneKeepsIff(s: Rc, now: real, bitrate: real)
    requires Bounded(s, now)
    ensures Bounded(Configured(s, bitrate), now) <==> RetuneFits(s, bitrate)
  {
    if bitrate > 0.0 {
      TruncMonotone(0.0, bitrate);
      var c := Trunc(bitrate) as real;
      TruncMonotone(0.0, 0.9 * c);
      TruncMonotone(0.9 * c, c);
      var b := Retuned(s.alloc.bucket, bitrate);
      assert 0 <= BucketMax(b) <= b.capacity;
      assert b.capacity > 0 ==> BucketMax(b) < b.capacity;
      assert b.fill <= BucketMax(b) <==> Shifted(s.alloc.bucket, bitrate) <= BucketMax(b) || b.capacity == 0;
      assert BucketOk(b, now) <==> b.fill <= BucketMax(b);
    }
  }

  /** A larger bucket has no less room between the initial level and nine tenths. */
  lemma {:induction false} RoomGrows(c: nat, d: nat)
    requires c <= d
    ensures Trunc(0.9 * (c as real)) - Trunc(0.1 * (c as real)) <= Trunc(0.9 * (d as real)) - Trunc(0.1 * (d as real))
    ensures Trunc(0.1 * (c as real)) <= Trunc(0.1 * (d as real))
    decreases d
  {
    if c < d {
      RoomGrows(c, d - 1);
      TenthStep(d - 1);
    }
  }

  lemma TenthStep(c: nat)
    ensures var m, n := Trunc(0.1 * (c as real)), Trunc(0.1 * ((c + 1) as real));
            m <= n && Trunc(0.9 * (c as real)) - m <= Trunc(0.9 * ((c + 1) as real)) - n
  {
    Tenths(c);
    Tenths(c + 1);
  }

  /** One and nine tenths of a whole number, in whole numbers. */
  lemma Tenths(c: nat)
    ensures Trunc(0.1 * (c as real)) == c / 10 && Trunc(0.9 * (c as real)) == c - (c + 9) / 10
  {
    var q, r := c / 10, c % 10;
    assert (c as real) == 10.0 * (q as real) + (r as real);
    assert 0.1 * (c as real) == (q as real) + 0.1 * (r as real);
    assert 0.9 * (c as real) == (9 * q) as real + 0.9 * (r as real);
  }

  lemma ProductGrows(t: real, a: real, b: real)
    requires t >= 0.0 && 0.0 < a <= b
    ensures 0 <= Trunc(Times(t, a)) <= Trunc(Times(t, b))
  {
    NotNegative(t, a);
    NotNegative(t, b - a);
    assert t * (b - a) == t * b - t * a;
    TruncMonotone(t * a, t * b);
  }

  lemma ElapsedOk(b: Bucket, pt: real)
    requires b.fps > 0.0 && (b.lastTs.Some? ==> b.lastTs.value <= pt)
    ensures Elapsed(b, pt) >= 0.0
  {
    if b.lastTs.None? { Positive(1.0, b.fps); }
  }

  lemma FlowGrows(b: Bucket, c: Bucket, pt: real)
    requires b.fps > 0.0 && (b.lastTs.Some? ==> b.lastTs.value <= pt)
    requires c.fps == b.fps && c.lastTs == b.lastTs && 0.0 < b.bitrate <= c.bitrate
    ensures Flow(b, pt) <= Flow(c, pt)
  {
    ElapsedOk(b, pt);
    var t := Elapsed(b, pt);
    assert Elapsed(c, pt) == t;
    ProductGrows(t, b.bitrate, c.bitrate);
  }

  lemma Refilled(fill: int, fill': int, flow: int, flow': int, left: int, left': int)
    requires fill <= fill' && flow <= flow'
    requires left == fill - (if flow < fill then flow else fill) && left' == fill' - (if flow' < fill' then flow' else fill')
    ensures left' <= left + fill' - fill
  {
  }

  /** At a higher rate more drains. */
  lemma DrainGrows(b: Bucket, pt: real, bitrate: real)
    requires BucketOk(b, pt) && bitrate >= b.bitrate && b.fill <= Shifted(b, bitrate) <= Trunc(bitrate)
    ensures FillAt(Retuned(b, bitrate), pt) <= FillAt(b, pt) + Shifted(b, bitrate) - b.fill
  {
    var c := Retuned(b, bitrate);
    FlowGrows(b, c, pt);
    Refilled(b.fill, c.fill, Flow(b, pt), Flow(c, pt), FillAt(b, pt), FillAt(c, pt));
  }

  /** A rate that is not lower always has room for what is held. */
  lemma HigherRateFits(s: Rc, now: real, bitrate: real)
    requires Bounded(s, now) && bitrate >= s.alloc.bucket.bitrate
    ensures RetuneFits(s, bitrate) && Bounded(Configured(s, bitrate), now)
  {
    var b := s.alloc.bucket;
    TruncMonotone(b.bitrate, bitrate);
    RoomGrows(b.capacity, Trunc(bitrate));
    TruncMonotone(0.5 * (b.capacity as real), 0.5 * (Trunc(bitrate) as real));
    Tenths(Trunc(bitrate));
    if s.pending.Some? {
      DrainGrows(b, s.pending.value.pt, bitrate);
    }
    RetuneKeepsIff(s, now, bitrate);
  }

  /** Lowering the rate tenfold with a bucket nine tenths full leaves the new bucket brimming. */
  lemma LowerRateOverfills(s: Rc)
    requires s.alloc.bucket.capacity == 1000 && s.alloc.bucket.fill == 900 && s.alloc.bucket.fps > 0.0
    ensures var b := Configured(s, 100.0).alloc.bucket; b.fill == b.capacity == 100 && BucketMax(b) == 90
    ensures !RetuneFits(s, 100.0)
  {
    assert Trunc(100.0) == 100 && Trunc(0.1 * 100.0) == 10 && Trunc(0.1 * 1000.0) == 100;
    assert Trunc(0.9 * 100.0) == 90;
  }

  lemma NextKeeps(w: Maths, s: Rc, now: real, e: Event)
    requires ExpPositive(w) && Bounded(s, now) && EventOk(s, now, e)
    ensures Bounded(Next(w, s, e), Now(now, e))
  {
    match e
    case Solve(pt, kind, reserved) => SolveKeeps(w, s, now, pt, kind, reserved);
    case Update(header, payload) => UpdateKeeps(w, s, now, header, payload);
    case Retune(bitrate) => RetuneKeepsIff(s, now, bitrate);
  }

  predicate RunOk(w: Maths, s: Rc, now: real, events: seq<Event>)
    requires Running(s)
    decreases |events|
  {
    events != [] ==>
      EventOk(s, now, events[0]) && RunOk(w, Next(w, s, events[0]), Now(now, events[0]), events[1..])
  }

  function After(w: Maths, s: Rc, now: real, events: seq<Event>): (Rc, real)
    requires Running(s)
    decreases |events|
  {
    if events == [] then (s, now)
    else After(w, Next(w, s, events[0]), Now(now, events[0]), events[1..])
  }

  /**
   * Over every run in which time does not run backwards, no frame spends more than its allocation
   * and every new rate has room for what is held, the bucket stays between empty and nine tenths,
   * the weights between 1 and 10, the planned excess between 0 and half the bucket, every alpha
   * positive and every beta between its base and target.
   */
  lemma {:induction false} RunsStayBounded(w: Maths, s: Rc, now: real, events: seq<Event>)
    requires ExpPositive(w) && Bounded(s, now) && RunOk(w, s, now, events)
    ensures Bounded(After(w, s, now, events).0, After(w, s, now, events).1)
    decreases |events|
  {
    if events != [] {
      NextKeeps(w, s, now, events[0]);
      RunsStayBounded(w, Next(w, s, events[0]), Now(now, events[0]), events[1..]);
    }
  }

  /** A controller as create() makes it. */
  function Created(pixels: real, bitrate: real, fps: real): Rc {
    var capacity := Trunc(bitrate);
    Rc(pixels, Allocator(Bucket(bitrate, fps, capacity, Trunc(0.1 * (capacity as real)), None), 0),
       NewModel(0.04969, -0.03626, None), NewModel(0.01047, -0.05306, None),
       NewModel(0.02156, -0.03173, Some(-0.07654)), NewModel(0.00315, -0.05925, Some(-0.08307)),
       IFrame, None, 1.0)
  }

  function NewModel(alpha: real, beta: real, target: Option<real>): Rq {
    Rq(beta, 2.0, 2.0, target.Some?, if target.Some? then target.value else 0.0, if target.Some? then 9.0 else 0.0,
       alpha, alpha, beta, 0)
  }

  lemma CreatedBounded(pixels: real, bitrate: real, fps: real, now: real)
    requires pixels > 0.0 && bitrate > 0.0 && fps > 0.0
    ensures Bounded(Created(pixels, bitrate, fps), now)
  {
    var c := Trunc(bitrate) as real;
    TruncMonotone(0.0, 0.1 * c);
    TruncMonotone(0.1 * c, 0.9 * c);
    TruncMonotone(0.0, 0.5 * c);
  }

  // ---------------------------------------------------------------- the class

  class RateController {
    const w: Maths
    const pixels: real
    var alloc: Allocator
    var mI: Rq
    var mLtr: Rq
    var mPIdr: Rq
    var mPLtr: Rq
    var lastRecovery: FrameType
    var pending: Option<Pending>
    var prevWeight: real

    ghost function View(): Rc
      reads this
    {
      Rc(pixels, alloc, mI, mLtr, mPIdr, mPLtr, lastRecovery, pending, prevWeight)
    }

    constructor (maths: Maths, width: nat, height: nat, bitrate: real, fps: real)
      requires width > 0 && height > 0 && bitrate > 0.0 && fps > 0.0
      ensures w == maths && View() == Created((width as real) * (height as real), bitrate, fps)
      ensures Running(View()) && Bounded(View(), 0.0)
    {
      w := maths;
      var area := (width as real) * (height as real);
      pixels := area;
      var rc := Created(area, bitrate, fps);
      alloc, mI, mLtr, mPIdr, mPLtr := rc.alloc, rc.i, rc.ltr, rc.pIdr, rc.pLtr;
      lastRecovery, pending, prevWeight := IFrame, None, 1.0;
      new;
      Positive(width as real, height as real);
      CreatedBounded(area, bitrate, fps, 0.0);
    }

    /** The level for the next frame, or -1 when there is no room for it. */
    method SolveFrame(pt: real, kind: FrameType, reserved: int) returns (q: int)
      requires Running(View())
      modifies this`pending
      ensures View() == Solved(w, old(View()), pt, kind, reserved) && Running(View())
      ensures pending.Some? && q == if pending.value.allotted <= 0 then -1 else pending.value.q
      ensures -1 <= q <= 63
    {
      var weight := FrameWeight(prevWeight, kind);
      var allotted := Allocate(alloc, pt, weight, if kind.PFrame? then -1.0 else 100.0);
      var bits := (allotted - reserved) as real;
      if bits < 0.0 {
        bits := 0.0;
      }
      var model := match kind case IFrame => mI case LtrRecovery => mLtr
                   case PFrame => if lastRecovery.IFrame? then mPIdr else mPLtr;
      q := Clamped(w.pick(model, bits / pixels), 0, 63);
      pending := Some(Pending(pt, kind, weight, allotted, q));
      if allotted <= 0 {
        q := -1;
      }
    }

    /** A new rate; one that is not positive is ignored. */
    method Configure(bitrate: real)
      requires Running(View())
      modifies this`alloc
      ensures View() == Configured(old(View()), bitrate) && Running(View())
    {
      if bitrate <= 0.0 {
        return;
      }
      var b := alloc.bucket;
      var excess := b.fill - Trunc(0.1 * (b.capacity as real));
      var capacity := Trunc(bitrate);
      var fill := Trunc(0.1 * (capacity as real)) + excess;
      if fill < 0 {
        fill := 0;
      }
      if fill > capacity {
        fill := capacity;
      }
      alloc := alloc.(bucket := b.(bitrate := bitrate, capacity := capacity, fill := fill));
    }

    /** What the frame really cost. */
    method UpdateFrame(header: int, payload: int)
      requires Running(View())
      modifies this
      ensures View() == Updated(w, old(View()), header, payload) && Running(View())
    {
      if pending.None? {
        return;
      }
      var p := pending.value;
      pending := None;
      alloc := Spent(alloc, p, header + payload);
      if payload > 0 {
        var bpp := (payload as real) / pixels;
        match p.kind {
          case IFrame => mI := Learned(w, mI, p.q, bpp);
          case LtrRecovery => mLtr := Learned(w, mLtr, p.q, bpp);
          case PFrame =>
            if lastRecovery.IFrame? {
              mPIdr := Learned(w, mPIdr, p.q, bpp);
            } else {
              mPLtr := Learned(w, mPLtr, p.q, bpp);
            }
        }
        if !p.kind.PFrame? {
          mPIdr, mPLtr := Reset(mPIdr), Reset(mPLtr);
          lastRecovery := p.kind;
        }
      }
      prevWeight := p.weight;
    }
  }
}
