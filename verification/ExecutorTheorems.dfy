/** What every run of the pipeline gives its client: complete output, no deadlock, termination. */
module ExecutorTheorems {
  import opened Statuses
  import opened Channels
  import opened Executors

  // ---------------------------------------------------------------- what is delivered

  /** What worker i put into queue i + 1, when it took its input from queue i. */
  lemma OutputBelow<F(!new)>(p: Pipeline<F>, s: State<F>, i: nat)
    requires Inv(p, s) && i < p.n
    ensures IsClean(s.workers[i]) ==> s.logs[i + 1] == Full(p, i, s.logs[i])
    ensures s.workers[i].flushed ==> s.logs[i + 1] <= Full(p, i, s.logs[i]) && (i > 0 ==> IsClean(s.workers[i - 1]))
    ensures !s.workers[i].flushed ==> s.logs[i + 1] <= Out(p, i, s.logs[i])
  {
    var w := s.workers[i];
    assert PcOk(p, s, i) && FlushOk(p, s, i) && OutputOk(p, s, i);
    if w.flushed {
      assert w.hist == s.logs[i];
    } else {
      OutMonotone(p, i, w.hist, s.logs[i]);
    }
  }

  /** Nothing ever gets into queue k that the full image of the accepted frames does not start with. */
  lemma {:induction false} LogBelowImage<F(!new)>(p: Pipeline<F>, s: State<F>, k: nat)
    requires Inv(p, s) && k <= p.n
    ensures s.logs[k] <= Image(p, k, s.logs[0])
    ensures k > 0 && IsClean(s.workers[k - 1]) ==> s.logs[k] == Image(p, k, s.logs[0])
    decreases k
  {
    if k > 0 {
      LogBelowImage(p, s, k - 1);
      OutputBelow(p, s, k - 1);
      assert PcOk(p, s, k - 1);
      OutMonotone(p, k - 1, s.logs[k - 1], Image(p, k - 1, s.logs[0]));
    }
  }

  /** Upstream of a clean worker everybody left cleanly. */
  lemma {:induction false} CleanUpstream<F(!new)>(p: Pipeline<F>, s: State<F>, i: nat, j: nat)
    requires Inv(p, s) && j <= i < p.n && IsClean(s.workers[i])
    ensures IsClean(s.workers[j])
    decreases i
  {
    if j < i {
      assert PcOk(p, s, i) && FlushOk(p, s, i);
      CleanUpstream(p, s, i - 1, j);
    }
  }

  /** In every reachable state the frames delivered and buffered are a prefix of the full image. */
  lemma DeliveryIsPrefix<F(!new)>(p: Pipeline<F>, s: State<F>)
    requires Shape(p, s) && Reachable(p, s)
    ensures s.delivered + s.queues[p.n].items <= Image(p, p.n, s.logs[0])
  {
    ReachableInv(p, s);
    LogBelowImage(p, s, p.n);
  }

  ghost predicate OutputAtEof<F>(p: Pipeline<F>, s: State<F>)
    requires Shape(p, s)
  {
    s.queues[p.n].end && s.queues[p.n].endStatus == Eof
  }

  /**
   * The output ends in Eof only when every worker left cleanly and nothing failed, and then what is
   * delivered and buffered is the whole image of the accepted frames, in order.
   */
  lemma EofMeansComplete<F(!new)>(p: Pipeline<F>, s: State<F>)
    requires Inv(p, s) && OutputAtEof(p, s)
    ensures s.error == Ok && forall i :: 0 <= i < p.n ==> IsClean(s.workers[i])
    ensures s.delivered + s.queues[p.n].items == Image(p, p.n, s.logs[0])
    ensures s.queues[0].end
  {
    assert FlushOk(p, s, p.n - 1);
    forall i | 0 <= i < p.n ensures IsClean(s.workers[i]) {
      CleanUpstream(p, s, p.n - 1, i);
    }
    LogBelowImage(p, s, p.n);
    assert PcOk(p, s, 0) && FlushOk(p, s, 0);
  }

  lemma StepSticky<F(!new)>(p: Pipeline<F>, s: State<F>, i: nat)
    requires Inv(p, s) && i < p.n && Enabled(p, s, i)
    ensures var s' := Step(p, s, i);
            |s'.queues| == p.n + 1 && |s'.logs| == p.n + 1 && s'.logs[0] == s.logs[0]
            && forall k :: 0 <= k <= p.n ==> Sticky(s.queues[k], s'.queues[k])
  {
  }

  /** A step from a state whose output is at Eof leaves it there and accepts no more frames. */
  lemma EofStep<F(!new)>(p: Pipeline<F>, s: State<F>, s': State<F>)
    requires Inv(p, s) && Next(p, s, s') && OutputAtEof(p, s)
    ensures Inv(p, s') && OutputAtEof(p, s') && s'.logs[0] == s.logs[0]
  {
    NextKeepsInv(p, s, s');
    EofMeansComplete(p, s);
    if WorkerStep(p, s, s') {
      var i: nat :| i < p.n && Enabled(p, s, i) && s' == Step(p, s, i);
      StepSticky(p, s, i);
      assert Sticky(s.queues[p.n], s'.queues[p.n]);
    }
  }

  lemma RunEofStep<F(!new)>(p: Pipeline<F>, run: seq<State<F>>, k: nat)
    requires Run(p, run) && k + 1 < |run| && Inv(p, run[k]) && OutputAtEof(p, run[k])
    ensures Inv(p, run[k + 1]) && OutputAtEof(p, run[k + 1]) && run[k + 1].logs[0] == run[k].logs[0]
  {
    assert StepAt(p, run, k);
    EofStep(p, run[k], run[k + 1]);
  }

  lemma {:induction false} EofKept<F(!new)>(p: Pipeline<F>, run: seq<State<F>>, j: nat, k: nat)
    requires Run(p, run) && j <= k < |run|
    requires Shape(p, run[j]) && OutputAtEof(p, run[j])
    ensures Inv(p, run[k]) && OutputAtEof(p, run[k]) && run[k].logs[0] == run[j].logs[0]
    decreases k
  {
    if j < k {
      EofKept(p, run, j, k - 1);
      RunEofStep(p, run, k - 1);
    } else {
      RunKeepsInv(p, run, k);
    }
  }

  /** From the moment the output ends in Eof the error stays Ok and the accepted frames are final. */
  lemma EofIsForever<F(!new)>(p: Pipeline<F>, run: seq<State<F>>, j: nat, k: nat)
    requires Run(p, run) && j <= k < |run|
    requires Shape(p, run[j]) && OutputAtEof(p, run[j])
    ensures Shape(p, run[k]) && OutputAtEof(p, run[k])
    ensures run[k].error == Ok && run[k].logs[0] == run[j].logs[0]
    ensures run[k].delivered + run[k].queues[p.n].items == Image(p, p.n, run[j].logs[0])
  {
    EofKept(p, run, j, k);
    EofMeansComplete(p, run[k]);
  }

  /** Nodes that turn every frame into one frame and hold nothing back. */
  ghost predicate OneToOne<F(!new)>(p: Pipeline<F>) {
    forall i: nat, h: seq<F> {:trigger p.tail(i, h)} {:trigger Full(p, i, h)} ::
      p.tail(i, h) == [] && forall f :: |p.emitted(i, h, f)| == 1
  }

  lemma {:induction false} OneToOneOut<F(!new)>(p: Pipeline<F>, i: nat, h: seq<F>)
    requires OneToOne(p)
    ensures |Out(p, i, h)| == |h|
    decreases |h|
  {
    if h != [] {
      OneToOneOut(p, i, h[..|h| - 1]);
      assert p.tail(i, h[..|h| - 1]) == [];
    }
  }

  lemma {:induction false} OneToOneImage<F(!new)>(p: Pipeline<F>, k: nat, accepted: seq<F>)
    requires OneToOne(p)
    ensures |Image(p, k, accepted)| == |accepted|
  {
    if k > 0 {
      OneToOneImage(p, k - 1, accepted);
      OneToOneOut(p, k - 1, Image(p, k - 1, accepted));
      assert p.tail(k - 1, Image(p, k - 1, accepted)) == [];
    }
  }

  // ---------------------------------------------------------------- nobody hangs

  /** No active worker is left only when the output queue has ended, so pull returns. */
  lemma DrainedMeansEnded<F(!new)>(p: Pipeline<F>, s: State<F>)
    requires Shape(p, s) && Reachable(p, s) && s.active == 0
    ensures s.queues[p.n].end && forall i :: 0 <= i < p.n ==> s.workers[i].pc.Done?
  {
    ReachableInv(p, s);
    LiveZero(s.workers);
    assert PcOk(p, s, p.n - 1);
  }

  ghost predicate Blocked<F>(p: Pipeline<F>, s: State<F>)
    requires Shape(p, s)
  {
    forall i: nat :: i < p.n ==> !Enabled(p, s, i)
  }

  predicate PushBlocked<F>(p: Pipeline<F>, s: State<F>, i: nat)
    requires i < |s.workers| && |s.queues| == |s.workers| + 1
  {
    s.workers[i].pc.Pushing? && s.workers[i].pc.todo != [] && !s.queues[i + 1].CanPush()
  }

  /** From the output backwards: nobody waits for room, since whoever should make room could run. */
  lemma {:induction false} NobodyWaitsForRoom<F(!new)>(p: Pipeline<F>, s: State<F>, i: nat)
    requires Inv(p, s) && Blocked(p, s) && s.queues[p.n].CanPush() && i < p.n
    requires s.error == Ok || forall k :: 0 <= k < p.n ==> s.queues[k].end
    ensures !PushBlocked(p, s, i)
    decreases p.n - i
  {
    if i + 1 < p.n {
      NobodyWaitsForRoom(p, s, i + 1);
      assert !Enabled(p, s, i + 1) && PcOk(p, s, i + 1) && FlushOk(p, s, i + 1);
    }
  }

  /** From the input forwards: nobody waits for frames, since whoever should send them has left. */
  lemma {:induction false} EverybodyLeft<F(!new)>(p: Pipeline<F>, s: State<F>, i: nat)
    requires Inv(p, s) && Blocked(p, s) && s.queues[0].end && s.queues[p.n].CanPush() && i < p.n
    requires s.error == Ok || forall k :: 0 <= k < p.n ==> s.queues[k].end
    ensures s.workers[i].pc.Done?
  {
    assert !Enabled(p, s, i);
    NobodyWaitsForRoom(p, s, i);
    if i > 0 {
      EverybodyLeft(p, s, i - 1);
      assert PcOk(p, s, i - 1);
    }
  }

  /**
   * No stuck pipeline: with the input ended and the output ended or with room, either every worker
   * is done or some worker can step, whatever failures and half-finished cancels came before.
   */
  lemma NoStuckPipeline<F(!new)>(p: Pipeline<F>, s: State<F>)
    requires Shape(p, s) && Reachable(p, s) && s.queues[0].end && s.queues[p.n].CanPush()
    ensures (forall i :: 0 <= i < p.n ==> s.workers[i].pc.Done?)
            || exists i: nat :: i < p.n && Enabled(p, s, i)
  {
    ReachableInv(p, s);
    if Blocked(p, s) {
      if s.error != Ok {
        forall i: nat | i < p.n ensures !s.workers[i].pc.Canceling? { assert !Enabled(p, s, i); }
      }
      forall i | 0 <= i < p.n ensures s.workers[i].pc.Done? {
        EverybodyLeft(p, s, i);
      }
    }
  }

  // ---------------------------------------------------------------- termination

  function Phase<F>(w: Worker<F>): nat {
    match w.pc
    case Popping => 2
    case Pushing(_, last) => if last then 1 else 2
    case _ => 0
  }

  function Left<F>(p: Pipeline<F>, w: Worker<F>): nat {
    match w.pc
    case Popping => 0
    case Pushing(todo, _) => |todo| + 1
    case Failing(_) => p.n + 5
    case Canceling(_, k) => if k < p.n then p.n - k + 3 else 3
    case CancelingOut(_) => 2
    case Closing => 2
    case Leaving(_) => 1
    case Done(_) => 0
  }

  /** What is left to do for the j / 3-th worker: its phase, its input and its current frames. */
  function Component<F>(p: Pipeline<F>, s: State<F>, j: nat): nat
    requires |s.queues| == |s.workers| + 1 && j < 3 * |s.workers|
  {
    var i := j / 3;
    if j % 3 == 0 then Phase(s.workers[i])
    else if j % 3 == 1 then |s.queues[i].items|
    else Left(p, s.workers[i])
  }

  ghost function Measure<F>(p: Pipeline<F>, s: State<F>): seq<nat>
    requires |s.queues| == |s.workers| + 1
  {
    seq(3 * |s.workers|, j requires 0 <= j < 3 * |s.workers| => Component(p, s, j))
  }

  /** Lexicographic order on vectors of one length. */
  ghost predicate Less(a: seq<nat>, b: seq<nat>) {
    |a| == |b| && exists k: nat :: k < |a| && a[k] < b[k] && a[..k] == b[..k]
  }

  lemma LessAt<F>(p: Pipeline<F>, s: State<F>, s': State<F>, k: nat)
    requires Shape(p, s) && Shape(p, s') && k < 3 * p.n
    requires forall j: nat :: j < k ==> Component(p, s', j) == Component(p, s, j)
    requires Component(p, s', k) < Component(p, s, k)
    ensures Less(Measure(p, s'), Measure(p, s))
  {
    var a, b := Measure(p, s'), Measure(p, s);
    assert a[..k] == b[..k];
  }

  /** A step of worker i leaves the earlier workers and their input alone. */
  lemma EarlierUntouched<F(!new)>(p: Pipeline<F>, s: State<F>, s': State<F>, i: nat, j: nat)
    requires Shape(p, s) && Shape(p, s') && i < p.n && j < 3 * i
    requires forall k :: 0 <= k < i ==> s'.workers[k] == s.workers[k] && |s'.queues[k].items| == |s.queues[k].items|
    ensures Component(p, s', j) == Component(p, s, j)
  {
    assert j / 3 < i;
  }

  /** What a step of worker i does to its own three components and to the earlier ones. */
  lemma StepEffect<F(!new)>(p: Pipeline<F>, s: State<F>, i: nat)
    requires Inv(p, s) && i < p.n && Enabled(p, s, i)
    ensures var s' := Step(p, s, i);
            |s'.workers| == p.n && |s'.queues| == p.n + 1
            && (forall k :: 0 <= k < i ==>
                  s'.workers[k] == s.workers[k] && |s'.queues[k].items| == |s.queues[k].items|)
            && var w, w' := s.workers[i], s'.workers[i];
               || Phase(w') < Phase(w)
               || (Phase(w') == Phase(w) && |s'.queues[i].items| < |s.queues[i].items|)
               || (Phase(w') == Phase(w) && |s'.queues[i].items| == |s.queues[i].items|
                   && Left(p, w') < Left(p, w))
  {
    assert PcOk(p, s, i);
  }

  lemma StepDecreases<F(!new)>(p: Pipeline<F>, s: State<F>, i: nat)
    requires Inv(p, s) && i < p.n && Enabled(p, s, i)
    ensures Shape(p, Step(p, s, i)) && Less(Measure(p, Step(p, s, i)), Measure(p, s))
  {
    StepEffect(p, s, i);
    StepKeepsInv(p, s, i);
    WorkerDecreases(p, s, Step(p, s, i), i);
  }

  lemma WorkerDecreases<F(!new)>(p: Pipeline<F>, s: State<F>, s': State<F>, i: nat)
    requires Shape(p, s) && Shape(p, s') && i < p.n
    requires forall k :: 0 <= k < i ==> s'.workers[k] == s.workers[k] && |s'.queues[k].items| == |s.queues[k].items|
    requires var w, w' := s.workers[i], s'.workers[i];
             || Phase(w') < Phase(w)
             || (Phase(w') == Phase(w) && |s'.queues[i].items| < |s.queues[i].items|)
             || (Phase(w') == Phase(w) && |s'.queues[i].items| == |s.queues[i].items| && Left(p, w') < Left(p, w))
    ensures Less(Measure(p, s'), Measure(p, s))
  {
    forall j: nat | j < 3 * i ensures Component(p, s', j) == Component(p, s, j) {
      EarlierUntouched(p, s, s', i, j);
    }
    assert 3 * i / 3 == i && (3 * i + 1) / 3 == i && (3 * i + 2) / 3 == i;
    if Phase(s'.workers[i]) < Phase(s.workers[i]) {
      LessAt(p, s, s', 3 * i);
    } else if |s'.queues[i].items| < |s.queues[i].items| {
      LessAt(p, s, s', 3 * i + 1);
    } else {
      LessAt(p, s, s', 3 * i + 2);
    }
  }

  lemma FaultDecreases<F(!new)>(p: Pipeline<F>, s: State<F>, s': State<F>)
    requires Inv(p, s) && Fault(p, s, s')
    ensures Shape(p, s') && Less(Measure(p, s'), Measure(p, s))
  {
    var i: nat, status :| i < p.n && IsError(status) && s.workers[i].pc.Pushing?
                          && s' == Goto(s, i, Failing(status));
    WorkerDecreases(p, s, s', i);
  }

  /** Client steps other than an accepted push leave the measure as it is. */
  lemma ClientKeepsMeasure<F(!new)>(p: Pipeline<F>, s: State<F>, s': State<F>)
    requires ClientClose(p, s, s') || ClientCancel(p, s, s') || ClientPop(p, s, s')
    ensures Shape(p, s') && Measure(p, s') == Measure(p, s)
  {
    assert forall j: nat :: j < 3 * p.n ==> Component(p, s', j) == Component(p, s, j);
  }

  /** Vectors of length n that never grow. */
  ghost predicate Falling(f: nat -> seq<nat>, n: nat) {
    forall k: nat :: FallsAt(f, n, k)
  }

  ghost predicate FallsAt(f: nat -> seq<nat>, n: nat, k: nat) {
    |f(k)| == n && (f(k + 1) == f(k) || Less(f(k + 1), f(k)))
  }

  function Head(a: seq<nat>): nat {
    if a == [] then 0 else a[0]
  }

  function Tail(a: seq<nat>): seq<nat> {
    if a == [] then [] else a[1..]
  }

  /** From start on, without the first components. */
  function Tails(f: nat -> seq<nat>, start: nat): nat -> seq<nat> {
    k => Tail(f(start + k))
  }

  ghost predicate HeadLeast(f: nat -> seq<nat>, start: nat) {
    forall k: nat :: k >= start ==> Head(f(k)) >= Head(f(start))
  }

  /** There is no infinite descent in the lexicographic order: in the end the vector stays as it is. */
  lemma {:induction false} Settles(f: nat -> seq<nat>, n: nat, start: nat) returns (last: nat)
    requires Falling(f, n)
    ensures last >= start && forall k: nat :: k >= last ==> f(k) == f(last)
    decreases n, Head(f(start))
  {
    if n == 0 {
      last := start;
      forall k: nat | k >= last ensures f(k) == f(last) {
        assert FallsAt(f, n, k) && FallsAt(f, n, last);
      }
    } else if m: nat :| m >= start && Head(f(m)) < Head(f(start)) {
      last := Settles(f, n, m);
    } else {
      TailsFall(f, n, n - 1, start);
      var m := Settles(Tails(f, start), n - 1, 0);
      last := start + m;
      forall k: nat | k >= last ensures f(k) == f(last) {
        assert Tails(f, start)(k - start) == Tails(f, start)(m);
        SameWhole(f, n, start, k, last);
      }
    }
  }

  lemma TailsFall(f: nat -> seq<nat>, n: nat, n': nat, start: nat)
    requires n == n' + 1 && Falling(f, n) && HeadLeast(f, start)
    ensures Falling(Tails(f, start), n')
  {
    var g := Tails(f, start);
    forall k: nat ensures FallsAt(g, n', k) {
      TailFalls(f, n, start, start + k);
      assert g(k) == Tail(f(start + k)) && g(k + 1) == Tail(f(start + k + 1));
    }
  }

  lemma TailFalls(f: nat -> seq<nat>, n: nat, start: nat, k: nat)
    requires n > 0 && Falling(f, n) && HeadLeast(f, start) && k >= start
    ensures |Tail(f(k))| == n - 1 && (Tail(f(k + 1)) == Tail(f(k)) || Less(Tail(f(k + 1)), Tail(f(k))))
  {
    assert FallsAt(f, n, k);
    HeadStays(f, n, start, k);
    HeadStays(f, n, start, k + 1);
    if f(k + 1) != f(k) {
      TailLess(f(k + 1), f(k));
    }
  }

  lemma SameWhole(f: nat -> seq<nat>, n: nat, start: nat, j: nat, k: nat)
    requires n > 0 && Falling(f, n) && HeadLeast(f, start) && j >= start && k >= start && Tail(f(j)) == Tail(f(k))
    ensures f(j) == f(k)
  {
    assert FallsAt(f, n, j) && FallsAt(f, n, k);
    HeadStays(f, n, start, j);
    HeadStays(f, n, start, k);
    assert f(j) == [Head(f(j))] + Tail(f(j)) && f(k) == [Head(f(k))] + Tail(f(k));
  }

  lemma {:induction false} HeadStays(f: nat -> seq<nat>, n: nat, start: nat, k: nat)
    requires n > 0 && Falling(f, n) && HeadLeast(f, start) && k >= start
    ensures Head(f(k)) == Head(f(start))
    decreases k
  {
    if k > start {
      HeadStays(f, n, start, k - 1);
      assert FallsAt(f, n, k - 1) && FallsAt(f, n, k);
      if f((k - 1) + 1) != f(k - 1) {
        HeadNotAbove(f(k), f(k - 1));
      }
    }
  }

  lemma HeadNotAbove(a: seq<nat>, b: seq<nat>)
    requires Less(a, b)
    ensures |a| > 0 && a[0] <= b[0]
  {
    var k: nat :| k < |a| && a[k] < b[k] && a[..k] == b[..k];
    if k > 0 { assert a[..k][0] == b[..k][0]; }
  }

  lemma TailLess(a: seq<nat>, b: seq<nat>)
    requires Less(a, b) && |a| > 0 && a[0] == b[0]
    ensures Less(a[1..], b[1..])
  {
    var k: nat :| k < |a| && a[k] < b[k] && a[..k] == b[..k];
    assert a[1..][..k - 1] == a[..k][1..] && b[1..][..k - 1] == b[..k][1..];
    assert a[1..][k - 1] < b[1..][k - 1];
  }

  /** One worker steps or fails. */
  ghost predicate Work<F(!new)>(p: Pipeline<F>, s: State<F>, s': State<F>) {
    WorkerStep(p, s, s') || Fault(p, s, s')
  }

  /** The client closes or cancels a queue or takes a frame. */
  ghost predicate Quiet<F(!new)>(p: Pipeline<F>, s: State<F>, s': State<F>) {
    ClientClose(p, s, s') || ClientCancel(p, s, s') || ClientPop(p, s, s')
  }

  /** An infinite run in which the client pushes no more, its steps and the workers' in any order. */
  ghost predicate Endless<F(!new)>(p: Pipeline<F>, run: nat -> State<F>) {
    Inv(p, run(0)) && forall k: nat :: WorkOrQuiet(p, run, k)
  }

  ghost predicate WorkOrQuiet<F(!new)>(p: Pipeline<F>, run: nat -> State<F>, k: nat) {
    Work(p, run(k), run(k + 1)) || Quiet(p, run(k), run(k + 1))
  }

  lemma WorkDecreases<F(!new)>(p: Pipeline<F>, s: State<F>, s': State<F>)
    requires Inv(p, s) && Work(p, s, s')
    ensures Shape(p, s') && Less(Measure(p, s'), Measure(p, s))
  {
    if WorkerStep(p, s, s') {
      var i: nat :| i < p.n && Enabled(p, s, i) && s' == Step(p, s, i);
      StepDecreases(p, s, i);
    } else {
      FaultDecreases(p, s, s');
    }
  }

  lemma {:induction false} EndlessInv<F(!new)>(p: Pipeline<F>, run: nat -> State<F>, k: nat)
    requires Endless(p, run)
    ensures Inv(p, run(k))
  {
    if k > 0 {
      EndlessInv(p, run, k - 1);
      assert WorkOrQuiet(p, run, k - 1);
      NextKeepsInv(p, run(k - 1), run(k));
    }
  }

  lemma LessIsOther(a: seq<nat>, b: seq<nat>)
    requires Less(a, b)
    ensures a != b
  {
  }

  /**
   * Once the client pushes no more, the workers stop: however the client's closing, canceling and
   * pulling falls between their steps, only finitely many steps of a run are theirs.
   */
  lemma EveryRunEnds<F(!new)>(p: Pipeline<F>, run: nat -> State<F>) returns (last: nat)
    requires Endless(p, run)
    ensures forall k: nat :: k >= last ==> !Work(p, run(k), run(k + 1))
  {
    var f: nat -> seq<nat> := (k: nat) =>
      if |run(k).queues| == |run(k).workers| + 1 then Measure(p, run(k)) else [];
    forall k: nat ensures FallsAt(f, 3 * p.n, k) {
      EndlessInv(p, run, k);
      EndlessInv(p, run, k + 1);
      assert WorkOrQuiet(p, run, k);
      if Work(p, run(k), run(k + 1)) {
        WorkDecreases(p, run(k), run(k + 1));
      } else {
        ClientKeepsMeasure(p, run(k), run(k + 1));
      }
    }
    last := Settles(f, 3 * p.n, 0);
    forall k: nat | k >= last ensures !Work(p, run(k), run(k + 1)) {
      if Work(p, run(k), run(k + 1)) {
        EndlessInv(p, run, k);
        WorkDecreases(p, run(k), run(k + 1));
        EndlessInv(p, run, k + 1);
        assert f(k) == f(last) && f(k + 1) == f(last);
        LessIsOther(f(k + 1), f(k));
      }
    }
  }
}
