/** How a run fails: with whose status, and what reaches the client all the same. */
module ExecutorFailures {
  import opened Statuses
  import opened Channels
  import opened Executors
  import opened ExecutorTheorems

  // ---------------------------------------------------------------- whose status

  /** A step in which a node may fail and the client may cancel, with statuses from given sets only. */
  ghost predicate NextWith<F(!new)>(p: Pipeline<F>, s: State<F>, s': State<F>, faults: set<Status>, cancels: set<Status>) {
    || WorkerStep(p, s, s') || ClientPush(p, s, s') || ClientClose(p, s, s') || ClientPop(p, s, s')
    || (Fault(p, s, s') && exists i: nat, st :: i < p.n && st in faults && IsError(st) && s' == Goto(s, i, Failing(st)))
    || (Shape(p, s) && exists k: nat, st ::
          k <= p.n && st in cancels && IsError(st) && s' == s.(queues := s.queues[k := s.queues[k].Cancel(st)]))
  }

  ghost predicate StepWith<F(!new)>(p: Pipeline<F>, run: seq<State<F>>, k: nat, faults: set<Status>, cancels: set<Status>)
    requires k + 1 < |run|
  {
    NextWith(p, run[k], run[k + 1], faults, cancels)
  }

  /** A run with such steps, whose input had not been canceled when it was launched. */
  ghost predicate RunWith<F(!new)>(p: Pipeline<F>, run: seq<State<F>>, faults: set<Status>, cancels: set<Status>) {
    && run != [] && Init(p, run[0]) && (run[0].queues[0].end ==> run[0].queues[0].endStatus == Eof)
    && forall k: nat :: k + 1 < |run| ==> StepWith(p, run, k, faults, cancels)
  }

  /** Ended, if at all, in Eof or in one of these. */
  predicate EndsIn<F>(q: Channel<F>, statuses: set<Status>) {
    q.end ==> q.endStatus == Eof || q.endStatus in statuses
  }

  predicate Carries<F>(pc: Pc<F>, statuses: set<Status>) {
    match pc
    case Failing(st) => st in statuses
    case Canceling(st, _) => st in statuses
    case CancelingOut(st) => st in statuses
    case _ => true
  }

  /** All statuses about are among those that came in. */
  ghost predicate Traced<F>(p: Pipeline<F>, s: State<F>, statuses: set<Status>)
    requires Shape(p, s)
  {
    && (s.error == Ok || s.error in statuses)
    && (forall k :: 0 <= k <= p.n ==> EndsIn(s.queues[k], statuses))
    && (forall i :: 0 <= i < p.n ==> Carries(s.workers[i].pc, statuses))
  }

  /** Nobody but the pipeline ends a queue in an error, and nobody but the sink ends the output. */
  ghost predicate OwnEnds<F>(p: Pipeline<F>, s: State<F>)
    requires Shape(p, s)
  {
    && (forall k :: 0 <= k <= p.n && s.queues[k].end && s.queues[k].endStatus != Eof ==> s.error != Ok)
    && (s.queues[p.n].end ==> s.workers[p.n - 1].pc.Leaving? || s.workers[p.n - 1].pc.Done?)
  }

  lemma WorkerTraced<F(!new)>(p: Pipeline<F>, s: State<F>, i: nat, statuses: set<Status>)
    requires Inv(p, s) && i < p.n && Enabled(p, s, i) && Traced(p, s, statuses)
    ensures Shape(p, Step(p, s, i)) && Traced(p, Step(p, s, i), statuses)
  {
    StepKeepsInv(p, s, i);
    assert PcOk(p, s, i) && FlushOk(p, s, i) && Carries(s.workers[i].pc, statuses);
    assert EndsIn(s.queues[i], statuses) && EndsIn(s.queues[i + 1], statuses);
  }

  lemma WorkerOwnEnds<F(!new)>(p: Pipeline<F>, s: State<F>, i: nat)
    requires Inv(p, s) && i < p.n && Enabled(p, s, i) && OwnEnds(p, s)
    ensures Shape(p, Step(p, s, i)) && OwnEnds(p, Step(p, s, i))
  {
    StepKeepsInv(p, s, i);
    assert PcOk(p, s, i) && PcOk(p, s, p.n - 1);
  }

  lemma FaultTraced<F(!new)>(p: Pipeline<F>, s: State<F>, s': State<F>, i: nat, st: Status, statuses: set<Status>)
    requires Inv(p, s) && Fault(p, s, s') && i < p.n && st in statuses && s' == Goto(s, i, Failing(st)) && Traced(p, s, statuses)
    ensures Shape(p, s') && Traced(p, s', statuses) && (OwnEnds(p, s) ==> OwnEnds(p, s'))
  {
    FaultNotSink(p, s, s');
  }

  /** A fault changes no queue, and no worker that has left. */
  lemma FaultNotSink<F(!new)>(p: Pipeline<F>, s: State<F>, s': State<F>)
    requires Inv(p, s) && Fault(p, s, s')
    ensures s'.queues == s.queues && s'.error == s.error && |s'.workers| == p.n
    ensures s.workers[p.n - 1].pc.Leaving? || s.workers[p.n - 1].pc.Done? ==> s'.workers[p.n - 1] == s.workers[p.n - 1]
  {
    var i: nat, status :| i < p.n && IsError(status) && s.workers[i].pc.Pushing? && s' == Goto(s, i, Failing(status));
  }

  lemma CancelTraced<F(!new)>(p: Pipeline<F>, s: State<F>, s': State<F>, k: nat, st: Status, statuses: set<Status>)
    requires Shape(p, s) && k <= p.n && st in statuses && IsError(st) && Traced(p, s, statuses)
    requires s' == s.(queues := s.queues[k := s.queues[k].Cancel(st)])
    ensures Shape(p, s') && Traced(p, s', statuses) && ClientCancel(p, s, s')
  {
  }

  lemma ClientTraced<F(!new)>(p: Pipeline<F>, s: State<F>, s': State<F>, statuses: set<Status>)
    requires Shape(p, s) && Traced(p, s, statuses) && (ClientPush(p, s, s') || ClientClose(p, s, s') || ClientPop(p, s, s'))
    ensures Shape(p, s') && Traced(p, s', statuses) && (OwnEnds(p, s) ==> OwnEnds(p, s'))
  {
  }

  lemma StepTraced<F(!new)>(p: Pipeline<F>, s: State<F>, s': State<F>, faults: set<Status>, cancels: set<Status>)
    requires Inv(p, s) && NextWith(p, s, s', faults, cancels) && Traced(p, s, faults + cancels)
    ensures Inv(p, s') && Traced(p, s', faults + cancels)
    ensures cancels == {} && OwnEnds(p, s) ==> OwnEnds(p, s')
  {
    hide Inv, Traced, OwnEnds, Step;
    if WorkerStep(p, s, s') {
      var i: nat :| i < p.n && Enabled(p, s, i) && s' == Step(p, s, i);
      StepKeepsInv(p, s, i);
      WorkerTraced(p, s, i, faults + cancels);
      if OwnEnds(p, s) { WorkerOwnEnds(p, s, i); }
    } else if Fault(p, s, s') && exists i: nat, st :: i < p.n && st in faults && IsError(st) && s' == Goto(s, i, Failing(st)) {
      var i: nat, st :| i < p.n && st in faults && IsError(st) && s' == Goto(s, i, Failing(st));
      NextKeepsInv(p, s, s');
      FaultTraced(p, s, s', i, st, faults + cancels);
    } else if ClientPush(p, s, s') || ClientClose(p, s, s') || ClientPop(p, s, s') {
      NextKeepsInv(p, s, s');
      ClientTraced(p, s, s', faults + cancels);
    } else {
      var k: nat, st :| k <= p.n && st in cancels && IsError(st) && s' == s.(queues := s.queues[k := s.queues[k].Cancel(st)]);
      CancelTraced(p, s, s', k, st, faults + cancels);
      NextKeepsInv(p, s, s');
    }
  }

  lemma {:induction false} RunTraced<F(!new)>(p: Pipeline<F>, run: seq<State<F>>, k: nat,
                                              faults: set<Status>, cancels: set<Status>)
    requires RunWith(p, run, faults, cancels) && k < |run|
    ensures Inv(p, run[k]) && Traced(p, run[k], faults + cancels)
    ensures cancels == {} ==> OwnEnds(p, run[k])
  {
    if k == 0 {
      InitInv(p, run[0]);
    } else {
      RunTraced(p, run, k - 1, faults, cancels);
      assert StepWith(p, run, k - 1, faults, cancels);
      StepTraced(p, run[k - 1], run[k], faults, cancels);
    }
  }

  /**
   * No status is made up: whatever the interleaving, the error is Ok or a status some node failed or
   * the client canceled with, and every queue that has ended has ended in Eof or in one of those.
   */
  lemma StatusesComeFromOutside<F(!new)>(p: Pipeline<F>, run: seq<State<F>>, k: nat, faults: set<Status>, cancels: set<Status>)
    requires RunWith(p, run, faults, cancels) && k < |run|
    ensures run[k].error == Ok || run[k].error in faults || run[k].error in cancels
    ensures |run[k].queues| == p.n + 1
    ensures forall j :: 0 <= j <= p.n && run[k].queues[j].end ==>
              run[k].queues[j].endStatus == Eof || run[k].queues[j].endStatus in faults || run[k].queues[j].endStatus in cancels
  {
    RunTraced(p, run, k, faults, cancels);
    assert forall j :: 0 <= j <= p.n ==> EndsIn(run[k].queues[j], faults + cancels);
  }

  /**
   * A run in which the client cancels nothing and every node that fails does so with st: the error is
   * Ok until some worker is broken and st from then on; when all workers have left, the output has
   * ended in Eof if the error is Ok and in st otherwise, which is what pull returns at the end.
   */
  lemma FailureReachesClient<F(!new)>(p: Pipeline<F>, run: seq<State<F>>, k: nat, st: Status)
    requires RunWith(p, run, {st}, {}) && k < |run|
    ensures Shape(p, run[k]) && run[k].error in {Ok, st}
    ensures forall i :: 0 <= i < p.n && IsBroken(run[k].workers[i]) ==> run[k].error == st != Ok
    ensures forall j :: 0 <= j <= p.n && run[k].queues[j].end ==> run[k].queues[j].endStatus in {Eof, st}
    ensures run[k].active == 0 ==>
              run[k].queues[p.n].end && run[k].queues[p.n].endStatus == if run[k].error == Ok then Eof else st
  {
    var s := run[k];
    RunTraced(p, run, k, {st}, {});
    forall i | 0 <= i < p.n && IsBroken(s.workers[i]) ensures s.error == st != Ok {
      assert PcOk(p, s, i);
    }
    forall j | 0 <= j <= p.n && s.queues[j].end ensures s.queues[j].endStatus in {Eof, st} {
      assert EndsIn(s.queues[j], {st} + {});
    }
    if s.active == 0 {
      LiveZero(s.workers);
      assert PcOk(p, s, p.n - 1);
      if s.queues[p.n].endStatus == Eof {
        EofMeansComplete(p, s);
      }
    }
  }

  /** If no node fails and nobody cancels there is no error, and a run that is over has delivered everything. */
  lemma NothingFailsByItself<F(!new)>(p: Pipeline<F>, run: seq<State<F>>, k: nat)
    requires RunWith(p, run, {}, {}) && k < |run|
    ensures Shape(p, run[k]) && run[k].error == Ok
    ensures run[k].active == 0 ==> run[k].delivered + run[k].queues[p.n].items == Image(p, p.n, run[k].logs[0])
  {
    RunTraced(p, run, k, {}, {});
    if run[k].active == 0 {
      LiveZero(run[k].workers);
      assert PcOk(p, run[k], p.n - 1);
      assert EndsIn(run[k].queues[p.n], {});
      EofMeansComplete(p, run[k]);
    }
  }

  /** Without the client's doing the output ends only when the sink leaves: no other worker's failure cuts it off. */
  lemma OnlySinkEndsOutput<F(!new)>(p: Pipeline<F>, run: seq<State<F>>, k: nat, faults: set<Status>)
    requires RunWith(p, run, faults, {}) && k < |run|
    ensures Shape(p, run[k])
    ensures run[k].queues[p.n].end ==> run[k].workers[p.n - 1].pc.Leaving? || run[k].workers[p.n - 1].pc.Done?
  {
    RunTraced(p, run, k, faults, {});
  }

  /** The first error wins: once set it is never changed, whatever fails or is canceled later. */
  lemma {:induction false} FirstErrorWins<F(!new)>(p: Pipeline<F>, run: seq<State<F>>, j: nat, k: nat)
    requires Run(p, run) && j <= k < |run| && run[j].error != Ok
    ensures run[k].error == run[j].error
    decreases k
  {
    if j < k {
      FirstErrorWins(p, run, j, k - 1);
      RunKeepsInv(p, run, k - 1);
      assert StepAt(p, run, k - 1);
    }
  }

  // ---------------------------------------------------------------- what arrives

  /** What comes of a frame that goes through the first k of nodes g. */
  function Through<F>(g: (nat, F) -> F, k: nat, f: F): F {
    if k == 0 then f else g(k - 1, Through(g, k - 1, f))
  }

  /** Nodes that turn each frame into one other. */
  ghost predicate Maps<F(!new)>(p: Pipeline<F>, g: (nat, F) -> F) {
    && (forall i, h, f :: p.emitted(i, h, f) == [g(i, f)])
    && (forall i, h :: p.tail(i, h) == [])
  }

  lemma {:induction false} MappedOut<F(!new)>(p: Pipeline<F>, g: (nat, F) -> F, i: nat, h: seq<F>)
    requires Maps(p, g)
    ensures |Out(p, i, h)| == |h| && forall j :: 0 <= j < |h| ==> Out(p, i, h)[j] == g(i, h[j])
    decreases |h|
  {
    if h != [] {
      MappedOut(p, g, i, h[..|h| - 1]);
    }
  }

  lemma {:induction false} MappedImage<F(!new)>(p: Pipeline<F>, g: (nat, F) -> F, k: nat, accepted: seq<F>)
    requires Maps(p, g)
    ensures |Image(p, k, accepted)| == |accepted|
    ensures forall j :: 0 <= j < |accepted| ==> Image(p, k, accepted)[j] == Through(g, k, accepted[j])
  {
    if k > 0 {
      MappedImage(p, g, k - 1, accepted);
      MappedOut(p, g, k - 1, Image(p, k - 1, accepted));
    }
  }

  /** At Eof the client has, or can pull, every accepted frame as the nodes turned it out, in order. */
  lemma MappedFramesArrive<F(!new)>(p: Pipeline<F>, s: State<F>, g: (nat, F) -> F)
    requires Maps(p, g) && Inv(p, s) && OutputAtEof(p, s)
    ensures var all := s.delivered + s.queues[p.n].items;
            |all| == |s.logs[0]| && forall j :: 0 <= j < |all| ==> all[j] == Through(g, p.n, s.logs[0][j])
  {
    EofMeansComplete(p, s);
    MappedImage(p, g, p.n, s.logs[0]);
  }

  /** Nodes that keep each frame until the next one comes, and let the last one go when flushed. */
  ghost predicate Delays<F(!new)>(p: Pipeline<F>) {
    && (forall i, h, f :: p.emitted(i, h, f) == if h == [] then [] else [h[|h| - 1]])
    && (forall i, h :: p.tail(i, h) == if h == [] then [] else [h[|h| - 1]])
  }

  /** All but the last. */
  function Front<F>(h: seq<F>): seq<F> {
    if h == [] then [] else h[..|h| - 1]
  }

  lemma DelayedStep<F(!new)>(p: Pipeline<F>, i: nat, m: seq<F>, f: F)
    requires Delays(p)
    ensures Front(m) + p.emitted(i, m, f) == m
  {
    if m != [] { assert m == m[..|m| - 1] + [m[|m| - 1]]; }
  }

  lemma {:induction false} DelayedOut<F(!new)>(p: Pipeline<F>, i: nat, h: seq<F>)
    requires Delays(p)
    ensures Out(p, i, h) == Front(h)
    decreases |h|
  {
    if h != [] {
      var m := h[..|h| - 1];
      DelayedOut(p, i, m);
      DelayedStep(p, i, m, h[|h| - 1]);
      hide Delays;
    }
  }

  lemma DelayedFull<F(!new)>(p: Pipeline<F>, i: nat, h: seq<F>)
    requires Delays(p)
    ensures Full(p, i, h) == h
  {
    DelayedOut(p, i, h);
    if h != [] { assert h == h[..|h| - 1] + [h[|h| - 1]]; }
  }

  lemma {:induction false} DelayedImage<F(!new)>(p: Pipeline<F>, k: nat, accepted: seq<F>)
    requires Delays(p)
    ensures Image(p, k, accepted) == accepted
  {
    hide Delays;
    if k > 0 {
      DelayedImage(p, k - 1, accepted);
      DelayedFull(p, k - 1, accepted);
    }
  }

  /** A frame held back is not lost: with such nodes everything accepted has come out when the output is at Eof. */
  lemma DelayedFramesArrive<F(!new)>(p: Pipeline<F>, s: State<F>)
    requires Delays(p) && Inv(p, s) && OutputAtEof(p, s)
    ensures s.delivered + s.queues[p.n].items == s.logs[0]
  {
    EofMeansComplete(p, s);
    DelayedImage(p, p.n, s.logs[0]);
  }
}
