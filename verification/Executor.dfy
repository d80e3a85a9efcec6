/**
 * The pipeline executor: one worker per node, joined by bounded queues, with a client at both ends.
 *
 * Queue 0 is the session input, queue n the session output and queues 1 .. n-1 are the edges, so
 * worker i pops queue i and pushes queue i + 1. A step is one atomic section of one thread: fail()
 * sets the error in one step and then cancels queue after queue in later ones.
 */
module Executors {
  import opened Statuses
  import opened Channels

  /**
   * What the nodes do. emitted(i, h, f) are the frames node i emits when it processes f after
   * having processed h; tail(i, h) are the frames it emits when flushed after h.
   */
  datatype Pipeline<!F> = Pipeline(n: nat, emitted: (nat, seq<F>, F) -> seq<F>, tail: (nat, seq<F>) -> seq<F>)

  datatype Pc<F> =
    | Popping                               // at the head of the loop
    | Pushing(todo: seq<F>, last: bool)     // inside process, or inside flush when last
    | Failing(status: Status)               // about to enter fail()
    | Canceling(status: Status, k: nat)     // in fail(), queue k is the next to cancel
    | CancelingOut(status: Status)          // the sink, about to cancel the output queue
    | Closing                               // flushed, about to close the queue behind
    | Leaving(clean: bool)                  // about to decrement the active count
    | Done(clean: bool)

  datatype Worker<F> = Worker(pc: Pc<F>, hist: seq<F>, flushed: bool)

  /** logs[k] is everything ever pushed into queue k, delivered what the client took out. */
  datatype State<F> = State(queues: seq<Channel<F>>, logs: seq<seq<F>>, workers: seq<Worker<F>>,
                            error: Status, active: nat, delivered: seq<F>)

  // ---------------------------------------------------------------- steps

  ghost predicate Shape<F>(p: Pipeline<F>, s: State<F>) {
    && p.n >= 2
    && |s.queues| == p.n + 1 && |s.logs| == p.n + 1 && |s.workers| == p.n
    && forall k :: 0 <= k <= p.n ==> s.queues[k].Wellformed()
  }

  predicate Enabled<F>(p: Pipeline<F>, s: State<F>, i: nat)
    requires i < |s.workers| && |s.queues| == |s.workers| + 1
  {
    match s.workers[i].pc
    case Popping => s.queues[i].CanPop()
    case Pushing(todo, _) => todo == [] || s.queues[i + 1].CanPush()
    case Done(_) => false
    case _ => true
  }

  function Goto<F>(s: State<F>, i: nat, pc: Pc<F>): State<F>
    requires i < |s.workers|
  {
    s.(workers := s.workers[i := s.workers[i].(pc := pc)])
  }

  /** The node's flush runs: its tail is to be emitted. */
  function Flush<F>(p: Pipeline<F>, s: State<F>, i: nat): State<F>
    requires i < |s.workers|
  {
    var w := s.workers[i];
    s.(workers := s.workers[i := Worker(Pushing(p.tail(i, w.hist), true), w.hist, true)])
  }

  /** Where a failing worker goes after fail(): only the sink also cancels the output queue. */
  function AfterFail<F>(p: Pipeline<F>, i: nat, status: Status): Pc<F> {
    if i + 1 == p.n then CancelingOut(status) else Leaving(false)
  }

  function PopStep<F>(p: Pipeline<F>, s: State<F>, i: nat): State<F>
    requires i < |s.workers| && |s.queues| == |s.workers| + 1
  {
    var w := s.workers[i];
    match s.queues[i].Pop()
    case (ch, Success(f)) =>
      var w' := Worker(Pushing(p.emitted(i, w.hist, f), false), w.hist + [f], w.flushed);
      s.(queues := s.queues[i := ch], workers := s.workers[i := w'])
    case (_, Failure(status)) =>
      if status == Eof then Flush(p, s, i) else Goto(s, i, Failing(status))
  }

  function PushStep<F>(p: Pipeline<F>, s: State<F>, i: nat, todo: seq<F>, last: bool): State<F>
    requires i < |s.workers| && |s.queues| == |s.logs| == |s.workers| + 1 && todo != []
  {
    var (ch, status) := s.queues[i + 1].Push(todo[0]);
    if status == Ok then
      Goto(s, i, Pushing(todo[1..], last)).(queues := s.queues[i + 1 := ch],
                                             logs := s.logs[i + 1 := s.logs[i + 1] + [todo[0]]])
    else if i == 0 && !last && status == Eof then
      Flush(p, s, i)  // the source loop takes any Eof for its own end of stream
    else
      Goto(s, i, Failing(status))
  }

  /** The step worker i takes when it is enabled. */
  function Step<F>(p: Pipeline<F>, s: State<F>, i: nat): State<F>
    requires i < |s.workers| && |s.queues| == |s.logs| == |s.workers| + 1 && p.n == |s.workers|
    requires Enabled(p, s, i)
  {
    match s.workers[i].pc
    case Popping => PopStep(p, s, i)
    case Pushing(todo, last) =>
      if todo != [] then PushStep(p, s, i, todo, last)
      else Goto(s, i, if last then Closing else Popping)
    case Failing(status) =>
      if !IsError(status) || s.error != Ok then Goto(s, i, AfterFail(p, i, status))
      else Goto(s, i, Canceling(status, 0)).(error := status)
    case Canceling(status, k) =>
      if k < p.n
      then Goto(s, i, Canceling(status, k + 1)).(queues := s.queues[k := s.queues[k].Cancel(status)])
      else Goto(s, i, AfterFail(p, i, status))
    case CancelingOut(status) =>
      Goto(s, i, Leaving(false)).(queues := s.queues[p.n := s.queues[p.n].Cancel(status)])
    case Closing =>
      Goto(s, i, Leaving(true)).(queues := s.queues[i + 1 := s.queues[i + 1].Close()])
    case Leaving(clean) =>
      Goto(s, i, Done(clean)).(active := if s.active > 0 then s.active - 1 else 0)
  }

  ghost predicate WorkerStep<F>(p: Pipeline<F>, s: State<F>, s': State<F>) {
    Shape(p, s) && exists i: nat :: i < p.n && Enabled(p, s, i) && s' == Step(p, s, i)
  }

  /** process or flush of node i returns an error of its own. */
  ghost predicate Fault<F>(p: Pipeline<F>, s: State<F>, s': State<F>) {
    Shape(p, s) && exists i: nat, status ::
      i < p.n && IsError(status) && s.workers[i].pc.Pushing? && s' == Goto(s, i, Failing(status))
  }

  /** try_push of a frame, accepted. */
  ghost predicate ClientPush<F(!new)>(p: Pipeline<F>, s: State<F>, s': State<F>) {
    Shape(p, s) && !s.queues[0].end && |s.queues[0].items| < s.queues[0].capacity && exists f ::
      s' == s.(queues := s.queues[0 := s.queues[0].Push(f).0], logs := s.logs[0 := s.logs[0] + [f]])
  }

  /** push_eos. */
  ghost predicate ClientClose<F>(p: Pipeline<F>, s: State<F>, s': State<F>) {
    Shape(p, s) && s' == s.(queues := s.queues[0 := s.queues[0].Close()])
  }

  /** shutdown cancels every queue, one at a time; here in any order and at any time. */
  ghost predicate ClientCancel<F>(p: Pipeline<F>, s: State<F>, s': State<F>) {
    Shape(p, s) && exists k: nat, status ::
      k <= p.n && IsError(status) && s' == s.(queues := s.queues[k := s.queues[k].Cancel(status)])
  }

  ghost predicate ClientPop<F>(p: Pipeline<F>, s: State<F>, s': State<F>) {
    Shape(p, s) && s.queues[p.n].items != [] &&
    s' == s.(queues := s.queues[p.n := s.queues[p.n].Pop().0],
             delivered := s.delivered + [s.queues[p.n].items[0]])
  }

  ghost predicate Next<F(!new)>(p: Pipeline<F>, s: State<F>, s': State<F>) {
    || WorkerStep(p, s, s') || Fault(p, s, s')
    || ClientPush(p, s, s') || ClientClose(p, s, s') || ClientCancel(p, s, s') || ClientPop(p, s, s')
  }

  /** launch: the input queue may already hold frames; everything else is empty. */
  ghost predicate Init<F>(p: Pipeline<F>, s: State<F>) {
    && Shape(p, s)
    && s.logs[0] == s.queues[0].items
    && (forall k :: 0 < k <= p.n ==> s.queues[k].items == [] && !s.queues[k].end && s.logs[k] == [])
    && (forall i :: 0 <= i < p.n ==> s.workers[i] == Worker(Popping, [], false))
    && s.error == Ok && s.active == p.n && s.delivered == []
  }

  // ---------------------------------------------------------------- the image of the input

  /** All frames node i emits while it processes h. */
  function Out<F>(p: Pipeline<F>, i: nat, h: seq<F>): seq<F> {
    if h == [] then [] else Out(p, i, h[..|h| - 1]) + p.emitted(i, h[..|h| - 1], h[|h| - 1])
  }

  /** All frames node i emits for h including its flush. */
  function Full<F>(p: Pipeline<F>, i: nat, h: seq<F>): seq<F> {
    Out(p, i, h) + p.tail(i, h)
  }

  /** What queue k carries in all when the accepted frames are processed to the end. */
  function Image<F>(p: Pipeline<F>, k: nat, accepted: seq<F>): seq<F> {
    if k == 0 then accepted else Full(p, k - 1, Image(p, k - 1, accepted))
  }

  lemma {:induction false} OutMonotone<F>(p: Pipeline<F>, i: nat, g: seq<F>, h: seq<F>)
    requires g <= h
    ensures Out(p, i, g) <= Out(p, i, h)
    decreases |h|
  {
    if g != h {
      assert g <= h[..|h| - 1];
      OutMonotone(p, i, g, h[..|h| - 1]);
    }
  }

  // ---------------------------------------------------------------- invariant

  predicate IsClean<F>(w: Worker<F>) {
    w.pc == Leaving(true) || w.pc == Done(true)
  }

  /** The worker has set the error, or found it set, and will not process anything more. */
  predicate IsBroken<F>(w: Worker<F>) {
    w.pc.Canceling? || w.pc.CancelingOut? || w.pc == Leaving(false) || w.pc == Done(false)
  }

  ghost predicate PcOk<F>(p: Pipeline<F>, s: State<F>, i: nat)
    requires Shape(p, s) && i < p.n
  {
    var w := s.workers[i];
    && (w.pc.Popping? ==> !w.flushed)
    && (w.pc.Pushing? ==> w.flushed == w.pc.last)
    && (w.pc.Closing? ==> w.flushed)
    && (w.pc.Failing? ==> IsError(w.pc.status))
    && (w.pc.Canceling? ==> IsError(w.pc.status) && w.pc.k <= p.n
                            && forall k :: 0 <= k < w.pc.k ==> s.queues[k].end)
    && (w.pc.CancelingOut? ==> IsError(w.pc.status) && i + 1 == p.n)
    && (IsBroken(w) ==> s.error != Ok)
    && (IsClean(w) ==> w.flushed && s.queues[i + 1].end)
    && (w.pc.Leaving? || w.pc.Done? ==> i + 1 == p.n ==> s.queues[p.n].end)
  }

  /** A flushed worker has seen its input end in Eof after the worker before it left cleanly. */
  ghost predicate FlushOk<F>(p: Pipeline<F>, s: State<F>, i: nat)
    requires Shape(p, s) && i < p.n
  {
    && (s.workers[i].flushed ==>
          s.queues[i].end && s.queues[i].endStatus == Eof && s.queues[i].items == []
          && (i > 0 ==> IsClean(s.workers[i - 1])))
    && (s.queues[i + 1].end && s.queues[i + 1].endStatus == Eof ==> IsClean(s.workers[i]))
  }

  /** What worker i has put into the queue behind it, against what it has taken in. */
  ghost predicate OutputOk<F>(p: Pipeline<F>, s: State<F>, i: nat)
    requires Shape(p, s) && i < p.n
  {
    var w := s.workers[i];
    var out := s.logs[i + 1];
    && s.logs[i] == w.hist + s.queues[i].items
    && match w.pc
       case Popping => out == Out(p, i, w.hist)
       case Pushing(todo, last) => out + todo == if last then Full(p, i, w.hist) else Out(p, i, w.hist)
       case Closing => out == Full(p, i, w.hist)
       case _ => if IsClean(w) then out == Full(p, i, w.hist)
                 else out <= if w.flushed then Full(p, i, w.hist) else Out(p, i, w.hist)
  }

  /** Once there is an error, every queue before the output is ended or will be by its setter. */
  ghost predicate ErrorOk<F>(p: Pipeline<F>, s: State<F>)
    requires Shape(p, s)
  {
    s.error != Ok ==>
      && IsError(s.error)
      && (exists i :: 0 <= i < p.n && IsBroken(s.workers[i]))
      && ((exists i :: 0 <= i < p.n && s.workers[i].pc.Canceling?)
          || forall k :: 0 <= k < p.n ==> s.queues[k].end)
  }

  function Live<F>(workers: seq<Worker<F>>): nat {
    if workers == [] then 0
    else Live(workers[..|workers| - 1]) + if workers[|workers| - 1].pc.Done? then 0 else 1
  }

  ghost predicate Inv<F>(p: Pipeline<F>, s: State<F>) {
    && Shape(p, s)
    && (forall i :: 0 <= i < p.n ==> PcOk(p, s, i))
    && (forall i :: 0 <= i < p.n ==> FlushOk(p, s, i))
    && (forall i :: 0 <= i < p.n ==> OutputOk(p, s, i))
    && ErrorOk(p, s)
    && s.active == Live(s.workers)
    && s.logs[p.n] == s.delivered + s.queues[p.n].items
  }

  lemma {:induction false} LiveUpdate<F>(workers: seq<Worker<F>>, i: nat, w: Worker<F>)
    requires i < |workers|
    ensures Live(workers[i := w]) ==
            Live(workers) - (if workers[i].pc.Done? then 0 else 1) + (if w.pc.Done? then 0 else 1)
  {
    var n := |workers|;
    if i == n - 1 {
      assert workers[i := w][..n - 1] == workers[..n - 1];
    } else {
      assert workers[i := w][..n - 1] == workers[..n - 1][i := w];
      LiveUpdate(workers[..n - 1], i, w);
    }
  }

  lemma {:induction false} LiveStart<F>(workers: seq<Worker<F>>)
    requires forall i :: 0 <= i < |workers| ==> !workers[i].pc.Done?
    ensures Live(workers) == |workers|
  {
    if workers != [] {
      LiveStart(workers[..|workers| - 1]);
    }
  }

  lemma {:induction false} LiveZero<F>(workers: seq<Worker<F>>)
    ensures Live(workers) == 0 <==> forall i :: 0 <= i < |workers| ==> workers[i].pc.Done?
  {
    if workers != [] {
      LiveZero(workers[..|workers| - 1]);
    }
  }

  lemma InitInv<F>(p: Pipeline<F>, s: State<F>)
    requires Init(p, s)
    ensures Inv(p, s)
  {
    LiveStart(s.workers);
  }

  // ---------------------------------------------------------------- what steps leave alone

  /** A terminal status is never taken back, and nothing gets into an ended queue. */
  predicate Sticky<F>(q: Channel<F>, q': Channel<F>) {
    q.end ==> q'.end && q'.endStatus == q.endStatus && |q'.items| <= |q.items|
  }

  /**
   * From s to s' at most worker i changes; terminal statuses and the error are kept, a clean worker
   * stays clean, and Eof appears nowhere but on the input and right behind worker i.
   */
  ghost predicate Local<F>(p: Pipeline<F>, s: State<F>, s': State<F>, i: nat) {
    && Shape(p, s) && Shape(p, s') && i < p.n
    && (forall j :: 0 <= j < p.n && j != i ==> s'.workers[j] == s.workers[j])
    && (IsClean(s.workers[i]) ==> IsClean(s'.workers[i]))
    && (forall k :: 0 <= k <= p.n ==> Sticky(s.queues[k], s'.queues[k]))
    && (s.error != Ok ==> s'.error == s.error)
    && forall k :: 0 < k <= p.n && k != i + 1 && s'.queues[k].end && s'.queues[k].endStatus == Eof ==>
         s.queues[k].end && s.queues[k].endStatus == Eof
  }

  lemma LocalKeeps<F>(p: Pipeline<F>, s: State<F>, s': State<F>, i: nat, j: nat)
    requires Inv(p, s) && Local(p, s, s', i) && j < p.n && j != i
    ensures PcOk(p, s', j) && FlushOk(p, s', j)
  {
    assert PcOk(p, s, j) && FlushOk(p, s, j);
    if j > 0 { assert s.workers[j - 1] == s'.workers[j - 1] || j - 1 == i; }
  }

  ghost predicate Appended<F>(items: seq<F>, log: seq<F>, more: seq<F>, items': seq<F>, log': seq<F>) {
    items' == items + more && log' == log + more
  }

  ghost predicate Grew<F(!new)>(items: seq<F>, log: seq<F>, items': seq<F>, log': seq<F>) {
    exists more :: Appended(items, log, more, items', log')
  }

  /** Worker i pops queue i, pushes queue i + 1, or touches no items at all. */
  ghost predicate Moves<F(!new)>(p: Pipeline<F>, s: State<F>, s': State<F>, i: nat)
    requires Shape(p, s) && Shape(p, s') && i < p.n
  {
    && (forall k :: 0 <= k <= p.n && k != i + 1 ==> s'.logs[k] == s.logs[k])
    && (forall k :: 0 <= k <= p.n && k != i && k != i + 1 ==> s'.queues[k].items == s.queues[k].items)
    && Grew(s.queues[i + 1].items, s.logs[i + 1], s'.queues[i + 1].items, s'.logs[i + 1])
    && s'.delivered == s.delivered
  }

  lemma MovesKeepOutput<F(!new)>(p: Pipeline<F>, s: State<F>, s': State<F>, i: nat, j: nat)
    requires Inv(p, s) && Local(p, s, s', i) && Moves(p, s, s', i) && j < p.n && j != i
    ensures OutputOk(p, s', j)
  {
    assert OutputOk(p, s, j);
    if j == i + 1 {
      var more :| Appended(s.queues[j].items, s.logs[j], more, s'.queues[j].items, s'.logs[j]);
      assert s.workers[j].hist + s.queues[j].items + more == s.workers[j].hist + (s.queues[j].items + more);
    }
  }

  lemma MovesKeepDelivery<F(!new)>(p: Pipeline<F>, s: State<F>, s': State<F>, i: nat)
    requires Inv(p, s) && Local(p, s, s', i) && Moves(p, s, s', i)
    ensures s'.logs[p.n] == s'.delivered + s'.queues[p.n].items
  {
    if i + 1 == p.n {
      var more :| Appended(s.queues[p.n].items, s.logs[p.n], more, s'.queues[p.n].items, s'.logs[p.n]);
      assert s.delivered + s.queues[p.n].items + more == s.delivered + (s.queues[p.n].items + more);
    }
  }

  /** The error clause survives a step of a worker that was not broken and sets no error. */
  lemma ErrorKept<F(!new)>(p: Pipeline<F>, s: State<F>, s': State<F>, i: nat)
    requires Inv(p, s) && Local(p, s, s', i) && s'.error == s.error
    requires IsBroken(s.workers[i]) ==> IsBroken(s'.workers[i])
    requires s.workers[i].pc.Canceling? && !s'.workers[i].pc.Canceling? ==>
               forall k :: 0 <= k < p.n ==> s'.queues[k].end
    ensures ErrorOk(p, s')
  {
    if s.error != Ok {
      var j :| 0 <= j < p.n && IsBroken(s.workers[j]);
      assert IsBroken(s'.workers[j]);
      if c :| 0 <= c < p.n && s.workers[c].pc.Canceling? {
        assert s'.workers[c].pc.Canceling? || forall k :: 0 <= k < p.n ==> s'.queues[k].end;
      } else {
        assert forall k :: 0 <= k < p.n ==> Sticky(s.queues[k], s'.queues[k]);
      }
    }
  }

  lemma Assemble<F(!new)>(p: Pipeline<F>, s: State<F>, s': State<F>, i: nat)
    requires Inv(p, s) && Local(p, s, s', i) && Moves(p, s, s', i)
    requires PcOk(p, s', i) && FlushOk(p, s', i) && OutputOk(p, s', i) && ErrorOk(p, s')
    requires s'.active == s.active - (if s.workers[i].pc.Done? then 0 else 1)
                                   + (if s'.workers[i].pc.Done? then 0 else 1)
    ensures Inv(p, s')
  {
    forall j | 0 <= j < p.n ensures PcOk(p, s', j) && FlushOk(p, s', j) && OutputOk(p, s', j) {
      if j != i {
        LocalKeeps(p, s, s', i, j);
        MovesKeepOutput(p, s, s', i, j);
      }
    }
    MovesKeepDelivery(p, s, s', i);
    assert s'.workers == s.workers[i := s'.workers[i]];
    LiveUpdate(s.workers, i, s'.workers[i]);
  }

  /** A step that changes worker i and at most one queue, without pushing, is local and moves nothing. */
  lemma OneQueue<F(!new)>(p: Pipeline<F>, s: State<F>, s': State<F>, i: nat, k: nat, q: Channel<F>)
    requires Shape(p, s) && i < p.n && k <= p.n && |s'.workers| == p.n && |s'.logs| == p.n + 1
    requires s'.workers == s.workers[i := s'.workers[i]] && s'.queues == s.queues[k := q]
    requires q.Wellformed() && Sticky(s.queues[k], q) && s'.logs == s.logs && s'.delivered == s.delivered
    requires q.items == s.queues[k].items || k == i
    requires q.end && q.endStatus == Eof && 0 < k && k != i + 1 ==>
               s.queues[k].end && s.queues[k].endStatus == Eof
    requires s.error != Ok ==> s'.error == s.error
    requires IsClean(s.workers[i]) ==> IsClean(s'.workers[i])
    ensures Local(p, s, s', i) && Moves(p, s, s', i)
  {
    assert Appended(s.queues[i + 1].items, s.logs[i + 1], [], s'.queues[i + 1].items, s'.logs[i + 1]);
  }

  /** Such a step keeps the invariant when it is right about worker i and the error. */
  lemma QuietStep<F(!new)>(p: Pipeline<F>, s: State<F>, s': State<F>, i: nat, k: nat, q: Channel<F>)
    requires Inv(p, s) && Shape(p, s') && i < p.n && k <= p.n
    requires s'.workers == s.workers[i := s'.workers[i]] && s'.queues == s.queues[k := q]
    requires Sticky(s.queues[k], q) && s'.logs == s.logs && s'.delivered == s.delivered
    requires q.items == s.queues[k].items || k == i
    requires q.end && q.endStatus == Eof && 0 < k && k != i + 1 ==>
               s.queues[k].end && s.queues[k].endStatus == Eof
    requires IsClean(s.workers[i]) ==> IsClean(s'.workers[i])
    requires PcOk(p, s', i) && FlushOk(p, s', i) && OutputOk(p, s', i)
    requires if s'.error == s.error
             then (IsBroken(s.workers[i]) ==> IsBroken(s'.workers[i]))
                  && (s.workers[i].pc.Canceling? && !s'.workers[i].pc.Canceling? ==>
                        forall k :: 0 <= k < p.n ==> s'.queues[k].end)
             else s.error == Ok && IsError(s'.error) && s'.workers[i].pc.Canceling?
    requires s'.active == s.active - (if s.workers[i].pc.Done? then 0 else 1)
                                   + (if s'.workers[i].pc.Done? then 0 else 1)
    ensures Inv(p, s')
  {
    assert s'.queues[k] == q;
    OneQueue(p, s, s', i, k, q);
    if s'.error == s.error {
      ErrorKept(p, s, s', i);
    } else {
      assert IsBroken(s'.workers[i]);
    }
    Assemble(p, s, s', i);
  }

  // ---------------------------------------------------------------- every step keeps the invariant

  lemma PopItemKeepsInv<F(!new)>(p: Pipeline<F>, s: State<F>, i: nat)
    requires Inv(p, s) && i < p.n && s.workers[i].pc.Popping? && s.queues[i].items != []
    ensures Inv(p, PopStep(p, s, i))
  {
    var s' := PopStep(p, s, i);
    var w, q := s.workers[i], s.queues[i];
    var f := q.items[0];
    assert PcOk(p, s, i) && FlushOk(p, s, i) && OutputOk(p, s, i);
    assert (w.hist + [f])[..|w.hist|] == w.hist;
    assert w.hist + q.items == (w.hist + [f]) + q.items[1..];
    if i > 0 { assert FlushOk(p, s, i - 1); }
    QuietStep(p, s, s', i, i, q.Pop().0);
  }

  lemma PopEndKeepsInv<F(!new)>(p: Pipeline<F>, s: State<F>, i: nat)
    requires Inv(p, s) && i < p.n && s.workers[i].pc.Popping? && s.queues[i].items == [] && s.queues[i].end
    ensures Inv(p, PopStep(p, s, i))
  {
    var s' := PopStep(p, s, i);
    assert PcOk(p, s, i) && FlushOk(p, s, i) && OutputOk(p, s, i);
    if i > 0 { assert FlushOk(p, s, i - 1); }
    QuietStep(p, s, s', i, 0, s.queues[0]);
  }

  lemma PushItemKeepsInv<F(!new)>(p: Pipeline<F>, s: State<F>, i: nat, todo: seq<F>, last: bool)
    requires Inv(p, s) && i < p.n && s.workers[i].pc == Pushing(todo, last) && todo != []
    requires s.queues[i + 1].CanPush() && !s.queues[i + 1].end
    ensures Inv(p, PushStep(p, s, i, todo, last))
  {
    var s' := PushStep(p, s, i, todo, last);
    assert PcOk(p, s, i) && FlushOk(p, s, i) && OutputOk(p, s, i);
    assert s.logs[i + 1] + todo == (s.logs[i + 1] + [todo[0]]) + todo[1..];
    assert Appended(s.queues[i + 1].items, s.logs[i + 1], [todo[0]], s'.queues[i + 1].items, s'.logs[i + 1]);
    assert Local(p, s, s', i);
    ErrorKept(p, s, s', i);
    Assemble(p, s, s', i);
  }

  /** A push into an ended queue fails; the queue cannot have ended in Eof, so the status is an error. */
  lemma PushEndKeepsInv<F(!new)>(p: Pipeline<F>, s: State<F>, i: nat, todo: seq<F>, last: bool)
    requires Inv(p, s) && i < p.n && s.workers[i].pc == Pushing(todo, last) && todo != []
    requires s.queues[i + 1].end
    ensures Inv(p, PushStep(p, s, i, todo, last))
  {
    assert PcOk(p, s, i) && FlushOk(p, s, i);
    assert IsError(s.queues[i + 1].endStatus);
    FaultKeepsInv(p, s, i, s.queues[i + 1].endStatus);
  }

  lemma ReturnKeepsInv<F(!new)>(p: Pipeline<F>, s: State<F>, i: nat, last: bool)
    requires Inv(p, s) && i < p.n && s.workers[i].pc == Pushing([], last)
    ensures Inv(p, Goto(s, i, if last then Closing else Popping))
  {
    var s' := Goto(s, i, if last then Closing else Popping);
    assert PcOk(p, s, i) && FlushOk(p, s, i) && OutputOk(p, s, i);
    assert s.logs[i + 1] + [] == s.logs[i + 1];
    QuietStep(p, s, s', i, 0, s.queues[0]);
  }

  lemma FaultKeepsInv<F(!new)>(p: Pipeline<F>, s: State<F>, i: nat, status: Status)
    requires Inv(p, s) && i < p.n && IsError(status) && s.workers[i].pc.Pushing?
    ensures Inv(p, Goto(s, i, Failing(status)))
  {
    var s' := Goto(s, i, Failing(status));
    assert PcOk(p, s, i) && FlushOk(p, s, i) && OutputOk(p, s, i);
    QuietStep(p, s, s', i, 0, s.queues[0]);
  }

  /** fail() finds the error already set, or is done canceling. */
  lemma BrokenKeepsInv<F(!new)>(p: Pipeline<F>, s: State<F>, i: nat, status: Status)
    requires Inv(p, s) && i < p.n && IsError(status) && s.error != Ok
    requires s.workers[i].pc == Failing(status) || s.workers[i].pc == Canceling(status, p.n)
    ensures Inv(p, Goto(s, i, AfterFail(p, i, status)))
  {
    var s' := Goto(s, i, AfterFail(p, i, status));
    assert PcOk(p, s, i) && FlushOk(p, s, i) && OutputOk(p, s, i);
    QuietStep(p, s, s', i, 0, s.queues[0]);
  }

  /** fail() sets the error. */
  lemma FirstErrorKeepsInv<F(!new)>(p: Pipeline<F>, s: State<F>, i: nat, status: Status)
    requires Inv(p, s) && i < p.n && s.workers[i].pc == Failing(status) && s.error == Ok
    ensures Inv(p, Goto(s, i, Canceling(status, 0)).(error := status))
  {
    var s' := Goto(s, i, Canceling(status, 0)).(error := status);
    assert PcOk(p, s, i) && FlushOk(p, s, i) && OutputOk(p, s, i);
    QuietStep(p, s, s', i, 0, s.queues[0]);
  }

  lemma CancelKeepsInv<F(!new)>(p: Pipeline<F>, s: State<F>, i: nat, status: Status, k: nat)
    requires Inv(p, s) && i < p.n && k < p.n && s.workers[i].pc == Canceling(status, k)
    ensures Inv(p, Goto(s, i, Canceling(status, k + 1)).(queues := s.queues[k := s.queues[k].Cancel(status)]))
  {
    var s' := Goto(s, i, Canceling(status, k + 1)).(queues := s.queues[k := s.queues[k].Cancel(status)]);
    assert PcOk(p, s, i) && FlushOk(p, s, i) && OutputOk(p, s, i);
    QuietStep(p, s, s', i, k, s.queues[k].Cancel(status));
  }

  lemma CancelOutKeepsInv<F(!new)>(p: Pipeline<F>, s: State<F>, i: nat, status: Status)
    requires Inv(p, s) && i < p.n && s.workers[i].pc == CancelingOut(status)
    ensures Inv(p, Goto(s, i, Leaving(false)).(queues := s.queues[p.n := s.queues[p.n].Cancel(status)]))
  {
    var s' := Goto(s, i, Leaving(false)).(queues := s.queues[p.n := s.queues[p.n].Cancel(status)]);
    assert PcOk(p, s, i) && FlushOk(p, s, i) && OutputOk(p, s, i);
    QuietStep(p, s, s', i, p.n, s.queues[p.n].Cancel(status));
  }

  lemma CloseKeepsInv<F(!new)>(p: Pipeline<F>, s: State<F>, i: nat)
    requires Inv(p, s) && i < p.n && s.workers[i].pc.Closing?
    ensures Inv(p, Goto(s, i, Leaving(true)).(queues := s.queues[i + 1 := s.queues[i + 1].Close()]))
  {
    var s' := Goto(s, i, Leaving(true)).(queues := s.queues[i + 1 := s.queues[i + 1].Close()]);
    assert PcOk(p, s, i) && FlushOk(p, s, i) && OutputOk(p, s, i);
    QuietStep(p, s, s', i, i + 1, s.queues[i + 1].Close());
  }

  lemma LeaveKeepsInv<F(!new)>(p: Pipeline<F>, s: State<F>, i: nat, clean: bool)
    requires Inv(p, s) && i < p.n && s.workers[i].pc == Leaving(clean)
    ensures s.active > 0 && Inv(p, Goto(s, i, Done(clean)).(active := s.active - 1))
  {
    LiveUpdate(s.workers, i, s.workers[i].(pc := Done(clean)));
    var s' := Goto(s, i, Done(clean)).(active := s.active - 1);
    assert PcOk(p, s, i) && FlushOk(p, s, i) && OutputOk(p, s, i);
    QuietStep(p, s, s', i, 0, s.queues[0]);
  }

  lemma FailureKeepsInv<F(!new)>(p: Pipeline<F>, s: State<F>, i: nat)
    requires Inv(p, s) && i < p.n && (s.workers[i].pc.Failing? || s.workers[i].pc.Canceling?)
    ensures Inv(p, Step(p, s, i))
  {
    var pc := s.workers[i].pc;
    assert PcOk(p, s, i);
    if pc.Canceling? && pc.k < p.n {
      CancelKeepsInv(p, s, i, pc.status, pc.k);
    } else if pc.Failing? && s.error == Ok {
      FirstErrorKeepsInv(p, s, i, pc.status);
    } else {
      BrokenKeepsInv(p, s, i, pc.status);
    }
  }

  lemma StepKeepsInv<F(!new)>(p: Pipeline<F>, s: State<F>, i: nat)
    requires Inv(p, s) && i < p.n && Enabled(p, s, i)
    ensures Inv(p, Step(p, s, i))
  {
    match s.workers[i].pc
    case Popping => if s.queues[i].items != [] { PopItemKeepsInv(p, s, i); } else { PopEndKeepsInv(p, s, i); }
    case Pushing(todo, last) =>
      if todo == [] { ReturnKeepsInv(p, s, i, last); }
      else if s.queues[i + 1].end { PushEndKeepsInv(p, s, i, todo, last); }
      else { PushItemKeepsInv(p, s, i, todo, last); }
    case Failing(_) => FailureKeepsInv(p, s, i);
    case Canceling(_, _) => FailureKeepsInv(p, s, i);
    case CancelingOut(status) => CancelOutKeepsInv(p, s, i, status);
    case Closing => CloseKeepsInv(p, s, i);
    case Leaving(clean) => LeaveKeepsInv(p, s, i, clean);
  }

  // ---------------------------------------------------------------- client steps

  /** The client changes one queue, and only an Eof on the input can appear. */
  ghost predicate ClientLocal<F>(p: Pipeline<F>, s: State<F>, s': State<F>) {
    && Shape(p, s) && Shape(p, s')
    && s'.workers == s.workers && s'.error == s.error && s'.active == s.active
    && (forall k :: 0 <= k <= p.n ==> Sticky(s.queues[k], s'.queues[k]))
    && (forall k :: 0 < k <= p.n && s'.queues[k].end && s'.queues[k].endStatus == Eof ==>
          s.queues[k].end && s.queues[k].endStatus == Eof)
    && (forall k :: 0 < k < p.n ==> s'.queues[k].items == s.queues[k].items)
    && (forall k :: 0 < k <= p.n ==> s'.logs[k] == s.logs[k])
  }

  lemma ClientKeepsWorker<F(!new)>(p: Pipeline<F>, s: State<F>, s': State<F>, j: nat)
    requires Inv(p, s) && ClientLocal(p, s, s') && j < p.n
    ensures PcOk(p, s', j) && FlushOk(p, s', j)
  {
    assert PcOk(p, s, j) && FlushOk(p, s, j);
  }

  lemma ClientKeepsOutput<F(!new)>(p: Pipeline<F>, s: State<F>, s': State<F>, j: nat)
    requires Inv(p, s) && ClientLocal(p, s, s') && j < p.n
    requires Grew(s.queues[0].items, s.logs[0], s'.queues[0].items, s'.logs[0])
    ensures OutputOk(p, s', j)
  {
    var more :| Appended(s.queues[0].items, s.logs[0], more, s'.queues[0].items, s'.logs[0]);
    assert OutputOk(p, s, j);
    if j == 0 {
      assert s.workers[0].hist + s.queues[0].items + more == s.workers[0].hist + (s.queues[0].items + more);
    }
  }

  lemma ClientKeepsError<F(!new)>(p: Pipeline<F>, s: State<F>, s': State<F>)
    requires Inv(p, s) && ClientLocal(p, s, s')
    ensures ErrorOk(p, s')
  {
    if s.error != Ok {
      var j :| 0 <= j < p.n && IsBroken(s.workers[j]);
      assert IsBroken(s'.workers[j]);
      if c :| 0 <= c < p.n && s.workers[c].pc.Canceling? {
        assert s'.workers[c].pc.Canceling?;
      } else {
        assert forall k :: 0 <= k < p.n ==> Sticky(s.queues[k], s'.queues[k]);
      }
    }
  }

  lemma ClientLocalKeepsInv<F(!new)>(p: Pipeline<F>, s: State<F>, s': State<F>)
    requires Inv(p, s) && ClientLocal(p, s, s')
    requires Grew(s.queues[0].items, s.logs[0], s'.queues[0].items, s'.logs[0])
    requires s'.logs[p.n] == s'.delivered + s'.queues[p.n].items
    ensures Inv(p, s')
  {
    forall j | 0 <= j < p.n ensures PcOk(p, s', j) && FlushOk(p, s', j) && OutputOk(p, s', j) {
      ClientKeepsWorker(p, s, s', j);
      ClientKeepsOutput(p, s, s', j);
    }
    ClientKeepsError(p, s, s');
  }

  lemma ClientKeepsInv<F(!new)>(p: Pipeline<F>, s: State<F>, s': State<F>)
    requires Inv(p, s)
    requires ClientPush(p, s, s') || ClientClose(p, s, s') || ClientCancel(p, s, s') || ClientPop(p, s, s')
    ensures Inv(p, s')
  {
    if ClientPush(p, s, s') {
      var f :| s' == s.(queues := s.queues[0 := s.queues[0].Push(f).0], logs := s.logs[0 := s.logs[0] + [f]]);
      assert Appended(s.queues[0].items, s.logs[0], [f], s'.queues[0].items, s'.logs[0]);
    } else {
      assert Appended(s.queues[0].items, s.logs[0], [], s'.queues[0].items, s'.logs[0]);
    }
    if ClientPop(p, s, s') {
      var items := s.queues[p.n].items;
      assert items == [items[0]] + items[1..];
    }
    ClientLocalKeepsInv(p, s, s');
  }

  lemma NextKeepsInv<F(!new)>(p: Pipeline<F>, s: State<F>, s': State<F>)
    requires Inv(p, s) && Next(p, s, s')
    ensures Inv(p, s')
  {
    if WorkerStep(p, s, s') {
      var i: nat :| i < p.n && Enabled(p, s, i) && s' == Step(p, s, i);
      StepKeepsInv(p, s, i);
    } else if Fault(p, s, s') {
      var i: nat, status :| i < p.n && IsError(status) && s.workers[i].pc.Pushing?
                            && s' == Goto(s, i, Failing(status));
      FaultKeepsInv(p, s, i, status);
    } else {
      ClientKeepsInv(p, s, s');
    }
  }

  ghost predicate Run<F(!new)>(p: Pipeline<F>, run: seq<State<F>>) {
    run != [] && Init(p, run[0]) && forall k: nat :: k + 1 < |run| ==> StepAt(p, run, k)
  }

  ghost predicate StepAt<F(!new)>(p: Pipeline<F>, run: seq<State<F>>, k: nat)
    requires k + 1 < |run|
  {
    Next(p, run[k], run[k + 1])
  }

  lemma RunStepKeepsInv<F(!new)>(p: Pipeline<F>, run: seq<State<F>>, k: nat)
    requires Run(p, run) && k + 1 < |run| && Inv(p, run[k])
    ensures Inv(p, run[k + 1])
  {
    assert StepAt(p, run, k);
    NextKeepsInv(p, run[k], run[k + 1]);
  }

  lemma {:induction false} RunKeepsInv<F(!new)>(p: Pipeline<F>, run: seq<State<F>>, k: nat)
    requires Run(p, run) && k < |run|
    ensures Inv(p, run[k])
  {
    if k == 0 {
      InitInv(p, run[0]);
    } else {
      RunKeepsInv(p, run, k - 1);
      RunStepKeepsInv(p, run, k - 1);
    }
  }

  ghost predicate RunTo<F(!new)>(p: Pipeline<F>, run: seq<State<F>>, s: State<F>) {
    Run(p, run) && s == run[|run| - 1]
  }

  /** A state some run ends in. */
  ghost predicate Reachable<F(!new)>(p: Pipeline<F>, s: State<F>) {
    exists run :: RunTo(p, run, s)
  }

  lemma ReachableInv<F(!new)>(p: Pipeline<F>, s: State<F>)
    requires Reachable(p, s)
    ensures Inv(p, s)
  {
    var run :| RunTo(p, run, s);
    RunKeepsInv(p, run, |run| - 1);
  }
}
