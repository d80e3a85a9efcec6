/** The bounded queue with its condition variables and the threads asleep on them. */
module Queues {
  import opened Words
  import opened Statuses
  import opened Channels

  /**
   * The queue with its two condition variables. A thread in sleepPush waits for room and one in
   * wokePush has been notified but has not yet taken the lock again; likewise for pop. `pushed`
   * and `popped` record everything that ever went through.
   */
  datatype Monitor<T> = Monitor(ch: Channel<T>, sleepPush: set<nat>, wokePush: set<nat>,
                                sleepPop: set<nat>, wokePop: set<nat>, pushed: seq<T>, popped: seq<T>)

  /**
   * No lost wakeup: while a consumer sleeps, every queued item has a notified consumer on its way,
   * and while a producer sleeps, every free slot has a notified producer on its way.
   */
  ghost predicate Inv<T>(m: Monitor<T>) {
    && m.ch.Wellformed()
    && m.sleepPush !! m.wokePush && m.sleepPop !! m.wokePop
    && (m.sleepPop != {} ==> !m.ch.end && |m.ch.items| <= |m.wokePop|)
    && (m.sleepPush != {} ==> !m.ch.end && m.ch.capacity - |m.ch.items| <= |m.wokePush|)
    && m.pushed == m.popped + m.ch.items
  }

  // ---------------------------------------------------------------- atomic sections

  /** notify_one: some sleeper, if there is one, becomes a woken thread. */
  predicate NotifyOne(sleep: set<nat>, woke: set<nat>, sleep': set<nat>, woke': set<nat>) {
    if sleep == {} then sleep' == sleep && woke' == woke
    else exists t :: t in sleep && sleep' == sleep - {t} && woke' == woke + {t}
  }

  /** One pass of push by thread t, on entry or after a wakeup: it completes, or goes to sleep. */
  ghost predicate PushPass<T>(m: Monitor<T>, t: nat, v: T, r: Option<Status>, m': Monitor<T>) {
    var woke := m.wokePush - {t};
    t !in m.sleepPush &&
    if !m.ch.CanPush() then
      r == None && m' == m.(sleepPush := m.sleepPush + {t}, wokePush := woke)
    else if m.ch.end then
      r == Some(m.ch.endStatus) && m' == m.(wokePush := woke)
    else
      r == Some(Ok) && m'.wokePush == woke && m'.sleepPush == m.sleepPush
      && m'.ch == m.ch.Push(v).0 && m'.pushed == m.pushed + [v] && m'.popped == m.popped
      && NotifyOne(m.sleepPop, m.wokePop, m'.sleepPop, m'.wokePop)
  }

  /** One pass of pop by thread t. */
  ghost predicate PopPass<T>(m: Monitor<T>, t: nat, r: Option<Result<T>>, m': Monitor<T>) {
    var woke := m.wokePop - {t};
    t !in m.sleepPop &&
    if !m.ch.CanPop() then
      r == None && m' == m.(sleepPop := m.sleepPop + {t}, wokePop := woke)
    else if m.ch.items == [] then
      r == Some(Failure(m.ch.endStatus)) && m' == m.(wokePop := woke)
    else
      r == Some(Success(m.ch.items[0])) && m'.wokePop == woke && m'.sleepPop == m.sleepPop
      && m'.ch == m.ch.Pop().0 && m'.popped == m.popped + [m.ch.items[0]] && m'.pushed == m.pushed
      && NotifyOne(m.sleepPush, m.wokePush, m'.sleepPush, m'.wokePush)
  }

  ghost predicate TryPushPass<T>(m: Monitor<T>, v: T, r: Status, m': Monitor<T>) {
    if m.ch.end then r == m.ch.endStatus && m' == m
    else if |m.ch.items| >= m.ch.capacity then r == Again && m' == m
    else
      r == Ok && m'.ch == m.ch.Push(v).0 && m'.pushed == m.pushed + [v] && m'.popped == m.popped
      && m'.sleepPush == m.sleepPush && m'.wokePush == m.wokePush
      && NotifyOne(m.sleepPop, m.wokePop, m'.sleepPop, m'.wokePop)
  }

  ghost predicate TryPopPass<T>(m: Monitor<T>, r: Result<T>, m': Monitor<T>) {
    if m.ch.items == [] then
      r == Failure(if m.ch.end then m.ch.endStatus else Again) && m' == m
    else
      r == Success(m.ch.items[0]) && m'.ch == m.ch.Pop().0
      && m'.popped == m.popped + [m.ch.items[0]] && m'.pushed == m.pushed
      && m'.sleepPop == m.sleepPop && m'.wokePop == m.wokePop
      && NotifyOne(m.sleepPush, m.wokePush, m'.sleepPush, m'.wokePush)
  }

  /** notify_all on both conditions. */
  function WakeAll<T>(m: Monitor<T>): Monitor<T> {
    m.(sleepPush := {}, wokePush := m.wokePush + m.sleepPush, sleepPop := {}, wokePop := m.wokePop + m.sleepPop)
  }

  ghost predicate ClosePass<T>(m: Monitor<T>, m': Monitor<T>) {
    m' == WakeAll(m.(ch := m.ch.Close()))
  }

  ghost predicate CancelPass<T>(m: Monitor<T>, s: Status, m': Monitor<T>) {
    m' == if IsError(s) then WakeAll(m.(ch := m.ch.Cancel(s))) else m
  }

  /** A condition variable may wake a sleeper for no reason. */
  ghost predicate SpuriousWake<T>(m: Monitor<T>, m': Monitor<T>) {
    || (exists t :: t in m.sleepPush && m' == m.(sleepPush := m.sleepPush - {t}, wokePush := m.wokePush + {t}))
    || (exists t :: t in m.sleepPop && m' == m.(sleepPop := m.sleepPop - {t}, wokePop := m.wokePop + {t}))
  }

  ghost predicate Next<T(!new)>(m: Monitor<T>, m': Monitor<T>) {
    || (exists t, v, r :: PushPass(m, t, v, r, m'))
    || (exists t, r :: PopPass(m, t, r, m'))
    || (exists v, r :: TryPushPass(m, v, r, m'))
    || (exists r :: TryPopPass(m, r, m'))
    || ClosePass(m, m')
    || (exists s :: CancelPass(m, s, m'))
    || SpuriousWake(m, m')
  }

  // ---------------------------------------------------------------- every step keeps the invariant

  /** What a step never takes back: the terminal status, and everything already pushed or popped. */
  ghost predicate Monotone<T>(m: Monitor<T>, m': Monitor<T>) {
    && m'.ch.capacity == m.ch.capacity
    && (m.ch.end ==> m'.ch.end && m'.ch.endStatus == m.ch.endStatus && m'.pushed == m.pushed)
    && m.pushed <= m'.pushed && m.popped <= m'.popped
  }

  lemma NotifyCounts(sleep: set<nat>, woke: set<nat>, sleep': set<nat>, woke': set<nat>)
    requires sleep !! woke && NotifyOne(sleep, woke, sleep', woke')
    ensures sleep' !! woke' && sleep' <= sleep
    ensures sleep != {} ==> |woke'| == |woke| + 1
    ensures sleep == {} ==> sleep' == {} && woke' == woke
  {
    if sleep != {} {
      var t :| t in sleep && sleep' == sleep - {t} && woke' == woke + {t};
    }
  }

  lemma RemoveCounts(s: set<nat>, t: nat)
    ensures |s - {t}| == if t in s then |s| - 1 else |s|
  {
    if t !in s { assert s - {t} == s; }
  }

  lemma PushKeepsInv<T>(m: Monitor<T>, t: nat, v: T, r: Option<Status>, m': Monitor<T>)
    requires Inv(m) && PushPass(m, t, v, r, m')
    ensures Inv(m') && Monotone(m, m')
    ensures r == None ==> !m.ch.end && |m.ch.items| == m.ch.capacity
  {
    RemoveCounts(m.wokePush, t);
    if r == Some(Ok) && !m.ch.end {
      NotifyCounts(m.sleepPop, m.wokePop, m'.sleepPop, m'.wokePop);
      assert m.pushed + [v] == m.popped + (m.ch.items + [v]);
    }
  }

  lemma PopKeepsInv<T>(m: Monitor<T>, t: nat, r: Option<Result<T>>, m': Monitor<T>)
    requires Inv(m) && PopPass(m, t, r, m')
    ensures Inv(m') && Monotone(m, m')
    ensures r == None ==> !m.ch.end && m.ch.items == []
  {
    RemoveCounts(m.wokePop, t);
    if m.ch.items != [] {
      NotifyCounts(m.sleepPush, m.wokePush, m'.sleepPush, m'.wokePush);
      assert m.ch.items == [m.ch.items[0]] + m.ch.items[1..];
    }
  }

  lemma TryPushKeepsInv<T>(m: Monitor<T>, v: T, r: Status, m': Monitor<T>)
    requires Inv(m) && TryPushPass(m, v, r, m')
    ensures Inv(m') && Monotone(m, m')
  {
    if m' != m {
      NotifyCounts(m.sleepPop, m.wokePop, m'.sleepPop, m'.wokePop);
      assert m.pushed + [v] == m.popped + (m.ch.items + [v]);
    }
  }

  lemma TryPopKeepsInv<T>(m: Monitor<T>, r: Result<T>, m': Monitor<T>)
    requires Inv(m) && TryPopPass(m, r, m')
    ensures Inv(m') && Monotone(m, m')
  {
    if m.ch.items != [] {
      NotifyCounts(m.sleepPush, m.wokePush, m'.sleepPush, m'.wokePush);
      assert m.ch.items == [m.ch.items[0]] + m.ch.items[1..];
    }
  }

  lemma SpuriousKeepsInv<T>(m: Monitor<T>, m': Monitor<T>)
    requires Inv(m) && SpuriousWake(m, m')
    ensures Inv(m') && Monotone(m, m')
  {
  }

  lemma NextKeepsInv<T(!new)>(m: Monitor<T>, m': Monitor<T>)
    requires Inv(m) && Next(m, m')
    ensures Inv(m') && Monotone(m, m')
  {
    if t, v, r :| PushPass(m, t, v, r, m') {
      PushKeepsInv(m, t, v, r, m');
    } else if t, r :| PopPass(m, t, r, m') {
      PopKeepsInv(m, t, r, m');
    } else {
      OtherKeepsInv(m, m');
    }
  }

  lemma OtherKeepsInv<T(!new)>(m: Monitor<T>, m': Monitor<T>)
    requires Inv(m)
    requires (exists v, r :: TryPushPass(m, v, r, m')) || (exists r :: TryPopPass(m, r, m'))
             || ClosePass(m, m') || (exists s :: CancelPass(m, s, m')) || SpuriousWake(m, m')
    ensures Inv(m') && Monotone(m, m')
  {
    if v, r :| TryPushPass(m, v, r, m') {
      TryPushKeepsInv(m, v, r, m');
    } else if r :| TryPopPass(m, r, m') {
      TryPopKeepsInv(m, r, m');
    } else if ClosePass(m, m') {
      WakeAllKeepsInv(m, m.ch.Close());
    } else if SpuriousWake(m, m') {
      SpuriousKeepsInv(m, m');
    } else {
      var s :| CancelPass(m, s, m');
      WakeAllKeepsInv(m, m.ch.Cancel(s));
    }
  }

  lemma WakeAllKeepsInv<T>(m: Monitor<T>, ch: Channel<T>)
    requires Inv(m) && ch.Wellformed() && ch.items == m.ch.items && ch.capacity == m.ch.capacity
    requires m.ch.end ==> ch == m.ch
    ensures Inv(WakeAll(m.(ch := ch))) && Monotone(m, WakeAll(m.(ch := ch)))
  {
  }

  function Empty<T>(capacity: nat): Monitor<T> {
    Monitor(Channel(if capacity == 0 then 1 else capacity, [], false, Eof), {}, {}, {}, {}, [], [])
  }

  ghost predicate Run<T(!new)>(run: seq<Monitor<T>>, capacity: nat) {
    run != [] && run[0] == Empty(capacity) && forall k: nat :: k + 1 < |run| ==> StepAt(run, k)
  }

  ghost predicate StepAt<T(!new)>(run: seq<Monitor<T>>, k: nat)
    requires k + 1 < |run|
  {
    Next(run[k], run[k + 1])
  }

  lemma RunStepKeepsInv<T(!new)>(run: seq<Monitor<T>>, capacity: nat, k: nat)
    requires Run(run, capacity) && k + 1 < |run| && Inv(run[k])
    ensures Inv(run[k + 1]) && Monotone(run[k], run[k + 1])
  {
    assert StepAt(run, k);
    NextKeepsInv(run[k], run[k + 1]);
  }

  lemma {:induction false} RunKeepsInv<T(!new)>(run: seq<Monitor<T>>, capacity: nat, k: nat)
    requires Run(run, capacity) && k < |run|
    ensures Inv(run[k])
  {
    if k > 0 {
      RunKeepsInv(run, capacity, k - 1);
      RunStepKeepsInv(run, capacity, k - 1);
    }
  }

  /**
   * Over every run with any number of producers and consumers: no wakeup is lost, the size stays
   * within the capacity, items leave in the order they came, and from the moment the queue ends
   * its status is fixed and nothing more gets in.
   */
  lemma {:induction false} RunsAreSafe<T(!new)>(run: seq<Monitor<T>>, capacity: nat, i: nat, j: nat)
    requires Run(run, capacity) && i <= j < |run|
    ensures Inv(run[i]) && Inv(run[j]) && Monotone(run[i], run[j])
    decreases j
  {
    if i == j {
      RunKeepsInv(run, capacity, j);
    } else {
      RunsAreSafe(run, capacity, i, j - 1);
      RunStepKeepsInv(run, capacity, j - 1);
    }
  }

  /** A sleeper that could go on is never forgotten: somebody notified is still on the way. */
  lemma SleepersAreServed<T(!new)>(run: seq<Monitor<T>>, capacity: nat, k: nat)
    requires Run(run, capacity) && k < |run|
    ensures run[k].sleepPop != {} && run[k].ch.CanPop() ==> run[k].wokePop != {}
    ensures run[k].sleepPush != {} && run[k].ch.CanPush() ==> run[k].wokePush != {}
  {
    RunsAreSafe(run, capacity, k, k);
  }

  // ---------------------------------------------------------------- what the operations answer

  /** How many items have gone in and not come out. */
  function Waiting<T>(m: Monitor<T>): int {
    |m.pushed| - |m.popped|
  }

  /** The item that is next in the order they went in. */
  ghost predicate IsNext<T>(m: Monitor<T>, v: T) {
    |m.popped| < |m.pushed| && v == m.pushed[|m.popped|]
  }

  /**
   * push waits while the queue is full and has not ended, answers with its status once it has, and otherwise
   * puts the item behind all others.
   */
  lemma PushAnswers<T>(m: Monitor<T>, t: nat, v: T, r: Option<Status>, m': Monitor<T>)
    requires Inv(m) && PushPass(m, t, v, r, m')
    ensures m.ch.end ==> r == Some(m.ch.endStatus) && r != Some(Ok) && m'.pushed == m.pushed
    ensures !m.ch.end && Waiting(m) == m.ch.capacity ==> r == None && t in m'.sleepPush && m'.pushed == m.pushed
    ensures !m.ch.end && Waiting(m) < m.ch.capacity ==> r == Some(Ok) && m'.pushed == m.pushed + [v]
    ensures Waiting(m) <= m.ch.capacity && m'.popped == m.popped && m'.ch.end == m.ch.end
  {
  }

  /**
   * pop hands out the items in the order they went in, also after the end; with none left it answers with the
   * status, or waits while there is none.
   */
  lemma PopAnswers<T>(m: Monitor<T>, t: nat, r: Option<Result<T>>, m': Monitor<T>)
    requires Inv(m) && PopPass(m, t, r, m')
    ensures Waiting(m) > 0 ==> exists v :: IsNext(m, v) && r == Some(Success(v)) && m'.popped == m.popped + [v]
    ensures Waiting(m) == 0 && m.ch.end ==> r == Some(Failure(m.ch.endStatus)) && m'.popped == m.popped
    ensures Waiting(m) == 0 && !m.ch.end ==> r == None && t in m'.sleepPop && m'.popped == m.popped
    ensures Waiting(m) >= 0 && m'.pushed == m.pushed && m'.ch.end == m.ch.end
  {
    if Waiting(m) > 0 { assert IsNext(m, m.ch.items[0]); }
  }

  /** try_push and try_pop answer the same without waiting: Again where the others would sleep. */
  lemma TryAnswers<T>(m: Monitor<T>, v: T, p: Status, mp: Monitor<T>, r: Result<T>, mr: Monitor<T>)
    requires Inv(m) && TryPushPass(m, v, p, mp) && TryPopPass(m, r, mr)
    ensures m.ch.end ==> p == m.ch.endStatus && mp == m
    ensures !m.ch.end && Waiting(m) == m.ch.capacity ==> p == Again && mp == m
    ensures !m.ch.end && Waiting(m) < m.ch.capacity ==> p == Ok && mp.pushed == m.pushed + [v] && mp.popped == m.popped
    ensures Waiting(m) > 0 ==> exists w :: IsNext(m, w) && r == Success(w) && mr.popped == m.popped + [w] && mr.pushed == m.pushed
    ensures Waiting(m) == 0 ==> mr == m && r == Failure(if m.ch.end then m.ch.endStatus else Again)
  {
    if Waiting(m) > 0 { assert IsNext(m, m.ch.items[0]); }
  }

  /** close ends the queue in Eof and cancel in its status, unless it has ended or the status is no error; nobody sleeps on. */
  lemma EndAnswers<T>(m: Monitor<T>, c: Monitor<T>, s: Status, x: Monitor<T>)
    requires Inv(m) && ClosePass(m, c) && CancelPass(m, s, x)
    ensures c.ch.end && c.ch.endStatus == (if m.ch.end then m.ch.endStatus else Eof)
    ensures c.sleepPop == {} && c.sleepPush == {} && c.pushed == m.pushed && c.popped == m.popped
    ensures c.wokePop == m.wokePop + m.sleepPop && c.wokePush == m.wokePush + m.sleepPush
    ensures s in {Ok, Again, Eof} ==> x == m
    ensures s !in {Ok, Again, Eof} ==>
              && x.ch.end && x.ch.endStatus == (if m.ch.end then m.ch.endStatus else s)
              && x.sleepPop == {} && x.sleepPush == {} && x.pushed == m.pushed && x.popped == m.popped
              && x.wokePop == m.wokePop + m.sleepPop && x.wokePush == m.wokePush + m.sleepPush
  {
  }

  /** The step that ended the queue: a close, or a cancel with the status it has had since. */
  ghost predicate Ended<T(!new)>(run: seq<Monitor<T>>, j: nat, status: Status)
    requires j + 1 < |run|
  {
    && !run[j].ch.end && run[j + 1].ch.end
    && ((status == Eof && ClosePass(run[j], run[j + 1]))
        || (status !in {Ok, Again, Eof} && CancelPass(run[j], status, run[j + 1])))
  }

  lemma EndsByStep<T(!new)>(m: Monitor<T>, m': Monitor<T>)
    requires Inv(m) && Next(m, m') && !m.ch.end && m'.ch.end
    ensures (m'.ch.endStatus == Eof && ClosePass(m, m'))
            || (m'.ch.endStatus !in {Ok, Again, Eof} && CancelPass(m, m'.ch.endStatus, m'))
  {
    if ClosePass(m, m') {
    } else if s :| CancelPass(m, s, m') {
    }
  }

  /** No status is made up: a queue has ended only by a close or a cancel, in the status of the first of them. */
  lemma {:induction false} EndHasCause<T(!new)>(run: seq<Monitor<T>>, capacity: nat, k: nat)
    requires Run(run, capacity) && k < |run| && run[k].ch.end
    ensures exists j: nat :: j < k && Ended(run, j, run[k].ch.endStatus)
    ensures run[k].ch.capacity == if capacity == 0 then 1 else capacity
    decreases k
  {
    assert k > 0;
    RunKeepsInv(run, capacity, k - 1);
    RunStepKeepsInv(run, capacity, k - 1);
    RunsAreSafe(run, capacity, 0, k);
    if run[k - 1].ch.end {
      EndHasCause(run, capacity, k - 1);
      var j: nat :| j < k - 1 && Ended(run, j, run[k - 1].ch.endStatus);
      assert Ended(run, j, run[k].ch.endStatus);
    } else {
      assert StepAt(run, k - 1);
      EndsByStep(run[k - 1], run[k]);
      assert Ended(run, k - 1, run[k].ch.endStatus);
    }
  }

  // ---------------------------------------------------------------- the class

  class BoundedQueue<T> {
    const capacity: nat
    var queue: seq<T>
    var end: bool
    var endStatus: Status
    var notFull: set<nat>
    var notEmpty: set<nat>
    ghost var wokePush: set<nat>
    ghost var wokePop: set<nat>
    ghost var pushed: seq<T>
    ghost var popped: seq<T>

    ghost function View(): Monitor<T>
      reads this
    {
      Monitor(Channel(capacity, queue, end, endStatus), notFull, wokePush, notEmpty, wokePop, pushed, popped)
    }

    ghost predicate Valid()
      reads this
    {
      Inv(View())
    }

    constructor (cap: nat)
      ensures Valid() && View() == Empty(cap)
    {
      capacity := if cap == 0 then 1 else cap;
      queue, end, endStatus := [], false, Eof;
      notFull, notEmpty, wokePush, wokePop := {}, {}, {}, {};
      pushed, popped := [], [];
    }

    method NotifyNotEmpty()
      modifies this`notEmpty, this`wokePop
      ensures NotifyOne(old(notEmpty), old(wokePop), notEmpty, wokePop)
    {
      if notEmpty != {} {
        var t :| t in notEmpty;
        notEmpty := notEmpty - {t};
        wokePop := wokePop + {t};
      }
    }

    method NotifyNotFull()
      modifies this`notFull, this`wokePush
      ensures NotifyOne(old(notFull), old(wokePush), notFull, wokePush)
    {
      if notFull != {} {
        var t :| t in notFull;
        notFull := notFull - {t};
        wokePush := wokePush + {t};
      }
    }

    /** Thread t holds the lock at the head of push's wait loop. None: it waits on notFull. */
    method Push(t: nat, v: T) returns (r: Option<Status>)
      requires Valid() && t !in notFull
      modifies this
      ensures Valid() && PushPass(old(View()), t, v, r, View())
    {
      wokePush := wokePush - {t};
      if !(|queue| < capacity || end) {
        notFull := notFull + {t};
        r := None;
      } else if end {
        r := Some(endStatus);
      } else {
        queue := queue + [v];
        pushed := pushed + [v];
        NotifyNotEmpty();
        r := Some(Ok);
      }
      PushKeepsInv(old(View()), t, v, r, View());
    }

    method TryPush(v: T) returns (r: Status)
      requires Valid()
      modifies this
      ensures Valid() && TryPushPass(old(View()), v, r, View())
    {
      if end {
        return endStatus;
      }
      if |queue| >= capacity {
        return Again;
      }
      queue := queue + [v];
      pushed := pushed + [v];
      NotifyNotEmpty();
      r := Ok;
      TryPushKeepsInv(old(View()), v, r, View());
    }

    /** Thread t holds the lock at the head of pop's wait loop. None: it waits on notEmpty. */
    method Pop(t: nat) returns (r: Option<Result<T>>)
      requires Valid() && t !in notEmpty
      modifies this
      ensures Valid() && PopPass(old(View()), t, r, View())
    {
      wokePop := wokePop - {t};
      if !(queue != [] || end) {
        notEmpty := notEmpty + {t};
        r := None;
      } else if queue != [] {
        var v := queue[0];
        queue := queue[1..];
        popped := popped + [v];
        NotifyNotFull();
        r := Some(Success(v));
      } else {
        r := Some(Failure(endStatus));
      }
      PopKeepsInv(old(View()), t, r, View());
    }

    method TryPop() returns (r: Result<T>)
      requires Valid()
      modifies this
      ensures Valid() && TryPopPass(old(View()), r, View())
    {
      if queue != [] {
        var v := queue[0];
        queue := queue[1..];
        popped := popped + [v];
        NotifyNotFull();
        r := Success(v);
      } else if end {
        r := Failure(endStatus);
      } else {
        r := Failure(Again);
      }
      TryPopKeepsInv(old(View()), r, View());
    }

    method NotifyAll()
      modifies this`notFull, this`notEmpty, this`wokePush, this`wokePop
      ensures View() == WakeAll(old(View()))
    {
      wokePush, wokePop := wokePush + notFull, wokePop + notEmpty;
      notFull, notEmpty := {}, {};
    }

    method Close()
      requires Valid()
      modifies this
      ensures Valid() && ClosePass(old(View()), View())
    {
      if !end {
        end := true;
        endStatus := Eof;
      }
      NotifyAll();
    }

    method Cancel(s: Status)
      requires Valid()
      modifies this
      ensures Valid() && CancelPass(old(View()), s, View())
    {
      if s == Ok || s == Again || s == Eof {
        return;
      }
      if !end {
        end := true;
        endStatus := s;
      }
      NotifyAll();
    }
  }
}
