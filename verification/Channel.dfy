/** A bounded queue as its critical sections see it: the items and the terminal status. */
module Channels {
  import opened Statuses

  /** Neither Ok nor a flow status: what cancel accepts. */
  predicate IsError(s: Status) {
    s != Ok && s != Again && s != Eof
  }

  datatype Channel<T> = Channel(capacity: nat, items: seq<T>, end: bool, endStatus: Status)
  {
    predicate Wellformed() {
      0 < capacity && |items| <= capacity && (end ==> endStatus == Eof || IsError(endStatus))
    }

    predicate CanPush() { |items| < capacity || end }

    predicate CanPop() { items != [] || end }

    /** The critical section of push, once its wait is over. */
    function Push(v: T): (Channel<T>, Status) {
      if end then (this, endStatus) else (this.(items := items + [v]), Ok)
    }

    /** The critical section of pop: buffered items come before the terminal status. */
    function Pop(): (Channel<T>, Result<T>) {
      if items != [] then (this.(items := items[1..]), Success(items[0])) else (this, Failure(endStatus))
    }

    function Close(): Channel<T> {
      if end then this else this.(end := true, endStatus := Eof)
    }

    function Cancel(s: Status): Channel<T> {
      if end || !IsError(s) then this else this.(end := true, endStatus := s)
    }
  }
}
