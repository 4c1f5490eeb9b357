/** The bounded queue between a stream and its consumer. */
module AsyncQueue {
  const MAX_VALUES := 4096
  const MAX_BYTES := 8 * 1024 * 1024

  /** A value with the length of its serialized form. */
  datatype Value = Value(content: nat, size: nat)

  /** What one `next` call comes to: a value, the end, or the overflow error. */
  datatype Outcome = Waiting | Got(value: Value) | Done | Failed

  function Bytes(values: seq<Value>): nat {
    if values == [] then 0 else values[0].size + Bytes(values[1..])
  }

  lemma {:induction false} BytesAppend(values: seq<Value>, v: Value)
    ensures Bytes(values + [v]) == Bytes(values) + v.size
  {
    if values != [] {
      BytesAppend(values[1..], v);
      assert (values + [v])[1..] == values[1..] + [v];
    }
  }

  class Queue {
    var values: seq<Value>
    /** The waiting calls, oldest first, by number. */
    var waiters: seq<nat>
    var closed: bool
    var bytes: nat
    var failed: bool
    /** The outcome of every `next` call so far, and every value a push did not turn away. */
    var outcomes: seq<Outcome>
    ghost var accepted: seq<Value>
    /** How many calls have been given a value. */
    ghost var given: nat

    /**
     * The calls get the accepted values in order; nothing is buffered while a call waits, and no call
     * waits once the queue is closed or has overflowed.
     */
    ghost predicate Valid()
      reads this
    {
      && bytes == Bytes(values) <= MAX_BYTES && |values| <= MAX_VALUES
      && (values == [] || waiters == []) && (failed ==> closed) && (closed ==> waiters == [])
      && given <= |outcomes| && given <= |accepted| && accepted[given..] == values
      && (forall t :: 0 <= t < given ==> outcomes[t] == Got(accepted[t]))
      && (forall t :: given <= t < |outcomes| ==> Unfed(outcomes[t]))
      && (values != [] ==> given == |outcomes|)
      && |waiters| == (if closed then 0 else |outcomes| - given)
      && (forall k :: 0 <= k < |waiters| ==> waiters[k] == given + k)
    }

    predicate Unfed(o: Outcome)
      reads this
    {
      if closed then o.Done? || o.Failed? else o.Waiting?
    }

    constructor ()
      ensures Valid() && accepted == [] && outcomes == [] && !closed
    {
      values, waiters, closed, bytes, failed := [], [], false, 0, false;
      outcomes, accepted, given := [], [], 0;
    }

    /** A value goes to the oldest waiting call, or into the buffer, or it overflows and ends the queue. */
    method Push(value: Value)
      requires Valid()
      modifies this
      ensures Valid()
      ensures old(closed) ==> accepted == old(accepted) && outcomes == old(outcomes) && failed == old(failed)
      ensures !old(closed) ==>
                if old(waiters) == [] && (|old(values)| >= MAX_VALUES || old(bytes) + value.size > MAX_BYTES)
                then closed && failed && accepted == old(accepted) && values == old(values) && outcomes == old(outcomes)
                else !closed && accepted == old(accepted) + [value]
                     && (if old(waiters) == [] then values == old(values) + [value] && outcomes == old(outcomes)
                         else outcomes == old(outcomes)[old(waiters)[0] := Got(value)] && values == [])
    {
      if closed { return; }
      if waiters != [] {
        outcomes := outcomes[waiters[0] := Got(value)];
        waiters := waiters[1..];
        accepted := accepted + [value];
        given := given + 1;
        return;
      }
      if |values| >= MAX_VALUES || bytes + value.size > MAX_BYTES {
        failed := true;
        closed := true;
        return;
      }
      BytesAppend(values, value);
      bytes := bytes + value.size;
      values := values + [value];
      accepted := accepted + [value];
    }

    /** Every waiting call is told that it is over; buffered values stay for later calls. */
    method Close()
      requires Valid()
      modifies this
      ensures Valid() && closed && failed == old(failed) && accepted == old(accepted) && values == old(values)
      ensures |outcomes| == |old(outcomes)|
      ensures forall t :: 0 <= t < |outcomes| ==>
                outcomes[t] == if old(outcomes)[t].Waiting? then Done else old(outcomes)[t]
    {
      if closed { return; }
      closed := true;
      while waiters != []
        invariant closed && failed == old(failed) && accepted == old(accepted) && values == old(values)
            && bytes == old(bytes)
        invariant given == old(given) && |outcomes| == |old(outcomes)| && |waiters| <= |outcomes| - given
        invariant forall k :: 0 <= k < |waiters| ==> waiters[k] == |outcomes| - |waiters| + k
        invariant forall t :: 0 <= t < given ==> outcomes[t] == old(outcomes)[t]
        invariant forall t :: given <= t < |outcomes| - |waiters| ==> outcomes[t].Done?
        invariant forall t :: |outcomes| - |waiters| <= t < |outcomes| ==> outcomes[t].Waiting?
        decreases |waiters|
      {
        outcomes := outcomes[waiters[0] := Done];
        waiters := waiters[1..];
      }
    }

    /** A buffered value first, then the error, then the end; otherwise the call waits. */
    method Next() returns (ticket: nat)
      requires Valid()
      modifies this
      ensures Valid() && ticket == |old(outcomes)| && accepted == old(accepted) && closed == old(closed)
      ensures |outcomes| == ticket + 1 && outcomes[..ticket] == old(outcomes)
      ensures outcomes[ticket] == if old(values) != [] then Got(old(values)[0])
                                  else if failed then Failed
                                  else if closed then Done
                                  else Waiting
      ensures values == if old(values) == [] then [] else old(values)[1..]
    {
      ticket := |outcomes|;
      if values != [] {
        assert accepted[given] == accepted[given..][0];
        assert accepted[given + 1..] == accepted[given..][1..];
        outcomes := outcomes + [Got(values[0])];
        bytes := bytes - values[0].size;
        values := values[1..];
        given := given + 1;
        return;
      }
      if failed {
        outcomes := outcomes + [Failed];
      } else if closed {
        outcomes := outcomes + [Done];
      } else {
        outcomes := outcomes + [Waiting];
        waiters := waiters + [ticket];
      }
    }
  }
}
