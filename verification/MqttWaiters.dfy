/** In-flight acknowledgement waiters of an MQTT connection: one FIFO queue for each kind of
    acknowledgement, each entry the sending half of a one-shot channel. */
module MqttWaiters {
  import opened Common

  /** SUBACK, QoS 1 PUBACK and QoS 2 PUBCOMP. */
  datatype Kind = Sub | Qos1 | Qos2

  datatype Outcome = Accepted | Rejected(code: int) | ConnectionLost

  /** A one-shot channel as its receiver sees it. */
  datatype Channel = Open | Sent(outcome: Outcome) | Dropped

  datatype Waiters = Waiters(sub: seq<nat>, qos1: seq<nat>, qos2: seq<nat>, channels: map<nat, Channel>) {
    function Queue(kind: Kind): seq<nat> {
      match kind case Sub => sub case Qos1 => qos1 case Qos2 => qos2
    }

    function WithQueue(kind: Kind, q: seq<nat>): Waiters {
      match kind
      case Sub => this.(sub := q)
      case Qos1 => this.(qos1 := q)
      case Qos2 => this.(qos2 := q)
    }

    function Push(kind: Kind, id: nat): Waiters {
      WithQueue(kind, Queue(kind) + [id]).(channels := channels[id := Open])
    }

    /** Takes the front waiter and settles its channel; an empty queue is left alone. */
    function PopAs(kind: Kind, settled: Channel): Waiters {
      if Queue(kind) == [] then this
      else WithQueue(kind, Queue(kind)[1..]).(channels := channels[Queue(kind)[0] := settled])
    }

    /** Empties one queue, failing every waiter in it. */
    function Drain(kind: Kind): Waiters
      decreases |Queue(kind)|
    {
      if Queue(kind) == [] then this else PopAs(kind, Sent(ConnectionLost)).Drain(kind)
    }
  }

  /** Every queued waiter has its channel, and `next` is beyond every id handed out so far. */
  predicate Issued(w: Waiters, next: nat) {
    && (forall id :: id in w.channels ==> id < next)
    && (forall k: Kind, i :: 0 <= i < |w.Queue(k)| ==> w.Queue(k)[i] in w.channels)
  }

  const NO_WAITERS := Waiters([], [], [], map[])

  /** The shared queues as the two tasks update them, each method under the queue's lock. */
  class WaiterTable {
    var waiters: Waiters
    var next: nat

    ghost predicate Valid()
      reads this
    {
      Issued(waiters, next)
    }

    constructor ()
      ensures Valid() && waiters == NO_WAITERS && next == 0
    {
      waiters, next := NO_WAITERS, 0;
    }

    /** Opens a channel under an id that no waiter, queued or settled, has ever had. */
    method PushWaiter(kind: Kind) returns (id: nat)
      requires Valid()
      modifies this
      ensures Valid() && id == old(next) && next == id + 1
      ensures id !in old(waiters).channels && forall k: Kind :: id !in old(waiters).Queue(k)
      ensures waiters == old(waiters).Push(kind, id)
      ensures waiters.Queue(kind) == old(waiters).Queue(kind) + [id]
      ensures forall k: Kind :: k != kind ==> waiters.Queue(k) == old(waiters).Queue(k)
      ensures waiters.channels == old(waiters).channels[id := Open]
    {
      id := next;
      next := next + 1;
      PushKeepsIssued(waiters, kind, id);
      waiters := waiters.WithQueue(kind, waiters.Queue(kind) + [id]);
      waiters := waiters.(channels := waiters.channels[id := Open]);
    }

    /** Pops the front waiter, if any, and sends it `settled` (or drops it). */
    method PopWaiter(kind: Kind, settled: Channel) returns (popped: Option<nat>)
      requires Valid()
      modifies this`waiters
      ensures Valid() && waiters == old(waiters).PopAs(kind, settled)
      ensures popped == if old(waiters).Queue(kind) == [] then None else Some(old(waiters).Queue(kind)[0])
      ensures popped.None? ==> waiters == old(waiters)
      ensures popped.Some? ==>
                && old(waiters).Queue(kind) == [popped.value] + waiters.Queue(kind)
                && (forall k: Kind :: k != kind ==> waiters.Queue(k) == old(waiters).Queue(k))
                && waiters.channels == old(waiters).channels[popped.value := settled]
    {
      PopKeepsIssued(waiters, kind, settled, next);
      var q := waiters.Queue(kind);
      if q == [] {
        return None;
      }
      waiters := waiters.WithQueue(kind, q[1..]);
      waiters := waiters.(channels := waiters.channels[q[0] := settled]);
      return Some(q[0]);
    }

    /** Takes the whole queue, then fails the waiters one by one. */
    method DrainWaiters(kind: Kind)
      requires Valid()
      modifies this`waiters
      ensures Valid() && waiters == old(waiters).Drain(kind)
      ensures waiters.Queue(kind) == [] && forall k: Kind :: k != kind ==> waiters.Queue(k) == old(waiters).Queue(k)
      ensures forall id :: LostExactly(old(waiters), waiters, kind, id)
    {
      var drained := waiters.Queue(kind);
      ghost var was := waiters;
      var channels: map<nat, Channel> := waiters.channels;
      assert was.WithQueue(kind, drained[0..]).(channels := channels) == was by {
        assert drained[0..] == drained;
      }
      for i := 0 to |drained|
        invariant was.WithQueue(kind, drained[i..]).(channels := channels).Drain(kind) == was.Drain(kind)
      {
        ghost var rest := was.WithQueue(kind, drained[i..]).(channels := channels);
        assert rest.Queue(kind) == drained[i..] && drained[i..][1..] == drained[i + 1..];
        channels := channels[drained[i] := Sent(ConnectionLost)];
        assert rest.PopAs(kind, Sent(ConnectionLost)) == was.WithQueue(kind, drained[i + 1..]).(channels := channels);
      }
      waiters := waiters.WithQueue(kind, []).(channels := channels);
      assert drained[|drained|..] == [];
      DrainKeepsIssued(was, kind, next);
      DrainKeepsOthers(was, kind);
      forall id
        ensures LostExactly(was, was.Drain(kind), kind, id)
      {
        DrainSettles(was, kind, id);
      }
    }

    method FailAll()
      requires Valid()
      modifies this`waiters
      ensures Valid() && waiters == old(waiters).Drain(Sub).Drain(Qos1).Drain(Qos2)
      ensures waiters.sub == [] && waiters.qos1 == [] && waiters.qos2 == []
    {
      DrainWaiters(Sub);
      ghost var one := waiters;
      DrainWaiters(Qos1);
      ghost var two := waiters;
      DrainKeepsOthers(one, Qos1);
      DrainWaiters(Qos2);
      DrainKeepsOthers(two, Qos2);
    }
  }

  lemma {:induction false} DrainKeepsOthers(w: Waiters, kind: Kind)
    ensures w.Drain(kind).Queue(kind) == []
    ensures forall k :: k != kind ==> w.Drain(kind).Queue(k) == w.Queue(k)
    decreases |w.Queue(kind)|
  {
    if w.Queue(kind) != [] {
      DrainKeepsOthers(w.PopAs(kind, Sent(ConnectionLost)), kind);
    }
  }

  /** The waiters of one queue were sent connection_lost, and no other channel was touched. */
  predicate LostExactly(before: Waiters, after: Waiters, kind: Kind, id: nat) {
    if id in before.Queue(kind) then id in after.channels && after.channels[id] == Sent(ConnectionLost)
    else id in before.channels ==> id in after.channels && after.channels[id] == before.channels[id]
  }

  lemma {:induction false} DrainSettles(w: Waiters, kind: Kind, id: nat)
    ensures LostExactly(w, w.Drain(kind), kind, id)
    decreases |w.Queue(kind)|
  {
    if w.Queue(kind) != [] {
      var next := w.PopAs(kind, Sent(ConnectionLost));
      assert w.Queue(kind) == [w.Queue(kind)[0]] + next.Queue(kind);
      DrainSettles(next, kind, id);
    }
  }

  lemma PushKeepsIssued(w: Waiters, kind: Kind, next: nat)
    requires Issued(w, next)
    ensures Issued(w.Push(kind, next), next + 1)
  {
    var w' := w.Push(kind, next);
    assert w'.Queue(kind) == w.Queue(kind) + [next];
    assert forall k: Kind :: k != kind ==> w'.Queue(k) == w.Queue(k);
  }

  lemma PopKeepsIssued(w: Waiters, kind: Kind, settled: Channel, next: nat)
    requires Issued(w, next)
    ensures Issued(w.PopAs(kind, settled), next)
  {
    if w.Queue(kind) != [] {
      assert forall k: Kind :: k != kind ==> w.PopAs(kind, settled).Queue(k) == w.Queue(k);
    }
  }

  lemma {:induction false} DrainKeepsIssued(w: Waiters, kind: Kind, next: nat)
    requires Issued(w, next)
    ensures Issued(w.Drain(kind), next)
    decreases |w.Queue(kind)|
  {
    if w.Queue(kind) != [] {
      PopKeepsIssued(w, kind, Sent(ConnectionLost), next);
      DrainKeepsIssued(w.PopAs(kind, Sent(ConnectionLost)), kind, next);
    }
  }

  lemma DrainShort(w: Waiters, kind: Kind)
    requires |w.Queue(kind)| <= 1
    ensures w.Drain(kind) == w.PopAs(kind, Sent(ConnectionLost))
  {
  }
}
