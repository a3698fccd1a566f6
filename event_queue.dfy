/**
 * EventQueue: the deferred-delivery scheduler. Each pending entry remembers a
 * publisher, the game time it was queued at and its delay; Update delivers and
 * removes the entries whose deadline has passed, in queue order. Time is a count
 * of milliseconds, delivery is the returned sequence of publishers (each stands
 * for one notifyAll call), and the mutex is not modelled.
 */
module EventQueues {

  /** The identity of an EventPublisher that the queue refers to (it does not own it). */
  type PublisherId = nat

  datatype Entry = Entry(publisher: PublisherId, enqueuedAt: nat, delay: nat) {
    /** The game time at which the entry falls due. */
    function Deadline(): nat { enqueuedAt + delay }

    /** EventPublisher::isExpired */
    predicate IsExpired(now: nat) { Deadline() <= now }
  }

  /** The entries that are due at time now, in queue order. */
  function Expired(q: seq<Entry>, now: nat): (r: seq<Entry>)
    ensures |r| <= |q|
    ensures forall i :: 0 <= i < |r| ==> r[i].IsExpired(now)
    decreases |q|
  {
    if q == [] then []
    else Expired(q[..|q| - 1], now) + (if q[|q| - 1].IsExpired(now) then [q[|q| - 1]] else [])
  }

  /** The entries that are not yet due at time now, in queue order. */
  function Pending(q: seq<Entry>, now: nat): (r: seq<Entry>)
    ensures |r| <= |q|
    ensures forall i :: 0 <= i < |r| ==> !r[i].IsExpired(now)
    decreases |q|
  {
    if q == [] then []
    else Pending(q[..|q| - 1], now) + (if q[|q| - 1].IsExpired(now) then [] else [q[|q| - 1]])
  }

  /** The publishers of a sequence of entries, in order. */
  function Publishers(q: seq<Entry>): (r: seq<PublisherId>)
    ensures |r| == |q| && forall i :: 0 <= i < |q| ==> r[i] == q[i].publisher
  {
    seq(|q|, i requires 0 <= i < |q| => q[i].publisher)
  }

  /** Update splits the queue: every entry is delivered or kept, and none is both or lost. */
  lemma {:induction false} UpdatePartitions(q: seq<Entry>, now: nat)
    ensures multiset(Expired(q, now)) + multiset(Pending(q, now)) == multiset(q)
    ensures |Expired(q, now)| + |Pending(q, now)| == |q|
    decreases |q|
  {
    if q != [] {
      var init, last := q[..|q| - 1], q[|q| - 1];
      UpdatePartitions(init, now);
      assert q == init + [last];
      assert multiset(q) == multiset(init) + multiset{last};
      if last.IsExpired(now) {
        assert Expired(q, now) == Expired(init, now) + [last];
        assert Pending(q, now) == Pending(init, now);
      } else {
        assert Expired(q, now) == Expired(init, now);
        assert Pending(q, now) == Pending(init, now) + [last];
      }
    }
  }

  /** An entry is delivered at time now exactly when it is due; otherwise it stays queued. */
  lemma {:induction false} DeliveredIffDue(q: seq<Entry>, now: nat, e: Entry)
    requires e in q
    ensures e in Expired(q, now) <==> e.IsExpired(now)
    ensures e in Pending(q, now) <==> !e.IsExpired(now)
    decreases |q|
  {
    var init := q[..|q| - 1];
    if e != q[|q| - 1] {
      assert q == init + [q[|q| - 1]];
      assert e in init;
      DeliveredIffDue(init, now, e);
    }
  }

  /** A second Update at the same time delivers nothing and keeps the queue as it is. */
  lemma {:induction false} UpdateIdempotent(q: seq<Entry>, now: nat)
    ensures Expired(Pending(q, now), now) == []
    ensures Pending(Pending(q, now), now) == Pending(q, now)
  {
    var p := Pending(q, now);
    NoneExpired(p, now);
  }

  /** A queue of entries that are all not yet due is left alone by Update. */
  lemma {:induction false} NoneExpired(q: seq<Entry>, now: nat)
    requires forall i :: 0 <= i < |q| ==> !q[i].IsExpired(now)
    ensures Expired(q, now) == [] && Pending(q, now) == q
    decreases |q|
  {
    if q != [] {
      var init := q[..|q| - 1];
      NoneExpired(init, now);
      assert q == init + [q[|q| - 1]];
    }
  }

  /** Updates at earlier times only deliver early: what stays queued at t2 is the same either way. */
  lemma {:induction false} PendingMonotone(q: seq<Entry>, t1: nat, t2: nat)
    requires t1 <= t2
    ensures Pending(Pending(q, t1), t2) == Pending(q, t2)
    decreases |q|
  {
    if q != [] {
      var init := q[..|q| - 1];
      var last := q[|q| - 1];
      PendingMonotone(init, t1, t2);
      if !last.IsExpired(t1) {
        var p := Pending(init, t1) + [last];
        assert p[..|p| - 1] == Pending(init, t1) && p[|p| - 1] == last;
        assert Pending(p, t2) == Pending(Pending(init, t1), t2) + (if last.IsExpired(t2) then [] else [last]);
      } else {
        assert last.IsExpired(t2);
        assert Pending(q, t1) == Pending(init, t1);
        assert Pending(q, t2) == Pending(init, t2);
      }
    }
  }

  class EventQueue {
    var queue: seq<Entry>    // m_queue

    /** EventQueue() = default: an empty queue. */
    constructor ()
      ensures queue == []
    {
      queue := [];
    }

    /** Enqueue(publisher, gameTime, delay = 0ms): appends exactly one entry stamped with the current time. */
    method Enqueue(publisher: PublisherId, now: nat, delay: nat := 0)
      modifies this
      ensures queue == old(queue) + [Entry(publisher, now, delay)]
    {
      queue := queue + [Entry(publisher, now, delay)];
    }

    /** Send: delivers the publisher at once; the queue is not touched. */
    method Send(publisher: PublisherId) returns (delivered: seq<PublisherId>)
      ensures delivered == [publisher]
    {
      delivered := [publisher];
    }

    /**
     * Update(gameTime): walks the queue in order, delivering and removing every
     * entry that is due and keeping every other one in place.
     */
    method Update(now: nat) returns (delivered: seq<PublisherId>)
      modifies this
      ensures delivered == Publishers(Expired(old(queue), now))
      ensures queue == Pending(old(queue), now)
    {
      var kept: seq<Entry> := [];
      var due: seq<Entry> := [];
      var i := 0;
      while i < |queue|
        invariant 0 <= i <= |queue| && queue == old(queue)
        invariant due == Expired(queue[..i], now)
        invariant kept == Pending(queue[..i], now)
      {
        assert queue[..i + 1][..i] == queue[..i];
        if queue[i].IsExpired(now) {
          due := due + [queue[i]];
        } else {
          kept := kept + [queue[i]];
        }
        i := i + 1;
      }
      assert queue[..i] == queue;
      delivered := Publishers(due);
      queue := kept;
    }

    /** Clear: drops every pending entry without delivering any. */
    method Clear()
      modifies this
      ensures queue == []
    {
      queue := [];
    }

    /** IsEmpty: true exactly when no entry is queued. */
    method IsEmpty() returns (empty: bool)
      ensures empty <==> |queue| == 0
    {
      empty := |queue| == 0;
    }

    /** Size: the number of queued entries. */
    method Size() returns (n: nat)
      ensures n == |queue|
    {
      n := |queue|;
    }
  }

  /**
   * Two publishers queued at time t, the first with a 10 ms delay and the second
   * with 5 ms: an update at t + 5 delivers only the second, and a later update
   * at t + 10 delivers the first.
   */
  lemma DelayOrdering(t: nat, p1: PublisherId, p2: PublisherId)
    ensures Publishers(Expired([Entry(p1, t, 10), Entry(p2, t, 5)], t + 5)) == [p2]
    ensures Pending([Entry(p1, t, 10), Entry(p2, t, 5)], t + 5) == [Entry(p1, t, 10)]
    ensures Publishers(Expired([Entry(p1, t, 10)], t + 10)) == [p1]
  {
    var q := [Entry(p1, t, 10), Entry(p2, t, 5)];
    assert q[..1] == [Entry(p1, t, 10)];
    assert [Entry(p1, t, 10)][..0] == [];
  }
}
