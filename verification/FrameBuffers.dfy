/**
  The two lossy frame buffers. Every method runs under the buffer's own lock, so it is one
  step; `Ring` and `Slot` are the values the steps move between. A timed wait that sees a
  frame or a closed buffer takes, and one that sees neither times out with nothing.
*/
module FrameBuffers {
  import opened Wrappers
  import opened Sequences

  datatype Ring<T> = Ring(capacity: nat, queue: seq<T>, closed: bool, pushed: nat, popped: nat, dropped: nat)

  datatype Slot<T> = Slot(slot: Option<T>, closed: bool, pushed: nat, popped: nat, dropped: nat)

  datatype Stats = Stats(capacity: nat, depth: nat, pushed: nat, popped: nat, dropped: nat)

  // ---------- The ring, one call at a time ----------

  function FreshRing<T>(capacity: nat): Ring<T> {
    Ring(capacity, [], false, 0, 0, 0)
  }

  function RingPush<T>(r: Ring<T>, value: T): (Ring<T>, bool) {
    if r.closed then (r.(dropped := r.dropped + 1), false)
    else if |r.queue| >= r.capacity && r.queue != [] then
      (r.(queue := r.queue[1..] + [value], dropped := r.dropped + 1, pushed := r.pushed + 1), false)
    else (r.(queue := r.queue + [value], pushed := r.pushed + 1), true)
  }

  function RingTake<T>(r: Ring<T>): (Ring<T>, Option<T>) {
    if r.queue == [] then (r, None)
    else (r.(queue := r.queue[1..], popped := r.popped + 1), Some(r.queue[0]))
  }

  function RingStats<T>(r: Ring<T>): Stats {
    Stats(r.capacity, |r.queue|, r.pushed, r.popped, r.dropped)
  }

  // ---------- The slot, one call at a time ----------

  function FreshSlot<T>(): Slot<T> {
    Slot(None, false, 0, 0, 0)
  }

  function SlotPush<T>(s: Slot<T>, value: T): (Slot<T>, bool) {
    if s.closed then (s.(dropped := s.dropped + 1), false)
    else
      (s.(slot := Some(value), pushed := s.pushed + 1, dropped := if s.slot.Some? then s.dropped + 1 else s.dropped),
       s.slot.None?)
  }

  function SlotTake<T>(s: Slot<T>): (Slot<T>, Option<T>) {
    if s.slot.None? then (s, None) else (s.(slot := None, popped := s.popped + 1), s.slot)
  }

  function SlotStats<T>(s: Slot<T>): Stats {
    Stats(1, if s.slot.Some? then 1 else 0, s.pushed, s.popped, s.dropped)
  }

  // ---------- The classes ----------

  class DropOldestRing<T> {
    const capacity: nat
    var queue: seq<T>
    var closed: bool
    var pushed: nat
    var popped: nat
    var dropped: nat

    ghost function Contents(): Ring<T>
      reads this
    {
      Ring(capacity, queue, closed, pushed, popped, dropped)
    }

    constructor (capacity: nat)
      requires capacity > 0
      ensures Contents() == FreshRing(capacity)
    {
      this.capacity := capacity;
      queue, closed := [], false;
      pushed, popped, dropped := 0, 0, 0;
    }

    /** The checked construction: a ring without room is refused. */
    static method Create(capacity: nat) returns (ring: DropOldestRing?<T>)
      ensures ring == null <==> capacity == 0
      ensures ring != null ==> fresh(ring) && ring.Contents() == FreshRing(capacity)
    {
      if capacity == 0 {
        return null;
      }
      ring := new DropOldestRing(capacity);
    }

    method Push(value: T) returns (clean: bool)
      requires capacity > 0
      modifies this
      ensures (Contents(), clean) == RingPush(old(Contents()), value)
      ensures old(closed) ==> !clean && queue == old(queue) && pushed == old(pushed) && dropped == old(dropped) + 1
      ensures !old(closed) && |old(queue)| < capacity ==>
                clean && queue == old(queue) + [value] && pushed == old(pushed) + 1 && dropped == old(dropped)
      ensures !old(closed) && |old(queue)| >= capacity ==>
                !clean && queue == old(queue)[1..] + [value] && pushed == old(pushed) + 1 && dropped == old(dropped) + 1
      ensures closed == old(closed) && popped == old(popped)
    {
      clean := true;
      if closed {
        dropped := dropped + 1;
        return false;
      }
      if |queue| >= capacity {
        queue := queue[1..];
        dropped := dropped + 1;
        clean := false;
      }
      queue := queue + [value];
      pushed := pushed + 1;
    }

    method Take() returns (out: Option<T>)
      modifies this
      ensures (Contents(), out) == RingTake(old(Contents()))
      ensures old(queue) == [] ==> out == None && queue == [] && popped == old(popped)
      ensures old(queue) != [] ==> out == Some(old(queue)[0]) && queue == old(queue)[1..] && popped == old(popped) + 1
    {
      if queue == [] {
        return None;
      }
      out := Some(queue[0]);
      queue := queue[1..];
      popped := popped + 1;
    }

    /** The state is the one the timed wait ends in: with a frame, closed, or timed out. */
    method Pop() returns (out: Option<T>)
      modifies this
      ensures (Contents(), out) == RingTake(old(Contents()))
    {
      if queue == [] && !closed {
        return None;
      }
      out := Take();
    }

    method TryPop() returns (out: Option<T>)
      modifies this
      ensures (Contents(), out) == RingTake(old(Contents()))
    {
      out := Take();
    }

    method Close()
      modifies this`closed
      ensures Contents() == old(Contents()).(closed := true)
    {
      closed := true;
    }

    method Statistics() returns (stats: Stats)
      ensures stats == RingStats(Contents())
      ensures stats.capacity == capacity && stats.depth == |queue|
      ensures stats.pushed == pushed && stats.popped == popped && stats.dropped == dropped
    {
      stats := Stats(capacity, |queue|, pushed, popped, dropped);
    }
  }

  class LatestOnlySlot<T> {
    var slot: Option<T>
    var closed: bool
    var pushed: nat
    var popped: nat
    var dropped: nat

    ghost function Contents(): Slot<T>
      reads this
    {
      Slot(slot, closed, pushed, popped, dropped)
    }

    constructor ()
      ensures Contents() == FreshSlot()
    {
      slot, closed := None, false;
      pushed, popped, dropped := 0, 0, 0;
    }

    method Push(value: T) returns (clean: bool)
      modifies this
      ensures (Contents(), clean) == SlotPush(old(Contents()), value)
      ensures old(closed) ==> !clean && slot == old(slot) && pushed == old(pushed) && dropped == old(dropped) + 1
      ensures !old(closed) ==> slot == Some(value) && pushed == old(pushed) + 1 && (clean <==> old(slot) == None)
      ensures !old(closed) ==> dropped == if old(slot) == None then old(dropped) else old(dropped) + 1
      ensures closed == old(closed) && popped == old(popped)
    {
      clean := true;
      if closed {
        dropped := dropped + 1;
        return false;
      }
      if slot.Some? {
        clean := false;
        dropped := dropped + 1;
      }
      slot := Some(value);
      pushed := pushed + 1;
    }

    method Take() returns (out: Option<T>)
      modifies this
      ensures (Contents(), out) == SlotTake(old(Contents()))
      ensures out == old(slot) && slot == None
      ensures popped == if old(slot).Some? then old(popped) + 1 else old(popped)
    {
      if slot.None? {
        return None;
      }
      out := slot;
      slot := None;
      popped := popped + 1;
    }

    method Pop() returns (out: Option<T>)
      modifies this
      ensures (Contents(), out) == SlotTake(old(Contents()))
    {
      if slot.None? && !closed {
        return None;
      }
      out := Take();
    }

    method TryPop() returns (out: Option<T>)
      modifies this
      ensures (Contents(), out) == SlotTake(old(Contents()))
    {
      out := Take();
    }

    method Close()
      modifies this`closed
      ensures Contents() == old(Contents()).(closed := true)
    {
      closed := true;
    }

    method Statistics() returns (stats: Stats)
      ensures stats == SlotStats(Contents())
      ensures stats.capacity == 1 && stats.depth == (if slot.Some? then 1 else 0)
      ensures stats.pushed == pushed && stats.popped == popped && stats.dropped == dropped
    {
      stats := Stats(1, if slot.Some? then 1 else 0, pushed, popped, dropped);
    }
  }

  // ---------- Runs of calls ----------

  datatype Op<T> = Push(value: T) | Pop | Close

  datatype Reply<T> = Pushed(clean: bool) | Popped(value: Option<T>) | Closed

  function RingStep<T>(r: Ring<T>, op: Op<T>): (Ring<T>, Reply<T>) {
    match op
    case Push(v) => var (t, clean) := RingPush(r, v); (t, Pushed(clean))
    case Pop => var (t, v) := RingTake(r); (t, Popped(v))
    case Close => (r.(closed := true), Closed)
  }

  function SlotStep<T>(s: Slot<T>, op: Op<T>): (Slot<T>, Reply<T>) {
    match op
    case Push(v) => var (t, clean) := SlotPush(s, v); (t, Pushed(clean))
    case Pop => var (t, v) := SlotTake(s); (t, Popped(v))
    case Close => (s.(closed := true), Closed)
  }

  function RingRun<T>(capacity: nat, ops: seq<Op<T>>): (Ring<T>, seq<Reply<T>>) {
    if ops == [] then (FreshRing(capacity), [])
    else
      var (r, replies) := RingRun(capacity, ops[..|ops| - 1]);
      var (t, reply) := RingStep(r, ops[|ops| - 1]);
      (t, replies + [reply])
  }

  function SlotRun<T>(ops: seq<Op<T>>): (Slot<T>, seq<Reply<T>>) {
    if ops == [] then (FreshSlot(), [])
    else
      var (s, replies) := SlotRun(ops[..|ops| - 1]);
      var (t, reply) := SlotStep(s, ops[|ops| - 1]);
      (t, replies + [reply])
  }

  // ---------- What a caller can see of a run, without looking into the buffer ----------

  function ClosedBy<T>(ops: seq<Op<T>>): bool {
    exists k :: 0 <= k < |ops| && ops[k].Close?
  }

  /** The values pushed before the first close, in order. */
  function Accepted<T>(ops: seq<Op<T>>): seq<T> {
    if ops == [] then []
    else
      var m := |ops| - 1;
      Accepted(ops[..m]) + (if ops[m].Push? && !ClosedBy(ops[..m]) then [ops[m].value] else [])
  }

  /** How many pushes came after it. */
  function Rejected<T>(ops: seq<Op<T>>): nat {
    if ops == [] then 0
    else
      var m := |ops| - 1;
      Rejected(ops[..m]) + (if ops[m].Push? && ClosedBy(ops[..m]) then 1 else 0)
  }

  /** The values that came out, in order. */
  function Returned<T>(replies: seq<Reply<T>>): seq<T> {
    if replies == [] then []
    else
      var m := |replies| - 1;
      Returned(replies[..m]) + (if replies[m].Popped? && replies[m].value.Some? then [replies[m].value.value] else [])
  }

  /** The last `n` elements. */
  function Suffix<T>(s: seq<T>, n: nat): seq<T>
    requires n <= |s|
  {
    s[|s| - n..]
  }

  // ---------- The ring's history ----------

  /** The ring against its history: the accepted pushes, the returned values and the rejected pushes. */
  ghost predicate History<T(!new)>(r: Ring<T>, accepted: seq<T>, returned: seq<T>, rejected: nat) {
    && |r.queue| <= r.capacity && |r.queue| <= |accepted|
    && r.queue == Suffix(accepted, |r.queue|)
    && Subsequence(returned, accepted[..|accepted| - |r.queue|])
    && r.pushed == |accepted| && r.popped == |returned|
    && r.popped + r.dropped + |r.queue| == r.pushed + rejected
  }

  lemma ShiftedSuffix<T>(xs: seq<T>, v: T, n: nat)
    requires 0 < n <= |xs|
    ensures Suffix(xs, n)[1..] + [v] == Suffix(xs + [v], n)
  {
  }

  lemma PushKeepsHistory<T(!new)>(r: Ring<T>, value: T, accepted: seq<T>, returned: seq<T>, rejected: nat)
    requires r.capacity > 0 && History(r, accepted, returned, rejected)
    ensures if r.closed then History(RingPush(r, value).0, accepted, returned, rejected + 1)
            else History(RingPush(r, value).0, accepted + [value], returned, rejected)
    ensures RingPush(r, value).1 <==> RingPush(r, value).0.dropped == r.dropped
  {
    if !r.closed {
      var gone := |accepted| - |r.queue|;
      if |r.queue| >= r.capacity {
        ShiftedSuffix(accepted, value, |r.queue|);
        SubsequenceOfLonger(returned, accepted[..gone], [accepted[gone]]);
        assert (accepted + [value])[..gone + 1] == accepted[..gone] + [accepted[gone]];
      } else {
        assert (accepted + [value])[..gone] == accepted[..gone];
      }
    }
  }

  lemma TakeKeepsHistory<T(!new)>(r: Ring<T>, accepted: seq<T>, returned: seq<T>, rejected: nat)
    requires History(r, accepted, returned, rejected)
    ensures r.queue == [] ==> RingTake(r) == (r, None)
    ensures r.queue != [] ==> RingTake(r).1 == Some(r.queue[0])
    ensures r.queue != [] ==> History(RingTake(r).0, accepted, returned + [r.queue[0]], rejected)
  {
    if r.queue != [] {
      var gone := |accepted| - |r.queue|;
      assert r.queue[0] == accepted[gone];
      SubsequenceBothLonger(returned, accepted[..gone], accepted[gone]);
      assert accepted[..gone + 1] == accepted[..gone] + [accepted[gone]];
    }
  }

  /**
    A push loses a frame only when the ring is full, and then exactly the oldest one; a closed ring
    takes nothing. The reply is clean exactly if the frame was taken and none was lost.
  */
  lemma PushDropsOnlyWhenFull<T>(r: Ring<T>, value: T)
    requires 0 < r.capacity && |r.queue| <= r.capacity
    ensures var (t, clean) := RingPush(r, value);
            && t.capacity == r.capacity && t.closed == r.closed && t.popped == r.popped
            && (clean <==> !r.closed && |r.queue| < r.capacity)
            && t.dropped == (if clean then r.dropped else r.dropped + 1)
            && (r.closed ==> t.queue == r.queue && t.pushed == r.pushed)
            && (!r.closed ==> t.pushed == r.pushed + 1 && t.queue != [] && t.queue[|t.queue| - 1] == value)
            && (!r.closed && |r.queue| < r.capacity ==> t.queue[..|t.queue| - 1] == r.queue)
            && (!r.closed && |r.queue| == r.capacity ==> [r.queue[0]] + t.queue[..|t.queue| - 1] == r.queue)
  {
  }

  lemma {:induction false} RingClosedBy<T>(capacity: nat, ops: seq<Op<T>>)
    ensures RingRun(capacity, ops).0.closed == ClosedBy(ops)
    ensures RingRun(capacity, ops).0.capacity == capacity
  {
    if ops == [] {
    } else {
      var m := |ops| - 1;
      RingClosedBy(capacity, ops[..m]);
      assert ClosedBy(ops) <==> ClosedBy(ops[..m]) || ops[m].Close?;
    }
  }

  /** What one reply adds to the returned values. */
  function Output<T>(reply: Reply<T>): seq<T> {
    if reply.Popped? && reply.value.Some? then [reply.value.value] else []
  }

  lemma ReturnedGrows<T>(replies: seq<Reply<T>>, reply: Reply<T>)
    ensures Returned(replies + [reply]) == Returned(replies) + Output(reply)
  {
    assert (replies + [reply])[..|replies|] == replies;
  }

  lemma StepKeepsHistory<T(!new)>(r: Ring<T>, op: Op<T>, accepted: seq<T>, returned: seq<T>, rejected: nat)
    requires r.capacity > 0 && History(r, accepted, returned, rejected)
    ensures History(RingStep(r, op).0,
                    accepted + (if op.Push? && !r.closed then [op.value] else []),
                    returned + Output(RingStep(r, op).1),
                    rejected + (if op.Push? && r.closed then 1 else 0))
  {
    assert accepted + [] == accepted && returned + [] == returned;
    match op
    case Push(v) => PushKeepsHistory(r, v, accepted, returned, rejected);
    case Pop => TakeKeepsHistory(r, accepted, returned, rejected);
    case Close =>
  }

  lemma RunGrows<T>(capacity: nat, ops: seq<Op<T>>)
    requires ops != []
    ensures var before, (r, replies) := ops[..|ops| - 1], RingRun(capacity, ops[..|ops| - 1]);
            && RingRun(capacity, ops) == (RingStep(r, ops[|ops| - 1]).0, replies + [RingStep(r, ops[|ops| - 1]).1])
            && Accepted(ops) == Accepted(before) + (if ops[|ops| - 1].Push? && !ClosedBy(before) then [ops[|ops| - 1].value] else [])
            && Rejected(ops) == Rejected(before) + (if ops[|ops| - 1].Push? && ClosedBy(before) then 1 else 0)
  {
  }

  /**
    Over every sequence of calls: the queue is the last `depth` accepted pushes, what came out is
    an in-order subsequence of the accepted pushes before them, and every push is accounted for.
  */
  lemma {:induction false} RingHistory<T(!new)>(capacity: nat, ops: seq<Op<T>>)
    requires capacity > 0
    ensures History(RingRun(capacity, ops).0, Accepted(ops), Returned(RingRun(capacity, ops).1), Rejected(ops))
  {
    if ops == [] {
      assert Picks<T>([], [], []);
    } else {
      var m := |ops| - 1;
      RingHistory(capacity, ops[..m]);
      RingClosedBy(capacity, ops[..m]);
      var (r, replies) := RingRun(capacity, ops[..m]);
      StepKeepsHistory(r, ops[m], Accepted(ops[..m]), Returned(replies), Rejected(ops[..m]));
      ReturnedGrows(replies, RingStep(r, ops[m]).1);
      RunGrows(capacity, ops);
    }
  }

  /** How many frames are queued after these calls on a ring of this capacity. */
  function Depth<T>(ops: seq<Op<T>>, capacity: nat): nat {
    if ops == [] then 0
    else
      var before, op := ops[..|ops| - 1], ops[|ops| - 1];
      var d := Depth(before, capacity);
      match op
      case Push(_) => if ClosedBy(before) then d else if d < capacity then d + 1 else capacity
      case Pop => if d == 0 then 0 else d - 1
      case Close => d
  }

  /** Over every sequence of calls the depth is that of the calls: nothing is dropped that has room. */
  lemma {:induction false} DepthOfRun<T>(capacity: nat, ops: seq<Op<T>>)
    requires capacity > 0
    ensures |RingRun(capacity, ops).0.queue| == Depth(ops, capacity) <= capacity
  {
    if ops == [] {
    } else {
      var before, op := ops[..|ops| - 1], ops[|ops| - 1];
      DepthOfRun(capacity, before);
      RingClosedBy(capacity, before);
      if op.Push? {
        PushDropsOnlyWhenFull(RingRun(capacity, before).0, op.value);
      }
    }
  }

  /** What a call to pop gives after any calls: nothing from an empty ring, else the oldest of the newest `Depth` frames. */
  lemma PopOfRun<T(!new)>(capacity: nat, ops: seq<Op<T>>)
    requires capacity > 0
    ensures var d := Depth(ops, capacity);
            && d <= |Accepted(ops)|
            && RingTake(RingRun(capacity, ops).0).1 == if d == 0 then None else Some(Accepted(ops)[|Accepted(ops)| - d])
  {
    RingHistory(capacity, ops);
    DepthOfRun(capacity, ops);
    TakeKeepsHistory(RingRun(capacity, ops).0, Accepted(ops), Returned(RingRun(capacity, ops).1), Rejected(ops));
  }

  // ---------- The slot is a ring of capacity one ----------

  ghost predicate Alike<T>(s: Slot<T>, r: Ring<T>) {
    && r.capacity == 1 && r.closed == s.closed
    && r.pushed == s.pushed && r.popped == s.popped && r.dropped == s.dropped
    && r.queue == match s.slot case None => [] case Some(v) => [v]
  }

  /** For every sequence of calls both buffers give the same replies and the same statistics. */
  lemma {:induction false} SlotMatchesRing<T>(ops: seq<Op<T>>)
    ensures SlotRun(ops).1 == RingRun(1, ops).1
    ensures Alike(SlotRun(ops).0, RingRun(1, ops).0)
    ensures SlotStats(SlotRun(ops).0) == RingStats(RingRun(1, ops).0)
  {
    if ops == [] {
    } else {
      SlotMatchesRing(ops[..|ops| - 1]);
    }
  }
}
