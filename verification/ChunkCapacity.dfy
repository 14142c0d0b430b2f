/**
  The exact condition of the delivery guarantee. A completed transfer was delivered in every
  run without a disconnect at the receiver if and only if the messages that need reassembly
  fit the receiver's cap: beyond it, a concrete run reports an undelivered message complete.
*/
module ChunkCapacity {
  import opened Arithmetic
  import opened Wrappers
  import opened Sequences
  import opened ChunkFraming
  import opened ChunkAssembly
  import opened ChunkReassembly
  import opened ChunkLink

  ghost predicate CompletedIsDelivered(l: Link, t: Traffic) {
    forall id :: id in l.left.completed ==> id in t.fromLeft && (id, t.fromLeft[id]) in l.right.delivered
  }

  /** The guarantee, over every run from a fresh link. */
  ghost predicate CompletionGuaranteed(left: Config, right: Config, t: Traffic) {
    forall steps :: CanRun(Start(left, right, t), steps, t) && NoDisconnectAtRight(steps)
              ==> CompletedIsDelivered(Run(Start(left, right, t), steps, t), t)
  }

  ghost predicate Sendable(pay: Payloads, size: nat)
    requires size > 0
  {
    forall id :: id in pay ==> ChunkCount(|pay[id]|, size) < U32_LIMIT
  }

  // ---------- Runs compose ----------

  lemma StepThen(l: Link, p: Step, rest: seq<Step>, t: Traffic)
    requires LinkSafe(l, t) && CanStep(l, p, t)
    requires LinkSafe(Next(l, p, t), t) && CanRun(Next(l, p, t), rest, t)
    ensures CanRun(l, [p] + rest, t) && Run(l, [p] + rest, t) == Run(Next(l, p, t), rest, t)
  {
    var steps := [p] + rest;
    assert steps[0] == p && steps[1..] == rest;
  }

  lemma FirstStep(l: Link, steps: seq<Step>, t: Traffic)
    requires LinkSafe(l, t) && CanRun(l, steps, t) && steps != []
    ensures CanStep(l, steps[0], t) && LinkSafe(Next(l, steps[0], t), t)
    ensures CanRun(Next(l, steps[0], t), steps[1..], t)
    ensures Run(l, steps, t) == Run(Next(l, steps[0], t), steps[1..], t)
  {
    NextIsSafe(l, steps[0], t);
  }

  lemma {:induction false} RunThen(l: Link, a: seq<Step>, b: seq<Step>, t: Traffic)
    requires LinkSafe(l, t) && CanRun(l, a, t) && CanRun(Run(l, a, t), b, t)
    ensures CanRun(l, a + b, t) && Run(l, a + b, t) == Run(Run(l, a, t), b, t)
    decreases |a|
  {
    if a == [] {
      assert a + b == b;
    } else {
      FirstStep(l, a, t);
      RunThen(Next(l, a[0], t), a[1..], b, t);
      HeadOfBoth(a, b);
      StepThen(l, a[0], a[1..] + b, t);
    }
  }

  lemma OneStep(l: Link, p: Step, t: Traffic) returns (steps: seq<Step>)
    requires LinkSafe(l, t) && CanStep(l, p, t)
    ensures CanRun(l, steps, t) && Run(l, steps, t) == Next(l, p, t)
    ensures p != AtRight(Disconnect) ==> NoDisconnectAtRight(steps)
  {
    NextIsSafe(l, p, t);
    steps := [p] + [];
    StepThen(l, p, [], t);
  }

  lemma TwoSteps(l: Link, p: Step, q: Step, t: Traffic) returns (steps: seq<Step>)
    requires LinkSafe(l, t) && CanStep(l, p, t)
    requires LinkSafe(Next(l, p, t), t) && CanStep(Next(l, p, t), q, t)
    requires p != AtRight(Disconnect) && q != AtRight(Disconnect)
    ensures CanRun(l, steps, t) && Run(l, steps, t) == Next(Next(l, p, t), q, t)
    ensures NoDisconnectAtRight(steps)
  {
    var a := OneStep(l, p, t);
    var b := OneStep(Next(l, p, t), q, t);
    RunThen(l, a, b, t);
    steps := a + b;
  }

  // ---------- What the receiver does with the chunks of the run ----------

  /** The first chunk of an unknown message opens an entry at the end of the arrival list. */
  lemma FirstChunkOpens(s: State, c: Chunk)
    requires Valid(s) && WellFormed(s.cfg, c) && c.total > 1 && c.corr !in s.inbound
    ensures Surplus(s) <= |s.order|
    ensures Offer(s, c).1 == PENDING && Offer(s, c).0.order == s.order[Surplus(s)..] + [c.corr]
  {
    OpenedIsValid(s, c);
    EvictRemovesOldest(s);
    FreshHasNothing(c.total);
    CountAfterSet(Fresh(c.total).have, c.index);
  }

  /** Without its first part a message stays incomplete, whatever other part arrives. */
  lemma IncompleteWithoutFirst(s: State, c: Chunk)
    requires Valid(s) && WellFormed(s.cfg, c) && c.total > 1 && c.index > 0
    requires c.corr in s.inbound ==> s.inbound[c.corr].total == c.total && !s.inbound[c.corr].have[0]
    ensures Offer(s, c).1 == PENDING
    ensures c.corr in Offer(s, c).0.inbound && |Offer(s, c).0.inbound[c.corr].have| == c.total
    ensures !Offer(s, c).0.inbound[c.corr].have[0]
  {
    OpenedIsValid(s, c);
    var e := Opened(s, c).inbound[c.corr];
    assert EntryOk(e, Opened(s, c).cfg);
    assert !e.have[0];
    if !e.have[c.index] {
      CountAfterSet(e.have, c.index);
      CountBound(e.have[c.index := true]);
      assert !e.have[c.index := true][0];
    }
  }

  // ---------- The run that breaks the guarantee beyond the cap ----------

  /** The victim's first chunk was acked; `os[..j]` arrived after it, and push it out at the end. */
  ghost predicate Crowded(l: Link, t: Traffic, v: Id, os: seq<Id>, j: nat) {
    var size := l.left.asm.cfg.ChunkSize();
    && LinkSafe(l, t) && v in t.fromLeft && j <= |os|
    && v in l.left.asm.outbound && l.left.asm.outbound[v] == Outbound(Split(v, t.fromLeft[v], size), 1, true)
    && Ack(v, 0) in l.right.out && l.right.delivered == {}
    && l.right.asm.order == (if j < l.right.asm.cfg.Capacity() then [v] + os[..j] else os[..j])
  }

  lemma SendOpens(l: Link, t: Traffic, corr: Id)
    requires LinkSafe(l, t) && corr in t.fromLeft && CanStep(l, AtLeft(Send(corr)), t)
    requires ChunkCount(|t.fromLeft[corr]|, l.left.asm.cfg.ChunkSize()) > 1
    ensures var m, chunks := Next(l, AtLeft(Send(corr)), t), Split(corr, t.fromLeft[corr], l.left.asm.cfg.ChunkSize());
            && LinkSafe(m, t) && m.right == l.right && m.left.asm.cfg == l.left.asm.cfg
            && m.left.asm.outbound == l.left.asm.outbound[corr := Outbound(chunks, 1, true)]
            && chunks[0] in m.left.out
  {
    NextIsSafe(l, AtLeft(Send(corr)), t);
  }

  lemma FirstChunkTaken(y: Node, c: Chunk, own: Payloads)
    requires Valid(y.asm) && WellFormed(y.asm.cfg, c) && c.total > 1 && c.corr !in y.asm.inbound
    ensures var z := Act(y, Receive(c), own);
            && Ack(c.corr, c.index) in z.out && y.out <= z.out
            && z.delivered == y.delivered
            && Surplus(y.asm) <= |y.asm.order|
            && z.asm.order == y.asm.order[Surplus(y.asm)..] + [c.corr]
  {
    FirstChunkOpens(y.asm, c);
  }

  lemma FirstChunkArrives(l: Link, t: Traffic, c: Chunk)
    requires LinkSafe(l, t) && c in l.left.out
    requires WellFormed(l.right.asm.cfg, c) && c.total > 1 && c.corr !in l.right.asm.inbound
    ensures CanStep(l, AtRight(Receive(c)), t)
    ensures var r := Next(l, AtRight(Receive(c)), t);
            && LinkSafe(r, t) && r.left == l.left
            && Ack(c.corr, c.index) in r.right.out && l.right.out <= r.right.out
            && r.right.delivered == l.right.delivered
            && Surplus(l.right.asm) <= |l.right.asm.order|
            && r.right.asm.order == l.right.asm.order[Surplus(l.right.asm)..] + [c.corr]
  {
    NextIsSafe(l, AtRight(Receive(c)), t);
    FirstChunkTaken(l.right, c, t.fromRight);
  }

  /** One message sends its first chunk, and the receiver gets it. */
  lemma OpeningRuns(l: Link, t: Traffic, corr: Id) returns (steps: seq<Step>)
    requires LinkSafe(l, t) && corr in Multi(t.fromLeft, l.left.asm.cfg.ChunkSize(), l.right.asm.cfg)
    requires Sendable(t.fromLeft, l.left.asm.cfg.ChunkSize())
    requires corr !in l.right.asm.inbound
    ensures CanRun(l, steps, t) && NoDisconnectAtRight(steps)
    ensures var r, chunks := Run(l, steps, t), Split(corr, t.fromLeft[corr], l.left.asm.cfg.ChunkSize());
            && r.left.asm.outbound == l.left.asm.outbound[corr := Outbound(chunks, 1, true)]
            && Ack(corr, 0) in r.right.out && l.right.out <= r.right.out
            && r.right.delivered == l.right.delivered
            && Surplus(l.right.asm) <= |l.right.asm.order|
            && r.right.asm.order == l.right.asm.order[Surplus(l.right.asm)..] + [corr]
  {
    var first := Split(corr, t.fromLeft[corr], l.left.asm.cfg.ChunkSize())[0];
    var p := AtLeft(Send(corr));
    SendOpens(l, t, corr);
    FirstChunkArrives(Next(l, p, t), t, first);
    steps := TwoSteps(l, p, AtRight(Receive(first)), t);
  }

  ghost predicate Distinct(v: Id, os: seq<Id>) {
    NoDuplicates(os) && v !in os
  }

  lemma CrowdedOrder(v: Id, os: seq<Id>, j: nat, order: seq<Id>, capacity: nat)
    requires j < |os| == capacity
    requires order == [v] + os[..j]
    ensures var surplus: nat := if |order| < capacity then 0 else |order| + 1 - capacity;
            && surplus <= |order|
            && order[surplus..] + [os[j]] == (if j + 1 < capacity then [v] + os[..j + 1] else os[..j + 1])
  {
    assert os[..j + 1] == os[..j] + [os[j]];
    assert order[0..] == order;
    assert ([v] + os[..j])[1..] == os[..j];
  }

  lemma OneMoreArrives(l: Link, t: Traffic, v: Id, os: seq<Id>, j: nat) returns (steps: seq<Step>)
    requires Crowded(l, t, v, os, j) && Distinct(v, os) && j < |os| == l.right.asm.cfg.Capacity()
    requires os[j] in Multi(t.fromLeft, l.left.asm.cfg.ChunkSize(), l.right.asm.cfg)
    requires Sendable(t.fromLeft, l.left.asm.cfg.ChunkSize())
    ensures CanRun(l, steps, t) && NoDisconnectAtRight(steps)
    ensures Crowded(Run(l, steps, t), t, v, os, j + 1)
  {
    assert os[j] !in l.right.asm.order;
    assert os[j] !in l.right.asm.inbound;
    CrowdedOrder(v, os, j, l.right.asm.order, l.right.asm.cfg.Capacity());
    steps := OpeningRuns(l, t, os[j]);
  }

  lemma {:induction false} CrowdOut(l: Link, t: Traffic, v: Id, os: seq<Id>, j: nat) returns (steps: seq<Step>)
    requires Crowded(l, t, v, os, j) && Distinct(v, os) && j <= |os| == l.right.asm.cfg.Capacity()
    requires forall i :: 0 <= i < |os| ==> os[i] in Multi(t.fromLeft, l.left.asm.cfg.ChunkSize(), l.right.asm.cfg)
    requires Sendable(t.fromLeft, l.left.asm.cfg.ChunkSize())
    ensures CanRun(l, steps, t) && NoDisconnectAtRight(steps)
    ensures Crowded(Run(l, steps, t), t, v, os, |os|)
    decreases |os| - j
  {
    if j == |os| {
      steps := [];
    } else {
      var opening := OneMoreArrives(l, t, v, os, j);
      var rest := CrowdOut(Run(l, opening, t), t, v, os, j + 1);
      RunThen(l, opening, rest, t);
      steps := opening + rest;
    }
  }

  /** The sender has sent `k` chunks of the victim and the receiver acked them, but lost the first. */
  ghost predicate LostFirst(l: Link, t: Traffic, v: Id, k: nat) {
    var size := l.left.asm.cfg.ChunkSize();
    && LinkSafe(l, t) && v in t.fromLeft
    && 2 <= ChunkCount(|t.fromLeft[v]|, size) <= l.right.asm.cfg.maxTotalChunks
    && 1 <= k <= ChunkCount(|t.fromLeft[v]|, size)
    && v in l.left.asm.outbound && l.left.asm.outbound[v] == Outbound(Split(v, t.fromLeft[v], size), k, true)
    && Ack(v, k - 1) in l.right.out
    && (v, t.fromLeft[v]) !in l.right.delivered
    && (v in l.right.asm.inbound ==> |l.right.asm.inbound[v].have| > 0 && !l.right.asm.inbound[v].have[0])
  }

  lemma AckReleases(l: Link, t: Traffic, v: Id, k: nat)
    requires LostFirst(l, t, v, k) && k < ChunkCount(|t.fromLeft[v]|, l.left.asm.cfg.ChunkSize())
    ensures var p := AtLeft(Receive(Ack(v, k - 1)));
            && CanStep(l, p, t)
            && var m := Next(l, p, t);
               var chunks := Split(v, t.fromLeft[v], l.left.asm.cfg.ChunkSize());
               && LinkSafe(m, t) && m.right == l.right && m.left.asm.cfg == l.left.asm.cfg
               && m.left.asm.outbound == l.left.asm.outbound[v := Outbound(chunks, k + 1, true)]
               && chunks[k] in m.left.out
  {
    NextIsSafe(l, AtLeft(Receive(Ack(v, k - 1))), t);
  }

  lemma LaterPartTaken(y: Node, c: Chunk, own: Payloads)
    requires Valid(y.asm) && WellFormed(y.asm.cfg, c) && c.total > 1 && c.index > 0
    requires c.corr in y.asm.inbound ==> y.asm.inbound[c.corr].total == c.total && !y.asm.inbound[c.corr].have[0]
    ensures var z := Act(y, Receive(c), own);
            && Ack(c.corr, c.index) in z.out && z.delivered == y.delivered
            && c.corr in z.asm.inbound && |z.asm.inbound[c.corr].have| > 0 && !z.asm.inbound[c.corr].have[0]
  {
    IncompleteWithoutFirst(y.asm, c);
  }

  lemma LaterPartArrives(l: Link, t: Traffic, v: Id, c: Chunk)
    requires LinkSafe(l, t) && c in l.left.out && c.corr == v && v in t.fromLeft
    requires WellFormed(l.right.asm.cfg, c) && c.total > 1 && c.index > 0
    requires v in l.right.asm.inbound ==> l.right.asm.inbound[v].total == c.total && !l.right.asm.inbound[v].have[0]
    requires (v, t.fromLeft[v]) !in l.right.delivered
    ensures CanStep(l, AtRight(Receive(c)), t)
    ensures var r := Next(l, AtRight(Receive(c)), t);
            && LinkSafe(r, t) && r.left == l.left && r.right.asm.cfg == l.right.asm.cfg
            && Ack(v, c.index) in r.right.out
            && (v, t.fromLeft[v]) !in r.right.delivered
            && v in r.right.asm.inbound && |r.right.asm.inbound[v].have| > 0 && !r.right.asm.inbound[v].have[0]
  {
    NextIsSafe(l, AtRight(Receive(c)), t);
    LaterPartTaken(l.right, c, t.fromRight);
  }

  lemma NextPartIsAcked(l: Link, t: Traffic, v: Id, k: nat) returns (steps: seq<Step>)
    requires LostFirst(l, t, v, k) && k < ChunkCount(|t.fromLeft[v]|, l.left.asm.cfg.ChunkSize())
    ensures CanRun(l, steps, t) && NoDisconnectAtRight(steps)
    ensures LostFirst(Run(l, steps, t), t, v, k + 1)
  {
    var chunk := Split(v, t.fromLeft[v], l.left.asm.cfg.ChunkSize())[k];
    var p, q := AtLeft(Receive(Ack(v, k - 1))), AtRight(Receive(chunk));
    AckReleases(l, t, v, k);
    LaterPartArrives(Next(l, p, t), t, v, chunk);
    steps := TwoSteps(l, p, q, t);
  }

  lemma LastAckCompletes(l: Link, t: Traffic, v: Id) returns (steps: seq<Step>)
    requires v in t.fromLeft && LostFirst(l, t, v, ChunkCount(|t.fromLeft[v]|, l.left.asm.cfg.ChunkSize()))
    ensures CanRun(l, steps, t) && NoDisconnectAtRight(steps)
    ensures v in Run(l, steps, t).left.completed && (v, t.fromLeft[v]) !in Run(l, steps, t).right.delivered
  {
    var n := ChunkCount(|t.fromLeft[v]|, l.left.asm.cfg.ChunkSize());
    steps := OneStep(l, AtLeft(Receive(Ack(v, n - 1))), t);
  }

  lemma {:induction false} FinishWithoutFirst(l: Link, t: Traffic, v: Id, k: nat, n: nat) returns (steps: seq<Step>)
    requires LostFirst(l, t, v, k) && n == ChunkCount(|t.fromLeft[v]|, l.left.asm.cfg.ChunkSize())
    ensures CanRun(l, steps, t) && NoDisconnectAtRight(steps)
    ensures v in Run(l, steps, t).left.completed && (v, t.fromLeft[v]) !in Run(l, steps, t).right.delivered
    decreases n - k
  {
    if k == n {
      steps := LastAckCompletes(l, t, v);
    } else {
      var pair := NextPartIsAcked(l, t, v, k);
      var m := Run(l, pair, t);
      var rest := FinishWithoutFirst(m, t, v, k + 1, n);
      RunThen(l, pair, rest, t);
      steps := pair + rest;
    }
  }

  lemma {:induction false} PickDistinct(ids: set<Id>, n: nat) returns (os: seq<Id>)
    requires n <= |ids|
    ensures |os| == n && NoDuplicates(os) && forall i :: 0 <= i < n ==> os[i] in ids
  {
    if n == 0 {
      os := [];
    } else {
      var id :| id in ids;
      var rest := PickDistinct(ids - {id}, n - 1);
      os := [id] + rest;
    }
  }

  lemma VictimStarts(left: Config, right: Config, t: Traffic, v: Id, os: seq<Id>) returns (steps: seq<Step>)
    requires v in Multi(t.fromLeft, left.ChunkSize(), right) && Sendable(t.fromLeft, left.ChunkSize())
    ensures CanRun(Start(left, right, t), steps, t) && NoDisconnectAtRight(steps)
    ensures Crowded(Run(Start(left, right, t), steps, t), t, v, os, 0)
  {
    steps := OpeningRuns(Start(left, right, t), t, v);
    assert os[..0] == [];
  }

  lemma CrowdedIsLost(l: Link, t: Traffic, v: Id, os: seq<Id>)
    requires Crowded(l, t, v, os, |os|) && Distinct(v, os) && |os| == l.right.asm.cfg.Capacity()
    requires v in Multi(t.fromLeft, l.left.asm.cfg.ChunkSize(), l.right.asm.cfg)
    ensures LostFirst(l, t, v, 1)
  {
    assert os[..|os|] == os;
    assert v !in l.right.asm.order;
  }

  lemma CrowdThenFinish(l: Link, t: Traffic, v: Id, os: seq<Id>) returns (steps: seq<Step>)
    requires Crowded(l, t, v, os, 0) && Distinct(v, os) && |os| == l.right.asm.cfg.Capacity()
    requires forall i :: 0 <= i < |os| ==> os[i] in Multi(t.fromLeft, l.left.asm.cfg.ChunkSize(), l.right.asm.cfg)
    requires v in Multi(t.fromLeft, l.left.asm.cfg.ChunkSize(), l.right.asm.cfg)
    requires Sendable(t.fromLeft, l.left.asm.cfg.ChunkSize())
    ensures CanRun(l, steps, t) && NoDisconnectAtRight(steps)
    ensures v in Run(l, steps, t).left.completed && (v, t.fromLeft[v]) !in Run(l, steps, t).right.delivered
  {
    var crowd := CrowdOut(l, t, v, os, 0);
    var m := Run(l, crowd, t);
    CrowdedIsLost(m, t, v, os);
    var finish := FinishWithoutFirst(m, t, v, 1, ChunkCount(|t.fromLeft[v]|, l.left.asm.cfg.ChunkSize()));
    RunThen(l, crowd, finish, t);
    steps := crowd + finish;
  }

  /** Beyond the cap, some run completes a transfer that the receiver never delivers. */
  lemma BeyondCapacityLosesMessages(left: Config, right: Config, t: Traffic) returns (steps: seq<Step>, v: Id)
    requires |Multi(t.fromLeft, left.ChunkSize(), right)| > right.Capacity()
    requires Sendable(t.fromLeft, left.ChunkSize())
    ensures CanRun(Start(left, right, t), steps, t) && NoDisconnectAtRight(steps)
    ensures v in Run(Start(left, right, t), steps, t).left.completed && v in t.fromLeft
    ensures (v, t.fromLeft[v]) !in Run(Start(left, right, t), steps, t).right.delivered
  {
    var l := Start(left, right, t);
    var ids := Multi(t.fromLeft, left.ChunkSize(), right);
    v :| v in ids;
    var os := PickDistinct(ids - {v}, right.Capacity());
    var first := VictimStarts(left, right, t, v, os);
    var rest := CrowdThenFinish(Run(l, first, t), t, v, os);
    RunThen(l, first, rest, t);
    steps := first + rest;
  }

  /** The end-to-end theorem, with its exact condition. */
  lemma CompletionGuaranteedIffItFits(left: Config, right: Config, t: Traffic)
    requires Sendable(t.fromLeft, left.ChunkSize())
    ensures CompletionGuaranteed(left, right, t)
       <==> |Multi(t.fromLeft, left.ChunkSize(), right)| <= right.Capacity()
  {
    var l := Start(left, right, t);
    if |Multi(t.fromLeft, left.ChunkSize(), right)| <= right.Capacity() {
      forall steps | CanRun(l, steps, t) && NoDisconnectAtRight(steps)
        ensures CompletedIsDelivered(Run(l, steps, t), t)
      {
        RunIsHonest(l, steps, t);
      }
    } else {
      var steps, v := BeyondCapacityLosesMessages(left, right, t);
      assert !CompletedIsDelivered(Run(l, steps, t), t);
    }
  }
}
