/**
  The raw capture sink as an interleaved system, from the moment `Start` commits until `Stop`
  returns: capture threads push under a try-lock, one writer thread per camera drains a ring
  into a file, and one stopping thread detaches the writers and finishes them one by one.
  A step is one lock-held section or one access to shared state; a file is its frames.
*/
module RawCaptureSink {
  import opened Wrappers
  import opened Sequences
  import opened FrameBuffers
  import opened Frames

  const QUEUE_CAPACITY: nat := 8

  /** Where a writer thread is; `held` is a frame it popped and has not written yet. */
  datatype WriterPc =
    | Checking
    | Popping
    | Writing(held: Frame)
    | Draining
    | DrainWriting(held: Frame)
    | Exited

  /**
    `offered` are all frames pushed to the camera, `accepted` those that reached the ring and
    `taken` those that left it; `failed` is a stream that has failed and stays failed.
  */
  datatype Writer = Writer(
    ring: Ring<Frame>, stopping: bool, pc: WriterPc, file: seq<Frame>, failed: bool,
    offered: seq<Frame>, accepted: seq<Frame>, taken: seq<Frame>)

  /** Where the call of `Stop` is, and at which writer. */
  datatype StopPc = NotCalled | Flagging(i: nat) | Closing(i: nat) | Joining(i: nat) | Emptying(i: nat) | Returned

  datatype Sink = Sink(capturing: bool, writers: seq<Writer>, stop: StopPc)

  datatype Step =
    | PushCamera(camera: nat, frame: Frame, gotLock: bool)
    | WriterStep(i: nat, writeOk: bool)
    | StopStep(writeOk: bool)

  // ---------- The steps ----------

  function FreshWriter(): Writer {
    Writer(FreshRing(QUEUE_CAPACITY), false, Checking, [], false, [], [], [])
  }

  function Started(cameras: nat): Sink {
    Sink(true, seq(cameras, _ => FreshWriter()), NotCalled)
  }

  function Push(w: Writer, frame: Frame, reaches: bool): Writer {
    var v := w.(offered := w.offered + [frame]);
    if reaches then
      v.(ring := RingPush(w.ring, frame).0, accepted := if w.ring.closed then w.accepted else w.accepted + [frame])
    else v
  }

  function Write(w: Writer, frame: Frame, ok: bool): Writer {
    if w.failed || !ok then w.(failed := true) else w.(file := w.file + [frame])
  }

  /** Taking from the ring; without a frame the thread goes to `otherwise`. */
  function TakeInto(w: Writer, next: Frame -> WriterPc, otherwise: WriterPc): Writer {
    var (ring, out) := RingTake(w.ring);
    match out
    case Some(f) => w.(ring := ring, taken := w.taken + [f], pc := next(f))
    case None => w.(pc := otherwise)
  }

  function Advance(w: Writer, ok: bool): Writer {
    match w.pc
    case Checking => w.(pc := if w.stopping then Draining else Popping)
    case Popping => TakeInto(w, f => Writing(f), Checking)
    case Writing(f) => Write(w, f, ok).(pc := Checking)
    case Draining => TakeInto(w, f => DrainWriting(f), Exited)
    case DrainWriting(f) => Write(w, f, ok).(pc := Draining)
    case Exited => w
  }

  /** The next writer to finish, or the return. */
  function AfterWriter(s: Sink, i: nat): StopPc {
    if i < |s.writers| then Flagging(i) else Returned
  }

  /** The drain that `Stop` itself does after joining; `DrainFindsNothing` shows it has no work. */
  function EmptyOnce(s: Sink, i: nat, ok: bool): Sink
    requires i < |s.writers|
  {
    var w := s.writers[i];
    match RingTake(w.ring)
    case (ring, Some(f)) => s.(writers := s.writers[i := Write(w.(ring := ring, taken := w.taken + [f]), f, ok)])
    case (_, None) => s.(stop := AfterWriter(s, i + 1))
  }

  predicate Enabled(s: Sink, step: Step) {
    match step
    case PushCamera(_, _, _) => true
    case WriterStep(i, _) => i < |s.writers| && s.writers[i].pc != Exited
    case StopStep(_) =>
      match s.stop
      case NotCalled => true
      case Flagging(i) => i < |s.writers|
      case Closing(i) => i < |s.writers|
      case Joining(i) => i < |s.writers| && s.writers[i].pc == Exited
      case Emptying(i) => i < |s.writers|
      case Returned => false
  }

  function StopOnce(s: Sink, ok: bool): Sink
    requires Enabled(s, StopStep(ok))
  {
    match s.stop
    case NotCalled => s.(capturing := false, stop := AfterWriter(s, 0))
    case Flagging(i) => s.(writers := s.writers[i := s.writers[i].(stopping := true)], stop := Closing(i))
    case Closing(i) =>
      s.(writers := s.writers[i := s.writers[i].(ring := s.writers[i].ring.(closed := true))], stop := Joining(i))
    case Joining(i) => s.(stop := Emptying(i))
    case Emptying(i) => EmptyOnce(s, i, ok)
    case Returned => assert false; s
  }

  function Next(s: Sink, step: Step): Sink
    requires Enabled(s, step)
  {
    match step
    case PushCamera(camera, frame, gotLock) =>
      if camera < |s.writers| then
        s.(writers := s.writers[camera := Push(s.writers[camera], frame, gotLock && s.capturing)])
      else s
    case WriterStep(i, ok) => s.(writers := s.writers[i := Advance(s.writers[i], ok)])
    case StopStep(ok) => StopOnce(s, ok)
  }

  // ---------- The invariant ----------

  /** The frames taken and already passed to the file. */
  function Passed(w: Writer): seq<Frame> {
    if (w.pc.Writing? || w.pc.DrainWriting?) && w.taken != [] then w.taken[..|w.taken| - 1] else w.taken
  }

  ghost predicate WriterOk(w: Writer) {
    && w.ring.capacity == QUEUE_CAPACITY
    && History(w.ring, w.accepted, w.taken, 0)
    && Subsequence(w.accepted, w.offered)
    && (w.pc.Writing? || w.pc.DrainWriting? ==> w.taken != [] && w.taken[|w.taken| - 1] == w.pc.held)
    && (if w.failed then w.file <= Passed(w) else w.file == Passed(w))
    && (w.ring.closed ==> w.stopping)
    && (w.pc.Draining? || w.pc.DrainWriting? || w.pc.Exited? ==> w.stopping)
    && (w.pc.Exited? ==> w.ring.queue == [])
  }

  /** The writers before `n` have exited and their rings are closed. */
  ghost predicate FinishedUpTo(s: Sink, n: nat) {
    n <= |s.writers| && forall i :: 0 <= i < n ==> s.writers[i].pc == Exited && s.writers[i].ring.closed
  }

  ghost predicate StopOk(s: Sink) {
    match s.stop
    case NotCalled => s.capturing
    case Flagging(i) => i < |s.writers| && FinishedUpTo(s, i)
    case Closing(i) => i < |s.writers| && FinishedUpTo(s, i) && s.writers[i].stopping
    case Joining(i) => i < |s.writers| && FinishedUpTo(s, i) && s.writers[i].stopping && s.writers[i].ring.closed
    case Emptying(i) => FinishedUpTo(s, i + 1)
    case Returned => FinishedUpTo(s, |s.writers|)
  }

  ghost predicate AllOk(ws: seq<Writer>) {
    forall i :: 0 <= i < |ws| ==> WriterOk(ws[i])
  }

  ghost predicate Inv(s: Sink) {
    && AllOk(s.writers)
    && (s.capturing <==> s.stop == NotCalled)
    && (s.capturing ==> forall i :: 0 <= i < |s.writers| ==> !s.writers[i].stopping)
    && StopOk(s)
  }

  // ---------- One writer at a time ----------

  lemma OfferedIsOk(w: Writer, frame: Frame)
    requires WriterOk(w)
    ensures WriterOk(w.(offered := w.offered + [frame]))
  {
    SubsequenceOfLonger(w.accepted, w.offered, [frame]);
  }

  lemma ReachedIsOk(w: Writer, frame: Frame)
    requires WriterOk(w) && !w.stopping
    ensures WriterOk(Push(w, frame, true))
  {
    PushKeepsHistory(w.ring, frame, w.accepted, w.taken, 0);
    SubsequenceBothLonger(w.accepted, w.offered, frame);
  }

  lemma PushIsOk(w: Writer, frame: Frame, reaches: bool)
    requires WriterOk(w) && (reaches ==> !w.stopping)
    ensures WriterOk(Push(w, frame, reaches))
  {
    if reaches {
      ReachedIsOk(w, frame);
    } else {
      OfferedIsOk(w, frame);
    }
  }

  lemma TakeIsOk(w: Writer, next: Frame -> WriterPc, otherwise: WriterPc)
    requires WriterOk(w) && !w.pc.Writing? && !w.pc.DrainWriting?
    requires forall f :: (next(f) == Writing(f) || (next(f) == DrainWriting(f) && w.stopping))
    requires otherwise == Checking || (otherwise == Exited && w.stopping)
    ensures WriterOk(TakeInto(w, next, otherwise))
  {
    TakeKeepsHistory(w.ring, w.accepted, w.taken, 0);
    if w.ring.queue != [] {
      var f := w.ring.queue[0];
      assert (w.taken + [f])[..|w.taken|] == w.taken;
    }
  }

  lemma WriteIsOk(w: Writer, ok: bool, then': WriterPc)
    requires WriterOk(w) && (w.pc.Writing? || w.pc.DrainWriting?)
    requires then' == Checking || (then' == Draining && w.stopping)
    ensures WriterOk(Write(w, w.pc.held, ok).(pc := then'))
  {
    assert w.taken == Passed(w) + [w.pc.held];
  }

  lemma AdvanceIsOk(w: Writer, ok: bool)
    requires WriterOk(w)
    ensures WriterOk(Advance(w, ok))
    ensures Advance(w, ok).stopping == w.stopping && Advance(w, ok).ring.closed == w.ring.closed
  {
    match w.pc
    case Checking =>
    case Popping => TakeIsOk(w, f => Writing(f), Checking);
    case Writing(f) => WriteIsOk(w, ok, Checking);
    case Draining => TakeIsOk(w, f => DrainWriting(f), Exited);
    case DrainWriting(f) => WriteIsOk(w, ok, Draining);
    case Exited =>
  }

  /** `Stop`'s own drain never finds a frame: the exited writer thread has left the ring empty. */
  lemma DrainFindsNothing(s: Sink)
    requires Inv(s) && s.stop.Emptying?
    ensures s.stop.i < |s.writers| && RingTake(s.writers[s.stop.i].ring) == (s.writers[s.stop.i].ring, None)
  {
    assert s.writers[s.stop.i].pc == Exited;
  }

  // ---------- The whole system ----------

  lemma OneWriterMoves(ws: seq<Writer>, i: nat, w: Writer)
    requires AllOk(ws) && i < |ws| && WriterOk(w)
    ensures AllOk(ws[i := w])
  {
    var vs := ws[i := w];
    forall j | 0 <= j < |vs|
      ensures WriterOk(vs[j])
    {
      if j != i {
        assert WriterOk(ws[j]);
      }
    }
  }

  /** The writer still stops if it did, has still exited if it had, and its ring is as open as it was. */
  ghost predicate Continues(w: Writer, v: Writer) {
    v.stopping == w.stopping && v.ring.closed == w.ring.closed && (w.pc == Exited ==> v.pc == Exited)
  }

  lemma StopStaysOk(s: Sink, i: nat, w: Writer)
    requires StopOk(s) && i < |s.writers| && Continues(s.writers[i], w)
    ensures StopOk(s.(writers := s.writers[i := w]))
  {
  }

  /** Replacing one writer by what it became. */
  lemma WriterMoves(s: Sink, i: nat, w: Writer)
    requires Inv(s) && i < |s.writers| && WriterOk(w) && Continues(s.writers[i], w)
    ensures Inv(s.(writers := s.writers[i := w]))
  {
    OneWriterMoves(s.writers, i, w);
    StopStaysOk(s, i, w);
  }

  lemma FlagIsOk(w: Writer)
    requires WriterOk(w)
    ensures WriterOk(w.(stopping := true))
    ensures w.stopping ==> WriterOk(w.(ring := w.ring.(closed := true)))
  {
  }

  lemma FlaggingKeepsInv(s: Sink, ok: bool)
    requires Inv(s) && s.stop.Flagging?
    ensures Inv(StopOnce(s, ok))
  {
    var i := s.stop.i;
    FlagIsOk(s.writers[i]);
    OneWriterMoves(s.writers, i, s.writers[i].(stopping := true));
  }

  lemma ClosingKeepsInv(s: Sink, ok: bool)
    requires Inv(s) && s.stop.Closing?
    ensures Inv(StopOnce(s, ok))
  {
    var i := s.stop.i;
    FlagIsOk(s.writers[i]);
    OneWriterMoves(s.writers, i, s.writers[i].(ring := s.writers[i].ring.(closed := true)));
  }

  lemma CallKeepsInv(s: Sink, ok: bool)
    requires Inv(s) && s.stop.NotCalled?
    ensures Inv(StopOnce(s, ok))
  {
  }

  lemma JoiningKeepsInv(s: Sink, ok: bool)
    requires Inv(s) && s.stop.Joining? && Enabled(s, StopStep(ok))
    ensures Inv(StopOnce(s, ok))
  {
  }

  lemma EmptyingKeepsInv(s: Sink, ok: bool)
    requires Inv(s) && s.stop.Emptying?
    ensures Inv(StopOnce(s, ok)) && StopOnce(s, ok).writers == s.writers
  {
    DrainFindsNothing(s);
  }

  lemma StopKeepsInv(s: Sink, ok: bool)
    requires Inv(s) && Enabled(s, StopStep(ok))
    ensures Inv(StopOnce(s, ok)) && |StopOnce(s, ok).writers| == |s.writers|
  {
    match s.stop
    case NotCalled => CallKeepsInv(s, ok);
    case Flagging(_) => FlaggingKeepsInv(s, ok);
    case Closing(_) => ClosingKeepsInv(s, ok);
    case Joining(_) => JoiningKeepsInv(s, ok);
    case Emptying(_) => EmptyingKeepsInv(s, ok);
    case Returned => assert false;
  }

  lemma NextKeepsInv(s: Sink, step: Step)
    requires Inv(s) && Enabled(s, step)
    ensures Inv(Next(s, step)) && |Next(s, step).writers| == |s.writers|
  {
    match step
    case PushCamera(camera, frame, gotLock) =>
      if camera < |s.writers| {
        var w := Push(s.writers[camera], frame, gotLock && s.capturing);
        PushIsOk(s.writers[camera], frame, gotLock && s.capturing);
        WriterMoves(s, camera, w);
      }
    case WriterStep(i, ok) =>
      AdvanceIsOk(s.writers[i], ok);
      WriterMoves(s, i, Advance(s.writers[i], ok));
    case StopStep(ok) =>
      StopKeepsInv(s, ok);
  }

  ghost predicate CanRun(s: Sink, steps: seq<Step>)
    decreases |steps|
  {
    steps == [] || (Enabled(s, steps[0]) && CanRun(Next(s, steps[0]), steps[1..]))
  }

  ghost function Run(s: Sink, steps: seq<Step>): Sink
    requires CanRun(s, steps)
    decreases |steps|
  {
    if steps == [] then s else Run(Next(s, steps[0]), steps[1..])
  }

  lemma StartedIsInv(cameras: nat)
    ensures Inv(Started(cameras))
  {
    assert Picks<Frame>([], [], []);
    assert WriterOk(FreshWriter());
  }

  lemma {:induction false} RunKeepsInv(s: Sink, steps: seq<Step>)
    requires Inv(s) && CanRun(s, steps)
    ensures Inv(Run(s, steps)) && |Run(s, steps).writers| == |s.writers|
    decreases |steps|
  {
    if steps == [] {
    } else {
      NextKeepsInv(s, steps[0]);
      RunKeepsInv(Next(s, steps[0]), steps[1..]);
    }
  }

  lemma PrefixIsSubsequence<T>(xs: seq<T>, ys: seq<T>)
    requires xs <= ys
    ensures Subsequence(xs, ys)
  {
    SubsequenceOfSelf(xs);
    SubsequenceOfLonger(xs, xs, ys[|xs|..]);
    assert xs + ys[|xs|..] == ys;
  }

  // ---------- What a run pushes, told from its steps alone ----------

  /** The frame this step pushes to camera `i`. */
  function FrameFor(step: Step, i: nat): seq<Frame> {
    if step.PushCamera? && step.camera == i then [step.frame] else []
  }

  /** The frame of this step that reaches camera `i`'s ring while the sink captures. */
  function FrameThrough(step: Step, i: nat): seq<Frame> {
    if step.PushCamera? && !step.gotLock then [] else FrameFor(step, i)
  }

  /** All frames pushed to camera `i`. */
  function PushedTo(steps: seq<Step>, i: nat): seq<Frame> {
    if steps == [] then [] else FrameFor(steps[0], i) + PushedTo(steps[1..], i)
  }

  /** Those of them whose push got the lock before `Stop` was called. */
  function ReachedRing(steps: seq<Step>, i: nat): seq<Frame> {
    if steps == [] || steps[0].StopStep? then []
    else FrameThrough(steps[0], i) + ReachedRing(steps[1..], i)
  }

  /** Every write of camera `i` that was tried succeeded. */
  ghost predicate DiskHeld(steps: seq<Step>, i: nat) {
    forall k :: 0 <= k < |steps| ==> steps[k] != WriterStep(i, false)
  }

  /** How a writer moves: the frames it is offered, those that reach its ring, and whether a write may fail. */
  ghost predicate Moves(w: Writer, v: Writer, offered: seq<Frame>, reached: seq<Frame>, mayFail: bool) {
    && v.offered == w.offered + offered && v.accepted == w.accepted + reached
    && (v.failed ==> w.failed || mayFail)
  }

  lemma StaysMoves(w: Writer, v: Writer, mayFail: bool)
    requires v.offered == w.offered && v.accepted == w.accepted && (v.failed ==> w.failed || mayFail)
    ensures Moves(w, v, [], [], mayFail)
  {
    NothingAdded(w.offered);
    NothingAdded(w.accepted);
  }

  lemma PushMoves(w: Writer, frame: Frame, reaches: bool)
    requires WriterOk(w) && (reaches ==> !w.stopping)
    ensures Moves(w, Push(w, frame, reaches), [frame], if reaches then [frame] else [], false)
  {
    NothingAdded(w.accepted);
  }

  lemma AdvanceMoves(w: Writer, ok: bool)
    ensures Moves(w, Advance(w, ok), [], [], !ok)
  {
    StaysMoves(w, Advance(w, ok), !ok);
  }

  lemma StopMoves(s: Sink, ok: bool, i: nat)
    requires Inv(s) && Enabled(s, StopStep(ok)) && i < |s.writers|
    ensures |StopOnce(s, ok).writers| == |s.writers| && !StopOnce(s, ok).capturing
    ensures Moves(s.writers[i], StopOnce(s, ok).writers[i], [], [], false)
  {
    if s.stop.Emptying? {
      DrainFindsNothing(s);
    }
    StaysMoves(s.writers[i], StopOnce(s, ok).writers[i], false);
  }

  /** What one step does to the frames of camera `i`. */
  lemma StepPushes(s: Sink, step: Step, i: nat)
    requires Inv(s) && Enabled(s, step) && i < |s.writers|
    ensures |Next(s, step).writers| == |s.writers|
    ensures Moves(s.writers[i], Next(s, step).writers[i], FrameFor(step, i),
                  if s.capturing then FrameThrough(step, i) else [], step == WriterStep(i, false))
    ensures Next(s, step).capturing <==> s.capturing && !step.StopStep?
  {
    match step
    case PushCamera(camera, frame, gotLock) =>
      if camera == i {
        PushMoves(s.writers[i], frame, gotLock && s.capturing);
      } else {
        StaysMoves(s.writers[i], Next(s, step).writers[i], false);
      }
    case WriterStep(j, ok) =>
      if j == i {
        AdvanceMoves(s.writers[i], ok);
      } else {
        StaysMoves(s.writers[i], Next(s, step).writers[i], false);
      }
    case StopStep(ok) => StopMoves(s, ok, i);
  }

  lemma MovesTwice(u: Writer, v: Writer, w: Writer, a: seq<Frame>, b: seq<Frame>, x: seq<Frame>, y: seq<Frame>,
                   mayFail: bool, mayFailLater: bool)
    requires Moves(u, v, a, x, mayFail) && Moves(v, w, b, y, mayFailLater)
    ensures Moves(u, w, a + b, x + y, mayFail || mayFailLater)
  {
    Regrouped(u.offered, a, b);
    Regrouped(u.accepted, x, y);
  }

  lemma DiskHeldFirst(steps: seq<Step>, i: nat)
    requires steps != []
    ensures DiskHeld(steps, i) <==> steps[0] != WriterStep(i, false) && DiskHeld(steps[1..], i)
  {
    assert forall k :: 0 < k < |steps| ==> steps[k] == steps[1..][k - 1];
  }

  /** From any moment on, what a run adds to a camera's pushes is what its steps say. */
  lemma {:induction false} RunPushes(s: Sink, steps: seq<Step>, i: nat)
    requires Inv(s) && CanRun(s, steps) && i < |s.writers|
    ensures |Run(s, steps).writers| == |s.writers|
    ensures Moves(s.writers[i], Run(s, steps).writers[i], PushedTo(steps, i),
                  if s.capturing then ReachedRing(steps, i) else [], !DiskHeld(steps, i))
    decreases |steps|
  {
    if steps == [] {
      StaysMoves(s.writers[i], s.writers[i], false);
    } else {
      var t := Next(s, steps[0]);
      var rest := steps[1..];
      NextKeepsInv(s, steps[0]);
      StepPushes(s, steps[0], i);
      RunPushes(t, rest, i);
      DiskHeldFirst(steps, i);
      MovesTwice(s.writers[i], t.writers[i], Run(t, rest).writers[i],
                 FrameFor(steps[0], i), PushedTo(rest, i),
                 if s.capturing then FrameThrough(steps[0], i) else [], if t.capturing then ReachedRing(rest, i) else [],
                 steps[0] == WriterStep(i, false), !DiskHeld(rest, i));
      NothingAdded(if s.capturing then FrameThrough(steps[0], i) else []);
    }
  }

  /** The writer of camera `i` after a run. */
  ghost function WriterAfter(cameras: nat, steps: seq<Step>, i: nat): (w: Writer)
    requires CanRun(Started(cameras), steps) && i < cameras
    ensures WriterOk(w)
  {
    StartedIsInv(cameras);
    RunKeepsInv(Started(cameras), steps);
    Run(Started(cameras), steps).writers[i]
  }

  /** Each camera is offered exactly the frames pushed to it, and its ring is given exactly those that got through. */
  lemma CameraGetsItsFrames(cameras: nat, steps: seq<Step>, i: nat)
    requires CanRun(Started(cameras), steps) && i < cameras
    ensures var w := WriterAfter(cameras, steps, i);
            && w.offered == PushedTo(steps, i)
            && w.accepted == ReachedRing(steps, i)
            && (DiskHeld(steps, i) ==> !w.failed)
  {
    StartedIsInv(cameras);
    RunPushes(Started(cameras), steps, i);
    NothingAdded(PushedTo(steps, i));
    NothingAdded(ReachedRing(steps, i));
  }

  /** The file against its history, whatever the thread is doing. */
  lemma FileFollowsAccepted(w: Writer)
    requires WriterOk(w)
    ensures Subsequence(w.file, w.accepted)
  {
    PrefixIsSubsequence(w.file, w.taken);
    var before := w.accepted[..|w.accepted| - |w.ring.queue|];
    PrefixIsSubsequence(before, w.accepted);
    SubsequenceTransitive(w.file, w.taken, before);
    SubsequenceTransitive(w.file, before, w.accepted);
  }

  lemma WriterHasExited(cameras: nat, steps: seq<Step>, i: nat)
    requires CanRun(Started(cameras), steps) && i < cameras
    requires Run(Started(cameras), steps).stop == Returned
    ensures WriterAfter(cameras, steps, i).pc == Exited && WriterAfter(cameras, steps, i).ring.closed
  {
    StartedIsInv(cameras);
    RunKeepsInv(Started(cameras), steps);
  }

  lemma FileOfExited(w: Writer)
    requires WriterOk(w) && w.pc == Exited
    ensures Subsequence(w.file, w.accepted) && Subsequence(w.accepted, w.offered) && w.ring.queue == []
    ensures !w.failed ==> |w.file| == |w.accepted| - w.ring.dropped
  {
    FileFollowsAccepted(w);
  }

  /**
    For every interleaving of pushes, writer threads and `Stop`: when `Stop` has returned, each
    camera's file is an in-order, duplicate-free subsequence of the frames that got through to that
    camera before the call of `Stop`, and if every write succeeded only those its ring has dropped
    are missing.
  */
  lemma FilesAfterStop(cameras: nat, steps: seq<Step>, i: nat)
    requires CanRun(Started(cameras), steps) && i < cameras
    requires Run(Started(cameras), steps).stop == Returned
    ensures var w := WriterAfter(cameras, steps, i);
            && Subsequence(w.file, ReachedRing(steps, i)) && Subsequence(ReachedRing(steps, i), PushedTo(steps, i))
            && w.ring.queue == [] && w.ring.closed
            && (DiskHeld(steps, i) ==> |w.file| == |ReachedRing(steps, i)| - w.ring.dropped)
  {
    CameraGetsItsFrames(cameras, steps, i);
    WriterHasExited(cameras, steps, i);
    FileOfExited(WriterAfter(cameras, steps, i));
  }

  /** At any moment, failed disk or not, the file holds frames pushed to its camera, in order, each at most once. */
  lemma FileIsSubsequence(cameras: nat, steps: seq<Step>, i: nat)
    requires CanRun(Started(cameras), steps) && i < cameras
    ensures Subsequence(WriterAfter(cameras, steps, i).file, PushedTo(steps, i))
  {
    var w := WriterAfter(cameras, steps, i);
    CameraGetsItsFrames(cameras, steps, i);
    FileFollowsAccepted(w);
    SubsequenceTransitive(w.file, w.accepted, w.offered);
  }

  /** At every moment no frame that got through is lost without being counted as dropped. */
  lemma FramesAreConserved(cameras: nat, steps: seq<Step>, i: nat)
    requires CanRun(Started(cameras), steps) && i < cameras && DiskHeld(steps, i)
    ensures var w := WriterAfter(cameras, steps, i);
            |w.file| + (if w.pc.Writing? || w.pc.DrainWriting? then 1 else 0) + |w.ring.queue| + w.ring.dropped
            == |ReachedRing(steps, i)|
  {
    CameraGetsItsFrames(cameras, steps, i);
  }

  /** Frames are dropped only by a push that gets through to a full ring, and one at a time. */
  lemma PushDropsWhenFull(w: Writer, frame: Frame, reaches: bool)
    requires WriterOk(w) && (reaches ==> !w.stopping)
    ensures Push(w, frame, reaches).ring.dropped
         == if reaches && |w.ring.queue| == QUEUE_CAPACITY then w.ring.dropped + 1 else w.ring.dropped
    ensures reaches && |w.ring.queue| < QUEUE_CAPACITY ==> Push(w, frame, reaches).ring.queue == w.ring.queue + [frame]
  {
    PushDropsOnlyWhenFull(w.ring, frame);
  }

  /** The pushes and the losses of a writer's ring. */
  ghost predicate SamePushes(v: Writer, w: Writer) {
    v.accepted == w.accepted && v.ring.pushed == w.ring.pushed && v.ring.dropped == w.ring.dropped
  }

  lemma AdvancePushesNothing(w: Writer, ok: bool)
    ensures SamePushes(w, Advance(w, ok))
  {
  }

  lemma StopPushesNothing(s: Sink, ok: bool, i: nat)
    requires Inv(s) && Enabled(s, StopStep(ok)) && i < |s.writers|
    ensures |StopOnce(s, ok).writers| == |s.writers| && !StopOnce(s, ok).capturing
    ensures SamePushes(s.writers[i], StopOnce(s, ok).writers[i])
  {
    if s.stop.Emptying? {
      DrainFindsNothing(s);
    }
  }

  /** No other step than a push to this camera changes what its ring was given or has dropped. */
  lemma OtherStepsDropNothing(s: Sink, step: Step, i: nat)
    requires Inv(s) && Enabled(s, step) && i < |s.writers| && !(step.PushCamera? && step.camera == i)
    ensures |Next(s, step).writers| == |s.writers|
    ensures SamePushes(s.writers[i], Next(s, step).writers[i])
  {
    match step
    case PushCamera(_, _, _) =>
    case WriterStep(j, ok) => AdvancePushesNothing(s.writers[j], ok);
    case StopStep(ok) => StopPushesNothing(s, ok, i);
  }

  lemma DetachedStepPushesNothing(s: Sink, step: Step, i: nat)
    requires Inv(s) && !s.capturing && Enabled(s, step) && i < |s.writers|
    ensures |Next(s, step).writers| == |s.writers| && !Next(s, step).capturing
    ensures SamePushes(s.writers[i], Next(s, step).writers[i])
  {
    match step
    case PushCamera(_, _, _) =>
    case WriterStep(j, ok) => AdvancePushesNothing(s.writers[j], ok);
    case StopStep(ok) => StopPushesNothing(s, ok, i);
  }

  /** Once the writers are detached no push reaches a ring any more, whatever happens afterwards. */
  lemma {:induction false} NoPushAfterDetach(s: Sink, steps: seq<Step>, i: nat)
    requires Inv(s) && !s.capturing && CanRun(s, steps) && i < |s.writers|
    ensures |Run(s, steps).writers| == |s.writers| && !Run(s, steps).capturing
    ensures SamePushes(s.writers[i], Run(s, steps).writers[i])
    decreases |steps|
  {
    if steps == [] {
    } else {
      NextKeepsInv(s, steps[0]);
      DetachedStepPushesNothing(s, steps[0], i);
      NoPushAfterDetach(Next(s, steps[0]), steps[1..], i);
    }
  }

  // ---------- Stop comes to an end ----------

  /** How far a stopping writer thread is from its exit. */
  function Distance(w: Writer): nat {
    3 * |w.ring.queue| + match w.pc
                         case Writing(_) => 4
                         case Popping => 3
                         case Checking => 2
                         case DrainWriting(_) => 2
                         case Draining => 1
                         case Exited => 0
  }

  /** Every own step brings a stopping writer thread closer to its exit, so the join cannot wait for ever. */
  lemma StoppingWriterExits(w: Writer, ok: bool)
    requires WriterOk(w) && w.stopping && w.pc != Exited
    ensures Distance(Advance(w, ok)) < Distance(w)
  {
  }

  /** Until `Stop` has returned it can go on, or the writer it waits for can. */
  lemma StopIsNeverStuck(s: Sink, ok: bool)
    requires Inv(s) && s.stop != Returned
    ensures Enabled(s, StopStep(ok))
         || (s.stop.Joining? && s.writers[s.stop.i].stopping && Enabled(s, WriterStep(s.stop.i, ok)))
  {
    if s.stop.Emptying? {
      DrainFindsNothing(s);
    }
  }

  /** How much `Stop` still has to do. */
  function StopDistance(s: Sink): int {
    match s.stop
    case NotCalled => 4 * |s.writers| + 1
    case Flagging(i) => 4 * (|s.writers| - i)
    case Closing(i) => 4 * (|s.writers| - i) - 1
    case Joining(i) => 4 * (|s.writers| - i) - 2
    case Emptying(i) => 4 * (|s.writers| - i) - 3
    case Returned => 0
  }

  /** Every step of `Stop` brings it closer to its return, so with the two facts before it ends. */
  lemma StopAdvances(s: Sink, ok: bool)
    requires Inv(s) && Enabled(s, StopStep(ok))
    ensures 0 <= StopDistance(StopOnce(s, ok)) < StopDistance(s)
    ensures StopDistance(s) == 0 <==> s.stop == Returned
  {
    if s.stop.Emptying? {
      DrainFindsNothing(s);
    }
  }
}
