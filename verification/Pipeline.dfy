/**
  The capture pipeline as an interleaved system over one run from a successful `Start` to the
  end of `Stop`: one producer thread per camera, one consumer thread, and the stopping thread.
  A step is one slot operation, one snapshot store, one sink push or one look at the running
  flag. The foreign stages are arbitrary functions; the slots are the latest-only slots.
*/
module Pipeline {
  import opened Wrappers
  import opened Sequences
  import opened FrameBuffers
  import opened Frames

  datatype Crop = Crop(x: nat, y: nat, width: nat, height: nat)

  datatype Choice = Choice(camera: nat, crop: Crop)

  /** The stages a frame passes; `None` is a stage that has no result for its input. */
  datatype Stages = Stages(
    preprocess: Frame -> Option<Frame>,
    materialize: Frame -> Frame,
    decide: seq<Option<Frame>> -> Option<Choice>,
    postprocess: (Frame, Crop) -> Option<Frame>,
    composite: (Frame, RgbaImage) -> Option<Frame>)

  /** A bundle in a slot, tagged with the position of its capture. */
  datatype Tagged = Tagged(index: nat, source: Frame)

  /** A finished frame and where it comes from. */
  datatype Output = Output(camera: nat, index: nat, crop: Crop, overlay: Option<RgbaImage>, frame: Frame)

  datatype ProducerPc = ProducerCheck | Capturing | Pushing(bundle: Tagged) | ProducerDone

  datatype ConsumerPc =
    | ConsumerCheck
    | Cadence
    | Sampling(next: nat, latest: seq<Option<Tagged>>)
    | Storing(out: Output)
    | Sinking(out: Output)
    | ConsumerDone

  /** `floor` is one more than the last capture taken out of the slot; `captures` is all captures so far. */
  datatype Camera = Camera(pc: ProducerPc, slot: Slot<Tagged>, captures: seq<Frame>, floor: nat)

  datatype System = System(
    running: bool, cameras: seq<Camera>, consumer: ConsumerPc, snapshot: Option<Frame>, sink: seq<Output>)

  datatype Step =
    | Produce(i: nat, captured: Option<Frame>)
    | Consume(overlay: Option<RgbaImage>)
    | StopRunning
    | CloseSlot(i: nat)

  // ---------- The steps ----------

  function FreshCamera(): Camera {
    Camera(ProducerCheck, FreshSlot(), [], 0)
  }

  function Started(cameras: nat): System {
    System(true, seq(cameras, _ => FreshCamera()), ConsumerCheck, None, [])
  }

  /** The bundle that a capture turns into before it reaches the slot. */
  function Bundled(stages: Stages, raw: Frame): Option<Frame> {
    match stages.preprocess(raw)
    case None => None
    case Some(b) => Some(stages.materialize(b))
  }

  function ProducerStep(stages: Stages, running: bool, c: Camera, captured: Option<Frame>): Camera {
    match c.pc
    case ProducerCheck => c.(pc := if running then Capturing else ProducerDone)
    case Capturing =>
      (match captured
       case None => c.(pc := ProducerCheck)
       case Some(raw) =>
         var d := c.(captures := c.captures + [raw]);
         match Bundled(stages, raw)
         case None => d.(pc := ProducerCheck)
         case Some(b) => d.(pc := Pushing(Tagged(|c.captures|, b))))
    case Pushing(b) => c.(pc := ProducerCheck, slot := SlotPush(c.slot, b).0)
    case ProducerDone => c
  }

  /** Taking out of a slot raises the floor to just above what was taken. */
  function TakeFrom(c: Camera): (Camera, Option<Tagged>) {
    var (slot, out) := SlotTake(c.slot);
    (c.(slot := slot, floor := if out.Some? then out.value.index + 1 else c.floor), out)
  }

  function Sources(latest: seq<Option<Tagged>>): seq<Option<Frame>> {
    seq(|latest|, i requires 0 <= i < |latest| => if latest[i].Some? then Some(latest[i].value.source) else None)
  }

  function Composited(stages: Stages, frame: Frame, overlay: Option<RgbaImage>): Frame {
    match overlay
    case None => frame
    case Some(o) => match stages.composite(frame, o) case None => frame case Some(f) => f
  }

  /** One tick of the consumer after sampling: the finished frame, or nothing this time. */
  function Tick(stages: Stages, latest: seq<Option<Tagged>>, overlay: Option<RgbaImage>): Option<Output> {
    match stages.decide(Sources(latest))
    case None => None
    case Some(choice) =>
      if choice.camera >= |latest| || latest[choice.camera].None? then None
      else
        var chosen := latest[choice.camera].value;
        match stages.postprocess(chosen.source, choice.crop)
        case None => None
        case Some(f) =>
          Some(Output(choice.camera, chosen.index, choice.crop, overlay, Composited(stages, f, overlay)))
  }

  function ConsumerStep(stages: Stages, s: System, overlay: Option<RgbaImage>): System
    requires |s.cameras| > 0
    requires s.consumer.Sampling? ==> |s.consumer.latest| == s.consumer.next <= |s.cameras|
  {
    match s.consumer
    case ConsumerCheck => s.(consumer := if s.running then Cadence else ConsumerDone)
    case Cadence =>
      var (c, out) := TakeFrom(s.cameras[0]);
      s.(cameras := s.cameras[0 := c], consumer := Sampling(1, [out]))
    case Sampling(i, latest) =>
      if i < |s.cameras| then
        var (c, out) := TakeFrom(s.cameras[i]);
        s.(cameras := s.cameras[i := c], consumer := Sampling(i + 1, latest + [out]))
      else
        (match Tick(stages, latest, overlay)
         case None => s.(consumer := ConsumerCheck)
         case Some(out) => s.(consumer := Storing(out)))
    case Storing(out) => s.(snapshot := Some(out.frame), consumer := Sinking(out))
    case Sinking(out) => s.(sink := s.sink + [out], consumer := ConsumerCheck)
    case ConsumerDone => s
  }

  predicate Enabled(s: System, step: Step) {
    match step
    case Produce(i, captured) => i < |s.cameras| && (captured.Some? ==> s.cameras[i].pc.Capturing?)
    case Consume(_) => true
    case StopRunning => true
    case CloseSlot(i) => !s.running && i < |s.cameras|
  }

  // ---------- The invariant ----------

  /** The tagged bundle is what the capture at its position turned into. */
  ghost predicate BundleOk(stages: Stages, c: Camera, t: Tagged) {
    t.index < |c.captures| && Bundled(stages, c.captures[t.index]) == Some(t.source)
  }

  /** Everything on its way to the consumer is newer than everything that has left the slot. */
  ghost predicate CameraOk(stages: Stages, c: Camera) {
    && c.floor <= |c.captures|
    && (c.slot.slot.Some? ==> BundleOk(stages, c, c.slot.slot.value) && c.floor <= c.slot.slot.value.index)
    && (c.pc.Pushing? ==> BundleOk(stages, c, c.pc.bundle) && c.pc.bundle.index == |c.captures| - 1)
    && (c.pc.Pushing? ==> c.floor <= c.pc.bundle.index)
    && (c.pc.Pushing? && c.slot.slot.Some? ==> c.slot.slot.value.index < c.pc.bundle.index)
  }

  ghost predicate SampleOk(stages: Stages, c: Camera, t: Option<Tagged>) {
    t.Some? ==> BundleOk(stages, c, t.value) && t.value.index + 1 == c.floor
  }

  /** What a finished frame should be: its capture through every stage. */
  function Final(stages: Stages, raw: Frame, crop: Crop, overlay: Option<RgbaImage>): Option<Frame> {
    match Bundled(stages, raw)
    case None => None
    case Some(b) =>
      match stages.postprocess(b, crop)
      case None => None
      case Some(f) => Some(Composited(stages, f, overlay))
  }

  ghost predicate OutputOk(stages: Stages, cameras: seq<Camera>, out: Output) {
    && out.camera < |cameras|
    && out.index < |cameras[out.camera].captures|
    && out.index < cameras[out.camera].floor
    && Final(stages, cameras[out.camera].captures[out.index], out.crop, out.overlay) == Some(out.frame)
  }

  ghost predicate OutputsOk(stages: Stages, cameras: seq<Camera>, outs: seq<Output>) {
    forall k :: 0 <= k < |outs| ==> OutputOk(stages, cameras, outs[k])
  }

  /** Per camera the outputs are in capture order, each capture at most once. */
  ghost predicate InOrder(outs: seq<Output>) {
    forall a, b :: 0 <= a < b < |outs| && outs[a].camera == outs[b].camera ==> outs[a].index < outs[b].index
  }

  /** Every output of camera `i` comes from before capture `limit`. */
  ghost predicate Before(outs: seq<Output>, i: nat, limit: nat) {
    forall k :: 0 <= k < |outs| && outs[k].camera == i ==> outs[k].index < limit
  }

  ghost predicate CamerasOk(stages: Stages, cameras: seq<Camera>) {
    forall i :: 0 <= i < |cameras| ==> CameraOk(stages, cameras[i])
  }

  ghost predicate ConsumerOk(stages: Stages, s: System) {
    match s.consumer
    case Sampling(n, latest) =>
      && |latest| == n <= |s.cameras|
      && (forall i :: 0 <= i < n ==> SampleOk(stages, s.cameras[i], latest[i]))
      && (forall i :: 0 <= i < n && latest[i].Some? ==> Before(s.sink, i, latest[i].value.index))
    case Storing(out) => OutputOk(stages, s.cameras, out) && Before(s.sink, out.camera, out.index)
    case Sinking(out) => OutputOk(stages, s.cameras, out) && Before(s.sink, out.camera, out.index)
    case _ => true
  }

  /** The snapshot is the last frame pushed, or the one about to be pushed. */
  ghost predicate SnapshotOk(s: System) {
    s.snapshot ==
      if s.consumer.Sinking? then Some(s.consumer.out.frame)
      else if s.sink == [] then None
      else Some(s.sink[|s.sink| - 1].frame)
  }

  ghost predicate Inv(stages: Stages, s: System) {
    && |s.cameras| > 0
    && CamerasOk(stages, s.cameras)
    && OutputsOk(stages, s.cameras, s.sink) && InOrder(s.sink)
    && ConsumerOk(stages, s)
    && SnapshotOk(s)
  }

  function Next(stages: Stages, s: System, step: Step): System
    requires Enabled(s, step) && |s.cameras| > 0
    requires s.consumer.Sampling? ==> |s.consumer.latest| == s.consumer.next <= |s.cameras|
  {
    match step
    case Produce(i, captured) =>
      s.(cameras := s.cameras[i := ProducerStep(stages, s.running, s.cameras[i], captured)])
    case Consume(overlay) => ConsumerStep(stages, s, overlay)
    case StopRunning => s.(running := false)
    case CloseSlot(i) =>
      s.(cameras := s.cameras[i := s.cameras[i].(slot := s.cameras[i].slot.(closed := true))])
  }

  // ---------- A camera moves ----------

  /** A camera only ever gains captures and raises its floor. */
  ghost predicate Grows(c: Camera, d: Camera) {
    c.captures <= d.captures && c.floor <= d.floor
  }

  lemma ProducerIsOk(stages: Stages, running: bool, c: Camera, captured: Option<Frame>)
    requires CameraOk(stages, c)
    ensures var d := ProducerStep(stages, running, c, captured);
            CameraOk(stages, d) && Grows(c, d) && d.floor == c.floor
  {
  }

  lemma TakeIsOk(stages: Stages, c: Camera)
    requires CameraOk(stages, c)
    ensures var (d, out) := TakeFrom(c);
            && CameraOk(stages, d) && Grows(c, d)
            && SampleOk(stages, d, out)
            && (out.Some? ==> c.floor <= out.value.index)
            && (out.None? ==> d.floor == c.floor)
  {
  }

  ghost predicate AllGrow(cs: seq<Camera>, ds: seq<Camera>) {
    |cs| == |ds| && forall i :: 0 <= i < |cs| ==> Grows(cs[i], ds[i])
  }

  lemma OneCameraMoves(stages: Stages, cs: seq<Camera>, i: nat, d: Camera)
    requires CamerasOk(stages, cs) && i < |cs| && CameraOk(stages, d) && Grows(cs[i], d)
    ensures CamerasOk(stages, cs[i := d]) && AllGrow(cs, cs[i := d])
  {
  }

  lemma OutputSurvives(stages: Stages, cs: seq<Camera>, ds: seq<Camera>, out: Output)
    requires OutputOk(stages, cs, out) && AllGrow(cs, ds)
    ensures OutputOk(stages, ds, out)
  {
    assert Grows(cs[out.camera], ds[out.camera]);
  }

  lemma OutputsSurvive(stages: Stages, cs: seq<Camera>, ds: seq<Camera>, outs: seq<Output>)
    requires OutputsOk(stages, cs, outs) && AllGrow(cs, ds)
    ensures OutputsOk(stages, ds, outs)
  {
    forall k | 0 <= k < |outs|
      ensures OutputOk(stages, ds, outs[k])
    {
      OutputSurvives(stages, cs, ds, outs[k]);
    }
  }

  lemma SampleSurvives(stages: Stages, c: Camera, d: Camera, t: Option<Tagged>)
    requires SampleOk(stages, c, t) && Grows(c, d) && d.floor == c.floor
    ensures SampleOk(stages, d, t)
  {
  }

  /** A producer step or a slot closing: one camera grows, and nothing is taken from it. */
  lemma CameraMoves(stages: Stages, s: System, i: nat, d: Camera)
    requires Inv(stages, s) && i < |s.cameras|
    requires CameraOk(stages, d) && Grows(s.cameras[i], d) && d.floor == s.cameras[i].floor
    ensures Inv(stages, s.(cameras := s.cameras[i := d]))
  {
    var ds := s.cameras[i := d];
    OneCameraMoves(stages, s.cameras, i, d);
    OutputsSurvive(stages, s.cameras, ds, s.sink);
    match s.consumer
    case Sampling(n, latest) =>
      forall j | 0 <= j < n
        ensures SampleOk(stages, ds[j], latest[j])
      {
        if j == i {
          SampleSurvives(stages, s.cameras[i], d, latest[i]);
        }
      }
    case Storing(out) => OutputSurvives(stages, s.cameras, ds, out);
    case Sinking(out) => OutputSurvives(stages, s.cameras, ds, out);
    case _ =>
  }

  // ---------- The consumer moves ----------

  /** Everything already in the sink is older than what a camera still offers. */
  lemma SinkIsBeforeFloor(stages: Stages, cameras: seq<Camera>, outs: seq<Output>, i: nat)
    requires OutputsOk(stages, cameras, outs) && i < |cameras|
    ensures Before(outs, i, cameras[i].floor)
  {
    forall k | 0 <= k < |outs| && outs[k].camera == i
      ensures outs[k].index < cameras[i].floor
    {
      assert OutputOk(stages, cameras, outs[k]);
    }
  }

  /** Sampling slot `n`, with the samples of the slots before it in hand. */
  lemma SampleKeepsInv(stages: Stages, s: System, n: nat, latest: seq<Option<Tagged>>)
    requires Inv(stages, s) && n == |latest| < |s.cameras|
    requires forall i :: 0 <= i < n ==> SampleOk(stages, s.cameras[i], latest[i])
    requires forall i :: 0 <= i < n && latest[i].Some? ==> Before(s.sink, i, latest[i].value.index)
    requires !s.consumer.Sinking?
    ensures var (c, out) := TakeFrom(s.cameras[n]);
            Inv(stages, s.(cameras := s.cameras[n := c], consumer := Sampling(n + 1, latest + [out])))
  {
    var (c, out) := TakeFrom(s.cameras[n]);
    var ds := s.cameras[n := c];
    TakeIsOk(stages, s.cameras[n]);
    OneCameraMoves(stages, s.cameras, n, c);
    OutputsSurvive(stages, s.cameras, ds, s.sink);
    SinkIsBeforeFloor(stages, s.cameras, s.sink, n);
    var more := latest + [out];
    forall i | 0 <= i < n + 1
      ensures SampleOk(stages, ds[i], more[i])
      ensures more[i].Some? ==> Before(s.sink, i, more[i].value.index)
    {
    }
  }

  lemma TickIsOk(stages: Stages, s: System, overlay: Option<RgbaImage>)
    requires Inv(stages, s) && s.consumer.Sampling? && s.consumer.next == |s.cameras|
    requires Tick(stages, s.consumer.latest, overlay).Some?
    ensures var out := Tick(stages, s.consumer.latest, overlay).value;
            OutputOk(stages, s.cameras, out) && Before(s.sink, out.camera, out.index)
  {
    var out := Tick(stages, s.consumer.latest, overlay).value;
    assert SampleOk(stages, s.cameras[out.camera], s.consumer.latest[out.camera]);
  }

  lemma SinkKeepsInv(stages: Stages, s: System)
    requires Inv(stages, s) && s.consumer.Sinking?
    ensures Inv(stages, s.(sink := s.sink + [s.consumer.out], consumer := ConsumerCheck))
  {
    var out := s.consumer.out;
    var outs := s.sink + [out];
    forall a, b | 0 <= a < b < |outs| && outs[a].camera == outs[b].camera
      ensures outs[a].index < outs[b].index
    {
    }
    forall k | 0 <= k < |outs|
      ensures OutputOk(stages, s.cameras, outs[k])
    {
    }
  }

  lemma SamplingKeepsInv(stages: Stages, s: System, overlay: Option<RgbaImage>)
    requires Inv(stages, s) && s.consumer.Sampling?
    ensures Inv(stages, ConsumerStep(stages, s, overlay))
  {
    var n, latest := s.consumer.next, s.consumer.latest;
    if n < |s.cameras| {
      SampleKeepsInv(stages, s, n, latest);
    } else if Tick(stages, latest, overlay).Some? {
      TickIsOk(stages, s, overlay);
    }
  }

  lemma ConsumerKeepsInv(stages: Stages, s: System, overlay: Option<RgbaImage>)
    requires Inv(stages, s)
    ensures Inv(stages, ConsumerStep(stages, s, overlay))
  {
    if s.consumer.Cadence? {
      SampleKeepsInv(stages, s, 0, []);
    } else if s.consumer.Sampling? {
      SamplingKeepsInv(stages, s, overlay);
    } else if s.consumer.Sinking? {
      SinkKeepsInv(stages, s);
    }
  }

  lemma NextKeepsInv(stages: Stages, s: System, step: Step)
    requires Inv(stages, s) && Enabled(s, step)
    ensures Inv(stages, Next(stages, s, step)) && |Next(stages, s, step).cameras| == |s.cameras|
  {
    match step
    case Produce(i, captured) =>
      ProducerIsOk(stages, s.running, s.cameras[i], captured);
      CameraMoves(stages, s, i, ProducerStep(stages, s.running, s.cameras[i], captured));
    case Consume(overlay) => ConsumerKeepsInv(stages, s, overlay);
    case StopRunning =>
    case CloseSlot(i) => CameraMoves(stages, s, i, s.cameras[i].(slot := s.cameras[i].slot.(closed := true)));
  }

  // ---------- Runs ----------

  ghost predicate CanRun(stages: Stages, s: System, steps: seq<Step>)
    requires Inv(stages, s)
    decreases |steps|
  {
    steps == []
    || (Enabled(s, steps[0]) && (NextKeepsInv(stages, s, steps[0]); CanRun(stages, Next(stages, s, steps[0]), steps[1..])))
  }

  ghost function Run(stages: Stages, s: System, steps: seq<Step>): (r: System)
    requires Inv(stages, s) && CanRun(stages, s, steps)
    ensures Inv(stages, r) && |r.cameras| == |s.cameras|
    decreases |steps|
  {
    if steps == [] then s
    else
      NextKeepsInv(stages, s, steps[0]);
      Run(stages, Next(stages, s, steps[0]), steps[1..])
  }

  lemma StartedIsInv(stages: Stages, cameras: nat)
    requires cameras > 0
    ensures Inv(stages, Started(cameras))
  {
  }

  /** The steps can be taken, in this order, by a pipeline that has just started. */
  ghost predicate IsRun(stages: Stages, cameras: nat, steps: seq<Step>) {
    cameras > 0 && (StartedIsInv(stages, cameras); CanRun(stages, Started(cameras), steps))
  }

  ghost function Reached(stages: Stages, cameras: nat, steps: seq<Step>): (s: System)
    requires IsRun(stages, cameras, steps)
    ensures Inv(stages, s) && |s.cameras| == cameras
  {
    StartedIsInv(stages, cameras);
    Run(stages, Started(cameras), steps)
  }

  /** The frame is this capture, passed through every stage in turn; an overlay that cannot be composited is left out. */
  ghost predicate ThroughAllStages(stages: Stages, raw: Frame, crop: Crop, overlay: Option<RgbaImage>, frame: Frame) {
    && stages.preprocess(raw).Some?
    && var cropped := stages.postprocess(stages.materialize(stages.preprocess(raw).value), crop);
       && cropped.Some?
       && (overlay.None? ==> frame == cropped.value)
       && (overlay.Some? && stages.composite(cropped.value, overlay.value).None? ==> frame == cropped.value)
       && (overlay.Some? && stages.composite(cropped.value, overlay.value).Some? ==>
             Some(frame) == stages.composite(cropped.value, overlay.value))
  }

  /** The frames that camera `i` captures in a run, told from its steps alone. */
  function CapturesOf(steps: seq<Step>, i: nat): seq<Frame> {
    if steps == [] then []
    else
      (if steps[0].Produce? && steps[0].i == i && steps[0].captured.Some? then [steps[0].captured.value] else [])
      + CapturesOf(steps[1..], i)
  }

  lemma ConsumerCapturesNothing(stages: Stages, s: System, overlay: Option<RgbaImage>, i: nat)
    requires Inv(stages, s) && i < |s.cameras|
    ensures |ConsumerStep(stages, s, overlay).cameras| == |s.cameras|
    ensures ConsumerStep(stages, s, overlay).cameras[i].captures == s.cameras[i].captures
  {
  }

  lemma ProducerCaptures(stages: Stages, running: bool, c: Camera, captured: Option<Frame>)
    requires captured.Some? ==> c.pc.Capturing?
    ensures ProducerStep(stages, running, c, captured).captures
         == if captured.Some? then c.captures + [captured.value] else c.captures
  {
  }

  lemma StepCaptures(stages: Stages, s: System, step: Step, i: nat)
    requires Inv(stages, s) && Enabled(s, step) && i < |s.cameras|
    ensures |Next(stages, s, step).cameras| == |s.cameras|
    ensures Next(stages, s, step).cameras[i].captures == s.cameras[i].captures + CapturesOf([step], i)
  {
    assert [step][1..] == [];
    NothingAdded(s.cameras[i].captures);
    match step
    case Produce(j, captured) =>
      ProducerCaptures(stages, s.running, s.cameras[j], captured);
      if captured.Some? {
        NothingAdded([captured.value]);
      }
    case Consume(overlay) => ConsumerCapturesNothing(stages, s, overlay, i);
    case _ =>
  }

  lemma FirstCaptures(steps: seq<Step>, i: nat)
    requires steps != []
    ensures CapturesOf(steps, i) == CapturesOf([steps[0]], i) + CapturesOf(steps[1..], i)
  {
    assert [steps[0]][1..] == [];
    NothingAdded(CapturesOf([steps[0]], i));
  }

  lemma {:induction false} RunCaptures(stages: Stages, s: System, steps: seq<Step>, i: nat)
    requires Inv(stages, s) && CanRun(stages, s, steps) && i < |s.cameras|
    ensures Run(stages, s, steps).cameras[i].captures == s.cameras[i].captures + CapturesOf(steps, i)
    decreases |steps|
  {
    if steps == [] {
      NothingAdded(s.cameras[i].captures);
    } else {
      NextKeepsInv(stages, s, steps[0]);
      StepCaptures(stages, s, steps[0], i);
      RunCaptures(stages, Next(stages, s, steps[0]), steps[1..], i);
      FirstCaptures(steps, i);
      Regrouped(s.cameras[i].captures, CapturesOf([steps[0]], i), CapturesOf(steps[1..], i));
    }
  }

  /** In every run the captures of a camera are those its producer made. */
  lemma CapturesAreProduced(stages: Stages, cameras: nat, steps: seq<Step>, i: nat)
    requires IsRun(stages, cameras, steps) && i < cameras
    ensures Reached(stages, cameras, steps).cameras[i].captures == CapturesOf(steps, i)
  {
    StartedIsInv(stages, cameras);
    RunCaptures(stages, Started(cameras), steps, i);
    NothingAdded(CapturesOf(steps, i));
  }

  lemma OutputIsThrough(stages: Stages, cameras: seq<Camera>, out: Output)
    requires OutputOk(stages, cameras, out)
    ensures ThroughAllStages(stages, cameras[out.camera].captures[out.index], out.crop, out.overlay, out.frame)
  {
  }

  /**
    Every interleaving: each frame in the sink is a capture of its camera passed through every stage,
    per camera the captures appear in order and at most once, and the snapshot is the last frame
    pushed or the one about to be pushed.
  */
  lemma SinkIsOrderedCaptures(stages: Stages, cameras: nat, steps: seq<Step>)
    requires IsRun(stages, cameras, steps)
    ensures var s := Reached(stages, cameras, steps);
            && InOrder(s.sink)
            && SnapshotOk(s)
            && forall k :: 0 <= k < |s.sink| ==>
                 var out := s.sink[k];
                 && out.camera < cameras && out.index < |CapturesOf(steps, out.camera)|
                 && ThroughAllStages(stages, CapturesOf(steps, out.camera)[out.index], out.crop, out.overlay, out.frame)
  {
    var s := Reached(stages, cameras, steps);
    forall k | 0 <= k < |s.sink|
      ensures OutputOk(stages, s.cameras, s.sink[k])
      ensures s.cameras[s.sink[k].camera].captures == CapturesOf(steps, s.sink[k].camera)
      ensures ThroughAllStages(stages, s.cameras[s.sink[k].camera].captures[s.sink[k].index],
                               s.sink[k].crop, s.sink[k].overlay, s.sink[k].frame)
    {
      assert OutputOk(stages, s.cameras, s.sink[k]);
      CapturesAreProduced(stages, cameras, steps, s.sink[k].camera);
      OutputIsThrough(stages, s.cameras, s.sink[k]);
    }
  }

  // ---------- What each step of the threads does ----------

  /** Each thread looks at the running flag before its next round: it goes on while that is set and ends after. */
  lemma ThreadsFollowFlag(stages: Stages, s: System, i: nat, overlay: Option<RgbaImage>)
    requires Inv(stages, s) && i < |s.cameras|
    ensures s.cameras[i].pc.ProducerCheck? ==>
              Next(stages, s, Produce(i, None)).cameras[i] == s.cameras[i].(pc := if s.running then Capturing else ProducerDone)
    ensures s.consumer.ConsumerCheck? ==>
              Next(stages, s, Consume(overlay)) == s.(consumer := if s.running then Cadence else ConsumerDone)
    ensures !Next(stages, s, StopRunning).running
    ensures Enabled(s, CloseSlot(i)) ==>
              Next(stages, s, CloseSlot(i)).cameras == s.cameras[i := s.cameras[i].(slot := s.cameras[i].slot.(closed := true))]
  {
  }

  /**
    A producer that captures a frame puts the materialized bundle of it into its slot, unless
    preprocessing has no result or the slot is closed.
  */
  lemma ProducerFillsSlot(stages: Stages, s: System, i: nat, raw: Frame)
    requires Inv(stages, s) && Enabled(s, Produce(i, Some(raw))) && s.running
    ensures var t := Next(stages, s, Produce(i, Some(raw)));
            && Inv(stages, t) && |t.cameras| == |s.cameras|
            && t.cameras[i].slot == s.cameras[i].slot
            && (stages.preprocess(raw).None? ==> t.cameras[i].pc == ProducerCheck)
            && (stages.preprocess(raw).Some? ==>
                  var bundle := Tagged(|s.cameras[i].captures|, stages.materialize(stages.preprocess(raw).value));
                  && t.cameras[i].pc == Pushing(bundle)
                  && Enabled(t, Produce(i, None))
                  && Next(stages, t, Produce(i, None)).cameras[i].pc == ProducerCheck
                  && Next(stages, t, Produce(i, None)).cameras[i].slot.slot
                     == if t.cameras[i].slot.closed then t.cameras[i].slot.slot else Some(bundle))
  {
    NextKeepsInv(stages, s, Produce(i, Some(raw)));
  }

  /** Each tick takes whatever every slot holds, in camera order, and leaves the slot empty. */
  lemma ConsumerEmptiesSlots(stages: Stages, s: System, overlay: Option<RgbaImage>)
    requires Inv(stages, s)
    requires s.consumer.Cadence? || (s.consumer.Sampling? && s.consumer.next < |s.cameras|)
    ensures var i, latest := if s.consumer.Cadence? then 0 else s.consumer.next, if s.consumer.Cadence? then [] else s.consumer.latest;
            var t := Next(stages, s, Consume(overlay));
            && i < |s.cameras| == |t.cameras| && t.cameras[i].slot.slot == None
            && t.consumer == Sampling(i + 1, latest + [s.cameras[i].slot.slot])
            && t.sink == s.sink && t.snapshot == s.snapshot
            && forall j :: 0 <= j < |s.cameras| && j != i ==> t.cameras[j] == s.cameras[j]
  {
  }

  /** What a sample shows of each camera to the decision. */
  ghost predicate ShowsSources(sources: seq<Option<Frame>>, latest: seq<Option<Tagged>>) {
    && |sources| == |latest|
    && forall i :: 0 <= i < |latest| ==>
         && (latest[i].None? ==> sources[i] == None)
         && (latest[i].Some? ==> sources[i] == Some(latest[i].value.source))
  }

  /**
    After the last slot the tick has an output exactly when the decision names a camera that was
    sampled and postprocessing has a result. It carries the camera and crop of the decision and the
    overlay of that moment, which is composited when that is possible; without an output nothing
    but the position of the consumer changes.
  */
  lemma TickDecides(stages: Stages, s: System, overlay: Option<RgbaImage>, sources: seq<Option<Frame>>)
    requires Inv(stages, s) && s.consumer.Sampling? && s.consumer.next == |s.cameras|
    requires ShowsSources(sources, s.consumer.latest)
    ensures var latest, t := s.consumer.latest, Next(stages, s, Consume(overlay));
            var choice := stages.decide(sources);
            var sampled := choice.Some? && choice.value.camera < |latest| && latest[choice.value.camera].Some?;
            && t.cameras == s.cameras && t.sink == s.sink && t.snapshot == s.snapshot && t.running == s.running
            && (t.consumer.Storing? <==>
                  sampled && stages.postprocess(latest[choice.value.camera].value.source, choice.value.crop).Some?)
            && (!t.consumer.Storing? ==> t.consumer == ConsumerCheck)
            && (t.consumer.Storing? ==>
                  var out := t.consumer.out;
                  var cropped := stages.postprocess(latest[choice.value.camera].value.source, choice.value.crop).value;
                  && out.camera == choice.value.camera && out.crop == choice.value.crop && out.overlay == overlay
                  && out.index == latest[choice.value.camera].value.index
                  && (overlay.None? ==> out.frame == cropped)
                  && (overlay.Some? ==>
                        out.frame == var c := stages.composite(cropped, overlay.value); if c.Some? then c.value else cropped))
  {
    assert Sources(s.consumer.latest) == sources;
  }

  /** A finished frame becomes the snapshot and then goes to the sink. */
  lemma OutputIsDelivered(stages: Stages, s: System, overlay: Option<RgbaImage>, later: Option<RgbaImage>)
    requires Inv(stages, s) && s.consumer.Storing?
    ensures var t := Next(stages, s, Consume(overlay));
            && t.consumer == Sinking(s.consumer.out) && t.snapshot == Some(s.consumer.out.frame) && t.sink == s.sink
            && Inv(stages, t)
            && Next(stages, t, Consume(later)).sink == s.sink + [s.consumer.out]
            && Next(stages, t, Consume(later)).snapshot == Some(s.consumer.out.frame)
  {
    NextKeepsInv(stages, s, Consume(overlay));
  }

  // ---------- The static decision ----------

  /** Camera 0, whole frame; nothing when it has no frame or a degenerate one. */
  function StaticDecide(latest: seq<Option<Frame>>): Option<Choice> {
    if latest == [] || latest[0].None? then None
    else
      var f := latest[0].value;
      if f.width == 0 || f.height == 0 then None else Some(Choice(0, Crop(0, 0, f.width, f.height)))
  }

  /** The static decision is camera 0 with its whole frame, exactly when it has a frame that is not degenerate. */
  lemma StaticDecisionIff(latest: seq<Option<Frame>>, choice: Choice)
    ensures StaticDecide(latest) == Some(choice) <==>
              && latest != [] && latest[0].Some? && latest[0].value.width > 0 && latest[0].value.height > 0
              && choice.camera == 0 && choice.crop.x == 0 && choice.crop.y == 0
              && choice.crop.width == latest[0].value.width && choice.crop.height == latest[0].value.height
  {
  }

  /** A whole-frame output of camera 0. */
  ghost predicate StaticOutput(stages: Stages, cameras: seq<Camera>, out: Output) {
    && out.camera == 0 < |cameras| && out.index < |cameras[0].captures|
    && var b := Bundled(stages, cameras[0].captures[out.index]);
       b.Some? && out.crop == Crop(0, 0, b.value.width, b.value.height)
  }

  ghost predicate StaticInv(stages: Stages, s: System) {
    && (forall k :: 0 <= k < |s.sink| ==> StaticOutput(stages, s.cameras, s.sink[k]))
    && (s.consumer.Storing? ==> StaticOutput(stages, s.cameras, s.consumer.out))
    && (s.consumer.Sinking? ==> StaticOutput(stages, s.cameras, s.consumer.out))
  }

  lemma StaticOutputSurvives(stages: Stages, cs: seq<Camera>, ds: seq<Camera>, out: Output)
    requires StaticOutput(stages, cs, out) && AllGrow(cs, ds)
    ensures StaticOutput(stages, ds, out)
  {
    assert Grows(cs[0], ds[0]);
  }

  lemma CamerasGrow(stages: Stages, s: System, step: Step)
    requires Inv(stages, s) && Enabled(s, step)
    ensures AllGrow(s.cameras, Next(stages, s, step).cameras)
  {
    match step
    case Produce(i, captured) => ProducerIsOk(stages, s.running, s.cameras[i], captured);
    case _ =>
  }

  lemma StaticTick(stages: Stages, s: System, overlay: Option<RgbaImage>)
    requires Inv(stages, s) && stages.decide == StaticDecide
    requires s.consumer.Sampling? && s.consumer.next == |s.cameras|
    requires Tick(stages, s.consumer.latest, overlay).Some?
    ensures StaticOutput(stages, s.cameras, Tick(stages, s.consumer.latest, overlay).value)
  {
    assert SampleOk(stages, s.cameras[0], s.consumer.latest[0]);
  }

  lemma NextKeepsStatic(stages: Stages, s: System, step: Step)
    requires Inv(stages, s) && StaticInv(stages, s) && stages.decide == StaticDecide && Enabled(s, step)
    ensures StaticInv(stages, Next(stages, s, step))
  {
    var t := Next(stages, s, step);
    CamerasGrow(stages, s, step);
    if step.Consume? && s.consumer.Sampling? && s.consumer.next == |s.cameras| {
      if Tick(stages, s.consumer.latest, step.overlay).Some? {
        StaticTick(stages, s, step.overlay);
      }
    }
    forall out | StaticOutput(stages, s.cameras, out)
      ensures StaticOutput(stages, t.cameras, out)
    {
      StaticOutputSurvives(stages, s.cameras, t.cameras, out);
    }
  }

  lemma {:induction false} RunKeepsStatic(stages: Stages, s: System, steps: seq<Step>)
    requires Inv(stages, s) && StaticInv(stages, s) && stages.decide == StaticDecide && CanRun(stages, s, steps)
    ensures StaticInv(stages, Run(stages, s, steps))
    decreases |steps|
  {
    if steps == [] {
    } else {
      NextKeepsInv(stages, s, steps[0]);
      NextKeepsStatic(stages, s, steps[0]);
      RunKeepsStatic(stages, Next(stages, s, steps[0]), steps[1..]);
    }
  }

  function Positions(outs: seq<Output>): seq<nat> {
    seq(|outs|, k requires 0 <= k < |outs| => outs[k].index)
  }

  /**
    Under the static decision only camera 0 reaches the sink, whole frames only, and the sink shows
    its captures in order, each at most once.
  */
  lemma StaticSinkShowsCameraZero(stages: Stages, cameras: nat, steps: seq<Step>)
    requires IsRun(stages, cameras, steps) && stages.decide == StaticDecide
    ensures var s := Reached(stages, cameras, steps);
            && Increasing(Positions(s.sink))
            && forall k :: 0 <= k < |s.sink| ==> StaticOutput(stages, s.cameras, s.sink[k])
  {
    StartedIsInv(stages, cameras);
    RunKeepsStatic(stages, Started(cameras), steps);
    var s := Reached(stages, cameras, steps);
    assert forall k :: 0 <= k < |s.sink| ==> StaticOutput(stages, s.cameras, s.sink[k]);
  }

  // ---------- Starting the captures ----------

  /**
    Starts the captures one by one; `startOk[i]` tells whether capture `i` runs after being started.
    When one does not, those started before it are stopped again. A pipeline that runs is left alone.
  */
  method StartCaptures(pipelineRuns: bool, running: array<bool>, startOk: seq<bool>) returns (ok: bool)
    requires |startOk| == running.Length
    modifies running
    ensures ok <==> pipelineRuns || (running.Length > 0 && forall i :: 0 <= i < |startOk| ==> startOk[i])
    ensures pipelineRuns ==> running[..] == old(running[..])
    ensures ok && !pipelineRuns ==> forall i :: 0 <= i < running.Length ==> running[i]
    ensures !ok ==> forall i :: 0 <= i < running.Length && running[i] ==> old(running[i])
  {
    if pipelineRuns {
      return true;
    }
    if running.Length == 0 {
      return false;
    }
    for i := 0 to running.Length
      invariant forall k :: 0 <= k < i ==> startOk[k] && running[k]
      invariant forall k :: i <= k < running.Length ==> running[k] == old(running[k])
    {
      running[i] := startOk[i];
      if !running[i] {
        for j := 0 to i
          invariant forall k :: 0 <= k < j ==> !running[k]
          invariant !running[i] && !startOk[i]
          invariant forall k :: i < k < running.Length ==> running[k] == old(running[k])
        {
          running[j] := false;
        }
        return false;
      }
    }
    return true;
  }
}
