/**
  The command handlers that couple the session with the recorder, the streams and the WiFi
  Direct link. Each handler call is one step of `System`; the outcomes of foreign calls are the
  parameters of the command.
*/
module ControlPlane {
  import opened Frames
  import opened Sequences
  import opened Wrappers
  import opened SessionLifecycle
  import SessionHistory
  import opened RecordingLifecycle
  import opened StreamingLifecycle

  /** The WiFi Direct group and the DHCP server on it. */
  datatype Link = Link(groupUp: bool, dhcpUp: bool)

  const NO_LINK := Link(false, false)

  /** Where the teardown of the link throws: nowhere, at the DHCP server, or at the group behind it. */
  datatype LinkFailure = NoLinkFails | DhcpFails | GroupFails

  /** Which steps of a cleanup throw. A foreign call that throws has not done its work. */
  datatype Failures = Failures(recorder: bool, streams: StreamFailure, link: LinkFailure)

  datatype System = System(session: SessionState, recorder: Recorder, streaming: Streaming, link: Link)

  datatype Command =
    | CentralConnects
    | CentralDisconnects(stops: bool, thumbnailWrites: bool, order: seq<int>, failures: Failures)
    | StartWifiDirect(groupForms: bool, dhcpStarts: bool, previewStarts: bool)
    | StopWifiDirect
    | PushSessionConfig(config: Config, dirsOk: bool)
    | PushOverlayLayout
    | StartRecording(enoughSpace: bool, starts: bool)
    | StopRecording(stops: bool, thumbnailWrites: bool)
    | PauseRecording
    | ResumeRecording
    | StartStream(id: int, url: string, name: string, factoryOk: bool, starts: bool)
    | StopStream(id: int)
    | VideoArrives(frame: Frame)
    | UpdateScore(teamId: string, delta: int)
    | MatchChanges(live: LiveMatch)

  // ---------- What each command does ----------

  /** START is refused before the recorder is touched unless the session is ready and configured. */
  function Recorded(s: System, enoughSpace: bool, starts: bool): System {
    if s.session.config.None? || s.session.phase != Ready then s
    else
      var c := s.session.config.value;
      if CanStart(s.recorder, c.videoPath, enoughSpace, starts) then
        s.(session := Apply(s.session, Event.RecordingStart), recorder := Started(s.recorder, c.videoPath, c.thumbnailPath))
      else s
  }

  /** DHCP that already runs refuses to start, and then the group is taken down again. */
  function WifiStarted(s: System, groupForms: bool, dhcpStarts: bool, previewStarts: bool): System {
    if !groupForms then s
    else if s.link.dhcpUp || !dhcpStarts then s.(link := s.link.(groupUp := false))
    else if !Accepts(s.session, WifiUp) then s.(link := NO_LINK)
    else
      System(Apply(s.session, WifiUp), s.recorder,
             s.streaming.(appRunning := s.streaming.appRunning || previewStarts), Link(true, true))
  }

  function LinkLeft(link: Link, failure: LinkFailure): Link {
    match failure
    case DhcpFails => link
    case GroupFails => link.(dhcpUp := false)
    case NoLinkFails => NO_LINK
  }

  /** Every step of the cleanup runs, whichever of the others throw, and then the session is reset. */
  function TornDown(s: System, order: seq<int>, failures: Failures): System {
    if s.session.phase == Idle then s
    else
      System(NO_SESSION, if failures.recorder then s.recorder else NO_RECORDING,
             StreamsLeft(s.streaming, order, failures.streams), LinkLeft(s.link, failures.link))
  }

  function Teams(config: Option<Config>): set<string> {
    match config
    case None => {}
    case Some(c) => {c.teamAId, c.teamBId}
  }

  /** The team is looked up in the config; a team of both sides counts as the home side. */
  function ScoreUpdated(s: System, teamId: string, delta: int): System {
    if s.session.config.None? then s
    else
      var c := s.session.config.value;
      if teamId != c.teamAId && teamId != c.teamBId then s
      else s.(session := Apply(s.session, UpdateMatch(Scored(s.session.live, teamId == c.teamAId, delta))))
  }

  function Handle(s: System, c: Command): System {
    match c
    case CentralConnects => s.(session := Apply(s.session, Connect))
    case CentralDisconnects(_, _, order, failures) => TornDown(s, order, failures)
    case StartWifiDirect(groupForms, dhcpStarts, previewStarts) => WifiStarted(s, groupForms, dhcpStarts, previewStarts)
    case StopWifiDirect => s.(session := Apply(s.session, WifiStopped), link := NO_LINK)
    case PushSessionConfig(config, dirsOk) => s.(session := Apply(s.session, ApplyConfig(config, dirsOk)))
    case PushOverlayLayout => s.(session := Apply(s.session, OverlayConfigured))
    case StartRecording(enoughSpace, starts) => Recorded(s, enoughSpace, starts)
    case StopRecording(_, _) => s.(session := Apply(s.session, Event.RecordingStop), recorder := NO_RECORDING)
    case PauseRecording =>
      s.(recorder := if s.recorder.state == RecorderRecording then s.recorder.(state := RecorderPaused) else s.recorder)
    case ResumeRecording =>
      s.(recorder := if s.recorder.state == RecorderPaused then s.recorder.(state := RecorderRecording) else s.recorder)
    case StartStream(id, url, name, factoryOk, starts) =>
      if CanStream(s.streaming, id, factoryOk, starts) then s.(streaming := StreamStarted(s.streaming, id, url, name)) else s
    case StopStream(id) => s.(streaming := StreamStopped(s.streaming, id))
    case VideoArrives(frame) => s.(recorder := Pushed(s.recorder, frame))
    case UpdateScore(teamId, delta) => ScoreUpdated(s, teamId, delta)
    case MatchChanges(live) => s.(session := Apply(s.session, UpdateMatch(live)))
  }

  // ---------- The handlers ----------

  class WifiLink {
    var groupUp: bool
    var dhcpUp: bool

    constructor ()
      ensures !groupUp && !dhcpUp
    {
      groupUp, dhcpUp := false, false;
    }

    method StartDhcp(starts: bool) returns (ok: bool)
      modifies this`dhcpUp
      ensures ok <==> !old(dhcpUp) && starts
      ensures dhcpUp == (old(dhcpUp) || starts)
    {
      if dhcpUp {
        return false;
      }
      dhcpUp := starts;
      return starts;
    }
  }

  class Handlers {
    const session: SessionManager
    const recording: RecordingService
    const streaming: StreamingService
    const link: WifiLink

    constructor (session: SessionManager, recording: RecordingService,
                 streaming: StreamingService, link: WifiLink)
      ensures this.session == session && this.recording == recording
      ensures this.streaming == streaming && this.link == link
    {
      this.session, this.recording, this.streaming, this.link := session, recording, streaming, link;
    }

    ghost function Contents(): System
      reads session, recording, streaming, link
    {
      System(session.state, recording.Contents(), streaming.Contents(), Link(link.groupUp, link.dhcpUp))
    }

    ghost predicate Valid()
      reads session, recording, streaming, link
    {
      RecorderOk(recording.Contents()) && Mirrored(streaming.Contents())
    }

    method HandleStart(enoughSpace: bool, starts: bool) returns (ok: bool)
      requires Valid()
      modifies session, recording
      ensures Valid()
      ensures Contents() == Handle(old(Contents()), StartRecording(enoughSpace, starts))
      ensures ok <==>
                && old(session.state.phase) == Ready && old(session.state.config).Some?
                && old(session.state.config).value.videoPath != ""
                && old(recording.state) == RecorderIdle && enoughSpace && starts
      ensures ok ==>
                && session.state == old(session.state).(phase := Recording) && recording.state == RecorderRecording
                && recording.videoPath == old(session.state.config).value.videoPath
                && recording.thumbnailPath == old(session.state.config).value.thumbnailPath
      ensures !ok ==> session.state == old(session.state) && recording.Contents() == old(recording.Contents())
    {
      var state := session.state;
      if state.config.None? {
        return false;
      }
      if state.phase != Ready {
        return false;
      }
      var recorded := recording.StartRecording(state.config.value.videoPath, state.config.value.thumbnailPath, enoughSpace, starts);
      if !recorded {
        return false;
      }
      var moved := session.OnRecordingStart();
      if !moved {
        assert false;
      }
      return true;
    }

    method HandleStop(stops: bool, thumbnailWrites: bool) returns (ok: bool)
      requires Valid()
      modifies session, recording
      ensures Valid()
      ensures Contents() == Handle(old(Contents()), StopRecording(stops, thumbnailWrites))
      ensures ok <==> old(recording.state) != RecorderIdle && stops
      ensures recording.state == RecorderIdle
      ensures session.state == if old(session.state.phase) == Recording then old(session.state).(phase := Ready)
                               else old(session.state)
    {
      var result := recording.Stop(stops, thumbnailWrites);
      var moved := session.OnRecordingStop();
      return result.success;
    }

    method HandleStartWifi(groupForms: bool, dhcpStarts: bool, previewStarts: bool) returns (ok: bool)
      requires Valid()
      modifies session, streaming, link
      ensures Valid()
      ensures Contents() == Handle(old(Contents()), StartWifiDirect(groupForms, dhcpStarts, previewStarts))
      ensures ok <==> groupForms && !old(link.dhcpUp) && dhcpStarts && old(session.state.phase) != Idle
      ensures ok ==> link.groupUp && link.dhcpUp && session.state.phase !in {Idle, Connected}
      ensures !ok && groupForms ==> !link.groupUp
      ensures !ok && !groupForms ==> link.groupUp == old(link.groupUp)
      ensures !ok ==> link.dhcpUp == old(link.dhcpUp)
      ensures session.state == if ok && old(session.state.phase) == Connected then old(session.state).(phase := WifiReady)
                               else old(session.state)
      ensures streaming.appRunning == (old(streaming.appRunning) || (ok && previewStarts))
    {
      if !groupForms {
        return false;
      }
      link.groupUp := true;
      var dhcp := link.StartDhcp(dhcpStarts);
      if !dhcp {
        link.groupUp := false;
        return false;
      }
      var moved := session.OnWifiReady();
      if !moved {
        link.dhcpUp := false;
        link.groupUp := false;
        return false;
      }
      var preview := streaming.StartAppStream(previewStarts);
      return true;
    }

    method HandleStopWifi()
      requires Valid()
      modifies session, link
      ensures Valid()
      ensures Contents() == Handle(old(Contents()), StopWifiDirect)
      ensures !link.groupUp && !link.dhcpUp
      ensures session.state.phase == if old(session.state.phase) == Idle then Idle else Connected
      ensures old(session.state.phase) != Idle ==> session.state.config == None
    {
      link.dhcpUp := false;
      link.groupUp := false;
      var moved := session.OnWifiStopped();
    }

    method HandlePause() returns (ok: bool)
      requires Valid()
      modifies recording
      ensures Valid()
      ensures Contents() == Handle(old(Contents()), PauseRecording)
      ensures ok <==> old(recording.state) == RecorderRecording
      ensures recording.state == if ok then RecorderPaused else old(recording.state)
    {
      ok := recording.Pause();
    }

    method HandleResume() returns (ok: bool)
      requires Valid()
      modifies recording
      ensures Valid()
      ensures Contents() == Handle(old(Contents()), ResumeRecording)
      ensures ok <==> old(recording.state) == RecorderPaused
      ensures recording.state == if ok then RecorderRecording else old(recording.state)
    {
      ok := recording.Resume();
    }

    method HandleStartStream(id: int, url: string, name: string, factoryOk: bool, starts: bool) returns (ok: bool)
      requires Valid()
      modifies streaming
      ensures Valid()
      ensures Contents() == Handle(old(Contents()), StartStream(id, url, name, factoryOk, starts))
      ensures ok <==> id > 0 && id !in old(streaming.streams) && factoryOk && starts
      ensures streaming.streams == if ok then old(streaming.streams)[id := url] else old(streaming.streams)
      ensures streaming.names == if ok then old(streaming.names)[id := name] else old(streaming.names)
    {
      ok := streaming.StartPlatformStream(id, url, name, factoryOk, starts);
    }

    method HandleStopStream(id: int) returns (ok: bool)
      requires Valid()
      modifies streaming
      ensures Valid()
      ensures Contents() == Handle(old(Contents()), StopStream(id))
      ensures ok <==> id in old(streaming.streams)
      ensures streaming.streams == old(streaming.streams) - {id} && streaming.names == old(streaming.names) - {id}
    {
      ok := streaming.StopPlatformStream(id);
    }

    method HandlePushConfig(config: Config, dirsOk: bool) returns (ok: bool)
      requires Valid()
      modifies session
      ensures Valid()
      ensures Contents() == Handle(old(Contents()), PushSessionConfig(config, dirsOk))
      ensures ok <==> old(session.state.phase) in {WifiReady, Configured, Ready} && dirsOk
      ensures session.state.config == if ok then Some(config) else old(session.state.config)
    {
      ok := session.ApplySessionConfig(config, dirsOk);
    }

    method HandlePushOverlay() returns (ok: bool)
      requires Valid()
      modifies session
      ensures Valid()
      ensures Contents() == Handle(old(Contents()), PushOverlayLayout)
      ensures ok <==> old(session.state.phase) in {Configured, Ready, Recording}
      ensures session.state.phase == if old(session.state.phase) == Configured then Ready else old(session.state.phase)
    {
      ok := session.OnOverlayConfigured();
    }

    method HandleScoreUpdate(teamId: string, delta: int) returns (ok: bool)
      requires Valid() && -0x8000_0000 < delta < 0x8000_0000
      modifies session
      ensures Valid()
      ensures Contents() == Handle(old(Contents()), UpdateScore(teamId, delta))
      ensures ok <==> teamId in Teams(old(session.state.config)) && old(session.state.phase) in {Configured, Ready, Recording}
      ensures !ok ==> session.state == old(session.state)
      ensures ok && teamId == old(session.state.config).value.teamAId ==>
                session.state == old(session.state).(live := old(session.state.live).(scoreA := session.state.live.scoreA))
      ensures ok && teamId != old(session.state.config).value.teamAId ==>
                session.state == old(session.state).(live := old(session.state.live).(scoreB := session.state.live.scoreB))
    {
      var state := session.state;
      if state.config.None? {
        return false;
      }
      var isHome := teamId == state.config.value.teamAId;
      var isAway := teamId == state.config.value.teamBId;
      if !isHome && !isAway {
        return false;
      }
      ok := session.ApplyScoreDelta(isHome, delta);
    }

    /** The group goes down only after the DHCP server has stopped. */
    method TeardownWifiDirect(failure: LinkFailure)
      modifies link
      ensures Link(link.groupUp, link.dhcpUp) == LinkLeft(old(Link(link.groupUp, link.dhcpUp)), failure)
    {
      if failure.DhcpFails? {
        return;
      }
      link.dhcpUp := false;
      if failure.GroupFails? {
        return;
      }
      link.groupUp := false;
    }

    /** The cleanup fan-out of a disconnect, each step shielded from the others, and then the reset. */
    method OnDisconnect(stops: bool, thumbnailWrites: bool, order: seq<int>, failures: Failures)
      requires Valid() && Enumerates(order, streaming.names.Keys)
      modifies session, recording, streaming, link
      ensures Valid()
      ensures Contents() == Handle(old(Contents()), CentralDisconnects(stops, thumbnailWrites, order, failures))
    {
      if session.state.phase == Idle {
        return;
      }
      if !failures.recorder {
        var result := recording.Stop(stops, thumbnailWrites);
      }
      var threw := StopStreaming(streaming, order, failures.streams);
      TeardownWifiDirect(failures.link);
      session.ClearSession();
    }
  }

  // ---------- What every run keeps ----------

  /** While the session records, so does the recorder, perhaps paused; from WifiReady on DHCP runs. */
  ghost predicate SystemOk(s: System) {
    && RecorderOk(s.recorder)
    && Mirrored(s.streaming)
    && (s.session.config.Some? <==> s.session.phase.Rank() >= Configured.Rank())
    && (s.session.phase == Recording ==> s.recorder.state != RecorderIdle)
    && (HasWifi(s) ==> s.link.dhcpUp)
  }

  predicate HasWifi(s: System) {
    s.session.phase.Rank() >= WifiReady.Rank()
  }

  const POWERED_ON := System(NO_SESSION, NO_RECORDING, NOTHING_STREAMS, NO_LINK)

  function After(cs: seq<Command>): System {
    if cs == [] then POWERED_ON else Handle(After(cs[..|cs| - 1]), cs[|cs| - 1])
  }

  lemma HandleKeepsOk(s: System, c: Command)
    requires SystemOk(s)
    ensures SystemOk(Handle(s, c))
  {
    if c.CentralDisconnects? {
      var preview := s.streaming.(appRunning := false);
      StoppingKeepsMirrored(preview, c.order);
      if c.failures.streams.StreamFails? && c.failures.streams.at < |c.order| {
        StoppingKeepsMirrored(preview, c.order[..c.failures.streams.at + 1]);
      }
    }
  }

  /** Over every sequence of commands a recording session has an active recorder behind it. */
  lemma {:induction false} SystemInvariant(cs: seq<Command>)
    ensures SystemOk(After(cs))
  {
    if cs == [] {
    } else {
      SystemInvariant(cs[..|cs| - 1]);
      HandleKeepsOk(After(cs[..|cs| - 1]), cs[|cs| - 1]);
    }
  }

  /** START moves the session and the recorder together, exactly when nothing stands against it, or changes nothing. */
  lemma StartMovesBothOrNeither(cs: seq<Command>, enoughSpace: bool, starts: bool)
    ensures var s, t := After(cs), Handle(After(cs), StartRecording(enoughSpace, starts));
            if s.session.phase == Ready && s.session.config.Some? && s.session.config.value.videoPath != ""
               && s.recorder.state == RecorderIdle && enoughSpace && starts
            then
              && t.session == s.session.(phase := Recording) && t.recorder.state == RecorderRecording
              && t.recorder.videoPath == s.session.config.value.videoPath
              && t.recorder.thumbnailPath == s.session.config.value.thumbnailPath && t.recorder.lastFrame == None
              && t.streaming == s.streaming && t.link == s.link
            else t == s
  {
    SystemInvariant(cs);
  }

  /** The session within the system runs as a session alone does: every command is one of its events, or none. */
  lemma {:induction false} SessionRunsAlone(cs: seq<Command>) returns (es: seq<Event>)
    ensures SessionHistory.After(es) == After(cs).session
  {
    if cs == [] {
      es := [];
    } else {
      var before, c := After(cs[..|cs| - 1]), cs[|cs| - 1];
      es := SessionRunsAlone(cs[..|cs| - 1]);
      var e := EventOf(before, c);
      if e.Some? {
        SessionMoves(before, c);
        assert (es + [e.value])[..|es|] == es;
        es := es + [e.value];
      }
    }
  }

  /** The event of the session that a command amounts to, told from what its gates let through. */
  function EventOf(s: System, c: Command): Option<Event> {
    match c
    case CentralConnects => Some(Connect)
    case CentralDisconnects(_, _, _, _) => Some(Disconnect)
    case StartWifiDirect(groupForms, dhcpStarts, _) =>
      if groupForms && dhcpStarts && !s.link.dhcpUp then Some(WifiUp) else None
    case StopWifiDirect => Some(WifiStopped)
    case PushSessionConfig(config, dirsOk) => Some(ApplyConfig(config, dirsOk))
    case PushOverlayLayout => Some(OverlayConfigured)
    case StartRecording(enoughSpace, starts) =>
      if s.session.config.Some? && enoughSpace && starts && s.recorder.state == RecorderIdle
         && s.session.config.value.videoPath != ""
      then Some(Event.RecordingStart) else None
    case StopRecording(_, _) => Some(Event.RecordingStop)
    case UpdateScore(teamId, delta) =>
      if s.session.config.Some? && (teamId == s.session.config.value.teamAId || teamId == s.session.config.value.teamBId)
      then Some(UpdateMatch(Scored(s.session.live, teamId == s.session.config.value.teamAId, delta))) else None
    case MatchChanges(live) => Some(UpdateMatch(live))
    case _ => None
  }

  lemma SessionMoves(s: System, c: Command)
    ensures Handle(s, c).session == match EventOf(s, c) case None => s.session case Some(e) => Apply(s.session, e)
  {
  }

  /** So a recording of the system has WiFi, an accepted config, an overlay and a start behind it, in this order. */
  lemma RecordingIsEarned(cs: seq<Command>) returns (es: seq<Event>)
    requires After(cs).session.phase == Recording
    ensures SessionHistory.After(es) == After(cs).session
    ensures exists m :: SessionHistory.Earned(es, m, 5)
  {
    es := SessionRunsAlone(cs);
    SessionHistory.RecordingIsEarned(es);
  }

  /** A video frame reaches an active recorder only, and match data a configured session only; neither moves anything else. */
  lemma VideoAndMatchStayApart(cs: seq<Command>, frame: Frame, live: LiveMatch)
    ensures var s, t := After(cs), Handle(After(cs), VideoArrives(frame));
            && t == s.(recorder := t.recorder)
            && t.recorder == s.recorder.(lastFrame := if s.recorder.state == RecorderIdle then None else Some(frame))
    ensures var s, t := After(cs), Handle(After(cs), MatchChanges(live));
            t == if s.session.config.Some? then s.(session := s.session.(live := live)) else s
  {
    SystemInvariant(cs);
  }

  /** STOP always leaves the recorder idle and the session not recording; a second STOP changes nothing. */
  lemma StopAlwaysStops(cs: seq<Command>, stops: bool, thumbnailWrites: bool)
    ensures var t := Handle(After(cs), StopRecording(stops, thumbnailWrites));
            && t.recorder == NO_RECORDING && t.session.phase != Recording
            && Handle(t, StopRecording(stops, thumbnailWrites)) == t
  {
  }

  // ---------- A disconnect, whatever throws ----------

  /** The streams behind the one whose stop throws are the ones left. */
  lemma StreamsBehindAreLeft(s: Streaming, order: seq<int>, at: nat)
    requires Mirrored(s) && Enumerates(order, s.names.Keys) && at < |order|
    ensures var t := StreamsLeft(s, order, StreamFails(at));
            && Mirrored(t) && !t.appRunning && t.ended == s.ended + order[..at + 1]
            && t.streams.Keys == Elements(order[at + 1..])
  {
    var done, preview := order[..at + 1], s.(appRunning := false);
    assert order == done + order[at + 1..];
    StoppingKeepsMirrored(preview, done);
    EachIsStoppedOnce(preview, done);
    SplitElements(order, at + 1);
  }

  /**
    A disconnect from any state but Idle clears the session whatever throws; every step of the
    cleanup that does not throw has stopped all it has to stop, each stream once; and a stop of a
    stream that throws leaves only the streams behind it. From Idle a disconnect changes nothing.
  */
  lemma DisconnectStopsEverything(cs: seq<Command>, stops: bool, thumbnailWrites: bool, order: seq<int>, failures: Failures)
    requires Enumerates(order, After(cs).streaming.names.Keys)
    ensures var s, t := After(cs), Handle(After(cs), CentralDisconnects(stops, thumbnailWrites, order, failures));
            if s.session.phase == Idle then t == s
            else
              && t.session.phase == Idle && t.session.config == None && t.session == NO_SESSION
              && t.recorder == (if failures.recorder then s.recorder else NO_RECORDING)
              && (failures.link.NoLinkFails? ==> !t.link.groupUp && !t.link.dhcpUp)
              && (failures.link.GroupFails? ==> t.link.groupUp == s.link.groupUp && !t.link.dhcpUp)
              && (failures.link.DhcpFails? ==> t.link == s.link)
              && (failures.streams.PreviewFails? ==> t.streaming == s.streaming)
              && (failures.streams.NoStreamFails? ==> Silent(t.streaming) && t.streaming.ended == s.streaming.ended + order)
              && (failures.streams.StreamFails? && failures.streams.at < |order| ==>
                    t.streaming.streams.Keys == Elements(order[failures.streams.at + 1..]))
  {
    SystemInvariant(cs);
    var s := After(cs);
    if failures.streams.StreamFails? && failures.streams.at < |order| {
      StreamsBehindAreLeft(s.streaming, order, failures.streams.at);
    }
    AllStreamsEnd(s.streaming.(appRunning := false), order);
  }

  // ---------- When a state lasts ----------

  /** Command `k` started it, and no later command ended it. */
  ghost predicate Since(cs: seq<Command>, starts: (System, Command) -> bool, ends: (System, Command) -> bool, k: nat) {
    && k < |cs| && starts(After(cs[..k]), cs[k])
    && forall j: nat | k < j < |cs| :: !ends(After(cs[..j]), cs[j])
  }

  /** The state holds after a command if that starts it, or if it held before and the command does not end it. */
  ghost predicate Rule(s: System, c: Command, holds: System -> bool,
                       starts: (System, Command) -> bool, ends: (System, Command) -> bool) {
    holds(Handle(s, c)) <==> starts(s, c) || (holds(s) && !ends(s, c))
  }

  lemma SinceBefore(cs: seq<Command>, starts: (System, Command) -> bool, ends: (System, Command) -> bool, k: nat)
    requires cs != [] && k < |cs| - 1
    ensures Since(cs, starts, ends, k)
       <==> Since(cs[..|cs| - 1], starts, ends, k) && !ends(After(cs[..|cs| - 1]), cs[|cs| - 1])
  {
    var before := cs[..|cs| - 1];
    assert before[..k] == cs[..k];
    forall j: nat | k < j < |before|
      ensures before[..j] == cs[..j]
    {
    }
  }

  ghost predicate Lasts(cs: seq<Command>, starts: (System, Command) -> bool, ends: (System, Command) -> bool) {
    exists k: nat :: Since(cs, starts, ends, k)
  }

  lemma LastsBefore(cs: seq<Command>, starts: (System, Command) -> bool, ends: (System, Command) -> bool)
    requires cs != []
    ensures var before, c := cs[..|cs| - 1], cs[|cs| - 1];
            Lasts(cs, starts, ends) <==>
              starts(After(before), c) || (Lasts(before, starts, ends) && !ends(After(before), c))
  {
    var m := |cs| - 1;
    assert Since(cs, starts, ends, m) <==> starts(After(cs[..m]), cs[m]);
    forall k: nat | k < m
      ensures Since(cs, starts, ends, k) <==> Since(cs[..m], starts, ends, k) && !ends(After(cs[..m]), cs[m])
    {
      SinceBefore(cs, starts, ends, k);
    }
  }

  /** The rule was obeyed by each command. */
  ghost predicate Obeyed(cs: seq<Command>, holds: System -> bool,
                         starts: (System, Command) -> bool, ends: (System, Command) -> bool) {
    forall j: nat | j < |cs| :: Rule(After(cs[..j]), cs[j], holds, starts, ends)
  }

  lemma ObeyedBefore(cs: seq<Command>, holds: System -> bool,
                     starts: (System, Command) -> bool, ends: (System, Command) -> bool)
    requires cs != [] && Obeyed(cs, holds, starts, ends)
    ensures Obeyed(cs[..|cs| - 1], holds, starts, ends)
    ensures Rule(After(cs[..|cs| - 1]), cs[|cs| - 1], holds, starts, ends)
  {
    var before := cs[..|cs| - 1];
    forall j: nat | j < |before|
      ensures Rule(After(before[..j]), before[j], holds, starts, ends)
    {
      assert before[..j] == cs[..j];
    }
  }

  /** A state that obeys the rule holds exactly if some command started it and none has ended it since. */
  lemma {:induction false} LastsSince(cs: seq<Command>, holds: System -> bool,
                                      starts: (System, Command) -> bool, ends: (System, Command) -> bool)
    requires !holds(POWERED_ON) && Obeyed(cs, holds, starts, ends)
    ensures holds(After(cs)) <==> Lasts(cs, starts, ends)
  {
    if cs == [] {
    } else {
      ObeyedBefore(cs, holds, starts, ends);
      LastsSince(cs[..|cs| - 1], holds, starts, ends);
      LastsBefore(cs, starts, ends);
    }
  }

  // ---------- A recorder without a session ----------

  /** The recorder runs, but no session is recording. */
  predicate Orphaned(s: System) {
    s.recorder.state != RecorderIdle && s.session.phase != Recording
  }

  predicate FailsToStopRecorder(c: Command) {
    c.CentralDisconnects? && c.failures.recorder
  }

  /** WiFi is stopped during a recording, or a disconnect during one cannot stop the recorder. */
  predicate Orphans(s: System, c: Command) {
    s.session.phase == Recording && (c.StopWifiDirect? || FailsToStopRecorder(c))
  }

  /** A STOP, or a disconnect that is acted upon and stops the recorder. */
  predicate EndsOrphan(s: System, c: Command) {
    c.StopRecording? || (c.CentralDisconnects? && !c.failures.recorder && s.session.phase != Idle)
  }

  lemma OrphanRule(s: System, c: Command)
    requires SystemOk(s)
    ensures Rule(s, c, Orphaned, Orphans, EndsOrphan)
  {
  }

  /**
    Exactly when the recorder runs without a recording session: WiFi was stopped during a recording,
    or a disconnect failed to stop the recorder, and since then there was neither a STOP nor a
    disconnect, from a state other than Idle, that stopped it.
  */
  lemma OrphanedIff(cs: seq<Command>)
    ensures Orphaned(After(cs)) <==> exists k: nat :: Since(cs, Orphans, EndsOrphan, k)
  {
    forall j: nat | j < |cs|
      ensures Rule(After(cs[..j]), cs[j], Orphaned, Orphans, EndsOrphan)
    {
      SystemInvariant(cs[..j]);
      OrphanRule(After(cs[..j]), cs[j]);
    }
    LastsSince(cs, Orphaned, Orphans, EndsOrphan);
  }

  ghost predicate EveryDisconnectStopsRecorder(cs: seq<Command>) {
    forall i :: 0 <= i < |cs| ==> !FailsToStopRecorder(cs[i])
  }

  predicate StopsWifiWhileRecording(s: System, c: Command) {
    c.StopWifiDirect? && s.session.phase == Recording
  }

  predicate StopsOrDisconnects(s: System, c: Command) {
    c.StopRecording? || c.CentralDisconnects?
  }

  /** As long as every disconnect stops the recorder, an active recorder has a central. */
  lemma {:induction false} ActiveRecorderHasCentral(cs: seq<Command>)
    requires EveryDisconnectStopsRecorder(cs)
    ensures After(cs).recorder.state != RecorderIdle ==> After(cs).session.phase != Idle
  {
    if cs == [] {
    } else {
      ActiveRecorderHasCentral(cs[..|cs| - 1]);
    }
  }

  lemma WifiStopRule(s: System, c: Command)
    requires SystemOk(s) && !FailsToStopRecorder(c)
    requires s.recorder.state != RecorderIdle ==> s.session.phase != Idle
    ensures Rule(s, c, Orphaned, StopsWifiWhileRecording, StopsOrDisconnects)
  {
    OrphanRule(s, c);
  }

  /**
    When no disconnect fails to stop the recorder: it runs without a recording session exactly if
    WiFi was stopped during a recording, with no STOP and no disconnect since.
  */
  lemma OrphanedIffWifiStopped(cs: seq<Command>)
    requires EveryDisconnectStopsRecorder(cs)
    ensures Orphaned(After(cs)) <==> exists k: nat :: Since(cs, StopsWifiWhileRecording, StopsOrDisconnects, k)
  {
    forall j: nat | j < |cs|
      ensures Rule(After(cs[..j]), cs[j], Orphaned, StopsWifiWhileRecording, StopsOrDisconnects)
    {
      SystemInvariant(cs[..j]);
      ActiveRecorderHasCentral(cs[..j]);
      WifiStopRule(After(cs[..j]), cs[j]);
    }
    LastsSince(cs, Orphaned, StopsWifiWhileRecording, StopsOrDisconnects);
  }

  lemma OrphanRefusesStart(s: System, enoughSpace: bool, starts: bool)
    requires Orphaned(s)
    ensures Handle(s, StartRecording(enoughSpace, starts)) == s
  {
  }

  /** Until then every START is refused and changes nothing, although a new session may be Ready. */
  lemma OrphanedRecorderBlocksStart(cs: seq<Command>, enoughSpace: bool, starts: bool, k: nat)
    requires Since(cs, Orphans, EndsOrphan, k)
    ensures Handle(After(cs), StartRecording(enoughSpace, starts)) == After(cs)
  {
    OrphanedIff(cs);
    OrphanRefusesStart(After(cs), enoughSpace, starts);
  }

  lemma OneMoreCommand(cs: seq<Command>, c: Command)
    ensures After(cs + [c]) == Handle(After(cs), c)
  {
    assert (cs + [c])[..|cs|] == cs;
  }

  /** The commands that take a central to a recording. */
  lemma RecordingIsReachable() returns (cs: seq<Command>)
    ensures After(cs).session.phase == Recording && After(cs).recorder.state == RecorderRecording
    ensures After(cs).link == Link(true, true)
  {
    var config := Config("v.mp4", "t.jpg", "a", "b", "A", "B");
    OneMoreCommand([], CentralConnects);
    cs := [] + [CentralConnects];
    OneMoreCommand(cs, StartWifiDirect(true, true, true));
    cs := cs + [StartWifiDirect(true, true, true)];
    OneMoreCommand(cs, PushSessionConfig(config, true));
    cs := cs + [PushSessionConfig(config, true)];
    OneMoreCommand(cs, PushOverlayLayout);
    cs := cs + [PushOverlayLayout];
    OneMoreCommand(cs, StartRecording(true, true));
    cs := cs + [StartRecording(true, true)];
  }

  /** The recorder can be left without its session: here is a run that does it. */
  lemma OrphanedRecorderIsReachable() returns (cs: seq<Command>)
    ensures Orphaned(After(cs)) && After(cs).session.phase == Connected
  {
    cs := RecordingIsReachable();
    OneMoreCommand(cs, StopWifiDirect);
    cs := cs + [StopWifiDirect];
  }

  // ---------- A session without its group ----------

  /** The session has its WiFi, but the group is down. */
  predicate GroupIsDown(s: System) {
    HasWifi(s) && !s.link.groupUp
  }

  /** WiFi is started again, and a group forms. */
  predicate RestartsWifi(s: System, c: Command) {
    HasWifi(s) && c.StartWifiDirect? && c.groupForms
  }

  predicate LeavesWifi(s: System, c: Command) {
    !HasWifi(Handle(s, c))
  }

  lemma GroupRule(s: System, c: Command)
    requires SystemOk(s)
    ensures Rule(s, c, GroupIsDown, RestartsWifi, LeavesWifi)
  {
  }

  /**
    Exactly when a session at WifiReady or beyond has no group: WiFi was started again at such a
    phase, DHCP refused to run twice, and the session has not left those phases since.
  */
  lemma GroupIsDownIff(cs: seq<Command>)
    ensures GroupIsDown(After(cs)) <==> exists k: nat :: Since(cs, RestartsWifi, LeavesWifi, k)
  {
    forall j: nat | j < |cs|
      ensures Rule(After(cs[..j]), cs[j], GroupIsDown, RestartsWifi, LeavesWifi)
    {
      SystemInvariant(cs[..j]);
      GroupRule(After(cs[..j]), cs[j]);
    }
    LastsSince(cs, GroupIsDown, RestartsWifi, LeavesWifi);
  }

  /** Even a recording session can be without its group. */
  lemma GroupDownIsReachable() returns (cs: seq<Command>)
    ensures GroupIsDown(After(cs)) && After(cs).session.phase == Recording
  {
    cs := RecordingIsReachable();
    OneMoreCommand(cs, StartWifiDirect(true, true, true));
    cs := cs + [StartWifiDirect(true, true, true)];
  }
}
