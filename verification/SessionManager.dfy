/**
  The session lifecycle. Every method of the manager is one lock-held step on `SessionState`.
*/
module SessionLifecycle {
  import opened Arithmetic
  import opened Wrappers

  datatype Phase = Idle | Connected | WifiReady | Configured | Ready | Recording {
    function Rank(): nat {
      match this
      case Idle => 0
      case Connected => 1
      case WifiReady => 2
      case Configured => 3
      case Ready => 4
      case Recording => 5
    }
  }

  datatype Config = Config(
    videoPath: string, thumbnailPath: string, teamAId: string, teamBId: string, teamAName: string, teamBName: string)

  datatype Segment = InPlay | HalfTime | FullTime

  datatype LiveMatch = LiveMatch(
    scoreA: nat, scoreB: nat, period: nat, clockSeconds: nat, clockRunning: bool, segment: Segment)

  datatype SessionState = SessionState(phase: Phase, config: Option<Config>, live: LiveMatch)

  const NO_MATCH := LiveMatch(0, 0, 0, 0, false, InPlay)
  const NO_SESSION := SessionState(Idle, None, NO_MATCH)

  // ---------- The transitions ----------

  datatype Event =
    | Connect
    | WifiUp
    | WifiStopped
    | ApplyConfig(config: Config, dirsOk: bool)
    | OverlayConfigured
    | RecordingStart
    | RecordingStop
    | Disconnect
    | UpdateMatch(live: LiveMatch)

  predicate Accepts(s: SessionState, e: Event) {
    match e
    case Connect => s.phase == Idle
    case WifiUp => s.phase != Idle
    case WifiStopped => s.phase != Idle
    case ApplyConfig(_, dirsOk) => s.phase.Rank() >= WifiReady.Rank() && s.phase != Recording && dirsOk
    case OverlayConfigured => s.phase.Rank() >= Configured.Rank()
    case RecordingStart => s.phase == Ready
    case RecordingStop => s.phase == Recording
    case Disconnect => s.phase != Idle
    case UpdateMatch(_) => s.phase.Rank() >= Configured.Rank()
  }

  function Apply(s: SessionState, e: Event): SessionState {
    if !Accepts(s, e) then s
    else
      match e
      case Connect => s.(phase := Connected)
      case WifiUp => if s.phase == Connected then s.(phase := WifiReady) else s
      case WifiStopped => SessionState(Connected, None, NO_MATCH)
      case ApplyConfig(c, _) => s.(config := Some(c), phase := if s.phase == WifiReady then Configured else s.phase)
      case OverlayConfigured => if s.phase == Configured then s.(phase := Ready) else s
      case RecordingStart => s.(phase := Recording)
      case RecordingStop => s.(phase := Ready)
      case Disconnect => NO_SESSION
      case UpdateMatch(live) => s.(live := live)
  }

  class SessionManager {
    var state: SessionState

    constructor ()
      ensures state == NO_SESSION && state.phase == Idle && state.config == None
    {
      state := NO_SESSION;
    }

    method OnConnect() returns (ok: bool)
      modifies this
      ensures ok == Accepts(old(state), Connect) && state == Apply(old(state), Connect)
      ensures ok <==> old(state.phase) == Idle
      ensures state == if ok then old(state).(phase := Connected) else old(state)
    {
      if state.phase != Idle {
        return false;
      }
      state := state.(phase := Connected);
      return true;
    }

    method OnWifiReady() returns (ok: bool)
      modifies this
      ensures ok == Accepts(old(state), WifiUp) && state == Apply(old(state), WifiUp)
      ensures ok <==> old(state.phase) != Idle
      ensures state == if old(state.phase) == Connected then old(state).(phase := WifiReady) else old(state)
    {
      if state.phase.Rank() < Connected.Rank() {
        return false;
      }
      if state.phase == Connected {
        state := state.(phase := WifiReady);
      }
      return true;
    }

    method OnWifiStopped() returns (ok: bool)
      modifies this
      ensures ok == Accepts(old(state), WifiStopped) && state == Apply(old(state), WifiStopped)
      ensures ok <==> old(state.phase) != Idle
      ensures ok ==> state.phase == Connected && state.config == None && state.live == LiveMatch(0, 0, 0, 0, false, InPlay)
      ensures !ok ==> state == old(state)
    {
      if state.phase == Idle {
        return false;
      }
      state := state.(phase := Connected);
      state := state.(config := None);
      state := state.(live := NO_MATCH);
      return true;
    }

    /** `dirsOk` tells whether the output directories could be created. */
    method ApplySessionConfig(config: Config, dirsOk: bool) returns (ok: bool)
      modifies this
      ensures ok == Accepts(old(state), ApplyConfig(config, dirsOk))
      ensures state == Apply(old(state), ApplyConfig(config, dirsOk))
      ensures ok <==> old(state.phase) in {WifiReady, Configured, Ready} && dirsOk
      ensures ok ==> state.config == Some(config) && state.live == old(state.live)
      ensures ok ==> state.phase == if old(state.phase) == WifiReady then Configured else old(state.phase)
      ensures !ok ==> state == old(state)
    {
      if state.phase.Rank() < WifiReady.Rank() || state.phase == Recording {
        return false;
      }
      if !dirsOk {
        return false;
      }
      state := state.(config := Some(config));
      if state.phase == WifiReady {
        state := state.(phase := Configured);
      }
      return true;
    }

    method OnOverlayConfigured() returns (ok: bool)
      modifies this
      ensures ok == Accepts(old(state), OverlayConfigured) && state == Apply(old(state), OverlayConfigured)
      ensures ok <==> old(state.phase) in {Configured, Ready, Recording}
      ensures state == if old(state.phase) == Configured then old(state).(phase := Ready) else old(state)
    {
      if state.phase.Rank() < Configured.Rank() {
        return false;
      }
      if state.phase == Configured {
        state := state.(phase := Ready);
      }
      return true;
    }

    method OnRecordingStart() returns (ok: bool)
      modifies this
      ensures ok == Accepts(old(state), RecordingStart) && state == Apply(old(state), RecordingStart)
      ensures ok <==> old(state.phase) == Ready
      ensures state == if ok then old(state).(phase := Recording) else old(state)
    {
      if state.phase != Ready {
        return false;
      }
      state := state.(phase := Recording);
      return true;
    }

    method OnRecordingStop() returns (ok: bool)
      modifies this
      ensures ok == Accepts(old(state), RecordingStop) && state == Apply(old(state), RecordingStop)
      ensures ok <==> old(state.phase) == Recording
      ensures state == if ok then old(state).(phase := Ready) else old(state)
    {
      if state.phase != Recording {
        return false;
      }
      state := state.(phase := Ready);
      return true;
    }

    /** The last step of a disconnect, after the cleanup fan-out. */
    method ClearSession()
      modifies this
      ensures state == NO_SESSION && state.phase == Idle && state.config == None
      ensures state.live == LiveMatch(0, 0, 0, 0, false, InPlay)
    {
      state := NO_SESSION;
    }

    /** A score change. The clamp keeps the score at or above zero; the sum wraps at 32 bits. */
    method ApplyScoreDelta(home: bool, delta: int) returns (ok: bool)
      requires -0x8000_0000 < delta < 0x8000_0000
      modifies this
      ensures ok == Accepts(old(state), UpdateMatch(Scored(old(state.live), home, delta)))
      ensures state == Apply(old(state), UpdateMatch(Scored(old(state.live), home, delta)))
      ensures ok <==> old(state.phase) in {Configured, Ready, Recording}
      ensures !ok ==> state == old(state)
      ensures ok && home ==> state == old(state).(live := old(state.live).(scoreA := state.live.scoreA))
      ensures ok && !home ==> state == old(state).(live := old(state.live).(scoreB := state.live.scoreB))
      ensures ok ==>
                var was, now := if home then old(state.live.scoreA) else old(state.live.scoreB),
                               if home then state.live.scoreA else state.live.scoreB;
                && (was + delta < 0 ==> now == 0)
                && (0 <= was + delta < U32_LIMIT ==> now == was + delta)
                && (was < U32_LIMIT <= was + delta ==> now == was + delta - U32_LIMIT)
    {
      if state.phase.Rank() < Configured.Rank() {
        return false;
      }
      var score := if home then state.live.scoreA else state.live.scoreB;
      if delta < 0 && -delta > score {
        score := 0;
      } else {
        score := (score + delta) % U32_LIMIT;
      }
      state := state.(live := if home then state.live.(scoreA := score) else state.live.(scoreB := score));
      return true;
    }
  }

  // ---------- The score ----------

  function NextScore(score: nat, delta: int): nat {
    if delta < 0 && -delta > score then 0 else (score + delta) % U32_LIMIT
  }

  function Scored(live: LiveMatch, home: bool, delta: int): LiveMatch {
    if home then live.(scoreA := NextScore(live.scoreA, delta)) else live.(scoreB := NextScore(live.scoreB, delta))
  }

  function ScoreAfter(deltas: seq<int>): nat {
    if deltas == [] then 0 else NextScore(ScoreAfter(deltas[..|deltas| - 1]), deltas[|deltas| - 1])
  }

  function Sum(deltas: seq<int>): int {
    if deltas == [] then 0 else Sum(deltas[..|deltas| - 1]) + deltas[|deltas| - 1]
  }

  /** The lowest prefix sum, at most zero. */
  function Lowest(deltas: seq<int>): (m: int)
    ensures m <= 0
  {
    if deltas == [] then 0
    else
      var before := Lowest(deltas[..|deltas| - 1]);
      if Sum(deltas) < before then Sum(deltas) else before
  }

  /** The lowest prefix sum is a lower bound of all prefix sums, and one of them. */
  lemma {:induction false} LowestIsTheMinimum(deltas: seq<int>)
    ensures forall k :: 0 <= k <= |deltas| ==> Lowest(deltas) <= Sum(deltas[..k])
    ensures exists k :: 0 <= k <= |deltas| && Lowest(deltas) == Sum(deltas[..k])
  {
    if deltas == [] {
      assert deltas[..0] == [];
      assert Sum(deltas[..0]) == 0;
    } else {
      var m := |deltas| - 1;
      var before := deltas[..m];
      LowestIsTheMinimum(before);
      assert deltas[..|deltas|] == deltas;
      forall k | 0 <= k <= m
        ensures deltas[..k] == before[..k]
      {
      }
      var k :| 0 <= k <= m && Lowest(before) == Sum(before[..k]);
      if Sum(deltas) < Lowest(before) {
        assert Lowest(deltas) == Sum(deltas[..|deltas|]);
      } else {
        assert Lowest(deltas) == Sum(deltas[..k]);
      }
    }
  }

  /** No prefix drives the clamped score beyond 32 bits. */
  ghost predicate FitsThroughout(deltas: seq<int>) {
    forall k :: 0 <= k <= |deltas| ==> Sum(deltas[..k]) - Lowest(deltas[..k]) < U32_LIMIT
  }

  ghost predicate ClampedThroughout(deltas: seq<int>) {
    forall k :: 0 <= k <= |deltas| ==> ScoreAfter(deltas[..k]) == Sum(deltas[..k]) - Lowest(deltas[..k])
  }

  lemma {:induction false} ScoreIsBounded(deltas: seq<int>)
    ensures ScoreAfter(deltas) < U32_LIMIT
  {
    if deltas == [] {
    } else {
      ScoreIsBounded(deltas[..|deltas| - 1]);
    }
  }

  lemma {:induction false} ScoreIsClampedSum(deltas: seq<int>)
    requires FitsThroughout(deltas)
    ensures ScoreAfter(deltas) == Sum(deltas) - Lowest(deltas)
  {
    if deltas == [] {
    } else {
      var m := |deltas| - 1;
      forall k | 0 <= k <= m
        ensures deltas[..m][..k] == deltas[..k]
      {
      }
      ScoreIsClampedSum(deltas[..m]);
      assert deltas[..|deltas|] == deltas;
      assert Sum(deltas) - Lowest(deltas) < U32_LIMIT;
    }
  }

  /**
    The score over a whole match, for any deltas: it is the sum held at or above zero, that is the
    sum minus its lowest point, at every moment if and only if that value always fits 32 bits.
  */
  lemma ScoreIsClampedIffItFits(deltas: seq<int>)
    ensures ClampedThroughout(deltas) <==> FitsThroughout(deltas)
  {
    if FitsThroughout(deltas) {
      forall k | 0 <= k <= |deltas|
        ensures ScoreAfter(deltas[..k]) == Sum(deltas[..k]) - Lowest(deltas[..k])
      {
        forall j | 0 <= j <= k
          ensures deltas[..k][..j] == deltas[..j]
        {
        }
        ScoreIsClampedSum(deltas[..k]);
      }
    }
    if ClampedThroughout(deltas) {
      forall k | 0 <= k <= |deltas|
        ensures Sum(deltas[..k]) - Lowest(deltas[..k]) < U32_LIMIT
      {
        ScoreIsBounded(deltas[..k]);
        assert ScoreAfter(deltas[..k]) == Sum(deltas[..k]) - Lowest(deltas[..k]);
      }
    }
  }
}
