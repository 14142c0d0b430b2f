/** What every run of the session lifecycle keeps, and what a recording session has behind it. */
module SessionHistory {
  import opened Wrappers
  import opened SessionLifecycle

  function After(es: seq<Event>): SessionState {
    if es == [] then NO_SESSION else Apply(After(es[..|es| - 1]), es[|es| - 1])
  }

  /** A config is present exactly from Configured on, and before it there is no match data. */
  ghost predicate SessionOk(s: SessionState) {
    && (s.config.Some? <==> s.phase.Rank() >= Configured.Rank())
    && (s.phase.Rank() < Configured.Rank() ==> s.live == NO_MATCH)
  }

  lemma {:induction false} SessionInvariant(es: seq<Event>)
    ensures SessionOk(After(es))
  {
    if es == [] {
    } else {
      SessionInvariant(es[..|es| - 1]);
    }
  }

  /** Event `k` is this event, was accepted, and moved the session from `p` to `q`. */
  ghost predicate Moved(es: seq<Event>, k: nat, p: Phase, q: Phase) {
    && k < |es|
    && Accepts(After(es[..k]), es[k])
    && After(es[..k]).phase == p && After(es[..k + 1]).phase == q
  }

  /** A connect, a WiFi stop or a disconnect that took effect. */
  ghost predicate Resets(es: seq<Event>, k: nat)
    requires k < |es|
  {
    (es[k].Connect? || es[k].WifiStopped? || es[k].Disconnect?) && Accepts(After(es[..k]), es[k])
  }

  /** The moments at which the session came to where it is. */
  datatype Marks = Marks(wifi: nat, config: nat, overlay: nat, start: nat)

  /** Up to phase `rank`, the steps were taken in this order, and nothing reset the session since. */
  ghost predicate Earned(es: seq<Event>, m: Marks, rank: nat) {
    && (rank >= 2 ==> Moved(es, m.wifi, Connected, WifiReady) && es[m.wifi].WifiUp?)
    && (rank >= 2 ==> forall k :: m.wifi <= k < |es| ==> !Resets(es, k))
    && (rank >= 3 ==> m.wifi < m.config && Moved(es, m.config, WifiReady, Configured) && es[m.config].ApplyConfig?)
    && (rank >= 4 ==> m.config < m.overlay && Moved(es, m.overlay, Configured, Ready) && es[m.overlay].OverlayConfigured?)
    && (rank >= 5 ==> m.overlay < m.start && Moved(es, m.start, Ready, Recording) && es[m.start].RecordingStart?)
  }

  lemma ResetBefore(es: seq<Event>, k: nat)
    requires k < |es| - 1
    ensures Resets(es, k) == Resets(es[..|es| - 1], k)
  {
    assert es[..|es| - 1][..k] == es[..k];
  }

  lemma MovedBefore(es: seq<Event>, k: nat, p: Phase, q: Phase)
    requires es != [] && Moved(es[..|es| - 1], k, p, q)
    ensures Moved(es, k, p, q) && es[k] == es[..|es| - 1][k]
  {
    assert es[..|es| - 1][..k] == es[..k] && es[..|es| - 1][..k + 1] == es[..k + 1];
  }

  lemma NoResetBefore(es: seq<Event>, before: seq<Event>, from: nat)
    requires es != [] && before == es[..|es| - 1] && !Resets(es, |es| - 1)
    requires forall k :: from <= k < |before| ==> !Resets(before, k)
    ensures forall k :: from <= k < |es| ==> !Resets(es, k)
  {
    forall k | from <= k < |es| - 1
      ensures !Resets(es, k)
    {
      ResetBefore(es, k);
    }
  }

  /** What was earned before the last event still is, unless that event is a reset. */
  lemma EarnedBefore(es: seq<Event>, m: Marks, rank: nat)
    requires es != [] && Earned(es[..|es| - 1], m, rank) && (rank >= 2 ==> !Resets(es, |es| - 1))
    ensures Earned(es, m, rank)
  {
    if rank >= 2 {
      MovedBefore(es, m.wifi, Connected, WifiReady);
      NoResetBefore(es, es[..|es| - 1], m.wifi);
    }
    if rank >= 3 {
      MovedBefore(es, m.config, WifiReady, Configured);
    }
    if rank >= 4 {
      MovedBefore(es, m.overlay, Configured, Ready);
    }
    if rank >= 5 {
      MovedBefore(es, m.start, Ready, Recording);
    }
  }

  /** The event that takes the session up to phase `q`. */
  ghost predicate Earns(e: Event, q: Phase) {
    match q
    case WifiReady => e.WifiUp?
    case Configured => e.ApplyConfig?
    case Ready => e.OverlayConfigured?
    case Recording => e.RecordingStart?
    case _ => false
  }

  /** One event moves the session at most one phase up, and each step up has its own event. */
  lemma OneStepUp(s: SessionState, e: Event)
    requires Apply(s, e).phase.Rank() >= 2
    ensures Accepts(s, e) ==> !e.Connect? && !e.WifiStopped? && !e.Disconnect?
    ensures Apply(s, e).phase.Rank() > s.phase.Rank() ==>
              Accepts(s, e) && Apply(s, e).phase.Rank() == s.phase.Rank() + 1 && Earns(e, Apply(s, e).phase)
  {
  }

  /** The marks after event `k` took the session up to `q`. */
  ghost function Marked(m: Marks, q: Phase, k: nat): Marks {
    match q
    case WifiReady => m.(wifi := k)
    case Configured => m.(config := k)
    case Ready => m.(overlay := k)
    case Recording => m.(start := k)
    case _ => m
  }

  /** The first mark: nothing has been reset since, as it is the last event. */
  lemma FirstMark(es: seq<Event>, m: Marks)
    requires es != [] && Moved(es, |es| - 1, Connected, WifiReady) && es[|es| - 1].WifiUp?
    ensures Earned(es, Marked(m, WifiReady, |es| - 1), 2)
  {
    assert !Resets(es, |es| - 1);
  }

  /** Adding the mark of the last event to marks that all come before it. */
  lemma NewMark(es: seq<Event>, m: Marks, p: Phase, q: Phase)
    requires es != [] && Moved(es, |es| - 1, p, q) && Earns(es[|es| - 1], q)
    requires q.Rank() == p.Rank() + 1 && p.Rank() >= 2
    requires Earned(es[..|es| - 1], m, p.Rank()) && Earned(es, m, p.Rank())
    ensures Earned(es, Marked(m, q, |es| - 1), q.Rank())
  {
  }

  lemma MarksGrow(es: seq<Event>, m: Marks, p: Phase, q: Phase) returns (n: Marks)
    requires es != [] && p == After(es[..|es| - 1]).phase && q == After(es).phase
    requires Earned(es[..|es| - 1], m, p.Rank())
    ensures Earned(es, n, q.Rank())
  {
    n := m;
    if q.Rank() >= 2 {
      var last := |es| - 1;
      assert es[..last + 1] == es;
      OneStepUp(After(es[..last]), es[last]);
      if p.Rank() < 2 {
        n := Marked(m, q, last);
        FirstMark(es, m);
      } else {
        EarnedBefore(es, m, p.Rank());
        if q.Rank() > p.Rank() {
          n := Marked(m, q, last);
          NewMark(es, m, p, q);
        }
      }
    }
  }

  lemma {:induction false} PhaseIsEarned(es: seq<Event>) returns (m: Marks)
    ensures Earned(es, m, After(es).phase.Rank())
  {
    if es == [] {
      m := Marks(0, 0, 0, 0);
    } else {
      var last := |es| - 1;
      m := PhaseIsEarned(es[..last]);
      m := MarksGrow(es, m, After(es[..last]).phase, After(es).phase);
    }
  }

  /**
    A recording session has behind it, since the last connect, WiFi stop or disconnect that took
    effect: the WiFi group, then an accepted config, then an overlay, then the start.
  */
  lemma RecordingIsEarned(es: seq<Event>)
    requires After(es).phase == Recording
    ensures exists m :: Earned(es, m, 5)
  {
    var m := PhaseIsEarned(es);
  }
}
