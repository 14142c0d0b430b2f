/**
  Stop-and-wait sending, over every run. The reference is `Progress`: how many acks of one
  transfer have come in the order 0, 1, 2, ... All other calls on the assembler are noise.
*/
module ChunkOutbound {
  import opened Arithmetic
  import opened Wrappers
  import opened ChunkFraming
  import opened ChunkAssembly

  datatype Event =
    | Acked(corr: Id, index: nat)
    | Started(corr: Id, data: Bytes)
    | Received(chunk: Chunk)
    | Reset

  datatype Outcome = Outcome(state: State, emitted: seq<Chunk>, complete: bool)

  ghost function Step(s: State, e: Event): (o: Outcome)
    requires Valid(s)
    ensures Valid(o.state) && o.state.cfg == s.cfg
  {
    match e
    case Acked(corr, index) =>
      AckKeepsInvariant(s, corr, index);
      var (t, emitted, complete) := AckStep(s, corr, index);
      Outcome(t, emitted, complete)
    case Started(corr, data) =>
      BeginKeepsInvariant(s, corr, data, true);
      var (t, emitted) := Begin(s, corr, data, true);
      Outcome(t, emitted, false)
    case Received(chunk) =>
      OfferKeepsInvariant(s, chunk);
      Outcome(Offer(s, chunk).0, [], false)
    case Reset => Outcome(Cleared(s), [], false)
  }

  ghost function After(s: State, es: seq<Event>): (t: State)
    requires Valid(s)
    ensures Valid(t) && t.cfg == s.cfg
  {
    if es == [] then s else Step(After(s, es[..|es| - 1]), es[|es| - 1]).state
  }

  /** An effective ack: it acks the chunk that is waiting for one. */
  ghost predicate Effective(e: Event, corr: Id, p: nat, n: nat) {
    e.Acked? && e.corr == corr && e.index == p && p < n
  }

  /** No reset has happened, so the transfer has not been cut off. */
  ghost predicate Open(es: seq<Event>) {
    forall k :: 0 <= k < |es| ==> !es[k].Reset?
  }

  ghost function Progress(es: seq<Event>, corr: Id, n: nat): (p: nat)
    ensures p <= n
  {
    if es == [] then 0
    else
      var before := es[..|es| - 1];
      var p := Progress(before, corr, n);
      if Open(before) && Effective(es[|es| - 1], corr, p, n) then p + 1 else p
  }

  /** The chunks of `corr` sent while the events happen. */
  ghost function SentDuring(s: State, es: seq<Event>, corr: Id): seq<Chunk>
    requires Valid(s)
  {
    if es == [] then []
    else
      var m := |es| - 1;
      SentDuring(s, es[..m], corr)
      + (if es[m].Acked? && es[m].corr == corr then Step(After(s, es[..m]), es[m]).emitted else [])
  }

  ghost predicate NotRestarted(es: seq<Event>, corr: Id) {
    forall k :: 0 <= k < |es| && es[k].Started? ==> es[k].corr != corr
  }

  /** The transfer of `chunks` has been acked up to `p`; complete or cut off, it is forgotten. */
  ghost predicate At(s: State, corr: Id, chunks: seq<Chunk>, p: nat, open: bool) {
    if open && p < |chunks| then corr in s.outbound && s.outbound[corr] == Outbound(chunks, p + 1, true)
    else corr !in s.outbound
  }

  lemma EventMovesTransfer(s: State, e: Event, corr: Id, chunks: seq<Chunk>, p: nat, open: bool)
    requires Valid(s) && At(s, corr, chunks, p, open)
    requires e.Started? ==> e.corr != corr
    ensures var moves := open && Effective(e, corr, p, |chunks|);
            && At(Step(s, e).state, corr, chunks, if moves then p + 1 else p, open && !e.Reset?)
            && (e.Acked? && e.corr == corr ==>
                  && Step(s, e).emitted == (if moves && p + 1 < |chunks| then [chunks[p + 1]] else [])
                  && (Step(s, e).complete <==> moves && p + 1 == |chunks|))
  {
    if e.Received? {
      OfferKeepsInvariant(s, e.chunk);
    }
  }

  ghost function SentSoFar(chunks: seq<Chunk>, p: nat): seq<Chunk>
    requires |chunks| > 1
  {
    chunks[1..Min(p + 1, |chunks|)]
  }

  lemma OneMoreSent(s: State, e: Event, corr: Id, chunks: seq<Chunk>, p: nat, open: bool)
    requires Valid(s) && At(s, corr, chunks, p, open) && |chunks| > 1
    requires e.Started? ==> e.corr != corr
    ensures SentSoFar(chunks, p) + (if e.Acked? && e.corr == corr then Step(s, e).emitted else [])
         == SentSoFar(chunks, if open && Effective(e, corr, p, |chunks|) then p + 1 else p)
  {
    EventMovesTransfer(s, e, corr, chunks, p, open);
  }

  lemma OpenUpToLast(es: seq<Event>)
    requires es != []
    ensures Open(es) <==> Open(es[..|es| - 1]) && !es[|es| - 1].Reset?
  {
  }

  lemma {:induction false} TransferPosition(s: State, es: seq<Event>, corr: Id, chunks: seq<Chunk>)
    requires Valid(s) && NotRestarted(es, corr)
    requires At(s, corr, chunks, 0, true)
    ensures At(After(s, es), corr, chunks, Progress(es, corr, |chunks|), Open(es))
  {
    if es == [] {
    } else {
      var m := |es| - 1;
      TransferPosition(s, es[..m], corr, chunks);
      EventMovesTransfer(After(s, es[..m]), es[m], corr, chunks, Progress(es[..m], corr, |chunks|), Open(es[..m]));
      OpenUpToLast(es);
    }
  }

  lemma {:induction false} TransferContinues(s: State, es: seq<Event>, corr: Id, chunks: seq<Chunk>)
    requires Valid(s) && NotRestarted(es, corr)
    requires |chunks| > 1 && At(s, corr, chunks, 0, true)
    ensures SentDuring(s, es, corr) == SentSoFar(chunks, Progress(es, corr, |chunks|))
  {
    if es == [] {
    } else {
      var m := |es| - 1;
      TransferContinues(s, es[..m], corr, chunks);
      TransferPosition(s, es[..m], corr, chunks);
      OneMoreSent(After(s, es[..m]), es[m], corr, chunks, Progress(es[..m], corr, |chunks|), Open(es[..m]));
    }
  }

  lemma TransferStarts(s: State, corr: Id, data: Bytes)
    requires Valid(s) && ChunkCount(|data|, s.cfg.ChunkSize()) > 1
    ensures var chunks, start := Split(corr, data, s.cfg.ChunkSize()), Begin(s, corr, data, true);
            Valid(start.0) && At(start.0, corr, chunks, 0, true) && start.1 == [chunks[0]]
  {
    BeginKeepsInvariant(s, corr, data, true);
  }

  lemma FirstAndRest(chunks: seq<Chunk>, p: nat)
    requires |chunks| > 1
    ensures [chunks[0]] + SentSoFar(chunks, p) == chunks[..Min(p + 1, |chunks|)]
  {
  }

  /**
    Stop and wait. However stale, duplicated or foreign the acks are: what has been sent of the
    transfer is exactly its first `Progress + 1` chunks, in order, so at most one is unacked.
    A reset cuts the transfer off for good.
  */
  lemma StopAndWait(s: State, es: seq<Event>, corr: Id, data: Bytes)
    requires Valid(s) && NotRestarted(es, corr)
    requires ChunkCount(|data|, s.cfg.ChunkSize()) > 1
    ensures var chunks, start := Split(corr, data, s.cfg.ChunkSize()), Begin(s, corr, data, true);
            var p := Progress(es, corr, |chunks|);
            && Valid(start.0)
            && At(After(start.0, es), corr, chunks, p, Open(es))
            && start.1 + SentDuring(start.0, es, corr) == chunks[..Min(p + 1, |chunks|)]
  {
    var chunks := Split(corr, data, s.cfg.ChunkSize());
    var start := Begin(s, corr, data, true).0;
    TransferStarts(s, corr, data);
    TransferPosition(start, es, corr, chunks);
    TransferContinues(start, es, corr, chunks);
    FirstAndRest(chunks, Progress(es, corr, |chunks|));
  }

  /**
    Completion. An ack reports the transfer complete exactly when it is the last effective ack
    of a transfer that was not cut off;
    before it every chunk was sent and acked, and after it the transfer is forgotten.
  */
  lemma CompleteOnLastAck(s: State, es: seq<Event>, corr: Id, data: Bytes, index: nat)
    requires Valid(s) && NotRestarted(es, corr)
    requires ChunkCount(|data|, s.cfg.ChunkSize()) > 1
    ensures var n, start := ChunkCount(|data|, s.cfg.ChunkSize()), Begin(s, corr, data, true).0;
            && Valid(start)
            && (Step(After(start, es), Acked(corr, index)).complete
                <==> Open(es) && Progress(es, corr, n) == n - 1 && index == n - 1)
            && (Step(After(start, es), Acked(corr, index)).complete ==>
                  corr !in Step(After(start, es), Acked(corr, index)).state.outbound)
  {
    var chunks, start := Split(corr, data, s.cfg.ChunkSize()), Begin(s, corr, data, true).0;
    StopAndWait(s, es, corr, data);
    EventMovesTransfer(After(start, es), Acked(corr, index), corr, chunks, Progress(es, corr, |chunks|), Open(es));
  }

  /** Event `k` is an effective ack of a transfer that is still open. */
  ghost predicate Counts(es: seq<Event>, k: nat, corr: Id, n: nat)
    requires k < |es|
  {
    Open(es[..k]) && Effective(es[k], corr, Progress(es[..k], corr, n), n)
  }

  ghost function EffectiveAcks(es: seq<Event>, corr: Id, n: nat): set<nat> {
    set k: nat | k < |es| && Counts(es, k, corr, n)
  }

  /** The measure: `Progress` is the number of effective acks, so `n` of them finish a transfer. */
  lemma {:induction false} ProgressCountsEffectiveAcks(es: seq<Event>, corr: Id, n: nat)
    ensures Progress(es, corr, n) == |EffectiveAcks(es, corr, n)|
  {
    if es == [] {
    } else {
      var m := |es| - 1;
      ProgressCountsEffectiveAcks(es[..m], corr, n);
      EffectiveAcksGrow(es, corr, n);
    }
  }

  lemma EffectiveAcksGrow(es: seq<Event>, corr: Id, n: nat)
    requires es != []
    ensures EffectiveAcks(es, corr, n) == EffectiveAcks(es[..|es| - 1], corr, n)
              + (if Counts(es, |es| - 1, corr, n) then {|es| - 1} else {})
  {
    var m := |es| - 1;
    forall k: nat | k < m
      ensures Counts(es[..m], k, corr, n) == Counts(es, k, corr, n)
    {
      assert es[..m][..k] == es[..k];
    }
  }
}
