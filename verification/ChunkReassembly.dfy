/**
  Reassembly is confluent: whatever the order, the duplicates and the other traffic, a message
  comes out exactly when the last of its parts has been seen, and it is the message that was split.
*/
module ChunkReassembly {
  import opened Arithmetic
  import opened Sequences
  import opened Wrappers
  import opened ChunkFraming
  import opened ChunkAssembly

  ghost function StateAfter(s: State, cs: seq<Chunk>): (t: State)
    requires Valid(s)
    ensures Valid(t) && t.cfg == s.cfg
  {
    if cs == [] then s
    else
      var before := StateAfter(s, cs[..|cs| - 1]);
      OfferKeepsInvariant(before, cs[|cs| - 1]);
      Offer(before, cs[|cs| - 1]).0
  }

  ghost function ResultAt(s: State, cs: seq<Chunk>, k: nat): OfferResult
    requires Valid(s) && k < |cs|
  {
    Offer(StateAfter(s, cs[..k]), cs[k]).1
  }

  ghost function Indices(n: nat): (s: set<nat>)
    ensures forall i: nat :: i in s <==> i < n
  {
    if n == 0 then {} else Indices(n - 1) + {n - 1}
  }

  /** The indices of message `corr` offered so far. */
  ghost function Offered(cs: seq<Chunk>, corr: Id): set<nat> {
    set k | 0 <= k < |cs| && cs[k].corr == corr :: cs[k].index
  }

  /** One more chunk: a set of indices that becomes full starts a new round. */
  ghost function NextSeen(seen: set<nat>, c: Chunk, corr: Id, n: nat): set<nat> {
    if c.corr != corr then seen
    else if seen + {c.index} == Indices(n) then {}
    else seen + {c.index}
  }

  /** The indices of message `corr` offered since it was last complete. */
  ghost function Round(cs: seq<Chunk>, corr: Id, n: nat): set<nat> {
    if cs == [] then {} else NextSeen(Round(cs[..|cs| - 1], corr, n), cs[|cs| - 1], corr, n)
  }

  ghost predicate ClosesRound(cs: seq<Chunk>, corr: Id, n: nat, k: nat)
    requires k < |cs|
  {
    cs[k].corr == corr && Round(cs[..k], corr, n) + {cs[k].index} == Indices(n)
  }

  /** Offering `c` pushes the partial message `corr` out. */
  ghost predicate Evicts(s: State, c: Chunk, corr: Id)
    requires Valid(s)
  {
    WellFormed(s.cfg, c) && c.total > 1 && c.corr !in s.inbound
    && Surplus(s) <= |s.order| && corr in s.order[..Surplus(s)]
  }

  ghost predicate NeverEvicted(s: State, cs: seq<Chunk>, corr: Id)
    requires Valid(s)
  {
    forall k :: 0 <= k < |cs| ==> !Evicts(StateAfter(s, cs[..k]), cs[k], corr)
  }

  /** All chunks that carry this id are chunks of this payload. */
  ghost predicate OnlyChunksOf(cs: seq<Chunk>, corr: Id, data: Bytes, size: nat)
    requires size > 0
  {
    forall k :: 0 <= k < |cs| && cs[k].corr == corr ==> cs[k] in Split(corr, data, size)
  }

  /** An entry holds exactly the parts in `seen`, each the right slice of the payload. */
  ghost predicate Holds(e: Inbound, data: Bytes, size: nat, seen: set<nat>)
    requires size > 0
  {
    && e.total == |e.have| == |e.parts| == ChunkCount(|data|, size)
    && (forall i: nat :: i in seen ==> i < e.total)
    && (forall i: nat | i < e.total :: e.have[i] <==> i in seen)
    && (forall i: nat | i < e.total && e.have[i] :: e.parts[i] == Part(data, size, i))
  }

  /** The entry of `corr` holds exactly the parts in `seen`, each the right slice of the payload. */
  ghost predicate Tracks(s: State, corr: Id, data: Bytes, size: nat, seen: set<nat>)
    requires size > 0
  {
    if seen == {} then corr !in s.inbound
    else
      corr in s.inbound && Holds(s.inbound[corr], data, size, seen)
  }

  lemma OpeningLeavesOthers(s: State, c: Chunk, corr: Id)
    requires InboundOk(s.cfg, s.inbound, s.order)
    requires c.corr != corr
    requires c.corr !in s.inbound && Surplus(s) <= |s.order| ==> corr !in s.order[..Surplus(s)]
    ensures corr in Opened(s, c).inbound <==> corr in s.inbound
    ensures corr in s.inbound ==> Opened(s, c).inbound[corr] == s.inbound[corr]
  {
    if c.corr !in s.inbound {
      EvictRemovesOldest(s);
      assert s.order == s.order[..Surplus(s)] + s.order[Surplus(s)..];
    }
  }

  lemma OtherTrafficLeavesEntry(s: State, c: Chunk, corr: Id)
    requires Valid(s) && c.corr != corr && !Evicts(s, c, corr)
    ensures corr in Offer(s, c).0.inbound <==> corr in s.inbound
    ensures corr in s.inbound ==> Offer(s, c).0.inbound[corr] == s.inbound[corr]
  {
    if WellFormed(s.cfg, c) && c.total > 1 {
      OpeningLeavesOthers(s, c, corr);
    }
  }

  lemma FullMeansEveryPart(have: seq<bool>, seen: set<nat>)
    requires forall i: nat | i < |have| :: have[i] <==> i in seen
    requires forall i: nat :: i in seen ==> i < |have|
    ensures CountTrue(have) == |have| <==> seen == Indices(|have|)
  {
    CountBound(have);
  }

  lemma FillingHolds(e: Inbound, data: Bytes, size: nat, seen: set<nat>, index: nat)
    requires size > 0 && Holds(e, data, size, seen) && index < e.total && index !in seen
    ensures Holds(Filled(e, index, Part(data, size, index)), data, size, seen + {index})
  {
  }

  lemma FullEntryJoins(e: Inbound, data: Bytes, size: nat)
    requires size > 0 && Holds(e, data, size, Indices(e.total))
    ensures Concat(e.parts) == data
  {
    PartsJoinToPayload(data, size, e.parts);
  }

  /** Storing a part in an entry that tracks `seen`. */
  lemma StoringTracks(s: State, c: Chunk, data: Bytes, size: nat, seen: set<nat>)
    requires size > 0 && c in Split(c.corr, data, size)
    requires c.corr in s.inbound && EntryOk(s.inbound[c.corr], s.cfg)
    requires Holds(s.inbound[c.corr], data, size, seen)
    ensures var closes := c.index !in seen && seen + {c.index} == Indices(c.total);
            && Stored(s, c).1 == OfferResult(true, if closes then Some(data) else None)
            && Tracks(Stored(s, c).0, c.corr, data, size, if closes then {} else seen + {c.index})
  {
    var e := s.inbound[c.corr];
    if c.index in seen {
      assert seen + {c.index} == seen;
    } else {
      var f := Filled(e, c.index, c.data);
      CountAfterSet(e.have, c.index);
      FillingHolds(e, data, size, seen, c.index);
      FullMeansEveryPart(f.have, seen + {c.index});
      if f.received == f.total {
        FullEntryJoins(f, data, size);
      }
    }
  }

  lemma PartArrives(s: State, c: Chunk, data: Bytes, size: nat, seen: set<nat>)
    requires Valid(s) && size > 0 && c in Split(c.corr, data, size)
    requires 2 <= c.total <= s.cfg.maxTotalChunks
    requires Tracks(s, c.corr, data, size, seen)
    ensures var closes := c.index !in seen && seen + {c.index} == Indices(c.total);
            && Offer(s, c).1 == OfferResult(true, if closes then Some(data) else None)
            && Tracks(Offer(s, c).0, c.corr, data, size, if closes then {} else seen + {c.index})
  {
    OpenedIsValid(s, c);
    var t := Opened(s, c);
    assert EntryOk(t.inbound[c.corr], t.cfg);
    assert Holds(t.inbound[c.corr], data, size, seen);
    StoringTracks(t, c, data, size, seen);
  }

  lemma ResultOfPart(s: State, c: Chunk, data: Bytes, size: nat, seen: set<nat>)
    requires Valid(s) && size > 0 && c in Split(c.corr, data, size)
    requires 2 <= c.total <= s.cfg.maxTotalChunks
    requires Tracks(s, c.corr, data, size, seen) && seen != Indices(c.total)
    ensures Offer(s, c).1 == OfferResult(true, if seen + {c.index} == Indices(c.total) then Some(data) else None)
  {
    PartArrives(s, c, data, size, seen);
    assert c.index in seen ==> seen + {c.index} == seen;
  }

  lemma {:induction false} RoundIsNeverFull(cs: seq<Chunk>, corr: Id, n: nat)
    requires n > 0
    ensures Round(cs, corr, n) != Indices(n)
  {
    assert 0 in Indices(n);
    if cs == [] {
    } else {
      RoundIsNeverFull(cs[..|cs| - 1], corr, n);
    }
  }

  lemma PrefixHypotheses(s: State, cs: seq<Chunk>, corr: Id, data: Bytes, size: nat, k: nat)
    requires Valid(s) && size > 0 && k <= |cs|
    requires OnlyChunksOf(cs, corr, data, size) && NeverEvicted(s, cs, corr)
    ensures OnlyChunksOf(cs[..k], corr, data, size) && NeverEvicted(s, cs[..k], corr)
  {
    forall j | 0 <= j < k
      ensures cs[..k][..j] == cs[..j]
    {
    }
  }

  lemma ChunkMovesRound(s: State, c: Chunk, corr: Id, data: Bytes, size: nat, seen: set<nat>)
    requires Valid(s) && size > 0
    requires 2 <= ChunkCount(|data|, size) <= s.cfg.maxTotalChunks
    requires c.corr == corr ==> c in Split(corr, data, size)
    requires !Evicts(s, c, corr)
    requires Tracks(s, corr, data, size, seen) && seen != Indices(ChunkCount(|data|, size))
    ensures Tracks(Offer(s, c).0, corr, data, size, NextSeen(seen, c, corr, ChunkCount(|data|, size)))
  {
    if c.corr == corr {
      PartArrives(s, c, data, size, seen);
      assert c.index in seen ==> seen + {c.index} == seen;
    } else {
      OtherTrafficLeavesEntry(s, c, corr);
    }
  }

  lemma {:induction false} EntryTracksRound(s: State, cs: seq<Chunk>, corr: Id, data: Bytes, size: nat)
    requires Valid(s) && corr !in s.inbound && size > 0
    requires 2 <= ChunkCount(|data|, size) <= s.cfg.maxTotalChunks
    requires OnlyChunksOf(cs, corr, data, size) && NeverEvicted(s, cs, corr)
    ensures Tracks(StateAfter(s, cs), corr, data, size, Round(cs, corr, ChunkCount(|data|, size)))
  {
    if cs == [] {
    } else {
      var n, m := ChunkCount(|data|, size), |cs| - 1;
      PrefixHypotheses(s, cs, corr, data, size, m);
      EntryTracksRound(s, cs[..m], corr, data, size);
      RoundIsNeverFull(cs[..m], corr, n);
      ChunkMovesRound(StateAfter(s, cs[..m]), cs[m], corr, data, size, Round(cs[..m], corr, n));
    }
  }

  /**
    Confluence. Whatever is offered around them, every chunk of the message is accepted, and
    the message comes out, whole, exactly on the chunks that close a round of its indices.
  */
  lemma Confluence(s: State, cs: seq<Chunk>, corr: Id, data: Bytes, size: nat, k: nat)
    requires Valid(s) && corr !in s.inbound && size > 0
    requires 2 <= ChunkCount(|data|, size) <= s.cfg.maxTotalChunks
    requires OnlyChunksOf(cs, corr, data, size) && NeverEvicted(s, cs, corr)
    requires k < |cs| && cs[k].corr == corr
    ensures ResultAt(s, cs, k)
         == OfferResult(true, if ClosesRound(cs, corr, ChunkCount(|data|, size), k) then Some(data) else None)
  {
    var n := ChunkCount(|data|, size);
    PrefixHypotheses(s, cs, corr, data, size, k);
    EntryTracksRound(s, cs[..k], corr, data, size);
    RoundIsNeverFull(cs[..k], corr, n);
    ResultOfPart(StateAfter(s, cs[..k]), cs[k], data, size, Round(cs[..k], corr, n));
  }

  lemma {:induction false} FirstRoundIsOffered(cs: seq<Chunk>, corr: Id, n: nat)
    requires Offered(cs, corr) < Indices(n)
    ensures Round(cs, corr, n) == Offered(cs, corr)
  {
    if cs == [] {
    } else {
      var m := |cs| - 1;
      var prefix := cs[..m];
      assert Offered(cs, corr) == Offered(prefix, corr) + (if cs[m].corr == corr then {cs[m].index} else {}) by {
        assert forall x :: x in Offered(prefix, corr) ==> x in Offered(cs, corr);
        assert cs == prefix + [cs[m]];
      }
      FirstRoundIsOffered(prefix, corr, n);
    }
  }

  lemma OfferedAfterOneMore(cs: seq<Chunk>, corr: Id, k: nat)
    requires k < |cs|
    ensures Offered(cs[..k + 1], corr) == Offered(cs[..k], corr) + (if cs[k].corr == corr then {cs[k].index} else {})
  {
    assert cs[..k + 1] == cs[..k] + [cs[k]];
    assert forall x :: x in Offered(cs[..k], corr) ==> x in Offered(cs[..k + 1], corr);
  }

  lemma OfferedAreIndices(cs: seq<Chunk>, corr: Id, data: Bytes, size: nat)
    requires size > 0 && OnlyChunksOf(cs, corr, data, size)
    ensures Offered(cs, corr) <= Indices(ChunkCount(|data|, size))
  {
  }

  /**
    The first delivery: as long as an index is missing nothing comes out, and the chunk that
    brings the last missing index brings out the original payload.
  */
  lemma DeliveredAtFirstFullMoment(s: State, cs: seq<Chunk>, corr: Id, data: Bytes, size: nat, k: nat)
    requires Valid(s) && corr !in s.inbound && size > 0
    requires 2 <= ChunkCount(|data|, size) <= s.cfg.maxTotalChunks
    requires OnlyChunksOf(cs, corr, data, size) && NeverEvicted(s, cs, corr)
    requires k < |cs| && cs[k].corr == corr
    requires Offered(cs[..k], corr) != Indices(ChunkCount(|data|, size))
    ensures ResultAt(s, cs, k).payload
         == if Offered(cs[..k + 1], corr) == Indices(ChunkCount(|data|, size)) then Some(data) else None
  {
    Confluence(s, cs, corr, data, size, k);
    OfferedAreIndices(cs[..k], corr, data, size);
    FirstRoundIsOffered(cs[..k], corr, ChunkCount(|data|, size));
    OfferedAfterOneMore(cs, corr, k);
  }

  lemma {:induction false} FirstFullMoment(cs: seq<Chunk>, corr: Id, n: nat) returns (k: nat)
    requires n > 0 && Offered(cs, corr) == Indices(n)
    ensures k < |cs| && cs[k].corr == corr
    ensures Offered(cs[..k], corr) != Indices(n) && Offered(cs[..k + 1], corr) == Indices(n)
  {
    assert 0 in Indices(n);
    var m := |cs| - 1;
    var prefix := cs[..m];
    assert cs[..m + 1] == cs;
    OfferedAfterOneMore(cs, corr, m);
    if Offered(prefix, corr) == Indices(n) {
      k := FirstFullMoment(prefix, corr, n);
      assert prefix[..k] == cs[..k] && prefix[..k + 1] == cs[..k + 1];
    } else {
      k := m;
    }
  }

  /** Once every index has been offered, in whatever order, the payload has come out. */
  lemma FullOfferDelivers(s: State, cs: seq<Chunk>, corr: Id, data: Bytes, size: nat) returns (k: nat)
    requires Valid(s) && corr !in s.inbound && size > 0
    requires 2 <= ChunkCount(|data|, size) <= s.cfg.maxTotalChunks
    requires OnlyChunksOf(cs, corr, data, size) && NeverEvicted(s, cs, corr)
    requires Offered(cs, corr) == Indices(ChunkCount(|data|, size))
    ensures k < |cs| && ResultAt(s, cs, k).payload == Some(data)
  {
    k := FirstFullMoment(cs, corr, ChunkCount(|data|, size));
    DeliveredAtFirstFullMoment(s, cs, corr, data, size, k);
  }

  ghost function Ids(cs: seq<Chunk>): set<Id> {
    set k | 0 <= k < |cs| :: cs[k].corr
  }

  lemma OpeningAddsOneId(s: State, c: Chunk)
    requires InboundOk(s.cfg, s.inbound, s.order)
    ensures Opened(s, c).inbound.Keys <= s.inbound.Keys + {c.corr}
  {
    EvictRemovesOldest(s);
  }

  lemma OfferAddsOneId(s: State, c: Chunk)
    requires Valid(s)
    ensures Offer(s, c).0.inbound.Keys <= s.inbound.Keys + {c.corr}
  {
    if WellFormed(s.cfg, c) && c.total > 1 {
      OpeningAddsOneId(s, c);
      OpenedIsValid(s, c);
    }
  }

  lemma {:induction false} InflightIdsWereOffered(s: State, cs: seq<Chunk>)
    requires Valid(s)
    ensures StateAfter(s, cs).inbound.Keys <= s.inbound.Keys + Ids(cs)
  {
    if cs == [] {
    } else {
      var m := |cs| - 1;
      InflightIdsWereOffered(s, cs[..m]);
      assert Ids(cs[..m]) <= Ids(cs);
      assert cs[m].corr in Ids(cs);
      OfferAddsOneId(StateAfter(s, cs[..m]), cs[m]);
    }
  }

  lemma {:induction false} SubsetIsNoLarger<T>(a: set<T>, b: set<T>)
    requires a <= b
    ensures |a| <= |b|
  {
    if a == {} {
    } else {
      var x :| x in a;
      SubsetIsNoLarger(a - {x}, b - {x});
    }
  }

  lemma RoomMeansNoEviction(t: State, c: Chunk, corr: Id, ids: set<Id>)
    requires Valid(t) && t.inbound.Keys <= ids && c.corr in ids && |ids| <= t.cfg.Capacity()
    ensures !Evicts(t, c, corr)
  {
    InflightIsOrderLength(t);
    if c.corr !in t.inbound {
      SubsetIsNoLarger(t.inbound.Keys + {c.corr}, ids);
    }
  }

  /** With no more distinct ids than the cap, nothing is ever evicted. */
  lemma NoEvictionWithinCapacity(s: State, cs: seq<Chunk>, corr: Id)
    requires Valid(s)
    requires |s.inbound.Keys + Ids(cs)| <= s.cfg.Capacity()
    ensures NeverEvicted(s, cs, corr)
  {
    forall k | 0 <= k < |cs|
      ensures !Evicts(StateAfter(s, cs[..k]), cs[k], corr)
    {
      InflightIdsWereOffered(s, cs[..k]);
      assert cs[k].corr in Ids(cs) && Ids(cs[..k]) <= Ids(cs);
      RoomMeansNoEviction(StateAfter(s, cs[..k]), cs[k], corr, s.inbound.Keys + Ids(cs));
    }
  }

  lemma NewIdArrives(s: State, c: Chunk)
    requires Valid(s) && WellFormed(s.cfg, c) && c.total > 1 && c.corr !in s.inbound
    ensures Surplus(s) <= 1 && Surplus(s) <= |s.order|
    ensures Offer(s, c).0.order == s.order[Surplus(s)..] + [c.corr]
  {
    OpenedIsValid(s, c);
    EvictRemovesOldest(s);
    FreshHasNothing(c.total);
    CountAfterSet(Fresh(c.total).have, c.index);
  }

  /** One id leaves the list, and the others keep their order. */
  ghost predicate IsCut(before: seq<Id>, after: seq<Id>, id: Id) {
    exists k: nat :: k < |before| && before[k] == id && after == before[..k] + before[k + 1..]
  }

  lemma KnownIdStaysOrLeaves(s: State, c: Chunk)
    requires Valid(s) && WellFormed(s.cfg, c) && c.total > 1 && c.corr in s.inbound
    ensures var t := Offer(s, c).0;
            t.order == s.order || (Offer(s, c).1.payload.Some? && IsCut(s.order, t.order, c.corr))
  {
    OpenedIsValid(s, c);
    var k := WithoutIsCut(s.order, c.corr);
    assert IsCut(s.order, Without(s.order, c.corr), c.corr);
  }

  /**
    The arrival list changes in one of three ways: not at all, by dropping the oldest ids and
    appending the new one, or by dropping the id of the message that just came out.
  */
  lemma ArrivalOrder(s: State, c: Chunk)
    requires Valid(s)
    ensures var t := Offer(s, c).0;
            || t.order == s.order
            || (c.corr !in s.inbound && Surplus(s) <= 1 && Surplus(s) <= |s.order| && t.order == s.order[Surplus(s)..] + [c.corr])
            || (Offer(s, c).1.payload.Some? && IsCut(s.order, t.order, c.corr))
  {
    if WellFormed(s.cfg, c) && c.total > 1 {
      if c.corr in s.inbound {
        KnownIdStaysOrLeaves(s, c);
      } else {
        NewIdArrives(s, c);
      }
    }
  }

  /** A part that is already there is accepted and ignored, whatever data it carries this time. */
  lemma DuplicateIsIgnored(s: State, c: Chunk)
    requires Valid(s) && WellFormed(s.cfg, c) && c.corr in s.inbound && s.inbound[c.corr].total == c.total
    requires s.inbound[c.corr].have[c.index]
    ensures Offer(s, c) == (s, OfferResult(true, None))
  {
  }

  /** A changed total throws the collected parts away: only the new chunk is held afterwards. */
  lemma ChangedTotalRestarts(s: State, c: Chunk)
    requires Valid(s) && WellFormed(s.cfg, c) && c.total > 1
    requires c.corr in s.inbound && s.inbound[c.corr].total != c.total
    ensures Offer(s, c).1 == PENDING && Offer(s, c).0.order == s.order
    ensures c.corr in Offer(s, c).0.inbound
    ensures var e := Offer(s, c).0.inbound[c.corr];
            && e.total == c.total && e.received == 1 && e.parts[c.index] == c.data
            && forall i :: 0 <= i < c.total ==> (e.have[i] <==> i == c.index)
  {
    OpenedIsValid(s, c);
    OfferKeepsInvariant(s, c);
    FreshHasNothing(c.total);
    CountAfterSet(Fresh(c.total).have, c.index);
  }

  lemma {:induction false} StateAfterBoth(s: State, a: seq<Chunk>, b: seq<Chunk>)
    requires Valid(s)
    ensures StateAfter(s, a + b) == StateAfter(StateAfter(s, a), b)
  {
    if b == [] {
      assert a + b == a;
    } else {
      var m := |b| - 1;
      StateAfterBoth(s, a, b[..m]);
      assert (a + b)[..|a + b| - 1] == a + b[..m];
    }
  }

  lemma ResultBehind(s: State, a: seq<Chunk>, b: seq<Chunk>, k: nat)
    requires Valid(s) && k < |b|
    ensures ResultAt(s, a + b, |a| + k) == ResultAt(StateAfter(s, a), b, k)
    ensures StateAfter(s, (a + b)[..|a| + k]) == StateAfter(StateAfter(s, a), b[..k])
  {
    assert (a + b)[..|a| + k] == a + b[..k];
    StateAfterBoth(s, a, b[..k]);
  }

  /** What follows `a` keeps the hypotheses of confluence. */
  lemma LaterHypotheses(s: State, a: seq<Chunk>, b: seq<Chunk>, corr: Id, data: Bytes, size: nat)
    requires Valid(s) && size > 0
    requires OnlyChunksOf(a + b, corr, data, size) && NeverEvicted(s, a + b, corr)
    ensures OnlyChunksOf(b, corr, data, size) && NeverEvicted(StateAfter(s, a), b, corr)
  {
    forall k | 0 <= k < |b|
      ensures b[k].corr == corr ==> b[k] in Split(corr, data, size)
      ensures !Evicts(StateAfter(StateAfter(s, a), b[..k]), b[k], corr)
    {
      assert (a + b)[|a| + k] == b[k];
      ResultBehind(s, a, b, k);
    }
  }

  lemma NothingPending(s: State, a: seq<Chunk>, b: seq<Chunk>, corr: Id, data: Bytes, size: nat)
    requires Valid(s) && corr !in s.inbound && size > 0
    requires 2 <= ChunkCount(|data|, size) <= s.cfg.maxTotalChunks
    requires OnlyChunksOf(a + b, corr, data, size) && NeverEvicted(s, a + b, corr)
    requires Round(a, corr, ChunkCount(|data|, size)) == {}
    ensures corr !in StateAfter(s, a).inbound
  {
    PrefixHypotheses(s, a + b, corr, data, size, |a|);
    assert (a + b)[..|a|] == a;
    EntryTracksRound(s, a, corr, data, size);
  }

  lemma DeliversFromHere(s: State, a: seq<Chunk>, b: seq<Chunk>, corr: Id, data: Bytes, size: nat) returns (j: nat)
    requires Valid(s) && corr !in s.inbound && size > 0
    requires 2 <= ChunkCount(|data|, size) <= s.cfg.maxTotalChunks
    requires OnlyChunksOf(a + b, corr, data, size) && NeverEvicted(s, a + b, corr)
    requires Round(a, corr, ChunkCount(|data|, size)) == {}
    requires Offered(b, corr) == Indices(ChunkCount(|data|, size))
    ensures j < |b| && ResultAt(StateAfter(s, a), b, j).payload == Some(data)
  {
    NothingPending(s, a, b, corr, data, size);
    LaterHypotheses(s, a, b, corr, data, size);
    j := FullOfferDelivers(StateAfter(s, a), b, corr, data, size);
  }

  /**
    Delivery is not exactly once. Whenever no part of the message is pending, as right after a
    delivery, offering all its indices again, in any order and among any traffic, delivers it again.
  */
  lemma OfferingAllAgainDeliversAgain(s: State, a: seq<Chunk>, b: seq<Chunk>, corr: Id, data: Bytes, size: nat)
    returns (j: nat)
    requires Valid(s) && corr !in s.inbound && size > 0
    requires 2 <= ChunkCount(|data|, size) <= s.cfg.maxTotalChunks
    requires OnlyChunksOf(a + b, corr, data, size) && NeverEvicted(s, a + b, corr)
    requires Round(a, corr, ChunkCount(|data|, size)) == {}
    requires Offered(b, corr) == Indices(ChunkCount(|data|, size))
    ensures j < |b| && ResultAt(s, a + b, |a| + j).payload == Some(data)
  {
    j := DeliversFromHere(s, a, b, corr, data, size);
    ResultBehind(s, a, b, j);
  }

  lemma NextResidue(j: nat, n: nat)
    requires n >= 2
    ensures (j + 1) % n == if j % n + 1 == n then 0 else j % n + 1
  {
    var q, r := j / n, j % n;
    if r + 1 == n {
      assert (q + 1) * n == q * n + n;
      QuotientOf(j + 1, n, q + 1, 0);
    } else {
      QuotientOf(j + 1, n, q, r + 1);
    }
  }

  lemma {:induction false} RoundsInOrder(cs: seq<Chunk>, corr: Id, n: nat, j: nat)
    requires n >= 2 && j <= |cs|
    requires forall k :: 0 <= k < |cs| ==> cs[k].corr == corr && cs[k].index == k % n
    ensures Round(cs[..j], corr, n) == Indices(j % n)
  {
    if j == 0 {
      assert cs[..0] == [];
    } else {
      RoundsInOrder(cs, corr, n, j - 1);
      assert cs[..j][..j - 1] == cs[..j - 1];
      var r := (j - 1) % n;
      assert Indices(r) + {r} == Indices(r + 1);
      NextResidue(j - 1, n);
      assert r + 1 < n ==> r + 1 !in Indices(r + 1) && r + 1 in Indices(n);
    }
  }

  /**
    When all chunks of a message are offered in order again and again, the same payload comes out
    at the end of every full pass, and nowhere else.
  */
  lemma EveryFullPassDeliversAgain(s: State, cs: seq<Chunk>, corr: Id, data: Bytes, size: nat, k: nat)
    requires Valid(s) && corr !in s.inbound && size > 0
    requires 2 <= ChunkCount(|data|, size) <= s.cfg.maxTotalChunks
    requires NeverEvicted(s, cs, corr) && k < |cs|
    requires forall j :: 0 <= j < |cs| ==> cs[j] == Split(corr, data, size)[j % ChunkCount(|data|, size)]
    ensures ResultAt(s, cs, k).payload
         == if k % ChunkCount(|data|, size) == ChunkCount(|data|, size) - 1 then Some(data) else None
  {
    var n := ChunkCount(|data|, size);
    Confluence(s, cs, corr, data, size, k);
    RoundsInOrder(cs, corr, n, k);
    var r := k % n;
    assert Indices(r) + {r} == Indices(r + 1);
    assert r + 1 < n ==> r + 1 !in Indices(r + 1) && r + 1 in Indices(n);
  }
}
