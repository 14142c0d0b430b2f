/**
  Reassembly of inbound chunks and ack-gated sending of outbound chunks. The class
  updates its three containers in place; `State` and the functions on it say what each
  call does, and the other chunk modules prove the protocol on those functions.
*/
module ChunkAssembly {
  import opened Arithmetic
  import opened Wrappers
  import opened Sequences
  import opened ChunkFraming

  datatype Inbound = Inbound(total: nat, received: nat, parts: seq<Bytes>, have: seq<bool>)

  /** `next` is the index of the next chunk that was not sent yet. */
  datatype Outbound = Outbound(chunks: seq<Chunk>, next: nat, hasSend: bool)

  datatype OfferResult = OfferResult(accepted: bool, payload: Option<Bytes>)

  datatype State = State(cfg: Config, inbound: map<Id, Inbound>, order: seq<Id>, outbound: map<Id, Outbound>)

  const REJECTED := OfferResult(false, None)
  const PENDING := OfferResult(true, None)

  // ---------- The invariant of the three containers ----------

  function CountTrue(have: seq<bool>): nat {
    if have == [] then 0 else CountTrue(have[..|have| - 1]) + (if have[|have| - 1] then 1 else 0)
  }

  ghost predicate EntryOk(e: Inbound, cfg: Config) {
    && 2 <= e.total <= cfg.maxTotalChunks
    && |e.parts| == |e.have| == e.total
    && e.received == CountTrue(e.have)
    && e.received < e.total
  }

  ghost predicate TransferOk(corr: Id, o: Outbound) {
    && |o.chunks| >= 2
    && 1 <= o.next <= |o.chunks|
    && forall i :: 0 <= i < |o.chunks| ==>
         o.chunks[i].corr == corr && o.chunks[i].index == i && o.chunks[i].total == |o.chunks|
  }

  ghost predicate InboundOk(cfg: Config, inbound: map<Id, Inbound>, order: seq<Id>) {
    && NoDuplicates(order)
    && (forall id :: id in order <==> id in inbound)
    && |order| <= cfg.Capacity()
    && forall id :: id in inbound ==> EntryOk(inbound[id], cfg)
  }

  ghost predicate Valid(s: State) {
    && InboundOk(s.cfg, s.inbound, s.order)
    && forall id :: id in s.outbound ==> TransferOk(id, s.outbound[id])
  }

  // ---------- Inbound: what one call does ----------

  function Fresh(total: nat): Inbound {
    Inbound(total, 0, seq(total, _ => []), seq(total, _ => false))
  }

  function WithoutOldest(s: State): State
    requires s.order != []
  {
    s.(inbound := s.inbound - {s.order[0]}, order := s.order[1..])
  }

  /** Drops the oldest entries until there is room for one more. */
  function Evict(s: State): State
    decreases |s.order|
  {
    if |s.inbound| >= s.cfg.maxInflightInbound && s.order != [] then
      Evict(WithoutOldest(s))
    else s
  }

  function WellFormed(cfg: Config, c: Chunk): bool {
    c.total != 0 && c.total <= cfg.maxTotalChunks && c.index < c.total
  }

  /** The state in which the entry of the chunk's message exists with the chunk's total. */
  function Opened(s: State, c: Chunk): State {
    if c.corr !in s.inbound then
      var e := Evict(s);
      e.(inbound := e.inbound[c.corr := Fresh(c.total)], order := e.order + [c.corr])
    else if s.inbound[c.corr].total != c.total then
      s.(inbound := s.inbound[c.corr := Fresh(c.total)])
    else s
  }

  function Filled(e: Inbound, index: nat, data: Bytes): Inbound
    requires index < |e.have| == |e.parts|
  {
    e.(parts := e.parts[index := data], have := e.have[index := true], received := e.received + 1)
  }

  function Without(order: seq<Id>, id: Id): seq<Id> {
    if order == [] then []
    else (if order[0] == id then [] else [order[0]]) + Without(order[1..], id)
  }

  function Stored(s: State, c: Chunk): (State, OfferResult)
    requires c.corr in s.inbound
    requires c.index < |s.inbound[c.corr].have| == |s.inbound[c.corr].parts|
  {
    var e := s.inbound[c.corr];
    if e.have[c.index] then (s, PENDING)
    else
      var f := Filled(e, c.index, c.data);
      if f.received < f.total then (s.(inbound := s.inbound[c.corr := f]), PENDING)
      else
        (s.(inbound := s.inbound - {c.corr}, order := Without(s.order, c.corr)),
         OfferResult(true, Some(Concat(f.parts))))
  }

  function Offer(s: State, c: Chunk): (State, OfferResult)
    requires Valid(s)
  {
    if !WellFormed(s.cfg, c) then (s, REJECTED)
    else if c.total == 1 then (s, OfferResult(true, Some(c.data)))
    else
      OpenedIsValid(s, c);
      Stored(Opened(s, c), c)
  }

  // ---------- Outbound: what one call does ----------

  /** The chunks handed to the sender, when there is one. */
  function Emit(hasSend: bool, c: Chunk): seq<Chunk> {
    if hasSend then [c] else []
  }

  function Begin(s: State, corr: Id, data: Bytes, hasSend: bool): (State, seq<Chunk>) {
    var chunks := Split(corr, data, s.cfg.ChunkSize());
    (if |chunks| > 1 then s.(outbound := s.outbound[corr := Outbound(chunks, 1, hasSend)]) else s,
     Emit(hasSend, chunks[0]))
  }

  function AckStep(s: State, corr: Id, index: nat): (State, seq<Chunk>, bool)
    requires Valid(s)
  {
    if corr !in s.outbound || index != s.outbound[corr].next - 1 then (s, [], false)
    else
      var o := s.outbound[corr];
      if o.next < |o.chunks| then
        (s.(outbound := s.outbound[corr := o.(next := o.next + 1)]), Emit(o.hasSend, o.chunks[o.next]), false)
      else (s.(outbound := s.outbound - {corr}), [], true)
  }

  function Cleared(s: State): State {
    s.(inbound := map[], order := [], outbound := map[])
  }

  // ---------- The invariant is kept ----------

  lemma {:induction false} SizeOfNoDuplicates<T>(s: seq<T>, elements: set<T>)
    requires NoDuplicates(s)
    requires forall x :: x in elements <==> x in s
    ensures |elements| == |s|
  {
    if s == [] {
      assert elements == {};
    } else {
      var rest := elements - {s[0]};
      assert forall x :: x in s[1..] ==> x in s && x != s[0];
      assert forall x :: x in s && x != s[0] ==> x in s[1..];
      SizeOfNoDuplicates(s[1..], rest);
      assert elements == rest + {s[0]};
    }
  }

  lemma InflightIsOrderLength(s: State)
    requires InboundOk(s.cfg, s.inbound, s.order)
    ensures |s.inbound| == |s.order|
  {
    SizeOfNoDuplicates(s.order, s.inbound.Keys);
  }

  lemma DropOldestKeepsInvariant(s: State)
    requires InboundOk(s.cfg, s.inbound, s.order) && s.order != []
    ensures InboundOk(s.cfg, WithoutOldest(s).inbound, WithoutOldest(s).order)
  {
    var rest := s.order[1..];
    assert forall id :: id in rest ==> id in s.order && id != s.order[0];
    assert forall id :: id in s.order && id != s.order[0] ==> id in rest;
  }

  /** How many of the oldest entries make room for one more. */
  function Surplus(s: State): nat {
    if |s.order| < s.cfg.Capacity() then 0 else |s.order| + 1 - s.cfg.Capacity()
  }

  lemma {:induction false} EvictKeepsInvariant(s: State)
    requires InboundOk(s.cfg, s.inbound, s.order)
    ensures Evict(s).cfg == s.cfg && Evict(s).outbound == s.outbound
    ensures InboundOk(s.cfg, Evict(s).inbound, Evict(s).order)
    ensures |Evict(s).order| < s.cfg.Capacity()
    decreases |s.order|
  {
    InflightIsOrderLength(s);
    if |s.inbound| < s.cfg.maxInflightInbound || s.order == [] {
    } else {
      DropOldestKeepsInvariant(s);
      EvictKeepsInvariant(WithoutOldest(s));
    }
  }

  lemma SurplusDrops(s: State)
    requires s.order != [] && |s.order| >= s.cfg.maxInflightInbound
    ensures Surplus(WithoutOldest(s)) + 1 == Surplus(s)
  {
  }

  lemma DropOneThenMore(order: seq<Id>, k: nat)
    requires k + 1 <= |order|
    ensures order[1..][k..] == order[k + 1..]
  {
  }

  lemma NothingToEvict(s: State)
    requires |s.inbound| == |s.order|
    requires |s.inbound| < s.cfg.maxInflightInbound || s.order == []
    ensures Surplus(s) == 0 && Evict(s) == s && s.order[0..] == s.order
  {
  }

  lemma {:induction false} EvictDropsPrefix(s: State)
    requires InboundOk(s.cfg, s.inbound, s.order)
    ensures Surplus(s) <= |s.order| && Evict(s).order == s.order[Surplus(s)..]
    decreases |s.order|
  {
    InflightIsOrderLength(s);
    if |s.inbound| < s.cfg.maxInflightInbound || s.order == [] {
      NothingToEvict(s);
    } else {
      DropOldestKeepsInvariant(s);
      EvictDropsPrefix(WithoutOldest(s));
      SurplusDrops(s);
      DropOneThenMore(s.order, Surplus(WithoutOldest(s)));
    }
  }

  lemma {:induction false} EvictKeepsEntries(s: State)
    ensures forall id :: id in Evict(s).inbound ==> id in s.inbound && Evict(s).inbound[id] == s.inbound[id]
    decreases |s.order|
  {
    if |s.inbound| < s.cfg.maxInflightInbound || s.order == [] {
    } else {
      EvictKeepsEntries(WithoutOldest(s));
    }
  }

  /** Eviction removes exactly the oldest ids, and no more of them than it has to. */
  lemma EvictRemovesOldest(s: State)
    requires InboundOk(s.cfg, s.inbound, s.order)
    ensures Surplus(s) <= |s.order|
    ensures Evict(s) == s.(inbound := Evict(s).inbound, order := s.order[Surplus(s)..])
    ensures forall id :: id in Evict(s).inbound ==> id in s.inbound && Evict(s).inbound[id] == s.inbound[id]
    ensures InboundOk(s.cfg, Evict(s).inbound, Evict(s).order) && |Evict(s).order| < s.cfg.Capacity()
  {
    EvictKeepsInvariant(s);
    EvictDropsPrefix(s);
    EvictKeepsEntries(s);
  }

  lemma {:induction false} FreshHasNothing(total: nat)
    ensures CountTrue(Fresh(total).have) == 0
  {
    if total == 0 {
    } else {
      FreshHasNothing(total - 1);
      assert Fresh(total).have[..total - 1] == Fresh(total - 1).have;
    }
  }

  lemma {:induction false} CountBound(have: seq<bool>)
    ensures CountTrue(have) <= |have|
    ensures CountTrue(have) == |have| <==> forall i :: 0 <= i < |have| ==> have[i]
  {
    if have == [] {
    } else {
      CountBound(have[..|have| - 1]);
    }
  }

  lemma {:induction false} CountAfterSet(have: seq<bool>, index: nat)
    requires index < |have| && !have[index]
    ensures CountTrue(have[index := true]) == CountTrue(have) + 1
  {
    var n := |have| - 1;
    if index < n {
      CountAfterSet(have[..n], index);
      assert have[index := true][..n] == have[..n][index := true];
    } else {
      assert have[index := true][..n] == have[..n];
    }
  }

  lemma {:induction false} WithoutFacts(order: seq<Id>, id: Id)
    requires NoDuplicates(order)
    ensures NoDuplicates(Without(order, id))
    ensures forall x :: x in Without(order, id) <==> x in order && x != id
    ensures |Without(order, id)| <= |order|
  {
    if order == [] {
    } else {
      WithoutFacts(order[1..], id);
      assert order[0] !in order[1..];
    }
  }

  lemma AddedIsOk(cfg: Config, inbound: map<Id, Inbound>, order: seq<Id>, id: Id, e: Inbound)
    requires InboundOk(cfg, inbound, order) && id !in inbound && EntryOk(e, cfg) && |order| < cfg.Capacity()
    ensures InboundOk(cfg, inbound[id := e], order + [id])
  {
  }

  /** Taking an id out of the list cuts it at one place. */
  lemma {:induction false} WithoutIsCut(order: seq<Id>, id: Id) returns (k: nat)
    requires NoDuplicates(order) && id in order
    ensures k < |order| && order[k] == id && Without(order, id) == order[..k] + order[k + 1..]
  {
    if order[0] == id {
      k := 0;
      WithoutAbsent(order[1..], id);
    } else {
      var j := WithoutIsCut(order[1..], id);
      k := j + 1;
      assert order[..k] == [order[0]] + order[1..][..j] && order[k + 1..] == order[1..][j + 1..];
    }
  }

  lemma {:induction false} WithoutAbsent(order: seq<Id>, id: Id)
    requires id !in order
    ensures Without(order, id) == order
  {
    if order == [] {
    } else {
      WithoutAbsent(order[1..], id);
    }
  }

  lemma FreshIsOk(cfg: Config, total: nat)
    requires 2 <= total <= cfg.maxTotalChunks
    ensures EntryOk(Fresh(total), cfg)
  {
    FreshHasNothing(total);
  }

  lemma OpenedIsValid(s: State, c: Chunk)
    requires Valid(s) && WellFormed(s.cfg, c) && c.total > 1
    ensures Valid(Opened(s, c))
    ensures c.corr in Opened(s, c).inbound && Opened(s, c).inbound[c.corr].total == c.total
  {
    FreshIsOk(s.cfg, c.total);
    if c.corr !in s.inbound {
      EvictRemovesOldest(s);
      AddedIsOk(s.cfg, Evict(s).inbound, Evict(s).order, c.corr, Fresh(c.total));
    }
  }

  lemma OpenedFrame(s: State, c: Chunk)
    requires InboundOk(s.cfg, s.inbound, s.order)
    ensures Opened(s, c).cfg == s.cfg && Opened(s, c).outbound == s.outbound
  {
    EvictKeepsInvariant(s);
  }

  lemma FilledIsOk(e: Inbound, cfg: Config, index: nat, data: Bytes)
    requires EntryOk(e, cfg) && index < e.total && !e.have[index]
    ensures var f := Filled(e, index, data);
            f.received <= f.total && (f.received < f.total ==> EntryOk(f, cfg))
  {
    CountAfterSet(e.have, index);
  }

  lemma StoredIsValid(s: State, c: Chunk)
    requires Valid(s) && c.corr in s.inbound && c.index < s.inbound[c.corr].total
    ensures Valid(Stored(s, c).0)
  {
    var e := s.inbound[c.corr];
    if !e.have[c.index] {
      FilledIsOk(e, s.cfg, c.index, c.data);
      if Filled(e, c.index, c.data).received == e.total {
        WithoutFacts(s.order, c.corr);
      }
    }
  }

  /**
    Every offered chunk, however malformed, keeps the invariant: the arrival list enumerates
    the partial messages without repetition, their number stays within the cap, and every
    partial message counts its parts exactly and is still incomplete.
  */
  lemma OfferKeepsInvariant(s: State, c: Chunk)
    requires Valid(s)
    ensures Valid(Offer(s, c).0)
    ensures Offer(s, c).0.cfg == s.cfg && Offer(s, c).0.outbound == s.outbound
  {
    if WellFormed(s.cfg, c) && c.total > 1 {
      OpenedIsValid(s, c);
      OpenedFrame(s, c);
      StoredIsValid(Opened(s, c), c);
    }
  }

  /**
    Which chunks are accepted, told from their fields: those with an index below a total that is
    neither zero nor above the limit. Any other leaves everything as it was, and a message of one
    chunk comes out at once and leaves nothing behind.
  */
  lemma OfferOutcome(s: State, c: Chunk)
    requires Valid(s)
    ensures Offer(s, c).1.accepted <==> 1 <= c.total <= s.cfg.maxTotalChunks && c.index < c.total
    ensures !Offer(s, c).1.accepted ==> Offer(s, c).0 == s && Offer(s, c).1.payload == None
    ensures c.total == 1 <= s.cfg.maxTotalChunks && c.index == 0 ==>
              Offer(s, c).0 == s && Offer(s, c).1.payload == Some(c.data)
  {
    if WellFormed(s.cfg, c) && c.total > 1 {
      OpenedIsValid(s, c);
    }
  }

  lemma BeginKeepsInvariant(s: State, corr: Id, data: Bytes, hasSend: bool)
    requires Valid(s)
    ensures Valid(Begin(s, corr, data, hasSend).0)
  {
  }

  lemma AckKeepsInvariant(s: State, corr: Id, index: nat)
    requires Valid(s)
    ensures Valid(AckStep(s, corr, index).0)
  {
  }

  // ---------- The class ----------

  class ChunkAssembler {
    const cfg: Config
    var inbound: map<Id, Inbound>
    var inboundOrder: seq<Id>
    var outbound: map<Id, Outbound>

    ghost function Contents(): State
      reads this
    {
      State(cfg, inbound, inboundOrder, outbound)
    }

    constructor (cfg: Config)
      ensures this.cfg == cfg && Valid(Contents())
      ensures inbound == map[] && inboundOrder == [] && outbound == map[]
    {
      this.cfg := cfg;
      inbound, inboundOrder, outbound := map[], [], map[];
    }

    method EvictOldestInboundIfFull()
      requires Valid(Contents())
      modifies this`inbound, this`inboundOrder
      ensures Contents() == Evict(old(Contents()))
    {
      while |inbound| >= cfg.maxInflightInbound && inboundOrder != []
        invariant Evict(Contents()) == Evict(old(Contents()))
        decreases |inboundOrder|
      {
        var victim := inboundOrder[0];
        inboundOrder := inboundOrder[1..];
        inbound := inbound - {victim};
      }
    }

    /** The first half of `OfferInbound`: the message has an entry with the chunk's total. */
    method OpenEntry(chunk: Chunk)
      requires Valid(Contents())
      modifies this`inbound, this`inboundOrder
      ensures Contents() == Opened(old(Contents()), chunk)
    {
      var total, corr := chunk.total, chunk.corr;
      if corr !in inbound {
        EvictOldestInboundIfFull();
        inbound := inbound[corr := Fresh(total)];
        inboundOrder := inboundOrder + [corr];
      } else if inbound[corr].total != total {
        inbound := inbound[corr := Fresh(total)];
      }
    }

    /** The second half: keep the part, and hand out the message when it is the last one. */
    method StorePart(chunk: Chunk) returns (r: OfferResult)
      requires chunk.corr in inbound
      requires chunk.index < |inbound[chunk.corr].have| == |inbound[chunk.corr].parts|
      modifies this`inbound, this`inboundOrder
      ensures (Contents(), r) == Stored(old(Contents()), chunk)
    {
      var index, corr := chunk.index, chunk.corr;
      var entry := inbound[corr];
      if entry.have[index] {
        return OfferResult(true, None);
      }
      entry := entry.(parts := entry.parts[index := chunk.data]);
      entry := entry.(have := entry.have[index := true]);
      entry := entry.(received := entry.received + 1);
      if entry.received < entry.total {
        inbound := inbound[corr := entry];
        return OfferResult(true, None);
      }
      var out := Join(entry.parts);
      inbound := inbound - {corr};
      inboundOrder := Without(inboundOrder, corr);
      return OfferResult(true, Some(out));
    }

    method OfferInbound(chunk: Chunk) returns (r: OfferResult)
      requires Valid(Contents())
      modifies this`inbound, this`inboundOrder
      ensures Valid(Contents())
      ensures (Contents(), r) == Offer(old(Contents()), chunk)
      ensures r.accepted <==> 1 <= chunk.total <= cfg.maxTotalChunks && chunk.index < chunk.total
      ensures !r.accepted ==> r.payload == None && inbound == old(inbound) && inboundOrder == old(inboundOrder)
    {
      OfferKeepsInvariant(Contents(), chunk);
      OfferOutcome(Contents(), chunk);
      if chunk.total == 0 || chunk.total > cfg.maxTotalChunks {
        return OfferResult(false, None);
      }
      if chunk.index >= chunk.total {
        return OfferResult(false, None);
      }
      if chunk.total == 1 {
        return OfferResult(true, Some(chunk.data));
      }
      OpenedIsValid(Contents(), chunk);
      OpenEntry(chunk);
      r := StorePart(chunk);
    }

    /** `emitted` is what the call handed to the sender. */
    method BeginOutbound(corr: Id, data: Bytes, hasSend: bool) returns (total: nat, emitted: seq<Chunk>)
      requires Valid(Contents())
      requires ChunkCount(|data|, cfg.ChunkSize()) < U32_LIMIT
      modifies this`outbound
      ensures Valid(Contents())
      ensures (Contents(), emitted) == Begin(old(Contents()), corr, data, hasSend)
      ensures total == ChunkCount(|data|, cfg.ChunkSize())
      ensures hasSend ==> |emitted| == 1 && emitted[0].corr == corr && emitted[0].index == 0 && emitted[0].total == total
      ensures !hasSend ==> emitted == []
      ensures outbound == if total > 1 then old(outbound)[corr := outbound[corr]] else old(outbound)
    {
      var size := cfg.ChunkSize();
      total := if |data| == 0 then 1 else ((|data| + size - 1) / size) % U32_LIMIT;
      CountIsRoundedUpQuotient(|data|, size);
      var chunks := Slice(corr, data, size, total);
      emitted := [];
      if hasSend {
        emitted := [chunks[0]];
      }
      if total > 1 {
        outbound := outbound[corr := Outbound(chunks, 1, hasSend)];
      }
    }

    method OnAck(corr: Id, index: nat) returns (complete: bool, emitted: seq<Chunk>)
      requires Valid(Contents())
      modifies this`outbound
      ensures Valid(Contents())
      ensures (Contents(), emitted, complete) == AckStep(old(Contents()), corr, index)
      ensures corr !in old(outbound) || index != old(outbound)[corr].next - 1 ==>
                !complete && emitted == [] && outbound == old(outbound)
      ensures corr in old(outbound) && index == old(outbound)[corr].next - 1 ==>
                var o := old(outbound)[corr];
                if o.next < |o.chunks| then
                  && !complete && emitted == (if o.hasSend then [o.chunks[o.next]] else [])
                  && outbound == old(outbound)[corr := o.(next := o.next + 1)]
                else complete && emitted == [] && outbound == old(outbound) - {corr}
    {
      emitted := [];
      if corr !in outbound {
        return false, [];
      }
      var transfer := outbound[corr];
      var lastSent := transfer.next - 1;
      if index != lastSent {
        return false, [];
      }
      var total := |transfer.chunks|;
      if transfer.next < total {
        if transfer.hasSend {
          emitted := [transfer.chunks[transfer.next]];
        }
        outbound := outbound[corr := transfer.(next := transfer.next + 1)];
        return false, emitted;
      }
      outbound := outbound - {corr};
      return true, [];
    }

    method Reset()
      modifies this`inbound, this`inboundOrder, this`outbound
      ensures Contents() == Cleared(old(Contents())) && Valid(Contents())
      ensures inbound == map[] && inboundOrder == [] && outbound == map[]
    {
      inbound := map[];
      inboundOrder := [];
      outbound := map[];
    }
  }

  /** Cuts the payload into chunks, one `size` after the other. */
  method Slice(corr: Id, data: Bytes, size: nat, total: nat) returns (chunks: seq<Chunk>)
    requires size > 0 && total == ChunkCount(|data|, size)
    ensures chunks == Split(corr, data, size)
  {
    chunks := [];
    for i := 0 to total
      invariant |chunks| == i
      invariant forall k :: 0 <= k < i ==> chunks[k] == Chunk(corr, k, total, Part(data, size, k))
    {
      PartAt(data, size, i);
      var off := i * size;
      chunks := chunks + [Chunk(corr, i, total, data[off..Min(off + size, |data|)])];
    }
  }

  /** Appends the parts in index order. */
  method Join(parts: seq<Bytes>) returns (out: Bytes)
    ensures out == Concat(parts)
  {
    out := [];
    for i := 0 to |parts|
      invariant out == Concat(parts[..i])
    {
      assert parts[..i + 1][..i] == parts[..i];
      out := out + parts[i];
    }
    assert parts[..|parts|] == parts;
  }
}
