/**
  Two endpoints joined by a lossy link. Everything an endpoint ever notified stays receivable
  for ever, any number of times and in any order, or never: loss, duplication and reordering.
*/
module ChunkLink {
  import opened Arithmetic
  import opened Wrappers
  import opened Sequences
  import opened ChunkFraming
  import opened ChunkAssembly
  import opened ChunkReassembly

  type Payloads = map<Id, Bytes>

  // ---------- One endpoint ----------

  /** What the locked part of a command write does: the notifications it sends and the message it yields. */
  datatype Reaction = Reaction(state: State, notified: seq<Chunk>, payload: Option<Bytes>, complete: bool)

  /** A write without a total is an ack of our own chunk; any other write is acked only when accepted. */
  function Demux(s: State, wire: Chunk): Reaction
    requires Valid(s)
  {
    if wire.total == CHUNK_ACK_TOTAL then
      var (t, emitted, complete) := AckStep(s, wire.corr, wire.index);
      Reaction(t, emitted, None, complete)
    else
      var (t, r) := Offer(s, wire);
      Reaction(t, if r.accepted then [Ack(wire.corr, wire.index)] else [], r.payload, false)
  }

  class BleTransport {
    const assembler: ChunkAssembler
    var centralPresent: bool
    var gattActive: bool

    constructor (assembler: ChunkAssembler)
      ensures this.assembler == assembler && !centralPresent && !gattActive
    {
      this.assembler := assembler;
      centralPresent, gattActive := false, false;
    }

    /** `connected` tells that this write is the first sign of a central. */
    method OnRawCommand(chunk: Chunk) returns (connected: bool, notified: seq<Chunk>, payload: Option<Bytes>)
      requires Valid(assembler.Contents())
      modifies this`centralPresent, assembler`inbound, assembler`inboundOrder, assembler`outbound
      ensures Valid(assembler.Contents()) && centralPresent
      ensures connected <==> !old(centralPresent)
      ensures var r := Demux(old(assembler.Contents()), chunk);
              assembler.Contents() == r.state && payload == r.payload && notified == if gattActive then r.notified else []
      ensures chunk.total != 0 && gattActive ==>
                notified == if 1 <= chunk.total <= assembler.cfg.maxTotalChunks && chunk.index < chunk.total
                            then [Chunk(chunk.corr, chunk.index, 0, [])] else []
      ensures chunk.total == 0 ==> payload == None && assembler.inbound == old(assembler.inbound)
      ensures chunk.total != 0 ==> assembler.outbound == old(assembler.outbound)
    {
      OfferOutcome(assembler.Contents(), chunk);
      OfferKeepsInvariant(assembler.Contents(), chunk);
      connected := !centralPresent;
      centralPresent := true;
      notified, payload := [], None;
      if chunk.total == CHUNK_ACK_TOTAL {
        var complete, emitted := assembler.OnAck(chunk.corr, chunk.index);
        if gattActive {
          notified := emitted;
        }
      } else {
        var result := assembler.OfferInbound(chunk);
        if result.accepted && gattActive {
          notified := [Ack(chunk.corr, chunk.index)];
        }
        payload := result.payload;
      }
    }
  }

  /**
    A write with a total is acked exactly if its total is within the limit and its index below the
    total; the ack names its message and index. A write without one yields no message.
  */
  lemma WriteIsAckedIff(s: State, wire: Chunk)
    requires Valid(s)
    ensures wire.total != 0 ==>
              Demux(s, wire).notified == if 1 <= wire.total <= s.cfg.maxTotalChunks && wire.index < wire.total
                                         then [Chunk(wire.corr, wire.index, 0, [])] else []
    ensures wire.total == 0 ==> Demux(s, wire).payload == None && Demux(s, wire).state.inbound == s.inbound
    ensures wire.total == 1 <= s.cfg.maxTotalChunks && wire.index == 0 ==>
              Demux(s, wire).payload == Some(wire.data) && Demux(s, wire).state == s
  {
    OfferOutcome(s, wire);
  }

  /** `out` is everything this endpoint ever notified; `delivered` and `completed` are its history. */
  datatype Node = Node(asm: State, out: set<Chunk>, delivered: set<(Id, Bytes)>, completed: set<Id>)

  datatype Action = Send(corr: Id) | Receive(wire: Chunk) | Disconnect

  ghost predicate Enabled(x: Node, y: Node, a: Action, pay: Payloads) {
    match a
    case Send(corr) => corr in pay && ChunkCount(|pay[corr]|, x.asm.cfg.ChunkSize()) < U32_LIMIT
    case Receive(wire) => wire in y.out
    case Disconnect => true
  }

  ghost function Act(x: Node, a: Action, pay: Payloads): Node
    requires Valid(x.asm) && (a.Send? ==> a.corr in pay)
  {
    match a
    case Send(corr) =>
      var (t, emitted) := Begin(x.asm, corr, pay[corr], true);
      x.(asm := t, out := x.out + Elements(emitted))
    case Receive(wire) =>
      var r := Demux(x.asm, wire);
      Node(r.state,
           x.out + Elements(r.notified),
           x.delivered + (if r.payload.Some? then {(wire.corr, r.payload.value)} else {}),
           x.completed + (if r.complete then {wire.corr} else {}))
    case Disconnect => x.(asm := Cleared(x.asm))
  }

  lemma ActKeepsValid(x: Node, a: Action, pay: Payloads)
    requires Valid(x.asm) && (a.Send? ==> a.corr in pay)
    ensures Valid(Act(x, a, pay).asm) && Act(x, a, pay).asm.cfg == x.asm.cfg
  {
    match a
    case Send(corr) => BeginKeepsInvariant(x.asm, corr, pay[corr], true);
    case Receive(wire) =>
      OfferKeepsInvariant(x.asm, wire);
      AckKeepsInvariant(x.asm, wire.corr, wire.index);
    case Disconnect =>
  }

  /** What an endpoint notifies on receiving a chunk. */
  lemma ReceiverAcks(y: Node, c: Chunk, own: Payloads)
    requires Valid(y.asm) && c.total != 0
    ensures Act(y, Receive(c), own).out
         == y.out + if 1 <= c.total <= y.asm.cfg.maxTotalChunks && c.index < c.total
                    then {Chunk(c.corr, c.index, 0, [])} else {}
  {
    WriteIsAckedIff(y.asm, c);
  }

  /** A disconnect forgets all partial messages and all transfers, but nothing that was ever on the air. */
  lemma DisconnectForgets(x: Node, pay: Payloads)
    requires Valid(x.asm)
    ensures var y := Act(x, Disconnect, pay);
            && y.asm.inbound == map[] && y.asm.order == [] && y.asm.outbound == map[]
            && y.asm.cfg == x.asm.cfg && y.out == x.out && y.delivered == x.delivered && y.completed == x.completed
  {
  }

  // ---------- Safety of one direction: x sends the payloads `pay` to y ----------

  ghost predicate IsChunkOf(c: Chunk, pay: Payloads, size: nat)
    requires size > 0
  {
    && c.corr in pay
    && c.index < ChunkCount(|pay[c.corr]|, size)
    && c == Chunk(c.corr, c.index, ChunkCount(|pay[c.corr]|, size), Part(pay[c.corr], size, c.index))
  }

  ghost predicate SenderOk(x: Node, pay: Payloads) {
    var size := x.asm.cfg.ChunkSize();
    && (forall c :: c in x.out && c.total != CHUNK_ACK_TOTAL ==> IsChunkOf(c, pay, size))
    && (forall id :: id in x.asm.outbound ==> id in pay)
    && (forall id :: id in x.asm.outbound ==> x.asm.outbound[id].hasSend && x.asm.outbound[id].chunks == Split(id, pay[id], size))
  }

  /** Every part held is the slice of the payload at its index; everything delivered is what was sent. */
  ghost predicate ReceiverOk(y: Node, pay: Payloads, size: nat)
    requires size > 0
  {
    && (forall id :: id in y.asm.inbound ==> id in pay && EntrySlices(y.asm.inbound[id], pay[id], size))
    && (forall d :: d in y.delivered ==> d.0 in pay && d.1 == pay[d.0])
  }

  ghost predicate EntrySlices(e: Inbound, data: Bytes, size: nat)
    requires size > 0
  {
    && e.total == |e.parts| == |e.have| == ChunkCount(|data|, size)
    && forall i: nat | i < |e.have| && e.have[i] :: e.parts[i] == Part(data, size, i)
  }

  lemma SenderActs(x: Node, a: Action, pay: Payloads)
    requires Valid(x.asm) && (a.Send? ==> a.corr in pay) && SenderOk(x, pay)
    ensures SenderOk(Act(x, a, pay), pay)
  {
    var size := x.asm.cfg.ChunkSize();
    match a
    case Send(corr) =>
    case Receive(wire) =>
      OfferKeepsInvariant(x.asm, wire);
      AckEmitsChunkOf(x, wire, pay);
    case Disconnect =>
  }

  lemma AckEmitsChunkOf(x: Node, wire: Chunk, pay: Payloads)
    requires Valid(x.asm) && SenderOk(x, pay)
    ensures forall c :: c in AckStep(x.asm, wire.corr, wire.index).1 ==> IsChunkOf(c, pay, x.asm.cfg.ChunkSize())
  {
  }

  lemma StoringKeepsSlices(s: State, c: Chunk, pay: Payloads, size: nat)
    requires size > 0 && IsChunkOf(c, pay, size) && c.corr in s.inbound
    requires EntryOk(s.inbound[c.corr], s.cfg) && EntrySlices(s.inbound[c.corr], pay[c.corr], size)
    ensures c.corr in Stored(s, c).0.inbound ==> EntrySlices(Stored(s, c).0.inbound[c.corr], pay[c.corr], size)
    ensures Stored(s, c).1.payload.Some? ==> Stored(s, c).1.payload.value == pay[c.corr]
  {
    var e := s.inbound[c.corr];
    if !e.have[c.index] {
      var f := Filled(e, c.index, c.data);
      CountAfterSet(e.have, c.index);
      if f.received == f.total {
        CountBound(f.have);
        forall i | 0 <= i < |f.parts|
          ensures f.parts[i] == Part(pay[c.corr], size, i)
        {
          assert f.have[i];
        }
        PartsJoinToPayload(pay[c.corr], size, f.parts);
      }
    }
  }

  lemma OpeningKeepsSlices(s: State, c: Chunk, pay: Payloads, size: nat)
    requires size > 0 && IsChunkOf(c, pay, size) && InboundOk(s.cfg, s.inbound, s.order)
    requires forall id :: id in s.inbound ==> id in pay && EntrySlices(s.inbound[id], pay[id], size)
    ensures forall id :: id in Opened(s, c).inbound ==> id in pay && EntrySlices(Opened(s, c).inbound[id], pay[id], size)
  {
    EvictRemovesOldest(s);
  }

  lemma OfferKeepsSlices(s: State, c: Chunk, pay: Payloads, size: nat)
    requires Valid(s) && size > 0 && IsChunkOf(c, pay, size)
    requires forall id :: id in s.inbound ==> id in pay && EntrySlices(s.inbound[id], pay[id], size)
    ensures forall id :: id in Offer(s, c).0.inbound ==> id in pay && EntrySlices(Offer(s, c).0.inbound[id], pay[id], size)
    ensures Offer(s, c).1.payload.Some? ==> Offer(s, c).1.payload.value == pay[c.corr]
  {
    if WellFormed(s.cfg, c) {
      if c.total == 1 {
        PartsJoinToPayload(pay[c.corr], size, [c.data]);
        assert [c.data][..0] == [];
        assert Concat([c.data]) == [] + c.data;
      } else {
        OpeningKeepsSlices(s, c, pay, size);
        OpenedIsValid(s, c);
        StoringKeepsSlices(Opened(s, c), c, pay, size);
      }
    }
  }

  lemma ReceiverActs(y: Node, a: Action, pay: Payloads, own: Payloads, size: nat)
    requires Valid(y.asm) && size > 0 && ReceiverOk(y, pay, size)
    requires a.Send? ==> a.corr in own
    requires a.Receive? && a.wire.total != CHUNK_ACK_TOTAL ==> IsChunkOf(a.wire, pay, size)
    ensures ReceiverOk(Act(y, a, own), pay, size)
  {
    if a.Receive? && a.wire.total != CHUNK_ACK_TOTAL {
      OfferKeepsSlices(y.asm, a.wire, pay, size);
    }
  }

  // ---------- Completion of one direction ----------

  /** y has taken part `i` of message `id`: it holds it, or the whole message has come out. */
  ghost predicate Taken(y: Node, pay: Payloads, id: Id, i: nat) {
    && id in pay
    && ((id, pay[id]) in y.delivered || (id in y.asm.inbound && i < |y.asm.inbound[id].have| && y.asm.inbound[id].have[i]))
  }

  /** Acks are honest, sending runs one chunk ahead of them, and completion follows delivery. */
  ghost predicate AcksHonest(x: Node, y: Node, pay: Payloads) {
    && (forall c :: c in y.out && c.total == CHUNK_ACK_TOTAL ==> Taken(y, pay, c.corr, c.index))
    && (forall id, i: nat :: id in x.asm.outbound && i + 1 < x.asm.outbound[id].next ==> Taken(y, pay, id, i))
    && (forall id :: id in x.completed ==> id in pay && (id, pay[id]) in y.delivered)
  }

  /** The messages that the receiver has to reassemble. */
  ghost function Multi(pay: Payloads, size: nat, cfg: Config): set<Id>
    requires size > 0
  {
    set id | id in pay && 2 <= ChunkCount(|pay[id]|, size) <= cfg.maxTotalChunks
  }

  lemma AllTakenMeansDelivered(y: Node, pay: Payloads, size: nat, id: Id)
    requires Valid(y.asm) && size > 0 && ReceiverOk(y, pay, size) && id in pay
    requires forall i: nat :: i < ChunkCount(|pay[id]|, size) ==> Taken(y, pay, id, i)
    ensures (id, pay[id]) in y.delivered
  {
    if (id, pay[id]) !in y.delivered {
      var n := ChunkCount(|pay[id]|, size);
      assert Taken(y, pay, id, 0);
      var e := y.asm.inbound[id];
      assert EntryOk(e, y.asm.cfg) && |e.have| == n;
      forall i | 0 <= i < n
        ensures e.have[i]
      {
        assert Taken(y, pay, id, i);
      }
      CountBound(e.have);
      assert false;
    }
  }

  lemma SenderKeepsHonest(x: Node, y: Node, a: Action, pay: Payloads)
    requires Valid(x.asm) && Valid(y.asm)
    requires SenderOk(x, pay) && ReceiverOk(y, pay, x.asm.cfg.ChunkSize())
    requires AcksHonest(x, y, pay) && Enabled(x, y, a, pay)
    ensures AcksHonest(Act(x, a, pay), y, pay)
  {
    match a
    case Send(corr) =>
    case Receive(wire) =>
      if wire.total == CHUNK_ACK_TOTAL {
        AckKeepsHonest(x, y, wire, pay);
      } else {
        OfferKeepsInvariant(x.asm, wire);
      }
    case Disconnect =>
  }

  lemma AckKeepsHonest(x: Node, y: Node, wire: Chunk, pay: Payloads)
    requires Valid(x.asm) && Valid(y.asm)
    requires SenderOk(x, pay) && ReceiverOk(y, pay, x.asm.cfg.ChunkSize())
    requires AcksHonest(x, y, pay) && wire in y.out && wire.total == CHUNK_ACK_TOTAL
    ensures AcksHonest(Act(x, Receive(wire), pay), y, pay)
  {
    var id := wire.corr;
    assert Taken(y, pay, id, wire.index);
    if id in x.asm.outbound {
      var o := x.asm.outbound[id];
      if wire.index == o.next - 1 {
        forall i: nat | i < o.next
          ensures Taken(y, pay, id, i)
        {
          assert i + 1 < o.next || i == wire.index;
        }
        if o.next == |o.chunks| {
          AllTakenMeansDelivered(y, pay, x.asm.cfg.ChunkSize(), id);
        }
      }
    }
  }

  lemma InflightNeedsReassembly(y: Node, pay: Payloads, size: nat)
    requires Valid(y.asm) && size > 0 && ReceiverOk(y, pay, size)
    ensures y.asm.inbound.Keys <= Multi(pay, size, y.asm.cfg)
  {
    forall id | id in y.asm.inbound
      ensures id in Multi(pay, size, y.asm.cfg)
    {
      assert EntryOk(y.asm.inbound[id], y.asm.cfg);
    }
  }

  lemma NothingIsEvicted(y: Node, c: Chunk, pay: Payloads, size: nat, id: Id)
    requires Valid(y.asm) && size > 0 && ReceiverOk(y, pay, size) && IsChunkOf(c, pay, size)
    requires |Multi(pay, size, y.asm.cfg)| <= y.asm.cfg.Capacity()
    ensures !Evicts(y.asm, c, id)
  {
    if WellFormed(y.asm.cfg, c) && c.total > 1 && c.corr !in y.asm.inbound {
      InflightNeedsReassembly(y, pay, size);
      InflightIsOrderLength(y.asm);
      SubsetIsNoLarger(y.asm.inbound.Keys + {c.corr}, Multi(pay, size, y.asm.cfg));
    }
  }

  /** What storing does to the entry of the chunk: the part is there, and no part is lost. */
  lemma StoringTakes(s: State, c: Chunk)
    requires c.corr in s.inbound && EntryOk(s.inbound[c.corr], s.cfg) && c.index < s.inbound[c.corr].total
    ensures var t, r := Stored(s, c).0, Stored(s, c).1;
            && r.accepted
            && (r.payload.None? ==> c.corr in t.inbound && |t.inbound[c.corr].have| == s.inbound[c.corr].total)
            && (r.payload.None? ==> t.inbound[c.corr].have[c.index])
            && (r.payload.None? ==> forall i | 0 <= i < |s.inbound[c.corr].have| && s.inbound[c.corr].have[i] :: t.inbound[c.corr].have[i])
  {
  }

  lemma OfferTakes(y: Node, c: Chunk, pay: Payloads, size: nat)
    requires Valid(y.asm) && size > 0 && ReceiverOk(y, pay, size) && IsChunkOf(c, pay, size)
    requires WellFormed(y.asm.cfg, c)
    ensures var t, r := Offer(y.asm, c).0, Offer(y.asm, c).1;
            && r.accepted
            && (r.payload.None? ==> c.corr in t.inbound && c.index < |t.inbound[c.corr].have| && t.inbound[c.corr].have[c.index])
            && (r.payload.None? && c.corr in y.asm.inbound ==> |t.inbound[c.corr].have| == |y.asm.inbound[c.corr].have|)
            && (r.payload.None? && c.corr in y.asm.inbound ==>
                  forall i | 0 <= i < |y.asm.inbound[c.corr].have| && y.asm.inbound[c.corr].have[i] :: t.inbound[c.corr].have[i])
  {
    if c.total > 1 {
      OpenedIsValid(y.asm, c);
      assert EntryOk(Opened(y.asm, c).inbound[c.corr], Opened(y.asm, c).cfg);
      StoringTakes(Opened(y.asm, c), c);
    }
  }

  lemma TakenIsKept(y: Node, c: Chunk, pay: Payloads, own: Payloads, size: nat, id: Id, i: nat)
    requires Valid(y.asm) && size > 0 && ReceiverOk(y, pay, size)
    requires c.total != CHUNK_ACK_TOTAL && IsChunkOf(c, pay, size)
    requires |Multi(pay, size, y.asm.cfg)| <= y.asm.cfg.Capacity()
    requires Taken(y, pay, id, i)
    ensures Taken(Act(y, Receive(c), own), pay, id, i)
  {
    if (id, pay[id]) !in y.delivered {
      if id != c.corr {
        NothingIsEvicted(y, c, pay, size, id);
        OtherTrafficLeavesEntry(y.asm, c, id);
      } else if WellFormed(y.asm.cfg, c) {
        OfferTakes(y, c, pay, size);
        OfferKeepsSlices(y.asm, c, pay, size);
      }
    }
  }

  lemma AcceptedIsTaken(y: Node, c: Chunk, pay: Payloads, own: Payloads, size: nat)
    requires Valid(y.asm) && size > 0 && ReceiverOk(y, pay, size)
    requires c.total != CHUNK_ACK_TOTAL && IsChunkOf(c, pay, size) && WellFormed(y.asm.cfg, c)
    ensures Taken(Act(y, Receive(c), own), pay, c.corr, c.index)
  {
    OfferTakes(y, c, pay, size);
    OfferKeepsSlices(y.asm, c, pay, size);
  }

  lemma ChunkKeepsHonest(x: Node, y: Node, wire: Chunk, pay: Payloads, own: Payloads)
    requires Valid(x.asm) && Valid(y.asm)
    requires SenderOk(x, pay) && ReceiverOk(y, pay, x.asm.cfg.ChunkSize())
    requires AcksHonest(x, y, pay) && wire in x.out && wire.total != CHUNK_ACK_TOTAL
    requires |Multi(pay, x.asm.cfg.ChunkSize(), y.asm.cfg)| <= y.asm.cfg.Capacity()
    ensures AcksHonest(x, Act(y, Receive(wire), own), pay)
  {
    var size := x.asm.cfg.ChunkSize();
    var after := Act(y, Receive(wire), own);
    assert IsChunkOf(wire, pay, size);
    forall c | c in after.out && c.total == CHUNK_ACK_TOTAL
      ensures Taken(after, pay, c.corr, c.index)
    {
      if c in y.out {
        TakenIsKept(y, wire, pay, own, size, c.corr, c.index);
      } else {
        AcceptedIsTaken(y, wire, pay, own, size);
      }
    }
    forall id, i: nat | id in x.asm.outbound && i + 1 < x.asm.outbound[id].next
      ensures Taken(after, pay, id, i)
    {
      TakenIsKept(y, wire, pay, own, size, id, i);
    }
  }

  /** z differs from y only by what y did as a sender of its own messages. */
  ghost predicate OnlySent(y: Node, z: Node) {
    && z.asm.inbound == y.asm.inbound && z.delivered == y.delivered
    && forall c :: c in z.out && c.total == CHUNK_ACK_TOTAL ==> c in y.out
  }

  lemma AckOnlySends(y: Node, wire: Chunk, own: Payloads)
    requires Valid(y.asm) && wire.total == CHUNK_ACK_TOTAL
    ensures OnlySent(y, Act(y, Receive(wire), own))
  {
  }

  lemma SendOnlySends(y: Node, corr: Id, own: Payloads)
    requires Valid(y.asm) && corr in own
    ensures OnlySent(y, Act(y, Send(corr), own))
  {
  }

  lemma OwnTrafficKeepsHonest(x: Node, y: Node, z: Node, pay: Payloads)
    requires AcksHonest(x, y, pay) && OnlySent(y, z)
    ensures AcksHonest(x, z, pay)
  {
    assert forall id, i: nat :: Taken(z, pay, id, i) == Taken(y, pay, id, i);
  }

  lemma ReceiverKeepsHonest(x: Node, y: Node, a: Action, pay: Payloads, own: Payloads)
    requires Valid(x.asm) && Valid(y.asm)
    requires SenderOk(x, pay) && ReceiverOk(y, pay, x.asm.cfg.ChunkSize())
    requires AcksHonest(x, y, pay) && Enabled(y, x, a, own) && !a.Disconnect?
    requires |Multi(pay, x.asm.cfg.ChunkSize(), y.asm.cfg)| <= y.asm.cfg.Capacity()
    ensures AcksHonest(x, Act(y, a, own), pay)
  {
    match a
    case Send(corr) =>
      SendOnlySends(y, corr, own);
      OwnTrafficKeepsHonest(x, y, Act(y, a, own), pay);
    case Receive(wire) =>
      if wire.total != CHUNK_ACK_TOTAL {
        ChunkKeepsHonest(x, y, wire, pay, own);
      } else {
        AckOnlySends(y, wire, own);
        OwnTrafficKeepsHonest(x, y, Act(y, a, own), pay);
      }
    case Disconnect =>
  }

  // ---------- The link: both directions at once ----------

  datatype Link = Link(left: Node, right: Node)

  datatype Step = AtLeft(a: Action) | AtRight(a: Action)

  datatype Traffic = Traffic(fromLeft: Payloads, fromRight: Payloads)

  ghost function Idle(cfg: Config): Node {
    Node(State(cfg, map[], [], map[]), {}, {}, {})
  }

  ghost predicate CanStep(l: Link, s: Step, t: Traffic) {
    match s
    case AtLeft(a) => Enabled(l.left, l.right, a, t.fromLeft)
    case AtRight(a) => Enabled(l.right, l.left, a, t.fromRight)
  }

  ghost function Next(l: Link, s: Step, t: Traffic): Link
    requires Valid(l.left.asm) && Valid(l.right.asm) && CanStep(l, s, t)
  {
    match s
    case AtLeft(a) => l.(left := Act(l.left, a, t.fromLeft))
    case AtRight(a) => l.(right := Act(l.right, a, t.fromRight))
  }

  ghost predicate LinkSafe(l: Link, t: Traffic) {
    && Valid(l.left.asm) && Valid(l.right.asm)
    && SenderOk(l.left, t.fromLeft) && ReceiverOk(l.right, t.fromLeft, l.left.asm.cfg.ChunkSize())
    && SenderOk(l.right, t.fromRight) && ReceiverOk(l.left, t.fromRight, l.right.asm.cfg.ChunkSize())
  }

  lemma NextIsSafe(l: Link, s: Step, t: Traffic)
    requires LinkSafe(l, t) && CanStep(l, s, t)
    ensures LinkSafe(Next(l, s, t), t)
    ensures Next(l, s, t).left.asm.cfg == l.left.asm.cfg && Next(l, s, t).right.asm.cfg == l.right.asm.cfg
  {
    match s
    case AtLeft(a) =>
      ActKeepsValid(l.left, a, t.fromLeft);
      SenderActs(l.left, a, t.fromLeft);
      ReceiverActs(l.left, a, t.fromRight, t.fromLeft, l.right.asm.cfg.ChunkSize());
    case AtRight(a) =>
      ActKeepsValid(l.right, a, t.fromRight);
      SenderActs(l.right, a, t.fromRight);
      ReceiverActs(l.right, a, t.fromLeft, t.fromRight, l.left.asm.cfg.ChunkSize());
  }

  /** A run: each step is possible where it is taken. */
  ghost predicate CanRun(l: Link, steps: seq<Step>, t: Traffic)
    requires LinkSafe(l, t)
    decreases |steps|
  {
    if steps == [] then true
    else
      CanStep(l, steps[0], t)
      && (NextIsSafe(l, steps[0], t); CanRun(Next(l, steps[0], t), steps[1..], t))
  }

  ghost function Run(l: Link, steps: seq<Step>, t: Traffic): (r: Link)
    requires LinkSafe(l, t) && CanRun(l, steps, t)
    ensures LinkSafe(r, t)
    ensures r.left.asm.cfg == l.left.asm.cfg && r.right.asm.cfg == l.right.asm.cfg
    decreases |steps|
  {
    if steps == [] then l
    else
      NextIsSafe(l, steps[0], t);
      Run(Next(l, steps[0], t), steps[1..], t)
  }

  ghost function Start(left: Config, right: Config, t: Traffic): (l: Link)
    ensures LinkSafe(l, t)
  {
    Link(Idle(left), Idle(right))
  }

  /** Nothing but what was sent is ever delivered: in every run, at both ends, disconnects included. */
  lemma DeliveredIsSent(left: Config, right: Config, t: Traffic, steps: seq<Step>, id: Id, data: Bytes)
    requires CanRun(Start(left, right, t), steps, t)
    ensures var l := Run(Start(left, right, t), steps, t);
            && ((id, data) in l.right.delivered ==> id in t.fromLeft && data == t.fromLeft[id])
            && ((id, data) in l.left.delivered ==> id in t.fromRight && data == t.fromRight[id])
  {
    var l := Run(Start(left, right, t), steps, t);
    assert forall d :: d in l.right.delivered ==> d.0 in t.fromLeft && d.1 == t.fromLeft[d.0];
    assert forall d :: d in l.left.delivered ==> d.0 in t.fromRight && d.1 == t.fromRight[d.0];
  }

  ghost predicate NoDisconnectAtRight(steps: seq<Step>) {
    forall k :: 0 <= k < |steps| ==> steps[k] != AtRight(Disconnect)
  }

  lemma NextIsHonest(l: Link, s: Step, t: Traffic)
    requires LinkSafe(l, t) && CanStep(l, s, t) && s != AtRight(Disconnect)
    requires |Multi(t.fromLeft, l.left.asm.cfg.ChunkSize(), l.right.asm.cfg)| <= l.right.asm.cfg.Capacity()
    requires AcksHonest(l.left, l.right, t.fromLeft)
    ensures AcksHonest(Next(l, s, t).left, Next(l, s, t).right, t.fromLeft)
  {
    match s
    case AtLeft(a) => SenderKeepsHonest(l.left, l.right, a, t.fromLeft);
    case AtRight(a) => ReceiverKeepsHonest(l.left, l.right, a, t.fromLeft, t.fromRight);
  }

  lemma {:induction false} RunIsHonest(l: Link, steps: seq<Step>, t: Traffic)
    requires LinkSafe(l, t) && CanRun(l, steps, t) && NoDisconnectAtRight(steps)
    requires |Multi(t.fromLeft, l.left.asm.cfg.ChunkSize(), l.right.asm.cfg)| <= l.right.asm.cfg.Capacity()
    requires AcksHonest(l.left, l.right, t.fromLeft)
    ensures AcksHonest(Run(l, steps, t).left, Run(l, steps, t).right, t.fromLeft)
    decreases |steps|
  {
    if steps == [] {
    } else {
      NextIsSafe(l, steps[0], t);
      NextIsHonest(l, steps[0], t);
      RunIsHonest(Next(l, steps[0], t), steps[1..], t);
    }
  }
}
