/**
 * The whole system: the contract, the enclaves of the machines it pins, and the messages between
 * them, which may be delivered late, repeatedly, out of order, or never.
 */
module Composition {
  import opened Basics
  import opened Tokens
  import opened Messages
  import opened AuctionSpec
  import opened Solvency
  import opened History
  import opened Runs
  import opened EnclaveSpec
  import opened EnclaveRuns
  import Digest
  import Hex

  /** A result an enclave returned for an instruction, which its machine then signs. */
  datatype Signed = Signed(teeId: Address, instructionId: Word, result: ClearResult)

  /** `inbox` records the messages each machine has handled, in order. */
  datatype System = System(world: World, outbox: set<Instruction>, machines: map<Address, Store>,
                           inbox: map<Address, seq<Delivery>>, answers: set<Signed>)

  /** A chain event, or the delivery of an emitted instruction to its machine. */
  datatype SystemEvent =
    | OnChain(event: Event)
    | DeliverBid(instruction: Instruction, plaintext: Option<Bytes>, now: nat)
    | DeliverClear(instruction: Instruction, now: nat)

  function MachineOf(sys: System, teeId: Address): Store {
    if teeId in sys.machines then sys.machines[teeId] else EMPTY
  }

  function InboxOf(sys: System, teeId: Address): seq<Delivery> {
    if teeId in sys.inbox then sys.inbox[teeId] else []
  }

  ghost predicate MachinesOk(p: Platform, sys: System) {
    forall t :: t in sys.machines ==> StoreOk(p, sys.machines[t])
  }

  /** The machine signed this answer, and the digest is not that of something else. */
  ghost predicate Covers(d: Deployment, a: Auction, r: ClearResult, s: Signed) {
    var k := d.platform.keccak;
    && s.teeId == a.teeId
    && Digest.ClearDigest(k, s.result, s.instructionId, d.chainId) ==
       Digest.ClearDigest(k, r, a.clearInstructionId, d.chainId)
    && !Digest.LayersCollide(k, s.result, s.instructionId, d.chainId, r, a.clearInstructionId, d.chainId)
  }

  /** Nobody forges a machine's signature: one that recovers to a machine is over one of its answers. */
  ghost predicate Unforged(d: Deployment, sys: System, e: Event) {
    e.Transact? && e.call.SettleAuction? && e.call.auctionId in sys.world.chain.auctions ==>
      var a := sys.world.chain.auctions[e.call.auctionId];
      SignedByPinned(d, a, e.call.result, e.call.signature) ==>
        exists s :: s in sys.answers && Covers(d, a, e.call.result, s)
  }

  /** The instruction a chain event hands to the registry, if it does. */
  ghost function Emitted(d: Deployment, w: World, e: Event): set<Instruction> {
    if e.Transact? && Step(d, w, e).journal != w.journal then
      match Exec(d, w.chain, e.time, e.sender, e.call)
      case Reverted => {}
      case Committed(_, _, sent) => if sent.Some? then {sent.value} else {}
    else {}
  }

  function EnvelopeOf(i: Instruction): BidEnvelope
    requires i.payload.BidPayload?
  {
    BidEnvelope(i.auctionId, i.payload.bidder, Hex.Encode(i.payload.encryptedBid))
  }

  function MessageOf(i: Instruction): ClearMessage
    requires i.payload.ClearPayload?
  {
    ClearMessage(i.auctionId, i.payload.contractAddr, i.payload.floorPriceWei, i.payload.ceilingPriceWei)
  }

  function BidDelivery(i: Instruction, plaintext: Option<Bytes>, now: nat): Delivery
    requires i.payload.BidPayload?
  {
    BidArrives(Some(EnvelopeOf(i)), plaintext, now)
  }

  function ClearDelivery(i: Instruction, now: nat): Delivery
    requires i.payload.ClearPayload?
  {
    ClearArrives(Some(MessageOf(i)), now)
  }

  /** A machine handles one message. */
  ghost function Delivered(d: Deployment, retention: nat, sys: System, teeId: Address, e: Delivery): (next: System)
    requires MachinesOk(d.platform, sys)
    ensures MachinesOk(d.platform, next)
  {
    sys.(machines := sys.machines[teeId := Handle(d.platform, retention, MachineOf(sys, teeId), e)],
         inbox := sys.inbox[teeId := InboxOf(sys, teeId) + [e]])
  }

  /** A clear request also gets an answer, if it is valid. */
  ghost function Answered(d: Deployment, retention: nat, sys: System, i: Instruction, now: nat): set<Signed>
    requires MachinesOk(d.platform, sys) && i.payload.ClearPayload?
  {
    match AnswerIn(d.platform, retention, MachineOf(sys, i.teeId), MessageOf(i), now)
    case None => {}
    case Some(result) => {Signed(i.teeId, i.instructionId, result)}
  }

  ghost function AfterBid(d: Deployment, retention: nat, sys: System, i: Instruction, plaintext: Option<Bytes>,
                          now: nat): (next: System)
    requires MachinesOk(d.platform, sys) && i.payload.BidPayload?
    ensures MachinesOk(d.platform, next)
  {
    Delivered(d, retention, sys, i.teeId, BidDelivery(i, plaintext, now))
  }

  ghost function AfterClear(d: Deployment, retention: nat, sys: System, i: Instruction, now: nat): (next: System)
    requires MachinesOk(d.platform, sys) && i.payload.ClearPayload?
    ensures MachinesOk(d.platform, next)
  {
    Delivered(d, retention, sys, i.teeId, ClearDelivery(i, now)).
    (answers := sys.answers + Answered(d, retention, sys, i, now))
  }

  ghost function Advance(d: Deployment, retention: nat, sys: System, e: SystemEvent): (next: System)
    requires MachinesOk(d.platform, sys)
    ensures MachinesOk(d.platform, next)
  {
    match e
    case OnChain(event) =>
      if Unforged(d, sys, event) then
        sys.(world := Step(d, sys.world, event), outbox := sys.outbox + Emitted(d, sys.world, event))
      else sys
    case DeliverBid(i, plaintext, now) =>
      if i in sys.outbox && i.payload.BidPayload? then AfterBid(d, retention, sys, i, plaintext, now) else sys
    case DeliverClear(i, now) =>
      if i in sys.outbox && i.payload.ClearPayload? then AfterClear(d, retention, sys, i, now) else sys
  }

  ghost function AdvanceAll(d: Deployment, retention: nat, sys: System, es: seq<SystemEvent>): (next: System)
    requires MachinesOk(d.platform, sys)
    ensures MachinesOk(d.platform, next)
    decreases |es|
  {
    if es == [] then sys else AdvanceAll(d, retention, Advance(d, retention, sys, es[0]), es[1..])
  }

  ghost function Start(ledger: Ledger): System {
    System(Genesis(ledger), {}, map[], map[], {})
  }

  // ----- the invariant across both halves -----

  /**
   * An emitted bid is by an account with escrow; an emitted clear request carries the auction's own
   * collar, and its instruction is the one the auction has recorded.
   */
  ghost predicate InstructionOk(d: Deployment, s: Chain, i: Instruction) {
    && i.auctionId in s.auctions && i.teeId == s.auctions[i.auctionId].teeId
    && match i.payload
       case BidPayload(bidder, encryptedBid) => (i.auctionId, bidder) in s.escrow && encryptedBid != []
       case ClearPayload(contractAddr, floor, ceiling) =>
         && contractAddr == d.self
         && floor == s.auctions[i.auctionId].floorPriceWei && ceiling == s.auctions[i.auctionId].ceilingPriceWei
         && s.auctions[i.auctionId].phase != Open && i.instructionId == s.auctions[i.auctionId].clearInstructionId
  }

  /** The committed call that sent the instruction. */
  predicate SentBy(e: Entry, i: Instruction) {
    match i.payload
    case BidPayload(bidder, encryptedBid) =>
      e.sender == bidder && e.call == SubmitPrivateBid(i.auctionId, encryptedBid, Some(i.instructionId))
    case ClearPayload(_, _, _) => e.call == RequestClear(i.auctionId, Some(i.instructionId))
  }

  ghost predicate WasSent(journal: seq<Entry>, i: Instruction) {
    exists j :: 0 <= j < |journal| && SentBy(journal[j], i)
  }

  ghost predicate OutboxOk(d: Deployment, w: World, outbox: set<Instruction>) {
    forall i :: i in outbox ==> InstructionOk(d, w.chain, i) && WasSent(w.journal, i)
  }

  /** The message is what a machine reads from this instruction. */
  predicate Carries(i: Instruction, e: Delivery) {
    match e
    case BidArrives(envelope, _, _) => i.payload.BidPayload? && envelope == Some(EnvelopeOf(i))
    case ClearArrives(message, _) => i.payload.ClearPayload? && message == Some(MessageOf(i))
  }

  /** An emitted instruction for this machine brought the message. */
  ghost predicate Brought(outbox: set<Instruction>, teeId: Address, e: Delivery) {
    exists i :: i in outbox && i.teeId == teeId && Carries(i, e)
  }

  ghost predicate InboxOk(sys: System) {
    forall t, k :: 0 <= k < |InboxOf(sys, t)| ==> Brought(sys.outbox, t, InboxOf(sys, t)[k])
  }

  /** A fresh enclave after these messages. */
  ghost function Replay(p: Platform, retention: nat, es: seq<Delivery>): (s: Store)
    ensures StoreOk(p, s)
  {
    EmptyStoreOk(p);
    HandleAll(p, retention, EMPTY, es)
  }

  ghost predicate ReplayOk(d: Deployment, retention: nat, sys: System) {
    forall t :: MachineOf(sys, t) == Replay(d.platform, retention, InboxOf(sys, t))
  }

  /** The answer was given to the message at this place of the machine's inbox, which this instruction brought. */
  ghost predicate GivenAt(d: Deployment, retention: nat, sys: System, s: Signed, i: Instruction, h: nat) {
    var es := InboxOf(sys, s.teeId);
    && i in sys.outbox && i.payload.ClearPayload? && i.teeId == s.teeId && i.instructionId == s.instructionId
    && h < |es| && es[h] == ClearDelivery(i, es[h].now)
    && AnswerIn(d.platform, retention, Replay(d.platform, retention, es[..h]), MessageOf(i), es[h].now)
       == Some(s.result)
  }

  ghost predicate Given(d: Deployment, retention: nat, sys: System, s: Signed) {
    exists i, h: nat :: GivenAt(d, retention, sys, s, i, h)
  }

  ghost predicate AnswersOk(d: Deployment, retention: nat, sys: System) {
    forall s :: s in sys.answers ==> Given(d, retention, sys, s)
  }

  ghost predicate EndedBy(s: Chain, id: Word, a: Signed)
    requires id in s.auctions
  {
    a.result.auctionId == id && a.teeId == s.auctions[id].teeId && ShowsResult(s.auctions[id], a.result)
  }

  /** An auction that ended with a result ended with one its machine had answered. */
  ghost predicate EndingsOk(s: Chain, answers: set<Signed>) {
    forall id :: id in s.auctions && (s.auctions[id].phase == Settled || s.auctions[id].phase == NoFill) ==>
      exists a :: a in answers && EndedBy(s, id, a)
  }

  ghost predicate SystemInv(d: Deployment, retention: nat, sys: System) {
    && WorldInv(d, sys.world)
    && MachinesOk(d.platform, sys)
    && OutboxOk(d, sys.world, sys.outbox)
    && InboxOk(sys)
    && ReplayOk(d, retention, sys)
    && AnswersOk(d, retention, sys)
    && EndingsOk(sys.world.chain, sys.answers)
  }

  // ----- it survives chain events -----

  lemma InstructionStays(d: Deployment, s: Chain, t: Chain, i: Instruction)
    requires InstructionOk(d, s, i) && Evolves(s, t)
    ensures InstructionOk(d, t, i)
  {
    assert AuctionEvolves(s.auctions[i.auctionId], t.auctions[i.auctionId]);
  }

  /** What a committed call sends is in order. */
  lemma SentIsOk(d: Deployment, s: Chain, now: nat, sender: Address, call: Call)
    requires WellFormed(d, s) && Exec(d, s, now, sender, call).Committed?
    ensures Exec(d, s, now, sender, call).sent.Some? <==> call.SubmitPrivateBid? || call.RequestClear?
    ensures var o := Exec(d, s, now, sender, call);
            o.sent.Some? ==>
              && InstructionOk(d, o.chain, o.sent.value)
              && SentBy(Entry(now, sender, Target(s, call), call, o.payments), o.sent.value)
  {
    hide PayAll, SignedByPinned, SettlementPayments, AuctionOk;
    match call
    case SubmitPrivateBid(id, encryptedBid, instructionId) =>
      SubmitEvolves(d, s, now, sender, id, encryptedBid, instructionId);
    case _ =>
  }

  lemma EmittedOk(d: Deployment, w: World, e: Event)
    requires WorldInv(d, w)
    ensures OutboxOk(d, Step(d, w, e), Emitted(d, w, e))
  {
    hide Exec, InstructionOk, SentBy, TimelineOk, BooksOk, Solvent, SuppliesFit;
    if e.Transact? && Step(d, w, e).journal != w.journal {
      SentIsOk(d, w.chain, e.time, e.sender, e.call);
      var journal := Step(d, w, e).journal;
      forall i | i in Emitted(d, w, e)
        ensures WasSent(journal, i)
      {
        assert SentBy(journal[|journal| - 1], i);
      }
    }
  }

  lemma OutboxStays(d: Deployment, v: World, w: World, outbox: set<Instruction>)
    requires OutboxOk(d, v, outbox) && Evolves(v.chain, w.chain) && v.journal <= w.journal
    ensures OutboxOk(d, w, outbox)
  {
    hide Evolves, InstructionOk, SentBy;
    forall i | i in outbox
      ensures InstructionOk(d, w.chain, i) && WasSent(w.journal, i)
    {
      InstructionStays(d, v.chain, w.chain, i);
      var j :| 0 <= j < |v.journal| && SentBy(v.journal[j], i);
      assert w.journal[j] == v.journal[j];
    }
  }

  lemma EndingStays(d: Deployment, sys: System, e: Event, id: Word)
    requires WorldInv(d, sys.world) && EndingsOk(sys.world.chain, sys.answers) && Unforged(d, sys, e)
    requires Evolves(sys.world.chain, Step(d, sys.world, e).chain)
    requires var t := Step(d, sys.world, e).chain;
             id in t.auctions && (t.auctions[id].phase == Settled || t.auctions[id].phase == NoFill)
    ensures exists a :: a in sys.answers && EndedBy(Step(d, sys.world, e).chain, id, a)
  {
    hide Exec, TimelineOk, BooksOk, Solvent, SuppliesFit, Digest.ClearDigest, Digest.LayersCollide;
    var s, t := sys.world.chain, Step(d, sys.world, e).chain;
    if e.Transact? && Step(d, sys.world, e).journal != sys.world.journal {
      OnlySettleShows(d, s, e.time, e.sender, e.call, id);
      assert id in s.auctions && AuctionEvolves(s.auctions[id], t.auctions[id]);
      if s.auctions[id] != t.auctions[id] {
        var a := s.auctions[id];
        var signed :| signed in sys.answers && Covers(d, a, e.call.result, signed);
        Digest.DigestPinsResult(d.platform.keccak, signed.result, signed.instructionId, d.chainId,
                                e.call.result, a.clearInstructionId, d.chainId);
        assert EndedBy(t, id, signed);
      } else {
        var a :| a in sys.answers && EndedBy(s, id, a);
        assert EndedBy(t, id, a);
      }
    } else {
      var a :| a in sys.answers && EndedBy(s, id, a);
      assert EndedBy(t, id, a);
    }
  }

  lemma EndingsStay(d: Deployment, sys: System, e: Event)
    requires WorldInv(d, sys.world) && EndingsOk(sys.world.chain, sys.answers) && Unforged(d, sys, e)
    requires Evolves(sys.world.chain, Step(d, sys.world, e).chain)
    ensures EndingsOk(Step(d, sys.world, e).chain, sys.answers)
  {
    hide WorldInv, Exec, Evolves, Unforged, EndedBy, Step;
    var t := Step(d, sys.world, e).chain;
    forall id | id in t.auctions && (t.auctions[id].phase == Settled || t.auctions[id].phase == NoFill)
      ensures exists a :: a in sys.answers && EndedBy(t, id, a)
    {
      EndingStays(d, sys, e, id);
    }
  }

  /** More instructions and more messages at the end of an inbox take nothing away. */
  lemma GivenStays(d: Deployment, retention: nat, sys: System, next: System, s: Signed)
    requires Given(d, retention, sys, s)
    requires sys.outbox <= next.outbox && InboxOf(sys, s.teeId) <= InboxOf(next, s.teeId)
    ensures Given(d, retention, next, s)
  {
    hide Replay, AnswerIn, InboxOf;
    var i, h: nat :| GivenAt(d, retention, sys, s, i, h);
    assert InboxOf(sys, s.teeId)[..h] == InboxOf(next, s.teeId)[..h];
    assert GivenAt(d, retention, next, s, i, h);
  }

  lemma BroughtStays(outbox: set<Instruction>, more: set<Instruction>, t: Address, e: Delivery)
    requires Brought(outbox, t, e) && outbox <= more
    ensures Brought(more, t, e)
  {
    hide Carries;
    var i :| i in outbox && i.teeId == t && Carries(i, e);
    assert i in more;
  }

  lemma ChainEventKeepsInv(d: Deployment, retention: nat, sys: System, e: Event)
    requires SystemInv(d, retention, sys) && Unforged(d, sys, e)
    ensures SystemInv(d, retention,
                      sys.(world := Step(d, sys.world, e), outbox := sys.outbox + Emitted(d, sys.world, e)))
  {
    hide Step, Emitted, Unforged, Evolves, InstructionOk, WasSent, WorldInv, EndingsOk, StoreOk, Brought, Given, Replay;
    StepKeepsInv(d, sys.world, e);
    EmittedOk(d, sys.world, e);
    OutboxStays(d, sys.world, Step(d, sys.world, e), sys.outbox);
    EndingsStay(d, sys, e);
    var next := sys.(world := Step(d, sys.world, e), outbox := sys.outbox + Emitted(d, sys.world, e));
    forall t, k | 0 <= k < |InboxOf(next, t)|
      ensures Brought(next.outbox, t, InboxOf(next, t)[k])
    {
      BroughtStays(sys.outbox, next.outbox, t, InboxOf(sys, t)[k]);
    }
    forall s | s in sys.answers
      ensures Given(d, retention, next, s)
    {
      GivenStays(d, retention, sys, next, s);
    }
    forall t
      ensures MachineOf(next, t) == Replay(d.platform, retention, InboxOf(next, t))
    {
      assert MachineOf(next, t) == MachineOf(sys, t) && InboxOf(next, t) == InboxOf(sys, t);
    }
  }

  // ----- it survives deliveries -----

  /** One more message to one machine keeps every machine the replay of its inbox. */
  lemma DeliveredReplay(d: Deployment, retention: nat, sys: System, t: Address, e: Delivery)
    requires MachinesOk(d.platform, sys) && ReplayOk(d, retention, sys)
    ensures ReplayOk(d, retention, Delivered(d, retention, sys, t, e))
  {
    hide Handle, StoreOk, HandleAll;
    var next := Delivered(d, retention, sys, t, e);
    forall m
      ensures MachineOf(next, m) == Replay(d.platform, retention, InboxOf(next, m))
    {
      assert MachineOf(sys, m) == Replay(d.platform, retention, InboxOf(sys, m));
      if m == t {
        EmptyStoreOk(d.platform);
        HandleAllSnoc(d.platform, retention, EMPTY, InboxOf(sys, t), e);
      } else {
        assert MachineOf(next, m) == MachineOf(sys, m) && InboxOf(next, m) == InboxOf(sys, m);
      }
    }
  }

  lemma DeliveredInbox(d: Deployment, retention: nat, sys: System, i: Instruction, e: Delivery)
    requires MachinesOk(d.platform, sys) && InboxOk(sys) && i in sys.outbox && Carries(i, e)
    ensures InboxOk(Delivered(d, retention, sys, i.teeId, e))
  {
    hide Handle, StoreOk, Carries;
    var next := Delivered(d, retention, sys, i.teeId, e);
    forall t, k | 0 <= k < |InboxOf(next, t)|
      ensures Brought(next.outbox, t, InboxOf(next, t)[k])
    {
      if k < |InboxOf(sys, t)| {
        assert InboxOf(next, t)[k] == InboxOf(sys, t)[k];
      } else {
        assert t == i.teeId && InboxOf(next, t)[k] == e;
      }
    }
  }

  lemma DeliveredAnswers(d: Deployment, retention: nat, sys: System, t: Address, e: Delivery, s: Signed)
    requires MachinesOk(d.platform, sys) && Given(d, retention, sys, s)
    ensures Given(d, retention, Delivered(d, retention, sys, t, e), s)
  {
    hide Handle, StoreOk, Given;
    GivenStays(d, retention, sys, Delivered(d, retention, sys, t, e), s);
  }

  lemma DeliveryKeepsInv(d: Deployment, retention: nat, sys: System, i: Instruction, e: Delivery)
    requires SystemInv(d, retention, sys) && i in sys.outbox && Carries(i, e)
    ensures SystemInv(d, retention, Delivered(d, retention, sys, i.teeId, e))
  {
    hide WorldInv, OutboxOk, InboxOk, ReplayOk, Given, EndingsOk, Carries, StoreOk, Handle;
    DeliveredReplay(d, retention, sys, i.teeId, e);
    DeliveredInbox(d, retention, sys, i, e);
    forall s | s in sys.answers
      ensures Given(d, retention, Delivered(d, retention, sys, i.teeId, e), s)
    {
      DeliveredAnswers(d, retention, sys, i.teeId, e, s);
    }
  }

  lemma MoreAnswers(s: Chain, answers: set<Signed>, more: set<Signed>)
    requires EndingsOk(s, answers) && answers <= more
    ensures EndingsOk(s, more)
  {
    forall id | id in s.auctions && (s.auctions[id].phase == Settled || s.auctions[id].phase == NoFill)
      ensures exists a :: a in more && EndedBy(s, id, a)
    {
      var a :| a in answers && EndedBy(s, id, a);
      assert a in more;
    }
  }

  /** A fresh answer was given to the last message of the inbox. */
  lemma AnsweredGiven(d: Deployment, retention: nat, sys: System, i: Instruction, now: nat, s: Signed)
    requires SystemInv(d, retention, sys) && i in sys.outbox && i.payload.ClearPayload?
    requires MachinesOk(d.platform, sys) && s in Answered(d, retention, sys, i, now)
    ensures Given(d, retention, AfterClear(d, retention, sys, i, now), s)
  {
    hide WorldInv, OutboxOk, InboxOk, AnswersOk, EndingsOk, StoreOk, Handle, AnswerIn, Replay;
    var next := AfterClear(d, retention, sys, i, now);
    var h := |InboxOf(sys, i.teeId)|;
    assert InboxOf(next, i.teeId)[..h] == InboxOf(sys, i.teeId);
    assert GivenAt(d, retention, next, s, i, h);
  }

  lemma ClearDeliveryKeepsInv(d: Deployment, retention: nat, sys: System, i: Instruction, now: nat)
    requires SystemInv(d, retention, sys) && i in sys.outbox && i.payload.ClearPayload?
    ensures SystemInv(d, retention, AfterClear(d, retention, sys, i, now))
  {
    hide WorldInv, OutboxOk, InboxOk, ReplayOk, EndingsOk, StoreOk, Handle, GivenAt;
    var next := AfterClear(d, retention, sys, i, now);
    var mid := Delivered(d, retention, sys, i.teeId, ClearDelivery(i, now));
    DeliveryKeepsInv(d, retention, sys, i, ClearDelivery(i, now));
    MoreAnswers(sys.world.chain, sys.answers, next.answers);
    SameMachines(d, retention, mid, next);
    forall s | s in next.answers
      ensures Given(d, retention, next, s)
    {
      if s in sys.answers {
        GivenStays(d, retention, mid, next, s);
      } else {
        AnsweredGiven(d, retention, sys, i, now, s);
      }
    }
  }

  lemma SameMachines(d: Deployment, retention: nat, sys: System, next: System)
    requires InboxOk(sys) && ReplayOk(d, retention, sys) && next == sys.(answers := next.answers)
    ensures InboxOk(next) && ReplayOk(d, retention, next)
  {
    hide Brought, Replay;
    assert forall t :: InboxOf(next, t) == InboxOf(sys, t);
    assert forall t :: MachineOf(next, t) == MachineOf(sys, t);
  }

  lemma InvHasMachines(d: Deployment, retention: nat, sys: System)
    requires SystemInv(d, retention, sys)
    ensures MachinesOk(d.platform, sys)
  {
  }

  lemma AdvanceKeepsInv(d: Deployment, retention: nat, sys: System, e: SystemEvent)
    requires SystemInv(d, retention, sys)
    ensures MachinesOk(d.platform, sys) && SystemInv(d, retention, Advance(d, retention, sys, e))
  {
    hide SystemInv, Delivered, AfterClear, Step, Emitted, Unforged;
    InvHasMachines(d, retention, sys);
    match e
    case OnChain(event) =>
      if Unforged(d, sys, event) {
        ChainEventKeepsInv(d, retention, sys, event);
      }
    case DeliverBid(i, plaintext, now) =>
      if i in sys.outbox && i.payload.BidPayload? {
        DeliveryKeepsInv(d, retention, sys, i, BidDelivery(i, plaintext, now));
      }
    case DeliverClear(i, now) =>
      if i in sys.outbox && i.payload.ClearPayload? {
        ClearDeliveryKeepsInv(d, retention, sys, i, now);
      }
  }

  /** Both halves' invariants, and the one between them, hold after every run of the whole system. */
  lemma {:induction false} AdvanceAllKeepsInv(d: Deployment, retention: nat, sys: System, es: seq<SystemEvent>)
    requires SystemInv(d, retention, sys)
    ensures MachinesOk(d.platform, sys) && SystemInv(d, retention, AdvanceAll(d, retention, sys, es))
    decreases |es|
  {
    hide SystemInv, Advance;
    InvHasMachines(d, retention, sys);
    if es != [] {
      AdvanceKeepsInv(d, retention, sys, es[0]);
      AdvanceAllKeepsInv(d, retention, Advance(d, retention, sys, es[0]), es[1..]);
    }
  }

  ghost predicate SystemReachable(d: Deployment, retention: nat, sys: System) {
    exists ledger, es :: SuppliesFit(ledger) && sys == AdvanceAll(d, retention, Start(ledger), es)
  }

  lemma SystemReachableInv(d: Deployment, retention: nat, sys: System)
    requires SystemReachable(d, retention, sys)
    ensures SystemInv(d, retention, sys)
  {
    hide WorldInv, SuppliesFit, AdvanceAll;
    var ledger, es :| SuppliesFit(ledger) && sys == AdvanceAll(d, retention, Start(ledger), es);
    GenesisInv(d, ledger);
    AdvanceAllKeepsInv(d, retention, Start(ledger), es);
  }

  lemma {:induction false} AdvanceAllConcat(d: Deployment, retention: nat, sys: System, es: seq<SystemEvent>,
          fs: seq<SystemEvent>)
    requires MachinesOk(d.platform, sys)
    ensures AdvanceAll(d, retention, sys, es + fs) ==
            AdvanceAll(d, retention, AdvanceAll(d, retention, sys, es), fs)
    decreases |es|
  {
    hide Advance, MachinesOk;
    if es == [] {
      assert es + fs == fs;
    } else {
      assert (es + fs)[1..] == es[1..] + fs;
      AdvanceAllConcat(d, retention, Advance(d, retention, sys, es[0]), es[1..], fs);
    }
  }

  lemma StaysReachable(d: Deployment, retention: nat, sys: System, fs: seq<SystemEvent>)
    requires SystemReachable(d, retention, sys)
    ensures MachinesOk(d.platform, sys) && SystemReachable(d, retention, AdvanceAll(d, retention, sys, fs))
  {
    hide AdvanceAll, SuppliesFit;
    var ledger, es :| SuppliesFit(ledger) && sys == AdvanceAll(d, retention, Start(ledger), es);
    AdvanceAllConcat(d, retention, Start(ledger), es, fs);
  }
}
