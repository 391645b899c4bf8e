/** Inputs for which two natural promises fail: that repeating a request, or reordering bids, changes nothing. */
module Examples {
  import opened Basics
  import opened Sums
  import opened Tokens
  import opened Messages
  import opened Quote
  import opened AuctionSpec
  import opened Solvency
  import opened History
  import opened Runs
  import opened Keys
  import opened Clearing
  import opened EnclaveSpec
  import opened EnclaveRuns
  import opened Rounds
  import opened Composition
  import opened EndToEnd
  import Digest
  import Hex

  // ----- in any system -----

  /** Both bids, the clear, and after the retention window the losing bid and the clear once more. */
  function LateSchedule(ia: Instruction, ib: Instruction, ic: Instruction, pa: Bytes, pb: Bytes, retention: nat)
    : seq<SystemEvent>
  {
    [DeliverBid(ia, Some(pa), 0), DeliverBid(ib, Some(pb), 0), DeliverClear(ic, 0),
     DeliverBid(ia, Some(pa), retention), DeliverClear(ic, retention)]
  }

  /** Two competing bids and the clear request of one auction wait for a machine that has handled nothing. */
  ghost predicate Waiting(d: Deployment, sys: System, ia: Instruction, ib: Instruction, ic: Instruction,
                          pa: Bytes, pb: Bytes, a: StoredBid, b: StoredBid)
  {
    && {ia, ib, ic} <= sys.outbox && ia.payload.BidPayload? && ib.payload.BidPayload? && ic.payload.ClearPayload?
    && ia.auctionId == ib.auctionId == ic.auctionId && InboxOf(sys, ic.teeId) == []
    && BidFor(d.platform, BidDelivery(ia, Some(pa), 0), ClearKey(MessageOf(ic))) == Some(a)
    && BidFor(d.platform, BidDelivery(ib, Some(pb), 0), ClearKey(MessageOf(ic))) == Some(b)
    && InCollar(a, ic.payload.floorPriceWei, ic.payload.ceilingPriceWei)
    && InCollar(b, ic.payload.floorPriceWei, ic.payload.ceilingPriceWei)
    && a.bid.bidder != b.bid.bidder && Beats(b, a)
  }

  ghost function AfterSchedule(d: Deployment, retention: nat, sys: System, ia: Instruction, ib: Instruction,
                               ic: Instruction, pa: Bytes, pb: Bytes): System
    requires MachinesOk(d.platform, sys)
  {
    AdvanceAll(d, retention, sys, LateSchedule(ia, ib, ic, pa, pb, retention))
  }

  function LateInbox(ia: Instruction, ib: Instruction, ic: Instruction, pa: Bytes, pb: Bytes, retention: nat)
    : seq<Delivery>
    requires ia.payload.BidPayload? && ib.payload.BidPayload? && ic.payload.ClearPayload?
  {
    [BidDelivery(ia, Some(pa), 0), BidDelivery(ib, Some(pb), 0), ClearDelivery(ic, 0),
     BidDelivery(ia, Some(pa), retention), ClearDelivery(ic, retention)]
  }

  lemma AdvanceFive(d: Deployment, retention: nat, sys: System, e1: SystemEvent, e2: SystemEvent, e3: SystemEvent,
                    e4: SystemEvent, e5: SystemEvent)
    requires MachinesOk(d.platform, sys)
    ensures AdvanceAll(d, retention, sys, [e1, e2, e3, e4, e5]) ==
            (var s1 := Advance(d, retention, sys, e1);
             var s2 := Advance(d, retention, s1, e2);
             var s3 := Advance(d, retention, s2, e3);
             var s4 := Advance(d, retention, s3, e4);
             Advance(d, retention, s4, e5))
  {
    hide Advance, MachinesOk;
    var s1 := Advance(d, retention, sys, e1);
    var s2 := Advance(d, retention, s1, e2);
    var s3 := Advance(d, retention, s2, e3);
    var s4 := Advance(d, retention, s3, e4);
    var s5 := Advance(d, retention, s4, e5);
    assert [e1, e2, e3, e4, e5][1..] == [e2, e3, e4, e5] && [e2, e3, e4, e5][1..] == [e3, e4, e5];
    assert [e3, e4, e5][1..] == [e4, e5] && [e4, e5][1..] == [e5] && [e5][1..] == [];
    assert AdvanceAll(d, retention, s4, [e5]) == s5;
    assert AdvanceAll(d, retention, s3, [e4, e5]) == s5;
    assert AdvanceAll(d, retention, s2, [e3, e4, e5]) == s5;
    assert AdvanceAll(d, retention, s1, [e2, e3, e4, e5]) == s5;
  }

  lemma BidStep(d: Deployment, retention: nat, sys: System, i: Instruction, plaintext: Bytes, now: nat)
    requires SystemInv(d, retention, sys) && i in sys.outbox && i.payload.BidPayload?
    ensures MachinesOk(d.platform, sys)
    ensures var next := Advance(d, retention, sys, DeliverBid(i, Some(plaintext), now));
            && SystemInv(d, retention, next) && next.outbox == sys.outbox && next.answers == sys.answers
            && next.world == sys.world
            && InboxOf(next, i.teeId) == InboxOf(sys, i.teeId) + [BidDelivery(i, Some(plaintext), now)]
  {
    hide SystemInv, Handle;
    AdvanceKeepsInv(d, retention, sys, DeliverBid(i, Some(plaintext), now));
  }

  lemma ClearStepOf(d: Deployment, retention: nat, sys: System, i: Instruction, now: nat, r: ClearResult)
    requires SystemInv(d, retention, sys) && i in sys.outbox && i.payload.ClearPayload?
    requires AnswerIn(d.platform, retention, Replay(d.platform, retention, InboxOf(sys, i.teeId)), MessageOf(i), now)
             == Some(r)
    ensures MachinesOk(d.platform, sys)
    ensures var next := Advance(d, retention, sys, DeliverClear(i, now));
            && SystemInv(d, retention, next) && next.outbox == sys.outbox
            && next.answers == sys.answers + {Signed(i.teeId, i.instructionId, r)}
            && next.world == sys.world
            && InboxOf(next, i.teeId) == InboxOf(sys, i.teeId) + [ClearDelivery(i, now)]
  {
    hide WorldInv, OutboxOk, InboxOk, AnswersOk, EndingsOk, StoreOk, Handle, AnswerIn, HandleAll;
    AdvanceKeepsInv(d, retention, sys, DeliverClear(i, now));
    assert MachineOf(sys, i.teeId) == Replay(d.platform, retention, InboxOf(sys, i.teeId));
  }

  /** Wherever two competing bids wait, this schedule has the machine sign for the better one, then for the other. */
  lemma BothGetSigned(d: Deployment, retention: nat, sys: System, ia: Instruction, ib: Instruction, ic: Instruction,
                      pa: Bytes, pb: Bytes, a: StoredBid, b: StoredBid)
    requires SystemInv(d, retention, sys) && d.self != ZERO_ADDRESS
    requires ic.payload.ClearPayload? && Waiting(d, sys, ia, ib, ic, pa, pb, a, b)
    ensures MachinesOk(d.platform, sys)
    ensures var m, next := MessageOf(ic), AfterSchedule(d, retention, sys, ia, ib, ic, pa, pb);
            && Signed(ic.teeId, ic.instructionId, WonBy(m, b, 2)) in next.answers
            && Signed(ic.teeId, ic.instructionId, WonBy(m, a, 1)) in next.answers
            && next.world == sys.world && next.outbox == sys.outbox && SystemInv(d, retention, next)
            && InboxOf(next, ic.teeId) == LateInbox(ia, ib, ic, pa, pb, retention)
  {
    hide SystemInv, Advance, BidFor, InCollar, Beats, AnswerIn, Replay, InboxOf, ClearKey, ValidClear;
    InvHasMachines(d, retention, sys);
    var m, key := MessageOf(ic), ClearKey(MessageOf(ic));
    SameMachine(d, retention, sys, ia, ib, ic);
    var ea, eb := BidDelivery(ia, Some(pa), 0), BidDelivery(ib, Some(pb), 0);
    LateWinner(d.platform, retention, ea, eb, m, a, b);
    var es := Replayed(ea, eb, m, retention);
    BidStep(d, retention, sys, ia, pa, 0);
    var s1 := Advance(d, retention, sys, DeliverBid(ia, Some(pa), 0));
    BidStep(d, retention, s1, ib, pb, 0);
    var s2 := Advance(d, retention, s1, DeliverBid(ib, Some(pb), 0));
    assert InboxOf(s2, ic.teeId) == es[..2];
    IsReplay(d.platform, retention, es[..2]);
    ClearStepOf(d, retention, s2, ic, 0, WonBy(m, b, 2));
    var s3 := Advance(d, retention, s2, DeliverClear(ic, 0));
    BidStep(d, retention, s3, ia, pa, retention);
    var s4 := Advance(d, retention, s3, DeliverBid(ia, Some(pa), retention));
    assert InboxOf(s4, ic.teeId) == es;
    IsReplay(d.platform, retention, es);
    ClearStepOf(d, retention, s4, ic, retention, WonBy(m, a, 1));
    AdvanceFive(d, retention, sys, DeliverBid(ia, Some(pa), 0), DeliverBid(ib, Some(pb), 0), DeliverClear(ic, 0),
                DeliverBid(ia, Some(pa), retention), DeliverClear(ic, retention));
  }

  lemma IsReplay(p: Platform, retention: nat, es: seq<Delivery>)
    ensures StoreOk(p, EMPTY) && Replay(p, retention, es) == HandleAll(p, retention, EMPTY, es)
  {
  }

  lemma SameMachine(d: Deployment, retention: nat, sys: System, ia: Instruction, ib: Instruction, ic: Instruction)
    requires SystemInv(d, retention, sys) && {ia, ib, ic} <= sys.outbox && ic.payload.ClearPayload?
    requires ia.auctionId == ib.auctionId == ic.auctionId && d.self != ZERO_ADDRESS
    ensures ia.teeId == ib.teeId == ic.teeId && ValidClear(MessageOf(ic))
  {
    hide TimelineOk, BooksOk, EscrowOk, WinnersOk, Solvent, SuppliesFit, InboxOk, ReplayOk, AnswersOk, EndingsOk,
         WasSent;
    assert ia in sys.outbox && ib in sys.outbox && ic in sys.outbox;
    assert InstructionOk(d, sys.world.chain, ia) && InstructionOk(d, sys.world.chain, ib);
    assert InstructionOk(d, sys.world.chain, ic);
    RequestIsValid(d, sys.world.chain, ic.auctionId);
  }

  /**
   * Then the contract takes the losing bid's result: the clear request answered again after its
   * first answer has expired can sell the lot to a bid that another one in the collar beats.
   */
  lemma LosingBidCanSettle(d: Deployment, retention: nat, sys: System, ia: Instruction, ib: Instruction,
                           ic: Instruction, pa: Bytes, pb: Bytes, a: StoredBid, b: StoredBid, now: nat,
                           signature: Bytes)
    requires HashNeverZero(d.platform) && d.self != ZERO_ADDRESS && SystemReachable(d, retention, sys)
    requires ic.payload.ClearPayload? && Waiting(d, sys, ia, ib, ic, pa, pb, a, b) && ic.instructionId != 0
    requires SignedAnswer(d, Signed(ic.teeId, ic.instructionId, WonBy(MessageOf(ic), a, 1)), signature)
    ensures MachinesOk(d.platform, sys) && ic.auctionId in sys.world.chain.auctions
    ensures var next := AfterSchedule(d, retention, sys, ia, ib, ic, pa, pb);
            var auction := sys.world.chain.auctions[ic.auctionId];
            && next.world == sys.world && SystemReachable(d, retention, next)
            && (auction.phase == ClearRequested && now <= auction.settleDeadline ==>
                  Settle(d, next.world.chain, now, ic.auctionId, WonBy(MessageOf(ic), a, 1), signature).Committed?)
  {
    hide SystemReachable, SystemInv, Waiting, Settle, SignedAnswer, ResultAccepted;
    SystemReachableInv(d, retention, sys);
    BothGetSigned(d, retention, sys, ia, ib, ic, pa, pb, a, b);
    var next := AfterSchedule(d, retention, sys, ia, ib, ic, pa, pb);
    StaysReachable(d, retention, sys, LateSchedule(ia, ib, ic, pa, pb, retention));
    AnswersAlwaysSettle(d, retention, next, Signed(ic.teeId, ic.instructionId, WonBy(MessageOf(ic), a, 1)), now,
                        signature);
  }

  // ----- one run from deployment to the wrong winner -----

  const SELF: Address := 100
  const SELLER: Address := 50
  const TEE: Address := 7

  function Bid(bidder: Address, price: Word): PrivateBid {
    PrivateBid(bidder, SELF, 1, 1, price, 1)
  }

  /** Plaintexts 1 and 2 are bids of accounts 1 and 2 at these prices; 3 is another bid of account 1. */
  function DecodeExample(plaintext: Bytes): Option<PrivateBid> {
    if plaintext == [1] then Some(Bid(1, 2))
    else if plaintext == [2] then Some(Bid(2, 3))
    else if plaintext == [3] then Some(Bid(1, 4))
    else None
  }

  const D := Deployment(SELF, 1, Platform(b => 1, DecodeExample, (digest, signature) => Some(TEE)))

  const REQUEST := ClearMessage(1, SELF, 1, 5)

  function Arrival(bidder: Address, plaintext: Bytes): Delivery {
    BidArrives(Some(BidEnvelope(1, bidder, Hex.Encode([9]))), Some(plaintext), 0)
  }

  lemma ArrivalIsBid(bidder: Address, plaintext: Bytes)
    requires DecodeExample(plaintext).Some? && DecodeExample(plaintext).value.bidder == bidder
    ensures BidFor(D.platform, Arrival(bidder, plaintext), ClearKey(REQUEST)) ==
            Some(StoredBid(DecodeExample(plaintext).value, 1))
  {
    hide AuctionKey, Hex.Encode, Hex.Decode;
    Hex.DecodeEncode([9]);
  }

  /** One account, one nonce, two prices: the order of arrival decides what is stored and what the lot is sold for. */
  lemma OrderDecides(retention: nat, now: nat)
    ensures var one, other := [Arrival(1, [1]), Arrival(1, [3])], [Arrival(1, [3]), Arrival(1, [1])];
            var s, t := HandleAll(D.platform, retention, EMPTY, one), HandleAll(D.platform, retention, EMPTY, other);
            && multiset(one) == multiset(other)
            && BidsAt(s, ClearKey(REQUEST)) != BidsAt(t, ClearKey(REQUEST))
            && AnswerIn(D.platform, retention, s, REQUEST, now) == Some(WonBy(REQUEST, StoredBid(Bid(1, 2), 1), 1))
            && AnswerIn(D.platform, retention, t, REQUEST, now) == Some(WonBy(REQUEST, StoredBid(Bid(1, 4), 1), 1))
  {
    hide BidFor, Arrival, HandleAll, AnswerIn, BidderKey, ClearKey;
    ArrivalIsBid(1, [1]);
    ArrivalIsBid(1, [3]);
    var x, y := StoredBid(Bid(1, 2), 1), StoredBid(Bid(1, 4), 1);
    FirstOfTwo(D.platform, retention, Arrival(1, [1]), Arrival(1, [3]), REQUEST, x, y, now);
    FirstOfTwo(D.platform, retention, Arrival(1, [3]), Arrival(1, [1]), REQUEST, y, x, now);
    var k := BidderKey(1);
    assert (map[k := x])[k] != (map[k := y])[k];
  }

  const BEFORE := Ledger(Token(map[SELLER := 1], map[SELLER := 1]), Token(map[1 := 1, 2 := 1], map[1 := 1, 2 := 1]))

  function Lot(clearId: Word, phase: Phase): Auction {
    Auction(SELLER, TEE, 1, 1, 5, 1, 1, 2, clearId, ZERO_ADDRESS, 0, 0, 0, 0, phase)
  }

  /** The contract after each of five calls. */
  function Stages(n: nat): Chain {
    var id := FIRST_PUBLIC_EXTENSION_ID;
    var base := Token(map[SELLER := 0, SELF := 1], map[SELLER := 0]);
    match n
    case 0 => Chain(0, false, 1, map[], map[], BEFORE)
    case 1 => Chain(id, false, 1, map[], map[], BEFORE)
    case 2 => Chain(id, false, 2, map[1 := Lot(0, Open)], map[], Ledger(base, BEFORE.quote))
    case 3 => Chain(id, false, 2, map[1 := Lot(0, Open)], map[(1, 1) := 1],
                    Ledger(base, Token(map[1 := 0, 2 := 1, SELF := 1], map[1 := 0, 2 := 1])))
    case 4 => Chain(id, false, 2, map[1 := Lot(0, Open)], map[(1, 1) := 1, (1, 2) := 1],
                    Ledger(base, Token(map[1 := 0, 2 := 0, SELF := 2], map[1 := 0, 2 := 0])))
    case _ => Chain(id, false, 2, map[1 := Lot(103, ClearRequested)], map[(1, 1) := 1, (1, 2) := 1],
                    Ledger(base, Token(map[1 := 0, 2 := 0, SELF := 2], map[1 := 0, 2 := 0])))
  }

  function CallAt(n: nat): Event {
    match n
    case 0 =>
      var id := FIRST_PUBLIC_EXTENSION_ID;
      Transact(0, SELLER, SetExtensionId(Some(id + 1), map[id := SELF]))
    case 1 => Transact(0, SELLER, CreateAuction(1, 1, 5, 1, 2, Some([TEE])))
    case 2 => Transact(0, 1, SubmitPrivateBid(1, [1], Some(101)))
    case 3 => Transact(0, 2, SubmitPrivateBid(1, [2], Some(102)))
    case _ => Transact(1, SELLER, RequestClear(1, Some(103)))
  }

  const LOW := Instruction(101, TEE, 1, BidPayload(1, [1]))
  const HIGH := Instruction(102, TEE, 1, BidPayload(2, [2]))
  const CLEAR := Instruction(103, TEE, 1, ClearPayload(SELF, 1, 5))

  function SentAt(n: nat): Option<Instruction> {
    match n case 0 => None case 1 => None case 2 => Some(LOW) case 3 => Some(HIGH) case _ => Some(CLEAR)
  }

  lemma PaidOnce(l: Ledger, p: Payment)
    ensures PayAll(SELF, l, [p]) == Pay(SELF, l, p)
  {
    assert [p][1..] == [];
  }

  ghost predicate Does(n: nat) {
    var e, o := CallAt(n), Exec(D, Stages(n), CallAt(n).time, CallAt(n).sender, CallAt(n).call);
    o.Committed? && o.chain == Stages(n + 1) && o.sent == SentAt(n)
  }

  lemma Registers()
    ensures Does(0)
  {
    var id := FIRST_PUBLIC_EXTENSION_ID;
    assert FirstRegistered(id, id + 1, map[id := SELF], SELF) == Some(id);
  }

  lemma Creates()
    ensures Does(1)
  {
    PaidOnce(BEFORE, Pull(Base, SELLER, 1));
    assert CheckedQuoteFor(1, 5) == Some(1);
    assert BEFORE.base.balances[SELLER := 0][SELF := 1] == map[SELLER := 0, SELF := 1];
    assert BEFORE.base.allowances[SELLER := 0] == map[SELLER := 0];
    assert Pay(SELF, BEFORE, Pull(Base, SELLER, 1)) == Some(Stages(2).ledger);
  }

  lemma FirstPays()
    ensures Pay(SELF, Stages(2).ledger, Pull(Quote, 1, 1)) == Some(Stages(3).ledger)
  {
    var l := Stages(2).ledger;
    assert l.quote.balances[1 := 0][SELF := 1] == map[1 := 0, 2 := 1, SELF := 1];
    assert l.quote.allowances[1 := 0] == map[1 := 0, 2 := 1];
  }

  lemma FirstBids()
    ensures Does(2)
  {
    hide CheckedQuoteFor, PayAll, Pay;
    var l := Stages(2).ledger;
    PaidOnce(l, Pull(Quote, 1, 1));
    FirstPays();
  }

  lemma SecondBids()
    ensures Does(3)
  {
    var l := Stages(3).ledger;
    PaidOnce(l, Pull(Quote, 2, 1));
    assert l.quote.balances[2 := 0][SELF := 2] == map[1 := 0, 2 := 0, SELF := 2];
    assert l.quote.allowances[2 := 0] == map[1 := 0, 2 := 0];
    assert Pay(SELF, l, Pull(Quote, 2, 1)) == Some(Stages(4).ledger);
    assert Stages(3).escrow[(1, 2) := 1] == Stages(4).escrow;
  }

  lemma AsksToClear()
    ensures Does(4)
  {
    assert Stages(4).auctions[1 := Lot(103, ClearRequested)] == Stages(5).auctions;
  }

  /** The system follows: storage as staged, the instruction in the outbox, nothing delivered. */
  lemma CallStep(retention: nat, sys: System, n: nat)
    requires n < 5 && Does(n) && MachinesOk(D.platform, sys)
    requires sys.world.chain == Stages(n) && sys.world.now <= CallAt(n).time
    ensures var next := Advance(D, retention, sys, OnChain(CallAt(n)));
            && next.world.chain == Stages(n + 1) && next.world.now == CallAt(n).time
            && next.outbox == sys.outbox + (if SentAt(n).Some? then {SentAt(n).value} else {})
            && next.inbox == sys.inbox
  {
    hide Exec, Stages, SignedByPinned;
  }

  lemma SuppliesSmall()
    ensures SuppliesFit(BEFORE)
  {
    var none: map<Address, nat> := map[];
    SumUpdate(none, SELLER, 1);
    SumUpdate(none, 1, 1);
    SumUpdate(none[1 := 1], 2, 1);
    assert none[SELLER := 1] == BEFORE.base.balances && none[1 := 1][2 := 1] == BEFORE.quote.balances;
  }

  /** After the five calls two bids and the clear request wait for the machine. */
  ghost function Sealed(retention: nat): System {
    AdvanceAll(D, retention, Start(BEFORE),
               [OnChain(CallAt(0)), OnChain(CallAt(1)), OnChain(CallAt(2)), OnChain(CallAt(3)), OnChain(CallAt(4))])
  }

  lemma SealedIs(retention: nat)
    ensures SystemReachable(D, retention, Sealed(retention))
    ensures Sealed(retention).world.chain == Stages(5) && Sealed(retention).world.now == 1
    ensures Sealed(retention).outbox == {LOW, HIGH, CLEAR} && InboxOf(Sealed(retention), TEE) == []
  {
    hide Advance, Exec, SuppliesFit;
    SuppliesSmall();
    Registers();
    Creates();
    FirstBids();
    SecondBids();
    AsksToClear();
    var s0 := Start(BEFORE);
    CallStep(retention, s0, 0);
    var s1 := Advance(D, retention, s0, OnChain(CallAt(0)));
    CallStep(retention, s1, 1);
    var s2 := Advance(D, retention, s1, OnChain(CallAt(1)));
    CallStep(retention, s2, 2);
    var s3 := Advance(D, retention, s2, OnChain(CallAt(2)));
    CallStep(retention, s3, 3);
    var s4 := Advance(D, retention, s3, OnChain(CallAt(3)));
    CallStep(retention, s4, 4);
    AdvanceFive(D, retention, s0, OnChain(CallAt(0)), OnChain(CallAt(1)), OnChain(CallAt(2)), OnChain(CallAt(3)),
                OnChain(CallAt(4)));
  }

  const LOSER := StoredBid(Bid(1, 2), 1)
  const BETTER := StoredBid(Bid(2, 3), 1)

  lemma SealedWaits(retention: nat)
    ensures Waiting(D, Sealed(retention), LOW, HIGH, CLEAR, [1], [2], LOSER, BETTER)
  {
    hide Sealed, AuctionKey, Hex.Encode, Hex.Decode;
    SealedIs(retention);
    Hex.DecodeEncode([1]);
    Hex.DecodeEncode([2]);
  }

  function SettleForLoser(): Event {
    Transact(2, SELLER, SettleAuction(1, WonBy(REQUEST, LOSER, 1), []))
  }

  lemma SettleStep(retention: nat, sys: System)
    requires SystemInv(D, retention, sys) && sys.world.now <= 2 && 1 in sys.world.chain.auctions
    requires sys.world.chain.auctions[1].teeId == TEE && sys.world.chain.auctions[1].clearInstructionId == 103
    requires Signed(TEE, 103, WonBy(REQUEST, LOSER, 1)) in sys.answers
    requires Settle(D, sys.world.chain, 2, 1, WonBy(REQUEST, LOSER, 1), []).Committed?
    ensures MachinesOk(D.platform, sys)
    ensures var next := Advance(D, retention, sys, OnChain(SettleForLoser()));
            && next.inbox == sys.inbox
            && 1 in next.world.chain.auctions && ShowsResult(next.world.chain.auctions[1], WonBy(REQUEST, LOSER, 1))
  {
    hide Settle, PayAll, SignedByPinned, WinnersOk, TimelineOk, BooksOk, AuctionsOk, EscrowOk, Solvent,
         SuppliesFit, OutboxOk, InboxOk, ReplayOk, AnswersOk, EndingsOk, Digest.ClearDigest;
    var e, r := SettleForLoser(), WonBy(REQUEST, LOSER, 1);
    assert Covers(D, sys.world.chain.auctions[1], r, Signed(TEE, 103, r));
    assert Unforged(D, sys, e);
    ExecEntryOk(D, sys.world.chain, 2, SELLER, e.call);
  }

  /**
   * For every retention window there is a run, from deployment on, in which accounts 1 and 2 bid 2
   * and 3 in a collar of 1 to 5, both bids are the first to reach the machine, and the auction ends
   * with account 1 paying its price.
   */
  lemma LosingBidWins(retention: nat) returns (sys: System)
    ensures SystemReachable(D, retention, sys) && 1 in sys.world.chain.auctions
    ensures var a := sys.world.chain.auctions[1]; a.phase == Settled && a.winner == 1 && a.clearingPriceWei == 2
    ensures BidDelivery(LOW, Some([1]), 0) in InboxOf(sys, TEE) && BidDelivery(HIGH, Some([2]), 0) in InboxOf(sys, TEE)
  {
    hide Sealed, Exec, SystemReachable, Waiting, AfterSchedule, Settle, Advance, SystemInv, AdvanceAll;
    SealedIs(retention);
    SealedWaits(retention);
    var before := Sealed(retention);
    SystemReachableInv(D, retention, before);
    BothGetSigned(D, retention, before, LOW, HIGH, CLEAR, [1], [2], LOSER, BETTER);
    LosingBidCanSettle(D, retention, before, LOW, HIGH, CLEAR, [1], [2], LOSER, BETTER, 2, []);
    var after := AfterSchedule(D, retention, before, LOW, HIGH, CLEAR, [1], [2]);
    SettleStep(retention, after);
    sys := Advance(D, retention, after, OnChain(SettleForLoser()));
    OneMore(retention, after, OnChain(SettleForLoser()));
  }

  lemma OneMore(retention: nat, sys: System, e: SystemEvent)
    requires SystemReachable(D, retention, sys)
    ensures MachinesOk(D.platform, sys) && SystemReachable(D, retention, Advance(D, retention, sys, e))
  {
    hide SystemReachable, Advance;
    StaysReachable(D, retention, sys, [e]);
    assert [e][1..] == [];
  }
}
