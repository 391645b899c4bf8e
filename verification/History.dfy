/** Whole runs of the auction contract: what changes, what never does, and who was paid what. */
module History {
  import opened Basics
  import opened Sums
  import opened Tokens
  import opened Messages
  import opened Quote
  import opened AuctionSpec
  import opened Solvency

  /** A committed call, with the auction it is about and the token calls it made. */
  datatype Entry = Entry(time: nat, sender: Address, auctionId: Word, call: Call, payments: seq<Payment>)

  datatype World = World(chain: Chain, now: nat, journal: seq<Entry>)

  /** A transaction, or anything other accounts do with their tokens between transactions. */
  datatype Event =
    | Transact(time: nat, sender: Address, call: Call)
    | TokenActivity(ledger: Ledger)

  /** Others can mint, move and approve their own tokens, but not take the contract's. */
  ghost predicate OthersMayDo(d: Deployment, before: Ledger, after: Ledger) {
    && SuppliesFit(after)
    && Balance(before, Base, d.self) <= Balance(after, Base, d.self)
    && Balance(before, Quote, d.self) <= Balance(after, Quote, d.self)
  }

  /** An event that cannot happen (a clock running back, the contract calling itself) changes nothing. */
  ghost function Step(d: Deployment, w: World, e: Event): World {
    match e
    case Transact(time, sender, call) =>
      if time < w.now || sender == d.self || sender == ZERO_ADDRESS then w
      else
        (match Exec(d, w.chain, time, sender, call)
         case Reverted => w.(now := time)
         case Committed(chain, payments, _) =>
           World(chain, time, w.journal + [Entry(time, sender, Target(w.chain, call), call, payments)]))
    case TokenActivity(ledger) =>
      if OthersMayDo(d, w.chain.ledger, ledger) then w.(chain := w.chain.(ledger := ledger)) else w
  }

  ghost function Run(d: Deployment, w: World, es: seq<Event>): World
    decreases |es|
  {
    if es == [] then w else Run(d, Step(d, w, es[0]), es[1..])
  }

  ghost function Genesis(ledger: Ledger): World {
    World(Chain(0, false, 1, map[], map[], ledger), 0, [])
  }

  // ----- what one step may change -----

  function Rank(p: Phase): nat {
    match p case Open => 0 case ClearRequested => 1 case Settled => 2 case NoFill => 2 case Cancelled => 2
  }

  predicate SameTerms(a: Auction, b: Auction) {
    && a.seller == b.seller && a.teeId == b.teeId
    && a.baseAmount == b.baseAmount && a.floorPriceWei == b.floorPriceWei && a.ceilingPriceWei == b.ceilingPriceWei
    && a.maxQuoteAmount == b.maxQuoteAmount && a.bidDeadline == b.bidDeadline && a.settleDeadline == b.settleDeadline
  }

  /** Terms and machine are fixed, the state only moves forward, and an ended auction is frozen. */
  predicate AuctionEvolves(a: Auction, b: Auction) {
    && SameTerms(a, b)
    && Rank(a.phase) <= Rank(b.phase)
    && (a.phase != Open ==> a.clearInstructionId == b.clearInstructionId)
    && (!a.Live() ==> a == b)
  }

  ghost predicate Evolves(s: Chain, t: Chain) {
    && (s.extensionId != 0 ==> t.extensionId == s.extensionId)
    && s.nextAuctionId <= t.nextAuctionId
    && (forall id :: id in s.auctions ==> id in t.auctions && AuctionEvolves(s.auctions[id], t.auctions[id]))
    && (forall slot :: slot in s.escrow ==> slot in t.escrow && (s.escrow[slot] == 0 ==> t.escrow[slot] == 0))
  }

  lemma EvolvesTransitive(s: Chain, t: Chain, u: Chain)
    requires Evolves(s, t) && Evolves(t, u)
    ensures Evolves(s, u)
  {
    forall id | id in s.auctions
      ensures id in u.auctions && AuctionEvolves(s.auctions[id], u.auctions[id])
    {
      assert AuctionEvolves(s.auctions[id], t.auctions[id]) && AuctionEvolves(t.auctions[id], u.auctions[id]);
    }
  }

  /** A committed call moves exactly its payments. */
  lemma ExecPays(d: Deployment, s: Chain, now: nat, sender: Address, call: Call)
    requires Exec(d, s, now, sender, call).Committed?
    ensures var o := Exec(d, s, now, sender, call);
            && PayAll(d.self, s.ledger, o.payments) == Some(o.chain.ledger)
            && (forall asset :: Supply(o.chain.ledger, asset) == Supply(s.ledger, asset))
            && forall asset, who :: Balance(o.chain.ledger, asset, who) ==
                 Balance(s.ledger, asset, who) + Net(d.self, o.payments, asset, who)
  {
    PayAllEffect(d.self, s.ledger, Exec(d, s, now, sender, call).payments);
  }

  /** While an auction is live, a zero escrow entry means the account has not bid yet. */
  lemma ZeroMeansAbsent(d: Deployment, s: Chain, id: Word, who: Address)
    requires WellFormed(d, s) && id in s.auctions && s.auctions[id].Live()
    ensures EscrowOf(s, id, who) == 0 <==> (id, who) !in s.escrow
  {
    assert AuctionOk(d, s.auctions[id]);
    if (id, who) in s.escrow {
      assert SlotOk(d, s, (id, who));
    }
  }

  lemma SettleEvolves(d: Deployment, s: Chain, now: nat, id: Word, r: ClearResult, signature: Bytes)
    requires WellFormed(d, s) && Settle(d, s, now, id, r, signature).Committed?
    ensures Evolves(s, Settle(d, s, now, id, r, signature).chain)
  {
    var t := Settle(d, s, now, id, r, signature).chain;
    assert AuctionEvolves(s.auctions[id], t.auctions[id]);
    if r.winner != ZERO_ADDRESS {
      SettlementFits(d, s, id, r);
    }
  }

  /** Bidding adds an escrow entry or leaves everything as it is. */
  lemma SubmitEvolves(d: Deployment, s: Chain, now: nat, sender: Address, id: Word, encryptedBid: Bytes,
          instructionId: Option<Word>)
    requires WellFormed(d, s) && Submit(d, s, now, sender, id, encryptedBid, instructionId).Committed?
    ensures var t := Submit(d, s, now, sender, id, encryptedBid, instructionId).chain;
            && Evolves(s, t)
            && EscrowOf(t, id, sender) == s.auctions[id].maxQuoteAmount > 0
  {
    ZeroMeansAbsent(d, s, id, sender);
    assert AuctionOk(d, s.auctions[id]);
    if (id, sender) in s.escrow {
      assert SlotOk(d, s, (id, sender));
    }
  }

  lemma ExecEvolves(d: Deployment, s: Chain, now: nat, sender: Address, call: Call)
    requires WellFormed(d, s) && Exec(d, s, now, sender, call).Committed?
    ensures Evolves(s, Exec(d, s, now, sender, call).chain)
  {
    hide PayAll, SignedByPinned, SettlementPayments, AuctionOk, SlotOk;
    match call
    case SubmitPrivateBid(id, encryptedBid, instructionId) =>
      SubmitEvolves(d, s, now, sender, id, encryptedBid, instructionId);
    case SettleAuction(id, result, signature) => SettleEvolves(d, s, now, id, result, signature);
    case CreateAuction(_, _, _, _, _, _) => assert s.nextAuctionId !in s.auctions;
    case _ =>
  }

  /**
   * What a call leaves alone: every other auction, every other account's escrow, and of its own
   * auction everything but the state, unless it records the clear instruction or a result.
   */
  ghost predicate TouchesOnly(s: Chain, t: Chain, sender: Address, call: Call) {
    var id := if call.CreateAuction? then s.nextAuctionId else Target(s, call);
    && t.entered == s.entered
    && (call.SetExtensionId? || t.extensionId == s.extensionId)
    && t.nextAuctionId == (if call.CreateAuction? then s.nextAuctionId + 1 else s.nextAuctionId)
    && (forall other :: other != id || call.SetExtensionId? ==>
          && (other in t.auctions <==> other in s.auctions)
          && (other in s.auctions ==> t.auctions[other] == s.auctions[other]))
    && (forall slot :: slot !in SlotsOf(id, sender, call) ==>
          && (slot in t.escrow <==> slot in s.escrow)
          && (slot in s.escrow ==> t.escrow[slot] == s.escrow[slot]))
    && (!call.SetExtensionId? ==> id in t.auctions && RecordOk(s, t.auctions[id], id, sender, call))
  }

  function SlotsOf(id: Word, sender: Address, call: Call): set<Slot> {
    match call
    case SubmitPrivateBid(_, _, _) => {(id, sender)}
    case WithdrawQuote(_) => {(id, sender)}
    case SettleAuction(_, r, _) => if r.winner != 0 then {(id, r.winner)} else {}
    case _ => {}
  }

  /** The auction's new record: only the named fields differ from the old one. */
  ghost predicate RecordOk(s: Chain, b: Auction, id: Word, sender: Address, call: Call) {
    if call.CreateAuction? then
      && b.seller == sender && call.teeIds == Some([b.teeId])
      && b.baseAmount == call.baseAmount && b.floorPriceWei == call.floorPriceWei
      && b.ceilingPriceWei == call.ceilingPriceWei
      && b.bidDeadline == call.bidDeadline && b.settleDeadline == call.settleDeadline
      && b.phase == Open && b.clearInstructionId == 0 && b.winner == 0 && b.clearingPriceWei == 0
      && b.quotePaid == 0 && b.submittedBidCount == 0 && b.eligibleBidCount == 0
    else
      id in s.auctions
      && match call
         case RequestClear(_, i) =>
           && b == s.auctions[id].(phase := ClearRequested, clearInstructionId := b.clearInstructionId)
           && Some(b.clearInstructionId) == i
         case CancelTimedOutAuction(_) => b == s.auctions[id].(phase := Cancelled)
         case SettleAuction(_, r, _) =>
           && b == s.auctions[id].(phase := b.phase, winner := b.winner, clearingPriceWei := b.clearingPriceWei,
                                   quotePaid := b.quotePaid, submittedBidCount := b.submittedBidCount,
                                   eligibleBidCount := b.eligibleBidCount)
           && b.phase == (if r.winner == 0 then NoFill else Settled)
           && b.submittedBidCount == r.submittedBidCount && b.eligibleBidCount == r.eligibleBidCount
           && (r.winner == 0 ==>
                 b == s.auctions[id].(phase := NoFill, submittedBidCount := b.submittedBidCount,
                                      eligibleBidCount := b.eligibleBidCount))
           && (r.winner != 0 ==> b.winner == r.winner && b.clearingPriceWei == r.unitPriceWei)
         case _ => b == s.auctions[id]
  }

  lemma ExecTouchesOnly(d: Deployment, s: Chain, now: nat, sender: Address, call: Call)
    requires Exec(d, s, now, sender, call).Committed?
    ensures TouchesOnly(s, Exec(d, s, now, sender, call).chain, sender, call)
  {
    hide PayAll, SignedByPinned, SettlementPayments, CheckedQuoteFor, ResultAccepted, FirstRegistered;
    match call
    case CreateAuction(_, _, _, _, _, teeIds) =>
      var ids := teeIds.value;
      assert ids == [ids[0]];
    case _ =>
  }

  // ----- attribution of payments -----

  /** What an account has gained, over the whole history, from the calls about one auction. */
  function Flow(self: Address, journal: seq<Entry>, id: Word, asset: Asset, who: Address): int {
    if journal == [] then 0
    else
      var last := journal[|journal| - 1];
      Flow(self, journal[..|journal| - 1], id, asset, who)
      + if last.auctionId == id then Net(self, last.payments, asset, who) else 0
  }

  /** The same, read off the auction as it stands. */
  function Position(s: Chain, id: Word, asset: Asset, who: Address): int {
    if id !in s.auctions then 0
    else
      var a := s.auctions[id];
      match asset
      case Base =>
        (if a.phase == Settled && who == a.winner then a.baseAmount else 0)
        - (if who == a.seller && (a.Live() || a.phase == Settled) then a.baseAmount else 0)
      case Quote =>
        (if a.phase == Settled && who == a.seller then a.quotePaid else 0)
        - (if a.phase == Settled && who == a.winner then a.quotePaid else 0)
        - EscrowOf(s, id, who)
  }

  function Taken(ps: seq<Payment>, asset: Asset, who: Address): nat {
    if ps == [] then 0
    else
      var p := ps[0];
      (if p.Pull? && p.asset == asset && p.from == who then p.amount else 0) + Taken(ps[1..], asset, who)
  }

  /** Base tokens the contract has ever paid out for an auction. */
  function LotPaid(journal: seq<Entry>, id: Word): nat {
    if journal == [] then 0
    else
      var last := journal[|journal| - 1];
      LotPaid(journal[..|journal| - 1], id) + if last.auctionId == id then Outflow(last.payments, Base) else 0
  }

  /** Quote tokens the contract has ever taken from an account for an auction. */
  function Charged(journal: seq<Entry>, id: Word, who: Address): nat {
    if journal == [] then 0
    else
      var last := journal[|journal| - 1];
      Charged(journal[..|journal| - 1], id, who) + if last.auctionId == id then Taken(last.payments, Quote, who) else 0
  }

  /** The lot leaves once, when the auction ends; until then it has not left at all. */
  function LotDue(s: Chain, id: Word): nat {
    if id in s.auctions && !s.auctions[id].Live() then s.auctions[id].baseAmount else 0
  }

  /** A bidder is charged the ceiling amount once, with the first bid. */
  function ChargeDue(s: Chain, id: Word, who: Address): nat {
    if id in s.auctions && (id, who) in s.escrow then s.auctions[id].maxQuoteAmount else 0
  }

  /** A call's payments account for how one account's position, the lot and its charge for one auction change. */
  ghost predicate Accounted(d: Deployment, s: Chain, t: Chain, target: Word, payments: seq<Payment>, id: Word,
          who: Address) {
    && (who != d.self ==>
          && Position(t, id, Base, who) ==
             Position(s, id, Base, who) + (if id == target then Net(d.self, payments, Base, who) else 0)
          && Position(t, id, Quote, who) ==
             Position(s, id, Quote, who) + (if id == target then Net(d.self, payments, Quote, who) else 0))
    && LotDue(t, id) == LotDue(s, id) + (if id == target then Outflow(payments, Base) else 0)
    && ChargeDue(t, id, who) == ChargeDue(s, id, who) + (if id == target then Taken(payments, Quote, who) else 0)
  }

  lemma OnePayment(self: Address, p: Payment, who: Address)
    ensures Net(self, [p], Base, who) == Delta(self, p, Base, who)
    ensures Net(self, [p], Quote, who) == Delta(self, p, Quote, who)
    ensures Outflow([p], Base) == if p.Push? && p.asset == Base then p.amount else 0
    ensures Taken([p], Quote, who) == if p.Pull? && p.asset == Quote && p.from == who then p.amount else 0
  {
    assert [p][1..] == [];
    NetOne(self, p, Base, who);
    NetOne(self, p, Quote, who);
  }

  lemma CreateAccounted(d: Deployment, s: Chain, a: Auction, i: Word, who: Address)
    requires WellFormed(d, s) && a.phase == Open && s.nextAuctionId < MAX_WORD
    ensures Accounted(d, s, s.(nextAuctionId := s.nextAuctionId + 1, auctions := s.auctions[s.nextAuctionId := a]),
                      s.nextAuctionId, [Pull(Base, a.seller, a.baseAmount)], i, who)
  {
    OnePayment(d.self, Pull(Base, a.seller, a.baseAmount), who);
    assert (s.nextAuctionId, who) in s.escrow ==> SlotOk(d, s, (s.nextAuctionId, who));
  }

  lemma ChargeAccounted(d: Deployment, s: Chain, id: Word, sender: Address, i: Word, who: Address)
    requires WellFormed(d, s) && id in s.auctions && s.auctions[id].Live() && EscrowOf(s, id, sender) == 0
    ensures var amount := s.auctions[id].maxQuoteAmount;
            Accounted(d, s, s.(escrow := s.escrow[(id, sender) := amount]), id, [Pull(Quote, sender, amount)], i, who)
  {
    hide AuctionOk, SlotOk;
    var amount := s.auctions[id].maxQuoteAmount;
    OnePayment(d.self, Pull(Quote, sender, amount), who);
    ZeroMeansAbsent(d, s, id, sender);
  }

  lemma ReturnAccounted(d: Deployment, s: Chain, id: Word, a: Auction, i: Word, who: Address)
    requires WellFormed(d, s) && id in s.auctions && s.auctions[id].Live()
    requires SameTerms(s.auctions[id], a) && (a.phase == NoFill || a.phase == Cancelled)
    ensures Accounted(d, s, s.(auctions := s.auctions[id := a]), id, [Push(Base, a.seller, a.baseAmount)], i, who)
  {
    OnePayment(d.self, Push(Base, a.seller, a.baseAmount), who);
  }

  lemma WithdrawAccounted(d: Deployment, s: Chain, id: Word, sender: Address, i: Word, who: Address)
    requires WellFormed(d, s) && id in s.auctions && EscrowOf(s, id, sender) != 0
    ensures Accounted(d, s, s.(escrow := s.escrow[(id, sender) := 0]), id,
                      [Push(Quote, sender, EscrowOf(s, id, sender))], i, who)
  {
    OnePayment(d.self, Push(Quote, sender, EscrowOf(s, id, sender)), who);
  }

  lemma SettlementTotals(a: Auction, winner: Address, quotePaid: nat, who: Address)
    requires quotePaid <= a.maxQuoteAmount
    ensures Outflow(SettlementPayments(a, winner, quotePaid), Base) == a.baseAmount
    ensures Outflow(SettlementPayments(a, winner, quotePaid), Quote) == a.maxQuoteAmount
    ensures Taken(SettlementPayments(a, winner, quotePaid), Quote, who) == 0
  {
    var ps := SettlementPayments(a, winner, quotePaid);
    var lot, pay := Push(Base, winner, a.baseAmount), Push(Quote, a.seller, quotePaid);
    var rest := if a.maxQuoteAmount != quotePaid then [Push(Quote, winner, a.maxQuoteAmount - quotePaid)] else [];
    assert ps[0] == lot && ps[1..] == [pay] + rest;
    assert ([pay] + rest)[1..] == rest;
    if rest != [] {
      assert rest[1..] == [];
      assert Outflow(rest[1..], Quote) == Outflow(rest[1..], Base) == Taken(rest[1..], Quote, who) == 0;
    }
    assert Outflow(rest, Quote) == a.maxQuoteAmount - quotePaid;
    assert Outflow([pay] + rest, Quote) == quotePaid + Outflow(rest, Quote);
    assert Outflow([pay] + rest, Base) == Outflow(rest, Base) == 0;
    assert Taken([pay] + rest, Quote, who) == Taken(rest, Quote, who) == 0;
  }

  lemma FillAccounted(d: Deployment, s: Chain, id: Word, r: ClearResult, i: Word, who: Address)
    requires WellFormed(d, s) && id in s.auctions && s.auctions[id].phase == ClearRequested
    requires ResultAccepted(d, s, id, r) && r.winner != ZERO_ADDRESS
    requires QuoteFor(s.auctions[id].baseAmount, r.unitPriceWei) <= s.auctions[id].maxQuoteAmount
    ensures var a := s.auctions[id];
            Accounted(d, s, SettledChain(s, id, r), id,
                      SettlementPayments(a, r.winner, QuoteFor(a.baseAmount, r.unitPriceWei)), i, who)
  {
    hide AuctionOk, SlotOk, CheckedQuoteFor;
    SettlementFits(d, s, id, r);
    if i == id {
      var a := s.auctions[id];
      var paid := QuoteFor(a.baseAmount, r.unitPriceWei);
      SettlementTotals(a, r.winner, paid, who);
      NetSettlement(d.self, a, r.winner, paid, Base, who);
      NetSettlement(d.self, a, r.winner, paid, Quote, who);
    }
  }

  lemma NothingAccounted(d: Deployment, s: Chain, t: Chain, target: Word, i: Word, who: Address)
    requires t.escrow == s.escrow && t.auctions.Keys == s.auctions.Keys
    requires forall id :: id in s.auctions ==> SameTerms(s.auctions[id], t.auctions[id])
    requires forall id :: id in s.auctions ==>
               s.auctions[id] == t.auctions[id] || (s.auctions[id].Live() && t.auctions[id].Live())
    ensures Accounted(d, s, t, target, [], i, who)
  {
  }

  lemma LedgerFree(d: Deployment, s: Chain, written: Chain, t: Chain, target: Word, payments: seq<Payment>, i: Word,
          who: Address)
    requires Accounted(d, s, written, target, payments, i, who) && t == written.(ledger := t.ledger)
    ensures Accounted(d, s, t, target, payments, i, who)
  {
    assert Position(t, i, Base, who) == Position(written, i, Base, who);
    assert Position(t, i, Quote, who) == Position(written, i, Quote, who);
  }

  lemma SettleAccounted(d: Deployment, s: Chain, now: nat, id: Word, r: ClearResult, signature: Bytes, i: Word,
          who: Address)
    requires WellFormed(d, s) && Settle(d, s, now, id, r, signature).Committed?
    ensures var o := Settle(d, s, now, id, r, signature); Accounted(d, s, o.chain, id, o.payments, i, who)
  {
    var o := Settle(d, s, now, id, r, signature);
    var a := s.auctions[id];
    if r.winner == ZERO_ADDRESS {
      var a' := a.(submittedBidCount := r.submittedBidCount, eligibleBidCount := r.eligibleBidCount, phase := NoFill);
      ReturnAccounted(d, s, id, a', i, who);
      LedgerFree(d, s, s.(auctions := s.auctions[id := a']), o.chain, id, o.payments, i, who);
    } else {
      FillIs(d, s, now, id, r, signature);
      FillAccounted(d, s, id, r, i, who);
      LedgerFree(d, s, SettledChain(s, id, r), o.chain, id, o.payments, i, who);
    }
  }

  lemma CreateCallAccounted(d: Deployment, s: Chain, now: nat, sender: Address, base: Word, floor: Word, ceiling: Word,
                            bidDeadline: Uint64, settleDeadline: Uint64, teeIds: Option<seq<Address>>,
                            i: Word, who: Address)
    requires WellFormed(d, s)
    requires Create(d, s, now, sender, base, floor, ceiling, bidDeadline, settleDeadline, teeIds).Committed?
    ensures var o := Create(d, s, now, sender, base, floor, ceiling, bidDeadline, settleDeadline, teeIds);
            Accounted(d, s, o.chain, s.nextAuctionId, o.payments, i, who)
  {
    var o := Create(d, s, now, sender, base, floor, ceiling, bidDeadline, settleDeadline, teeIds);
    var id, a := s.nextAuctionId, o.chain.auctions[s.nextAuctionId];
    CreateAccounted(d, s, a, i, who);
    LedgerFree(d, s, s.(nextAuctionId := id + 1, auctions := s.auctions[id := a]), o.chain, id, o.payments, i, who);
  }

  lemma ExecAccounted(d: Deployment, s: Chain, now: nat, sender: Address, call: Call, i: Word, who: Address)
    requires WellFormed(d, s) && Exec(d, s, now, sender, call).Committed?
    ensures var o := Exec(d, s, now, sender, call); Accounted(d, s, o.chain, Target(s, call), o.payments, i, who)
  {
    var o := Exec(d, s, now, sender, call);
    match call
    case SetExtensionId(_, _) => NothingAccounted(d, s, o.chain, Target(s, call), i, who);
    case CreateAuction(base, floor, ceiling, bidDeadline, settleDeadline, teeIds) =>
      CreateCallAccounted(d, s, now, sender, base, floor, ceiling, bidDeadline, settleDeadline, teeIds, i, who);
    case SubmitPrivateBid(id, _, _) =>
      if EscrowOf(s, id, sender) == 0 {
        ChargeAccounted(d, s, id, sender, i, who);
        LedgerFree(d, s, s.(escrow := s.escrow[(id, sender) := s.auctions[id].maxQuoteAmount]), o.chain, id,
              o.payments, i, who);
      } else {
        NothingAccounted(d, s, o.chain, id, i, who);
      }
    case RequestClear(id, _) => NothingAccounted(d, s, o.chain, id, i, who);
    case SettleAuction(id, result, signature) => SettleAccounted(d, s, now, id, result, signature, i, who);
    case CancelTimedOutAuction(id) =>
      var a := s.auctions[id].(phase := Cancelled);
      ReturnAccounted(d, s, id, a, i, who);
      LedgerFree(d, s, s.(auctions := s.auctions[id := a]), o.chain, id, o.payments, i, who);
    case WithdrawQuote(id) =>
      WithdrawAccounted(d, s, id, sender, i, who);
      LedgerFree(d, s, s.(escrow := s.escrow[(id, sender) := 0]), o.chain, id, o.payments, i, who);
  }
}
