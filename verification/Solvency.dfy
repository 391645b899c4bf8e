/** The invariant of the auction contract: every entitlement is well formed and covered by tokens. */
module Solvency {
  import opened Basics
  import opened Sums
  import opened Tokens
  import opened Messages
  import opened Quote
  import opened AuctionSpec

  /** The lots that are still in the contract. */
  ghost function Lots(auctions: map<Word, Auction>): map<Word, nat> {
    map id | id in auctions && auctions[id].Live() :: auctions[id].baseAmount
  }

  /** What the contract owes: lots of live auctions, and every escrow entry. */
  ghost function Liability(s: Chain, asset: Asset): nat {
    match asset case Base => Sum(Lots(s.auctions)) case Quote => Sum(s.escrow)
  }

  ghost predicate Solvent(d: Deployment, s: Chain) {
    Liability(s, Base) <= Balance(s.ledger, Base, d.self) && Liability(s, Quote) <= Balance(s.ledger, Quote, d.self)
  }

  ghost predicate AuctionOk(d: Deployment, a: Auction) {
    && a.seller != d.self && a.seller != ZERO_ADDRESS && a.teeId != ZERO_ADDRESS
    && 0 < a.baseAmount <= MAX_COMPONENT
    && 0 < a.floorPriceWei <= a.ceilingPriceWei <= MAX_COMPONENT
    && a.maxQuoteAmount == QuoteFor(a.baseAmount, a.ceilingPriceWei) && a.maxQuoteAmount > 0
    && a.bidDeadline < a.settleDeadline
    && ClearIdOk(a)
    && OutcomeOk(d, a)
  }

  /** No clear instruction is recorded while bids are taken, and no result is accepted without one. */
  ghost predicate ClearIdOk(a: Auction) {
    && (a.phase == Open ==> a.clearInstructionId == 0)
    && (a.phase == Settled || a.phase == NoFill ==> a.clearInstructionId != 0)
  }

  /** Winner, price and payment are set exactly when the auction is settled, and then they fit the collar. */
  ghost predicate OutcomeOk(d: Deployment, a: Auction) {
    if a.phase == Settled then
      && a.winner != ZERO_ADDRESS && a.winner != d.self
      && a.floorPriceWei <= a.clearingPriceWei <= a.ceilingPriceWei
      && a.quotePaid == QuoteFor(a.baseAmount, a.clearingPriceWei) <= a.maxQuoteAmount
    else
      a.winner == ZERO_ADDRESS && a.clearingPriceWei == 0 && a.quotePaid == 0
  }

  ghost predicate AuctionsOk(d: Deployment, s: Chain) {
    forall id :: id in s.auctions ==> 0 < id < s.nextAuctionId && AuctionOk(d, s.auctions[id])
  }

  /**
   * An escrow entry is its auction's full ceiling amount, or zero; it is full as long as the
   * auction is live, and the winner's is zero once the auction is settled.
   */
  ghost predicate SlotOk(d: Deployment, s: Chain, slot: Slot)
    requires slot in s.escrow
  {
    && slot.0 in s.auctions && slot.1 != d.self && slot.1 != ZERO_ADDRESS
    && var a := s.auctions[slot.0];
    && (s.escrow[slot] == a.maxQuoteAmount || s.escrow[slot] == 0)
    && (a.Live() ==> s.escrow[slot] == a.maxQuoteAmount)
    && (a.phase == Settled && slot.1 == a.winner ==> s.escrow[slot] == 0)
  }

  ghost predicate EscrowOk(d: Deployment, s: Chain) {
    forall slot :: slot in s.escrow ==> SlotOk(d, s, slot)
  }

  /** A settled auction's winner had escrowed. */
  ghost predicate WinnersOk(s: Chain) {
    forall id :: id in s.auctions && s.auctions[id].phase == Settled ==> (id, s.auctions[id].winner) in s.escrow
  }

  /** The storage invariant, tokens aside. */
  ghost predicate WellFormed(d: Deployment, s: Chain) {
    && !s.entered
    && s.nextAuctionId > 0
    && (s.auctions != map[] ==> s.extensionId != 0)
    && AuctionsOk(d, s)
    && EscrowOk(d, s)
    && WinnersOk(s)
  }

  ghost predicate Inv(d: Deployment, s: Chain) {
    WellFormed(d, s) && SuppliesFit(s.ledger) && Solvent(d, s)
  }

  lemma LotsUpdate(auctions: map<Word, Auction>, id: Word, a: Auction)
    ensures Sum(Lots(auctions[id := a])) ==
            Sum(Lots(auctions)) - Get(Lots(auctions), id) + (if a.Live() then a.baseAmount else 0)
  {
    var lots, lots' := Lots(auctions), Lots(auctions[id := a]);
    SumUpdate(lots, id, a.baseAmount);
    if a.Live() {
      assert lots' == lots[id := a.baseAmount];
    } else {
      SumRemove(lots[id := a.baseAmount], id);
      assert lots' == lots[id := a.baseAmount] - {id};
    }
  }

  /** Storage writes of one call, and the payments that go with them, leave the surplus as it was. */
  ghost predicate Balanced(d: Deployment, s: Chain, next: Chain, payments: seq<Payment>) {
    && Liability(next, Base) == Liability(s, Base) + Net(d.self, payments, Base, d.self)
    && Liability(next, Quote) == Liability(s, Quote) + Net(d.self, payments, Quote, d.self)
  }

  ghost predicate Keeps(d: Deployment, o: Outcome) {
    o.Committed? ==> Inv(d, o.chain)
  }

  /** A well-formed write with balanced payments keeps the invariant when it commits. */
  lemma CommitKeeps(d: Deployment, s: Chain, written: Chain, payments: seq<Payment>, sent: Option<Instruction>)
    requires Inv(d, s) && written.ledger == s.ledger
    requires WellFormed(d, written) && Balanced(d, s, written, payments)
    ensures Keeps(d, Commit(d, written, payments, sent))
  {
    if PayAll(d.self, s.ledger, payments).Some? {
      PayAllEffect(d.self, s.ledger, payments);
      var l' := PayAll(d.self, s.ledger, payments).value;
      var next := written.(ledger := l');
      assert Supply(l', Base) == Supply(s.ledger, Base) && Supply(l', Quote) == Supply(s.ledger, Quote);
      assert Liability(next, Base) == Liability(written, Base) && Liability(next, Quote) == Liability(written, Quote);
      assert AuctionsOk(d, next) && WinnersOk(next);
      assert forall slot :: slot in next.escrow ==> SlotOk(d, written, slot);
    }
  }

  lemma NetOne(self: Address, p: Payment, asset: Asset, who: Address)
    ensures Net(self, [p], asset, who) == Delta(self, p, asset, who)
  {
    assert [p][1..] == [];
    assert Net(self, [], asset, who) == 0;
  }

  /** What a settlement adds to each holding, the winner and the seller possibly being one account. */
  lemma NetSettlement(self: Address, a: Auction, winner: Address, quotePaid: nat, asset: Asset, who: Address)
    requires quotePaid <= a.maxQuoteAmount && winner != self && a.seller != self
    ensures Net(self, SettlementPayments(a, winner, quotePaid), asset, who) ==
            match asset
            case Base => (if who == winner then a.baseAmount else 0) - (if who == self then a.baseAmount else 0)
            case Quote =>
              (if who == a.seller then quotePaid else 0)
              + (if who == winner then a.maxQuoteAmount - quotePaid else 0)
              - (if who == self then a.maxQuoteAmount else 0)
  {
    var ps := SettlementPayments(a, winner, quotePaid);
    var lot, pay := Push(Base, winner, a.baseAmount), Push(Quote, a.seller, quotePaid);
    var rest := ps[2..];
    assert ps[0] == lot && ps[1..][0] == pay && ps[1..][1..] == rest;
    assert Net(self, ps, asset, who) == Delta(self, lot, asset, who) + Net(self, ps[1..], asset, who);
    assert Net(self, ps[1..], asset, who) == Delta(self, pay, asset, who) + Net(self, rest, asset, who);
    if a.maxQuoteAmount != quotePaid {
      var refund := Push(Quote, winner, a.maxQuoteAmount - quotePaid);
      assert rest == [refund];
      NetOne(self, refund, asset, who);
    } else {
      assert rest == [];
    }
  }

  lemma CreateKeeps(d: Deployment, s: Chain, now: nat, sender: Address, base: Word, floor: Word, ceiling: Word,
                    bidDeadline: Uint64, settleDeadline: Uint64, teeIds: Option<seq<Address>>)
    requires Inv(d, s) && sender != d.self && sender != ZERO_ADDRESS
    ensures Keeps(d, Create(d, s, now, sender, base, floor, ceiling, bidDeadline, settleDeadline, teeIds))
  {
    if CreateAllowed(s, now, base, floor, ceiling, bidDeadline, settleDeadline, teeIds) {
      QuoteFits(base, ceiling);
      QuotePositive(base, ceiling);
      var a := NewAuction(sender, teeIds.value[0], base, floor, ceiling, QuoteFor(base, ceiling),
                          bidDeadline, settleDeadline);
      var payment := Pull(Base, sender, base);
      var written := s.(nextAuctionId := s.nextAuctionId + 1, auctions := s.auctions[s.nextAuctionId := a]);
      CreateWellFormed(d, s, a);
      LotsUpdate(s.auctions, s.nextAuctionId, a);
      NetOne(d.self, payment, Base, d.self);
      NetOne(d.self, payment, Quote, d.self);
      CommitKeeps(d, s, written, [payment], None);
    }
  }

  lemma CreateWellFormed(d: Deployment, s: Chain, a: Auction)
    requires WellFormed(d, s) && s.extensionId != 0 && s.nextAuctionId < MAX_WORD && AuctionOk(d, a) && a.phase == Open
    ensures WellFormed(d, s.(nextAuctionId := s.nextAuctionId + 1, auctions := s.auctions[s.nextAuctionId := a]))
  {
    assert forall slot :: slot in s.escrow ==> SlotOk(d, s, slot);
  }

  lemma SubmitKeeps(d: Deployment, s: Chain, now: nat, sender: Address, id: Word, encryptedBid: Bytes,
          instructionId: Option<Word>)
    requires Inv(d, s) && sender != d.self && sender != ZERO_ADDRESS
    ensures Keeps(d, Submit(d, s, now, sender, id, encryptedBid, instructionId))
  {
    if BidAllowed(s, now, id, encryptedBid, instructionId) && EscrowOf(s, id, sender) == 0 {
      var amount := s.auctions[id].maxQuoteAmount;
      var payment := Pull(Quote, sender, amount);
      var written := s.(escrow := s.escrow[(id, sender) := amount]);
      assert WellFormed(d, written) by {
        assert forall slot :: slot in s.escrow ==> SlotOk(d, s, slot);
      }
      SumUpdate(s.escrow, (id, sender), amount);
      NetOne(d.self, payment, Base, d.self);
      NetOne(d.self, payment, Quote, d.self);
      var sent := Instruction(instructionId.value, s.auctions[id].teeId, id, BidPayload(sender, encryptedBid));
      CommitKeeps(d, s, written, [payment], Some(sent));
    }
  }

  /** Moving one live auction on, terms unchanged, without a winner. */
  lemma MoveOnWellFormed(d: Deployment, s: Chain, id: Word, a: Auction)
    requires WellFormed(d, s) && id in s.auctions && s.auctions[id].Live()
    requires a == s.auctions[id].(phase := a.phase, clearInstructionId := a.clearInstructionId,
                                  submittedBidCount := a.submittedBidCount, eligibleBidCount := a.eligibleBidCount)
    requires a.phase != Settled && ClearIdOk(a)
    ensures WellFormed(d, s.(auctions := s.auctions[id := a])) && AuctionOk(d, s.auctions[id])
  {
    assert AuctionOk(d, s.auctions[id]);
    assert forall slot :: slot in s.escrow ==> SlotOk(d, s, slot);
  }

  lemma ClearKeeps(d: Deployment, s: Chain, now: nat, id: Word, instructionId: Option<Word>)
    requires Inv(d, s)
    ensures Keeps(d, Clear(d, s, now, id, instructionId))
  {
    if ClearAllowed(s, now, id, instructionId) {
      var a := s.auctions[id].(clearInstructionId := instructionId.value, phase := ClearRequested);
      MoveOnWellFormed(d, s, id, a);
      LotsUpdate(s.auctions, id, a);
    }
  }

  /** Returning the lot to the seller, which ends the auction without a winner. */
  lemma ReturnLotKeeps(d: Deployment, s: Chain, id: Word, a: Auction)
    requires Inv(d, s) && id in s.auctions && s.auctions[id].Live()
    requires a == s.auctions[id].(phase := a.phase, submittedBidCount := a.submittedBidCount,
                                  eligibleBidCount := a.eligibleBidCount)
    requires a.phase == NoFill || a.phase == Cancelled
    requires ClearIdOk(a)
    ensures var written := s.(auctions := s.auctions[id := a]);
            Keeps(d, Commit(d, written, [Push(Base, a.seller, a.baseAmount)], None))
  {
    var written, payment := s.(auctions := s.auctions[id := a]), Push(Base, a.seller, a.baseAmount);
    MoveOnWellFormed(d, s, id, a);
    LotsUpdate(s.auctions, id, a);
    NetOne(d.self, payment, Base, d.self);
    NetOne(d.self, payment, Quote, d.self);
    CommitKeeps(d, s, written, [payment], None);
  }

  /** The arithmetic of a settlement is exact: no overflow, no underflow. */
  lemma SettlementFits(d: Deployment, s: Chain, id: Word, r: ClearResult)
    requires WellFormed(d, s) && id in s.auctions && ResultAccepted(d, s, id, r) && r.winner != ZERO_ADDRESS
    ensures var a := s.auctions[id];
            CheckedQuoteFor(a.baseAmount, r.unitPriceWei) == Some(QuoteFor(a.baseAmount, r.unitPriceWei))
    ensures var a := s.auctions[id];
            QuoteFor(a.baseAmount, a.floorPriceWei) <= QuoteFor(a.baseAmount, r.unitPriceWei) <= a.maxQuoteAmount
    ensures (id, r.winner) in s.escrow && r.winner != d.self && AuctionOk(d, s.auctions[id])
  {
    var a := s.auctions[id];
    assert AuctionOk(d, a);
    QuoteWithinCollar(a.baseAmount, a.floorPriceWei, r.unitPriceWei, a.ceilingPriceWei);
    QuoteFits(a.baseAmount, r.unitPriceWei);
    assert SlotOk(d, s, (id, r.winner));
  }

  function SettledAuction(a: Auction, r: ClearResult): Auction
    requires QuoteFor(a.baseAmount, r.unitPriceWei) <= MAX_WORD
  {
    a.(submittedBidCount := r.submittedBidCount, eligibleBidCount := r.eligibleBidCount, winner := r.winner,
       clearingPriceWei := r.unitPriceWei, quotePaid := QuoteFor(a.baseAmount, r.unitPriceWei), phase := Settled)
  }

  function SettledChain(s: Chain, id: Word, r: ClearResult): Chain
    requires id in s.auctions && QuoteFor(s.auctions[id].baseAmount, r.unitPriceWei) <= MAX_WORD
  {
    s.(auctions := s.auctions[id := SettledAuction(s.auctions[id], r)], escrow := s.escrow[(id, r.winner) := 0])
  }

  lemma SettledOk(d: Deployment, s: Chain, id: Word, r: ClearResult)
    requires WellFormed(d, s) && id in s.auctions && s.auctions[id].phase == ClearRequested
    requires ResultAccepted(d, s, id, r) && r.winner != ZERO_ADDRESS && s.auctions[id].clearInstructionId != 0
    ensures QuoteFor(s.auctions[id].baseAmount, r.unitPriceWei) <= MAX_WORD
    ensures AuctionOk(d, SettledAuction(s.auctions[id], r))
  {
    hide CheckedQuoteFor, QuoteFor, EscrowOk, WinnersOk;
    SettlementFits(d, s, id, r);
  }

  lemma FillWellFormed(d: Deployment, s: Chain, id: Word, r: ClearResult)
    requires WellFormed(d, s) && id in s.auctions && s.auctions[id].phase == ClearRequested
    requires ResultAccepted(d, s, id, r) && r.winner != ZERO_ADDRESS && s.auctions[id].clearInstructionId != 0
    ensures QuoteFor(s.auctions[id].baseAmount, r.unitPriceWei) <= s.auctions[id].maxQuoteAmount
    ensures WellFormed(d, SettledChain(s, id, r))
  {
    hide CheckedQuoteFor, QuoteFor, ResultAccepted;
    SettlementFits(d, s, id, r);
    var next := SettledChain(s, id, r);
    assert AuctionOk(d, next.auctions[id]) by {
      SettledOk(d, s, id, r);
    }
    assert forall slot :: slot in s.escrow ==> SlotOk(d, s, slot);
    assert EscrowOk(d, next);
  }

  lemma FillBalanced(d: Deployment, s: Chain, id: Word, r: ClearResult)
    requires WellFormed(d, s) && id in s.auctions && s.auctions[id].phase == ClearRequested
    requires ResultAccepted(d, s, id, r) && r.winner != ZERO_ADDRESS
    requires QuoteFor(s.auctions[id].baseAmount, r.unitPriceWei) <= s.auctions[id].maxQuoteAmount
    ensures var a := s.auctions[id];
            Balanced(d, s, SettledChain(s, id, r),
                     SettlementPayments(a, r.winner, QuoteFor(a.baseAmount, r.unitPriceWei)))
  {
    SettlementFits(d, s, id, r);
    var a, paid := s.auctions[id], QuoteFor(s.auctions[id].baseAmount, r.unitPriceWei);
    LotsUpdate(s.auctions, id, SettledAuction(a, r));
    SumUpdate(s.escrow, (id, r.winner), 0);
    NetSettlement(d.self, a, r.winner, paid, Base, d.self);
    NetSettlement(d.self, a, r.winner, paid, Quote, d.self);
  }

  /** With the invariant, an allowed settlement is one commit of these writes and payments. */
  lemma FillIs(d: Deployment, s: Chain, now: nat, id: Word, r: ClearResult, signature: Bytes)
    requires WellFormed(d, s) && r.winner != ZERO_ADDRESS && SettleAllowed(d, s, now, id, r, signature)
    ensures var a := s.auctions[id];
            && QuoteFor(a.baseAmount, r.unitPriceWei) <= a.maxQuoteAmount
            && Settle(d, s, now, id, r, signature) ==
               Commit(d, SettledChain(s, id, r),
                      SettlementPayments(a, r.winner, QuoteFor(a.baseAmount, r.unitPriceWei)), None)
  {
    SettlementFits(d, s, id, r);
    var a := s.auctions[id];
    var a' := a.(submittedBidCount := r.submittedBidCount, eligibleBidCount := r.eligibleBidCount);
    assert SettlementPayments(a, r.winner, QuoteFor(a.baseAmount, r.unitPriceWei)) ==
           SettlementPayments(a', r.winner, QuoteFor(a.baseAmount, r.unitPriceWei));
  }

  lemma SettleKeeps(d: Deployment, s: Chain, now: nat, id: Word, r: ClearResult, signature: Bytes)
    requires Inv(d, s)
    ensures Keeps(d, Settle(d, s, now, id, r, signature))
  {
    if SettleAllowed(d, s, now, id, r, signature) {
      var a := s.auctions[id];
      if r.winner == ZERO_ADDRESS {
        ReturnLotKeeps(d, s, id, a.(submittedBidCount := r.submittedBidCount, eligibleBidCount := r.eligibleBidCount,
                                    phase := NoFill));
      } else {
        FillIs(d, s, now, id, r, signature);
        FillWellFormed(d, s, id, r);
        FillBalanced(d, s, id, r);
        CommitKeeps(d, s, SettledChain(s, id, r),
                    SettlementPayments(a, r.winner, QuoteFor(a.baseAmount, r.unitPriceWei)), None);
      }
    }
  }

  lemma CancelKeeps(d: Deployment, s: Chain, now: nat, id: Word)
    requires Inv(d, s)
    ensures Keeps(d, Cancel(d, s, now, id))
  {
    if CancelAllowed(s, now, id) {
      ReturnLotKeeps(d, s, id, s.auctions[id].(phase := Cancelled));
    }
  }

  lemma WithdrawKeeps(d: Deployment, s: Chain, sender: Address, id: Word)
    requires Inv(d, s)
    ensures Keeps(d, Withdraw(d, s, sender, id))
  {
    if WithdrawAllowed(s, sender, id) {
      var payment := Push(Quote, sender, EscrowOf(s, id, sender));
      var written := s.(escrow := s.escrow[(id, sender) := 0]);
      assert SlotOk(d, s, (id, sender));
      assert WellFormed(d, written) by {
        assert forall slot :: slot in s.escrow ==> SlotOk(d, s, slot);
      }
      SumUpdate(s.escrow, (id, sender), 0);
      NetOne(d.self, payment, Base, d.self);
      NetOne(d.self, payment, Quote, d.self);
      CommitKeeps(d, s, written, [payment], None);
    }
  }

  /** Every call, made by anyone but the contract itself, keeps the invariant. */
  lemma ExecKeepsInv(d: Deployment, s: Chain, now: nat, sender: Address, call: Call)
    requires Inv(d, s) && sender != d.self && sender != ZERO_ADDRESS
    ensures Keeps(d, Exec(d, s, now, sender, call))
  {
    match call
    case SetExtensionId(nextId, senders) =>
      if nextId.Some? {
        FoundIsPublic(FIRST_PUBLIC_EXTENSION_ID, nextId.value, senders, d.self);
      }
    case CreateAuction(base, floor, ceiling, bidDeadline, settleDeadline, teeIds) =>
      CreateKeeps(d, s, now, sender, base, floor, ceiling, bidDeadline, settleDeadline, teeIds);
    case SubmitPrivateBid(id, encryptedBid, instructionId) =>
      SubmitKeeps(d, s, now, sender, id, encryptedBid, instructionId);
    case RequestClear(id, instructionId) => ClearKeeps(d, s, now, id, instructionId);
    case SettleAuction(id, result, signature) => SettleKeeps(d, s, now, id, result, signature);
    case CancelTimedOutAuction(id) => CancelKeeps(d, s, now, id);
    case WithdrawQuote(id) => WithdrawKeeps(d, s, sender, id);
  }

  /** Every id in the range is registered to somebody else. */
  predicate AllForeign(from: nat, to: nat, senders: map<nat, Address>, self: Address) {
    forall i :: from <= i < to ==> i in senders && senders[i] != self
  }

  /** The search finds the first id registered to `self`, or stops at a reverting call, or there is none. */
  lemma {:induction false} FoundIsPublic(from: nat, nextId: nat, senders: map<nat, Address>, self: Address)
    ensures var found := FirstRegistered(from, nextId, senders, self);
            if found.Some? then
              && from <= found.value < nextId && found.value in senders && senders[found.value] == self
              && AllForeign(from, found.value, senders, self)
            else
              || AllForeign(from, nextId, senders, self)
              || exists i :: from <= i < nextId && i !in senders && AllForeign(from, i, senders, self)
    decreases nextId - from
  {
    if from < nextId {
      if from !in senders {
        assert AllForeign(from, from, senders, self);
      } else if senders[from] != self {
        FoundIsPublic(from + 1, nextId, senders, self);
        if i :| from + 1 <= i < nextId && i !in senders && AllForeign(from + 1, i, senders, self) {
          assert AllForeign(from, i, senders, self);
        }
      }
    }
  }
}
