/** Theorems about every run of the auction contract, from its deployment on. */
module Runs {
  import opened Basics
  import opened Sums
  import opened Tokens
  import opened Messages
  import opened Quote
  import opened AuctionSpec
  import opened Solvency
  import opened History

  // ----- the history invariant -----

  /** A committed call was in time, and the auction still shows what it did. */
  ghost predicate EntryOk(s: Chain, e: Entry) {
    match e.call
    case SetExtensionId(_, _) => s.extensionId != 0
    case CreateAuction(base, floor, ceiling, bidDeadline, settleDeadline, teeIds) =>
      && e.auctionId in s.auctions && e.time < bidDeadline && teeIds.Some?
      && SameTerms(s.auctions[e.auctionId],
                   s.auctions[e.auctionId].(
                     seller := e.sender, teeId := if |teeIds.value| == 1 then teeIds.value[0] else ZERO_ADDRESS,
                     baseAmount := base, floorPriceWei := floor, ceilingPriceWei := ceiling,
                     bidDeadline := bidDeadline, settleDeadline := settleDeadline))
    case SubmitPrivateBid(id, _, _) =>
      e.auctionId == id && id in s.auctions && e.time < s.auctions[id].bidDeadline && (id, e.sender) in s.escrow
    case RequestClear(id, instructionId) =>
      && e.auctionId == id && id in s.auctions
      && s.auctions[id].bidDeadline <= e.time <= s.auctions[id].settleDeadline
      && s.auctions[id].phase != Open && Some(s.auctions[id].clearInstructionId) == instructionId
    case SettleAuction(id, r, _) =>
      && e.auctionId == id && id in s.auctions && e.time <= s.auctions[id].settleDeadline
      && ShowsResult(s.auctions[id], r)
    case CancelTimedOutAuction(id) =>
      && e.auctionId == id && id in s.auctions && e.time > s.auctions[id].settleDeadline
      && s.auctions[id].phase == Cancelled
    case WithdrawQuote(id) => e.auctionId == id && id in s.auctions && !s.auctions[id].Live()
  }

  /** The auction ended with this result. */
  predicate ShowsResult(a: Auction, r: ClearResult) {
    && a.phase == (if r.winner == ZERO_ADDRESS then NoFill else Settled)
    && a.winner == r.winner && a.clearingPriceWei == r.unitPriceWei
    && a.submittedBidCount == r.submittedBidCount && a.eligibleBidCount == r.eligibleBidCount
  }

  /** The order of the calls about one auction: create, bid, ask to clear, end, withdraw. */
  function Stage(c: Call): nat {
    match c
    case SetExtensionId(_, _) => 0
    case CreateAuction(_, _, _, _, _, _) => 1
    case SubmitPrivateBid(_, _, _) => 2
    case RequestClear(_, _) => 3
    case SettleAuction(_, _, _) => 4
    case CancelTimedOutAuction(_) => 4
    case WithdrawQuote(_) => 5
  }

  /** Stages never go back, and only bids and withdrawals happen more than once. */
  predicate InOrder(e: Entry, f: Entry) {
    e.auctionId == f.auctionId && Stage(e.call) > 0 && Stage(f.call) > 0 ==>
      Stage(e.call) < Stage(f.call) || (Stage(e.call) == Stage(f.call) && Stage(e.call) in {2, 5})
  }

  ghost predicate TimelineOk(w: World) {
    && (forall i :: 0 <= i < |w.journal| ==> w.journal[i].time <= w.now && EntryOk(w.chain, w.journal[i]))
    && (forall i, k :: 0 <= i < k < |w.journal| ==>
          w.journal[i].time <= w.journal[k].time && InOrder(w.journal[i], w.journal[k]))
  }

  ghost predicate Booked(d: Deployment, w: World, id: Word, who: Address) {
    && (who != d.self ==>
          && Flow(d.self, w.journal, id, Base, who) == Position(w.chain, id, Base, who)
          && Flow(d.self, w.journal, id, Quote, who) == Position(w.chain, id, Quote, who))
    && LotPaid(w.journal, id) == LotDue(w.chain, id)
    && Charged(w.journal, id, who) == ChargeDue(w.chain, id, who)
  }

  ghost predicate BooksOk(d: Deployment, w: World) {
    forall id, who :: Booked(d, w, id, who)
  }

  ghost predicate WorldInv(d: Deployment, w: World) {
    Inv(d, w.chain) && TimelineOk(w) && BooksOk(d, w)
  }

  lemma EntryStays(s: Chain, t: Chain, e: Entry)
    requires EntryOk(s, e) && Evolves(s, t)
    ensures EntryOk(t, e)
  {
    if e.auctionId in s.auctions {
      assert AuctionEvolves(s.auctions[e.auctionId], t.auctions[e.auctionId]);
    }
  }

  lemma ExecEntryOk(d: Deployment, s: Chain, now: nat, sender: Address, call: Call)
    requires WellFormed(d, s) && Exec(d, s, now, sender, call).Committed?
    ensures var o := Exec(d, s, now, sender, call);
            EntryOk(o.chain, Entry(now, sender, Target(s, call), call, o.payments))
  {
    hide PayAll, SignedByPinned, SettlementPayments;
    match call
    case SubmitPrivateBid(id, encryptedBid, instructionId) =>
      SubmitEvolves(d, s, now, sender, id, encryptedBid, instructionId);
    case SettleAuction(id, result, signature) =>
      assert AuctionOk(d, s.auctions[id]);
    case SetExtensionId(nextId, senders) =>
      FoundIsPublic(FIRST_PUBLIC_EXTENSION_ID, nextId.value, senders, d.self);
    case _ =>
  }

  /** A call that would go back a stage, or repeat one, does not commit. */
  lemma ExecInOrder(d: Deployment, s: Chain, now: nat, sender: Address, call: Call, e: Entry)
    requires WellFormed(d, s) && EntryOk(s, e) && Exec(d, s, now, sender, call).Committed?
    ensures InOrder(e, Entry(now, sender, Target(s, call), call, Exec(d, s, now, sender, call).payments))
  {
  }

  lemma TransactTimeline(d: Deployment, w: World, time: nat, sender: Address, call: Call)
    requires WellFormed(d, w.chain) && TimelineOk(w)
    ensures TimelineOk(Step(d, w, Transact(time, sender, call)))
  {
    hide Exec, EntryOk, Evolves, InOrder, WellFormed;
    var w' := Step(d, w, Transact(time, sender, call));
    if w'.journal != w.journal {
      ExecEvolves(d, w.chain, time, sender, call);
      ExecEntryOk(d, w.chain, time, sender, call);
      forall i | 0 <= i < |w.journal|
        ensures w'.journal[i] == w.journal[i] && EntryOk(w'.chain, w.journal[i])
        ensures InOrder(w.journal[i], w'.journal[|w.journal|])
      {
        EntryStays(w.chain, w'.chain, w.journal[i]);
        ExecInOrder(d, w.chain, time, sender, call, w.journal[i]);
      }
    }
  }

  lemma TransactBooks(d: Deployment, w: World, time: nat, sender: Address, call: Call)
    requires WellFormed(d, w.chain) && BooksOk(d, w)
    ensures BooksOk(d, Step(d, w, Transact(time, sender, call)))
  {
    hide Exec, WellFormed, Net, Taken, Outflow, Position, LotDue, ChargeDue;
    var w' := Step(d, w, Transact(time, sender, call));
    forall id, who
      ensures Booked(d, w', id, who)
    {
      assert Booked(d, w, id, who);
      if w'.journal != w.journal {
        ExecAccounted(d, w.chain, time, sender, call, id, who);
        assert w'.journal[..|w'.journal| - 1] == w.journal;
      }
    }
  }

  lemma StepKeepsInv(d: Deployment, w: World, e: Event)
    requires WorldInv(d, w)
    ensures WorldInv(d, Step(d, w, e)) && Evolves(w.chain, Step(d, w, e).chain) && w.now <= Step(d, w, e).now
    ensures w.journal <= Step(d, w, e).journal
  {
    hide AuctionsOk, EscrowOk, WinnersOk, Solvent, SuppliesFit;
    match e
    case Transact(time, sender, call) =>
      TransactTimeline(d, w, time, sender, call);
      TransactBooks(d, w, time, sender, call);
      if Step(d, w, e).journal != w.journal {
        ExecKeepsInv(d, w.chain, time, sender, call);
        ExecEvolves(d, w.chain, time, sender, call);
      }
    case TokenActivity(ledger) =>
      TokensKeepInv(d, w, ledger);
  }

  lemma TokensKeepInv(d: Deployment, w: World, ledger: Ledger)
    requires WorldInv(d, w)
    ensures WorldInv(d, Step(d, w, TokenActivity(ledger)))
  {
    var w' := Step(d, w, TokenActivity(ledger));
    if w' != w {
      LedgerOnly(d, w.chain, w'.chain);
      forall i | 0 <= i < |w.journal|
        ensures EntryOk(w'.chain, w.journal[i])
      {
        EntryStays(w.chain, w'.chain, w.journal[i]);
      }
      LedgerBooks(d, w, w');
    }
  }

  lemma LedgerOnly(d: Deployment, s: Chain, t: Chain)
    requires Inv(d, s) && t == s.(ledger := t.ledger) && OthersMayDo(d, s.ledger, t.ledger)
    ensures Inv(d, t) && Evolves(s, t)
  {
    assert forall slot :: slot in t.escrow ==> SlotOk(d, s, slot);
  }

  lemma LedgerBooks(d: Deployment, w: World, w': World)
    requires BooksOk(d, w) && w'.journal == w.journal && w'.chain == w.chain.(ledger := w'.chain.ledger)
    ensures BooksOk(d, w')
  {
    forall id, who
      ensures Booked(d, w', id, who)
    {
      assert Booked(d, w, id, who);
    }
  }

  // ----- theorems about runs -----

  /** Safety over whole runs: solvency, books, timeline, and forward motion only. */
  lemma {:induction false} RunKeepsInv(d: Deployment, w: World, es: seq<Event>)
    requires WorldInv(d, w)
    ensures WorldInv(d, Run(d, w, es)) && Evolves(w.chain, Run(d, w, es).chain) && w.now <= Run(d, w, es).now
    ensures w.journal <= Run(d, w, es).journal
    decreases |es|
  {
    if es != [] {
      var next := Step(d, w, es[0]);
      StepKeepsInv(d, w, es[0]);
      RunKeepsInv(d, next, es[1..]);
      EvolvesTransitive(w.chain, next.chain, Run(d, w, es).chain);
    }
  }

  lemma GenesisInv(d: Deployment, ledger: Ledger)
    requires SuppliesFit(ledger)
    ensures WorldInv(d, Genesis(ledger))
  {
    var w := Genesis(ledger);
    assert Lots(w.chain.auctions) == map[];
    assert forall id, who :: Booked(d, w, id, who);
  }

  /** Every state a deployed contract can reach. */
  ghost predicate Reachable(d: Deployment, w: World) {
    exists ledger, es :: SuppliesFit(ledger) && w == Run(d, Genesis(ledger), es)
  }

  lemma ReachableInv(d: Deployment, w: World)
    requires Reachable(d, w)
    ensures WorldInv(d, w)
  {
    var ledger, es :| SuppliesFit(ledger) && w == Run(d, Genesis(ledger), es);
    GenesisInv(d, ledger);
    RunKeepsInv(d, Genesis(ledger), es);
  }

  /** Both balances cover what is owed, in every reachable state. */
  lemma AlwaysSolvent(d: Deployment, w: World)
    requires Reachable(d, w)
    ensures Sum(Lots(w.chain.auctions)) <= Balance(w.chain.ledger, Base, d.self)
    ensures Sum(w.chain.escrow) <= Balance(w.chain.ledger, Quote, d.self)
  {
    ReachableInv(d, w);
  }

  /** Every committed call was within its deadlines, and its auction still shows what it did. */
  lemma CommittedCallsWereInTime(d: Deployment, w: World, i: nat)
    requires Reachable(d, w) && i < |w.journal|
    ensures w.journal[i].time <= w.now && EntryOk(w.chain, w.journal[i])
  {
    ReachableInv(d, w);
  }

  /** Any two calls about one auction came in stage order, and a bid came before the deadline of the clear request. */
  lemma TimelineOfAuction(d: Deployment, w: World, i: nat, k: nat)
    requires Reachable(d, w) && i < |w.journal| && k < |w.journal| && w.journal[i].auctionId == w.journal[k].auctionId
    requires Stage(w.journal[i].call) > 0 && Stage(w.journal[k].call) > 0
    ensures Stage(w.journal[i].call) < Stage(w.journal[k].call) ==> i < k && w.journal[i].time <= w.journal[k].time
    ensures Stage(w.journal[i].call) == Stage(w.journal[k].call) && i != k ==>
              w.journal[i].call.SubmitPrivateBid? || w.journal[i].call.WithdrawQuote?
    ensures w.journal[i].call.SubmitPrivateBid? && w.journal[k].call.RequestClear? ==>
              && w.journal[i].auctionId in w.chain.auctions
              && w.journal[i].time < w.chain.auctions[w.journal[i].auctionId].bidDeadline <= w.journal[k].time
    ensures !(w.journal[i].call.SettleAuction? && w.journal[k].call.CancelTimedOutAuction?)
  {
    ReachableInv(d, w);
    assert EntryOk(w.chain, w.journal[i]) && EntryOk(w.chain, w.journal[k]);
    if i < k {
      assert InOrder(w.journal[i], w.journal[k]);
    } else if k < i {
      assert InOrder(w.journal[k], w.journal[i]);
    }
  }

  /** The lot has left the contract exactly once if the auction has ended, and never before. */
  lemma LotLeavesOnce(d: Deployment, w: World, id: Word)
    requires Reachable(d, w) && id in w.chain.auctions
    ensures LotPaid(w.journal, id) == if w.chain.auctions[id].Live() then 0 else w.chain.auctions[id].baseAmount
  {
    ReachableInv(d, w);
    assert Booked(d, w, id, d.self);
  }

  /** However many bids an account sends, it is charged the ceiling amount exactly once. */
  lemma ChargedOnce(d: Deployment, w: World, id: Word, who: Address)
    requires Reachable(d, w) && id in w.chain.auctions
    ensures Charged(w.journal, id, who) ==
            if (id, who) in w.chain.escrow then w.chain.auctions[id].maxQuoteAmount else 0
    ensures w.chain.auctions[id].Live() ==> EscrowOf(w.chain, id, who) == Charged(w.journal, id, who)
    ensures w.chain.auctions[id].maxQuoteAmount > 0
    ensures var a := w.chain.auctions[id];
            a.baseAmount * a.ceilingPriceWei <= a.maxQuoteAmount * 1_000_000_000_000_000_000
            < a.baseAmount * a.ceilingPriceWei + 1_000_000_000_000_000_000
    ensures EscrowOf(w.chain, id, who) in {0, w.chain.auctions[id].maxQuoteAmount}
  {
    ReachableInv(d, w);
    assert Booked(d, w, id, who) && AuctionOk(d, w.chain.auctions[id]);
    var a := w.chain.auctions[id];
    QuoteIsCeiling(a.baseAmount, a.ceilingPriceWei, a.maxQuoteAmount);
    if (id, who) in w.chain.escrow {
      assert SlotOk(d, w.chain, (id, who));
    }
  }

  /**
   * What every account has gained through a settled auction once its escrow entry is empty: the
   * seller gave the lot for the payment, the winner the payment for the lot, others nothing. An
   * account in both roles gets both lines.
   */
  lemma NetEffectOfSettlement(d: Deployment, w: World, id: Word, who: Address)
    requires Reachable(d, w) && id in w.chain.auctions && w.chain.auctions[id].phase == Settled
    requires who != d.self && EscrowOf(w.chain, id, who) == 0
    ensures var a := w.chain.auctions[id];
            && Flow(d.self, w.journal, id, Base, who) ==
               (if who == a.winner then a.baseAmount else 0) - (if who == a.seller then a.baseAmount else 0)
            && Flow(d.self, w.journal, id, Quote, who) ==
               (if who == a.seller then a.quotePaid else 0) - (if who == a.winner then a.quotePaid else 0)
            && a.baseAmount * a.clearingPriceWei <= a.quotePaid * 1_000_000_000_000_000_000
               < a.baseAmount * a.clearingPriceWei + 1_000_000_000_000_000_000
            && a.quotePaid == QuoteFor(a.baseAmount, a.clearingPriceWei)
            && QuoteFor(a.baseAmount, a.floorPriceWei) <= a.quotePaid <= a.maxQuoteAmount
  {
    ReachableInv(d, w);
    var a := w.chain.auctions[id];
    assert Booked(d, w, id, who) && AuctionOk(d, a);
    QuoteMonotone(a.baseAmount, a.floorPriceWei, a.clearingPriceWei);
    QuoteIsCeiling(a.baseAmount, a.clearingPriceWei, a.quotePaid);
  }

  /** An auction that ended without a winner leaves every account where it was, once it has withdrawn. */
  lemma NetEffectWithoutWinner(d: Deployment, w: World, id: Word, who: Address)
    requires Reachable(d, w) && id in w.chain.auctions
    requires w.chain.auctions[id].phase == NoFill || w.chain.auctions[id].phase == Cancelled
    requires who != d.self && EscrowOf(w.chain, id, who) == 0
    ensures Flow(d.self, w.journal, id, Base, who) == 0 && Flow(d.self, w.journal, id, Quote, who) == 0
  {
    ReachableInv(d, w);
    assert Booked(d, w, id, who);
  }

  /** Through a call, terms and machine stay, the state moves forward only, and an end is final. */
  lemma TermsNeverChange(d: Deployment, w: World, es: seq<Event>, id: Word)
    requires Reachable(d, w) && id in w.chain.auctions
    ensures id in Run(d, w, es).chain.auctions
    ensures AuctionEvolves(w.chain.auctions[id], Run(d, w, es).chain.auctions[id])
  {
    ReachableInv(d, w);
    RunKeepsInv(d, w, es);
  }

  /** Only `settleAuction` brings an auction to one of the two states that show a result. */
  lemma OnlySettleShows(d: Deployment, s: Chain, now: nat, sender: Address, call: Call, id: Word)
    requires WellFormed(d, s) && Exec(d, s, now, sender, call).Committed?
    requires var t := Exec(d, s, now, sender, call).chain;
             id in t.auctions && (t.auctions[id].phase == Settled || t.auctions[id].phase == NoFill)
    ensures (id in s.auctions && s.auctions[id] == Exec(d, s, now, sender, call).chain.auctions[id])
            || (call.SettleAuction? && call.auctionId == id && id in s.auctions
                && SignedByPinned(d, s.auctions[id], call.result, call.signature)
                && ShowsResult(Exec(d, s, now, sender, call).chain.auctions[id], call.result)
                && call.result.auctionId == id)
  {
    hide PayAll, SettlementPayments, SlotOk;
    if call.SettleAuction? && call.auctionId == id {
      ExecEntryOk(d, s, now, sender, call);
    }
  }

  /** No signature settles an auction that still takes bids: there is no digest to sign yet. */
  lemma NoDigestBeforeClear(d: Deployment, w: World, id: Word, r: ClearResult, signature: Bytes)
    requires Reachable(d, w) && id in w.chain.auctions && w.chain.auctions[id].phase == Open
    ensures !SignedByPinned(d, w.chain.auctions[id], r, signature)
  {
    ReachableInv(d, w);
    assert AuctionOk(d, w.chain.auctions[id]);
  }

  /** If the registry hands out zero as the id of the clear instruction, the auction can only be cancelled. */
  lemma ZeroInstructionNeverSettles(d: Deployment, w: World, es: seq<Event>, id: Word)
    requires Reachable(d, w) && id in w.chain.auctions
    requires w.chain.auctions[id].phase == ClearRequested && w.chain.auctions[id].clearInstructionId == 0
    ensures id in Run(d, w, es).chain.auctions
    ensures Run(d, w, es).chain.auctions[id].phase in {ClearRequested, Cancelled}
    ensures forall now, r, signature :: Settle(d, Run(d, w, es).chain, now, id, r, signature).Reverted?
  {
    hide Reachable, TimelineOk, BooksOk, EscrowOk, WinnersOk, Solvent, SuppliesFit, OutcomeOk, ResultAccepted, Commit,
         SettlementPayments;
    ReachableInv(d, w);
    RunKeepsInv(d, w, es);
    var t := Run(d, w, es).chain;
    assert AuctionEvolves(w.chain.auctions[id], t.auctions[id]);
    assert AuctionOk(d, t.auctions[id]);
  }
}
