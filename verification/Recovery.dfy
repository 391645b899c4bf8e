/** Exactly when a call commits, and that nobody's tokens can be stranded. */
module Recovery {
  import opened Basics
  import opened Sums
  import opened Tokens
  import opened Messages
  import opened Quote
  import opened AuctionSpec
  import opened Solvency
  import opened History
  import opened Runs
  import Digest

  // ----- a call commits exactly when its guard holds -----

  lemma OnePush(d: Deployment, l: Ledger, asset: Asset, to: Address, amount: nat)
    requires SuppliesFit(l) && amount <= Balance(l, asset, d.self)
    ensures PayAll(d.self, l, [Push(asset, to, amount)]).Some?
  {
    var ps := [Push(asset, to, amount)];
    assert ps[1..] == [];
    assert Outflow(ps[1..], Base) == 0 && Outflow(ps[1..], Quote) == 0;
    PushesSucceed(d.self, l, ps);
  }

  lemma OnePull(d: Deployment, l: Ledger, asset: Asset, from: Address, amount: nat)
    requires SuppliesFit(l)
    ensures PayAll(d.self, l, [Pull(asset, from, amount)]).Some? <==>
            amount <= Get(TokenOf(l, asset).allowances, from) && amount <= Balance(l, asset, from)
  {
    assert [Pull(asset, from, amount)][1..] == [];
    PullSucceedsIff(d.self, l, asset, from, amount);
  }

  lemma LotCovered(d: Deployment, s: Chain, id: Word)
    requires Inv(d, s) && id in s.auctions && s.auctions[id].Live()
    ensures s.auctions[id].baseAmount <= Balance(s.ledger, Base, d.self)
  {
    SumCovers(Lots(s.auctions), id, id);
  }

  lemma EscrowCovered(d: Deployment, s: Chain, id: Word, who: Address)
    requires Inv(d, s)
    ensures EscrowOf(s, id, who) <= Balance(s.ledger, Quote, d.self)
  {
    SumCovers(s.escrow, (id, who), (id, who));
  }

  lemma CancelCommitsIff(d: Deployment, s: Chain, now: nat, id: Word)
    requires Inv(d, s)
    ensures Cancel(d, s, now, id).Committed? <==>
            && !s.entered && id in s.auctions
            && (s.auctions[id].phase == Open || s.auctions[id].phase == ClearRequested)
            && s.auctions[id].settleDeadline < now
  {
    if CancelAllowed(s, now, id) {
      LotCovered(d, s, id);
      OnePush(d, s.ledger, Base, s.auctions[id].seller, s.auctions[id].baseAmount);
    }
  }

  lemma WithdrawCommitsIff(d: Deployment, s: Chain, sender: Address, id: Word)
    requires Inv(d, s)
    ensures Withdraw(d, s, sender, id).Committed? <==>
            && !s.entered && id in s.auctions
            && (s.auctions[id].phase == Settled || s.auctions[id].phase == NoFill || s.auctions[id].phase == Cancelled)
            && (id, sender) in s.escrow && s.escrow[(id, sender)] > 0
  {
    EscrowCovered(d, s, id, sender);
    OnePush(d, s.ledger, Quote, sender, EscrowOf(s, id, sender));
  }

  /** No arithmetic and no transfer can stop a settlement that passes the checks. */
  lemma SettleCommitsIff(d: Deployment, s: Chain, now: nat, id: Word, r: ClearResult, signature: Bytes)
    requires Inv(d, s)
    ensures Settle(d, s, now, id, r, signature).Committed? <==>
            && !s.entered && id in s.auctions && s.auctions[id].phase == ClearRequested
            && now <= s.auctions[id].settleDeadline
            && s.auctions[id].clearInstructionId != 0
            && d.platform.recover(
                 Digest.ClearDigest(d.platform.keccak, r, s.auctions[id].clearInstructionId, d.chainId), signature)
               == Some(s.auctions[id].teeId)
            && r.contractAddr == d.self && r.auctionId == id && r.eligibleBidCount <= r.submittedBidCount
            && (r.winner == 0 ==>
                  r.unitPriceWei == 0 && r.winningNonce == 0 && r.winningCommitment == 0 && r.eligibleBidCount == 0)
            && (r.winner != 0 ==>
                  && s.auctions[id].floorPriceWei <= r.unitPriceWei <= s.auctions[id].ceilingPriceWei
                  && r.winningNonce != 0 && r.winningCommitment != 0 && r.eligibleBidCount != 0
                  && (id, r.winner) in s.escrow && s.escrow[(id, r.winner)] == s.auctions[id].maxQuoteAmount)
  {
    hide Digest.ClearDigest, ResultAccepted, SettleAllowed;
    SettleGuards(d, s, now, id, r, signature);
    SettleGoesThrough(d, s, now, id, r, signature);
  }

  lemma SettleGuards(d: Deployment, s: Chain, now: nat, id: Word, r: ClearResult, signature: Bytes)
    requires WellFormed(d, s)
    ensures SettleAllowed(d, s, now, id, r, signature) <==>
            && !s.entered && id in s.auctions && s.auctions[id].phase == ClearRequested
            && now <= s.auctions[id].settleDeadline
            && s.auctions[id].clearInstructionId != 0
            && d.platform.recover(
                 Digest.ClearDigest(d.platform.keccak, r, s.auctions[id].clearInstructionId, d.chainId), signature)
               == Some(s.auctions[id].teeId)
            && r.contractAddr == d.self && r.auctionId == id && r.eligibleBidCount <= r.submittedBidCount
            && (r.winner == 0 ==>
                  r.unitPriceWei == 0 && r.winningNonce == 0 && r.winningCommitment == 0 && r.eligibleBidCount == 0)
            && (r.winner != 0 ==>
                  && s.auctions[id].floorPriceWei <= r.unitPriceWei <= s.auctions[id].ceilingPriceWei
                  && r.winningNonce != 0 && r.winningCommitment != 0 && r.eligibleBidCount != 0
                  && (id, r.winner) in s.escrow && s.escrow[(id, r.winner)] == s.auctions[id].maxQuoteAmount)
  {
    hide Digest.ClearDigest, EscrowOk, WinnersOk;
    if id in s.auctions {
      assert AuctionOk(d, s.auctions[id]);
    }
  }

  lemma SettleGoesThrough(d: Deployment, s: Chain, now: nat, id: Word, r: ClearResult, signature: Bytes)
    requires Inv(d, s)
    ensures Settle(d, s, now, id, r, signature).Committed? <==> SettleAllowed(d, s, now, id, r, signature)
  {
    if SettleAllowed(d, s, now, id, r, signature) {
      var a := s.auctions[id];
      LotCovered(d, s, id);
      if r.winner == ZERO_ADDRESS {
        OnePush(d, s.ledger, Base, a.seller, a.baseAmount);
      } else {
        EscrowCovered(d, s, id, r.winner);
        FillIs(d, s, now, id, r, signature);
        SettlementTotals(a, r.winner, QuoteFor(a.baseAmount, r.unitPriceWei), r.winner);
        PushesSucceed(d.self, s.ledger, SettlementPayments(a, r.winner, QuoteFor(a.baseAmount, r.unitPriceWei)));
      }
    }
  }

  lemma SubmitCommitsIff(d: Deployment, s: Chain, now: nat, sender: Address, id: Word, encryptedBid: Bytes,
          instructionId: Option<Word>)
    requires Inv(d, s)
    ensures Submit(d, s, now, sender, id, encryptedBid, instructionId).Committed? <==>
            && !s.entered && id in s.auctions && s.auctions[id].phase == Open && now < s.auctions[id].bidDeadline
            && 1 <= |encryptedBid| <= 4096 && instructionId.Some?
            && ((id, sender) !in s.escrow || s.escrow[(id, sender)] == 0 ==>
                  && s.auctions[id].maxQuoteAmount <= Get(s.ledger.quote.allowances, sender)
                  && s.auctions[id].maxQuoteAmount <= Balance(s.ledger, Quote, sender))
  {
    if BidAllowed(s, now, id, encryptedBid, instructionId) && EscrowOf(s, id, sender) == 0 {
      OnePull(d, s.ledger, Quote, sender, s.auctions[id].maxQuoteAmount);
    }
  }

  lemma CreateCommitsIff(d: Deployment, s: Chain, now: nat, sender: Address, base: Word, floor: Word, ceiling: Word,
                         bidDeadline: Uint64, settleDeadline: Uint64, teeIds: Option<seq<Address>>)
    requires Inv(d, s)
    ensures Create(d, s, now, sender, base, floor, ceiling, bidDeadline, settleDeadline, teeIds).Committed? <==>
            && !s.entered && s.extensionId != 0 && s.nextAuctionId + 1 < WORD_SPACE
            && 0 < base <= 1_000_000_000_000_000_000_000_000_000_000_000_000
            && 0 < floor <= ceiling <= 1_000_000_000_000_000_000_000_000_000_000_000_000
            && now < bidDeadline < settleDeadline
            && (exists tee :: tee != 0 && teeIds == Some([tee]))
            && base <= Get(s.ledger.base.allowances, sender) && base <= Balance(s.ledger, Base, sender)
  {
    if teeIds.Some? && |teeIds.value| == 1 {
      var ids := teeIds.value;
      assert ids == [ids[0]];
      assert teeIds == Some([ids[0]]);
    }
    if CreateAllowed(s, now, base, floor, ceiling, bidDeadline, settleDeadline, teeIds) {
      QuoteFits(base, ceiling);
      OnePull(d, s.ledger, Base, sender, base);
    }
  }

  /** A clear request commits at every moment from the bid deadline to the settle deadline, whoever makes it. */
  lemma RequestClearCommitsIff(d: Deployment, s: Chain, now: nat, id: Word, instructionId: Option<Word>)
    ensures Clear(d, s, now, id, instructionId).Committed? <==>
            && !s.entered && id in s.auctions && s.auctions[id].phase == Open
            && s.auctions[id].bidDeadline <= now <= s.auctions[id].settleDeadline
            && instructionId.Some?
  {
  }

  /** The extension id is set once, to the first of the ids from 65536 on that is registered to this contract. */
  lemma SetExtensionCommitsIff(d: Deployment, s: Chain, nextId: Option<nat>, senders: map<nat, Address>, id: nat)
    ensures SetExtension(d, s, nextId, senders) == Committed(s.(extensionId := id), [], None) <==>
            && s.extensionId == 0 && nextId.Some? && 65536 <= id < nextId.value
            && id in senders && senders[id] == d.self
            && forall i :: 65536 <= i < id ==> i in senders && senders[i] != d.self
  {
    if nextId.Some? {
      FoundIsPublic(FIRST_PUBLIC_EXTENSION_ID, nextId.value, senders, d.self);
      var found := FirstRegistered(FIRST_PUBLIC_EXTENSION_ID, nextId.value, senders, d.self);
      if found.Some? {
        assert s.(extensionId := found.value).extensionId == found.value;
        assert s.(extensionId := id).extensionId == id;
      }
    }
  }

  // ----- recovery -----

  /** Withdrawals of one auction's escrow by these accounts, one after the other. */
  function WithdrawAll(d: Deployment, s: Chain, id: Word, order: seq<Address>): Option<Chain>
    decreases |order|
  {
    if order == [] then Some(s)
    else
      match Withdraw(d, s, order[0], id)
      case Reverted => None
      case Committed(next, _, _) => WithdrawAll(d, next, id, order[1..])
  }

  predicate NoRepeats(order: seq<Address>) {
    forall i, k :: 0 <= i < k < |order| ==> order[i] != order[k]
  }

  /** Only the withdrawing accounts' escrow changes, to zero, and they gain exactly that. */
  ghost predicate PaidBack(d: Deployment, s: Chain, t: Chain, id: Word, order: seq<Address>) {
    && t.auctions == s.auctions && t.escrow.Keys == s.escrow.Keys
    && (forall slot :: slot in s.escrow ==>
          t.escrow[slot] == if slot.0 == id && slot.1 in order then 0 else s.escrow[slot])
    && (forall who :: who != d.self ==>
          && Balance(t.ledger, Base, who) == Balance(s.ledger, Base, who)
          && Balance(t.ledger, Quote, who) ==
             Balance(s.ledger, Quote, who) + if who in order then EscrowOf(s, id, who) else 0)
  }

  lemma WithdrawPaysBack(d: Deployment, s: Chain, id: Word, who: Address)
    requires Inv(d, s) && WithdrawAllowed(s, who, id)
    ensures var o := Withdraw(d, s, who, id);
            o.Committed? && Inv(d, o.chain) && who != d.self && PaidBack(d, s, o.chain, id, [who])
            && o.chain.auctions == s.auctions
  {
    hide AuctionsOk, WinnersOk, Solvent, SuppliesFit;
    WithdrawCommitsIff(d, s, who, id);
    WithdrawKeeps(d, s, who, id);
    assert SlotOk(d, s, (id, who));
    var o := Withdraw(d, s, who, id);
    PayAllEffect(d.self, s.ledger, o.payments);
    forall x, asset {
      NetOne(d.self, Push(Quote, who, EscrowOf(s, id, who)), asset, x);
    }
  }

  lemma PaidBackStep(d: Deployment, s: Chain, mid: Chain, t: Chain, id: Word, who: Address, rest: seq<Address>)
    requires PaidBack(d, s, mid, id, [who]) && PaidBack(d, mid, t, id, rest) && who !in rest
    ensures PaidBack(d, s, t, id, [who] + rest)
  {
    hide Balance;
    forall x
      ensures EscrowOf(mid, id, x) == if x == who then 0 else EscrowOf(s, id, x)
    {
      if (id, x) in s.escrow {
        assert mid.escrow[(id, x)] == if x in [who] then 0 else s.escrow[(id, x)];
      }
    }
  }

  lemma NothingPaidBack(d: Deployment, s: Chain, id: Word)
    ensures PaidBack(d, s, s, id, [])
  {
  }

  lemma OthersStillOwed(d: Deployment, s: Chain, mid: Chain, id: Word, order: seq<Address>)
    requires order != [] && NoRepeats(order) && PaidBack(d, s, mid, id, [order[0]])
    requires forall who :: who in order ==> EscrowOf(s, id, who) != 0
    ensures NoRepeats(order[1..]) && order[0] !in order[1..]
    ensures forall x :: x in order[1..] ==> EscrowOf(mid, id, x) != 0
  {
    forall x | x in order[1..]
      ensures EscrowOf(mid, id, x) != 0
    {
      assert x in order && x !in [order[0]];
      assert (id, x) in s.escrow && mid.escrow[(id, x)] == s.escrow[(id, x)];
    }
  }

  /** All who are owed escrow of an ended auction can withdraw it, in any order. */
  lemma {:induction false} WithdrawAllPaysBack(d: Deployment, s: Chain, id: Word, order: seq<Address>)
    requires Inv(d, s) && id in s.auctions && !s.auctions[id].Live() && NoRepeats(order)
    requires forall who :: who in order ==> EscrowOf(s, id, who) != 0
    ensures WithdrawAll(d, s, id, order).Some?
    ensures var t := WithdrawAll(d, s, id, order).value; Inv(d, t) && PaidBack(d, s, t, id, order)
    decreases |order|
  {
    hide Withdraw, PaidBack, AuctionsOk, EscrowOk, WinnersOk, Solvent, SuppliesFit, EscrowOf;
    if order == [] {
      NothingPaidBack(d, s, id);
    } else {
      var who, rest := order[0], order[1..];
      WithdrawPaysBack(d, s, id, who);
      var mid := Withdraw(d, s, who, id).chain;
      OthersStillOwed(d, s, mid, id, order);
      WithdrawAllPaysBack(d, mid, id, rest);
      PaidBackStep(d, s, mid, WithdrawAll(d, mid, id, rest).value, id, who, rest);
      assert order == [who] + rest;
    }
  }

  /** Everyone who has put quote tokens into a live auction. */
  ghost predicate AllBidders(s: Chain, id: Word, order: seq<Address>) {
    NoRepeats(order) && forall who :: who in order <==> (id, who) in s.escrow
  }

  lemma CancelReturnsLot(d: Deployment, s: Chain, now: nat, id: Word)
    requires Inv(d, s) && CancelAllowed(s, now, id)
    ensures var o := Cancel(d, s, now, id);
            && o.Committed? && Inv(d, o.chain)
            && id in o.chain.auctions && !o.chain.auctions[id].Live() && o.chain.escrow == s.escrow
            && forall who :: who != d.self ==>
                 && Balance(o.chain.ledger, Base, who) ==
                    Balance(s.ledger, Base, who)
                    + (if who == s.auctions[id].seller then s.auctions[id].baseAmount else 0)
                 && Balance(o.chain.ledger, Quote, who) == Balance(s.ledger, Quote, who)
  {
    var a := s.auctions[id];
    CancelCommitsIff(d, s, now, id);
    CancelKeeps(d, s, now, id);
    assert AuctionOk(d, a);
    PayAllEffect(d.self, s.ledger, [Push(Base, a.seller, a.baseAmount)]);
    forall x, asset {
      NetOne(d.self, Push(Base, a.seller, a.baseAmount), asset, x);
    }
  }

  /** Nothing of the auction is left in the contract: seller and bidders have everything back. */
  ghost predicate Recovered(d: Deployment, s: Chain, t: Chain, id: Word)
    requires id in s.auctions
  {
    var a := s.auctions[id];
    && id in t.auctions && t.auctions[id].phase == Cancelled
    && (forall who :: EscrowOf(t, id, who) == 0)
    && (forall who :: who != d.self ==>
          && Balance(t.ledger, Base, who) ==
             Balance(s.ledger, Base, who) + (if who == a.seller then a.baseAmount else 0)
          && Balance(t.ledger, Quote, who) ==
             Balance(s.ledger, Quote, who) + (if (id, who) in s.escrow then a.maxQuoteAmount else 0))
  }

  lemma BiddersOwed(d: Deployment, s: Chain, id: Word, order: seq<Address>)
    requires WellFormed(d, s) && id in s.auctions && s.auctions[id].Live() && AllBidders(s, id, order)
    ensures s.auctions[id].maxQuoteAmount != 0
    ensures forall who ::
              EscrowOf(s, id, who) == (if who in order then s.auctions[id].maxQuoteAmount else 0)
  {
    assert AuctionOk(d, s.auctions[id]);
    forall who: Address
      ensures EscrowOf(s, id, who) == if who in order then s.auctions[id].maxQuoteAmount else 0
    {
      if (id, who) in s.escrow {
        assert SlotOk(d, s, (id, who));
      }
    }
  }

  lemma RecoveredAfter(d: Deployment, s: Chain, mid: Chain, t: Chain, id: Word, order: seq<Address>)
    requires WellFormed(d, s) && id in s.auctions && s.auctions[id].Live() && AllBidders(s, id, order)
    requires id in mid.auctions && mid.auctions[id].phase == Cancelled && mid.escrow == s.escrow
    requires PaidBack(d, mid, t, id, order)
    requires forall who :: who != d.self ==>
               && Balance(mid.ledger, Base, who) ==
                  Balance(s.ledger, Base, who) + (if who == s.auctions[id].seller then s.auctions[id].baseAmount else 0)
               && Balance(mid.ledger, Quote, who) == Balance(s.ledger, Quote, who)
    ensures Recovered(d, s, t, id)
  {
    BiddersOwed(d, s, id, order);
    forall who: Address
      ensures EscrowOf(t, id, who) == 0
    {
      if (id, who) in s.escrow {
        assert t.escrow[(id, who)] == 0;
      }
    }
  }

  /**
   * From any reachable state, once the settle deadline has passed, a live auction can be cancelled
   * and every bidder can withdraw, in any order: the seller regains the lot, every bidder the whole
   * escrow, and nothing of this auction is left in the contract.
   */
  lemma FundsAlwaysRecoverable(d: Deployment, w: World, now: nat, id: Word, order: seq<Address>)
    requires Reachable(d, w) && id in w.chain.auctions && w.chain.auctions[id].Live()
    requires now > w.chain.auctions[id].settleDeadline && AllBidders(w.chain, id, order)
    ensures Cancel(d, w.chain, now, id).Committed?
    ensures WithdrawAll(d, Cancel(d, w.chain, now, id).chain, id, order).Some?
    ensures var t := WithdrawAll(d, Cancel(d, w.chain, now, id).chain, id, order).value;
            Recovered(d, w.chain, t, id) && Inv(d, t)
  {
    var s := w.chain;
    ReachableInv(d, w);
    CancelReturnsLot(d, s, now, id);
    var mid := Cancel(d, s, now, id).chain;
    assert mid.auctions[id].phase == Cancelled;
    BiddersOwed(d, s, id, order);
    WithdrawAllPaysBack(d, mid, id, order);
    RecoveredAfter(d, s, mid, WithdrawAll(d, mid, id, order).value, id, order);
  }

  lemma {:induction false} Listing(accounts: set<Address>) returns (order: seq<Address>)
    ensures NoRepeats(order) && forall who :: who in order <==> who in accounts
  {
    order := [];
    if accounts != {} {
      var who :| who in accounts;
      var rest := Listing(accounts - {who});
      order := [who] + rest;
    }
  }

  /** The bidders of an auction can be listed, so that is no condition. */
  lemma BiddersListed(s: Chain, id: Word)
    ensures exists order :: AllBidders(s, id, order)
  {
    var order := Listing(set slot | slot in s.escrow && slot.0 == id :: slot.1);
    forall who: Address
      ensures who in order <==> (id, who) in s.escrow
    {
      if (id, who) in s.escrow {
        assert (id, who).1 == who;
      }
    }
    assert AllBidders(s, id, order);
  }

  /** From any reachable state, past the settle deadline, everybody in a live auction can get everything back. */
  lemma EverybodyCanLeave(d: Deployment, w: World, now: nat, id: Word)
    requires Reachable(d, w) && id in w.chain.auctions && w.chain.auctions[id].Live()
    requires now > w.chain.auctions[id].settleDeadline
    ensures Cancel(d, w.chain, now, id).Committed?
    ensures exists order :: AllBidders(w.chain, id, order)
                            && WithdrawAll(d, Cancel(d, w.chain, now, id).chain, id, order).Some?
                            && Recovered(d, w.chain,
                                         WithdrawAll(d, Cancel(d, w.chain, now, id).chain, id, order).value, id)
  {
    hide Recovered, WithdrawAll, Cancel, AllBidders;
    BiddersListed(w.chain, id);
    var order :| AllBidders(w.chain, id, order);
    FundsAlwaysRecoverable(d, w, now, id, order);
  }

  lemma ExecKeepsEntry(d: Deployment, s: Chain, now: nat, sender: Address, call: Call, id: Word, who: Address)
    requires id in s.auctions && !s.auctions[id].Live() && (sender != who || call != WithdrawQuote(id))
    requires Exec(d, s, now, sender, call).Committed?
    ensures EscrowOf(Exec(d, s, now, sender, call).chain, id, who) == EscrowOf(s, id, who)
  {
    hide PayAll, SignedByPinned, CheckedQuoteFor, SettlementPayments, FirstRegistered;
  }

  /** Once an auction has ended, an escrow entry changes only when its own account withdraws. */
  lemma StepKeepsEntry(d: Deployment, w: World, e: Event, id: Word, who: Address)
    requires id in w.chain.auctions && !w.chain.auctions[id].Live()
    requires e.Transact? ==> e.sender != who || e.call != WithdrawQuote(id)
    ensures EscrowOf(Step(d, w, e).chain, id, who) == EscrowOf(w.chain, id, who)
  {
    hide Exec;
    if e.Transact? && Exec(d, w.chain, e.time, e.sender, e.call).Committed? {
      ExecKeepsEntry(d, w.chain, e.time, e.sender, e.call, id, who);
    }
  }

  /** Whatever anyone else does in between, an account can still withdraw what an ended auction owes it. */
  lemma {:induction false} ExitStaysOpen(d: Deployment, w: World, es: seq<Event>, id: Word, who: Address)
    requires WorldInv(d, w) && id in w.chain.auctions && !w.chain.auctions[id].Live()
    requires EscrowOf(w.chain, id, who) != 0
    requires forall i :: 0 <= i < |es| && es[i].Transact? ==> es[i].sender != who || es[i].call != WithdrawQuote(id)
    ensures var s := Run(d, w, es).chain;
            && Withdraw(d, s, who, id).Committed?
            && Withdraw(d, s, who, id).payments == [Push(Quote, who, EscrowOf(w.chain, id, who))]
    decreases |es|
  {
    hide Exec, OthersMayDo, TimelineOk, BooksOk;
    if es == [] {
      WithdrawCommitsIff(d, w.chain, who, id);
    } else {
      StepKeepsInv(d, w, es[0]);
      StepKeepsEntry(d, w, es[0], id, who);
      assert AuctionEvolves(w.chain.auctions[id], Step(d, w, es[0]).chain.auctions[id]);
      ExitStaysOpen(d, Step(d, w, es[0]), es[1..], id, who);
    }
  }

  /** A call somebody tries to make while another one is in progress. */
  datatype Attempt = Attempt(time: nat, sender: Address, call: Call)

  function AfterAttempts(d: Deployment, s: Chain, attempts: seq<Attempt>): Chain
    decreases |attempts|
  {
    if attempts == [] then s
    else
      match Exec(d, s, attempts[0].time, attempts[0].sender, attempts[0].call)
      case Reverted => AfterAttempts(d, s, attempts[1..])
      case Committed(next, _, _) => AfterAttempts(d, next, attempts[1..])
  }

  /** Re-entering from a token or registry call changes nothing, however often and whichever call is tried. */
  lemma {:induction false} ReentryChangesNothing(d: Deployment, s: Chain, attempts: seq<Attempt>)
    requires s.entered && s.extensionId != 0
    ensures AfterAttempts(d, s, attempts) == s
    decreases |attempts|
  {
    if attempts != [] {
      ReentryChangesNothing(d, s, attempts[1..]);
    }
  }
}
