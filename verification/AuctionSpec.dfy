/**
 * What each call of the auction contract does to its storage and to the tokens
 * (`contracts/InstructionSender.sol`). A call either reverts, changing nothing, or commits.
 */
module AuctionSpec {
  import opened Basics
  import opened Sums
  import opened Tokens
  import opened Messages
  import opened Quote
  import Digest

  const FIRST_PUBLIC_EXTENSION_ID: nat := 0x10000
  const MAX_ENCRYPTED_BID_BYTES: nat := 4096

  /** The states of a created auction; an auction that is not in the map is in state `None`. */
  datatype Phase = Open | ClearRequested | Settled | NoFill | Cancelled

  datatype Auction = Auction(
    seller: Address, teeId: Address,
    baseAmount: Word, floorPriceWei: Word, ceilingPriceWei: Word, maxQuoteAmount: Word,
    bidDeadline: Uint64, settleDeadline: Uint64,
    clearInstructionId: Word,
    winner: Address, clearingPriceWei: Word, quotePaid: Word,
    submittedBidCount: Word, eligibleBidCount: Word,
    phase: Phase)
  {
    /** The lot is still in the contract. */
    predicate Live() {
      phase == Open || phase == ClearRequested
    }
  }

  type Slot = (Word, Address)

  /** The contract's storage, and the tokens it moves. */
  datatype Chain = Chain(
    extensionId: nat, entered: bool, nextAuctionId: Word,
    auctions: map<Word, Auction>, escrow: map<Slot, nat>, ledger: Ledger)

  datatype Payload =
    | BidPayload(bidder: Address, encryptedBid: Bytes)
    | ClearPayload(contractAddr: Address, floorPriceWei: Word, ceilingPriceWei: Word)

  /** An instruction handed to the registry for one machine. */
  datatype Instruction = Instruction(instructionId: Word, teeId: Address, auctionId: Word, payload: Payload)

  /** `None` in an argument that stands for an external call's answer means that call reverted. */
  datatype Call =
    | SetExtensionId(nextId: Option<nat>, senders: map<nat, Address>)
    | CreateAuction(baseAmount: Word, floorPriceWei: Word, ceilingPriceWei: Word,
                    bidDeadline: Uint64, settleDeadline: Uint64, teeIds: Option<seq<Address>>)
    | SubmitPrivateBid(auctionId: Word, encryptedBid: Bytes, instructionId: Option<Word>)
    | RequestClear(auctionId: Word, instructionId: Option<Word>)
    | SettleAuction(auctionId: Word, result: ClearResult, signature: Bytes)
    | CancelTimedOutAuction(auctionId: Word)
    | WithdrawQuote(auctionId: Word)

  datatype Outcome =
    | Reverted
    | Committed(chain: Chain, payments: seq<Payment>, sent: Option<Instruction>)

  function EscrowOf(s: Chain, id: Word, who: Address): nat {
    Get(s.escrow, (id, who))
  }

  /** The storage writes of a call take effect if and only if all its token calls succeed. */
  function Commit(d: Deployment, s: Chain, payments: seq<Payment>, sent: Option<Instruction>): Outcome {
    match PayAll(d.self, s.ledger, payments)
    case None => Reverted
    case Some(ledger) => Committed(s.(ledger := ledger), payments, sent)
  }

  /** The first id whose instruction sender is `self`; asking for the sender of an id not in the map reverts. */
  function FirstRegistered(from: nat, nextId: nat, senders: map<nat, Address>, self: Address): Option<nat>
    decreases nextId - from
  {
    if from >= nextId || from !in senders then None
    else if senders[from] == self then Some(from)
    else FirstRegistered(from + 1, nextId, senders, self)
  }

  function SetExtension(d: Deployment, s: Chain, nextId: Option<nat>, senders: map<nat, Address>): Outcome {
    if s.extensionId != 0 || nextId.None? then Reverted
    else
      match FirstRegistered(FIRST_PUBLIC_EXTENSION_ID, nextId.value, senders, d.self)
      case None => Reverted
      case Some(found) => Committed(s.(extensionId := found), [], None)
  }

  function NewAuction(seller: Address, teeId: Address, baseAmount: Word, floor: Word, ceiling: Word, maxQuote: Word,
                      bidDeadline: Uint64, settleDeadline: Uint64): Auction {
    Auction(seller, teeId, baseAmount, floor, ceiling, maxQuote, bidDeadline, settleDeadline,
            0, ZERO_ADDRESS, 0, 0, 0, 0, Open)
  }

  predicate CreateAllowed(s: Chain, now: nat, baseAmount: Word, floor: Word, ceiling: Word,
                          bidDeadline: Uint64, settleDeadline: Uint64, teeIds: Option<seq<Address>>) {
    && !s.entered
    && baseAmount != 0
    && floor != 0 && ceiling >= floor
    && baseAmount <= MAX_COMPONENT && floor <= MAX_COMPONENT && ceiling <= MAX_COMPONENT
    && bidDeadline > now && settleDeadline > bidDeadline
    && s.extensionId != 0
    && teeIds.Some? && |teeIds.value| == 1 && teeIds.value[0] != ZERO_ADDRESS
    && s.nextAuctionId < MAX_WORD
  }

  function Create(d: Deployment, s: Chain, now: nat, sender: Address, baseAmount: Word, floor: Word, ceiling: Word,
                  bidDeadline: Uint64, settleDeadline: Uint64, teeIds: Option<seq<Address>>): Outcome {
    var maxQuote := CheckedQuoteFor(baseAmount, ceiling);
    if !CreateAllowed(s, now, baseAmount, floor, ceiling, bidDeadline, settleDeadline, teeIds) || maxQuote.None? then
      Reverted
    else
      var a := NewAuction(sender, teeIds.value[0], baseAmount, floor, ceiling, maxQuote.value,
                          bidDeadline, settleDeadline);
      Commit(d, s.(nextAuctionId := s.nextAuctionId + 1, auctions := s.auctions[s.nextAuctionId := a]),
             [Pull(Base, sender, baseAmount)], None)
  }

  predicate BidAllowed(s: Chain, now: nat, id: Word, encryptedBid: Bytes, instructionId: Option<Word>) {
    && !s.entered
    && id in s.auctions && s.auctions[id].phase == Open
    && now < s.auctions[id].bidDeadline
    && 0 < |encryptedBid| <= MAX_ENCRYPTED_BID_BYTES
    && instructionId.Some?
  }

  function Submit(d: Deployment, s: Chain, now: nat, sender: Address, id: Word, encryptedBid: Bytes,
                  instructionId: Option<Word>): Outcome {
    if !BidAllowed(s, now, id, encryptedBid, instructionId) then Reverted
    else
      var a := s.auctions[id];
      var sent := Some(Instruction(instructionId.value, a.teeId, id, BidPayload(sender, encryptedBid)));
      if EscrowOf(s, id, sender) == 0 then
        Commit(d, s.(escrow := s.escrow[(id, sender) := a.maxQuoteAmount]),
               [Pull(Quote, sender, a.maxQuoteAmount)], sent)
      else
        Committed(s, [], sent)
  }

  predicate ClearAllowed(s: Chain, now: nat, id: Word, instructionId: Option<Word>) {
    && !s.entered
    && id in s.auctions && s.auctions[id].phase == Open
    && s.auctions[id].bidDeadline <= now <= s.auctions[id].settleDeadline
    && instructionId.Some?
  }

  function Clear(d: Deployment, s: Chain, now: nat, id: Word, instructionId: Option<Word>): Outcome {
    if !ClearAllowed(s, now, id, instructionId) then Reverted
    else
      var a := s.auctions[id];
      Committed(
        s.(auctions := s.auctions[id := a.(clearInstructionId := instructionId.value, phase := ClearRequested)]),
        [],
        Some(Instruction(instructionId.value, a.teeId, id,
                         ClearPayload(d.self, a.floorPriceWei, a.ceilingPriceWei))))
  }

  /** The signature is the pinned machine's, over this result and this auction's clear instruction. */
  predicate SignedByPinned(d: Deployment, a: Auction, r: ClearResult, signature: Bytes) {
    && a.clearInstructionId != 0
    && d.platform.recover(Digest.ClearDigest(d.platform.keccak, r, a.clearInstructionId, d.chainId), signature)
       == Some(a.teeId)
  }

  /** The checks of `settleAuction` on the result itself, signature aside. */
  predicate ResultAccepted(d: Deployment, s: Chain, id: Word, r: ClearResult)
    requires id in s.auctions
  {
    var a := s.auctions[id];
    && r.contractAddr == d.self && r.auctionId == id && r.eligibleBidCount <= r.submittedBidCount
    && if r.winner == ZERO_ADDRESS then
         r.unitPriceWei == 0 && r.winningNonce == 0 && r.winningCommitment == 0 && r.eligibleBidCount == 0
       else
         && a.floorPriceWei <= r.unitPriceWei <= a.ceilingPriceWei
         && r.winningNonce != 0 && r.winningCommitment != 0 && r.eligibleBidCount != 0
         && EscrowOf(s, id, r.winner) == a.maxQuoteAmount
  }

  predicate SettleAllowed(d: Deployment, s: Chain, now: nat, id: Word, r: ClearResult, signature: Bytes) {
    && !s.entered
    && id in s.auctions && s.auctions[id].phase == ClearRequested
    && now <= s.auctions[id].settleDeadline
    && SignedByPinned(d, s.auctions[id], r, signature)
    && ResultAccepted(d, s, id, r)
  }

  function Settle(d: Deployment, s: Chain, now: nat, id: Word, r: ClearResult, signature: Bytes): Outcome {
    if !SettleAllowed(d, s, now, id, r, signature) then Reverted
    else
      var a := s.auctions[id].(submittedBidCount := r.submittedBidCount, eligibleBidCount := r.eligibleBidCount);
      if r.winner == ZERO_ADDRESS then
        Commit(d, s.(auctions := s.auctions[id := a.(phase := NoFill)]), [Push(Base, a.seller, a.baseAmount)], None)
      else
        var quotePaid := CheckedQuoteFor(a.baseAmount, r.unitPriceWei);
        if quotePaid.None? || quotePaid.value > a.maxQuoteAmount then Reverted
        else
          Commit(d,
                 s.(auctions := s.auctions[id := a.(winner := r.winner, clearingPriceWei := r.unitPriceWei,
                                                    quotePaid := quotePaid.value, phase := Settled)],
                    escrow := s.escrow[(id, r.winner) := 0]),
                 SettlementPayments(a, r.winner, quotePaid.value), None)
  }

  function SettlementPayments(a: Auction, winner: Address, quotePaid: nat): seq<Payment>
    requires quotePaid <= a.maxQuoteAmount
  {
    var refund := a.maxQuoteAmount - quotePaid;
    [Push(Base, winner, a.baseAmount), Push(Quote, a.seller, quotePaid)] +
    if refund != 0 then [Push(Quote, winner, refund)] else []
  }

  predicate CancelAllowed(s: Chain, now: nat, id: Word) {
    && !s.entered
    && id in s.auctions && s.auctions[id].Live()
    && now > s.auctions[id].settleDeadline
  }

  function Cancel(d: Deployment, s: Chain, now: nat, id: Word): Outcome {
    if !CancelAllowed(s, now, id) then Reverted
    else
      var a := s.auctions[id];
      Commit(d, s.(auctions := s.auctions[id := a.(phase := Cancelled)]), [Push(Base, a.seller, a.baseAmount)], None)
  }

  predicate WithdrawAllowed(s: Chain, sender: Address, id: Word) {
    && !s.entered
    && id in s.auctions && !s.auctions[id].Live()
    && EscrowOf(s, id, sender) != 0
  }

  function Withdraw(d: Deployment, s: Chain, sender: Address, id: Word): Outcome {
    if !WithdrawAllowed(s, sender, id) then Reverted
    else
      Commit(d, s.(escrow := s.escrow[(id, sender) := 0]), [Push(Quote, sender, EscrowOf(s, id, sender))], None)
  }

  function Exec(d: Deployment, s: Chain, now: nat, sender: Address, call: Call): Outcome {
    match call
    case SetExtensionId(nextId, senders) => SetExtension(d, s, nextId, senders)
    case CreateAuction(base, floor, ceiling, bidDeadline, settleDeadline, teeIds) =>
      Create(d, s, now, sender, base, floor, ceiling, bidDeadline, settleDeadline, teeIds)
    case SubmitPrivateBid(id, encryptedBid, instructionId) => Submit(d, s, now, sender, id, encryptedBid, instructionId)
    case RequestClear(id, instructionId) => Clear(d, s, now, id, instructionId)
    case SettleAuction(id, result, signature) => Settle(d, s, now, id, result, signature)
    case CancelTimedOutAuction(id) => Cancel(d, s, now, id)
    case WithdrawQuote(id) => Withdraw(d, s, sender, id)
  }

  /** The auction a call is about; a creation is about the auction it creates. */
  function Target(s: Chain, call: Call): Word {
    match call
    case SetExtensionId(_, _) => 0
    case CreateAuction(_, _, _, _, _, _) => s.nextAuctionId
    case SubmitPrivateBid(id, _, _) => id
    case RequestClear(id, _) => id
    case SettleAuction(id, _, _) => id
    case CancelTimedOutAuction(id) => id
    case WithdrawQuote(id) => id
  }
}
