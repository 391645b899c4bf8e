/** What the contract and the enclaves owe each other, in every reachable state of the whole system. */
module EndToEnd {
  import opened Basics
  import opened Tokens
  import opened Messages
  import opened AuctionSpec
  import opened Solvency
  import opened History
  import opened Runs
  import opened Recovery
  import opened Keys
  import opened Clearing
  import opened EnclaveSpec
  import opened EnclaveRuns
  import opened Rounds
  import opened Composition
  import Digest
  import Hex

  /** A machine is in the state a fresh one would be in after exactly the messages it has handled. */
  lemma MachineIsReplay(d: Deployment, retention: nat, sys: System, t: Address)
    requires SystemReachable(d, retention, sys)
    ensures MachineOf(sys, t) == Replay(d.platform, retention, InboxOf(sys, t))
  {
    hide SystemReachable, WorldInv, OutboxOk, Replay;
    SystemReachableInv(d, retention, sys);
  }

  // ----- where a machine's messages come from -----

  /** The committed bid that put the message on its way: by this bid's own bidder, in time, for this machine. */
  ghost predicate BroughtBy(d: Deployment, sys: System, t: Address, b: StoredBid, i: Instruction, e: Delivery, j: nat) {
    && i in sys.outbox && i.teeId == t && i.auctionId == b.bid.auctionId && i.auctionId in sys.world.chain.auctions
    && sys.world.chain.auctions[i.auctionId].teeId == t
    && i.payload.BidPayload? && i.payload.bidder == b.bid.bidder
    && e in InboxOf(sys, t) && e.BidArrives? && e == BidDelivery(i, e.plaintext, e.now)
    && BidFor(d.platform, e, KeyOf(b)) == Some(b)
    && j < |sys.world.journal|
    && var entry := sys.world.journal[j];
       && entry.sender == b.bid.bidder
       && entry.call == SubmitPrivateBid(i.auctionId, i.payload.encryptedBid, Some(i.instructionId))
       && entry.time < sys.world.chain.auctions[i.auctionId].bidDeadline
       && (i.auctionId, b.bid.bidder) in sys.world.chain.escrow
  }

  ghost predicate Submitted(d: Deployment, sys: System, t: Address, b: StoredBid) {
    exists i, e, j: nat :: BroughtBy(d, sys, t, b, i, e, j)
  }

  lemma CarriedBid(p: Platform, i: Instruction, e: Delivery, b: StoredBid, key: string)
    requires Carries(i, e) && BidFor(p, e, key) == Some(b)
    ensures e.BidArrives? && i.payload.BidPayload? && e == BidDelivery(i, e.plaintext, e.now)
    ensures b.bid.bidder == i.payload.bidder && b.bid.auctionId == i.auctionId && KeyOf(b) == key
  {
    hide AuctionKey, Hex.Encode, Hex.Decode;
  }

  /** A valid bid in a machine's inbox was submitted through the contract by the account it names. */
  lemma ArrivedWasSubmitted(d: Deployment, sys: System, t: Address, e: Delivery, key: string, b: StoredBid)
    requires WorldInv(d, sys.world) && OutboxOk(d, sys.world, sys.outbox) && InboxOk(sys)
    requires e in InboxOf(sys, t) && BidFor(d.platform, e, key) == Some(b)
    ensures Submitted(d, sys, t, b) && KeyOf(b) == key
  {
    hide BidFor, Carries, Inv, BooksOk, InboxOf, BidDelivery, KeyOf;
    var k :| 0 <= k < |InboxOf(sys, t)| && InboxOf(sys, t)[k] == e;
    assert Brought(sys.outbox, t, e);
    var i :| i in sys.outbox && i.teeId == t && Carries(i, e);
    CarriedBid(d.platform, i, e, b, key);
    assert InstructionOk(d, sys.world.chain, i);
    assert WasSent(sys.world.journal, i);
    var j: nat :| j < |sys.world.journal| && SentBy(sys.world.journal[j], i);
    assert EntryOk(sys.world.chain, sys.world.journal[j]);
    assert BroughtBy(d, sys, t, b, i, e, j);
  }

  /**
   * Nobody can bid in another's name: whatever a machine has stored for a bidder was read from a
   * bid which that very account submitted to this machine's auction before its bid deadline.
   */
  lemma StoredBidWasSubmitted(d: Deployment, retention: nat, sys: System, t: Address, key: string, k: string)
    requires SystemReachable(d, retention, sys) && k in BidsAt(MachineOf(sys, t), key)
    ensures var b := BidsAt(MachineOf(sys, t), key)[k];
            key == KeyOf(b) && k == BidderKey(b.bid.bidder) && Submitted(d, sys, t, b)
  {
    hide SystemReachable, WorldInv, OutboxOk, InboxOk, BidsOf, BidFor, BidderKey, KeyOf, InboxOf, Submitted, HandleAll,
         RoundOf, ResultFrom;
    SystemReachableInv(d, retention, sys);
    var es := InboxOf(sys, t);
    StoreShowsRound(d.platform, retention, es, key);
    assert MachineOf(sys, t) == Replay(d.platform, retention, es);
    var r := RoundOf(d.platform, retention, es, key);
    assert r.asked.None? by {
      KeptHasNoBids(d.platform, retention, es, key);
    }
    var b := BidsAt(MachineOf(sys, t), key)[k];
    BidsOfArrived(d.platform, es[r.start..], key);
    var e :| e in es[r.start..] && BidFor(d.platform, e, key) == Some(b);
    ArrivedWasSubmitted(d, sys, t, e, key, b);
  }

  lemma KeptHasNoBids(p: Platform, retention: nat, es: seq<Delivery>, key: string)
    ensures RoundOf(p, retention, es, key).asked.Some? ==> BidsAt(Replay(p, retention, es), key) == map[]
  {
    hide HandleAll, RoundOf, ResultFrom, AuctionKey;
    StoreShowsRound(p, retention, es, key);
  }

  /** The event brings the machine a bid of this account, or a clear request of this auction. */
  predicate Touches(e: SystemEvent, t: Address, key: string, who: Address) {
    match e
    case OnChain(_) => false
    case DeliverBid(i, _, _) => i.payload.BidPayload? && i.teeId == t && i.payload.bidder == who
    case DeliverClear(i, _) => i.payload.ClearPayload? && i.teeId == t && ClearKey(MessageOf(i)) == key
  }

  /** So nobody can displace another's bid: only its bidder's own bids and the clear change an entry. */
  lemma OthersCannotDisplace(d: Deployment, retention: nat, sys: System, e: SystemEvent, t: Address, key: string,
          who: Address)
    requires SystemReachable(d, retention, sys) && !Touches(e, t, key, who)
    ensures MachinesOk(d.platform, sys)
    ensures var before := BidsAt(MachineOf(sys, t), key);
            var after := BidsAt(MachineOf(Advance(d, retention, sys, e), t), key);
            && (BidderKey(who) in before <==> BidderKey(who) in after)
            && (BidderKey(who) in before ==> before[BidderKey(who)] == after[BidderKey(who)])
  {
    hide SystemReachable, SystemInv, Step, Emitted, Unforged, StoreOk, Handle, Answered, BidderKey, ClearKey, BidsAt;
    SystemReachableInv(d, retention, sys);
    InvHasMachines(d, retention, sys);
    EmptyStoreOk(d.platform);
    match e
    case OnChain(_) =>
    case DeliverBid(i, plaintext, now) =>
      if i.payload.BidPayload? && i.teeId == t {
        OthersBid(d.platform, retention, MachineOf(sys, t), i, plaintext, now, key, who);
      }
    case DeliverClear(i, now) =>
      if i.payload.ClearPayload? && i.teeId == t {
        OthersClear(d.platform, retention, MachineOf(sys, t), MessageOf(i), now, key);
      }
  }

  lemma OthersBid(p: Platform, retention: nat, s: Store, i: Instruction, plaintext: Option<Bytes>, now: nat,
                  key: string, who: Address)
    requires StoreOk(p, s) && i.payload.BidPayload? && i.payload.bidder != who
    ensures var after := BidsAt(Handle(p, retention, s, BidDelivery(i, plaintext, now)), key);
            && (BidderKey(who) in BidsAt(s, key) <==> BidderKey(who) in after)
            && (BidderKey(who) in after ==> BidsAt(s, key)[BidderKey(who)] == after[BidderKey(who)])
  {
    hide AuctionKey, BidderKey, StoreOk, Hex.Encode, Hex.Decode;
    var read := ReadBid(p, Some(EnvelopeOf(i)), plaintext);
    if read.Some? && BidderKey(read.value.bid.bidder) == BidderKey(who) {
      AddressTextOfKey(read.value.bid.bidder, who);
    }
  }

  lemma OthersClear(p: Platform, retention: nat, s: Store, m: ClearMessage, now: nat, key: string)
    requires StoreOk(p, s) && ClearKey(m) != key
    ensures BidsAt(Handle(p, retention, s, ClearArrives(Some(m), now)), key) == BidsAt(s, key)
  {
    hide AuctionKey, BidderKey, StoreOk, ResultOf, StoreKeyed;
  }

  // ----- what a machine's answers are -----

  /** The clear request the contract makes for an auction. */
  function RequestFor(d: Deployment, s: Chain, id: Word): ClearMessage
    requires id in s.auctions
  {
    ClearMessage(id, d.self, s.auctions[id].floorPriceWei, s.auctions[id].ceilingPriceWei)
  }

  lemma RequestIsValid(d: Deployment, s: Chain, id: Word)
    requires WellFormed(d, s) && id in s.auctions && d.self != ZERO_ADDRESS
    ensures ValidClear(RequestFor(d, s, id))
  {
    assert AuctionOk(d, s.auctions[id]);
  }

  /** Every clear of an auction that reaches a machine is that request. */
  lemma ClearsAreRequests(d: Deployment, sys: System, t: Address, id: Word)
    requires WorldInv(d, sys.world) && OutboxOk(d, sys.world, sys.outbox) && InboxOk(sys)
    requires id in sys.world.chain.auctions
    ensures OnlyRequest(InboxOf(sys, t), RequestFor(d, sys.world.chain, id))
  {
    hide WorldInv, InboxOf, AuctionKey, WasSent;
    var es, m := InboxOf(sys, t), RequestFor(d, sys.world.chain, id);
    forall k | 0 <= k < |es| && ClearsKey(es[k], ClearKey(m))
      ensures es[k].message == Some(m)
    {
      assert Brought(sys.outbox, t, es[k]);
      var i :| i in sys.outbox && i.teeId == t && Carries(i, es[k]);
      assert InstructionOk(d, sys.world.chain, i);
      AuctionKeyInjective(es[k].message.value.contractAddr, es[k].message.value.auctionId, d.self, id);
    }
  }

  /** The answer to the request that is at this place of the pinned machine's inbox. */
  ghost predicate AnsweredAt(d: Deployment, retention: nat, sys: System, id: Word, r: ClearResult, h: nat)
    requires id in sys.world.chain.auctions
  {
    var es, m := InboxOf(sys, sys.world.chain.auctions[id].teeId), RequestFor(d, sys.world.chain, id);
    && h < |es| && es[h] == ClearArrives(Some(m), es[h].now) && ValidClear(m)
    && r == AnswerOf(d.platform, retention, es[..h], m, es[h].now)
    && r == ResultFrom(d.platform, RoundBefore(d.platform, retention, es, h, ClearKey(m)), m)
  }

  /**
   * Every answer a machine ever gave is for an auction that pinned it, under the instruction that
   * auction recorded, and is what the messages before it in its inbox determine.
   */
  lemma AnswerIsOfInbox(d: Deployment, retention: nat, sys: System, s: Signed)
    requires SystemReachable(d, retention, sys) && s in sys.answers
    ensures s.result.auctionId in sys.world.chain.auctions
    ensures var a := sys.world.chain.auctions[s.result.auctionId];
            s.teeId == a.teeId && a.phase != Open && s.instructionId == a.clearInstructionId
    ensures exists h: nat :: AnsweredAt(d, retention, sys, s.result.auctionId, s.result, h)
  {
    hide SystemReachable, BooksOk, TimelineOk, Solvent, InboxOk, InboxOf, Replay, AnswerIn, AuctionKey, WasSent;
    SystemReachableInv(d, retention, sys);
    assert Given(d, retention, sys, s);
    var i, h: nat :| GivenAt(d, retention, sys, s, i, h);
    assert InstructionOk(d, sys.world.chain, i);
    GivenIsOfRound(d, retention, sys, s, i, h);
    assert AnsweredAt(d, retention, sys, i.auctionId, s.result, h);
  }

  lemma InvalidGetsNone(p: Platform, retention: nat, s: Store, m: ClearMessage, now: nat)
    requires StoreOk(p, s)
    ensures AnswerIn(p, retention, s, m, now).Some? ==> ValidClear(m)
  {
  }

  lemma GivenIsOfRound(d: Deployment, retention: nat, sys: System, s: Signed, i: Instruction, h: nat)
    requires SystemInv(d, retention, sys) && GivenAt(d, retention, sys, s, i, h)
    ensures i.auctionId in sys.world.chain.auctions
    ensures var es, m := InboxOf(sys, s.teeId), RequestFor(d, sys.world.chain, i.auctionId);
            && MessageOf(i) == m && h < |es| && ValidClear(m)
            && s.result == AnswerOf(d.platform, retention, es[..h], m, es[h].now)
            && s.result == ResultFrom(d.platform, RoundBefore(d.platform, retention, es, h, ClearKey(m)), m)
            && s.result.auctionId == i.auctionId
  {
    hide BooksOk, TimelineOk, Solvent, SuppliesFit, InboxOk, InboxOf, HandleAll, AnswerIn, AuctionKey, WasSent,
         AnswerOf, RoundBefore, BidsOf, AuctionsOk, ReplayOk, AnswersOk, EndingsOk;
    assert InstructionOk(d, sys.world.chain, i);
    var es, m := InboxOf(sys, s.teeId), MessageOf(i);
    InvalidGetsNone(d.platform, retention, Replay(d.platform, retention, es[..h]), m, es[h].now);
    AnswerOfStream(d.platform, retention, es[..h], m, es[h].now);
    ClearsAreRequests(d, sys, s.teeId, i.auctionId);
    AnswerOfRound(d.platform, retention, es, h, m);
  }

  /** The result of clearing messages from this machine's inbox passes every check while the auction waits. */
  lemma RoundIsAccepted(d: Deployment, sys: System, id: Word, es: seq<Delivery>)
    requires HashNeverZero(d.platform)
    requires WorldInv(d, sys.world) && OutboxOk(d, sys.world, sys.outbox) && InboxOk(sys)
    requires id in sys.world.chain.auctions && sys.world.chain.auctions[id].Live()
    requires forall e :: e in es ==> e in InboxOf(sys, sys.world.chain.auctions[id].teeId)
    ensures ResultAccepted(d, sys.world.chain, id, ResultFrom(d.platform, es, RequestFor(d, sys.world.chain, id)))
  {
    hide BooksOk, TimelineOk, Solvent, SuppliesFit, InboxOk, OutboxOk, InboxOf, BidFor, BidsOf, AuctionsOk, SlotOk,
         AuctionKey, BidderKey, ResultOf, Submitted, StoredOk;
    var m, s, t := RequestFor(d, sys.world.chain, id), sys.world.chain, sys.world.chain.auctions[id].teeId;
    var bids, r := BidsOf(d.platform, es, ClearKey(m)), ResultFrom(d.platform, es, m);
    BidsOfArrived(d.platform, es, ClearKey(m));
    BidsFit(bids);
    ResultIsSound(d.platform, m, bids);
    if r.winner != ZERO_ADDRESS {
      var k :| IsBest(bids, EligibleKeys(bids, m.floorPriceWei, m.ceilingPriceWei), k)
          && bids[k].bid.bidder == r.winner;
      var e :| e in es && BidFor(d.platform, e, ClearKey(m)) == Some(bids[k]);
      ArrivedWasSubmitted(d, sys, t, e, ClearKey(m), bids[k]);
      SubmittedEscrow(d, sys, t, bids[k], id);
    }
  }

  lemma SubmittedEscrow(d: Deployment, sys: System, t: Address, b: StoredBid, id: Word)
    requires Inv(d, sys.world.chain) && Submitted(d, sys, t, b) && KeyOf(b) == AuctionKey(d.self, id)
    requires id in sys.world.chain.auctions && sys.world.chain.auctions[id].Live()
    ensures EscrowOf(sys.world.chain, id, b.bid.bidder) == sys.world.chain.auctions[id].maxQuoteAmount
  {
    hide BidFor, InboxOf, AuctionsOk, Solvent, SuppliesFit, AuctionKey;
    AuctionKeyInjective(b.bid.contractAddr, b.bid.auctionId, d.self, id);
    assert SlotOk(d, sys.world.chain, (id, b.bid.bidder));
  }

  /** A signature over this answer, under the instruction it answered, that recovers to its machine. */
  predicate SignedAnswer(d: Deployment, s: Signed, signature: Bytes) {
    d.platform.recover(Digest.ClearDigest(d.platform.keccak, s.result, s.instructionId, d.chainId), signature)
    == Some(s.teeId)
  }

  /**
   * Whatever an enclave answers, at any time, is for an auction that pinned its machine and recorded
   * the instruction it answered, and passes every check of the contract while the auction waits for
   * a result: relayed with the machine's signature it settles, exactly until the settle deadline,
   * unless the registry had given the clear instruction the id zero.
   */
  lemma AnswersAlwaysSettle(d: Deployment, retention: nat, sys: System, s: Signed, now: nat, signature: Bytes)
    requires HashNeverZero(d.platform)
    requires SystemReachable(d, retention, sys) && s in sys.answers && SignedAnswer(d, s, signature)
    ensures s.result.auctionId in sys.world.chain.auctions
    ensures var a := sys.world.chain.auctions[s.result.auctionId];
            && s.teeId == a.teeId && a.phase != Open && s.instructionId == a.clearInstructionId
            && (a.phase == ClearRequested ==>
                  && ResultAccepted(d, sys.world.chain, s.result.auctionId, s.result)
                  && (Settle(d, sys.world.chain, now, s.result.auctionId, s.result, signature).Committed?
                      <==> now <= a.settleDeadline && s.instructionId != 0))
  {
    hide SystemReachable, ResultAccepted, Settle, AnsweredAt, OutboxOk, InboxOk, ReplayOk, AnswersOk, EndingsOk,
         TimelineOk, BooksOk, AuctionsOk, EscrowOk, WinnersOk, Solvent, SuppliesFit, Digest.ClearDigest;
    SystemReachableInv(d, retention, sys);
    AnswerIsOfInbox(d, retention, sys, s);
    var chain, id := sys.world.chain, s.result.auctionId;
    if chain.auctions[id].phase == ClearRequested {
      var h: nat :| AnsweredAt(d, retention, sys, id, s.result, h);
      AnsweredIsAccepted(d, retention, sys, id, s.result, h);
      SettleGoesThrough(d, chain, now, id, s.result, signature);
    }
  }

  lemma AnsweredIsAccepted(d: Deployment, retention: nat, sys: System, id: Word, r: ClearResult, h: nat)
    requires HashNeverZero(d.platform) && SystemInv(d, retention, sys)
    requires id in sys.world.chain.auctions && sys.world.chain.auctions[id].Live()
    requires AnsweredAt(d, retention, sys, id, r, h)
    ensures ResultAccepted(d, sys.world.chain, id, r)
  {
    hide WorldInv, OutboxOk, InboxOk, InboxOf, AnswerOf, ResultFrom, AuctionKey, ResultAccepted, ReplayOk, AnswersOk,
         EndingsOk;
    var t, m := sys.world.chain.auctions[id].teeId, RequestFor(d, sys.world.chain, id);
    ClearsAreRequests(d, sys, t, id);
    AnswerOfRound(d.platform, retention, InboxOf(sys, t), h, m);
    RoundIsAccepted(d, sys, id, RoundBefore(d.platform, retention, InboxOf(sys, t), h, ClearKey(m)));
  }

  /** A clear request the contract emitted is always answered. */
  lemma ClearIsAlwaysAnswered(d: Deployment, retention: nat, sys: System, i: Instruction, now: nat)
    requires SystemReachable(d, retention, sys) && d.self != ZERO_ADDRESS
    requires i in sys.outbox && i.payload.ClearPayload?
    ensures MachinesOk(d.platform, sys)
    ensures exists r :: Signed(i.teeId, i.instructionId, r) in AfterClear(d, retention, sys, i, now).answers
  {
    hide SystemReachable, EndingsOk, AnswersOk, ReplayOk, InboxOk, TimelineOk, BooksOk, AuctionsOk, EscrowOk,
         WinnersOk, Solvent, SuppliesFit, StoreOk, StoreKeyed, AuctionKey, ResultOf, Delivered;
    SystemReachableInv(d, retention, sys);
    assert InstructionOk(d, sys.world.chain, i);
    RequestIsValid(d, sys.world.chain, i.auctionId);
    assert ValidClear(MessageOf(i));
    EmptyStoreOk(d.platform);
    var answer := AnswerIn(d.platform, retention, MachineOf(sys, i.teeId), MessageOf(i), now);
    assert answer.Some?;
    assert Signed(i.teeId, i.instructionId, answer.value) in AfterClear(d, retention, sys, i, now).answers;
  }

  /** An honest bid: filled in, and naming the sender and the auction it was sent for. */
  predicate HonestBid(i: Instruction, bid: PrivateBid)
    requires i.payload.BidPayload?
  {
    && bid.bidder == i.payload.bidder && bid.auctionId == i.auctionId
    && bid.bidder != 0 && bid.contractAddr != 0 && bid.auctionId != 0
    && bid.nonce != 0 && bid.unitPriceWei != 0 && bid.salt != 0
  }

  /**
   * The contract's wrapping gets every honest bid through: delivered before the auction is cleared,
   * and with a larger nonce than the bidder's stored one if there is one, it gets its receipt and is
   * stored with the hash of its plaintext.
   */
  lemma HonestBidIsStored(d: Deployment, retention: nat, sys: System, i: Instruction, plaintext: Bytes, bid: PrivateBid,
                          now: nat)
    requires SystemReachable(d, retention, sys) && i in sys.outbox && i.payload.BidPayload?
    requires d.platform.decodeBid(plaintext) == Some(bid) && HonestBid(i, bid)
    requires var s, key := MachineOf(sys, i.teeId), AuctionKey(bid.contractAddr, bid.auctionId);
             && (key in s.cleared ==> s.cleared[key].expiresAt <= now)
             && (key in s.auctions && BidderKey(bid.bidder) in s.auctions[key] ==>
                   s.auctions[key][BidderKey(bid.bidder)].bid.nonce < bid.nonce)
    ensures MachinesOk(d.platform, sys)
    ensures var t := MachineOf(AfterBid(d, retention, sys, i, Some(plaintext), now), i.teeId);
            var key, k := AuctionKey(bid.contractAddr, bid.auctionId), BidderKey(bid.bidder);
            && key in t.auctions && k in t.auctions[key]
            && t.auctions[key][k].bid == bid && t.auctions[key][k].commitment == d.platform.keccak(plaintext)
    ensures TakeBid(d.platform, MachineOf(sys, i.teeId), Some(EnvelopeOf(i)), Some(plaintext), now).1 ==
            Some(BidReceipt(bid.contractAddr, bid.auctionId, bid.bidder, bid.nonce, d.platform.keccak(plaintext)))
  {
    hide SystemReachable, EndingsOk, AnswersOk, ReplayOk, InboxOk, TimelineOk, BooksOk, Inv, StoreOk, AuctionKey,
         BidderKey, Hex.Encode, Hex.Decode, TakeBid;
    SystemReachableInv(d, retention, sys);
    assert InstructionOk(d, sys.world.chain, i);
    EmptyStoreOk(d.platform);
    var s := MachineOf(sys, i.teeId);
    Hex.DecodeEncode(i.payload.encryptedBid);
    ReceiptIff(d.platform, s, Some(EnvelopeOf(i)), Some(plaintext), now,
               BidReceipt(bid.contractAddr, bid.auctionId, bid.bidder, bid.nonce, d.platform.keccak(plaintext)));
    ReceiptMeansStored(d.platform, s, Some(EnvelopeOf(i)), Some(plaintext), now);
  }

  lemma ReceiptMeansStored(p: Platform, s: Store, envelope: Option<BidEnvelope>, plaintext: Option<Bytes>, now: nat)
    requires TakeBid(p, s, envelope, plaintext, now).1.Some?
    ensures plaintext.Some? && p.decodeBid(plaintext.value).Some?
    ensures var t, bid := TakeBid(p, s, envelope, plaintext, now).0, p.decodeBid(plaintext.value).value;
            var key, k := AuctionKey(bid.contractAddr, bid.auctionId), BidderKey(bid.bidder);
            key in t.auctions && k in t.auctions[key]
            && t.auctions[key][k] == StoredBid(bid, p.keccak(plaintext.value))
  {
    hide AuctionKey, BidderKey, Hex.Decode;
  }

  // ----- which result an auction ended with -----

  /**
   * An auction that ended with a result shows, whatever the clocks and however its messages were
   * delayed or repeated, the answer to a clear request in the pinned machine's inbox.
   */
  lemma EndedAsAnswered(d: Deployment, retention: nat, sys: System, id: Word) returns (r: ClearResult, h: nat)
    requires SystemReachable(d, retention, sys) && id in sys.world.chain.auctions
    requires sys.world.chain.auctions[id].phase == Settled || sys.world.chain.auctions[id].phase == NoFill
    ensures AnsweredAt(d, retention, sys, id, r, h) && ShowsResult(sys.world.chain.auctions[id], r)
  {
    hide SystemReachable, WorldInv, OutboxOk, InboxOk, AnsweredAt, ReplayOk, AnswersOk, ShowsResult;
    SystemReachableInv(d, retention, sys);
    var s :| s in sys.answers && EndedBy(sys.world.chain, id, s);
    AnswerIsOfInbox(d, retention, sys, s);
    r := s.result;
    h :| AnsweredAt(d, retention, sys, id, r, h);
  }

  /** The message brings a filled-in bid for this auction, from the account it names. */
  predicate Offers(d: Deployment, id: Word, e: Delivery, bid: PrivateBid) {
    && e.BidArrives? && e.envelope.Some? && e.plaintext.Some? && d.platform.decodeBid(e.plaintext.value) == Some(bid)
    && e.envelope.value.bidder == bid.bidder && e.envelope.value.auctionId == bid.auctionId
    && bid.contractAddr == d.self && bid.auctionId == id
    && bid.bidder != 0 && bid.contractAddr != 0 && bid.auctionId != 0
    && bid.nonce != 0 && bid.unitPriceWei != 0 && bid.salt != 0
  }

  /** No other offer of its bidder among the messages has the same or a larger nonce. */
  ghost predicate Stands(d: Deployment, id: Word, es: seq<Delivery>, bid: PrivateBid) {
    && (exists e :: e in es && Offers(d, id, e, bid))
    && forall e, other :: e in es && Offers(d, id, e, other) && other.bidder == bid.bidder && other != bid ==>
         other.nonce < bid.nonce
  }

  /** The earliest of the bidder's bids that carry its largest nonce. */
  ghost predicate IsLatestBid(xs: seq<StoredBid>, k: string, b: StoredBid) {
    exists i: nat :: IsLatest(xs, k, i) && xs[i] == b
  }

  /**
   * The recorded counts are of all bidders with an offer in these messages, and of those whose bid is
   * from floor to ceiling, both included. A bidder's counted bid is its earliest one with its largest
   * nonce, and was submitted through the contract by that account before the bid deadline.
   */
  ghost predicate CountsAll(d: Deployment, sys: System, id: Word, es: seq<Delivery>)
    requires id in sys.world.chain.auctions
  {
    var a, key := sys.world.chain.auctions[id], AuctionKey(d.self, id);
    var bids, xs := BidsOf(d.platform, es, key), ValidBids(d.platform, es, key);
    && a.submittedBidCount == |bids|
    && a.eligibleBidCount == |set k | k in bids && a.floorPriceWei <= bids[k].bid.unitPriceWei <= a.ceilingPriceWei|
    && (forall k :: k in bids ==>
          && IsLatestBid(xs, k, bids[k])
          && bids[k].bid.contractAddr == d.self && bids[k].bid.auctionId == id && ValidBid(bids[k].bid)
          && Submitted(d, sys, a.teeId, bids[k]))
    && forall e, bid :: e in es && Offers(d, id, e, bid) ==>
         BidderKey(bid.bidder) in bids && bid.nonce <= bids[BidderKey(bid.bidder)].bid.nonce
  }

  /**
   * The recorded winner and price are those of an offer in these messages. The price is within the
   * collar, and no standing offer from floor to ceiling, both included, is above it, or equal to it
   * and from a lower address.
   */
  ghost predicate BestWon(d: Deployment, a: Auction, id: Word, es: seq<Delivery>) {
    && a.floorPriceWei <= a.clearingPriceWei <= a.ceilingPriceWei
    && (exists e, bid :: e in es && Offers(d, id, e, bid)
          && bid.bidder == a.winner && bid.unitPriceWei == a.clearingPriceWei)
    && forall bid :: Stands(d, id, es, bid) && a.floorPriceWei <= bid.unitPriceWei <= a.ceilingPriceWei ==>
         && bid.unitPriceWei <= a.clearingPriceWei
         && (bid.unitPriceWei == a.clearingPriceWei ==> a.winner <= bid.bidder)
  }

  ghost predicate WonAmong(d: Deployment, sys: System, id: Word, es: seq<Delivery>)
    requires id in sys.world.chain.auctions
  {
    CountsAll(d, sys, id, es) && BestWon(d, sys.world.chain.auctions[id], id, es)
  }

  /** Among messages that emitted instructions brought, the offers are exactly the valid bids. */
  lemma OfferIff(d: Deployment, sys: System, t: Address, id: Word, e: Delivery, bid: PrivateBid)
    requires OutboxOk(d, sys.world, sys.outbox) && InboxOk(sys) && e in InboxOf(sys, t)
    ensures Offers(d, id, e, bid) <==>
            && BidFor(d.platform, e, AuctionKey(d.self, id)).Some?
            && BidFor(d.platform, e, AuctionKey(d.self, id)).value.bid == bid
  {
    hide Hex.Encode, Hex.Decode, AuctionKey, InboxOf, Inv;
    var k :| 0 <= k < |InboxOf(sys, t)| && InboxOf(sys, t)[k] == e;
    assert Brought(sys.outbox, t, e);
    var i :| i in sys.outbox && i.teeId == t && Carries(i, e);
    assert InstructionOk(d, sys.world.chain, i);
    if e.BidArrives? {
      Hex.DecodeEncode(i.payload.encryptedBid);
      ReadBidIff(d.platform, e.envelope, e.plaintext,
                 StoredBid(bid, if e.plaintext.Some? then d.platform.keccak(e.plaintext.value) else 0));
      var read := ReadBid(d.platform, e.envelope, e.plaintext);
      if read.Some? {
        ReadBidIff(d.platform, e.envelope, e.plaintext, read.value);
        AuctionKeySame(read.value.bid, d.self, id);
      }
    }
  }

  lemma AuctionKeySame(bid: PrivateBid, contractAddr: Address, id: Word)
    ensures AuctionKey(bid.contractAddr, bid.auctionId) == AuctionKey(contractAddr, id) <==>
            bid.contractAddr == contractAddr && bid.auctionId == id
  {
    hide AuctionKey;
    if AuctionKey(bid.contractAddr, bid.auctionId) == AuctionKey(contractAddr, id) {
      AuctionKeyInjective(bid.contractAddr, bid.auctionId, contractAddr, id);
    }
  }

  lemma {:induction false} ArrivedIsValid(p: Platform, es: seq<Delivery>, key: string, e: Delivery)
    requires e in es && BidFor(p, e, key).Some?
    ensures BidFor(p, e, key).value in ValidBids(p, es, key)
  {
    hide BidFor;
    var n := |es| - 1;
    if e != es[n] {
      assert e in es[..n];
      ArrivedIsValid(p, es[..n], key, e);
    }
  }

  /** Every offer is counted, unless its bidder's counted one has a larger nonce. */
  lemma OfferIsCounted(d: Deployment, sys: System, t: Address, id: Word, es: seq<Delivery>, e: Delivery,
          bid: PrivateBid)
    requires OutboxOk(d, sys.world, sys.outbox) && InboxOk(sys)
    requires forall x :: x in es ==> x in InboxOf(sys, t)
    requires e in es && Offers(d, id, e, bid)
    ensures var bids := BidsOf(d.platform, es, AuctionKey(d.self, id));
            BidderKey(bid.bidder) in bids && bid.nonce <= bids[BidderKey(bid.bidder)].bid.nonce
  {
    hide OutboxOk, InboxOk, InboxOf, BidFor, AcceptAll, ValidBids, AuctionKey, BidderKey, Offers;
    var key, k := AuctionKey(d.self, id), BidderKey(bid.bidder);
    var xs := ValidBids(d.platform, es, key);
    OfferIff(d, sys, t, id, e, bid);
    ArrivedIsValid(d.platform, es, key, e);
    var own := BidFor(d.platform, e, key).value;
    var j :| 0 <= j < |xs| && xs[j] == own;
    assert HasBidder(xs, k);
    var i := StoredIsLatest(xs, k);
  }

  /** A standing offer is the bid stored for its bidder. */
  lemma StandingIsStored(d: Deployment, sys: System, t: Address, id: Word, es: seq<Delivery>, bid: PrivateBid)
    requires OutboxOk(d, sys.world, sys.outbox) && InboxOk(sys)
    requires forall e :: e in es ==> e in InboxOf(sys, t)
    requires Stands(d, id, es, bid)
    ensures var bids := BidsOf(d.platform, es, AuctionKey(d.self, id));
            BidderKey(bid.bidder) in bids && bids[BidderKey(bid.bidder)].bid == bid
  {
    hide OutboxOk, InboxOk, InboxOf, BidFor, AcceptAll, ValidBids, AuctionKey, BidderKey, Offers;
    var key, k := AuctionKey(d.self, id), BidderKey(bid.bidder);
    var xs := ValidBids(d.platform, es, key);
    var e :| e in es && Offers(d, id, e, bid);
    OfferIff(d, sys, t, id, e, bid);
    ArrivedIsValid(d.platform, es, key, e);
    var own := BidFor(d.platform, e, key).value;
    var j :| 0 <= j < |xs| && xs[j] == own;
    assert HasBidder(xs, k);
    var i := StoredIsLatest(xs, k);
    ValidBidsArrived(d.platform, es, key, xs[i]);
    var e' :| e' in es && BidFor(d.platform, e', key) == Some(xs[i]);
    OfferIff(d, sys, t, id, e', xs[i].bid);
    AddressTextOfKey(xs[i].bid.bidder, bid.bidder);
  }

  lemma ShownIsWon(d: Deployment, sys: System, id: Word, es: seq<Delivery>)
    requires WorldInv(d, sys.world) && OutboxOk(d, sys.world, sys.outbox) && InboxOk(sys)
    requires id in sys.world.chain.auctions && sys.world.chain.auctions[id].phase == Settled
    requires ShowsResult(sys.world.chain.auctions[id],
                         ResultFrom(d.platform, es, RequestFor(d, sys.world.chain, id)))
    requires forall e :: e in es ==> e in InboxOf(sys, sys.world.chain.auctions[id].teeId)
    ensures WonAmong(d, sys, id, es)
  {
    hide WorldInv, OutboxOk, InboxOk, InboxOf, BidsOf, AuctionKey, ResultOf, CountsAll, BestWon;
    var m := RequestFor(d, sys.world.chain, id);
    var bids := BidsOf(d.platform, es, ClearKey(m));
    BidsOfArrived(d.platform, es, ClearKey(m));
    BidsFit(bids);
    ResultReports(m, bids, ResultFrom(d.platform, es, m));
    ShownCounts(d, sys, id, es, ResultFrom(d.platform, es, m));
    ShownBest(d, sys, id, es, ResultFrom(d.platform, es, m));
  }

  lemma ShownCounts(d: Deployment, sys: System, id: Word, es: seq<Delivery>, r: ClearResult)
    requires WorldInv(d, sys.world) && OutboxOk(d, sys.world, sys.outbox) && InboxOk(sys)
    requires id in sys.world.chain.auctions && ShowsResult(sys.world.chain.auctions[id], r)
    requires forall e :: e in es ==> e in InboxOf(sys, sys.world.chain.auctions[id].teeId)
    requires Reports(BidsOf(d.platform, es, AuctionKey(d.self, id)), RequestFor(d, sys.world.chain, id), r)
    ensures CountsAll(d, sys, id, es)
  {
    hide WorldInv, OutboxOk, InboxOk, InboxOf, BidsOf, ValidBids, AuctionKey, BidderKey, Submitted, Names, Offers,
         IsLatestBid;
    var a, key := sys.world.chain.auctions[id], AuctionKey(d.self, id);
    var bids, xs := BidsOf(d.platform, es, key), ValidBids(d.platform, es, key);
    forall k | k in bids
      ensures IsLatestBid(xs, k, bids[k]) && Submitted(d, sys, a.teeId, bids[k])
      ensures bids[k].bid.contractAddr == d.self && bids[k].bid.auctionId == id && ValidBid(bids[k].bid)
    {
      StoredSubmitted(d, sys, id, es, k);
    }
    forall e, bid | e in es && Offers(d, id, e, bid)
      ensures BidderKey(bid.bidder) in bids && bid.nonce <= bids[BidderKey(bid.bidder)].bid.nonce
    {
      OfferIsCounted(d, sys, a.teeId, id, es, e, bid);
    }
  }

  lemma ShownBest(d: Deployment, sys: System, id: Word, es: seq<Delivery>, r: ClearResult)
    requires WorldInv(d, sys.world) && OutboxOk(d, sys.world, sys.outbox) && InboxOk(sys)
    requires id in sys.world.chain.auctions && sys.world.chain.auctions[id].phase == Settled
    requires ShowsResult(sys.world.chain.auctions[id], r)
    requires forall e :: e in es ==> e in InboxOf(sys, sys.world.chain.auctions[id].teeId)
    requires Reports(BidsOf(d.platform, es, AuctionKey(d.self, id)), RequestFor(d, sys.world.chain, id), r)
    ensures BestWon(d, sys.world.chain.auctions[id], id, es)
  {
    hide WorldInv, OutboxOk, InboxOk, InboxOf, BidsOf, AuctionKey, BidderKey, Offers, Stands;
    var a, m := sys.world.chain.auctions[id], RequestFor(d, sys.world.chain, id);
    var bids := BidsOf(d.platform, es, AuctionKey(d.self, id));
    WinnerOffered(d, sys, id, es, r);
    forall bid | Stands(d, id, es, bid) && a.floorPriceWei <= bid.unitPriceWei <= a.ceilingPriceWei
      ensures bid.unitPriceWei <= a.clearingPriceWei
      ensures bid.unitPriceWei == a.clearingPriceWei ==> a.winner <= bid.bidder
    {
      StandingIsStored(d, sys, a.teeId, id, es, bid);
      assert Within(bids, BidderKey(bid.bidder), m);
      var k :| Names(bids, m, r, k);
    }
  }

  lemma StoredSubmitted(d: Deployment, sys: System, id: Word, es: seq<Delivery>, k: string)
    requires WorldInv(d, sys.world) && OutboxOk(d, sys.world, sys.outbox) && InboxOk(sys)
    requires id in sys.world.chain.auctions && k in BidsOf(d.platform, es, AuctionKey(d.self, id))
    requires forall e :: e in es ==> e in InboxOf(sys, sys.world.chain.auctions[id].teeId)
    ensures var key := AuctionKey(d.self, id);
            var b, xs := BidsOf(d.platform, es, key)[k], ValidBids(d.platform, es, key);
            && IsLatestBid(xs, k, b)
            && b.bid.contractAddr == d.self && b.bid.auctionId == id && ValidBid(b.bid)
            && Submitted(d, sys, sys.world.chain.auctions[id].teeId, b)
            && exists e :: e in es && BidFor(d.platform, e, key) == Some(b)
  {
    hide WorldInv, OutboxOk, InboxOk, InboxOf, BidFor, AcceptAll, ValidBids, AuctionKey, BidderKey, Submitted,
         HasBidder;
    var key := AuctionKey(d.self, id);
    var b, xs := BidsOf(d.platform, es, key)[k], ValidBids(d.platform, es, key);
    BidsOfArrived(d.platform, es, key);
    var i := StoredIsLatest(xs, k);
    assert IsLatest(xs, k, i) && xs[i] == b;
    var e :| e in es && BidFor(d.platform, e, key) == Some(b);
    ArrivedWasSubmitted(d, sys, sys.world.chain.auctions[id].teeId, e, key, b);
    AuctionKeyInjective(b.bid.contractAddr, b.bid.auctionId, d.self, id);
  }

  lemma WinnerOffered(d: Deployment, sys: System, id: Word, es: seq<Delivery>, r: ClearResult)
    requires WorldInv(d, sys.world) && OutboxOk(d, sys.world, sys.outbox) && InboxOk(sys)
    requires id in sys.world.chain.auctions && r.winner != ZERO_ADDRESS
    requires forall e :: e in es ==> e in InboxOf(sys, sys.world.chain.auctions[id].teeId)
    requires Reports(BidsOf(d.platform, es, AuctionKey(d.self, id)), RequestFor(d, sys.world.chain, id), r)
    ensures exists e, bid :: e in es && Offers(d, id, e, bid)
              && bid.bidder == r.winner && bid.unitPriceWei == r.unitPriceWei
    ensures sys.world.chain.auctions[id].floorPriceWei <= r.unitPriceWei <= sys.world.chain.auctions[id].ceilingPriceWei
  {
    hide WorldInv, OutboxOk, InboxOk, InboxOf, BidFor, BidsOf, ValidBids, AuctionKey, BidderKey, Submitted, Offers,
         IsLatest;
    var bids, m := BidsOf(d.platform, es, AuctionKey(d.self, id)), RequestFor(d, sys.world.chain, id);
    var k :| Names(bids, m, r, k);
    StoredSubmitted(d, sys, id, es, k);
    var e :| e in es && BidFor(d.platform, e, AuctionKey(d.self, id)) == Some(bids[k]);
    OfferIff(d, sys, sys.world.chain.auctions[id].teeId, id, e, bids[k].bid);
  }

  /**
   * A settled auction went to the best bid of one round: of the bids that reached the pinned machine
   * before some clear request, counted from when the answer to the previous one had expired.
   */
  lemma SettledForBestOfRound(d: Deployment, retention: nat, sys: System, id: Word) returns (h: nat)
    requires SystemReachable(d, retention, sys)
    requires id in sys.world.chain.auctions && sys.world.chain.auctions[id].phase == Settled
    ensures var es, key := InboxOf(sys, sys.world.chain.auctions[id].teeId), AuctionKey(d.self, id);
            h < |es| && ClearsKey(es[h], key) && WonAmong(d, sys, id, RoundBefore(d.platform, retention, es, h, key))
  {
    hide SystemReachable, TimelineOk, BooksOk, Solvent, SuppliesFit, OutboxOk, InboxOk, InboxOf, ReplayOk, AnswersOk,
         EndingsOk, ShowsResult, AnswerOf, RoundBefore, ResultFrom, AuctionKey, WonAmong, AuctionsOk;
    SystemReachableInv(d, retention, sys);
    var r;
    r, h := EndedAsAnswered(d, retention, sys, id);
    var t, m := sys.world.chain.auctions[id].teeId, RequestFor(d, sys.world.chain, id);
    ClearsAreRequests(d, sys, t, id);
    AnswerOfRound(d.platform, retention, InboxOf(sys, t), h, m);
    ShownIsWon(d, sys, id, RoundBefore(d.platform, retention, InboxOf(sys, t), h, ClearKey(m)));
  }

  /**
   * If the machine's clock runs forward and no clear of the auction reaches it later than a retention
   * window after the first, the auction went to the best of all the bids that had arrived by then.
   */
  lemma SettledForBestBid(d: Deployment, retention: nat, sys: System, id: Word) returns (f: nat)
    requires SystemReachable(d, retention, sys)
    requires id in sys.world.chain.auctions && sys.world.chain.auctions[id].phase == Settled
    requires OnTime(retention, InboxOf(sys, sys.world.chain.auctions[id].teeId), AuctionKey(d.self, id))
    ensures var es := InboxOf(sys, sys.world.chain.auctions[id].teeId);
            IsFirstClear(es, AuctionKey(d.self, id), f) && WonAmong(d, sys, id, es[..f])
  {
    hide SystemReachable, InboxOf, RoundBefore, AuctionKey, WonAmong, OnTime, ClearsKey;
    var h := SettledForBestOfRound(d, retention, sys, id);
    var es, key := InboxOf(sys, sys.world.chain.auctions[id].teeId), AuctionKey(d.self, id);
    f := OnTimeRound(d.platform, retention, es, h, key);
  }

  /** Likewise an auction that ended either way shows the result of exactly those bids. */
  lemma EndedOnTime(d: Deployment, retention: nat, sys: System, id: Word) returns (f: nat)
    requires SystemReachable(d, retention, sys) && id in sys.world.chain.auctions
    requires sys.world.chain.auctions[id].phase == Settled || sys.world.chain.auctions[id].phase == NoFill
    requires OnTime(retention, InboxOf(sys, sys.world.chain.auctions[id].teeId), AuctionKey(d.self, id))
    ensures var es := InboxOf(sys, sys.world.chain.auctions[id].teeId);
            && IsFirstClear(es, AuctionKey(d.self, id), f)
            && ShowsResult(sys.world.chain.auctions[id],
                           ResultFrom(d.platform, es[..f], RequestFor(d, sys.world.chain, id)))
  {
    hide SystemReachable, TimelineOk, BooksOk, Solvent, SuppliesFit, OutboxOk, InboxOk, InboxOf, ReplayOk, AnswersOk,
         EndingsOk, ShowsResult, AnswerOf, RoundBefore, ResultFrom, AuctionKey, OnTime, AuctionsOk;
    SystemReachableInv(d, retention, sys);
    var r, h := EndedAsAnswered(d, retention, sys, id);
    var es, key := InboxOf(sys, sys.world.chain.auctions[id].teeId), AuctionKey(d.self, id);
    f := OnTimeRound(d.platform, retention, es, h, key);
  }
}
