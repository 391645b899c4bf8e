/**
 * What each message does to the enclave's bid store (`typescript/src/app/handlers.ts`). The server
 * runs handlers one at a time, so a message is one step.
 */
module EnclaveSpec {
  import opened Basics
  import opened Messages
  import opened Keys
  import opened Clearing
  import Hex

  /** A cleared auction's result, kept for a while. */
  datatype Cleared = Cleared(result: ClearResult, expiresAt: nat)

  datatype Store = Store(auctions: map<string, Bids>, cleared: map<string, Cleared>)

  const EMPTY := Store(map[], map[])

  function Prune(cleared: map<string, Cleared>, now: nat): map<string, Cleared> {
    map k | k in cleared && cleared[k].expiresAt > now :: cleared[k]
  }

  /** `validateBid`: the fields a bidder must fill in. */
  predicate ValidBid(b: PrivateBid) {
    && b.bidder != ZERO_ADDRESS && b.contractAddr != ZERO_ADDRESS
    && b.auctionId > 0 && b.nonce > 0 && b.unitPriceWei > 0 && b.salt != 0
  }

  /**
   * The bid in a message, if it passes every check that does not depend on the store. `envelope` is
   * `None` when it cannot be decoded, `plaintext` is what decryption gave.
   */
  function ReadBid(p: Platform, envelope: Option<BidEnvelope>, plaintext: Option<Bytes>): Option<StoredBid> {
    if envelope.None? then None
    else
      var ciphertext := Hex.Decode(Some(envelope.value.ciphertext));
      if ciphertext.None? || ciphertext.value == [] || plaintext.None? then None
      else
        var bid := p.decodeBid(plaintext.value);
        if bid.None? || !ValidBid(bid.value) then None
        else if bid.value.bidder != envelope.value.bidder || bid.value.auctionId != envelope.value.auctionId then None
        else Some(StoredBid(bid.value, p.keccak(plaintext.value)))
  }

  function KeyOf(b: StoredBid): string {
    AuctionKey(b.bid.contractAddr, b.bid.auctionId)
  }

  function BidsAt(s: Store, key: string): Bids {
    if key in s.auctions then s.auctions[key] else map[]
  }

  /** A bid replaces the same bidder's earlier one only with a larger nonce. */
  predicate Replaces(bids: Bids, b: StoredBid) {
    var k := BidderKey(b.bid.bidder);
    k in bids ==> b.bid.nonce > bids[k].bid.nonce
  }

  function ReceiptOf(b: StoredBid): BidReceipt {
    BidReceipt(b.bid.contractAddr, b.bid.auctionId, b.bid.bidder, b.bid.nonce, b.commitment)
  }

  /** `handlePrivateBid`: the new store, and the receipt unless the bid is refused. */
  function TakeBid(p: Platform, s: Store, envelope: Option<BidEnvelope>, plaintext: Option<Bytes>, now: nat)
    : (Store, Option<BidReceipt>)
  {
    match ReadBid(p, envelope, plaintext)
    case None => (s, None)
    case Some(b) =>
      var key := KeyOf(b);
      var pruned := s.(cleared := Prune(s.cleared, now));
      if key in pruned.cleared || !Replaces(BidsAt(s, key), b) then (pruned, None)
      else
        (pruned.(auctions := s.auctions[key := BidsAt(s, key)[BidderKey(b.bid.bidder) := b]]), Some(ReceiptOf(b)))
  }

  predicate ValidClear(m: ClearMessage) {
    m.auctionId > 0 && m.contractAddr != ZERO_ADDRESS && 0 < m.floorPriceWei <= m.ceilingPriceWei
  }

  function ClearKey(m: ClearMessage): string {
    AuctionKey(m.contractAddr, m.auctionId)
  }

  /** Every bid map is keyed by bidder, so its size fits in a word. */
  ghost predicate StoreKeyed(s: Store) {
    forall key :: key in s.auctions ==> WellKeyed(s.auctions[key])
  }

  /** `handleClear`: the new store, and the result unless the request is refused. */
  ghost function Answer(s: Store, retention: nat, message: Option<ClearMessage>, now: nat): (Store, Option<ClearResult>)
    requires StoreKeyed(s)
  {
    if message.None? || !ValidClear(message.value) then (s, None)
    else
      var m, key := message.value, ClearKey(message.value);
      var pruned := s.(cleared := Prune(s.cleared, now));
      if key in pruned.cleared then (pruned, Some(pruned.cleared[key].result))
      else
        BidsFit(BidsAt(s, key));
        var result := ResultOf(m, BidsAt(s, key));
        (Store(s.auctions - {key}, pruned.cleared[key := Cleared(result, now + retention)]), Some(result))
  }

  /** The plaintext a stored bid was read from. */
  ghost predicate CameFrom(p: Platform, b: StoredBid, plaintext: Bytes) {
    p.decodeBid(plaintext) == Some(b.bid) && b.commitment == p.keccak(plaintext)
  }

  /** A stored bid sits under its own auction and bidder, is valid, and commits to its plaintext. */
  ghost predicate StoredOk(p: Platform, key: string, k: string, b: StoredBid) {
    && key == KeyOf(b) && k == BidderKey(b.bid.bidder) && ValidBid(b.bid)
    && exists plaintext :: CameFrom(p, b, plaintext)
  }

  ghost predicate BidsOk(p: Platform, key: string, bids: Bids) {
    bids != map[] && forall k :: k in bids ==> StoredOk(p, key, k, bids[k])
  }

  /** No auction is both open for bids and cleared, and every bid map is non-empty and well formed. */
  ghost predicate StoreOk(p: Platform, s: Store) {
    && (forall key :: key in s.auctions ==> BidsOk(p, key, s.auctions[key]) && key !in s.cleared)
    && (forall key :: key in s.cleared ==>
          key == AuctionKey(s.cleared[key].result.contractAddr, s.cleared[key].result.auctionId))
  }

  lemma StoreOkKeyed(p: Platform, s: Store)
    requires StoreOk(p, s)
    ensures StoreKeyed(s)
  {
    forall key | key in s.auctions
      ensures WellKeyed(s.auctions[key])
    {
      assert BidsOk(p, key, s.auctions[key]);
      assert forall k :: k in s.auctions[key] ==> StoredOk(p, key, k, s.auctions[key][k]);
    }
  }

  lemma ReadBidOk(p: Platform, envelope: Option<BidEnvelope>, plaintext: Option<Bytes>)
    requires ReadBid(p, envelope, plaintext).Some?
    ensures var b := ReadBid(p, envelope, plaintext).value; StoredOk(p, KeyOf(b), BidderKey(b.bid.bidder), b)
  {
    assert CameFrom(p, ReadBid(p, envelope, plaintext).value, plaintext.value);
  }

  lemma AddedBidOk(p: Platform, key: string, bids: Bids, b: StoredBid)
    requires bids == map[] || BidsOk(p, key, bids)
    requires StoredOk(p, key, BidderKey(b.bid.bidder), b)
    ensures BidsOk(p, key, bids[BidderKey(b.bid.bidder) := b])
  {
    hide AuctionKey, BidderKey, CameFrom;
    assert BidderKey(b.bid.bidder) in bids[BidderKey(b.bid.bidder) := b];
  }

  lemma TakeBidKeeps(p: Platform, s: Store, envelope: Option<BidEnvelope>, plaintext: Option<Bytes>, now: nat)
    requires StoreOk(p, s)
    ensures StoreOk(p, TakeBid(p, s, envelope, plaintext, now).0)
  {
    hide AuctionKey, BidderKey, ReadBid, StoredOk;
    if ReadBid(p, envelope, plaintext).Some? {
      ReadBidOk(p, envelope, plaintext);
      var b := ReadBid(p, envelope, plaintext).value;
      AddedBidOk(p, KeyOf(b), BidsAt(s, KeyOf(b)), b);
    }
  }

  lemma AnswerKeeps(p: Platform, s: Store, retention: nat, message: Option<ClearMessage>, now: nat)
    requires StoreOk(p, s)
    ensures StoreKeyed(s) && StoreOk(p, Answer(s, retention, message, now).0)
  {
    StoreOkKeyed(p, s);
  }

  // ----- which messages are accepted -----

  /** A non-empty ciphertext, and a bid with every field filled in that names the envelope's sender and auction. */
  predicate WellMade(envelope: BidEnvelope, bid: PrivateBid) {
    && Hex.Decode(Some(envelope.ciphertext)).Some? && |Hex.Decode(Some(envelope.ciphertext)).value| > 0
    && bid.bidder == envelope.bidder && bid.auctionId == envelope.auctionId
    && bid.bidder != 0 && bid.contractAddr != 0 && bid.auctionId != 0
    && bid.nonce != 0 && bid.unitPriceWei != 0 && bid.salt != 0
  }

  /** A message yields a bid exactly if it is well made, and then the bid it carries with the hash of its plaintext. */
  lemma ReadBidIff(p: Platform, envelope: Option<BidEnvelope>, plaintext: Option<Bytes>, b: StoredBid)
    ensures ReadBid(p, envelope, plaintext) == Some(b) <==>
            && envelope.Some? && plaintext.Some? && p.decodeBid(plaintext.value) == Some(b.bid)
            && WellMade(envelope.value, b.bid) && b.commitment == p.keccak(plaintext.value)
  {
    hide Hex.Decode;
  }

  /**
   * A bid gets this receipt if and only if it is well made, its auction has no unexpired result, and
   * the bidder has no stored bid in it with the same or a larger nonce.
   */
  lemma ReceiptIff(p: Platform, s: Store, envelope: Option<BidEnvelope>, plaintext: Option<Bytes>, now: nat,
                   receipt: BidReceipt)
    ensures TakeBid(p, s, envelope, plaintext, now).1 == Some(receipt) <==>
            && envelope.Some? && plaintext.Some? && p.decodeBid(plaintext.value).Some?
            && var bid := p.decodeBid(plaintext.value).value;
               var key, k := AuctionKey(bid.contractAddr, bid.auctionId), BidderKey(bid.bidder);
               && WellMade(envelope.value, bid)
               && (key in s.cleared ==> s.cleared[key].expiresAt <= now)
               && (key in s.auctions && k in s.auctions[key] ==> s.auctions[key][k].bid.nonce < bid.nonce)
               && receipt == BidReceipt(bid.contractAddr, bid.auctionId, bid.bidder, bid.nonce,
                                        p.keccak(plaintext.value))
  {
    hide Hex.Decode, AuctionKey, BidderKey;
  }

  /** A clear request is answered if and only if it names an auction and a contract and a collar above zero. */
  lemma AnswerIff(s: Store, retention: nat, message: Option<ClearMessage>, now: nat)
    requires StoreKeyed(s)
    ensures Answer(s, retention, message, now).1.Some? <==>
            && message.Some? && message.value.auctionId != 0 && message.value.contractAddr != 0
            && message.value.floorPriceWei != 0 && message.value.floorPriceWei <= message.value.ceilingPriceWei
  {
    hide AuctionKey, ResultOf;
  }

  /** An answered clear leaves no bid of its auction, and its answer kept: a fresh one for the whole window. */
  lemma AnswerPurges(s: Store, retention: nat, m: ClearMessage, now: nat)
    requires StoreKeyed(s) && ValidClear(m)
    requires ClearKey(m) in s.auctions ==> ClearKey(m) !in s.cleared
    ensures var (t, answer) := Answer(s, retention, Some(m), now);
            var key := ClearKey(m);
            && key !in t.auctions && answer.Some? && key in t.cleared && t.cleared[key].result == answer.value
            && t.cleared[key].expiresAt ==
               if key in s.cleared && now < s.cleared[key].expiresAt then s.cleared[key].expiresAt
               else now + retention
  {
    hide AuctionKey, ResultOf;
  }

  /** The bids of other auctions stay as they are, and so do their answers until they expire. */
  lemma AnswerSparesOthers(s: Store, retention: nat, m: ClearMessage, now: nat, other: string)
    requires StoreKeyed(s) && ValidClear(m) && other != ClearKey(m)
    ensures var t := Answer(s, retention, Some(m), now).0;
            && (other in t.auctions <==> other in s.auctions)
            && (other in t.auctions ==> t.auctions[other] == s.auctions[other])
            && (other in t.cleared <==> other in s.cleared && now < s.cleared[other].expiresAt)
            && (other in t.cleared ==> t.cleared[other] == s.cleared[other])
  {
    hide AuctionKey, ResultOf;
  }

  // ----- what the answers are worth -----

  /** Everything the contract will check of a result, escrow and signature aside. */
  predicate Sound(r: ClearResult, m: ClearMessage) {
    && r.contractAddr == m.contractAddr && r.auctionId == m.auctionId && r.eligibleBidCount <= r.submittedBidCount
    && if r.winner == ZERO_ADDRESS then
         r.unitPriceWei == 0 && r.winningNonce == 0 && r.winningCommitment == 0 && r.eligibleBidCount == 0
       else
         && m.floorPriceWei <= r.unitPriceWei <= m.ceilingPriceWei
         && r.winningNonce != 0 && r.winningCommitment != 0 && r.eligibleBidCount != 0
  }

  ghost predicate HashNeverZero(p: Platform) {
    forall b :: p.keccak(b) != 0
  }

  /** A result of valid bids is sound, names a winner exactly when a bid is in the collar, and then a bidder. */
  lemma ResultIsSound(p: Platform, m: ClearMessage, bids: Bids)
    requires HashNeverZero(p) && |bids| <= MAX_WORD
    requires forall k :: k in bids ==> StoredOk(p, ClearKey(m), k, bids[k])
    ensures Sound(ResultOf(m, bids), m)
    ensures ResultOf(m, bids).winner == ZERO_ADDRESS <==> EligibleKeys(bids, m.floorPriceWei, m.ceilingPriceWei) == {}
    ensures ResultOf(m, bids).winner != ZERO_ADDRESS ==>
              exists k :: IsBest(bids, EligibleKeys(bids, m.floorPriceWei, m.ceilingPriceWei), k)
                && bids[k].bid.bidder == ResultOf(m, bids).winner
  {
    assert WellKeyed(bids);
    EligibleFewer(bids, m.floorPriceWei, m.ceilingPriceWei);
    WinnerIsArgmax(bids, m.floorPriceWei, m.ceilingPriceWei);
    var keys := EligibleKeys(bids, m.floorPriceWei, m.ceilingPriceWei);
    if keys != {} {
      var k :| IsBest(bids, keys, k);
      assert StoredOk(p, ClearKey(m), k, bids[k]);
      var plaintext :| CameFrom(p, bids[k], plaintext);
    }
  }
}
