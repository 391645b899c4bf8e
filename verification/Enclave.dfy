/**
 * The enclave's handlers as they run: two maps updated in place. Each handler is proved to do what
 * `EnclaveSpec` says, whatever order the maps list their entries in.
 */
module Enclave {
  import opened Basics
  import opened Messages
  import opened Keys
  import opened Clearing
  import opened EnclaveSpec
  import Hex

  class BidStore {
    const platform: Platform
    const clearRetentionMs: nat

    var auctions: map<string, Bids>
    var cleared: map<string, Cleared>

    function State(): Store
      reads this
    {
      Store(auctions, cleared)
    }

    ghost predicate Valid()
      reads this
    {
      StoreOk(platform, State())
    }

    /** The retention window is ten minutes. */
    constructor (platform: Platform)
      ensures Valid() && State() == EMPTY
      ensures this.platform == platform && clearRetentionMs == 600_000
    {
      this.platform := platform;
      clearRetentionMs := 10 * 60 * 1000;
      auctions, cleared := map[], map[];
    }

    /** Deletes the expired entries one by one, in whatever order the map lists them. */
    method PruneCleared(now: nat)
      modifies this`cleared
      ensures cleared == Prune(old(cleared), now)
    {
      var rest := cleared.Keys;
      while rest != {}
        invariant rest <= cleared.Keys <= old(cleared).Keys
        invariant forall k :: k in cleared ==> cleared[k] == old(cleared)[k]
        invariant forall k :: k in cleared && k !in rest ==> cleared[k].expiresAt > now
        invariant forall k :: k in old(cleared) && k !in cleared ==> old(cleared)[k].expiresAt <= now
        decreases |rest|
      {
        var key :| key in rest;
        rest := rest - {key};
        if cleared[key].expiresAt <= now {
          cleared := cleared - {key};
        }
      }
    }

    method HandlePrivateBid(envelope: Option<BidEnvelope>, decrypted: Option<Bytes>, now: nat)
      returns (receipt: Option<BidReceipt>)
      requires Valid()
      modifies this
      ensures Valid() && (State(), receipt) == TakeBid(platform, old(State()), envelope, decrypted, now)
    {
      hide AuctionKey, BidderKey, StoreOk;
      TakeBidKeeps(platform, State(), envelope, decrypted, now);
      if envelope.None? {
        return None;
      }
      var decoded, ciphertext := Hex.HexToBytes(Some(envelope.value.ciphertext));
      if !decoded || ciphertext.Length == 0 || decrypted.None? {
        return None;
      }
      assert ciphertext[..] != [];
      var plaintext := decrypted.value;
      var read := platform.decodeBid(plaintext);
      if read.None? {
        return None;
      }
      var bid := read.value;
      if bid.bidder == ZERO_ADDRESS || bid.contractAddr == ZERO_ADDRESS || bid.auctionId <= 0 || bid.nonce <= 0
         || bid.unitPriceWei <= 0 || bid.salt == 0 {
        return None;
      }
      if bid.bidder != envelope.value.bidder || bid.auctionId != envelope.value.auctionId {
        return None;
      }
      receipt := StoreBid(bid, platform.keccak(plaintext), now);
    }

    /** The part of `handlePrivateBid` that touches the store. */
    method StoreBid(bid: PrivateBid, commitment: Word, now: nat) returns (receipt: Option<BidReceipt>)
      modifies this
      ensures var b := StoredBid(bid, commitment);
              var key := KeyOf(b);
              var pruned := Store(old(auctions), Prune(old(cleared), now));
              (State(), receipt) ==
              if key in pruned.cleared || !Replaces(BidsAt(old(State()), key), b) then (pruned, None)
              else (pruned.(auctions := old(auctions)[key := BidsAt(old(State()), key)[BidderKey(bid.bidder) := b]]),
                    Some(ReceiptOf(b)))
    {
      hide AuctionKey, BidderKey;
      var auctionKey := AuctionKey(bid.contractAddr, bid.auctionId);
      PruneCleared(now);
      if auctionKey in cleared {
        return None;
      }
      var bidderKey := BidderKey(bid.bidder);
      var bids: Bids := if auctionKey in auctions then auctions[auctionKey] else map[];
      if bidderKey in bids && bid.nonce <= bids[bidderKey].bid.nonce {
        return None;
      }
      bids := bids[bidderKey := StoredBid(bid, commitment)];
      auctions := auctions[auctionKey := bids];
      return Some(BidReceipt(bid.contractAddr, bid.auctionId, bid.bidder, bid.nonce, commitment));
    }

    ghost predicate ListsExactly(bids: Bids, listed: seq<StoredBid>, keys: set<string>) {
      && keys <= bids.Keys && |listed| == |keys|
      && (forall x :: x in listed ==> exists k :: k in keys && bids[k] == x)
      && (forall k :: k in keys ==> bids[k] in listed)
    }

    lemma ListsOneMore(bids: Bids, listed: seq<StoredBid>, keys: set<string>, key: string)
      requires ListsExactly(bids, listed, keys) && key in bids && key !in keys
      ensures ListsExactly(bids, listed + [bids[key]], keys + {key})
    {
    }

    lemma ListsNone(bids: Bids)
      ensures ListsExactly(bids, [], {})
    {
    }

    lemma ListsAll(bids: Bids, floor: Word, ceiling: Word, listed: seq<StoredBid>)
      requires ListsExactly(bids, listed, EligibleKeys(bids, floor, ceiling))
      ensures Lists(bids, floor, ceiling, listed) && |listed| == |EligibleKeys(bids, floor, ceiling)|
    {
    }

    /** The bids inside the collar, in whatever order the map lists them. */
    method ListEligible(bids: Bids, floor: Word, ceiling: Word) returns (eligible: seq<StoredBid>)
      ensures Lists(bids, floor, ceiling, eligible)
      ensures |eligible| == |EligibleKeys(bids, floor, ceiling)|
    {
      hide ListsExactly, Lists;
      eligible := [];
      var rest := bids.Keys;
      ListsNone(bids);
      ghost var all := EligibleKeys(bids, floor, ceiling);
      assert all - rest == {};
      while rest != {}
        invariant rest <= bids.Keys
        invariant ListsExactly(bids, eligible, all - rest)
        decreases |rest|
      {
        var key :| key in rest;
        ghost var before := all - rest;
        rest := rest - {key};
        if bids[key].bid.unitPriceWei >= floor && bids[key].bid.unitPriceWei <= ceiling {
          ListsOneMore(bids, eligible, before, key);
          eligible := eligible + [bids[key]];
          assert key in all && all - rest == before + {key};
        } else {
          assert all - rest == before;
        }
      }
      assert all - rest == all;
      ListsAll(bids, floor, ceiling, eligible);
    }

    method HandleClear(message: Option<ClearMessage>, now: nat) returns (answer: Option<ClearResult>)
      requires Valid()
      modifies this
      ensures Valid() && StoreKeyed(old(State()))
      ensures (State(), answer) == Answer(old(State()), clearRetentionMs, message, now)
    {
      hide AuctionKey, ResultOf, StoreOk;
      AnswerKeeps(platform, State(), clearRetentionMs, message, now);
      StoreOkKeyed(platform, State());
      if message.None? {
        return None;
      }
      var m := message.value;
      if m.auctionId <= 0 || m.contractAddr == ZERO_ADDRESS || m.floorPriceWei <= 0
          || m.ceilingPriceWei < m.floorPriceWei {
        return None;
      }
      var auctionKey := AuctionKey(m.contractAddr, m.auctionId);
      PruneCleared(now);
      if auctionKey in cleared {
        return Some(cleared[auctionKey].result);
      }
      var bids: Bids := if auctionKey in auctions then auctions[auctionKey] else map[];
      var result := Choose(bids, m);
      cleared := cleared[auctionKey := Cleared(result, now + clearRetentionMs)];
      auctions := auctions - {auctionKey};
      return Some(result);
    }

    /** Filter, sort, first element: the result the bids give. */
    method Choose(bids: Bids, m: ClearMessage) returns (result: ClearResult)
      requires WellKeyed(bids)
      ensures |bids| <= MAX_WORD && result == ResultOf(m, bids)
    {
      hide BidderKey, EligibleKeys, Sort;
      BidsFit(bids);
      EligibleFewer(bids, m.floorPriceWei, m.ceilingPriceWei);
      var eligible := ListEligible(bids, m.floorPriceWei, m.ceilingPriceWei);
      var sorted := Sort(eligible);
      SortSorts(eligible);
      SortedFirstIsWinner(bids, m.floorPriceWei, m.ceilingPriceWei, eligible, sorted);
      if sorted == [] {
        result := ClearResult(m.contractAddr, m.auctionId, ZERO_ADDRESS, 0, 0, 0, |bids|, |eligible|);
      } else {
        var winner := sorted[0];
        result := ClearResult(m.contractAddr, m.auctionId, winner.bid.bidder, winner.bid.unitPriceWei, winner.bid.nonce,
                              winner.commitment, |bids|, |eligible|);
      }
    }
  }
}
