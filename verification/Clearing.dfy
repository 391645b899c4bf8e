/** Choosing the winner: the filter, the sort and the first element of `handleClear`, and what they mean. */
module Clearing {
  import opened Basics
  import opened Messages
  import opened Keys

  datatype StoredBid = StoredBid(bid: PrivateBid, commitment: Word)

  /** The bids of one auction, by bidder. */
  type Bids = map<string, StoredBid>

  ghost predicate WellKeyed(bids: Bids) {
    forall k :: k in bids ==> k == BidderKey(bids[k].bid.bidder)
  }

  predicate InCollar(b: StoredBid, floor: Word, ceiling: Word) {
    floor <= b.bid.unitPriceWei <= ceiling
  }

  function EligibleKeys(bids: Bids, floor: Word, ceiling: Word): set<string> {
    set k | k in bids && InCollar(bids[k], floor, ceiling)
  }

  /** The higher price wins; at equal prices the lower address does. */
  predicate Beats(x: StoredBid, y: StoredBid) {
    || x.bid.unitPriceWei > y.bid.unitPriceWei
    || (x.bid.unitPriceWei == y.bid.unitPriceWei && x.bid.bidder < y.bid.bidder)
  }

  ghost predicate IsBest(bids: Bids, keys: set<string>, k: string) {
    && k in keys && k in bids
    && forall j :: j in keys && j in bids && j != k ==> Beats(bids[k], bids[j])
  }

  /** The eligible bid that beats all others; `None` if no bid is in the collar. */
  ghost function Winner(bids: Bids, floor: Word, ceiling: Word): Option<StoredBid> {
    var keys := EligibleKeys(bids, floor, ceiling);
    if exists k :: IsBest(bids, keys, k) then
      var k :| IsBest(bids, keys, k);
      Some(bids[k])
    else None
  }

  ghost function ResultOf(m: ClearMessage, bids: Bids): ClearResult
    requires |bids| <= MAX_WORD
  {
    var eligible := EligibleKeys(bids, m.floorPriceWei, m.ceilingPriceWei);
    EligibleFewer(bids, m.floorPriceWei, m.ceilingPriceWei);
    match Winner(bids, m.floorPriceWei, m.ceilingPriceWei)
    case None => ClearResult(m.contractAddr, m.auctionId, ZERO_ADDRESS, 0, 0, 0, |bids|, |eligible|)
    case Some(b) =>
      ClearResult(m.contractAddr, m.auctionId, b.bid.bidder, b.bid.unitPriceWei, b.bid.nonce, b.commitment,
                  |bids|, |eligible|)
  }

  lemma EligibleFewer(bids: Bids, floor: Word, ceiling: Word)
    ensures EligibleKeys(bids, floor, ceiling) <= bids.Keys
    ensures |EligibleKeys(bids, floor, ceiling)| <= |bids|
  {
    SubsetSize(EligibleKeys(bids, floor, ceiling), bids.Keys);
  }

  lemma {:induction false} SubsetSize<T>(a: set<T>, b: set<T>)
    requires a <= b
    ensures |a| <= |b|
  {
    if a != {} {
      var x :| x in a;
      SubsetSize(a - {x}, b - {x});
    }
  }

  // ----- there is exactly one winner -----

  lemma BidderDecides(bids: Bids, j: string, k: string)
    requires WellKeyed(bids) && j in bids && k in bids && j != k
    ensures Beats(bids[j], bids[k]) != Beats(bids[k], bids[j])
  {
  }

  lemma {:induction false} BestExists(bids: Bids, keys: set<string>) returns (best: string)
    requires WellKeyed(bids) && keys != {} && keys <= bids.Keys
    ensures IsBest(bids, keys, best)
  {
    var k :| k in keys;
    best := k;
    if keys != {k} {
      assert keys - {k} != {};
      var other := BestExists(bids, keys - {k});
      BidderDecides(bids, k, other);
      if Beats(bids[other], bids[k]) {
        best := other;
      }
    }
  }

  lemma BestUnique(bids: Bids, keys: set<string>, j: string, k: string)
    requires IsBest(bids, keys, j) && IsBest(bids, keys, k)
    ensures j == k
  {
  }

  /** The winner is the eligible bid that beats every other one, and exists when any bid is eligible. */
  lemma WinnerIsArgmax(bids: Bids, floor: Word, ceiling: Word)
    requires WellKeyed(bids)
    ensures var keys := EligibleKeys(bids, floor, ceiling);
            && (Winner(bids, floor, ceiling).None? <==> keys == {})
            && (forall k :: IsBest(bids, keys, k) ==> Winner(bids, floor, ceiling) == Some(bids[k]))
            && (Winner(bids, floor, ceiling).Some? ==>
                  exists k :: IsBest(bids, keys, k) && bids[k] == Winner(bids, floor, ceiling).value)
  {
    var keys := EligibleKeys(bids, floor, ceiling);
    if keys != {} {
      var best := BestExists(bids, keys);
      forall k | IsBest(bids, keys, k)
        ensures k == best
      {
        BestUnique(bids, keys, k, best);
      }
    }
  }

  // ----- the result, field by field -----

  /** A stored bid with a price from floor to ceiling, both included. */
  predicate Within(bids: Bids, k: string, m: ClearMessage) {
    k in bids && m.floorPriceWei <= bids[k].bid.unitPriceWei <= m.ceilingPriceWei
  }

  /** The result names this bid, and no bid within the collar offers more, or as much from a lower address. */
  ghost predicate Names(bids: Bids, m: ClearMessage, r: ClearResult, k: string) {
    && Within(bids, k, m)
    && r.winner == bids[k].bid.bidder && r.unitPriceWei == bids[k].bid.unitPriceWei
    && r.winningNonce == bids[k].bid.nonce && r.winningCommitment == bids[k].commitment
    && forall j :: Within(bids, j, m) ==>
         && bids[j].bid.unitPriceWei <= r.unitPriceWei
         && (bids[j].bid.unitPriceWei == r.unitPriceWei ==> r.winner <= bids[j].bid.bidder)
  }

  /** What a result must say of these bids. */
  ghost predicate Reports(bids: Bids, m: ClearMessage, r: ClearResult) {
    && r.contractAddr == m.contractAddr && r.auctionId == m.auctionId
    && r.submittedBidCount == |bids|
    && r.eligibleBidCount == |set k | k in bids && m.floorPriceWei <= bids[k].bid.unitPriceWei <= m.ceilingPriceWei|
    && if forall k :: !Within(bids, k, m) then
         r.winner == 0 && r.unitPriceWei == 0 && r.winningNonce == 0 && r.winningCommitment == 0
       else
         exists k :: Names(bids, m, r, k)
  }

  /** That pins every field: a result reports on the bids if and only if it is the one computed. */
  lemma ResultReports(m: ClearMessage, bids: Bids, r: ClearResult)
    requires WellKeyed(bids) && |bids| <= MAX_WORD
    ensures Reports(bids, m, r) <==> r == ResultOf(m, bids)
  {
    hide BidderKey, Names;
    ComputedReports(m, bids);
    var c := ResultOf(m, bids);
    if Reports(bids, m, r) && !(forall k :: !Within(bids, k, m)) {
      var k :| Names(bids, m, r, k);
      var j :| Names(bids, m, c, j);
      OneNamed(bids, m, r, k, c, j);
    }
  }

  lemma OneNamed(bids: Bids, m: ClearMessage, r: ClearResult, k: string, c: ClearResult, j: string)
    requires WellKeyed(bids) && Names(bids, m, r, k) && Names(bids, m, c, j)
    ensures r.winner == c.winner && r.unitPriceWei == c.unitPriceWei
    ensures r.winningNonce == c.winningNonce && r.winningCommitment == c.winningCommitment
  {
    hide BidderKey;
    assert bids[k].bid.bidder == bids[j].bid.bidder;
  }

  lemma ComputedReports(m: ClearMessage, bids: Bids)
    requires WellKeyed(bids) && |bids| <= MAX_WORD
    ensures Reports(bids, m, ResultOf(m, bids))
  {
    hide BidderKey;
    var keys := EligibleKeys(bids, m.floorPriceWei, m.ceilingPriceWei);
    WinnerIsArgmax(bids, m.floorPriceWei, m.ceilingPriceWei);
    assert keys == set k | k in bids && m.floorPriceWei <= bids[k].bid.unitPriceWei <= m.ceilingPriceWei;
    assert forall k :: k in keys <==> Within(bids, k, m);
    if keys != {} {
      var k :| IsBest(bids, keys, k);
      assert Names(bids, m, ResultOf(m, bids), k);
    }
  }

  /** No bid from floor to ceiling, both included, offers more than the result, or as much from a lower address. */
  lemma NoBidBeatsResult(m: ClearMessage, bids: Bids, k: string)
    requires WellKeyed(bids) && |bids| <= MAX_WORD && k in bids
    requires m.floorPriceWei <= bids[k].bid.unitPriceWei <= m.ceilingPriceWei
    ensures ResultOf(m, bids).unitPriceWei >= bids[k].bid.unitPriceWei
    ensures ResultOf(m, bids).unitPriceWei == bids[k].bid.unitPriceWei ==>
              ResultOf(m, bids).winner <= bids[k].bid.bidder
  {
    hide ResultOf;
    ComputedReports(m, bids);
    assert Within(bids, k, m);
    var j :| Names(bids, m, ResultOf(m, bids), j);
  }

  // ----- the program's way: filter, sort, first -----

  /** The comparator of `eligible.sort`: negative, zero or positive. */
  function Compare(left: StoredBid, right: StoredBid): int {
    if left.bid.unitPriceWei > right.bid.unitPriceWei then -1
    else if left.bid.unitPriceWei < right.bid.unitPriceWei then 1
    else if LocaleLess(BidderKey(left.bid.bidder), BidderKey(right.bid.bidder)) then -1
    else if LocaleLess(BidderKey(right.bid.bidder), BidderKey(left.bid.bidder)) then 1
    else 0
  }

  predicate Sorted(xs: seq<StoredBid>) {
    forall i, k :: 0 <= i < k < |xs| ==> Compare(xs[i], xs[k]) <= 0
  }

  function Insert(x: StoredBid, xs: seq<StoredBid>): seq<StoredBid> {
    if xs == [] || Compare(x, xs[0]) <= 0 then [x] + xs else [xs[0]] + Insert(x, xs[1..])
  }

  /** Stands for the library's `sort`; only that it is a sorted permutation is used of it. */
  function Sort(xs: seq<StoredBid>): seq<StoredBid> {
    if xs == [] then [] else Insert(xs[0], Sort(xs[1..]))
  }

  lemma CompareMeansBeats(x: StoredBid, y: StoredBid)
    ensures Compare(x, y) < 0 <==> Beats(x, y)
    ensures Compare(x, y) > 0 <==> Beats(y, x)
    ensures Compare(x, y) == 0 <==> x.bid.unitPriceWei == y.bid.unitPriceWei && x.bid.bidder == y.bid.bidder
  {
    AddressOrder(x.bid.bidder, y.bid.bidder);
    AddressOrder(y.bid.bidder, x.bid.bidder);
  }

  lemma CompareTransitive(x: StoredBid, y: StoredBid, z: StoredBid)
    requires Compare(x, y) <= 0 && Compare(y, z) <= 0
    ensures Compare(x, z) <= 0
  {
    CompareMeansBeats(x, y);
    CompareMeansBeats(y, z);
    CompareMeansBeats(x, z);
  }

  lemma {:induction false} InsertSorts(x: StoredBid, xs: seq<StoredBid>)
    requires Sorted(xs)
    ensures Sorted(Insert(x, xs)) && multiset(Insert(x, xs)) == multiset(xs) + multiset{x}
  {
    if xs == [] {
    } else if Compare(x, xs[0]) <= 0 {
      forall k | 0 <= k < |xs|
        ensures Compare(x, xs[k]) <= 0
      {
        if k > 0 {
          CompareTransitive(x, xs[0], xs[k]);
        }
      }
    } else {
      InsertSorts(x, xs[1..]);
      assert xs == [xs[0]] + xs[1..];
      CompareMeansBeats(x, xs[0]);
      CompareMeansBeats(xs[0], x);
      var rest := Insert(x, xs[1..]);
      forall k | 0 <= k < |rest|
        ensures Compare(xs[0], rest[k]) <= 0
      {
        assert rest[k] in multiset(rest);
        assert rest[k] in xs[1..] || rest[k] == x;
      }
    }
  }

  lemma {:induction false} SortSorts(xs: seq<StoredBid>)
    ensures Sorted(Sort(xs)) && multiset(Sort(xs)) == multiset(xs)
  {
    if xs != [] {
      SortSorts(xs[1..]);
      InsertSorts(xs[0], Sort(xs[1..]));
      assert xs == [xs[0]] + xs[1..];
    }
  }

  /** A listing of the eligible bids, in whatever order the map gives them. */
  ghost predicate Lists(bids: Bids, floor: Word, ceiling: Word, xs: seq<StoredBid>) {
    && (forall x :: x in xs ==> exists k :: k in EligibleKeys(bids, floor, ceiling) && bids[k] == x)
    && (forall k :: k in EligibleKeys(bids, floor, ceiling) ==> bids[k] in xs)
  }

  lemma ListsEmpty(bids: Bids, floor: Word, ceiling: Word, xs: seq<StoredBid>)
    requires Lists(bids, floor, ceiling, xs)
    ensures xs == [] <==> EligibleKeys(bids, floor, ceiling) == {}
  {
    if k :| k in EligibleKeys(bids, floor, ceiling) {
      assert bids[k] in xs;
    }
    if xs != [] {
      assert xs[0] in xs;
    }
  }

  /**
   * Whatever the insertion order of the map and whichever sorting algorithm is used, the first
   * element of the sorted list is the winner, and the list is empty exactly when there is none.
   */
  lemma SortedFirstIsWinner(bids: Bids, floor: Word, ceiling: Word, xs: seq<StoredBid>, sorted: seq<StoredBid>)
    requires WellKeyed(bids) && Lists(bids, floor, ceiling, xs)
    requires Sorted(sorted) && multiset(sorted) == multiset(xs)
    ensures Winner(bids, floor, ceiling) == if sorted == [] then None else Some(sorted[0])
  {
    var keys := EligibleKeys(bids, floor, ceiling);
    WinnerIsArgmax(bids, floor, ceiling);
    assert forall x :: x in sorted <==> x in multiset(sorted);
    assert forall x :: x in xs <==> x in multiset(xs);
    assert |xs| == |multiset(xs)| == |multiset(sorted)| == |sorted|;
    ListsEmpty(bids, floor, ceiling, xs);
    if sorted != [] {
      assert sorted[0] in xs;
      var k :| k in keys && bids[k] == sorted[0];
      forall j | j in keys && j != k
        ensures Beats(bids[k], bids[j])
      {
        assert bids[j] in sorted;
        var i :| 0 <= i < |sorted| && sorted[i] == bids[j];
        BidderDecides(bids, j, k);
        CompareMeansBeats(sorted[0], sorted[i]);
      }
      assert IsBest(bids, keys, k);
    }
  }

  // ----- counts fit in a word -----

  lemma {:induction false} BoundedSet(s: set<nat>, n: nat)
    requires forall x :: x in s ==> x < n
    ensures |s| <= n
  {
    if n == 0 {
      assert s == {};
    } else {
      BoundedSet(s - {n - 1}, n - 1);
      assert |s - {n - 1}| >= |s| - 1;
    }
  }

  lemma {:induction false} KeysNoMoreThanAddresses(keys: set<string>, addresses: set<nat>)
    requires forall a :: a in addresses ==> a < ADDRESS_SPACE
    requires forall k :: k in keys ==> exists a: Address :: a in addresses && k == BidderKey(a)
    ensures |keys| <= |addresses|
    decreases |addresses|
  {
    if keys != {} {
      var k :| k in keys;
      var a: Address :| a in addresses && k == BidderKey(a);
      forall k' | k' in keys - {k}
        ensures exists a': Address :: a' in addresses - {a} && k' == BidderKey(a')
      {
        var a': Address :| a' in addresses && k' == BidderKey(a');
        assert a' in addresses - {a};
      }
      KeysNoMoreThanAddresses(keys - {k}, addresses - {a});
    }
  }

  /** There are no more bids in an auction than addresses. */
  lemma BidsFit(bids: Bids)
    requires WellKeyed(bids)
    ensures |bids| <= ADDRESS_SPACE <= MAX_WORD
  {
    var addresses: set<nat> := set k | k in bids :: bids[k].bid.bidder;
    BoundedSet(addresses, ADDRESS_SPACE);
    forall k | k in bids.Keys
      ensures exists a: Address :: a in addresses && k == BidderKey(a)
    {
      assert bids[k].bid.bidder in addresses;
    }
    KeysNoMoreThanAddresses(bids.Keys, addresses);
    assert |bids| == |bids.Keys|;
  }
}
