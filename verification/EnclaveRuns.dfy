/** Theorems about every sequence of messages an enclave receives. */
module EnclaveRuns {
  import opened Basics
  import opened Messages
  import opened Keys
  import opened Clearing
  import opened EnclaveSpec

  /** A message, with what decryption gave for a bid, and the clock reading while it is handled. */
  datatype Delivery =
    | BidArrives(envelope: Option<BidEnvelope>, plaintext: Option<Bytes>, now: nat)
    | ClearArrives(message: Option<ClearMessage>, now: nat)

  ghost function Handle(p: Platform, retention: nat, s: Store, e: Delivery): (s': Store)
    requires StoreOk(p, s)
    ensures StoreOk(p, s')
  {
    match e
    case BidArrives(envelope, plaintext, now) =>
      TakeBidKeeps(p, s, envelope, plaintext, now);
      TakeBid(p, s, envelope, plaintext, now).0
    case ClearArrives(message, now) =>
      AnswerKeeps(p, s, retention, message, now);
      Answer(s, retention, message, now).0
  }

  /** The store invariant holds after every sequence of messages. */
  ghost function HandleAll(p: Platform, retention: nat, s: Store, es: seq<Delivery>): (s': Store)
    requires StoreOk(p, s)
    ensures StoreOk(p, s')
    decreases |es|
  {
    if es == [] then s else HandleAll(p, retention, Handle(p, retention, s, es[0]), es[1..])
  }

  lemma EmptyStoreOk(p: Platform)
    ensures StoreOk(p, EMPTY)
  {
  }

  /** What a clear request gets back in a state. */
  ghost function AnswerIn(p: Platform, retention: nat, s: Store, m: ClearMessage, now: nat): Option<ClearResult>
    requires StoreOk(p, s)
  {
    StoreOkKeyed(p, s);
    Answer(s, retention, Some(m), now).1
  }

  // ----- the cache -----

  lemma {:induction false} CachedStays(p: Platform, retention: nat, s: Store, es: seq<Delivery>, key: string)
    requires StoreOk(p, s) && key in s.cleared
    requires forall i :: 0 <= i < |es| ==> es[i].now < s.cleared[key].expiresAt
    ensures var t := HandleAll(p, retention, s, es); key in t.cleared && t.cleared[key] == s.cleared[key]
    decreases |es|
  {
    if es != [] {
      CachedStays(p, retention, Handle(p, retention, s, es[0]), es[1..], key);
    }
  }

  /**
   * The first answer for an auction is the answer for as long as it is retained, whatever bids,
   * clears of other auctions and other collars come in between.
   */
  lemma CacheIsFaithful(p: Platform, retention: nat, s: Store, first: ClearMessage, now: nat,
                        es: seq<Delivery>, later: ClearMessage, at: nat)
    requires StoreOk(p, s) && ValidClear(first) && ClearKey(first) !in Prune(s.cleared, now)
    requires ValidClear(later) && ClearKey(later) == ClearKey(first)
    requires forall i :: 0 <= i < |es| ==> es[i].now < now + retention
    requires at < now + retention
    ensures var t := HandleAll(p, retention, Handle(p, retention, s, ClearArrives(Some(first), now)), es);
            AnswerIn(p, retention, s, first, now).Some?
            && AnswerIn(p, retention, t, later, at) == AnswerIn(p, retention, s, first, now)
  {
    CachedStays(p, retention, Handle(p, retention, s, ClearArrives(Some(first), now)), es, ClearKey(first));
  }

  /** The answer for an auction nobody has bid in. */
  function NoBidResult(m: ClearMessage): ClearResult {
    ClearResult(m.contractAddr, m.auctionId, ZERO_ADDRESS, 0, 0, 0, 0, 0)
  }

  /**
   * One request, while the entry is still held: the cached answer before it expires. If this is the
   * first message read after that, the bids are gone and the answer is that nobody bid. What later
   * messages make of it is `Rounds.LaterAnswer`.
   */
  lemma CachedAnswerIff(p: Platform, retention: nat, s: Store, m: ClearMessage, now: nat)
    requires StoreOk(p, s) && ValidClear(m) && ClearKey(m) in s.cleared
    ensures var kept := s.cleared[ClearKey(m)];
            AnswerIn(p, retention, s, m, now) == Some(if now < kept.expiresAt then kept.result else NoBidResult(m))
    ensures var kept := s.cleared[ClearKey(m)];
            AnswerIn(p, retention, s, m, now) == Some(kept.result) <==>
            now < kept.expiresAt || kept.result == NoBidResult(m)
  {
    var key := ClearKey(m);
    assert key !in s.auctions;
    var none: Bids := map[];
    assert BidsAt(s, key) == none;
    assert EligibleKeys(none, m.floorPriceWei, m.ceilingPriceWei) == {};
  }

  // ----- which bid is stored -----

  function Accept(bids: Bids, b: StoredBid): Bids {
    if Replaces(bids, b) then bids[BidderKey(b.bid.bidder) := b] else bids
  }

  function AcceptAll(bids: Bids, xs: seq<StoredBid>): Bids {
    if xs == [] then bids else Accept(AcceptAll(bids, xs[..|xs| - 1]), xs[|xs| - 1])
  }

  /** The valid bid for one auction in a message, if there is one. */
  function BidFor(p: Platform, e: Delivery, key: string): Option<StoredBid> {
    if e.ClearArrives? then None
    else
      var read := ReadBid(p, e.envelope, e.plaintext);
      if read.Some? && KeyOf(read.value) == key then read else None
  }

  /** The valid bids for one auction among the messages, in order of arrival. */
  function ValidBids(p: Platform, es: seq<Delivery>, key: string): seq<StoredBid> {
    if es == [] then []
    else
      var before, last := ValidBids(p, es[..|es| - 1], key), BidFor(p, es[|es| - 1], key);
      if last.Some? then before + [last.value] else before
  }

  predicate ClearsKey(e: Delivery, key: string) {
    e.ClearArrives? && e.message.Some? && ValidClear(e.message.value) && ClearKey(e.message.value) == key
  }

  /** No clear of the auction among these messages, and any cached answer for it has expired before them. */
  predicate OpenFor(s: Store, es: seq<Delivery>, key: string) {
    forall i :: 0 <= i < |es| ==> !ClearsKey(es[i], key) && (key in s.cleared ==> s.cleared[key].expiresAt <= es[i].now)
  }

  lemma {:induction false} HandleAllSnoc(p: Platform, retention: nat, s: Store, es: seq<Delivery>, e: Delivery)
    requires StoreOk(p, s)
    ensures HandleAll(p, retention, s, es + [e]) == Handle(p, retention, HandleAll(p, retention, s, es), e)
    decreases |es|
  {
    if es == [] {
      assert (es + [e])[1..] == [];
    } else {
      assert (es + [e])[1..] == es[1..] + [e];
      HandleAllSnoc(p, retention, Handle(p, retention, s, es[0]), es[1..], e);
    }
  }

  /** Between clears the store holds what accepting the valid bids one by one gives. */
  lemma {:induction false} StoreIsAcceptAll(p: Platform, retention: nat, s: Store, es: seq<Delivery>, key: string)
    requires StoreOk(p, s) && OpenFor(s, es, key)
    ensures var t := HandleAll(p, retention, s, es);
            && BidsAt(t, key) == AcceptAll(BidsAt(s, key), ValidBids(p, es, key))
            && (key in t.cleared ==> key in s.cleared && t.cleared[key] == s.cleared[key])
    decreases |es|
  {
    hide BidFor, Accept, Handle, StoreOk, ClearsKey, BidsAt;
    if es != [] {
      var front, e := es[..|es| - 1], es[|es| - 1];
      assert es == front + [e];
      StoreIsAcceptAll(p, retention, s, front, key);
      HandleAllSnoc(p, retention, s, front, e);
      HandleOpen(p, retention, HandleAll(p, retention, s, front), e, key);
    }
  }

  predicate OpenAt(s: Store, e: Delivery, key: string) {
    !ClearsKey(e, key) && (key in s.cleared ==> s.cleared[key].expiresAt <= e.now)
  }

  /** One message, other than a clear of it, does to an auction what accepting its valid bid does. */
  lemma HandleOpen(p: Platform, retention: nat, s: Store, e: Delivery, key: string)
    requires StoreOk(p, s) && OpenAt(s, e, key)
    ensures var t := Handle(p, retention, s, e);
            && BidsAt(t, key) ==
               (match BidFor(p, e, key) case None => BidsAt(s, key) case Some(b) => Accept(BidsAt(s, key), b))
            && (key in t.cleared ==> key in s.cleared && t.cleared[key] == s.cleared[key])
  {
    hide ReadBid, AuctionKey, BidderKey, ResultOf, StoreOk, StoreKeyed, ReceiptOf;
  }

  /** The earliest of the bidder's bids that carry its largest nonce. */
  predicate IsLatest(xs: seq<StoredBid>, k: string, i: nat) {
    && i < |xs| && BidderKey(xs[i].bid.bidder) == k
    && (forall j :: 0 <= j < |xs| && BidderKey(xs[j].bid.bidder) == k ==> xs[j].bid.nonce <= xs[i].bid.nonce)
    && (forall j :: 0 <= j < i && BidderKey(xs[j].bid.bidder) == k ==> xs[j].bid.nonce < xs[i].bid.nonce)
  }

  predicate HasBidder(xs: seq<StoredBid>, k: string) {
    exists j :: 0 <= j < |xs| && BidderKey(xs[j].bid.bidder) == k
  }

  /** Starting from no bids, a bidder's stored bid is the earliest with its largest nonce. */
  lemma {:induction false} StoredIsLatest(xs: seq<StoredBid>, k: string) returns (i: nat)
    ensures k in AcceptAll(map[], xs) <==> HasBidder(xs, k)
    ensures k in AcceptAll(map[], xs) ==> IsLatest(xs, k, i) && AcceptAll(map[], xs)[k] == xs[i]
  {
    hide BidderKey;
    i := 0;
    if xs != [] {
      var front, last := xs[..|xs| - 1], xs[|xs| - 1];
      i := StoredIsLatest(front, k);
      assert forall j :: 0 <= j < |front| ==> front[j] == xs[j];
      if BidderKey(last.bid.bidder) == k {
        if HasBidder(front, k) {
          var j :| 0 <= j < |front| && BidderKey(front[j].bid.bidder) == k;
        }
        if k !in AcceptAll(map[], front) || last.bid.nonce > front[i].bid.nonce {
          i := |xs| - 1;
        }
      }
    }
  }

  /** No bid of the same bidder carries a larger nonce. */
  predicate IsTop(xs: seq<StoredBid>, x: StoredBid) {
    x in xs && forall y :: y in xs && y.bid.bidder == x.bid.bidder ==> y.bid.nonce <= x.bid.nonce
  }

  /** A bidder's bids with its largest nonce are all the same bid; distinct nonces are enough for that. */
  ghost predicate TopsAgree(xs: seq<StoredBid>) {
    forall x, y :: IsTop(xs, x) && IsTop(xs, y) && x.bid.bidder == y.bid.bidder ==> x == y
  }

  /** The stored bids depend on which bids came, not on their order. */
  lemma OrderDoesNotMatter(xs: seq<StoredBid>, ys: seq<StoredBid>)
    requires multiset(xs) == multiset(ys) && TopsAgree(xs)
    ensures AcceptAll(map[], xs) == AcceptAll(map[], ys)
  {
    hide AcceptAll, BidderKey, HasBidder, IsLatest;
    SameMembers(xs, ys);
    var a, b := AcceptAll(map[], xs), AcceptAll(map[], ys);
    forall k
      ensures k in a <==> k in b
      ensures k in a ==> a[k] == b[k]
    {
      var i := StoredIsLatest(xs, k);
      var j := StoredIsLatest(ys, k);
      SameBidders(xs, ys, k);
      if k in a {
        SameLatest(xs, ys, k, i, j);
      }
    }
  }

  /** Moving a top bid to the front makes it the stored one. */
  lemma FrontTopIsStored(xs: seq<StoredBid>, i: nat)
    requires i < |xs| && IsTop(xs, xs[i])
    ensures var ys := [xs[i]] + xs[..i] + xs[i + 1..];
            multiset(ys) == multiset(xs)
            && BidderKey(xs[i].bid.bidder) in AcceptAll(map[], ys)
            && AcceptAll(map[], ys)[BidderKey(xs[i].bid.bidder)] == xs[i]
  {
    hide AcceptAll, BidderKey;
    var x, ys := xs[i], [xs[i]] + xs[..i] + xs[i + 1..];
    assert xs == xs[..i] + [x] + xs[i + 1..];
    var k := BidderKey(x.bid.bidder);
    var j := StoredIsLatest(ys, k);
    assert BidderKey(ys[0].bid.bidder) == k;
    assert HasBidder(ys, k);
    if j > 0 {
      assert ys[j] in xs;
      AddressTextOfKey(ys[j].bid.bidder, x.bid.bidder);
    }
  }

  lemma AddressTextOfKey(a: Address, b: Address)
    requires BidderKey(a) == BidderKey(b)
    ensures a == b
  {
    AddressTextInjective(a, b);
  }

  /** Exactly then: if two different bids of one bidder share its largest nonce, the one that comes first is stored. */
  lemma OrderMattersIff(xs: seq<StoredBid>)
    ensures TopsAgree(xs) <==>
            forall ys :: multiset(ys) == multiset(xs) ==> AcceptAll(map[], ys) == AcceptAll(map[], xs)
  {
    hide AcceptAll, BidderKey, IsTop;
    if TopsAgree(xs) {
      forall ys | multiset(ys) == multiset(xs)
        ensures AcceptAll(map[], ys) == AcceptAll(map[], xs)
      {
        OrderDoesNotMatter(xs, ys);
      }
    } else {
      var x, y :| IsTop(xs, x) && IsTop(xs, y) && x.bid.bidder == y.bid.bidder && x != y;
      var i := IndexOfTop(xs, x);
      var j := IndexOfTop(xs, y);
      FrontTopIsStored(xs, i);
      FrontTopIsStored(xs, j);
      var first, second := [x] + xs[..i] + xs[i + 1..], [y] + xs[..j] + xs[j + 1..];
      assert AcceptAll(map[], first) != AcceptAll(map[], second);
      assert multiset(first) == multiset(xs) && multiset(second) == multiset(xs);
    }
  }

  lemma IndexOfTop(xs: seq<StoredBid>, x: StoredBid) returns (i: nat)
    requires IsTop(xs, x)
    ensures i < |xs| && xs[i] == x
  {
    i :| 0 <= i < |xs| && xs[i] == x;
  }

  lemma SameMembers(xs: seq<StoredBid>, ys: seq<StoredBid>)
    requires multiset(xs) == multiset(ys)
    ensures forall x :: x in xs <==> x in ys
  {
    assert forall x :: x in xs <==> x in multiset(xs);
    assert forall x :: x in ys <==> x in multiset(ys);
  }

  lemma SameBidders(xs: seq<StoredBid>, ys: seq<StoredBid>, k: string)
    requires forall x :: x in xs <==> x in ys
    ensures HasBidder(xs, k) <==> HasBidder(ys, k)
  {
    if HasBidder(xs, k) {
      var j :| 0 <= j < |xs| && BidderKey(xs[j].bid.bidder) == k;
      assert xs[j] in ys;
    }
    if HasBidder(ys, k) {
      var j :| 0 <= j < |ys| && BidderKey(ys[j].bid.bidder) == k;
      assert ys[j] in xs;
    }
  }

  lemma SameLatest(xs: seq<StoredBid>, ys: seq<StoredBid>, k: string, i: nat, j: nat)
    requires forall x :: x in xs <==> x in ys
    requires TopsAgree(xs) && IsLatest(xs, k, i) && IsLatest(ys, k, j)
    ensures xs[i] == ys[j]
  {
    hide BidderKey;
    assert xs[i] in ys && ys[j] in xs;
    var i' :| 0 <= i' < |ys| && ys[i'] == xs[i];
    var j' :| 0 <= j' < |xs| && xs[j'] == ys[j];
    assert xs[j'].bid.nonce <= xs[i].bid.nonce && ys[i'].bid.nonce <= ys[j].bid.nonce;
    AddressTextOfKey(xs[i].bid.bidder, xs[j'].bid.bidder);
    assert IsTop(xs, xs[i]) && IsTop(xs, xs[j']);
  }

  /**
   * Two streams with the same valid bids for an auction, in any order and mixed with anything else,
   * leave the same stored bids and get the same answer to a clear request.
   */
  lemma ArrivalOrderDoesNotMatter(p: Platform, retention: nat, es: seq<Delivery>, fs: seq<Delivery>, m: ClearMessage,
          now: nat)
    requires forall i :: 0 <= i < |es| ==> !ClearsKey(es[i], ClearKey(m))
    requires forall i :: 0 <= i < |fs| ==> !ClearsKey(fs[i], ClearKey(m))
    requires multiset(ValidBids(p, es, ClearKey(m))) == multiset(ValidBids(p, fs, ClearKey(m)))
    requires TopsAgree(ValidBids(p, es, ClearKey(m)))
    ensures var s, t := HandleAll(p, retention, EMPTY, es), HandleAll(p, retention, EMPTY, fs);
            && BidsAt(s, ClearKey(m)) == BidsAt(t, ClearKey(m))
            && AnswerIn(p, retention, s, m, now) == AnswerIn(p, retention, t, m, now)
  {
    StoreIsAcceptAll(p, retention, EMPTY, es, ClearKey(m));
    StoreIsAcceptAll(p, retention, EMPTY, fs, ClearKey(m));
    OrderDoesNotMatter(ValidBids(p, es, ClearKey(m)), ValidBids(p, fs, ClearKey(m)));
  }

  /**
   * Between two clears of an auction, what is stored for a bidder is the earliest of its valid bids
   * with its largest nonce, and nothing else.
   */
  lemma StoredBidOfRun(p: Platform, retention: nat, s: Store, es: seq<Delivery>, key: string, k: string)
    requires StoreOk(p, s) && OpenFor(s, es, key) && key !in s.auctions
    ensures var stored, bids := BidsAt(HandleAll(p, retention, s, es), key), ValidBids(p, es, key);
            && (k in stored <==> HasBidder(bids, k))
            && (k in stored ==> exists i: nat :: IsLatest(bids, k, i) && stored[k] == bids[i])
  {
    hide AcceptAll, HasBidder, IsLatest, ValidBids, StoreOk;
    StoreIsAcceptAll(p, retention, s, es, key);
    var i := StoredIsLatest(ValidBids(p, es, key), k);
  }

  /** Accepted nonces strictly increase, and a refused bid leaves every auction's bids as they were. */
  lemma AcceptedNonceIncreases(p: Platform, s: Store, envelope: Option<BidEnvelope>, plaintext: Option<Bytes>, now: nat)
    requires StoreOk(p, s)
    ensures var (t, receipt) := TakeBid(p, s, envelope, plaintext, now);
            if receipt.None? then t.auctions == s.auctions
            else
              var key := AuctionKey(receipt.value.contractAddr, receipt.value.auctionId);
              var k := BidderKey(receipt.value.bidder);
              && k in BidsAt(t, key) && BidsAt(t, key)[k].bid.nonce == receipt.value.nonce
              && BidsAt(t, key)[k].commitment == receipt.value.commitment
              && (k in BidsAt(s, key) ==> BidsAt(s, key)[k].bid.nonce < receipt.value.nonce)
              && (forall x :: x in BidsAt(t, key) && x != k ==>
                    x in BidsAt(s, key) && BidsAt(t, key)[x] == BidsAt(s, key)[x])
              && (forall other :: other != key ==> BidsAt(t, other) == BidsAt(s, other))
  {
    hide ReadBid, AuctionKey, BidderKey, StoreOk, StoreKeyed;
  }

  // ----- auctions do not influence each other -----

  predicate Concerns(p: Platform, e: Delivery, key: string) {
    match e
    case BidArrives(_, _, _) => BidFor(p, e, key).Some?
    case ClearArrives(message, _) => message.Some? && ClearKey(message.value) == key
  }

  /** The two stores are the same for this auction, from this time on. */
  ghost predicate Agree(s: Store, t: Store, key: string, now: nat) {
    && BidsAt(s, key) == BidsAt(t, key)
    && (key in Prune(s.cleared, now) <==> key in Prune(t.cleared, now))
    && (key in Prune(s.cleared, now) ==> s.cleared[key] == t.cleared[key])
  }

  lemma ForeignMessage(p: Platform, retention: nat, s: Store, t: Store, e: Delivery, key: string, now: nat)
    requires StoreOk(p, s) && Agree(s, t, key, now) && now <= e.now && !Concerns(p, e, key)
    ensures Agree(Handle(p, retention, s, e), t, key, e.now)
  {
    hide ReadBid, AuctionKey, BidderKey, ResultOf, StoreOk, StoreKeyed, ReceiptOf;
  }

  lemma OwnBid(p: Platform, retention: nat, s: Store, t: Store, e: Delivery, key: string, now: nat)
    requires StoreOk(p, s) && StoreOk(p, t) && Agree(s, t, key, now) && now <= e.now
    requires e.BidArrives? && Concerns(p, e, key)
    ensures Agree(Handle(p, retention, s, e), Handle(p, retention, t, e), key, e.now)
    ensures TakeBid(p, s, e.envelope, e.plaintext, e.now).1 == TakeBid(p, t, e.envelope, e.plaintext, e.now).1
  {
    hide ReadBid, AuctionKey, BidderKey, StoreOk, StoreKeyed, ReceiptOf;
  }

  lemma OwnClear(p: Platform, retention: nat, s: Store, t: Store, m: ClearMessage, key: string, now: nat, at: nat)
    requires StoreOk(p, s) && StoreOk(p, t) && Agree(s, t, key, now) && now <= at && ClearKey(m) == key
    ensures var e := ClearArrives(Some(m), at); Agree(Handle(p, retention, s, e), Handle(p, retention, t, e), key, at)
    ensures AnswerIn(p, retention, s, m, at) == AnswerIn(p, retention, t, m, at)
  {
    hide ClearKey, ResultOf, StoreOk, StoreKeyed, ValidClear;
    if ValidClear(m) {
      if key in Prune(s.cleared, at) {
        assert key in Prune(t.cleared, at);
      } else {
        assert key !in Prune(t.cleared, at);
      }
    }
  }

  /** Only the messages about one auction. */
  function Own(p: Platform, es: seq<Delivery>, key: string): seq<Delivery> {
    if es == [] then []
    else if Concerns(p, es[0], key) then [es[0]] + Own(p, es[1..], key) else Own(p, es[1..], key)
  }

  predicate ClockRuns(es: seq<Delivery>, now: nat)
    decreases |es|
  {
    es == [] || (now <= es[0].now && ClockRuns(es[1..], es[0].now))
  }

  function LastClock(es: seq<Delivery>, now: nat): nat {
    if es == [] then now else es[|es| - 1].now
  }

  /** Leaving out every message about other auctions changes nothing for this one. */
  lemma {:induction false} Isolation(p: Platform, retention: nat, s: Store, t: Store, es: seq<Delivery>, key: string,
          now: nat)
    requires StoreOk(p, s) && StoreOk(p, t) && Agree(s, t, key, now) && ClockRuns(es, now)
    ensures Agree(HandleAll(p, retention, s, es), HandleAll(p, retention, t, Own(p, es, key)), key, LastClock(es, now))
    decreases |es|
  {
    hide BidFor, Agree, ClearKey;
    if es != [] {
      var e, rest := es[0], es[1..];
      var s' := Handle(p, retention, s, e);
      if Concerns(p, e, key) {
        if e.BidArrives? {
          OwnBid(p, retention, s, t, e, key, now);
        } else {
          OwnClear(p, retention, s, t, e.message.value, key, now, e.now);
        }
        var own := Own(p, es, key);
        assert own[0] == e && own[1..] == Own(p, rest, key);
        Isolation(p, retention, s', Handle(p, retention, t, e), rest, key, e.now);
      } else {
        ForeignMessage(p, retention, s, t, e, key, now);
        Isolation(p, retention, s', t, rest, key, e.now);
      }
    }
  }

  /**
   * The answer to a clear request is the one given had only the messages about that contract and
   * auction ever arrived.
   */
  lemma AnswersAreIsolated(p: Platform, retention: nat, es: seq<Delivery>, m: ClearMessage, now: nat)
    requires ClockRuns(es, 0) && LastClock(es, 0) <= now
    ensures AnswerIn(p, retention, HandleAll(p, retention, EMPTY, es), m, now) ==
            AnswerIn(p, retention, HandleAll(p, retention, EMPTY, Own(p, es, ClearKey(m))), m, now)
    ensures forall e :: e in Own(p, es, ClearKey(m)) ==> About(p, e, m.contractAddr, m.auctionId)
  {
    var key := ClearKey(m);
    Isolation(p, retention, EMPTY, EMPTY, es, key, 0);
    OwnClear(p, retention, HandleAll(p, retention, EMPTY, es), HandleAll(p, retention, EMPTY, Own(p, es, key)), m, key,
             LastClock(es, 0), now);
    OwnConcerns(p, es, key);
    forall e | e in Own(p, es, key)
      ensures About(p, e, m.contractAddr, m.auctionId)
    {
      ConcernsIsAbout(p, e, m);
    }
  }

  /** The message is a valid bid for, or a clear request of, this contract's auction. */
  predicate About(p: Platform, e: Delivery, contractAddr: Address, auctionId: Word) {
    match e
    case BidArrives(envelope, plaintext, _) =>
      var read := ReadBid(p, envelope, plaintext);
      read.Some? && read.value.bid.contractAddr == contractAddr && read.value.bid.auctionId == auctionId
    case ClearArrives(message, _) =>
      message.Some? && message.value.contractAddr == contractAddr && message.value.auctionId == auctionId
  }

  lemma ConcernsIsAbout(p: Platform, e: Delivery, m: ClearMessage)
    ensures Concerns(p, e, ClearKey(m)) <==> About(p, e, m.contractAddr, m.auctionId)
  {
    hide ReadBid, AuctionKey;
    if Concerns(p, e, ClearKey(m)) {
      if e.BidArrives? {
        var bid := ReadBid(p, e.envelope, e.plaintext).value.bid;
        AuctionKeyInjective(bid.contractAddr, bid.auctionId, m.contractAddr, m.auctionId);
      } else {
        AuctionKeyInjective(e.message.value.contractAddr, e.message.value.auctionId, m.contractAddr, m.auctionId);
      }
    }
  }

  lemma {:induction false} OwnConcerns(p: Platform, es: seq<Delivery>, key: string)
    ensures forall e :: e in Own(p, es, key) ==> Concerns(p, e, key)
  {
    if es != [] {
      OwnConcerns(p, es[1..], key);
    }
  }
}
