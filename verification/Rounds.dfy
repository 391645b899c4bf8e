/**
 * What an enclave answers, read off the messages alone: for every stream of messages, whatever the
 * clock does, one auction's rounds of bidding and answering can be counted without any store.
 */
module Rounds {
  import opened Basics
  import opened Messages
  import opened Keys
  import opened Clearing
  import opened EnclaveSpec
  import opened EnclaveRuns

  /** The clear request that closed a round, its place in the stream, and how long its answer is kept. */
  datatype Asked = Asked(index: nat, message: ClearMessage, expiresAt: nat)

  /** The bids of a round are those from `start` on, up to the request that closed it. */
  datatype Round = Round(start: nat, asked: Option<Asked>)

  /** The message gets as far as dropping expired answers. */
  predicate Prunes(p: Platform, e: Delivery) {
    match e
    case BidArrives(envelope, plaintext, _) => ReadBid(p, envelope, plaintext).Some?
    case ClearArrives(message, _) => message.Some? && ValidClear(message.value)
  }

  /** A kept answer is forgotten by the first such message after it expires, and a new round starts with it. */
  function Refresh(p: Platform, r: Round, n: nat, e: Delivery): Round {
    if r.asked.Some? && Prunes(p, e) && r.asked.value.expiresAt <= e.now then Round(n, None) else r
  }

  /** A clear request closes the round unless an answer is still kept. */
  function Close(retention: nat, r: Round, n: nat, e: Delivery, key: string): Round {
    if ClearsKey(e, key) && r.asked.None? then r.(asked := Some(Asked(n, e.message.value, e.now + retention))) else r
  }

  function RoundOf(p: Platform, retention: nat, es: seq<Delivery>, key: string): Round {
    if es == [] then Round(0, None)
    else
      var n, e := |es| - 1, es[|es| - 1];
      Close(retention, Refresh(p, RoundOf(p, retention, es[..n], key), n, e), n, e, key)
  }

  lemma {:induction false} AcceptAllKeyed(xs: seq<StoredBid>)
    ensures WellKeyed(AcceptAll(map[], xs))
    ensures forall k :: k in AcceptAll(map[], xs) ==> AcceptAll(map[], xs)[k] in xs
  {
    hide BidderKey;
    if xs != [] {
      AcceptAllKeyed(xs[..|xs| - 1]);
      assert forall x :: x in xs[..|xs| - 1] ==> x in xs;
    }
  }

  /** The bids stored from these messages, when no answer is kept while they arrive. */
  function BidsOf(p: Platform, es: seq<Delivery>, key: string): Bids {
    AcceptAll(map[], ValidBids(p, es, key))
  }

  /** Clearing exactly the bids that arrived in part of a stream. */
  ghost function ResultFrom(p: Platform, es: seq<Delivery>, m: ClearMessage): ClearResult {
    AcceptAllKeyed(ValidBids(p, es, ClearKey(m)));
    BidsFit(BidsOf(p, es, ClearKey(m)));
    ResultOf(m, BidsOf(p, es, ClearKey(m)))
  }

  /** The answer to a clear request that comes after the stream. */
  ghost function AnswerOf(p: Platform, retention: nat, es: seq<Delivery>, m: ClearMessage, at: nat): ClearResult {
    var r := RoundOf(p, retention, es, ClearKey(m));
    RoundBounds(p, retention, es, ClearKey(m));
    match r.asked
    case None => ResultFrom(p, es[r.start..], m)
    case Some(a) => if at < a.expiresAt then ResultFrom(p, es[r.start..a.index], a.message) else ResultFrom(p, [], m)
  }

  ghost predicate Bounds(es: seq<Delivery>, key: string, r: Round) {
    && r.start <= |es|
    && (r.asked.Some? ==>
          && r.start <= r.asked.value.index < |es|
          && ClearsKey(es[r.asked.value.index], key)
          && es[r.asked.value.index].message == Some(r.asked.value.message))
  }

  lemma {:induction false} RoundBounds(p: Platform, retention: nat, es: seq<Delivery>, key: string)
    ensures Bounds(es, key, RoundOf(p, retention, es, key))
  {
    hide ValidClear, ClearKey, Prunes;
    if es != [] {
      RoundBounds(p, retention, es[..|es| - 1], key);
    }
  }

  // ----- the store agrees with the rounds -----

  /** The store holds what the round says: the bids so far, or the answer that closed it. */
  ghost predicate Shows(p: Platform, s: Store, es: seq<Delivery>, key: string, r: Round) {
    && Bounds(es, key, r)
    && match r.asked
       case None => key !in s.cleared && BidsAt(s, key) == BidsOf(p, es[r.start..], key)
       case Some(a) =>
         && ClearKey(a.message) == key
         && key in s.cleared && s.cleared[key] == Cleared(ResultFrom(p, es[r.start..a.index], a.message), a.expiresAt)
  }

  function Pruned(s: Store, now: nat): Store {
    s.(cleared := Prune(s.cleared, now))
  }

  /** A message that prunes may as well find the store pruned already. */
  lemma PruneFirst(p: Platform, retention: nat, s: Store, e: Delivery)
    requires StoreOk(p, s) && Prunes(p, e)
    ensures StoreOk(p, Pruned(s, e.now)) && Handle(p, retention, s, e) == Handle(p, retention, Pruned(s, e.now), e)
  {
    hide ReadBid, AuctionKey, BidderKey, ResultOf, BidsOk;
    assert Prune(Prune(s.cleared, e.now), e.now) == Prune(s.cleared, e.now);
  }

  lemma BidsOfSnoc(p: Platform, es: seq<Delivery>, e: Delivery, key: string)
    ensures BidsOf(p, es + [e], key) ==
            match BidFor(p, e, key) case None => BidsOf(p, es, key) case Some(b) => Accept(BidsOf(p, es, key), b)
  {
    hide BidFor, Accept;
    assert (es + [e])[..|es|] == es;
    var xs := ValidBids(p, es, key);
    match BidFor(p, e, key)
    case None =>
    case Some(b) => assert (xs + [b])[..|xs|] == xs;
  }

  /** While no answer is kept, a message adds its bid or closes the round. */
  lemma OpenStep(p: Platform, retention: nat, s: Store, es: seq<Delivery>, e: Delivery, key: string, start: nat)
    requires StoreOk(p, s) && Shows(p, s, es, key, Round(start, None))
    ensures Shows(p, Handle(p, retention, s, e), es + [e], key, Close(retention, Round(start, None), |es|, e, key))
  {
    hide BidFor, AuctionKey, Accept, BidsOf, ResultOf;
    assert (es + [e])[start..] == es[start..] + [e];
    if ClearsKey(e, key) {
      ClearStep(p, retention, s, es, e, key, start);
    } else {
      HandleOpen(p, retention, s, e, key);
      BidsOfSnoc(p, es[start..], e, key);
      NotCleared(p, retention, s, e, key);
    }
  }

  lemma NotCleared(p: Platform, retention: nat, s: Store, e: Delivery, key: string)
    requires StoreOk(p, s) && key !in s.cleared && !ClearsKey(e, key)
    ensures key !in Handle(p, retention, s, e).cleared
  {
    hide ReadBid, AuctionKey, BidderKey, ResultOf, StoreOk;
  }

  lemma ClearStep(p: Platform, retention: nat, s: Store, es: seq<Delivery>, e: Delivery, key: string, start: nat)
    requires StoreOk(p, s) && Shows(p, s, es, key, Round(start, None)) && ClearsKey(e, key)
    ensures Shows(p, Handle(p, retention, s, e), es + [e], key, Close(retention, Round(start, None), |es|, e, key))
  {
    hide AuctionKey, ResultOf, BidsOf, StoreOk, StoreKeyed;
    assert (es + [e])[start..|es|] == es[start..];
    assert (es + [e])[|es|] == e;
  }

  /** While an answer is kept, no message about the auction changes anything. */
  lemma KeptStep(p: Platform, retention: nat, s: Store, es: seq<Delivery>, e: Delivery, key: string, r: Round)
    requires StoreOk(p, s) && Shows(p, s, es, key, r) && r.asked.Some?
    requires Prunes(p, e) ==> e.now < r.asked.value.expiresAt
    ensures Shows(p, Handle(p, retention, s, e), es + [e], key, r)
  {
    hide AuctionKey, BidderKey, ResultOf, BidsOf, ReadBid, StoreOk, StoreKeyed;
    var a := r.asked.value;
    assert (es + [e])[r.start..a.index] == es[r.start..a.index];
    assert (es + [e])[a.index] == es[a.index];
  }

  lemma RoundStep(p: Platform, retention: nat, s: Store, es: seq<Delivery>, e: Delivery, key: string, r: Round)
    requires StoreOk(p, s) && Shows(p, s, es, key, r)
    ensures Shows(p, Handle(p, retention, s, e), es + [e], key, Close(retention, Refresh(p, r, |es|, e), |es|, e, key))
  {
    hide Prunes, ClearsKey, Bounds, BidsOf, Handle;
    if r.asked.None? {
      OpenStep(p, retention, s, es, e, key, r.start);
    } else if Prunes(p, e) && r.asked.value.expiresAt <= e.now {
      PruneFirst(p, retention, s, e);
      FreshRound(p, s, es, e.now, key, r);
      OpenStep(p, retention, Pruned(s, e.now), es, e, key, |es|);
    } else {
      KeptStep(p, retention, s, es, e, key, r);
    }
  }

  lemma FreshRound(p: Platform, s: Store, es: seq<Delivery>, now: nat, key: string, r: Round)
    requires StoreOk(p, s) && Shows(p, s, es, key, r) && r.asked.Some? && r.asked.value.expiresAt <= now
    ensures Shows(p, Pruned(s, now), es, key, Round(|es|, None))
  {
    hide AuctionKey, ResultFrom;
    assert es[|es|..] == [];
    assert key !in s.auctions;
  }

  lemma {:induction false} StoreShowsRound(p: Platform, retention: nat, es: seq<Delivery>, key: string)
    ensures Shows(p, HandleAll(p, retention, EMPTY, es), es, key, RoundOf(p, retention, es, key))
  {
    EmptyStoreOk(p);
    hide Shows, Handle, Close, Refresh, StoreOk;
    if es == [] {
      NothingYet(p, key);
    } else {
      var front, e := es[..|es| - 1], es[|es| - 1];
      assert es == front + [e];
      StoreShowsRound(p, retention, front, key);
      HandleAllSnoc(p, retention, EMPTY, front, e);
      RoundStep(p, retention, HandleAll(p, retention, EMPTY, front), front, e, key, RoundOf(p, retention, front, key));
    }
  }

  lemma NothingYet(p: Platform, key: string)
    ensures Shows(p, EMPTY, [], key, Round(0, None))
  {
  }

  /**
   * For every stream of messages, however its clock readings run: what a clear request gets is the
   * result of the bids of one round, the current one, or the one whose answer is still kept.
   */
  lemma AnswerOfStream(p: Platform, retention: nat, es: seq<Delivery>, m: ClearMessage, at: nat)
    requires ValidClear(m)
    ensures AnswerIn(p, retention, HandleAll(p, retention, EMPTY, es), m, at) == Some(AnswerOf(p, retention, es, m, at))
  {
    hide AuctionKey, ResultOf, StoreKeyed;
    var s, key := HandleAll(p, retention, EMPTY, es), ClearKey(m);
    StoreShowsRound(p, retention, es, key);
    assert key in s.cleared ==> BidsAt(s, key) == map[] == BidsOf(p, [], key);
  }

  // ----- a clock that only runs forward -----

  /** The messages from a time on. */
  function From(es: seq<Delivery>, t: nat): seq<Delivery> {
    if es == [] || es[0].now >= t then es else From(es[1..], t)
  }

  lemma {:induction false} ClockBounds(es: seq<Delivery>, now: nat)
    requires ClockRuns(es, now)
    ensures forall i :: 0 <= i < |es| ==> now <= es[i].now <= LastClock(es, now)
    ensures now <= LastClock(es, now)
    decreases |es|
  {
    if es != [] {
      ClockBounds(es[1..], es[0].now);
    }
  }

  lemma {:induction false} FromSplits(es: seq<Delivery>, t: nat, now: nat)
    requires ClockRuns(es, now)
    ensures |From(es, t)| <= |es|
    ensures var k := |es| - |From(es, t)|;
            && From(es, t) == es[k..] && es == es[..k] + es[k..]
            && (forall i :: 0 <= i < k ==> es[i].now < t)
            && (forall i :: k <= i < |es| ==> t <= es[i].now)
    decreases |es|
  {
    if es != [] {
      if es[0].now >= t {
        ClockBounds(es[1..], es[0].now);
      } else {
        var rest := es[1..];
        FromSplits(rest, t, es[0].now);
        SplitHead(es, |rest| - |From(rest, t)|, t);
      }
    }
  }

  lemma SplitHead(es: seq<Delivery>, k: nat, t: nat)
    requires es != [] && k < |es| && es[0].now < t
    requires var rest := es[1..];
             && (forall i :: 0 <= i < k ==> rest[i].now < t)
             && (forall i :: k <= i < |rest| ==> t <= rest[i].now)
    ensures es[1..][k..] == es[k + 1..] && es == es[..k + 1] + es[k + 1..]
    ensures forall i :: 0 <= i < k + 1 ==> es[i].now < t
    ensures forall i :: k + 1 <= i < |es| ==> t <= es[i].now
  {
    assert forall i :: 0 < i < |es| ==> es[i] == es[1..][i - 1];
  }

  lemma {:induction false} HandleAllConcat(p: Platform, retention: nat, s: Store, a: seq<Delivery>, b: seq<Delivery>)
    requires StoreOk(p, s)
    ensures HandleAll(p, retention, s, a + b) == HandleAll(p, retention, HandleAll(p, retention, s, a), b)
    decreases |a|
  {
    hide Handle, StoreOk;
    if a == [] {
      assert a + b == b;
    } else {
      assert (a + b)[1..] == a[1..] + b;
      HandleAllConcat(p, retention, Handle(p, retention, s, a[0]), a[1..], b);
    }
  }

  /** The state after the first answer for an auction and the messages that follow. */
  ghost function AfterFirst(p: Platform, retention: nat, s: Store, first: ClearMessage, now: nat, es: seq<Delivery>)
    : Store
    requires StoreOk(p, s)
    ensures StoreOk(p, AfterFirst(p, retention, s, first, now, es))
  {
    HandleAll(p, retention, Handle(p, retention, s, ClearArrives(Some(first), now)), es)
  }

  /** The answer for the bids that arrive from a time on, and nothing before them. */
  ghost function LateResult(p: Platform, es: seq<Delivery>, m: ClearMessage, t: nat): ClearResult {
    ResultFrom(p, From(es, t), m)
  }

  predicate NoClearFrom(es: seq<Delivery>, key: string, t: nat) {
    forall i :: 0 <= i < |es| && t <= es[i].now ==> !ClearsKey(es[i], key)
  }

  /**
   * With a clock that runs forward, a clear request repeated within the retention window gets the
   * first answer. The first one after it gets the result of the bids that arrived, or arrived again,
   * since the window ended: bids of the first round are gone, but they are not remembered either.
   */
  lemma LaterAnswer(p: Platform, retention: nat, s: Store, first: ClearMessage, now: nat,
                    es: seq<Delivery>, later: ClearMessage, at: nat)
    requires StoreOk(p, s) && ValidClear(first) && ClearKey(first) !in Prune(s.cleared, now)
    requires ValidClear(later) && ClearKey(later) == ClearKey(first)
    requires ClockRuns(es, now) && LastClock(es, now) <= at && NoClearFrom(es, ClearKey(first), now + retention)
    ensures AnswerIn(p, retention, s, first, now).Some?
    ensures AnswerIn(p, retention, AfterFirst(p, retention, s, first, now, es), later, at) ==
            if at < now + retention then AnswerIn(p, retention, s, first, now)
            else Some(LateResult(p, es, later, now + retention))
  {
    hide AuctionKey, LateResult, ValidBids, HandleAll, Handle, AnswerIn, Prune;
    ClockBounds(es, now);
    FirstIsKept(p, retention, s, first, now);
    if at < now + retention {
      CacheIsFaithful(p, retention, s, first, now, es, later, at);
    } else {
      var kept := Handle(p, retention, s, ClearArrives(Some(first), now));
      LateAnswer(p, retention, kept, now, es, later, at, now + retention);
    }
  }

  lemma FirstIsKept(p: Platform, retention: nat, s: Store, first: ClearMessage, now: nat)
    requires StoreOk(p, s) && ValidClear(first) && ClearKey(first) !in Prune(s.cleared, now)
    ensures AnswerIn(p, retention, s, first, now).Some?
    ensures var t := Handle(p, retention, s, ClearArrives(Some(first), now));
            ClearKey(first) in t.cleared && t.cleared[ClearKey(first)].expiresAt == now + retention
  {
    hide AuctionKey, ResultOf, StoreKeyed;
  }

  lemma LateAnswer(p: Platform, retention: nat, s: Store, now: nat, es: seq<Delivery>, later: ClearMessage, at: nat,
          t: nat)
    requires StoreOk(p, s) && ValidClear(later)
    requires ClearKey(later) in s.cleared && s.cleared[ClearKey(later)].expiresAt == t <= at
    requires ClockRuns(es, now) && NoClearFrom(es, ClearKey(later), t)
    ensures AnswerIn(p, retention, HandleAll(p, retention, s, es), later, at) == Some(LateResult(p, es, later, t))
  {
    hide AuctionKey, BidsAt, ResultFrom, Handle, HandleAll, ValidBids, AcceptAll, AnswerIn, StoreOk, From, ClearsKey;
    var key, after := ClearKey(later), From(es, t);
    FromSplits(es, t, now);
    var before := es[..|es| - |after|];
    CachedStays(p, retention, s, before, key);
    var mid := HandleAll(p, retention, s, before);
    HandleAllConcat(p, retention, s, before, after);
    assert forall i :: 0 <= i < |after| ==> after[i] == es[|before| + i];
    StoreIsAcceptAll(p, retention, mid, after, key);
    KeptIsEmpty(p, mid, key);
    FreshAnswer(p, retention, HandleAll(p, retention, mid, after), after, later, at);
  }

  lemma KeptIsEmpty(p: Platform, s: Store, key: string)
    requires StoreOk(p, s) && key in s.cleared
    ensures BidsAt(s, key) == map[]
  {
  }

  /** With no unexpired answer kept, the request is answered from the stored bids. */
  lemma FreshAnswer(p: Platform, retention: nat, s: Store, es: seq<Delivery>, m: ClearMessage, at: nat)
    requires StoreOk(p, s) && ValidClear(m) && BidsAt(s, ClearKey(m)) == BidsOf(p, es, ClearKey(m))
    requires ClearKey(m) in s.cleared ==> s.cleared[ClearKey(m)].expiresAt <= at
    ensures AnswerIn(p, retention, s, m, at) == Some(ResultFrom(p, es, m))
  {
    hide AuctionKey, ResultOf, StoreKeyed, BidsOf;
  }

  /**
   * So the repeated request is answered identically exactly within the window, or when the bids that
   * arrived since happen to give the first result; when none did, the answer is that nobody bid.
   */
  lemma LaterAnswerIff(p: Platform, retention: nat, s: Store, first: ClearMessage, now: nat,
                       es: seq<Delivery>, later: ClearMessage, at: nat)
    requires StoreOk(p, s) && ValidClear(first) && ClearKey(first) !in Prune(s.cleared, now)
    requires ValidClear(later) && ClearKey(later) == ClearKey(first)
    requires ClockRuns(es, now) && LastClock(es, now) <= at && NoClearFrom(es, ClearKey(first), now + retention)
    ensures AnswerIn(p, retention, AfterFirst(p, retention, s, first, now, es), later, at)
            == AnswerIn(p, retention, s, first, now)
            <==> at < now + retention
                 || AnswerIn(p, retention, s, first, now) == Some(LateResult(p, es, later, now + retention))
    ensures at >= now + retention && ValidBids(p, From(es, now + retention), ClearKey(later)) == [] ==>
              AnswerIn(p, retention, AfterFirst(p, retention, s, first, now, es), later, at) == Some(NoBidResult(later))
  {
    hide AuctionKey, ResultOf, AfterFirst, ResultFrom;
    LaterAnswer(p, retention, s, first, now, es, later, at);
    if ValidBids(p, From(es, now + retention), ClearKey(later)) == [] {
      NoBidsNoWinner(p, From(es, now + retention), later);
    }
  }

  lemma NoBidsNoWinner(p: Platform, es: seq<Delivery>, m: ClearMessage)
    requires ValidBids(p, es, ClearKey(m)) == []
    ensures ResultFrom(p, es, m) == NoBidResult(m)
  {
    hide AuctionKey, ValidBids;
    var none: Bids := map[];
    assert BidsOf(p, es, ClearKey(m)) == none;
    assert EligibleKeys(none, m.floorPriceWei, m.ceilingPriceWei) == {};
  }

  /** The clear request comes at this time, after these messages, and is about the same auction. */
  predicate Follows(first: ClearMessage, now: nat, es: seq<Delivery>, later: ClearMessage, at: nat) {
    ValidClear(later) && ClearKey(later) == ClearKey(first) && ClockRuns(es, now) && LastClock(es, now) <= at
  }

  /**
   * What a caller can rely on: if anybody had bid, the first answer is the answer whatever arrived
   * in between exactly as long as the retention window lasts.
   */
  lemma RepeatIsSafeIff(p: Platform, retention: nat, s: Store, first: ClearMessage, now: nat, at: nat)
    requires StoreOk(p, s) && ValidClear(first) && ClearKey(first) !in Prune(s.cleared, now) && now <= at
    requires AnswerIn(p, retention, s, first, now).Some? ==>
               AnswerIn(p, retention, s, first, now).value.submittedBidCount > 0
    ensures at < now + retention <==>
            forall es, later :: Follows(first, now, es, later, at) ==>
              AnswerIn(p, retention, AfterFirst(p, retention, s, first, now, es), later, at)
              == AnswerIn(p, retention, s, first, now)
  {
    hide AuctionKey, ResultOf, AfterFirst, ResultFrom, AnswerIn, ValidClear, Prune;
    if at < now + retention {
      forall es, later | Follows(first, now, es, later, at)
        ensures AnswerIn(p, retention, AfterFirst(p, retention, s, first, now, es), later, at)
                == AnswerIn(p, retention, s, first, now)
      {
        ClockBounds(es, now);
        LaterAnswer(p, retention, s, first, now, es, later, at);
      }
    } else {
      assert Follows(first, now, [], first, at);
      LaterAnswerIff(p, retention, s, first, now, [], first, at);
    }
  }

  // ----- which messages an answer is about -----

  /** The messages of the round that the clear request at this place is answered from. */
  ghost function RoundBefore(p: Platform, retention: nat, es: seq<Delivery>, h: nat, key: string): seq<Delivery>
    requires h < |es|
  {
    var r := RoundOf(p, retention, es[..h], key);
    RoundBounds(p, retention, es[..h], key);
    match r.asked
    case None => es[r.start..h]
    case Some(a) => if es[h].now < a.expiresAt then es[r.start..a.index] else []
  }

  /** Every clear of the auction is this very request. */
  predicate OnlyRequest(es: seq<Delivery>, m: ClearMessage) {
    forall i :: 0 <= i < |es| && ClearsKey(es[i], ClearKey(m)) ==> es[i].message == Some(m)
  }

  lemma AnswerOfRound(p: Platform, retention: nat, es: seq<Delivery>, h: nat, m: ClearMessage)
    requires h < |es| && OnlyRequest(es, m)
    ensures AnswerOf(p, retention, es[..h], m, es[h].now) ==
            ResultFrom(p, RoundBefore(p, retention, es, h, ClearKey(m)), m)
    ensures forall e :: e in RoundBefore(p, retention, es, h, ClearKey(m)) ==> e in es
  {
    hide ResultFrom, ClearsKey, ClearKey;
    var r := RoundOf(p, retention, es[..h], ClearKey(m));
    RoundBounds(p, retention, es[..h], ClearKey(m));
    match r.asked
    case None => assert es[..h][r.start..] == es[r.start..h];
    case Some(a) =>
      assert es[..h][r.start..a.index] == es[r.start..a.index];
      assert es[..h][a.index] == es[a.index];
  }

  predicate IsFirstClear(es: seq<Delivery>, key: string, f: nat) {
    f < |es| && ClearsKey(es[f], key) && forall i :: 0 <= i < f ==> !ClearsKey(es[i], key)
  }

  lemma {:induction false} FirstClearExists(es: seq<Delivery>, key: string, h: nat) returns (f: nat)
    requires h < |es| && ClearsKey(es[h], key)
    ensures IsFirstClear(es, key, f) && f <= h
  {
    hide ClearsKey;
    f := h;
    if i :| 0 <= i < h && ClearsKey(es[i], key) {
      f := FirstClearExists(es, key, i);
    }
  }

  lemma {:induction false} FirstRound(p: Platform, retention: nat, es: seq<Delivery>, key: string)
    requires forall i :: 0 <= i < |es| ==> !ClearsKey(es[i], key)
    ensures RoundOf(p, retention, es, key) == Round(0, None)
  {
    hide ClearsKey, Prunes;
    if es != [] {
      FirstRound(p, retention, es[..|es| - 1], key);
    }
  }

  lemma {:induction false} FirstRoundKept(p: Platform, retention: nat, es: seq<Delivery>, key: string, f: nat)
    requires IsFirstClear(es, key, f)
    requires forall i :: f < i < |es| ==> es[i].now < es[f].now + retention
    ensures RoundOf(p, retention, es, key) == Round(0, Some(Asked(f, es[f].message.value, es[f].now + retention)))
    decreases |es|
  {
    hide Prunes;
    var n := |es| - 1;
    if f == n {
      FirstRound(p, retention, es[..n], key);
    } else {
      assert es[..n][f] == es[f];
      FirstRoundKept(p, retention, es[..n], key, f);
    }
  }

  /** The clock runs forward, and every clear of the auction comes in the retention window of its first one. */
  predicate OnTime(retention: nat, es: seq<Delivery>, key: string) {
    && ClockRuns(es, 0)
    && forall f, h :: 0 <= f < h < |es| && ClearsKey(es[f], key) && ClearsKey(es[h], key) ==>
         es[h].now < es[f].now + retention
  }

  lemma {:induction false} ClockOrders(es: seq<Delivery>, now: nat, i: nat, k: nat)
    requires ClockRuns(es, now) && i <= k < |es|
    ensures es[i].now <= es[k].now
    decreases |es|
  {
    if i == 0 {
      ClockBounds(es[1..], es[0].now);
      assert k > 0 ==> es[k] == es[1..][k - 1];
    } else {
      ClockOrders(es[1..], es[0].now, i - 1, k - 1);
    }
  }

  /** Then every clear is answered from what arrived before the first one. */
  lemma OnTimeRound(p: Platform, retention: nat, es: seq<Delivery>, h: nat, key: string) returns (f: nat)
    requires OnTime(retention, es, key) && h < |es| && ClearsKey(es[h], key)
    ensures IsFirstClear(es, key, f) && RoundBefore(p, retention, es, h, key) == es[..f]
  {
    hide ClearsKey, ClockRuns;
    f := FirstClearExists(es, key, h);
    if f == h {
      FirstRound(p, retention, es[..h], key);
    } else {
      forall i | f < i < h
        ensures es[i].now < es[f].now + retention
      {
        ClockOrders(es, 0, i, h);
      }
      assert IsFirstClear(es[..h], key, f);
      FirstRoundKept(p, retention, es[..h], key, f);
    }
  }

  lemma {:induction false} ValidBidsArrived(p: Platform, es: seq<Delivery>, key: string, b: StoredBid)
    requires b in ValidBids(p, es, key)
    ensures exists e :: e in es && BidFor(p, e, key) == Some(b)
  {
    hide BidFor;
    var front, e := es[..|es| - 1], es[|es| - 1];
    if BidFor(p, e, key) == Some(b) {
      assert e in es;
    } else {
      ValidBidsArrived(p, front, key, b);
      var e' :| e' in front && BidFor(p, e', key) == Some(b);
      assert e' in es;
    }
  }

  /** The bids of a round are keyed by bidder, and each is a valid bid for the auction that arrived in it. */
  lemma BidsOfArrived(p: Platform, es: seq<Delivery>, key: string)
    ensures WellKeyed(BidsOf(p, es, key))
    ensures var bids := BidsOf(p, es, key);
            forall k :: k in bids ==>
              StoredOk(p, key, k, bids[k]) && exists e :: e in es && BidFor(p, e, key) == Some(bids[k])
  {
    hide AcceptAll, ValidBids, BidderKey, AuctionKey, StoredOk;
    var xs := ValidBids(p, es, key);
    AcceptAllKeyed(xs);
    var bids := BidsOf(p, es, key);
    forall k | k in bids
      ensures StoredOk(p, key, k, bids[k]) && exists e :: e in es && BidFor(p, e, key) == Some(bids[k])
    {
      ValidBidsArrived(p, es, key, bids[k]);
      var e :| e in es && BidFor(p, e, key) == Some(bids[k]);
      ReadBidOk(p, e.envelope, e.plaintext);
    }
  }

  // ----- a losing bid can win later -----

  lemma TwoBids(p: Platform, ea: Delivery, eb: Delivery, m: ClearMessage, a: StoredBid, b: StoredBid)
    requires BidFor(p, ea, ClearKey(m)) == Some(a) && BidFor(p, eb, ClearKey(m)) == Some(b)
    requires InCollar(a, m.floorPriceWei, m.ceilingPriceWei) && InCollar(b, m.floorPriceWei, m.ceilingPriceWei)
    requires a.bid.bidder != b.bid.bidder && Beats(b, a)
    ensures ResultFrom(p, [ea, eb], m) == WonBy(m, b, 2)
    ensures ResultFrom(p, [ea], m) == WonBy(m, a, 1)
  {
    hide BidFor, AuctionKey, BidderKey, BidsOf, ResultOf;
    var key := ClearKey(m);
    var ka, kb := BidderKey(a.bid.bidder), BidderKey(b.bid.bidder);
    if ka == kb {
      AddressTextOfKey(a.bid.bidder, b.bid.bidder);
    }
    var one, two: Bids := map[ka := a], map[ka := a, kb := b];
    FirstTwo(p, ea, eb, key, a, b);
    OnlyWinner(m, one, ka, {ka});
    OnlyWinner(m, two, kb, {ka, kb});
  }

  lemma FirstTwo(p: Platform, ea: Delivery, eb: Delivery, key: string, a: StoredBid, b: StoredBid)
    requires BidFor(p, ea, key) == Some(a) && BidFor(p, eb, key) == Some(b)
    requires BidderKey(a.bid.bidder) != BidderKey(b.bid.bidder)
    ensures BidsOf(p, [ea], key) == map[BidderKey(a.bid.bidder) := a]
    ensures BidsOf(p, [ea, eb], key) == map[BidderKey(a.bid.bidder) := a, BidderKey(b.bid.bidder) := b]
  {
    hide BidFor, BidderKey;
    assert BidsOf(p, [], key) == map[];
    BidsOfSnoc(p, [], ea, key);
    assert [] + [ea] == [ea];
    BidsOfSnoc(p, [ea], eb, key);
    assert [ea] + [eb] == [ea, eb];
  }

  function WonBy(m: ClearMessage, b: StoredBid, count: Word): ClearResult {
    ClearResult(m.contractAddr, m.auctionId, b.bid.bidder, b.bid.unitPriceWei, b.bid.nonce, b.commitment, count, count)
  }

  lemma OnlyWinner(m: ClearMessage, bids: Bids, k: string, keys: set<string>)
    requires WellKeyed(bids) && bids.Keys == keys && k in bids && |keys| <= MAX_WORD
    requires forall j :: j in bids ==> InCollar(bids[j], m.floorPriceWei, m.ceilingPriceWei)
    requires forall j :: j in bids && j != k ==> Beats(bids[k], bids[j])
    ensures |bids| == |keys| && ResultOf(m, bids) == WonBy(m, bids[k], |keys|)
  {
    assert |bids| == |bids.Keys|;
    assert EligibleKeys(bids, m.floorPriceWei, m.ceilingPriceWei) == keys;
    WinnerIsArgmax(bids, m.floorPriceWei, m.ceilingPriceWei);
    assert IsBest(bids, keys, k);
  }

  /** Of two bids by one bidder with one nonce the first to arrive counts, so here the order decides the result. */
  lemma FirstOfTwo(p: Platform, retention: nat, ea: Delivery, eb: Delivery, m: ClearMessage, a: StoredBid, b: StoredBid,
                   now: nat)
    requires BidFor(p, ea, ClearKey(m)) == Some(a) && BidFor(p, eb, ClearKey(m)) == Some(b) && ValidClear(m)
    requires InCollar(a, m.floorPriceWei, m.ceilingPriceWei)
    requires a.bid.bidder == b.bid.bidder && a.bid.nonce == b.bid.nonce
    ensures var s := HandleAll(p, retention, EMPTY, [ea, eb]);
            && BidsAt(s, ClearKey(m)) == map[BidderKey(a.bid.bidder) := a]
            && AnswerIn(p, retention, s, m, now) == Some(WonBy(m, a, 1))
  {
    hide BidFor, AuctionKey, BidderKey, ResultOf, HandleAll, Handle, AcceptAll;
    var key, k := ClearKey(m), BidderKey(a.bid.bidder);
    var es := [ea, eb];
    BidClearsNothing(p, ea, key);
    BidClearsNothing(p, eb, key);
    assert BidsOf(p, es, key) == map[k := a] by {
      OneOfTwo(p, ea, eb, key, a, b);
    }
    OnlyWinner(m, map[k := a], k, {k});
    StoreIsAcceptAll(p, retention, EMPTY, es, key);
    AnswerOfStream(p, retention, es, m, now);
    FirstRound(p, retention, es, key);
    assert es[0..] == es;
  }

  lemma OneOfTwo(p: Platform, ea: Delivery, eb: Delivery, key: string, a: StoredBid, b: StoredBid)
    requires BidFor(p, ea, key) == Some(a) && BidFor(p, eb, key) == Some(b)
    requires a.bid.bidder == b.bid.bidder && a.bid.nonce == b.bid.nonce
    ensures BidsOf(p, [ea, eb], key) == map[BidderKey(a.bid.bidder) := a]
  {
    hide BidFor, BidderKey;
    assert BidsOf(p, [], key) == map[];
    BidsOfSnoc(p, [], ea, key);
    assert [] + [ea] == [ea];
    BidsOfSnoc(p, [ea], eb, key);
    assert [ea] + [eb] == [ea, eb];
  }

  function At(e: Delivery, now: nat): Delivery {
    e.(now := now)
  }

  /** Two bids, a clear, and when its answer has expired the losing bid once more. */
  function Replayed(ea: Delivery, eb: Delivery, m: ClearMessage, retention: nat): seq<Delivery> {
    [At(ea, 0), At(eb, 0), ClearArrives(Some(m), 0), At(ea, retention)]
  }

  /**
   * So repeating the request does not always repeat the answer: whichever two bids compete, and
   * however long answers are kept, the loser delivered again after that is the next winner.
   */
  lemma LateWinner(p: Platform, retention: nat, ea: Delivery, eb: Delivery, m: ClearMessage, a: StoredBid, b: StoredBid)
    requires BidFor(p, ea, ClearKey(m)) == Some(a) && BidFor(p, eb, ClearKey(m)) == Some(b) && ValidClear(m)
    requires InCollar(a, m.floorPriceWei, m.ceilingPriceWei) && InCollar(b, m.floorPriceWei, m.ceilingPriceWei)
    requires a.bid.bidder != b.bid.bidder && Beats(b, a)
    ensures var es := Replayed(ea, eb, m, retention);
            && AnswerIn(p, retention, HandleAll(p, retention, EMPTY, es[..2]), m, 0) == Some(WonBy(m, b, 2))
            && AnswerIn(p, retention, HandleAll(p, retention, EMPTY, es), m, retention) == Some(WonBy(m, a, 1))
  {
    hide ResultFrom, BidFor, ClearKey, ValidClear, Beats, InCollar, HandleAll, AnswerIn;
    var es, key := Replayed(ea, eb, m, retention), ClearKey(m);
    assert BidFor(p, At(ea, 0), key) == BidFor(p, At(ea, retention), key) == Some(a)
           && BidFor(p, At(eb, 0), key) == Some(b) by {
      BidForAt(p, ea, key, 0);
      BidForAt(p, ea, key, retention);
      BidForAt(p, eb, key, 0);
    }
    TwoBids(p, At(ea, 0), At(eb, 0), m, a, b);
    TwoBids(p, At(ea, retention), At(eb, 0), m, a, b);
    var first := es[..2];
    assert first == [At(ea, 0), At(eb, 0)];
    AnswerOfStream(p, retention, first, m, 0);
    BidClearsNothing(p, At(ea, 0), key);
    BidClearsNothing(p, At(eb, 0), key);
    FirstRound(p, retention, first, key);
    assert first[0..] == first;
    LateStream(p, retention, es, m);
  }

  lemma BidForAt(p: Platform, e: Delivery, key: string, now: nat)
    ensures BidFor(p, At(e, now), key) == BidFor(p, e, key)
  {
  }

  lemma BidClearsNothing(p: Platform, e: Delivery, key: string)
    requires BidFor(p, e, key).Some?
    ensures !ClearsKey(e, key) && Prunes(p, e)
  {
  }

  /** A clear after two messages, then one message when its answer has expired: only that one counts. */
  lemma LateStream(p: Platform, retention: nat, es: seq<Delivery>, m: ClearMessage)
    requires |es| == 4 && es[2] == ClearArrives(Some(m), 0) && ValidClear(m)
    requires !ClearsKey(es[0], ClearKey(m)) && !ClearsKey(es[1], ClearKey(m)) && !ClearsKey(es[3], ClearKey(m))
    requires es[3].now == retention && Prunes(p, es[3])
    ensures AnswerIn(p, retention, HandleAll(p, retention, EMPTY, es), m, retention) == Some(ResultFrom(p, [es[3]], m))
  {
    hide ResultFrom, Prunes, AuctionKey, HandleAll, AnswerIn;
    var key := ClearKey(m);
    AnswerOfStream(p, retention, es, m, retention);
    FirstRoundKept(p, retention, es[..3], key, 2);
    assert RoundOf(p, retention, es, key) == Round(3, None);
    assert es[3..] == [es[3]];
  }
}
