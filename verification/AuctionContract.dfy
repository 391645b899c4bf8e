/**
 * The contracts as they run: storage fields that each call checks and updates in the source's order,
 * undone as a whole when the call reverts. Every method is proved to do what `AuctionSpec` says.
 */
module AuctionContract {
  import opened Basics
  import opened Sums
  import opened Tokens
  import opened Messages
  import opened Quote
  import opened AuctionSpec
  import Digest
  import Solvency

  /** A token contract; `allowance` is what each account lets the auction contract take. */
  class Erc20 {
    var balanceOf: map<Address, nat>
    var allowance: map<Address, nat>

    function State(): Token
      reads this
    {
      Token(balanceOf, allowance)
    }

    constructor (balances: map<Address, nat>, allowances: map<Address, nat>)
      ensures State() == Token(balances, allowances)
    {
      balanceOf, allowance := balances, allowances;
    }

    method Set(t: Token)
      modifies this
      ensures State() == t
    {
      balanceOf, allowance := t.balances, t.allowances;
    }

    /** Moves the exact amount or does nothing. */
    method MoveTokens(from: Address, to: Address, amount: nat) returns (ok: bool)
      modifies this
      ensures ok == Move(old(State()), from, to, amount).Some?
      ensures State() == if ok then Move(old(State()), from, to, amount).value else old(State())
    {
      if Get(balanceOf, from) < amount {
        return false;
      }
      var before := balanceOf;
      balanceOf := balanceOf[from := Get(balanceOf, from) - amount];
      if Get(balanceOf, to) + amount > MAX_WORD {
        balanceOf := before;
        return false;
      }
      balanceOf := balanceOf[to := Get(balanceOf, to) + amount];
      return true;
    }

    method TransferFrom(from: Address, spender: Address, amount: nat) returns (ok: bool)
      modifies this
      ensures ok == Tokens.TransferFrom(old(State()), from, spender, amount).Some?
      ensures State() == if ok then Tokens.TransferFrom(old(State()), from, spender, amount).value else old(State())
    {
      var approved := Get(allowance, from);
      if approved < amount {
        return false;
      }
      var before := allowance;
      if approved != MAX_WORD {
        allowance := allowance[from := approved - amount];
      }
      ok := MoveTokens(from, spender, amount);
      if !ok {
        allowance := before;
      }
    }
  }

  class QuietFillAuction {
    const deployment: Deployment
    const baseToken: Erc20
    const quoteToken: Erc20

    var nextAuctionId: Word
    var extensionId: nat
    var entered: bool
    var auctions: map<Word, Auction>
    var quoteEscrow: map<Slot, nat>

    /** The tokens differ, as the deployment tool demands. */
    ghost predicate Valid() {
      baseToken != quoteToken
    }

    function State(): Chain
      reads this, baseToken, quoteToken
    {
      Chain(extensionId, entered, nextAuctionId, auctions, quoteEscrow, Ledger(baseToken.State(), quoteToken.State()))
    }

    constructor (d: Deployment, base: Erc20, quote: Erc20)
      requires base != quote
      ensures Valid() && deployment == d && baseToken == base && quoteToken == quote
      ensures State() == Chain(0, false, 1, map[], map[], Ledger(base.State(), quote.State()))
    {
      deployment, baseToken, quoteToken := d, base, quote;
      nextAuctionId, extensionId, entered, auctions, quoteEscrow := 1, 0, false, map[], map[];
    }

    /** The whole deployment: refused for an address of a registry or token that is zero or holds no code. */
    static method Deploy(d: Deployment, codeLength: Address -> nat, extensionRegistry: Address,
                         machineRegistry: Address, baseAddress: Address, quoteAddress: Address,
                         base: Erc20, quote: Erc20)
      returns (c: QuietFillAuction?)
      requires base != quote
      ensures c != null <==> forall a :: a in [extensionRegistry, machineRegistry, baseAddress, quoteAddress] ==>
                               a != 0 && codeLength(a) > 0
      ensures c != null ==>
                && fresh(c) && c.Valid() && c.deployment == d && c.baseToken == base && c.quoteToken == quote
                && c.State() == Chain(0, false, 1, map[], map[], Ledger(base.State(), quote.State()))
    {
      ghost var all := [extensionRegistry, machineRegistry, baseAddress, quoteAddress];
      assert all[0] in all && all[1] in all && all[2] in all && all[3] in all;
      if extensionRegistry == ZERO_ADDRESS || machineRegistry == ZERO_ADDRESS
         || baseAddress == ZERO_ADDRESS || quoteAddress == ZERO_ADDRESS {
        return null;
      }
      if codeLength(extensionRegistry) == 0 || codeLength(machineRegistry) == 0
         || codeLength(baseAddress) == 0 || codeLength(quoteAddress) == 0 {
        return null;
      }
      c := new QuietFillAuction(d, base, quote);
    }

    /** The call did what the outcome says: committed with its new state, or reverted with the old one. */
    ghost predicate Did(before: Chain, o: Outcome, ok: bool)
      reads this, baseToken, quoteToken
    {
      ok == o.Committed? && State() == if o.Committed? then o.chain else before
    }

    /** A revert undoes every write of the call, in the contract and in the tokens. */
    method Revert(saved: Chain)
      requires Valid()
      modifies this, baseToken, quoteToken
      ensures State() == saved
    {
      extensionId, entered, nextAuctionId := saved.extensionId, saved.entered, saved.nextAuctionId;
      auctions, quoteEscrow := saved.auctions, saved.escrow;
      baseToken.Set(saved.ledger.base);
      quoteToken.Set(saved.ledger.quote);
    }

    /** Token calls are made only while the re-entrancy guard is set. */
    method SafeTransfer(asset: Asset, to: Address, amount: nat) returns (ok: bool)
      requires Valid() && entered
      modifies baseToken, quoteToken
      ensures var paid := Pay(deployment.self, old(State()).ledger, Push(asset, to, amount));
              ok == paid.Some? && State() == if ok then old(State()).(ledger := paid.value) else old(State())
    {
      if asset == Base {
        ok := baseToken.MoveTokens(deployment.self, to, amount);
      } else {
        ok := quoteToken.MoveTokens(deployment.self, to, amount);
      }
    }

    method SafeTransferFrom(asset: Asset, from: Address, amount: nat) returns (ok: bool)
      requires Valid() && entered
      modifies baseToken, quoteToken
      ensures var paid := Pay(deployment.self, old(State()).ledger, Pull(asset, from, amount));
              ok == paid.Some? && State() == if ok then old(State()).(ledger := paid.value) else old(State())
    {
      if asset == Base {
        ok := baseToken.TransferFrom(from, deployment.self, amount);
      } else {
        ok := quoteToken.TransferFrom(from, deployment.self, amount);
      }
    }

    lemma PayOne(l: Ledger, p: Payment)
      ensures PayAll(deployment.self, l, [p]) == Pay(deployment.self, l, p)
    {
      assert [p][1..] == [];
    }

    /**
     * `setExtensionId`: the first registered id is kept, the search runs from the first public one.
     * The registry's answers are `nextId`, `None` if that call reverts, and `senders`, which leaves
     * out the ids for which the call reverts.
     */
    method SetExtensionId(nextId: Option<nat>, senders: map<nat, Address>) returns (ok: bool)
      modifies this
      ensures Did(old(State()), SetExtension(deployment, old(State()), nextId, senders), ok)
    {
      if extensionId != 0 || nextId.None? {
        return false;
      }
      var id := FIRST_PUBLIC_EXTENSION_ID;
      while id < nextId.value
        invariant State() == old(State())
        invariant FIRST_PUBLIC_EXTENSION_ID <= id
        invariant FirstRegistered(FIRST_PUBLIC_EXTENSION_ID, nextId.value, senders, deployment.self) ==
                  FirstRegistered(id, nextId.value, senders, deployment.self)
        decreases nextId.value - id
      {
        if id !in senders {
          return false;
        }
        if senders[id] == deployment.self {
          extensionId := id;
          return true;
        }
        id := id + 1;
      }
      return false;
    }

    method CreateAuction(now: nat, sender: Address, baseAmount: Word, floorPriceWei: Word, ceilingPriceWei: Word,
                         bidDeadline: Uint64, settleDeadline: Uint64, teeIds: Option<seq<Address>>)
      returns (ok: bool, auctionId: Word)
      requires Valid()
      modifies this, baseToken, quoteToken
      ensures Did(old(State()), Create(deployment, old(State()), now, sender, baseAmount, floorPriceWei,
                                       ceilingPriceWei, bidDeadline, settleDeadline, teeIds), ok)
      ensures ok ==> auctionId == old(nextAuctionId)
    {
      auctionId := 0;
      ok := false;
      if entered {
        return;
      }
      var saved := State();
      entered := true;
      if baseAmount == 0 || floorPriceWei == 0 || ceilingPriceWei < floorPriceWei
         || baseAmount > MAX_COMPONENT || floorPriceWei > MAX_COMPONENT || ceilingPriceWei > MAX_COMPONENT
         || bidDeadline <= now || settleDeadline <= bidDeadline {
        Revert(saved);
        return;
      }
      var maxQuoteAmount := CheckedQuoteFor(baseAmount, ceilingPriceWei);
      if maxQuoteAmount.None? || extensionId == 0 || teeIds.None? || |teeIds.value| != 1
         || teeIds.value[0] == ZERO_ADDRESS || nextAuctionId >= MAX_WORD {
        Revert(saved);
        return;
      }
      auctionId := nextAuctionId;
      nextAuctionId := nextAuctionId + 1;
      auctions := auctions[auctionId := NewAuction(sender, teeIds.value[0], baseAmount, floorPriceWei, ceilingPriceWei,
                                                   maxQuoteAmount.value, bidDeadline, settleDeadline)];
      PayOne(State().ledger, Pull(Base, sender, baseAmount));
      ok := SafeTransferFrom(Base, sender, baseAmount);
      if !ok {
        Revert(saved);
        return;
      }
      entered := false;
    }

    method SubmitPrivateBid(now: nat, sender: Address, auctionId: Word, encryptedBid: Bytes,
                            instructionId: Option<Word>)
      returns (ok: bool, sent: Option<Instruction>)
      requires Valid()
      modifies this, baseToken, quoteToken
      ensures Did(old(State()), Submit(deployment, old(State()), now, sender, auctionId, encryptedBid,
                                       instructionId), ok)
      ensures ok ==> sent == Submit(deployment, old(State()), now, sender, auctionId, encryptedBid, instructionId).sent
    {
      sent := None;
      ok := false;
      if entered {
        return;
      }
      var saved := State();
      entered := true;
      if auctionId !in auctions || auctions[auctionId].phase != Open || now >= auctions[auctionId].bidDeadline
         || |encryptedBid| == 0 || |encryptedBid| > MAX_ENCRYPTED_BID_BYTES {
        Revert(saved);
        return;
      }
      var auction := auctions[auctionId];
      if Get(quoteEscrow, (auctionId, sender)) == 0 {
        quoteEscrow := quoteEscrow[(auctionId, sender) := auction.maxQuoteAmount];
        PayOne(State().ledger, Pull(Quote, sender, auction.maxQuoteAmount));
        var paid := SafeTransferFrom(Quote, sender, auction.maxQuoteAmount);
        if !paid {
          Revert(saved);
          return;
        }
      }
      if instructionId.None? {
        Revert(saved);
        return;
      }
      sent := Some(Instruction(instructionId.value, auction.teeId, auctionId, BidPayload(sender, encryptedBid)));
      ok := true;
      entered := false;
    }

    method RequestClear(now: nat, auctionId: Word, instructionId: Option<Word>)
      returns (ok: bool, sent: Option<Instruction>)
      requires Valid()
      modifies this, baseToken, quoteToken
      ensures Did(old(State()), Clear(deployment, old(State()), now, auctionId, instructionId), ok)
      ensures ok ==> sent == Clear(deployment, old(State()), now, auctionId, instructionId).sent
    {
      sent := None;
      ok := false;
      if entered {
        return;
      }
      var saved := State();
      entered := true;
      if auctionId !in auctions || auctions[auctionId].phase != Open
         || now < auctions[auctionId].bidDeadline || now > auctions[auctionId].settleDeadline || instructionId.None? {
        Revert(saved);
        return;
      }
      var auction := auctions[auctionId];
      sent := Some(Instruction(instructionId.value, auction.teeId, auctionId,
                               ClearPayload(deployment.self, auction.floorPriceWei, auction.ceilingPriceWei)));
      auctions := auctions[auctionId := auctions[auctionId].(clearInstructionId := instructionId.value)];
      auctions := auctions[auctionId := auctions[auctionId].(phase := ClearRequested)];
      ok := true;
      entered := false;
    }

    /**
     * `teeClearDigest`: what the machine must have signed. Refused for an auction that still takes
     * bids; no other result, clear instruction or chain has the same digest, collisions aside.
     */
    method TeeClearDigest(auctionId: Word, result: ClearResult) returns (digest: Option<Word>)
      ensures Solvency.WellFormed(deployment, State()) && auctionId in auctions && auctions[auctionId].phase == Open ==>
                digest.None?
      ensures forall signature ::
                && auctionId in auctions && digest.Some?
                && deployment.platform.recover(digest.value, signature) == Some(auctions[auctionId].teeId)
                <==> auctionId in auctions && SignedByPinned(deployment, auctions[auctionId], result, signature)
      ensures digest.Some? <==> auctionId in auctions && auctions[auctionId].clearInstructionId != 0
      ensures digest.Some? ==>
                digest.value == Digest.ClearDigest(deployment.platform.keccak, result,
                                                   auctions[auctionId].clearInstructionId, deployment.chainId)
      ensures digest.Some? ==>
                forall r, i, c :: Digest.ClearDigest(deployment.platform.keccak, r, i, c) == digest.value ==>
                  || (r == result && i == auctions[auctionId].clearInstructionId && c == deployment.chainId)
                  || Digest.LayersCollide(deployment.platform.keccak, r, i, c, result,
                                          auctions[auctionId].clearInstructionId, deployment.chainId)
    {
      if auctionId !in auctions || auctions[auctionId].clearInstructionId == 0 {
        return None;
      }
      var clearId, k := auctions[auctionId].clearInstructionId, deployment.platform.keccak;
      forall r, i, c | Digest.ClearDigest(k, r, i, c) == Digest.ClearDigest(k, result, clearId, deployment.chainId)
        ensures (r == result && i == clearId && c == deployment.chainId)
                || Digest.LayersCollide(k, r, i, c, result, clearId, deployment.chainId)
      {
        Digest.DigestPinsResult(k, r, i, c, result, clearId, deployment.chainId);
      }
      assert Solvency.WellFormed(deployment, State()) ==> Solvency.AuctionOk(deployment, auctions[auctionId]);
      return Some(Digest.ClearDigest(k, result, clearId, deployment.chainId));
    }

    method SettleAuction(now: nat, auctionId: Word, result: ClearResult, signature: Bytes) returns (ok: bool)
      requires Valid()
      modifies this, baseToken, quoteToken
      ensures Did(old(State()), Settle(deployment, old(State()), now, auctionId, result, signature), ok)
    {
      ok := false;
      if entered {
        return;
      }
      var saved := State();
      entered := true;
      if auctionId !in auctions || auctions[auctionId].phase != ClearRequested
         || now > auctions[auctionId].settleDeadline
         || result.contractAddr != deployment.self || result.auctionId != auctionId
         || result.eligibleBidCount > result.submittedBidCount {
        Revert(saved);
        return;
      }
      var digest := TeeClearDigest(auctionId, result);
      if digest.None? || deployment.platform.recover(digest.value, signature) != Some(auctions[auctionId].teeId) {
        Revert(saved);
        return;
      }
      if result.winner == ZERO_ADDRESS {
        ok := SettleNoFill(saved, auctionId, result);
      } else {
        ok := SettleFill(saved, auctionId, result);
      }
    }

    /** The part of `settleAuction` after the signature check, when the result names no winner. */
    method SettleNoFill(saved: Chain, auctionId: Word, result: ClearResult) returns (ok: bool)
      requires Valid() && State() == saved.(entered := true) && !saved.entered && auctionId in auctions
      modifies this, baseToken, quoteToken
      ensures var a := saved.auctions[auctionId].(submittedBidCount := result.submittedBidCount,
                                                  eligibleBidCount := result.eligibleBidCount, phase := NoFill);
              Did(saved,
                  if result.unitPriceWei == 0 && result.winningNonce == 0 && result.winningCommitment == 0
                     && result.eligibleBidCount == 0
                  then Commit(deployment, saved.(auctions := saved.auctions[auctionId := a]),
                              [Push(Base, a.seller, a.baseAmount)], None)
                  else Reverted, ok)
    {
      ok := false;
      var auction := auctions[auctionId];
      auctions := auctions[auctionId := auction.(submittedBidCount := result.submittedBidCount,
                                                 eligibleBidCount := result.eligibleBidCount)];
      if result.unitPriceWei != 0 || result.winningNonce != 0 || result.winningCommitment != 0
         || result.eligibleBidCount != 0 {
        Revert(saved);
        return;
      }
      auctions := auctions[auctionId := auctions[auctionId].(phase := NoFill)];
      PayOne(State().ledger, Push(Base, auction.seller, auction.baseAmount));
      ok := SafeTransfer(Base, auction.seller, auction.baseAmount);
      if !ok {
        Revert(saved);
        return;
      }
      entered := false;
    }

    /** What the rest of `settleAuction` comes to when the result names a winner. */
    ghost function FillOutcome(saved: Chain, auctionId: Word, result: ClearResult): Outcome
      requires auctionId in saved.auctions
    {
      var a := saved.auctions[auctionId].(submittedBidCount := result.submittedBidCount,
                                          eligibleBidCount := result.eligibleBidCount);
      var quotePaid := CheckedQuoteFor(a.baseAmount, result.unitPriceWei);
      if || result.unitPriceWei < a.floorPriceWei || result.unitPriceWei > a.ceilingPriceWei
         || result.winningNonce == 0 || result.winningCommitment == 0 || result.eligibleBidCount == 0
         || EscrowOf(saved, auctionId, result.winner) != a.maxQuoteAmount
         || quotePaid.None? || quotePaid.value > a.maxQuoteAmount
      then Reverted
      else Commit(deployment,
                  saved.(auctions := saved.auctions[auctionId :=
                           a.(winner := result.winner, clearingPriceWei := result.unitPriceWei,
                              quotePaid := quotePaid.value, phase := Settled)],
                         escrow := saved.escrow[(auctionId, result.winner) := 0]),
                  SettlementPayments(a, result.winner, quotePaid.value), None)
    }

    method SettleFill(saved: Chain, auctionId: Word, result: ClearResult) returns (ok: bool)
      requires Valid() && State() == saved.(entered := true) && !saved.entered && auctionId in auctions
      modifies this, baseToken, quoteToken
      ensures Did(saved, FillOutcome(saved, auctionId, result), ok)
    {
      hide PayAll, CheckedQuoteFor, SettlementPayments;
      ok := false;
      auctions := auctions[auctionId := auctions[auctionId].(submittedBidCount := result.submittedBidCount,
                                                             eligibleBidCount := result.eligibleBidCount)];
      var auction := auctions[auctionId];
      if result.unitPriceWei < auction.floorPriceWei || result.unitPriceWei > auction.ceilingPriceWei
         || result.winningNonce == 0 || result.winningCommitment == 0 || result.eligibleBidCount == 0
         || Get(quoteEscrow, (auctionId, result.winner)) != auction.maxQuoteAmount {
        Revert(saved);
        return;
      }
      var quotePaid := CheckedQuoteFor(auction.baseAmount, result.unitPriceWei);
      if quotePaid.None? || quotePaid.value > auction.maxQuoteAmount {
        Revert(saved);
        return;
      }
      var winnerRefund := auction.maxQuoteAmount - quotePaid.value;
      quoteEscrow := quoteEscrow[(auctionId, result.winner) := 0];
      auctions := auctions[auctionId := auctions[auctionId].(winner := result.winner)];
      auctions := auctions[auctionId := auctions[auctionId].(clearingPriceWei := result.unitPriceWei)];
      auctions := auctions[auctionId := auctions[auctionId].(quotePaid := quotePaid.value)];
      auctions := auctions[auctionId := auctions[auctionId].(phase := Settled)];
      assert auctions == saved.auctions[auctionId := auction.(winner := result.winner,
                                                              clearingPriceWei := result.unitPriceWei,
                                                              quotePaid := quotePaid.value, phase := Settled)];
      ok := PaySettlement(auction, result.winner, quotePaid.value, winnerRefund);
      if !ok {
        Revert(saved);
        return;
      }
      entered := false;
    }

    /** The two or three transfers of a settlement; when one fails the caller reverts. */
    method PaySettlement(auction: Auction, winner: Address, quotePaid: Word, winnerRefund: nat) returns (ok: bool)
      requires Valid() && entered && quotePaid + winnerRefund == auction.maxQuoteAmount
      modifies baseToken, quoteToken
      ensures var paid := PayAll(deployment.self, old(State()).ledger, SettlementPayments(auction, winner, quotePaid));
              ok == paid.Some? && (ok ==> State() == old(State()).(ledger := paid.value))
      ensures State().(ledger := old(State()).ledger) == old(State())
    {
      ghost var l := State().ledger;
      ghost var lot, price := Push(Base, winner, auction.baseAmount), Push(Quote, auction.seller, quotePaid);
      ghost var rest := if winnerRefund != 0 then [Push(Quote, winner, winnerRefund)] else [];
      PayTwoFirst(l, lot, price, rest);
      assert SettlementPayments(auction, winner, quotePaid) == [lot, price] + rest;
      ok := SafeTransfer(Base, winner, auction.baseAmount);
      if !ok {
        return;
      }
      ok := SafeTransfer(Quote, auction.seller, quotePaid);
      if !ok {
        return;
      }
      if winnerRefund != 0 {
        PayOne(State().ledger, Push(Quote, winner, winnerRefund));
        ok := SafeTransfer(Quote, winner, winnerRefund);
      }
    }

    lemma PayTwoFirst(l: Ledger, p: Payment, q: Payment, rest: seq<Payment>)
      ensures PayAll(deployment.self, l, [p, q] + rest) ==
              (match Pay(deployment.self, l, p)
               case None => None
               case Some(l1) =>
                 match Pay(deployment.self, l1, q)
                 case None => None
                 case Some(l2) => PayAll(deployment.self, l2, rest))
    {
      var ps := [p, q] + rest;
      assert ps[1..] == [q] + rest && ([q] + rest)[1..] == rest;
    }

    method CancelTimedOutAuction(now: nat, auctionId: Word) returns (ok: bool)
      requires Valid()
      modifies this, baseToken, quoteToken
      ensures Did(old(State()), Cancel(deployment, old(State()), now, auctionId), ok)
    {
      ok := false;
      if entered {
        return;
      }
      var saved := State();
      entered := true;
      if auctionId !in auctions || (auctions[auctionId].phase != Open && auctions[auctionId].phase != ClearRequested)
         || now <= auctions[auctionId].settleDeadline {
        Revert(saved);
        return;
      }
      auctions := auctions[auctionId := auctions[auctionId].(phase := Cancelled)];
      var auction := auctions[auctionId];
      PayOne(State().ledger, Push(Base, auction.seller, auction.baseAmount));
      ok := SafeTransfer(Base, auction.seller, auction.baseAmount);
      if !ok {
        Revert(saved);
        return;
      }
      entered := false;
    }

    method WithdrawQuote(sender: Address, auctionId: Word) returns (ok: bool)
      requires Valid()
      modifies this, baseToken, quoteToken
      ensures Did(old(State()), Withdraw(deployment, old(State()), sender, auctionId), ok)
    {
      ok := false;
      if entered {
        return;
      }
      var saved := State();
      entered := true;
      if auctionId !in auctions
         || (auctions[auctionId].phase != Settled && auctions[auctionId].phase != NoFill
             && auctions[auctionId].phase != Cancelled) {
        Revert(saved);
        return;
      }
      var amount := Get(quoteEscrow, (auctionId, sender));
      if amount == 0 {
        Revert(saved);
        return;
      }
      quoteEscrow := quoteEscrow[(auctionId, sender) := 0];
      PayOne(State().ledger, Push(Quote, sender, amount));
      ok := SafeTransfer(Quote, sender, amount);
      if !ok {
        Revert(saved);
        return;
      }
      entered := false;
    }
  }
}
