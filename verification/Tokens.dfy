/**
 * The two ERC-20 tokens as the auction contract sees them, and the payments it makes with them.
 * A transfer moves the exact amount or reverts (`contracts/test/TestToken.sol:34-51`).
 */
module Tokens {
  import opened Basics
  import opened Sums

  /** Balances of every account, and what each account lets the auction contract take. */
  datatype Token = Token(balances: map<Address, nat>, allowances: map<Address, nat>)

  function Move(t: Token, from: Address, to: Address, amount: nat): Option<Token> {
    if Get(t.balances, from) < amount then None
    else
      var debited := t.balances[from := Get(t.balances, from) - amount];
      if Get(debited, to) + amount > MAX_WORD then None
      else Some(t.(balances := debited[to := Get(debited, to) + amount]))
  }

  /** The auction contract `self` takes from an account that approved it. */
  function TransferFrom(t: Token, from: Address, self: Address, amount: nat): Option<Token> {
    var approved := Get(t.allowances, from);
    if approved < amount then None
    else
      var spent := if approved != MAX_WORD then t.(allowances := t.allowances[from := approved - amount]) else t;
      Move(spent, from, self, amount)
  }

  datatype Asset = Base | Quote

  datatype Ledger = Ledger(base: Token, quote: Token)

  function TokenOf(l: Ledger, asset: Asset): Token {
    match asset case Base => l.base case Quote => l.quote
  }

  function WithToken(l: Ledger, asset: Asset, t: Token): Ledger {
    match asset case Base => l.(base := t) case Quote => l.(quote := t)
  }

  function Balance(l: Ledger, asset: Asset, who: Address): nat {
    Get(TokenOf(l, asset).balances, who)
  }

  ghost function Supply(l: Ledger, asset: Asset): nat {
    Sum(TokenOf(l, asset).balances)
  }

  /** `mint` keeps the total supply within 256 bits. */
  ghost predicate SuppliesFit(l: Ledger) {
    Supply(l, Base) <= MAX_WORD && Supply(l, Quote) <= MAX_WORD
  }

  /** One token call of the contract: take from an account, or send to one. */
  datatype Payment =
    | Pull(asset: Asset, from: Address, amount: nat)
    | Push(asset: Asset, to: Address, amount: nat)

  function Pay(self: Address, l: Ledger, p: Payment): Option<Ledger> {
    var t := TokenOf(l, p.asset);
    var moved := if p.Pull? then TransferFrom(t, p.from, self, p.amount) else Move(t, self, p.to, p.amount);
    if moved.None? then None else Some(WithToken(l, p.asset, moved.value))
  }

  /** All the token calls of a transaction, in order; if one fails the transaction reverts. */
  function PayAll(self: Address, l: Ledger, ps: seq<Payment>): Option<Ledger>
    decreases |ps|
  {
    if ps == [] then Some(l)
    else
      var next := Pay(self, l, ps[0]);
      if next.None? then None else PayAll(self, next.value, ps[1..])
  }

  /** What a payment adds to one account's holding. */
  function Delta(self: Address, p: Payment, asset: Asset, who: Address): int {
    if p.asset != asset then 0
    else
      var from, to := if p.Pull? then p.from else self, if p.Pull? then self else p.to;
      (if to == who then p.amount else 0) - (if from == who then p.amount else 0)
  }

  function Net(self: Address, ps: seq<Payment>, asset: Asset, who: Address): int {
    if ps == [] then 0 else Delta(self, ps[0], asset, who) + Net(self, ps[1..], asset, who)
  }

  lemma MoveEffect(t: Token, from: Address, to: Address, amount: nat)
    requires Move(t, from, to, amount).Some?
    ensures var t' := Move(t, from, to, amount).value;
            && Sum(t'.balances) == Sum(t.balances)
            && forall who :: Get(t'.balances, who) ==
                 Get(t.balances, who) - (if who == from then amount else 0) + (if who == to then amount else 0)
  {
    var debited := t.balances[from := Get(t.balances, from) - amount];
    SumUpdate(t.balances, from, Get(t.balances, from) - amount);
    SumUpdate(debited, to, Get(debited, to) + amount);
  }

  /** With the supply within 256 bits, only a short balance makes a move fail. */
  lemma MoveSucceeds(t: Token, from: Address, to: Address, amount: nat)
    requires Sum(t.balances) <= MAX_WORD && amount <= Get(t.balances, from)
    ensures Move(t, from, to, amount).Some?
  {
    SumCovers(t.balances, from, to);
  }

  lemma PayEffect(self: Address, l: Ledger, p: Payment)
    requires Pay(self, l, p).Some?
    ensures var l' := Pay(self, l, p).value;
            && (forall asset :: Supply(l', asset) == Supply(l, asset))
            && (forall asset, who :: Balance(l', asset, who) == Balance(l, asset, who) + Delta(self, p, asset, who))
  {
    hide Move, Sum, Get;
    var t := TokenOf(l, p.asset);
    if p.Pull? {
      var approved := Get(t.allowances, p.from);
      var spent := if approved != MAX_WORD then t.(allowances := t.allowances[p.from := approved - p.amount]) else t;
      MoveEffect(spent, p.from, self, p.amount);
    } else {
      MoveEffect(t, self, p.to, p.amount);
    }
  }

  /** A transaction's payments change every balance by exactly their net amount, and no supply. */
  lemma {:induction false} PayAllEffect(self: Address, l: Ledger, ps: seq<Payment>)
    requires PayAll(self, l, ps).Some?
    ensures var l' := PayAll(self, l, ps).value;
            && (forall asset :: Supply(l', asset) == Supply(l, asset))
            && (forall asset, who :: Balance(l', asset, who) == Balance(l, asset, who) + Net(self, ps, asset, who))
    decreases |ps|
  {
    if ps != [] {
      PayEffect(self, l, ps[0]);
      PayAllEffect(self, Pay(self, l, ps[0]).value, ps[1..]);
    }
  }

  function Outflow(ps: seq<Payment>, asset: Asset): nat {
    if ps == [] then 0 else (if ps[0].Push? && ps[0].asset == asset then ps[0].amount else 0) + Outflow(ps[1..], asset)
  }

  /** Sending out no more than the contract holds always succeeds. */
  lemma {:induction false} PushesSucceed(self: Address, l: Ledger, ps: seq<Payment>)
    requires SuppliesFit(l)
    requires forall i :: 0 <= i < |ps| ==> ps[i].Push?
    requires Outflow(ps, Base) <= Balance(l, Base, self) && Outflow(ps, Quote) <= Balance(l, Quote, self)
    ensures PayAll(self, l, ps).Some?
    decreases |ps|
  {
    if ps != [] {
      var p := ps[0];
      MoveSucceeds(TokenOf(l, p.asset), self, p.to, p.amount);
      PayEffect(self, l, p);
      var l' := Pay(self, l, p).value;
      assert Delta(self, p, p.asset, self) + p.amount >= 0;
      assert Supply(l', Base) == Supply(l, Base) && Supply(l', Quote) == Supply(l, Quote);
      PushesSucceed(self, l', ps[1..]);
    }
  }

  /** A deposit fails only for want of allowance or balance. */
  lemma PullSucceedsIff(self: Address, l: Ledger, asset: Asset, from: Address, amount: nat)
    requires SuppliesFit(l)
    ensures Pay(self, l, Pull(asset, from, amount)).Some? <==>
            amount <= Get(TokenOf(l, asset).allowances, from) && amount <= Balance(l, asset, from)
  {
    var t := TokenOf(l, asset);
    if amount <= Get(t.balances, from) {
      MoveSucceeds(t, from, self, amount);
    }
  }

  /** A deposit uses up the allowance it takes, unless that is unlimited, and nobody else's. */
  lemma DepositSpends(t: Token, from: Address, self: Address, amount: nat, who: Address)
    requires TransferFrom(t, from, self, amount).Some?
    ensures amount <= Get(t.allowances, from)
    ensures Get(TransferFrom(t, from, self, amount).value.allowances, who) ==
            if who == from && Get(t.allowances, from) + 1 != WORD_SPACE then Get(t.allowances, from) - amount
            else Get(t.allowances, who)
  {
  }
}
