# QuietFill, verified

QuietFill auctions a fixed lot of a base token for a quote token by sealed bids. A contract escrows
the lot and every bidder's worst-case payment; bids travel encrypted to an enclave that the auction
pinned at creation; after the bid deadline the enclave picks the winner, its machine signs the result,
and anybody can relay it for settlement. If that does not happen in time, everybody takes their
tokens back. This Dafny project models both halves, the messages between them and the codecs on the
way, and proves what the protocol promises.

- `AuctionSpec.dfy` says what each call of the contract does: it reverts, or commits new storage and a
  list of token payments. `AuctionContract.dfy` has the contract and the tokens as classes that check
  and write field by field, roll back on failure, and are proved to do what the specification says.
  `Solvency.dfy`, `History.dfy`, `Runs.dfy` and `Recovery.dfy` prove the invariant, the accounting of
  every payment over whole runs, and that funds are never stranded. `Tokens.dfy`, `Quote.dfy` and
  `Sums.dfy` are the token ledger, the rounding of quotes and totals of maps.
- `EnclaveSpec.dfy` and `Enclave.dfy` do the same for the bid store and its handlers, `Clearing.dfy`
  for the choice of the winner, `EnclaveRuns.dfy` for whole streams of messages, and `Keys.dfy` for
  the string keys of the maps.
- `Rounds.dfy` reads an enclave's answers off its messages alone, without any store, and says exactly
  when repeating a clear request repeats the answer.
- `Composition.dfy` puts the halves together. Any number of machines run the handlers, emitted
  instructions are delivered late, repeatedly, out of order or never, each machine's clock is
  arbitrary, and a signature that recovers to a machine is over one of its own answers. Its invariant
  ties every message a machine handled to the committed call that sent it. `EndToEnd.dfy` has the
  theorems about the whole, `Examples.dfy` runs in which promises without their conditions fail.
- `Digest.dfy`, `Decimal.dfy`, `Hex.dfy`, `Utf8.dfy` and `Bytes32.dfy` are the signed digest, the
  amount printer and parser, and the byte encodings.

Assumptions, stated once:

- The contract never calls itself and no call comes from the zero address; an event in which it does
  changes nothing (`History.Step`). So it is never seller, bidder or winner.
- The base and the quote token are different contracts, as `tools/cmd/deploy-contract/main.go:107`
  demands, move exact amounts, keep their supply within 256 bits, and nobody but the contract spends
  the contract's balance.
- `keccak`, signature recovery and the decoding of a plaintext bid are arbitrary functions
  (`Messages.Platform`). That `keccak` is never zero is a precondition where it is needed; that it has
  no collisions is not assumed: `Digest.DigestPinsResult` names the colliding layers instead, and
  `Composition.Unforged` excludes them from signatures.
- What decryption gives, and the answers of the registries, are arbitrary arguments of each step, with
  `None`, or for the senders of extensions a missing entry, for a failed call.
- Block time does not run back. The enclave's clock may, except where a theorem says it
  runs forward (`EnclaveRuns.ClockRuns`).
- `localeCompare` on lower-case hex of equal length is dictionary order by code point. That this is the
  numeric order of addresses is proved, not assumed.
- A handler runs to its end before the next one starts (`typescript/src/base/server.ts:179-191`), so
  one message is one step although decryption is awaited.

Addresses are numbers, so `getAddress`, which only changes an address's spelling, is the identity. A
missing auction is the source's state `None`. A result is kept as a record: encoding it is
deterministic, so equal records are byte-identical answers.

What the proofs brought out, where code and documentation differ or a natural claim needs a condition:

- The repository's `README.md:66` and the comment at `typescript/src/app/handlers.ts:38-43` speak of a
  byte-identical answer to a repeated clear. That is certain exactly as long as the retention window,
  ten minutes by default, lasts (`Rounds.RepeatIsSafeIff`). After it the bids are gone but so is the
  record that they were cleared: bids delivered again are accepted again, with any nonce, and the next
  clear is answered from these alone (`Rounds.LaterAnswer`); if none were, from no bids. The contract
  accepts whichever answer is relayed first, so a bid that another one in the collar beats can
  settle the auction (`Examples.LosingBidCanSettle`, and `Examples.LosingBidWins` for a whole run).
  `EndToEnd.SettledForBestBid` has the condition under which this cannot happen, and
  `EndToEnd.SettledForBestOfRound` what holds without it.
- A clear instruction with id zero cannot be settled, because the digest is refused for it
  (`Runs.ZeroInstructionNeverSettles`); such an auction can only be cancelled.
- The stored bids are independent of arrival order exactly when no bidder sends two different bids
  with its largest nonce (`EnclaveRuns.OrderMattersIff`; `Examples.OrderDecides` has two messages for which
  the order decides the winning price).
- `bytes32HexToString` loses a leading byte order mark, which `TextDecoder` drops, besides trailing
  NULs (`Bytes32.RoundTripIff`).
- `parseUnits` reads only the first two parts between dots, so `1.5.x` is an amount
  (`Decimal.SecondDotAccepted`); `formatUnits` of a negative value prints text that is never an
  amount (`Decimal.FormatParse`).

## Model

| member | source | states |
|---|---|---|
| EndToEnd.SettledForBestBid | typescript/src/app/handlers.ts:170-209 | In every run: if the pinned machine's clock runs forward and no clear of the auction reaches it a retention window or more after the first, a settled auction's winner and price are those of an offer among the messages before the first clear, and no standing offer with a price from floor to ceiling, both included, is above that price, or equal to it and from a lower address; the counts are of all bidders with an offer and of those whose latest one is in the collar; each was sent through submitPrivateBid by that very account before the bid deadline |
| EndToEnd.SettledForBestOfRound | typescript/src/app/handlers.ts:127-209 | The same for every run, whatever the clocks and the delays, of the offers in one round of the pinned machine's messages: those before some clear request of the auction, counted from when the answer to the previous one had expired |
| EndToEnd.EndedAsAnswered | contracts/InstructionSender.sol:273-326 | An auction that ended settled or without a fill shows the answer to a clear request in the pinned machine's inbox, and that answer is determined by the messages before it |
| EndToEnd.EndedOnTime | typescript/src/app/handlers.ts:170-209 | Under the same condition on clock and window, also an auction without a fill shows exactly the result of clearing what had arrived before the first clear |
| EndToEnd.AnswersAlwaysSettle | contracts/InstructionSender.sol:273-309 | In every run of contract, machines and messages (late, repeated, reordered or lost), any result a machine ever returned is for an auction that pinned it and recorded the very instruction it answered; while that auction waits, the result passes every check, and relayed with the machine's signature over it and its instruction it settles if and only if the settle deadline has not passed and the instruction id is not zero |
| EndToEnd.AnswerIsOfInbox | typescript/src/app/handlers.ts:155-210 | Every answer ever given, fresh or cached, is the result of clearing the bids of one round of that machine's inbox under the auction's own collar |
| EndToEnd.RoundIsAccepted | contracts/InstructionSender.sol:280-309 | Clearing any part of the pinned machine's inbox gives a result that passes the id, count, collar, nonce, commitment, no-fill and escrow checks while the auction is live |
| EndToEnd.MachineIsReplay | typescript/src/app/handlers.ts:85-210 | After every run of the whole system each machine is in the state a fresh one reaches on exactly the messages it has handled |
| EndToEnd.StoredBidWasSubmitted | typescript/src/app/handlers.ts:97-125 | No bidder can be spoofed: every bid a machine stores for a bidder was read from an instruction for that machine that a committed submitPrivateBid of that very account emitted before the bid deadline |
| EndToEnd.OthersCannotDisplace | typescript/src/app/handlers.ts:118-142 | No bidder can be displaced: in every reachable state a step changes a bidder's stored entry only if it delivers one of its own bids or a clear of that auction |
| EndToEnd.ClearIsAlwaysAnswered | typescript/src/app/handlers.ts:155-210 | A clear request the contract emitted is never refused, however late or often it is delivered |
| EndToEnd.HonestBidIsStored | typescript/src/app/handlers.ts:85-153 | What the contract wraps around a ciphertext lets every filled-in bid that names its sender and auction through: if no unexpired result is kept and any stored nonce is smaller, it gets its receipt and is stored with the hash of its plaintext, a replacement like a first bid |
| Composition.AdvanceAllKeepsInv | typescript/src/app/handlers.ts:85-210 | The invariant across both halves: every emitted instruction was sent by a committed call, bids by escrowed accounts, clear requests with the auction's own collar and recorded id; every message a machine handled was brought by one; each machine is the replay of its inbox; each signed result is the answer at its place there; and every auction that ended with a result shows one its machine signed |
| Composition.SentIsOk | contracts/InstructionSender.sol:253-265 | Exactly submitPrivateBid, for a replacement too, and requestClear send an instruction, and it names the auction, its pinned machine, and the sender with escrow, respectively this contract, the auction's floor and ceiling in that order, and the recorded instruction id |
| Examples.LosingBidCanSettle | typescript/src/app/handlers.ts:127-209 | Fails without the condition on the window: wherever two competing bids and the clear request wait for a machine, a schedule exists after which the contract accepts the result of the losing bid alone |
| Examples.LosingBidWins | typescript/src/app/handlers.ts:127-209 | A run from deployment on, for every retention window: accounts 1 and 2 bid 2 and 3 in a collar of 1 to 5, both bids reach the machine, and the auction ends settled for account 1 at price 2 |
| Rounds.AnswerOfStream | typescript/src/app/handlers.ts:85-210 | For every stream of messages to a fresh enclave, whatever its clock does, the answer to a valid clear is read off the stream: the result of the bids of the current round, or of the round whose answer is still kept |
| Rounds.LaterAnswer | typescript/src/app/handlers.ts:127-209 | With a forward clock, a clear repeated within the retention window gets the first answer; the first one after it gets the result of exactly the bids that arrived, or arrived again, since the window ended |
| Rounds.LaterAnswerIff | typescript/src/app/handlers.ts:170-209 | When the repeated answer is identical, message for message: within the window, or when the bids since then happen to give the same result; without any such bid the answer is that nobody bid |
| Rounds.RepeatIsSafeIff | typescript/src/app/handlers.ts:170-209 | If anybody had bid, a repeated clear is sure of the first answer, whatever arrives in between, exactly as long as the retention window lasts |
| Rounds.LateWinner | typescript/src/app/handlers.ts:127-209 | For any two competing bids and any retention window, the losing one delivered once more after the window is the winner of the next answer |
| Runs.RunKeepsInv | contracts/InstructionSender.sol:180-352 | Every sequence of calls and token activity keeps the invariant: solvent, entries full or zero, books and timeline right, and the state evolves forward only |
| Runs.ReachableInv | contracts/InstructionSender.sol:141-160 | The freshly deployed contract satisfies the invariant, so every reachable state does |
| Runs.AlwaysSolvent | contracts/InstructionSender.sol:180-352 | In every reachable state the base balance covers the lots of live auctions and the quote balance covers all escrow entries |
| Runs.LotLeavesOnce | contracts/InstructionSender.sol:297-338 | The base tokens ever paid out for an auction are nothing while it is live and exactly the lot once it has ended |
| Runs.ChargedOnce | contracts/InstructionSender.sol:247-251 | However many bids an account sends for an auction, it is charged the ceiling of lot times ceiling price over 1e18 exactly once, its entry is zero or that positive amount, and it stays full until the auction ends |
| Runs.NetEffectOfSettlement | contracts/InstructionSender.sol:311-351 | After a settlement and withdrawal, over the whole history of the auction the seller has swapped the lot for quotePaid and the winner the reverse, everybody else is even, an account in both roles gets both; quotePaid is the ceiling of lot times price over 1e18 and lies between the floor's quote and the ceiling's |
| Runs.NetEffectWithoutWinner | contracts/InstructionSender.sol:291-352 | An auction that ended without a winner leaves every account even after withdrawal |
| Runs.TimelineOfAuction | contracts/InstructionSender.sol:240-345 | The calls about one auction come in the order create, bid, clear, end, withdraw; only bids and withdrawals repeat; bids precede the bid deadline, which does not come after the clear request; no auction is both settled and cancelled |
| Runs.CommittedCallsWereInTime | contracts/InstructionSender.sol:187-345 | Every committed call met its deadline and the auction still shows what it did: terms and machine as created, escrow of each bidder, the clear instruction recorded, the result settled with, or the cancellation |
| Runs.TermsNeverChange | contracts/InstructionSender.sol:40-56 | Over any run an auction keeps its seller, machine, amounts, prices and deadlines, its state moves forward only, its clear instruction is never replaced, and an ended auction never changes |
| Runs.OnlySettleShows | contracts/InstructionSender.sol:288-317 | Only settleAuction, with the pinned machine's signature over the very result, brings an auction to Settled or NoFill |
| Runs.NoDigestBeforeClear | contracts/InstructionSender.sol:357-359 | In every reachable state no signature whatsoever counts as the machine's for an auction that still takes bids |
| Runs.ZeroInstructionNeverSettles | contracts/InstructionSender.sol:264-359 | An auction whose clear instruction id is zero can never be settled by anybody in any further run: it stays waiting until it is cancelled |
| Recovery.EverybodyCanLeave | contracts/InstructionSender.sol:328-352 | The bidders of an auction can always be listed, so from every reachable state past the settle deadline everybody in a live auction has a way to get everything back |
| Recovery.FundsAlwaysRecoverable | contracts/InstructionSender.sol:328-352 | From every reachable state, past the settle deadline of a live auction, one cancellation and then a withdrawal by each bidder in any order all succeed, return the whole lot and every escrow, and leave nothing of the auction in the contract |
| Recovery.ExitStaysOpen | contracts/InstructionSender.sol:340-352 | What an ended auction owes an account can be withdrawn in full after any further run in which the account did not withdraw it itself |
| Recovery.WithdrawAllPaysBack | contracts/InstructionSender.sol:340-352 | Withdrawals of one ended auction by distinct owed accounts succeed in any order, each zeroing its own entry and paying exactly that |
| Recovery.SettleCommitsIff | contracts/InstructionSender.sol:277-321 | A settlement commits exactly when the auction waits, the deadline has not passed, the pinned machine's signature is over the digest with a non-zero instruction, ids and counts fit, and the fields are all zero without a winner, else in the collar, non-zero and with the winner's escrow full: no overflow, underflow or failed transfer is possible beyond that |
| Recovery.CancelCommitsIff | contracts/InstructionSender.sol:328-338 | A cancellation commits exactly when the auction is live and its settle deadline has passed |
| Recovery.WithdrawCommitsIff | contracts/InstructionSender.sol:340-352 | A withdrawal commits exactly when the auction has ended and the caller's entry is not zero |
| Recovery.SubmitCommitsIff | contracts/InstructionSender.sol:240-254 | A bid commits exactly when the auction is open before its bid deadline, the ciphertext has 1 to 4096 bytes, the registry answers and, without escrow so far only, allowance and balance cover the ceiling amount |
| Recovery.CreateCommitsIff | contracts/InstructionSender.sol:187-217 | A creation commits exactly when the lot is between 1 and 1e36, the collar ordered between 1 and 1e36, the deadlines lie ahead in order, an extension id is set, one non-zero machine is offered, an id is left, and allowance and balance cover the lot |
| Recovery.RequestClearCommitsIff | contracts/InstructionSender.sol:258-269 | A clear request commits exactly when the auction is open, the time is from the bid deadline to the settle deadline, both included, and the registry answers |
| Recovery.SetExtensionCommitsIff | contracts/InstructionSender.sol:163-174 | The extension id becomes a number exactly when none is set, it is the first id from 65536 on registered to this contract, and every registry call up to it answers |
| Recovery.ReentryChangesNothing | contracts/InstructionSender.sol:134-139 | While a call is in progress any sequence of further calls, setExtensionId included once the id is set, leaves the state as it is |
| Solvency.ExecKeepsInv | contracts/InstructionSender.sol:163-352 | Every committed call by anyone but the contract keeps storage well formed, supplies within 256 bits and both balances sufficient |
| Solvency.SettlementFits | contracts/InstructionSender.sol:311-312 | For an accepted result the quote does not overflow and lies between the floor's quote and maxQuoteAmount, so the refund subtraction does not underflow |
| Solvency.FoundIsPublic | contracts/InstructionSender.sol:167-173 | The extension id found is the first public one registered to this contract; none is found only if every id is registered to others or a registry call on the way reverts |
| Solvency.NetSettlement | contracts/InstructionSender.sol:319-321 | What the two or three transfers add to each account, seller and winner possibly the same; payment and refund sum to the escrowed amount |
| History.ExecEvolves | contracts/InstructionSender.sol:180-352 | One committed call changes no terms, moves no state back, replaces no clear instruction and refills no emptied escrow entry |
| History.ExecTouchesOnly | contracts/InstructionSender.sol:163-352 | What each committed call leaves alone: other auctions, other escrow entries, and every field of its own auction that is not its to write; a creation writes every field as given and advances the id by one |
| History.ExecPays | contracts/InstructionSender.sol:440-453 | A committed call changes every balance by exactly the net of its transfers and neither supply at all |
| History.ExecAccounted | contracts/InstructionSender.sol:217-350 | The transfers of each call are exactly the change of every account's position, of the lot paid out and of the amounts charged |
| History.SubmitEvolves | contracts/InstructionSender.sol:247-251 | After an accepted bid the bidder's entry is the positive ceiling amount |
| AuctionContract.QuietFillAuction.Deploy | contracts/InstructionSender.sol:141-160 | Refused exactly if one of the four addresses is zero or holds no code |
| AuctionContract.QuietFillAuction.constructor | contracts/InstructionSender.sol:126-160 | A new contract has no auctions, no escrow, no extension id, first id 1 and the guard open |
| AuctionContract.QuietFillAuction.SetExtensionId | contracts/InstructionSender.sol:163-174 | The search loop sets the id the specification function finds, or reverts, also when a registry call does, leaving everything as it was |
| AuctionContract.QuietFillAuction.TeeClearDigest | contracts/InstructionSender.sol:357-376 | A signature passes against this digest exactly if it is the pinned machine's over this result and the recorded clear instruction; any other result, instruction or chain with the same digest exhibits a keccak collision; it is refused for an auction that still takes bids |
| AuctionContract.QuietFillAuction.CreateAuction | contracts/InstructionSender.sol:180-228 | Commits to the specified state, tokens included, and returns the new id, or reverts with every write undone |
| AuctionContract.QuietFillAuction.SubmitPrivateBid | contracts/InstructionSender.sol:234-256 | As specified, sending the specified instruction; a failed transfer or registry call undoes the escrow entry written before it |
| AuctionContract.QuietFillAuction.RequestClear | contracts/InstructionSender.sol:258-269 | As specified, sending the auction's own collar |
| AuctionContract.QuietFillAuction.SettleAuction | contracts/InstructionSender.sol:273-326 | As specified for both endings, or reverts with every write and earlier transfer undone |
| AuctionContract.QuietFillAuction.SettleNoFill | contracts/InstructionSender.sol:288-301 | The no-winner ending of a settlement: the lot returned if and only if all other fields are zero |
| AuctionContract.QuietFillAuction.SettleFill | contracts/InstructionSender.sol:303-321 | The winning ending of a settlement: all checks, then the specified writes and transfers, or everything undone |
| AuctionContract.QuietFillAuction.PaySettlement | contracts/InstructionSender.sol:319-321 | The transfers one after the other are the specified payments, the third only for a non-zero refund |
| AuctionContract.QuietFillAuction.CancelTimedOutAuction | contracts/InstructionSender.sol:328-338 | As specified, or reverts with every write undone |
| AuctionContract.QuietFillAuction.WithdrawQuote | contracts/InstructionSender.sol:340-352 | As specified, or reverts with every write undone |
| AuctionContract.QuietFillAuction.SafeTransfer | contracts/InstructionSender.sol:440-445 | One outgoing transfer, made only with the re-entrancy guard set |
| AuctionContract.QuietFillAuction.SafeTransferFrom | contracts/InstructionSender.sol:447-453 | One incoming transfer, made only with the re-entrancy guard set |
| AuctionContract.Erc20.MoveTokens | contracts/test/TestToken.sol:47-51 | Moves the exact amount or changes nothing |
| AuctionContract.Erc20.TransferFrom | contracts/test/TestToken.sol:39-45 | Spends the allowance, unless unlimited, and moves the exact amount, or changes nothing |
| Tokens.PayAllEffect | contracts/test/TestToken.sol:34-51 | A sequence of transfers changes every balance by its net amount and conserves the supply |
| Tokens.MoveSucceeds | contracts/test/TestToken.sol:47-51 | With the supply within 256 bits only a short balance makes a move fail |
| Tokens.DepositSpends | contracts/test/TestToken.sol:39-45 | A deposit uses up exactly the allowance it takes, unless that is unlimited, and nobody else's |
| Tokens.PushesSucceed | contracts/InstructionSender.sol:440-445 | Sending out no more than the contract holds always succeeds |
| Quote.QuoteIsCeiling | contracts/InstructionSender.sol:418-421 | The quote is the exact ceiling of base times price over 1e18, the number written out, and the only such number |
| Quote.QuoteOfWholeUnits | contracts/InstructionSender.sol:418-421 | So many times 1e18 base units cost exactly so many times the price |
| Quote.QuoteMonotone | contracts/InstructionSender.sol:418-421 | A higher price never gives a lower quote |
| Quote.QuoteFits | contracts/InstructionSender.sol:418-421 | Components up to 1e36 never overflow 256 bits |
| Quote.QuoteAmount | contracts/InstructionSender.sol:378-383 | Refused exactly for a component beyond 1e36, otherwise the ceiling of the product over 1e18 |
| Digest.DigestPinsResult | contracts/InstructionSender.sol:357-376 | Equal digests mean equal results, clear instruction ids and chain ids, unless one of the four hashed layers is itself an explicit keccak collision |
| Digest.ResultLayout | contracts/InstructionSender.sol:361-370 | The hashed data is 256 bytes: contract, auction, winner, price, nonce, commitment, submitted and eligible count, each at its place |
| Digest.ActionLayout | contracts/InstructionSender.sol:371-373 | 97 bytes: the hash of the data, the instruction id, the hash of the nine characters of threshold, and the byte 1 |
| Digest.PayloadLayout | contracts/InstructionSender.sol:374 | 96 bytes: the 17 characters of TEE_ACTION_RESULT with zeros after them, the chain id, and the hash of the action |
| Digest.SignedLayout | contracts/InstructionSender.sol:375 | 60 bytes, whose hash is the digest: the 28-byte prefix for signed messages, byte by byte, and the hash of the payload |
| Digest.ResultDataInjective | contracts/InstructionSender.sol:361-370 | The eight-word encoding determines every field of the result |
| Digest.WordsInjective | contracts/InstructionSender.sol:361-374 | Fixed-width 32-byte encoding of words is injective |
| Clearing.WinnerIsArgmax | typescript/src/app/handlers.ts:179-193 | There is a winner exactly when a bid is in the collar; it is the one eligible bid that beats all others by price and then by lower address |
| Clearing.ResultReports | typescript/src/app/handlers.ts:179-203 | A result is the computed one if and only if, all in plain fields, its ids are the request's, its counts are of all bids and of those priced from floor to ceiling, both included, and it is zero throughout without such a bid, else names one that no other exceeds in price or matches from a lower address |
| Clearing.NoBidBeatsResult | typescript/src/app/handlers.ts:181-193 | No stored bid priced from floor to ceiling, both included, offers more than the result's price, or as much from a lower address than its winner |
| Clearing.SortedFirstIsWinner | typescript/src/app/handlers.ts:181-193 | Whatever order the map lists its bids in and whichever sort is used, the first of the sorted eligible bids is that winner |
| Clearing.SortSorts | typescript/src/app/handlers.ts:187-191 | Sorting gives a permutation in comparator order |
| Clearing.CompareMeansBeats | typescript/src/app/handlers.ts:187-191 | The comparator is negative, positive or zero as the left bid beats the right, loses, or ties in price and bidder |
| Clearing.BidsFit | typescript/src/app/handlers.ts:180 | The bid count fits in a 256-bit word |
| EnclaveSpec.TakeBidKeeps | typescript/src/app/handlers.ts:85-153 | A bid keeps the store invariant: no auction both open and cleared, bid maps non-empty, each bid valid and under its own contract, auction and bidder, committed to by the hash of its plaintext |
| EnclaveSpec.AnswerKeeps | typescript/src/app/handlers.ts:155-210 | A clear request, prune and purge included, keeps the store invariant |
| EnclaveSpec.ReceiptIff | typescript/src/app/handlers.ts:85-153 | A bid gets its receipt if and only if the ciphertext is non-empty hex, the plaintext decodes to a bid with all six fields set that names the envelope's sender and auction, no unexpired result of its auction is kept, and the bidder has no stored bid with the same or a larger nonce |
| EnclaveSpec.ReadBidIff | typescript/src/app/handlers.ts:85-125 | A message yields exactly the bid its plaintext decodes to, with the hash of the plaintext, if and only if it is well made |
| EnclaveSpec.AnswerIff | typescript/src/app/handlers.ts:155-168 | A clear request is answered if and only if auction, contract and floor are non-zero and the ceiling is not below the floor |
| EnclaveSpec.AnswerPurges | typescript/src/app/handlers.ts:170-209 | An answered clear leaves no bid of its auction in the store; a fresh answer is kept for the whole window, a kept one no longer than before |
| EnclaveSpec.AnswerSparesOthers | typescript/src/app/handlers.ts:170-209 | A clear leaves other auctions' bids, and their answers until they expire |
| EnclaveSpec.ResultIsSound | typescript/src/app/handlers.ts:193-203 | A result of valid bids has at most as many eligible as submitted bids; its winner is zero exactly when no bid is eligible, then with all fields zero, else with price in the collar and non-zero nonce and commitment |
| Enclave.BidStore.HandlePrivateBid | typescript/src/app/handlers.ts:85-153 | Changes the store and answers as specified and keeps the store invariant |
| Enclave.BidStore.StoreBid | typescript/src/app/handlers.ts:127-152 | Prunes, refuses a cleared auction or a nonce that does not increase, else replaces exactly the bidder's entry |
| Enclave.BidStore.PruneCleared | typescript/src/app/handlers.ts:79-83 | The deleting loop removes exactly the expired entries |
| Enclave.BidStore.HandleClear | typescript/src/app/handlers.ts:155-210 | Changes the store and answers as specified and keeps the store invariant |
| Enclave.BidStore.ListEligible | typescript/src/app/handlers.ts:181-185 | Lists exactly the bids in the collar, as many as there are, in any order of the map |
| Enclave.BidStore.Choose | typescript/src/app/handlers.ts:179-203 | Filter, sort and first element give the result defined by the best bid |
| EnclaveRuns.HandleAll | typescript/src/app/handlers.ts:79-210 | The store invariant holds after every sequence of messages |
| EnclaveRuns.CacheIsFaithful | typescript/src/app/handlers.ts:170-209 | After the first clear of an auction every later valid clear of it within the retention window gets the identical result, whatever bids, other clears and other collars come in between |
| EnclaveRuns.CachedAnswerIff | typescript/src/app/handlers.ts:174-208 | One request while the cache entry is still held: the cached result if it has not expired; if this is the first message read after that, the result of no bids |
| EnclaveRuns.StoredBidOfRun | typescript/src/app/handlers.ts:133-142 | Between two clears of an auction a bidder's stored bid is the earliest of its valid bids with its largest nonce, among any other messages |
| EnclaveRuns.StoreIsAcceptAll | typescript/src/app/handlers.ts:127-142 | Between clears the store holds what accepting the auction's valid bids one by one gives |
| EnclaveRuns.StoredIsLatest | typescript/src/app/handlers.ts:133-142 | Accepting bids one by one keeps the earliest with the largest nonce |
| EnclaveRuns.AcceptedNonceIncreases | typescript/src/app/handlers.ts:133-142 | An accepted nonce exceeds the stored one, only that bidder's entry changes, and a refused bid changes no stored bid |
| EnclaveRuns.ArrivalOrderDoesNotMatter | typescript/src/app/handlers.ts:133-203 | Streams with the same valid bids in any order leave the same stored bids and get the same answer, if each bidder's bids with its largest nonce are the same bid |
| EnclaveRuns.OrderMattersIff | typescript/src/app/handlers.ts:133-142 | That condition is exact: the stored bids are independent of the order if and only if it holds |
| Rounds.FirstOfTwo | typescript/src/app/handlers.ts:133-203 | Of any two bids by one account with one nonce the first to arrive is stored and wins, whatever the other offers |
| Examples.OrderDecides | typescript/src/app/handlers.ts:133-203 | Two concrete messages whose two orders of arrival leave different stored bids and different winning prices |
| EnclaveRuns.Isolation | typescript/src/app/handlers.ts:127-210 | Dropping all messages about other auctions changes neither the stored bids nor the unexpired cached result of an auction |
| EnclaveRuns.AnswersAreIsolated | typescript/src/app/handlers.ts:155-230 | The answer to a clear request is the one given had only messages about that contract and auction arrived |
| Keys.AuctionKeyInjective | typescript/src/app/handlers.ts:228-230 | Different contract and auction pairs have different string keys |
| Keys.AddressOrder | typescript/src/app/handlers.ts:190 | Comparing lower-case hex addresses as text is comparing them as numbers |
| Decimal.FormatParse | web/src/lib/quietfill.ts:76-89 | Printing then parsing gives back every non-negative amount at every number of decimals, and is rejected for every negative one |
| Decimal.FormatIsShortest | web/src/lib/quietfill.ts:76-81 | A non-negative amount is printed as its exact value with no leading zero, no trailing zero and no needless dot |
| Decimal.NegativePrintedOddly | web/src/lib/quietfill.ts:76-81 | An example of a negative amount: -15 with one decimal is printed -1.-5 |
| Decimal.ParseExact | web/src/lib/quietfill.ts:83-89 | With one dot the text is accepted exactly when both parts are digits and the fraction fits, and the value is the written decimal without rounding |
| Decimal.ParseWhole | web/src/lib/quietfill.ts:83-89 | Without a dot the text is accepted exactly when it is all digits, as that many units; blank text is zero |
| Decimal.ParseIgnoresRest | web/src/lib/quietfill.ts:84 | A second dot and everything after it is ignored |
| Decimal.ParseTrims | web/src/lib/quietfill.ts:84 | White space and line ends before and after an amount make no difference |
| Decimal.TrimOnlySpaces | web/src/lib/quietfill.ts:84 | Nothing else is taken off |
| Decimal.SecondDotAccepted | web/src/lib/quietfill.ts:84-88 | An example: 1.5.x with one decimal is read as 15 |
| Hex.DecodeEncode | typescript/src/base/encoding.ts:16-42 | hexToBytes undoes bytesToHex for every byte sequence |
| Hex.DecodesIff | typescript/src/base/encoding.ts:16-35 | Text decodes to given bytes if and only if, an optional 0x or 0X aside, it spells each with two hex digits in either case; a missing text decodes to no bytes |
| Hex.EncodesAs | typescript/src/base/encoding.ts:38-42 | Encoding spells each byte with two lower-case digits after 0x |
| Hex.EncodeDecode | typescript/src/base/encoding.ts:16-42 | bytesToHex after hexToBytes gives the prefixed lower-case spelling |
| Hex.HexToBytes | typescript/src/base/encoding.ts:16-35 | The filling loop decodes as specified, and refuses exactly odd lengths and non-hex characters |
| Hex.BytesToHex | typescript/src/base/encoding.ts:38-42 | The appending loop encodes as specified |
| Bytes32.RoundTripIff | typescript/src/base/encoding.ts:50-74 | A name that fits comes back exactly if it neither ends in NUL nor starts with a byte order mark |
| Bytes32.IdentifierIff | typescript/src/base/encoding.ts:50-58 | Accepted exactly up to 32 bytes of UTF-8; the 66 characters spell those bytes with zeros after them |
| Bytes32.NameOfBytes | typescript/src/base/encoding.ts:64-74 | For bytes of any length the zeros at the end are dropped and the rest is decoded; malformed hex gives the empty string |
| Bytes32.NameOfIdentifier | typescript/src/base/encoding.ts:50-74 | What every name that fits comes back as |
| Bytes32.MarkedNameIsLost | typescript/src/base/encoding.ts:60-74 | An example of a name that does not come back |
| Bytes32.IdentifierInjective | typescript/src/base/encoding.ts:50-58 | Two names share an identifier exactly when they differ in trailing NULs only |
| Bytes32.StringToBytes32Hex | typescript/src/base/encoding.ts:50-58 | Refuses exactly names of more than 32 bytes, else gives the 66-character identifier |
| Bytes32.Bytes32HexToString | typescript/src/base/encoding.ts:64-74 | The trimming loop decodes as specified; malformed hex gives the empty string |
| Utf8.DecodeEncode | typescript/src/base/encoding.ts:51-73 | What the platform's text encoder and decoder do to a string together |
| Utf8.EncodedBits | typescript/src/base/encoding.ts:51 | The number of bytes by the size of the character, and its value put together from their payload bits |
| Utf8.BadLeadReplaced | typescript/src/base/encoding.ts:73 | A byte that can start no character becomes the replacement character |
| Utf8.BadPairReplaced | typescript/src/base/encoding.ts:73 | The start of an overlong form, a surrogate or a value out of range is replaced alone, and the next byte read again |
| Utf8.CutReplaced | typescript/src/base/encoding.ts:73 | A character cut short is replaced as a whole |

## Left out

- Elliptic-curve recovery, signature length and malleability checks: recovery is an arbitrary function whose failure is a revert.
- ECIES and the HTTP client for decryption: any plaintext, or none, may come out of a ciphertext, and a second delivery of it may give another.
- Chain time and the machines' clocks are unrelated, so no theorem compares a settle deadline with a retention window.
- The ABI codec library: messages are records, and an undecodable one is `None`; only the digest has a word-level encoding.
- Registry internals, instruction fees and claim-back addresses: registry answers are arbitrary values.
- Re-entry is modelled as calls tried while the guard is set; token movements by other accounts in the middle of a transaction are not, only between transactions.
- Tokens that charge fees, rebase, or answer a transfer with odd return data: a transfer moves the exact amount or reverts.
- Events, error names and error text: only whether a call reverts or a message is refused.
- Utf8.Encode: strings are sequences of Unicode scalar values, so a lone surrogate, which the platform replaces, does not occur.
- Decimal.FormatUnits: the number of decimals is a non-negative integer; for others the source throws.
- Clearing.Sort: stands for the library's sort, of which only a sorted permutation is used.
- The test-only hooks of the handlers (`setDecryptorForTests`, `setClearRetentionForTests`, `resetState`); the theorems hold for every retention window.
- The HTTP server, JSON envelopes and dispatch table, the Go and Python scaffolds, the deployment tooling and the React components.
