/** What bidders, the auction contract and the enclave say to each other. */
module Messages {
  import opened Basics

  /** The plaintext of a bid, chosen by the bidder. */
  datatype PrivateBid = PrivateBid(
    bidder: Address, contractAddr: Address, auctionId: Word, nonce: Uint64, unitPriceWei: Word, salt: Word)

  /** What the contract wraps around a ciphertext (in hex): the auction and the account that sent it. */
  datatype BidEnvelope = BidEnvelope(auctionId: Word, bidder: Address, ciphertext: string)

  datatype ClearMessage = ClearMessage(
    auctionId: Word, contractAddr: Address, floorPriceWei: Word, ceilingPriceWei: Word)

  datatype ClearResult = ClearResult(
    contractAddr: Address, auctionId: Word, winner: Address, unitPriceWei: Word, winningNonce: Uint64,
    winningCommitment: Word, submittedBidCount: Word, eligibleBidCount: Word)

  datatype BidReceipt = BidReceipt(
    contractAddr: Address, auctionId: Word, bidder: Address, nonce: Uint64, commitment: Word)

  /** Library code and cryptography the program calls, taken as arbitrary functions. */
  datatype Platform = Platform(
    keccak: Bytes -> Word,
    decodeBid: Bytes -> Option<PrivateBid>,
    recover: (Word, Bytes) -> Option<Address>)

  /** Where the contract lives. */
  datatype Deployment = Deployment(self: Address, chainId: Word, platform: Platform)
}
