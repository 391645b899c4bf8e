/** The digest a clearing machine signs (`teeClearDigest`), word by word. */
module Digest {
  import opened Basics
  import opened Messages
  import BigEndian

  /** Words encoded one after the other in 32 bytes each, as `abi.encode` does for static values. */
  function Words(ws: seq<Word>): (b: Bytes)
    ensures |b| == 32 * |ws|
  {
    if ws == [] then [] else BigEndian.ToBytes(ws[0], 32) + Words(ws[1..])
  }

  function Ascii(s: string): Bytes
    requires forall i :: 0 <= i < |s| ==> s[i] as int < 128
  {
    seq(|s|, i requires 0 <= i < |s| => s[i] as int)
  }

  /** `bytes32("TEE_ACTION_RESULT")`. */
  const RESULT_DOMAIN: Bytes := Ascii("TEE_ACTION_RESULT") + seq(15, i => 0)

  const SIGNED_MESSAGE_PREFIX: Bytes := [0x19] + Ascii("Ethereum Signed Message:\n32")

  function ResultData(r: ClearResult): Bytes {
    Words([r.contractAddr, r.auctionId, r.winner, r.unitPriceWei, r.winningNonce, r.winningCommitment,
           r.submittedBidCount, r.eligibleBidCount])
  }

  function ActionMessage(keccak: Bytes -> Word, r: ClearResult, instructionId: Word): Bytes {
    Words([keccak(ResultData(r)), instructionId, keccak(Ascii("threshold"))]) + [1]
  }

  function PayloadMessage(keccak: Bytes -> Word, r: ClearResult, instructionId: Word, chainId: Word): Bytes {
    RESULT_DOMAIN + Words([chainId, keccak(ActionMessage(keccak, r, instructionId))])
  }

  function SignedMessage(keccak: Bytes -> Word, r: ClearResult, instructionId: Word, chainId: Word): Bytes {
    SIGNED_MESSAGE_PREFIX + Words([keccak(PayloadMessage(keccak, r, instructionId, chainId))])
  }

  function ClearDigest(keccak: Bytes -> Word, r: ClearResult, instructionId: Word, chainId: Word): Word {
    keccak(SignedMessage(keccak, r, instructionId, chainId))
  }

  predicate Collide(keccak: Bytes -> Word, x: Bytes, y: Bytes) {
    x != y && keccak(x) == keccak(y)
  }

  /** One of the four hashed layers of the two digests is a collision of keccak. */
  predicate LayersCollide(keccak: Bytes -> Word,
                          r: ClearResult, i: Word, c: Word, r': ClearResult, i': Word, c': Word) {
    || Collide(keccak, ResultData(r), ResultData(r'))
    || Collide(keccak, ActionMessage(keccak, r, i), ActionMessage(keccak, r', i'))
    || Collide(keccak, PayloadMessage(keccak, r, i, c), PayloadMessage(keccak, r', i', c'))
    || Collide(keccak, SignedMessage(keccak, r, i, c), SignedMessage(keccak, r', i', c'))
  }

  lemma ConcatInjective(a: Bytes, b: Bytes, x: Bytes, y: Bytes)
    requires |a| == |x| && a + b == x + y
    ensures a == x && b == y
  {
    assert a == (a + b)[..|a|] && x == (x + y)[..|x|];
    assert b == (a + b)[|a|..] && y == (x + y)[|x|..];
  }

  lemma {:induction false} WordsInjective(a: seq<Word>, b: seq<Word>)
    requires |a| == |b| && Words(a) == Words(b)
    ensures a == b
  {
    if a != [] {
      BigEndian.WidthOfWord();
      ConcatInjective(BigEndian.ToBytes(a[0], 32), Words(a[1..]), BigEndian.ToBytes(b[0], 32), Words(b[1..]));
      BigEndian.BytesRoundTrip(a[0], 32);
      BigEndian.BytesRoundTrip(b[0], 32);
      WordsInjective(a[1..], b[1..]);
      assert a == [a[0]] + a[1..] && b == [b[0]] + b[1..];
    }
  }

  lemma ResultDataInjective(r: ClearResult, r': ClearResult)
    requires ResultData(r) == ResultData(r')
    ensures r == r'
  {
    var a: seq<Word> := [r.contractAddr, r.auctionId, r.winner, r.unitPriceWei, r.winningNonce, r.winningCommitment,
                         r.submittedBidCount, r.eligibleBidCount];
    var b: seq<Word> := [r'.contractAddr, r'.auctionId, r'.winner, r'.unitPriceWei, r'.winningNonce,
                         r'.winningCommitment, r'.submittedBidCount, r'.eligibleBidCount];
    WordsInjective(a, b);
    assert forall k :: 0 <= k < 8 ==> a[k] == b[k];
    assert a[0] == b[0] && a[1] == b[1] && a[2] == b[2] && a[3] == b[3];
    assert a[4] == b[4] && a[5] == b[5] && a[6] == b[6] && a[7] == b[7];
  }

  lemma ActionMessageInjective(keccak: Bytes -> Word, r: ClearResult, i: Word, r': ClearResult, i': Word)
    requires ActionMessage(keccak, r, i) == ActionMessage(keccak, r', i')
    ensures keccak(ResultData(r)) == keccak(ResultData(r')) && i == i'
  {
    var tag := keccak(Ascii("threshold"));
    var a: seq<Word> := [keccak(ResultData(r)), i, tag];
    var b: seq<Word> := [keccak(ResultData(r')), i', tag];
    ConcatInjective(Words(a), [1], Words(b), [1]);
    WordsInjective(a, b);
    assert a[0] == b[0] && a[1] == b[1];
  }

  lemma PayloadMessageInjective(keccak: Bytes -> Word, r: ClearResult, i: Word, c: Word, r': ClearResult, i': Word,
          c': Word)
    requires PayloadMessage(keccak, r, i, c) == PayloadMessage(keccak, r', i', c')
    ensures keccak(ActionMessage(keccak, r, i)) == keccak(ActionMessage(keccak, r', i')) && c == c'
  {
    var a: seq<Word> := [c, keccak(ActionMessage(keccak, r, i))];
    var b: seq<Word> := [c', keccak(ActionMessage(keccak, r', i'))];
    ConcatInjective(RESULT_DOMAIN, Words(a), RESULT_DOMAIN, Words(b));
    WordsInjective(a, b);
    assert a[0] == b[0] && a[1] == b[1];
  }

  lemma SignedMessageInjective(keccak: Bytes -> Word, r: ClearResult, i: Word, c: Word, r': ClearResult, i': Word,
          c': Word)
    requires SignedMessage(keccak, r, i, c) == SignedMessage(keccak, r', i', c')
    ensures keccak(PayloadMessage(keccak, r, i, c)) == keccak(PayloadMessage(keccak, r', i', c'))
  {
    var a: seq<Word> := [keccak(PayloadMessage(keccak, r, i, c))];
    var b: seq<Word> := [keccak(PayloadMessage(keccak, r', i', c'))];
    ConcatInjective(SIGNED_MESSAGE_PREFIX, Words(a), SIGNED_MESSAGE_PREFIX, Words(b));
    WordsInjective(a, b);
    assert a[0] == b[0];
  }

  /**
   * Two equal digests are of the same result, the same clear instruction and the same chain, or
   * else two given different messages have the same keccak hash.
   */
  lemma DigestPinsResult(keccak: Bytes -> Word, r: ClearResult, i: Word, c: Word, r': ClearResult, i': Word, c': Word)
    requires ClearDigest(keccak, r, i, c) == ClearDigest(keccak, r', i', c')
    ensures (r == r' && i == i' && c == c') || LayersCollide(keccak, r, i, c, r', i', c')
  {
    if !LayersCollide(keccak, r, i, c, r', i', c') {
      SignedMessageInjective(keccak, r, i, c, r', i', c');
      PayloadMessageInjective(keccak, r, i, c, r', i', c');
      ActionMessageInjective(keccak, r, i, r', i');
      ResultDataInjective(r, r');
    }
  }

  // ----- the layout of each layer, byte by byte -----

  /** The number in the 32 bytes from this place on, most significant first. */
  function WordAt(b: Bytes, at: nat): nat
    requires at + 32 <= |b|
  {
    BigEndian.FromBytes(b[at..at + 32])
  }

  lemma {:induction false} WordsAt(ws: seq<Word>, k: nat)
    requires k < |ws|
    ensures WordAt(Words(ws), 32 * k) == ws[k]
  {
    var first, rest := BigEndian.ToBytes(ws[0], 32), Words(ws[1..]);
    if k == 0 {
      assert (first + rest)[0..32] == first;
      BigEndian.WidthOfWord();
      BigEndian.BytesRoundTrip(ws[0], 32);
    } else {
      WordsAt(ws[1..], k - 1);
      assert (first + rest)[32 * k..32 * k + 32] == rest[32 * (k - 1)..32 * (k - 1) + 32];
    }
  }

  lemma SliceInside(prefix: Bytes, b: Bytes, suffix: Bytes, at: nat)
    requires at + 32 <= |b|
    ensures WordAt(prefix + b + suffix, |prefix| + at) == WordAt(b, at)
  {
    hide BigEndian.FromBytes;
    var all, from := prefix + b + suffix, |prefix| + at;
    assert all[from..from + 32] == b[at..at + 32];
  }

  lemma WordsAfter(prefix: Bytes, ws: seq<Word>, suffix: Bytes, k: nat)
    requires k < |ws|
    ensures WordAt(prefix + Words(ws) + suffix, |prefix| + 32 * k) == ws[k]
  {
    hide Words, WordAt;
    WordsAt(ws, k);
    SliceInside(prefix, Words(ws), suffix, 32 * k);
  }

  /** The result's eight words, in the order the contract encodes them. */
  lemma ResultLayout(r: ClearResult)
    ensures |ResultData(r)| == 256
    ensures WordAt(ResultData(r), 0) == r.contractAddr && WordAt(ResultData(r), 32) == r.auctionId
    ensures WordAt(ResultData(r), 64) == r.winner && WordAt(ResultData(r), 96) == r.unitPriceWei
    ensures WordAt(ResultData(r), 128) == r.winningNonce && WordAt(ResultData(r), 160) == r.winningCommitment
    ensures WordAt(ResultData(r), 192) == r.submittedBidCount && WordAt(ResultData(r), 224) == r.eligibleBidCount
  {
    hide Words, WordAt;
    var ws: seq<Word> := [r.contractAddr, r.auctionId, r.winner, r.unitPriceWei, r.winningNonce, r.winningCommitment,
                          r.submittedBidCount, r.eligibleBidCount];
    assert ResultData(r) == Words(ws);
    WordsAt(ws, 0);
    WordsAt(ws, 1);
    WordsAt(ws, 2);
    WordsAt(ws, 3);
    WordsAt(ws, 4);
    WordsAt(ws, 5);
    WordsAt(ws, 6);
    WordsAt(ws, 7);
  }

  /** The hash of the result, the instruction, the hash of the text `threshold`, and the status byte 1. */
  lemma ActionLayout(keccak: Bytes -> Word, r: ClearResult, i: Word)
    ensures var b := ActionMessage(keccak, r, i);
            && |b| == 97
            && WordAt(b, 0) == keccak(ResultData(r)) && WordAt(b, 32) == i
            && WordAt(b, 64) == keccak([116, 104, 114, 101, 115, 104, 111, 108, 100])
            && b[96] == 1
  {
    hide Words, WordAt;
    assert Ascii("threshold") == [116, 104, 114, 101, 115, 104, 111, 108, 100];
    var ws: seq<Word> := [keccak(ResultData(r)), i, keccak(Ascii("threshold"))];
    assert ActionMessage(keccak, r, i) == [] + Words(ws) + [1];
    WordsAfter([], ws, [1], 0);
    WordsAfter([], ws, [1], 1);
    WordsAfter([], ws, [1], 2);
  }

  /** The text `TEE_ACTION_RESULT` with zeros up to 32 bytes, the chain, and the hash of the action. */
  lemma PayloadLayout(keccak: Bytes -> Word, r: ClearResult, i: Word, c: Word)
    ensures var b := PayloadMessage(keccak, r, i, c);
            && |b| == 96
            && b[..17] == [84, 69, 69, 95, 65, 67, 84, 73, 79, 78, 95, 82, 69, 83, 85, 76, 84]
            && (forall k :: 17 <= k < 32 ==> b[k] == 0)
            && WordAt(b, 32) == c && WordAt(b, 64) == keccak(ActionMessage(keccak, r, i))
  {
    hide Words, WordAt;
    assert Ascii("TEE_ACTION_RESULT") == [84, 69, 69, 95, 65, 67, 84, 73, 79, 78, 95, 82, 69, 83, 85, 76, 84];
    var ws: seq<Word> := [c, keccak(ActionMessage(keccak, r, i))];
    assert PayloadMessage(keccak, r, i, c) == RESULT_DOMAIN + Words(ws) + [];
    WordsAfter(RESULT_DOMAIN, ws, [], 0);
    WordsAfter(RESULT_DOMAIN, ws, [], 1);
  }

  /** Byte 25, the text `Ethereum Signed Message:`, a line feed, the digits 32, and the hash of the payload. */
  lemma SignedLayout(keccak: Bytes -> Word, r: ClearResult, i: Word, c: Word)
    ensures var b := SignedMessage(keccak, r, i, c);
            && |b| == 60
            && b[..28] == [25, 69, 116, 104, 101, 114, 101, 117, 109, 32, 83, 105, 103, 110, 101, 100, 32,
                           77, 101, 115, 115, 97, 103, 101, 58, 10, 51, 50]
            && WordAt(b, 28) == keccak(PayloadMessage(keccak, r, i, c))
            && ClearDigest(keccak, r, i, c) == keccak(b)
  {
    hide Words, WordAt;
    assert SIGNED_MESSAGE_PREFIX == [25, 69, 116, 104, 101, 114, 101, 117, 109, 32, 83, 105, 103, 110, 101, 100, 32,
                                     77, 101, 115, 115, 97, 103, 101, 58, 10, 51, 50];
    var ws: seq<Word> := [keccak(PayloadMessage(keccak, r, i, c))];
    assert SignedMessage(keccak, r, i, c) == SIGNED_MESSAGE_PREFIX + Words(ws) + [];
    WordsAfter(SIGNED_MESSAGE_PREFIX, ws, [], 0);
  }
}
