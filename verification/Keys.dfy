/** The string keys of the enclave's maps, and the order its sort uses on addresses. */
module Keys {
  import opened Basics
  import BigEndian
  import Decimal
  import Hex

  /** An address in lower-case hex: 0x and forty digits. */
  function AddressText(a: Address): (s: string)
    ensures |s| == 42
  {
    Hex.Encode(BigEndian.ToBytes(a, 20))
  }

  /** `keyForAuction`. */
  function AuctionKey(contractAddr: Address, auctionId: Word): string {
    AddressText(contractAddr) + ":" + Decimal.ToDecimal(auctionId)
  }

  function BidderKey(bidder: Address): string {
    AddressText(bidder)
  }

  lemma AddressTextInjective(a: Address, b: Address)
    requires AddressText(a) == AddressText(b)
    ensures a == b
  {
    var x, y := BigEndian.ToBytes(a, 20), BigEndian.ToBytes(b, 20);
    Hex.DecodeEncode(x);
    Hex.DecodeEncode(y);
    BigEndian.WidthOfAddress();
    BigEndian.BytesRoundTrip(a, 20);
    BigEndian.BytesRoundTrip(b, 20);
  }

  /** Different auctions have different keys. */
  lemma AuctionKeyInjective(c: Address, id: Word, c': Address, id': Word)
    requires AuctionKey(c, id) == AuctionKey(c', id')
    ensures c == c' && id == id'
  {
    var k, k' := AuctionKey(c, id), AuctionKey(c', id');
    assert AddressText(c) == k[..42] && AddressText(c') == k'[..42];
    assert Decimal.ToDecimal(id) == k[43..] && Decimal.ToDecimal(id') == k'[43..];
    AddressTextInjective(c, c');
    Decimal.ToDecimalValue(id);
    Decimal.ToDecimalValue(id');
  }

  function Codes(s: string): (c: seq<nat>)
    ensures |c| == |s|
  {
    seq(|s|, i requires 0 <= i < |s| => s[i] as int)
  }

  /** `s.localeCompare(t) < 0` for strings of digits and lower-case letters of equal length. */
  predicate LocaleLess(s: string, t: string)
    requires |s| == |t|
  {
    BigEndian.LexLess(Codes(s), Codes(t))
  }

  lemma LexHead(a: nat, xs: seq<nat>, b: nat, ys: seq<nat>)
    requires |xs| == |ys|
    ensures BigEndian.LexLess([a] + xs, [b] + ys) <==> a < b || (a == b && BigEndian.LexLess(xs, ys))
  {
    assert ([a] + xs)[1..] == xs && ([b] + ys)[1..] == ys;
  }

  lemma BodyHead(b: Bytes)
    requires b != []
    ensures Codes(Hex.Body(b)) ==
            [Hex.DigitChar(b[0] / 16) as int] + ([Hex.DigitChar(b[0] % 16) as int] + Codes(Hex.Body(b[1..])))
  {
    var left := Codes(Hex.Body(b));
    var right := [Hex.DigitChar(b[0] / 16) as int] + ([Hex.DigitChar(b[0] % 16) as int] + Codes(Hex.Body(b[1..])));
    forall k | 0 <= k < |left|
      ensures left[k] == right[k]
    {
      if k >= 2 {
        var j := k - 2;
        assert k / 2 == j / 2 + 1 && k % 2 == j % 2;
        assert Hex.Body(b)[k] == Hex.Body(b[1..])[j];
      }
    }
  }

  /** Hex text orders like the bytes it spells. */
  lemma {:induction false} HexOrder(a: Bytes, b: Bytes)
    requires |a| == |b|
    ensures LocaleLess(Hex.Body(a), Hex.Body(b)) <==> BigEndian.LexLess(a, b)
  {
    if a != [] {
      BodyHead(a);
      BodyHead(b);
      var x, y := Codes(Hex.Body(a[1..])), Codes(Hex.Body(b[1..]));
      var a1, b1 := Hex.DigitChar(a[0] % 16) as int, Hex.DigitChar(b[0] % 16) as int;
      LexHead(Hex.DigitChar(a[0] / 16) as int, [a1] + x, Hex.DigitChar(b[0] / 16) as int, [b1] + y);
      LexHead(a1, x, b1, y);
      HexOrder(a[1..], b[1..]);
    }
  }

  lemma {:induction false} PrefixOrder(p: seq<nat>, x: seq<nat>, y: seq<nat>)
    requires |x| == |y|
    ensures BigEndian.LexLess(p + x, p + y) <==> BigEndian.LexLess(x, y)
  {
    if p == [] {
      assert p + x == x && p + y == y;
    } else {
      assert p + x == [p[0]] + (p[1..] + x) && p + y == [p[0]] + (p[1..] + y);
      LexHead(p[0], p[1..] + x, p[0], p[1..] + y);
      PrefixOrder(p[1..], x, y);
    }
  }

  /** Comparing address texts is comparing the addresses as numbers. */
  lemma AddressOrder(a: Address, b: Address)
    ensures LocaleLess(AddressText(a), AddressText(b)) <==> a < b
  {
    var x, y := BigEndian.ToBytes(a, 20), BigEndian.ToBytes(b, 20);
    assert Codes(AddressText(a)) == Codes("0x") + Codes(Hex.Body(x));
    assert Codes(AddressText(b)) == Codes("0x") + Codes(Hex.Body(y));
    PrefixOrder(Codes("0x"), Codes(Hex.Body(x)), Codes(Hex.Body(y)));
    HexOrder(x, y);
    BigEndian.WidthOfAddress();
    BigEndian.BytesOrder(a, b, 20);
  }
}
