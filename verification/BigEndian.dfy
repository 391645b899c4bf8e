/** Big-endian bytes of fixed width, and their order. */
module BigEndian {
  import opened Basics

  function Pow256(e: nat): (p: nat)
    ensures p > 0
  {
    if e == 0 then 1 else Pow256(e - 1) * 256
  }

  /** The `len` low bytes of `n`, most significant first. */
  function ToBytes(n: nat, len: nat): (bs: Bytes)
    ensures |bs| == len
  {
    if len == 0 then [] else ToBytes(n / 256, len - 1) + [n % 256]
  }

  function FromBytes(bs: Bytes): nat {
    if bs == [] then 0 else FromBytes(bs[..|bs| - 1]) * 256 + bs[|bs| - 1]
  }

  /** The place values: from most significant to least, each byte counts 256 times the next. */
  lemma {:induction false} FromBytesHead(bs: Bytes)
    requires bs != []
    ensures FromBytes(bs) == bs[0] * Pow256(|bs| - 1) + FromBytes(bs[1..])
  {
    if |bs| > 1 {
      var n := |bs| - 1;
      FromBytesHead(bs[..n]);
      assert bs[..n][1..] == bs[1..][..n - 1];
      assert Pow256(n) == Pow256(n - 1) * 256;
      assert bs[0] * Pow256(n) == bs[0] * Pow256(n - 1) * 256;
    } else {
      assert bs[..0] == [] && bs[1..] == [];
    }
  }

  /** A number that fits in `len` bytes is recovered from them. */
  lemma {:induction false} BytesRoundTrip(n: nat, len: nat)
    requires n < Pow256(len)
    ensures FromBytes(ToBytes(n, len)) == n
  {
    if len > 0 {
      BytesRoundTrip(n / 256, len - 1);
      var bs := ToBytes(n, len);
      assert bs[..|bs| - 1] == ToBytes(n / 256, len - 1);
    }
  }

  /** Strict dictionary order on sequences of equal length. */
  predicate LexLess(a: seq<nat>, b: seq<nat>)
    requires |a| == |b|
  {
    |a| > 0 && (a[0] < b[0] || (a[0] == b[0] && LexLess(a[1..], b[1..])))
  }

  lemma {:induction false} LexLessSnoc(a: seq<nat>, x: nat, b: seq<nat>, y: nat)
    requires |a| == |b|
    ensures LexLess(a + [x], b + [y]) <==> LexLess(a, b) || (a == b && x < y)
  {
    var ax, bx := a + [x], b + [y];
    if |a| == 0 {
      assert ax[1..] == [] && bx[1..] == [];
    } else {
      assert ax[1..] == a[1..] + [x] && bx[1..] == b[1..] + [y];
      LexLessSnoc(a[1..], x, b[1..], y);
      assert a == [a[0]] + a[1..] && b == [b[0]] + b[1..];
    }
  }

  /** Dictionary order of fixed-width numerals is numeric order. */
  lemma {:induction false} BytesOrder(m: nat, n: nat, len: nat)
    requires m < Pow256(len) && n < Pow256(len)
    ensures LexLess(ToBytes(m, len), ToBytes(n, len)) <==> m < n
  {
    if len > 0 {
      BytesOrder(m / 256, n / 256, len - 1);
      var a, b := ToBytes(m / 256, len - 1), ToBytes(n / 256, len - 1);
      LexLessSnoc(a, m % 256, b, n % 256);
      if a == b {
        BytesRoundTrip(m / 256, len - 1);
        BytesRoundTrip(n / 256, len - 1);
      }
    }
  }

  lemma WidthOfAddress()
    ensures Pow256(20) == ADDRESS_SPACE
  {
    assert Pow256(4) == 0x1_00000000;
    assert Pow256(8) == 0x1_00000000_00000000;
    assert Pow256(12) == 0x1_00000000_00000000_00000000;
    assert Pow256(16) == 0x1_00000000_00000000_00000000_00000000;
    assert Pow256(20) == 0x1_00000000_00000000_00000000_00000000_00000000;
  }

  lemma WidthOfUint64()
    ensures Pow256(8) == UINT64_SPACE
  {
    assert Pow256(4) == 0x1_00000000;
  }

  lemma WidthOfWord()
    ensures Pow256(32) == WORD_SPACE
  {
    WidthOfAddress();
    assert Pow256(24) == ADDRESS_SPACE * 0x1_00000000;
    assert Pow256(28) == ADDRESS_SPACE * 0x1_00000000_00000000;
    assert Pow256(32) == ADDRESS_SPACE * 0x1_00000000_00000000_00000000;
  }
}
