/**
 * The platform's text codec: `TextEncoder` and `TextDecoder("utf-8")` of the WHATWG Encoding
 * Standard (sections 8.1.1 "UTF-8 decoder" and 8.1.2 "UTF-8 encoder"). Strings are sequences of
 * Unicode scalar values.
 */
module Utf8 {
  import opened Basics

  const REPLACEMENT: char := '\U{FFFD}'
  const BYTE_ORDER_MARK: char := '\U{FEFF}'

  function EncodeChar(c: char): (b: Bytes)
    ensures 1 <= |b| <= 4
    ensures c != '\0' ==> b[|b| - 1] != 0
  {
    var n := c as int;
    if n < 0x80 then [n]
    else if n < 0x800 then [0xC0 + n / 64, 0x80 + n % 64]
    else if n < 0x10000 then [0xE0 + n / 4096, 0x80 + n / 64 % 64, 0x80 + n % 64]
    else [0xF0 + n / 262144, 0x80 + n / 4096 % 64, 0x80 + n / 64 % 64, 0x80 + n % 64]
  }

  function Encode(s: string): Bytes {
    if s == "" then [] else EncodeChar(s[0]) + Encode(s[1..])
  }

  /** The decoder between two bytes: how many are still due, the range the next must be in, the bits so far. */
  datatype Decoder = Decoder(needed: nat, lower: nat, upper: nat, bits: nat)

  const START := Decoder(0, 0x80, 0xBF, 0)

  function ScalarOf(n: nat): char {
    if n < 0xD800 || 0xE000 <= n < 0x110000 then n as char else REPLACEMENT
  }

  /** The state after a lead byte; `None` for an ASCII byte or a byte that cannot lead. */
  function Lead(b: Byte): Option<Decoder> {
    if 0xC2 <= b <= 0xDF then Some(Decoder(1, 0x80, 0xBF, b - 0xC0))
    else if 0xE0 <= b <= 0xEF then
      Some(Decoder(2, if b == 0xE0 then 0xA0 else 0x80, if b == 0xED then 0x9F else 0xBF, b - 0xE0))
    else if 0xF0 <= b <= 0xF4 then
      Some(Decoder(3, if b == 0xF0 then 0x90 else 0x80, if b == 0xF4 then 0x8F else 0xBF, b - 0xF0))
    else None
  }

  function DecodeFrom(d: Decoder, b: Bytes): string
    decreases |b|, d.needed
  {
    if b == [] then
      if d.needed == 0 then "" else [REPLACEMENT]
    else if d.needed == 0 then
      if b[0] < 0x80 then [b[0] as char] + DecodeFrom(START, b[1..])
      else match Lead(b[0])
        case Some(next) => DecodeFrom(next, b[1..])
        case None => [REPLACEMENT] + DecodeFrom(START, b[1..])
    else if b[0] < 0x80 || b[0] < d.lower || b[0] > d.upper then
      // The unexpected byte is looked at again, as the start of the next character.
      [REPLACEMENT] + DecodeFrom(START, b)
    else
      var bits := d.bits * 64 + (b[0] - 0x80);
      if d.needed == 1 then [ScalarOf(bits)] + DecodeFrom(START, b[1..])
      else DecodeFrom(Decoder(d.needed - 1, 0x80, 0xBF, bits), b[1..])
  }

  /** `TextDecoder` drops one leading byte order mark. */
  function Decode(b: Bytes): string {
    if |b| >= 3 && b[..3] == [0xEF, 0xBB, 0xBF] then DecodeFrom(START, b[3..]) else DecodeFrom(START, b)
  }

  lemma ContinuationStep(d: Decoder, x: Byte, rest: Bytes)
    requires d.needed > 0 && 0x80 <= x && d.lower <= x <= d.upper
    ensures var bits := d.bits * 64 + (x - 0x80);
            DecodeFrom(d, [x] + rest) ==
            if d.needed == 1 then [ScalarOf(bits)] + DecodeFrom(START, rest)
            else DecodeFrom(Decoder(d.needed - 1, 0x80, 0xBF, bits), rest)
  {
    assert ([x] + rest)[1..] == rest;
  }

  lemma LeadStep(x: Byte, rest: Bytes)
    requires Lead(x).Some?
    ensures DecodeFrom(START, [x] + rest) == DecodeFrom(Lead(x).value, rest)
  {
    assert ([x] + rest)[1..] == rest;
  }

  lemma DecodeTwo(n: nat, rest: Bytes)
    requires 0x80 <= n < 0x800
    ensures DecodeFrom(START, [0xC0 + n / 64, 0x80 + n % 64] + rest) == [ScalarOf(n)] + DecodeFrom(START, rest)
  {
    var b0, b1 := 0xC0 + n / 64, 0x80 + n % 64;
    assert [b0, b1] + rest == [b0] + ([b1] + rest);
    LeadStep(b0, [b1] + rest);
    ContinuationStep(Decoder(1, 0x80, 0xBF, n / 64), b1, rest);
  }

  lemma DecodeThree(high: nat, mid: nat, low: nat, rest: Bytes)
    requires high < 16 && mid < 64 && low < 64
    requires high == 0 ==> mid >= 32
    requires high == 13 ==> mid < 32
    ensures DecodeFrom(START, [0xE0 + high, 0x80 + mid, 0x80 + low] + rest) ==
            [ScalarOf((high * 64 + mid) * 64 + low)] + DecodeFrom(START, rest)
  {
    var b0, b1, b2 := 0xE0 + high, 0x80 + mid, 0x80 + low;
    assert [b0, b1, b2] + rest == [b0] + ([b1] + ([b2] + rest));
    LeadStep(b0, [b1] + ([b2] + rest));
    ContinuationStep(Lead(b0).value, b1, [b2] + rest);
    ContinuationStep(Decoder(1, 0x80, 0xBF, high * 64 + mid), b2, rest);
  }

  lemma DecodeFour(top: nat, high: nat, mid: nat, low: nat, rest: Bytes)
    requires top <= 4 && high < 64 && mid < 64 && low < 64
    requires top == 0 ==> high >= 16
    requires top == 4 ==> high < 16
    ensures DecodeFrom(START, [0xF0 + top, 0x80 + high, 0x80 + mid, 0x80 + low] + rest) ==
            [ScalarOf(((top * 64 + high) * 64 + mid) * 64 + low)] + DecodeFrom(START, rest)
  {
    var b0, b1, b2, b3 := 0xF0 + top, 0x80 + high, 0x80 + mid, 0x80 + low;
    assert [b0, b1, b2, b3] + rest == [b0] + ([b1] + ([b2] + ([b3] + rest)));
    LeadStep(b0, [b1] + ([b2] + ([b3] + rest)));
    ContinuationStep(Lead(b0).value, b1, [b2] + ([b3] + rest));
    ContinuationStep(Decoder(2, 0x80, 0xBF, top * 64 + high), b2, [b3] + rest);
    ContinuationStep(Decoder(1, 0x80, 0xBF, (top * 64 + high) * 64 + mid), b3, rest);
  }

  /** A scalar value cut into sextets, most significant first. */
  lemma Sextets(n: nat) returns (top: nat, high: nat, mid: nat, low: nat)
    ensures top == n / 262144 && high == n / 4096 % 64 && mid == n / 64 % 64 && low == n % 64
    ensures n == ((top * 64 + high) * 64 + mid) * 64 + low
    ensures high < 64 && mid < 64 && low < 64
    ensures n < 262144 ==> high == n / 4096
  {
    var a := n / 64;
    var b := a / 64;
    var c := b / 64;
    top, high, mid, low := c, b % 64, a % 64, n % 64;
    assert b == n / 4096;
    assert c == n / 262144;
  }

  lemma DecodeWide(c: char, rest: Bytes)
    requires c as int >= 0x800
    ensures DecodeFrom(START, EncodeChar(c) + rest) == [c] + DecodeFrom(START, rest)
  {
    var n := c as int;
    var top, high, mid, low := Sextets(n);
    assert ScalarOf(n) == c;
    if n < 0x10000 {
      assert EncodeChar(c) == [0xE0 + high, 0x80 + mid, 0x80 + low];
      assert n == (high * 64 + mid) * 64 + low;
      DecodeThree(high, mid, low, rest);
    } else {
      assert EncodeChar(c) == [0xF0 + top, 0x80 + high, 0x80 + mid, 0x80 + low];
      DecodeFour(top, high, mid, low, rest);
    }
  }

  /** One encoded character is read back as that character, whatever follows. */
  lemma DecodeChar(c: char, rest: Bytes)
    ensures DecodeFrom(START, EncodeChar(c) + rest) == [c] + DecodeFrom(START, rest)
  {
    var n := c as int;
    if n < 0x80 {
      assert ([n] + rest)[1..] == rest;
    } else if n < 0x800 {
      DecodeTwo(n, rest);
    } else {
      DecodeWide(c, rest);
    }
  }

  lemma {:induction false} DecodeFromEncode(s: string)
    ensures DecodeFrom(START, Encode(s)) == s
  {
    if s != "" {
      DecodeChar(s[0], Encode(s[1..]));
      DecodeFromEncode(s[1..]);
    }
  }

  lemma EncodeInjective(s: string, t: string)
    requires Encode(s) == Encode(t)
    ensures s == t
  {
    DecodeFromEncode(s);
    DecodeFromEncode(t);
  }

  predicate StartsWithMark(s: string) {
    s != "" && s[0] == BYTE_ORDER_MARK
  }

  /** Only the byte order mark is encoded by bytes starting EF BB BF. */
  lemma MarkPrefix(s: string)
    ensures StartsWithMark(s) <==> |Encode(s)| >= 3 && Encode(s)[..3] == [0xEF, 0xBB, 0xBF]
  {
    var b := Encode(s);
    if s != "" {
      assert forall i :: 0 <= i < |EncodeChar(s[0])| ==> b[i] == EncodeChar(s[0])[i];
      if |b| >= 3 && b[..3] == [0xEF, 0xBB, 0xBF] {
        assert b[0] == b[..3][0] && b[1] == b[..3][1] && b[2] == b[..3][2];
        var n := s[0] as int;
        assert |EncodeChar(s[0])| == 3;
        assert n == n / 4096 * 4096 + n / 64 % 64 * 64 + n % 64;
      }
    }
  }

  function WithoutMark(s: string): string {
    if StartsWithMark(s) then s[1..] else s
  }

  /** What a string becomes on its way through the encoder and the decoder. */
  lemma DecodeEncode(s: string)
    ensures Decode(Encode(s)) == WithoutMark(s)
  {
    MarkPrefix(s);
    if StartsWithMark(s) {
      assert Encode(s)[3..] == Encode(s[1..]);
      DecodeFromEncode(s[1..]);
    } else {
      DecodeFromEncode(s);
    }
  }

  // ----- the bytes themselves -----

  /** One to four bytes by the size of the scalar value; their payload bits, put together, are the value. */
  lemma EncodedBits(c: char)
    ensures var n, b := c as int, EncodeChar(c);
            if n < 128 then b == [n]
            else if n < 2048 then
              |b| == 2 && 192 <= b[0] < 224 && 128 <= b[1] < 192 && n == (b[0] as int - 192) * 64 + (b[1] as int - 128)
            else if n < 65536 then
              && |b| == 3 && 224 <= b[0] < 240 && 128 <= b[1] < 192 && 128 <= b[2] < 192
              && n == (b[0] as int - 224) * 4096 + (b[1] as int - 128) * 64 + (b[2] as int - 128)
            else
              && |b| == 4 && 240 <= b[0] < 248 && 128 <= b[1] < 192 && 128 <= b[2] < 192 && 128 <= b[3] < 192
              && n == (b[0] as int - 240) * 262144 + (b[1] as int - 128) * 4096
                      + (b[2] as int - 128) * 64 + (b[3] as int - 128)
  {
    var top, high, mid, low := Sextets(c as int);
  }

  /** A byte that can start no character is replaced, and decoding goes on after it. */
  lemma BadLeadReplaced(x: Byte, rest: Bytes)
    requires 128 <= x < 194 || 245 <= x
    ensures DecodeFrom(START, [x] + rest) == ['\U{FFFD}'] + DecodeFrom(START, rest)
  {
    assert ([x] + rest)[1..] == rest;
  }

  /** The first two bytes of no scalar value: an overlong form, a surrogate, or a value beyond the last one. */
  predicate NoSuchPair(x: Byte, y: Byte) {
    || (x == 224 && 128 <= y < 160) || (x == 237 && 160 <= y < 192)
    || (x == 240 && 128 <= y < 144) || (x == 244 && 144 <= y < 192)
  }

  /** Then only the first byte is replaced, and the second one is looked at again. */
  lemma BadPairReplaced(x: Byte, y: Byte, rest: Bytes)
    requires NoSuchPair(x, y)
    ensures DecodeFrom(START, [x, y] + rest) == ['\U{FFFD}'] + DecodeFrom(START, [y] + rest)
  {
    assert [x, y] + rest == [x] + ([y] + rest);
    LeadStep(x, [y] + rest);
  }

  /** A character cut short, by the end or by a byte that continues nothing, is replaced as a whole. */
  lemma CutReplaced(c: char, k: nat, rest: Bytes)
    requires 0 < k < |EncodeChar(c)|
    requires rest == [] || rest[0] < 128 || 192 <= rest[0]
    ensures DecodeFrom(START, EncodeChar(c)[..k] + rest) == ['\U{FFFD}'] + DecodeFrom(START, rest)
  {
    hide DecodeFrom;
    var b := EncodeChar(c);
    assert b[..k] + rest == [b[0]] + (b[1..k] + rest);
    LeadFits(c);
    LeadStep(b[0], b[1..k] + rest);
    CutFrom(Lead(b[0]).value, b[1..k], rest);
  }

  lemma LeadFits(c: char)
    requires c as int >= 128
    ensures var b := EncodeChar(c);
            && Lead(b[0]).Some? && Lead(b[0]).value.needed == |b| - 1
            && 128 <= Lead(b[0]).value.lower <= b[1] <= Lead(b[0]).value.upper < 192
            && forall i :: 1 <= i < |b| ==> 128 <= b[i] < 192
  {
    EncodedBits(c);
  }

  lemma {:induction false} CutFrom(d: Decoder, cs: Bytes, rest: Bytes)
    requires |cs| < d.needed && 128 <= d.lower && d.upper < 192
    requires cs != [] ==> d.lower <= cs[0] <= d.upper
    requires forall i :: 0 <= i < |cs| ==> 128 <= cs[i] < 192
    requires rest == [] || rest[0] < 128 || 192 <= rest[0]
    ensures DecodeFrom(d, cs + rest) == ['\U{FFFD}'] + DecodeFrom(START, rest)
    decreases |cs|
  {
    if cs == [] {
      assert cs + rest == rest;
    } else {
      assert cs + rest == [cs[0]] + (cs[1..] + rest);
      ContinuationStep(d, cs[0], cs[1..] + rest);
      CutFrom(Decoder(d.needed - 1, 0x80, 0xBF, d.bits * 64 + (cs[0] - 0x80)), cs[1..], rest);
    }
  }
}
