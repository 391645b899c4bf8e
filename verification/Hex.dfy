/** The hex codec of `typescript/src/base/encoding.ts`: the loops, and the functions they compute. */
module Hex {
  import opened Basics

  predicate IsHexDigit(c: char) {
    '0' <= c <= '9' || 'a' <= c <= 'f' || 'A' <= c <= 'F'
  }

  function DigitValue(c: char): (v: nat)
    requires IsHexDigit(c)
    ensures v < 16
  {
    if c <= '9' then c as int - '0' as int
    else if c <= 'F' then c as int - 'A' as int + 10
    else c as int - 'a' as int + 10
  }

  function DigitChar(v: nat): (c: char)
    requires v < 16
    ensures IsHexDigit(c) && !('A' <= c <= 'F') && DigitValue(c) == v
  {
    if v < 10 then ('0' as int + v) as char else ('a' as int + v - 10) as char
  }

  function Lower(c: char): char {
    if 'A' <= c <= 'Z' then (c as int + 32) as char else c
  }

  function LowerAll(s: string): string {
    seq(|s|, i requires 0 <= i < |s| => Lower(s[i]))
  }

  function Unprefixed(h: string): string {
    if |h| >= 2 && h[0] == '0' && (h[1] == 'x' || h[1] == 'X') then h[2..] else h
  }

  predicate IsHexBody(s: string) {
    |s| % 2 == 0 && forall i :: 0 <= i < |s| ==> IsHexDigit(s[i])
  }

  /** Two lower-case digits for every byte. */
  function Body(b: Bytes): (s: string)
    ensures |s| == 2 * |b| && IsHexBody(s)
  {
    seq(2 * |b|, k requires 0 <= k < 2 * |b| =>
      DigitChar(if k % 2 == 0 then b[k / 2] / 16 else b[k / 2] % 16))
  }

  function Encode(b: Bytes): string {
    "0x" + Body(b)
  }

  function BodyBytes(s: string): (b: Bytes)
    requires IsHexBody(s)
    ensures |b| == |s| / 2
  {
    seq(|s| / 2, i requires 0 <= i < |s| / 2 => DigitValue(s[2 * i]) * 16 + DigitValue(s[2 * i + 1]))
  }

  /** `None` is the thrown error; a missing string decodes to no bytes. */
  function Decode(h: Option<string>): Option<Bytes> {
    match h
    case None => Some([])
    case Some(s) =>
      if IsHexBody(Unprefixed(s)) then Some(BodyBytes(Unprefixed(s))) else None
  }

  /** Decoding undoes encoding for every byte sequence. */
  lemma DecodeEncode(b: Bytes)
    ensures Decode(Some(Encode(b))) == Some(b)
  {
    hide Body, DigitChar, DigitValue, IsHexDigit;
    assert Unprefixed(Encode(b)) == Body(b);
    forall i | 0 <= i < |b|
      ensures BodyBytes(Body(b))[i] == b[i]
    {
      BodyAt(b, i);
    }
    assert BodyBytes(Body(b)) == b;
  }

  lemma BodyAt(b: Bytes, i: nat)
    requires i < |b|
    ensures Body(b)[2 * i] == DigitChar(b[i] / 16) && Body(b)[2 * i + 1] == DigitChar(b[i] % 16)
  {
    hide DigitChar;
    assert (2 * i) / 2 == i && (2 * i + 1) / 2 == i;
  }

  /** Encoding what was decoded gives the canonical spelling: prefixed and in lower case. */
  lemma EncodeDecode(h: string)
    requires Decode(Some(h)).Some?
    ensures Encode(Decode(Some(h)).value) == "0x" + LowerAll(Unprefixed(h))
  {
    var s := Unprefixed(h);
    forall k | 0 <= k < |s|
      ensures Body(BodyBytes(s))[k] == Lower(s[k])
    {
      CanonicalAt(s, k);
    }
    assert Body(BodyBytes(s)) == LowerAll(s);
  }

  lemma CanonicalAt(s: string, k: nat)
    requires IsHexBody(s) && k < |s|
    ensures Body(BodyBytes(s))[k] == Lower(s[k])
  {
    var i := k / 2;
    var high, low := DigitValue(s[2 * i]), DigitValue(s[2 * i + 1]);
    assert BodyBytes(s)[i] == high * 16 + low;
    assert (high * 16 + low) / 16 == high && (high * 16 + low) % 16 == low;
    assert k == if k % 2 == 0 then 2 * i else 2 * i + 1;
    CanonicalDigit(s[k]);
  }

  lemma CanonicalDigit(c: char)
    requires IsHexDigit(c)
    ensures DigitChar(DigitValue(c)) == Lower(c)
  {
  }

  method HexToBytes(h: Option<string>) returns (ok: bool, out: array<Byte>)
    ensures ok <==> Decode(h).Some?
    ensures ok ==> out[..] == Decode(h).value
    ensures fresh(out)
  {
    out := new Byte[0];
    if h.None? {
      return true, out;
    }
    var s := h.value;
    if |s| >= 2 && (s[..2] == "0x" || s[..2] == "0X") {
      s := s[2..];
    }
    assert s == Unprefixed(h.value);
    if |s| == 0 {
      return true, out;
    }
    if |s| % 2 != 0 {
      return false, out;
    }
    if !(forall i :: 0 <= i < |s| ==> IsHexDigit(s[i])) {
      return false, out;
    }
    out := new Byte[|s| / 2];
    for i := 0 to out.Length
      invariant forall j :: 0 <= j < i ==> out[j] == BodyBytes(s)[j]
    {
      out[i] := DigitValue(s[2 * i]) * 16 + DigitValue(s[2 * i + 1]);
    }
    ok := true;
  }

  /** `byte.toString(16).padStart(2, "0")`. */
  function ByteText(x: Byte): (s: string)
    ensures |s| == 2 && s[0] == DigitChar(x / 16) && s[1] == DigitChar(x % 16)
  {
    var plain := if x < 16 then [DigitChar(x)] else [DigitChar(x / 16), DigitChar(x % 16)];
    if |plain| < 2 then "0" + plain else plain
  }

  method BytesToHex(b: array<Byte>) returns (s: string)
    ensures s == Encode(b[..])
  {
    s := "0x";
    for i := 0 to b.Length
      invariant |s| == 2 + 2 * i
      invariant s == Encode(b[..i])
    {
      ghost var before := s;
      s := s + ByteText(b[i]);
      forall k | 0 <= k < |s|
        ensures s[k] == Encode(b[..i + 1])[k]
      {
        if k < |before| {
          assert s[k] == Encode(b[..i])[k];
        } else {
          assert (k - 2) / 2 == i;
        }
      }
    }
    assert b[..b.Length] == b[..];
  }

  // ----- the spelling, digit by digit -----

  const LOWER_DIGITS := "0123456789abcdef"
  const UPPER_DIGITS := "0123456789ABCDEF"

  /** The character spells this sixteenth, in either case. */
  predicate Spells(c: char, v: nat)
    requires v < 16
  {
    c == LOWER_DIGITS[v] || c == UPPER_DIGITS[v]
  }

  lemma DigitSpells(c: char, v: nat)
    requires v < 16
    ensures IsHexDigit(c) && DigitValue(c) == v <==> Spells(c, v)
  {
  }

  /** Text decodes to these bytes if and only if, an optional 0x or 0X aside, it spells them two digits each. */
  lemma DecodesIff(h: string, b: Bytes)
    ensures Decode(Some(h)) == Some(b) <==>
            var s := if |h| >= 2 && (h[..2] == "0x" || h[..2] == "0X") then h[2..] else h;
            && |s| == 2 * |b|
            && forall i :: 0 <= i < |b| ==> Spells(s[2 * i], b[i] / 16) && Spells(s[2 * i + 1], b[i] % 16)
    ensures Decode(None) == Some([])
  {
    hide DigitValue, IsHexDigit, Spells;
    var s := Unprefixed(h);
    assert s == if |h| >= 2 && (h[..2] == "0x" || h[..2] == "0X") then h[2..] else h;
    if Decode(Some(h)) == Some(b) {
      forall i | 0 <= i < |b|
        ensures Spells(s[2 * i], b[i] / 16) && Spells(s[2 * i + 1], b[i] % 16)
      {
        PairSpells(s[2 * i], s[2 * i + 1], b[i]);
      }
    } else if |s| == 2 * |b| {
      if forall i :: 0 <= i < |b| ==> Spells(s[2 * i], b[i] / 16) && Spells(s[2 * i + 1], b[i] % 16) {
        SpelledDecodes(s, b);
      }
    }
  }

  lemma PairSpells(high: char, low: char, x: Byte)
    requires IsHexDigit(high) && IsHexDigit(low)
    ensures x == DigitValue(high) * 16 + DigitValue(low) <==> Spells(high, x / 16) && Spells(low, x % 16)
  {
    hide DigitValue, IsHexDigit, Spells;
    DigitSpells(high, x / 16);
    DigitSpells(low, x % 16);
  }

  lemma SpelledDecodes(s: string, b: Bytes)
    requires |s| == 2 * |b|
    requires forall i :: 0 <= i < |b| ==> Spells(s[2 * i], b[i] / 16) && Spells(s[2 * i + 1], b[i] % 16)
    ensures IsHexBody(s) && BodyBytes(s) == b
  {
    hide DigitValue, IsHexDigit, Spells;
    forall k | 0 <= k < |s|
      ensures IsHexDigit(s[k])
    {
      var i := k / 2;
      assert k == 2 * i || k == 2 * i + 1;
      DigitSpells(s[2 * i], b[i] / 16);
      DigitSpells(s[2 * i + 1], b[i] % 16);
    }
    forall i | 0 <= i < |b|
      ensures BodyBytes(s)[i] == b[i]
    {
      PairSpells(s[2 * i], s[2 * i + 1], b[i]);
    }
  }

  /** Encoding spells every byte with two lower-case digits after 0x. */
  lemma EncodesAs(b: Bytes, i: nat)
    requires i < |b|
    ensures |Encode(b)| == 2 + 2 * |b| && Encode(b)[..2] == "0x"
    ensures Encode(b)[2 + 2 * i] == LOWER_DIGITS[b[i] / 16] && Encode(b)[3 + 2 * i] == LOWER_DIGITS[b[i] % 16]
  {
    hide Body, DigitChar;
    BodyAt(b, i);
    DigitCharIs(b[i] / 16);
    DigitCharIs(b[i] % 16);
    assert Encode(b)[2 + 2 * i] == Body(b)[2 * i] && Encode(b)[3 + 2 * i] == Body(b)[2 * i + 1];
  }

  lemma DigitCharIs(v: nat)
    requires v < 16
    ensures DigitChar(v) == LOWER_DIGITS[v]
  {
  }
}
