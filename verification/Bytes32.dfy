/** Names as right-padded 32-byte identifiers, and back (`typescript/src/base/encoding.ts:44-74`). */
module Bytes32 {
  import opened Basics
  import Hex
  import Utf8

  function Zeros(n: nat): Bytes {
    seq(n, i => 0)
  }

  function Padded(b: Bytes): (p: Bytes)
    requires |b| <= 32
    ensures |p| == 32
  {
    b + Zeros(32 - |b|)
  }

  /** `None` is the thrown error for a name of more than 32 bytes. */
  function Identifier(name: string): Option<string> {
    var b := Utf8.Encode(name);
    if |b| > 32 then None else Some(Hex.Encode(Padded(b)))
  }

  /** Accepted exactly up to 32 bytes of UTF-8, and then spelling those bytes with zeros after them. */
  lemma IdentifierIff(name: string)
    ensures Identifier(name).Some? <==> |Utf8.Encode(name)| <= 32
    ensures Identifier(name).Some? ==>
              && |Identifier(name).value| == 66
              && Hex.Decode(Some(Identifier(name).value)).Some?
              && var b, n := Hex.Decode(Some(Identifier(name).value)).value, |Utf8.Encode(name)|;
                 |b| == 32 && b[..n] == Utf8.Encode(name) && forall k :: n <= k < 32 ==> b[k] == 0
  {
    hide Hex.Decode, Utf8.Encode;
    var e := Utf8.Encode(name);
    if |e| <= 32 {
      Hex.DecodeEncode(Padded(e));
      assert Padded(e)[..|e|] == e;
    }
  }

  function TrimZeros(b: Bytes): Bytes {
    if b != [] && b[|b| - 1] == 0 then TrimZeros(b[..|b| - 1]) else b
  }

  function Name(h: string): string {
    match Hex.Decode(Some(h))
    case None => ""
    case Some(b) => Utf8.Decode(TrimZeros(b))
  }

  /** The name without its trailing NUL characters, which the padding swallows. */
  function DropNuls(name: string): string {
    if name != "" && name[|name| - 1] == '\0' then DropNuls(name[..|name| - 1]) else name
  }

  lemma {:induction false} EncodeSnoc(s: string, c: char)
    ensures Utf8.Encode(s + [c]) == Utf8.Encode(s) + Utf8.EncodeChar(c)
  {
    if s == "" {
      assert s + [c] == [c] && [c][1..] == "";
      assert Utf8.EncodeChar(c) + [] == Utf8.EncodeChar(c) == [] + Utf8.EncodeChar(c);
    } else {
      assert (s + [c])[1..] == s[1..] + [c];
      EncodeSnoc(s[1..], c);
    }
  }

  lemma {:induction false} TrimPadding(b: Bytes, n: nat)
    ensures TrimZeros(b + Zeros(n)) == TrimZeros(b)
  {
    if n == 0 {
      assert b + Zeros(0) == b;
    } else {
      var padded := b + Zeros(n);
      assert padded[..|padded| - 1] == b + Zeros(n - 1);
      TrimPadding(b, n - 1);
    }
  }

  lemma {:induction false} TrimEncoded(name: string)
    ensures TrimZeros(Utf8.Encode(name)) == Utf8.Encode(DropNuls(name))
  {
    if name != "" {
      var front, c := name[..|name| - 1], name[|name| - 1];
      EncodeSnoc(front, c);
      assert name == front + [c];
      var b := Utf8.Encode(name);
      if c == '\0' {
        assert b[..|b| - 1] == Utf8.Encode(front);
        TrimEncoded(front);
      }
    }
  }

  lemma NameOfPadded(b: Bytes, t: Bytes)
    requires |b| <= 32 && TrimZeros(b) == t
    ensures Name(Hex.Encode(Padded(b))) == Utf8.Decode(t)
  {
    hide TrimZeros, Hex.Encode, Hex.Decode, Utf8.Decode;
    Hex.DecodeEncode(Padded(b));
    TrimPadding(b, 32 - |b|);
  }

  /** The zeros at the end are dropped, however many there are, and the rest is decoded; malformed hex is no name. */
  lemma NameOfBytes(b: Bytes, n: nat, h: string)
    requires b == [] || b[|b| - 1] != 0
    ensures Name(Hex.Encode(b + Zeros(n))) == Utf8.Decode(b)
    ensures Hex.Decode(Some(h)).None? ==> Name(h) == ""
  {
    hide Hex.Encode, Hex.Decode, Utf8.Decode;
    Hex.DecodeEncode(b + Zeros(n));
    TrimPadding(b, n);
  }

  /** What every name that fits turns into on the way there and back. */
  lemma NameOfIdentifier(name: string)
    requires Identifier(name).Some?
    ensures Name(Identifier(name).value) == Utf8.WithoutMark(DropNuls(name))
  {
    hide TrimZeros, Hex.Encode, Hex.Decode, Utf8.Decode, Utf8.Encode, DropNuls, Utf8.WithoutMark, Padded, Name;
    var kept := DropNuls(name);
    TrimEncoded(name);
    NameOfPadded(Utf8.Encode(name), Utf8.Encode(kept));
    Utf8.DecodeEncode(kept);
  }

  lemma {:induction false} DropNulsShortens(name: string)
    ensures |DropNuls(name)| <= |name|
    ensures DropNuls(name) == name <==> name == "" || name[|name| - 1] != '\0'
  {
    if name != "" && name[|name| - 1] == '\0' {
      DropNulsShortens(name[..|name| - 1]);
    }
  }

  /** The round trip holds for exactly the names that neither end in NUL nor start with a byte order mark. */
  lemma RoundTripIff(name: string)
    requires Identifier(name).Some?
    ensures Name(Identifier(name).value) == name <==>
            !Utf8.StartsWithMark(name) && (name == "" || name[|name| - 1] != '\0')
  {
    NameOfIdentifier(name);
    DropNulsShortens(name);
    var kept := DropNuls(name);
    if kept != name {
      assert |kept| < |name| by { DropNulsStrict(name); }
    }
  }

  lemma DropNulsStrict(name: string)
    requires name != "" && name[|name| - 1] == '\0'
    ensures |DropNuls(name)| < |name|
  {
    DropNulsShortens(name[..|name| - 1]);
  }

  /** A name the round trip loses: the decoder takes its first character for a byte order mark. */
  lemma MarkedNameIsLost()
    ensures Identifier("\U{FEFF}QF").Some? && Name(Identifier("\U{FEFF}QF").value) == "QF"
  {
    var name := "\U{FEFF}QF";
    assert name[1..] == "QF" && name[1..][1..] == "F" && name[1..][1..][1..] == "";
    assert |Utf8.Encode("F")| == 1 && |Utf8.Encode("QF")| == 2 && |Utf8.Encode(name)| == 5;
    NameOfIdentifier(name);
  }

  lemma PaddedFromTrimmed(x: Bytes, t: Bytes)
    requires |x| <= 32 && TrimZeros(x) == t
    ensures |t| <= 32 && Padded(x) == t + Zeros(32 - |t|)
  {
    TrimThenPad(x, t);
  }

  lemma PaddedEqualIff(x: Bytes, y: Bytes, tx: Bytes, ty: Bytes)
    requires |x| <= 32 && |y| <= 32 && TrimZeros(x) == tx && TrimZeros(y) == ty
    ensures Padded(x) == Padded(y) <==> tx == ty
  {
    hide TrimZeros;
    PaddedFromTrimmed(x, tx);
    PaddedFromTrimmed(y, ty);
    TrimPadding(x, 32 - |x|);
    TrimPadding(y, 32 - |y|);
  }

  /** Two names share an identifier exactly when they differ in trailing NULs only. */
  lemma IdentifierInjective(a: string, b: string)
    requires Identifier(a).Some? && Identifier(b).Some?
    ensures Identifier(a) == Identifier(b) <==> DropNuls(a) == DropNuls(b)
  {
    hide TrimZeros, Hex.Encode, Hex.Decode, Utf8.Encode, DropNuls, Padded;
    var x, y := Utf8.Encode(a), Utf8.Encode(b);
    TrimEncoded(a);
    TrimEncoded(b);
    PaddedEqualIff(x, y, Utf8.Encode(DropNuls(a)), Utf8.Encode(DropNuls(b)));
    if Padded(x) != Padded(y) {
      Hex.DecodeEncode(Padded(x));
      Hex.DecodeEncode(Padded(y));
    }
    if Padded(x) == Padded(y) {
      Utf8.EncodeInjective(DropNuls(a), DropNuls(b));
    }
  }

  lemma {:induction false} TrimThenPad(b: Bytes, trimmed: Bytes)
    requires TrimZeros(b) == trimmed
    ensures |trimmed| <= |b| && b == trimmed + Zeros(|b| - |trimmed|)
  {
    if b != [] && b[|b| - 1] == 0 {
      TrimThenPad(b[..|b| - 1], trimmed);
    }
  }

  method StringToBytes32Hex(s: string) returns (ok: bool, h: string)
    ensures ok <==> Identifier(s).Some?
    ensures ok ==> h == Identifier(s).value && |h| == 66
  {
    var encoded := Utf8.Encode(s);
    if |encoded| > 32 {
      return false, "";
    }
    var padded := new Byte[32](i => 0);
    forall i | 0 <= i < |encoded| {
      padded[i] := encoded[i];
    }
    assert padded[..] == Padded(encoded);
    h := Hex.BytesToHex(padded);
    ok := true;
  }

  method Bytes32HexToString(h: string) returns (s: string)
    ensures s == Name(h)
  {
    var ok, b := Hex.HexToBytes(Some(h));
    if !ok {
      return "";
    }
    var end := b.Length;
    assert b[..end] == b[..];
    while end > 0 && b[end - 1] == 0
      invariant 0 <= end <= b.Length
      invariant TrimZeros(b[..end]) == TrimZeros(b[..])
    {
      assert b[..end][..end - 1] == b[..end - 1];
      end := end - 1;
    }
    s := Utf8.Decode(b[..end]);
  }
}
