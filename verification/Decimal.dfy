/** Exact decimal amounts: the printer and the parser of `web/src/lib/quietfill.ts:76-89`. */
module Decimal {
  import opened Basics

  function Pow10(e: nat): (p: nat)
    ensures p > 0
  {
    if e == 0 then 1 else Pow10(e - 1) * 10
  }

  predicate IsDigit(c: char) {
    '0' <= c <= '9'
  }

  predicate AllDigits(s: string) {
    forall i :: 0 <= i < |s| ==> IsDigit(s[i])
  }

  function DigitOf(n: nat): (c: char)
    requires n < 10
    ensures IsDigit(c) && c as int - '0' as int == n
  {
    ('0' as int + n) as char
  }

  /** The number a digit string denotes; the empty string is zero, as in `BigInt(s || "0")`. */
  function DigitsValue(s: string): nat
    requires AllDigits(s)
  {
    if s == "" then 0 else DigitsValue(s[..|s| - 1]) * 10 + (s[|s| - 1] as int - '0' as int)
  }

  /** `n.toString()`. */
  function ToDecimal(n: nat): (s: string)
    ensures |s| > 0 && AllDigits(s)
  {
    if n < 10 then [DigitOf(n)] else ToDecimal(n / 10) + [DigitOf(n % 10)]
  }

  function IntText(v: int): string {
    if v < 0 then "-" + ToDecimal(-v) else ToDecimal(v)
  }

  function Repeat(c: char, n: nat): (s: string)
    ensures |s| == n && forall i :: 0 <= i < n ==> s[i] == c
  {
    seq(n, i => c)
  }

  function PadStart(s: string, n: nat, c: char): string {
    if |s| < n then Repeat(c, n - |s|) + s else s
  }

  function PadEnd(s: string, n: nat, c: char): string {
    if |s| < n then s + Repeat(c, n - |s|) else s
  }

  /** `.replace(/0+$/, "")`. */
  function StripZeros(s: string): string {
    if s != "" && s[|s| - 1] == '0' then StripZeros(s[..|s| - 1]) else s
  }

  predicate IsSpace(c: char) {
    || '\U{0009}' <= c <= '\U{000D}' || c == ' ' || c == '\U{00A0}' || c == '\U{1680}'
    || '\U{2000}' <= c <= '\U{200A}' || c == '\U{2028}' || c == '\U{2029}' || c == '\U{202F}'
    || c == '\U{205F}' || c == '\U{3000}' || c == '\U{FEFF}'
  }

  function TrimEnd(s: string): string {
    if s != "" && IsSpace(s[|s| - 1]) then TrimEnd(s[..|s| - 1]) else s
  }

  function Trim(s: string): string {
    if s != "" && IsSpace(s[0]) then Trim(s[1..]) else TrimEnd(s)
  }

  function Split(s: string, sep: char): (parts: seq<string>)
    ensures |parts| > 0
  {
    if s == "" then [""]
    else
      var rest := Split(s[1..], sep);
      if s[0] == sep then [""] + rest else [[s[0]] + rest[0]] + rest[1..]
  }

  /** BigInt division and remainder truncate towards zero. */
  function TruncDiv(v: int, base: nat): int
    requires base > 0
  {
    if v < 0 then -(-v / base) else v / base
  }

  function TruncMod(v: int, base: nat): int
    requires base > 0
  {
    if v < 0 then -(-v % base) else v % base
  }

  function FormatUnits(value: int, decimals: nat): string {
    var base := Pow10(decimals);
    Joined(TruncDiv(value, base), TruncMod(value, base), decimals)
  }

  function Joined(quotient: int, rem: int, decimals: nat): string {
    var frac := StripZeros(PadStart(IntText(rem), decimals, '0'));
    if frac != "" then IntText(quotient) + "." + frac else IntText(quotient)
  }

  function ParseParts(whole: string, frac: string, decimals: nat): Option<nat> {
    if !AllDigits(whole) || !AllDigits(frac) || |frac| > decimals then None
    else Some(DigitsValue(whole) * Pow10(decimals) + DigitsValue(PadEnd(frac, decimals, '0')))
  }

  /** `None` is the thrown error. Parts after the second are not looked at. */
  function ParseUnits(value: string, decimals: nat): Option<nat> {
    var parts := Split(Trim(value), '.');
    ParseParts(parts[0], if |parts| > 1 then parts[1] else "", decimals)
  }

  // ----- digit strings -----

  lemma {:induction false} ToDecimalValue(n: nat)
    ensures DigitsValue(ToDecimal(n)) == n
  {
    var s := ToDecimal(n);
    if n < 10 {
      assert s[..|s| - 1] == "";
    } else {
      assert s[..|s| - 1] == ToDecimal(n / 10);
      ToDecimalValue(n / 10);
    }
  }

  lemma {:induction false} ToDecimalLength(n: nat, d: nat)
    requires n < Pow10(d) && d > 0
    ensures |ToDecimal(n)| <= d
  {
    if n >= 10 {
      ToDecimalLength(n / 10, d - 1);
    }
  }

  lemma {:induction false} ValueOfConcat(a: string, b: string)
    requires AllDigits(a) && AllDigits(b)
    ensures AllDigits(a + b) && DigitsValue(a + b) == DigitsValue(a) * Pow10(|b|) + DigitsValue(b)
  {
    if b == "" {
      assert a + b == a;
    } else {
      var front := b[..|b| - 1];
      ValueOfConcat(a, front);
      assert (a + b)[..|a + b| - 1] == a + front;
      calc {
        DigitsValue(a + b);
        (DigitsValue(a) * Pow10(|b| - 1) + DigitsValue(front)) * 10 + (b[|b| - 1] as int - '0' as int);
        DigitsValue(a) * Pow10(|b| - 1) * 10 + DigitsValue(b);
        { MulAssoc(DigitsValue(a), Pow10(|b| - 1), 10); }
        DigitsValue(a) * Pow10(|b|) + DigitsValue(b);
      }
    }
  }

  lemma MulAssoc(a: nat, b: nat, c: nat)
    ensures a * b * c == a * (b * c)
  {
  }

  lemma {:induction false} ZerosValue(n: nat)
    ensures AllDigits(Repeat('0', n)) && DigitsValue(Repeat('0', n)) == 0
  {
    if n > 0 {
      assert Repeat('0', n)[..n - 1] == Repeat('0', n - 1);
      ZerosValue(n - 1);
    }
  }

  lemma {:induction false} StripThenPad(s: string)
    ensures |StripZeros(s)| <= |s| && s == StripZeros(s) + Repeat('0', |s| - |StripZeros(s)|)
  {
    if s != "" && s[|s| - 1] == '0' {
      StripThenPad(s[..|s| - 1]);
    }
  }

  // ----- splitting and trimming -----

  predicate Free(s: string, sep: char) {
    forall i :: 0 <= i < |s| ==> s[i] != sep
  }

  lemma {:induction false} SplitFree(s: string, sep: char)
    requires Free(s, sep)
    ensures Split(s, sep) == [s]
  {
    if s != "" {
      SplitFree(s[1..], sep);
      assert [s[0]] + s[1..] == s;
    }
  }

  lemma {:induction false} SplitAt(a: string, b: string, sep: char)
    requires Free(a, sep)
    ensures Split(a + [sep] + b, sep) == [a] + Split(b, sep)
  {
    var s := a + [sep] + b;
    if a == "" {
      assert s[1..] == b;
    } else {
      assert s[1..] == a[1..] + [sep] + b;
      SplitAt(a[1..], b, sep);
      assert [a[0]] + a[1..] == a;
      assert ([a[1..]] + Split(b, sep))[1..] == Split(b, sep);
    }
  }

  lemma TrimKeeps(s: string)
    requires s != "" ==> !IsSpace(s[0]) && !IsSpace(s[|s| - 1])
    ensures Trim(s) == s
  {
  }

  // ----- what the parser accepts and computes -----

  /** With one dot: accepted exactly for digits that fit, and then the value is the decimal's, unrounded. */
  lemma ParseExact(value: string, whole: string, frac: string, d: nat)
    requires Free(whole, '.') && Free(frac, '.') && Trim(value) == whole + "." + frac
    ensures ParseUnits(value, d).Some? <==>
            && |frac| <= d && (forall i :: 0 <= i < |whole| ==> '0' <= whole[i] <= '9')
            && (forall i :: 0 <= i < |frac| ==> '0' <= frac[i] <= '9')
    ensures ParseUnits(value, d).Some? ==>
              AllDigits(whole + frac) &&
              ParseUnits(value, d).value * Pow10(|frac|) == DigitsValue(whole + frac) * Pow10(d)
  {
    SplitAt(whole, frac, '.');
    SplitFree(frac, '.');
    PartsExact(whole, frac, d);
  }

  /** Without a dot the whole string is the integer part. */
  lemma ParseWhole(value: string, d: nat)
    requires Free(Trim(value), '.')
    ensures ParseUnits(value, d).Some? <==> forall i :: 0 <= i < |Trim(value)| ==> '0' <= Trim(value)[i] <= '9'
    ensures ParseUnits(value, d) ==
            if AllDigits(Trim(value)) then Some(DigitsValue(Trim(value)) * Pow10(d)) else None
  {
    SplitFree(Trim(value), '.');
    PadEmpty(d);
  }

  lemma PadEmpty(d: nat)
    ensures AllDigits(PadEnd("", d, '0')) && DigitsValue(PadEnd("", d, '0')) == 0
  {
    ZerosValue(d);
    assert PadEnd("", d, '0') == Repeat('0', d);
  }

  /** A second dot and everything after it is ignored, digits or not. */
  lemma ParseIgnoresRest(value: string, whole: string, frac: string, rest: string, d: nat)
    requires Free(whole, '.') && Free(frac, '.') && Trim(value) == whole + "." + (frac + "." + rest)
    ensures ParseUnits(value, d) == ParseParts(whole, frac, d)
  {
    SplitAt(whole, frac + "." + rest, '.');
    SplitAt(frac, rest, '.');
  }

  lemma SecondDotAccepted()
    ensures ParseUnits("1.5.x", 1) == Some(15)
  {
    TrimKeeps("1.5.x");
    assert "1.5.x" == "1" + "." + ("5" + "." + "x");
    ParseIgnoresRest("1.5.x", "1", "5", "x", 1);
    assert "1"[..0] == "" && "5"[..0] == "";
    assert DigitsValue("1") == 1 && DigitsValue("5") == 5 && Pow10(1) == 10;
  }

  lemma PartsExact(whole: string, frac: string, d: nat)
    ensures ParseParts(whole, frac, d).Some? <==> AllDigits(whole) && AllDigits(frac) && |frac| <= d
    ensures ParseParts(whole, frac, d).Some? ==>
              AllDigits(whole + frac) &&
              ParseParts(whole, frac, d).value * Pow10(|frac|) == DigitsValue(whole + frac) * Pow10(d)
  {
    if AllDigits(whole) && AllDigits(frac) && |frac| <= d {
      var k := d - |frac|;
      ZerosValue(k);
      ValueOfConcat(frac, Repeat('0', k));
      assert k == 0 ==> frac + Repeat('0', k) == frac;
      ValueOfConcat(whole, frac);
      PowSum(|frac|, k);
      var w, f, pf, pk := DigitsValue(whole), DigitsValue(frac), Pow10(|frac|), Pow10(k);
      assert ParseParts(whole, frac, d).value == w * Pow10(d) + f * pk;
      calc {
        (w * Pow10(d) + f * pk) * pf;
        (w * (pf * pk) + f * pk) * pf;
        { ScaleOut(w, f, pf, pk); }
        (w * pf + f) * (pf * pk);
      }
    }
  }

  lemma ScaleOut(w: nat, f: nat, p: nat, q: nat)
    ensures (w * (p * q) + f * q) * p == (w * p + f) * (p * q)
  {
    calc {
      (w * (p * q) + f * q) * p;
      w * (p * q) * p + f * q * p;
      { assert f * q * p == f * (p * q); assert w * (p * q) * p == w * p * (p * q); }
      w * p * (p * q) + f * (p * q);
      (w * p + f) * (p * q);
    }
  }

  lemma {:induction false} PowSum(a: nat, b: nat)
    ensures Pow10(a + b) == Pow10(a) * Pow10(b)
  {
    if b > 0 {
      PowSum(a, b - 1);
      MulAssoc(Pow10(a), Pow10(b - 1), 10);
    }
  }

  // ----- the round trip -----

  /** Printing then parsing gives back every non-negative amount, and no negative one. */
  lemma FormatParse(v: int, d: nat)
    ensures ParseUnits(FormatUnits(v, d), d) == if v >= 0 then Some(v) else None
  {
    if v >= 0 {
      FormatParseNonNegative(v, d);
    } else {
      FormatNegativeRejected(v, d);
    }
  }

  lemma FractionText(rem: nat, d: nat)
    requires rem < Pow10(d)
    ensures var padded := PadStart(ToDecimal(rem), d, '0');
            AllDigits(padded) && DigitsValue(padded) == rem && (d > 0 ==> |padded| == d)
  {
    var s := ToDecimal(rem);
    ToDecimalValue(rem);
    if d > 0 {
      ToDecimalLength(rem, d);
    }
    if |s| < d {
      var zeros := Repeat('0', d - |s|);
      ZerosValue(d - |s|);
      ValueOfConcat(zeros, s);
      assert PadStart(s, d, '0') == zeros + s;
    }
  }

  /** Text without spaces at its ends is split into the two parts it was made of. */
  lemma ParseJoined(whole: string, frac: string, d: nat)
    requires whole != "" && Free(whole, '.') && Free(frac, '.')
    requires !IsSpace(whole[0]) && !IsSpace(whole[|whole| - 1])
    requires frac != "" ==> !IsSpace(frac[|frac| - 1])
    ensures ParseUnits(if frac != "" then whole + "." + frac else whole, d) == ParseParts(whole, frac, d)
  {
    var text := if frac != "" then whole + "." + frac else whole;
    TrimKeeps(text);
    SplitFree(whole, '.');
    if frac != "" {
      SplitAt(whole, frac, '.');
      SplitFree(frac, '.');
    }
  }

  lemma FormatParseNonNegative(v: nat, d: nat)
    ensures ParseUnits(FormatUnits(v, d), d) == Some(v)
  {
    var q, r := PrintedParts(v, d);
    ParsePrinted(q, r, d);
  }

  lemma Divide(v: nat, base: nat) returns (q: nat, r: nat)
    requires base > 0
    ensures v == q * base + r && r < base
    ensures q == v / base && r == v % base
  {
    q, r := v / base, v % base;
  }

  lemma PrintedParts(v: nat, d: nat) returns (q: nat, r: nat)
    ensures v == q * Pow10(d) + r && r < Pow10(d)
    ensures FormatUnits(v, d) == Joined(q, r, d)
  {
    var base := Pow10(d);
    q, r := Divide(v, base);
    assert TruncDiv(v, base) == q && TruncMod(v, base) == r;
  }

  lemma ParsePrinted(w: nat, rem: nat, d: nat)
    requires rem < Pow10(d)
    ensures ParseUnits(Joined(w, rem, d), d) == Some(w * Pow10(d) + rem)
  {
    hide StripZeros, PadStart, DigitsValue, Pow10, ParseUnits, ParseParts;
    var whole, frac := ToDecimal(w), StripZeros(PadStart(ToDecimal(rem), d, '0'));
    StripDigits(rem, d);
    DigitsAreText(whole);
    DigitsAreText(frac);
    ParseJoined(whole, frac, d);
    PartsPrinted(w, rem, d);
  }

  lemma DigitsAreText(s: string)
    requires AllDigits(s)
    ensures Free(s, '.')
    ensures s != "" ==> !IsSpace(s[0]) && !IsSpace(s[|s| - 1])
  {
  }

  lemma PartsPrinted(w: nat, rem: nat, d: nat)
    requires rem < Pow10(d)
    ensures ParseParts(ToDecimal(w), StripZeros(PadStart(ToDecimal(rem), d, '0')), d) == Some(w * Pow10(d) + rem)
  {
    hide StripZeros, PadStart, PadEnd, ToDecimal, DigitsValue, Pow10;
    StripDigits(rem, d);
    FractionRestored(rem, d);
    ToDecimalValue(w);
  }

  lemma StripDigits(rem: nat, d: nat)
    requires rem < Pow10(d)
    ensures AllDigits(StripZeros(PadStart(ToDecimal(rem), d, '0')))
  {
    var padded := PadStart(ToDecimal(rem), d, '0');
    FractionText(rem, d);
    StripThenPad(padded);
    assert forall i :: 0 <= i < |StripZeros(padded)| ==> StripZeros(padded)[i] == padded[i];
  }

  lemma FractionRestored(rem: nat, d: nat)
    requires rem < Pow10(d)
    ensures var frac := StripZeros(PadStart(ToDecimal(rem), d, '0'));
            |frac| <= d && AllDigits(PadEnd(frac, d, '0')) && DigitsValue(PadEnd(frac, d, '0')) == rem
  {
    var padded := PadStart(ToDecimal(rem), d, '0');
    FractionText(rem, d);
    StripThenPad(padded);
    if d == 0 {
      assert padded == "0" && "0"[..0] == "";
    } else {
      var frac := StripZeros(padded);
      assert |frac| == d ==> frac + Repeat('0', 0) == frac;
      assert PadEnd(frac, d, '0') == padded;
    }
  }

  lemma FormatNegativeRejected(v: int, d: nat)
    requires v < 0
    ensures ParseUnits(FormatUnits(v, d), d) == None
  {
    var w, r := NegativeParts(v, d);
    NegativeText(w, r, d);
  }

  lemma NegativeParts(v: int, d: nat) returns (w: int, r: int)
    requires v < 0
    ensures r < 0 || (r == 0 && w < 0)
    ensures FormatUnits(v, d) == Joined(w, r, d)
  {
    var base := Pow10(d);
    var q: int, m: int := Divide(-v, base);
    w, r := 0 - q, 0 - m;
    assert TruncDiv(v, base) == w && TruncMod(v, base) == r;
  }

  lemma NegativeText(w: int, rem: int, d: nat)
    requires rem < 0 || (rem == 0 && w < 0)
    ensures ParseUnits(Joined(w, rem, d), d) == None
  {
    var whole, frac := IntText(w), StripZeros(PadStart(IntText(rem), d, '0'));
    if rem == 0 {
      StripDigits(0, d);
      assert whole[0] == '-';
    } else {
      MinusSurvives(rem, d);
    }
    ParseJoined(whole, frac, d);
  }

  lemma {:induction false} StripKeeps(s: string, at: nat)
    requires at < |s| && s[at] != '0'
    ensures at < |StripZeros(s)|
  {
    if s[|s| - 1] == '0' {
      StripKeeps(s[..|s| - 1], at);
    }
  }

  /** A negative remainder keeps its sign through padding and stripping. */
  lemma MinusSurvives(rem: int, d: nat)
    requires rem < 0
    ensures var frac := StripZeros(PadStart(IntText(rem), d, '0'));
            frac != "" && Free(frac, '.') && !AllDigits(frac) && !IsSpace(frac[|frac| - 1])
  {
    var padded := PadStart(IntText(rem), d, '0');
    var at := |padded| - |IntText(rem)|;
    assert padded[at] == '-';
    StripThenPad(padded);
    StripKeeps(padded, at);
    var frac := StripZeros(padded);
    assert forall i :: 0 <= i < |frac| ==> frac[i] == padded[i];
    assert frac[at] == '-';
  }

  // ----- spaces around an amount -----

  /** ECMAScript's white space and line terminators: what `trim` takes off. */
  const SPACES: set<int> :=
    {9, 10, 11, 12, 13, 32, 160, 5760, 8192, 8193, 8194, 8195, 8196, 8197, 8198, 8199, 8200, 8201, 8202,
     8232, 8233, 8239, 8287, 12288, 65279}

  predicate Blank(s: string) {
    forall i :: 0 <= i < |s| ==> s[i] as int in SPACES
  }

  lemma SpaceIff(c: char)
    ensures IsSpace(c) <==> c as int in SPACES
  {
  }

  lemma {:induction false} TrimEndSkips(s: string, post: string)
    requires Blank(post)
    ensures TrimEnd(s + post) == TrimEnd(s)
  {
    if post == "" {
      assert s + post == s;
    } else {
      var n := |post| - 1;
      SpaceIff(post[n]);
      assert (s + post)[..|s + post| - 1] == s + post[..n];
      TrimEndSkips(s, post[..n]);
    }
  }

  lemma {:induction false} TrimSkips(pre: string, s: string, post: string)
    requires Blank(pre) && Blank(post)
    ensures Trim(pre + s + post) == Trim(s)
    decreases |pre|, |s|
  {
    hide IsSpace, SPACES;
    var t := pre + s + post;
    if pre != "" {
      SpaceIff(pre[0]);
      assert t[0] == pre[0] && t[1..] == pre[1..] + s + post;
      TrimSkips(pre[1..], s, post);
    } else if s == "" {
      assert t == post && s + post == post;
      AllTrimmed(post);
    } else {
      assert t == s + post && t[1..] == s[1..] + post;
      if IsSpace(s[0]) {
        assert "" + s[1..] + post == t[1..];
        TrimSkips("", s[1..], post);
      } else {
        TrimEndSkips(s, post);
      }
    }
  }

  lemma {:induction false} AllTrimmed(s: string)
    requires Blank(s)
    ensures Trim(s) == ""
  {
    if s != "" {
      SpaceIff(s[0]);
      AllTrimmed(s[1..]);
    }
  }

  /** Spaces, tabs and line breaks before and after an amount make no difference. */
  lemma ParseTrims(pre: string, value: string, post: string, d: nat)
    requires Blank(pre) && Blank(post)
    ensures ParseUnits(pre + value + post, d) == ParseUnits(value, d)
  {
    TrimSkips(pre, value, post);
  }

  /** Nothing else is taken off. */
  lemma TrimOnlySpaces(s: string)
    requires s != "" ==> s[0] as int !in SPACES && s[|s| - 1] as int !in SPACES
    ensures Trim(s) == s
  {
    if s != "" {
      SpaceIff(s[0]);
      SpaceIff(s[|s| - 1]);
    }
  }

  // ----- what the printer prints -----

  lemma {:induction false} StripsAll(s: string)
    ensures StripZeros(s) != "" ==> StripZeros(s)[|StripZeros(s)| - 1] != '0'
  {
    if s != "" && s[|s| - 1] == '0' {
      StripsAll(s[..|s| - 1]);
    }
  }

  lemma {:induction false} NoLeadingZero(n: nat)
    ensures n > 0 ==> ToDecimal(n)[0] != '0'
    ensures n < 10 ==> |ToDecimal(n)| == 1
  {
    if n >= 10 {
      NoLeadingZero(n / 10);
    }
  }

  /** The shortest decimal: digits without a leading zero, and after a dot, if at all, digits without a trailing one. */
  ghost predicate Shortest(text: string, whole: string, frac: string) {
    && text == (if frac == "" then whole else whole + "." + frac)
    && whole != "" && (whole[0] == '0' ==> |whole| == 1)
    && (frac != "" ==> frac[|frac| - 1] != '0')
    && (forall i :: 0 <= i < |whole| ==> '0' <= whole[i] <= '9')
    && (forall i :: 0 <= i < |frac| ==> '0' <= frac[i] <= '9')
  }

  /** A non-negative amount is printed as its exact value in the shortest form. */
  lemma FormatIsShortest(v: nat, d: nat) returns (whole: string, frac: string)
    ensures Shortest(FormatUnits(v, d), whole, frac) && |frac| <= d
    ensures AllDigits(whole + frac) && DigitsValue(whole + frac) * Pow10(d - |frac|) == v
  {
    hide StripZeros, PadStart, PadEnd, DigitsValue, Pow10, ToDecimal, FormatUnits;
    var q, r := PrintedParts(v, d);
    whole, frac := ToDecimal(q), StripZeros(PadStart(ToDecimal(r), d, '0'));
    StripDigits(r, d);
    StripsAll(PadStart(ToDecimal(r), d, '0'));
    NoLeadingZero(q);
    FractionRestored(r, d);
    ToDecimalValue(q);
    ValueShifted(q, r, whole, frac, d);
  }

  lemma ValueShifted(q: nat, r: nat, whole: string, frac: string, d: nat)
    requires AllDigits(whole) && AllDigits(frac) && |frac| <= d && DigitsValue(whole) == q
    requires AllDigits(PadEnd(frac, d, '0')) && DigitsValue(PadEnd(frac, d, '0')) == r
    ensures AllDigits(whole + frac) && DigitsValue(whole + frac) * Pow10(d - |frac|) == q * Pow10(d) + r
  {
    hide DigitsValue, Pow10;
    var k := d - |frac|;
    ZerosValue(k);
    ValueOfConcat(frac, Repeat('0', k));
    assert PadEnd(frac, d, '0') == frac + Repeat('0', k);
    ValueOfConcat(whole, frac);
    PowSum(|frac|, k);
    var f, pf, pk := DigitsValue(frac), Pow10(|frac|), Pow10(k);
    assert r == f * pk;
    assert (q * pf + f) * pk == q * (pf * pk) + f * pk;
  }

  /** The scale of the tokens' eighteen decimals. */
  lemma EighteenDecimals()
    ensures Pow10(18) == 1_000_000_000_000_000_000
  {
    assert Pow10(6) == 1_000_000;
    assert Pow10(12) == 1_000_000_000_000;
  }

  /** A negative amount is printed with the sign of its remainder in the middle, one reason why it never parses. */
  lemma NegativePrintedOddly()
    ensures FormatUnits(-15, 1) == "-1.-5"
  {
    assert Pow10(1) == 10;
    assert TruncDiv(-15, 10) == -1 && TruncMod(-15, 10) == -5;
    assert StripZeros("-5") == "-5";
  }
}
