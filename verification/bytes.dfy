/** Bytes, decimal text and price text. */
module Bytes {
  import opened Orders

  type Byte = x: int | 0 <= x < 256

  const SOH: Byte := 1
  const EQUALS: Byte := 61
  const DOT: Byte := 46
  const MINUS: Byte := 45
  const ZERO: Byte := 48

  predicate IsDigit(b: Byte) {
    48 <= b <= 57
  }

  predicate AllDigits(s: seq<Byte>) {
    forall i :: 0 <= i < |s| ==> IsDigit(s[i])
  }

  /** The number a string of digits writes. */
  function Value(s: seq<Byte>): nat
    requires AllDigits(s)
  {
    if s == [] then 0 else Value(s[..|s| - 1]) * 10 + (s[|s| - 1] - 48)
  }

  /** First position from `from` on that holds b, or -1. */
  function IndexOf(s: seq<Byte>, from: nat, b: Byte): (r: int)
    requires from <= |s|
    ensures r == -1 || (from <= r < |s| && s[r] == b)
    decreases |s| - from
  {
    if from == |s| then -1 else if s[from] == b then from else IndexOf(s, from + 1, b)
  }

  predicate IsFirst(s: seq<Byte>, from: nat, b: Byte, r: int)
    requires from <= |s|
  {
    if r == -1 then forall i :: from <= i < |s| ==> s[i] != b
    else from <= r < |s| && s[r] == b && forall i :: from <= i < r ==> s[i] != b
  }

  lemma {:induction false} IndexOfIsFirst(s: seq<Byte>, from: nat, b: Byte, r: int)
    requires from <= |s|
    ensures r == IndexOf(s, from, b) <==> IsFirst(s, from, b, r)
    decreases |s| - from
  {
    if from < |s| && s[from] != b {
      IndexOfIsFirst(s, from + 1, b, r);
    }
  }

  /** Decimal text without leading zeros. */
  function Digits(n: nat): (s: seq<Byte>)
    ensures AllDigits(s) && s != []
  {
    if n < 10 then [48 + n] else Digits(n / 10) + [48 + n % 10]
  }

  lemma {:induction false} ValueOfDigits(n: nat)
    ensures Value(Digits(n)) == n
  {
    if n >= 10 {
      ValueOfDigits(n / 10);
      assert Digits(n)[..|Digits(n)| - 1] == Digits(n / 10);
    } else {
      assert Digits(n)[..0] == [];
    }
  }

  function Pow10(k: nat): nat {
    if k == 0 then 1 else 10 * Pow10(k - 1)
  }

  lemma {:induction false} DigitsLength(n: nat, k: nat)
    requires k > 0 && n < Pow10(k)
    ensures |Digits(n)| <= k
  {
    if n >= 10 {
      assert k > 1 by {
        assert Pow10(1) == 10 * Pow10(0);
      }
      DigitsLength(n / 10, k - 1);
    }
  }

  lemma Pow10Of19()
    ensures Pow10(19) == 10_000_000_000_000_000_000
  {
    assert Pow10(5) == 100_000;
    assert Pow10(10) == 10_000_000_000;
    assert Pow10(15) == 1_000_000_000_000_000;
  }

  lemma LongDigits(n: nat)
    requires n <= MAX_LONG
    ensures |Digits(n)| <= 19
  {
    Pow10Of19();
    DigitsLength(n, 19);
  }

  lemma {:induction false} ValueMonotone(s: seq<Byte>, k: nat)
    requires AllDigits(s) && k <= |s|
    ensures Value(s[..k]) <= Value(s)
  {
    if k < |s| {
      ValueMonotone(s[..|s| - 1], k);
      assert s[..|s| - 1][..k] == s[..k];
    } else {
      assert s[..k] == s;
    }
  }

  lemma {:induction false} ValueOfConcat(a: seq<Byte>, b: seq<Byte>)
    requires AllDigits(a) && AllDigits(b)
    ensures AllDigits(a + b) && Value(a + b) == Value(a) * Pow10(|b|) + Value(b)
  {
    if b == [] {
      assert a + b == a;
    } else {
      var c := b[..|b| - 1];
      ValueOfConcat(a, c);
      assert (a + b)[..|a + b| - 1] == a + c;
      OneMoreDigit(Value(a), Pow10(|c|), Value(c), b[|b| - 1] - 48);
    }
  }

  lemma OneMoreDigit(a: int, p: int, c: int, digit: int)
    ensures (a * p + c) * 10 + digit == a * (p * 10) + (c * 10 + digit)
  {
  }

  // ---------- parseLong ----------

  /** The exact decimal value of a non-empty digit string that fits a long; -1 for everything else. */
  function ParseLong(s: seq<Byte>): (r: int)
    ensures r == -1 || 0 <= r <= MAX_LONG
  {
    if s == [] || !AllDigits(s) || Value(s) > MAX_LONG then -1 else Value(s)
  }

  method ParseLongIn(buf: array<Byte>, start: nat, end: nat) returns (r: int)
    requires start <= buf.Length && end <= buf.Length
    ensures r == (if start >= end then -1 else ParseLong(buf[start..end]))
  {
    if start >= end {
      return -1;
    }
    ghost var s := buf[start..end];
    var val := 0;
    var i := start;
    while i < end
      invariant start <= i <= end
      invariant AllDigits(s[..i - start]) && val == Value(s[..i - start]) && val <= MAX_LONG
    {
      var digit: int := (buf[i] as int) - 48;
      ghost var k := i - start;
      assert s[k] == buf[i] && s[..k + 1][..k] == s[..k];
      if digit < 0 || digit > 9 {
        assert !IsDigit(s[k]);
        return -1;
      }
      assert AllDigits(s[..k + 1]);
      if val > (MAX_LONG - digit) / 10 {
        assert Value(s[..k + 1]) > MAX_LONG;
        if AllDigits(s) {
          ValueMonotone(s, k + 1);
        }
        return -1;
      }
      val := val * 10 + digit;
      i := i + 1;
    }
    assert s[..end - start] == s;
    r := val;
  }

  /** Printing then parsing a long is the identity. */
  lemma LongRoundTrip(n: nat)
    requires n <= MAX_LONG
    ensures ParseLong(Digits(n)) == n
  {
    ValueOfDigits(n);
  }

  // ---------- Prices ----------

  /** The whole and fractional parts of a price text of at most two decimals, or None where it is not one. */
  function PriceParts(s: seq<Byte>): (r: Option<(int, int)>)
    ensures r.Some? ==> 0 <= r.value.0 <= MAX_LONG && 0 <= r.value.1 <= 9900 && r.value.1 % 100 == 0
  {
    if s == [] then None
    else
      var dot := IndexOf(s, 0, DOT);
      if dot == -1 then
        if ParseLong(s) == -1 then None else Some((ParseLong(s), 0))
      else
        var frac := s[dot + 1..];
        if ParseLong(s[..dot]) == -1 || frac == [] || |frac| > 2 || ParseLong(frac) == -1 then None
        else
          FractionBound(frac);
          Some((ParseLong(s[..dot]), if |frac| == 1 then ParseLong(frac) * 1000 else ParseLong(frac) * 100))
  }

  lemma FractionBound(f: seq<Byte>)
    requires 0 < |f| <= 2 && AllDigits(f)
    ensures Value(f) < if |f| == 1 then 10 else 100
  {
    assert f[..|f| - 1][..0] == [];
  }

  /** Units of $0.0001, or -1: the multiplication wraps as a Java long does. */
  function ParsePrice(s: seq<Byte>): int {
    match PriceParts(s)
    case None => -1
    case Some((whole, frac)) =>
      var units := WrapLong(WrapLong(whole * SCALE) + frac);
      if units > 0 then units else -1
  }

  method FindDot(buf: array<Byte>, start: nat, end: nat) returns (dot: int)
    requires start <= end <= buf.Length
    ensures var r := IndexOf(buf[start..end], 0, DOT); dot == if r == -1 then -1 else start + r
  {
    ghost var s := buf[start..end];
    dot := -1;
    var i := start;
    while i < end
      invariant start <= i <= end && dot == -1
      invariant forall k :: 0 <= k < i - start ==> s[k] != DOT
    {
      if buf[i] == DOT {
        dot := i;
        assert s[i - start] == DOT;
        IndexOfIsFirst(s, 0, DOT, i - start);
        return;
      }
      i := i + 1;
    }
    IndexOfIsFirst(s, 0, DOT, -1);
  }

  method ParsePriceIn(buf: array<Byte>, start: nat, end: nat) returns (r: int)
    requires start <= end <= buf.Length
    ensures r == ParsePrice(buf[start..end])
  {
    if start >= end {
      return -1;
    }
    ghost var s := buf[start..end];
    var dot := FindDot(buf, start, end);
    var intPart, fracScaled;
    if dot == -1 {
      intPart := ParseLongIn(buf, start, end);
      if intPart == -1 {
        return -1;
      }
      fracScaled := 0;
    } else {
      assert s[..dot - start] == buf[start..dot] && s[dot - start + 1..] == buf[dot + 1..end];
      intPart := ParseLongIn(buf, start, dot);
      if intPart == -1 {
        assert ParseLong(s[..dot - start]) == -1;
        return -1;
      }
      var fracStart := dot + 1;
      var fracLen := end - fracStart;
      if fracLen == 0 || fracLen > 2 {
        return -1;
      }
      var frac := ParseLongIn(buf, fracStart, end);
      if frac == -1 {
        return -1;
      }
      fracScaled := if fracLen == 1 then frac * 1000 else frac * 100;
    }
    assert PriceParts(s) == Some((intPart, fracScaled));
    var units := WrapLong(WrapLong(intPart * SCALE) + fracScaled);
    r := if units > 0 then units else -1;
  }

  /** The price a well-formed text writes is what is parsed exactly when it is positive and fits a long; then it is on
      the one-cent tick. */
  lemma ParsePriceExact(s: seq<Byte>)
    requires PriceParts(s).Some?
    ensures var exact := PriceParts(s).value.0 * SCALE + PriceParts(s).value.1;
            (ParsePrice(s) == exact <==> 0 < exact <= MAX_LONG) && (0 < exact <= MAX_LONG ==> IsOnTick(ParsePrice(s)))
  {
    var (whole, frac) := PriceParts(s).value;
    assert (whole * SCALE + frac) % 100 == 0;
  }

  /** A whole number of dollars, product wrap included. */
  lemma WholeDollars(n: nat)
    requires n <= MAX_LONG
    ensures ParsePrice(Digits(n)) == var u := WrapLong(n * SCALE); if u > 0 then u else -1
  {
    LongRoundTrip(n);
    var s := Digits(n);
    assert forall i :: 0 <= i < |s| ==> IsDigit(s[i]);
    IndexOfIsFirst(s, 0, DOT, -1);
  }

  lemma WrapExample(n: nat)
    requires n == 1_844_674_407_370_956
    ensures WrapLong(n * SCALE) == 8384
  {
    assert n * SCALE == 8384 + 0x1_0000_0000_0000_0000;
  }

  /** Beyond that the product wraps: this whole number of dollars is taken for $0.8384, off the tick. */
  lemma ParsePriceWraps(n: nat)
    requires n == 1_844_674_407_370_956
    ensures ParsePrice(Digits(n)) == 8384 && !IsOnTick(8384)
  {
    WrapExample(n);
    WholeDollars(n);
  }

  // ---------- formatPrice ----------

  /** Java's remainder goes with division that truncates toward zero. */
  function TruncMod(a: int, b: int): int
    requires b > 0
  {
    a - b * TruncDiv(a, b)
  }

  function SignedDigits(n: int): seq<Byte> {
    if n >= 0 then Digits(n) else [MINUS] + Digits(-n)
  }

  function Zeros(n: int): (s: seq<Byte>)
    ensures AllDigits(s) && |s| == if n > 0 then n else 0
  {
    if n <= 0 then [] else [ZERO] + Zeros(n - 1)
  }

  lemma {:induction false} ValueOfZeros(n: int)
    ensures Value(Zeros(n)) == 0
  {
    if n > 0 {
      ValueOfZeros(n - 1);
      ValueOfConcat([ZERO], Zeros(n - 1));
      assert [ZERO][..0] == [];
    }
  }

  /** %04d: zero padded to four places, sign included. */
  function PadFour(n: int): seq<Byte> {
    if n >= 0 then Zeros(4 - |Digits(n)|) + Digits(n) else [MINUS] + Zeros(3 - |Digits(-n)|) + Digits(-n)
  }

  function FormatPrice(px: int): seq<Byte> {
    var dollars, frac := TruncDiv(px, SCALE), TruncMod(px, SCALE);
    if TruncMod(frac, 100) == 0 then
      var cents := TruncDiv(frac, 100);
      SignedDigits(dollars) + [DOT] + (if cents < 10 then [ZERO] + SignedDigits(cents) else SignedDigits(cents))
    else SignedDigits(dollars) + [DOT] + PadFour(frac)
  }

  lemma NoDotInDigits(s: seq<Byte>, t: seq<Byte>)
    requires forall i :: 0 <= i < |s| ==> s[i] != DOT
    ensures IndexOf(s + [DOT] + t, 0, DOT) == |s|
  {
    var u := s + [DOT] + t;
    assert u[|s|] == DOT && forall i :: 0 <= i < |s| ==> u[i] == s[i];
    IndexOfIsFirst(u, 0, DOT, |s|);
  }

  lemma SignedDigitsShape(n: int)
    ensures forall i :: 0 <= i < |SignedDigits(n)| ==> SignedDigits(n)[i] != DOT
    ensures n < 0 ==> !AllDigits(SignedDigits(n))
  {
    if n < 0 {
      assert SignedDigits(n)[0] == MINUS;
    }
  }

  lemma TwoDigits(c: nat)
    requires c < 100
    ensures var t := if c < 10 then [ZERO] + Digits(c) else Digits(c); |t| == 2 && AllDigits(t) && Value(t) == c
  {
    var t := if c < 10 then [ZERO] + Digits(c) else Digits(c);
    if c < 10 {
      assert t[..1] == [ZERO] && t[..1][..0] == [];
      assert Value(t[..1]) == 0;
    } else {
      assert Digits(c) == Digits(c / 10) + [48 + c % 10] && Digits(c / 10) == [48 + c / 10];
      ValueOfDigits(c);
    }
  }

  lemma FourPlaces(n: int)
    requires n % 100 != 0 && -10_000 < n < 10_000
    ensures |PadFour(n)| > 2
  {
  }

  /** The text of a price splits at its dot into the dollars and what follows. */
  lemma FormatSplits(px: int) returns (d: seq<Byte>, t: seq<Byte>)
    ensures d == SignedDigits(TruncDiv(px, SCALE))
    ensures var frac := TruncMod(px, SCALE);
            t == if TruncMod(frac, 100) == 0
                 then (if TruncDiv(frac, 100) < 10 then [ZERO] + SignedDigits(TruncDiv(frac, 100))
                       else SignedDigits(TruncDiv(frac, 100)))
                 else PadFour(frac)
    ensures var s := FormatPrice(px);
            s != [] && IndexOf(s, 0, DOT) == |d| && s[..|d|] == d && s[|d| + 1..] == t
  {
    d := SignedDigits(TruncDiv(px, SCALE));
    var s := FormatPrice(px);
    t := s[|d| + 1..];
    SignedDigitsShape(TruncDiv(px, SCALE));
    assert s == d + [DOT] + t;
    NoDotInDigits(d, t);
  }

  lemma SplitParts(s: seq<Byte>, d: seq<Byte>, t: seq<Byte>)
    requires s != [] && IndexOf(s, 0, DOT) == |d| < |s| && s[..|d|] == d && s[|d| + 1..] == t
    requires ParseLong(d) != -1 && |t| == 2 && AllDigits(t) && Value(t) < 100
    ensures PriceParts(s) == Some((ParseLong(d), Value(t) * 100))
  {
  }

  lemma DollarsAndCents(px: nat)
    requires px <= MAX_LONG && px % TICK == 0
    ensures PriceParts(FormatPrice(px)) == Some((px / SCALE, px % SCALE))
  {
    var d, t := FormatSplits(px);
    assert px % SCALE % 100 == 0;
    TwoDigits(px % SCALE / 100);
    LongRoundTrip(px / SCALE);
    SplitParts(FormatPrice(px), d, t);
  }

  lemma OnTickPrice(px: int)
    requires 0 <= px <= MAX_LONG && px % TICK == 0
    ensures ParsePrice(FormatPrice(px)) == if px > 0 then px else -1
  {
    DollarsAndCents(px);
    assert px / SCALE * SCALE + px % SCALE == px;
  }

  lemma OffTickPrice(px: int)
    requires 0 <= px <= MAX_LONG && px % TICK != 0
    ensures ParsePrice(FormatPrice(px)) == -1
  {
    var d, t := FormatSplits(px);
    assert px % SCALE % 100 != 0;
    FourPlaces(px % SCALE);
  }

  lemma NegativePrice(px: int)
    requires px < 0
    ensures ParsePrice(FormatPrice(px)) == -1
  {
    var dollars, frac := TruncDiv(px, SCALE), TruncMod(px, SCALE);
    var d, t := FormatSplits(px);
    assert -SCALE < frac <= 0 && dollars <= 0;
    if dollars == 0 {
      assert frac == px;
      if TruncMod(frac, 100) == 0 {
        assert t[1] == MINUS && !AllDigits(t);
      } else {
        assert t[0] == MINUS && !AllDigits(t);
      }
    } else {
      SignedDigitsShape(dollars);
    }
  }

  /** For every long: a price on the one-cent tick survives formatting and parsing unchanged, and any other price,
      off the tick, zero or negative, is rejected. */
  lemma PriceRoundTrip(px: int)
    requires -MAX_LONG - 1 <= px <= MAX_LONG
    ensures ParsePrice(FormatPrice(px)) == if IsOnTick(px) then px else -1
  {
    if px < 0 {
      NegativePrice(px);
    } else if px % TICK == 0 {
      OnTickPrice(px);
    } else {
      OffTickPrice(px);
    }
  }
}
