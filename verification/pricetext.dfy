/** Price text on the client: the same integer units, formatted for reading and parsed from the ticket. */
module PriceText {
  import opened Orders
  import opened Bytes

  const MAX_SAFE_INTEGER := 0x1f_ffff_ffff_ffff

  /** Shown in place of an absent price. */
  const EMPTY_PRICE: seq<Byte> := [226, 128, 148]

  function PadStart(s: seq<Byte>, n: nat): seq<Byte> {
    Zeros(n - |s|) + s
  }

  function TrimZeros(s: seq<Byte>): (r: seq<Byte>)
    ensures r <= s
    ensures forall i :: |r| <= i < |s| ==> s[i] == ZERO
    ensures r != [] ==> r[|r| - 1] != ZERO
  {
    if s != [] && s[|s| - 1] == ZERO then TrimZeros(s[..|s| - 1]) else s
  }

  function PadEnd(s: seq<Byte>, n: nat): seq<Byte> {
    s + Zeros(n - |s|)
  }

  /** Two decimals on the tick, up to four off it; a negative price is no price. */
  function FormatClientPrice(px: int): seq<Byte> {
    if px < 0 then EMPTY_PRICE
    else
      var digits := PadStart(Digits(px), 5);
      digits[..|digits| - 4] + [DOT] + PadEnd(TrimZeros(digits[|digits| - 4..]), 2)
  }

  predicate IsSpace(b: Byte) {
    b == 32 || 9 <= b <= 13
  }

  function Trim(s: seq<Byte>): seq<Byte> {
    if s == [] then s
    else if IsSpace(s[0]) then Trim(s[1..])
    else if IsSpace(s[|s| - 1]) then Trim(s[..|s| - 1])
    else s
  }

  /** One or more digits, optionally a dot and one or two digits: the digits before the dot and after it. */
  function Grammar(s: seq<Byte>): Option<(seq<Byte>, seq<Byte>)> {
    var dot := IndexOf(s, 0, DOT);
    if dot == -1 then if s != [] && AllDigits(s) then Some((s, [])) else None
    else if dot > 0 && AllDigits(s[..dot]) && 1 <= |s[dot + 1..]| <= 2 && AllDigits(s[dot + 1..])
    then Some((s[..dot], s[dot + 1..])) else None
  }

  lemma GrammarDigits(s: seq<Byte>)
    requires Grammar(s).Some?
    ensures AllDigits(Grammar(s).value.0 + PadEnd(Grammar(s).value.1, 2) + [ZERO, ZERO])
  {
  }

  /** Units of $0.0001 read off the digits, or None for text outside the grammar, zero, or beyond the safe integers. */
  function ParseClientPrice(input: seq<Byte>): Option<int> {
    match Grammar(Trim(input))
    case None => None
    case Some((whole, fraction)) =>
      GrammarDigits(Trim(input));
      var units := Value(whole + PadEnd(fraction, 2) + [ZERO, ZERO]);
      if 0 < units <= MAX_SAFE_INTEGER then Some(units) else None
  }

  lemma PaddedValue(s: seq<Byte>, n: nat)
    requires AllDigits(s)
    ensures AllDigits(PadStart(s, n)) && Value(PadStart(s, n)) == Value(s)
  {
    ValueOfZeros(n - |s|);
    ValueOfConcat(Zeros(n - |s|), s);
  }

  lemma TrimNothing(s: seq<Byte>)
    requires s != [] && !IsSpace(s[0]) && !IsSpace(s[|s| - 1])
    ensures Trim(s) == s
  {
  }

  /** Cents can be read off the last two digits. */
  lemma LastDigits(d: seq<Byte>)
    requires AllDigits(d) && |d| >= 2
    ensures Value(d) % 100 == 0 <==> d[|d| - 1] == ZERO && d[|d| - 2] == ZERO
  {
    var c := d[..|d| - 1];
    assert Value(d) == Value(c) * 10 + (d[|d| - 1] - 48);
    assert Value(c) == Value(c[..|c| - 1]) * 10 + (c[|c| - 1] - 48);
  }

  /** On the tick the fraction shown is the first two of its four digits; off it, more. */
  lemma FractionShown(f: seq<Byte>)
    requires AllDigits(f) && |f| == 4
    ensures if f[2] == ZERO && f[3] == ZERO then PadEnd(TrimZeros(f), 2) == f[..2] else |PadEnd(TrimZeros(f), 2)| > 2
  {
    var t := TrimZeros(f);
    if f[2] == ZERO && f[3] == ZERO {
      if |t| == 0 {
        assert PadEnd(t, 2) == [ZERO, ZERO];
      } else if |t| == 1 {
        assert PadEnd(t, 2) == t + [ZERO];
      } else {
        assert |t| == 2 && PadEnd(t, 2) == t;
      }
    }
  }

  /** What is shown, cut at its dot. */
  lemma ShownSplits(px: nat) returns (whole: seq<Byte>, four: seq<Byte>)
    ensures AllDigits(whole) && whole != [] && AllDigits(four) && |four| == 4 && Value(whole + four) == px
    ensures FormatClientPrice(px) == whole + [DOT] + PadEnd(TrimZeros(four), 2)
  {
    var d := PadStart(Digits(px), 5);
    var n := |d| - 4;
    PaddedValue(Digits(px), 5);
    ValueOfDigits(px);
    whole, four := d[..n], d[n..];
    assert whole + four == d;
  }

  lemma GrammarOfShown(whole: seq<Byte>, f: seq<Byte>)
    requires AllDigits(whole) && whole != [] && AllDigits(f) && |f| >= 2
    ensures Grammar(Trim(whole + [DOT] + f)) == if |f| == 2 then Some((whole, f)) else None
  {
    var s := whole + [DOT] + f;
    assert s[0] == whole[0] && s[|s| - 1] == f[|f| - 1];
    TrimNothing(s);
    NoDotInDigits(whole, f);
    assert s[..|whole|] == whole && s[|whole| + 1..] == f;
  }

  lemma OnTickDigits(whole: seq<Byte>, four: seq<Byte>)
    requires AllDigits(whole) && AllDigits(four) && |four| == 4 && four[2] == ZERO && four[3] == ZERO
    ensures whole + PadEnd(four[..2], 2) + [ZERO, ZERO] == whole + four
  {
    assert PadEnd(four[..2], 2) == four[..2];
    assert four[..2] + [ZERO, ZERO] == four;
  }

  lemma ShownParses(px: nat, whole: seq<Byte>, four: seq<Byte>)
    requires px <= MAX_SAFE_INTEGER && AllDigits(whole) && whole != [] && AllDigits(four) && |four| == 4
    requires Value(whole + four) == px
    ensures ParseClientPrice(whole + [DOT] + PadEnd(TrimZeros(four), 2)) == if IsOnTick(px) then Some(px) else None
  {
    var f := PadEnd(TrimZeros(four), 2);
    FractionShown(four);
    GrammarOfShown(whole, f);
    LastDigits(whole + four);
    if px % 100 == 0 {
      OnTickDigits(whole, four);
      assert whole + f + [ZERO, ZERO] == whole + four;
    }
    ShownByGrammar(px, whole, f);
  }

  lemma ShownByGrammar(px: nat, whole: seq<Byte>, f: seq<Byte>)
    requires px <= MAX_SAFE_INTEGER && AllDigits(f)
    requires Grammar(Trim(whole + [DOT] + f)) == if |f| == 2 then Some((whole, f)) else None
    requires |f| == 2 <==> px % 100 == 0
    requires px % 100 == 0 ==> Value(whole + PadEnd(f, 2) + [ZERO, ZERO]) == px
    ensures ParseClientPrice(whole + [DOT] + f) == if IsOnTick(px) then Some(px) else None
  {
  }

  /** The client's parser inverts its formatter exactly on positive safe on-tick prices, and rejects everything else it
      can be shown: sub-penny prints, zero and the absent price. */
  lemma ClientPriceRoundTrip(px: int)
    requires px <= MAX_SAFE_INTEGER
    ensures ParseClientPrice(FormatClientPrice(px)) == if IsOnTick(px) then Some(px) else None
  {
    if px < 0 {
      TrimNothing(EMPTY_PRICE);
    } else {
      var whole, four := ShownSplits(px);
      ShownParses(px, whole, four);
    }
  }

  /** Whatever the ticket accepts survives the FIX price field unchanged. */
  lemma ClientPriceSurvivesFix(input: seq<Byte>)
    requires ParseClientPrice(input).Some?
    ensures IsOnTick(ParseClientPrice(input).value)
    ensures ParsePrice(FormatPrice(ParseClientPrice(input).value)) == ParseClientPrice(input).value
  {
    var (whole, fraction) := Grammar(Trim(input)).value;
    var d := whole + PadEnd(fraction, 2) + [ZERO, ZERO];
    GrammarDigits(Trim(input));
    LastDigits(d);
    PriceRoundTrip(ParseClientPrice(input).value);
  }
}
