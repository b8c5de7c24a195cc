/** The encoder's messages and both price formats as literal text. */
module WireText {
  import opened Orders
  import opened Events
  import opened Bytes
  import opened FixParsing
  import opened FixPrinting
  import opened CodecTheorems
  import opened FieldRules
  import opened PriceText

  /** Pieces of text, each ended by byte 1. */
  function Lines(ps: seq<seq<Byte>>): seq<Byte> {
    if ps == [] then [] else ps[0] + [1] + Lines(ps[1..])
  }

  lemma {:induction false} LinesJoin(ps: seq<seq<Byte>>)
    ensures Lines(ps) == Joined(ps)
  {
    if ps != [] {
      LinesJoin(ps[1..]);
    }
  }

  /** The text of the tags in use. */
  lemma TagTexts()
    ensures Digits(8) == [56] && Digits(9) == [57] && Digits(10) == [49, 48] && Digits(11) == [49, 49]
    ensures Digits(18) == [49, 56] && Digits(35) == [51, 53] && Digits(38) == [51, 56] && Digits(40) == [52, 48]
    ensures Digits(41) == [52, 49] && Digits(44) == [52, 52] && Digits(54) == [53, 52] && Digits(55) == [53, 53]
    ensures Digits(59) == [53, 57] && Digits(111) == [49, 49, 49]
  {
    assert Digits(1) == [49] && Digits(3) == [51] && Digits(4) == [52] && Digits(5) == [53];
  }

  function SideText(side: Side): string {
    if side == BUY then "1" else "2"
  }

  function TypeText(ordType: OrdType): string {
    if ordType == LIMIT then "2" else "P"
  }

  function TifText(tif: TimeInForce): string {
    match tif
    case GTC => "1"
    case IOC => "3"
    case FOK => "4"
  }

  /** The lines of a request. */
  function BodyLines(r: Request): seq<seq<Byte>> {
    match r
    case NewOrder(id, side, ordType, price, qty, symbol, tif, maxFloor) =>
      [Ascii("35=D"), Ascii("11=") + SignedDigits(id), Ascii("55=") + Ascii(symbol),
       Ascii("54=") + Ascii(SideText(side)), Ascii("38=") + SignedDigits(qty), Ascii("40=") + Ascii(TypeText(ordType)),
       if ordType == PEG_MID then Ascii("18=M") else Ascii("44=") + FormatPrice(price),
       Ascii("59=") + Ascii(TifText(tif))]
      + if maxFloor > 0 then [Ascii("111=") + SignedDigits(maxFloor)] else []
    case CancelOrder(id, orig) =>
      [Ascii("35=F"), Ascii("11=") + SignedDigits(id), Ascii("41=") + SignedDigits(orig)]
  }

  /** The start of each line. */
  lemma Prefixes()
    ensures Ascii("8=FIX.4.2") == Digits(8) + [61] + BEGIN_STRING && Ascii("9=") == Digits(9) + [61]
    ensures Ascii("10=") == Digits(10) + [61]
    ensures Ascii("11=") == Digits(11) + [61] && Ascii("38=") == Digits(38) + [61] && Ascii("40=") == Digits(40) + [61]
    ensures Ascii("41=") == Digits(41) + [61] && Ascii("44=") == Digits(44) + [61] && Ascii("54=") == Digits(54) + [61]
    ensures Ascii("55=") == Digits(55) + [61] && Ascii("59=") == Digits(59) + [61]
    ensures Ascii("111=") == Digits(111) + [61]
  {
    TagTexts();
  }

  /** The codes. */
  lemma Codes()
    ensures Ascii("35=D") == Digits(35) + [61] + [CODE_D] && Ascii("35=F") == Digits(35) + [61] + [CODE_F]
    ensures Ascii("18=M") == Digits(18) + [61] + [CODE_M]
    ensures Ascii("1") == [CODE_1] && Ascii("2") == [CODE_2] && Ascii("3") == [CODE_3] && Ascii("4") == [CODE_4]
    ensures Ascii("P") == [CODE_P]
  {
    TagTexts();
  }

  lemma OrderLine(r: Request, i: nat)
    requires r.NewOrder? && i < |Body(r)|
    ensures |BodyLines(r)| == |Body(r)| && FieldText(Body(r)[i]) == BodyLines(r)[i]
  {
    Prefixes();
    Codes();
  }

  lemma CancelLine(r: Request, i: nat)
    requires r.CancelOrder? && i < |Body(r)|
    ensures |BodyLines(r)| == |Body(r)| && FieldText(Body(r)[i]) == BodyLines(r)[i]
  {
    Prefixes();
    Codes();
  }

  lemma BodyText(r: Request)
    ensures Encode(Body(r)) == Lines(BodyLines(r))
  {
    forall i | 0 <= i < |Body(r)|
      ensures |BodyLines(r)| == |Body(r)| && FieldText(Body(r)[i]) == BodyLines(r)[i]
    {
      if r.NewOrder? {
        OrderLine(r, i);
      } else {
        CancelLine(r, i);
      }
    }
    EncodeIsJoined(Body(r));
    LinesJoin(BodyLines(r));
    assert Texts(Body(r)) == BodyLines(r);
  }

  lemma FrontText(body: seq<Field>)
    requires Tagged(body)
    ensures Encode(Header(body)) == Lines([Ascii("8=FIX.4.2"), Ascii("9=") + Digits(|Encode(body)|)])
  {
    Prefixes();
    TagTexts();
    HeaderText(body);
    var a, b := Ascii("8=FIX.4.2"), Ascii("9=") + Digits(|Encode(body)|);
    var ps := [a, b];
    assert ps[1..] == [b] && Lines([b]) == b + [1] + [];
    assert Lines(ps) == a + [1] + (b + [1]);
    assert a == [56, 61] + BEGIN_STRING;
  }

  /** Header and body of a request's message. */
  function Front(r: Request): seq<Byte> {
    var lines := Lines(BodyLines(r));
    Lines([Ascii("8=FIX.4.2"), Ascii("9=") + Digits(|lines|)]) + lines
  }

  lemma FrontIsSummed(r: Request)
    ensures Front(r) == Summed(Body(r))
  {
    BodyText(r);
    FrontText(Body(r));
  }

  lemma EndText(body: seq<Field>) returns (check: seq<Byte>)
    requires Tagged(body)
    ensures Encode(Trailer(body)) == Ascii("10=") + check + [1]
    ensures |check| == 3 && AllDigits(check) && Value(check) == Total(Summed(body)) % 256
  {
    check := TrailerText(body);
    SumIsTotal(Summed(body));
    Prefixes();
    TagTexts();
  }

  /** Every message, to the byte: BeginString, the length of the body, the body, and the total of all before as three
      digits. */
  lemma MessageLines(r: Request) returns (check: seq<Byte>)
    ensures Message(Body(r)) == Front(r) + Ascii("10=") + check + [1]
    ensures |check| == 3 && AllDigits(check) && Value(check) == Total(Front(r)) % 256
  {
    FrontIsSummed(r);
    check := EndText(Body(r));
    ConcatFour(Front(r), Ascii("10="), check);
  }

  lemma ConcatFour(a: seq<Byte>, b: seq<Byte>, c: seq<Byte>)
    ensures a + (b + c + [1]) == a + b + c + [1]
  {
  }

  // ---------- Prices ----------

  lemma PriceDigits()
    ensures Digits(150) == [49, 53, 48] && Digits(25) == [50, 53] && Digits(2550) == [50, 53, 53, 48]
    ensures Digits(0) == [48] && Digits(5) == [53] && Digits(1502500) == [49, 53, 48, 50, 53, 48, 48]
  {
    assert Digits(1) == [49] && Digits(15) == [49, 53] && Digits(2) == [50] && Digits(255) == [50, 53, 53];
    assert Digits(1502) == [49, 53, 48, 50] && Digits(15025) == [49, 53, 48, 50, 53];
    assert Digits(150250) == [49, 53, 48, 50, 53, 48];
  }

  lemma TickText(px: int, dollars: nat, cents: nat)
    requires px == 10_000 * dollars + 100 * cents && cents < 100
    ensures FormatPrice(px) == Digits(dollars) + [46] + if cents < 10 then [48] + Digits(cents) else Digits(cents)
  {
  }

  lemma OffTickText(px: int, dollars: nat, rest: nat)
    requires px == 10_000 * dollars + rest && 1000 <= rest < 10_000 && rest % 100 != 0
    ensures FormatPrice(px) == Digits(dollars) + [46] + Digits(rest)
  {
    FourDigits(rest);
  }

  lemma FourDigits(n: nat)
    requires 1000 <= n < 10_000
    ensures |Digits(n)| == 4 && PadFour(n) == Digits(n)
  {
    assert |Digits(n / 1000)| == 1 && |Digits(n / 100)| == 2 && |Digits(n / 10)| == 3;
    assert Zeros(0) == [] && [] + Digits(n) == Digits(n);
  }

  lemma PointTexts()
    ensures Ascii("150.25") == [49, 53, 48] + [46] + [50, 53] && Ascii("0.05") == [48] + [46] + ([48] + [53])
    ensures Ascii("150.2550") == [49, 53, 48] + [46] + [50, 53, 53, 48]
  {
  }

  /** Dollars, a point, and two places on the tick or four off it: 1502500 units are 150.25. */
  lemma PriceTexts(px: int)
    ensures px == 1502500 ==> FormatPrice(px) == Ascii("150.25") && ParsePrice(Ascii("150.25")) == px
    ensures px == 500 ==> FormatPrice(px) == Ascii("0.05") && ParsePrice(Ascii("0.05")) == px
    ensures px == 1502550 ==> FormatPrice(px) == Ascii("150.2550") && ParsePrice(Ascii("150.2550")) == -1
  {
    PriceDigits();
    PointTexts();
    if px == 1502500 {
      TickText(px, 150, 25);
      PriceRoundTrip(px);
    } else if px == 500 {
      TickText(px, 0, 5);
      PriceRoundTrip(px);
    } else if px == 1502550 {
      OffTickText(px, 150, 2550);
      PriceRoundTrip(px);
    }
  }

  /** The client shows and reads the same text. */
  lemma ClientPriceTexts()
    ensures FormatClientPrice(1502500) == Ascii("150.25") && ParseClientPrice(Ascii("150.25")) == Some(1502500)
  {
    PriceDigits();
    PointTexts();
    var d: seq<Byte>, f: seq<Byte> := [49, 53, 48, 50, 53, 48, 48], [50, 53, 48, 48];
    assert PadStart(d, 5) == d && d[..|d| - 4] == [49, 53, 48] && d[|d| - 4..] == f;
    assert f[..3] == [50, 53, 48] && f[..3][..2] == [50, 53];
    assert TrimZeros([50, 53]) == [50, 53] && TrimZeros([50, 53, 48]) == [50, 53] && TrimZeros(f) == [50, 53];
    assert PadEnd([50, 53], 2) == [50, 53];
    ClientPriceRoundTrip(1502500);
  }

  // ---------- Prices as decimals ----------

  /** Dollars before the point and one or two places after it, in units of $0.0001. */
  function Units(whole: seq<Byte>, places: seq<Byte>): int
    requires AllDigits(whole) && AllDigits(places)
  {
    10_000 * Value(whole) + (if |places| == 1 then 1_000 else 100) * Value(places)
  }

  lemma PointAt(whole: seq<Byte>, places: seq<Byte>)
    requires AllDigits(whole)
    ensures var s := whole + [46] + places;
            IndexOf(s, 0, DOT) == |whole| && s[..|whole|] == whole && s[|whole| + 1..] == places
  {
    NoDotInDigits(whole, places);
  }

  /** A decimal with one or two places is read as what it says, one with none or more is refused. */
  lemma DecimalPrice(whole: seq<Byte>, places: seq<Byte>)
    requires AllDigits(whole) && whole != [] && AllDigits(places)
    ensures 1 <= |places| <= 2 && 0 < Units(whole, places) <= MAX_LONG ==>
              ParsePrice(whole + [46] + places) == Units(whole, places)
    ensures |places| == 0 || |places| > 2 ==> ParsePrice(whole + [46] + places) == -1
  {
    PointAt(whole, places);
    if 1 <= |places| <= 2 {
      FractionBound(places);
    }
  }

  /** Whole dollars need no point. */
  lemma WholePrice(whole: seq<Byte>)
    requires AllDigits(whole) && whole != [] && 0 < Value(whole) && 10_000 * Value(whole) <= MAX_LONG
    ensures ParsePrice(whole) == 10_000 * Value(whole)
  {
    IndexOfIsFirst(whole, 0, DOT, -1);
  }

  /** Nothing else is a price. */
  lemma PriceIsDecimal(s: seq<Byte>) returns (whole: seq<Byte>, places: seq<Byte>)
    requires ParsePrice(s) != -1
    ensures AllDigits(whole) && whole != [] && AllDigits(places) && |places| <= 2
    ensures s == if places == [] then whole else whole + [46] + places
  {
    var dot := IndexOf(s, 0, DOT);
    if dot == -1 {
      whole, places := s, [];
    } else {
      whole, places := s[..dot], s[dot + 1..];
    }
  }

  lemma PaddedPlaces(places: seq<Byte>)
    requires AllDigits(places) && |places| <= 2
    ensures var p := PadEnd(places, 2);
            AllDigits(p) && |p| == 2 && Value(p) == if |places| == 1 then 10 * Value(places) else Value(places)
  {
    var p := PadEnd(places, 2);
    TwoZeros();
    if |places| == 1 {
      assert p == places + [48] && p[..1] == places;
    } else if |places| == 2 {
      assert p == places;
    } else {
      assert p == [48, 48];
    }
  }

  lemma ClientUnits(whole: seq<Byte>, places: seq<Byte>)
    requires AllDigits(whole) && AllDigits(places) && |places| <= 2
    ensures var d := whole + PadEnd(places, 2) + [48, 48]; AllDigits(d) && Value(d) == Units(whole, places)
  {
    var p := PadEnd(places, 2);
    PaddedPlaces(places);
    ValueOfConcat(whole, p);
    ValueOfConcat(whole + p, [48, 48]);
    assert Pow10(2) == 100;
    TwoZeros();
  }

  lemma TwoZeros()
    ensures Value([48, 48]) == 0
  {
    assert [48, 48][..1] == [48] && Value([48]) == 0;
  }

  /** What the client's ticket accepts, the gateway reads as the same price. */
  lemma ParsersAgree(input: seq<Byte>)
    requires ParseClientPrice(input).Some?
    ensures 0 < ParseClientPrice(input).value <= 9_007_199_254_740_991
    ensures ParsePrice(Trim(input)) == ParseClientPrice(input).value
  {
    var (whole, places) := Grammar(Trim(input)).value;
    var s, dot := Trim(input), IndexOf(Trim(input), 0, DOT);
    ClientUnits(whole, places);
    if dot == -1 {
      WholePrice(whole);
    } else {
      DecimalPrice(whole, places);
      assert s == whole + [46] + places;
    }
  }

  /** And it accepts every decimal that is positive and safe. */
  lemma ClientDecimal(whole: seq<Byte>, places: seq<Byte>)
    requires AllDigits(whole) && whole != [] && AllDigits(places) && 1 <= |places| <= 2
    requires 0 < Units(whole, places) <= 9_007_199_254_740_991
    ensures ParseClientPrice(whole + [46] + places) == Some(Units(whole, places))
  {
    PointAt(whole, places);
    TrimNothing(whole + [46] + places);
    ClientUnits(whole, places);
  }

  // ---------- A message to the byte ----------

  /** 8=FIX.4.2, 9=15, 35=F, 11=1, 41=2, 10=142: the cancel of order 2 under id 1. */
  const LINE_8: seq<Byte> := [56, 61, 70, 73, 88, 46, 52, 46, 50]
  const LINE_9: seq<Byte> := [57, 61, 49, 53]
  const LINE_35: seq<Byte> := [51, 53, 61, 70]
  const LINE_11: seq<Byte> := [49, 49, 61, 49]
  const LINE_41: seq<Byte> := [52, 49, 61, 50]

  function CancelTwo(): seq<Byte> {
    CancelFront() + [49, 48, 61] + [49, 52, 50] + [1]
  }

  function LinesTotal(ps: seq<seq<Byte>>): int {
    if ps == [] then 0 else Total(ps[0]) + 1 + LinesTotal(ps[1..])
  }

  lemma {:induction false} TotalOfLines(ps: seq<seq<Byte>>)
    ensures Total(Lines(ps)) == LinesTotal(ps)
  {
    if ps != [] {
      TotalOfLines(ps[1..]);
      TotalConcat(ps[0] + [1], Lines(ps[1..]));
      TotalConcat(ps[0], [1]);
      assert [1][1..] == [] && Total([1]) == 1;
    }
  }

  lemma TotalCons(a: Byte, s: seq<Byte>)
    ensures Total([a] + s) == a as int + Total(s)
  {
    assert ([a] + s)[1..] == s;
  }

  lemma TotalOfThree(a: Byte, b: Byte, c: Byte)
    ensures Total([a, b, c]) == a as int + b as int + c as int
  {
    assert [c] == [c] + [] && [b, c] == [b] + [c] && [a, b, c] == [a] + [b, c];
    TotalCons(c, []);
    TotalCons(b, [c]);
    TotalCons(a, [b, c]);
  }

  lemma TotalOfFour(a: Byte, b: Byte, c: Byte, d: Byte)
    ensures Total([a, b, c, d]) == a as int + b as int + c as int + d as int
  {
    TotalOfThree(b, c, d);
    TotalCons(a, [b, c, d]);
    assert [a, b, c, d] == [a] + [b, c, d];
  }

  lemma TotalOfSeven(a: Byte, b: Byte, c: Byte, d: Byte, e: Byte, f: Byte, g: Byte)
    ensures Total([a, b, c, d, e, f, g])
            == a as int + b as int + c as int + d as int + e as int + f as int + g as int
  {
    TotalOfThree(a, b, c);
    TotalOfFour(d, e, f, g);
    TotalConcat([a, b, c], [d, e, f, g]);
    assert [a, b, c, d, e, f, g] == [a, b, c] + [d, e, f, g];
  }

  lemma LineTotals()
    ensures Total(LINE_8) == 542 && Total(LINE_9) == 220
    ensures Total(LINE_35) == 235 && Total(LINE_11) == 208 && Total(LINE_41) == 212
  {
    TotalOfSeven(70, 73, 88, 46, 52, 46, 50);
    TotalCons(61, [70, 73, 88, 46, 52, 46, 50]);
    TotalCons(56, [61, 70, 73, 88, 46, 52, 46, 50]);
    assert [61] + [70, 73, 88, 46, 52, 46, 50] == [61, 70, 73, 88, 46, 52, 46, 50];
    assert LINE_8 == [56] + [61, 70, 73, 88, 46, 52, 46, 50];
    TotalOfFour(57, 61, 49, 53);
    TotalOfFour(51, 53, 61, 70);
    TotalOfFour(49, 49, 61, 49);
    TotalOfFour(52, 49, 61, 50);
  }

  lemma LinesOfTwo(p: seq<Byte>, q: seq<Byte>)
    ensures LinesTotal([p, q]) == Total(p) + Total(q) + 2 && |Lines([p, q])| == |p| + |q| + 2
  {
    var none: seq<seq<Byte>> := [];
    var last: seq<seq<Byte>>, both: seq<seq<Byte>> := [q], [p, q];
    assert both[1..] == last && last[1..] == none && LinesTotal(none) == 0 && Lines(none) == [];
    assert LinesTotal(last) == Total(q) + 1 && |Lines(last)| == |q| + 1;
  }

  lemma LinesOfThree(p: seq<Byte>, q: seq<Byte>, r: seq<Byte>)
    ensures LinesTotal([p, q, r]) == Total(p) + Total(q) + Total(r) + 3 && |Lines([p, q, r])| == |p| + |q| + |r| + 3
  {
    var ps := [p, q, r];
    assert ps[1..] == [q, r];
    LinesOfTwo(q, r);
  }

  lemma FrontTotal()
    ensures Total(Lines([LINE_8, LINE_9]) + Lines([LINE_35, LINE_11, LINE_41])) == 1422
    ensures |Lines([LINE_35, LINE_11, LINE_41])| == 15
  {
    LineTotals();
    LinesOfTwo(LINE_8, LINE_9);
    LinesOfThree(LINE_35, LINE_11, LINE_41);
    TotalOfLines([LINE_8, LINE_9]);
    TotalOfLines([LINE_35, LINE_11, LINE_41]);
    TotalConcat(Lines([LINE_8, LINE_9]), Lines([LINE_35, LINE_11, LINE_41]));
  }

  lemma CheckIs(check: seq<Byte>)
    requires |check| == 3 && AllDigits(check) && Value(check) == 142
    ensures check == [49, 52, 50]
  {
    var a, b := check[..2], check[..2][..1];
    assert check == [check[0], check[1], check[2]] && a == [check[0], check[1]] && b == [check[0]] && b[..0] == [];
    assert Value(b) == check[0] as int - 48;
    assert Value(a) == 10 * Value(b) + (check[1] as int - 48);
    assert Value(check) == 10 * Value(a) + (check[2] as int - 48);
  }

  lemma CancelTwoLines(r: Request)
    requires r == CancelOrder(1, 2)
    ensures BodyLines(r) == [LINE_35, LINE_11, LINE_41]
    ensures Ascii("8=FIX.4.2") == LINE_8 && Ascii("9=") + Digits(15) == LINE_9
  {
    Prefixes();
    Codes();
    TagTexts();
    assert Digits(15) == Digits(1) + [53] && Digits(1) == [49] && Digits(2) == [50];
    assert SignedDigits(1) == Digits(1) && SignedDigits(2) == Digits(2);
    assert Ascii("11=") + [49] == LINE_11 && Ascii("41=") + [50] == LINE_41 && Ascii("35=F") == LINE_35;
  }

  /** The encoder writes this message, and the parser reads it. */
  lemma CancelToTheByte(stamp: int)
    ensures Message(Body(CancelOrder(1, 2))) == CancelTwo()
    ensures ParseMessage(CancelTwo(), 0, stamp)
            == Some(OrderEvent(CANCEL_ORDER, 1, None, None, None, -1, -1, 0, stamp, 2))
  {
    CancelWritten(CancelOrder(1, 2));
    CancelRoundTrip(CancelOrder(1, 2), stamp);
  }

  lemma CancelWritten(r: Request)
    requires r == CancelOrder(1, 2)
    ensures Message(Body(r)) == CancelTwo()
  {
    FrontOfCancel(r);
    var check := MessageLines(r);
    CheckIs(check);
    TenText();
  }

  function CancelFront(): seq<Byte> {
    Lines([LINE_8, LINE_9]) + Lines([LINE_35, LINE_11, LINE_41])
  }

  lemma FrontOfCancel(r: Request)
    requires r == CancelOrder(1, 2)
    ensures Front(r) == CancelFront() && Total(Front(r)) % 256 == 142
  {
    CancelTwoLines(r);
    FrontTotal();
  }

  lemma TenText()
    ensures Ascii("10=") == [49, 48, 61]
  {
  }
}
