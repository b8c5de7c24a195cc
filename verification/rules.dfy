/** The parser's rules on literal tags and bytes, for fields in any order, and the checksum as a plain total. */
module FieldRules {
  import opened Orders
  import opened Events
  import opened Bytes
  import opened FixParsing
  import opened FixPrinting

  /** v is the value of the first field with the tag. */
  ghost predicate Gives(fs: seq<Field>, tag: int, v: seq<Byte>) {
    exists i :: 0 <= i < |fs| && fs[i] == Field(tag, v) && forall j :: 0 <= j < i ==> fs[j].tag != tag
  }

  predicate Omits(fs: seq<Field>, tag: int) {
    forall i :: 0 <= i < |fs| ==> fs[i].tag != tag
  }

  lemma {:induction false} FindIs(fs: seq<Field>, tag: int, v: seq<Byte>)
    ensures Find(fs, tag) == None <==> Omits(fs, tag)
    ensures Find(fs, tag) == Some(v) <==> Gives(fs, tag, v)
  {
    if fs != [] {
      FindIs(fs[1..], tag, v);
      assert fs == [fs[0]] + fs[1..];
      if fs[0].tag == tag {
        assert Gives(fs, tag, fs[0].value);
      } else {
        if Gives(fs[1..], tag, v) {
          var i :| 0 <= i < |fs| - 1 && fs[1..][i] == Field(tag, v) && forall j :: 0 <= j < i ==> fs[1..][j].tag != tag;
          assert fs[i + 1] == Field(tag, v);
        }
        if Gives(fs, tag, v) {
          var i :| 0 <= i < |fs| && fs[i] == Field(tag, v) && forall j :: 0 <= j < i ==> fs[j].tag != tag;
          assert fs[1..][i - 1] == Field(tag, v);
        }
      }
    }
  }

  /** The first field with the tag is a number. */
  ghost predicate GivesNumber(fs: seq<Field>, tag: int, n: int) {
    exists v :: Gives(fs, tag, v) && v != [] && AllDigits(v) && Value(v) == n <= 0x7fff_ffff_ffff_ffff
  }

  ghost predicate SaysSide(fs: seq<Field>, side: Option<Side>) {
    || (Gives(fs, 54, [49]) && side == Some(BUY))
    || (Gives(fs, 54, [50]) && side == Some(SELL))
  }

  /** Without tag 59 an order is good till cancelled. */
  ghost predicate SaysTif(fs: seq<Field>, tif: Option<TimeInForce>) {
    || ((Omits(fs, 59) || Gives(fs, 59, [49])) && tif == Some(GTC))
    || (Gives(fs, 59, [51]) && tif == Some(IOC))
    || (Gives(fs, 59, [52]) && tif == Some(FOK))
  }

  /** Without tag 40 it is a limit order. */
  ghost predicate SaysType(fs: seq<Field>, ordType: Option<OrdType>) {
    || ((Omits(fs, 40) || Gives(fs, 40, [50])) && ordType == Some(LIMIT))
    || (Gives(fs, 40, [80]) && ordType == Some(PEG_MID))
  }

  /** A limit order needs tag 44; a peg must not have it and must say 18=M. */
  ghost predicate SaysPrice(fs: seq<Field>, ordType: Option<OrdType>, price: int) {
    if ordType == Some(LIMIT) then exists v :: Gives(fs, 44, v) && ParsePrice(v) == price >= 0
    else Omits(fs, 44) && Gives(fs, 18, [77]) && price == -1
  }

  /** Tag 111, if there, is between 1 and the quantity. */
  ghost predicate SaysFloor(fs: seq<Field>, qty: int, floor: int) {
    || (Omits(fs, 111) && floor == 0)
    || (GivesNumber(fs, 111, floor) && 1 <= floor <= qty)
  }

  /** The fields say exactly this new order. */
  ghost predicate SaysOrder(fs: seq<Field>, e: OrderEvent) {
    && e.eventType == NEW_ORDER && e.originalOrderId == -1
    && Gives(fs, 55, [65, 83, 77, 76])
    && GivesNumber(fs, 11, e.orderId)
    && GivesNumber(fs, 38, e.quantity) && e.quantity > 0
    && SaysSide(fs, e.side) && SaysTif(fs, e.tif) && SaysType(fs, e.ordType)
    && SaysPrice(fs, e.ordType, e.price) && SaysFloor(fs, e.quantity, e.maxFloor)
  }

  /** The fields say exactly this cancel. */
  ghost predicate SaysCancel(fs: seq<Field>, e: OrderEvent) {
    && e.eventType == CANCEL_ORDER
    && GivesNumber(fs, 11, e.orderId) && GivesNumber(fs, 41, e.originalOrderId)
    && e.side == None && e.tif == None && e.ordType == None && e.price == -1 && e.quantity == -1 && e.maxFloor == 0
  }

  lemma NumberIs(fs: seq<Field>, tag: int, n: int)
    ensures GivesNumber(fs, tag, n) <==> n >= 0 && LongField(fs, tag) == n
  {
    if Find(fs, tag).Some? {
      FindIs(fs, tag, Find(fs, tag).value);
    }
    if GivesNumber(fs, tag, n) {
      var v :| Gives(fs, tag, v) && v != [] && AllDigits(v) && Value(v) == n <= 0x7fff_ffff_ffff_ffff;
      FindIs(fs, tag, v);
    }
  }

  lemma SideIs(fs: seq<Field>, side: Option<Side>)
    ensures SaysSide(fs, side) <==> side.Some? && SideField(fs) == side
  {
    FindIs(fs, 54, [49]);
    FindIs(fs, 54, [50]);
  }

  lemma TifIs(fs: seq<Field>, tif: Option<TimeInForce>)
    ensures SaysTif(fs, tif) <==> tif.Some? && TifField(fs) == tif
  {
    FindIs(fs, 59, [49]);
    FindIs(fs, 59, [51]);
    FindIs(fs, 59, [52]);
  }

  lemma TypeIs(fs: seq<Field>, ordType: Option<OrdType>)
    ensures SaysType(fs, ordType) <==> ordType.Some? && TypeField(fs) == ordType
  {
    FindIs(fs, 40, [50]);
    FindIs(fs, 40, [80]);
  }

  lemma PriceIs(fs: seq<Field>, ordType: OrdType, price: int)
    ensures SaysPrice(fs, Some(ordType), price) <==> PriceField(fs, ordType) == Some(price)
  {
    FindIs(fs, 18, [77]);
    FindIs(fs, 44, []);
    if Find(fs, 44).Some? {
      FindIs(fs, 44, Find(fs, 44).value);
    }
    if v :| Gives(fs, 44, v) && ParsePrice(v) == price >= 0 {
      FindIs(fs, 44, v);
    }
  }

  lemma FloorIs(fs: seq<Field>, qty: int, floor: int)
    ensures SaysFloor(fs, qty, floor) <==> FloorField(fs, qty) == Some(floor)
  {
    FindIs(fs, 111, []);
    NumberIs(fs, 111, floor);
  }

  /** A new order is accepted as e if and only if its fields say e. */
  lemma OrderRules(fs: seq<Field>, e: OrderEvent)
    ensures NewOrderOf(fs, e.timestamp) == Some(e) <==> SaysOrder(fs, e)
  {
    FindIs(fs, 55, [65, 83, 77, 76]);
    NumberIs(fs, 11, e.orderId);
    NumberIs(fs, 38, e.quantity);
    SideIs(fs, e.side);
    TifIs(fs, e.tif);
    TypeIs(fs, e.ordType);
    FloorIs(fs, e.quantity, e.maxFloor);
    if e.ordType.Some? {
      PriceIs(fs, e.ordType.value, e.price);
    }
  }

  /** A cancel likewise. */
  lemma CancelRules(fs: seq<Field>, e: OrderEvent)
    ensures CancelOf(fs, e.timestamp) == Some(e) <==> SaysCancel(fs, e)
  {
    NumberIs(fs, 11, e.orderId);
    NumberIs(fs, 41, e.originalOrderId);
  }

  /** Tag 35 says which of the two a message is; anything else is rejected. */
  lemma EventRules(fs: seq<Field>, e: OrderEvent)
    ensures EventOf(fs, e.timestamp) == Some(e)
            <==> || (Gives(fs, 35, [68]) && SaysOrder(fs, e))
                 || (Gives(fs, 35, [70]) && SaysCancel(fs, e))
  {
    FindIs(fs, 35, [68]);
    FindIs(fs, 35, [70]);
    OrderRules(fs, e);
    CancelRules(fs, e);
  }

  // ---------- The checksum ----------

  function Total(s: seq<Byte>): int {
    if s == [] then 0 else s[0] + Total(s[1..])
  }

  lemma {:induction false} SumIsTotal(s: seq<Byte>)
    ensures SumBytes(s, 0, |s|) == Total(s)
  {
    if s != [] {
      SumIsTotal(s[1..]);
      assert s == [s[0]] + s[1..];
      SumConcat([s[0]], s[1..], |s[1..]|);
    }
  }

  /** A message passes the checksum test if and only if the three digits after "10=" are the total of all the bytes
      before, modulo 256. */
  lemma ChecksumIsTotal(s: seq<Byte>, check: seq<Byte>)
    requires s != [] && |check| == 3
    ensures ValidChecksum(s + [49, 48, 61] + check + [1], 0) <==> AllDigits(check) && Value(check) == Total(s) % 256
  {
    var m := s + [49, 48, 61] + check + [1];
    assert m == s + ([49, 48, 61] + check + [1]);
    assert m[|m| - 4..|m| - 1] == check;
    SumPrefix(s, [49, 48, 61] + check + [1], |s|);
    SumIsTotal(s);
  }

  lemma {:induction false} TotalConcat(a: seq<Byte>, b: seq<Byte>)
    ensures Total(a + b) == Total(a) + Total(b)
  {
    if a == [] {
      assert a + b == b;
    } else {
      assert (a + b)[1..] == a[1..] + b;
      TotalConcat(a[1..], b);
    }
  }
}
