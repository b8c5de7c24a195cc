/** Order messages whatever their symbol: the encoder writes it as it is, so a symbol that holds field separators spells
    fields of its own, and these come before the order's terms. */
module SymbolTheorems {
  import opened Orders
  import opened Events
  import opened Bytes
  import opened FixParsing
  import opened FixPrinting
  import opened CodecTheorems

  /** Text cut at every field separator. */
  function Cut(b: seq<Byte>): (ps: seq<seq<Byte>>)
    ensures ps != []
    decreases |b|
  {
    var i := IndexOf(b, 0, SOH);
    if i == -1 then [b] else [b[..i]] + Cut(b[i + 1..])
  }

  lemma {:induction false} CutJoins(b: seq<Byte>)
    ensures Pieces(Cut(b)) && Joined(Cut(b)) == b + [SOH]
    decreases |b|
  {
    var i := IndexOf(b, 0, SOH);
    IndexOfIsFirst(b, 0, SOH, i);
    if i == -1 {
      assert [b][1..] == [];
    } else {
      var ps := Cut(b[i + 1..]);
      CutJoins(b[i + 1..]);
      assert ([b[..i]] + ps)[1..] == ps;
      assert b == b[..i] + [SOH] + b[i + 1..];
    }
  }

  lemma CutPlain(b: seq<Byte>)
    ensures |Cut(b)| == 1 <==> Lacks(b, SOH)
    ensures Lacks(b, SOH) ==> Cut(b) == [b]
  {
    IndexOfIsFirst(b, 0, SOH, IndexOf(b, 0, SOH));
  }

  lemma CutAfter(a: seq<Byte>, b: seq<Byte>)
    requires Lacks(a, SOH)
    ensures Cut(a + [SOH] + b) == [a] + Cut(b)
  {
    var s := a + [SOH] + b;
    assert s[0..|a|] == a && s[|a| + 1..] == b && s[..|a|] == a;
    FirstAt(s, 0, a, SOH);
  }

  // ---------- The message as pieces of text ----------

  /** What comes before the symbol, and what comes after it. */
  function Before(r: Request): (fs: seq<Field>)
    requires r.NewOrder?
    ensures Tagged(fs)
  {
    Header(Body(r)) + Body(r)[..2]
  }

  function Behind(r: Request): (fs: seq<Field>)
    requires r.NewOrder?
    ensures Tagged(fs)
  {
    Body(r)[3..] + Trailer(Body(r))
  }

  function SymbolPieces(b: seq<Byte>): seq<seq<Byte>> {
    [FieldText(Field(SYMBOL, Cut(b)[0]))] + Cut(b)[1..]
  }

  lemma InFrontOf(t: seq<Byte>, p: seq<Byte>, rest: seq<Byte>)
    ensures t + (p + [SOH] + rest) == (t + p) + [SOH] + rest
  {
  }

  lemma SymbolPieceClean(v: seq<Byte>)
    requires Lacks(v, SOH)
    ensures Lacks(FieldText(Field(SYMBOL, v)), SOH)
  {
    assert AllDigits(Digits(SYMBOL));
  }

  lemma SymbolJoins(b: seq<Byte>)
    ensures Pieces(SymbolPieces(b)) && Joined(SymbolPieces(b)) == FieldText(Field(SYMBOL, b)) + [SOH]
  {
    var ps, t := Cut(b), Digits(SYMBOL) + [EQUALS];
    CutJoins(b);
    SymbolPieceClean(ps[0]);
    InFrontOf(t, ps[0], Joined(ps[1..]));
    InFrontOf(t, b, []);
    assert SymbolPieces(b)[1..] == ps[1..];
    assert Joined(ps) == ps[0] + [SOH] + Joined(ps[1..]) == b + [SOH] + [];
  }

  lemma MessageSplits(r: Request)
    requires r.NewOrder?
    ensures Message(Body(r))
            == Encode(Before(r)) + (FieldText(Field(SYMBOL, Ascii(r.symbol))) + [SOH]) + Encode(Behind(r))
  {
    var body, own := Body(r), Field(SYMBOL, Ascii(r.symbol));
    MessageIsFields(body);
    EncodeOne(own);
    EncodeConcat(Before(r), [own]);
    EncodeConcat(Before(r) + [own], Behind(r));
    assert body[2] == own;
    assert AllFields(body) == Before(r) + [own] + Behind(r);
  }

  lemma FrameFieldsClean(body: seq<Field>)
    requires Tagged(body)
    ensures Clean(Header(body)) && Clean(Trailer(body))
  {
    var digits := TrailerText(body);
    assert Lacks(BEGIN_STRING, SOH);
    assert Trailer(body) == [Field(CHECKSUM, digits)];
  }

  lemma CleanConcat(a: seq<Field>, b: seq<Field>)
    requires Clean(a) && Clean(b)
    ensures Clean(a + b)
  {
  }

  lemma OwnFieldsClean(r: Request)
    requires r.NewOrder? && Longs(r)
    ensures Clean(Before(r)) && Clean(Behind(r))
  {
    var plain := r.(symbol := "");
    OrderFieldsClean(plain);
    FrameFieldsClean(Body(r));
    assert Body(r)[..2] == Body(plain)[..2] && Body(r)[3..] == Body(plain)[3..];
    CleanConcat(Header(Body(r)), Body(r)[..2]);
    CleanConcat(Body(r)[3..], Trailer(Body(r)));
  }

  /** The fields of the message, the symbol's own among them. */
  function AsRead(r: Request): Option<seq<Field>>
    requires r.NewOrder?
  {
    var ps := Cut(Ascii(r.symbol));
    match FieldsOf(ps[1..])
    case None => None
    case Some(extra) =>
      if |Body(r)| + |extra| + 3 > MAX_FIELDS then None
      else Some(Before(r) + ([Field(SYMBOL, ps[0])] + extra) + Behind(r))
  }

  lemma SymbolRead(b: seq<Byte>)
    ensures FieldsOf(SymbolPieces(b))
            == match FieldsOf(Cut(b)[1..])
               case None => None
               case Some(extra) => Some([Field(SYMBOL, Cut(b)[0])] + extra)
  {
    TextField(Field(SYMBOL, Cut(b)[0]));
    assert SymbolPieces(b)[1..] == Cut(b)[1..];
  }

  lemma PiecesConcat(a: seq<seq<Byte>>, b: seq<seq<Byte>>, c: seq<seq<Byte>>)
    requires Pieces(a) && Pieces(b) && Pieces(c)
    ensures Pieces(a + b + c) && Joined(a + b + c) == Joined(a) + Joined(b) + Joined(c)
  {
    JoinedConcat(a, b);
    JoinedConcat(a + b, c);
  }

  /** The parser's scan of an order message, whatever the symbol. */
  lemma OrderScanned(r: Request)
    requires r.NewOrder? && Longs(r)
    ensures Scan(Message(Body(r)), 0, MAX_FIELDS) == AsRead(r)
  {
    var b, m := Ascii(r.symbol), Message(Body(r));
    var before, symbol, behind := Texts(Before(r)), SymbolPieces(b), Texts(Behind(r));
    var all := before + symbol + behind;
    OwnFieldsClean(r);
    TextsClean(Before(r));
    TextsClean(Behind(r));
    SymbolJoins(b);
    PiecesConcat(before, symbol, behind);
    EncodeIsJoined(Before(r));
    EncodeIsJoined(Behind(r));
    MessageSplits(r);
    assert m[0..] == m == Joined(all);
    JoinedStands(m, 0, all);
    ScanPieces(m, 0, all, MAX_FIELDS);
    PiecesRead(r);
  }

  lemma PiecesRead(r: Request)
    requires r.NewOrder?
    ensures var all := Texts(Before(r)) + SymbolPieces(Ascii(r.symbol)) + Texts(Behind(r));
            Within(all, MAX_FIELDS) == AsRead(r)
  {
    var b := Ascii(r.symbol);
    TextsRead(Before(r));
    TextsRead(Behind(r));
    SymbolRead(b);
    FieldsOfConcat(Texts(Before(r)), SymbolPieces(b));
    FieldsOfConcat(Texts(Before(r)) + SymbolPieces(b), Texts(Behind(r)));
  }

  // ---------- What the gateway takes ----------

  /** The fields an order is decided by, the first of each tag counting: its own id, the symbol up to its first
      separator, the fields the rest of the symbol spells, the order's own terms. */
  function Decisive(r: Request, head: seq<Byte>, extra: seq<Field>): seq<Field>
    requires r.NewOrder?
  {
    [Body(r)[1], Field(SYMBOL, head)] + extra + Body(r)[3..]
  }

  /** The event an order message comes to, whatever its symbol. */
  function Taken(r: Request, stamp: int): Option<OrderEvent> {
    if r.CancelOrder? || Plain(r) then EventFor(r, stamp)
    else
      var ps := Cut(Ascii(r.symbol));
      match FieldsOf(ps[1..])
      case None => None
      case Some(extra) =>
        if |Body(r)| + |extra| + 3 > MAX_FIELDS then None else NewOrderOf(Decisive(r, ps[0], extra), stamp)
  }

  predicate IsOrderTag(tag: int) {
    tag in {CL_ORD_ID, SYMBOL, SIDE, ORDER_QTY, ORD_TYPE, PRICE, EXEC_INST, TIME_IN_FORCE, MAX_FLOOR}
  }

  lemma SameOrder(a: seq<Field>, b: seq<Field>, stamp: int)
    requires forall tag :: IsOrderTag(tag) ==> Find(a, tag) == Find(b, tag)
    ensures NewOrderOf(a, stamp) == NewOrderOf(b, stamp)
  {
    assert IsOrderTag(CL_ORD_ID) && IsOrderTag(SYMBOL) && IsOrderTag(SIDE) && IsOrderTag(ORDER_QTY);
    assert IsOrderTag(ORD_TYPE) && IsOrderTag(PRICE) && IsOrderTag(EXEC_INST);
    assert IsOrderTag(TIME_IN_FORCE) && IsOrderTag(MAX_FLOOR);
  }

  lemma AroundHidesNothing(r: Request, mid: seq<Field>, tag: int)
    requires r.NewOrder? && IsOrderTag(tag)
    ensures Find(Before(r) + mid + Behind(r), tag) == Find([Body(r)[1]] + mid + Body(r)[3..], tag)
    ensures Find(Before(r) + mid + Behind(r), MESSAGE_TYPE) == Some([CODE_D])
  {
    var body := Body(r);
    var t := Trailer(body);
    assert Before(r) == Header(body) + [body[0]] + [body[1]];
    FindConcat(Header(body) + [body[0]], [body[1]], tag);
    FindAt(Header(body) + [body[0]], tag, 3);
    FindAt(Before(r), MESSAGE_TYPE, 2);
    FindConcat(Before(r), mid, tag);
    FindConcat(Before(r) + mid, Behind(r), tag);
    FindConcat(Before(r), mid, MESSAGE_TYPE);
    FindConcat(Before(r) + mid, Behind(r), MESSAGE_TYPE);
    FindConcat(body[3..], t, tag);
    FindAt(t, tag, 1);
    FindConcat([body[1]], mid, tag);
    FindConcat([body[1]] + mid, body[3..], tag);
  }

  lemma OrderRead(r: Request, head: seq<Byte>, extra: seq<Field>, stamp: int)
    requires r.NewOrder?
    ensures EventOf(Before(r) + ([Field(SYMBOL, head)] + extra) + Behind(r), stamp)
            == NewOrderOf(Decisive(r, head, extra), stamp)
  {
    var mid := [Field(SYMBOL, head)] + extra;
    var all := Before(r) + mid + Behind(r);
    assert Decisive(r, head, extra) == [Body(r)[1]] + mid + Body(r)[3..];
    forall tag | IsOrderTag(tag)
      ensures Find(all, tag) == Find(Decisive(r, head, extra), tag)
    {
      AroundHidesNothing(r, mid, tag);
    }
    AroundHidesNothing(r, mid, SYMBOL);
    SameOrder(all, Decisive(r, head, extra), stamp);
  }

  /** Every message of Java longs, whatever its symbol, parses to exactly this event. */
  lemma TakenIsParsed(r: Request, stamp: int)
    requires Longs(r)
    ensures ParseMessage(Message(Body(r)), 0, stamp) == Taken(r, stamp)
  {
    if r.CancelOrder? {
      CancelRoundTrip(r, stamp);
    } else if Plain(r) {
      PlainOrderRoundTrip(r, stamp);
    } else {
      ChecksumHolds(Body(r));
      OrderScanned(r);
      var ps := Cut(Ascii(r.symbol));
      if FieldsOf(ps[1..]).Some? {
        OrderRead(r, ps[0], FieldsOf(ps[1..]).value, stamp);
      }
    }
  }

  // ---------- When that is what was asked for ----------

  /** The order rules, but for id and symbol, over fields of which the first of each tag counts. */
  predicate TermsAccepted(fs: seq<Field>) {
    && LongField(fs, ORDER_QTY) > 0
    && SideField(fs).Some? && TifField(fs).Some?
    && TypeField(fs).Some? && PriceField(fs, TypeField(fs).value).Some?
    && FloorField(fs, LongField(fs, ORDER_QTY)).Some?
  }

  /** The symbol is the venue's, a separator, and then text that spells fields; there is room for them; and the order's
      terms with these put in front are acceptable. */
  predicate Rewrites(r: Request) {
    && r.NewOrder? && r.clOrdId >= 0
    && SYMBOL_BYTES + [SOH] <= Ascii(r.symbol)
    && var spelled := FieldsOf(Cut(Ascii(r.symbol)[|SYMBOL_BYTES| + 1..]));
       && spelled.Some? && |Body(r)| + |spelled.value| + 3 <= 32
       && TermsAccepted(spelled.value + Body(r)[3..])
  }

  /** The symbol and what it spells. */
  lemma HeadIsSymbol(b: seq<Byte>)
    requires !Lacks(b, SOH)
    ensures Cut(b)[0] == SYMBOL_BYTES <==> SYMBOL_BYTES + [SOH] <= b
    ensures SYMBOL_BYTES + [SOH] <= b ==> Cut(b)[1..] == Cut(b[|SYMBOL_BYTES| + 1..])
  {
    var i := IndexOf(b, 0, SOH);
    IndexOfIsFirst(b, 0, SOH, i);
    assert b[..i + 1] == b[..i] + [SOH];
    if SYMBOL_BYTES + [SOH] <= b {
      assert b == SYMBOL_BYTES + [SOH] + b[5..];
      CutAfter(SYMBOL_BYTES, b[5..]);
    }
  }

  /** Term by term, the first field the symbol spells counts, and where it spells none the order's own does. */
  lemma FirstWins(r: Request, head: seq<Byte>, extra: seq<Field>, tag: int)
    requires r.NewOrder?
    ensures Find(Decisive(r, head, extra), CL_ORD_ID) == Some(SignedDigits(r.clOrdId))
    ensures Find(Decisive(r, head, extra), SYMBOL) == Some(head)
    ensures tag != CL_ORD_ID && tag != SYMBOL ==>
              Find(Decisive(r, head, extra), tag) == Find(extra + Body(r)[3..], tag)
              == if Find(extra, tag).Some? then Find(extra, tag) else Find(Body(r)[3..], tag)
  {
    var own := [Body(r)[1], Field(SYMBOL, head)];
    var fs := extra + Body(r)[3..];
    assert Decisive(r, head, extra) == own + fs;
    FindAt(own, CL_ORD_ID, 0);
    FindAt(own, SYMBOL, 1);
    FindConcat(own, fs, CL_ORD_ID);
    FindConcat(own, fs, SYMBOL);
    if tag != CL_ORD_ID && tag != SYMBOL {
      FindAt(own, tag, 2);
      FindConcat(own, fs, tag);
      FindConcat(extra, Body(r)[3..], tag);
    }
  }

  lemma SameTerms(a: seq<Field>, b: seq<Field>)
    requires forall tag :: IsOrderTag(tag) && tag != CL_ORD_ID && tag != SYMBOL ==> Find(a, tag) == Find(b, tag)
    ensures TermsAccepted(a) == TermsAccepted(b)
  {
    assert IsOrderTag(SIDE) && IsOrderTag(ORDER_QTY) && IsOrderTag(ORD_TYPE) && IsOrderTag(PRICE);
    assert IsOrderTag(EXEC_INST) && IsOrderTag(TIME_IN_FORCE) && IsOrderTag(MAX_FLOOR);
  }

  lemma Decided(r: Request, head: seq<Byte>, extra: seq<Field>, stamp: int)
    requires r.NewOrder? && Longs(r)
    ensures var e := NewOrderOf(Decisive(r, head, extra), stamp);
            && (e.Some? <==> head == SYMBOL_BYTES && r.clOrdId >= 0 && TermsAccepted(extra + Body(r)[3..]))
            && (e.Some? ==>
                  e.value.eventType == NEW_ORDER && e.value.orderId == r.clOrdId && e.value.timestamp == stamp)
  {
    var fs, terms := Decisive(r, head, extra), extra + Body(r)[3..];
    forall tag | IsOrderTag(tag) && tag != CL_ORD_ID && tag != SYMBOL
      ensures Find(fs, tag) == Find(terms, tag)
    {
      FirstWins(r, head, extra, tag);
    }
    SameTerms(fs, terms);
    FirstWins(r, head, extra, SIDE);
    SignedRoundTrip(r.clOrdId);
  }

  lemma HasSeparator(b: seq<Byte>)
    requires SYMBOL_BYTES + [SOH] <= b
    ensures !Lacks(b, SOH)
  {
    assert b[4] == (SYMBOL_BYTES + [SOH])[4];
  }

  lemma RewritesByPieces(r: Request)
    requires r.NewOrder? && !Plain(r)
    ensures var ps := Cut(Ascii(r.symbol));
            var spelled := FieldsOf(ps[1..]);
            Rewrites(r)
            <==> && ps[0] == SYMBOL_BYTES && r.clOrdId >= 0
                 && spelled.Some? && |Body(r)| + |spelled.value| + 3 <= MAX_FIELDS
                 && TermsAccepted(spelled.value + Body(r)[3..])
  {
    HeadIsSymbol(Ascii(r.symbol));
  }

  /** A symbol with separators is never the venue's, so such an order should be rejected; it is taken exactly if its
      symbol rewrites it. */
  lemma TakenIfRewritten(r: Request, stamp: int)
    requires r.NewOrder? && Longs(r) && !Plain(r)
    ensures Taken(r, stamp).Some? <==> Rewrites(r)
  {
    var ps := Cut(Ascii(r.symbol));
    RewritesByPieces(r);
    if FieldsOf(ps[1..]).Some? {
      Decided(r, ps[0], FieldsOf(ps[1..]).value, stamp);
    }
  }

  lemma NotTheVenues(r: Request, stamp: int)
    requires r.NewOrder? && !Plain(r)
    ensures EventFor(r, stamp) == None
  {
    AsciiSymbol(r.symbol);
    assert Lacks(SYMBOL_BYTES, SOH);
  }

  /** For every request of longs, whatever its symbol: the parser undoes the encoder and rejects exactly what it must if
      and only if the symbol does not rewrite the order. */
  lemma RoundTrip(r: Request, stamp: int)
    requires Longs(r)
    ensures ParseMessage(Message(Body(r)), 0, stamp) == EventFor(r, stamp) <==> !Rewrites(r)
  {
    TakenIsParsed(r, stamp);
    if r.NewOrder? && !Plain(r) {
      TakenIfRewritten(r, stamp);
      NotTheVenues(r, stamp);
    } else if r.NewOrder? && SYMBOL_BYTES + [SOH] <= Ascii(r.symbol) {
      HasSeparator(Ascii(r.symbol));
    }
  }

  /** Whatever an order's symbol spells, it is taken as a new order under its own id or not at all. */
  lemma TakenKeepsId(r: Request, stamp: int)
    requires Longs(r) && Taken(r, stamp).Some?
    ensures var e := Taken(r, stamp).value;
            && e.timestamp == stamp && e.orderId == r.clOrdId
            && (e.eventType == NEW_ORDER <==> r.NewOrder?)
  {
    if r.NewOrder? && !Plain(r) {
      var ps := Cut(Ascii(r.symbol));
      Decided(r, ps[0], FieldsOf(ps[1..]).value, stamp);
    }
  }

  /** An order to buy with the symbol "ASML", a separator, "54=2". */
  function SideInSymbol(): Request {
    NewOrder(1, BUY, LIMIT, 100, 5, "ASML\U{0001}54=2", GTC, 0)
  }

  lemma SpelledSide()
    ensures Ascii(SideInSymbol().symbol) == SYMBOL_BYTES + [SOH] + [53, 52, 61, 50]
    ensures FieldsOf(Cut([53, 52, 61, 50])) == Some([Field(SIDE, [CODE_2])])
  {
    var p: seq<Byte>, f := [53, 52, 61, 50], Field(SIDE, [CODE_2]);
    assert Lacks(p, SOH);
    CutPlain(p);
    assert Digits(SIDE) == Digits(5) + [52] && Digits(5) == [53];
    assert p == FieldText(f);
    TextField(f);
    assert [p][1..] == [] && FieldsOf([]) == Some([]) && [f] + [] == [f];
  }

  lemma OwnTerm(r: Request, i: nat)
    requires r.NewOrder? && 3 <= i < 9
    ensures Find(Body(r)[3..], OrderTag(r.ordType, i)) == if i < |Body(r)| then Some(Body(r)[i].value) else None
  {
    OrderTags(r);
    var tag := OrderTag(r.ordType, i);
    assert forall j :: 3 <= j < i ==> OrderTag(r.ordType, j) != tag;
    FindAt(Body(r)[3..], tag, if i < |Body(r)| then i - 3 else |Body(r)| - 3);
  }

  predicate QuietLimit(r: Request) {
    r.NewOrder? && Longs(r) && r.ordType == LIMIT && IsOnTick(r.price) && r.qty > 0 && r.maxFloor <= 0
  }

  /** The own terms of a limit order that is no iceberg. */
  lemma OwnTerms(r: Request)
    requires QuietLimit(r)
    ensures var own := Body(r)[3..];
            && LongField(own, ORDER_QTY) == r.qty && TypeField(own) == Some(LIMIT) && TifField(own) == Some(r.tif)
            && Find(own, MAX_FLOOR) == None
  {
    OwnTerm(r, 4);
    OwnTerm(r, 5);
    OwnTerm(r, 7);
    OwnTerm(r, 8);
    SignedRoundTrip(r.qty);
  }

  lemma OwnPrice(r: Request)
    requires QuietLimit(r)
    ensures PriceField(Body(r)[3..], LIMIT) == Some(r.price)
  {
    OwnTerm(r, 6);
    PriceFieldIs(Body(r)[3..], FormatPrice(r.price));
    PriceRoundTrip(r.price);
  }

  /** A side spelled in front is the side that counts; all else is as asked. */
  lemma SideFirst(r: Request, v: seq<Byte>, side: Side, stamp: int)
    requires QuietLimit(r) && r.clOrdId >= 0 && SideOf(v) == Some(side)
    ensures NewOrderOf(Decisive(r, SYMBOL_BYTES, [Field(SIDE, v)]), stamp)
            == Some(OrderEvent(NEW_ORDER, r.clOrdId, Some(side), Some(LIMIT), Some(r.tif), r.price, r.qty, 0,
                               stamp, -1))
  {
    var extra := [Field(SIDE, v)];
    var fs := Decisive(r, SYMBOL_BYTES, extra);
    OwnTerms(r);
    OwnPrice(r);
    SignedRoundTrip(r.clOrdId);
    FindAt(extra, SIDE, 0);
    FirstWins(r, SYMBOL_BYTES, extra, SIDE);
    forall tag | IsOrderTag(tag) && tag != CL_ORD_ID && tag != SYMBOL && tag != SIDE
      ensures Find(fs, tag) == Find(Body(r)[3..], tag)
    {
      FindAt(extra, tag, 1);
      FirstWins(r, SYMBOL_BYTES, extra, tag);
    }
    SideAndRest(fs, Body(r)[3..], stamp);
  }

  lemma SideAndRest(fs: seq<Field>, own: seq<Field>, stamp: int)
    requires forall tag :: IsOrderTag(tag) && tag != CL_ORD_ID && tag != SYMBOL && tag != SIDE ==>
               Find(fs, tag) == Find(own, tag)
    ensures LongField(fs, ORDER_QTY) == LongField(own, ORDER_QTY) && TypeField(fs) == TypeField(own)
    ensures TifField(fs) == TifField(own) && PriceField(fs, LIMIT) == PriceField(own, LIMIT)
    ensures Find(fs, MAX_FLOOR) == Find(own, MAX_FLOOR)
  {
    assert IsOrderTag(ORDER_QTY) && IsOrderTag(ORD_TYPE) && IsOrderTag(PRICE) && IsOrderTag(EXEC_INST);
    assert IsOrderTag(TIME_IN_FORCE) && IsOrderTag(MAX_FLOOR);
  }

  /** It should be rejected, and is taken for an order to sell. */
  lemma BuyTakenForSell(stamp: int)
    ensures var r := SideInSymbol();
            && Longs(r) && EventFor(r, stamp) == None
            && ParseMessage(Message(Body(r)), 0, stamp)
               == Some(OrderEvent(NEW_ORDER, 1, Some(SELL), Some(LIMIT), Some(GTC), 100, 5, 0, stamp, -1))
  {
    TakenForSell(SideInSymbol(), stamp);
  }

  /** So is every such order. */
  lemma TakenForSell(r: Request, stamp: int)
    requires QuietLimit(r) && r.clOrdId >= 0 && r.symbol == SideInSymbol().symbol
    ensures EventFor(r, stamp) == None
    ensures ParseMessage(Message(Body(r)), 0, stamp)
            == Some(OrderEvent(NEW_ORDER, r.clOrdId, Some(SELL), Some(LIMIT), Some(r.tif), r.price, r.qty, 0,
                               stamp, -1))
  {
    var b := Ascii(r.symbol);
    SpelledSide();
    TakenIsParsed(r, stamp);
    HasSeparator(b);
    HeadIsSymbol(b);
    NotTheVenues(r, stamp);
    SideFirst(r, [CODE_2], SELL, stamp);
    assert b[5..] == [53, 52, 61, 50];
    OrderTags(r);
  }
}
