/** Encoder, framing and parser undo one another. */
module CodecTheorems {
  import opened Orders
  import opened Events
  import opened Bytes
  import opened Framing
  import opened FixParsing
  import opened FixPrinting

  predicate Lacks(s: seq<Byte>, b: Byte) {
    forall i :: 0 <= i < |s| ==> s[i] != b
  }

  predicate Clean(fs: seq<Field>) {
    forall i :: 0 <= i < |fs| ==> Lacks(fs[i].value, SOH)
  }

  // ---------- Scanning what was encoded ----------

  lemma FirstAt(s: seq<Byte>, pos: nat, d: seq<Byte>, b: Byte)
    requires pos + |d| < |s| && s[pos..pos + |d|] == d && s[pos + |d|] == b && Lacks(d, b)
    ensures IndexOf(s, pos, b) == pos + |d|
  {
    forall i | pos <= i < pos + |d|
      ensures s[i] != b
    {
      assert s[i] == s[pos..pos + |d|][i - pos];
    }
    IndexOfIsFirst(s, pos, b, pos + |d|);
  }

  lemma NotBefore(s: seq<Byte>, pos: nat, d: seq<Byte>, b: Byte)
    requires pos + |d| <= |s| && s[pos..pos + |d|] == d && Lacks(d, b)
    ensures var r := IndexOf(s, pos, b); r == -1 || r >= pos + |d|
  {
    forall i | pos <= i < pos + |d|
      ensures s[i] != b
    {
      assert s[i] == s[pos..pos + |d|][i - pos];
    }
  }

  /** A field made of a tag text and a value. */
  predicate Spells(s: seq<Byte>, pos: nat, d: seq<Byte>, v: seq<Byte>) {
    var eq := pos + |d|;
    && eq + 1 + |v| < |s|
    && s[pos..eq] == d && s[eq] == EQUALS
    && s[eq + 1..eq + 1 + |v|] == v && s[eq + 1 + |v|] == SOH
  }

  /** The tag read is the one written if and only if it fits 32 bits; a wider one is taken for another. */
  lemma FieldSpelled(s: seq<Byte>, pos: nat, tag: nat, v: seq<Byte>)
    requires tag <= MAX_LONG && Spells(s, pos, Digits(tag), v) && Lacks(v, SOH)
    ensures FieldAt(s, pos) == Some((Field(ToInt32(tag), v), pos + |Digits(tag)| + 1 + |v| + 1))
    ensures ToInt32(tag) == tag <==> tag <= 0x7fff_ffff
  {
    var d := Digits(tag);
    FirstAt(s, pos, d, EQUALS);
    NotBefore(s, pos, d, SOH);
    FirstAt(s, pos + |d| + 1, v, SOH);
    LongRoundTrip(tag);
    NarrowedTag(tag);
    FieldBetween(s, pos, pos + |d|, pos + |d| + 1 + |v|, tag);
  }

  lemma FieldBetween(s: seq<Byte>, pos: nat, eq: nat, soh: nat, tag: nat)
    requires pos <= eq < soh < |s| && IndexOf(s, pos, EQUALS) == eq && IndexOf(s, eq + 1, SOH) == soh
    requires IndexOf(s, pos, SOH) == -1 || IndexOf(s, pos, SOH) > eq
    requires ParseLong(s[pos..eq]) == tag
    ensures FieldAt(s, pos) == Some((Field(ToInt32(tag), s[eq + 1..soh]), soh + 1))
  {
  }

  lemma NarrowedTag(tag: nat)
    requires tag <= MAX_LONG
    ensures ToInt32(tag) == tag <==> tag <= 0x7fff_ffff
  {
  }

  /** Such as 4294967331, which is taken for tag 35, the message type. */
  lemma WideTag(s: seq<Byte>, pos: nat, tag: nat, v: seq<Byte>)
    requires tag <= MAX_LONG && tag % 0x1_0000_0000 == MESSAGE_TYPE && Spells(s, pos, Digits(tag), v) && Lacks(v, SOH)
    ensures FieldAt(s, pos).Some? && FieldAt(s, pos).value.0 == Field(MESSAGE_TYPE, v)
  {
    FieldSpelled(s, pos, tag, v);
  }

  /** Text pieces, each ended by SOH. */
  function Joined(ps: seq<seq<Byte>>): seq<Byte> {
    if ps == [] then [] else ps[0] + [SOH] + Joined(ps[1..])
  }

  predicate Pieces(ps: seq<seq<Byte>>) {
    forall i :: 0 <= i < |ps| ==> Lacks(ps[i], SOH)
  }

  /** The field a piece of text stands for: digits, '=', value. */
  function PieceField(p: seq<Byte>): Option<Field> {
    var eq := IndexOf(p, 0, EQUALS);
    if eq == -1 || ParseLong(p[..eq]) == -1 then None
    else Some(Field(ToInt32(ParseLong(p[..eq])), p[eq + 1..]))
  }

  /** The fields of all the pieces, or None where one of them is none. */
  function FieldsOf(ps: seq<seq<Byte>>): (r: Option<seq<Field>>)
    ensures r.Some? ==> |r.value| == |ps|
  {
    if ps == [] then Some([])
    else
      match PieceField(ps[0])
      case None => None
      case Some(f) =>
        match FieldsOf(ps[1..])
        case None => None
        case Some(more) => Some([f] + more)
  }

  lemma PieceWithin(s: seq<Byte>, pos: nat, p: seq<Byte>, rest: seq<Byte>)
    requires pos <= |s| && s[pos..] == p + [SOH] + rest
    ensures pos + |p| < |s| && s[pos..pos + |p|] == p && s[pos + |p|] == SOH && s[pos + |p| + 1..] == rest
  {
    var t := s[pos..];
    assert s[pos..pos + |p|] == t[..|p|] == p;
    assert s[pos + |p|] == t[|p|];
    assert s[pos + |p| + 1..] == t[|p| + 1..] == rest;
  }

  lemma NoEquals(s: seq<Byte>, pos: nat, p: seq<Byte>)
    requires PieceAt(s, pos, p) && Lacks(p, SOH) && Lacks(p, EQUALS)
    ensures FieldAt(s, pos) == None
  {
    FirstAt(s, pos, p, SOH);
    NotBefore(s, pos, p, EQUALS);
  }

  lemma EqualsAt(s: seq<Byte>, pos: nat, p: seq<Byte>, eq: nat)
    requires PieceAt(s, pos, p) && Lacks(p, SOH)
    requires eq == IndexOf(p, 0, EQUALS)
    ensures s[pos..pos + eq] == p[..eq] && s[pos + eq + 1..pos + |p|] == p[eq + 1..]
    ensures IndexOf(s, pos, EQUALS) == pos + eq && IndexOf(s, pos, SOH) == pos + |p|
    ensures IndexOf(s, pos + eq + 1, SOH) == pos + |p|
  {
    IndexOfIsFirst(p, 0, EQUALS, eq);
    assert s[pos + eq] == s[pos..pos + |p|][eq];
    var d, v := p[..eq], p[eq + 1..];
    assert s[pos..pos + eq] == d && s[pos + eq + 1..pos + eq + 1 + |v|] == v;
    FirstAt(s, pos, d, EQUALS);
    FirstAt(s, pos, p, SOH);
    FirstAt(s, pos + eq + 1, v, SOH);
  }

  /** The field of a piece, and where the next one begins. */
  function FoundIn(p: seq<Byte>, next: nat): Option<(Field, nat)> {
    match PieceField(p)
    case None => None
    case Some(f) => Some((f, next))
  }

  /** The fields of the pieces, if there is room for all of them. */
  function Within(ps: seq<seq<Byte>>, room: nat): Option<seq<Field>> {
    if |ps| <= room then FieldsOf(ps) else None
  }

  /** A field is read off its own piece of text and nothing else. */
  lemma FieldAtPiece(s: seq<Byte>, pos: nat, p: seq<Byte>)
    requires PieceAt(s, pos, p) && Lacks(p, SOH)
    ensures FieldAt(s, pos) == FoundIn(p, pos + |p| + 1)
  {
    var eq := IndexOf(p, 0, EQUALS);
    IndexOfIsFirst(p, 0, EQUALS, eq);
    if eq == -1 {
      NoEquals(s, pos, p);
    } else {
      EqualsAt(s, pos, p, eq);
    }
  }

  /** The piece stands at pos, ended by its separator. */
  predicate PieceAt(s: seq<Byte>, pos: nat, p: seq<Byte>) {
    pos + |p| < |s| && s[pos..pos + |p|] == p && s[pos + |p|] == SOH
  }

  /** The pieces stand one after another from pos to the end. */
  predicate PiecesAt(s: seq<Byte>, pos: nat, ps: seq<seq<Byte>>)
    decreases |ps|
  {
    if ps == [] then pos == |s| else PieceAt(s, pos, ps[0]) && PiecesAt(s, pos + |ps[0]| + 1, ps[1..])
  }

  lemma {:induction false} JoinedStands(s: seq<Byte>, pos: nat, ps: seq<seq<Byte>>)
    requires pos <= |s| && s[pos..] == Joined(ps)
    ensures PiecesAt(s, pos, ps)
    decreases |ps|
  {
    if ps != [] {
      PieceWithin(s, pos, ps[0], Joined(ps[1..]));
      JoinedStands(s, pos + |ps[0]| + 1, ps[1..]);
    }
  }

  lemma {:induction false} FirstPiece(s: seq<Byte>, pos: nat, ps: seq<seq<Byte>>) returns (next: nat)
    requires Pieces(ps) && PiecesAt(s, pos, ps) && ps != []
    ensures pos < next <= |s| && FieldAt(s, pos) == FoundIn(ps[0], next)
    ensures Pieces(ps[1..]) && PiecesAt(s, next, ps[1..])
  {
    next := pos + |ps[0]| + 1;
    FieldAtPiece(s, pos, ps[0]);
    PiecesWithin(s, next, ps[1..]);
  }

  lemma {:induction false} PiecesWithin(s: seq<Byte>, pos: nat, ps: seq<seq<Byte>>)
    requires PiecesAt(s, pos, ps)
    ensures pos <= |s|
  {
  }

  /** Scanning text is reading its pieces. */
  lemma {:induction false} ScanPieces(s: seq<Byte>, pos: nat, ps: seq<seq<Byte>>, room: nat)
    requires Pieces(ps) && PiecesAt(s, pos, ps)
    ensures pos <= |s| && Scan(s, pos, room) == Within(ps, room)
    decreases |ps|
  {
    if ps != [] {
      var next := FirstPiece(s, pos, ps);
      if room > 0 {
        ScanPieces(s, next, ps[1..], room - 1);
        ScanOne(s, pos, ps, next, room, Within(ps[1..], room - 1));
      } else {
        NoRoom(s, pos);
      }
    }
  }

  lemma {:induction false} ScanOne(s: seq<Byte>, pos: nat, ps: seq<seq<Byte>>, next: nat, room: nat,
                                   more: Option<seq<Field>>)
    requires pos < |s| && ps != [] && next <= |s| && room > 0
    requires FieldAt(s, pos) == FoundIn(ps[0], next) && Scan(s, next, room - 1) == more == Within(ps[1..], room - 1)
    ensures Scan(s, pos, room) == Within(ps, room)
  {
  }

  lemma NoRoom(s: seq<Byte>, pos: nat)
    requires pos < |s|
    ensures Scan(s, pos, 0) == None
  {
  }

  lemma {:induction false} JoinedConcat(a: seq<seq<Byte>>, b: seq<seq<Byte>>)
    ensures Joined(a + b) == Joined(a) + Joined(b)
  {
    if a == [] {
      assert a + b == b;
    } else {
      assert (a + b)[1..] == a[1..] + b;
      JoinedConcat(a[1..], b);
      var t := a[0] + [SOH];
      assert t + (Joined(a[1..]) + Joined(b)) == (t + Joined(a[1..])) + Joined(b);
    }
  }

  lemma {:induction false} FieldsOfConcat(a: seq<seq<Byte>>, b: seq<seq<Byte>>)
    ensures FieldsOf(a + b)
            == if FieldsOf(a).Some? && FieldsOf(b).Some? then Some(FieldsOf(a).value + FieldsOf(b).value) else None
  {
    if a == [] {
      assert a + b == b;
      assert FieldsOf(b).Some? ==> [] + FieldsOf(b).value == FieldsOf(b).value;
    } else {
      assert (a + b)[1..] == a[1..] + b;
      FieldsOfConcat(a[1..], b);
      if FieldsOf(a).Some? && FieldsOf(b).Some? {
        assert [FieldsOf(a).value[0]] + (FieldsOf(a[1..]).value + FieldsOf(b).value)
               == FieldsOf(a).value + FieldsOf(b).value;
      }
    }
  }

  // ---------- Encoded fields as pieces ----------

  function Texts(fs: seq<Field>): (ps: seq<seq<Byte>>)
    requires Tagged(fs)
    ensures |ps| == |fs| && forall i :: 0 <= i < |ps| ==> ps[i] == FieldText(fs[i])
  {
    seq(|fs|, i requires 0 <= i < |fs| => FieldText(fs[i]))
  }

  lemma {:induction false} EncodeIsJoined(fs: seq<Field>)
    requires Tagged(fs)
    ensures Encode(fs) == Joined(Texts(fs))
  {
    if fs != [] {
      EncodeIsJoined(fs[1..]);
      assert Texts(fs)[1..] == Texts(fs[1..]);
    }
  }

  lemma TextField(f: Field)
    requires 0 <= f.tag < 0x8000_0000
    ensures PieceField(FieldText(f)) == Some(f)
  {
    var d, p := Digits(f.tag), FieldText(f);
    assert p[0..|d|] == d && p[|d|] == EQUALS && p[|d| + 1..] == f.value;
    FirstAt(p, 0, d, EQUALS);
    assert p[..|d|] == d;
    LongRoundTrip(f.tag);
  }

  lemma {:induction false} TextsRead(fs: seq<Field>)
    requires Tagged(fs)
    ensures FieldsOf(Texts(fs)) == Some(fs)
  {
    if fs != [] {
      TextField(fs[0]);
      TextsRead(fs[1..]);
      assert Texts(fs)[1..] == Texts(fs[1..]);
      assert [fs[0]] + fs[1..] == fs;
    }
  }

  lemma TextsClean(fs: seq<Field>)
    requires Tagged(fs) && Clean(fs)
    ensures Pieces(Texts(fs))
  {
    forall i | 0 <= i < |fs|
      ensures Lacks(Texts(fs)[i], SOH)
    {
      assert Lacks(fs[i].value, SOH) && AllDigits(Digits(fs[i].tag));
    }
  }

  /** Scanning encoded fields gives the fields back. */
  lemma ScanEncoded(fs: seq<Field>, room: nat)
    requires Tagged(fs) && Clean(fs) && |fs| <= room
    ensures Scan(Encode(fs), 0, room) == Some(fs)
  {
    EncodeIsJoined(fs);
    TextsClean(fs);
    assert Encode(fs)[0..] == Encode(fs);
    JoinedStands(Encode(fs), 0, Texts(fs));
    ScanPieces(Encode(fs), 0, Texts(fs), room);
    TextsRead(fs);
  }

  // ---------- The whole message ----------

  function AllFields(body: seq<Field>): (fs: seq<Field>)
    requires Tagged(body)
    ensures Tagged(fs)
  {
    Header(body) + body + Trailer(body)
  }

  lemma MessageIsFields(body: seq<Field>)
    requires Tagged(body)
    ensures Message(body) == Encode(AllFields(body))
  {
    EncodeConcat(Header(body), body);
    EncodeConcat(Header(body) + body, Trailer(body));
  }

  lemma PadThreeIs(c: nat)
    requires c < 256
    ensures |PadThree(c)| == 3 && AllDigits(PadThree(c)) && Value(PadThree(c)) == c
  {
    ValueOfDigits(c);
    DigitsLength(c, 3) by {
      assert Pow10(3) == 1000;
    }
    var z := Zeros(3 - |Digits(c)|);
    ValueOfConcat(z, Digits(c));
    ValueOfZeros(3 - |Digits(c)|);
  }

  lemma TrailerText(body: seq<Field>) returns (digits: seq<Byte>)
    requires Tagged(body)
    ensures digits == PadThree(SumBytes(Summed(body), 0, |Summed(body)|) % 256)
    ensures |digits| == 3 && ParseLong(digits) == SumBytes(Summed(body), 0, |Summed(body)|) % 256
    ensures Encode(Trailer(body)) == [B1, B0, EQUALS] + digits + [SOH]
  {
    var c := SumBytes(Summed(body), 0, |Summed(body)|) % 256;
    digits := PadThree(c);
    PadThreeIs(c);
    EncodeOne(Field(CHECKSUM, digits));
    assert Digits(10) == Digits(1) + [48] && Digits(1) == [49];
  }

  lemma ChecksumHolds(body: seq<Field>)
    requires Tagged(body)
    ensures ValidChecksum(Message(body), 0)
  {
    var digits := TrailerText(body);
    var s, m := Summed(body), Message(body);
    var tail := [B1, B0, EQUALS] + digits + [SOH];
    assert m == s + tail;
    assert m[|m| - 4..|m| - 1] == digits;
    SumPrefix(s, tail, |s|);
    HeaderText(body);
  }

  lemma HeaderText(body: seq<Field>)
    requires Tagged(body)
    ensures Encode(Header(body)) == [B8, EQUALS] + BEGIN_STRING + [SOH, B9, EQUALS] + Digits(|Encode(body)|) + [SOH]
  {
    var a, b := Field(TAG_BEGIN, BEGIN_STRING), Field(TAG_LENGTH, Digits(|Encode(body)|));
    EncodeOne(b);
    assert [a, b][1..] == [b];
    assert Digits(8) == [B8] && Digits(9) == [B9];
  }

  lemma MessageText(body: seq<Field>) returns (digits: seq<Byte>)
    requires Tagged(body)
    ensures |digits| == 3
    ensures var d := Digits(|Encode(body)|);
            Message(body) == [B8, EQUALS] + (BEGIN_STRING + [SOH] + ([B9, EQUALS] + d + [SOH]
                             + (Encode(body) + [B1, B0, EQUALS] + digits + [SOH])))
  {
    digits := TrailerText(body);
    HeaderText(body);
  }

  lemma FieldEnds(m: seq<Byte>, d: seq<Byte>, post: seq<Byte>)
    requires AllDigits(d) && d != [] && m == [B8, EQUALS] + (BEGIN_STRING + [SOH] + ([B9, EQUALS] + d + [SOH] + post))
    ensures IndexOf(m, 2, SOH) == 9 && m[9 + 1] == B9 && m[9 + 2] == EQUALS
    ensures IndexOf(m, 12, SOH) == 12 + |d| && m[12..12 + |d|] == d
    ensures m[12 + |d| + 1..] == post
  {
    assert m[2..9] == BEGIN_STRING && m[12..12 + |d|] == d;
    FirstAt(m, 2, BEGIN_STRING, SOH);
    FirstAt(m, 12, d, SOH);
  }

  lemma LengthVia(m: seq<Byte>, soh2: nat)
    requires 12 < soh2 < |m| && m[0] == B8 && m[1] == EQUALS && IndexOf(m, 2, SOH) == 9
    requires m[10] == B9 && m[11] == EQUALS && IndexOf(m, 12, SOH) == soh2
    ensures FrameLength(m, 0) == LengthFrom(m, 0, soh2, ParseLong(m[12..soh2]))
  {
    assert FrameLength(m, 0) == LengthAfter(m, 0, 9);
  }

  lemma LengthOfParts(m: seq<Byte>, soh2: nat, body: seq<Byte>, digits: seq<Byte>)
    requires soh2 < |m| && m[soh2 + 1..] == body + [B1, B0, EQUALS] + digits + [SOH] && |digits| == 3
    ensures LengthFrom(m, 0, soh2, |body|) == if 0 < |body| <= MAX_FRAME then |m| else MALFORMED
  {
    var t := m[soh2 + 1..];
    var end := |m|;
    assert |t| == |body| + 7 && end == soh2 + 1 + |body| + 7;
    assert t[|body|] == B1 && t[|body| + 1] == B0 && t[|body| + 2] == EQUALS && t[|t| - 1] == SOH;
    assert m[end - 7] == t[|body|] && m[end - 6] == t[|body| + 1] && m[end - 5] == t[|body| + 2];
    assert m[end - 1] == t[|t| - 1];
  }

  /** The length prefix is honest: an encoded message is exactly one frame, if and only if its body is neither empty nor
      beyond the decoder's limit. */
  lemma MessageIsFrame(body: seq<Field>)
    requires Tagged(body)
    ensures FrameLength(Message(body), 0) == if 0 < |Encode(body)| <= MAX_FRAME then |Message(body)| else MALFORMED
  {
    var m, n := Message(body), |Encode(body)|;
    var d := Digits(n);
    var digits := MessageText(body);
    var post := Encode(body) + [B1, B0, EQUALS] + digits + [SOH];
    FieldEnds(m, d, post);
    LengthOfParts(m, 12 + |d|, Encode(body), digits);
    BodyLengthReads(n);
    LengthVia(m, 12 + |d|);
  }

  lemma BodyLengthReads(n: nat)
    ensures ParseLong(Digits(n)) == if n <= MAX_LONG then n else -1
  {
    ValueOfDigits(n);
  }

  // ---------- Fields by tag ----------

  lemma {:induction false} FindConcat(a: seq<Field>, b: seq<Field>, tag: int)
    ensures Find(a + b, tag) == if Find(a, tag).Some? then Find(a, tag) else Find(b, tag)
  {
    if a == [] {
      assert a + b == b;
    } else {
      assert (a + b)[1..] == a[1..] + b;
      FindConcat(a[1..], b, tag);
    }
  }

  lemma {:induction false} FindAt(fs: seq<Field>, tag: int, i: nat)
    requires i <= |fs| && forall j :: 0 <= j < i ==> fs[j].tag != tag
    requires i < |fs| ==> fs[i].tag == tag
    ensures Find(fs, tag) == if i < |fs| then Some(fs[i].value) else None
    decreases |fs|
  {
    if i > 0 {
      FindAt(fs[1..], tag, i - 1);
    }
  }

  /** The header and the trailer hide no field of the body. */
  lemma FieldSeen(body: seq<Field>, tag: int, i: nat)
    requires Tagged(body) && tag != TAG_BEGIN && tag != TAG_LENGTH && tag != CHECKSUM
    requires i <= |body| && forall j :: 0 <= j < i ==> body[j].tag != tag
    requires i < |body| ==> body[i].tag == tag
    ensures Find(AllFields(body), tag) == if i < |body| then Some(body[i].value) else None
  {
    FindAt(body, tag, i);
    FindAt(Header(body), tag, 2);
    FindAt(Trailer(body), tag, 1);
    FindConcat(Header(body), body, tag);
    FindConcat(Header(body) + body, Trailer(body), tag);
  }

  /** The parser sees the body's fields, each under its own tag, and none it must reject unseen. */
  lemma ParseOfMessage(body: seq<Field>, stamp: int)
    requires Tagged(body) && Clean(body) && |body| + 3 <= MAX_FIELDS
    ensures ParseMessage(Message(body), 0, stamp) == EventOf(AllFields(body), stamp)
  {
    ChecksumHolds(body);
    MessageIsFields(body);
    var digits := TrailerText(body);
    assert Lacks(BEGIN_STRING, SOH);
    assert Clean(AllFields(body));
    ScanEncoded(AllFields(body), MAX_FIELDS);
  }

  // ---------- Round trips ----------

  /** What a client can ask for. */
  datatype Request =
    | NewOrder(clOrdId: int, side: Side, ordType: OrdType, price: int, qty: int, symbol: string, tif: TimeInForce,
               maxFloor: int)
    | CancelOrder(clOrdId: int, origClOrdId: int)

  function Body(r: Request): (fs: seq<Field>)
    ensures Tagged(fs) && 3 <= |fs| <= 9
  {
    match r
    case NewOrder(id, side, ordType, price, qty, symbol, tif, maxFloor) =>
      OrderFields(id, side, ordType, price, qty, symbol, tif, maxFloor)
    case CancelOrder(id, orig) => CancelFields(id, orig)
  }

  predicate IsLong(n: int) {
    -MAX_LONG - 1 <= n <= MAX_LONG
  }

  /** The numbers are Java longs. The symbol may be any text. */
  predicate Longs(r: Request) {
    match r
    case NewOrder(id, _, _, price, qty, _, _, maxFloor) =>
      IsLong(id) && IsLong(price) && IsLong(qty) && IsLong(maxFloor)
    case CancelOrder(id, orig) => IsLong(id) && IsLong(orig)
  }

  /** The symbol is a field value: it does not hold the byte that ends one. */
  predicate Plain(r: Request) {
    r.NewOrder? ==> Lacks(Ascii(r.symbol), SOH)
  }

  lemma AsciiSymbol(symbol: string)
    ensures Ascii(symbol) == SYMBOL_BYTES <==> symbol == "ASML"
  {
    var a := Ascii(symbol);
    if a == SYMBOL_BYTES {
      assert a[0] == 65 && a[1] == 83 && a[2] == 77 && a[3] == 76;
    }
  }

  /** The event a request comes to; None where the parser is to reject it. */
  function EventFor(r: Request, stamp: int): Option<OrderEvent> {
    match r
    case NewOrder(id, side, ordType, price, qty, symbol, tif, maxFloor) =>
      if id >= 0 && qty > 0 && maxFloor <= qty && symbol == "ASML" && (ordType == PEG_MID || IsOnTick(price))
      then Some(OrderEvent(NEW_ORDER, id, Some(side), Some(ordType), Some(tif),
                           if ordType == PEG_MID then NA else price, qty, if maxFloor > 0 then maxFloor else 0,
                           stamp, -1))
      else None
    case CancelOrder(id, orig) =>
      if id >= 0 && orig >= 0
      then Some(OrderEvent(CANCEL_ORDER, id, None, None, None, -1, -1, 0, stamp, orig))
      else None
  }

  lemma SignedRoundTrip(n: int)
    requires IsLong(n)
    ensures ParseLong(SignedDigits(n)) == if n >= 0 then n else -1
    ensures Lacks(SignedDigits(n), SOH)
  {
    if n >= 0 {
      LongRoundTrip(n);
    } else {
      assert SignedDigits(n)[0] == MINUS;
    }
  }

  lemma NumberClean(n: int)
    ensures Lacks(SignedDigits(n), SOH) && Lacks(PadFour(n), SOH)
  {
  }

  lemma PriceTextClean(px: int)
    ensures Lacks(FormatPrice(px), SOH)
  {
    var s := FormatPrice(px);
    var d, t := FormatSplits(px);
    NumberClean(TruncDiv(px, SCALE));
    NumberClean(TruncMod(px, SCALE));
    NumberClean(TruncDiv(TruncMod(px, SCALE), 100));
    assert Lacks(d, SOH) && Lacks(t, SOH);
    forall i | 0 <= i < |s|
      ensures s[i] != SOH
    {
      if i < |d| {
        assert s[i] == s[..|d|][i];
      } else if i > |d| {
        assert s[i] == s[|d| + 1..][i - |d| - 1];
      }
    }
  }

  lemma OrderFieldsClean(r: Request)
    requires r.NewOrder? && Longs(r) && Plain(r)
    ensures Clean(Body(r))
  {
    SignedRoundTrip(r.clOrdId);
    SignedRoundTrip(r.qty);
    SignedRoundTrip(r.maxFloor);
    PriceTextClean(r.price);
  }

  /** The tag of each field of an order. */
  function OrderTag(ordType: OrdType, i: int): int {
    if i == 0 then MESSAGE_TYPE else if i == 1 then CL_ORD_ID else if i == 2 then SYMBOL else if i == 3 then SIDE
    else if i == 4 then ORDER_QTY else if i == 5 then ORD_TYPE
    else if i == 6 then (if ordType == PEG_MID then EXEC_INST else PRICE)
    else if i == 7 then TIME_IN_FORCE else MAX_FLOOR
  }

  lemma OrderTags(r: Request)
    requires r.NewOrder?
    ensures |Body(r)| == if r.maxFloor > 0 then 9 else 8
    ensures forall i :: 0 <= i < |Body(r)| ==> Body(r)[i].tag == OrderTag(r.ordType, i)
  {
  }

  /** The i-th field of an order is the one found under its tag. */
  lemma OrderFieldSeen(r: Request, i: nat)
    requires r.NewOrder? && i < 9
    ensures Find(AllFields(Body(r)), OrderTag(r.ordType, i)) == if i < |Body(r)| then Some(Body(r)[i].value) else None
  {
    OrderTags(r);
    var tag := OrderTag(r.ordType, i);
    assert forall j :: 0 <= j < i ==> OrderTag(r.ordType, j) != tag;
    FieldSeen(Body(r), tag, i);
  }

  lemma OrderNumbersRead(r: Request)
    requires r.NewOrder? && Longs(r)
    ensures LongField(AllFields(Body(r)), CL_ORD_ID) == if r.clOrdId >= 0 then r.clOrdId else -1
    ensures LongField(AllFields(Body(r)), ORDER_QTY) == if r.qty >= 0 then r.qty else -1
  {
    OrderFieldSeen(r, 1);
    OrderFieldSeen(r, 4);
    SignedRoundTrip(r.clOrdId);
    SignedRoundTrip(r.qty);
  }

  lemma OrderKindRead(r: Request)
    requires r.NewOrder? && Longs(r)
    ensures Find(AllFields(Body(r)), MESSAGE_TYPE) == Some([CODE_D])
    ensures Find(AllFields(Body(r)), SYMBOL) == Some(Ascii(r.symbol))
  {
    OrderFieldSeen(r, 0);
    OrderFieldSeen(r, 2);
  }

  lemma OrderCodesRead(r: Request)
    requires r.NewOrder? && Longs(r)
    ensures SideField(AllFields(Body(r))) == Some(r.side) && TypeField(AllFields(Body(r))) == Some(r.ordType)
  {
    OrderFieldSeen(r, 3);
    OrderFieldSeen(r, 5);
  }

  lemma PegPriceRead(r: Request)
    requires r.NewOrder? && Longs(r) && r.ordType == PEG_MID
    ensures PriceField(AllFields(Body(r)), PEG_MID) == Some(NA)
  {
    OrderTags(r);
    assert forall j :: 0 <= j < 9 ==> OrderTag(PEG_MID, j) != PRICE;
    FieldSeen(Body(r), PRICE, |Body(r)|);
    OrderFieldSeen(r, 6);
  }

  lemma PriceFieldIs(fs: seq<Field>, text: seq<Byte>)
    requires Find(fs, PRICE) == Some(text)
    ensures PriceField(fs, LIMIT) == if ParsePrice(text) >= 0 then Some(ParsePrice(text)) else None
  {
  }

  lemma LimitPriceRead(r: Request)
    requires r.NewOrder? && Longs(r) && r.ordType == LIMIT
    ensures PriceField(AllFields(Body(r)), LIMIT) == if IsOnTick(r.price) then Some(r.price) else None
  {
    OrderFieldSeen(r, 6);
    OrderTags(r);
    PriceFieldIs(AllFields(Body(r)), FormatPrice(r.price));
    PriceRoundTrip(r.price);
  }

  lemma OrderTermsRead(r: Request)
    requires r.NewOrder? && Longs(r)
    ensures TifField(AllFields(Body(r))) == Some(r.tif)
    ensures forall q :: FloorField(AllFields(Body(r)), q)
                        == if r.maxFloor <= 0 then Some(0) else if r.maxFloor <= q then Some(r.maxFloor) else None
  {
    OrderFieldSeen(r, 7);
    OrderFieldSeen(r, 8);
    SignedRoundTrip(r.maxFloor);
  }

  /** With a plain symbol, an order message of Java longs parses to exactly the order it was made from, and is rejected
      when that order is not one the gateway takes. */
  lemma PlainOrderRoundTrip(r: Request, stamp: int)
    requires r.NewOrder? && Longs(r) && Plain(r)
    ensures ParseMessage(Message(Body(r)), 0, stamp) == EventFor(r, stamp)
  {
    OrderFieldsClean(r);
    ParseOfMessage(Body(r), stamp);
    OrderKindRead(r);
    OrderNumbersRead(r);
    OrderCodesRead(r);
    OrderTermsRead(r);
    AsciiSymbol(r.symbol);
    if r.ordType == PEG_MID {
      PegPriceRead(r);
    } else {
      LimitPriceRead(r);
    }
    var all := AllFields(Body(r));
    assert EventOf(all, stamp) == NewOrderOf(all, stamp);
    assert FloorField(all, LongField(all, ORDER_QTY)).None? || r.maxFloor <= 0 || r.maxFloor <= r.qty;
  }

  /** Every cancel message of Java longs parses to exactly the cancel it was made from, or is rejected. */
  lemma CancelRoundTrip(r: Request, stamp: int)
    requires r.CancelOrder? && Longs(r)
    ensures ParseMessage(Message(Body(r)), 0, stamp) == EventFor(r, stamp)
  {
    var fs := Body(r);
    SignedRoundTrip(r.clOrdId);
    SignedRoundTrip(r.origClOrdId);
    assert Clean(fs);
    ParseOfMessage(fs, stamp);
    FieldSeen(fs, MESSAGE_TYPE, 0);
    FieldSeen(fs, CL_ORD_ID, 1);
    FieldSeen(fs, ORIG_CL_ORD_ID, 2);
  }
}
