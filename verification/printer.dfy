/** The FIX encoder: a validated order or cancel as a complete FIX 4.2 message. */
module FixPrinting {
  import opened Orders
  import opened Bytes
  import opened FixParsing

  /** "FIX.4.2" */
  const BEGIN_STRING: seq<Byte> := [70, 73, 88, 46, 52, 46, 50]

  const QUESTION_MARK: Byte := 63

  const TAG_BEGIN := 8
  const TAG_LENGTH := 9

  /** One field as text, without its terminator. */
  function FieldText(f: Field): seq<Byte>
    requires f.tag >= 0
  {
    Digits(f.tag) + [EQUALS] + f.value
  }

  predicate Tagged(fs: seq<Field>) {
    forall i :: 0 <= i < |fs| ==> 0 <= fs[i].tag < 0x8000_0000
  }

  /** The fields as text, each ended by SOH. */
  function Encode(fs: seq<Field>): seq<Byte>
    requires Tagged(fs)
  {
    if fs == [] then [] else FieldText(fs[0]) + [SOH] + Encode(fs[1..])
  }

  function SideCode(side: Side): Byte {
    if side == BUY then CODE_1 else CODE_2
  }

  function OrdTypeCode(ordType: OrdType): Byte {
    if ordType == PEG_MID then CODE_P else CODE_2
  }

  function TifCode(tif: TimeInForce): Byte {
    match tif
    case IOC => CODE_3
    case FOK => CODE_4
    case GTC => CODE_1
  }

  /** Text in US-ASCII: what that cannot express becomes a question mark. */
  function Ascii(text: string): (r: seq<Byte>)
    ensures |r| == |text|
    ensures forall i :: 0 <= i < |r| ==> r[i] == if text[i] as int < 128 then text[i] as int else 63
  {
    seq(|text|, i requires 0 <= i < |text| => if text[i] as int < 128 then text[i] as int else QUESTION_MARK)
  }

  /** The body fields of a NewOrderSingle. */
  function OrderFields(clOrdId: int, side: Side, ordType: OrdType, priceUnits: int, qty: int, symbol: string,
                       tif: TimeInForce, maxFloor: int): (fs: seq<Field>)
    ensures Tagged(fs)
  {
    [Field(MESSAGE_TYPE, [CODE_D]),
     Field(CL_ORD_ID, SignedDigits(clOrdId)),
     Field(SYMBOL, Ascii(symbol)),
     Field(SIDE, [SideCode(side)]),
     Field(ORDER_QTY, SignedDigits(qty)),
     Field(ORD_TYPE, [OrdTypeCode(ordType)]),
     if ordType == PEG_MID then Field(EXEC_INST, [CODE_M]) else Field(PRICE, FormatPrice(priceUnits)),
     Field(TIME_IN_FORCE, [TifCode(tif)])]
    + (if maxFloor > 0 then [Field(MAX_FLOOR, SignedDigits(maxFloor))] else [])
  }

  /** The body fields of an OrderCancelRequest. */
  function CancelFields(clOrdId: int, origClOrdId: int): (fs: seq<Field>)
    ensures Tagged(fs)
  {
    [Field(MESSAGE_TYPE, [CODE_F]), Field(CL_ORD_ID, SignedDigits(clOrdId)),
     Field(ORIG_CL_ORD_ID, SignedDigits(origClOrdId))]
  }

  /** %03d of a value below 1000. */
  function PadThree(n: nat): seq<Byte> {
    Zeros(3 - |Digits(n)|) + Digits(n)
  }

  function Header(body: seq<Field>): (fs: seq<Field>)
    requires Tagged(body)
    ensures Tagged(fs)
  {
    [Field(TAG_BEGIN, BEGIN_STRING), Field(TAG_LENGTH, Digits(|Encode(body)|))]
  }

  /** The header and the body: everything the checksum covers. */
  function Summed(body: seq<Field>): seq<Byte>
    requires Tagged(body)
  {
    Encode(Header(body)) + Encode(body)
  }

  function Trailer(body: seq<Field>): (fs: seq<Field>)
    requires Tagged(body)
    ensures Tagged(fs)
  {
    var s := Summed(body);
    [Field(CHECKSUM, PadThree(SumBytes(s, 0, |s|) % 256))]
  }

  /** The whole message. */
  function Message(body: seq<Field>): seq<Byte>
    requires Tagged(body)
  {
    Summed(body) + Encode(Trailer(body))
  }

  // ---------- The encoder's loops ----------

  lemma {:induction false} EncodeConcat(a: seq<Field>, b: seq<Field>)
    requires Tagged(a) && Tagged(b)
    ensures Tagged(a + b) && Encode(a + b) == Encode(a) + Encode(b)
  {
    if a == [] {
      assert a + b == b;
    } else {
      assert (a + b)[1..] == a[1..] + b;
      EncodeConcat(a[1..], b);
      var t := FieldText(a[0]) + [SOH];
      assert t + (Encode(a[1..]) + Encode(b)) == (t + Encode(a[1..])) + Encode(b);
    }
  }

  lemma EncodeOne(f: Field)
    requires 0 <= f.tag < 0x8000_0000
    ensures Encode([f]) == FieldText(f) + [SOH]
  {
    assert Encode([f][1..]) == [];
  }

  method JoinFields(fs: seq<Field>) returns (text: seq<Byte>)
    requires Tagged(fs)
    ensures text == Encode(fs)
  {
    text := [];
    var i := 0;
    while i < |fs|
      invariant i <= |fs| && text == Encode(fs[..i])
    {
      EncodeConcat(fs[..i], [fs[i]]);
      EncodeOne(fs[i]);
      assert fs[..i] + [fs[i]] == fs[..i + 1];
      text := text + (FieldText(fs[i]) + [SOH]);
      i := i + 1;
    }
    assert fs[..|fs|] == fs;
  }

  method AddUp(sum: int, bytes: seq<Byte>) returns (r: int)
    ensures r == sum + SumBytes(bytes, 0, |bytes|)
  {
    r := sum;
    var i := 0;
    while i < |bytes|
      invariant i <= |bytes| && r == sum + SumBytes(bytes, 0, i)
    {
      r := r + bytes[i];
      i := i + 1;
    }
  }

  lemma {:induction false} SumConcat(a: seq<Byte>, b: seq<Byte>, k: nat)
    requires k <= |b|
    ensures SumBytes(a + b, 0, |a| + k) == SumBytes(a, 0, |a|) + SumBytes(b, 0, k)
    decreases k
  {
    if k == 0 {
      SumPrefix(a, b, |a|);
    } else {
      SumConcat(a, b, k - 1);
      assert (a + b)[|a| + k - 1] == b[k - 1];
    }
  }

  lemma {:induction false} SumPrefix(a: seq<Byte>, b: seq<Byte>, k: nat)
    requires k <= |a|
    ensures SumBytes(a + b, 0, k) == SumBytes(a, 0, k)
  {
    if k > 0 {
      SumPrefix(a, b, k - 1);
      assert (a + b)[k - 1] == a[k - 1];
    }
  }

  method CopyInto(src: seq<Byte>, dst: array<Byte>, at: nat)
    requires at + |src| <= dst.Length
    modifies dst
    ensures dst[..at + |src|] == old(dst[..at]) + src
  {
    forall k | 0 <= k < |src| {
      dst[at + k] := src[k];
    }
  }

  method Join(header: seq<Byte>, body: seq<Byte>, trailer: seq<Byte>) returns (out: array<Byte>)
    ensures fresh(out) && out[..] == header + body + trailer
  {
    out := new Byte[|header| + |body| + |trailer|];
    CopyInto(header, out, 0);
    assert out[..|header|] == header;
    CopyInto(body, out, |header|);
    CopyInto(trailer, out, |header| + |body|);
    assert out[..] == out[..|header| + |body| + |trailer|];
  }

  /** Prepends BeginString and BodyLength, appends the checksum. */
  method Assemble(bodyFields: seq<Field>) returns (out: array<Byte>)
    requires Tagged(bodyFields)
    ensures fresh(out) && out[..] == Message(bodyFields)
  {
    var body := JoinFields(bodyFields);
    var header := JoinFields([Field(TAG_BEGIN, BEGIN_STRING), Field(TAG_LENGTH, Digits(|body|))]);
    var sum := AddUp(0, header);
    sum := AddUp(sum, body);
    SumConcat(header, body, |body|);
    var trailer := JoinFields([Field(CHECKSUM, PadThree(sum % 256))]);
    out := Join(header, body, trailer);
  }

  method NewOrderSingle(clOrdId: int, side: Side, ordType: OrdType, priceUnits: int, qty: int, symbol: string,
                        tif: TimeInForce, maxFloor: int) returns (out: array<Byte>)
    ensures fresh(out)
    ensures out[..] == Message(OrderFields(clOrdId, side, ordType, priceUnits, qty, symbol, tif, maxFloor))
  {
    out := Assemble(OrderFields(clOrdId, side, ordType, priceUnits, qty, symbol, tif, maxFloor));
  }

  method OrderCancelRequest(clOrdId: int, origClOrdId: int) returns (out: array<Byte>)
    ensures fresh(out) && out[..] == Message(CancelFields(clOrdId, origClOrdId))
  {
    out := Assemble(CancelFields(clOrdId, origClOrdId));
  }
}
