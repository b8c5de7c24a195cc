/** The FIX parser: tokeniser, checksum and field rules. */
module FixParsing {
  import opened Orders
  import opened Events
  import opened Bytes

  const MAX_FIELDS := 32

  const CHECKSUM := 10
  const CL_ORD_ID := 11
  const EXEC_INST := 18
  const MESSAGE_TYPE := 35
  const ORDER_QTY := 38
  const ORD_TYPE := 40
  const ORIG_CL_ORD_ID := 41
  const PRICE := 44
  const SIDE := 54
  const SYMBOL := 55
  const TIME_IN_FORCE := 59
  const MAX_FLOOR := 111

  const SYMBOL_BYTES: seq<Byte> := [65, 83, 77, 76]
  const CODE_1: Byte := 49
  const CODE_2: Byte := 50
  const CODE_3: Byte := 51
  const CODE_4: Byte := 52
  const CODE_D: Byte := 68
  const CODE_F: Byte := 70
  const CODE_M: Byte := 77
  const CODE_P: Byte := 80

  // ---------- What a message says ----------

  datatype Field = Field(tag: int, value: seq<Byte>)

  /** The field that starts at pos and the position after it; None where there is no well-formed field. */
  function FieldAt(s: seq<Byte>, pos: nat): (r: Option<(Field, nat)>)
    requires pos <= |s|
    ensures r.Some? ==> pos < r.value.1 <= |s|
  {
    var eq, bar := IndexOf(s, pos, EQUALS), IndexOf(s, pos, SOH);
    if eq == -1 || (bar != -1 && bar < eq) then None
    else
      var soh := IndexOf(s, eq + 1, SOH);
      var tag := ParseLong(s[pos..eq]);
      if soh == -1 || tag == -1 then None else Some((Field(ToInt32(tag), s[eq + 1..soh]), soh + 1))
  }

  /** The fields from pos to the end, at most room of them; None where the bytes are not such a list. */
  function Scan(s: seq<Byte>, pos: nat, room: nat): (r: Option<seq<Field>>)
    requires pos <= |s|
    ensures r.Some? ==> |r.value| <= room
    decreases |s| - pos
  {
    if pos == |s| then Some([])
    else
      match FieldAt(s, pos)
      case None => None
      case Some((field, next)) =>
        if room == 0 then None
        else
          match Scan(s, next, room - 1)
          case None => None
          case Some(more) => Some([field] + more)
  }

  function SumBytes(s: seq<Byte>, from: nat, to: nat): nat
    requires from <= to <= |s|
  {
    if from == to then 0 else SumBytes(s, from, to - 1) + s[to - 1]
  }

  /** FIX 4.2 Appendix B: the bytes before the trailer, summed modulo 256, are the three digits of tag 10. */
  predicate ValidChecksum(s: seq<Byte>, offset: nat)
    requires offset <= |s|
  {
    |s| - offset >= 8 && ParseLong(s[|s| - 4..|s| - 1]) == SumBytes(s, offset, |s| - 7) % 256
  }

  /** The value of the first field with the tag. */
  function Find(fs: seq<Field>, tag: int): Option<seq<Byte>> {
    if fs == [] then None else if fs[0].tag == tag then Some(fs[0].value) else Find(fs[1..], tag)
  }

  function SideOf(v: seq<Byte>): Option<Side> {
    if v == [CODE_1] then Some(BUY) else if v == [CODE_2] then Some(SELL) else None
  }

  function TifOf(v: seq<Byte>): Option<TimeInForce> {
    if v == [CODE_1] then Some(GTC) else if v == [CODE_3] then Some(IOC) else if v == [CODE_4] then Some(FOK) else None
  }

  function TypeOf(v: seq<Byte>): Option<OrdType> {
    if v == [CODE_2] then Some(LIMIT) else if v == [CODE_P] then Some(PEG_MID) else None
  }

  /** A numeric field, or -1 where it is absent or no number. */
  function LongField(fs: seq<Field>, tag: int): (r: int)
    ensures r >= -1
  {
    match Find(fs, tag)
    case None => -1
    case Some(v) => ParseLong(v)
  }

  function SideField(fs: seq<Field>): Option<Side> {
    match Find(fs, SIDE)
    case None => None
    case Some(v) => SideOf(v)
  }

  /** Absent means a limit order. */
  function TypeField(fs: seq<Field>): Option<OrdType> {
    match Find(fs, ORD_TYPE)
    case None => Some(LIMIT)
    case Some(v) => TypeOf(v)
  }

  /** Absent means good till cancelled. */
  function TifField(fs: seq<Field>): Option<TimeInForce> {
    match Find(fs, TIME_IN_FORCE)
    case None => Some(GTC)
    case Some(v) => TifOf(v)
  }

  /** A limit order must carry a price and a peg must not: a peg carries ExecInst M instead. */
  function PriceField(fs: seq<Field>, ordType: OrdType): Option<int> {
    var price, execInst := Find(fs, PRICE), Find(fs, EXEC_INST);
    match ordType
    case LIMIT =>
      if price.Some? && ParsePrice(price.value) >= 0 then Some(ParsePrice(price.value)) else None
    case PEG_MID =>
      if price.None? && execInst == Some([CODE_M]) then Some(NA) else None
  }

  /** Absent means not an iceberg; present, it must display something and no more than the quantity. */
  function FloorField(fs: seq<Field>, qty: int): Option<int> {
    match Find(fs, MAX_FLOOR)
    case None => Some(0)
    case Some(v) => if 0 < ParseLong(v) <= qty then Some(ParseLong(v)) else None
  }

  function NewOrderOf(fs: seq<Field>, stamp: int): Option<OrderEvent> {
    var id, qty, side, tif := LongField(fs, CL_ORD_ID), LongField(fs, ORDER_QTY), SideField(fs), TifField(fs);
    var ordType, floor := TypeField(fs), FloorField(fs, qty);
    var price := if ordType.None? then None else PriceField(fs, ordType.value);
    if Find(fs, SYMBOL) != Some(SYMBOL_BYTES) || id < 0 || qty <= 0
       || side.None? || price.None? || tif.None? || floor.None?
    then None
    else Some(OrderEvent(NEW_ORDER, id, side, ordType, tif, price.value, qty, floor.value, stamp, -1))
  }

  function CancelOf(fs: seq<Field>, stamp: int): Option<OrderEvent> {
    var id, orig := LongField(fs, CL_ORD_ID), LongField(fs, ORIG_CL_ORD_ID);
    if id < 0 || orig < 0 then None
    else Some(OrderEvent(CANCEL_ORDER, id, None, None, None, -1, -1, 0, stamp, orig))
  }

  function EventOf(fs: seq<Field>, stamp: int): Option<OrderEvent> {
    match Find(fs, MESSAGE_TYPE)
    case None => None
    case Some(kind) =>
      if kind == [CODE_D] then NewOrderOf(fs, stamp) else if kind == [CODE_F] then CancelOf(fs, stamp) else None
  }

  /** The event a message stands for, stamped as given; None for everything that is rejected. */
  function ParseMessage(s: seq<Byte>, offset: nat, stamp: int): Option<OrderEvent>
    requires offset <= |s|
  {
    if !ValidChecksum(s, offset) then None
    else
      match Scan(s, offset, MAX_FIELDS)
      case None => None
      case Some(fs) => EventOf(fs, stamp)
  }

  // ---------- The parser's loops ----------

  /** The mutable carrier that is filled in place. */
  class EventSlot {
    var eventType: EventType
    var orderId: int
    var side: Option<Side>
    var ordType: Option<OrdType>
    var tif: Option<TimeInForce>
    var price: int
    var quantity: int
    var maxFloor: int
    var timestamp: int
    var originalOrderId: int

    constructor ()
      ensures timestamp == 0
    {
      eventType, orderId, side, ordType, tif := NEW_ORDER, 0, None, None, None;
      price, quantity, maxFloor, timestamp, originalOrderId := 0, 0, 0, 0, 0;
    }

    function Value(): OrderEvent
      reads this
    {
      OrderEvent(eventType, orderId, side, ordType, tif, price, quantity, maxFloor, timestamp, originalOrderId)
    }

    /** Writes every field but the timestamp, which is the gateway's. */
    method SetOrder(orderId: int, side: Option<Side>, ordType: Option<OrdType>, tif: Option<TimeInForce>, price: int,
                    quantity: int, maxFloor: int)
      modifies this
      ensures Value()
              == OrderEvent(NEW_ORDER, orderId, side, ordType, tif, price, quantity, maxFloor, old(timestamp), -1)
    {
      this.eventType := NEW_ORDER;
      this.orderId := orderId;
      this.side := side;
      this.ordType := ordType;
      this.tif := tif;
      this.price := price;
      this.quantity := quantity;
      this.maxFloor := maxFloor;
      this.originalOrderId := -1;
    }

    /** As for an order; what a cancel does not use is cleared. */
    method SetCancel(orderId: int, originalOrderId: int)
      modifies this
      ensures Value() == OrderEvent(CANCEL_ORDER, orderId, None, None, None, -1, -1, 0, old(timestamp), originalOrderId)
    {
      this.eventType := CANCEL_ORDER;
      this.orderId := orderId;
      this.originalOrderId := originalOrderId;
      this.side := None;
      this.ordType := None;
      this.tif := None;
      this.price := -1;
      this.quantity := -1;
      this.maxFloor := 0;
    }
  }

  lemma NewOrderIs(fs: seq<Field>, ordType: OrdType, stamp: int)
    requires Find(fs, SYMBOL) == Some(SYMBOL_BYTES) && LongField(fs, CL_ORD_ID) >= 0 && LongField(fs, ORDER_QTY) > 0
    requires SideField(fs).Some? && TypeField(fs) == Some(ordType) && PriceField(fs, ordType).Some?
    requires TifField(fs).Some? && FloorField(fs, LongField(fs, ORDER_QTY)).Some?
    ensures NewOrderOf(fs, stamp)
            == Some(OrderEvent(NEW_ORDER, LongField(fs, CL_ORD_ID), SideField(fs), Some(ordType), TifField(fs),
                               PriceField(fs, ordType).value, LongField(fs, ORDER_QTY),
                               FloorField(fs, LongField(fs, ORDER_QTY)).value, stamp, -1))
  {
  }

  method ValidateChecksum(buf: array<Byte>, offset: nat, length: nat) returns (r: bool)
    requires offset + length <= buf.Length
    ensures r == ValidChecksum(buf[..offset + length], offset)
  {
    if length < 8 {
      return false;
    }
    var end := offset + length;
    var trailerStart := end - 7;
    var sum: int := 0;
    var i := offset;
    while i < trailerStart
      invariant offset <= i <= trailerStart && sum == SumBytes(buf[..end], offset, i)
    {
      sum := sum + buf[i];
      i := i + 1;
    }
    var expected := ParseLongIn(buf, end - 4, end - 1);
    assert buf[..end][end - 4..end - 1] == buf[end - 4..end - 1];
    r := expected == sum % 256;
  }

  method TagEnd(buf: array<Byte>, pos: nat, end: nat) returns (eq: int)
    requires pos <= end <= buf.Length
    ensures var e, bar := IndexOf(buf[..end], pos, EQUALS), IndexOf(buf[..end], pos, SOH);
            eq == if e == -1 || (bar != -1 && bar < e) then -1 else e
  {
    ghost var s := buf[..end];
    eq := pos;
    while eq < end && buf[eq] != EQUALS
      invariant pos <= eq <= end && forall k :: pos <= k < eq ==> s[k] != EQUALS && s[k] != SOH
    {
      if buf[eq] == SOH {
        IndexOfIsFirst(s, pos, SOH, eq);
        IndexOfIsFirst(s, pos, EQUALS, IndexOf(s, pos, EQUALS));
        return -1;
      }
      eq := eq + 1;
    }
    if eq == end {
      IndexOfIsFirst(s, pos, EQUALS, -1);
      return -1;
    }
    IndexOfIsFirst(s, pos, EQUALS, eq);
    IndexOfIsFirst(s, pos, SOH, IndexOf(s, pos, SOH));
  }

  method ValueEnd(buf: array<Byte>, pos: nat, end: nat) returns (soh: int)
    requires pos <= end <= buf.Length
    ensures soh == IndexOf(buf[..end], pos, SOH)
  {
    soh := pos;
    while soh < end && buf[soh] != SOH
      invariant pos <= soh <= end && forall k :: pos <= k < soh ==> buf[..end][k] != SOH
    {
      soh := soh + 1;
    }
    IndexOfIsFirst(buf[..end], pos, SOH, if soh == end then -1 else soh);
    if soh == end {
      return -1;
    }
  }

  /** One field: its tag, and where its value starts and ends. */
  method NextField(buf: array<Byte>, pos: nat, end: nat) returns (ok: bool, tag: int, valStart: nat, valEnd: nat)
    requires pos <= end <= buf.Length
    ensures ok ==> pos < valStart <= valEnd < end
    ensures FieldAt(buf[..end], pos)
            == if ok then Some((Field(tag, buf[valStart..valEnd]), valEnd + 1)) else None
  {
    ok, tag, valStart, valEnd := false, 0, 0, 0;
    var eq := TagEnd(buf, pos, end);
    if eq == -1 {
      return;
    }
    var soh := ValueEnd(buf, eq + 1, end);
    if soh == -1 {
      return;
    }
    var long := ParseLongIn(buf, pos, eq);
    assert buf[..end][pos..eq] == buf[pos..eq];
    assert buf[..end][eq + 1..soh] == buf[eq + 1..soh];
    if long < 0 {
      return;
    }
    ok, tag, valStart, valEnd := true, ToInt32(long), eq + 1, soh;
  }

  method SymbolMatches(buf: array<Byte>, start: nat, end: nat) returns (r: bool)
    requires start <= end <= buf.Length
    ensures r == (buf[start..end] == SYMBOL_BYTES)
  {
    var sym := SYMBOL_BYTES;
    if end - start != |sym| {
      return false;
    }
    var k := 0;
    while k < |sym|
      invariant k <= |sym| && forall i :: 0 <= i < k ==> buf[start + i] == sym[i]
    {
      if buf[start + k] != sym[k] {
        assert buf[start..end][k] != sym[k];
        return false;
      }
      k := k + 1;
    }
    assert forall i :: 0 <= i < |sym| ==> buf[start..end][i] == sym[i];
    r := true;
  }

  method MapSide(buf: array<Byte>, start: nat, end: nat) returns (r: Option<Side>)
    requires start <= end <= buf.Length
    ensures r == SideOf(buf[start..end])
  {
    if end - start != 1 {
      return None;
    }
    assert buf[start..end] == [buf[start]];
    r := if buf[start] == CODE_1 then Some(BUY) else if buf[start] == CODE_2 then Some(SELL) else None;
  }

  method MapTif(buf: array<Byte>, start: nat, end: nat) returns (r: Option<TimeInForce>)
    requires start <= end <= buf.Length
    ensures r == TifOf(buf[start..end])
  {
    if end - start != 1 {
      return None;
    }
    assert buf[start..end] == [buf[start]];
    r := if buf[start] == CODE_1 then Some(GTC)
         else if buf[start] == CODE_3 then Some(IOC) else if buf[start] == CODE_4 then Some(FOK) else None;
  }

  method MapOrdType(buf: array<Byte>, start: nat, end: nat) returns (r: Option<OrdType>)
    requires start <= end <= buf.Length
    ensures r == TypeOf(buf[start..end])
  {
    if end - start != 1 {
      return None;
    }
    assert buf[start..end] == [buf[start]];
    r := if buf[start] == CODE_2 then Some(LIMIT) else if buf[start] == CODE_P then Some(PEG_MID) else None;
  }

  method IsMidPeg(buf: array<Byte>, start: nat, end: nat) returns (r: bool)
    requires start <= end <= buf.Length
    ensures r == (buf[start..end] == [CODE_M])
  {
    assert end - start == 1 ==> buf[start..end] == [buf[start]];
    r := end - start == 1 && buf[start] == CODE_M;
  }

  /** The scan state is three parallel arrays, reused from message to message. */
  class FixParser {
    const tags: array<int>
    const valStarts: array<nat>
    const valEnds: array<nat>

    ghost predicate Valid() {
      tags.Length == valStarts.Length == valEnds.Length == MAX_FIELDS && valStarts != valEnds
    }

    /** The scan state is fs, read against the buffer. */
    ghost predicate Holds(buf: array<Byte>, fs: seq<Field>)
      requires Valid()
      reads buf, tags, valStarts, valEnds
    {
      && |fs| <= MAX_FIELDS
      && forall i :: 0 <= i < |fs| ==>
           valStarts[i] <= valEnds[i] <= buf.Length && fs[i] == Field(tags[i], buf[valStarts[i]..valEnds[i]])
    }

    constructor ()
      ensures Valid() && fresh(tags) && fresh(valStarts) && fresh(valEnds)
    {
      tags := new int[MAX_FIELDS];
      valStarts := new nat[MAX_FIELDS];
      valEnds := new nat[MAX_FIELDS];
    }

    method Store(buf: array<Byte>, count: nat, tag: int, valStart: nat, valEnd: nat, ghost fs: seq<Field>)
      requires Valid() && Holds(buf, fs) && count == |fs| < MAX_FIELDS && valStart <= valEnd <= buf.Length
      modifies tags, valStarts, valEnds
      ensures buf[..] == old(buf[..])
      ensures Holds(buf, fs + [Field(tag, buf[valStart..valEnd])])
    {
      tags[count] := tag;
      valStarts[count] := valStart;
      valEnds[count] := valEnd;
    }

    /** One more field, or none. */
    method ScanOne(buf: array<Byte>, pos: nat, end: nat, count: nat, ghost s: seq<Byte>, ghost offset: nat,
                   ghost fs: seq<Field>)
      returns (ok: bool, next: nat, ghost field: Field)
      requires Valid() && pos < end <= buf.Length && s == buf[..end] && offset <= |s|
      requires Holds(buf, fs) && count == |fs| && Scanned(s, offset, fs, pos)
      modifies tags, valStarts, valEnds
      ensures buf[..] == old(buf[..])
      ensures !ok ==> Scan(s, offset, MAX_FIELDS) == None
      ensures ok ==> count < MAX_FIELDS && pos < next <= end
      ensures ok ==> Holds(buf, fs + [field]) && Scanned(s, offset, fs + [field], next)
    {
      var found, tag, valStart, valEnd := NextField(buf, pos, end);
      ok, next, field := found && count < MAX_FIELDS, valEnd + 1, Field(tag, []);
      if !ok {
        ScannedStop(s, offset, fs, pos);
        return;
      }
      field := Field(tag, buf[valStart..valEnd]);
      ScannedStep(s, offset, fs, pos, field, next);
      Store(buf, count, tag, valStart, valEnd, fs);
    }

    /** Fills the arrays with every field, or says -1. */
    method ScanFields(buf: array<Byte>, offset: nat, length: nat) returns (count: int)
      requires Valid() && offset + length <= buf.Length
      modifies tags, valStarts, valEnds
      ensures buf[..] == old(buf[..])
      ensures var r := Scan(buf[..offset + length], offset, MAX_FIELDS);
              if r.None? then count == -1 else count == |r.value| && Holds(buf, r.value)
    {
      var end := offset + length;
      ghost var s := buf[..end];
      ghost var fs: seq<Field> := [];
      var pos := offset;
      count := 0;
      ScannedNone(s, offset);
      while pos < end
        invariant offset <= pos <= end && count == |fs| <= MAX_FIELDS
        invariant buf[..] == old(buf[..]) && buf[..end] == s
        invariant Holds(buf, fs)
        invariant Scanned(s, offset, fs, pos)
        decreases end - pos
      {
        var ok, next;
        ghost var field;
        ok, next, field := ScanOne(buf, pos, end, count, s, offset, fs);
        if !ok {
          return -1;
        }
        fs := fs + [field];
        count := count + 1;
        pos := next;
      }
      ScannedAll(s, offset, fs);
    }

    method FindTag(tag: int, count: nat, ghost buf: array<Byte>, ghost fs: seq<Field>) returns (r: int)
      requires Valid() && Holds(buf, fs) && count == |fs|
      ensures r == -1 || (0 <= r < count && valStarts[r] <= valEnds[r] <= buf.Length)
      ensures Find(fs, tag) == if r == -1 then None else Some(buf[valStarts[r]..valEnds[r]])
    {
      var i := 0;
      while i < count
        invariant i <= count && Find(fs, tag) == Find(fs[i..], tag)
      {
        if tags[i] == tag {
          return i;
        }
        assert fs[i..][1..] == fs[i + 1..];
        i := i + 1;
      }
      r := -1;
    }

    method ReadLong(buf: array<Byte>, tag: int, count: nat, ghost fs: seq<Field>) returns (r: int)
      requires Valid() && Holds(buf, fs) && count == |fs|
      ensures r == LongField(fs, tag)
    {
      var i := FindTag(tag, count, buf, fs);
      if i < 0 {
        return -1;
      }
      r := ParseLongIn(buf, valStarts[i], valEnds[i]);
    }

    method ReadSide(buf: array<Byte>, count: nat, ghost fs: seq<Field>) returns (r: Option<Side>)
      requires Valid() && Holds(buf, fs) && count == |fs|
      ensures r == SideField(fs)
    {
      var i := FindTag(SIDE, count, buf, fs);
      if i < 0 {
        return None;
      }
      r := MapSide(buf, valStarts[i], valEnds[i]);
    }

    method ReadOrdType(buf: array<Byte>, count: nat, ghost fs: seq<Field>) returns (r: Option<OrdType>)
      requires Valid() && Holds(buf, fs) && count == |fs|
      ensures r == TypeField(fs)
    {
      var i := FindTag(ORD_TYPE, count, buf, fs);
      if i < 0 {
        return Some(LIMIT);
      }
      r := MapOrdType(buf, valStarts[i], valEnds[i]);
    }

    method ReadTif(buf: array<Byte>, count: nat, ghost fs: seq<Field>) returns (r: Option<TimeInForce>)
      requires Valid() && Holds(buf, fs) && count == |fs|
      ensures r == TifField(fs)
    {
      var i := FindTag(TIME_IN_FORCE, count, buf, fs);
      if i < 0 {
        return Some(GTC);
      }
      r := MapTif(buf, valStarts[i], valEnds[i]);
    }

    method ReadMaxFloor(buf: array<Byte>, qty: int, count: nat, ghost fs: seq<Field>) returns (r: Option<int>)
      requires Valid() && Holds(buf, fs) && count == |fs|
      ensures r == FloorField(fs, qty)
    {
      var i := FindTag(MAX_FLOOR, count, buf, fs);
      if i < 0 {
        return Some(0);
      }
      var maxFloor := ParseLongIn(buf, valStarts[i], valEnds[i]);
      if maxFloor <= 0 {
        return None;
      }
      if maxFloor > qty {
        return None;
      }
      r := Some(maxFloor);
    }

    method ReadSymbol(buf: array<Byte>, count: nat, ghost fs: seq<Field>) returns (r: bool)
      requires Valid() && Holds(buf, fs) && count == |fs|
      ensures r == (Find(fs, SYMBOL) == Some(SYMBOL_BYTES))
    {
      var i := FindTag(SYMBOL, count, buf, fs);
      if i < 0 {
        return false;
      }
      r := SymbolMatches(buf, valStarts[i], valEnds[i]);
    }

    /** The price by order type. */
    method ReadPrice(buf: array<Byte>, ordType: OrdType, count: nat, ghost fs: seq<Field>) returns (r: Option<int>)
      requires Valid() && Holds(buf, fs) && count == |fs|
      ensures r == PriceField(fs, ordType)
    {
      var iPrice := FindTag(PRICE, count, buf, fs);
      if ordType == LIMIT {
        if iPrice < 0 {
          return None;
        }
        var price := ParsePriceIn(buf, valStarts[iPrice], valEnds[iPrice]);
        return if price < 0 then None else Some(price);
      }
      if iPrice >= 0 {
        return None;
      }
      var iExec := FindTag(EXEC_INST, count, buf, fs);
      if iExec < 0 {
        return None;
      }
      var mid := IsMidPeg(buf, valStarts[iExec], valEnds[iExec]);
      r := if mid then Some(NA) else None;
    }

    /** Every check comes before the first write to the target. */
    method ParseNewOrder(buf: array<Byte>, count: nat, target: EventSlot, ghost fs: seq<Field>) returns (ok: bool)
      requires Valid() && Holds(buf, fs) && count == |fs|
      modifies target
      ensures Parsed(ok, NewOrderOf(fs, old(target.timestamp)), old(target.Value()), target.Value())
    {
      var known := ReadSymbol(buf, count, fs);
      if !known {
        return false;
      }
      var orderId := ReadLong(buf, CL_ORD_ID, count, fs);
      if orderId < 0 {
        return false;
      }
      var side := ReadSide(buf, count, fs);
      if side == None {
        return false;
      }
      var qty := ReadLong(buf, ORDER_QTY, count, fs);
      if qty <= 0 {
        return false;
      }
      var ordType := ReadOrdType(buf, count, fs);
      if ordType == None {
        return false;
      }
      var price := ReadPrice(buf, ordType.value, count, fs);
      if price == None {
        return false;
      }
      var tif := ReadTif(buf, count, fs);
      if tif == None {
        return false;
      }
      var maxFloor := ReadMaxFloor(buf, qty, count, fs);
      if maxFloor == None {
        return false;
      }
      NewOrderIs(fs, ordType.value, target.timestamp);
      target.SetOrder(orderId, side, ordType, tif, price.value, qty, maxFloor.value);
      ok := true;
    }

    method ParseCancel(buf: array<Byte>, count: nat, target: EventSlot, ghost fs: seq<Field>) returns (ok: bool)
      requires Valid() && Holds(buf, fs) && count == |fs|
      modifies target
      ensures Parsed(ok, CancelOf(fs, old(target.timestamp)), old(target.Value()), target.Value())
    {
      var orderId := ReadLong(buf, CL_ORD_ID, count, fs);
      if orderId < 0 {
        return false;
      }
      var origId := ReadLong(buf, ORIG_CL_ORD_ID, count, fs);
      if origId < 0 {
        return false;
      }
      target.SetCancel(orderId, origId);
      ok := true;
    }

    /** Fills the slot and says true, or says false and leaves the slot as it was: it depends on the message alone, not
        on what the arrays or the slot held before. */
    method Parse(buf: array<Byte>, offset: nat, length: nat, target: EventSlot) returns (ok: bool)
      requires Valid() && offset + length <= buf.Length
      modifies tags, valStarts, valEnds, target
      ensures buf[..] == old(buf[..])
      ensures Parsed(ok, ParseMessage(buf[..offset + length], offset, old(target.timestamp)),
                     old(target.Value()), target.Value())
    {
      var sound := ValidateChecksum(buf, offset, length);
      if !sound {
        return false;
      }
      ghost var r := Scan(buf[..offset + length], offset, MAX_FIELDS);
      var count := ScanFields(buf, offset, length);
      if count < 0 {
        return false;
      }
      ok := ParseFields(buf, count, target, r.value);
    }

    /** Dispatches on the message type. */
    method ParseFields(buf: array<Byte>, count: nat, target: EventSlot, ghost fs: seq<Field>) returns (ok: bool)
      requires Valid() && Holds(buf, fs) && count == |fs|
      modifies target
      ensures Parsed(ok, EventOf(fs, old(target.timestamp)), old(target.Value()), target.Value())
    {
      var i := FindTag(MESSAGE_TYPE, count, buf, fs);
      if i < 0 {
        return false;
      }
      if valEnds[i] - valStarts[i] != 1 {
        return false;
      }
      assert buf[valStarts[i]..valEnds[i]] == [buf[valStarts[i]]];
      if buf[valStarts[i]] == CODE_D {
        ok := ParseNewOrder(buf, count, target, fs);
      } else if buf[valStarts[i]] == CODE_F {
        ok := ParseCancel(buf, count, target, fs);
      } else {
        ok := false;
      }
    }
  }

  /** What parsing does to its target: everything or nothing. */
  ghost predicate Parsed(ok: bool, event: Option<OrderEvent>, before: OrderEvent, after: OrderEvent) {
    ok == event.Some? && after == if ok then event.value else before
  }

  ghost function Prefixed(fs: seq<Field>, more: Option<seq<Field>>): Option<seq<Field>> {
    match more
    case None => None
    case Some(m) => Some(fs + m)
  }

  /** The fields found so far and those from pos on are the fields from the offset on. */
  ghost predicate Scanned(s: seq<Byte>, offset: nat, fs: seq<Field>, pos: nat)
    requires offset <= |s| && pos <= |s|
  {
    |fs| <= MAX_FIELDS && Scan(s, offset, MAX_FIELDS) == Prefixed(fs, Scan(s, pos, MAX_FIELDS - |fs|))
  }

  lemma ScannedNone(s: seq<Byte>, offset: nat)
    requires offset <= |s|
    ensures Scanned(s, offset, [], offset)
  {
    var r := Scan(s, offset, MAX_FIELDS);
    if r.Some? {
      assert [] + r.value == r.value;
    }
  }

  lemma {:induction false} ScannedStep(s: seq<Byte>, offset: nat, fs: seq<Field>, pos: nat, field: Field, next: nat)
    requires offset <= |s| && pos < |s| && Scanned(s, offset, fs, pos)
    requires |fs| < MAX_FIELDS && FieldAt(s, pos) == Some((field, next))
    ensures Scanned(s, offset, fs + [field], next)
  {
    var more := Scan(s, next, MAX_FIELDS - |fs| - 1);
    if more.Some? {
      assert fs + ([field] + more.value) == (fs + [field]) + more.value;
    }
  }

  lemma {:induction false} ScannedStop(s: seq<Byte>, offset: nat, fs: seq<Field>, pos: nat)
    requires offset <= |s| && pos < |s| && Scanned(s, offset, fs, pos)
    requires |fs| == MAX_FIELDS || FieldAt(s, pos).None?
    ensures Scan(s, offset, MAX_FIELDS) == None
  {
  }

  lemma {:induction false} ScannedAll(s: seq<Byte>, offset: nat, fs: seq<Field>)
    requires offset <= |s| && Scanned(s, offset, fs, |s|)
    ensures Scan(s, offset, MAX_FIELDS) == Some(fs)
  {
    assert fs + [] == fs;
  }
}
