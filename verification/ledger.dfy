/** The report protocol: what the stream of reports may say about each admitted order, and what it says the order's
    remaining quantity and state are. It knows nothing of books. */
module Ledger {
  import opened Orders
  import opened Matching

  datatype Phase = Working | Resting | Filled | Cancelled | Expired

  /** An admitted order as its reports describe it. */
  datatype Entry = Entry(side: Side, ordType: OrdType, limit: int, tif: TimeInForce,
                         original: int, remaining: int, phase: Phase)
  {
    function Traded(m: int): Entry {
      this.(remaining := remaining - m, phase := if remaining == m then Filled else phase)
    }
  }

  /** The orders admitted so far, and the ids of orders refused as invalid. */
  datatype Accounts = Accounts(entries: map<int, Entry>, refused: set<int>)

  const NO_ACCOUNTS := Accounts(map[], {})

  /** The outbound stream, with a mark where an order enters the engine or is refused by it. */
  datatype Token = Admitted(o: OrderValue) | Refused(id: int) | Report(e: Exec)

  predicate Idle(l: Accounts) {
    forall id | id in l.entries :: l.entries[id].phase != Working
  }

  predicate WithinLimit(n: Entry, price: int) {
    n.ordType == PEG_MID || (if n.side.BUY? then price <= n.limit else price >= n.limit)
  }

  /** A trade between two different orders on opposite sides, inside both limits and both remaining quantities.
      The aggressor is the order being worked on, or, in a pool cross, a resting peg meeting a resting peg. */
  predicate FillAllowed(l: Accounts, e: Exec) {
    && e.orderId == e.aggressor && e.aggressor != e.passive
    && e.aggressor in l.entries && e.passive in l.entries
    && var a, p := l.entries[e.aggressor], l.entries[e.passive];
       && p.phase == Resting && a.side == p.side.Opposite()
       && (a.phase == Working || (a.phase == Resting && Idle(l) && a.ordType == PEG_MID && p.ordType == PEG_MID))
       && 0 < e.filled <= a.remaining && e.filled <= p.remaining
       && e.remaining == a.remaining - e.filled
       && (e.execType == ORDER_FILLED <==> e.remaining == 0)
       && WithinLimit(a, e.price) && WithinLimit(p, e.price)
  }

  /** What one token does, or None where the protocol forbids it. */
  function Apply(l: Accounts, t: Token): Option<Accounts> {
    match t
    case Admitted(o) =>
      if Idle(l) && o.id !in l.entries && o.id !in l.refused && o.qty > 0 then
        Some(l.(entries := l.entries[o.id := Entry(o.side, o.ordType, o.price, o.tif, o.qty, o.qty, Working)]))
      else None
    case Refused(id) =>
      if Idle(l) && id !in l.entries && id !in l.refused then Some(l.(refused := l.refused + {id})) else None
    case Report(e) =>
      match e.execType {
        case ORDER_FILLED => ApplyFill(l, e)
        case ORDER_PARTIALLY_FILLED => ApplyFill(l, e)
        case ORDER_ACCEPTED =>
          // only a GTC order being worked on, with something left, is acknowledged
          if e.orderId in l.entries && l.entries[e.orderId].phase == Working && l.entries[e.orderId].tif == GTC
             && 0 < l.entries[e.orderId].remaining
             && e == AcceptedExec(e.orderId, l.entries[e.orderId].limit, l.entries[e.orderId].remaining)
          then Some(l.(entries := l.entries[e.orderId := l.entries[e.orderId].(phase := Resting)])) else None
        case ORDER_EXPIRED =>
          // only an IOC or FOK order, with something left, expires, and a FOK only untouched
          if e.orderId in l.entries && l.entries[e.orderId].phase == Working && l.entries[e.orderId].tif != GTC
             && 0 < l.entries[e.orderId].remaining && e == ExpiredExec(e.orderId, l.entries[e.orderId].remaining)
             && (l.entries[e.orderId].tif == FOK ==> l.entries[e.orderId].remaining == l.entries[e.orderId].original)
          then Some(l.(entries := l.entries[e.orderId := l.entries[e.orderId].(phase := Expired)])) else None
        case ORDER_CANCELLED =>
          if Idle(l) && e.orderId in l.entries && l.entries[e.orderId].phase == Resting
             && e == PlainExec(ORDER_CANCELLED, e.orderId)
          then Some(l.(entries := l.entries[e.orderId := l.entries[e.orderId].(phase := Cancelled)])) else None
        case ORDER_REJECTED =>
          // a refused order, or a cancel that found nothing resting
          if Idle(l) && (e.orderId in l.entries ==> l.entries[e.orderId].phase != Resting)
             && e == PlainExec(ORDER_REJECTED, e.orderId)
          then Some(l) else None
      }
  }

  function ApplyFill(l: Accounts, e: Exec): Option<Accounts> {
    if FillAllowed(l, e) then
      Some(l.(entries := l.entries[e.aggressor := l.entries[e.aggressor].Traded(e.filled)]
                                  [e.passive := l.entries[e.passive].Traded(e.filled)]))
    else None
  }

  function Replay(l: Accounts, ts: seq<Token>): Option<Accounts>
    decreases |ts|
  {
    if ts == [] then Some(l)
    else match Apply(l, ts[0]) {
      case None => None
      case Some(m) => Replay(m, ts[1..])
    }
  }

  lemma {:induction false} ReplayConcat(l: Accounts, a: seq<Token>, b: seq<Token>)
    ensures Replay(l, a + b) == if Replay(l, a).Some? then Replay(Replay(l, a).value, b) else None
    decreases |a|
  {
    if a == [] {
      assert a + b == b;
    } else {
      assert (a + b)[1..] == a[1..] + b;
      if Apply(l, a[0]).Some? {
        ReplayConcat(Apply(l, a[0]).value, a[1..], b);
      }
    }
  }

  lemma ReplaySnoc(l: Accounts, a: seq<Token>, t: Token)
    ensures Replay(l, a + [t]) == if Replay(l, a).Some? then Apply(Replay(l, a).value, t) else None
  {
    ReplayConcat(l, a, [t]);
    if Replay(l, a).Some? {
      var m := Replay(l, a).value;
      assert Replay(m, [t]) == match Apply(m, t) { case None => None case Some(k) => Replay(k, [t][1..]) };
    }
  }

  // ---------- What every accepted stream satisfies ----------

  /** What the stream says an order traded, on either side of each fill. */
  function TradedQty(ts: seq<Token>, id: int): int {
    if ts == [] then 0
    else (if ts[0].Report? && IsFill(ts[0].e) && (ts[0].e.aggressor == id || ts[0].e.passive == id)
          then ts[0].e.filled else 0)
         + TradedQty(ts[1..], id)
  }

  ghost predicate Sound(l: Accounts) {
    forall id :: id in l.entries ==>
      && 0 <= l.entries[id].remaining <= l.entries[id].original
      && (l.entries[id].remaining == 0 <==> l.entries[id].phase == Filled)
  }

  lemma ApplyKeepsSound(l: Accounts, t: Token)
    requires Sound(l) && Apply(l, t).Some?
    ensures Sound(Apply(l, t).value)
    ensures l.entries.Keys <= Apply(l, t).value.entries.Keys
  {
  }

  /** One token moves an order by exactly what it says was traded, never alters its terms, and never revives it. */
  lemma ApplyAccounts(l: Accounts, t: Token, id: int)
    requires Sound(l) && Apply(l, t).Some? && id in l.entries
    ensures var n, m := l.entries[id], Apply(l, t).value.entries[id];
            && m == n.(remaining := m.remaining, phase := m.phase)
            && n.remaining == m.remaining + TradedQty([t], id)
            && (n.phase !in {Working, Resting} ==> m == n && TradedQty([t], id) == 0)
            && (n.phase == Resting ==> m.phase != Working && m.phase != Expired)
  {
    assert [t][1..] == [];
  }

  /** Conservation and finality over any accepted stream: an order's remaining quantity drops by exactly what its fills
      say, its terms never change, and once filled, cancelled or expired it never trades again. */
  lemma {:induction false} StreamAccounts(l: Accounts, ts: seq<Token>, id: int)
    requires Sound(l) && Replay(l, ts).Some? && id in l.entries
    ensures var n, r := l.entries[id], Replay(l, ts).value;
            && Sound(r) && id in r.entries
            && r.entries[id] == n.(remaining := r.entries[id].remaining, phase := r.entries[id].phase)
            && n.remaining == r.entries[id].remaining + TradedQty(ts, id)
            && (n.phase !in {Working, Resting} ==> r.entries[id] == n && TradedQty(ts, id) == 0)
    decreases |ts|
  {
    if ts != [] {
      ApplyAccounts(l, ts[0], id);
      ApplyKeepsSound(l, ts[0]);
      assert [ts[0]][1..] == [];
      StreamAccounts(Apply(l, ts[0]).value, ts[1..], id);
    }
  }

  lemma {:induction false} Untraded(l: Accounts, ts: seq<Token>, id: int)
    requires Sound(l) && Replay(l, ts).Some? && id !in l.entries
    ensures Sound(Replay(l, ts).value)
    ensures id !in Replay(l, ts).value.entries ==> TradedQty(ts, id) == 0
    ensures id in Replay(l, ts).value.entries ==>
              var n := Replay(l, ts).value.entries[id]; n.original == n.remaining + TradedQty(ts, id)
    decreases |ts|
  {
    if ts != [] {
      var m := Apply(l, ts[0]).value;
      ApplyKeepsSound(l, ts[0]);
      if id in m.entries {
        StreamAccounts(m, ts[1..], id);
      } else {
        Untraded(m, ts[1..], id);
      }
    }
  }

  /** From the opening, every order's original quantity is what it traded plus what rests, expired or was cancelled. */
  lemma Conservation(ts: seq<Token>, id: int)
    requires Replay(NO_ACCOUNTS, ts).Some? && id in Replay(NO_ACCOUNTS, ts).value.entries
    ensures var n := Replay(NO_ACCOUNTS, ts).value.entries[id];
            && n.original == n.remaining + TradedQty(ts, id)
            && 0 <= n.remaining && (n.remaining == 0 <==> n.phase == Filled)
  {
    Untraded(NO_ACCOUNTS, ts, id);
  }
}
