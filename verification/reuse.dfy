/** What becomes of a reused id: order entry never checks an incoming id against the open ones. */
module Reuse {
  import opened Orders
  import opened Events
  import opened Matching
  import opened Invariant
  import opened Ledger
  import opened Session

  /** The other orders as order entry leaves them, and the order itself put aside. */
  function Beside(x: Match): Book {
    var y := Dispose(x);
    if x.a.ordType == LIMIT && y.v.book.Mid() != NA then CrossLoop(x.v, y.v.book.Mid()).book else x.v.book
  }

  /** The keys of the id index after order entry: a consumed order takes its id out, a rested one puts its own in. */
  ghost function IndexAfter(v: Venue, o: OrderValue): set<int> {
    if Killed(v, o) then OpenIds(v.book)
    else
      var x := Trading(Match(v, o));
      var rested := if x.a.qty > 0 && x.a.tif == GTC then {o.id} else {};
      (OpenIds(x.v.book) + rested) - (PegIds(Dispose(x).v.book) - PegIds(Add(v, o).v.book))
  }

  lemma InsertedTwice(l: seq<OrderValue>, o: OrderValue)
    requires o.id in Ids(l)
    ensures !NoDup(Insert(l, o)) && !NoDup(l + [o])
  {
    var i :| 0 <= i < |l| && l[i].id == o.id;
    InsertAt(l, o);
    var k := Place(l, o);
    assert Insert(l, o)[k] == o && Insert(l, o)[if i < k then i else i + 1] == l[i];
    assert (l + [o])[i] == l[i] && (l + [o])[|l|] == o;
  }

  /** The book with one more order at its own place. */
  function WithOrder(b: Book, r: OrderValue): Book {
    if r.ordType == PEG_MID then b.WithPeg(r.side, b.Peg(r.side) + [r]) else b.WithLit(r.side, Insert(b.Lit(r.side), r))
  }

  /** One more order keeps every order in one place under an id of its own if and only if its id was not open. */
  lemma OneMoreOrder(b: Book, r: OrderValue)
    requires Shape(b) && Member(r, r.side, r.ordType)
    ensures Shape(WithOrder(b, r)) <==> r.id !in OpenIds(b)
    ensures OpenIds(WithOrder(b, r)) == OpenIds(b) + {r.id}
  {
    if r.ordType == LIMIT {
      var l := b.Lit(r.side);
      InsertIds(l, r);
      if r.id in Ids(l) {
        InsertedTwice(l, r);
      } else {
        InsertKeeps(l, r);
      }
    } else {
      var l := b.Peg(r.side);
      assert forall x :: x in l + [r] <==> x in l || x == r;
      if r.id in Ids(l) {
        InsertedTwice(l, r);
      } else {
        AppendKeeps(l, r);
      }
    }
  }

  /** A pool cross sees the pools and the midpoint only. */
  lemma {:induction false} CrossSeesPools(v: Venue, w: Venue, mid: int)
    requires v.book.pegBids == w.book.pegBids && v.book.pegAsks == w.book.pegAsks
    ensures var b, c := CrossLoop(v, mid).book, CrossLoop(w, mid).book;
            && b == v.book.(pegBids := b.pegBids, pegAsks := b.pegAsks)
            && b.pegBids == c.pegBids && b.pegAsks == c.pegAsks
    decreases |v.book.pegBids| + |v.book.pegAsks|
  {
    if v.book.pegBids != [] && v.book.pegAsks != [] {
      CrossSeesPools(CrossStep(v, mid), CrossStep(w, mid), mid);
    }
  }

  /** Order entry leaves the other orders, and the order itself where it rests. */
  lemma AddIsBeside(v: Venue, o: OrderValue)
    requires BookOk(v.book) && Live(o) && !Killed(v, o)
    ensures var x := Trading(Match(v, o));
            && BookOk(Beside(x)) && OpenIds(Beside(x)) <= OpenIds(x.v.book) && OpenIds(x.v.book) <= OpenIds(v.book)
            && Beside(x).bids == x.v.book.bids && Beside(x).asks == x.v.book.asks
            && Add(v, o).v.book == if x.a.qty > 0 && x.a.tif == GTC
                                   then WithOrder(Beside(x), Rest(x).a) else Beside(x)
  {
    var x := Trading(Match(v, o));
    TradingKeeps(Match(v, o));
    var y := Dispose(x);
    if o.ordType == LIMIT && y.v.book.Mid() != NA {
      CrossLoopKeeps(x.v, y.v.book.Mid());
      CrossSeesPools(y.v, x.v, y.v.book.Mid());
    }
  }

  /** The other orders open beside the order, and the ids a pool cross takes out of the index. */
  lemma CrossedIds(v: Venue, o: OrderValue)
    requires BookOk(v.book) && Live(o) && !Killed(v, o)
    ensures var x := Trading(Match(v, o));
            o.ordType == LIMIT ==>
              PegIds(Dispose(x).v.book) - PegIds(Add(v, o).v.book) == OpenIds(x.v.book) - OpenIds(Beside(x))
    ensures o.ordType == PEG_MID ==>
              && Add(v, o) == Dispose(Trading(Match(v, o)))
              && Beside(Trading(Match(v, o))) == Trading(Match(v, o)).v.book
  {
    var x := Trading(Match(v, o));
    TradingKeeps(Match(v, o));
    AddIsBeside(v, o);
  }

  /** For an incoming order with any id: every order is left in one place under an id of its own if and only if the
      order does not come to rest beside an order that has its id. */
  lemma ShapeAfterAdd(v: Venue, o: OrderValue)
    requires BookOk(v.book) && Live(o)
    ensures var x := Trading(Match(v, o));
            Shape(Add(v, o).v.book)
            <==> Killed(v, o) || x.a.qty == 0 || o.tif != GTC || o.id !in OpenIds(Beside(x))
  {
    if !Killed(v, o) {
      var x := Trading(Match(v, o));
      TradingKeeps(Match(v, o));
      AddIsBeside(v, o);
      if x.a.qty > 0 && o.tif == GTC {
        OneMoreOrder(Beside(x), Rest(x).a);
      }
    }
  }

  lemma Rested(v: Venue, o: OrderValue)
    requires BookOk(v.book) && Live(o) && !Killed(v, o)
    requires Trading(Match(v, o)).a.qty > 0 && o.tif == GTC
    ensures var x := Trading(Match(v, o));
            var crossed := OpenIds(x.v.book) - OpenIds(Beside(x));
            && OpenIds(Beside(x)) <= OpenIds(x.v.book)
            && OpenIds(Add(v, o).v.book) == OpenIds(Beside(x)) + {o.id}
            && IndexAfter(v, o) == (OpenIds(x.v.book) + {o.id}) - crossed
  {
    var x := Trading(Match(v, o));
    TradingKeeps(Match(v, o));
    AddIsBeside(v, o);
    CrossedIds(v, o);
    OneMoreOrder(Beside(x), Rest(x).a);
  }

  lemma NotRested(v: Venue, o: OrderValue)
    requires BookOk(v.book) && Live(o)
    requires Killed(v, o) || Trading(Match(v, o)).a.qty == 0 || o.tif != GTC
    ensures IndexAfter(v, o) == OpenIds(Add(v, o).v.book)
  {
    if !Killed(v, o) {
      TradingKeeps(Match(v, o));
      AddIsBeside(v, o);
      CrossedIds(v, o);
    }
  }

  /** The invariant and the index survive order entry if and only if the order does not come to rest while another order
      is still open under its id; a pool cross that then consumes its namesake takes the order's own key out. */
  lemma AddNeedsFreshId(v: Venue, o: OrderValue)
    requires BookOk(v.book) && Live(o)
    ensures BookOk(Add(v, o).v.book) && IndexAfter(v, o) == OpenIds(Add(v, o).v.book) <==> !Reuses(v, o)
  {
    TradingKeeps(Match(v, o));
    ShapeAfterAdd(v, o);
    if Killed(v, o) || Trading(Match(v, o)).a.qty == 0 || o.tif != GTC {
      NotRested(v, o);
    } else {
      Rested(v, o);
    }
    if !Reuses(v, o) {
      AddKeeps(v, o);
    }
  }

  /** The event brings an order that passes validation and comes to rest while another order is open under its id. */
  ghost predicate ReusesId(v: Venue, e: OrderEvent) {
    e.eventType.NEW_ORDER? && OrderOf(e).Some? && Reuses(v, OrderOf(e).value)
  }

  lemma FreshIdEvent(v: Venue, e: OrderEvent)
    requires BookOk(v.book) && (e.eventType.NEW_ORDER? ==> e.orderId !in OpenIds(v.book))
    ensures !ReusesId(v, e)
  {
    if e.eventType.NEW_ORDER? && OrderOf(e).Some? {
      FreshIdKeeps(v, OrderOf(e).value);
    }
  }

  /** No event of the run reuses an id that is open as it comes. */
  ghost predicate NoReuse(v: Venue, es: seq<OrderEvent>)
    decreases |es|
  {
    es == [] || (!ReusesId(v, es[0]) && NoReuse(Process(v, es[0]), es[1..]))
  }

  /** The book stays sound over every such run. */
  lemma {:induction false} RunKeeps(v: Venue, es: seq<OrderEvent>)
    requires BookOk(v.book) && NoReuse(v, es)
    ensures BookOk(Run(v, es).book)
    decreases |es|
  {
    if es != [] {
      var e := es[0];
      if e.eventType.CANCEL_ORDER? {
        CancelKeeps(v.book, e.originalOrderId);
      } else if OrderOf(e).Some? {
        AddKeeps(v, OrderOf(e).value);
      }
      RunKeeps(Process(v, e), es[1..]);
    }
  }

  /** Ids that are unique over the run are never reused. */
  lemma {:induction false} FreshIdsReuseNothing(l: Accounts, v: Venue, es: seq<OrderEvent>, used: set<int>)
    requires BookOk(v.book) && Tracks(l, v.book) && l.entries.Keys + l.refused <= used && UniqueIds(es, used)
    ensures NoReuse(v, es)
    decreases |es|
  {
    if es != [] {
      var e := es[0];
      OpenIsResting(l, v.book, e.orderId);
      FreshIdEvent(v, e);
      ProcessFollowed(l, v, e);
      ReplayIds(l, Tokens(v, e));
      TokensMark(v, e);
      FreshIdsReuseNothing(Replay(l, Tokens(v, e)).value, Process(v, e), es[1..],
                           if e.eventType.NEW_ORDER? then used + {e.orderId} else used);
    }
  }

  // ---------- A run that reuses an id ----------

  /** A limit buy that meets no ask just rests. */
  lemma QuietBuy(v: Venue, o: OrderValue)
    requires v.book.asks == [] && o.side == BUY && o.ordType == LIMIT && o.tif == GTC && o.qty > 0
    ensures Add(v, o).v
            == v.(book := v.book.(bids := Insert(v.book.bids, o.Refresh()))).Say(AcceptedExec(o.id, o.price, o.qty))
  {
  }

  /** The event of a client that sends order 7 to buy 5 at $0.01. */
  function BuySeven(): OrderEvent {
    OrderEvent(NEW_ORDER, 7, Some(BUY), Some(LIMIT), Some(GTC), TICK, 5, 0, 1, -1)
  }

  /** Sent twice, it is open twice. */
  lemma ReusedIdRun()
    ensures !Shape(Run(OPENING, [BuySeven(), BuySeven()]).book)
  {
    var e := BuySeven();
    var o := OrderOf(e).value;
    var v := Process(OPENING, e);
    QuietBuy(OPENING, o);
    QuietBuy(v, o);
    var w := Process(v, e);
    assert [e, e][1..] == [e] && [e][1..] == [];
    assert v.book.bids == [o] && w.book.bids == Insert([o], o);
    assert o in [o];
    InsertedTwice([o], o);
  }
}
