/** A side as the engine stores it: price levels, best first, each a FIFO queue of orders. */
module Levels {
  import opened Orders
  import opened Matching
  import opened Invariant

  datatype Level = Level(price: int, queue: seq<Order>)

  /** All orders of a side in priority order. */
  function Flat(levels: seq<Level>): seq<Order> {
    if levels == [] then [] else levels[0].queue + Flat(levels[1..])
  }

  ghost function Refs(q: seq<Order>): set<Order> {
    set o | o in q
  }

  ghost function Values(q: seq<Order>): (r: seq<OrderValue>)
    reads q
    ensures |r| == |q| && forall i :: 0 <= i < |q| ==> r[i] == q[i].Value()
  {
    seq(|q|, i requires 0 <= i < |q| reads q => q[i].Value())
  }

  predicate Better(side: Side, p: int, q: int) {
    AtLeast(side, p, q) && p != q
  }

  ghost predicate LevelOk(l: Level, side: Side) {
    l.queue != [] && forall i :: 0 <= i < |l.queue| ==> l.queue[i].price == l.price && l.queue[i].side == side
  }

  /** The map's keys are strictly ordered best first, no level is empty, every order rests at its own price. */
  ghost predicate LevelsOk(levels: seq<Level>, side: Side) {
    && (forall i :: 0 <= i < |levels| ==> LevelOk(levels[i], side))
    && (forall i, j :: 0 <= i < j < |levels| ==> Better(side, levels[i].price, levels[j].price))
  }

  /** computeIfAbsent(price).addLast(o). */
  function Enqueue(levels: seq<Level>, o: Order): seq<Level> {
    if levels == [] then [Level(o.price, [o])]
    else if levels[0].price == o.price then [Level(o.price, levels[0].queue + [o])] + levels[1..]
    else if Better(o.side, o.price, levels[0].price) then [Level(o.price, [o])] + levels
    else [levels[0]] + Enqueue(levels[1..], o)
  }

  /** Remove the first occurrence of this very object. */
  function RemoveRef(q: seq<Order>, o: Order): seq<Order> {
    if q == [] then [] else if q[0] == o then q[1..] else [q[0]] + RemoveRef(q[1..], o)
  }

  /** get(o.price), remove o from that queue, and drop the level once it is empty. */
  function Dequeue(levels: seq<Level>, o: Order): seq<Level> {
    if levels == [] then []
    else if levels[0].price == o.price then
      var q := RemoveRef(levels[0].queue, o);
      if q == [] then levels[1..] else [Level(o.price, q)] + levels[1..]
    else [levels[0]] + Dequeue(levels[1..], o)
  }

  // ---------- Levels against the flat list ----------

  lemma ValuesConcat(a: seq<Order>, b: seq<Order>)
    ensures Values(a + b) == Values(a) + Values(b)
  {
  }

  lemma {:induction false} PlaceConcat(a: seq<OrderValue>, b: seq<OrderValue>, o: OrderValue)
    requires forall i :: 0 <= i < |a| ==> AtLeast(o.side, a[i].price, o.price)
    ensures Place(a + b, o) == |a| + Place(b, o)
    ensures Insert(a + b, o) == a + Insert(b, o)
  {
    if a == [] {
      assert a + b == b;
    } else {
      assert (a + b)[1..] == a[1..] + b;
      PlaceConcat(a[1..], b, o);
    }
    PastConcat(a, b, Place(b, o));
  }

  lemma PastConcat<T>(a: seq<T>, b: seq<T>, k: nat)
    requires k <= |b|
    ensures (a + b)[..|a| + k] == a + b[..k] && (a + b)[|a| + k..] == b[k..]
  {
  }

  /** The first order of a side is the first of its first level, so its price is the first key. */
  lemma FlatHead(levels: seq<Level>, side: Side)
    requires LevelsOk(levels, side)
    ensures Flat(levels) == [] <==> levels == []
    ensures levels != [] ==> Flat(levels)[0] == levels[0].queue[0] && Flat(levels)[0].price == levels[0].price
  {
  }

  lemma TailOk(levels: seq<Level>, side: Side)
    requires LevelsOk(levels, side) && levels != []
    ensures LevelsOk(levels[1..], side)
    ensures levels[1..] != [] ==> Better(side, levels[0].price, levels[1..][0].price)
    ensures Flat(levels) == levels[0].queue + Flat(levels[1..])
  {
  }

  lemma PrependOk(l: Level, levels: seq<Level>, side: Side)
    requires LevelOk(l, side) && LevelsOk(levels, side)
    requires levels != [] ==> Better(side, l.price, levels[0].price)
    ensures LevelsOk([l] + levels, side) && Flat([l] + levels) == l.queue + Flat(levels)
  {
    assert ([l] + levels)[1..] == levels;
  }

  /** An order that beats the whole side goes in front of it. */
  lemma InsertFirst(levels: seq<Level>, o: Order)
    requires LevelsOk(levels, o.side)
    requires levels != [] ==> Better(o.side, o.price, levels[0].price)
    ensures Insert(Values(Flat(levels)), o.Value()) == [o.Value()] + Values(Flat(levels))
  {
    FlatHead(levels, o.side);
  }

  lemma EnqueueSame(levels: seq<Level>, o: Order)
    requires LevelsOk(levels, o.side) && levels != [] && levels[0].price == o.price
    ensures LevelsOk(Enqueue(levels, o), o.side)
    ensures Values(Flat(Enqueue(levels, o))) == Insert(Values(Flat(levels)), o.Value())
    ensures Flat(Enqueue(levels, o)) == levels[0].queue + [o] + Flat(levels[1..])
  {
    var q, rest := levels[0].queue, levels[1..];
    TailOk(levels, o.side);
    PrependOk(Level(o.price, q + [o]), rest, o.side);
    InsertFirst(rest, o);
    ValuesConcat(q, Flat(rest));
    PlaceConcat(Values(q), Values(Flat(rest)), o.Value());
    calc {
      Values(q + [o] + Flat(rest));
      { ValuesConcat(q + [o], Flat(rest)); ValuesConcat(q, [o]); }
      Values(q) + Values([o]) + Values(Flat(rest));
      { assert Values([o]) == [o.Value()]; }
      Values(q) + ([o.Value()] + Values(Flat(rest)));
    }
  }

  lemma EnqueueBelow(top: Level, rest: seq<Level>, below: seq<Level>, o: Order)
    requires LevelOk(top, o.side) && LevelsOk(below, o.side) && Better(o.side, top.price, o.price)
    requires below != [] ==> Better(o.side, top.price, below[0].price)
    requires Values(Flat(below)) == Insert(Values(Flat(rest)), o.Value())
    ensures LevelsOk([top] + below, o.side)
    ensures Values(Flat([top] + below)) == Insert(Values(top.queue + Flat(rest)), o.Value())
  {
    PrependOk(top, below, o.side);
    PlaceConcat(Values(top.queue), Values(Flat(rest)), o.Value());
    ValuesConcat(top.queue, Flat(below));
    ValuesConcat(top.queue, Flat(rest));
  }

  /** Queueing at the order's level is queueing behind everything at least as good. */
  lemma {:induction false} EnqueueInserts(levels: seq<Level>, o: Order)
    requires LevelsOk(levels, o.side)
    ensures LevelsOk(Enqueue(levels, o), o.side)
    ensures Values(Flat(Enqueue(levels, o))) == Insert(Values(Flat(levels)), o.Value())
    ensures Enqueue(levels, o) != [] &&
            (Enqueue(levels, o)[0].price == o.price || (levels != [] && Enqueue(levels, o)[0].price == levels[0].price))
  {
    if levels == [] {
      PrependOk(Level(o.price, [o]), [], o.side);
    } else if levels[0].price == o.price {
      EnqueueSame(levels, o);
    } else if Better(o.side, o.price, levels[0].price) {
      PrependOk(Level(o.price, [o]), levels, o.side);
      InsertFirst(levels, o);
      ValuesConcat([o], Flat(levels));
    } else {
      TailOk(levels, o.side);
      EnqueueInserts(levels[1..], o);
      EnqueueBelow(levels[0], levels[1..], Enqueue(levels[1..], o), o);
    }
  }

  lemma {:induction false} EnqueueMembers(levels: seq<Level>, o: Order)
    ensures forall x :: x in Flat(Enqueue(levels, o)) <==> x in Flat(levels) || x == o
  {
    if levels != [] {
      var top, rest := levels[0], levels[1..];
      if top.price == o.price {
        assert ([Level(o.price, top.queue + [o])] + rest)[1..] == rest;
      } else if Better(o.side, o.price, top.price) {
        assert ([Level(o.price, [o])] + levels)[1..] == levels;
      } else {
        EnqueueMembers(rest, o);
        assert ([top] + Enqueue(rest, o))[1..] == Enqueue(rest, o);
      }
    }
  }

  lemma {:induction false} RemoveRefMembers(q: seq<Order>, o: Order)
    ensures forall x :: x in q && x != o ==> x in RemoveRef(q, o)
    ensures forall x :: x in RemoveRef(q, o) ==> x in q
  {
    if q != [] {
      RemoveRefMembers(q[1..], o);
    }
  }

  lemma {:induction false} RemoveRefRemoves(q: seq<Order>, o: Order)
    requires forall i :: 0 <= i < |q| ==> q[i].orderID == o.orderID ==> q[i] == o
    ensures Values(RemoveRef(q, o)) == Remove(Values(q), o.orderID)
  {
    if q != [] {
      assert Values(q)[1..] == Values(q[1..]);
      if q[0] != o {
        RemoveRefRemoves(q[1..], o);
        ValuesConcat([q[0]], RemoveRef(q[1..], o));
      }
    }
  }

  lemma {:induction false} ReachConcat(side: Side, limit: int, a: seq<OrderValue>, b: seq<OrderValue>)
    requires forall i :: 0 <= i < |a| ==> Marketable(side, limit, a[i].price)
    ensures SumQty(Reach(side, limit, a + b)) == SumQty(a) + SumQty(Reach(side, limit, b))
  {
    if a == [] {
      assert a + b == b;
    } else {
      assert (a + b)[1..] == a[1..] + b;
      ReachConcat(side, limit, a[1..], b);
    }
  }

  lemma {:induction false} RemoveConcat(a: seq<OrderValue>, b: seq<OrderValue>, id: int)
    ensures Remove(a + b, id) == if id in Ids(a) then Remove(a, id) + b else a + Remove(b, id)
  {
    if a == [] {
      assert a + b == b;
    } else {
      assert (a + b)[1..] == a[1..] + b;
      assert a == [a[0]] + a[1..];
      RemoveConcat(a[1..], b, id);
    }
  }

  lemma {:induction false} FlatSplit(levels: seq<Level>, o: Order)
    requires LevelsOk(levels, o.side) && levels != []
    requires o in Flat(levels)
    ensures if levels[0].price == o.price then o in levels[0].queue else o !in levels[0].queue && o in Flat(levels[1..])
    ensures forall x :: x in Flat(levels) <==> x in levels[0].queue || x in Flat(levels[1..])
  {
    TailOk(levels, o.side);
    PricesWorse(levels[1..], levels[0].price, o.side);
  }

  lemma NoDupParts(a: seq<OrderValue>, b: seq<OrderValue>)
    requires NoDup(a + b)
    ensures NoDup(a) && NoDup(b) && Ids(a) !! Ids(b)
  {
    var c := a + b;
    assert forall i :: 0 <= i < |a| ==> c[i] == a[i];
    assert forall i :: 0 <= i < |b| ==> c[|a| + i] == b[i];
  }

  lemma RefsUnique(q: seq<Order>, o: Order)
    requires NoDup(Values(q)) && o in q
    ensures o.orderID in Ids(Values(q))
    ensures forall i :: 0 <= i < |q| ==> q[i].orderID == o.orderID ==> q[i] == o
  {
    var n :| 0 <= n < |q| && q[n] == o;
    assert Values(q)[n] in Values(q);
    assert forall i :: 0 <= i < |q| ==> Values(q)[i].id == q[i].orderID;
  }

  lemma DequeueTopLevels(levels: seq<Level>, o: Order)
    requires LevelsOk(levels, o.side) && levels != [] && levels[0].price == o.price
    ensures LevelsOk(Dequeue(levels, o), o.side)
    ensures Flat(Dequeue(levels, o)) == RemoveRef(levels[0].queue, o) + Flat(levels[1..])
    ensures Dequeue(levels, o) != [] ==> AtLeast(o.side, levels[0].price, Dequeue(levels, o)[0].price)
  {
    var q := RemoveRef(levels[0].queue, o);
    TailOk(levels, o.side);
    RemoveRefMembers(levels[0].queue, o);
    if q != [] {
      assert LevelOk(Level(o.price, q), o.side) by {
        assert forall i :: 0 <= i < |q| ==> q[i] in levels[0].queue;
      }
      PrependOk(Level(o.price, q), levels[1..], o.side);
    }
  }

  lemma DequeueTop(levels: seq<Level>, o: Order)
    requires LevelsOk(levels, o.side) && levels != [] && levels[0].price == o.price && o in levels[0].queue
    requires NoDup(Values(Flat(levels)))
    ensures Values(Flat(Dequeue(levels, o))) == Remove(Values(Flat(levels)), o.orderID)
  {
    var top, rest := levels[0].queue, Flat(levels[1..]);
    DequeueTopLevels(levels, o);
    TailOk(levels, o.side);
    ValuesConcat(top, rest);
    NoDupParts(Values(top), Values(rest));
    RefsUnique(top, o);
    RemoveConcat(Values(top), Values(rest), o.orderID);
    RemoveRefRemoves(top, o);
    ValuesConcat(RemoveRef(top, o), rest);
  }

  /** Removing the order from its level is removing its id from the side. */
  lemma {:induction false} DequeueRemoves(levels: seq<Level>, o: Order)
    requires LevelsOk(levels, o.side) && o in Flat(levels) && NoDup(Values(Flat(levels)))
    ensures LevelsOk(Dequeue(levels, o), o.side)
    ensures Values(Flat(Dequeue(levels, o))) == Remove(Values(Flat(levels)), o.orderID)
    ensures Dequeue(levels, o) != [] ==> AtLeast(o.side, levels[0].price, Dequeue(levels, o)[0].price)
  {
    FlatSplit(levels, o);
    if levels[0].price == o.price {
      DequeueTopLevels(levels, o);
      DequeueTop(levels, o);
    } else {
      var top, rest := levels[0], levels[1..];
      TailOk(levels, o.side);
      ValuesConcat(top.queue, Flat(rest));
      NoDupParts(Values(top.queue), Values(Flat(rest)));
      RefsUnique(Flat(rest), o);
      RemoveConcat(Values(top.queue), Values(Flat(rest)), o.orderID);
      DequeueRemoves(rest, o);
      PrependOk(top, Dequeue(rest, o), o.side);
      ValuesConcat(top.queue, Flat(Dequeue(rest, o)));
    }
  }

  lemma {:induction false} DequeueMembers(levels: seq<Level>, o: Order)
    ensures forall x :: x in Flat(levels) && x != o ==> x in Flat(Dequeue(levels, o))
    ensures forall x :: x in Flat(Dequeue(levels, o)) ==> x in Flat(levels)
  {
    if levels != [] {
      var top, rest := levels[0], levels[1..];
      var q := RemoveRef(top.queue, o);
      RemoveRefMembers(top.queue, o);
      DequeueMembers(rest, o);
      assert ([Level(o.price, q)] + rest)[1..] == rest;
      assert ([top] + Dequeue(rest, o))[1..] == Dequeue(rest, o);
    }
  }

  /** Below a level every order has a strictly worse price. */
  lemma {:induction false} PricesWorse(levels: seq<Level>, p: int, side: Side)
    requires LevelsOk(levels, side) && (levels != [] ==> Better(side, p, levels[0].price))
    ensures forall x :: x in Flat(levels) ==> Better(side, p, x.price)
  {
    if levels != [] {
      TailOk(levels, side);
      PricesWorse(levels[1..], p, side);
    }
  }

  /** The flat list determines the levels: nothing about the stored structure is lost in it. */
  lemma {:induction false} FlatDetermines(a: seq<Level>, b: seq<Level>, side: Side)
    requires LevelsOk(a, side) && LevelsOk(b, side) && Flat(a) == Flat(b)
    ensures a == b
  {
    FlatHead(a, side);
    FlatHead(b, side);
    if a != [] {
      TailOk(a, side);
      TailOk(b, side);
      PricesWorse(a[1..], a[0].price, side);
      PricesWorse(b[1..], b[0].price, side);
      var f, n, m, p := Flat(a), |a[0].queue|, |b[0].queue|, a[0].price;
      assert f[..n] == a[0].queue && f[n..] == Flat(a[1..]);
      assert f[..m] == b[0].queue && f[m..] == Flat(b[1..]);
      assert forall i :: n <= i < |f| ==> f[i] in f[n..];
      assert forall i :: m <= i < |f| ==> f[i] in f[m..];
      assert forall i :: 0 <= i < n ==> f[i].price == p;
      assert forall i :: 0 <= i < m ==> f[i].price == p;
      assert forall i :: n <= i < |f| ==> f[i].price != p;
      assert forall i :: m <= i < |f| ==> f[i].price != p;
      var k := if n < m then n else if m < n then m else 0;
      assert n == m by {
        assert (f[k].price == p <==> k < n) && (f[k].price == p <==> k < m);
      }
      FlatDetermines(a[1..], b[1..], side);
    }
  }
}
