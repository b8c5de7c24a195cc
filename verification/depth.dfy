/** The depth snapshot: per price the displayed quantity, best first, top levels only. */
module Depth {
  import opened Orders
  import opened Matching
  import opened Invariant
  import opened Levels

  datatype Row = Row(price: int, qty: int)

  const MAX_DEPTH_LEVELS := 20

  /** The side as the public sees it: one row per price, with what is displayed there. */
  function DepthOf(l: seq<OrderValue>): seq<Row> {
    if l == [] then []
    else
      var rest := DepthOf(l[1..]);
      if rest != [] && rest[0].price == l[0].price then [Row(l[0].price, l[0].visible + rest[0].qty)] + rest[1..]
      else [Row(l[0].price, l[0].visible)] + rest
  }

  function DisplayedAt(l: seq<OrderValue>, price: int): int {
    if l == [] then 0 else (if l[0].price == price then l[0].visible else 0) + DisplayedAt(l[1..], price)
  }

  function SumVisible(l: seq<OrderValue>): int {
    if l == [] then 0 else l[0].visible + SumVisible(l[1..])
  }

  /** Rows come strictly best first, starting at the best price. */
  lemma {:induction false} DepthIsOrdered(l: seq<OrderValue>, side: Side)
    requires Sorted(l, side)
    ensures var d := DepthOf(l);
            && (d == [] <==> l == [])
            && (d != [] ==> d[0].price == l[0].price)
            && (forall i, j :: 0 <= i < j < |d| ==> Better(side, d[i].price, d[j].price))
  {
    if l != [] {
      var d, rest := DepthOf(l), DepthOf(l[1..]);
      DepthIsOrdered(l[1..], side);
      if rest != [] {
        assert AtLeast(side, l[0].price, l[1].price);
        var merged := rest[0].price == l[0].price;
        assert forall i :: 0 < i < |d| ==> d[i] == rest[if merged then i else i - 1];
      }
    }
  }

  /** Every price with an order has a row. */
  lemma {:induction false} DepthCovers(l: seq<OrderValue>, o: OrderValue)
    requires o in l
    ensures exists i :: 0 <= i < |DepthOf(l)| && DepthOf(l)[i].price == o.price
  {
    var d, rest := DepthOf(l), DepthOf(l[1..]);
    if o == l[0] {
      assert d[0].price == o.price;
    } else {
      DepthCovers(l[1..], o);
      var i :| 0 <= i < |rest| && rest[i].price == o.price;
      assert d[if rest[0].price == l[0].price then i else i + 1].price == o.price;
    }
  }

  lemma {:induction false} NotDisplayed(l: seq<OrderValue>, price: int)
    requires forall o :: o in l ==> o.price != price
    ensures DisplayedAt(l, price) == 0
  {
    if l != [] {
      assert l[0] in l;
      NotDisplayed(l[1..], price);
    }
  }

  /** Each row is exactly what its price displays. */
  lemma {:induction false} DepthIsExact(l: seq<OrderValue>, side: Side, i: nat)
    requires Sorted(l, side) && i < |DepthOf(l)|
    ensures DepthOf(l)[i].qty == DisplayedAt(l, DepthOf(l)[i].price)
  {
    var d, rest := DepthOf(l), DepthOf(l[1..]);
    DepthIsOrdered(l, side);
    DepthIsOrdered(l[1..], side);
    var merged := rest != [] && rest[0].price == l[0].price;
    var j := if merged then i else i - 1;
    if i == 0 && !merged {
      assert forall o :: o in l[1..] ==> o.price != l[0].price by {
        forall o | o in l[1..]
          ensures o.price != l[0].price
        {
          DepthCovers(l[1..], o);
        }
      }
      NotDisplayed(l[1..], l[0].price);
    } else {
      DepthIsExact(l[1..], side, j);
      assert d[i].price == rest[j].price;
    }
  }

  /** What a snapshot shows depends on prices and displayed sizes alone: neither iceberg reserves nor peg pools show. */
  lemma {:induction false} DepthHidesReserve(l: seq<OrderValue>, m: seq<OrderValue>)
    requires |l| == |m| && forall i :: 0 <= i < |l| ==> l[i].price == m[i].price && l[i].visible == m[i].visible
    ensures DepthOf(l) == DepthOf(m)
  {
    if l != [] {
      DepthHidesReserve(l[1..], m[1..]);
    }
  }

  /** One level's rows in front of the rows below it. */
  lemma {:induction false} DepthOfLevel(q: seq<OrderValue>, rest: seq<OrderValue>, price: int)
    requires q != [] && forall i :: 0 <= i < |q| ==> q[i].price == price
    requires DepthOf(rest) != [] ==> DepthOf(rest)[0].price != price
    ensures DepthOf(q + rest) == [Row(price, SumVisible(q))] + DepthOf(rest)
  {
    assert (q + rest)[1..] == q[1..] + rest;
    if |q| == 1 {
      assert q[1..] + rest == rest;
      assert SumVisible(q[1..]) == 0;
    } else {
      DepthOfLevel(q[1..], rest, price);
    }
  }

  lemma DepthHead(l: seq<OrderValue>)
    ensures l != [] ==> DepthOf(l) != [] && DepthOf(l)[0].price == l[0].price
    ensures l == [] ==> DepthOf(l) == []
  {
  }

  /** Level by level. */
  lemma LevelRow(levels: seq<Level>, side: Side)
    requires LevelsOk(levels, side) && levels != []
    ensures LevelsOk(levels[1..], side)
    ensures DepthOf(Values(Flat(levels)))
            == [Row(levels[0].price, SumVisible(Values(levels[0].queue)))] + DepthOf(Values(Flat(levels[1..])))
  {
    TailOk(levels, side);
    ValuesConcat(levels[0].queue, Flat(levels[1..]));
    FlatHead(levels[1..], side);
    DepthHead(Values(Flat(levels[1..])));
    DepthOfLevel(Values(levels[0].queue), Values(Flat(levels[1..])), levels[0].price);
  }

  method LevelQty(queue: seq<Order>, ghost queues: seq<seq<Order>>) returns (levelQty: int)
    ensures levelQty == SumVisible(old(Values(queue)))
    ensures forall k :: 0 <= k < |queues| ==> Values(queues[k]) == old(Values(queues[k]))
  {
    ghost var vs := Values(queue);
    levelQty := 0;
    var i := 0;
    while i < |queue|
      invariant 0 <= i <= |queue| && levelQty + SumVisible(vs[i..]) == SumVisible(vs)
    {
      levelQty := levelQty + queue[i].visibleQty;
      assert vs[i..][1..] == vs[i + 1..];
      i := i + 1;
    }
  }

  /** One row per level. */
  lemma {:induction false} DepthRows(levels: seq<Level>, side: Side)
    requires LevelsOk(levels, side)
    ensures var d := DepthOf(Values(Flat(levels)));
            && |d| == |levels|
            && forall i :: 0 <= i < |d| ==> d[i] == Row(levels[i].price, SumVisible(Values(levels[i].queue)))
  {
    if levels != [] {
      LevelRow(levels, side);
      DepthRows(levels[1..], side);
    }
  }

  method WriteRow(prices: array<int>, qtys: array<int>, i: nat, price: int, qty: int, ghost queues: seq<seq<Order>>)
    requires prices != qtys && i < prices.Length && i < qtys.Length
    modifies prices, qtys
    ensures prices[i] == price && qtys[i] == qty
    ensures forall k :: 0 <= k < prices.Length && k != i ==> prices[k] == old(prices[k])
    ensures forall k :: 0 <= k < qtys.Length && k != i ==> qtys[k] == old(qtys[k])
    ensures forall k :: 0 <= k < |queues| ==> Values(queues[k]) == old(Values(queues[k]))
  {
    prices[i] := price;
    qtys[i] := qty;
    forall k | 0 <= k < |queues|
      ensures Values(queues[k]) == old(Values(queues[k]))
    {
      assert |Values(queues[k])| == |queues[k]|;
      assert forall j :: 0 <= j < |queues[k]| ==> queues[k][j].Value() == old(queues[k][j].Value());
    }
  }

  /** Writes the first rows of the side's depth; whatever the arrays held before shows only past the count. */
  method FillSide(levels: seq<Level>, ghost side: Side, prices: array<int>, qtys: array<int>, maxLevels: nat,
                  ghost others: seq<seq<Order>>)
    returns (count: nat)
    requires LevelsOk(levels, side) && prices != qtys
    requires maxLevels <= prices.Length && maxLevels <= qtys.Length
    modifies prices, qtys
    ensures var d := old(DepthOf(Values(Flat(levels))));
            && count == (if |d| < maxLevels then |d| else maxLevels)
            && forall i :: 0 <= i < count ==> Row(prices[i], qtys[i]) == d[i]
    ensures forall i :: count <= i < prices.Length ==> prices[i] == old(prices[i])
    ensures forall i :: count <= i < qtys.Length ==> qtys[i] == old(qtys[i])
    ensures forall i :: 0 <= i < |others| ==> Values(others[i]) == old(Values(others[i]))
  {
    DepthRows(levels, side);
    ghost var d := DepthOf(Values(Flat(levels)));
    ghost var queues := seq(|levels|, i requires 0 <= i < |levels| => levels[i].queue) + others;
    assert forall i :: 0 <= i < |others| ==> queues[|levels| + i] == others[i];
    count := 0;
    while count < |levels| && count != maxLevels
      invariant count <= |levels| && count <= maxLevels
      invariant forall k :: 0 <= k < |queues| ==> Values(queues[k]) == old(Values(queues[k]))
      invariant forall i :: 0 <= i < count ==> Row(prices[i], qtys[i]) == d[i]
      invariant forall i :: count <= i < prices.Length ==> prices[i] == old(prices[i])
      invariant forall i :: count <= i < qtys.Length ==> qtys[i] == old(qtys[i])
    {
      assert levels[count].queue == queues[count];
      var levelQty := LevelQty(levels[count].queue, queues);
      WriteRow(prices, qtys, count, levels[count].price, levelQty, queues);
      count := count + 1;
    }
  }

  /** The reused carrier of one snapshot. */
  class BookSnapshot {
    const bidPrices: array<int>
    const bidQtys: array<int>
    const askPrices: array<int>
    const askQtys: array<int>
    var bidLevelCount: nat
    var askLevelCount: nat
    var bestBid: int
    var bestAsk: int
    var timestamp: int

    constructor ()
      ensures Wired() && fresh(bidPrices) && fresh(bidQtys) && fresh(askPrices) && fresh(askQtys)
    {
      bidPrices, bidQtys := new int[MAX_DEPTH_LEVELS], new int[MAX_DEPTH_LEVELS];
      askPrices, askQtys := new int[MAX_DEPTH_LEVELS], new int[MAX_DEPTH_LEVELS];
      bidLevelCount, askLevelCount, bestBid, bestAsk, timestamp := 0, 0, 0, 0, 0;
    }

    method SetTops(bidCount: nat, askCount: nat, bid: int, ask: int, now: int, ghost others: seq<seq<Order>>)
      modifies this
      ensures bidLevelCount == bidCount && askLevelCount == askCount
      ensures bestBid == bid && bestAsk == ask && timestamp == now
      ensures forall i :: 0 <= i < |others| ==> Values(others[i]) == old(Values(others[i]))
    {
      bidLevelCount := bidCount;
      askLevelCount := askCount;
      bestBid := bid;
      bestAsk := ask;
      timestamp := now;
      forall i | 0 <= i < |others|
        ensures Values(others[i]) == old(Values(others[i]))
      {
        assert |Values(others[i])| == |others[i]|;
        assert forall j :: 0 <= j < |others[i]| ==> others[i][j].Value() == old(others[i][j].Value());
      }
    }

    /** Overwrites the stamp; what the carrier shows stays. */
    method Stamp(now: int, ghost b: Book, ghost n: nat, ghost others: seq<seq<Order>>)
      requires Wired() && n <= MAX_DEPTH_LEVELS && Shows(b, n)
      modifies this
      ensures Shows(b, n) && timestamp == now
      ensures forall i :: 0 <= i < |others| ==> Values(others[i]) == old(Values(others[i]))
    {
      timestamp := now;
      forall i | 0 <= i < |others|
        ensures Values(others[i]) == old(Values(others[i]))
      {
        assert |Values(others[i])| == |others[i]|;
        assert forall j :: 0 <= j < |others[i]| ==> others[i][j].Value() == old(others[i][j].Value());
      }
    }

    ghost predicate Wired() {
      && bidPrices.Length == bidQtys.Length == askPrices.Length == askQtys.Length == MAX_DEPTH_LEVELS
      && bidPrices != bidQtys && bidPrices != askPrices && bidPrices != askQtys
      && bidQtys != askPrices && bidQtys != askQtys && askPrices != askQtys
    }

    /** Shows the best n levels of this book, and nothing that is not displayed. */
    ghost predicate Shows(b: Book, n: nat)
      requires Wired() && n <= MAX_DEPTH_LEVELS
      reads this, bidPrices, bidQtys, askPrices, askQtys
    {
      var db, da := DepthOf(b.bids), DepthOf(b.asks);
      && bidLevelCount == Min(|db|, n) && askLevelCount == Min(|da|, n)
      && (forall i :: 0 <= i < bidLevelCount ==> Row(bidPrices[i], bidQtys[i]) == db[i])
      && (forall i :: 0 <= i < askLevelCount ==> Row(askPrices[i], askQtys[i]) == da[i])
      && bestBid == b.Best(BUY) && bestAsk == b.Best(SELL)
    }
  }

  /** Two books that display the same orders show the same snapshot, whatever their reserves and peg pools hold. */
  lemma SnapshotHidesReserve(s: BookSnapshot, b: Book, c: Book, n: nat)
    requires s.Wired() && n <= MAX_DEPTH_LEVELS && s.Shows(b, n)
    requires forall side :: |b.Lit(side)| == |c.Lit(side)| && forall i :: 0 <= i < |b.Lit(side)| ==>
               b.Lit(side)[i].price == c.Lit(side)[i].price && b.Lit(side)[i].visible == c.Lit(side)[i].visible
    ensures s.Shows(c, n)
  {
    assert b.Lit(BUY) == b.bids && b.Lit(SELL) == b.asks && c.Lit(BUY) == c.bids && c.Lit(SELL) == c.asks;
    DepthHidesReserve(b.bids, c.bids);
    DepthHidesReserve(b.asks, c.asks);
  }

  /** The tops of a snapshot are its first rows. */
  lemma TopsAreFirstRows(s: BookSnapshot, b: Book, n: nat)
    requires s.Wired() && 0 < n <= MAX_DEPTH_LEVELS && s.Shows(b, n)
    ensures s.bestBid == (if s.bidLevelCount == 0 then NA else s.bidPrices[0])
    ensures s.bestAsk == (if s.askLevelCount == 0 then NA else s.askPrices[0])
  {
    DepthHead(b.bids);
    DepthHead(b.asks);
  }
}
