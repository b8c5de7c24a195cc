/** From bytes to book: requests, wire, gateway and engine in one statement. */
module EndToEnd {
  import opened Orders
  import opened Events
  import opened Bytes
  import opened Framing
  import opened FixParsing
  import opened CodecTheorems
  import opened SymbolTheorems
  import opened Gateway
  import opened WireTheorems
  import opened Matching
  import opened Invariant
  import opened Ledger
  import opened Session

  predicate DistinctIds(rs: seq<Request>) {
    forall i, j :: 0 <= i < j < |rs| && rs[i].NewOrder? && rs[j].NewOrder? ==> rs[i].clOrdId != rs[j].clOrdId
  }

  lemma {:induction false} UniqueIdsSnoc(es: seq<OrderEvent>, e: OrderEvent, used: set<int>)
    requires UniqueIds(es, used)
    requires e.eventType.NEW_ORDER? ==>
               e.orderId !in used && forall d :: d in es && d.eventType.NEW_ORDER? ==> d.orderId != e.orderId
    ensures UniqueIds(es + [e], used)
    decreases |es|
  {
    if es == [] {
      assert [e][1..] == [];
    } else {
      assert (es + [e])[1..] == es[1..] + [e];
      assert forall d :: d in es[1..] ==> d in es;
      UniqueIdsSnoc(es[1..], e, if es[0].eventType.NEW_ORDER? then used + {es[0].orderId} else used);
    }
  }

  /** Every published event is some request's. */
  lemma {:induction false} ReceivedFrom(rs: seq<Request>, stamps: seq<int>, e: OrderEvent) returns (i: nat)
    requires |stamps| == |rs| && e in Received(rs, stamps)
    ensures i < |rs| && Taken(rs[i], stamps[i]) == Some(e)
    decreases |rs|
  {
    var n := |rs| - 1;
    if Taken(rs[n], stamps[n]) == Some(e) {
      i := n;
    } else {
      i := ReceivedFrom(rs[..n], stamps[..n], e);
    }
  }

  lemma {:induction false} ReceivedUnique(rs: seq<Request>, stamps: seq<int>)
    requires |stamps| == |rs| && DistinctIds(rs) && AllLongs(rs)
    ensures UniqueIds(Received(rs, stamps), {})
    decreases |rs|
  {
    if rs != [] {
      var n := |rs| - 1;
      var before := Received(rs[..n], stamps[..n]);
      ReceivedUnique(rs[..n], stamps[..n]);
      var last := Taken(rs[n], stamps[n]);
      if last.Some? {
        TakenKeepsId(rs[n], stamps[n]);
        forall d | d in before && d.eventType.NEW_ORDER? && last.value.eventType.NEW_ORDER?
          ensures d.orderId != last.value.orderId
        {
          var i := ReceivedFrom(rs[..n], stamps[..n], d);
          assert rs[..n][i] == rs[i];
          TakenKeepsId(rs[i], stamps[i]);
        }
        UniqueIdsSnoc(before, last.value, {});
      } else {
        assert before + [] == before;
      }
    }
  }

  /** The handler narrows quantities to 32 bits. What the client asked for is what the engine is handed if and only if
      the quantity fits and the order constructor's rules hold: a positive id, and an iceberg only as a GTC limit
      order. */
  lemma AdmittedAsAsked(r: Request, stamp: int)
    requires r.NewOrder? && Longs(r) && stamp > 0 && EventFor(r, stamp).Some?
    ensures var o := OrderOf(EventFor(r, stamp).value);
            (o.Some? && o.value.id == r.clOrdId && o.value.side == r.side && o.value.ordType == r.ordType
             && o.value.tif == r.tif && o.value.qty == r.qty
             && o.value.price == (if r.ordType == PEG_MID then NA else r.price)
             && o.value.peak == (if 0 < r.maxFloor < r.qty then r.maxFloor else 0))
            <==> r.qty <= 0x7fff_ffff && r.clOrdId > 0 && (0 < r.maxFloor < r.qty ==> r.tif == GTC)
                 && (r.ordType == PEG_MID ==> r.maxFloor <= 0)
  {
  }

  /** Beyond 32 bits the engine is handed another order: 4294967301 shares become 5. */
  lemma NarrowedOrder(stamp: int)
    requires stamp > 0
    ensures var r := NewOrder(1, BUY, LIMIT, 100, 0x1_0000_0005, "ASML", GTC, 0);
            Longs(r) && EventFor(r, stamp).Some? && OrderOf(EventFor(r, stamp).value).Some?
            && OrderOf(EventFor(r, stamp).value).value.qty == 5
  {
  }

  /** Any requests with distinct ids, encoded, sent as one byte stream and cut anywhere: the engine's whole run over
      what the gateway publishes keeps the book well formed, its reports obey the protocol, and the orders open at the
      end are exactly those the reports leave resting. */
  lemma BytesToBook(rs: seq<Request>, chunks: seq<seq<Byte>>, stamps: seq<int>)
    requires Sendable(rs) && DistinctIds(rs) && |stamps| == |rs| && Concat(chunks) == Concat(Sent(rs))
    ensures |FeedAll([], chunks)| == |rs|
    ensures var es := Published(FeedAll([], chunks), stamps);
            && es == Received(rs, stamps)
            && BookOk(Run(OPENING, es).book)
            && Replay(NO_ACCOUNTS, Stream(OPENING, es)).Some?
            && var l := Replay(NO_ACCOUNTS, Stream(OPENING, es)).value;
               forall id :: id in OpenIds(Run(OPENING, es).book) <==> id in l.entries && l.entries[id].phase == Resting
  {
    WireIsFaithful(rs, chunks, stamps);
    ReceivedUnique(rs, stamps);
    OpeningRun(Received(rs, stamps));
  }
}
