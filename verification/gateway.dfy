/** The gateway: one frame in, one stamped event published or nothing. */
module Gateway {
  import opened Events
  import opened Bytes
  import opened FixParsing

  /** What one frame publishes. */
  function Accepted(frame: seq<Byte>, now: int): seq<OrderEvent> {
    match ParseMessage(frame, 0, now)
    case None => []
    case Some(event) => [event]
  }

  /** What a run of frames publishes, each stamped with the time it came in. */
  function Published(frames: seq<seq<Byte>>, stamps: seq<int>): seq<OrderEvent>
    requires |stamps| == |frames|
  {
    if frames == [] then []
    else
      var n := |frames| - 1;
      Published(frames[..n], stamps[..n]) + Accepted(frames[n], stamps[n])
  }

  function PublishedUpTo(frames: seq<seq<Byte>>, stamps: seq<int>, i: nat): seq<OrderEvent>
    requires i <= |frames| == |stamps|
  {
    Published(frames[..i], stamps[..i])
  }

  lemma PublishedStep(frames: seq<seq<Byte>>, stamps: seq<int>, i: nat)
    requires i < |frames| == |stamps|
    ensures PublishedUpTo(frames, stamps, i + 1) == PublishedUpTo(frames, stamps, i) + Accepted(frames[i], stamps[i])
  {
    assert frames[..i + 1][..i] == frames[..i] && stamps[..i + 1][..i] == stamps[..i];
  }

  lemma PublishedAll(frames: seq<seq<Byte>>, stamps: seq<int>)
    requires |frames| == |stamps|
    ensures PublishedUpTo(frames, stamps, 0) == []
    ensures PublishedUpTo(frames, stamps, |frames|) == Published(frames, stamps)
  {
    assert frames[..|frames|] == frames && stamps[..|stamps|] == stamps;
  }

  /** The stamp is the only thing the parser does not decide. */
  lemma StampIsFree(s: seq<Byte>, a: int, b: int)
    ensures ParseMessage(s, 0, a).Some? == ParseMessage(s, 0, b).Some?
    ensures ParseMessage(s, 0, a).Some?
            ==> ParseMessage(s, 0, b).value == ParseMessage(s, 0, a).value.(timestamp := b)
  {
    var r := Scan(s, 0, MAX_FIELDS);
    if r.Some? {
      var fs := r.value;
      assert NewOrderOf(fs, a).Some? == NewOrderOf(fs, b).Some? && CancelOf(fs, a).Some? == CancelOf(fs, b).Some?;
    }
  }

  class OrderGateway {
    const parser: FixParser
    const scratch: EventSlot
    /** Everything published so far, in order. */
    ghost var ring: seq<OrderEvent>

    constructor ()
      ensures parser.Valid() && ring == []
      ensures fresh(parser.tags) && fresh(parser.valStarts) && fresh(parser.valEnds) && fresh(scratch)
    {
      var p := new FixParser();
      var s := new EventSlot();
      parser := p;
      scratch := s;
      ring := [];
    }

    /** Copies every field, so that nothing of what the slot held before is left. */
    static method CopyIntoSlot(slot: EventSlot, src: EventSlot)
      requires slot != src
      modifies slot
      ensures slot.Value() == src.Value()
    {
      slot.eventType := src.eventType;
      slot.orderId := src.orderId;
      slot.side := src.side;
      slot.ordType := src.ordType;
      slot.tif := src.tif;
      slot.price := src.price;
      slot.quantity := src.quantity;
      slot.maxFloor := src.maxFloor;
      slot.timestamp := src.timestamp;
      slot.originalOrderId := src.originalOrderId;
    }

    /** An accepted frame is published as its event with the receipt stamp, whatever the scan arrays, the scratch
        event and the claimed slot held before; a rejected or missing frame publishes nothing and leaves the slot as
        it was. */
    method OnFrame(frame: array?<Byte>, now: int, slot: EventSlot) returns (published: bool)
      requires parser.Valid() && slot != scratch
      modifies this, scratch, slot, parser.tags, parser.valStarts, parser.valEnds
      ensures frame == null ==> !published
      ensures frame != null ==> published == ParseMessage(old(frame[..]), 0, now).Some?
      ensures frame != null ==> ring == old(ring) + Accepted(old(frame[..]), now)
      ensures published ==> frame != null && Accepted(old(frame[..]), now) == [slot.Value()]
      ensures !published ==> ring == old(ring) && slot.Value() == old(slot.Value())
    {
      if frame == null {
        return false;
      }
      assert frame[..0 + frame.Length] == frame[..];
      var ok := parser.Parse(frame, 0, frame.Length, scratch);
      StampIsFree(old(frame[..]), old(scratch.timestamp), now);
      if !ok {
        return false;
      }
      scratch.timestamp := now;
      CopyIntoSlot(slot, scratch);
      ring := ring + [slot.Value()];
      published := true;
    }

    /** A run of frames. */
    method OnFrames(frames: seq<array<Byte>>, stamps: seq<int>, slots: seq<EventSlot>, ghost texts: seq<seq<Byte>>)
      requires parser.Valid() && |stamps| == |frames| == |slots| == |texts| && scratch !in slots
      requires forall i :: 0 <= i < |frames| ==> frames[i][..] == texts[i]
      modifies this, scratch, slots, parser.tags, parser.valStarts, parser.valEnds
      ensures ring == old(ring) + Published(texts, stamps)
    {
      var i := 0;
      while i < |frames|
        invariant i <= |frames| && parser.Valid()
        invariant forall j :: 0 <= j < |frames| ==> frames[j][..] == texts[j]
        invariant ring == old(ring) + PublishedUpTo(texts, stamps, i)
      {
        PublishedStep(texts, stamps, i);
        var published := OnFrame(frames[i], stamps[i], slots[i]);
        i := i + 1;
      }
      PublishedAll(texts, stamps);
    }
  }
}
