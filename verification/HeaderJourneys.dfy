/** Headers over a chain of service calls of any length. */
module HeaderJourneys {
  import opened Common
  import opened Headers
  import opened HeaderHops

  // ---------- journeys

  /** What one service sets before it calls the next, and what the transport adds to that call. */
  datatype Leg = Leg(outbound: Fields, propagating: Fields, ascii: Fields, added: Metadata)

  function Edited(b: Bag, leg: Leg): Bag {
    b.(outbound := b.outbound + leg.outbound, propagating := b.propagating + leg.propagating,
       ascii := b.ascii + leg.ascii)
  }

  /** Each service calls with a context of its own, in which nothing is outgoing yet. */
  function LegWire(leg: Leg): Wire {
    Wire(map[], leg.added)
  }

  /** The last service of the chain finds `end` when the first one held `start`. */
  ghost predicate Journey(start: Bag, legs: seq<Leg>, end: Bag)
    decreases |legs|
  {
    if legs == [] then end == start
    else
      var n := |legs| - 1;
      exists mid :: Journey(start, legs[..n], mid) && Hop(Edited(mid, legs[n]), LegWire(legs[n]), end)
  }

  predicate CleanLeg(leg: Leg) {
    && Fits(leg.outbound, Inbound) && Fits(leg.propagating, Propagating) && FitsText(leg.ascii)
    && TransportsOwn(leg.added)
  }

  predicate CleanLegs(legs: seq<Leg>) {
    forall i :: 0 <= i < |legs| ==> CleanLeg(legs[i])
  }

  // ---------- cleanliness travels

  lemma EditedIsClean(b: Bag, leg: Leg)
    requires Clean(b) && CleanLeg(leg)
    ensures Clean(Edited(b, leg))
  {
  }

  lemma DeliveredIsClean(b: Bag, added: Metadata, c: Bag)
    requires Clean(b) && TransportsOwn(added) && Delivers(b, added, c)
    ensures Clean(c)
  {
    forall k | k in c.ascii && !Reserved(ToLower(k)) ensures FitsAt(k, c.ascii[k], Ascii) {
      if k in added { ReservedIsText(k); }
    }
  }

  lemma LegDelivers(b: Bag, leg: Leg, c: Bag)
    requires Clean(b) && CleanLeg(leg) && Hop(Edited(b, leg), LegWire(leg), c)
    ensures Delivers(Edited(b, leg), leg.added, c) && Clean(c)
  {
    EditedIsClean(b, leg);
    var order :| HopInOrder(Edited(b, leg), LegWire(leg), order, c);
    HopDeliversExactly(Edited(b, leg), LegWire(leg), order, c);
    DeliveredIsClean(Edited(b, leg), leg.added, c);
  }

  lemma {:induction false} JourneyIsClean(start: Bag, legs: seq<Leg>, end: Bag)
    requires Clean(start) && CleanLegs(legs) && Journey(start, legs, end)
    ensures Clean(end)
    decreases |legs|
  {
    if legs != [] {
      var n := |legs| - 1;
      var mid :| Journey(start, legs[..n], mid) && Hop(Edited(mid, legs[n]), LegWire(legs[n]), end);
      JourneyIsClean(start, legs[..n], mid);
      LegDelivers(mid, legs[n], end);
    }
  }

  /** The last hop of a clean journey. */
  lemma LastHop(start: Bag, legs: seq<Leg>, end: Bag) returns (mid: Bag)
    requires Clean(start) && CleanLegs(legs) && Journey(start, legs, end) && legs != []
    ensures var n := |legs| - 1;
            Journey(start, legs[..n], mid) && Delivers(Edited(mid, legs[n]), legs[n].added, end)
  {
    var n := |legs| - 1;
    mid :| Journey(start, legs[..n], mid) && Hop(Edited(mid, legs[n]), LegWire(legs[n]), end);
    JourneyIsClean(start, legs[..n], mid);
    LegDelivers(mid, legs[n], end);
  }

  // ---------- what a journey does to each class

  function PropagatingSet(start: Fields, legs: seq<Leg>): Fields {
    if legs == [] then start else PropagatingSet(start, legs[..|legs| - 1]) + legs[|legs| - 1].propagating
  }

  function TextSet(start: Fields, legs: seq<Leg>): Fields {
    if legs == [] then start else TextSet(start, legs[..|legs| - 1]) + legs[|legs| - 1].ascii
  }

  /** Root headers survive every hop, and propagating ones gather. */
  lemma {:induction false} RootAndPropagatingPersist(start: Bag, legs: seq<Leg>, end: Bag)
    requires Clean(start) && CleanLegs(legs) && Journey(start, legs, end)
    ensures end.root == start.root
    ensures end.propagating == PropagatingSet(start.propagating, legs)
    decreases |legs|
  {
    if legs != [] {
      var mid := LastHop(start, legs, end);
      RootAndPropagatingPersist(start, legs[..|legs| - 1], mid);
    }
  }

  lemma LastOutbound(start: Bag, legs: seq<Leg>, end: Bag) returns (mid: Bag)
    requires Clean(start) && CleanLegs(legs) && Journey(start, legs, end) && legs != []
    ensures Journey(start, legs[..|legs| - 1], mid)
    ensures end.outbound == map[] && end.inbound == mid.outbound + legs[|legs| - 1].outbound
  {
    mid := LastHop(start, legs, end);
  }

  /** Outbound headers are inbound one hop on; what the sender itself had received is gone by then. */
  lemma OutboundLastsOneHop(start: Bag, legs: seq<Leg>, end: Bag)
    requires Clean(start) && CleanLegs(legs) && Journey(start, legs, end) && legs != []
    ensures end.outbound == map[]
    ensures end.inbound == (if |legs| == 1 then start.outbound else map[]) + legs[|legs| - 1].outbound
  {
    var mid := LastOutbound(start, legs, end);
    OutboundBefore(start, legs[..|legs| - 1], mid);
  }

  /** Nothing is outbound on arrival. */
  lemma OutboundBefore(start: Bag, legs: seq<Leg>, end: Bag)
    requires Clean(start) && CleanLegs(legs) && Journey(start, legs, end)
    ensures end.outbound == if legs == [] then start.outbound else map[]
  {
    if legs != [] { var mid := LastOutbound(start, legs, end); }
  }

  /**
   Text headers travel on for ever, although they are documented to be like inbound ones; only the
   transport's own names stop at the next service.
   */
  lemma {:induction false} TextPersists(start: Bag, legs: seq<Leg>, end: Bag, k: string)
    requires Clean(start) && CleanLegs(legs) && Journey(start, legs, end) && !Reserved(ToLower(k))
    ensures k in end.ascii <==> k in TextSet(start.ascii, legs)
    ensures k in end.ascii ==> end.ascii[k] == TextSet(start.ascii, legs)[k]
    decreases |legs|
  {
    if legs != [] {
      var n := |legs| - 1;
      var mid := LastHop(start, legs, end);
      TextPersists(start, legs[..n], mid, k);
      if k in legs[n].added { ReservedIsText(k); }
    }
  }

  lemma ReservedAreFresh(start: Bag, legs: seq<Leg>, end: Bag, k: string)
    requires Clean(start) && CleanLegs(legs) && Journey(start, legs, end) && legs != [] && Reserved(ToLower(k))
    ensures k in end.ascii <==> k in legs[|legs| - 1].added
  {
    var mid := LastHop(start, legs, end);
  }

  predicate NobodySets(legs: seq<Leg>, k: string) {
    forall i :: 0 <= i < |legs| ==> k !in legs[i].ascii
  }

  lemma {:induction false} UnsetStays(start: Fields, legs: seq<Leg>, k: string)
    requires k in start && NobodySets(legs, k)
    ensures k in TextSet(start, legs) && TextSet(start, legs)[k] == start[k]
  {
    if legs != [] { UnsetStays(start, legs[..|legs| - 1], k); }
  }

  /** A text header nobody sets again reaches every later service unchanged. */
  lemma TextIsNotInbound(start: Bag, legs: seq<Leg>, end: Bag, k: string)
    requires Clean(start) && CleanLegs(legs) && Journey(start, legs, end)
    requires k in start.ascii && !Reserved(ToLower(k)) && NobodySets(legs, k)
    ensures k in end.ascii && end.ascii[k] == start.ascii[k]
  {
    TextPersists(start, legs, end, k);
    UnsetStays(start.ascii, legs, k);
  }

  lemma HopIgnoresInbound(b: Bag, w: Wire, c: Bag, other: Fields)
    requires Hop(b, w, c)
    ensures Hop(b.(inbound := other), w, c)
  {
    var order :| HopInOrder(b, w, order, c);
    assert HopInOrder(b.(inbound := other), w, order, c);
  }

  /** What a service received as inbound has no bearing on any service after it, clean or not. */
  lemma {:induction false} InboundIsNotForwarded(start: Bag, legs: seq<Leg>, end: Bag, other: Fields)
    requires Journey(start, legs, end) && legs != []
    ensures Journey(start.(inbound := other), legs, end)
    decreases |legs|
  {
    var n := |legs| - 1;
    var mid :| Journey(start, legs[..n], mid) && Hop(Edited(mid, legs[n]), LegWire(legs[n]), end);
    if n == 0 {
      var same := start.(inbound := other);
      HopIgnoresInbound(Edited(start, legs[0]), LegWire(legs[0]), end, other);
      assert Edited(same, legs[0]) == Edited(start, legs[0]).(inbound := other);
      assert Journey(same, legs[..0], same);
    } else {
      InboundIsNotForwarded(start, legs[..n], mid, other);
    }
  }

  // ---------- setting headers

  /** Propagating headers are always clean; the name of an outbound or a text header decides. */
  lemma PropagatingNameFits(b: Bag, name: string, data: seq<byte>, k: string)
    requires Clean(b) && k == PrefixedName(name, Propagating)
    ensures Clean(b.(propagating := b.propagating[k := Binary(data)]))
  {
    ToLowerTwice(PROP_PREFIX + name);
    assert Lower(k);
    PropPrefixStays(name, k);
  }

  lemma PropPrefixStays(name: string, k: string)
    requires k == ToLower(PROP_PREFIX + name)
    ensures Classify(k) == Propagating
  {
    var p := PROP_PREFIX;
    assert forall i :: 0 <= i < |p| ==> k[i] == LowerChar(p[i]) == p[i];
    assert k[..|p|] == p;
    assert k[0] == 'p';
  }

  lemma OutboundNameFitsExactly(b: Bag, name: string, data: seq<byte>, k: string)
    requires Clean(b) && k == PrefixedName(name, Outbound)
    ensures Clean(b.(outbound := b.outbound[k := Binary(data)])) <==> Classify(k) == Inbound
  {
    ToLowerTwice(name);
    assert "" + name == name;
    var after := b.outbound[k := Binary(data)];
    if Classify(k) == Inbound {
      forall q | q in after ensures FitsAt(q, after[q], Inbound) {
        if q != k { assert q in b.outbound; }
      }
    } else {
      assert k in after && !FitsAt(k, after[k], Inbound);
    }
  }

  lemma TextNameFitsExactly(b: Bag, name: string, data: seq<byte>, k: string)
    requires Clean(b) && k == ToLower(name)
    ensures Clean(b.(ascii := b.ascii[k := Text(data)])) <==> Classify(k) == Ascii
  {
    ToLowerTwice(name);
    var after := b.ascii[k := Text(data)];
    if Reserved(k) { ReservedIsText(k); }
    if Classify(k) == Ascii {
      forall q | q in after && !Reserved(ToLower(q)) ensures FitsAt(q, after[q], Ascii) {
        if q != k { assert q in b.ascii; }
      }
    } else {
      assert k in after && !FitsAt(k, after[k], Ascii);
    }
  }
}
