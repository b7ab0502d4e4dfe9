/** What reaches the next service, and what is left of it any number of services later. */
module HeaderHops {
  import opened Common
  import opened Headers

  // ---------- names

  predicate Lower(k: string) {
    ToLower(k) == k
  }

  lemma ToLowerTwice(k: string)
    ensures Lower(ToLower(k))
  {
  }

  predicate NoCapitals(k: string) {
    forall i :: 0 <= i < |k| ==> !('A' <= k[i] <= 'Z')
  }

  lemma NoCapitalsIsLower(k: string)
    requires NoCapitals(k)
    ensures Lower(k)
  {
  }

  lemma ReservedHasNoCapitals(k: string)
    requires Reserved(k)
    ensures NoCapitals(k)
  {
    if k == "content-type" {
      assert NoCapitals(k);
    } else if k == "user-agent" {
      assert NoCapitals(k);
    } else {
      assert NoCapitals(k);
    }
  }

  /** The transport's own names are lower case and fall into the text class. */
  lemma ReservedIsText(k: string)
    requires Reserved(k)
    ensures Lower(k) && Classify(k) == Ascii
  {
    ReservedHasNoCapitals(k);
    NoCapitalsIsLower(k);
    assert k[0] != 'r' && k[0] != 'p' && k[|k| - 1] != 'n';
    NoPrefix(k, ROOT_PREFIX);
    NoPrefix(k, PROP_PREFIX);
    NoSuffix(k, BIN_SUFFIX);
  }

  lemma NoPrefix(k: string, prefix: string)
    requires k != "" && prefix != "" && k[0] != prefix[0]
    ensures !HasPrefix(k, prefix)
  {
    if |prefix| <= |k| { assert k[..|prefix|][0] == k[0]; }
  }

  lemma NoSuffix(k: string, suffix: string)
    requires k != "" && suffix != "" && k[|k| - 1] != suffix[|suffix| - 1]
    ensures !HasSuffix(k, suffix)
  {
    if |suffix| <= |k| { assert k[|k| - |suffix|..][|suffix| - 1] == k[|k| - 1]; }
  }

  // ---------- one hop

  /** The names the transport adds on the way, each with a value. */
  predicate TransportsOwn(added: Metadata) {
    forall k :: k in added ==> Reserved(k) && added[k] != []
  }

  /**
   What else a call carries: `outgoing` is the metadata the context had before the headers were
   added, and `added` is the transport's own. Metadata names are lower case.
   */
  datatype Wire = Wire(outgoing: Metadata, added: Metadata)

  predicate ProperWire(w: Wire) {
    TransportsOwn(w.added) && forall k :: k in w.outgoing ==> Lower(k)
  }

  /** What arrives when the merged headers `all` are visited in `order`. */
  function Arrival(all: Fields, w: Wire, order: seq<string>): Metadata {
    AppendEach(w.outgoing, order, all) + w.added
  }

  /** `c` is what the next service may find in its context when this one calls it with `b`. */
  ghost predicate Hop(b: Bag, w: Wire, c: Bag) {
    exists order :: HopInOrder(b, w, order, c)
  }

  ghost predicate HopInOrder(b: Bag, w: Wire, order: seq<string>, c: Bag) {
    Visits(order, Merged(b).Keys) && IsReceivedBag(c, Arrival(Merged(b), w, order))
  }

  /** Every name is lower case, falls into class `kind` on arrival and has that class's sort of value. */
  predicate Fits(fields: Fields, kind: Type) {
    forall k :: k in fields ==> FitsAt(k, fields[k], kind)
  }

  predicate FitsAt(k: string, v: Value, kind: Type) {
    Lower(k) && Classify(k) == kind && (if kind == Ascii then v.Text? else v.Binary?)
  }

  /** Text headers under a name the transport owns are never sent, so they may be anything. */
  predicate FitsText(fields: Fields) {
    forall k :: k in fields && !Reserved(ToLower(k)) ==> FitsAt(k, fields[k], Ascii)
  }

  predicate Clean(b: Bag) {
    Fits(b.root, Root) && Fits(b.propagating, Propagating) && Fits(b.outbound, Inbound) && FitsText(b.ascii)
  }

  ghost predicate TextDelivered(before: Fields, added: Metadata, after: Fields)
    requires TransportsOwn(added)
  {
    && (forall k :: k in after <==> (k in before && !Reserved(ToLower(k))) || k in added)
    && (forall k :: k in after ==> after[k] == if k in added then Text(added[k][0]) else before[k])
  }

  /** Nothing lost, nothing confused: outbound headers arrive as inbound ones, all others as they were. */
  ghost predicate Delivers(b: Bag, added: Metadata, c: Bag)
    requires TransportsOwn(added)
  {
    && c.root == b.root && c.propagating == b.propagating
    && c.inbound == b.outbound && c.outbound == map[]
    && TextDelivered(b.ascii, added, c.ascii)
  }

  // ---------- what is on the wire

  lemma {:induction false} WireIsLower(out: Metadata, order: seq<string>, all: Fields, q: string)
    requires forall k :: k in out ==> Lower(k)
    ensures q in AppendEach(out, order, all) ==> Lower(q)
  {
    if order != [] {
      var n := |order| - 1;
      WireIsLower(out, order[..n], all, q);
      ToLowerTwice(order[n]);
    }
  }

  function Already(out: Metadata, q: string): seq<seq<byte>> {
    if q in out then out[q] else []
  }

  /** What a context sends already comes first. */
  lemma {:induction false} OutgoingComesFirst(out: Metadata, order: seq<string>, all: Fields, q: string)
    requires q in out
    ensures var md := AppendEach(out, order, all); q in md && out[q] <= md[q]
  {
    if order != [] { OutgoingComesFirst(out, order[..|order| - 1], all, q); }
  }

  lemma AppendedAt(md: Metadata, k: string, data: seq<byte>, q: string)
    requires Lower(k)
    ensures var after := Append(md, k, data);
            && (q in after <==> q in md || q == k)
            && (q in after ==> after[q] == Already(md, q) + if q == k then [data] else [])
  {
  }

  /** With lower-case names each sendable entry is on the wire once, under its own name. */
  lemma {:induction false} OnTheWire(out: Metadata, order: seq<string>, all: Fields, q: string)
    requires forall i, j :: 0 <= i < j < |order| ==> order[i] != order[j]
    requires forall k :: Sendable(all, k) ==> Lower(k)
    ensures var md := AppendEach(out, order, all);
            && (q in md <==> q in out || (q in order && Sendable(all, q)))
            && (q in md ==> md[q] == Already(out, q) + if q in order && Sendable(all, q) then [all[q].data] else [])
  {
    if order != [] {
      var (n, k) := (|order| - 1, order[|order| - 1]);
      OnTheWire(out, order[..n], all, q);
      assert order == order[..n] + [k];
      if Sendable(all, k) { AppendedAt(AppendEach(out, order[..n], all), k, all[k].data, q); }
    }
  }

  // ---------- clean classes do not meet

  function ClassOf(b: Bag, kind: Type): Fields {
    match kind
    case Root => b.root
    case Propagating => b.propagating
    case Inbound => b.outbound
    case _ => b.ascii
  }

  predicate OnlyIn(b: Bag, k: string, kind: Type) {
    && (k in b.root ==> kind == Root) && (k in b.propagating ==> kind == Propagating)
    && (k in b.outbound ==> kind == Inbound) && (k in b.ascii ==> kind == Ascii)
  }

  lemma MergeKeepsClass(b: Bag, k: string, kind: Type)
    requires OnlyIn(b, k, kind) && kind != Outbound
    ensures k in Merged(b) <==> k in ClassOf(b, kind)
    ensures k in Merged(b) ==> Merged(b)[k] == ClassOf(b, kind)[k]
  {
  }

  lemma ClassFits(b: Bag, k: string, kind: Type, actual: Type)
    requires Clean(b) && !Reserved(ToLower(k)) && actual == Classify(k)
    requires k in ClassOf(b, kind) && kind != Outbound
    ensures actual == kind && FitsAt(k, ClassOf(b, kind)[k], kind)
  {
  }

  lemma CleanIsApart(b: Bag, k: string, kind: Type)
    requires Clean(b) && !Reserved(ToLower(k)) && kind == Classify(k)
    ensures OnlyIn(b, k, kind)
    ensures k in ClassOf(b, kind) ==> FitsAt(k, ClassOf(b, kind)[k], kind)
  {
    if k in b.root { ClassFits(b, k, Root, kind); }
    if k in b.propagating { ClassFits(b, k, Propagating, kind); }
    if k in b.outbound { ClassFits(b, k, Inbound, kind); }
    if k in b.ascii { ClassFits(b, k, Ascii, kind); }
  }

  /** In a clean bag the merged map holds, for every name that can be sent, the entry of its class. */
  lemma MergeKeepsClasses(b: Bag, k: string, kind: Type)
    requires Clean(b) && kind == Classify(k)
    ensures Sendable(Merged(b), k) <==> k in ClassOf(b, kind) && !Reserved(ToLower(k))
    ensures Sendable(Merged(b), k) ==> Lower(k) && Merged(b)[k] == ClassOf(b, kind)[k]
  {
    if !Reserved(ToLower(k)) {
      CleanIsApart(b, k, kind);
      MergeKeepsClass(b, k, kind);
    }
  }

  /** Only text names are the transport's. */
  lemma BinaryIsNotReserved(b: Bag, k: string)
    requires Clean(b) && k in ClassOf(b, Classify(k)) && Classify(k) != Ascii
    ensures !Reserved(ToLower(k))
  {
    assert FitsAt(k, ClassOf(b, Classify(k))[k], Classify(k));
    if Reserved(ToLower(k)) { ReservedIsText(k); }
  }

  /** What the context sends already is what the headers say, or the transport overrides it. */
  predicate Harmless(b: Bag, w: Wire) {
    forall k :: k in w.outgoing ==> HarmlessAt(b, w, k)
  }

  predicate HarmlessAt(b: Bag, w: Wire, k: string)
    requires k in w.outgoing
  {
    w.outgoing[k] != [] && k !in w.added ==> Says(b, k, w.outgoing[k][0])
  }

  /** The class of `k` holds the data for it, and it is not the transport's. */
  predicate Says(b: Bag, k: string, data: seq<byte>) {
    var fields := ClassOf(b, Classify(k));
    k in fields && !fields[k].Other? && fields[k].data == data && !Reserved(ToLower(k))
  }

  /** What is on the wire under one name. */
  lemma SentAt(b: Bag, w: Wire, order: seq<string>, k: string, kind: Type)
    requires Clean(b) && Visits(order, Merged(b).Keys) && kind == Classify(k)
    ensures var md := AppendEach(w.outgoing, order, Merged(b));
            var sent := k in ClassOf(b, kind) && !Reserved(ToLower(k));
            && (k in md <==> k in w.outgoing || sent)
            && (sent ==> !ClassOf(b, kind)[k].Other?)
            && (k in md ==> md[k] == Already(w.outgoing, k) + if sent then [ClassOf(b, kind)[k].data] else [])
  {
    forall q ensures Sendable(Merged(b), q) ==> Lower(q) { MergeKeepsClasses(b, q, Classify(q)); }
    MergeKeepsClasses(b, k, kind);
    OnTheWire(w.outgoing, order, Merged(b), k);
  }

  /** The first value for a name decides: the transport's, else what was outgoing, else the header. */
  lemma FirstValue(w: Wire, md: Metadata, k: string, sent: bool, data: seq<byte>)
    requires TransportsOwn(w.added)
    requires k in md <==> k in w.outgoing || sent
    requires k in md ==> md[k] == Already(w.outgoing, k) + if sent then [data] else []
    requires k in w.outgoing && w.outgoing[k] != [] && k !in w.added ==> sent && w.outgoing[k][0] == data
    ensures var all := md + w.added;
            && (k in all && all[k] != [] <==> k in w.added || sent)
            && (k in w.added ==> all[k] == w.added[k])
            && (k in all && all[k] != [] && k !in w.added ==> all[k][0] == data)
  {
  }

  lemma HarmlessGives(b: Bag, w: Wire, k: string)
    requires Harmless(b, w) && k in w.outgoing && w.outgoing[k] != [] && k !in w.added
    ensures Says(b, k, w.outgoing[k][0])
  {
    assert HarmlessAt(b, w, k);
  }

  /** What the next service reads under one name. */
  lemma ArrivesAt(b: Bag, w: Wire, order: seq<string>, k: string, kind: Type)
    requires Clean(b) && Harmless(b, w) && ProperWire(w) && Visits(order, Merged(b).Keys) && kind == Classify(k)
    ensures var md := Arrival(Merged(b), w, order);
            && (k in md && md[k] != [] <==> k in w.added || (k in ClassOf(b, kind) && !Reserved(ToLower(k))))
            && (k in w.added ==> md[k] == w.added[k] && kind == Ascii)
            && (k in md && md[k] != [] && k !in w.added ==>
                  !ClassOf(b, kind)[k].Other? && md[k][0] == ClassOf(b, kind)[k].data)
  {
    SentAt(b, w, order, k, kind);
    var sent := k in ClassOf(b, kind) && !Reserved(ToLower(k));
    if k in w.outgoing && w.outgoing[k] != [] && k !in w.added { HarmlessGives(b, w, k); }
    FirstValue(w, AppendEach(w.outgoing, order, Merged(b)), k, sent, if sent then ClassOf(b, kind)[k].data else []);
    if k in w.added { ReservedIsText(k); }
  }

  lemma ClassArrives(b: Bag, w: Wire, order: seq<string>, kind: Type, sent: Fields, got: Fields)
    requires Clean(b) && Harmless(b, w) && ProperWire(w) && Visits(order, Merged(b).Keys)
    requires (kind == Root && sent == b.root) || (kind == Propagating && sent == b.propagating) ||
             (kind == Inbound && sent == b.outbound)
    requires IsReceived(got, Arrival(Merged(b), w, order), kind)
    ensures got == sent
  {
    forall k ensures k in got <==> k in sent
             ensures k in got ==> got[k] == sent[k]
    {
      ArrivesAt(b, w, order, k, Classify(k));
      assert k in got <==> Carries(Arrival(Merged(b), w, order), k, kind);
      if k in sent { assert FitsAt(k, sent[k], kind); }
      if Classify(k) == kind && k in sent { BinaryIsNotReserved(b, k); }
    }
  }

  lemma TextArrives(b: Bag, w: Wire, order: seq<string>, got: Fields)
    requires Clean(b) && Harmless(b, w) && ProperWire(w) && Visits(order, Merged(b).Keys)
    requires IsReceived(got, Arrival(Merged(b), w, order), Ascii)
    ensures TextDelivered(b.ascii, w.added, got)
  {
    forall k ensures k in got <==> (k in b.ascii && !Reserved(ToLower(k))) || k in w.added
             ensures k in got ==> got[k] == if k in w.added then Text(w.added[k][0]) else b.ascii[k]
    {
      ArrivesAt(b, w, order, k, Classify(k));
      assert k in got <==> Carries(Arrival(Merged(b), w, order), k, Ascii);
      if k in b.ascii && !Reserved(ToLower(k)) { assert FitsAt(k, b.ascii[k], Ascii); }
    }
  }

  lemma CleanDelivers(b: Bag, w: Wire, order: seq<string>, c: Bag)
    requires ProperWire(w) && HopInOrder(b, w, order, c) && Clean(b) && Harmless(b, w)
    ensures Delivers(b, w.added, c)
  {
    ClassArrives(b, w, order, Root, b.root, c.root);
    ClassArrives(b, w, order, Propagating, b.propagating, c.propagating);
    ClassArrives(b, w, order, Inbound, b.outbound, c.inbound);
    TextArrives(b, w, order, c.ascii);
  }

  /** A name that arrived is lower case, and only text names can be the transport's. */
  lemma ArrivedFits(b: Bag, w: Wire, order: seq<string>, kind: Type, got: Fields, k: string)
    requires ProperWire(w) && IsReceived(got, Arrival(Merged(b), w, order), kind)
    requires k in got
    ensures FitsAt(k, got[k], kind)
  {
    assert Carries(Arrival(Merged(b), w, order), k, kind);
    WireIsLower(w.outgoing, order, Merged(b), k);
    if k in w.added { ReservedIsText(k); }
  }

  /** What was outgoing already arrives in the class of its name. */
  lemma OutgoingArrives(b: Bag, w: Wire, order: seq<string>, kind: Type, got: Fields, k: string)
    requires IsReceived(got, Arrival(Merged(b), w, order), kind) && kind == Classify(k)
    requires k in w.outgoing && w.outgoing[k] != [] && k !in w.added
    ensures k in got && got[k] == ValueOf(w.outgoing[k][0], kind)
  {
    OutgoingComesFirst(w.outgoing, order, Merged(b), k);
    assert Carries(Arrival(Merged(b), w, order), k, kind);
  }

  lemma OutgoingIsSaid(b: Bag, w: Wire, order: seq<string>, c: Bag, k: string, kind: Type)
    requires ProperWire(w) && HopInOrder(b, w, order, c) && Delivers(b, w.added, c)
    requires k in w.outgoing && w.outgoing[k] != [] && k !in w.added && kind == Classify(k)
    ensures Says(b, k, w.outgoing[k][0])
  {
    if Reserved(k) { ReservedIsText(k); }
    match kind
    case Root => OutgoingArrives(b, w, order, kind, c.root, k);
    case Propagating => OutgoingArrives(b, w, order, kind, c.propagating, k);
    case Inbound => OutgoingArrives(b, w, order, kind, c.inbound, k);
    case _ => OutgoingArrives(b, w, order, kind, c.ascii, k);
  }

  lemma DeliversIsHarmless(b: Bag, w: Wire, order: seq<string>, c: Bag)
    requires ProperWire(w) && HopInOrder(b, w, order, c) && Delivers(b, w.added, c)
    ensures Harmless(b, w)
  {
    forall k | k in w.outgoing ensures HarmlessAt(b, w, k) {
      if w.outgoing[k] != [] && k !in w.added { OutgoingIsSaid(b, w, order, c, k, Classify(k)); }
    }
  }

  lemma DeliversIsClean(b: Bag, w: Wire, order: seq<string>, c: Bag)
    requires ProperWire(w) && HopInOrder(b, w, order, c) && Delivers(b, w.added, c)
    ensures Clean(b)
  {
    forall k | k in b.root ensures FitsAt(k, b.root[k], Root) {
      ArrivedFits(b, w, order, Root, c.root, k);
    }
    forall k | k in b.propagating ensures FitsAt(k, b.propagating[k], Propagating) {
      ArrivedFits(b, w, order, Propagating, c.propagating, k);
    }
    forall k | k in b.outbound ensures FitsAt(k, b.outbound[k], Inbound) {
      ArrivedFits(b, w, order, Inbound, c.inbound, k);
    }
    forall k | k in b.ascii && !Reserved(ToLower(k)) ensures FitsAt(k, b.ascii[k], Ascii) {
      ArrivedFits(b, w, order, Ascii, c.ascii, k);
      if k in w.added { ReservedIsText(k); }
    }
  }

  /**
   A call delivers every class intact, whatever order the merged map is visited in, if and only if
   the names are clean and what the context sends already says nothing else. Clean means lower
   case, `root-` and `prop-` for those two classes, `-bin` for outbound and neither for text, with
   bytes and text where they belong.
   */
  lemma HopDeliversExactly(b: Bag, w: Wire, order: seq<string>, c: Bag)
    requires ProperWire(w) && HopInOrder(b, w, order, c)
    ensures Delivers(b, w.added, c) <==> Clean(b) && Harmless(b, w)
  {
    if Clean(b) && Harmless(b, w) { CleanDelivers(b, w, order, c); }
    if Delivers(b, w.added, c) {
      DeliversIsClean(b, w, order, c);
      DeliversIsHarmless(b, w, order, c);
    }
  }
}
