/**
 Header propagation: what a service keeps in its context, what the client interceptor puts on the
 wire and how the server interceptor sorts it again.
 */
module Headers {
  import opened Common

  // ---------- names

  const ROOT_PREFIX := "root-"
  const PROP_PREFIX := "prop-"
  const BIN_SUFFIX := "-bin"

  /** Names the transport writes itself; `setAllHeaders` never sends them. */
  predicate Reserved(k: string) {
    k == "content-type" || k == "user-agent" || k == ":authority"
  }

  datatype Type = Outbound | Inbound | Root | Propagating | Ascii

  function Prefix(kind: Type): string {
    match kind
    case Root => ROOT_PREFIX
    case Propagating => PROP_PREFIX
    case _ => ""
  }

  function LowerChar(c: char): char {
    if 'A' <= c <= 'Z' then c - 'A' + 'a' else c
  }

  function ToLower(s: string): (r: string)
    ensures |r| == |s| && forall i :: 0 <= i < |s| ==> r[i] == LowerChar(s[i])
  {
    if s == [] then [] else [LowerChar(s[0])] + ToLower(s[1..])
  }

  predicate HasPrefix(s: string, prefix: string) {
    |prefix| <= |s| && s[..|prefix|] == prefix
  }

  predicate HasSuffix(s: string, suffix: string) {
    |suffix| <= |s| && s[|s| - |suffix|..] == suffix
  }

  function PrefixedName(name: string, kind: Type): string {
    ToLower(Prefix(kind) + name)
  }

  // ---------- values, metadata and contexts

  /** A header value is bytes or text; anything else a caller stores is not sent. */
  datatype Value = Binary(data: seq<byte>) | Text(data: seq<byte>) | Other

  type Fields = map<string, Value>

  type Metadata = map<string, seq<seq<byte>>>

  /** The headers of one context, by class. */
  datatype Bag = Bag(root: Fields, propagating: Fields, inbound: Fields, outbound: Fields, ascii: Fields)

  /** `now` is `mine` overlaid with those of `theirs` that are not in `rest`. */
  predicate Overlaid(now: Fields, mine: Fields, theirs: Fields, rest: set<string>) {
    && now.Keys == mine.Keys + (theirs.Keys - rest)
    && (forall k :: k in now ==> now[k] == if k in theirs && k !in rest then theirs[k] else mine[k])
  }

  lemma OverlayMore(now: Fields, mine: Fields, theirs: Fields, rest: set<string>, k: string)
    requires Overlaid(now, mine, theirs, rest) && k in rest && k in theirs
    ensures Overlaid(now[k := theirs[k]], mine, theirs, rest - {k})
  {
  }

  lemma OverlaidAll(now: Fields, mine: Fields, theirs: Fields)
    requires Overlaid(now, mine, theirs, {})
    ensures now == mine + theirs
  {
  }

  class HeaderMap {
    var entries: Fields

    constructor ()
      ensures entries == map[]
    {
      entries := map[];
    }

    constructor Of(initial: Fields)
      ensures entries == initial
    {
      entries := initial;
    }

    /** The other map's entries are added, and win. */
    method Merge(other: HeaderMap)
      modifies this`entries
      ensures entries == old(entries + other.entries)
    {
      ghost var mine := entries;
      var theirs := other.entries;
      var rest := theirs.Keys;
      while rest != {}
        invariant rest <= theirs.Keys && Overlaid(entries, mine, theirs, rest)
        decreases |rest|
      {
        var k :| k in rest;
        OverlayMore(entries, mine, theirs, rest, k);
        entries := entries[k := theirs[k]];
        rest := rest - {k};
      }
      OverlaidAll(entries, mine, theirs);
    }
  }

  /** A context refers to its header maps; a class that was never initialised is `None`. */
  datatype Context = Context(
    root: Option<HeaderMap>, propagating: Option<HeaderMap>, inbound: Option<HeaderMap>,
    outbound: Option<HeaderMap>, ascii: Option<HeaderMap>,
    incoming: Option<Metadata>, outgoing: Metadata)

  function Select(ctx: Context, kind: Type): Option<HeaderMap> {
    match kind
    case Propagating => ctx.propagating
    case Root => ctx.root
    case Outbound => ctx.outbound
    case Ascii => ctx.ascii
    case Inbound => ctx.inbound
  }

  function Object(o: Option<HeaderMap>): set<object> {
    if o.Some? then {o.value} else {}
  }

  function Objects(ctx: Context): set<object> {
    Object(ctx.root) + Object(ctx.propagating) + Object(ctx.inbound) + Object(ctx.outbound) + Object(ctx.ascii)
  }

  function Entries(o: Option<HeaderMap>): Fields
    reads Object(o)
  {
    if o.Some? then o.value.entries else map[]
  }

  function View(ctx: Context): Bag
    reads Objects(ctx)
  {
    Bag(Entries(ctx.root), Entries(ctx.propagating), Entries(ctx.inbound), Entries(ctx.outbound), Entries(ctx.ascii))
  }

  // ---------- setting

  datatype SetError = NotInitialised | MarshalFailed

  /** `marshalled` is what encoding the message gave; a failure still leaves an empty value behind. */
  method SetHeader(ctx: Context, marshalled: Option<seq<byte>>, name: string, kind: Type)
    returns (r: Result<(), SetError>)
    modifies Object(Select(ctx, kind))
    ensures r.Ok? <==> Select(ctx, kind).Some? && marshalled.Some?
    ensures r == Err(NotInitialised) <==> Select(ctx, kind) == None
    ensures Select(ctx, kind).Some? ==>
              Entries(Select(ctx, kind)) == old(Entries(Select(ctx, kind)))[
                PrefixedName(name, kind) := Binary(if marshalled.Some? then marshalled.value else [])]
  {
    var selected := Select(ctx, kind);
    if selected == None { return Err(NotInitialised); }
    var header := selected.value;
    if marshalled == None {
      header.entries := header.entries[PrefixedName(name, kind) := Binary([])];
      return Err(MarshalFailed);
    }
    header.entries := header.entries[PrefixedName(name, kind) := Binary(marshalled.value)];
    return Ok(());
  }

  method SetAsciiHeader(ctx: Context, name: string, data: seq<byte>) returns (r: Result<(), SetError>)
    modifies Object(ctx.ascii)
    ensures r == if ctx.ascii.Some? then Ok(()) else Err(NotInitialised)
    ensures ctx.ascii.Some? ==> Entries(ctx.ascii) == old(Entries(ctx.ascii))[ToLower(name) := Text(data)]
  {
    if ctx.ascii == None { return Err(NotInitialised); }
    var header := ctx.ascii.value;
    header.entries := header.entries[ToLower(name) := Text(data)];
    return Ok(());
  }

  // ---------- sending

  /** Everything but the inbound class, later classes winning. */
  function Merged(b: Bag): Fields {
    b.root + b.propagating + b.outbound + b.ascii
  }

  predicate Sendable(all: Fields, k: string) {
    k in all && !Reserved(ToLower(k)) && !all[k].Other?
  }

  /** The metadata package folds names to lower case and keeps every value given for a name. */
  function Append(md: Metadata, k: string, data: seq<byte>): Metadata {
    md[ToLower(k) := (if ToLower(k) in md then md[ToLower(k)] else []) + [data]]
  }

  function AppendEach(md: Metadata, order: seq<string>, all: Fields): Metadata {
    if order == [] then md
    else
      var n := |order| - 1;
      var before := AppendEach(md, order[..n], all);
      if Sendable(all, order[n]) then Append(before, order[n], all[order[n]].data) else before
  }

  /** Any order in which a loop over a map may visit it. */
  predicate Visits(order: seq<string>, keys: set<string>) {
    && (forall i :: 0 <= i < |order| ==> order[i] in keys)
    && (forall k :: k in keys ==> k in order)
    && (forall i, j :: 0 <= i < j < |order| ==> order[i] != order[j])
  }

  method MergeIfPresent(all: HeaderMap, class_: Option<HeaderMap>)
    requires class_.Some? ==> class_.value != all
    modifies all`entries
    ensures all.entries == old(all.entries) + Entries(class_)
  {
    if class_.Some? { all.Merge(class_.value); }
  }

  method MergeAll(ctx: Context) returns (all: HeaderMap)
    ensures fresh(all) && all.entries == Merged(View(ctx))
  {
    all := new HeaderMap();
    MergeIfPresent(all, ctx.root);
    assert all.entries == Entries(ctx.root);
    MergeIfPresent(all, ctx.propagating);
    MergeIfPresent(all, ctx.outbound);
    MergeIfPresent(all, ctx.ascii);
  }

  method AppendOne(md: Metadata, all: Fields, k: string) returns (r: Metadata)
    requires k in all
    ensures r == if Sendable(all, k) then Append(md, k, all[k].data) else md
  {
    if Reserved(ToLower(k)) { return md; }
    if all[k].Binary? {
      r := Append(md, k, all[k].data);
    } else if all[k].Text? {
      r := Append(md, k, all[k].data);
    } else {
      r := md;
    }
  }

  lemma VisitsMore(order: seq<string>, keys: set<string>, k: string)
    requires Visits(order, keys) && k !in keys
    ensures Visits(order + [k], keys + {k})
  {
  }

  lemma AppendEachMore(md: Metadata, order: seq<string>, all: Fields, k: string)
    ensures AppendEach(md, order + [k], all) ==
            var before := AppendEach(md, order, all);
            if Sendable(all, k) then Append(before, k, all[k].data) else before
  {
    assert (order + [k])[..|order|] == order;
  }

  /** The metadata after the names of `order` have been visited, `rest` being left. */
  predicate Emitted(md: Metadata, all: Fields, order: seq<string>, rest: set<string>, r: Metadata) {
    rest <= all.Keys && Visits(order, all.Keys - rest) && r == AppendEach(md, order, all)
  }

  lemma EmitMore(md: Metadata, all: Fields, order: seq<string>, rest: set<string>, r: Metadata, k: string)
    requires Emitted(md, all, order, rest, r) && k in rest
    ensures Emitted(md, all, order + [k], rest - {k}, if Sendable(all, k) then Append(r, k, all[k].data) else r)
  {
    VisitsMore(order, all.Keys - rest, k);
    assert all.Keys - rest + {k} == all.Keys - (rest - {k});
    AppendEachMore(md, order, all, k);
  }

  /** The outgoing metadata after some visit to the whole map. */
  ghost predicate Appended(md: Metadata, all: Fields, r: Metadata) {
    exists order :: Visits(order, all.Keys) && r == AppendEach(md, order, all)
  }

  method AppendAll(md: Metadata, all: Fields) returns (r: Metadata)
    ensures Appended(md, all, r)
  {
    r := md;
    ghost var order: seq<string> := [];
    var rest := all.Keys;
    while rest != {}
      invariant Emitted(md, all, order, rest, r)
      decreases |rest|
    {
      var k :| k in rest;
      EmitMore(md, all, order, rest, r, k);
      r := AppendOne(r, all, k);
      order, rest := order + [k], rest - {k};
    }
    assert all.Keys - rest == all.Keys;
  }

  /** What the context had going out, then every entry to be sent, in whatever order the map is visited. */
  method SetAllHeaders(ctx: Context) returns (md: Metadata)
    ensures Appended(ctx.outgoing, Merged(View(ctx)), md)
  {
    var all := MergeAll(ctx);
    md := AppendAll(ctx.outgoing, all.entries);
  }

  // ---------- receiving

  /** The class a received name falls into. */
  function Classify(k: string): Type {
    if HasPrefix(k, ROOT_PREFIX) then Root
    else if HasPrefix(k, PROP_PREFIX) then Propagating
    else if HasSuffix(k, BIN_SUFFIX) then Inbound
    else Ascii
  }

  predicate Carries(md: Metadata, k: string, kind: Type) {
    k in md && md[k] != [] && Classify(k) == kind
  }

  function ValueOf(data: seq<byte>, kind: Type): Value {
    if kind == Ascii then Text(data) else Binary(data)
  }

  /** `fields` is what the names of class `kind` bring, and nothing else. */
  ghost predicate IsReceived(fields: Fields, md: Metadata, kind: Type) {
    && (forall k :: k in fields <==> Carries(md, k, kind))
    && (forall k :: k in fields ==> fields[k] == ValueOf(md[k][0], kind))
  }

  ghost predicate IsReceivedBag(b: Bag, md: Metadata) {
    && IsReceived(b.root, md, Root) && IsReceived(b.propagating, md, Propagating)
    && IsReceived(b.inbound, md, Inbound) && IsReceived(b.ascii, md, Ascii)
    && b.outbound == map[]
  }

  /** The same, for the names visited so far. */
  ghost predicate IsPartial(fields: Fields, md: Metadata, rest: set<string>, kind: Type) {
    && (forall k :: k in fields <==> k !in rest && Carries(md, k, kind))
    && (forall k :: k in fields ==> fields[k] == ValueOf(md[k][0], kind))
  }

  lemma PartialMore(fields: Fields, md: Metadata, rest: set<string>, kind: Type, k: string)
    requires IsPartial(fields, md, rest, kind) && k in rest && k in md
    ensures IsPartial(if Carries(md, k, kind) then fields[k := ValueOf(md[k][0], kind)] else fields,
                      md, rest - {k}, kind)
  {
  }

  /** The loop over the metadata, filling one map per class. */
  method SortHeaders(md: Metadata)
    returns (root: Fields, propagating: Fields, incoming: Fields, ascii: Fields)
    ensures IsReceived(root, md, Root) && IsReceived(propagating, md, Propagating)
    ensures IsReceived(incoming, md, Inbound) && IsReceived(ascii, md, Ascii)
  {
    root, propagating, incoming, ascii := map[], map[], map[], map[];
    var rest := md.Keys;
    while rest != {}
      invariant rest <= md.Keys
      invariant IsPartial(root, md, rest, Root) && IsPartial(propagating, md, rest, Propagating)
      invariant IsPartial(incoming, md, rest, Inbound) && IsPartial(ascii, md, rest, Ascii)
      decreases |rest|
    {
      var key :| key in rest;
      PartialMore(root, md, rest, Root, key);
      PartialMore(propagating, md, rest, Propagating, key);
      PartialMore(incoming, md, rest, Inbound, key);
      PartialMore(ascii, md, rest, Ascii, key);
      if |md[key]| < 1 {
      } else if HasPrefix(key, ROOT_PREFIX) {
        root := root[key := Binary(md[key][0])];
      } else if HasPrefix(key, PROP_PREFIX) {
        propagating := propagating[key := Binary(md[key][0])];
      } else if HasSuffix(key, BIN_SUFFIX) {
        incoming := incoming[key := Binary(md[key][0])];
      } else {
        ascii := ascii[key := Text(md[key][0])];
      }
      rest := rest - {key};
    }
  }

  /** No metadata at all reads like empty metadata. */
  function Incoming(ctx: Context): Metadata {
    if ctx.incoming.Some? then ctx.incoming.value else map[]
  }

  /** A fresh context: every class initialised, each received name in the one class it belongs to. */
  method GetAllHeaders(ctx: Context) returns (c: Context)
    ensures c.incoming == ctx.incoming && c.outgoing == ctx.outgoing
    ensures c.root.Some? && c.propagating.Some? && c.inbound.Some? && c.outbound.Some? && c.ascii.Some?
    ensures fresh(Objects(c))
    ensures IsReceivedBag(View(c), Incoming(ctx))
  {
    var root, propagating, incoming, ascii := SortHeaders(Incoming(ctx));
    var r := new HeaderMap.Of(root);
    var p := new HeaderMap.Of(propagating);
    var i := new HeaderMap.Of(incoming);
    var a := new HeaderMap.Of(ascii);
    var o := new HeaderMap();
    c := Context(Some(r), Some(p), Some(i), Some(o), Some(a), ctx.incoming, ctx.outgoing);
  }
}
