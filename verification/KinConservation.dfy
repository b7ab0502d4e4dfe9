/**
 What the regions of an accepted transaction keep: every instruction is accounted for once, in
 order, and every creation is tied to the account it creates.
 */
module KinConservation {
  import opened Common
  import opened Solana
  import opened SystemProgram
  import opened TokenProgram
  import opened MemoProgram
  import opened KinScan
  import opened KinLanguage

  // ---------- concatenating images

  function FlatMap<A, B>(s: seq<A>, f: A -> seq<B>): seq<B> {
    if s == [] then [] else f(s[0]) + FlatMap(s[1..], f)
  }

  lemma Regrouped<T>(a: seq<T>, b: seq<T>, c: seq<T>)
    ensures (a + b) + c == a + (b + c)
  {
  }

  lemma {:induction false} FlatMapConcat<A, B>(s: seq<A>, t: seq<A>, f: A -> seq<B>)
    ensures FlatMap(s + t, f) == FlatMap(s, f) + FlatMap(t, f)
  {
    if s == [] {
      assert s + t == t;
    } else {
      FlatMapConcat(s[1..], t, f);
      assert (s + t)[0] == s[0] && (s + t)[1..] == s[1..] + t;
      Regrouped(f(s[0]), FlatMap(s[1..], f), FlatMap(t, f));
    }
  }

  lemma FlatMapOne<A, B>(x: A, f: A -> seq<B>)
    ensures FlatMap([x], f) == f(x)
  {
    assert FlatMap([x][1..], f) == [];
  }

  lemma FlatMapSnoc<A, B>(s: seq<A>, x: A, f: A -> seq<B>)
    ensures FlatMap(s + [x], f) == FlatMap(s, f) + f(x)
  {
    FlatMapConcat(s, [x], f);
    FlatMapOne(x, f);
  }

  // ---------- instructions, one by one

  datatype Decompiled =
    | Memo(data: seq<byte>)
    | Nonce(nonce: DecompiledAdvanceNonce)
    | Create(create: DecompiledCreateAccount)
    | Initialize(initialize: DecompiledInitializeAccount)
    | Authority(authority: DecompiledSetAuthority)
    | Assoc(assoc: DecompiledCreateAssociatedAccount)
    | Transfer(transfer: DecompiledTransfer)
    | Closure(closure: DecompiledCloseAccount)

  /** Instruction `i` decompiles, under the decompiler of `d`'s kind, to `d`. */
  predicate Reads(m: Message, i: nat, d: Decompiled)
    requires InRange(m)
  {
    match d
    case Memo(data) => DecompileMemo(m, i) == Ok(data)
    case Nonce(nonce) => DecompileAdvanceNonce(m, i) == Ok(nonce)
    case Create(create) => DecompileCreateAccount(m, i) == Ok(create)
    case Initialize(initialize) => DecompileInitializeAccount(m, i) == Ok(initialize)
    case Authority(authority) => DecompileSetAuthority(m, i) == Ok(authority)
    case Assoc(assoc) => DecompileCreateAssociatedAccount(m, i) == Ok(assoc)
    case Transfer(transfer) => DecompileTransfer(m, i) == Ok(transfer)
    case Closure(closure) => DecompileCloseAccount(m, i) == Ok(closure)
  }

  /** The instructions a construct is made of. */
  function Spell(x: Item): (ds: seq<Decompiled>)
    ensures |ds| == Width(x)
  {
    match x
    case MemoItem(data) => [Memo(data)]
    case NonceItem(nonce) => [Nonce(nonce)]
    case CreateItem(create, initialize, close, holder) =>
      [Create(create), Initialize(initialize), Authority(close)]
      + if holder.Some? then [Authority(holder.value)] else []
    case AssocItem(assoc, close) => [Assoc(assoc), Authority(close)]
    case TransferItem(transfer) => [Transfer(transfer)]
    case CloseItem(closure) => [Closure(closure)]
  }

  function SpellAll(xs: seq<Item>): seq<Decompiled> {
    FlatMap(xs, Spell)
  }

  /** The instructions from `i` on read as `ds`, one after the other. */
  predicate ReadsAll(m: Message, i: nat, ds: seq<Decompiled>)
    requires InRange(m)
    decreases |ds|
  {
    if ds == [] then i <= |m.instructions|
    else i < |m.instructions| && Reads(m, i, ds[0]) && ReadsAll(m, i + 1, ds[1..])
  }

  lemma {:induction false} ReadsConcat(m: Message, i: nat, a: seq<Decompiled>, b: seq<Decompiled>)
    requires InRange(m) && i + |a| + |b| <= |m.instructions|
    ensures ReadsAll(m, i, a + b) <==> ReadsAll(m, i, a) && ReadsAll(m, i + |a|, b)
    decreases |a|
  {
    if a == [] {
      assert a + b == b;
    } else {
      assert (a + b)[1..] == a[1..] + b;
      ReadsConcat(m, i + 1, a[1..], b);
    }
  }

  lemma {:induction false} ReadsEach(m: Message, i: nat, ds: seq<Decompiled>)
    requires InRange(m) && i + |ds| <= |m.instructions|
    requires forall k :: 0 <= k < |ds| ==> Reads(m, i + k, ds[k])
    ensures ReadsAll(m, i, ds)
    decreases |ds|
  {
    if ds != [] {
      assert Reads(m, i + 0, ds[0]);
      forall k | 0 <= k < |ds[1..]| ensures Reads(m, i + 1 + k, ds[1..][k]) {
        assert Reads(m, i + (k + 1), ds[k + 1]);
      }
      ReadsEach(m, i + 1, ds[1..]);
    }
  }

  lemma CreateSpelled(m: Message, i: nat, x: Item)
    requires InRange(m) && x.CreateItem? && ItemAt(m, i, x)
    ensures ReadsAll(m, i, Spell(x))
  {
    var ds := Spell(x);
    assert ds[1..][1..][1..] == if x.holder.Some? then [Authority(x.holder.value)] else [];
    assert ReadsAll(m, i + 3, ds[1..][1..][1..]);
    assert ReadsAll(m, i + 2, ds[1..][1..]);
    assert ReadsAll(m, i + 1, ds[1..]);
  }

  lemma ItemSpells(m: Message, i: nat, x: Item)
    requires InRange(m) && ItemAt(m, i, x)
    ensures ReadsAll(m, i, Spell(x))
  {
    var ds := Spell(x);
    if x.CreateItem? {
      CreateSpelled(m, i, x);
    } else {
      assert ReadsAll(m, i + 1, ds[1..]) by { assert x.AssocItem? ==> ReadsAll(m, i + 2, ds[1..][1..]); }
    }
  }

  /** The instructions from `i` to the end are those that `xs` spell. */
  predicate SpellsRest(m: Message, i: nat, xs: seq<Item>)
    requires InRange(m)
  {
    i + |SpellAll(xs)| == |m.instructions| && ReadsAll(m, i, SpellAll(xs))
  }

  /** A derivation spells out every instruction of the transaction, each exactly once and in order. */
  lemma {:induction false} DerivationSpells(m: Message, i: nat, xs: seq<Item>)
    requires InRange(m) && Derives(m, i, xs)
    ensures SpellsRest(m, i, xs)
    decreases |xs|
  {
    if xs != [] {
      DerivationSpells(m, i + Width(xs[0]), xs[1..]);
      ItemSpells(m, i, xs[0]);
      ReadsConcat(m, i, Spell(xs[0]), SpellAll(xs[1..]));
    }
  }

  /** What a construct must satisfy beyond being spelled by its instructions. */
  predicate Proper(subsidizer: Key, x: Item) {
    match x
    case CreateItem(create, initialize, close, holder) =>
      && create.owner == TokenProgram.PROGRAM_KEY
      && create.size == ACCOUNT_SIZE
      && initialize.account == create.address
      && close.authorityType == AUTHORITY_CLOSE_ACCOUNT && close.account == create.address
      && (holder.Some? ==>
            holder.value.authorityType == AUTHORITY_ACCOUNT_HOLDER && holder.value.account == create.address)
    case AssocItem(assoc, close) => close.authorityType == AUTHORITY_CLOSE_ACCOUNT && close.account == assoc.address
    case TransferItem(transfer) => transfer.owner != subsidizer
    case _ => true
  }

  lemma SpelledIsItem(m: Message, i: nat, x: Item)
    requires InRange(m) && |m.accounts| > 0 && ReadsAll(m, i, Spell(x)) && Proper(m.accounts[0], x)
    ensures ItemAt(m, i, x)
  {
    var ds := Spell(x);
    assert Reads(m, i, ds[0]);
    if Width(x) > 1 { assert ReadsAll(m, i + 1, ds[1..]); }
    if Width(x) > 2 { assert ReadsAll(m, i + 2, ds[1..][1..]); }
    if Width(x) > 3 { assert ReadsAll(m, i + 3, ds[1..][1..][1..]); }
  }

  predicate AllProper(subsidizer: Key, xs: seq<Item>) {
    forall k :: 0 <= k < |xs| ==> Proper(subsidizer, xs[k])
  }

  lemma SpellingStep(m: Message, i: nat, xs: seq<Item>)
    requires InRange(m) && |m.accounts| > 0 && xs != []
    requires SpellsRest(m, i, xs) && AllProper(m.accounts[0], xs)
    ensures ItemAt(m, i, xs[0]) && SpellsRest(m, i + Width(xs[0]), xs[1..]) && AllProper(m.accounts[0], xs[1..])
  {
    ReadsConcat(m, i, Spell(xs[0]), SpellAll(xs[1..]));
    SpelledIsItem(m, i, xs[0]);
  }

  /** Conversely, proper constructs that spell the whole transaction are a derivation of it. */
  lemma {:induction false} SpellingDerives(m: Message, i: nat, xs: seq<Item>)
    requires InRange(m) && |m.accounts| > 0 && SpellsRest(m, i, xs) && AllProper(m.accounts[0], xs)
    ensures Derives(m, i, xs)
    decreases |xs|
  {
    if xs != [] {
      SpellingStep(m, i, xs);
      SpellingDerives(m, i + Width(xs[0]), xs[1..]);
    }
  }

  /** No instruction can be read in two ways. */
  lemma ReadsOnce(m: Message, i: nat, d: Decompiled, e: Decompiled)
    requires InRange(m) && Reads(m, i, d) && Reads(m, i, e)
    ensures d == e
  {
    ProgramsDiffer();
  }

  // ---------- one kind of instruction at a time

  function MemoOf(d: Decompiled): seq<seq<byte>> {
    if d.Memo? then [d.data] else []
  }

  function AuthorityOf(d: Decompiled): seq<DecompiledSetAuthority> {
    if d.Authority? then [d.authority] else []
  }

  function TransferOf(d: Decompiled): seq<DecompiledTransfer> {
    if d.Transfer? then [d.transfer] else []
  }

  function ClosureOf(d: Decompiled): seq<DecompiledCloseAccount> {
    if d.Closure? then [d.closure] else []
  }

  // ---------- where the regions keep them

  function OptionList<T>(o: Option<T>): seq<T> {
    if o.Some? then [o.value] else []
  }

  function CreationAuthorities(c: Creation): seq<DecompiledSetAuthority> {
    [c.closeAuthority] + OptionList(c.accountHolder)
  }

  function RegionMemo(r: Region): seq<seq<byte>> {
    [r.memoData]
  }

  function RegionAuthorities(r: Region): seq<DecompiledSetAuthority> {
    FlatMap(r.creations, CreationAuthorities)
  }

  function RegionTransfers(r: Region): seq<DecompiledTransfer> {
    r.transfers
  }

  function RegionClosures(r: Region): seq<DecompiledCloseAccount> {
    r.closures
  }

  // ---------- absorbing a construct adds exactly its instructions of each kind

  /** Region field `g` holds what instruction selector `p` picks, whatever is absorbed. */
  ghost predicate Tracks<T(!new)>(g: Region -> seq<T>, p: Decompiled -> seq<T>) {
    forall rs: seq<Region>, x: Item :: |rs| > 0 ==> FlatMap(Absorb(rs, x), g) == FlatMap(rs, g) + FlatMap(Spell(x), p)
  }

  lemma LastReplaced<T>(rs: seq<Region>, last: Region, g: Region -> seq<T>, more: seq<T>)
    requires |rs| > 0
    requires g(last) == g(rs[|rs| - 1]) + more
    ensures FlatMap(rs[|rs| - 1 := last], g) == FlatMap(rs, g) + more
  {
    var n := |rs| - 1;
    assert rs == rs[..n] + [rs[n]] && rs[n := last] == rs[..n] + [last];
    FlatMapSnoc(rs[..n], rs[n], g);
    FlatMapSnoc(rs[..n], last, g);
  }

  lemma Appended<T>(rs: seq<Region>, last: Region, g: Region -> seq<T>)
    ensures FlatMap(rs + [last], g) == FlatMap(rs, g) + g(last)
  {
    FlatMapSnoc(rs, last, g);
  }

  lemma SpellPicks<T>(x: Item, p: Decompiled -> seq<T>)
    ensures FlatMap(Spell(x), p) ==
            match x
            case MemoItem(data) => p(Memo(data))
            case NonceItem(nonce) => p(Nonce(nonce))
            case CreateItem(create, initialize, close, holder) =>
              var rest := if holder.Some? then p(Authority(holder.value)) else [];
              p(Create(create)) + (p(Initialize(initialize)) + (p(Authority(close)) + rest))
            case AssocItem(assoc, close) => p(Assoc(assoc)) + p(Authority(close))
            case TransferItem(transfer) => p(Transfer(transfer))
            case CloseItem(closure) => p(Closure(closure))
  {
    var ds := Spell(x);
    match x
    case CreateItem(create, initialize, close, holder) =>
      var rest := if holder.Some? then [Authority(holder.value)] else [];
      assert ds[1..] == [Initialize(initialize), Authority(close)] + rest;
      assert ds[1..][1..] == [Authority(close)] + rest;
      assert ds[1..][1..][1..] == rest;
      assert FlatMap(ds[1..], p) == p(Initialize(initialize)) + FlatMap(ds[1..][1..], p);
      assert FlatMap(ds[1..][1..], p) == p(Authority(close)) + FlatMap(rest, p);
      if holder.Some? { FlatMapOne(Authority(holder.value), p); }
    case AssocItem(assoc, close) =>
      assert ds[1..] == [Authority(close)];
      FlatMapOne(Authority(close), p);
    case _ => FlatMapOne(ds[0], p);
  }

  /** The region that absorbs `x`, when `x` is not a memo. */
  function Extended(last: Region, x: Item): Region {
    match x
    case MemoItem(_) => last
    case NonceItem(_) => last
    case CreateItem(_, _, _, _) => last.(creations := last.creations + [CreationOf(x)])
    case AssocItem(_, _) => last.(creations := last.creations + [CreationOf(x)])
    case TransferItem(transfer) => last.(transfers := last.transfers + [transfer])
    case CloseItem(closure) => last.(closures := last.closures + [closure])
  }

  lemma AbsorbIsExtend(rs: seq<Region>, x: Item)
    requires |rs| > 0 && !x.MemoItem?
    ensures Absorb(rs, x) == rs[|rs| - 1 := Extended(rs[|rs| - 1], x)]
  {
  }

  /** To track a kind it is enough to look at one region. */
  lemma TracksByRegion<T(!new)>(g: Region -> seq<T>, p: Decompiled -> seq<T>)
    requires forall last: Region, x: Item :: !x.MemoItem? ==> g(Extended(last, x)) == g(last) + FlatMap(Spell(x), p)
    requires forall data: seq<byte> :: g(EMPTY_REGION.(memoData := data)) == p(Memo(data))
    ensures Tracks(g, p)
  {
    forall rs: seq<Region>, x: Item | |rs| > 0
      ensures FlatMap(Absorb(rs, x), g) == FlatMap(rs, g) + FlatMap(Spell(x), p)
    {
      if x.MemoItem? {
        Appended(rs, EMPTY_REGION.(memoData := x.data), g);
        SpellPicks(x, p);
      } else {
        AbsorbIsExtend(rs, x);
        LastReplaced(rs, Extended(rs[|rs| - 1], x), g, FlatMap(Spell(x), p));
      }
    }
  }

  lemma TracksTransfers()
    ensures Tracks(RegionTransfers, TransferOf)
  {
    forall last: Region, x: Item | !x.MemoItem?
      ensures RegionTransfers(Extended(last, x)) == RegionTransfers(last) + FlatMap(Spell(x), TransferOf)
    {
      SpellPicks(x, TransferOf);
    }
    TracksByRegion(RegionTransfers, TransferOf);
  }

  lemma TracksClosures()
    ensures Tracks(RegionClosures, ClosureOf)
  {
    forall last: Region, x: Item | !x.MemoItem?
      ensures RegionClosures(Extended(last, x)) == RegionClosures(last) + FlatMap(Spell(x), ClosureOf)
    {
      SpellPicks(x, ClosureOf);
    }
    TracksByRegion(RegionClosures, ClosureOf);
  }

  lemma TracksMemos()
    ensures Tracks(RegionMemo, MemoOf)
  {
    forall last: Region, x: Item | !x.MemoItem?
      ensures RegionMemo(Extended(last, x)) == RegionMemo(last) + FlatMap(Spell(x), MemoOf)
    {
      SpellPicks(x, MemoOf);
    }
    TracksByRegion(RegionMemo, MemoOf);
  }

  lemma TracksAuthorities()
    ensures Tracks(RegionAuthorities, AuthorityOf)
  {
    forall last: Region, x: Item | !x.MemoItem?
      ensures RegionAuthorities(Extended(last, x)) == RegionAuthorities(last) + FlatMap(Spell(x), AuthorityOf)
    {
      SpellPicks(x, AuthorityOf);
      if x.CreateItem? || x.AssocItem? { FlatMapSnoc(last.creations, CreationOf(x), CreationAuthorities); }
    }
    TracksByRegion(RegionAuthorities, AuthorityOf);
  }

  lemma TrackedStep<T(!new)>(rs: seq<Region>, x: Item, g: Region -> seq<T>, p: Decompiled -> seq<T>)
    requires |rs| > 0 && Tracks(g, p)
    ensures FlatMap(Absorb(rs, x), g) == FlatMap(rs, g) + FlatMap(Spell(x), p)
  {
  }

  /** A tracked kind is conserved over a whole derivation: same instructions, same order. */
  lemma {:induction false} Conserved<T(!new)>(rs: seq<Region>, xs: seq<Item>,
                                              g: Region -> seq<T>, p: Decompiled -> seq<T>)
    requires |rs| > 0 && Tracks(g, p)
    ensures FlatMap(AbsorbAll(rs, xs), g) == FlatMap(rs, g) + FlatMap(SpellAll(xs), p)
    decreases |xs|
  {
    if xs != [] {
      Conserved(Absorb(rs, xs[0]), xs[1..], g, p);
      TrackedStep(rs, xs[0], g, p);
      FlatMapConcat(Spell(xs[0]), SpellAll(xs[1..]), p);
      Regrouped(FlatMap(rs, g), FlatMap(Spell(xs[0]), p), FlatMap(SpellAll(xs[1..]), p));
    }
  }

  // ---------- conservation over an accepted transaction

  /** What `at` finds in each instruction from `i` on, without parsing the transaction. */
  function Collected<T>(m: Message, i: nat, at: (Message, nat) -> seq<T>): seq<T>
    decreases |m.instructions| - i
  {
    if i >= |m.instructions| then [] else at(m, i) + Collected(m, i + 1, at)
  }

  function FindMemo(m: Message, i: nat): seq<seq<byte>> {
    if InRange(m) && DecompileMemo(m, i).Ok? then [DecompileMemo(m, i).value] else []
  }

  function FindTransfer(m: Message, i: nat): seq<DecompiledTransfer> {
    if InRange(m) && DecompileTransfer(m, i).Ok? then [DecompileTransfer(m, i).value] else []
  }

  function FindAuthority(m: Message, i: nat): seq<DecompiledSetAuthority> {
    if InRange(m) && DecompileSetAuthority(m, i).Ok? then [DecompileSetAuthority(m, i).value] else []
  }

  function FindClosure(m: Message, i: nat): seq<DecompiledCloseAccount> {
    if InRange(m) && DecompileCloseAccount(m, i).Ok? then [DecompileCloseAccount(m, i).value] else []
  }

  /** A finder and a selector agree on every instruction that can be read. */
  ghost predicate Agree<T(!new)>(m: Message, at: (Message, nat) -> seq<T>, p: Decompiled -> seq<T>)
    requires InRange(m)
  {
    forall i: nat, d: Decompiled :: Reads(m, i, d) ==> at(m, i) == p(d)
  }

  lemma FindersAgree(m: Message)
    requires InRange(m)
    ensures Agree(m, FindMemo, MemoOf) && Agree(m, FindTransfer, TransferOf)
    ensures Agree(m, FindAuthority, AuthorityOf) && Agree(m, FindClosure, ClosureOf)
  {
    forall i: nat, d: Decompiled | Reads(m, i, d)
      ensures FindMemo(m, i) == MemoOf(d) && FindTransfer(m, i) == TransferOf(d)
      ensures FindAuthority(m, i) == AuthorityOf(d) && FindClosure(m, i) == ClosureOf(d)
    {
      FindersAgreeAt(m, i, d);
    }
  }

  lemma FindersAgreeAt(m: Message, i: nat, d: Decompiled)
    requires InRange(m) && Reads(m, i, d)
    ensures FindMemo(m, i) == MemoOf(d) && FindTransfer(m, i) == TransferOf(d)
    ensures FindAuthority(m, i) == AuthorityOf(d) && FindClosure(m, i) == ClosureOf(d)
  {
    if DecompileMemo(m, i).Ok? { ReadsOnce(m, i, d, Memo(DecompileMemo(m, i).value)); }
    if DecompileTransfer(m, i).Ok? { ReadsOnce(m, i, d, Transfer(DecompileTransfer(m, i).value)); }
    if DecompileSetAuthority(m, i).Ok? { ReadsOnce(m, i, d, Authority(DecompileSetAuthority(m, i).value)); }
    if DecompileCloseAccount(m, i).Ok? { ReadsOnce(m, i, d, Closure(DecompileCloseAccount(m, i).value)); }
  }

  lemma {:induction false} CollectedIsPicked<T(!new)>(m: Message, i: nat, ds: seq<Decompiled>,
                                                      at: (Message, nat) -> seq<T>, p: Decompiled -> seq<T>)
    requires InRange(m) && i + |ds| == |m.instructions| && ReadsAll(m, i, ds) && Agree(m, at, p)
    ensures Collected(m, i, at) == FlatMap(ds, p)
    decreases |ds|
  {
    if ds != [] {
      assert Reads(m, i, ds[0]);
      CollectedIsPicked(m, i + 1, ds[1..], at, p);
    }
  }

  /**
   In an accepted transaction the regions' transfers, taken in order, are exactly its transfer
   instructions in order, and so are its closures. Its changes of authority are exactly those of
   the creations: none stands alone. Each memo opens the region that carries it.
   */
  lemma ContentsConserved(m: Message, xs: seq<Item>)
    requires InRange(m) && Derives(m, 0, xs)
    ensures FlatMap(RegionsOf(xs), RegionTransfers) == Collected(m, 0, FindTransfer)
    ensures FlatMap(RegionsOf(xs), RegionClosures) == Collected(m, 0, FindClosure)
    ensures FlatMap(RegionsOf(xs), RegionAuthorities) == Collected(m, 0, FindAuthority)
    ensures FlatMap(RegionsOf(xs), RegionMemo) == [[]] + Collected(m, 0, FindMemo)
    ensures |RegionsOf(xs)| == 1 + |Collected(m, 0, FindMemo)|
  {
    var ds := SpellAll(xs);
    DerivationSpells(m, 0, xs);
    FindersAgree(m);
    EmptyRegions();
    TracksTransfers();
    Conserved([EMPTY_REGION], xs, RegionTransfers, TransferOf);
    CollectedIsPicked(m, 0, ds, FindTransfer, TransferOf);
    TracksClosures();
    Conserved([EMPTY_REGION], xs, RegionClosures, ClosureOf);
    CollectedIsPicked(m, 0, ds, FindClosure, ClosureOf);
    TracksAuthorities();
    Conserved([EMPTY_REGION], xs, RegionAuthorities, AuthorityOf);
    CollectedIsPicked(m, 0, ds, FindAuthority, AuthorityOf);
    TracksMemos();
    Conserved([EMPTY_REGION], xs, RegionMemo, MemoOf);
    CollectedIsPicked(m, 0, ds, FindMemo, MemoOf);
    OneMemoEach(RegionsOf(xs));
  }

  lemma EmptyRegions()
    ensures FlatMap([EMPTY_REGION], RegionTransfers) == [] && FlatMap([EMPTY_REGION], RegionClosures) == []
    ensures FlatMap([EMPTY_REGION], RegionAuthorities) == [] && FlatMap([EMPTY_REGION], RegionMemo) == [[]]
  {
    FlatMapOne(EMPTY_REGION, RegionTransfers);
    FlatMapOne(EMPTY_REGION, RegionClosures);
    FlatMapOne(EMPTY_REGION, RegionAuthorities);
    FlatMapOne(EMPTY_REGION, RegionMemo);
  }

  lemma {:induction false} OneMemoEach(rs: seq<Region>)
    ensures |FlatMap(rs, RegionMemo)| == |rs|
  {
    if rs != [] { OneMemoEach(rs[1..]); }
  }

  // ---------- instructions add up

  /** Two instructions for an associated account; three for a created one, four with an account holder. */
  function CreationSize(c: Creation): nat {
    if c.createAssoc.Some? then 2 else if c.accountHolder.Some? then 4 else 3
  }

  function CreationsSize(cs: seq<Creation>): nat {
    if cs == [] then 0 else CreationsSize(cs[..|cs| - 1]) + CreationSize(cs[|cs| - 1])
  }

  /** The instructions a region stands for, its memo aside. */
  function RegionSize(r: Region): nat {
    CreationsSize(r.creations) + |r.transfers| + |r.closures|
  }

  function RegionsSize(rs: seq<Region>): nat {
    if rs == [] then 0 else RegionsSize(rs[..|rs| - 1]) + RegionSize(rs[|rs| - 1])
  }

  lemma SizeOfMore(rs: seq<Region>, r: Region)
    ensures RegionsSize(rs + [r]) == RegionsSize(rs) + RegionSize(r)
  {
    assert (rs + [r])[..|rs|] == rs;
  }

  lemma SizeOfLast(rs: seq<Region>, last: Region)
    requires |rs| > 0
    ensures RegionsSize(rs[|rs| - 1 := last]) + RegionSize(rs[|rs| - 1]) == RegionsSize(rs) + RegionSize(last)
  {
    assert rs[|rs| - 1 := last][..|rs| - 1] == rs[..|rs| - 1];
  }

  /** Instructions that show up neither as a region nor inside one: a nonce. */
  function Unplaced(x: Item): nat {
    if x.NonceItem? then 1 else 0
  }

  /** A memo adds a region, a nonce nothing, and every other construct as many instructions as it is wide. */
  lemma AbsorbAddsUp(rs: seq<Region>, x: Item)
    requires |rs| > 0
    ensures RegionsSize(Absorb(rs, x)) + |Absorb(rs, x)| + Unplaced(x) == RegionsSize(rs) + |rs| + Width(x)
  {
    if x.MemoItem? {
      SizeOfMore(rs, EMPTY_REGION.(memoData := x.data));
    } else {
      var n := |rs| - 1;
      AbsorbIsExtend(rs, x);
      SizeOfLast(rs, Extended(rs[n], x));
      ExtendAddsUp(rs[n], x);
    }
  }

  lemma ExtendAddsUp(last: Region, x: Item)
    requires !x.MemoItem?
    ensures RegionSize(Extended(last, x)) == RegionSize(last) + if x.NonceItem? then 0 else Width(x)
  {
    if x.CreateItem? || x.AssocItem? {
      var cs := last.creations + [CreationOf(x)];
      assert cs[..|cs| - 1] == last.creations;
    }
  }

  lemma {:induction false} AbsorbAllAddsUp(m: Message, i: nat, rs: seq<Region>, xs: seq<Item>)
    requires InRange(m) && Derives(m, i, xs) && |rs| > 0
    ensures var out := AbsorbAll(rs, xs);
            RegionsSize(out) + |out| + |Nonces(xs)| == RegionsSize(rs) + |rs| + |m.instructions| - i
    decreases |xs|
  {
    if xs != [] {
      AbsorbAddsUp(rs, xs[0]);
      AbsorbAllAddsUp(m, i + Width(xs[0]), Absorb(rs, xs[0]), xs[1..]);
    }
  }

  /**
   Nothing is dropped and nothing invented: an accepted transaction has one instruction for each
   memo, nonce, transfer and closure, two for each associated account, and three or four for each
   created one.
   */
  lemma InstructionsConserved(m: Message, xs: seq<Item>)
    requires InRange(m) && Derives(m, 0, xs)
    ensures |m.instructions| == |Collected(m, 0, FindMemo)| + |Nonces(xs)| + RegionsSize(RegionsOf(xs))
  {
    ContentsConserved(m, xs);
    AbsorbAllAddsUp(m, 0, [EMPTY_REGION], xs);
    assert [EMPTY_REGION][..0] == [];
  }

  // ---------- what an accepted transaction guarantees

  /** A creation is tied to its account: the right kind of instruction, on the created address. */
  predicate SoundCreation(c: Creation) {
    && (c.create.Some? <==> c.createAssoc.None?)
    && (c.create.Some? <==> c.initialize.Some?)
    && c.closeAuthority.authorityType == AUTHORITY_CLOSE_ACCOUNT
    && (c.create.Some? ==>
          && c.create.value.owner == TokenProgram.PROGRAM_KEY
          && c.create.value.size == ACCOUNT_SIZE
          && c.initialize.value.account == c.create.value.address
          && c.closeAuthority.account == c.create.value.address)
    && (c.createAssoc.Some? ==> c.closeAuthority.account == c.createAssoc.value.address && c.accountHolder.None?)
    && (c.accountHolder.Some? ==>
          && c.create.Some?
          && c.accountHolder.value.authorityType == AUTHORITY_ACCOUNT_HOLDER
          && c.accountHolder.value.account == c.create.value.address)
  }

  predicate SoundRegion(subsidizer: Key, r: Region) {
    && (forall k :: 0 <= k < |r.creations| ==> SoundCreation(r.creations[k]))
    && (forall k :: 0 <= k < |r.transfers| ==> r.transfers[k].owner != subsidizer)
  }

  predicate SoundRegions(subsidizer: Key, rs: seq<Region>) {
    forall k :: 0 <= k < |rs| ==> SoundRegion(subsidizer, rs[k])
  }

  lemma AbsorbKeepsSound(m: Message, i: nat, rs: seq<Region>, x: Item)
    requires InRange(m) && ItemAt(m, i, x) && |rs| > 0
    requires SoundRegions(m.accounts[0], rs)
    ensures SoundRegions(m.accounts[0], Absorb(rs, x))
  {
    if !x.MemoItem? {
      var n := |rs| - 1;
      AbsorbIsExtend(rs, x);
      var last := Extended(rs[n], x);
      assert SoundRegion(m.accounts[0], rs[n]);
      if x.CreateItem? || x.AssocItem? { assert SoundCreation(CreationOf(x)); }
      assert SoundRegion(m.accounts[0], last);
    }
  }

  /** Every region of an accepted transaction is sound. */
  lemma {:induction false} DerivedAreSound(m: Message, i: nat, rs: seq<Region>, xs: seq<Item>)
    requires InRange(m) && |m.accounts| > 0 && Derives(m, i, xs) && |rs| > 0
    requires SoundRegions(m.accounts[0], rs)
    ensures SoundRegions(m.accounts[0], AbsorbAll(rs, xs))
    decreases |xs|
  {
    if xs != [] {
      AbsorbKeepsSound(m, i, rs, xs[0]);
      DerivedAreSound(m, i + Width(xs[0]), Absorb(rs, xs[0]), xs[1..]);
    }
  }
}
