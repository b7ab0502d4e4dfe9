/**
 `ParseTransaction` of `kin/transaction.go`, both passes together, and its relation to the
 transactions that the constructors build.
 */
module KinTransaction {
  import opened Common
  import opened Solana
  import opened Encoding
  import opened Compiler
  import opened Compilation
  import opened SystemProgram
  import opened TokenProgram
  import opened KinMemo
  import opened KinScan
  import opened KinLanguage
  import opened KinConservation
  import opened KinValidation
  import opened KinRules
  import Pipeline

  datatype Tx = Tx(appIndex: bv16, appId: seq<byte>, advanceNonce: Option<DecompiledAdvanceNonce>, regions: seq<Region>)

  function ParseOf(env: Env, t: Transaction, il: Option<InvoiceList>): Result<Tx, ParseError>
    requires InRange(t.message)
  {
    if |t.message.instructions| == 0 then Err(NoInstructions)
    else if |t.signatures| == 0 then Err(NoSignatures)
    else
      match ScanFrom(t.message, 0, [EMPTY_REGION], None)
      case Err(e) => Err(e)
      case Ok(scanned) =>
        match ValidationOf(env, il, scanned.regions)
        case Err(e) => Err(e)
        case Ok(v) => Ok(Tx(v.appIndex, v.appId, scanned.nonce, v.regions))
  }

  /** `ParseTransaction`. Indices must be in range, as they are in everything `Unmarshal` accepts. */
  method ParseTransaction(env: Env, t: Transaction, il: Option<InvoiceList>) returns (r: Result<Tx, ParseError>)
    requires InRange(t.message)
    ensures r == ParseOf(env, t, il)
  {
    if |t.message.instructions| == 0 {
      return Err(NoInstructions);
    }
    if |t.signatures| == 0 {
      return Err(NoSignatures);
    }
    var scanned := Scan(t.message);
    if scanned.Err? {
      return Err(scanned.error);
    }
    var v := Validate(env, il, scanned.value.regions);
    if v.Err? {
      return Err(v.error);
    }
    return Ok(Tx(v.value.appIndex, v.value.appId, scanned.value.nonce, v.value.regions));
  }

  /** `xs` is the derivation of a transaction the parser must accept. */
  predicate Acceptable(env: Env, t: Transaction, il: Option<InvoiceList>, xs: seq<Item>)
    requires InRange(t.message)
  {
    && |t.message.instructions| > 0
    && |t.signatures| > 0
    && Derives(t.message, 0, xs)
    && |Nonces(xs)| <= 1
    && Rules(env, il, RegionsOf(xs))
  }

  lemma ParsedIsAcceptable(env: Env, t: Transaction, il: Option<InvoiceList>) returns (xs: seq<Item>)
    requires InRange(t.message) && ParseOf(env, t, il).Ok?
    ensures Acceptable(env, t, il, xs)
  {
    ScanAcceptsExactly(t.message);
    xs :| Derives(t.message, 0, xs) && |Nonces(xs)| <= 1;
    ValidatesExactly(env, il, RegionsOf(xs));
  }

  lemma AcceptableIsParsed(env: Env, t: Transaction, il: Option<InvoiceList>, xs: seq<Item>)
    requires InRange(t.message) && Acceptable(env, t, il, xs)
    ensures ParseOf(env, t, il).Ok?
    ensures ParseOf(env, t, il).value.regions == FilledAll(env, RegionsOf(xs))
    ensures NonceList(ParseOf(env, t, il).value.advanceNonce) == Nonces(xs)
  {
    ScanAcceptsExactly(t.message);
    ValidatesExactly(env, il, RegionsOf(xs));
  }

  /** The parser accepts a transaction exactly when it is in the language and follows the rules. */
  lemma ParsesExactly(env: Env, t: Transaction, il: Option<InvoiceList>)
    requires InRange(t.message)
    ensures ParseOf(env, t, il).Ok? <==> exists xs :: Acceptable(env, t, il, xs)
    ensures forall xs :: Acceptable(env, t, il, xs) ==>
              ParseOf(env, t, il).value.regions == FilledAll(env, RegionsOf(xs)) &&
              NonceList(ParseOf(env, t, il).value.advanceNonce) == Nonces(xs)
  {
    if ParseOf(env, t, il).Ok? {
      var xs := ParsedIsAcceptable(env, t, il);
    }
    forall xs | Acceptable(env, t, il, xs)
      ensures ParseOf(env, t, il).Ok?
      ensures ParseOf(env, t, il).value.regions == FilledAll(env, RegionsOf(xs))
      ensures NonceList(ParseOf(env, t, il).value.advanceNonce) == Nonces(xs)
    {
      AcceptableIsParsed(env, t, il, xs);
    }
  }

  // ---------- what acceptance guarantees

  /** The seeker of a region's content sees no difference between the scan's region and the result's. */
  lemma FilledKeepsContent(env: Env, r: Region)
    ensures var f := KinValidation.Filled(env, r);
            && f.creations == r.creations && f.transfers == r.transfers
            && f.closures == r.closures && f.memoData == r.memoData
  {
  }

  lemma {:induction false} FilledKeepsLists<T>(env: Env, rs: seq<Region>, g: Region -> seq<T>)
    requires forall r: Region :: g(KinValidation.Filled(env, r)) == g(r)
    ensures FlatMap(FilledAll(env, rs), g) == FlatMap(rs, g)
  {
    if rs != [] {
      FilledKeepsLists(env, rs[1..], g);
      assert FilledAll(env, rs)[1..] == FilledAll(env, rs[1..]);
    }
  }

  lemma {:induction false} FilledKeepsSize(env: Env, rs: seq<Region>)
    ensures RegionsSize(FilledAll(env, rs)) == RegionsSize(rs)
  {
    if rs != [] {
      var n := |rs| - 1;
      FilledKeepsSize(env, rs[..n]);
      assert FilledAll(env, rs)[..n] == FilledAll(env, rs[..n]);
      FilledKeepsContent(env, rs[n]);
    }
  }

  /** Every creation is tied to its account and can be closed by whoever funded it. */
  predicate SafeRegion(subsidizer: Key, r: Region) {
    SoundRegion(subsidizer, r) && RegionCloses(r)
  }

  /** Each instruction is one of the eight documented kinds. */
  ghost predicate AllKnown(m: Message)
    requires InRange(m)
  {
    forall i :: 0 <= i < |m.instructions| ==> Known(m, i)
  }

  ghost predicate Known(m: Message, i: nat)
    requires InRange(m)
  {
    exists d :: Reads(m, i, d)
  }

  lemma {:induction false} ReadsAllKnown(m: Message, i: nat, ds: seq<Decompiled>, k: nat)
    requires InRange(m) && ReadsAll(m, i, ds) && i <= k < i + |ds|
    ensures Known(m, k)
    decreases |ds|
  {
    if i == k {
      assert Reads(m, k, ds[0]);
    } else {
      ReadsAllKnown(m, i + 1, ds[1..], k);
    }
  }

  lemma DerivedAreKnown(m: Message, xs: seq<Item>)
    requires InRange(m) && Derives(m, 0, xs)
    ensures AllKnown(m)
  {
    DerivationSpells(m, 0, xs);
    forall i | 0 <= i < |m.instructions| ensures Known(m, i) {
      ReadsAllKnown(m, 0, SpellAll(xs), i);
    }
  }

  /** What the parser says of a transaction's contents. */
  predicate Accounted(m: Message, tx: Tx)
    requires InRange(m)
  {
    var memos := Collected(m, 0, FindMemo);
    && FlatMap(tx.regions, RegionTransfers) == Collected(m, 0, FindTransfer)
    && FlatMap(tx.regions, RegionClosures) == Collected(m, 0, FindClosure)
    && FlatMap(tx.regions, RegionAuthorities) == Collected(m, 0, FindAuthority)
    && FlatMap(tx.regions, RegionMemo) == [[]] + memos
    && |tx.regions| == 1 + |memos|
    && |m.instructions| == |memos| + (if tx.advanceNonce.Some? then 1 else 0) + RegionsSize(tx.regions)
  }

  lemma FilledKeepsContents(env: Env, rs: seq<Region>)
    ensures FlatMap(FilledAll(env, rs), RegionTransfers) == FlatMap(rs, RegionTransfers)
    ensures FlatMap(FilledAll(env, rs), RegionClosures) == FlatMap(rs, RegionClosures)
    ensures FlatMap(FilledAll(env, rs), RegionAuthorities) == FlatMap(rs, RegionAuthorities)
    ensures FlatMap(FilledAll(env, rs), RegionMemo) == FlatMap(rs, RegionMemo)
  {
    forall r: Region
      ensures RegionTransfers(KinValidation.Filled(env, r)) == RegionTransfers(r)
      ensures RegionClosures(KinValidation.Filled(env, r)) == RegionClosures(r)
      ensures RegionAuthorities(KinValidation.Filled(env, r)) == RegionAuthorities(r)
      ensures RegionMemo(KinValidation.Filled(env, r)) == RegionMemo(r)
    {
      FilledKeepsContent(env, r);
    }
    FilledKeepsLists(env, rs, RegionTransfers);
    FilledKeepsLists(env, rs, RegionClosures);
    FilledKeepsLists(env, rs, RegionAuthorities);
    FilledKeepsLists(env, rs, RegionMemo);
  }

  lemma ParsedIsAccounted(m: Message, env: Env, xs: seq<Item>, tx: Tx)
    requires InRange(m) && Derives(m, 0, xs)
    requires tx.regions == FilledAll(env, RegionsOf(xs)) && NonceList(tx.advanceNonce) == Nonces(xs)
    ensures Accounted(m, tx)
  {
    ContentsConserved(m, xs);
    InstructionsConserved(m, xs);
    FilledKeepsContents(env, RegionsOf(xs));
    FilledKeepsSize(env, RegionsOf(xs));
  }

  /** The one app id and the one app index that the memos name, if any. */
  predicate Named(env: Env, tx: Tx) {
    forall k :: 0 <= k < |tx.regions| ==>
      && (AppIdOf(env, tx.regions[k]).Some? ==> AppIdOf(env, tx.regions[k]) == Some(tx.appId))
      && (NamesIndex(env, tx.regions[k]) ==> IndexOfMemo(env, tx.regions[k]) == tx.appIndex)
  }

  lemma FilledIsSame(env: Env, rs: seq<Region>)
    ensures AllSame(env, rs, FilledAll(env, rs))
  {
    forall i | 0 <= i < |rs| ensures SameContents(env, rs[i], FilledAll(env, rs)[i]) {
      FilledKeepsContent(env, rs[i]);
    }
  }

  lemma ParsedIsNamed(env: Env, t: Transaction, il: Option<InvoiceList>, rs: seq<Region>, v: Validated)
    requires ValidationOf(env, il, rs) == Ok(v)
    ensures Named(env, Tx(v.appIndex, v.appId, None, v.regions)) && Rules(env, il, v.regions)
  {
    ValidatesExactly(env, il, rs);
    FilledIsSame(env, rs);
    SameRules(env, il, rs, FilledAll(env, rs));
    forall k | 0 <= k < |rs|
      ensures AppIdOf(env, v.regions[k]).Some? ==> AppIdOf(env, v.regions[k]) == Some(v.appId)
      ensures NamesIndex(env, v.regions[k]) ==> IndexOfMemo(env, v.regions[k]) == v.appIndex
    {
      ValidatedNames(env, il, rs, k);
      FilledKeepsContent(env, rs[k]);
    }
  }

  lemma ParsedIsSafe(m: Message, env: Env, il: Option<InvoiceList>, xs: seq<Item>, k: nat)
    requires InRange(m) && |m.accounts| > 0 && Derives(m, 0, xs) && Rules(env, il, RegionsOf(xs))
    requires k < |RegionsOf(xs)|
    ensures SafeRegion(m.accounts[0], FilledAll(env, RegionsOf(xs))[k])
  {
    assert SoundRegion(m.accounts[0], EMPTY_REGION);
    DerivedAreSound(m, 0, [EMPTY_REGION], xs);
    FilledKeepsContent(env, RegionsOf(xs)[k]);
    assert SoundRegion(m.accounts[0], RegionsOf(xs)[k]) && RegionCloses(RegionsOf(xs)[k]);
  }

  /**
   What every accepted transaction guarantees. Each instruction is of a documented kind (1). The
   result follows the rules on invoices (2), app ids and indexes (7) and earns (8), and names the
   app. No transfer is owned by the subsidizer (3, as the code has it), and changes of authority
   are those of creations, on the created account, of the two types allowed, the close authority
   going to whoever paid (4, 5, 6). Transfers, closures, changes of authority and memos are exactly
   the transaction's, and its instructions add up.
   */
  lemma ParsedGuarantees(env: Env, t: Transaction, il: Option<InvoiceList>)
    requires InRange(t.message) && ParseOf(env, t, il).Ok?
    ensures |t.message.accounts| > 0 && AllKnown(t.message)
    ensures var tx := ParseOf(env, t, il).value;
            && Rules(env, il, tx.regions) && Named(env, tx)
            && (forall k :: 0 <= k < |tx.regions| ==> SafeRegion(t.message.accounts[0], tx.regions[k]))
            && Accounted(t.message, tx)
  {
    var m := t.message;
    var xs := ParsedIsAcceptable(env, t, il);
    AcceptableIsParsed(env, t, il, xs);
    var tx := ParseOf(env, t, il).value;
    assert InstructionInRange(m.instructions[0], |m.accounts|);
    DerivedAreKnown(m, xs);
    var scanned := ScanFrom(m, 0, [EMPTY_REGION], None).value;
    ParsedIsNamed(env, t, il, scanned.regions, ValidationOf(env, il, scanned.regions).value);
    forall k | 0 <= k < |tx.regions| ensures SafeRegion(m.accounts[0], tx.regions[k]) {
      ParsedIsSafe(m, env, il, xs, k);
    }
    ParsedIsAccounted(m, env, xs, tx);
  }

  /** Whatever arrives on the wire and decodes can be parsed: no index is out of range. */
  lemma WireIsParsable(b: seq<byte>)
    requires Decoded(b).Some?
    ensures InRange(Decoded(b).value.message)
  {
    DecodedIsAccepted(b);
  }

  // ---------- from constructs to the parser and back

  /** What an operation's instruction reads as; the parser knows nothing of checked transfers. */
  function ReadingOf(op: Pipeline.Op): Option<Decompiled> {
    match op
    case CreateAccount(f, a, o, l, s) =>
      Some(Create(DecompiledCreateAccount(Compiler.Filled(f), Compiler.Filled(a), l, s, o)))
    case AdvanceNonce(a, auth) => Some(Nonce(DecompiledAdvanceNonce(Compiler.Filled(a), Compiler.Filled(auth))))
    case InitializeAccount(a, m, o) =>
      Some(Initialize(DecompiledInitializeAccount(Compiler.Filled(a), Compiler.Filled(m), Compiler.Filled(o))))
    case SetAuthority(a, c, n, t) =>
      Some(Authority(DecompiledSetAuthority(Compiler.Filled(a), Compiler.Filled(c), n, t)))
    case SetAuthorityMultisig(a, c, n, t, _) =>
      Some(Authority(DecompiledSetAuthority(Compiler.Filled(a), Compiler.Filled(c), n, t)))
    case Transfer(s, d, o, n) =>
      Some(Transfer(DecompiledTransfer(Compiler.Filled(s), Compiler.Filled(d), Compiler.Filled(o), n)))
    case TransferMultisig(s, d, o, n, _) =>
      Some(Transfer(DecompiledTransfer(Compiler.Filled(s), Compiler.Filled(d), Compiler.Filled(o), n)))
    case Transfer2(_, _, _, _, _, _) => None
    case CloseAccount(a, d, o) =>
      Some(Closure(DecompiledCloseAccount(Compiler.Filled(a), Compiler.Filled(d), Compiler.Filled(o))))
    case CreateAssociated(s, a, w, m) =>
      Some(Assoc(DecompiledCreateAssociatedAccount(Compiler.Filled(s), Compiler.Filled(a), Compiler.Filled(w),
                                                   Compiler.Filled(m))))
    case Memo(d) => Some(Memo(d))
  }

  /** The call `op` builds an instruction that reads as `d`. */
  predicate Builds(op: Pipeline.Op, d: Decompiled) {
    Pipeline.Readable(op) && ReadingOf(op) == Some(d)
  }

  predicate BuildsAll(ops: seq<Pipeline.Op>, ds: seq<Decompiled>) {
    |ops| == |ds| && forall k :: 0 <= k < |ops| ==> Builds(ops[k], ds[k])
  }

  lemma ObservedReads(m: Message, k: nat, op: Pipeline.Op, d: Decompiled)
    requires InRange(m) && k < |m.instructions| && Builds(op, d)
    requires Pipeline.ObservedAs(op, Resolve(m, k))
    ensures Reads(m, k, d)
  {
  }

  /** What is built and compiled reads as it was meant. */
  lemma CompiledReads(payer: Key, ops: seq<Pipeline.Op>, ds: seq<Decompiled>, t: Transaction)
    requires BuildsAll(ops, ds) && IsCompiled(payer, Pipeline.BuildAll(ops), t)
    requires |KeySet(Collect(payer, Pipeline.BuildAll(ops)))| <= 256
    ensures InRange(t.message) && |t.message.instructions| == |ds|
    ensures forall k :: 0 <= k < |ds| ==> Reads(t.message, k, ds[k])
  {
    Pipeline.CompiledObserved(payer, ops, t);
    forall k | 0 <= k < |ds| ensures Reads(t.message, k, ds[k]) {
      assert Builds(ops[k], ds[k]);
      ObservedReads(t.message, k, ops[k], ds[k]);
    }
  }

  lemma SignatureSlots(order: seq<AccountMeta>, instructions: seq<Instruction>, signers: nat)
    requires signers == Compiler.Below(order, 2)
    ensures var t := Assemble(order, instructions);
            |t.signatures| == signers % 256 && (0 < signers <= 255 ==> |t.signatures| > 0)
  {
  }

  /** The first account is the payer, and there is a signature slot for each key that must sign. */
  lemma CompiledHead(payer: Key, instructions: seq<Instruction>, t: Transaction, signers: nat)
    requires Unflagged(instructions) && IsCompiled(payer, instructions, t)
    requires signers == |SignerKeys(Collect(payer, instructions))|
    ensures |t.message.accounts| > 0 && t.message.accounts[0] == Compiler.Filled(payer)
    ensures |t.signatures| == signers % 256 && (signers <= 255 ==> |t.signatures| > 0)
  {
    var order :| IsOrder(payer, instructions, order) && t == Assemble(order, instructions);
    PayerFirst(payer, instructions, order);
    EntryKeys(payer, instructions, order);
    BelowIsKeys(order, 2);
    SomeBelow(order, 0, 2);
    SignatureSlots(order, instructions, signers);
  }

  lemma ReadsDerive(m: Message, xs: seq<Item>)
    requires InRange(m) && |m.accounts| > 0 && |SpellAll(xs)| == |m.instructions|
    requires forall k :: 0 <= k < |SpellAll(xs)| ==> Reads(m, k, SpellAll(xs)[k])
    requires AllProper(m.accounts[0], xs)
    ensures Derives(m, 0, xs)
  {
    assert forall k :: 0 <= k < |SpellAll(xs)| ==> Reads(m, 0 + k, SpellAll(xs)[k]);
    ReadsEach(m, 0, SpellAll(xs));
    SpellingDerives(m, 0, xs);
  }

  lemma BuiltHead(payer: Key, ops: seq<Pipeline.Op>, t: Transaction)
    requires IsCompiled(payer, Pipeline.BuildAll(ops), t)
    requires |SignerKeys(Collect(payer, Pipeline.BuildAll(ops)))| <= 255
    ensures |t.message.accounts| > 0 && t.message.accounts[0] == Compiler.Filled(payer) && |t.signatures| > 0
  {
    Pipeline.BuiltIsUnflagged(ops);
    CompiledHead(payer, Pipeline.BuildAll(ops), t, |SignerKeys(Collect(payer, Pipeline.BuildAll(ops)))|);
  }

  lemma ReadIsDerived(t: Transaction, xs: seq<Item>)
    requires xs != [] && |SpellAll(xs)| == |t.message.instructions| && InRange(t.message)
    requires forall k :: 0 <= k < |SpellAll(xs)| ==> Reads(t.message, k, SpellAll(xs)[k])
    requires |t.message.accounts| > 0 && AllProper(t.message.accounts[0], xs)
    ensures Derives(t.message, 0, xs) && |t.message.instructions| > 0
  {
    ReadsDerive(t.message, xs);
    assert SpellAll(xs) == Spell(xs[0]) + SpellAll(xs[1..]);
  }

  lemma BuiltDerives(payer: Key, ops: seq<Pipeline.Op>, xs: seq<Item>, t: Transaction)
    requires xs != [] && BuildsAll(ops, SpellAll(xs)) && IsCompiled(payer, Pipeline.BuildAll(ops), t)
    requires AllProper(Compiler.Filled(payer), xs)
    requires |KeySet(Collect(payer, Pipeline.BuildAll(ops)))| <= 256
    requires |SignerKeys(Collect(payer, Pipeline.BuildAll(ops)))| <= 255
    ensures InRange(t.message) && Derives(t.message, 0, xs)
    ensures |t.message.instructions| > 0 && |t.signatures| > 0
  {
    CompiledReads(payer, ops, SpellAll(xs), t);
    BuiltHead(payer, ops, t);
    ReadIsDerived(t, xs);
  }

  /**
   Build, compile, send, receive, parse. Any proper constructs, built with the constructors, those
   for multisig owners included, and compiled under any sort outcome, come back from the wire as a
   transaction whose one derivation is those constructs. The parser accepts it exactly when there
   is at most one nonce and the cross-region rules hold, and then returns those constructs' regions.
   */
  lemma BuiltIsParsed(env: Env, payer: Key, ops: seq<Pipeline.Op>, xs: seq<Item>, t: Transaction,
                      il: Option<InvoiceList>, suffix: seq<byte>)
    requires xs != [] && BuildsAll(ops, SpellAll(xs)) && IsCompiled(payer, Pipeline.BuildAll(ops), t)
    requires AllProper(Compiler.Filled(payer), xs)
    requires Pipeline.Encodable(payer, Pipeline.BuildAll(ops))
    requires |KeySet(Collect(payer, Pipeline.BuildAll(ops)))| <= 256
    requires |SignerKeys(Collect(payer, Pipeline.BuildAll(ops)))| <= 255
    ensures Decoded(TransactionBytes(t) + suffix) == Some(t)
    ensures InRange(t.message) && Derives(t.message, 0, xs)
    ensures var r := ParseOf(env, t, il);
            && (r.Ok? <==> |Nonces(xs)| <= 1 && Rules(env, il, RegionsOf(xs)))
            && (r.Ok? ==> r.value.regions == FilledAll(env, RegionsOf(xs)))
            && (r.Ok? ==> NonceList(r.value.advanceNonce) == Nonces(xs))
  {
    Pipeline.EndToEnd(payer, ops, t, suffix);
    BuiltDerives(payer, ops, xs, t);
    ParsesWhen(env, t, il, xs);
  }

  lemma ParsesWhen(env: Env, t: Transaction, il: Option<InvoiceList>, xs: seq<Item>)
    requires InRange(t.message) && Derives(t.message, 0, xs)
    requires |t.message.instructions| > 0 && |t.signatures| > 0
    ensures var r := ParseOf(env, t, il);
            && (r.Ok? <==> |Nonces(xs)| <= 1 && Rules(env, il, RegionsOf(xs)))
            && (r.Ok? ==> r.value.regions == FilledAll(env, RegionsOf(xs)))
            && (r.Ok? ==> NonceList(r.value.advanceNonce) == Nonces(xs))
  {
    if ParseOf(env, t, il).Ok? {
      var ys := ParsedIsAcceptable(env, t, il);
      DerivationIsUnique(t.message, 0, xs, ys);
    }
    if |Nonces(xs)| <= 1 && Rules(env, il, RegionsOf(xs)) {
      assert Acceptable(env, t, il, xs);
      AcceptableIsParsed(env, t, il, xs);
    }
  }

  // ---------- the documented rule on sources

  /** The documentation's rule: no transfer takes from the subsidizer's account. */
  predicate NoSubsidizerSource(subsidizer: Key, rs: seq<Region>) {
    forall k, j :: 0 <= k < |rs| && 0 <= j < |rs[k].transfers| ==> rs[k].transfers[j].source != subsidizer
  }

  /** A transaction by `payer` that is just this transfer. */
  predicate JustTransfers(t: Transaction, x: DecompiledTransfer, payer: Key) {
    && InRange(t.message) && |t.message.instructions| == 1 && Reads(t.message, 0, Transfer(x))
    && |t.message.accounts| > 0 && t.message.accounts[0] == payer && |t.signatures| > 0
  }

  /** A transaction of one transfer, parsed without invoices: the owner decides, whatever the source. */
  lemma OwnerDecides(env: Env, t: Transaction, x: DecompiledTransfer, payer: Key)
    requires JustTransfers(t, x, payer)
    ensures ParseOf(env, t, None).Ok? <==> x.owner != payer
    ensures ParseOf(env, t, None).Ok? ==> ParseOf(env, t, None).value.regions == [EMPTY_REGION.(transfers := [x])]
  {
    var xs := [TransferItem(x)];
    if x.owner != payer {
      OneTransferDerives(t.message, xs, x);
      OneTransferRegion(env, xs, x);
      assert Acceptable(env, t, None, xs);
      AcceptableIsParsed(env, t, None, xs);
    } else if ParseOf(env, t, None).Ok? {
      var ys := ParsedIsAcceptable(env, t, None);
      OnlyTransferDerives(t.message, ys, x);
    }
  }

  lemma OneTransferDerives(m: Message, xs: seq<Item>, x: DecompiledTransfer)
    requires InRange(m) && |m.instructions| == 1 && Reads(m, 0, Transfer(x)) && xs == [TransferItem(x)]
    requires |m.accounts| > 0 && x.owner != m.accounts[0]
    ensures Derives(m, 0, xs) && Nonces(xs) == []
  {
    FlatMapOne(xs[0], Spell);
    ReadsDerive(m, xs);
    assert xs[1..] == [];
  }

  lemma OneTransferRegion(env: Env, xs: seq<Item>, x: DecompiledTransfer)
    requires xs == [TransferItem(x)]
    ensures RegionsOf(xs) == [EMPTY_REGION.(transfers := [x])]
    ensures FilledAll(env, RegionsOf(xs)) == RegionsOf(xs) && Rules(env, None, RegionsOf(xs))
  {
    var r := EMPTY_REGION.(transfers := [x]);
    assert xs[1..] == [];
    assert EMPTY_REGION.transfers + [x] == [x];
    assert Absorb([EMPTY_REGION], xs[0]) == [r];
    assert AbsorbAll([r], []) == [r];
  }

  lemma OnlyTransferDerives(m: Message, ys: seq<Item>, x: DecompiledTransfer)
    requires InRange(m) && |m.instructions| == 1 && |m.accounts| > 0
    requires Reads(m, 0, Transfer(x)) && Derives(m, 0, ys)
    ensures x.owner != m.accounts[0]
  {
    DerivationSpells(m, 0, ys);
    assert ys != [];
    assert SpellAll(ys) == Spell(ys[0]) + SpellAll(ys[1..]);
    ReadsOnce(m, 0, SpellAll(ys)[0], Transfer(x));
    assert ItemAt(m, 0, ys[0]);
  }

  lemma {:induction false} InFlatMap(rs: seq<Region>, x: DecompiledTransfer)
    ensures x in FlatMap(rs, RegionTransfers) <==> exists k :: 0 <= k < |rs| && x in rs[k].transfers
  {
    if rs != [] {
      InFlatMap(rs[1..], x);
      assert forall k :: 0 < k < |rs| ==> rs[k] == rs[1..][k - 1];
      if exists k :: 0 <= k < |rs[1..]| && x in rs[1..][k].transfers {
        var k :| 0 <= k < |rs[1..]| && x in rs[1..][k].transfers;
        assert x in rs[k + 1].transfers;
      }
    }
  }

  lemma {:induction false} InCollected(m: Message, i: nat, x: DecompiledTransfer)
    ensures x in Collected(m, i, FindTransfer) <==> exists k :: i <= k < |m.instructions| && x in FindTransfer(m, k)
    decreases |m.instructions| - i
  {
    if i < |m.instructions| { InCollected(m, i + 1, x); }
  }

  /** No transfer instruction of the transaction takes from its first account. */
  predicate NoTransferFromFirst(m: Message)
    requires InRange(m) && |m.accounts| > 0
  {
    forall i :: 0 <= i < |m.instructions| && DecompileTransfer(m, i).Ok? ==>
      DecompileTransfer(m, i).value.source != m.accounts[0]
  }

  /** An accepted transaction keeps the documented rule exactly when its own instructions do. */
  lemma SourcesAreFreeExactly(env: Env, t: Transaction, il: Option<InvoiceList>)
    requires InRange(t.message) && ParseOf(env, t, il).Ok?
    ensures |t.message.accounts| > 0
    ensures NoSubsidizerSource(t.message.accounts[0], ParseOf(env, t, il).value.regions) <==>
            NoTransferFromFirst(t.message)
  {
    ParsedGuarantees(env, t, il);
    SourcesAgree(t.message, ParseOf(env, t, il).value.regions);
  }

  /** A transfer is in a region exactly when it is an instruction. */
  lemma TransfersAgree(m: Message, rs: seq<Region>, x: DecompiledTransfer)
    requires FlatMap(rs, RegionTransfers) == Collected(m, 0, FindTransfer)
    ensures (exists k :: 0 <= k < |rs| && x in rs[k].transfers) <==>
            exists i :: 0 <= i < |m.instructions| && x in FindTransfer(m, i)
  {
    InCollected(m, 0, x);
    InFlatMap(rs, x);
  }

  lemma SourcesAgree(m: Message, rs: seq<Region>)
    requires InRange(m) && |m.accounts| > 0
    requires FlatMap(rs, RegionTransfers) == Collected(m, 0, FindTransfer)
    ensures NoSubsidizerSource(m.accounts[0], rs) <==> NoTransferFromFirst(m)
  {
    if !NoTransferFromFirst(m) {
      var i :| 0 <= i < |m.instructions| && DecompileTransfer(m, i).Ok? &&
               DecompileTransfer(m, i).value.source == m.accounts[0];
      assert DecompileTransfer(m, i).value in FindTransfer(m, i);
      TransfersAgree(m, rs, DecompileTransfer(m, i).value);
    }
    if !NoSubsidizerSource(m.accounts[0], rs) {
      var k, j :| 0 <= k < |rs| && 0 <= j < |rs[k].transfers| && rs[k].transfers[j].source == m.accounts[0];
      TransfersAgree(m, rs, rs[k].transfers[j]);
    }
  }

  /** The owner is checked, not the source: the subsidizer's own account may be drawn on by another owner. */
  lemma SourceIsNotChecked(env: Env, t: Transaction, x: DecompiledTransfer, payer: Key)
    requires JustTransfers(t, x, payer) && x.source == payer && x.owner != payer
    ensures ParseOf(env, t, None).Ok?
    ensures !NoSubsidizerSource(payer, ParseOf(env, t, None).value.regions)
  {
    OwnerDecides(env, t, x, payer);
    assert ParseOf(env, t, None).value.regions[0].transfers[0] == x;
  }
}
