/**
 The first pass of `ParseTransaction` in `kin/transaction.go`: a loop whose index jumps over up to
 four instructions and backs up by one. It is proved to accept exactly a small grammar.
 */
module KinScan {
  import opened Common
  import opened Solana
  import opened SystemProgram
  import opened TokenProgram
  import opened MemoProgram
  import opened KinMemo
  import Decompiling

  // ---------- data model

  datatype Creation = Creation(
    create: Option<DecompiledCreateAccount>,
    initialize: Option<DecompiledInitializeAccount>,
    createAssoc: Option<DecompiledCreateAssociatedAccount>,
    closeAuthority: DecompiledSetAuthority,
    accountHolder: Option<DecompiledSetAuthority>)

  datatype Region = Region(
    memoData: seq<byte>,
    memo: Option<Memo>,
    creations: seq<Creation>,
    transfers: seq<DecompiledTransfer>,
    closures: seq<DecompiledCloseAccount>)

  datatype ParseError =
    | NoInstructions
    | NoSignatures
    | MultipleNonces
    | InvalidCreateAccount
    | WrongCreateOwner
    | WrongCreateSize
    | MissingInitialize
    | InvalidInitialize
    | InitializeMismatch
    | MissingSetAuthority
    | InvalidSetAuthority
    | NotCloseAuthority
    | CloseAuthorityMismatch
    | NotAccountHolder
    | AccountHolderMismatch
    | InvalidCreateAssociated
    | InvalidTransfer
    | SubsidizerTransfer
    | InvalidCloseAccount
    | UnsupportedInstruction
    | UnknownProgram
    | WrongNewAuthority
    | CreateWithoutCreate
    | MultipleAppIds
    | MultipleAppIndexes
    | InvoiceCountMismatch
    | MixedEarns
    | InvoiceReferenceCount
    | UnencodableInvoices

  function Program(m: Message, i: nat): Key
    requires InRange(m) && i < |m.instructions|
  {
    Resolve(m, i).program
  }

  lemma ProgramsDiffer()
    ensures MemoProgram.PROGRAM_KEY[0] == 5 && SystemProgram.PROGRAM_KEY[0] == 0
    ensures TokenProgram.PROGRAM_KEY[0] == 6 && ASSOCIATED_PROGRAM_KEY[0] == 140
  {
  }

  // ---------- the grammar

  /** One construct of the language, with everything its instructions said. */
  datatype Item =
    | MemoItem(data: seq<byte>)
    | NonceItem(nonce: DecompiledAdvanceNonce)
    | CreateItem(create: DecompiledCreateAccount, initialize: DecompiledInitializeAccount,
                 close: DecompiledSetAuthority, holder: Option<DecompiledSetAuthority>)
    | AssocItem(assoc: DecompiledCreateAssociatedAccount, close: DecompiledSetAuthority)
    | TransferItem(transfer: DecompiledTransfer)
    | CloseItem(closure: DecompiledCloseAccount)

  /** How many instructions the construct takes. */
  function Width(x: Item): (w: nat)
    ensures 1 <= w <= 4
  {
    match x
    case CreateItem(_, _, _, holder) => if holder.Some? then 4 else 3
    case AssocItem(_, _) => 2
    case _ => 1
  }

  /** A change of authority of the given kind, on the given account. */
  predicate AuthorityAt(m: Message, i: nat, a: DecompiledSetAuthority, kind: byte, account: Key)
    requires InRange(m)
  {
    DecompileSetAuthority(m, i) == Ok(a) && a.authorityType == kind && a.account == account
  }

  predicate ItemAt(m: Message, i: nat, x: Item)
    requires InRange(m)
  {
    i < |m.instructions| &&
    match x
    case MemoItem(data) => DecompileMemo(m, i) == Ok(data)
    case NonceItem(nonce) => DecompileAdvanceNonce(m, i) == Ok(nonce)
    case CreateItem(create, initialize, close, holder) =>
      && DecompileCreateAccount(m, i) == Ok(create)
      && create.owner == TokenProgram.PROGRAM_KEY
      && create.size == ACCOUNT_SIZE
      && DecompileInitializeAccount(m, i + 1) == Ok(initialize)
      && initialize.account == create.address
      && AuthorityAt(m, i + 2, close, AUTHORITY_CLOSE_ACCOUNT, create.address)
      && (holder.Some? ==> AuthorityAt(m, i + 3, holder.value, AUTHORITY_ACCOUNT_HOLDER, create.address))
    case AssocItem(assoc, close) =>
      && DecompileCreateAssociatedAccount(m, i) == Ok(assoc)
      && AuthorityAt(m, i + 1, close, AUTHORITY_CLOSE_ACCOUNT, assoc.address)
    case TransferItem(transfer) =>
      DecompileTransfer(m, i) == Ok(transfer) && transfer.owner != m.accounts[0]
    case CloseItem(closure) => DecompileCloseAccount(m, i) == Ok(closure)
  }

  /** The constructs tile the instructions from `i` to the end. */
  predicate Derives(m: Message, i: nat, xs: seq<Item>)
    requires InRange(m)
    decreases |xs|
  {
    if xs == [] then i == |m.instructions|
    else ItemAt(m, i, xs[0]) && Derives(m, i + Width(xs[0]), xs[1..])
  }

  function Nonces(xs: seq<Item>): seq<DecompiledAdvanceNonce> {
    if xs == [] then []
    else if xs[0].NonceItem? then [xs[0].nonce] + Nonces(xs[1..])
    else Nonces(xs[1..])
  }

  // ---------- regions

  const EMPTY_REGION: Region := Region([], None, [], [], [])

  function CreationOf(x: Item): Creation
    requires x.CreateItem? || x.AssocItem?
  {
    if x.CreateItem? then Creation(Some(x.create), Some(x.initialize), None, x.close, x.holder)
    else Creation(None, None, Some(x.assoc), x.close, None)
  }

  /** What one construct adds to the regions: a memo opens a new one, the rest goes to the last. */
  function Absorb(rs: seq<Region>, x: Item): (r: seq<Region>)
    requires |rs| > 0
    ensures |r| > 0
  {
    var n := |rs| - 1;
    match x
    case MemoItem(data) => rs + [EMPTY_REGION.(memoData := data)]
    case NonceItem(_) => rs
    case CreateItem(_, _, _, _) => rs[n := rs[n].(creations := rs[n].creations + [CreationOf(x)])]
    case AssocItem(_, _) => rs[n := rs[n].(creations := rs[n].creations + [CreationOf(x)])]
    case TransferItem(transfer) => rs[n := rs[n].(transfers := rs[n].transfers + [transfer])]
    case CloseItem(closure) => rs[n := rs[n].(closures := rs[n].closures + [closure])]
  }

  function AbsorbAll(rs: seq<Region>, xs: seq<Item>): (r: seq<Region>)
    requires |rs| > 0
    ensures |r| > 0
    decreases |xs|
  {
    if xs == [] then rs else AbsorbAll(Absorb(rs, xs[0]), xs[1..])
  }

  function RegionsOf(xs: seq<Item>): seq<Region> {
    AbsorbAll([EMPTY_REGION], xs)
  }

  // ---------- one turn of the loop, as a function

  function CloseAuthorityFor(m: Message, i: nat, address: Key): Result<DecompiledSetAuthority, ParseError>
    requires InRange(m)
  {
    if i == |m.instructions| then Err(MissingSetAuthority)
    else
      var close := DecompileSetAuthority(m, i);
      if close.Err? then Err(InvalidSetAuthority)
      else if close.value.authorityType != AUTHORITY_CLOSE_ACCOUNT then Err(NotCloseAuthority)
      else if close.value.account != address then Err(CloseAuthorityMismatch)
      else Ok(close.value)
  }

  /** The account holder may follow, and only on the created account. */
  function HolderFor(m: Message, i: nat, address: Key): Result<Option<DecompiledSetAuthority>, ParseError>
    requires InRange(m)
  {
    var holder := DecompileSetAuthority(m, i);
    if holder.Err? then Ok(None)
    else if holder.value.authorityType != AUTHORITY_ACCOUNT_HOLDER then Err(NotAccountHolder)
    else if holder.value.account != address then Err(AccountHolderMismatch)
    else Ok(Some(holder.value))
  }

  function NextCreate(m: Message, i: nat): Result<Item, ParseError>
    requires InRange(m) && i < |m.instructions|
  {
    var create := DecompileCreateAccount(m, i);
    if create.Err? then Err(InvalidCreateAccount)
    else if create.value.owner != TokenProgram.PROGRAM_KEY then Err(WrongCreateOwner)
    else if create.value.size != ACCOUNT_SIZE then Err(WrongCreateSize)
    else if i + 1 == |m.instructions| then Err(MissingInitialize)
    else
      var initialize := DecompileInitializeAccount(m, i + 1);
      if initialize.Err? then Err(InvalidInitialize)
      else if create.value.address != initialize.value.account then Err(InitializeMismatch)
      else
        var close := CloseAuthorityFor(m, i + 2, create.value.address);
        if close.Err? then Err(close.error)
        else
          var holder := HolderFor(m, i + 3, create.value.address);
          if holder.Err? then Err(holder.error)
          else Ok(CreateItem(create.value, initialize.value, close.value, holder.value))
  }

  function NextSystem(m: Message, i: nat): Result<Item, ParseError>
    requires InRange(m) && i < |m.instructions|
  {
    var nonce := DecompileAdvanceNonce(m, i);
    if nonce.Ok? then Ok(NonceItem(nonce.value)) else NextCreate(m, i)
  }

  function NextAssoc(m: Message, i: nat): Result<Item, ParseError>
    requires InRange(m) && i < |m.instructions|
  {
    var assoc := DecompileCreateAssociatedAccount(m, i);
    if assoc.Err? then Err(InvalidCreateAssociated)
    else
      var close := CloseAuthorityFor(m, i + 1, assoc.value.address);
      if close.Err? then Err(close.error) else Ok(AssocItem(assoc.value, close.value))
  }

  function NextToken(m: Message, i: nat): Result<Item, ParseError>
    requires InRange(m) && i < |m.instructions|
  {
    var command := GetCommand(m, i);
    if command == Ok(COMMAND_TRANSFER) then
      var transfer := DecompileTransfer(m, i);
      if transfer.Err? then Err(InvalidTransfer)
      else if transfer.value.owner == m.accounts[0] then Err(SubsidizerTransfer)
      else Ok(TransferItem(transfer.value))
    else if command == Ok(COMMAND_CLOSE_ACCOUNT) then
      var closure := DecompileCloseAccount(m, i);
      if closure.Err? then Err(InvalidCloseAccount) else Ok(CloseItem(closure.value))
    else Err(UnsupportedInstruction)
  }

  /** The construct the loop reads at `i`, or the error it returns. */
  function Next(m: Message, i: nat): Result<Item, ParseError>
    requires InRange(m) && i < |m.instructions|
  {
    if Program(m, i) == MemoProgram.PROGRAM_KEY then Ok(MemoItem(Resolve(m, i).data))
    else if Program(m, i) == SystemProgram.PROGRAM_KEY then NextSystem(m, i)
    else if Program(m, i) == ASSOCIATED_PROGRAM_KEY then NextAssoc(m, i)
    else if Program(m, i) == TokenProgram.PROGRAM_KEY then NextToken(m, i)
    else Err(UnknownProgram)
  }

  datatype Scanned = Scanned(regions: seq<Region>, nonce: Option<DecompiledAdvanceNonce>)

  // ---------- the loop reads what the grammar says, and nothing else is possible

  lemma CreateIsItem(m: Message, i: nat)
    requires InRange(m) && i < |m.instructions| && NextCreate(m, i).Ok?
    ensures ItemAt(m, i, NextCreate(m, i).value) && i + Width(NextCreate(m, i).value) <= |m.instructions|
    ensures NextCreate(m, i).value.CreateItem?
  {
  }

  /** What the loop reads is a construct of the grammar, inside the transaction. */
  lemma NextIsItem(m: Message, i: nat)
    requires InRange(m) && i < |m.instructions| && Next(m, i).Ok?
    ensures ItemAt(m, i, Next(m, i).value) && i + Width(Next(m, i).value) <= |m.instructions|
  {
    ProgramsDiffer();
    if Program(m, i) == SystemProgram.PROGRAM_KEY && DecompileAdvanceNonce(m, i).Err? {
      CreateIsItem(m, i);
    }
  }

  /** No construct begins with a change of authority. */
  lemma NoItemStartsWithAuthority(m: Message, i: nat, x: Item)
    requires InRange(m) && ItemAt(m, i, x)
    ensures DecompileSetAuthority(m, i).Err?
  {
    ProgramsDiffer();
  }

  lemma DerivationStarts(m: Message, i: nat, xs: seq<Item>)
    requires InRange(m) && Derives(m, i, xs)
    ensures DecompileSetAuthority(m, i).Err?
  {
    if xs != [] { NoItemStartsWithAuthority(m, i, xs[0]); }
  }

  lemma CreateIsForced(m: Message, i: nat, x: Item, rest: seq<Item>)
    requires InRange(m) && x.CreateItem? && ItemAt(m, i, x) && Derives(m, i + Width(x), rest)
    ensures NextCreate(m, i) == Ok(x)
  {
    DerivationStarts(m, i + Width(x), rest);
  }

  lemma CreateIsNoNonce(m: Message, i: nat)
    requires InRange(m) && DecompileCreateAccount(m, i).Ok?
    ensures DecompileAdvanceNonce(m, i).Err?
  {
  }

  /** If the rest of the transaction is in the language, the loop reads its first construct. */
  lemma NextIsForced(m: Message, i: nat, x: Item, rest: seq<Item>)
    requires InRange(m) && ItemAt(m, i, x) && Derives(m, i + Width(x), rest)
    ensures Next(m, i) == Ok(x)
  {
    ProgramsDiffer();
    match x
    case CreateItem(_, _, _, _) =>
      CreateIsForced(m, i, x, rest);
      CreateIsNoNonce(m, i);
    case _ =>
  }

  /** Where a derivation goes on, what comes first is what the scanner finds there. */
  lemma HeadIsNext(m: Message, i: nat, xs: seq<Item>)
    requires InRange(m) && Derives(m, i, xs)
    ensures xs == [] <==> i == |m.instructions|
    ensures xs != [] ==> i < |m.instructions| && Next(m, i) == Ok(xs[0])
  {
    if xs != [] { NextIsForced(m, i, xs[0], xs[1..]); }
  }

  lemma HeadIsUnique(m: Message, i: nat, xs: seq<Item>, ys: seq<Item>)
    requires InRange(m) && Derives(m, i, xs) && Derives(m, i, ys)
    ensures xs == [] <==> ys == []
    ensures xs != [] ==> xs[0] == ys[0]
  {
    HeadIsNext(m, i, xs);
    HeadIsNext(m, i, ys);
  }

  /** The language is unambiguous: a transaction has at most one derivation. */
  lemma {:induction false} DerivationIsUnique(m: Message, i: nat, xs: seq<Item>, ys: seq<Item>)
    requires InRange(m) && Derives(m, i, xs) && Derives(m, i, ys)
    ensures xs == ys
    decreases |xs|
  {
    HeadIsUnique(m, i, xs, ys);
    if xs != [] {
      DerivationIsUnique(m, i + Width(xs[0]), xs[1..], ys[1..]);
      assert xs == [xs[0]] + xs[1..] && ys == [ys[0]] + ys[1..];
    }
  }
}
