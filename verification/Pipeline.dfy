/**
 The whole path of a transaction: built from instructions, compiled, put on the wire, read back
 and decompiled. Each decompiler must see what the matching constructor was given.
 */
module Pipeline {
  import opened Common
  import opened ShortVec
  import opened Solana
  import opened Encoding
  import opened Compiler
  import opened Compilation
  import opened Decompiling
  import SystemProgram
  import TokenProgram
  import MemoProgram

  // ---------- what a caller may ask for, and what an observer must see

  datatype Op =
    | CreateAccount(funder: Key, address: Key, owner: Key, lamports: uint64, size: uint64)
    | AdvanceNonce(account: Key, authority: Key)
    | InitializeAccount(account: Key, mint: Key, owner: Key)
    | SetAuthority(account: Key, current: Key, newAuthority: Key, authorityType: byte)
    | SetAuthorityMultisig(account: Key, current: Key, newAuthority: Key, authorityType: byte, signers: seq<Key>)
    | Transfer(source: Key, dest: Key, owner: Key, amount: uint64)
    | TransferMultisig(source: Key, dest: Key, owner: Key, amount: uint64, signers: seq<Key>)
    | Transfer2(source: Key, mint: Key, dest: Key, owner: Key, amount: uint64, decimals: byte)
    | CloseAccount(account: Key, dest: Key, owner: Key)
    | CreateAssociated(subsidizer: Key, address: Key, wallet: Key, mint: Key)
    | Memo(data: seq<byte>)

  function Build(op: Op): Instruction {
    match op
    case CreateAccount(f, a, o, l, s) => SystemProgram.CreateAccount(f, a, o, l, s)
    case AdvanceNonce(a, auth) => SystemProgram.AdvanceNonce(a, auth)
    case InitializeAccount(a, m, o) => TokenProgram.InitializeAccount(a, m, o)
    case SetAuthority(a, c, n, t) => TokenProgram.SetAuthority(a, c, n, t)
    case SetAuthorityMultisig(a, c, n, t, s) => TokenProgram.SetAuthorityMultisig(a, c, n, t, s)
    case Transfer(s, d, o, n) => TokenProgram.Transfer(s, d, o, n)
    case TransferMultisig(s, d, o, n, ss) => TokenProgram.TransferMultisig(s, d, o, n, ss)
    case Transfer2(s, m, d, o, n, dec) => TokenProgram.Transfer2(s, m, d, o, n, dec)
    case CloseAccount(a, d, o) => TokenProgram.CloseAccount(a, d, o)
    case CreateAssociated(s, a, w, m) => TokenProgram.CreateAssociatedTokenAccount(s, a, w, m)
    case Memo(d) => MemoProgram.MemoInstruction(d)
  }

  function BuildAll(ops: seq<Op>): (r: seq<Instruction>)
    ensures |r| == |ops| && forall k :: 0 <= k < |ops| ==> r[k] == Build(ops[k])
  {
    seq(|ops|, k requires 0 <= k < |ops| => Build(ops[k]))
  }

  /**
   Decompiling `i` as the kind of `op` gives back what `op` was built from, missing keys as zero
   keys. The signers of a multisig are accounts of the instruction that no decompiler returns.
   */
  predicate ObservedAs(op: Op, i: Resolved) {
    match op
    case CreateAccount(f, a, o, l, s) =>
      SystemProgram.CreateAccountOf(i) == Ok(SystemProgram.DecompiledCreateAccount(Filled(f), Filled(a), l, s, o))
    case AdvanceNonce(a, auth) =>
      SystemProgram.AdvanceNonceOf(i) == Ok(SystemProgram.DecompiledAdvanceNonce(Filled(a), Filled(auth)))
    case InitializeAccount(a, m, o) =>
      TokenProgram.InitializeAccountOf(i) ==
      Ok(TokenProgram.DecompiledInitializeAccount(Filled(a), Filled(m), Filled(o)))
    case SetAuthority(a, c, n, t) =>
      TokenProgram.SetAuthorityOf(i) == Ok(TokenProgram.DecompiledSetAuthority(Filled(a), Filled(c), n, t))
    case SetAuthorityMultisig(a, c, n, t, _) =>
      TokenProgram.SetAuthorityOf(i) == Ok(TokenProgram.DecompiledSetAuthority(Filled(a), Filled(c), n, t))
    case Transfer(s, d, o, n) =>
      TokenProgram.TransferOf(i) == Ok(TokenProgram.DecompiledTransfer(Filled(s), Filled(d), Filled(o), n))
    case TransferMultisig(s, d, o, n, _) =>
      TokenProgram.TransferOf(i) == Ok(TokenProgram.DecompiledTransfer(Filled(s), Filled(d), Filled(o), n))
    case Transfer2(s, m, d, o, n, dec) =>
      TokenProgram.Transfer2Of(i) ==
      Ok(TokenProgram.DecompiledTransfer2(Filled(s), Filled(m), Filled(d), Filled(o), n, dec))
    case CloseAccount(a, d, o) =>
      TokenProgram.CloseAccountOf(i) == Ok(TokenProgram.DecompiledCloseAccount(Filled(a), Filled(d), Filled(o)))
    case CreateAssociated(s, a, w, m) =>
      TokenProgram.CreateAssociatedAccountOf(i) ==
      Ok(TokenProgram.DecompiledCreateAssociatedAccount(Filled(s), Filled(a), Filled(w), Filled(m)))
    case Memo(d) => MemoProgram.MemoOf(i) == Ok(d)
  }

  /**
   Two keys travel in the data and not as accounts: a new authority, refused when it is neither
   absent nor a key, and the owner of a created account, which is cut or padded to a key.
   */
  predicate Readable(op: Op) {
    && ((op.SetAuthority? || op.SetAuthorityMultisig?) ==> |op.newAuthority| == 0 || |op.newAuthority| == KEY_SIZE)
    && (op.CreateAccount? ==> |op.owner| == KEY_SIZE)
  }

  lemma CreateAccountObserved(op: Op)
    requires op.CreateAccount?
    ensures ObservedAs(op, Meaning(Build(op))) <==> |op.owner| == KEY_SIZE
  {
    var data := Build(op).data;
    var (lamports, size) := (LittleEndian(op.lamports, 8), LittleEndian(op.size, 8));
    assert data[..4] == SystemProgram.COMMAND_CREATE_ACCOUNT;
    assert data[4..12] == lamports;
    assert data[12..20] == size;
    assert data[20..] == SystemProgram.Fit32(op.owner);
    Uint64RoundTrip(op.lamports);
    Uint64RoundTrip(op.size);
  }

  lemma TransfersObserved(op: Op)
    requires op.Transfer? || op.TransferMultisig?
    ensures ObservedAs(op, Meaning(Build(op)))
  {
    assert Build(op).data[1..] == LittleEndian(op.amount, 8);
    Uint64RoundTrip(op.amount);
  }

  lemma Transfer2Observed(op: Op)
    requires op.Transfer2?
    ensures ObservedAs(op, Meaning(Build(op)))
  {
    assert Build(op).data[1..9] == LittleEndian(op.amount, 8);
    Uint64RoundTrip(op.amount);
  }

  lemma AuthoritiesObserved(op: Op)
    requires op.SetAuthority? || op.SetAuthorityMultisig?
    ensures ObservedAs(op, Meaning(Build(op))) <==> Readable(op)
  {
    var data := Build(op).data;
    assert |op.newAuthority| > 0 ==> data[3..] == op.newAuthority;
    assert |op.newAuthority| == KEY_SIZE ==> data[3..3 + KEY_SIZE] == op.newAuthority;
  }

  /** Each decompiler inverts its constructor exactly when the keys in the data have their size. */
  lemma ObservedExactly(op: Op)
    ensures ObservedAs(op, Meaning(Build(op))) <==> Readable(op)
  {
    match op
    case CreateAccount(_, _, _, _, _) => CreateAccountObserved(op);
    case Transfer(_, _, _, _) => TransfersObserved(op);
    case TransferMultisig(_, _, _, _, _) => TransfersObserved(op);
    case Transfer2(_, _, _, _, _, _) => Transfer2Observed(op);
    case SetAuthority(_, _, _, _) => AuthoritiesObserved(op);
    case SetAuthorityMultisig(_, _, _, _, _) => AuthoritiesObserved(op);
    case _ =>
  }

  lemma BuildIsUnflagged(op: Op, a: AccountMeta)
    requires a in Build(op).accounts
    ensures !a.isPayer && !a.isProgram
  {
  }

  /** No constructor sets the private flags. */
  lemma BuiltIsUnflagged(ops: seq<Op>)
    ensures Unflagged(BuildAll(ops))
  {
    forall k, a | 0 <= k < |ops| && a in BuildAll(ops)[k].accounts ensures !a.isPayer && !a.isProgram {
      BuildIsUnflagged(ops[k], a);
    }
  }

  // ---------- surviving the wire

  predicate KeyFits(key: Key) {
    |key| == 0 || |key| == KEY_SIZE
  }

  predicate PartsFit(i: Instruction) {
    |i.accounts| <= MAX_LEN && |i.data| <= MAX_LEN
  }

  /** A condition on the arguments of `NewTransaction` alone. */
  predicate Encodable(payer: Key, instructions: seq<Instruction>) {
    var all := Collect(payer, instructions);
    && (forall a :: a in all ==> KeyFits(a.key))
    && |KeySet(all)| <= MAX_LEN
    && |instructions| <= MAX_LEN
    && forall k :: 0 <= k < |instructions| ==> PartsFit(instructions[k])
  }

  lemma KeysFitExactly(payer: Key, instructions: seq<Instruction>, order: seq<AccountMeta>)
    requires IsOrder(payer, instructions, order)
    ensures KeysSized(FilledKeys(Keys(order))) <==> forall a :: a in Collect(payer, instructions) ==> KeyFits(a.key)
  {
    var all := Collect(payer, instructions);
    if forall a :: a in all ==> KeyFits(a.key) {
      forall i | 0 <= i < |order| ensures |Filled(order[i].key)| == KEY_SIZE {
        OrderedEntries(payer, instructions, order, i);
      }
    }
    if KeysSized(FilledKeys(Keys(order))) {
      forall a | a in all ensures KeyFits(a.key) {
        OrderCovers(payer, instructions, order);
        var i := IndexOf(Keys(order), a.key);
        assert |FilledKeys(Keys(order))[i]| == KEY_SIZE;
      }
    }
  }

  lemma WellFormedParts(payer: Key, instructions: seq<Instruction>, order: seq<AccountMeta>)
    requires InRange(Assemble(order, instructions).message)
    requires KeysSized(FilledKeys(Keys(order))) <==> forall a :: a in Collect(payer, instructions) ==> KeyFits(a.key)
    requires |order| == |KeySet(Collect(payer, instructions))|
    ensures WellFormed(Assemble(order, instructions)) <==> Encodable(payer, instructions)
  {
    LengthsOfCompiled(Keys(order), instructions);
  }

  /** A compiled transaction survives the wire exactly when its arguments are encodable. */
  lemma CompiledSurvivesExactly(payer: Key, instructions: seq<Instruction>, t: Transaction)
    requires IsCompiled(payer, instructions, t)
    ensures Decoded(TransactionBytes(t)) == Some(t) <==> Encodable(payer, instructions)
  {
    var order :| IsOrder(payer, instructions, order) && t == Assemble(order, instructions);
    CompiledInRange(payer, instructions, t);
    KeysFitExactly(payer, instructions, order);
    AccountCount(payer, instructions, order);
    WellFormedParts(payer, instructions, order);
    RoundTripExactly(t);
  }

  lemma LengthsOfCompiled(keys: seq<Key>, instructions: seq<Instruction>)
    ensures (forall k :: 0 <= k < |instructions| ==> InstructionLengthsFit(CompileAll(keys, instructions)[k])) <==>
            forall k :: 0 <= k < |instructions| ==> PartsFit(instructions[k])
  {
    var cs := CompileAll(keys, instructions);
    assert forall k :: 0 <= k < |instructions| ==>
        |cs[k].accounts| == |instructions[k].accounts| && cs[k].data == instructions[k].data;
    forall k | 0 <= k < |instructions|
      ensures InstructionLengthsFit(cs[k]) <==> PartsFit(instructions[k])
    {
    }
  }

  /** A transaction whose header is wrong is sent and received like any other. */
  lemma BrokenLayoutIsSent(payer: Key, instructions: seq<Instruction>, t: Transaction)
    requires payer == Lead(1) && instructions == [SigningProgram()] && IsCompiled(payer, instructions, t)
    ensures Decoded(TransactionBytes(t)) == Some(t)
    ensures !LayoutHolds(Collect(payer, instructions), t.message.accounts, t.message.header)
  {
    var order: seq<AccountMeta> :| IsOrder(payer, instructions, order) && t == Assemble(order, instructions);
    SigningProgramRequests(payer, instructions);
    SigningProgramFits(payer, instructions);
    CompiledSurvivesExactly(payer, instructions, t);
    BrokenMessage(payer, instructions, order);
  }

  lemma BrokenMessage(payer: Key, instructions: seq<Instruction>, order: seq<AccountMeta>)
    requires payer == Lead(1) && instructions == [SigningProgram()] && IsOrder(payer, instructions, order)
    requires forall a :: a in Collect(payer, instructions) ==> a.key != []
    ensures var m := Assemble(order, instructions).message;
            !LayoutHolds(Collect(payer, instructions), m.accounts, m.header)
  {
    LayoutCanFail(payer, instructions, order);
    AllPresent(payer, instructions, order);
  }

  lemma SigningProgramFits(payer: Key, instructions: seq<Instruction>)
    requires instructions == [SigningProgram()]
    requires Collect(payer, instructions) == SigningRequests(Lead(1), Lead(2), Lead(3))
    ensures Encodable(payer, instructions)
    ensures forall a :: a in Collect(payer, instructions) ==> a.key != []
  {
    var all := Collect(payer, instructions);
    assert forall a :: a in all ==> a == all[0] || a == all[1] || a == all[2] || a == all[3];
    assert KeySet(all) == {Lead(1), Lead(2), Lead(3)};
  }

  /** Keys of the full size are not touched by filling. */
  lemma AllPresent(payer: Key, instructions: seq<Instruction>, order: seq<AccountMeta>)
    requires IsOrder(payer, instructions, order)
    requires forall a :: a in Collect(payer, instructions) ==> a.key != []
    ensures FilledKeys(Keys(order)) == Keys(order)
  {
    forall i | 0 <= i < |order| ensures Filled(order[i].key) == order[i].key {
      OrderedEntries(payer, instructions, order, i);
    }
  }

  /** In a compiled transaction every decompiler sees what its constructor was given, if readable. */
  lemma CompiledObserved(payer: Key, ops: seq<Op>, t: Transaction)
    requires IsCompiled(payer, BuildAll(ops), t) && |KeySet(Collect(payer, BuildAll(ops)))| <= 256
    ensures InRange(t.message) && |t.message.instructions| == |ops|
    ensures forall k :: 0 <= k < |ops| ==> (ObservedAs(ops[k], Resolve(t.message, k)) <==> Readable(ops[k]))
  {
    MeaningKept(payer, BuildAll(ops), t);
    forall k | 0 <= k < |ops| ensures ObservedAs(ops[k], Resolve(t.message, k)) <==> Readable(ops[k]) {
      SeenExactly(ops[k], Resolve(t.message, k));
    }
  }

  /**
   End to end: for any payer and operations with usable keys, at most 256 of them distinct, and
   for every outcome of the sort, the bytes of the compiled transaction decode, whatever follows
   them, and a decompiler returns what its constructor was given exactly when that is readable.
   */
  lemma EndToEnd(payer: Key, ops: seq<Op>, t: Transaction, suffix: seq<byte>)
    requires IsCompiled(payer, BuildAll(ops), t)
    requires Encodable(payer, BuildAll(ops)) && |KeySet(Collect(payer, BuildAll(ops)))| <= 256
    ensures Decoded(TransactionBytes(t) + suffix) == Some(t)
    ensures InRange(t.message) && |t.message.instructions| == |ops|
    ensures forall k :: 0 <= k < |ops| ==> (ObservedAs(ops[k], Resolve(t.message, k)) <==> Readable(ops[k]))
  {
    CompiledSurvivesExactly(payer, BuildAll(ops), t);
    RoundTripExactly(t);
    TransactionRoundTrip(t, suffix);
    CompiledObserved(payer, ops, t);
  }

  lemma SeenExactly(op: Op, r: Resolved)
    requires r == Meaning(Build(op))
    ensures ObservedAs(op, r) <==> Readable(op)
  {
    ObservedExactly(op);
  }
}
