/** Error tags of the decompilers. Messages are not modelled. */
module Decompiling {
  datatype Error = NoInstruction | IncorrectProgram | IncorrectInstruction | BadAccountCount | BadData | BadReference
}

/**
 `solana/system/program.go` and `solana/system/sysvar.go`. Constructors build instructions;
 the `Of` functions read a resolved instruction, and the decompilers apply them to a message.
 */
module SystemProgram {
  import opened Common
  import opened Solana
  import opened Decompiling

  const PROGRAM_KEY: Key := ZERO_KEY

  const RENT_SYS_VAR: Key := [6, 167, 213, 23, 25, 44, 92, 81, 33, 140, 201, 76, 61, 74, 241, 127,
                              88, 218, 238, 8, 155, 161, 253, 68, 227, 219, 217, 138, 0, 0, 0, 0]

  const RECENT_BLOCKHASHES_SYS_VAR: Key := [6, 167, 213, 23, 25, 44, 86, 142, 224, 138, 132, 95, 115, 210, 151, 136,
                                            207, 3, 92, 49, 69, 178, 26, 179, 68, 216, 6, 46, 169, 64, 0, 0]

  const COMMAND_CREATE_ACCOUNT: seq<byte> := [0, 0, 0, 0]

  const COMMAND_ADVANCE_NONCE: seq<byte> := [4, 0, 0, 0]

  /** `copy` into a zeroed 32-byte slot: longer keys are cut, shorter ones padded. */
  function Fit32(key: Key): (r: Key)
    ensures |r| == 32
    ensures |key| == 32 ==> r == key
  {
    if |key| >= 32 then key[..32] else key + Zeros(32 - |key|)
  }

  function CreateAccount(funder: Key, address: Key, owner: Key, lamports: uint64, size: uint64): Instruction {
    Instruction(
      PROGRAM_KEY,
      [NewAccountMeta(funder, true), NewAccountMeta(address, true)],
      COMMAND_CREATE_ACCOUNT + LittleEndian(lamports, 8) + LittleEndian(size, 8) + Fit32(owner))
  }

  datatype DecompiledCreateAccount = DecompiledCreateAccount(
    funder: Key,
    address: Key,
    lamports: nat,
    size: nat,
    owner: Key)

  function CreateAccountOf(i: Resolved): Result<DecompiledCreateAccount, Error> {
    if i.program != PROGRAM_KEY then Err(IncorrectProgram)
    else if !(COMMAND_CREATE_ACCOUNT <= i.data) then Err(IncorrectInstruction)
    else if |i.accounts| != 2 then Err(BadAccountCount)
    else if |i.data| != 52 then Err(BadData)
    else Ok(DecompiledCreateAccount(
              i.accounts[0],
              i.accounts[1],
              FromLittleEndian(i.data[4..12]),
              FromLittleEndian(i.data[12..20]),
              i.data[20..]))
  }

  function DecompileCreateAccount(m: Message, index: nat): Result<DecompiledCreateAccount, Error>
    requires InRange(m)
  {
    if index >= |m.instructions| then Err(NoInstruction) else CreateAccountOf(Resolve(m, index))
  }

  function AdvanceNonce(account: Key, authority: Key): Instruction {
    Instruction(
      PROGRAM_KEY,
      [NewAccountMeta(account, true), NewReadonlyAccountMeta(RECENT_BLOCKHASHES_SYS_VAR, false),
       NewReadonlyAccountMeta(authority, true)],
      COMMAND_ADVANCE_NONCE)
  }

  datatype DecompiledAdvanceNonce = DecompiledAdvanceNonce(account: Key, authority: Key)

  function AdvanceNonceOf(i: Resolved): Result<DecompiledAdvanceNonce, Error> {
    if i.program != PROGRAM_KEY then Err(IncorrectProgram)
    else if i.data != COMMAND_ADVANCE_NONCE then Err(IncorrectInstruction)
    else if |i.accounts| != 3 then Err(BadAccountCount)
    else if i.accounts[1] != RECENT_BLOCKHASHES_SYS_VAR then Err(BadReference)
    else Ok(DecompiledAdvanceNonce(i.accounts[0], i.accounts[2]))
  }

  function DecompileAdvanceNonce(m: Message, index: nat): Result<DecompiledAdvanceNonce, Error>
    requires InRange(m)
  {
    if index >= |m.instructions| then Err(NoInstruction) else AdvanceNonceOf(Resolve(m, index))
  }
}

/** `solana/token/program.go` and `solana/token/associated.go`. */
module TokenProgram {
  import opened Common
  import opened Solana
  import opened Decompiling
  import SystemProgram

  const PROGRAM_KEY: Key := [6, 221, 246, 225, 215, 101, 161, 147, 217, 203, 225, 70, 206, 235, 121, 172,
                             28, 180, 133, 237, 95, 91, 55, 145, 58, 140, 245, 133, 126, 255, 0, 169]

  const ASSOCIATED_PROGRAM_KEY: Key := [140, 151, 37, 143, 78, 36, 137, 241, 187, 61, 16, 41, 20, 142, 13, 131,
                                        11, 90, 19, 153, 218, 255, 16, 132, 4, 142, 123, 216, 219, 233, 248, 89]

  const ACCOUNT_SIZE: nat := 165

  const COMMAND_INITIALIZE_ACCOUNT: byte := 1

  const COMMAND_TRANSFER: byte := 3

  const COMMAND_SET_AUTHORITY: byte := 6

  const COMMAND_CLOSE_ACCOUNT: byte := 9

  const COMMAND_TRANSFER2: byte := 12

  const AUTHORITY_ACCOUNT_HOLDER: byte := 2

  const AUTHORITY_CLOSE_ACCOUNT: byte := 3

  function GetCommand(m: Message, index: nat): Result<byte, Error>
    requires InRange(m)
  {
    if index >= |m.instructions| then Err(NoInstruction)
    else
      var i := Resolve(m, index);
      if i.program != PROGRAM_KEY then Err(IncorrectProgram)
      else if |i.data| == 0 then Err(BadData)
      else Ok(i.data[0])
  }

  // ---------- InitializeAccount

  function InitializeAccount(account: Key, mint: Key, owner: Key): Instruction {
    Instruction(
      PROGRAM_KEY,
      [NewAccountMeta(account, true), NewReadonlyAccountMeta(mint, false), NewReadonlyAccountMeta(owner, false),
       NewReadonlyAccountMeta(SystemProgram.RENT_SYS_VAR, false)],
      [COMMAND_INITIALIZE_ACCOUNT])
  }

  datatype DecompiledInitializeAccount = DecompiledInitializeAccount(account: Key, mint: Key, owner: Key)

  function InitializeAccountOf(i: Resolved): Result<DecompiledInitializeAccount, Error> {
    if i.program != PROGRAM_KEY then Err(IncorrectProgram)
    else if i.data != [COMMAND_INITIALIZE_ACCOUNT] then Err(IncorrectInstruction)
    else if |i.accounts| != 4 then Err(BadAccountCount)
    else if i.accounts[3] != SystemProgram.RENT_SYS_VAR then Err(BadReference)
    else Ok(DecompiledInitializeAccount(i.accounts[0], i.accounts[1], i.accounts[2]))
  }

  function DecompileInitializeAccount(m: Message, index: nat): Result<DecompiledInitializeAccount, Error>
    requires InRange(m)
  {
    if index >= |m.instructions| then Err(NoInstruction) else InitializeAccountOf(Resolve(m, index))
  }

  // ---------- SetAuthority

  function SetAuthorityData(newAuthority: Key, authorityType: byte): seq<byte> {
    if |newAuthority| > 0 then [COMMAND_SET_AUTHORITY, authorityType, 1] + newAuthority
    else [COMMAND_SET_AUTHORITY, authorityType, 0]
  }

  function SetAuthority(account: Key, currentAuthority: Key, newAuthority: Key, authorityType: byte): Instruction {
    Instruction(
      PROGRAM_KEY,
      [NewAccountMeta(account, false), NewReadonlyAccountMeta(currentAuthority, true)],
      SetAuthorityData(newAuthority, authorityType))
  }

  function SignerMetas(signers: seq<Key>): (r: seq<AccountMeta>)
    ensures |r| == |signers| && forall k :: 0 <= k < |signers| ==> r[k] == NewReadonlyAccountMeta(signers[k], true)
  {
    seq(|signers|, k requires 0 <= k < |signers| => NewReadonlyAccountMeta(signers[k], true))
  }

  function SetAuthorityMultisig(account: Key, multisigOwner: Key, newAuthority: Key, authorityType: byte,
                                signers: seq<Key>): Instruction
  {
    Instruction(
      PROGRAM_KEY,
      [NewAccountMeta(account, false), NewReadonlyAccountMeta(multisigOwner, false)] + SignerMetas(signers),
      SetAuthorityData(newAuthority, authorityType))
  }

  /** `newAuthority` is empty when the instruction names none. */
  datatype DecompiledSetAuthority = DecompiledSetAuthority(
    account: Key,
    currentAuthority: Key,
    newAuthority: Key,
    authorityType: byte)

  function SetAuthorityOf(i: Resolved): Result<DecompiledSetAuthority, Error> {
    if i.program != PROGRAM_KEY then Err(IncorrectProgram)
    else if !([COMMAND_SET_AUTHORITY] <= i.data) then Err(IncorrectInstruction)
    else if |i.accounts| < 2 then Err(BadAccountCount)
    else if |i.data| < 3 then Err(BadData)
    else if i.data[2] == 0 && |i.data| != 3 then Err(BadData)
    else if i.data[2] == 1 && |i.data| != 3 + KEY_SIZE then Err(BadData)
    else Ok(DecompiledSetAuthority(
              i.accounts[0],
              i.accounts[1],
              if i.data[2] == 1 then i.data[3..3 + KEY_SIZE] else [],
              i.data[1]))
  }

  function DecompileSetAuthority(m: Message, index: nat): Result<DecompiledSetAuthority, Error>
    requires InRange(m)
  {
    if index >= |m.instructions| then Err(NoInstruction) else SetAuthorityOf(Resolve(m, index))
  }

  // ---------- Transfer

  function Transfer(source: Key, dest: Key, owner: Key, amount: uint64): Instruction {
    Instruction(
      PROGRAM_KEY,
      [NewAccountMeta(source, false), NewAccountMeta(dest, false), NewReadonlyAccountMeta(owner, true)],
      [COMMAND_TRANSFER] + LittleEndian(amount, 8))
  }

  function TransferMultisig(source: Key, dest: Key, multisigOwner: Key, amount: uint64, signers: seq<Key>): Instruction
  {
    Instruction(
      PROGRAM_KEY,
      [NewAccountMeta(source, false), NewAccountMeta(dest, false), NewReadonlyAccountMeta(multisigOwner, false)]
      + SignerMetas(signers),
      [COMMAND_TRANSFER] + LittleEndian(amount, 8))
  }

  datatype DecompiledTransfer = DecompiledTransfer(source: Key, destination: Key, owner: Key, amount: nat)

  function TransferOf(i: Resolved): Result<DecompiledTransfer, Error> {
    if i.program != PROGRAM_KEY then Err(IncorrectProgram)
    else if !([COMMAND_TRANSFER] <= i.data) then Err(IncorrectInstruction)
    else if |i.accounts| < 3 then Err(BadAccountCount)
    else if |i.data| != 9 then Err(BadData)
    else Ok(DecompiledTransfer(i.accounts[0], i.accounts[1], i.accounts[2], FromLittleEndian(i.data[1..])))
  }

  function DecompileTransfer(m: Message, index: nat): Result<DecompiledTransfer, Error>
    requires InRange(m)
  {
    if index >= |m.instructions| then Err(NoInstruction) else TransferOf(Resolve(m, index))
  }

  // ---------- Transfer2

  function Transfer2(source: Key, mint: Key, dest: Key, owner: Key, amount: uint64, decimals: byte): Instruction {
    Instruction(
      PROGRAM_KEY,
      [NewAccountMeta(source, false), NewReadonlyAccountMeta(mint, false), NewAccountMeta(dest, false),
       NewReadonlyAccountMeta(owner, true)],
      [COMMAND_TRANSFER2] + LittleEndian(amount, 8) + [decimals])
  }

  datatype DecompiledTransfer2 = DecompiledTransfer2(
    source: Key,
    mint: Key,
    destination: Key,
    owner: Key,
    amount: nat,
    decimals: byte)

  function Transfer2Of(i: Resolved): Result<DecompiledTransfer2, Error> {
    if i.program != PROGRAM_KEY then Err(IncorrectProgram)
    else if !([COMMAND_TRANSFER2] <= i.data) then Err(IncorrectInstruction)
    else if |i.accounts| < 4 then Err(BadAccountCount)
    else if |i.data| != 10 then Err(BadData)
    else Ok(DecompiledTransfer2(i.accounts[0], i.accounts[1], i.accounts[2], i.accounts[3],
                                FromLittleEndian(i.data[1..9]), i.data[9]))
  }

  // ---------- CloseAccount

  function CloseAccount(account: Key, dest: Key, owner: Key): Instruction {
    Instruction(
      PROGRAM_KEY,
      [NewAccountMeta(account, false), NewAccountMeta(dest, false), NewReadonlyAccountMeta(owner, true)],
      [COMMAND_CLOSE_ACCOUNT])
  }

  datatype DecompiledCloseAccount = DecompiledCloseAccount(account: Key, destination: Key, owner: Key)

  function CloseAccountOf(i: Resolved): Result<DecompiledCloseAccount, Error> {
    if i.program != PROGRAM_KEY then Err(IncorrectProgram)
    else if i.data != [COMMAND_CLOSE_ACCOUNT] then Err(IncorrectInstruction)
    else if |i.accounts| < 3 then Err(BadAccountCount)
    else Ok(DecompiledCloseAccount(i.accounts[0], i.accounts[1], i.accounts[2]))
  }

  function DecompileCloseAccount(m: Message, index: nat): Result<DecompiledCloseAccount, Error>
    requires InRange(m)
  {
    if index >= |m.instructions| then Err(NoInstruction) else CloseAccountOf(Resolve(m, index))
  }

  // ---------- associated accounts

  /** The derived address is a hash on a curve and is taken as given. */
  function CreateAssociatedTokenAccount(subsidizer: Key, address: Key, wallet: Key, mint: Key): Instruction {
    Instruction(
      ASSOCIATED_PROGRAM_KEY,
      [NewAccountMeta(subsidizer, true), NewAccountMeta(address, false), NewReadonlyAccountMeta(wallet, false),
       NewReadonlyAccountMeta(mint, false), NewReadonlyAccountMeta(SystemProgram.PROGRAM_KEY, false),
       NewReadonlyAccountMeta(PROGRAM_KEY, false), NewReadonlyAccountMeta(SystemProgram.RENT_SYS_VAR, false)],
      [])
  }

  datatype DecompiledCreateAssociatedAccount = DecompiledCreateAssociatedAccount(
    subsidizer: Key,
    address: Key,
    owner: Key,
    mint: Key)

  function CreateAssociatedAccountOf(i: Resolved): Result<DecompiledCreateAssociatedAccount, Error> {
    if i.program != ASSOCIATED_PROGRAM_KEY then Err(IncorrectProgram)
    else if |i.data| != 0 then Err(BadData)
    else if |i.accounts| != 7 then Err(BadAccountCount)
    else if i.accounts[4] != SystemProgram.PROGRAM_KEY then Err(BadReference)
    else if i.accounts[5] != PROGRAM_KEY then Err(BadReference)
    else if i.accounts[6] != SystemProgram.RENT_SYS_VAR then Err(BadReference)
    else Ok(DecompiledCreateAssociatedAccount(i.accounts[0], i.accounts[1], i.accounts[2], i.accounts[3]))
  }

  function DecompileCreateAssociatedAccount(m: Message, index: nat): Result<DecompiledCreateAssociatedAccount, Error>
    requires InRange(m)
  {
    if index >= |m.instructions| then Err(NoInstruction) else CreateAssociatedAccountOf(Resolve(m, index))
  }
}

/** `solana/memo/program.go`. */
module MemoProgram {
  import opened Common
  import opened Solana
  import opened Decompiling

  const PROGRAM_KEY: Key := [5, 74, 83, 80, 248, 93, 200, 130, 214, 20, 165, 86, 114, 120, 138, 41,
                             109, 223, 30, 171, 171, 208, 166, 6, 120, 136, 73, 50, 244, 238, 246, 160]

  function MemoInstruction(data: seq<byte>): Instruction {
    Instruction(PROGRAM_KEY, [], data)
  }

  function MemoOf(i: Resolved): Result<seq<byte>, Error> {
    if i.program != PROGRAM_KEY then Err(IncorrectProgram) else Ok(i.data)
  }

  function DecompileMemo(m: Message, index: nat): Result<seq<byte>, Error>
    requires InRange(m)
  {
    if index >= |m.instructions| then Err(NoInstruction) else MemoOf(Resolve(m, index))
  }
}
