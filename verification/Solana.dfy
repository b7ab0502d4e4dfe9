/**
 The data model of `solana/transaction.go` and `solana/instruction.go`.
 */
module Solana {
  import opened Common

  const SIGNATURE_SIZE: nat := 64

  type Signature = s: seq<byte> | |s| == 64 witness seq(64, _ => 0)

  type Blockhash = s: seq<byte> | |s| == 32 witness seq(32, _ => 0)

  const NO_SIGNATURE: Signature := Zeros(64)

  const NO_BLOCKHASH: Blockhash := Zeros(32)

  datatype Header = Header(numSignatures: byte, numReadonlySigned: byte, numReadOnly: byte)

  /** An instruction whose keys have been replaced by indices into the message's accounts. */
  datatype CompiledInstruction = CompiledInstruction(programIndex: byte, accounts: seq<byte>, data: seq<byte>)

  datatype Message = Message(
    header: Header,
    accounts: seq<Key>,
    recentBlockhash: Blockhash,
    instructions: seq<CompiledInstruction>)

  datatype Transaction = Transaction(signatures: seq<Signature>, message: Message)

  /** `isPayer` and `isProgram` are private to the package: no constructor below sets them. */
  datatype AccountMeta = AccountMeta(
    key: Key,
    isSigner: bool,
    isWritable: bool,
    isPayer: bool,
    isProgram: bool)

  function NewAccountMeta(key: Key, isSigner: bool): AccountMeta {
    AccountMeta(key, isSigner, true, false, false)
  }

  function NewReadonlyAccountMeta(key: Key, isSigner: bool): AccountMeta {
    AccountMeta(key, isSigner, false, false, false)
  }

  datatype Instruction = Instruction(program: Key, accounts: seq<AccountMeta>, data: seq<byte>)

  /** What a compiled instruction stands for once its indices are looked up. */
  datatype Resolved = Resolved(program: Key, accounts: seq<Key>, data: seq<byte>)

  predicate InstructionInRange(c: CompiledInstruction, accountCount: nat) {
    && c.programIndex < accountCount
    && forall k :: 0 <= k < |c.accounts| ==> c.accounts[k] < accountCount
  }

  /** No index of any instruction points outside the account list. */
  predicate InRange(m: Message) {
    forall k :: 0 <= k < |m.instructions| ==> InstructionInRange(m.instructions[k], |m.accounts|)
  }

  function LookUp(accounts: seq<Key>, indices: seq<byte>): (keys: seq<Key>)
    requires forall k :: 0 <= k < |indices| ==> indices[k] < |accounts|
    ensures |keys| == |indices| && forall k :: 0 <= k < |indices| ==> keys[k] == accounts[indices[k]]
  {
    seq(|indices|, k requires 0 <= k < |indices| => accounts[indices[k]])
  }

  function Resolve(m: Message, k: nat): Resolved
    requires k < |m.instructions| && InstructionInRange(m.instructions[k], |m.accounts|)
  {
    Resolved(
      m.accounts[m.instructions[k].programIndex],
      LookUp(m.accounts, m.instructions[k].accounts),
      m.instructions[k].data)
  }
}
