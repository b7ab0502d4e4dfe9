/**
 `Transaction.Sign` of `solana/transaction.go`. The signature scheme is a parameter: a private key
 has a public key, and signs bytes.
 */
module Signing {
  import opened Common
  import opened Solana
  import opened Encoding
  import opened Compiler
  import opened Compilation

  datatype Scheme<!S> = Scheme(publicKey: S -> Key, sign: (S, seq<byte>) -> Signature)

  /** The slot a signer writes: the first account holding its public key. */
  function Slot<S>(scheme: Scheme<S>, accounts: seq<Key>, s: S): int {
    IndexOf(accounts, scheme.publicKey(s))
  }

  /** A signer the transaction has a signature slot for. */
  predicate HasSlot<S>(scheme: Scheme<S>, accounts: seq<Key>, slots: nat, s: S) {
    0 <= Slot(scheme, accounts, s) < slots
  }

  /** Signs in order and stops at the first signer without a slot, keeping what was already written. */
  function SignAll<S>(scheme: Scheme<S>, m: Message, sigs: seq<Signature>, signers: seq<S>): (r: (bool, seq<Signature>))
    ensures |r.1| == |sigs|
    decreases signers
  {
    if signers == [] then (true, sigs)
    else
      var i := Slot(scheme, m.accounts, signers[0]);
      if !(0 <= i < |sigs|) then (false, sigs)
      else SignAll(scheme, m, sigs[i := scheme.sign(signers[0], MessageBytes(m))], signers[1..])
  }

  /** `Sign` updates the signature slots in place. */
  method Sign<S>(scheme: Scheme<S>, m: Message, signatures: array<Signature>, signers: seq<S>) returns (ok: bool)
    modifies signatures
    ensures (ok, signatures[..]) == SignAll(scheme, m, old(signatures[..]), signers)
  {
    var messageBytes := MarshalMessage(m);
    ghost var whole := SignAll(scheme, m, signatures[..], signers);
    for k := 0 to |signers|
      invariant SignAll(scheme, m, signatures[..], signers[k..]) == whole
    {
      assert signers[k..][0] == signers[k] && signers[k..][1..] == signers[k + 1..];
      var index := FindIndex(m.accounts, scheme.publicKey(signers[k]));
      if index < 0 {
        return false;
      }
      if index >= signatures.Length {
        return false;
      }
      ghost var before := signatures[..];
      signatures[index] := scheme.sign(signers[k], messageBytes);
      assert signatures[..] == before[index := scheme.sign(signers[k], messageBytes)];
    }
    return true;
  }

  /** Signing succeeds exactly when every signer has a slot. */
  lemma {:induction false} SignSucceedsExactly<S>(scheme: Scheme<S>, m: Message, sigs: seq<Signature>, signers: seq<S>)
    ensures SignAll(scheme, m, sigs, signers).0 <==>
            forall k :: 0 <= k < |signers| ==> HasSlot(scheme, m.accounts, |sigs|, signers[k])
    decreases signers
  {
    if signers != [] && HasSlot(scheme, m.accounts, |sigs|, signers[0]) {
      var i := Slot(scheme, m.accounts, signers[0]);
      SignSucceedsExactly(scheme, m, sigs[i := scheme.sign(signers[0], MessageBytes(m))], signers[1..]);
      assert (forall k :: 0 <= k < |signers| ==> HasSlot(scheme, m.accounts, |sigs|, signers[k])) <==>
        forall k :: 0 <= k < |signers[1..]| ==> HasSlot(scheme, m.accounts, |sigs|, signers[1..][k]) by {
        assert forall k :: 0 < k < |signers| ==> signers[k] == signers[1..][k - 1];
      }
    }
  }

  /** Only slots of the signers given are written, on failure as on success. */
  lemma {:induction false} OtherSlotsKept<S>(scheme: Scheme<S>, m: Message, sigs: seq<Signature>, signers: seq<S>,
                                             i: nat)
    requires i < |sigs|
    requires forall k :: 0 <= k < |signers| ==> Slot(scheme, m.accounts, signers[k]) != i
    ensures SignAll(scheme, m, sigs, signers).1[i] == sigs[i]
    decreases signers
  {
    if signers != [] && HasSlot(scheme, m.accounts, |sigs|, signers[0]) {
      var j := Slot(scheme, m.accounts, signers[0]);
      OtherSlotsKept(scheme, m, sigs[j := scheme.sign(signers[0], MessageBytes(m))], signers[1..], i);
    }
  }

  /** On success, a slot holds what the last signer for it wrote. */
  lemma {:induction false} LastSignerWins<S>(scheme: Scheme<S>, m: Message, sigs: seq<Signature>, signers: seq<S>,
                                             k: nat)
    requires SignAll(scheme, m, sigs, signers).0 && k < |signers|
    requires forall j :: k < j < |signers| ==>
               Slot(scheme, m.accounts, signers[j]) != Slot(scheme, m.accounts, signers[k])
    ensures HasSlot(scheme, m.accounts, |sigs|, signers[k])
    ensures SignAll(scheme, m, sigs, signers).1[Slot(scheme, m.accounts, signers[k])] ==
            scheme.sign(signers[k], MessageBytes(m))
    decreases signers
  {
    SignSucceedsExactly(scheme, m, sigs, signers);
    assert HasSlot(scheme, m.accounts, |sigs|, signers[0]);
    var i := Slot(scheme, m.accounts, signers[0]);
    var next := sigs[i := scheme.sign(signers[0], MessageBytes(m))];
    if k == 0 {
      OtherSlotsKept(scheme, m, next, signers[1..], i);
    } else {
      LastSignerWins(scheme, m, next, signers[1..], k - 1);
    }
  }

  predicate SlotTaken<S>(scheme: Scheme<S>, accounts: seq<Key>, signers: seq<S>, i: nat) {
    exists k :: 0 <= k < |signers| && Slot(scheme, accounts, signers[k]) == i
  }

  /** The public keys of `signers` include every account the header requires to sign. */
  predicate CoversSlots<S>(scheme: Scheme<S>, m: Message, slots: nat, signers: seq<S>) {
    forall i :: 0 <= i < slots ==> SlotTaken(scheme, m.accounts, signers, i)
  }

  lemma LastFor<S>(scheme: Scheme<S>, accounts: seq<Key>, signers: seq<S>, i: nat, k: nat) returns (last: nat)
    requires k < |signers| && Slot(scheme, accounts, signers[k]) == i
    ensures last < |signers| && Slot(scheme, accounts, signers[last]) == i
    ensures forall j :: last < j < |signers| ==> Slot(scheme, accounts, signers[j]) != i
    decreases |signers| - k
  {
    if j :| k < j < |signers| && Slot(scheme, accounts, signers[j]) == i {
      last := LastFor(scheme, accounts, signers, i, j);
    } else {
      last := k;
    }
  }

  /**
   When the signers cover all slots and signing succeeds, slot `i` holds a signature over the
   message's own bytes by a signer whose public key is account `i`.
   */
  lemma FullySigned<S>(scheme: Scheme<S>, m: Message, sigs: seq<Signature>, signers: seq<S>, i: nat)
    requires SignAll(scheme, m, sigs, signers).0 && CoversSlots(scheme, m, |sigs|, signers)
    requires i < |sigs|
    ensures 0 <= i < |m.accounts|
    ensures exists k :: 0 <= k < |signers| && scheme.publicKey(signers[k]) == m.accounts[i] &&
              SignAll(scheme, m, sigs, signers).1[i] == scheme.sign(signers[k], MessageBytes(m))
  {
    assert SlotTaken(scheme, m.accounts, signers, i);
    var k :| 0 <= k < |signers| && Slot(scheme, m.accounts, signers[k]) == i;
    var last := LastFor(scheme, m.accounts, signers, i, k);
    LastSignerWins(scheme, m, sigs, signers, last);
    assert scheme.publicKey(signers[last]) == m.accounts[i];
  }

  // ---------- signing what was compiled

  /**
   Whether the key was asked to sign, by some instruction or as the payer. The zero key also stands
   for a missing key, and no signer has an empty public key on the wire.
   */
  predicate MaySign(all: seq<AccountMeta>, key: Key) {
    key != [] && (AskedToSign(all, key) || (key == ZERO_KEY && AskedToSign(all, [])))
  }

  lemma FirstMatch(keys: seq<Key>, key: Key, n: nat)
    requires n <= |keys|
    ensures 0 <= IndexOf(keys, key) < n <==> exists i :: 0 <= i < n && keys[i] == key
  {
    if exists i :: 0 <= i < n && keys[i] == key {
      var i :| 0 <= i < n && keys[i] == key;
      assert IndexOf(keys, key) <= i;
    }
  }

  lemma FilledMatch(a: Key, key: Key)
    ensures Filled(a) == key <==> key != [] && (a == key || (a == [] && key == ZERO_KEY))
  {
  }

  /** Among the accounts that must sign, one reads as `key` on the wire exactly when `key` may sign. */
  lemma SignerMatch(payer: Key, instructions: seq<Instruction>, order: seq<AccountMeta>, key: Key, n: nat)
    requires IsOrder(payer, instructions, order) && n <= |order|
    requires forall i :: 0 <= i < |order| ==> (i < n <==> AskedToSign(Collect(payer, instructions), order[i].key))
    ensures (exists i :: 0 <= i < n && FilledKeys(Keys(order))[i] == key) <==>
            MaySign(Collect(payer, instructions), key)
  {
    var all := Collect(payer, instructions);
    if exists i :: 0 <= i < n && FilledKeys(Keys(order))[i] == key {
      var i :| 0 <= i < n && FilledKeys(Keys(order))[i] == key;
      FilledMatch(order[i].key, key);
    }
    if MaySign(all, key) {
      var asked := if AskedToSign(all, key) then key else [];
      var a :| a in all && a.key == asked && a.isSigner;
      var i := IndexOfEntry(payer, instructions, order, asked);
      FilledMatch(order[i].key, key);
      assert FilledKeys(Keys(order))[i] == key;
    }
  }

  lemma LayoutCounts(all: seq<AccountMeta>, order: seq<AccountMeta>, n: nat)
    requires LayoutHolds(all, Keys(order), HeaderOf(order)) && n == HeaderOf(order).numSignatures
    ensures n <= |order|
    ensures forall i :: 0 <= i < |order| ==> (i < n <==> AskedToSign(all, order[i].key))
  {
    assert forall i :: 0 <= i < |order| ==> Keys(order)[i] == order[i].key;
  }

  /**
   A freshly compiled transaction has a slot for a signer exactly when some instruction, or the
   payer's role, asked that signer's key to sign.
   */
  lemma CompiledSlotExactly<S>(scheme: Scheme<S>, payer: Key, instructions: seq<Instruction>,
                               order: seq<AccountMeta>, s: S)
    requires IsOrder(payer, instructions, order)
    requires LayoutHolds(Collect(payer, instructions), Keys(order), HeaderOf(order))
    ensures var t := Assemble(order, instructions);
            HasSlot(scheme, t.message.accounts, |t.signatures|, s) <==>
            MaySign(Collect(payer, instructions), scheme.publicKey(s))
  {
    var n := HeaderOf(order).numSignatures;
    LayoutCounts(Collect(payer, instructions), order, n);
    SignerMatch(payer, instructions, order, scheme.publicKey(s), n);
    FirstMatch(FilledKeys(Keys(order)), scheme.publicKey(s), n);
  }

  /** Under the header layout, signing succeeds exactly when every signer was asked to sign. */
  lemma SigningCompiledExactly<S>(scheme: Scheme<S>, payer: Key, instructions: seq<Instruction>,
                                  order: seq<AccountMeta>, signers: seq<S>)
    requires IsOrder(payer, instructions, order)
    requires LayoutHolds(Collect(payer, instructions), Keys(order), HeaderOf(order))
    ensures var t := Assemble(order, instructions);
            SignAll(scheme, t.message, t.signatures, signers).0 <==>
            forall k :: 0 <= k < |signers| ==> MaySign(Collect(payer, instructions), scheme.publicKey(signers[k]))
  {
    var t := Assemble(order, instructions);
    SignSucceedsExactly(scheme, t.message, t.signatures, signers);
    forall k | 0 <= k < |signers|
      ensures HasSlot(scheme, t.message.accounts, |t.signatures|, signers[k]) <==>
              MaySign(Collect(payer, instructions), scheme.publicKey(signers[k]))
    {
      CompiledSlotExactly(scheme, payer, instructions, order, signers[k]);
    }
  }
}
