/**
 `NewTransaction` of `solana/transaction.go`: account requests are merged, sorted and counted,
 and every key in an instruction becomes a byte index.
 */
module Compiler {
  import opened Common
  import opened Solana

  // ---------- the requests of a transaction

  function PayerMeta(payer: Key): AccountMeta {
    AccountMeta(payer, true, true, true, false)
  }

  function ProgramMeta(program: Key): AccountMeta {
    AccountMeta(program, false, false, false, true)
  }

  function Metas(i: Instruction): seq<AccountMeta> {
    [ProgramMeta(i.program)] + i.accounts
  }

  /** Every request in order: the payer, then each instruction's program and accounts. */
  function Collect(payer: Key, instructions: seq<Instruction>): (all: seq<AccountMeta>)
    ensures |all| > 0 && all[0] == PayerMeta(payer)
  {
    if instructions == [] then [PayerMeta(payer)]
    else
      var n := |instructions| - 1;
      Collect(payer, instructions[..n]) + Metas(instructions[n])
  }

  function Keys(s: seq<AccountMeta>): (keys: seq<Key>)
    ensures |keys| == |s| && forall i :: 0 <= i < |s| ==> keys[i] == s[i].key
  {
    seq(|s|, i requires 0 <= i < |s| => s[i].key)
  }

  function IndexOf(keys: seq<Key>, key: Key): (i: int)
    ensures -1 <= i < |keys|
    ensures i >= 0 ==> keys[i] == key
    ensures i == -1 <==> key !in keys
    ensures forall j :: 0 <= j < i ==> keys[j] != key
  {
    if keys == [] then -1
    else if keys[0] == key then 0
    else
      var i := IndexOf(keys[1..], key);
      if i < 0 then -1 else i + 1
  }

  predicate HasKey(all: seq<AccountMeta>, key: Key) {
    exists a :: a in all && a.key == key
  }

  predicate AskedToSign(all: seq<AccountMeta>, key: Key) {
    exists a :: a in all && a.key == key && a.isSigner
  }

  predicate AskedToWrite(all: seq<AccountMeta>, key: Key) {
    exists a :: a in all && a.key == key && a.isWritable
  }

  predicate AskedToPay(all: seq<AccountMeta>, key: Key) {
    exists a :: a in all && a.key == key && a.isPayer
  }

  /** Whether the first request for a key is as an instruction's program. */
  predicate FirstAsProgram(all: seq<AccountMeta>, key: Key) {
    var i := IndexOf(Keys(all), key);
    i >= 0 && all[i].isProgram
  }

  /** All that is asked of one key: flags are the disjunction over its requests. */
  function Permissions(all: seq<AccountMeta>, key: Key): AccountMeta {
    AccountMeta(key, AskedToSign(all, key), AskedToWrite(all, key), AskedToPay(all, key), FirstAsProgram(all, key))
  }

  predicate Distinct(s: seq<AccountMeta>) {
    forall i, j :: 0 <= i < j < |s| ==> s[i].key != s[j].key
  }

  /** `s` holds each requested key once, with everything that was asked of it. */
  predicate IsMerge(all: seq<AccountMeta>, s: seq<AccountMeta>) {
    && Distinct(s)
    && (forall m :: m in s ==> IsEntry(all, m))
    && (forall a :: a in all ==> HasKey(s, a.key))
  }

  // ---------- merging

  lemma InSnoc(s: seq<AccountMeta>, a: AccountMeta)
    ensures forall x :: x in s + [a] <==> x in s || x == a
  {
  }

  lemma HasKeyIndex(all: seq<AccountMeta>, key: Key)
    ensures HasKey(all, key) <==> IndexOf(Keys(all), key) >= 0
  {
    if HasKey(all, key) {
      var a :| a in all && a.key == key;
      var i :| 0 <= i < |all| && all[i] == a;
      assert Keys(all)[i] == key;
    }
  }

  lemma FirstAsProgramSnoc(all: seq<AccountMeta>, a: AccountMeta, key: Key)
    ensures FirstAsProgram(all + [a], key) <==>
            if HasKey(all, key) then FirstAsProgram(all, key) else a.key == key && a.isProgram
  {
    HasKeyIndex(all, key);
    assert Keys(all + [a]) == Keys(all) + [a.key];
    var i := IndexOf(Keys(all), key);
    var j := IndexOf(Keys(all) + [a.key], key);
    if i >= 0 {
      assert (Keys(all) + [a.key])[i] == key;
      assert j == i;
    } else if a.key == key {
      assert (Keys(all) + [a.key])[|all|] == key;
      assert j == |all|;
    } else {
      assert j == -1;
    }
  }

  /** One more request only adds to the key it names. */
  lemma PermissionsSnoc(all: seq<AccountMeta>, a: AccountMeta, key: Key)
    ensures HasKey(all + [a], key) <==> HasKey(all, key) || key == a.key
    ensures var before := Permissions(all, key);
            var hit := key == a.key;
            Permissions(all + [a], key) ==
            AccountMeta(key, before.isSigner || (hit && a.isSigner), before.isWritable || (hit && a.isWritable),
                        before.isPayer || (hit && a.isPayer),
                        if HasKey(all, key) then before.isProgram else hit && a.isProgram)
  {
    InSnoc(all, a);
    FirstAsProgramSnoc(all, a, key);
  }

  lemma UpdatedKeys(s: seq<AccountMeta>, j: nat, m: AccountMeta, key: Key)
    requires j < |s| && s[j].key == m.key
    ensures HasKey(s[j := m], key) <==> HasKey(s, key)
  {
    var t := s[j := m];
    assert forall i :: 0 <= i < |s| ==> t[i].key == s[i].key;
    if HasKey(s, key) {
      var a :| a in s && a.key == key;
      var i :| 0 <= i < |s| && s[i] == a;
      assert t[i] in t;
    }
  }

  /** `m` is the entry of its key among the requests `all`. */
  predicate IsEntry(all: seq<AccountMeta>, m: AccountMeta) {
    HasKey(all, m.key) && m == Permissions(all, m.key)
  }

  lemma EntryPromoted(all: seq<AccountMeta>, a: AccountMeta, m: AccountMeta)
    requires IsEntry(all, m) && m.key == a.key
    ensures IsEntry(all + [a], AccountMeta(m.key, m.isSigner || a.isSigner, m.isWritable || a.isWritable,
                                           m.isPayer || a.isPayer, m.isProgram))
  {
    PermissionsSnoc(all, a, m.key);
  }

  lemma EntryKept(all: seq<AccountMeta>, a: AccountMeta, m: AccountMeta)
    requires IsEntry(all, m) && m.key != a.key
    ensures IsEntry(all + [a], m)
  {
    PermissionsSnoc(all, a, m.key);
  }

  lemma EntryNew(all: seq<AccountMeta>, a: AccountMeta)
    requires !HasKey(all, a.key)
    ensures IsEntry(all + [a], a)
  {
    PermissionsSnoc(all, a, a.key);
    HasKeyIndex(all, a.key);
  }

  lemma PromotedEntries(all: seq<AccountMeta>, a: AccountMeta, s: seq<AccountMeta>, j: nat, promoted: AccountMeta,
                        k: nat)
    requires IsMerge(all, s) && j < |s| && s[j].key == a.key && k < |s|
    requires promoted == AccountMeta(s[j].key, s[j].isSigner || a.isSigner, s[j].isWritable || a.isWritable,
                                     s[j].isPayer || a.isPayer, s[j].isProgram)
    ensures IsEntry(all + [a], s[j := promoted][k])
  {
    assert s[k] in s;
    if k == j { EntryPromoted(all, a, s[j]); } else { EntryKept(all, a, s[k]); }
  }

  lemma PromotedKeys(all: seq<AccountMeta>, a: AccountMeta, s: seq<AccountMeta>, j: nat, promoted: AccountMeta)
    requires IsMerge(all, s) && j < |s| && s[j].key == a.key == promoted.key
    ensures forall x :: x in all + [a] ==> HasKey(s[j := promoted], x.key)
  {
    InSnoc(all, a);
    forall x | x in all + [a]
      ensures HasKey(s[j := promoted], x.key)
    {
      assert s[j] in s;
      UpdatedKeys(s, j, promoted, x.key);
    }
  }

  /** A request for a key already present promotes its entry and leaves the others alone. */
  lemma MergePromotes(all: seq<AccountMeta>, a: AccountMeta, s: seq<AccountMeta>, j: nat, promoted: AccountMeta)
    requires IsMerge(all, s) && j < |s| && s[j].key == a.key
    requires promoted == AccountMeta(s[j].key, s[j].isSigner || a.isSigner, s[j].isWritable || a.isWritable,
                                     s[j].isPayer || a.isPayer, s[j].isProgram)
    ensures IsMerge(all + [a], s[j := promoted])
  {
    var t := s[j := promoted];
    forall m | m in t
      ensures IsEntry(all + [a], m)
    {
      var k :| 0 <= k < |t| && t[k] == m;
      PromotedEntries(all, a, s, j, promoted, k);
    }
    PromotedKeys(all, a, s, j, promoted);
  }

  /** A request for a new key adds an entry. */
  lemma MergeAppends(all: seq<AccountMeta>, a: AccountMeta, s: seq<AccountMeta>)
    requires IsMerge(all, s) && !HasKey(s, a.key)
    ensures IsMerge(all + [a], s + [a])
  {
    var t := s + [a];
    InSnoc(all, a);
    InSnoc(s, a);
    assert !HasKey(all, a.key);
    forall m | m in t
      ensures IsEntry(all + [a], m)
    {
      if m in s { EntryKept(all, a, m); } else { EntryNew(all, a); }
    }
    forall x | x in all + [a]
      ensures HasKey(t, x.key)
    {
      if x in all {
        var y :| y in s && y.key == x.key;
        assert y in t;
      }
    }
  }

  /** `filterUnique`: one entry a key, promoted in place when the key is met again. */
  method FilterUnique(accounts: seq<AccountMeta>) returns (filtered: seq<AccountMeta>)
    ensures IsMerge(accounts, filtered)
  {
    filtered := [];
    for i := 0 to |accounts|
      invariant IsMerge(accounts[..i], filtered)
    {
      ghost var before := filtered;
      assert accounts[..i + 1] == accounts[..i] + [accounts[i]];
      var seen := false;
      var j := 0;
      while j < |filtered| && !seen
        invariant 0 <= j <= |filtered|
        invariant !seen ==> filtered == before && forall k :: 0 <= k < j ==> before[k].key != accounts[i].key
        invariant seen ==> IsMerge(accounts[..i + 1], filtered)
        decreases |filtered| - j, !seen
      {
        if accounts[i].key == filtered[j].key {
          if accounts[i].isSigner {
            filtered := filtered[j := filtered[j].(isSigner := true)];
          }
          if accounts[i].isWritable {
            filtered := filtered[j := filtered[j].(isWritable := true)];
          }
          if accounts[i].isPayer {
            filtered := filtered[j := filtered[j].(isPayer := true)];
          }
          seen := true;
          assert filtered == before[j := filtered[j]];
          MergePromotes(accounts[..i], accounts[i], before, j, filtered[j]);
        } else {
          j := j + 1;
        }
      }
      if !seen {
        MergeAppends(accounts[..i], accounts[i], filtered);
        filtered := filtered + [accounts[i]];
      }
    }
    assert accounts[..|accounts|] == accounts;
  }

  // ---------- sorting

  /** `SortableAccountMeta.Less`. */
  predicate Less(a: AccountMeta, b: AccountMeta) {
    if a.isPayer != b.isPayer then a.isPayer
    else if a.isProgram != b.isProgram then !a.isProgram
    else if a.isSigner != b.isSigner then a.isSigner
    else if a.isWritable != b.isWritable then a.isWritable
    else false
  }

  /**
   Any result `sort.Sort` may leave: it is not stable, so all that is known is that nothing
   was lost and that no later element is less than an earlier one.
   */
  predicate SortOutcome(before: seq<AccountMeta>, s: seq<AccountMeta>) {
    && multiset(s) == multiset(before)
    && forall i, j :: 0 <= i < j < |s| ==> !Less(s[j], s[i])
  }

  /** The order `Less` decides, as a number. */
  function Rank(a: AccountMeta): (r: nat) {
    (if a.isPayer then 0 else 8) + (if a.isProgram then 4 else 0) + Class(a)
  }

  lemma LessIsRank(a: AccountMeta, b: AccountMeta)
    ensures Less(a, b) <==> Rank(a) < Rank(b)
  {
  }

  lemma InsertKeeps(s: seq<AccountMeta>, j: nat, a: AccountMeta)
    requires j <= |s|
    ensures multiset(s[..j] + [a] + s[j..]) == multiset(s) + multiset{a}
  {
    assert s == s[..j] + s[j..];
  }

  lemma InsertOrdered(s: seq<AccountMeta>, j: nat, a: AccountMeta, t: seq<AccountMeta>)
    requires j <= |s| && t == s[..j] + [a] + s[j..]
    requires forall i, k :: 0 <= i < k < |s| ==> Rank(s[i]) <= Rank(s[k])
    requires forall k :: 0 <= k < j ==> Rank(s[k]) <= Rank(a)
    requires j < |s| ==> Rank(a) < Rank(s[j])
    ensures forall i, k :: 0 <= i < k < |t| ==> Rank(t[i]) <= Rank(t[k])
  {
    forall i, k | 0 <= i < k < |t| ensures Rank(t[i]) <= Rank(t[k]) {
      InsertOrderedAt(s, j, a, t, i, k);
    }
  }

  lemma InsertOrderedAt(s: seq<AccountMeta>, j: nat, a: AccountMeta, t: seq<AccountMeta>, i: nat, k: nat)
    requires j <= |s| && t == s[..j] + [a] + s[j..] && i < k < |t|
    requires forall i, k :: 0 <= i < k < |s| ==> Rank(s[i]) <= Rank(s[k])
    requires forall k :: 0 <= k < j ==> Rank(s[k]) <= Rank(a)
    requires j < |s| ==> Rank(a) < Rank(s[j])
    ensures Rank(t[i]) <= Rank(t[k])
  {
    var x := if i < j then i else i - 1;
    var y := if k < j then k else k - 1;
    assert i != j ==> t[i] == s[x];
    assert k != j ==> t[k] == s[y];
  }

  /** A sort whose contract promises a sort outcome and nothing about ties. */
  method Sort(before: seq<AccountMeta>) returns (s: seq<AccountMeta>)
    ensures SortOutcome(before, s)
  {
    s := [];
    for i := 0 to |before|
      invariant multiset(s) == multiset(before[..i])
      invariant forall i, k :: 0 <= i < k < |s| ==> Rank(s[i]) <= Rank(s[k])
    {
      var j := 0;
      while j < |s| && !Less(before[i], s[j])
        invariant 0 <= j <= |s|
        invariant forall k :: 0 <= k < j ==> Rank(s[k]) <= Rank(before[i])
      {
        LessIsRank(before[i], s[j]);
        j := j + 1;
      }
      if j < |s| { LessIsRank(before[i], s[j]); }
      InsertKeeps(s, j, before[i]);
      InsertOrdered(s, j, before[i], s[..j] + [before[i]] + s[j..]);
      assert before[..i + 1] == before[..i] + [before[i]];
      s := s[..j] + [before[i]] + s[j..];
    }
    assert before[..|before|] == before;
    forall i, j | 0 <= i < j < |s| ensures !Less(s[j], s[i]) { LessIsRank(s[j], s[i]); }
  }

  // ---------- header and indices

  /** 0: signs and writes, 1: signs, 2: writes, 3: neither. */
  function Class(a: AccountMeta): (c: nat)
    ensures c < 4
  {
    (if a.isSigner then 0 else 2) + (if a.isWritable then 0 else 1)
  }

  /** How many entries have a class below `c`. */
  function Below(s: seq<AccountMeta>, c: nat): (n: nat)
    ensures n <= |s|
  {
    if s == [] then 0
    else Below(s[..|s| - 1], c) + if Class(s[|s| - 1]) < c then 1 else 0
  }

  /** The three counters, each a byte that wraps. */
  function HeaderOf(s: seq<AccountMeta>): Header {
    HeaderFor(|s|, Below(s, 1), Below(s, 2), Below(s, 3))
  }

  /** Three byte counters, from how many of `n` accounts lie below each class. */
  function HeaderFor(n: nat, one: nat, two: nat, three: nat): Header {
    Header(two % 256, (two - one) % 256, (n - three) % 256)
  }

  /** `byte(indexOf(...))`. */
  function ByteIndex(keys: seq<Key>, key: Key): byte {
    IndexOf(keys, key) % 256
  }

  function Compile(keys: seq<Key>, i: Instruction): (c: CompiledInstruction)
    ensures |c.accounts| == |i.accounts|
  {
    CompiledInstruction(
      ByteIndex(keys, i.program),
      seq(|i.accounts|, k requires 0 <= k < |i.accounts| => ByteIndex(keys, i.accounts[k].key)),
      i.data)
  }

  /** Missing keys become the zero key, after the indices were computed. */
  function Filled(key: Key): Key {
    if |key| == 0 then ZERO_KEY else key
  }

  function FilledKeys(keys: seq<Key>): (r: seq<Key>)
    ensures |r| == |keys| && forall i :: 0 <= i < |keys| ==> r[i] == Filled(keys[i])
  {
    seq(|keys|, i requires 0 <= i < |keys| => Filled(keys[i]))
  }

  function CompileAll(keys: seq<Key>, instructions: seq<Instruction>): (r: seq<CompiledInstruction>)
    ensures |r| == |instructions| && forall k :: 0 <= k < |r| ==> r[k] == Compile(keys, instructions[k])
  {
    seq(|instructions|, k requires 0 <= k < |instructions| => Compile(keys, instructions[k]))
  }

  function EmptySignatures(n: nat): (r: seq<Signature>)
    ensures |r| == n && forall i :: 0 <= i < n ==> r[i] == NO_SIGNATURE
  {
    seq(n, _ => NO_SIGNATURE)
  }

  /** The transaction that `NewTransaction` returns when the sort leaves `order`. */
  function Assemble(order: seq<AccountMeta>, instructions: seq<Instruction>): Transaction {
    Transaction(
      EmptySignatures(HeaderOf(order).numSignatures),
      Message(HeaderOf(order), FilledKeys(Keys(order)), NO_BLOCKHASH, CompileAll(Keys(order), instructions)))
  }

  /** `order` is a possible sorted account list for these arguments. */
  predicate IsOrder(payer: Key, instructions: seq<Instruction>, order: seq<AccountMeta>) {
    IsMerge(Collect(payer, instructions), order) && forall i, j :: 0 <= i < j < |order| ==> !Less(order[j], order[i])
  }

  /** `t` is a transaction `NewTransaction` may return for these arguments. */
  ghost predicate IsCompiled(payer: Key, instructions: seq<Instruction>, t: Transaction) {
    exists order :: IsOrder(payer, instructions, order) && t == Assemble(order, instructions)
  }

  // ---------- a permutation of a merge is a merge

  lemma {:induction false} DistinctMeansUnique(s: seq<AccountMeta>, a: AccountMeta)
    requires Distinct(s)
    ensures multiset(s)[a] <= 1
  {
    if s != [] {
      var n := |s| - 1;
      assert s == s[..n] + [s[n]];
      DistinctMeansUnique(s[..n], a);
      assert s[n] !in s[..n];
    }
  }

  lemma TwiceInMultiset(t: seq<AccountMeta>, i: nat, j: nat)
    requires i < j < |t| && t[i] == t[j]
    ensures multiset(t)[t[i]] >= 2
  {
    assert t == t[..i] + [t[i]] + t[i + 1..j] + [t[j]] + t[j + 1..];
  }

  lemma PermutedIsDistinct(s: seq<AccountMeta>, t: seq<AccountMeta>)
    requires Distinct(s) && multiset(t) == multiset(s)
    ensures Distinct(t)
  {
    forall i, j | 0 <= i < j < |t|
      ensures t[i].key != t[j].key
    {
      if t[i].key == t[j].key {
        SameMembers(s, t, t[i]);
        SameMembers(s, t, t[j]);
        TwiceInMultiset(t, i, j);
        DistinctMeansUnique(s, t[i]);
      }
    }
  }

  lemma SameMembers(s: seq<AccountMeta>, t: seq<AccountMeta>, m: AccountMeta)
    requires multiset(t) == multiset(s)
    ensures m in t <==> m in s
  {
    assert m in t <==> m in multiset(t);
    assert m in s <==> m in multiset(s);
  }

  lemma PermutedMerge(all: seq<AccountMeta>, s: seq<AccountMeta>, t: seq<AccountMeta>)
    requires IsMerge(all, s) && multiset(t) == multiset(s)
    ensures IsMerge(all, t)
  {
    PermutedIsDistinct(s, t);
    forall m ensures m in t <==> m in s { SameMembers(s, t, m); }
    forall a | a in all ensures HasKey(t, a.key) {
      var m :| m in s && m.key == a.key;
      assert m in t;
    }
  }

  // ---------- the source's method

  method FindIndex(keys: seq<Key>, item: Key) returns (r: int)
    ensures r == IndexOf(keys, item)
  {
    for i := 0 to |keys|
      invariant item !in keys[..i]
    {
      if keys[i] == item {
        return i;
      }
    }
    return -1;
  }

  lemma BelowSnoc(s: seq<AccountMeta>, a: AccountMeta, c: nat)
    ensures Below(s + [a], c) == Below(s, c) + if Class(a) < c then 1 else 0
  {
    assert (s + [a])[..|s|] == s;
  }

  lemma {:induction false} BelowMonotone(s: seq<AccountMeta>, c: nat, d: nat)
    requires c <= d
    ensures Below(s, c) <= Below(s, d)
  {
    if s != [] { BelowMonotone(s[..|s| - 1], c, d); }
  }

  lemma WrapStep(n: int)
    ensures (n % 256 + 1) % 256 == (n + 1) % 256
  {
  }

  lemma BelowStep(s: seq<AccountMeta>, i: nat)
    requires i < |s|
    ensures forall c :: 1 <= c <= 3 ==> Below(s[..i + 1], c) == Below(s[..i], c) + if Class(s[i]) < c then 1 else 0
  {
    assert s[..i + 1] == s[..i] + [s[i]];
    forall c | 1 <= c <= 3 ensures Below(s[..i + 1], c) == Below(s[..i], c) + if Class(s[i]) < c then 1 else 0 {
      BelowSnoc(s[..i], s[i], c);
    }
  }

  /** The counting loop, with byte counters. */
  method CountHeader(accounts: seq<AccountMeta>) returns (h: Header)
    ensures h == HeaderOf(accounts)
  {
    var numSignatures, numReadonlySigned, numReadOnly := 0, 0, 0;
    ghost var signed: int, readonlySigned: int, readOnly: int := 0, 0, 0;
    for i := 0 to |accounts|
      invariant signed == Below(accounts[..i], 2)
      invariant readonlySigned == Below(accounts[..i], 2) - Below(accounts[..i], 1)
      invariant readOnly == i - Below(accounts[..i], 3)
      invariant numSignatures == signed % 256
      invariant numReadonlySigned == readonlySigned % 256
      invariant numReadOnly == readOnly % 256
    {
      var account := accounts[i];
      BelowStep(accounts, i);
      if account.isSigner {
        WrapStep(signed);
        numSignatures, signed := (numSignatures + 1) % 256, signed + 1;
        if !account.isWritable {
          WrapStep(readonlySigned);
          numReadonlySigned, readonlySigned := (numReadonlySigned + 1) % 256, readonlySigned + 1;
        }
      } else if !account.isWritable {
        WrapStep(readOnly);
        numReadOnly, readOnly := (numReadOnly + 1) % 256, readOnly + 1;
      }
    }
    assert accounts[..|accounts|] == accounts;
    return Header(numSignatures, numReadonlySigned, numReadOnly);
  }

  method CompileInstruction(keys: seq<Key>, i: Instruction) returns (c: CompiledInstruction)
    ensures c == Compile(keys, i)
  {
    var index := FindIndex(keys, i.program);
    var accounts: seq<byte> := [];
    ghost var target := Compile(keys, i).accounts;
    for k := 0 to |i.accounts|
      invariant accounts == target[..k]
    {
      var a := FindIndex(keys, i.accounts[k].key);
      accounts := accounts + [a % 256];
    }
    c := CompiledInstruction(index % 256, accounts, i.data);
  }

  method CollectMetas(payer: Key, instructions: seq<Instruction>) returns (accounts: seq<AccountMeta>)
    ensures accounts == Collect(payer, instructions)
  {
    accounts := [PayerMeta(payer)];
    for i := 0 to |instructions|
      invariant accounts == Collect(payer, instructions[..i])
    {
      ghost var before := accounts;
      accounts := accounts + [ProgramMeta(instructions[i].program)];
      accounts := accounts + instructions[i].accounts;
      assert accounts == before + Metas(instructions[i]);
      assert instructions[..i + 1][..i] == instructions[..i];
    }
    assert instructions[..|instructions|] == instructions;
  }

  method CompileInstructions(keys: seq<Key>, instructions: seq<Instruction>)
    returns (compiled: seq<CompiledInstruction>)
    ensures compiled == CompileAll(keys, instructions)
  {
    compiled := [];
    ghost var target := CompileAll(keys, instructions);
    for k := 0 to |instructions|
      invariant compiled == target[..k]
    {
      var c := CompileInstruction(keys, instructions[k]);
      compiled := compiled + [c];
    }
  }

  method FillKeys(keys: seq<Key>) returns (filled: seq<Key>)
    ensures filled == FilledKeys(keys)
  {
    filled := keys;
    ghost var target := FilledKeys(keys);
    for i := 0 to |keys|
      invariant |filled| == |keys|
      invariant forall k :: 0 <= k < i ==> filled[k] == target[k]
      invariant forall k :: i <= k < |keys| ==> filled[k] == keys[k]
    {
      if |filled[i]| == 0 {
        filled := filled[i := ZERO_KEY];
      }
    }
  }

  /** `NewTransaction`, with the sort free to break ties as it likes. */
  method NewTransaction(payer: Key, instructions: seq<Instruction>) returns (t: Transaction)
    ensures IsCompiled(payer, instructions, t)
  {
    var accounts := CollectMetas(payer, instructions);
    var filtered := FilterUnique(accounts);
    var order := Sort(filtered);
    PermutedMerge(accounts, filtered, order);
    assert IsOrder(payer, instructions, order);

    var header := CountHeader(order);
    var compiled := CompileInstructions(Keys(order), instructions);
    var filled := FillKeys(Keys(order));
    t := Transaction(EmptySignatures(header.numSignatures), Message(header, filled, NO_BLOCKHASH, compiled));
    assert t == Assemble(order, instructions);
  }
}
