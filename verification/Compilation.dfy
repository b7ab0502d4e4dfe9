/**
 What `NewTransaction` guarantees, for every outcome of its unstable sort: where accounts land,
 what the header says about them, and that instructions keep their meaning.
 */
module Compilation {
  import opened Common
  import opened Solana
  import opened Compiler

  /** Callers outside the package cannot set the private flags of an account meta. */
  predicate Unflagged(instructions: seq<Instruction>) {
    forall k, a :: 0 <= k < |instructions| && a in instructions[k].accounts ==> !a.isPayer && !a.isProgram
  }

  // ---------- what is requested

  lemma {:induction false} InCollect(payer: Key, instructions: seq<Instruction>, a: AccountMeta)
    ensures a in Collect(payer, instructions) <==>
            a == PayerMeta(payer) || exists k :: 0 <= k < |instructions| && a in Metas(instructions[k])
  {
    if instructions != [] {
      var n := |instructions| - 1;
      InCollect(payer, instructions[..n], a);
      assert forall k :: 0 <= k < n ==> instructions[..n][k] == instructions[k];
    }
  }

  lemma PayerPermissions(payer: Key, instructions: seq<Instruction>)
    ensures Permissions(Collect(payer, instructions), payer) == PayerMeta(payer)
  {
    var all := Collect(payer, instructions);
    assert all[0] in all;
    assert Keys(all)[0] == payer;
  }

  lemma OnlyPayerPays(payer: Key, instructions: seq<Instruction>, key: Key)
    requires Unflagged(instructions)
    ensures AskedToPay(Collect(payer, instructions), key) <==> key == payer
  {
    var all := Collect(payer, instructions);
    PayerPermissions(payer, instructions);
    if AskedToPay(all, key) {
      var a :| a in all && a.key == key && a.isPayer;
      InCollect(payer, instructions, a);
    }
  }

  lemma NothingBeforePayer(order: seq<AccountMeta>, m: AccountMeta)
    requires m in order && m.isPayer && forall i, j :: 0 <= i < j < |order| ==> !Less(order[j], order[i])
    ensures order[0].isPayer
  {
    var p :| 0 <= p < |order| && order[p] == m;
    assert p > 0 ==> !Less(order[p], order[0]);
  }

  /** The payer is always account 0. */
  lemma PayerFirst(payer: Key, instructions: seq<Instruction>, order: seq<AccountMeta>)
    requires Unflagged(instructions) && IsOrder(payer, instructions, order)
    ensures |order| > 0 && order[0] == PayerMeta(payer)
    ensures forall i :: 0 < i < |order| ==> !order[i].isPayer
  {
    var all := Collect(payer, instructions);
    PayerPermissions(payer, instructions);
    assert all[0] in all;
    assert HasKey(order, payer);
    var m :| m in order && m.key == payer;
    assert IsEntry(all, m);
    assert m == PayerMeta(payer);
    NothingBeforePayer(order, m);
    assert order[0] in order;
    assert IsEntry(all, order[0]);
    OnlyPayerPays(payer, instructions, order[0].key);
    forall i | 0 < i < |order| ensures !order[i].isPayer {
      assert order[i] in order;
      assert IsEntry(all, order[i]);
      OnlyPayerPays(payer, instructions, order[i].key);
    }
  }

  // ---------- header layout

  /** What the header of a message with `n` accounts says about account `i`. */
  predicate HeaderSigns(h: Header, i: nat) {
    i < h.numSignatures
  }

  predicate HeaderWrites(h: Header, n: nat, i: nat) {
    i < h.numSignatures - h.numReadonlySigned || h.numSignatures <= i < n - h.numReadOnly
  }

  /** The header is right about every account: it grants what was asked, no more and no less. */
  predicate LayoutHolds(all: seq<AccountMeta>, keys: seq<Key>, h: Header) {
    forall i :: 0 <= i < |keys| ==>
      && (HeaderSigns(h, i) <==> AskedToSign(all, keys[i]))
      && (HeaderWrites(h, |keys|, i) <==> AskedToWrite(all, keys[i]))
  }

  /**
   No key first met as an account needs fewer privileges than a key first met as a program.
   This is a condition on the requests alone.
   */
  predicate ProgramsNeedLeast(payer: Key, all: seq<AccountMeta>) {
    forall a, p ::
      a in all && p in all && a.key != payer && !FirstAsProgram(all, a.key) && FirstAsProgram(all, p.key) ==>
        Class(Permissions(all, a.key)) <= Class(Permissions(all, p.key))
  }

  predicate ClassSorted(s: seq<AccountMeta>) {
    forall i, j :: 0 <= i < j < |s| ==> Class(s[i]) <= Class(s[j])
  }

  /** In a class-sorted list, the entries below a class are exactly a prefix. */
  lemma {:induction false} SortedPrefix(s: seq<AccountMeta>, c: nat, i: nat)
    requires ClassSorted(s) && i < |s|
    ensures Class(s[i]) < c <==> i < Below(s, c)
  {
    var n := |s| - 1;
    var t := s[..n];
    assert forall k :: 0 <= k < n ==> t[k] == s[k];
    if i < n {
      SortedPrefix(t, c, i);
      if Class(s[n]) < c { AllBelow(t, c); }
    } else if Class(s[n]) < c {
      AllBelow(t, c);
    }
  }

  lemma {:induction false} AllBelow(s: seq<AccountMeta>, c: nat)
    requires forall k :: 0 <= k < |s| ==> Class(s[k]) < c
    ensures Below(s, c) == |s|
  {
    if s != [] { AllBelow(s[..|s| - 1], c); }
  }

  /** The class of position `i` when the classes fill consecutive ranges ending at `b1`, `b2` and `b3`. */
  function ClassAt(b1: nat, b2: nat, b3: nat, i: nat): nat {
    if i < b1 then 0 else if i < b2 then 1 else if i < b3 then 2 else 3
  }

  /** Neither the signers nor the accounts that do nothing overflow their byte counter. */
  predicate CountsFit(s: seq<AccountMeta>) {
    Below(s, 2) <= 255 && |s| - Below(s, 3) <= 255
  }

  lemma HeaderExact(s: seq<AccountMeta>)
    requires CountsFit(s)
    ensures Below(s, 1) <= Below(s, 2) <= Below(s, 3)
    ensures HeaderOf(s) == Header(Below(s, 2), Below(s, 2) - Below(s, 1), |s| - Below(s, 3))
  {
    BelowMonotone(s, 1, 2);
    BelowMonotone(s, 2, 3);
    CountsExact(|s|, Below(s, 1), Below(s, 2), Below(s, 3));
  }

  lemma CountsExact(n: nat, one: nat, two: nat, three: nat)
    requires one <= two <= 255 && three <= n <= three + 255
    ensures HeaderFor(n, one, two, three) == Header(two, two - one, n - three)
  {
    ByteExact(two);
    ByteExact(two - one);
    ByteExact(n - three);
  }

  lemma ByteExact(n: int)
    requires 0 <= n < 256
    ensures n % 256 == n
  {
  }

  lemma HeaderIsClassAt(h: Header, n: nat, b1: nat, b2: nat, b3: nat, i: nat, a: AccountMeta)
    requires b1 <= b2 <= b3 <= n && i < n
    requires h.numSignatures == b2 && h.numReadonlySigned == b2 - b1 && h.numReadOnly == n - b3
    ensures (HeaderSigns(h, i) <==> a.isSigner) && (HeaderWrites(h, n, i) <==> a.isWritable) <==>
            Class(a) == ClassAt(b1, b2, b3, i)
  {
  }

  predicate HeaderRightAt(s: seq<AccountMeta>, h: Header, i: nat)
    requires i < |s|
  {
    (HeaderSigns(h, i) <==> s[i].isSigner) && (HeaderWrites(h, |s|, i) <==> s[i].isWritable)
  }

  predicate HeaderRight(s: seq<AccountMeta>, h: Header) {
    forall i :: 0 <= i < |s| ==> HeaderRightAt(s, h, i)
  }

  lemma SortedIsRight(s: seq<AccountMeta>)
    requires ClassSorted(s) && CountsFit(s)
    ensures HeaderRight(s, HeaderOf(s))
  {
    forall i | 0 <= i < |s| ensures HeaderRightAt(s, HeaderOf(s), i) {
      HeaderExact(s);
      HeaderIsClassAt(HeaderOf(s), |s|, Below(s, 1), Below(s, 2), Below(s, 3), i, s[i]);
      SortedPrefix(s, 1, i);
      SortedPrefix(s, 2, i);
      SortedPrefix(s, 3, i);
    }
  }

  /** If the entries below a class are the first `k`, there are `k` of them. */
  lemma {:induction false} PrefixCount(s: seq<AccountMeta>, c: nat, k: nat)
    requires k <= |s| && forall i :: 0 <= i < |s| ==> (Class(s[i]) < c <==> i < k)
    ensures Below(s, c) == k
  {
    if s != [] {
      var n := |s| - 1;
      assert forall i :: 0 <= i < n ==> s[..n][i] == s[i];
      PrefixCount(s[..n], c, if k <= n then k else n);
    }
  }

  /** A header that is right cannot have wrapped: its counters are true prefix lengths. */
  lemma RightCounts(s: seq<AccountMeta>, h: Header, one: nat, two: nat, three: nat)
    requires one <= two <= three <= |s| && h == HeaderFor(|s|, one, two, three)
    requires one == Below(s, 1) && two == Below(s, 2) && three == Below(s, 3)
    requires HeaderRight(s, h)
    ensures two <= 255 && |s| - three <= 255
  {
    assert h.numSignatures <= two && h.numReadOnly <= |s| - three;
    forall i | 0 <= i < |s| ensures Class(s[i]) < 2 <==> i < h.numSignatures {
      assert HeaderRightAt(s, h, i);
    }
    PrefixCount(s, 2, h.numSignatures);
    forall i | 0 <= i < |s| ensures Class(s[i]) < 3 <==> i < |s| - h.numReadOnly {
      assert HeaderRightAt(s, h, i);
    }
    PrefixCount(s, 3, |s| - h.numReadOnly);
  }

  lemma RightIsSorted(s: seq<AccountMeta>)
    requires HeaderRight(s, HeaderOf(s)) && CountsFit(s)
    ensures ClassSorted(s)
  {
    forall i | 0 <= i < |s| ensures Class(s[i]) == ClassAt(Below(s, 1), Below(s, 2), Below(s, 3), i) {
      HeaderExact(s);
      assert HeaderRightAt(s, HeaderOf(s), i);
      HeaderIsClassAt(HeaderOf(s), |s|, Below(s, 1), Below(s, 2), Below(s, 3), i, s[i]);
    }
    BelowMonotone(s, 1, 2);
    BelowMonotone(s, 2, 3);
  }

  /** The counters describe the list exactly when it is class-sorted and none of them wraps. */
  lemma HeaderRightExactly(s: seq<AccountMeta>)
    ensures HeaderRight(s, HeaderOf(s)) <==> ClassSorted(s) && CountsFit(s)
  {
    BelowMonotone(s, 1, 2);
    BelowMonotone(s, 2, 3);
    if HeaderRight(s, HeaderOf(s)) {
      RightCounts(s, HeaderOf(s), Below(s, 1), Below(s, 2), Below(s, 3));
      RightIsSorted(s);
    }
    if ClassSorted(s) && CountsFit(s) { SortedIsRight(s); }
  }

  lemma OrderedEntries(payer: Key, instructions: seq<Instruction>, order: seq<AccountMeta>, i: nat)
    requires IsOrder(payer, instructions, order) && i < |order|
    ensures order[i] == Permissions(Collect(payer, instructions), order[i].key)
    ensures HasKey(Collect(payer, instructions), order[i].key)
  {
    assert order[i] in order;
    assert IsEntry(Collect(payer, instructions), order[i]);
  }

  lemma SortedIfLeast(payer: Key, instructions: seq<Instruction>, order: seq<AccountMeta>)
    requires Unflagged(instructions) && IsOrder(payer, instructions, order)
    requires ProgramsNeedLeast(payer, Collect(payer, instructions))
    ensures ClassSorted(order)
  {
    var all := Collect(payer, instructions);
    PayerFirst(payer, instructions, order);
    forall i, j | 0 <= i < j < |order|
      ensures Class(order[i]) <= Class(order[j])
    {
      OrderedEntries(payer, instructions, order, i);
      OrderedEntries(payer, instructions, order, j);
      LessIsRank(order[j], order[i]);
      if i > 0 && !order[i].isProgram && order[j].isProgram {
        var a :| a in all && a.key == order[i].key;
        var p :| p in all && p.key == order[j].key;
        assert order[0].key != order[i].key;
      }
    }
  }

  lemma LeastIfSorted(payer: Key, instructions: seq<Instruction>, order: seq<AccountMeta>)
    requires Unflagged(instructions) && IsOrder(payer, instructions, order)
    requires ClassSorted(order)
    ensures ProgramsNeedLeast(payer, Collect(payer, instructions))
  {
    var all := Collect(payer, instructions);
    PayerFirst(payer, instructions, order);
    forall a, p | a in all && p in all && a.key != payer && !FirstAsProgram(all, a.key) && FirstAsProgram(all, p.key)
      ensures Class(Permissions(all, a.key)) <= Class(Permissions(all, p.key))
    {
      var m :| m in order && m.key == a.key;
      var q :| q in order && q.key == p.key;
      var i :| 0 <= i < |order| && order[i] == m;
      var j :| 0 <= j < |order| && order[j] == q;
      OrderedEntries(payer, instructions, order, i);
      OrderedEntries(payer, instructions, order, j);
      PayerPermissions(payer, instructions);
      assert i > 0 && j > 0;
      assert Less(order[i], order[j]);
    }
  }

  // ---------- counting requests

  /** The keys a transaction mentions. */
  function KeySet(all: seq<AccountMeta>): set<Key> {
    set a | a in all :: a.key
  }

  function SignerKeys(all: seq<AccountMeta>): set<Key> {
    set a | a in all && AskedToSign(all, a.key) :: a.key
  }

  /** Keys asked to sign or to write. */
  function BusyKeys(all: seq<AccountMeta>): set<Key> {
    set a | a in all && (AskedToSign(all, a.key) || AskedToWrite(all, a.key)) :: a.key
  }

  /** A condition on the requests alone: at most 255 keys must sign and at most 255 need neither right. */
  predicate CountersFit(all: seq<AccountMeta>) {
    |SignerKeys(all)| <= 255 && |KeySet(all)| - |BusyKeys(all)| <= 255
  }

  function KeysBelow(s: seq<AccountMeta>, c: nat): set<Key> {
    set a | a in s && Class(a) < c :: a.key
  }

  lemma KeysBelowSnoc(s: seq<AccountMeta>, a: AccountMeta, c: nat)
    ensures KeysBelow(s + [a], c) == KeysBelow(s, c) + if Class(a) < c then {a.key} else {}
  {
    InSnoc(s, a);
    assert forall x :: x in s ==> x in s + [a];
    assert a in s + [a];
  }

  lemma {:induction false} BelowIsKeys(s: seq<AccountMeta>, c: nat)
    requires Distinct(s)
    ensures |KeysBelow(s, c)| == Below(s, c)
  {
    if s == [] {
      assert KeysBelow(s, c) == {};
    } else {
      var n := |s| - 1;
      BelowIsKeys(s[..n], c);
      assert s == s[..n] + [s[n]];
      KeysBelowSnoc(s[..n], s[n], c);
      assert s[n].key !in KeysBelow(s[..n], c);
    }
  }

  lemma EntryKeys(payer: Key, instructions: seq<Instruction>, order: seq<AccountMeta>)
    requires IsOrder(payer, instructions, order)
    ensures KeysBelow(order, 2) == SignerKeys(Collect(payer, instructions))
    ensures KeysBelow(order, 3) == BusyKeys(Collect(payer, instructions))
  {
    var all := Collect(payer, instructions);
    forall key
      ensures key in KeysBelow(order, 2) <==> key in SignerKeys(all)
      ensures key in KeysBelow(order, 3) <==> key in BusyKeys(all)
    {
      EntryOf(payer, instructions, order, key);
    }
  }

  /** A key is requested exactly when it has an entry, and the entry is what was asked of it. */
  lemma EntryOf(payer: Key, instructions: seq<Instruction>, order: seq<AccountMeta>, key: Key)
    requires IsOrder(payer, instructions, order)
    ensures HasKey(Collect(payer, instructions), key) <==> Permissions(Collect(payer, instructions), key) in order
    ensures forall m :: m in order && m.key == key ==> m == Permissions(Collect(payer, instructions), key)
  {
    var all := Collect(payer, instructions);
    assert forall m :: m in order ==> IsEntry(all, m);
    if HasKey(all, key) {
      var a :| a in all && a.key == key;
      assert HasKey(order, a.key);
    }
  }

  lemma CountsFitExactly(payer: Key, instructions: seq<Instruction>, order: seq<AccountMeta>)
    requires IsOrder(payer, instructions, order)
    ensures CountsFit(order) <==> CountersFit(Collect(payer, instructions))
  {
    EntryKeys(payer, instructions, order);
    BelowIsKeys(order, 2);
    BelowIsKeys(order, 3);
    AccountCount(payer, instructions, order);
  }

  /**
   Header layout. For any payer, instructions and sort outcome the header describes every account
   correctly, exactly when no key first met as a program needs more than one first met as an
   account and the byte counters can hold their counts.
   */
  lemma LayoutExactly(payer: Key, instructions: seq<Instruction>, order: seq<AccountMeta>)
    requires Unflagged(instructions) && IsOrder(payer, instructions, order)
    ensures LayoutHolds(Collect(payer, instructions), Keys(order), HeaderOf(order)) <==>
            ProgramsNeedLeast(payer, Collect(payer, instructions)) && CountersFit(Collect(payer, instructions))
  {
    var all := Collect(payer, instructions);
    forall i | 0 <= i < |order|
      ensures order[i].isSigner == AskedToSign(all, order[i].key)
      ensures order[i].isWritable == AskedToWrite(all, order[i].key)
    {
      OrderedEntries(payer, instructions, order, i);
    }
    CountsFitExactly(payer, instructions, order);
    HeaderRightExactly(order);
    LayoutIsOfEntries(all, order);
    if ProgramsNeedLeast(payer, all) { SortedIfLeast(payer, instructions, order); }
    if ClassSorted(order) { LeastIfSorted(payer, instructions, order); }
  }

  lemma LayoutIsOfEntries(all: seq<AccountMeta>, order: seq<AccountMeta>)
    requires forall i :: 0 <= i < |order| ==>
               && order[i].isSigner == AskedToSign(all, order[i].key)
               && order[i].isWritable == AskedToWrite(all, order[i].key)
    ensures LayoutHolds(all, Keys(order), HeaderOf(order)) <==> HeaderRight(order, HeaderOf(order))
  {
    if HeaderRight(order, HeaderOf(order)) {
      forall i | 0 <= i < |order|
        ensures HeaderSigns(HeaderOf(order), i) <==> AskedToSign(all, Keys(order)[i])
        ensures HeaderWrites(HeaderOf(order), |order|, i) <==> AskedToWrite(all, Keys(order)[i])
      {
        assert HeaderRightAt(order, HeaderOf(order), i);
      }
    }
  }

  lemma {:induction false} SomeBelow(s: seq<AccountMeta>, i: nat, c: nat)
    requires i < |s| && Class(s[i]) < c
    ensures Below(s, c) > 0
  {
    if i < |s| - 1 { SomeBelow(s[..|s| - 1], i, c); }
  }

  /** A program that no instruction asks to sign or write, or that is the payer. */
  predicate PlainPrograms(payer: Key, instructions: seq<Instruction>) {
    var all := Collect(payer, instructions);
    forall k :: 0 <= k < |instructions| ==>
      instructions[k].program == payer ||
      (!AskedToSign(all, instructions[k].program) && !AskedToWrite(all, instructions[k].program))
  }

  lemma FirstAsProgramIsProgram(payer: Key, instructions: seq<Instruction>, key: Key)
    requires Unflagged(instructions) && FirstAsProgram(Collect(payer, instructions), key)
    ensures exists k :: 0 <= k < |instructions| && instructions[k].program == key
  {
    var all := Collect(payer, instructions);
    var a := all[IndexOf(Keys(all), key)];
    assert a in all;
    InCollect(payer, instructions, a);
    var k :| 0 <= k < |instructions| && a in Metas(instructions[k]);
    assert a == ProgramMeta(instructions[k].program);
  }

  /** The usual case: programs are only ever called, and then the layout is right unless a counter wraps. */
  lemma PlainProgramsLayOut(payer: Key, instructions: seq<Instruction>, order: seq<AccountMeta>)
    requires Unflagged(instructions) && IsOrder(payer, instructions, order) && PlainPrograms(payer, instructions)
    ensures LayoutHolds(Collect(payer, instructions), Keys(order), HeaderOf(order)) <==>
            CountersFit(Collect(payer, instructions))
  {
    var all := Collect(payer, instructions);
    PayerPermissions(payer, instructions);
    forall a, p | a in all && p in all && a.key != payer && !FirstAsProgram(all, a.key) && FirstAsProgram(all, p.key)
      ensures Class(Permissions(all, a.key)) <= Class(Permissions(all, p.key))
    {
      FirstAsProgramIsProgram(payer, instructions, p.key);
    }
    LayoutExactly(payer, instructions, order);
  }

  /** A key that starts with `b`. */
  function Lead(b: byte): (key: Key)
    ensures |key| == KEY_SIZE && key[0] == b
  {
    [b] + Zeros(31)
  }

  /** A program that is also asked to sign and write, next to a read-only account. */
  function SigningProgram(): Instruction {
    Instruction(Lead(2), [NewReadonlyAccountMeta(Lead(3), false), NewAccountMeta(Lead(2), true)], [])
  }

  function SigningRequests(a: Key, b: Key, c: Key): seq<AccountMeta> {
    [PayerMeta(a), ProgramMeta(b), NewReadonlyAccountMeta(c, false), NewAccountMeta(b, true)]
  }

  lemma SigningProgramRequests(payer: Key, instructions: seq<Instruction>)
    requires payer == Lead(1) && instructions == [SigningProgram()]
    ensures Unflagged(instructions)
    ensures Collect(payer, instructions) == SigningRequests(Lead(1), Lead(2), Lead(3))
  {
    assert instructions[..0] == [];
  }

  lemma SigningProgramNeedsMore(all: seq<AccountMeta>, a: Key, b: Key, c: Key)
    requires a != b && b != c && a != c && all == SigningRequests(a, b, c)
    ensures !ProgramsNeedLeast(a, all)
  {
    var (reader, program) := (all[2], all[1]);
    assert reader in all && program in all && all[3] in all;
    assert FirstAsProgram(all, b) && !FirstAsProgram(all, c) by {
      var keys := Keys(all);
      assert keys[0] == a && keys[1] == b && keys[2] == c;
      assert IndexOf(keys, b) == 1 && IndexOf(keys, c) == 2;
    }
    assert Class(Permissions(all, b)) == 0;
    assert Class(Permissions(all, c)) == 3;
  }

  /**
   The layout does fail: the program is sorted behind the read-only account, and the header then
   takes the read-only account for the second signer, whatever the sort does.
   */
  lemma LayoutCanFail(payer: Key, instructions: seq<Instruction>, order: seq<AccountMeta>)
    requires payer == Lead(1) && instructions == [SigningProgram()]
    requires IsOrder(payer, instructions, order)
    ensures !LayoutHolds(Collect(payer, instructions), Keys(order), HeaderOf(order))
  {
    SigningProgramRequests(payer, instructions);
    SigningProgramNeedsMore(Collect(payer, instructions), Lead(1), Lead(2), Lead(3));
    LayoutExactly(payer, instructions, order);
  }

  // ---------- meaning

  /** What an instruction asks for, before compilation. */
  function Meaning(i: Instruction): Resolved {
    Resolved(Filled(i.program), FilledKeys(Keys(i.accounts)), i.data)
  }

  /** Every key of the instruction is among `keys`. */
  predicate Indexed(keys: seq<Key>, i: Instruction) {
    IndexOf(keys, i.program) >= 0 && forall j :: 0 <= j < |i.accounts| ==> IndexOf(keys, i.accounts[j].key) >= 0
  }

  predicate Covers(keys: seq<Key>, all: seq<AccountMeta>) {
    forall a :: a in all ==> IndexOf(keys, a.key) >= 0
  }

  lemma OrderCovers(payer: Key, instructions: seq<Instruction>, order: seq<AccountMeta>)
    requires IsOrder(payer, instructions, order)
    ensures Covers(Keys(order), Collect(payer, instructions))
  {
    forall a | a in Collect(payer, instructions) ensures IndexOf(Keys(order), a.key) >= 0 {
      assert HasKey(order, a.key);
      HasKeyIndex(order, a.key);
    }
  }

  lemma MetaIsIndexed(payer: Key, instructions: seq<Instruction>, keys: seq<Key>, k: nat, a: AccountMeta)
    requires Covers(keys, Collect(payer, instructions)) && k < |instructions| && a in Metas(instructions[k])
    ensures IndexOf(keys, a.key) >= 0
  {
    InCollect(payer, instructions, a);
  }

  lemma CoveredIsIndexed(payer: Key, instructions: seq<Instruction>, keys: seq<Key>, k: nat)
    requires Covers(keys, Collect(payer, instructions)) && k < |instructions|
    ensures Indexed(keys, instructions[k])
  {
    var i := instructions[k];
    assert Metas(i)[0] in Metas(i);
    MetaIsIndexed(payer, instructions, keys, k, ProgramMeta(i.program));
    forall j | 0 <= j < |i.accounts|
      ensures IndexOf(keys, i.accounts[j].key) >= 0
    {
      assert Metas(i)[j + 1] == i.accounts[j];
      MetaIsIndexed(payer, instructions, keys, k, i.accounts[j]);
    }
  }

  lemma OrderIndexes(payer: Key, instructions: seq<Instruction>, order: seq<AccountMeta>, k: nat)
    requires IsOrder(payer, instructions, order) && k < |instructions|
    ensures Indexed(Keys(order), instructions[k])
  {
    OrderCovers(payer, instructions, order);
    CoveredIsIndexed(payer, instructions, Keys(order), k);
  }

  lemma IndicesInRange(keys: seq<Key>, i: Instruction)
    requires Indexed(keys, i)
    ensures InstructionInRange(Compile(keys, i), |keys|)
  {
  }

  /** Every index a compiled transaction holds is in range, whatever the number of accounts. */
  lemma CompiledInRange(payer: Key, instructions: seq<Instruction>, t: Transaction)
    requires IsCompiled(payer, instructions, t)
    ensures InRange(t.message) && |t.message.instructions| == |instructions|
  {
    var order :| IsOrder(payer, instructions, order) && t == Assemble(order, instructions);
    forall k | 0 <= k < |instructions|
      ensures InstructionInRange(t.message.instructions[k], |t.message.accounts|)
    {
      OrderIndexes(payer, instructions, order, k);
      IndicesInRange(Keys(order), instructions[k]);
    }
  }

  ghost predicate MeaningPreserved(instructions: seq<Instruction>, m: Message)
    requires InRange(m) && |m.instructions| == |instructions|
  {
    forall k :: 0 <= k < |instructions| ==> Resolve(m, k) == Meaning(instructions[k])
  }

  /** A byte index reaches the key it stands for, or one that looks the same on the wire. */
  predicate WrapsHarmlessly(keys: seq<Key>) {
    forall j :: 0 <= j < |keys| ==> Filled(keys[j % 256]) == Filled(keys[j])
  }

  lemma LookUpCompiled(keys: seq<Key>, i: Instruction)
    requires WrapsHarmlessly(keys) && Indexed(keys, i)
    ensures InstructionInRange(Compile(keys, i), |keys|)
    ensures LookUp(FilledKeys(keys), Compile(keys, i).accounts) == FilledKeys(Keys(i.accounts))
    ensures FilledKeys(keys)[Compile(keys, i).programIndex] == Filled(i.program)
  {
    IndicesInRange(keys, i);
    var found := LookUp(FilledKeys(keys), Compile(keys, i).accounts);
    forall j | 0 <= j < |i.accounts|
      ensures found[j] == Filled(i.accounts[j].key)
    {
      assert Compile(keys, i).accounts[j] == IndexOf(keys, i.accounts[j].key) % 256;
    }
    assert found == FilledKeys(Keys(i.accounts));
  }

  lemma PreservedWhenHarmless(payer: Key, instructions: seq<Instruction>, order: seq<AccountMeta>, k: nat)
    requires IsOrder(payer, instructions, order) && WrapsHarmlessly(Keys(order)) && k < |instructions|
    requires InRange(Assemble(order, instructions).message)
    ensures Resolve(Assemble(order, instructions).message, k) == Meaning(instructions[k])
  {
    OrderIndexes(payer, instructions, order, k);
    LookUpCompiled(Keys(order), instructions[k]);
  }

  lemma {:induction false} DistinctCount(s: seq<AccountMeta>)
    requires Distinct(s)
    ensures |KeySet(s)| == |s|
  {
    if s == [] {
      assert KeySet(s) == {};
    } else {
      var n := |s| - 1;
      DistinctCount(s[..n]);
      assert s == s[..n] + [s[n]];
      assert KeySet(s) == KeySet(s[..n]) + {s[n].key};
      assert s[n].key !in KeySet(s[..n]);
    }
  }

  /** There are as many accounts as distinct keys. */
  lemma AccountCount(payer: Key, instructions: seq<Instruction>, order: seq<AccountMeta>)
    requires IsOrder(payer, instructions, order)
    ensures |order| == |KeySet(Collect(payer, instructions))|
  {
    var all := Collect(payer, instructions);
    DistinctCount(order);
    forall key ensures key in KeySet(all) <==> key in KeySet(order) {
      if key in KeySet(all) {
        var a :| a in all && a.key == key;
        assert HasKey(order, a.key);
      }
      if key in KeySet(order) {
        var m :| m in order && m.key == key;
        assert IsEntry(all, m);
      }
    }
    assert KeySet(all) == KeySet(order);
  }

  /** The missing key and the zero key, which it turns into, are not both used. */
  predicate FillsApart(all: seq<AccountMeta>) {
    !([] in KeySet(all) && ZERO_KEY in KeySet(all))
  }

  lemma FilledAlike(a: Key, b: Key)
    requires a != b
    ensures Filled(a) == Filled(b) <==> (a == [] && b == ZERO_KEY) || (a == ZERO_KEY && b == [])
  {
  }

  predicate PairwiseDifferent(keys: seq<Key>) {
    forall i, j :: 0 <= i < j < |keys| ==> keys[i] != keys[j]
  }

  lemma ApartAreDifferent(payer: Key, instructions: seq<Instruction>, order: seq<AccountMeta>)
    requires IsOrder(payer, instructions, order) && FillsApart(Collect(payer, instructions))
    ensures PairwiseDifferent(FilledKeys(Keys(order)))
  {
    forall i, j | 0 <= i < j < |order| ensures Filled(order[i].key) != Filled(order[j].key) {
      OrderedEntries(payer, instructions, order, i);
      OrderedEntries(payer, instructions, order, j);
      FilledAlike(order[i].key, order[j].key);
    }
  }

  lemma IndexOfEntry(payer: Key, instructions: seq<Instruction>, order: seq<AccountMeta>, key: Key) returns (i: nat)
    requires IsOrder(payer, instructions, order) && key in KeySet(Collect(payer, instructions))
    ensures i < |order| && order[i].key == key
  {
    EntryOf(payer, instructions, order, key);
    i :| 0 <= i < |order| && order[i] == Permissions(Collect(payer, instructions), key);
  }

  lemma KeysDifferExactly(payer: Key, instructions: seq<Instruction>, order: seq<AccountMeta>)
    requires IsOrder(payer, instructions, order)
    ensures PairwiseDifferent(FilledKeys(Keys(order))) <==> FillsApart(Collect(payer, instructions))
  {
    if FillsApart(Collect(payer, instructions)) {
      ApartAreDifferent(payer, instructions, order);
    } else {
      var i := IndexOfEntry(payer, instructions, order, []);
      var j := IndexOfEntry(payer, instructions, order, ZERO_KEY);
      TwinsAreAlike(order, i, j);
    }
  }

  lemma TwinsAreAlike(order: seq<AccountMeta>, i: nat, j: nat)
    requires i < |order| && j < |order| && order[i].key == [] && order[j].key == ZERO_KEY
    ensures !PairwiseDifferent(FilledKeys(Keys(order)))
  {
    assert FilledKeys(Keys(order))[i] == FilledKeys(Keys(order))[j];
  }

  /** The accounts of a compiled transaction are pairwise different exactly when fills stay apart. */
  lemma AccountsDifferExactly(payer: Key, instructions: seq<Instruction>, t: Transaction)
    requires IsCompiled(payer, instructions, t)
    ensures PairwiseDifferent(t.message.accounts) <==> FillsApart(Collect(payer, instructions))
  {
    var order: seq<AccountMeta> :| IsOrder(payer, instructions, order) && t == Assemble(order, instructions);
    KeysDifferExactly(payer, instructions, order);
  }

  lemma LostInstruction(order: seq<AccountMeta>, instructions: seq<Instruction>, k: nat, a: AccountMeta, j: nat)
    requires InRange(Assemble(order, instructions).message) && k < |instructions| && j < |order|
    requires a in Metas(instructions[k]) && ByteIndex(Keys(order), a.key) == j
    requires Filled(a.key) != Filled(order[j].key)
    ensures Resolve(Assemble(order, instructions).message, k) != Meaning(instructions[k])
  {
    var m := Assemble(order, instructions).message;
    var i := instructions[k];
    assert m.accounts[j] == Filled(order[j].key);
    assert m.instructions[k] == Compile(Keys(order), i);
    if a != ProgramMeta(i.program) {
      var p :| 0 <= p < |i.accounts| && i.accounts[p] == a;
      assert Resolve(m, k).accounts[p] == Filled(order[j].key);
      assert Meaning(i).accounts[p] == Filled(a.key);
    }
  }

  lemma FirstIndex(order: seq<AccountMeta>, j: nat)
    requires Distinct(order) && j < |order|
    ensures IndexOf(Keys(order), order[j].key) == j
  {
    assert Keys(order)[j] == order[j].key;
  }

  /** Every account but the payer is asked for by some instruction. */
  lemma AskedFor(payer: Key, instructions: seq<Instruction>, order: seq<AccountMeta>, j: nat)
    returns (k: nat, a: AccountMeta)
    requires Unflagged(instructions) && IsOrder(payer, instructions, order) && 0 < j < |order|
    ensures k < |instructions| && a in Metas(instructions[k]) && a.key == order[j].key
  {
    var all := Collect(payer, instructions);
    PayerFirst(payer, instructions, order);
    OrderedEntries(payer, instructions, order, j);
    a :| a in all && a.key == order[j].key;
    InCollect(payer, instructions, a);
    k :| 0 <= k < |instructions| && a in Metas(instructions[k]);
  }

  lemma OneLostIsLost(order: seq<AccountMeta>, instructions: seq<Instruction>, k: nat, a: AccountMeta, j: nat, b: nat)
    requires InRange(Assemble(order, instructions).message) && k < |instructions| && a in Metas(instructions[k])
    requires b < |order| && b == j % 256 && IndexOf(Keys(order), a.key) == j
    requires Filled(a.key) != Filled(order[b].key)
    ensures !MeaningPreserved(instructions, Assemble(order, instructions).message)
  {
    LostInstruction(order, instructions, k, a, b);
  }

  /** Some instruction asks for account `j`. */
  predicate Asked(instructions: seq<Instruction>, order: seq<AccountMeta>, j: nat)
    requires j < |order|
  {
    exists k :: 0 <= k < |instructions| && AsksFor(instructions[k], order[j].key)
  }

  predicate AsksFor(i: Instruction, key: Key) {
    exists a :: a in Metas(i) && a.key == key
  }

  lemma AllAreAsked(payer: Key, instructions: seq<Instruction>, order: seq<AccountMeta>)
    requires Unflagged(instructions) && IsOrder(payer, instructions, order)
    ensures Distinct(order) && forall j :: 0 < j < |order| ==> Asked(instructions, order, j)
  {
    forall j | 0 < j < |order| ensures Asked(instructions, order, j) {
      var k, a := AskedFor(payer, instructions, order, j);
      assert AsksFor(instructions[k], order[j].key);
    }
  }

  /** An account that its byte index misses is asked for by some instruction, which gets another one. */
  lemma LostWhenHarmful(instructions: seq<Instruction>, order: seq<AccountMeta>, j: nat, b: nat)
    requires Distinct(order) && 0 < j < |order| && Asked(instructions, order, j)
    requires b == j % 256 && b < |order| && Filled(order[b].key) != Filled(order[j].key)
    requires InRange(Assemble(order, instructions).message)
    ensures !MeaningPreserved(instructions, Assemble(order, instructions).message)
  {
    var k :| 0 <= k < |instructions| && AsksFor(instructions[k], order[j].key);
    var a :| a in Metas(instructions[k]) && a.key == order[j].key;
    FirstIndex(order, j);
    OneLostIsLost(order, instructions, k, a, j, b);
  }

  lemma NotTwoTwins(order: seq<AccountMeta>)
    requires Distinct(order) && |order| >= 258
    ensures Filled(order[0].key) != Filled(order[256].key) || Filled(order[1].key) != Filled(order[257].key)
  {
    FilledAlike(order[0].key, order[256].key);
    FilledAlike(order[1].key, order[257].key);
    assert order[0].key != order[1].key && order[0].key != order[257].key;
  }

  /** Only one key too many can go unnoticed, when the first and the last look the same once filled. */
  lemma HarmlessExactly(order: seq<AccountMeta>)
    requires Distinct(order)
    ensures WrapsHarmlessly(Keys(order)) <==>
            |order| <= 256 || (|order| == 257 && Filled(order[256].key) == Filled(order[0].key))
  {
    var keys := Keys(order);
    assert forall j :: 0 <= j < |order| ==> keys[j] == order[j].key;
    assert 256 % 256 == 0 && 257 % 256 == 1;
    if |order| >= 258 {
      NotTwoTwins(order);
    } else if |order| == 257 {
      assert forall j :: 0 <= j < 256 ==> j % 256 == j;
    }
  }

  lemma AllPreserved(payer: Key, instructions: seq<Instruction>, order: seq<AccountMeta>)
    requires IsOrder(payer, instructions, order) && WrapsHarmlessly(Keys(order))
    requires InRange(Assemble(order, instructions).message)
    ensures MeaningPreserved(instructions, Assemble(order, instructions).message)
  {
    forall k | 0 <= k < |instructions|
      ensures Resolve(Assemble(order, instructions).message, k) == Meaning(instructions[k])
    {
      PreservedWhenHarmless(payer, instructions, order, k);
    }
  }

  lemma Harmful(order: seq<AccountMeta>) returns (j: nat, b: nat)
    requires !WrapsHarmlessly(Keys(order))
    ensures 0 < j < |order| && b < |order| && b == j % 256 && Filled(order[b].key) != Filled(order[j].key)
  {
    j :| 0 <= j < |order| && Filled(Keys(order)[j % 256]) != Filled(Keys(order)[j]);
    b := j % 256;
  }

  lemma SomeLost(instructions: seq<Instruction>, order: seq<AccountMeta>)
    requires Distinct(order) && forall j :: 0 < j < |order| ==> Asked(instructions, order, j)
    requires InRange(Assemble(order, instructions).message) && !WrapsHarmlessly(Keys(order))
    ensures !MeaningPreserved(instructions, Assemble(order, instructions).message)
  {
    var j, b := Harmful(order);
    LostWhenHarmful(instructions, order, j, b);
  }

  lemma PreservedExactly(payer: Key, instructions: seq<Instruction>, order: seq<AccountMeta>)
    requires Unflagged(instructions) && IsOrder(payer, instructions, order)
    requires InRange(Assemble(order, instructions).message)
    ensures MeaningPreserved(instructions, Assemble(order, instructions).message) <==> WrapsHarmlessly(Keys(order))
  {
    if WrapsHarmlessly(Keys(order)) {
      AllPreserved(payer, instructions, order);
    } else {
      AllAreAsked(payer, instructions, order);
      SomeLost(instructions, order);
    }
  }

  /**
   Compilation preserves the meaning of every instruction exactly when at most 256 distinct keys
   are mentioned, the bound up to which a byte can index every account; or when there is one more
   and it is the payer's twin, one of the two being the missing key and the other the zero key.
   */
  lemma MeaningExactly(payer: Key, instructions: seq<Instruction>, t: Transaction)
    requires Unflagged(instructions) && IsCompiled(payer, instructions, t)
    ensures InRange(t.message) && |t.message.instructions| == |instructions|
    ensures var (n, keys) := (|KeySet(Collect(payer, instructions))|, t.message.accounts);
            && |keys| == n
            && (MeaningPreserved(instructions, t.message) <==> n <= 256 || (n == 257 && keys[256] == keys[0]))
            && (FillsApart(Collect(payer, instructions)) ==>
                  (MeaningPreserved(instructions, t.message) <==> n <= 256))
  {
    CompiledInRange(payer, instructions, t);
    var order :| IsOrder(payer, instructions, order) && t == Assemble(order, instructions);
    AccountCount(payer, instructions, order);
    PreservedExactly(payer, instructions, order);
    HarmlessExactly(order);
    AccountsDifferExactly(payer, instructions, t);
  }

  /** The half of `MeaningExactly` that needs no condition on the private flags. */
  lemma MeaningKept(payer: Key, instructions: seq<Instruction>, t: Transaction)
    requires IsCompiled(payer, instructions, t)
    requires |KeySet(Collect(payer, instructions))| <= 256
    ensures InRange(t.message) && |t.message.instructions| == |instructions|
    ensures MeaningPreserved(instructions, t.message)
  {
    CompiledInRange(payer, instructions, t);
    var order :| IsOrder(payer, instructions, order) && t == Assemble(order, instructions);
    AccountCount(payer, instructions, order);
    HarmlessExactly(order);
    AllPreserved(payer, instructions, order);
  }
}
