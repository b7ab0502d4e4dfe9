/**
 The wire format of `solana/encoding.go`. `MessageBytes` and `TransactionBytes` say what is
 written, the `Take` functions say what is read, and the methods are the source's loops.
 */
module Encoding {
  import opened Common
  import opened ShortVec
  import opened Solana

  // ---------- what Marshal writes

  function Flatten(xs: seq<seq<byte>>): seq<byte> {
    if xs == [] then [] else xs[0] + Flatten(xs[1..])
  }

  function InstructionBytes(c: CompiledInstruction): seq<byte> {
    [c.programIndex] + (Encoded(|c.accounts|) + (c.accounts + (Encoded(|c.data|) + c.data)))
  }

  function InstructionsBytes(cs: seq<CompiledInstruction>): seq<byte> {
    if cs == [] then [] else InstructionBytes(cs[0]) + InstructionsBytes(cs[1..])
  }

  function HeaderBytes(h: Header): seq<byte> {
    [h.numSignatures, h.numReadonlySigned, h.numReadOnly]
  }

  function MessageBytes(m: Message): seq<byte> {
    HeaderBytes(m.header) + (Encoded(|m.accounts|) + (Flatten(m.accounts) +
    (m.recentBlockhash + (Encoded(|m.instructions|) + InstructionsBytes(m.instructions)))))
  }

  function TransactionBytes(t: Transaction): seq<byte> {
    Encoded(|t.signatures|) + (Flatten(t.signatures) + MessageBytes(t.message))
  }

  // ---------- what Unmarshal reads

  function Take(b: seq<byte>, n: nat): Parsed<seq<byte>> {
    if |b| < n then Fail else Parsed(b[..n], b[n..])
  }

  /** `count` blocks of `size` bytes. */
  function TakeBlocks(b: seq<byte>, count: nat, size: nat): (p: Parsed<seq<seq<byte>>>)
    ensures p.Parsed? ==> |p.value| == count && forall k :: 0 <= k < count ==> |p.value[k]| == size
    decreases count
  {
    if count == 0 then Parsed([], b)
    else if |b| < size then Fail
    else
      var p := TakeBlocks(b[size..], count - 1, size);
      if p.Fail? then Fail else Parsed([b[..size]] + p.value, p.rest)
  }

  /** A length and then that many bytes. */
  function TakeVector(b: seq<byte>): Parsed<seq<byte>> {
    var n := TakeLen(b);
    if n.Fail? then Fail else Take(n.rest, n.value)
  }

  function TakeInstruction(b: seq<byte>, accountCount: nat): Parsed<CompiledInstruction> {
    if b == [] || b[0] >= accountCount then Fail
    else
      var accounts := TakeVector(b[1..]);
      if accounts.Fail? || exists k :: 0 <= k < |accounts.value| && accounts.value[k] >= accountCount then Fail
      else
        var data := TakeVector(accounts.rest);
        if data.Fail? then Fail
        else Parsed(CompiledInstruction(b[0], accounts.value, data.value), data.rest)
  }

  function TakeInstructions(b: seq<byte>, count: nat, accountCount: nat): (p: Parsed<seq<CompiledInstruction>>)
    ensures p.Parsed? ==> |p.value| == count
    decreases count
  {
    if count == 0 then Parsed([], b)
    else
      var c := TakeInstruction(b, accountCount);
      if c.Fail? then Fail
      else
        var cs := TakeInstructions(c.rest, count - 1, accountCount);
        if cs.Fail? then Fail else Parsed([c.value] + cs.value, cs.rest)
  }

  /** The part of a message after its accounts. */
  function TakeBody(b: seq<byte>, header: Header, accounts: seq<Key>): Parsed<Message> {
    if |b| < 32 then Fail
    else
      var n := TakeLen(b[32..]);
      if n.Fail? then Fail
      else
        var cs := TakeInstructions(n.rest, n.value, |accounts|);
        if cs.Fail? then Fail
        else Parsed(Message(header, accounts, b[..32], cs.value), cs.rest)
  }

  function TakeMessage(b: seq<byte>): Parsed<Message> {
    if |b| < 3 then Fail
    else
      var n := TakeLen(b[3..]);
      if n.Fail? then Fail
      else
        var accounts := TakeBlocks(n.rest, n.value, KEY_SIZE);
        if accounts.Fail? then Fail
        else TakeBody(accounts.rest, Header(b[0], b[1], b[2]), accounts.value)
  }

  function TakeTransaction(b: seq<byte>): Parsed<Transaction> {
    var n := TakeLen(b);
    if n.Fail? then Fail
    else
      var signatures := TakeBlocks(n.rest, n.value, SIGNATURE_SIZE);
      if signatures.Fail? then Fail
      else
        var m := TakeMessage(signatures.rest);
        if m.Fail? then Fail else Parsed(Transaction(signatures.value, m.value), m.rest)
  }

  /** `Transaction.Unmarshal`: bytes after the message are ignored. */
  function Decoded(b: seq<byte>): Option<Transaction> {
    var p := TakeTransaction(b);
    if p.Fail? then None else Some(p.value)
  }

  // ---------- well-formed transactions

  predicate InstructionLengthsFit(c: CompiledInstruction) {
    |c.accounts| <= MAX_LEN && |c.data| <= MAX_LEN
  }

  /** Every length is one `EncodeLen` accepts. */
  predicate LengthsFit(t: Transaction) {
    && |t.signatures| <= MAX_LEN
    && |t.message.accounts| <= MAX_LEN
    && |t.message.instructions| <= MAX_LEN
    && forall k :: 0 <= k < |t.message.instructions| ==> InstructionLengthsFit(t.message.instructions[k])
  }

  predicate KeysSized(accounts: seq<Key>) {
    forall k :: 0 <= k < |accounts| ==> |accounts[k]| == KEY_SIZE
  }

  /** What every decoded message satisfies. */
  predicate Accepted(m: Message) {
    KeysSized(m.accounts) && InRange(m)
  }

  predicate WellFormed(t: Transaction) {
    LengthsFit(t) && Accepted(t.message)
  }

  // ---------- regrouping concatenations

  lemma Regroup(a: seq<byte>, b: seq<byte>, c: seq<byte>)
    ensures (a + b) + c == a + (b + c)
  {
  }

  lemma Regroup4(a: seq<byte>, b: seq<byte>, c: seq<byte>, d: seq<byte>)
    ensures ((a + b) + c) + d == a + (b + (c + d))
  {
    Regroup(a + b, c, d);
    Regroup(a, b, c + d);
  }

  lemma Regroup6(a: seq<byte>, b: seq<byte>, c: seq<byte>, d: seq<byte>, e: seq<byte>, f: seq<byte>)
    ensures ((((a + b) + c) + d) + e) + f == a + (b + (c + (d + (e + f))))
  {
    Regroup4(a, b, c, d);
    Regroup((a + b) + c, d, e + f);
    Regroup4(a, b, c, d + (e + f));
    Regroup((((a + b) + c) + d), e, f);
  }

  // ---------- reading back what was written

  lemma OneBlock(x: seq<byte>, more: seq<byte>, s: seq<byte>)
    ensures var b := x + more + s; b[|x|..] == more + s && b[..|x|] == x
  {
  }

  lemma {:induction false} BlocksRoundTrip(xs: seq<seq<byte>>, size: nat, s: seq<byte>)
    requires forall k :: 0 <= k < |xs| ==> |xs[k]| == size
    ensures TakeBlocks(Flatten(xs) + s, |xs|, size) == Parsed(xs, s)
  {
    if xs == [] {
      assert Flatten(xs) + s == s;
    } else {
      BlocksRoundTrip(xs[1..], size, s);
      OneBlock(xs[0], Flatten(xs[1..]), s);
      assert [xs[0]] + xs[1..] == xs;
    }
  }

  lemma VectorRoundTrip(v: seq<byte>, s: seq<byte>)
    requires |v| <= MAX_LEN
    ensures TakeVector(Encoded(|v|) + (v + s)) == Parsed(v, s)
  {
    LenRoundTrip(|v|, v + s);
    assert (v + s)[..|v|] == v && (v + s)[|v|..] == s;
  }

  lemma InstructionRoundTrip(c: CompiledInstruction, accountCount: nat, s: seq<byte>)
    requires InstructionInRange(c, accountCount) && InstructionLengthsFit(c)
    ensures TakeInstruction(InstructionBytes(c) + s, accountCount) == Parsed(c, s)
  {
    var b := InstructionBytes(c) + s;
    var tail := Encoded(|c.data|) + (c.data + s);
    assert b == [c.programIndex] + (Encoded(|c.accounts|) + (c.accounts + tail)) by {
      var data := Encoded(|c.data|) + c.data;
      Regroup([c.programIndex], Encoded(|c.accounts|) + (c.accounts + data), s);
      Regroup(Encoded(|c.accounts|), c.accounts + data, s);
      Regroup(c.accounts, data, s);
      Regroup(Encoded(|c.data|), c.data, s);
    }
    assert b[1..] == Encoded(|c.accounts|) + (c.accounts + tail);
    VectorRoundTrip(c.accounts, tail);
    VectorRoundTrip(c.data, s);
  }

  lemma {:induction false} InstructionsRoundTrip(cs: seq<CompiledInstruction>, accountCount: nat, s: seq<byte>)
    requires forall k :: 0 <= k < |cs| ==> InstructionInRange(cs[k], accountCount) && InstructionLengthsFit(cs[k])
    ensures TakeInstructions(InstructionsBytes(cs) + s, |cs|, accountCount) == Parsed(cs, s)
  {
    if cs == [] {
      assert InstructionsBytes(cs) + s == s;
    } else {
      var tail := InstructionsBytes(cs[1..]) + s;
      assert InstructionsBytes(cs) + s == InstructionBytes(cs[0]) + tail;
      InstructionRoundTrip(cs[0], accountCount, tail);
      InstructionsRoundTrip(cs[1..], accountCount, s);
      assert [cs[0]] + cs[1..] == cs;
    }
  }

  lemma BodyRoundTrip(m: Message, s: seq<byte>)
    requires InRange(m) && |m.instructions| <= MAX_LEN
    requires forall k :: 0 <= k < |m.instructions| ==> InstructionLengthsFit(m.instructions[k])
    ensures var b := m.recentBlockhash + (Encoded(|m.instructions|) + InstructionsBytes(m.instructions));
            TakeBody(b + s, m.header, m.accounts) == Parsed(m, s)
  {
    var tail := InstructionsBytes(m.instructions) + s;
    var b := m.recentBlockhash + (Encoded(|m.instructions|) + InstructionsBytes(m.instructions)) + s;
    assert b == m.recentBlockhash + (Encoded(|m.instructions|) + tail);
    assert b[..32] == m.recentBlockhash && b[32..] == Encoded(|m.instructions|) + tail;
    LenRoundTrip(|m.instructions|, tail);
    InstructionsRoundTrip(m.instructions, |m.accounts|, s);
  }

  lemma MessageRoundTrip(m: Message, s: seq<byte>)
    requires Accepted(m) && |m.accounts| <= MAX_LEN && |m.instructions| <= MAX_LEN
    requires forall k :: 0 <= k < |m.instructions| ==> InstructionLengthsFit(m.instructions[k])
    ensures TakeMessage(MessageBytes(m) + s) == Parsed(m, s)
  {
    var body := m.recentBlockhash + (Encoded(|m.instructions|) + InstructionsBytes(m.instructions));
    var b := MessageBytes(m) + s;
    assert b == HeaderBytes(m.header) + (Encoded(|m.accounts|) + (Flatten(m.accounts) + (body + s))) by {
      Regroup(HeaderBytes(m.header), Encoded(|m.accounts|) + (Flatten(m.accounts) + body), s);
      Regroup(Encoded(|m.accounts|), Flatten(m.accounts) + body, s);
      Regroup(Flatten(m.accounts), body, s);
    }
    assert b[3..] == Encoded(|m.accounts|) + (Flatten(m.accounts) + (body + s));
    LenRoundTrip(|m.accounts|, Flatten(m.accounts) + (body + s));
    BlocksRoundTrip(m.accounts, KEY_SIZE, body + s);
    BodyRoundTrip(m, s);
  }

  /** Decoding undoes encoding on every well-formed transaction, with any bytes after it. */
  lemma TransactionRoundTrip(t: Transaction, s: seq<byte>)
    requires WellFormed(t)
    ensures TakeTransaction(TransactionBytes(t) + s) == Parsed(t, s)
    ensures Decoded(TransactionBytes(t) + s) == Some(t)
  {
    var tail := MessageBytes(t.message) + s;
    assert TransactionBytes(t) + s == Encoded(|t.signatures|) + (Flatten(t.signatures) + tail);
    LenRoundTrip(|t.signatures|, Flatten(t.signatures) + tail);
    BlocksRoundTrip(t.signatures, SIGNATURE_SIZE, tail);
    MessageRoundTrip(t.message, s);
  }

  // ---------- how many bytes a decoded transaction must have taken

  function InstructionSize(c: CompiledInstruction): nat {
    1 + Shortest(|c.accounts|) + |c.accounts| + Shortest(|c.data|) + |c.data|
  }

  function InstructionsSize(cs: seq<CompiledInstruction>): nat {
    if cs == [] then 0 else
      InstructionSize(cs[0]) + InstructionsSize(cs[1..])
  }

  /** The size of a message if every length took its shortest form, including those above 16 bits. */
  function MessageSize(m: Message): nat {
    3 + Shortest(|m.accounts|) + 32 * |m.accounts| + 32 + Shortest(|m.instructions|) + InstructionsSize(m.instructions)
  }

  function TransactionSize(t: Transaction): nat {
    Shortest(|t.signatures|) + 64 * |t.signatures| + MessageSize(t.message)
  }

  lemma EncodedSize(n: nat)
    ensures |Encoded(n)| == if n <= MAX_LEN then Shortest(n) else 0
  {
    if n <= MAX_LEN { GroupsLength(n); }
  }

  lemma {:induction false} BlocksConsume(b: seq<byte>, count: nat, size: nat)
    requires TakeBlocks(b, count, size).Parsed?
    ensures |b| == |TakeBlocks(b, count, size).rest| + count * size
    decreases count
  {
    if count > 0 { BlocksConsume(b[size..], count - 1, size); }
  }

  lemma VectorConsumes(b: seq<byte>)
    requires TakeVector(b).Parsed?
    ensures var p := TakeVector(b); |b| - |p.rest| >= Shortest(|p.value|) + |p.value|
  {
    EncodedIsShortest(b);
  }

  lemma InstructionConsumes(b: seq<byte>, accountCount: nat)
    requires TakeInstruction(b, accountCount).Parsed?
    ensures var p := TakeInstruction(b, accountCount);
            && InstructionInRange(p.value, accountCount)
            && |b| - |p.rest| >= InstructionSize(p.value)
  {
    VectorConsumes(b[1..]);
    VectorConsumes(TakeVector(b[1..]).rest);
  }

  lemma {:induction false} InstructionsInRange(b: seq<byte>, count: nat, accountCount: nat)
    requires TakeInstructions(b, count, accountCount).Parsed?
    ensures forall k :: 0 <= k < count ==>
              InstructionInRange(TakeInstructions(b, count, accountCount).value[k], accountCount)
    decreases count
  {
    if count > 0 {
      InstructionConsumes(b, accountCount);
      var c := TakeInstruction(b, accountCount);
      InstructionsInRange(c.rest, count - 1, accountCount);
      var cs := TakeInstructions(c.rest, count - 1, accountCount);
      assert TakeInstructions(b, count, accountCount).value == [c.value] + cs.value;
    }
  }

  lemma SizeOfMore(c: CompiledInstruction, cs: seq<CompiledInstruction>)
    ensures InstructionsSize([c] + cs) == InstructionSize(c) + InstructionsSize(cs)
  {
    assert ([c] + cs)[1..] == cs;
  }

  lemma {:induction false} InstructionsConsume(b: seq<byte>, count: nat, accountCount: nat)
    requires TakeInstructions(b, count, accountCount).Parsed?
    ensures var p := TakeInstructions(b, count, accountCount); |b| - |p.rest| >= InstructionsSize(p.value)
    decreases count
  {
    if count > 0 {
      InstructionConsumes(b, accountCount);
      var c := TakeInstruction(b, accountCount);
      InstructionsConsume(c.rest, count - 1, accountCount);
      SizeOfMore(c.value, TakeInstructions(c.rest, count - 1, accountCount).value);
    }
  }

  /** Whatever the decoder accepts has 32-byte keys and in-range indices, and took at least its size. */
  lemma MessageConsumes(b: seq<byte>)
    requires TakeMessage(b).Parsed?
    ensures var p := TakeMessage(b); Accepted(p.value) && |b| - |p.rest| >= MessageSize(p.value)
  {
    var n := TakeLen(b[3..]);
    EncodedIsShortest(b[3..]);
    BlocksConsume(n.rest, n.value, KEY_SIZE);
    var accounts := TakeBlocks(n.rest, n.value, KEY_SIZE);
    var k := TakeLen(accounts.rest[32..]);
    EncodedIsShortest(accounts.rest[32..]);
    InstructionsInRange(k.rest, k.value, |accounts.value|);
    InstructionsConsume(k.rest, k.value, |accounts.value|);
  }

  /** Every transaction `Unmarshal` accepts is safe to index and cannot be shorter than its parts. */
  lemma DecodedIsAccepted(b: seq<byte>)
    requires Decoded(b).Some?
    ensures Accepted(Decoded(b).value.message)
    ensures TransactionSize(Decoded(b).value) <= |b|
  {
    var n := TakeLen(b);
    EncodedIsShortest(b);
    BlocksConsume(n.rest, n.value, SIGNATURE_SIZE);
    MessageConsumes(TakeBlocks(n.rest, n.value, SIGNATURE_SIZE).rest);
  }

  // ---------- encoded sizes

  lemma {:induction false} FlattenSize(xs: seq<seq<byte>>, size: nat)
    requires forall k :: 0 <= k < |xs| ==> |xs[k]| == size
    ensures |Flatten(xs)| == |xs| * size
  {
    if xs != [] { FlattenSize(xs[1..], size); }
  }

  lemma {:induction false} InstructionsBytesSize(cs: seq<CompiledInstruction>)
    ensures |InstructionsBytes(cs)| <= InstructionsSize(cs)
    ensures |InstructionsBytes(cs)| == InstructionsSize(cs) <==>
            forall k :: 0 <= k < |cs| ==> InstructionLengthsFit(cs[k])
  {
    if cs != [] {
      InstructionsBytesSize(cs[1..]);
      EncodedSize(|cs[0].accounts|);
      EncodedSize(|cs[0].data|);
      assert (forall k :: 0 <= k < |cs| ==> InstructionLengthsFit(cs[k])) <==>
        InstructionLengthsFit(cs[0]) && forall k :: 0 <= k < |cs[1..]| ==> InstructionLengthsFit(cs[1..][k]) by {
        assert forall k :: 0 < k < |cs| ==> cs[k] == cs[1..][k - 1];
      }
    }
  }

  /** The encoding has exactly the transaction's size if and only if no length was dropped. */
  lemma BytesSize(t: Transaction)
    requires KeysSized(t.message.accounts)
    ensures |TransactionBytes(t)| <= TransactionSize(t)
    ensures |TransactionBytes(t)| == TransactionSize(t) <==> LengthsFit(t)
  {
    EncodedSize(|t.signatures|);
    EncodedSize(|t.message.accounts|);
    EncodedSize(|t.message.instructions|);
    FlattenSize(t.signatures, SIGNATURE_SIZE);
    FlattenSize(t.message.accounts, KEY_SIZE);
    InstructionsBytesSize(t.message.instructions);
  }

  // ---------- main results

  /**
   A transaction survives the wire exactly when it is well formed. The lengths matter because
   `Marshal` ignores the error `EncodeLen` returns above 65535 and then writes no length.
   */
  lemma RoundTripExactly(t: Transaction)
    ensures Decoded(TransactionBytes(t)) == Some(t) <==> WellFormed(t)
  {
    if WellFormed(t) {
      TransactionRoundTrip(t, []);
      assert TransactionBytes(t) + [] == TransactionBytes(t);
    }
    if Decoded(TransactionBytes(t)) == Some(t) {
      DecodedIsAccepted(TransactionBytes(t));
      BytesSize(t);
    }
  }

  /**
   Any accepted bytes can be re-encoded without loss if and only if their lengths fit 16 bits,
   and the result is then never longer, although redundant length bytes had been accepted.
   */
  lemma ReencodeExactly(b: seq<byte>)
    requires Decoded(b).Some?
    ensures var t := Decoded(b).value;
            && (Decoded(TransactionBytes(t)) == Some(t) <==> LengthsFit(t))
            && |TransactionBytes(t)| <= |b|
  {
    var t := Decoded(b).value;
    DecodedIsAccepted(b);
    RoundTripExactly(t);
    BytesSize(t);
  }

  /** Two well-formed transactions with the same bytes are the same transaction. */
  lemma EncodingIsInjective(t: Transaction, u: Transaction)
    requires WellFormed(t) && WellFormed(u)
    requires TransactionBytes(t) == TransactionBytes(u)
    ensures t == u
  {
    RoundTripExactly(t);
    RoundTripExactly(u);
  }

  // ---------- the source's loops

  lemma {:induction false} FlattenSnoc(xs: seq<seq<byte>>, x: seq<byte>)
    ensures Flatten(xs + [x]) == Flatten(xs) + x
  {
    if xs == [] {
      assert Flatten([x]) == x + Flatten([x][1..]);
    } else {
      FlattenSnoc(xs[1..], x);
      assert (xs + [x])[1..] == xs[1..] + [x];
    }
  }

  lemma {:induction false} InstructionsBytesSnoc(cs: seq<CompiledInstruction>, c: CompiledInstruction)
    ensures InstructionsBytes(cs + [c]) == InstructionsBytes(cs) + InstructionBytes(c)
  {
    if cs == [] {
      assert InstructionsBytes([c]) == InstructionBytes(c) + InstructionsBytes([c][1..]);
    } else {
      InstructionsBytesSnoc(cs[1..], c);
      assert (cs + [c])[1..] == cs[1..] + [c];
    }
  }

  method MarshalInstruction(b: Buffer, c: CompiledInstruction)
    modifies b
    ensures b.data == old(b.data) + InstructionBytes(c)
  {
    b.Write([c.programIndex]);
    var _, _ := EncodeLen(b, |c.accounts|);
    b.Write(c.accounts);
    var _, _ := EncodeLen(b, |c.data|);
    b.Write(c.data);
    Regroup6(old(b.data), [c.programIndex], Encoded(|c.accounts|), c.accounts, Encoded(|c.data|), c.data);
  }

  method MarshalInstructions(b: Buffer, cs: seq<CompiledInstruction>)
    modifies b
    ensures b.data == old(b.data) + InstructionsBytes(cs)
  {
    for i := 0 to |cs|
      invariant b.data == old(b.data) + InstructionsBytes(cs[..i])
    {
      MarshalInstruction(b, cs[i]);
      assert cs[..i + 1] == cs[..i] + [cs[i]];
      InstructionsBytesSnoc(cs[..i], cs[i]);
      Regroup(old(b.data), InstructionsBytes(cs[..i]), InstructionBytes(cs[i]));
    }
    assert cs[..|cs|] == cs;
  }

  method MarshalBlocks(b: Buffer, xs: seq<seq<byte>>)
    modifies b
    ensures b.data == old(b.data) + Flatten(xs)
  {
    for i := 0 to |xs|
      invariant b.data == old(b.data) + Flatten(xs[..i])
    {
      b.Write(xs[i]);
      assert xs[..i + 1] == xs[..i] + [xs[i]];
      FlattenSnoc(xs[..i], xs[i]);
      Regroup(old(b.data), Flatten(xs[..i]), xs[i]);
    }
    assert xs[..|xs|] == xs;
  }

  /** `Message.Marshal`. */
  method MarshalMessage(m: Message) returns (bytes: seq<byte>)
    ensures bytes == MessageBytes(m)
  {
    var b := new Buffer([]);
    b.Write([m.header.numSignatures]);
    b.Write([m.header.numReadonlySigned]);
    b.Write([m.header.numReadOnly]);
    assert b.data == HeaderBytes(m.header);
    var _, _ := EncodeLen(b, |m.accounts|);
    MarshalBlocks(b, m.accounts);
    b.Write(m.recentBlockhash);
    var _, _ := EncodeLen(b, |m.instructions|);
    MarshalInstructions(b, m.instructions);
    Regroup6(HeaderBytes(m.header), Encoded(|m.accounts|), Flatten(m.accounts), m.recentBlockhash,
             Encoded(|m.instructions|), InstructionsBytes(m.instructions));
    bytes := b.data;
  }

  lemma TransactionBytesLeft(t: Transaction)
    ensures (([] + Encoded(|t.signatures|)) + Flatten(t.signatures)) + MessageBytes(t.message) == TransactionBytes(t)
  {
    var (e, f, m) := (Encoded(|t.signatures|), Flatten(t.signatures), MessageBytes(t.message));
    assert [] + e == e;
    Regroup(e, f, m);
  }

  /** `Transaction.Marshal`. */
  method Marshal(t: Transaction) returns (bytes: seq<byte>)
    ensures bytes == TransactionBytes(t)
  {
    var b := new Buffer([]);
    var _, _ := EncodeLen(b, |t.signatures|);
    MarshalBlocks(b, t.signatures);
    var m := MarshalMessage(t.message);
    b.Write(m);
    TransactionBytesLeft(t);
    bytes := b.data;
  }

  method ReadBlocks(buf: Buffer, count: nat, size: nat) returns (ok: bool, xs: seq<seq<byte>>)
    modifies buf
    ensures ok == TakeBlocks(old(buf.data), count, size).Parsed?
    ensures ok ==> Parsed(xs, buf.data) == TakeBlocks(old(buf.data), count, size)
  {
    xs := [];
    ghost var whole := TakeBlocks(buf.data, count, size);
    for i := 0 to count
      invariant |xs| == i
      invariant whole.Fail? <==> TakeBlocks(buf.data, count - i, size).Fail?
      invariant whole.Parsed? ==>
                  var p := TakeBlocks(buf.data, count - i, size);
                  whole.value == xs + p.value && whole.rest == p.rest
    {
      ghost var later := TakeBlocks(buf.data, count - i, size);
      var got, x := buf.ReadFull(size);
      if !got {
        return false, [];
      }
      ghost var after := TakeBlocks(buf.data, count - i - 1, size);
      if later.Parsed? {
        assert xs + ([x] + after.value) == (xs + [x]) + after.value;
      }
      xs := xs + [x];
    }
    assert whole.Parsed? ==> xs + [] == xs;
    return true, xs;
  }

  method ReadVector(buf: Buffer) returns (ok: bool, v: seq<byte>)
    modifies buf
    ensures ok == TakeVector(old(buf.data)).Parsed?
    ensures ok ==> Parsed(v, buf.data) == TakeVector(old(buf.data))
  {
    var n;
    ok, n := DecodeLen(buf);
    if !ok {
      return false, [];
    }
    ok, v := buf.ReadFull(n);
  }

  method ReadInstruction(buf: Buffer, accountCount: nat) returns (ok: bool, c: CompiledInstruction)
    modifies buf
    ensures ok == TakeInstruction(old(buf.data), accountCount).Parsed?
    ensures ok ==> Parsed(c, buf.data) == TakeInstruction(old(buf.data), accountCount)
  {
    c := CompiledInstruction(0, [], []);
    var programIndex, data;
    ok, programIndex := buf.ReadFull(1);
    if !ok || programIndex[0] >= accountCount {
      return false, c;
    }
    var accounts;
    ok, accounts := ReadVector(buf);
    if !ok {
      return false, c;
    }
    for k := 0 to |accounts|
      invariant forall j :: 0 <= j < k ==> accounts[j] < accountCount
    {
      if accounts[k] >= accountCount {
        return false, c;
      }
    }
    ok, data := ReadVector(buf);
    if ok {
      c := CompiledInstruction(programIndex[0], accounts, data);
    }
  }

  lemma InstructionsStep(b: seq<byte>, count: nat, accountCount: nat, done: seq<CompiledInstruction>)
    requires count > 0
    ensures var p := TakeInstructions(b, count, accountCount);
            var c := TakeInstruction(b, accountCount);
            if c.Fail? then p.Fail?
            else
              var q := TakeInstructions(c.rest, count - 1, accountCount);
              && (p.Fail? <==> q.Fail?)
              && (p.Parsed? ==> p.rest == q.rest && done + p.value == (done + [c.value]) + q.value)
  {
    var c := TakeInstruction(b, accountCount);
    if c.Parsed? {
      var q := TakeInstructions(c.rest, count - 1, accountCount);
      if q.Parsed? {
        assert done + ([c.value] + q.value) == (done + [c.value]) + q.value;
      }
    }
  }

  method ReadInstructions(buf: Buffer, count: nat, accountCount: nat) returns (ok: bool, cs: seq<CompiledInstruction>)
    modifies buf
    ensures ok == TakeInstructions(old(buf.data), count, accountCount).Parsed?
    ensures ok ==> Parsed(cs, buf.data) == TakeInstructions(old(buf.data), count, accountCount)
  {
    cs := [];
    ghost var whole := TakeInstructions(buf.data, count, accountCount);
    for i := 0 to count
      invariant |cs| == i
      invariant whole.Fail? <==> TakeInstructions(buf.data, count - i, accountCount).Fail?
      invariant whole.Parsed? ==>
                  var p := TakeInstructions(buf.data, count - i, accountCount);
                  whole.value == cs + p.value && whole.rest == p.rest
    {
      InstructionsStep(buf.data, count - i, accountCount, cs);
      var got, c := ReadInstruction(buf, accountCount);
      if !got {
        return false, [];
      }
      cs := cs + [c];
    }
    assert whole.Parsed? ==> cs + [] == cs;
    return true, cs;
  }

  /** `Message.Unmarshal`. */
  method UnmarshalMessage(b: seq<byte>) returns (m: Option<Message>)
    ensures m == var p := TakeMessage(b); if p.Fail? then None else Some(p.value)
  {
    var buf := new Buffer(b);
    var ok, header := buf.ReadFull(3);
    if !ok {
      return None;
    }
    var accountLen, accounts, blockhash, instructionLen, instructions;
    ok, accountLen := DecodeLen(buf);
    if !ok {
      return None;
    }
    ok, accounts := ReadBlocks(buf, accountLen, KEY_SIZE);
    if !ok {
      return None;
    }
    ok, blockhash := buf.ReadFull(32);
    if !ok {
      return None;
    }
    ok, instructionLen := DecodeLen(buf);
    if !ok {
      return None;
    }
    ok, instructions := ReadInstructions(buf, instructionLen, |accounts|);
    if !ok {
      return None;
    }
    return Some(Message(Header(header[0], header[1], header[2]), accounts, blockhash, instructions));
  }

  /** `Transaction.Unmarshal`. */
  method Unmarshal(b: seq<byte>) returns (t: Option<Transaction>)
    ensures t == Decoded(b)
  {
    var buf := new Buffer(b);
    var ok, sigLen := DecodeLen(buf);
    if !ok {
      return None;
    }
    var signatures;
    ok, signatures := ReadBlocks(buf, sigLen, SIGNATURE_SIZE);
    if !ok {
      return None;
    }
    var m := UnmarshalMessage(buf.data);
    if m.None? {
      return None;
    }
    return Some(Transaction(signatures, m.value));
  }
}
