/** The 165-byte layout of an SPL token account, written and read through moving offsets. */
module TokenState {
  import opened Common

  const ACCOUNT_SIZE: nat := 165

  /** An unset delegate or close authority is the empty key. */
  datatype Data = Data(
    mint: Key, owner: Key, amount: uint64, delegate: Key, state: byte, native: Option<uint64>,
    delegatedAmount: uint64, closeAuthority: Key)

  const FRESH := Data([], [], 0, [], 0, None, 0, [])

  // ---------- bytes

  /** Go's `copy` into a buffer from `at` on: what does not fit is left off. */
  function Put(b: seq<byte>, at: nat, src: seq<byte>): (r: seq<byte>)
    requires at <= |b|
    ensures |r| == |b|
  {
    var n := if |src| <= |b| - at then |src| else |b| - at;
    b[..at] + src[..n] + b[at + n..]
  }

  function PutOptional(b: seq<byte>, at: nat, src: seq<byte>): (r: seq<byte>)
    requires at + 4 <= |b|
    ensures |r| == |b|
  {
    if |src| > 0 then Put(Put(b, at, [1]), at + 4, src) else b
  }

  function NativeBytes(v: Option<uint64>): seq<byte> {
    if v == None then [] else LittleEndian(v.value, 8)
  }

  /** The buffer after `Marshal`, for keys of any length. */
  function Marshalled(v: Data): (b: seq<byte>)
    ensures |b| == ACCOUNT_SIZE
  {
    var b := Put(Zeros(ACCOUNT_SIZE), 0, v.mint);
    var b := Put(b, 32, v.owner);
    var b := Put(b, 64, LittleEndian(v.amount, 8));
    var b := PutOptional(b, 72, v.delegate);
    var b := Put(b, 108, [v.state]);
    var b := PutOptional(b, 109, NativeBytes(v.native));
    var b := Put(b, 121, LittleEndian(v.delegatedAmount, 8));
    PutOptional(b, 129, v.closeAuthority)
  }

  function ReadUint64(b: seq<byte>): uint64
    requires |b| == 8
  {
    Uint64Bound(b);
    FromLittleEndian(b)
  }

  /** The fields after `Unmarshal`: an option whose tag is not 1 keeps what the receiver held. */
  function Loaded(old_: Data, b: seq<byte>): Data
    requires |b| == ACCOUNT_SIZE
  {
    Data(b[0..32], b[32..64], ReadUint64(b[64..72]),
         if b[72] == 1 then b[76..108] else old_.delegate,
         b[108],
         if b[109] == 1 then Some(ReadUint64(b[113..121])) else old_.native,
         ReadUint64(b[121..129]),
         if b[129] == 1 then b[133..165] else old_.closeAuthority)
  }

  // ---------- the layout

  lemma ZerosSplit(m: nat, n: nat)
    ensures Zeros(m + n) == Zeros(m) + Zeros(n)
  {
  }

  /** Writing at the end of what is written so far. */
  lemma PutNext(done: seq<byte>, data: seq<byte>, left: nat)
    requires |data| <= left
    ensures Put(done + Zeros(left), |done|, data) == done + data + Zeros(left - |data|)
  {
  }

  function Block(data: seq<byte>, size: nat): seq<byte> {
    if |data| > 0 then [1, 0, 0, 0] + data else Zeros(4 + size)
  }

  lemma PutOptionalNext(done: seq<byte>, data: seq<byte>, size: nat, left: nat)
    requires (|data| == size || |data| == 0) && 4 + size <= left
    ensures PutOptional(done + Zeros(left), |done|, data) == done + Block(data, size) + Zeros(left - 4 - size)
  {
    if |data| > 0 {
      PutNext(done, [1], left);
      var tagged := done + [1, 0, 0, 0];
      assert Put(done + Zeros(left), |done|, [1]) == tagged + Zeros(left - 4);
      PutNext(tagged, data, left - 4);
      assert done + Block(data, size) == tagged + data;
    } else {
      ZerosSplit(4 + size, left - 4 - size);
      assert done + Zeros(left) == done + Block(data, size) + Zeros(left - 4 - size);
    }
  }

  predicate Sized(v: Data) {
    && |v.mint| == 32 && |v.owner| == 32
    && (|v.delegate| == 0 || |v.delegate| == 32) && (|v.closeAuthority| == 0 || |v.closeAuthority| == 32)
  }

  function Head(v: Data): seq<byte> {
    v.mint + v.owner + LittleEndian(v.amount, 8)
  }

  function Middle(v: Data): seq<byte> {
    Block(v.delegate, 32) + [v.state] + Block(NativeBytes(v.native), 8)
  }

  function Tail(v: Data): seq<byte> {
    LittleEndian(v.delegatedAmount, 8) + Block(v.closeAuthority, 32)
  }

  lemma HeadLayout(v: Data)
    requires Sized(v)
    ensures |Head(v)| == 72
    ensures Put(Put(Put(Zeros(ACCOUNT_SIZE), 0, v.mint), 32, v.owner), 64, LittleEndian(v.amount, 8)) ==
            Head(v) + Zeros(93)
  {
    assert [] + Zeros(ACCOUNT_SIZE) == Zeros(ACCOUNT_SIZE);
    PutNext([], v.mint, 165);
    assert [] + v.mint + Zeros(133) == v.mint + Zeros(133);
    PutNext(v.mint, v.owner, 133);
    PutNext(v.mint + v.owner, LittleEndian(v.amount, 8), 101);
  }

  lemma MiddleLayout(v: Data, head: seq<byte>)
    requires Sized(v) && |head| == 72
    ensures |Middle(v)| == 49
    ensures PutOptional(Put(PutOptional(head + Zeros(93), 72, v.delegate), 108, [v.state]), 109, NativeBytes(v.native))
         == head + Middle(v) + Zeros(44)
  {
    PutOptionalNext(head, v.delegate, 32, 93);
    var first := head + Block(v.delegate, 32);
    PutNext(first, [v.state], 57);
    PutOptionalNext(first + [v.state], NativeBytes(v.native), 8, 56);
    assert first + [v.state] + Block(NativeBytes(v.native), 8) == head + Middle(v);
  }

  lemma TailLayout(v: Data, front: seq<byte>)
    requires Sized(v) && |front| == 121
    ensures |Tail(v)| == 44
    ensures PutOptional(Put(front + Zeros(44), 121, LittleEndian(v.delegatedAmount, 8)), 129, v.closeAuthority) ==
            front + Tail(v)
  {
    PutNext(front, LittleEndian(v.delegatedAmount, 8), 44);
    var first := front + LittleEndian(v.delegatedAmount, 8);
    PutOptionalNext(first, v.closeAuthority, 32, 36);
    assert first + Block(v.closeAuthority, 32) + Zeros(0) == front + Tail(v);
  }

  /** With keys of the right size the fields tile the buffer exactly, none writing over another. */
  lemma FieldsTile(v: Data)
    requires Sized(v)
    ensures Marshalled(v) == Head(v) + Middle(v) + Tail(v)
    ensures |Head(v)| == 72 && |Middle(v)| == 49 && |Tail(v)| == 44
  {
    HeadLayout(v);
    MiddleLayout(v, Head(v));
    TailLayout(v, Head(v) + Middle(v));
  }

  // ---------- round trips

  lemma Locate(b: seq<byte>, h: seq<byte>, m: seq<byte>, t: seq<byte>)
    requires |h| == 72 && |m| == 49 && |t| == 44 && b == h + m + t
    ensures |b| == ACCOUNT_SIZE
    ensures b[72] == m[0] && b[76..108] == m[4..36] && b[108] == m[36]
    ensures b[109] == m[37] && b[113..121] == m[41..49]
    ensures b[121..129] == t[0..8] && b[129] == t[8] && b[133..165] == t[12..44]
  {
  }

  lemma HeadReads(v: Data, b: seq<byte>, rest: seq<byte>)
    requires Sized(v) && b == Head(v) + rest
    ensures |b| >= 72 && b[0..32] == v.mint && b[32..64] == v.owner && b[64..72] == LittleEndian(v.amount, 8)
  {
  }

  lemma MiddleReads(v: Data, m: seq<byte>)
    requires Sized(v) && m == Middle(v)
    ensures |m| == 49
    ensures if v.delegate != [] then m[0] == 1 && m[4..36] == v.delegate else m[0] == 0
    ensures m[36] == v.state
    ensures if v.native.Some? then m[37] == 1 && m[41..49] == LittleEndian(v.native.value, 8) else m[37] == 0
  {
    var d, n := Block(v.delegate, 32), Block(NativeBytes(v.native), 8);
    assert |d| == 36 && |n| == 12;
    assert m[..36] == d && m[36] == v.state && m[37..] == n;
    assert m[4..36] == d[4..] && m[41..49] == n[4..];
  }

  lemma TailReads(v: Data, t: seq<byte>)
    requires Sized(v) && t == Tail(v)
    ensures |t| == 44 && t[0..8] == LittleEndian(v.delegatedAmount, 8)
    ensures if v.closeAuthority != [] then t[8] == 1 && t[12..44] == v.closeAuthority else t[8] == 0
  {
  }

  /** The fields that are numbers, from the bytes that hold them. */
  lemma NumbersRead(v: Data, amount: seq<byte>, native: seq<byte>, delegated: seq<byte>)
    requires amount == LittleEndian(v.amount, 8) && delegated == LittleEndian(v.delegatedAmount, 8)
    requires |native| == 8 && (v.native.Some? ==> native == LittleEndian(v.native.value, 8))
    ensures ReadUint64(amount) == v.amount && ReadUint64(delegated) == v.delegatedAmount
    ensures v.native.Some? ==> ReadUint64(native) == v.native.value
  {
    Uint64RoundTrip(v.amount);
    Uint64RoundTrip(v.delegatedAmount);
    if v.native.Some? { Uint64RoundTrip(v.native.value); }
  }

  /** What a buffer must hold, field by field, to be read as `v`. */
  lemma FieldsRead(v: Data, b: seq<byte>)
    requires |b| == ACCOUNT_SIZE
    requires b[0..32] == v.mint && b[32..64] == v.owner && b[64..72] == LittleEndian(v.amount, 8)
    requires if v.delegate != [] then b[72] == 1 && b[76..108] == v.delegate else b[72] == 0
    requires b[108] == v.state && b[121..129] == LittleEndian(v.delegatedAmount, 8)
    requires if v.native.Some? then b[109] == 1 && b[113..121] == LittleEndian(v.native.value, 8) else b[109] == 0
    requires if v.closeAuthority != [] then b[129] == 1 && b[133..165] == v.closeAuthority else b[129] == 0
    ensures Loaded(FRESH, b) == v
  {
    NumbersRead(v, b[64..72], b[113..121], b[121..129]);
  }

  lemma SizedRoundTrip(v: Data)
    requires Sized(v)
    ensures Loaded(FRESH, Marshalled(v)) == v
  {
    FieldsTile(v);
    var b, m, t := Marshalled(v), Middle(v), Tail(v);
    Locate(b, Head(v), m, t);
    assert b == Head(v) + (m + t);
    HeadReads(v, b, m + t);
    MiddleReads(v, m);
    TailReads(v, t);
    FieldsRead(v, b);
  }

  /** Reading back what was written returns the account, if and only if its keys have their proper size. */
  lemma AccountRoundTripExactly(v: Data)
    ensures Loaded(FRESH, Marshalled(v)) == v <==> Sized(v)
  {
    if Sized(v) { SizedRoundTrip(v); }
  }

  predicate CanonicalBlock(b: seq<byte>) {
    4 <= |b| && (b[..4] == [1, 0, 0, 0] || b == Zeros(|b|))
  }

  /** Each option is tagged one and present, or all zero. */
  predicate Canonical(b: seq<byte>)
    requires |b| == ACCOUNT_SIZE
  {
    CanonicalBlock(b[72..108]) && CanonicalBlock(b[109..121]) && CanonicalBlock(b[129..165])
  }

  lemma BlockIsCanonicalExactly(b: seq<byte>, size: nat)
    requires |b| == 4 + size && size > 0
    ensures Block(if b[0] == 1 then b[4..] else [], size) == b <==> CanonicalBlock(b)
  {
    if b[0] == 1 {
      assert b == b[..4] + b[4..];
      if b[..4] == [1, 0, 0, 0] { assert [1, 0, 0, 0] + b[4..] == b; }
    }
  }

  lemma LoadedHead(b: seq<byte>, v: Data)
    requires |b| == ACCOUNT_SIZE && v == Loaded(FRESH, b)
    ensures Sized(v) && Head(v) == b[..72]
  {
    Uint64Bound(b[64..72]);
    assert b[..72] == b[0..32] + b[32..64] + b[64..72];
  }

  lemma LoadedNumbers(b: seq<byte>, v: Data)
    requires |b| == ACCOUNT_SIZE && v == Loaded(FRESH, b)
    ensures NativeBytes(v.native) == if b[109] == 1 then b[113..121] else []
    ensures LittleEndian(v.delegatedAmount, 8) == b[121..129]
  {
    Uint64Bound(b[113..121]);
    Uint64Bound(b[121..129]);
  }

  lemma BlocksDecide(b: seq<byte>, d: seq<byte>, n: seq<byte>, c: seq<byte>)
    requires |b| == ACCOUNT_SIZE && |d| == 36 && |n| == 12 && |c| == 36
    ensures b[..72] + (d + [b[108]] + n) + (b[121..129] + c) == b <==>
            d == b[72..108] && n == b[109..121] && c == b[129..165]
  {
    var all := b[..72] + (d + [b[108]] + n) + (b[121..129] + c);
    assert all[72..108] == d && all[109..121] == n && all[129..165] == c;
    if d == b[72..108] && n == b[109..121] && c == b[129..165] {
      assert b == b[..72] + b[72..108] + [b[108]] + b[109..121] + b[121..129] + b[129..165];
    }
  }

  /** Conversely a buffer is written back unchanged, if and only if its options are canonical. */
  lemma BytesRoundTripExactly(b: seq<byte>)
    requires |b| == ACCOUNT_SIZE
    ensures Marshalled(Loaded(FRESH, b)) == b <==> Canonical(b)
  {
    var v := Loaded(FRESH, b);
    LoadedHead(b, v);
    LoadedNumbers(b, v);
    FieldsTile(v);
    var d, n, c := Block(v.delegate, 32), Block(NativeBytes(v.native), 8), Block(v.closeAuthority, 32);
    BlocksDecide(b, d, n, c);
    BlockIsCanonicalExactly(b[72..108], 32);
    BlockIsCanonicalExactly(b[109..121], 8);
    BlockIsCanonicalExactly(b[129..165], 32);
    assert b[72..108][4..] == b[76..108] && b[109..121][4..] == b[113..121] && b[129..165][4..] == b[133..165];
  }

  // ---------- the buffer and the account

  /** `copy` of `src` into the buffer. */
  method Copy(b: array<byte>, at: nat, src: seq<byte>)
    requires at <= b.Length
    modifies b
    ensures b[..] == Put(old(b[..]), at, src)
  {
    ghost var was := b[..];
    var n := if |src| <= b.Length - at then |src| else b.Length - at;
    var i := 0;
    while i < n
      invariant 0 <= i <= n
      invariant forall k :: 0 <= k < b.Length ==> b[k] == if at <= k < at + i then src[k - at] else was[k]
    {
      b[at + i] := src[i];
      i := i + 1;
    }
  }

  method WriteKey(b: array<byte>, offset: nat, src: seq<byte>) returns (next: nat)
    requires offset <= b.Length
    modifies b
    ensures b[..] == Put(old(b[..]), offset, src) && next == offset + 32
  {
    Copy(b, offset, src);
    next := offset + 32;
  }

  method WriteUint64(b: array<byte>, offset: nat, v: uint64) returns (next: nat)
    requires offset + 8 <= b.Length
    modifies b
    ensures b[..] == Put(old(b[..]), offset, LittleEndian(v, 8)) && next == offset + 8
  {
    Copy(b, offset, LittleEndian(v, 8));
    next := offset + 8;
  }

  method WriteOptional(b: array<byte>, offset: nat, src: seq<byte>, size: nat) returns (next: nat)
    requires offset + 4 <= b.Length
    modifies b
    ensures b[..] == PutOptional(old(b[..]), offset, src) && next == offset + 4 + size
  {
    if |src| > 0 {
      Copy(b, offset, [1]);
      Copy(b, offset + 4, src);
    }
    next := offset + 4 + size;
  }

  class Account {
    var data: Data

    constructor ()
      ensures data == FRESH
    {
      data := FRESH;
    }

    method Marshal() returns (b: array<byte>)
      ensures fresh(b) && b[..] == Marshalled(data)
    {
      b := new byte[ACCOUNT_SIZE](_ => 0);
      assert b[..] == Zeros(ACCOUNT_SIZE);
      var offset := WriteKey(b, 0, data.mint);
      offset := WriteKey(b, offset, data.owner);
      offset := WriteUint64(b, offset, data.amount);
      offset := WriteOptional(b, offset, data.delegate, 32);
      Copy(b, offset, [data.state]);
      offset := offset + 1;
      offset := WriteOptional(b, offset, NativeBytes(data.native), 8);
      offset := WriteUint64(b, offset, data.delegatedAmount);
      offset := WriteOptional(b, offset, data.closeAuthority, 32);
    }

    /** Refuses any other length, and then leaves the account alone. */
    method Unmarshal(b: seq<byte>) returns (ok: bool)
      modifies this`data
      ensures ok <==> |b| == ACCOUNT_SIZE
      ensures data == if ok then Loaded(old(data), b) else old(data)
    {
      if |b| != ACCOUNT_SIZE { return false; }
      var offset := 0;
      data := data.(mint := b[offset..offset + 32]);
      offset := offset + 32;
      data := data.(owner := b[offset..offset + 32]);
      offset := offset + 32;
      data := data.(amount := ReadUint64(b[offset..offset + 8]));
      offset := offset + 8;
      if b[offset] == 1 { data := data.(delegate := b[offset + 4..offset + 36]); }
      offset := offset + 36;
      data := data.(state := b[offset]);
      offset := offset + 1;
      if b[offset] == 1 { data := data.(native := Some(ReadUint64(b[offset + 4..offset + 12]))); }
      offset := offset + 12;
      data := data.(delegatedAmount := ReadUint64(b[offset..offset + 8]));
      offset := offset + 8;
      if b[offset] == 1 { data := data.(closeAuthority := b[offset + 4..offset + 36]); }
      return true;
    }
  }
}
