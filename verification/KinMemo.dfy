/**
 The 32-byte memo of `kin/memo.go`: two magic bits, three of version, five of type, sixteen of
 app index and 230 of foreign key, packed low bits first. Bytes are bit vectors here, because the
 source works on their bits.
 */
module KinMemo {
  import opened Common

  type Bits = seq<bv8>

  type Memo = m: Bits | |m| == 32 witness seq(32, _ => 0)

  const MAGIC: bv8 := 1

  const TYPE_UNKNOWN: int := -1

  const TYPE_EARN: int := 1

  const TYPE_SPEND: int := 2

  const TYPE_P2P: int := 3

  const MAX_TRANSACTION_TYPE: int := TYPE_P2P

  datatype MemoError = BadForeignKey | BadVersion | BadType

  // ---------- accessors

  function Version(m: Memo): bv8 {
    (m[0] & 0x1c) >> 2
  }

  function TypeBits(m: Memo): bv8 {
    (m[0] >> 5) | ((m[1] & 0x3) << 3)
  }

  function TransactionTypeRaw(m: Memo): (t: int)
    ensures 0 <= t
  {
    TypeBits(m) as int
  }

  function TransactionType(m: Memo): int {
    if TransactionTypeRaw(m) <= MAX_TRANSACTION_TYPE then TransactionTypeRaw(m) else TYPE_UNKNOWN
  }

  function AppIndex(m: Memo): bv16 {
    ((m[1] as bv16) >> 2) | ((m[2] as bv16) << 6) | (((m[3] as bv16) & 0x3) << 14)
  }

  predicate IsValidMemo(m: Memo) {
    m[0] & 0x3 == MAGIC && TransactionTypeRaw(m) != TYPE_UNKNOWN
  }

  /** Byte `i` of the foreign key straddles two bytes of the memo; the last has six bits. */
  function ForeignKeyByte(m: Memo, i: nat): bv8
    requires i < 29
  {
    if i < 28 then (m[i + 3] >> 2) | ((m[i + 4] & 0x3) << 6) else m[31] >> 2
  }

  method ForeignKey(m: Memo) returns (fk: array<bv8>)
    ensures fresh(fk) && fk.Length == 29
    ensures forall i :: 0 <= i < 29 ==> fk[i] == ForeignKeyByte(m, i)
  {
    fk := new bv8[29](_ => 0);
    for i := 0 to 28
      invariant forall k :: 0 <= k < i ==> fk[k] == ForeignKeyByte(m, k)
      invariant forall k :: i <= k < 29 ==> fk[k] == 0
    {
      fk[i] := fk[i] | (m[i + 3] >> 2);
      fk[i] := fk[i] | ((m[i + 4] & 0x3) << 6);
    }
    fk[28] := m[31] >> 2;
  }

  // ---------- packing

  /** Byte `i` of a foreign key, zero past its end. */
  function KeyByte(fk: Bits, i: int): bv8 {
    if 0 <= i < |fk| then fk[i] else 0
  }

  /** Byte `i` of the packed memo. */
  function PackedByte(v: bv8, t: bv8, app: bv16, fk: Bits, i: nat): bv8
    requires i < 32
  {
    if i == 0 then MAGIC | (v << 2) | ((t & 0x7) << 5)
    else if i == 1 then ((t & 0x18) >> 3) | (((app & 0x3f) as bv8) << 2)
    else if i == 2 then ((app & 0x3fc0) >> 6) as bv8
    else if i == 3 then (((app & 0xc000) >> 14) as bv8) | ((KeyByte(fk, 0) & 0x3f) << 2)
    else ((KeyByte(fk, i - 4) >> 6) & 0x3) | ((KeyByte(fk, i - 3) & 0x3f) << 2)
  }

  function Packed(v: bv8, t: bv8, app: bv16, fk: Bits): (m: Memo)
    ensures forall i :: 0 <= i < 32 ==> m[i] == PackedByte(v, t, app, fk, i)
  {
    seq(32, i requires 0 <= i < 32 => PackedByte(v, t, app, fk, i))
  }

  /** A memo byte that only holds foreign key bits. */
  function KeyPart(fk: Bits, i: nat): bv8
    requires i >= 4
  {
    ((KeyByte(fk, i - 4) >> 6) & 0x3) | ((KeyByte(fk, i - 3) & 0x3f) << 2)
  }

  lemma PartialParts(fk: Bits, i: nat)
    requires i >= 4
    ensures i - 3 >= |fk| ==> KeyPart(fk, i) == (KeyByte(fk, i - 4) >> 6) & 0x3
    ensures i - 4 >= |fk| ==> KeyPart(fk, i) == 0
  {
  }

  /** The foreign key part of `NewMemo`: each key byte is ORed into two bytes of the memo. */
  method PackKey(m: array<bv8>, foreignKey: Bits)
    requires m.Length == 32 && 0 < |foreignKey| <= 29
    requires forall k :: 4 <= k < 32 ==> m[k] == 0
    modifies m
    ensures forall k :: 0 <= k < 3 ==> m[k] == old(m[k])
    ensures m[3] == old(m[3]) | ((foreignKey[0] & 0x3f) << 2)
    ensures forall k :: 4 <= k < 32 ==> m[k] == KeyPart(foreignKey, k)
  {
    m[3] := m[3] | ((foreignKey[0] & 0x3f) << 2);
    for i := 4 to 3 + |foreignKey|
      invariant forall k :: 0 <= k < 3 ==> m[k] == old(m[k])
      invariant m[3] == old(m[3]) | ((foreignKey[0] & 0x3f) << 2)
      invariant forall k :: 4 <= k < i ==> m[k] == KeyPart(foreignKey, k)
      invariant forall k :: i <= k < 32 && 4 <= k ==> m[k] == 0
    {
      m[i] := (foreignKey[i - 4] >> 6) & 0x3;
      m[i] := m[i] | ((foreignKey[i - 3] & 0x3f) << 2);
    }
    if |foreignKey| < 29 {
      m[|foreignKey| + 3] := (foreignKey[|foreignKey| - 1] >> 6) & 0x3;
    }
    forall k | 3 + |foreignKey| <= k < 32 ensures k < 4 || m[k] == KeyPart(foreignKey, k) {
      if k >= 4 { PartialParts(foreignKey, k); }
    }
  }

  method NewMemo(v: bv8, t: int, app: bv16, foreignKey: Bits) returns (r: Result<Memo, MemoError>)
    ensures r == if |foreignKey| > 29 then Err(BadForeignKey)
                 else if v > 7 then Err(BadVersion)
                 else if t < 0 || t > 31 then Err(BadType)
                 else Ok(Packed(v, t as bv8, app, foreignKey))
  {
    if |foreignKey| > 29 {
      return Err(BadForeignKey);
    }
    if v > 7 {
      return Err(BadVersion);
    }
    if t < 0 || t > 31 {
      return Err(BadType);
    }
    var tb := t as bv8;
    var m := new bv8[32](_ => 0);
    m[0] := MAGIC;
    m[0] := m[0] | (v << 2);
    m[0] := m[0] | ((tb & 0x7) << 5);
    m[1] := (tb & 0x18) >> 3;
    m[1] := m[1] | (((app & 0x3f) as bv8) << 2);
    m[2] := ((app & 0x3fc0) >> 6) as bv8;
    m[3] := ((app & 0xc000) >> 14) as bv8;
    ghost var head := m[..];
    if |foreignKey| > 0 {
      PackKey(m, foreignKey);
    }
    PackedParts(v, tb, app, foreignKey, head, m[..]);
    return Ok(m[..]);
  }

  lemma PackedParts(v: bv8, t: bv8, app: bv16, fk: Bits, head: Bits, m: Bits)
    requires |head| == 32 && |m| == 32
    requires head[0] == MAGIC | (v << 2) | ((t & 0x7) << 5)
    requires head[1] == ((t & 0x18) >> 3) | (((app & 0x3f) as bv8) << 2)
    requires head[2] == ((app & 0x3fc0) >> 6) as bv8
    requires head[3] == ((app & 0xc000) >> 14) as bv8
    requires forall k :: 0 <= k < 3 ==> m[k] == head[k]
    requires m[3] == if |fk| > 0 then head[3] | ((fk[0] & 0x3f) << 2) else head[3]
    requires forall k :: 4 <= k < 32 ==> m[k] == if |fk| > 0 then KeyPart(fk, k) else 0
    ensures m == Packed(v, t, app, fk)
  {
    forall k | 4 <= k < 32 ensures m[k] == PackedByte(v, t, app, fk, k) {
      PartialParts(fk, k);
    }
    NoKeyBits(head[3]);
  }

  lemma NoKeyBits(b: bv8)
    ensures b | (((0 as bv8) & 0x3f) << 2) == b
  {
  }

  // ---------- reading back

  lemma HeadBits(v: bv8, t: bv8, m0: bv8, m1: bv8, low: bv8)
    requires v <= 7 && t <= 31
    requires m0 == MAGIC | (v << 2) | ((t & 0x7) << 5)
    requires m1 == ((t & 0x18) >> 3) | (low << 2)
    ensures m0 & 0x3 == MAGIC
    ensures (m0 & 0x1c) >> 2 == v
    ensures (m0 >> 5) | ((m1 & 0x3) << 3) == t
  {
  }

  lemma AppBits(app: bv16, m1: bv8, m2: bv8, m3: bv8, t: bv8, k: bv8)
    requires m1 == ((t & 0x18) >> 3) | (((app & 0x3f) as bv8) << 2)
    requires m2 == ((app & 0x3fc0) >> 6) as bv8
    requires m3 == (((app & 0xc000) >> 14) as bv8) | ((k & 0x3f) << 2)
    ensures ((m1 as bv16) >> 2) | ((m2 as bv16) << 6) | (((m3 as bv16) & 0x3) << 14) == app
  {
  }

  lemma KeyBits(a: bv8, b: bv8, low: bv8, x: bv8, y: bv8)
    requires low <= 3
    requires x == low | ((a & 0x3f) << 2)
    requires y == ((a >> 6) & 0x3) | ((b & 0x3f) << 2)
    ensures (x >> 2) | ((y & 0x3) << 6) == a & 0xff
    ensures y >> 2 == b & 0x3f
  {
  }

  lemma HeadRoundTrip(v: bv8, t: bv8, app: bv16, fk: Bits)
    requires v <= 7 && t <= 31
    ensures var m := Packed(v, t, app, fk);
            m[0] & 0x3 == MAGIC && Version(m) == v && TypeBits(m) == t
  {
    var m := Packed(v, t, app, fk);
    HeadBits(v, t, m[0], m[1], (app & 0x3f) as bv8);
  }

  lemma AppRoundTrip(v: bv8, t: bv8, app: bv16, fk: Bits)
    ensures AppIndex(Packed(v, t, app, fk)) == app
  {
    var m := Packed(v, t, app, fk);
    AppBits(app, m[1], m[2], m[3], t, KeyByte(fk, 0));
  }

  /**
   Packing loses nothing: the accessors return the version, type, app index and the foreign key
   padded with zeros to 29 bytes, of which the last keeps its low six bits.
   */
  lemma MemoRoundTrip(v: bv8, t: bv8, app: bv16, fk: Bits)
    requires v <= 7 && t <= 31 && |fk| <= 29
    ensures var m := Packed(v, t, app, fk);
            && IsValidMemo(m)
            && Version(m) == v
            && TypeBits(m) == t
            && AppIndex(m) == app
            && forall i :: 0 <= i < 29 ==> ForeignKeyByte(m, i) == KeyByte(fk, i) & (if i < 28 then 0xff else 0x3f)
  {
    var m := Packed(v, t, app, fk);
    HeadRoundTrip(v, t, app, fk);
    AppRoundTrip(v, t, app, fk);
    forall i | 0 <= i < 29
      ensures ForeignKeyByte(m, i) == KeyByte(fk, i) & (if i < 28 then 0xff else 0x3f)
    {
      KeyByteRoundTrip(v, t, app, fk, i);
    }
  }

  lemma LowBits(app: bv16, k: bv8)
    ensures ((app & 0xc000) >> 14) as bv8 <= 3
    ensures (k >> 6) & 0x3 <= 3
  {
  }

  /** The bits of byte `i + 3` below those of key byte `i`. */
  function Below(app: bv16, fk: Bits, i: nat): bv8 {
    if i == 0 then ((app & 0xc000) >> 14) as bv8 else (KeyByte(fk, i - 1) >> 6) & 0x3
  }

  lemma BelowIsLow(app: bv16, fk: Bits, i: nat)
    ensures Below(app, fk, i) <= 3
  {
    LowBits(app, KeyByte(fk, i - 1));
  }

  lemma KeyByteInside(v: bv8, t: bv8, app: bv16, fk: Bits, i: nat)
    requires i < 28
    ensures ForeignKeyByte(Packed(v, t, app, fk), i) == KeyByte(fk, i) & 0xff
  {
    var m := Packed(v, t, app, fk);
    assert m[i + 3] == Below(app, fk, i) | ((KeyByte(fk, i) & 0x3f) << 2);
    assert m[i + 4] == ((KeyByte(fk, i) >> 6) & 0x3) | ((KeyByte(fk, i + 1) & 0x3f) << 2);
    BelowIsLow(app, fk, i);
    KeyBits(KeyByte(fk, i), KeyByte(fk, i + 1), Below(app, fk, i), m[i + 3], m[i + 4]);
  }

  lemma KeyByteLast(v: bv8, t: bv8, app: bv16, fk: Bits)
    ensures ForeignKeyByte(Packed(v, t, app, fk), 28) == KeyByte(fk, 28) & 0x3f
  {
    var m := Packed(v, t, app, fk);
    BelowIsLow(app, fk, 28);
    LastKeyBits(KeyByte(fk, 28), Below(app, fk, 28), m[31]);
  }

  lemma KeyByteRoundTrip(v: bv8, t: bv8, app: bv16, fk: Bits, i: nat)
    requires i < 29
    ensures ForeignKeyByte(Packed(v, t, app, fk), i) == KeyByte(fk, i) & (if i < 28 then 0xff else 0x3f)
  {
    if i < 28 { KeyByteInside(v, t, app, fk, i); } else { KeyByteLast(v, t, app, fk); }
  }

  lemma LastKeyBits(a: bv8, low: bv8, x: bv8)
    requires low <= 3 && x == low | ((a & 0x3f) << 2)
    ensures x >> 2 == a & 0x3f
  {
  }

  // ---------- rebuilding

  /** The 29 bytes `ForeignKey` returns. */
  function ForeignKeyOf(m: Memo): (fk: Bits)
    ensures |fk| == 29 && forall i :: 0 <= i < 29 ==> fk[i] == ForeignKeyByte(m, i)
  {
    seq(29, i requires 0 <= i < 29 => ForeignKeyByte(m, i))
  }

  lemma HeadRebuild(m0: bv8, m1: bv8, m2: bv8, m3: bv8)
    requires m0 & 0x3 == MAGIC
    ensures var v := (m0 & 0x1c) >> 2;
            var t := (m0 >> 5) | ((m1 & 0x3) << 3);
            var app := ((m1 as bv16) >> 2) | ((m2 as bv16) << 6) | (((m3 as bv16) & 0x3) << 14);
            && v <= 7 && t <= 31
            && m0 == MAGIC | (v << 2) | ((t & 0x7) << 5)
            && m1 == ((t & 0x18) >> 3) | (((app & 0x3f) as bv8) << 2)
            && m2 == ((app & 0x3fc0) >> 6) as bv8
            && m3 & 0x3 == ((app & 0xc000) >> 14) as bv8
  {
  }

  lemma KeyRebuild(x: bv8, y: bv8, z: bv8)
    ensures var a := (x >> 2) | ((y & 0x3) << 6);
            var b := (y >> 2) | ((z & 0x3) << 6);
            && y == ((a >> 6) & 0x3) | ((b & 0x3f) << 2)
            && x == (x & 0x3) | ((a & 0x3f) << 2)
            && y == ((a >> 6) & 0x3) | (((y >> 2) & 0x3f) << 2)
  {
  }

  /** Conversely every memo with the magic bits is rebuilt, bit for bit, from its own accessors. */
  lemma MemoRebuilt(m: Memo)
    requires m[0] & 0x3 == MAGIC
    ensures Version(m) <= 7 && TypeBits(m) <= 31
    ensures Packed(Version(m), TypeBits(m), AppIndex(m), ForeignKeyOf(m)) == m
  {
    var fk := ForeignKeyOf(m);
    var p := Packed(Version(m), TypeBits(m), AppIndex(m), fk);
    HeadRebuild(m[0], m[1], m[2], m[3]);
    forall i | 0 <= i < 32 ensures p[i] == m[i] {
      if i == 3 {
        KeyRebuild(m[3], m[4], m[5]);
      } else if 4 <= i < 31 {
        KeyRebuild(m[i - 1], m[i], m[i + 1]);
      } else if i == 31 {
        KeyRebuild(m[30], m[31], 0);
      }
    }
  }

  /** The type check in `IsValidMemo` never fails: only the magic bits matter. */
  lemma ValidIsMagic(m: Memo)
    ensures IsValidMemo(m) <==> m[0] & 0x3 == MAGIC
  {
  }
}
