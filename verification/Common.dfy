/**
 Values shared by every other module: bytes, keys, results and the little-endian
 integers that Solana programs put in instruction data.
 */
module Common {

  type byte = x: int | 0 <= x < 256

  /** An account address. Go's `ed25519.PublicKey` is a slice, so any length is possible. */
  type Key = seq<byte>

  const KEY_SIZE: nat := 32

  function Zeros(n: nat): (s: seq<byte>)
    ensures |s| == n && forall i :: 0 <= i < n ==> s[i] == 0
  {
    seq(n, _ => 0)
  }

  const ZERO_KEY: Key := Zeros(32)

  datatype Option<+T> = None | Some(value: T)

  datatype Result<+T, +E> = Ok(value: T) | Err(error: E)

  /** `n` bytes of `v`, least significant first, as `binary.LittleEndian.PutUint*` writes them. */
  function LittleEndian(v: nat, n: nat): (s: seq<byte>)
    ensures |s| == n
  {
    if n == 0 then [] else [v % 256] + LittleEndian(v / 256, n - 1)
  }

  /** The integer whose little-endian bytes are `s`, as `binary.LittleEndian.Uint*` reads them. */
  function FromLittleEndian(s: seq<byte>): nat {
    if s == [] then 0 else s[0] + 256 * FromLittleEndian(s[1..])
  }

  function Power256(n: nat): (p: nat)
    ensures p > 0
  {
    if n == 0 then 1 else 256 * Power256(n - 1)
  }

  const UINT64_LIMIT: nat := 0x1_0000_0000_0000_0000

  type uint64 = x: int | 0 <= x < UINT64_LIMIT

  lemma {:induction false} LittleEndianRoundTrip(v: nat, n: nat)
    requires v < Power256(n)
    ensures FromLittleEndian(LittleEndian(v, n)) == v
  {
    if n > 0 {
      var s := LittleEndian(v, n);
      assert s[1..] == LittleEndian(v / 256, n - 1);
      LittleEndianRoundTrip(v / 256, n - 1);
    }
  }

  lemma {:induction false} FromLittleEndianRoundTrip(s: seq<byte>)
    ensures FromLittleEndian(s) < Power256(|s|)
    ensures LittleEndian(FromLittleEndian(s), |s|) == s
  {
    if s != [] {
      FromLittleEndianRoundTrip(s[1..]);
      var v := FromLittleEndian(s);
      assert v % 256 == s[0] && v / 256 == FromLittleEndian(s[1..]);
      assert s == [s[0]] + s[1..];
    }
  }

  /** 64-bit values survive the eight bytes they are written to, in both directions. */
  lemma Uint64RoundTrip(v: uint64)
    ensures FromLittleEndian(LittleEndian(v, 8)) == v
  {
    assert Power256(8) == UINT64_LIMIT by { Power256Of8(); }
    LittleEndianRoundTrip(v, 8);
  }

  lemma Power256Of8()
    ensures Power256(8) == UINT64_LIMIT
  {
    assert Power256(2) == 0x1_0000;
    assert Power256(4) == 0x1_0000_0000;
    assert Power256(6) == 0x1_0000_0000_0000;
  }

  lemma Uint64Bound(s: seq<byte>)
    requires |s| == 8
    ensures FromLittleEndian(s) < UINT64_LIMIT
    ensures LittleEndian(FromLittleEndian(s), 8) == s
  {
    Power256Of8();
    FromLittleEndianRoundTrip(s);
  }

  /** `strings.Split`. */
  function Split(s: seq<byte>, sep: byte): (parts: seq<seq<byte>>)
    ensures |parts| > 0
  {
    if s == [] then [[]]
    else
      var rest := Split(s[1..], sep);
      if s[0] == sep then [[]] + rest else [[s[0]] + rest[0]] + rest[1..]
  }

  lemma {:induction false} SplitFirst(s: seq<byte>, sep: byte, head: seq<byte>, tail: seq<byte>)
    requires s == head + tail && sep !in head && (tail == [] || tail[0] == sep)
    ensures Split(s, sep)[0] == head
    ensures Split(s, sep)[1..] == if tail == [] then [] else Split(tail[1..], sep)
    decreases |head|
  {
    if head == [] {
      assert s == tail;
      if tail != [] {
        assert Split(s, sep) == [[]] + Split(tail[1..], sep);
      }
    } else {
      assert s[1..] == head[1..] + tail && s[0] == head[0];
      SplitFirst(s[1..], sep, head[1..], tail);
      var rest := Split(s[1..], sep);
      assert s[0] != sep;
      assert Split(s, sep) == [[s[0]] + rest[0]] + rest[1..];
      assert [s[0]] + head[1..] == head;
    }
  }

  /** Every text is a part without the separator, and what follows. */
  lemma {:induction false} CutAtFirst(s: seq<byte>, sep: byte) returns (head: seq<byte>, tail: seq<byte>)
    ensures s == head + tail && sep !in head && (tail == [] || tail[0] == sep)
  {
    if s == [] || s[0] == sep {
      head, tail := [], s;
    } else {
      head, tail := CutAtFirst(s[1..], sep);
      head := [s[0]] + head;
      assert s == [s[0]] + s[1..];
    }
  }

  lemma FirstPart(s: seq<byte>, sep: byte) returns (tail: seq<byte>)
    ensures s == Split(s, sep)[0] + tail && sep !in Split(s, sep)[0] && (tail == [] || tail[0] == sep)
    ensures |Split(s, sep)| > 1 <==> tail != []
  {
    var head: seq<byte>;
    head, tail := CutAtFirst(s, sep);
    SplitFirst(s, sep, head, tail);
    assert |Split(s, sep)| == 1 + |Split(s, sep)[1..]|;
  }

  lemma SplitTwice(s: seq<byte>, sep: byte, first: seq<byte>, second: seq<byte>, tail: seq<byte>)
    requires s == first + ([sep] + (second + tail))
    requires sep !in first && sep !in second && (tail == [] || tail[0] == sep)
    ensures var parts := Split(s, sep); |parts| > 1 && parts[0] == first && parts[1] == second
  {
    var (parts, rest) := (Split(s, sep), [sep] + (second + tail));
    SplitFirst(s, sep, first, rest);
    assert rest[1..] == second + tail;
    SplitFirst(second + tail, sep, second, tail);
    assert parts[1] == parts[1..][0];
  }
}
