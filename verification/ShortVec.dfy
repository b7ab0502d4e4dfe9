/**
 The variable-length integers of `solana/shortvec/shortvec.go`: seven bits a byte, low
 groups first, the high bit set on every byte but the last.
 */
module ShortVec {
  import opened Common

  const MAX_LEN: nat := 65535

  /** The stream both directions work on: Go's `bytes.Buffer`, which never refuses a write. */
  class Buffer {
    var data: seq<byte>

    constructor (b: seq<byte>)
      ensures data == b
    {
      data := b;
    }

    method Write(b: seq<byte>)
      modifies this
      ensures data == old(data) + b
    {
      data := data + b;
    }

    /** `io.ReadFull` with a slice of length `n`: either `n` bytes are consumed or the read fails. */
    method ReadFull(n: nat) returns (ok: bool, b: seq<byte>)
      modifies this
      ensures ok == (n <= |old(data)|)
      ensures ok ==> b == old(data)[..n] && data == old(data)[n..]
      ensures !ok ==> data == []
    {
      if n <= |data| {
        ok, b := true, data[..n];
        data := data[n..];
      } else {
        ok, b := false, [];
        data := [];
      }
    }
  }

  /** The seven-bit groups of a length. */
  function Groups(n: nat): (s: seq<byte>)
    ensures |s| > 0
  {
    if n < 128 then [n] else [n % 128 + 128] + Groups(n / 128)
  }

  /** What reaches the stream when a caller drops the error: nothing at all above 16 bits. */
  function Encoded(n: nat): (s: seq<byte>) {
    if n > MAX_LEN then [] else Groups(n)
  }

  datatype Parsed<+T> = Fail | Parsed(value: T, rest: seq<byte>)

  /** Reads groups up to and including the first byte without the high bit. */
  function TakeGroups(b: seq<byte>): (p: Parsed<(nat, nat)>)
    ensures p.Parsed? ==> p.value.1 > 0 && |b| == p.value.1 + |p.rest|
  {
    if b == [] then Fail
    else if b[0] < 128 then Parsed((b[0], 1), b[1..])
    else
      var p := TakeGroups(b[1..]);
      if p.Fail? then Fail
      else Parsed((b[0] - 128 + 128 * p.value.0, p.value.1 + 1), p.rest)
  }

  /** A length is accepted when it takes at most three bytes; it need not be minimal. */
  function TakeLen(b: seq<byte>): (p: Parsed<nat>) {
    var g := TakeGroups(b);
    if g.Fail? || g.value.1 > 3 then Fail else Parsed(g.value.0, g.rest)
  }

  /** The fewest bytes any accepted encoding of `n` can have. */
  function Shortest(n: nat): nat {
    if n < 128 then 1 else if n < 16384 then 2 else 3
  }

  /**
   `EncodeLen`: the loop that shifts `len` seven bits at a time. Masking with 0x7f and
   shifting right by seven are written as remainder and quotient by 128.
   */
  method EncodeLen(w: Buffer, len: nat) returns (ok: bool, written: nat)
    modifies w
    ensures ok == (len <= MAX_LEN)
    ensures w.data == old(w.data) + Encoded(len)
    ensures written == |Encoded(len)|
  {
    if len > MAX_LEN {
      return false, 0;
    }
    written := 0;
    var n := len;
    ghost var done: seq<byte> := [];
    while true
      invariant w.data == old(w.data) + done
      invariant done + Groups(n) == Groups(len)
      invariant written == |done|
      decreases n
    {
      var valBuf := n % 128;
      ghost var before := n;
      n := n / 128;
      if n == 0 {
        w.Write([valBuf]);
        assert Groups(before) == [valBuf];
        return true, written + 1;
      }
      valBuf := valBuf + 128;
      assert Groups(before) == [valBuf] + Groups(n);
      w.Write([valBuf]);
      done := done + [valBuf];
      written := written + 1;
    }
  }

  /** What `len` has become after `k` turns of the loop; `/` rounds down, as an arithmetic shift does. */
  function Shifted(len: int, k: nat): int {
    if k == 0 then len else Shifted(len, k - 1) / 128
  }

  /** The loop ends at the first turn that leaves nothing. */
  ghost predicate Ends(len: int) {
    exists k: nat :: k > 0 && Shifted(len, k) == 0
  }

  lemma {:induction false} ShiftedShrinks(len: nat, k: nat)
    ensures 0 <= Shifted(len, k) <= if k <= len then len - k else 0
  {
    if k > 0 { ShiftedShrinks(len, k - 1); }
  }

  lemma {:induction false} ShiftedStaysNegative(len: int, k: nat)
    requires len < 0
    ensures Shifted(len, k) < 0
  {
    if k > 0 { ShiftedStaysNegative(len, k - 1); }
  }

  /** On a negative length, which nothing refuses, the source's loop never ends. */
  lemma LoopEndsExactly(len: int)
    ensures Ends(len) <==> len >= 0
  {
    if len >= 0 {
      ShiftedShrinks(len, len + 1);
      assert Shifted(len, len + 1) == 0;
    } else {
      forall k: nat ensures Shifted(len, k) != 0 { ShiftedStaysNegative(len, k); }
    }
  }

  /** `128^k`, the weight of group `k`. */
  function Weight(k: nat): (w: nat)
    ensures w > 0
  {
    if k == 0 then 1 else 128 * Weight(k - 1)
  }

  lemma {:induction false} WeightStep(k: nat, head: nat, tail: nat)
    ensures Weight(k) * (head + 128 * tail) == Weight(k) * head + Weight(k + 1) * tail
  {
    assert Weight(k + 1) == Weight(k) * 128;
    assert Weight(k) * (128 * tail) == (Weight(k) * 128) * tail;
  }

  /**
   `DecodeLen`: the loop that ORs each group into `val` at bit `7 * offset`. The groups never
   overlap, so the OR is an addition. The result is the specification's on every stream.
   */
  method DecodeLen(r: Buffer) returns (ok: bool, val: nat)
    modifies r
    ensures ok == TakeLen(old(r.data)).Parsed?
    ensures ok ==> Parsed(val, r.data) == TakeLen(old(r.data))
  {
    var offset := 0;
    val := 0;
    ghost var whole := TakeGroups(r.data);
    while true
      invariant whole.Fail? <==> TakeGroups(r.data).Fail?
      invariant whole.Parsed? ==>
                  && whole.rest == TakeGroups(r.data).rest
                  && whole.value.1 == offset + TakeGroups(r.data).value.1
                  && whole.value.0 == val + Weight(offset) * TakeGroups(r.data).value.0
      decreases |r.data|
    {
      ghost var rest := r.data;
      var got, valBuf := r.ReadFull(1);
      if !got {
        return false, 0;
      }
      assert r.data == rest[1..] && valBuf == [rest[0]];
      if TakeGroups(r.data).Parsed? && rest[0] >= 128 {
        WeightStep(offset, rest[0] - 128, TakeGroups(r.data).value.0);
      }
      val := val + Weight(offset) * (valBuf[0] % 128);
      offset := offset + 1;
      if valBuf[0] < 128 {
        break;
      }
    }
    if offset > 3 {
      return false, 0;
    }
    return true, val;
  }

  /** Every length the encoder accepts is read back, whatever follows it on the stream. */
  lemma LenRoundTrip(n: nat, s: seq<byte>)
    requires n <= MAX_LEN
    ensures TakeLen(Encoded(n) + s) == Parsed(n, s)
    ensures |Encoded(n)| == Shortest(n)
  {
    GroupsRoundTrip(n, s);
    GroupsLength(n);
  }

  lemma {:induction false} GroupsRoundTrip(n: nat, s: seq<byte>)
    ensures TakeGroups(Groups(n) + s) == Parsed((n, |Groups(n)|), s)
  {
    if n < 128 {
      assert ([n] + s)[1..] == s;
    } else {
      GroupsRoundTrip(n / 128, s);
      assert (Groups(n) + s)[1..] == Groups(n / 128) + s;
    }
  }

  lemma GroupsLength(n: nat)
    requires n <= MAX_LEN
    ensures |Groups(n)| == Shortest(n)
  {
    if n >= 128 {
      assert Groups(n) == [n % 128 + 128] + Groups(n / 128);
      if n >= 16384 {
        var m := n / 128;
        assert Groups(m) == [m % 128 + 128] + Groups(m / 128);
        assert m / 128 < 128;
      }
    }
  }

  /** No accepted encoding is shorter than the encoder's, although longer ones are accepted. */
  lemma EncodedIsShortest(b: seq<byte>)
    requires TakeLen(b).Parsed?
    ensures var p := TakeLen(b); p.value < 0x20_0000 && |b| - |p.rest| >= Shortest(p.value)
    ensures var p := TakeLen(b); p.value <= MAX_LEN ==> |Encoded(p.value)| <= |b| - |p.rest|
    ensures var p := TakeLen(b); |p.rest| <= |b| && p.rest == b[|b| - |p.rest|..]
  {
    var p := TakeLen(b);
    GroupsBound(b);
    assert p.value < Weight(|b| - |p.rest|);
    assert Weight(1) == 128 && Weight(2) == 16384 && Weight(3) == 0x20_0000;
    if p.value <= MAX_LEN { GroupsLength(p.value); }
  }

  lemma {:induction false} GroupsBound(b: seq<byte>)
    requires TakeGroups(b).Parsed?
    ensures var p := TakeGroups(b); p.value.0 < Weight(p.value.1)
    ensures var p := TakeGroups(b); p.rest == b[|b| - |p.rest|..]
  {
    if b[0] >= 128 {
      GroupsBound(b[1..]);
    }
  }

  /** A redundant encoding is accepted: one is encoded as `[1]`, and `[0x81, 0x00]` also reads as one. */
  lemma NonMinimalAccepted()
    ensures TakeLen([0x81, 0x00]) == Parsed(1, []) && Encoded(1) == [1]
  {
    var b: seq<byte> := [0x81, 0x00];
    assert b[1..] == [0x00];
    assert TakeGroups([0x00]) == Parsed((0, 1), []);
  }
}
