/** `ToQuarks` and `FromQuarks`: amounts of kin as text. */
module Quarks {
  import opened Common
  import opened Duration

  const ZERO: byte := 48
  const DOT: byte := 46
  const PLUS: byte := 43
  const MINUS: byte := 45
  const QUARKS_PER_KIN: int := 100_000

  // ---------- decimal text

  predicate IsDigit(c: byte) {
    ZERO <= c <= ZERO + 9
  }

  predicate AllDigits(s: seq<byte>) {
    forall i :: 0 <= i < |s| ==> IsDigit(s[i])
  }

  function DecimalValue(s: seq<byte>): nat
    requires AllDigits(s)
  {
    if s == [] then 0 else 10 * DecimalValue(s[..|s| - 1]) + (s[|s| - 1] - ZERO)
  }

  /** `%d` of a natural number. */
  function Decimal(n: nat): seq<byte> {
    if n < 10 then [ZERO + n] else Decimal(n / 10) + [ZERO + n % 10]
  }

  function ZeroText(n: nat): seq<byte> {
    if n == 0 then [] else [ZERO] + ZeroText(n - 1)
  }

  function FillTo(s: seq<byte>, width: nat): seq<byte> {
    ZeroText(if |s| < width then width - |s| else 0) + s
  }

  /** `%05d`: the sign counts towards the width and stands before the zeros. */
  function FiveWide(n: int): seq<byte> {
    if n >= 0 then FillTo(Decimal(n), 5) else [MINUS] + FillTo(Decimal(-n), 4)
  }

  /** `strconv.ParseUint` in base 10 on texts short enough not to overflow. */
  function ParseUint(s: seq<byte>): Option<nat> {
    if s == [] || !AllDigits(s) then None else Some(DecimalValue(s))
  }

  predicate Negative(s: seq<byte>) {
    s != [] && s[0] == MINUS
  }

  function Unsigned(s: seq<byte>): seq<byte> {
    if s != [] && (s[0] == MINUS || s[0] == PLUS) then s[1..] else s
  }

  /** `strconv.ParseInt` in base 10 on texts short enough not to overflow. */
  function ParseInt(s: seq<byte>): Option<int> {
    var magnitude := ParseUint(Unsigned(s));
    if magnitude == None then None else Some(if Negative(s) then 0 - magnitude.value else magnitude.value)
  }

  // ---------- the two conversions

  datatype QuarksError = TooManyParts | NotRepresentable | BadWhole | BadDecimal

  function ToQuarks(val: seq<byte>): Result<int64, QuarksError> {
    var parts := Split(val, DOT);
    if |parts| > 2 then Err(TooManyParts)
    else if |parts[0]| > 14 then Err(NotRepresentable)
    else
      var kin := ParseInt(parts[0]);
      if kin == None then Err(BadWhole)
      else if |parts| == 1 then Ok(Wrap(kin.value * QUARKS_PER_KIN))
      else if |parts[1]| > 5 then Err(NotRepresentable)
      else
        var quarks := ParseUint(parts[1] + ZeroText(5 - |parts[1]|));
        if quarks == None then Err(BadDecimal) else Ok(Wrap(kin.value * QUARKS_PER_KIN + quarks.value))
  }

  function FromQuarks(amount: int64): seq<byte> {
    if amount < QUARKS_PER_KIN then [ZERO, DOT] + FiveWide(amount)
    else Decimal(amount / QUARKS_PER_KIN) + [DOT] + FiveWide(amount % QUARKS_PER_KIN)
  }

  // ---------- decimal text, round trip

  function Power10(k: nat): nat {
    if k == 0 then 1 else 10 * Power10(k - 1)
  }

  lemma {:induction false} DecimalRoundTrip(n: nat)
    ensures AllDigits(Decimal(n)) && DecimalValue(Decimal(n)) == n && Decimal(n) != []
  {
    if n >= 10 {
      DecimalRoundTrip(n / 10);
      var s := Decimal(n);
      assert s[..|s| - 1] == Decimal(n / 10);
    } else {
      var s := Decimal(n);
      assert s[..0] == [];
    }
  }

  lemma {:induction false} DecimalLength(n: nat, k: nat)
    requires n < Power10(k) && k > 0
    ensures |Decimal(n)| <= k
  {
    if n >= 10 {
      assert k > 1;
      DecimalLength(n / 10, k - 1);
    }
  }

  lemma {:induction false} ZeroTextIsZero(n: nat)
    ensures |ZeroText(n)| == n && AllDigits(ZeroText(n))
    ensures forall i :: 0 <= i < n ==> ZeroText(n)[i] == ZERO
  {
    if n > 0 { ZeroTextIsZero(n - 1); }
  }

  lemma {:induction false} LeadingZeros(n: nat, s: seq<byte>)
    requires AllDigits(s)
    ensures AllDigits(ZeroText(n) + s) && DecimalValue(ZeroText(n) + s) == DecimalValue(s)
    decreases |s|, n
  {
    ZeroTextIsZero(n);
    var all := ZeroText(n) + s;
    if s != [] {
      assert all[..|all| - 1] == ZeroText(n) + s[..|s| - 1];
      LeadingZeros(n, s[..|s| - 1]);
    } else if n > 0 {
      assert all == ZeroText(n);
      ZeroTextIsZero(n - 1);
      assert all[..n - 1] == ZeroText(n - 1) + [];
      LeadingZeros(n - 1, []);
      assert ZeroText(n - 1) + [] == all[..n - 1];
    }
  }

  lemma FilledDigits(d: seq<byte>, width: nat)
    requires AllDigits(d) && |d| <= width
    ensures |FillTo(d, width)| == width && AllDigits(FillTo(d, width))
    ensures DecimalValue(FillTo(d, width)) == DecimalValue(d)
  {
    ZeroTextIsZero(width - |d|);
    LeadingZeros(width - |d|, d);
  }

  /** A fraction of a kin below one, in five digits. */
  lemma FiveDigits(n: nat)
    requires n < QUARKS_PER_KIN
    ensures |FiveWide(n)| == 5 && AllDigits(FiveWide(n)) && DecimalValue(FiveWide(n)) == n
  {
    DecimalRoundTrip(n);
    assert Power10(5) == QUARKS_PER_KIN;
    DecimalLength(n, 5);
    FilledDigits(Decimal(n), 5);
  }

  // ---------- the two parts of an amount

  predicate Parted(val: seq<byte>, whole: seq<byte>, tail: seq<byte>) {
    val == whole + tail && DOT !in whole && (tail == [] || tail[0] == DOT)
  }

  /** Digits with an optional sign, at most fourteen characters. */
  predicate IsWhole(s: seq<byte>) {
    |s| <= 14 && Unsigned(s) != [] && AllDigits(Unsigned(s))
  }

  /** Nothing, or a point and at most five digits. */
  predicate IsDecimal(tail: seq<byte>) {
    tail == [] || (tail[0] == DOT && |tail| <= 6 && AllDigits(tail[1..]))
  }

  /** The digits after the point, filled up to five. */
  function FractionText(tail: seq<byte>): seq<byte>
    requires IsDecimal(tail)
  {
    if tail == [] then ZeroText(5) else tail[1..] + ZeroText(6 - |tail|)
  }

  lemma FractionIsDigits(tail: seq<byte>)
    requires IsDecimal(tail)
    ensures |FractionText(tail)| == 5 && AllDigits(FractionText(tail))
  {
    ZeroTextIsZero(if tail == [] then 5 else 6 - |tail|);
  }

  function Magnitude(whole: seq<byte>, tail: seq<byte>): nat
    requires IsWhole(whole) && IsDecimal(tail) && AllDigits(FractionText(tail))
  {
    DecimalValue(Unsigned(whole)) * QUARKS_PER_KIN + DecimalValue(FractionText(tail))
  }

  /** What the text says, in quarks: the sign applies to the fraction as well. */
  function Meaning(whole: seq<byte>, tail: seq<byte>): int
    requires IsWhole(whole) && IsDecimal(tail) && AllDigits(FractionText(tail))
  {
    if Negative(whole) then 0 - Magnitude(whole, tail) else Magnitude(whole, tail)
  }

  lemma TwoParts(val: seq<byte>, whole: seq<byte>, tail: seq<byte>)
    requires Parted(val, whole, tail)
    ensures Split(val, DOT)[0] == whole
    ensures tail == [] ==> Split(val, DOT) == [whole]
    ensures tail != [] && DOT !in tail[1..] ==> Split(val, DOT) == [whole, tail[1..]]
    ensures tail != [] && DOT in tail[1..] ==> |Split(val, DOT)| > 2
  {
    var parts := Split(val, DOT);
    SplitFirst(val, DOT, whole, tail);
    assert parts == [parts[0]] + parts[1..];
    if tail != [] {
      var rest := FirstPart(tail[1..], DOT);
      if DOT !in tail[1..] {
        assert rest == [];
        SplitFirst(tail[1..], DOT, tail[1..], []);
        assert Split(tail[1..], DOT) == [tail[1..]] + Split(tail[1..], DOT)[1..];
      }
    }
  }

  lemma PaddingKeepsDigits(s: seq<byte>, n: nat)
    ensures AllDigits(s + ZeroText(n)) <==> AllDigits(s)
  {
    ZeroTextIsZero(n);
    var all := s + ZeroText(n);
    if AllDigits(all) {
      assert forall i :: 0 <= i < |s| ==> s[i] == all[i];
    }
  }

  lemma WholeIsParsed(whole: seq<byte>)
    ensures |whole| <= 14 && ParseInt(whole).Some? <==> IsWhole(whole)
  {
  }

  lemma DecimalsAreParsed(decimals: seq<byte>, n: nat)
    requires |decimals| + n == 5
    ensures ParseUint(decimals + ZeroText(n)).Some? <==> AllDigits(decimals)
  {
    PaddingKeepsDigits(decimals, n);
    ZeroTextIsZero(n);
  }

  lemma TwoPartsAccepted(val: seq<byte>, whole: seq<byte>, decimals: seq<byte>)
    requires Split(val, DOT) == [whole, decimals]
    ensures ToQuarks(val).Ok? <==> IsWhole(whole) && |decimals| <= 5 && AllDigits(decimals)
  {
    var parts := Split(val, DOT);
    assert |parts| == 2 && parts[0] == whole && parts[1] == decimals;
    WholeIsParsed(whole);
    if |decimals| <= 5 { DecimalsAreParsed(decimals, 5 - |decimals|); }
  }

  /** Exactly the texts of the form sign, digits, point, digits are accepted, within the length limits. */
  lemma ToQuarksAcceptsExactly(val: seq<byte>, whole: seq<byte>, tail: seq<byte>)
    requires Parted(val, whole, tail)
    ensures ToQuarks(val).Ok? <==> IsWhole(whole) && IsDecimal(tail)
  {
    TwoParts(val, whole, tail);
    if tail != [] {
      if DOT in tail[1..] {
        assert !AllDigits(tail[1..]);
      } else {
        TwoPartsAccepted(val, whole, tail[1..]);
      }
    }
  }

  // ---------- the value

  lemma {:induction false} DecimalBound(s: seq<byte>)
    requires AllDigits(s)
    ensures DecimalValue(s) < Power10(|s|)
  {
    if s != [] { DecimalBound(s[..|s| - 1]); }
  }

  lemma {:induction false} Power10Grows(j: nat, k: nat)
    requires j <= k
    ensures Power10(j) <= Power10(k)
  {
    if j < k { Power10Grows(j, k - 1); }
  }

  lemma WholeBound(whole: seq<byte>)
    requires IsWhole(whole)
    ensures DecimalValue(Unsigned(whole)) < 100_000_000_000_000
  {
    DecimalBound(Unsigned(whole));
    Power10Grows(|Unsigned(whole)|, 14);
    assert Power10(7) == 10_000_000;
    assert Power10(14) == 100_000_000_000_000;
  }

  /** What `ToQuarks` returns: the sign reaches the whole part only, and the result wraps. */
  lemma ToQuarksValue(val: seq<byte>, whole: seq<byte>, tail: seq<byte>)
    requires Parted(val, whole, tail) && IsWhole(whole) && IsDecimal(tail)
    ensures AllDigits(FractionText(tail))
    ensures var kin := DecimalValue(Unsigned(whole));
            ToQuarks(val) ==
            Ok(Wrap((if Negative(whole) then 0 - kin else kin) * QUARKS_PER_KIN + DecimalValue(FractionText(tail))))
  {
    FractionIsDigits(tail);
    TwoParts(val, whole, tail);
    if tail == [] {
      LeadingZeros(5, []);
      assert ZeroText(5) + [] == ZeroText(5);
    } else {
      assert DOT !in tail[1..] by { assert !IsDigit(DOT); }
    }
  }

  lemma WrapIsExactly(kin: int, quarks: int, meaning: int)
    requires -100_000_000_000_000 < kin < 100_000_000_000_000 && 0 <= quarks < QUARKS_PER_KIN
    requires meaning == kin * QUARKS_PER_KIN + quarks || meaning == kin * QUARKS_PER_KIN - quarks
    ensures Wrap(kin * QUARKS_PER_KIN + quarks) == meaning <==>
            Fits64(meaning) && meaning == kin * QUARKS_PER_KIN + quarks
  {
    OneTurn(kin * QUARKS_PER_KIN + quarks - MIN64, 0x1_0000_0000_0000_0000);
  }

  /**
   An accepted text is converted to what it says if and only if that fits 64 bits and no fraction
   follows a minus sign.
   */
  lemma ToQuarksMeansExactly(val: seq<byte>, whole: seq<byte>, tail: seq<byte>)
    requires Parted(val, whole, tail) && IsWhole(whole) && IsDecimal(tail)
    ensures AllDigits(FractionText(tail))
    ensures ToQuarks(val) == Ok(Meaning(whole, tail)) <==>
            Fits64(Meaning(whole, tail)) && (Negative(whole) ==> DecimalValue(FractionText(tail)) == 0)
  {
    ToQuarksValue(val, whole, tail);
    FractionIsDigits(tail);
    WholeBound(whole);
    DecimalBound(FractionText(tail));
    assert Power10(5) == QUARKS_PER_KIN;
    var kin: int := DecimalValue(Unsigned(whole));
    var quarks := DecimalValue(FractionText(tail));
    WrapIsExactly(if Negative(whole) then 0 - kin else kin, quarks, Meaning(whole, tail));
  }

  // ---------- round trip

  lemma PrintedWhole(kin: nat, whole: seq<byte>)
    requires kin < 100_000_000_000_000 && whole == Decimal(kin)
    ensures IsWhole(whole) && Unsigned(whole) == whole && !Negative(whole) && DOT !in whole
    ensures DecimalValue(Unsigned(whole)) == kin
  {
    DecimalRoundTrip(kin);
    assert Power10(7) == 10_000_000;
    assert Power10(14) == 100_000_000_000_000;
    DecimalLength(kin, 14);
    assert IsDigit(whole[0]);
  }

  lemma PrintedDecimal(quarks: nat, tail: seq<byte>)
    requires quarks < QUARKS_PER_KIN && tail == [DOT] + FiveWide(quarks)
    ensures IsDecimal(tail) && AllDigits(FractionText(tail)) && DecimalValue(FractionText(tail)) == quarks
  {
    FiveDigits(quarks);
    assert tail[1..] == FiveWide(quarks);
    assert FractionText(tail) == tail[1..];
  }

  lemma PrintedParts(amount: int64, whole: seq<byte>, tail: seq<byte>)
    requires amount >= 0
    requires whole == Decimal(amount / QUARKS_PER_KIN) && tail == [DOT] + FiveWide(amount % QUARKS_PER_KIN)
    ensures FromQuarks(amount) == whole + tail
  {
    if amount < QUARKS_PER_KIN {
      assert amount / QUARKS_PER_KIN == 0 && amount % QUARKS_PER_KIN == amount;
      assert whole == [ZERO];
    }
  }

  lemma PrintedIsRead(amount: int64, kin: nat, quarks: nat)
    requires kin == amount / QUARKS_PER_KIN && quarks == amount % QUARKS_PER_KIN && amount >= 0
    requires kin < 100_000_000_000_000 && quarks < QUARKS_PER_KIN && amount == kin * QUARKS_PER_KIN + quarks
    ensures ToQuarks(FromQuarks(amount)) == Ok(amount)
  {
    var whole, tail := Decimal(kin), [DOT] + FiveWide(quarks);
    PrintedParts(amount, whole, tail);
    PrintedWhole(kin, whole);
    PrintedDecimal(quarks, tail);
    ToQuarksMeansExactly(whole + tail, whole, tail);
  }

  lemma NegativeIsRefused(amount: int64)
    requires amount < 0
    ensures ToQuarks(FromQuarks(amount)).Err?
  {
    var tail := [DOT] + FiveWide(amount);
    assert [ZERO] + tail == [ZERO, DOT] + FiveWide(amount);
    assert tail[1..][0] == MINUS;
    ToQuarksAcceptsExactly(FromQuarks(amount), [ZERO], tail);
  }

  /** Printing and parsing are inverse on every amount that is not negative; other texts are refused. */
  lemma QuarksRoundTripExactly(amount: int64)
    ensures ToQuarks(FromQuarks(amount)) == Ok(amount) <==> amount >= 0
    ensures amount < 0 ==> ToQuarks(FromQuarks(amount)).Err?
  {
    if amount >= 0 {
      PrintedIsRead(amount, amount / QUARKS_PER_KIN, amount % QUARKS_PER_KIN);
    } else {
      NegativeIsRefused(amount);
    }
  }

  lemma OneQuark(n: nat, tail: seq<byte>)
    requires n == 4 && tail == [DOT] + (ZeroText(n) + [ZERO + 1])
    ensures IsDecimal(tail) && AllDigits(FractionText(tail)) && DecimalValue(FractionText(tail)) == 1
  {
    ZeroTextIsZero(n);
    LeadingZeros(n, [ZERO + 1]);
    assert [ZERO + 1][..0] == [];
    assert tail[1..] == ZeroText(n) + [ZERO + 1];
    assert FractionText(tail) == tail[1..];
  }

  /** Minus one quark comes out as plus one. */
  lemma MinusOneQuark(n: nat, val: seq<byte>)
    requires n == 4 && val == [MINUS, ZERO] + ([DOT] + (ZeroText(n) + [ZERO + 1]))
    ensures ToQuarks(val) == Ok(1)
  {
    var whole, tail := [MINUS, ZERO], [DOT] + (ZeroText(n) + [ZERO + 1]);
    OneQuark(n, tail);
    assert Unsigned(whole) == [ZERO] && [ZERO][..0] == [];
    ToQuarksValue(val, whole, tail);
  }
}
