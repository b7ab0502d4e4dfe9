/** The arithmetic of `timeutil/duration.go` on 64-bit integers that wrap. */
module Duration {
  import opened Common

  // ---------- 64-bit integers

  const MIN64: int := -0x8000_0000_0000_0000
  const MAX64: int := 0x7fff_ffff_ffff_ffff

  predicate Fits64(x: int) {
    MIN64 <= x <= MAX64
  }

  type int64 = x: int | MIN64 <= x <= MAX64

  /** What is left of an integer in 64 bits. */
  function Wrap(x: int): int64 {
    (x - MIN64) % 0x1_0000_0000_0000_0000 + MIN64
  }

  /** Distance from 0 or -1, the two integers whose binary digits are all alike. */
  function Spread(a: int): nat {
    if a >= 0 then a else -1 - a
  }

  /** Two's complement, digit by digit; `/ 2` rounds down, as an arithmetic shift does. */
  function BitXor(a: int, b: int): int
    decreases Spread(a) + Spread(b)
  {
    if Spread(a) + Spread(b) == 0 then (if a == b then 0 else -1)
    else 2 * BitXor(a / 2, b / 2) + if a % 2 == b % 2 then 0 else 1
  }

  function BitAnd(a: int, b: int): int
    decreases Spread(a) + Spread(b)
  {
    if Spread(a) + Spread(b) == 0 then (if a == 0 || b == 0 then 0 else -1)
    else 2 * BitAnd(a / 2, b / 2) + if a % 2 == 1 && b % 2 == 1 then 1 else 0
  }

  lemma {:induction false} XorSign(a: int, b: int)
    ensures BitXor(a, b) < 0 <==> (a < 0 <==> b >= 0)
    decreases Spread(a) + Spread(b)
  {
    if Spread(a) + Spread(b) != 0 { XorSign(a / 2, b / 2); }
  }

  lemma {:induction false} AndSign(a: int, b: int)
    ensures BitAnd(a, b) < 0 <==> a < 0 && b < 0
    decreases Spread(a) + Spread(b)
  {
    if Spread(a) + Spread(b) != 0 { AndSign(a / 2, b / 2); }
  }

  // ---------- checked addition

  datatype DurationError = NoComponents | NotAnInt64 | TooLarge | Overflow

  function AddDuration(x: int64, y: int64): Result<int64, DurationError> {
    var r := Wrap(x + y);
    if BitAnd(BitXor(x, r), BitXor(y, r)) < 0 then Err(Overflow) else Ok(r)
  }

  lemma SignTest(x: int, y: int, r: int)
    ensures BitAnd(BitXor(x, r), BitXor(y, r)) < 0 <==> ((x < 0 <==> y < 0) && (x < 0 <==> r >= 0))
  {
    XorSign(x, r);
    XorSign(y, r);
    AndSign(BitXor(x, r), BitXor(y, r));
  }

  lemma OneTurn(z: int, m: int)
    requires m > 0 && -m <= z < 2 * m
    ensures z % m == if z < 0 then z + m else if z < m then z else z - m
  {
    var q, r := z / m, z % m;
    assert z == q * m + r && 0 <= r < m;
    assert q >= 2 ==> q * m >= 2 * m;
    assert q <= -2 ==> q * m <= -2 * m;
  }

  lemma WrapFlipsSign(x: int64, y: int64, r: int)
    requires r == Wrap(x + y)
    ensures Fits64(x + y) ==> r == x + y
    ensures !Fits64(x + y) <==> ((x < 0 <==> y < 0) && (x < 0 <==> r >= 0))
  {
    OneTurn(x + y - MIN64, 0x1_0000_0000_0000_0000);
  }

  /** The sign test rejects exactly the sums that leave 64 bits, and the others are exact. */
  lemma AddDurationExactly(x: int64, y: int64)
    ensures AddDuration(x, y) == if Fits64(x + y) then Ok(x + y) else Err(Overflow)
  {
    SignTest(x, y, Wrap(x + y));
    WrapFlipsSign(x, y, Wrap(x + y));
  }

  function AbsInt64(i: int): int64
    requires Fits64(i)
  {
    if i >= 0 then i else Wrap(-i)
  }

  /** A true absolute value, but for the one integer that has none in 64 bits. */
  lemma AbsInt64Exactly(i: int)
    requires Fits64(i)
    ensures AbsInt64(i) == if i == MIN64 then MIN64 else if i >= 0 then i else -i
  {
  }

  // ---------- parsing

  const SECOND: int := 1_000_000_000
  const MINUTE: int := 60_000_000_000
  const HOUR: int := 3_600_000_000_000
  const DAY: int := 86_400_000_000_000

  /** Digits after an optional sign; the sign is there even when the digits are all zero. */
  datatype Number = Number(minus: bool, digits: nat)

  function Value(n: Number): int {
    if n.minus then 0 - n.digits else n.digits
  }

  /** What the regular expression captured; the fraction, in nanoseconds, belongs to the seconds. */
  datatype Captured = Captured(
    negative: bool, days: Option<Number>, hours: Option<Number>, minutes: Option<Number>, seconds: Option<Number>,
    nanos: nat)

  /** At most nine digits of fraction, and none without seconds. */
  predicate IsCaptured(f: Captured) {
    f.nanos < SECOND && (f.seconds == None ==> f.nanos == 0)
  }

  /** Reads one component, as the four blocks of the source do. */
  function Component(o: Option<Number>, unit: int): Result<int64, DurationError>
    requires unit > 0
  {
    if o == None then Ok(0)
    else if !Fits64(Value(o.value)) then Err(NotAnInt64)
    else if AbsInt64(Value(o.value)) > MAX64 / unit then Err(TooLarge)
    else Ok(Value(o.value))
  }

  // ---------- exact values

  /** The most negative integer passes the size check, and its product wraps to nothing. */
  function Effective(o: Option<Number>): int {
    if IsMinimum(o) then 0 else Exact(o)
  }

  predicate IsMinimum(o: Option<Number>) {
    o.Some? && Value(o.value) == MIN64
  }

  function Exact(o: Option<Number>): int {
    if o == None then 0 else Value(o.value)
  }

  predicate Readable(f: Captured) {
    && Component(f.days, DAY).Ok? && Component(f.hours, HOUR).Ok?
    && Component(f.minutes, MINUTE).Ok? && Component(f.seconds, SECOND).Ok?
  }

  function WholeDays(f: Captured): int { Effective(f.days) * DAY }
  function WholeHours(f: Captured): int { WholeDays(f) + Effective(f.hours) * HOUR }
  function WholeMinutes(f: Captured): int { WholeHours(f) + Effective(f.minutes) * MINUTE }
  function WholeSeconds(f: Captured): int { WholeMinutes(f) + Effective(f.seconds) * SECOND }
  function EffectiveTotal(f: Captured): int { WholeSeconds(f) + f.nanos }

  predicate SecondsNegative(f: Captured) {
    f.seconds.Some? && f.seconds.value.minus
  }

  /** What the captured text says: the sign of the seconds applies to their fraction as well. */
  function Meaning(f: Captured): int {
    Exact(f.days) * DAY + Exact(f.hours) * HOUR + Exact(f.minutes) * MINUTE + Exact(f.seconds) * SECOND
    + if SecondsNegative(f) then 0 - f.nanos else f.nanos
  }

  function Signed(f: Captured, x: int): int {
    if f.negative then -x else x
  }

  predicate Empty(f: Captured) {
    f.days == None && f.hours == None && f.minutes == None && f.seconds == None
  }

  /** Some component is the most negative integer. */
  predicate Extreme(f: Captured) {
    IsMinimum(f.days) || IsMinimum(f.hours) || IsMinimum(f.minutes) || IsMinimum(f.seconds)
  }

  predicate SumsFit(f: Captured) {
    Fits64(WholeHours(f)) && Fits64(WholeMinutes(f)) && Fits64(WholeSeconds(f)) && Fits64(EffectiveTotal(f))
  }

  lemma WrapFits(x: int)
    requires Fits64(x)
    ensures Wrap(x) == x
  {
    OneTurn(x - MIN64, 0x1_0000_0000_0000_0000);
  }

  lemma Between(v: int, most: int, unit: int)
    requires unit > 0 && -most <= v <= most
    ensures -(most * unit) <= v * unit <= most * unit
  {
    assert (most - v) * unit >= 0 && (most + v) * unit >= 0;
  }

  lemma ProductFits(v: int, most: int, unit: int)
    requires unit > 0 && most == MAX64 / unit && -most <= v <= most
    ensures Wrap(v * unit) == v * unit
  {
    Between(v, most, unit);
    WrapFits(v * unit);
  }

  lemma MinimumVanishes()
    ensures Wrap(MIN64 * HOUR) == 0 && Wrap(MIN64 * MINUTE) == 0 && Wrap(MIN64 * SECOND) == 0
  {
  }

  lemma ProductIsEffective(o: Option<Number>, unit: int, v: int64)
    requires unit == HOUR || unit == MINUTE || unit == SECOND
    requires Component(o, unit) == Ok(v)
    ensures Wrap(v * unit) == Effective(o) * unit
  {
    if o == None {
    } else if v == MIN64 {
      MinimumVanishes();
    } else {
      AbsInt64Exactly(v);
      ProductFits(v, MAX64 / unit, unit);
    }
  }

  lemma DaysAreEffective(o: Option<Number>, v: int64)
    requires Component(o, DAY) == Ok(v)
    ensures Wrap(Wrap(v * HOUR) * 24) == Effective(o) * DAY
  {
    if o == None {
    } else if v == MIN64 {
      MinimumVanishes();
    } else {
      AbsInt64Exactly(v);
      ProductFits(v, MAX64 / HOUR, HOUR);
      ProductFits(v, MAX64 / DAY, DAY);
      assert v * HOUR * 24 == v * DAY;
    }
  }

  /** Whole seconds that fit never reach the most negative integer, so negating the total cannot wrap. */
  lemma NegationIsSafe(f: Captured)
    requires Fits64(WholeSeconds(f)) && Fits64(EffectiveTotal(f))
    ensures EffectiveTotal(f) > MIN64 && Wrap(-1 * EffectiveTotal(f)) == -EffectiveTotal(f)
  {
    var s := Effective(f.days) * 86_400 + Effective(f.hours) * 3_600 + Effective(f.minutes) * 60 + Effective(f.seconds);
    assert WholeSeconds(f) == s * SECOND;
  }

  /** `x` plus `y`, or the error if that leaves 64 bits. */
  method Add(x: int64, y: int64) returns (r: Result<int64, DurationError>)
    ensures r == if Fits64(x + y) then Ok(x + y) else Err(Overflow)
  {
    r := AddDuration(x, y);
    AddDurationExactly(x, y);
  }

  /** The accumulator: each product wraps, each sum is checked. */
  method AddUp(days: int64, hours: int64, minutes: int64, seconds: int64, nanos: int64)
    returns (r: Result<int64, DurationError>)
    ensures var d := Wrap(Wrap(days * HOUR) * 24);
            var h := d + Wrap(hours * HOUR);
            var m := h + Wrap(minutes * MINUTE);
            var s := m + Wrap(seconds * SECOND);
            r == if Fits64(h) && Fits64(m) && Fits64(s) && Fits64(s + nanos) then Ok(s + nanos) else Err(Overflow)
  {
    var duration := Wrap(Wrap(days * HOUR) * 24);
    r := Add(duration, Wrap(hours * HOUR));
    if r.Err? { return; }
    duration := r.value;
    r := Add(duration, Wrap(minutes * MINUTE));
    if r.Err? { return; }
    duration := r.value;
    r := Add(duration, Wrap(seconds * SECOND));
    if r.Err? { return; }
    duration := r.value;
    r := Add(duration, nanos);
  }

  /** No component is the most negative integer, and no fraction follows a minus sign. */
  predicate Plain(f: Captured) {
    !Extreme(f) && (SecondsNegative(f) ==> f.nanos == 0)
  }

  /** What a component loses when it is the most negative integer; all such losses have the same sign. */
  lemma LossIsPositive(o: Option<Number>, unit: int)
    requires unit > 0
    ensures Effective(o) * unit >= Exact(o) * unit
    ensures Effective(o) * unit == Exact(o) * unit <==> !IsMinimum(o)
  {
  }

  /** The accumulated total is what the text says exactly for plain durations. */
  lemma TotalMeansExactly(f: Captured)
    ensures EffectiveTotal(f) == Meaning(f) <==> Plain(f)
  {
    LossIsPositive(f.days, DAY);
    LossIsPositive(f.hours, HOUR);
    LossIsPositive(f.minutes, MINUTE);
    LossIsPositive(f.seconds, SECOND);
  }

  /** Reads the components and adds them up; the sign comes last. */
  method Magnitude(f: Captured) returns (r: Result<int64, DurationError>)
    requires IsCaptured(f)
    ensures r.Ok? <==> Readable(f) && SumsFit(f)
    ensures r.Ok? ==> r.value == EffectiveTotal(f)
    ensures r == Err(Overflow) <==> Readable(f) && !SumsFit(f)
    ensures r != Err(NoComponents)
  {
    var days := Component(f.days, DAY);
    if days.Err? { return days; }
    var hours := Component(f.hours, HOUR);
    if hours.Err? { return hours; }
    var minutes := Component(f.minutes, MINUTE);
    if minutes.Err? { return minutes; }
    var seconds := Component(f.seconds, SECOND);
    if seconds.Err? { return seconds; }
    r := AddUp(days.value, hours.value, minutes.value, seconds.value, f.nanos);
    DaysAreEffective(f.days, days.value);
    ProductIsEffective(f.hours, HOUR, hours.value);
    ProductIsEffective(f.minutes, MINUTE, minutes.value);
    ProductIsEffective(f.seconds, SECOND, seconds.value);
  }

  /**
   A duration is accepted exactly when it names a component, every component is readable and no
   partial sum leaves 64 bits. What is returned is then the signed total of the effective
   components, and that is what the text says if and only if no component is the most negative
   integer and no fraction follows seconds with a minus sign.
   */
  method ParseISO8601(f: Captured) returns (r: Result<int64, DurationError>)
    requires IsCaptured(f)
    ensures r.Ok? <==> !Empty(f) && Readable(f) && SumsFit(f)
    ensures r.Ok? ==> r.value == Signed(f, EffectiveTotal(f))
    ensures r.Ok? ==> (r.value == Signed(f, Meaning(f)) <==> Plain(f))
    ensures r == Err(NoComponents) <==> Empty(f)
    ensures r == Err(Overflow) <==> !Empty(f) && Readable(f) && !SumsFit(f)
  {
    var negate := if f.negative then -1 else 1;
    if Empty(f) { return Err(NoComponents); }
    r := Magnitude(f);
    if r.Err? { return; }
    TotalMeansExactly(f);
    NegationIsSafe(f);
    r := Ok(Wrap(negate * r.value));
  }

  // ---------- where it goes wrong

  predicate Accepted(f: Captured) {
    IsCaptured(f) && !Empty(f) && Readable(f) && SumsFit(f)
  }

  /** A component of -2^63 gets through, and counts for nothing. */
  lemma ExtremeComponentCountsForNothing(f: Captured)
    requires f == Captured(false, None, None, None, Some(Number(true, 0x8000_0000_0000_0000)), 0)
    ensures Accepted(f) && EffectiveTotal(f) == 0 && Meaning(f) < MIN64
  {
  }

  /** `PT-1.5S` is read as minus half a second. */
  lemma MinusOneAndAHalf(f: Captured)
    requires f == Captured(false, None, None, None, Some(Number(true, 1)), 500_000_000)
    ensures Accepted(f) && EffectiveTotal(f) == -500_000_000 && Meaning(f) == -1_500_000_000
  {
  }

  /** `PT-0.5S` is read as plus half a second. */
  lemma MinusAHalf(f: Captured)
    requires f == Captured(false, None, None, None, Some(Number(true, 0)), 500_000_000)
    ensures Accepted(f) && EffectiveTotal(f) == 500_000_000 && Meaning(f) == -500_000_000
  {
  }
}
