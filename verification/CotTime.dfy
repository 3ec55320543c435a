/** CoT instants: whole milliseconds in a signed 64-bit integer, which saturates rather than wraps. */
module CotTimes {

  const I64_MIN := -0x8000_0000_0000_0000
  const I64_MAX := 0x7fff_ffff_ffff_ffff

  type I64 = x: int | I64_MIN <= x <= I64_MAX witness 0

  /** Milliseconds since the Unix epoch. */
  type CotTime = I64

  /** The span a calendar library can hold, in milliseconds: what `DateTime<Utc>` ranges over. */
  const MIN_UTC := -8_334_601_228_800_000
  const MAX_UTC := 8_210_266_876_799_999

  type Instant = x: int | MIN_UTC <= x <= MAX_UTC witness 0

  /** The nearest value an i64 holds. */
  function Clamp(x: int): (r: I64)
    ensures I64_MIN <= x <= I64_MAX ==> r == x
    ensures x < r ==> r == I64_MIN
    ensures r < x ==> r == I64_MAX
  {
    if x < I64_MIN then I64_MIN else if x > I64_MAX then I64_MAX else x
  }

  /** A span as whole milliseconds, clamped to an i64. */
  function MillisOf(span: nat): (r: I64)
    ensures 0 <= r <= span && (r < span ==> r == I64_MAX)
  {
    if span <= I64_MAX then span else I64_MAX
  }

  /** The instant `after` later than `t`, short of it only at the last instant there is or by the longest span there is. */
  function StaleAfter(t: CotTime, after: nat): (r: CotTime)
    ensures t <= r && r - t <= after && r - t <= I64_MAX
    ensures r - t < after ==> r == I64_MAX || r - t == I64_MAX
  {
    Clamp(t + MillisOf(after))
  }

  /** The signed gap from `b` to `a`, saturating. */
  function Gap(a: CotTime, b: CotTime): I64 {
    Clamp(a - b)
  }

  /** Subtracting the start from a deadline gives the span back exactly when neither step saturated. */
  lemma GapUndoesStaleAfter(t: CotTime, after: nat)
    ensures Gap(StaleAfter(t, after), t) == after <==> after <= I64_MAX && t + after <= I64_MAX
  {
    var due := StaleAfter(t, after);
    if after <= I64_MAX {
      assert MillisOf(after) == after;
      if t + after > I64_MAX {
        assert due == I64_MAX && I64_MAX - t < after;
      }
    }
  }

  /** The ends of time, in numbers: what does not fit stops there, and what does is exact. */
  lemma TimeStopsAtItsEnds(a: CotTime, b: CotTime, after: nat)
    ensures a - b > 9_223_372_036_854_775_807 <==> a - b > Gap(a, b) == 9_223_372_036_854_775_807
    ensures a - b < -9_223_372_036_854_775_808 <==> a - b < Gap(a, b) == -9_223_372_036_854_775_808
    ensures after <= 9_223_372_036_854_775_807 ==>
              (StaleAfter(a, after) == a + after <==> a + after <= 9_223_372_036_854_775_807)
  {
    if after <= I64_MAX {
      assert MillisOf(after) == after;
    }
  }

  /** A later start or a longer span never gives an earlier deadline. */
  lemma StaleAfterIsMonotone(t: CotTime, u: CotTime, short: nat, long: nat)
    requires t <= u && short <= long
    ensures StaleAfter(t, short) <= StaleAfter(u, long)
  {
  }
}
