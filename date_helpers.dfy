/**
 * `getDaysBetween`: the number of days between two instants given as
 * millisecond timestamps (`Date.getTime()`), rounded up.
 */
module DateHelpers {

  const MillisPerDay: int := 1000 * 60 * 60 * 24

  function Abs(x: int): nat { if x < 0 then -x else x }

  /**
   * `Math.ceil(Math.abs(to - from) / MillisPerDay)`: the least number of whole
   * days that covers the distance between the two instants.
   */
  function GetDaysBetween(fromMs: int, toMs: int): (days: nat)
    ensures days * MillisPerDay >= Abs(toMs - fromMs)
    ensures days == 0 || (days - 1) * MillisPerDay < Abs(toMs - fromMs)
  {
    var diff := Abs(toMs - fromMs);
    (diff + MillisPerDay - 1) / MillisPerDay
  }

  /** The ceiling is determined by the two bounds it satisfies. */
  lemma CeilingUnique(diff: nat, a: nat, b: nat)
    requires a * MillisPerDay >= diff && (a == 0 || (a - 1) * MillisPerDay < diff)
    requires b * MillisPerDay >= diff && (b == 0 || (b - 1) * MillisPerDay < diff)
    ensures a == b
  {
  }

  /** The order of the two instants does not matter. */
  lemma DaysBetweenSymmetric(t1: int, t2: int)
    ensures GetDaysBetween(t1, t2) == GetDaysBetween(t2, t1)
  {
    assert Abs(t2 - t1) == Abs(t1 - t2);
  }

  /** Zero days exactly when the instants coincide. */
  lemma DaysBetweenZero(t1: int, t2: int)
    ensures GetDaysBetween(t1, t2) == 0 <==> t1 == t2
  {
  }

  /** Instants exactly `k` days apart are `k` days apart. */
  lemma DaysBetweenWholeDays(t: int, k: nat)
    ensures GetDaysBetween(t, t + k * MillisPerDay) == k
  {
    var d := GetDaysBetween(t, t + k * MillisPerDay);
    assert Abs(t + k * MillisPerDay - t) == k * MillisPerDay;
    if k > 0 {
      assert (k - 1) * MillisPerDay < k * MillisPerDay;
    }
    CeilingUnique(k * MillisPerDay, d, k);
  }

  /** Any positive distance shorter than a day rounds up to one day. */
  lemma DaysBetweenPartialDay(t1: int, t2: int)
    requires 0 < Abs(t2 - t1) < MillisPerDay
    ensures GetDaysBetween(t1, t2) == 1
  {
    CeilingUnique(Abs(t2 - t1), GetDaysBetween(t1, t2), 1);
  }
}
