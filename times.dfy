/** Python `datetime.time` values at minute precision. */
module Times {

  datatype HourMinute = HourMinute(hour: nat, minute: nat)

  /** `time(hour, minute)` exists only for hour in 0..23 and minute in 0..59. */
  type Time = t: HourMinute | t.hour < 24 && t.minute < 60 witness HourMinute(0, 0)

  /** Minutes since midnight; comparing these compares times. */
  function MinuteOfDay(t: Time): (m: nat)
    ensures m < 24 * 60
  {
    t.hour * 60 + t.minute
  }

  /** Python's ordering of `time` values: by hour, then by minute. */
  predicate TimeLeq(a: Time, b: Time) {
    a.hour < b.hour || (a.hour == b.hour && a.minute <= b.minute)
  }

  lemma MinuteOfDayOrder(a: Time, b: Time)
    ensures TimeLeq(a, b) <==> MinuteOfDay(a) <= MinuteOfDay(b)
  {
    if a.hour < b.hour {
      assert MinuteOfDay(a) < (a.hour + 1) * 60 <= b.hour * 60;
    } else if a.hour > b.hour {
      assert MinuteOfDay(b) < (b.hour + 1) * 60 <= a.hour * 60;
    }
  }
}
