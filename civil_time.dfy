/** Naive date-times as Python's `datetime.datetime` holds them, with
    `timedelta` arithmetic carried out on a microsecond count. */
module CivilTime {

  const MICROS_PER_SECOND := 1_000_000
  const MICROS_PER_MINUTE := 60_000_000
  const MICROS_PER_HOUR := 3_600_000_000
  const MICROS_PER_DAY := 86_400_000_000

  type Hour = h: int | 0 <= h < 24
  type Minute = m: int | 0 <= m < 60
  type Second = s: int | 0 <= s < 60
  type Micro = u: int | 0 <= u < 1_000_000

  /** A date (as a day ordinal, the way `date.toordinal()` numbers days)
      and a time of day to the microsecond. */
  datatype DateTime = DateTime(day: int, hour: Hour, minute: Minute, second: Second, micro: Micro)

  /** Microseconds since the start of day 0: the instant a date-time names. */
  function ToMicros(dt: DateTime): int
  {
    dt.day * MICROS_PER_DAY + dt.hour * MICROS_PER_HOUR + dt.minute * MICROS_PER_MINUTE
      + dt.second * MICROS_PER_SECOND + dt.micro
  }

  /** Microseconds into its day. */
  function TimeOfDay(dt: DateTime): (t: int)
    ensures 0 <= t < MICROS_PER_DAY
  {
    dt.hour * MICROS_PER_HOUR + dt.minute * MICROS_PER_MINUTE + dt.second * MICROS_PER_SECOND + dt.micro
  }

  /** The date-time at a microsecond count: the inverse of ToMicros. */
  function FromMicros(t: int): (dt: DateTime)
    ensures ToMicros(dt) == t
  {
    var r := t % MICROS_PER_DAY;
    var r1 := r % MICROS_PER_HOUR;
    var r2 := r1 % MICROS_PER_MINUTE;
    DateTime(t / MICROS_PER_DAY, r / MICROS_PER_HOUR, r1 / MICROS_PER_MINUTE,
             r2 / MICROS_PER_SECOND, r2 % MICROS_PER_SECOND)
  }

  /** Two date-times naming the same instant are equal. */
  lemma {:induction false} ToMicrosInjective(a: DateTime, b: DateTime)
    requires ToMicros(a) == ToMicros(b)
    ensures a == b
  {
    var ta, tb := TimeOfDay(a), TimeOfDay(b);
    assert ToMicros(a) == a.day * MICROS_PER_DAY + ta;
    assert ToMicros(b) == b.day * MICROS_PER_DAY + tb;
    assert a.day == b.day;
    assert a.hour == b.hour;
    assert a.minute == b.minute;
    assert a.second == b.second;
  }

  lemma FromToMicros(dt: DateTime)
    ensures FromMicros(ToMicros(dt)) == dt
  {
    ToMicrosInjective(FromMicros(ToMicros(dt)), dt);
  }

  /** `dt + timedelta(microseconds=delta)`. */
  function Add(dt: DateTime, delta: int): (r: DateTime)
    ensures ToMicros(r) == ToMicros(dt) + delta
  {
    FromMicros(ToMicros(dt) + delta)
  }

  /** `dt.replace(hour=h, minute=m, second=s, microsecond=u)`: the same date. */
  function Replace(dt: DateTime, h: Hour, m: Minute, s: Second, u: Micro): DateTime
  {
    DateTime(dt.day, h, m, s, u)
  }

  /** `a < b` on datetimes. */
  predicate Before(a: DateTime, b: DateTime)
  {
    ToMicros(a) < ToMicros(b)
  }

  /** Adding a day moves to the next date and keeps the time of day. */
  lemma AddOneDay(dt: DateTime)
    ensures Add(dt, MICROS_PER_DAY) == dt.(day := dt.day + 1)
  {
    ToMicrosInjective(Add(dt, MICROS_PER_DAY), dt.(day := dt.day + 1));
  }

  /** Adding an hour advances the hour, rolling over to 00 of the next date after 23. */
  lemma AddOneHour(dt: DateTime)
    ensures dt.hour < 23 ==> Add(dt, MICROS_PER_HOUR) == dt.(hour := dt.hour + 1)
    ensures dt.hour == 23 ==> Add(dt, MICROS_PER_HOUR) == dt.(day := dt.day + 1, hour := 0)
  {
    if dt.hour < 23 {
      ToMicrosInjective(Add(dt, MICROS_PER_HOUR), dt.(hour := dt.hour + 1));
    } else {
      ToMicrosInjective(Add(dt, MICROS_PER_HOUR), dt.(day := dt.day + 1, hour := 0));
    }
  }
}
