/** `parse_time`: fixed "tomorrow ..." phrases first, the fuzzy parser otherwise. */
module TimeParsing {
  import opened Wrappers
  import opened Text
  import opened CivilTime

  const TOMORROW_AFTERNOON := "tomorrow afternoon"
  const TOMORROW_MORNING := "tomorrow morning"
  const TOMORROW_EVENING := "tomorrow evening"

  /** True when the lower-cased text names one of the three fixed phrases. */
  predicate HasOverride(text: string)
  {
    var t := Lower(text);
    Contains(t, TOMORROW_AFTERNOON) || Contains(t, TOMORROW_MORNING) || Contains(t, TOMORROW_EVENING)
  }

  /** `now + timedelta(days=1)` with its clock set to `h`:00:00.000000. */
  function TomorrowAt(now: DateTime, h: Hour): DateTime
  {
    Replace(Add(now, MICROS_PER_DAY), h, 0, 0, 0)
  }

  /** `parse_time(text)` with the clock reading `now` and `dateparser.parse`
      given as `fuzzy` (it receives the lower-cased text and `now` as its
      relative base). */
  function ParseTime(text: string, now: DateTime, fuzzy: (string, DateTime) -> Option<DateTime>): Option<DateTime>
  {
    var t := Lower(text);
    if Contains(t, TOMORROW_AFTERNOON) then Some(TomorrowAt(now, 15))
    else if Contains(t, TOMORROW_MORNING) then Some(TomorrowAt(now, 10))
    else if Contains(t, TOMORROW_EVENING) then Some(TomorrowAt(now, 18))
    else fuzzy(t, now)
  }

  /** The override moment is the date after `now`'s date at exactly `h`:00,
      whatever time of day `now` is (a `now` at 23:59 still moves one date). */
  lemma TomorrowAtFields(now: DateTime, h: Hour)
    ensures TomorrowAt(now, h) == DateTime(now.day + 1, h, 0, 0, 0)
    ensures ToMicros(TomorrowAt(now, h)) - ToMicros(now) == MICROS_PER_DAY - TimeOfDay(now) + h * MICROS_PER_HOUR
  {
    AddOneDay(now);
  }

  /** "tomorrow afternoon" in any case yields the next date at 15:00:00.000000. */
  lemma TomorrowAfternoon(text: string, now: DateTime, fuzzy: (string, DateTime) -> Option<DateTime>)
    requires Contains(Lower(text), TOMORROW_AFTERNOON)
    ensures ParseTime(text, now, fuzzy) == Some(DateTime(now.day + 1, 15, 0, 0, 0))
  {
    TomorrowAtFields(now, 15);
  }

  /** "tomorrow morning" yields 10:00, unless "tomorrow afternoon" also occurs. */
  lemma TomorrowMorning(text: string, now: DateTime, fuzzy: (string, DateTime) -> Option<DateTime>)
    requires Contains(Lower(text), TOMORROW_MORNING) && !Contains(Lower(text), TOMORROW_AFTERNOON)
    ensures ParseTime(text, now, fuzzy) == Some(DateTime(now.day + 1, 10, 0, 0, 0))
  {
    TomorrowAtFields(now, 10);
  }

  /** "tomorrow evening" yields 18:00, when neither earlier phrase occurs. */
  lemma TomorrowEvening(text: string, now: DateTime, fuzzy: (string, DateTime) -> Option<DateTime>)
    requires Contains(Lower(text), TOMORROW_EVENING)
    requires !Contains(Lower(text), TOMORROW_AFTERNOON) && !Contains(Lower(text), TOMORROW_MORNING)
    ensures ParseTime(text, now, fuzzy) == Some(DateTime(now.day + 1, 18, 0, 0, 0))
  {
    TomorrowAtFields(now, 18);
  }

  /** An override result never depends on the fuzzy parser. */
  lemma OverrideIgnoresParser(text: string, now: DateTime, f: (string, DateTime) -> Option<DateTime>,
                              g: (string, DateTime) -> Option<DateTime>)
    requires HasOverride(text)
    ensures ParseTime(text, now, f) == ParseTime(text, now, g)
    ensures ParseTime(text, now, f).Some?
  {
  }

  /** Without an override phrase the result is exactly the fuzzy parser's
      answer on the lower-cased text, failure included. */
  lemma ParserOtherwise(text: string, now: DateTime, fuzzy: (string, DateTime) -> Option<DateTime>)
    requires !HasOverride(text)
    ensures ParseTime(text, now, fuzzy) == fuzzy(Lower(text), now)
  {
  }

  /** Callers hand over text they already lower-cased; lower-casing it again
      changes nothing, so the result is the same as for the original text. */
  lemma ParseLowered(text: string, now: DateTime, fuzzy: (string, DateTime) -> Option<DateTime>)
    ensures ParseTime(Lower(text), now, fuzzy) == ParseTime(text, now, fuzzy)
  {
    LowerIdempotent(text);
  }

  /** A concrete instance of case-insensitivity: "Tomorrow Afternoon?" at
      23:30 of day 10 yields day 11 at 15:00. */
  lemma MixedCaseExample(fuzzy: (string, DateTime) -> Option<DateTime>)
    ensures ParseTime("Tomorrow Afternoon?", DateTime(10, 23, 30, 0, 0), fuzzy) == Some(DateTime(11, 15, 0, 0, 0))
  {
    var t := Lower("Tomorrow Afternoon?");
    assert t[..18] == TOMORROW_AFTERNOON by {
      forall i | 0 <= i < 18 ensures t[i] == TOMORROW_AFTERNOON[i] {
        assert t[i] == LowerChar("Tomorrow Afternoon?"[i]);
      }
    }
    assert OccursAt(t, TOMORROW_AFTERNOON, 0);
    TomorrowAfternoon("Tomorrow Afternoon?", DateTime(10, 23, 30, 0, 0), fuzzy);
  }
}
