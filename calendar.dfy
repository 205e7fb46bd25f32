/** The collaborators the assistant talks to: the calendar store, the fuzzy
    date parser, the clock and the date formatting it does not own. */
module Calendar {
  import opened Wrappers
  import opened CivilTime

  /** A `[timeMin, timeMax]` query range handed to the store. */
  datatype Window = Window(start: DateTime, end: DateTime)

  /** One item of `events().list(...)`: the `dateTime` fields of its `start`
      and `end` objects (absent for all-day entries) and its `summary`. */
  datatype Event = Event(startDateTime: Option<string>, endDateTime: Option<string>, summary: Option<string>)

  /** The `start`/`end` object of an event body: a date-time and a zone label. */
  datatype EventTime = EventTime(dateTime: DateTime, timeZone: string)

  /** The body handed to `events().insert(...)`. */
  datatype EventBody = EventBody(summary: string, start: EventTime, end: EventTime)

  /** The calendar service: listing events in a range and inserting one.
      Either call may raise; the error carries the exception's text. */
  datatype Store = Store(list: Window -> Result<seq<Event>>, insert: EventBody -> Result<()>)

  /** The `strftime` renderings the replies use. */
  datatype Formats = Formats(
    longDate: DateTime -> string,       // '%A, %d %B %Y'
    longDateAt: DateTime -> string,     // '%A, %d %B %Y at %I:%M %p'
    clock: DateTime -> string,          // '%I:%M %p'
    longDateClock: DateTime -> string)  // '%A, %d %B %Y %I:%M %p'

  /** Everything a request depends on besides its text: the clock reading,
      `dateparser.parse` (text and relative base), `datetime.fromisoformat`,
      the formats, and the service, which is absent when the credentials
      could not be loaded at start-up. */
  datatype Context = Context(
    now: DateTime,
    fuzzyParse: (string, DateTime) -> Option<DateTime>,
    fromIso: string -> Option<DateTime>,
    formats: Formats,
    service: Option<Store>)

  const CONFIG_ERROR_REPLY := "Calendar service is not available due to a configuration error. Please check the app logs for details."
}
