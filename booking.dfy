/** `book_meeting`: parse the request and insert a one-hour event. */
module Booking {
  import opened Wrappers
  import opened CivilTime
  import opened Calendar
  import opened Text
  import opened TimeParsing

  const BOOKING_PARSE_ERROR_REPLY := "I couldn't understand the time for booking. Please try something like 'Book a meeting tomorrow at 3 PM'."
  const MEETING_SUMMARY := "Meeting via AI Agent"
  const TIME_ZONE := "Asia/Kolkata"

  /** The event body for a meeting starting at `dt`. */
  function BookingRequest(dt: DateTime): EventBody
  {
    EventBody(MEETING_SUMMARY, EventTime(dt, TIME_ZONE), EventTime(Add(dt, MICROS_PER_HOUR), TIME_ZONE))
  }

  /** A booking always asks for exactly the hour from `dt` on, under the fixed
      summary, with the same zone label on both ends. */
  lemma BookingRequestShape(dt: DateTime)
    ensures BookingRequest(dt).summary == MEETING_SUMMARY
    ensures BookingRequest(dt).start == EventTime(dt, TIME_ZONE)
    ensures BookingRequest(dt).end.timeZone == TIME_ZONE
    ensures ToMicros(BookingRequest(dt).end.dateTime) == ToMicros(dt) + MICROS_PER_HOUR
    ensures Before(BookingRequest(dt).start.dateTime, BookingRequest(dt).end.dateTime)
    ensures dt.hour < 23 ==> BookingRequest(dt).end.dateTime == dt.(hour := dt.hour + 1)
    ensures dt.hour == 23 ==> BookingRequest(dt).end.dateTime == dt.(day := dt.day + 1, hour := 0)
  {
    AddOneHour(dt);
  }

  function BookedReply(dt: DateTime, formats: Formats): string
  {
    "Meeting booked successfully for " + formats.longDateClock(dt) + "."
  }

  function InsertErrorReply(error: string): string
  {
    "An error occurred while booking the meeting: " + error
      + ". Please ensure the service account has the necessary Google Calendar API permissions."
  }

  /** What the booking does next: answer at once, or insert an event. */
  datatype Step = Answer(reply: string) | Insert(body: EventBody, start: DateTime)

  /** Everything before the store is called. */
  function Plan(text: string, ctx: Context): (st: Step)
    ensures st.Insert? ==> ctx.service.Some?
  {
    if ctx.service.None? then Answer(CONFIG_ERROR_REPLY)
    else match ParseTime(text, ctx.now, ctx.fuzzyParse)
      case None => Answer(BOOKING_PARSE_ERROR_REPLY)
      case Some(dt) => Insert(BookingRequest(dt), dt)
  }

  /** `book_meeting(text)`. */
  function BookMeeting(text: string, ctx: Context): string
  {
    match Plan(text, ctx)
    case Answer(r) => r
    case Insert(body, dt) =>
      match ctx.service.value.insert(body)
      case Ok(_) => BookedReply(dt, ctx.formats)
      case Err(e) => InsertErrorReply(e)
  }

  /** Without a service: the configuration error, for any text and parser. */
  lemma ServiceAbsent(text: string, ctx: Context, fuzzy: (string, DateTime) -> Option<DateTime>)
    requires ctx.service.None?
    ensures Plan(text, ctx) == Answer(CONFIG_ERROR_REPLY)
    ensures BookMeeting(text, ctx) == CONFIG_ERROR_REPLY
    ensures BookMeeting(text, ctx.(fuzzyParse := fuzzy)) == CONFIG_ERROR_REPLY
  {
  }

  /** An unparseable request gets the booking clarification and no insert:
      the reply is the same for any store. */
  lemma ParseFailure(text: string, ctx: Context, other: Store)
    requires ctx.service.Some?
    requires ParseTime(text, ctx.now, ctx.fuzzyParse).None?
    ensures Plan(text, ctx) == Answer(BOOKING_PARSE_ERROR_REPLY)
    ensures BookMeeting(text, ctx) == BOOKING_PARSE_ERROR_REPLY
    ensures BookMeeting(text, ctx.(service := Some(other))) == BOOKING_PARSE_ERROR_REPLY
  {
  }

  /** With a service and a parsed moment exactly one insert is requested, for
      the hour starting at that moment; its outcome decides the reply. */
  lemma BookingInserts(text: string, ctx: Context)
    requires ctx.service.Some?
    requires ParseTime(text, ctx.now, ctx.fuzzyParse).Some?
    ensures var dt := ParseTime(text, ctx.now, ctx.fuzzyParse).value;
      && Plan(text, ctx) == Insert(BookingRequest(dt), dt)
      && ToMicros(Plan(text, ctx).body.end.dateTime) - ToMicros(Plan(text, ctx).body.start.dateTime) == MICROS_PER_HOUR
      && BookMeeting(text, ctx) ==
         (if ctx.service.value.insert(BookingRequest(dt)).Ok? then BookedReply(dt, ctx.formats)
          else InsertErrorReply(ctx.service.value.insert(BookingRequest(dt)).error))
  {
    BookingRequestShape(ParseTime(text, ctx.now, ctx.fuzzyParse).value);
  }

  /** "book tomorrow afternoon" inserts the meeting 15:00 to 16:00 of the next date. */
  lemma TomorrowAfternoonBooking(text: string, ctx: Context)
    requires ctx.service.Some?
    requires Contains(Lower(text), TOMORROW_AFTERNOON)
    ensures Plan(text, ctx).Insert?
    ensures Plan(text, ctx).body.start.dateTime == DateTime(ctx.now.day + 1, 15, 0, 0, 0)
    ensures Plan(text, ctx).body.end.dateTime == DateTime(ctx.now.day + 1, 16, 0, 0, 0)
  {
    TomorrowAfternoon(text, ctx.now, ctx.fuzzyParse);
    AddOneHour(DateTime(ctx.now.day + 1, 15, 0, 0, 0));
  }
}
