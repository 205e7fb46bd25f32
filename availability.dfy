/** `check_availability`: parse the request, decide between a whole-day and a
    one-hour query, list the events in that window and describe them. */
module Availability {
  import opened Wrappers
  import opened Text
  import opened CivilTime
  import opened Calendar
  import opened TimeParsing

  /** Substrings that mark a request as naming a clock time. */
  const TIME_MARKERS := ["am", "pm", "morning", "afternoon", "evening", "oclock", "o'clock", ":"]
  /** Substrings that ask for a whole day whatever time was parsed. */
  const WHOLE_DAY_PHRASES := ["all day", "entire day", "whole day", "any time"]

  const PARSE_ERROR_REPLY := "I couldn't understand the date and/or time you provided. Please try a more specific phrase like 'next Monday at 3 PM' or 'tomorrow morning'."
  const NO_TITLE := "No Title"
  const ALL_DAY_LABEL := "All-day event: '"
  const SUMMARY_SEPARATOR := "; "

  predicate TimeSpecified(text: string)
  {
    ContainsAny(text, TIME_MARKERS)
  }

  /** The whole-day heuristic: a parsed midnight (microseconds are not looked
      at) in a text without a time marker, or an explicit whole-day phrase. */
  predicate IsFullDayQuery(text: string, dt: DateTime)
  {
    (dt.hour == 0 && dt.minute == 0 && dt.second == 0 && !TimeSpecified(text))
    || ContainsAny(text, WHOLE_DAY_PHRASES)
  }

  /** The range handed to the store. */
  function QueryWindow(text: string, dt: DateTime): Window
  {
    if IsFullDayQuery(text, dt) then Window(Replace(dt, 0, 0, 0, 0), Replace(dt, 23, 59, 59, 999_999))
    else Window(dt, Add(dt, MICROS_PER_HOUR))
  }

  /** How the queried period is named in the reply. */
  function QueryDescription(text: string, dt: DateTime, formats: Formats): string
  {
    if IsFullDayQuery(text, dt) then "all day on " + formats.longDate(dt) else formats.longDateAt(dt)
  }

  /** The window is never empty: a whole day runs from 00:00:00.000000 to
      23:59:59.999999 of the parsed date, anything else is exactly the hour
      from the parsed moment on. */
  lemma QueryWindowBounds(text: string, dt: DateTime)
    ensures Before(QueryWindow(text, dt).start, QueryWindow(text, dt).end)
    ensures IsFullDayQuery(text, dt) ==>
      QueryWindow(text, dt) == Window(DateTime(dt.day, 0, 0, 0, 0), DateTime(dt.day, 23, 59, 59, 999_999))
    ensures IsFullDayQuery(text, dt) ==>
      ToMicros(QueryWindow(text, dt).end) == ToMicros(QueryWindow(text, dt).start) + MICROS_PER_DAY - 1
    ensures !IsFullDayQuery(text, dt) ==>
      QueryWindow(text, dt).start == dt && ToMicros(QueryWindow(text, dt).end) == ToMicros(dt) + MICROS_PER_HOUR
  {
  }

  /** Matching is by substring: "team" contains "am", so a midnight parse of
      "team" is not taken as a whole-day request. */
  lemma TeamCountsAsTimeMarker(day: int)
    ensures TimeSpecified("team")
    ensures !IsFullDayQuery("team", DateTime(day, 0, 0, 0, 0))
  {
    assert TIME_MARKERS[0] == "am";
    assert OccursAt("team", "am", 2);
    forall j | 0 <= j < |WHOLE_DAY_PHRASES| ensures !Contains("team", WHOLE_DAY_PHRASES[j]) {
      assert |WHOLE_DAY_PHRASES[j]| > 4;
    }
  }

  /** A requested whole day is queried as one, whatever the parsed time. */
  lemma WholeDayPhraseWins(text: string, dt: DateTime)
    requires Contains(text, "whole day")
    ensures QueryWindow(text, dt) == Window(DateTime(dt.day, 0, 0, 0, 0), DateTime(dt.day, 23, 59, 59, 999_999))
  {
    assert WHOLE_DAY_PHRASES[2] == "whole day";
  }

  /** A "tomorrow ..." phrase without a whole-day phrase is checked as the one
      hour starting at the override moment. */
  lemma OverrideQueriesOneHour(text: string, now: DateTime, fuzzy: (string, DateTime) -> Option<DateTime>)
    requires HasOverride(text)
    requires !ContainsAny(text, WHOLE_DAY_PHRASES)
    ensures ParseTime(text, now, fuzzy).Some?
    ensures var dt := ParseTime(text, now, fuzzy).value;
      QueryWindow(text, dt) == Window(dt, DateTime(now.day + 1, dt.hour + 1, 0, 0, 0))
  {
    var dt := ParseTime(text, now, fuzzy).value;
    TomorrowAtFields(now, dt.hour);
    AddOneHour(dt);
  }

  /** The title shown for an event: `event.get('summary', 'No Title')`. */
  function Title(ev: Event): string
  {
    match ev.summary
    case Some(s) => s
    case None => NO_TITLE
  }

  /** Python truthiness of an optional string: present and non-empty. */
  predicate Truthy(o: Option<string>)
  {
    o.Some? && o.value != ""
  }

  /** A timed event has both a start and an end `dateTime`. */
  predicate IsTimed(ev: Event)
  {
    Truthy(ev.startDateTime) && Truthy(ev.endDateTime)
  }

  /** The line describing one listed event. */
  function EventSummary(ev: Event, ctx: Context): string
  {
    if IsTimed(ev) then
      match (ctx.fromIso(ev.startDateTime.value), ctx.fromIso(ev.endDateTime.value))
      case (Some(s), Some(e)) =>
        "'" + Title(ev) + "' from " + ctx.formats.clock(s) + " to " + ctx.formats.clock(e)
      case _ => "'" + Title(ev) + "' (time parsing error)"
    else ALL_DAY_LABEL + Title(ev) + "'"
  }

  /** An event without a summary shows up in its line as 'No Title', and one
      with a summary shows up under that summary. */
  lemma TitleShown(ev: Event, ctx: Context)
    ensures ev.summary.None? ==> Contains(EventSummary(ev, ctx), NO_TITLE)
    ensures ev.summary.Some? ==> Contains(EventSummary(ev, ctx), ev.summary.value)
  {
    var s := EventSummary(ev, ctx);
    var t := Title(ev);
    if IsTimed(ev) {
      assert s[1..1 + |t|] == t;
      assert OccursAt(s, t, 1);
    } else {
      assert s == ALL_DAY_LABEL + t + "'";
      assert s[|ALL_DAY_LABEL|..|ALL_DAY_LABEL| + |t|] == t;
      assert OccursAt(s, t, |ALL_DAY_LABEL|);
    }
  }

  /** An event is labelled all-day exactly when it lacks a start or an end time. */
  lemma AllDayLabelIff(ev: Event, ctx: Context)
    ensures StartsWith(EventSummary(ev, ctx), ALL_DAY_LABEL) <==> !IsTimed(ev)
  {
    var s := EventSummary(ev, ctx);
    if IsTimed(ev) {
      assert s[0] == '\'';
    } else {
      assert s[..|ALL_DAY_LABEL|] == ALL_DAY_LABEL;
    }
  }

  /** The summary lines of a list of events, in list order. */
  function EventSummaries(events: seq<Event>, ctx: Context): seq<string>
    decreases |events|
  {
    if events == [] then [] else [EventSummary(events[0], ctx)] + EventSummaries(events[1..], ctx)
  }

  /** Exactly one summary per event, the k-th describing the k-th event. */
  lemma {:induction false} EventSummariesPointwise(events: seq<Event>, ctx: Context)
    ensures |EventSummaries(events, ctx)| == |events|
    ensures forall k :: 0 <= k < |events| ==> EventSummaries(events, ctx)[k] == EventSummary(events[k], ctx)
    decreases |events|
  {
    if events != [] {
      EventSummariesPointwise(events[1..], ctx);
      forall k | 0 < k < |events|
        ensures EventSummaries(events, ctx)[k] == EventSummary(events[k], ctx)
      {
        assert events[1..][k - 1] == events[k];
      }
    }
  }

  function FreeReply(description: string): string
  {
    "You appear to be free " + description + "!"
  }

  function BusyReply(description: string, joined: string): string
  {
    "You have existing event(s) " + description + ": " + joined + ". You are not entirely free during that period."
  }

  function ListErrorReply(error: string): string
  {
    "An error occurred while checking your calendar: " + error
      + ". Please ensure the service account has the necessary Google Calendar API permissions."
  }

  /** What the availability check does next: answer at once, or list the
      events of a window and describe them. */
  datatype Step = Answer(reply: string) | ListEvents(window: Window, description: string)

  /** Everything before the store is called. */
  function Plan(text: string, ctx: Context): (st: Step)
    ensures st.ListEvents? ==> ctx.service.Some?
  {
    if ctx.service.None? then Answer(CONFIG_ERROR_REPLY)
    else match ParseTime(text, ctx.now, ctx.fuzzyParse)
      case None => Answer(PARSE_ERROR_REPLY)
      case Some(dt) => ListEvents(QueryWindow(text, dt), QueryDescription(text, dt, ctx.formats))
  }

  /** The reply once the store has answered (or raised). */
  function ListedReply(listed: Result<seq<Event>>, description: string, ctx: Context): string
  {
    match listed
    case Err(e) => ListErrorReply(e)
    case Ok(events) =>
      if events == [] then FreeReply(description)
      else BusyReply(description, Join(EventSummaries(events, ctx), SUMMARY_SEPARATOR))
  }

  /** `check_availability(text)`. */
  function AvailabilityReply(text: string, ctx: Context): string
  {
    match Plan(text, ctx)
    case Answer(r) => r
    case ListEvents(w, d) => ListedReply(ctx.service.value.list(w), d, ctx)
  }

  /** Without a service every request gets the configuration error and
      nothing is parsed: the reply is the same for any text and any parser. */
  lemma ServiceAbsent(text: string, ctx: Context, fuzzy: (string, DateTime) -> Option<DateTime>)
    requires ctx.service.None?
    ensures Plan(text, ctx) == Answer(CONFIG_ERROR_REPLY)
    ensures AvailabilityReply(text, ctx) == CONFIG_ERROR_REPLY
    ensures AvailabilityReply(text, ctx.(fuzzyParse := fuzzy)) == CONFIG_ERROR_REPLY
  {
  }

  /** An unparseable request gets the clarification and no store call: the
      reply is the same for any store. */
  lemma ParseFailure(text: string, ctx: Context, other: Store)
    requires ctx.service.Some?
    requires ParseTime(text, ctx.now, ctx.fuzzyParse).None?
    ensures Plan(text, ctx) == Answer(PARSE_ERROR_REPLY)
    ensures AvailabilityReply(text, ctx) == PARSE_ERROR_REPLY
    ensures AvailabilityReply(text, ctx.(service := Some(other))) == PARSE_ERROR_REPLY
  {
  }

  /** A store call is made exactly when the service exists and parsing succeeds,
      and it asks for the query window of the parsed moment. */
  lemma PlanListsQueryWindow(text: string, ctx: Context)
    ensures Plan(text, ctx).ListEvents? <==> ctx.service.Some? && ParseTime(text, ctx.now, ctx.fuzzyParse).Some?
    ensures Plan(text, ctx).ListEvents? ==>
      var dt := ParseTime(text, ctx.now, ctx.fuzzyParse).value;
      Plan(text, ctx).window == QueryWindow(text, dt) && Before(Plan(text, ctx).window.start, Plan(text, ctx).window.end)
  {
    if Plan(text, ctx).ListEvents? {
      QueryWindowBounds(text, ParseTime(text, ctx.now, ctx.fuzzyParse).value);
    }
  }

  /** No events: the "free" reply. Otherwise every event's summary line
      appears in the reply. */
  lemma ListedReplyShape(events: seq<Event>, description: string, ctx: Context)
    ensures events == [] ==> ListedReply(Ok(events), description, ctx) == FreeReply(description)
    ensures forall k :: 0 <= k < |events| ==> Contains(ListedReply(Ok(events), description, ctx), EventSummary(events[k], ctx))
  {
    var parts := EventSummaries(events, ctx);
    EventSummariesPointwise(events, ctx);
    forall k | 0 <= k < |events|
      ensures Contains(ListedReply(Ok(events), description, ctx), EventSummary(events[k], ctx))
    {
      JoinContainsPart(parts, SUMMARY_SEPARATOR, k);
      ContainsInConcat("You have existing event(s) " + description + ": ", Join(parts, SUMMARY_SEPARATOR),
                       ". You are not entirely free during that period.", parts[k]);
    }
  }

  /** The summary loop of `check_availability`. */
  method SummarizeEvents(events: seq<Event>, ctx: Context) returns (summaries: seq<string>)
    ensures |summaries| == |events|
    ensures forall k :: 0 <= k < |events| ==> summaries[k] == EventSummary(events[k], ctx)
    ensures summaries == EventSummaries(events, ctx)
  {
    summaries := [];
    var i := 0;
    while i < |events|
      invariant 0 <= i <= |events|
      invariant |summaries| == i
      invariant forall k :: 0 <= k < i ==> summaries[k] == EventSummary(events[k], ctx)
    {
      var ev := events[i];
      var title := Title(ev);
      if IsTimed(ev) {
        var startParsed := ctx.fromIso(ev.startDateTime.value);
        var endParsed := ctx.fromIso(ev.endDateTime.value);
        if startParsed.Some? && endParsed.Some? {
          summaries := summaries + ["'" + title + "' from " + ctx.formats.clock(startParsed.value)
                                    + " to " + ctx.formats.clock(endParsed.value)];
        } else {
          summaries := summaries + ["'" + title + "' (time parsing error)"];
        }
      } else {
        summaries := summaries + [ALL_DAY_LABEL + title + "'"];
      }
      i := i + 1;
    }
    EventSummariesPointwise(events, ctx);
  }

  /** `check_availability(text)` step by step; its reply is AvailabilityReply. */
  method CheckAvailability(text: string, ctx: Context) returns (reply: string)
    ensures reply == AvailabilityReply(text, ctx)
  {
    if ctx.service.None? {
      return CONFIG_ERROR_REPLY;
    }
    var parsed := ParseTime(text, ctx.now, ctx.fuzzyParse);
    if parsed.None? {
      return PARSE_ERROR_REPLY;
    }
    var dt := parsed.value;
    var window, description;
    if IsFullDayQuery(text, dt) {
      window := Window(Replace(dt, 0, 0, 0, 0), Replace(dt, 23, 59, 59, 999_999));
      description := "all day on " + ctx.formats.longDate(dt);
    } else {
      window := Window(dt, Add(dt, MICROS_PER_HOUR));
      description := ctx.formats.longDateAt(dt);
    }
    var listed := ctx.service.value.list(window);
    match listed
    case Err(e) =>
      reply := ListErrorReply(e);
    case Ok(events) =>
      if events == [] {
        reply := FreeReply(description);
      } else {
        var summaries := SummarizeEvents(events, ctx);
        reply := BusyReply(description, Join(summaries, SUMMARY_SEPARATOR));
      }
  }
}
