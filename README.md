# Calendar booking assistant — a verified model

The assistant reads a chat message, lower-cases it, and routes it by keywords.
"available"/"free" checks the calendar. "book"/"schedule" books a one-hour meeting.
Anything else gets a fixed hint. Both calendar actions turn the text into a naive
date-time (`parse_time`). Three fixed "tomorrow ..." phrases are handled first;
everything else goes to a fuzzy date parser. The availability check then decides between a
whole-day query and a one-hour query, lists the events in that window and describes
each one. Booking inserts a fixed one-hour event. The chat page keeps a session
history that grows by a user entry and a bot entry per submitted input. The HTTP
handler answers the same messages as a map with the single key `response`.

Modules, one per concern:

- `Wrappers` holds `Option` and `Result` (a caught exception becomes `Err(str(e))`).
- `Text` holds ASCII lower-casing, substring containment (`in`) and `join`.
- `CivilTime` holds the date-time: a day ordinal plus hour, minute, second and
  microsecond. `Add` is `timedelta` addition on the microsecond count, so adding a
  day or an hour rolls over correctly.
- `Calendar` holds the collaborators: the store (`list`/`insert`, each may fail),
  the clock reading, the fuzzy parser, `fromisoformat`, the `strftime` renderings,
  and the optional service. The service is absent when the credentials fail to load.
- `TimeParsing` is `parse_time`.
- `Availability` is `check_availability`. `Plan` covers the part before the store
  call, `ListedReply` the part after it, and `AvailabilityReply` the whole. The methods
  `SummarizeEvents` and `CheckAvailability` follow the code's loop and are proved
  equal to those functions.
- `Booking` is `book_meeting`.
- `Routing` is the ordered keyword classifier of `app.py`.
- `App` is the chat page. `ChatSession` is the session state, and its method `Run`
  is one run of the page script.
- `ChatApi` is the `chat` handler of `main.py`.

The code has no weekday fallback and no default for a bare "tomorrow". It has no
day/time precision tag, no slot enumeration, no conflict check before booking, no
confirmation of an offered slot and no greeting intent. Its only routing keywords are
"available"/"free" and "book"/"schedule". Every keyword test is plain substring
containment, not whole-word matching.

## Model

| member | source | states |
|---|---|---|
| `Text.Lower` | utils.py:31 | `text.lower()` on ASCII letters; its properties are `Text.LowerIdempotent` and `Text.ContainsLower` |
| `Text.Contains` | utils.py:35 | Python's `sub in s` as plain substring occurrence; its properties are `Text.ContainsLower`, `Text.JoinContainsPart` and `Text.ContainsInConcat` |
| `Text.Join` | utils.py:124 | `'; '.join(parts)`; its property is `Text.JoinContainsPart` |
| `Text.LowerIdempotent` | utils.py:31 | lower-casing an already lower-cased message again changes nothing |
| `Text.ContainsLower` | app.py:21 | a substring still occurs, lower-cased, in the lower-cased text |
| `Text.JoinContainsPart` | utils.py:124 | every joined part occurs in the joined text |
| `Text.ContainsInConcat` | utils.py:124 | a text occurring in the middle part of a concatenation occurs in the whole |
| `CivilTime.FromMicros` | utils.py:36 | normalising a microsecond count gives the date-time naming exactly that count |
| `CivilTime.ToMicrosInjective` | utils.py:36 | two date-times naming the same instant are equal |
| `CivilTime.FromToMicros` | utils.py:90 | normalising a date-time's own count gives it back |
| `CivilTime.Add` | utils.py:90 | `dt + timedelta` moves the instant by exactly the delta |
| `CivilTime.AddOneDay` | utils.py:36 | `+ 1 day` gives the next date at the same time of day |
| `CivilTime.AddOneHour` | utils.py:90 | `+ 1 hour` advances the hour, and from 23 rolls over to 00 of the next date |
| `TimeParsing.ParseTime` | utils.py:29-60 | the override chain, then the fuzzy parser; its properties are `TimeParsing.TomorrowAfternoon`, `TomorrowMorning`, `TomorrowEvening`, `OverrideIgnoresParser`, `ParserOtherwise` and `ParseLowered` |
| `TimeParsing.TomorrowAtFields` | utils.py:36-43 | an override is the date after `now`'s at exactly h:00:00.000000, whatever `now`'s time of day |
| `TimeParsing.TomorrowAfternoon` | utils.py:35-37 | "tomorrow afternoon", in any case, yields the next date at 15:00 |
| `TimeParsing.TomorrowMorning` | utils.py:38-40 | "tomorrow morning" without "tomorrow afternoon" yields the next date at 10:00 |
| `TimeParsing.TomorrowEvening` | utils.py:41-43 | "tomorrow evening" without the two earlier phrases yields the next date at 18:00 |
| `TimeParsing.OverrideIgnoresParser` | utils.py:35-57 | when an override phrase occurs, the result exists and is the same for every fuzzy parser |
| `TimeParsing.ParserOtherwise` | utils.py:44-57 | without an override phrase, the result is the fuzzy parser's answer on the lower-cased text |
| `TimeParsing.ParseLowered` | utils.py:31 | parsing pre-lower-cased text gives the same result as parsing the original |
| `TimeParsing.MixedCaseExample` | utils.py:31-37 | "Tomorrow Afternoon?" at 23:30 on day 10 yields day 11 at 15:00 |
| `Availability.IsFullDayQuery` | utils.py:75-80 | the whole-day heuristic; its properties are `Availability.TeamCountsAsTimeMarker`, `WholeDayPhraseWins` and `OverrideQueriesOneHour` |
| `Availability.QueryWindow` | utils.py:82-91 | the queried range; its property is `Availability.QueryWindowBounds` |
| `Availability.QueryWindowBounds` | utils.py:82-91 | start is before end; a whole day runs 00:00:00.000000 to 23:59:59.999999 of the parsed date; otherwise the window is exactly one hour starting at the parsed moment |
| `Availability.TeamCountsAsTimeMarker` | utils.py:75-80 | "team" contains "am", so a midnight parse of it is not a whole-day query |
| `Availability.WholeDayPhraseWins` | utils.py:77-85 | "whole day" in the text queries the whole date, whatever time was parsed |
| `Availability.OverrideQueriesOneHour` | utils.py:75-91 | a "tomorrow ..." phrase without a whole-day phrase queries the hour from the override moment to the next full hour of the next date |
| `Availability.EventSummary` | utils.py:110-122 | the line of one event; its properties are `Availability.TitleShown` and `AllDayLabelIff` |
| `Availability.TitleShown` | utils.py:118-122 | a missing summary shows up in the event's line as 'No Title', a present one as it is |
| `Availability.AllDayLabelIff` | utils.py:114-122 | an event is labelled all-day if and only if it lacks a non-empty start or end `dateTime` |
| `Availability.EventSummariesPointwise` | utils.py:109-122 | exactly one summary per event, the k-th describing the k-th event |
| `Availability.Plan` | utils.py:64-91 | a store listing is only requested when the service exists |
| `Availability.ServiceAbsent` | utils.py:65-66 | without a service: the configuration error, no listing, the same reply for any parser |
| `Availability.ParseFailure` | utils.py:68-70 | an unparseable request gets the clarification, no listing, the same reply for any store |
| `Availability.PlanListsQueryWindow` | utils.py:64-102 | a listing is requested iff the service exists and parsing succeeds, and it asks for the non-empty query window of the parsed moment |
| `Availability.ListedReplyShape` | utils.py:104-124 | no events gives the "free" reply; otherwise every event's summary line appears in the reply |
| `Availability.ListedReply` | utils.py:104-127 | the reply once the store has answered or raised; its property is `Availability.ListedReplyShape` |
| `Availability.AvailabilityReply` | utils.py:64-127 | the whole availability check; its properties are `Availability.ServiceAbsent`, `ParseFailure`, `PlanListsQueryWindow` and `ListedReplyShape`, and `CheckAvailability` is proved equal to it |
| `Availability.SummarizeEvents` | utils.py:109-122 | the loop builds, in list order, one summary line per event |
| `Availability.CheckAvailability` | utils.py:64-127 | the step-by-step check returns exactly `AvailabilityReply`, including its error replies |
| `Booking.BookingRequest` | utils.py:139-146 | the inserted event body; its property is `Booking.BookingRequestShape` |
| `Booking.BookMeeting` | utils.py:130-154 | the whole booking; its properties are `Booking.ServiceAbsent`, `ParseFailure`, `BookingInserts` and `TomorrowAfternoonBooking` |
| `Booking.BookingRequestShape` | utils.py:139-146 | the body asks for exactly the hour from `dt` (rolling over midnight), summary 'Meeting via AI Agent', zone 'Asia/Kolkata' on both ends |
| `Booking.Plan` | utils.py:130-146 | an insert is only requested when the service exists |
| `Booking.ServiceAbsent` | utils.py:131-132 | without a service: the configuration error, no insert, the same reply for any parser |
| `Booking.ParseFailure` | utils.py:134-136 | an unparseable request gets the booking clarification, no insert, the same reply for any store |
| `Booking.BookingInserts` | utils.py:138-154 | with a service and a parsed moment, one one-hour insert is requested, and its outcome picks the success or error reply |
| `Booking.TomorrowAfternoonBooking` | utils.py:134-146 | "tomorrow afternoon" books 15:00 to 16:00 of the next date |
| `Routing.Classify` | app.py:23-28 | the ordered keyword classifier; its properties are `Routing.ClassifyPrecedence`, `AvailabilityBeatsBooking`, `KeywordInAnyCase` and `MixedRequestExample` |
| `Routing.Respond` | app.py:23-28 | the reply for each intent; its properties are `Routing.AvailabilityBeatsBooking` and `FallbackCallsNothing` |
| `Routing.ClassifyPrecedence` | app.py:23-28 | availability iff an availability keyword; booking iff a booking keyword and no availability keyword; fallback iff neither |
| `Routing.AvailabilityBeatsBooking` | app.py:23-26 | a message with both kinds of keyword is an availability check |
| `Routing.FallbackCallsNothing` | app.py:27-28 | the fallback reply is the fixed hint and does not depend on calendar, clock or parser |
| `Routing.KeywordInAnyCase` | app.py:21-26 | a keyword typed in any case is routed on once the message is lower-cased |
| `Routing.MixedRequestExample` | app.py:21-24 | "Book me a FREE slot" is an availability check |
| `App.Extend` | app.py:16-32 | one run's history for any reply function; its properties are `App.ExtendAlternates`, `ExtendUserLines`, `AfterRunsGrows`, `AfterRunsAlternate` and `AfterRunsUserLines` |
| `App.NextHistory` | app.py:16-32 | one run's history with the page's own reply; its properties are `App.SubmittedAppendsTwo` and `NothingSubmitted`, and `ChatSession.Run` is proved to produce it |
| `App.SubmittedAppendsTwo` | app.py:16-32 | a submitted input appends exactly ("user", input) then ("bot", reply to its lower-cased form) and keeps earlier entries |
| `App.NothingSubmitted` | app.py:10-16 | no input leaves a history unchanged and creates an empty one only when absent |
| `App.ExtendAlternates` | app.py:18-32 | every run keeps the history alternating user, bot, whatever the replies |
| `App.ExtendUserLines` | app.py:16-18 | one run adds the submitted input, and nothing else, to the user's lines |
| `App.AfterRunsGrows` | app.py:10-32 | over any series of runs, each answered by its own reply function (the clock and the calendar change between runs), the history keeps its earlier entries and grows by two entries per submitted input |
| `App.AfterRunsAlternate` | app.py:18-32 | over any series of runs, each answered by its own reply function, an alternating history stays alternating |
| `App.AfterRunsUserLines` | app.py:16-18 | over any series of runs, each answered by its own reply function, the user's lines are the earlier ones followed by the submitted inputs, in the order typed |
| `App.ChatSession.constructor` | app.py:10 | a new session has no history yet |
| `App.ChatSession.Run` | app.py:10-32 | one run of the page initialises the history if absent and appends the turn of a submitted input |
| `App.TwoTurns` | app.py:10-32 | input, no input, input, each run with its own clock and calendar, leaves four alternating entries with the two inputs as user entries |
| `ChatApi.Chat` | main.py:13-20 | every reply is a map with the single key "response" |
| `ChatApi.AgreesWithApp` | main.py:15-20 | the handler answers every message exactly as the chat page's routing does |
| `ChatApi.MissingMessage` | main.py:13-20 | a request without "message" gets the fallback reply |
| `ChatApi.LowerCasedHandOff` | main.py:13-18 | the calendar functions receive the lower-cased message |

## Left out

- Credential loading and client construction (utils.py:12-25): foreign I/O. The model keeps only whether the service is present.
- The Google Calendar calls (utils.py:96-102, 151): these are network calls. `Store.list` and `Store.insert` are opaque functions that may fail. The calendar id 'primary', `singleEvents` and `orderBy` are store parameters the model does not carry.
- `dateparser.parse` (utils.py:48-57): a fuzzy foreign parser. It is the opaque `fuzzyParse`, given the lower-cased text and `now`. Its settings (future preference, time zone) are part of that opaque behaviour.
- `datetime.now()`: the clock reading is the `now` field of the context.
- `strftime` and `isoformat` text: opaque `Formats` functions. The store receives date-times, not ISO strings.
- `datetime.fromisoformat` (utils.py:116-120): the opaque `fromIso`. `None` stands for its `ValueError`.
- Gregorian calendar arithmetic: dates are day ordinals. Year, month and weekday only appear inside the opaque formats.
- Python's range limit on `datetime` (years 1 to 9999, `OverflowError`): days are unbounded integers. In the source an overflow in `dt + timedelta(hours=1)` (utils.py:90, utils.py:140) lies outside the `try` blocks, so it would end the page run after the user entry is appended (app.py:18) and before the bot entry (app.py:32), leaving an unanswered user entry in the real history; `App.SubmittedAppendsTwo`, `App.ExtendAlternates` and the `App.AfterRuns` lemmas hold because the model's replies never fail.
- `Text.Lower`: lower-cases ASCII letters only, whereas `str.lower` also lower-cases other Unicode letters.
- A listed event without a `start` or `end` object: the code raises `KeyError`, which ends in the generic calendar-error reply. The model assumes every listed event carries both objects, as the Calendar API returns them. Only their `dateTime` fields are optional.
- `.get('items', [])`: a listing without items is the empty sequence.
- Request decoding in the HTTP handler (main.py:2-12): FastAPI, CORS and the async JSON body are left out. The body is a map from strings to strings, so a non-string "message" (where `.lower()` would raise) is not modelled.
- Streamlit rendering (app.py:6-7, 14, 35-37) and the debug prints: output only.
- Concurrency between sessions: none in this code; each `ChatSession` is its own object.
