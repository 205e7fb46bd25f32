/** The HTTP `chat` handler: the same routing, answered as a one-key map. */
module ChatApi {
  import opened Text
  import opened Calendar
  import Routing
  import Availability
  import Booking

  /** `data.get("message", "")`. */
  function MessageOf(data: map<string, string>): string
  {
    if "message" in data then data["message"] else ""
  }

  /** `chat(request)` on the decoded request body. */
  function Chat(data: map<string, string>, ctx: Context): (r: map<string, string>)
    ensures r.Keys == {"response"}
  {
    var message := Lower(MessageOf(data));
    if Contains(message, "available") || Contains(message, "free") then
      map["response" := Availability.AvailabilityReply(message, ctx)]
    else if Contains(message, "book") || Contains(message, "schedule") then
      map["response" := Booking.BookMeeting(message, ctx)]
    else
      map["response" := Routing.FALLBACK_REPLY]
  }

  /** The handler answers every message exactly as the chat page does. */
  lemma AgreesWithApp(data: map<string, string>, ctx: Context)
    ensures Chat(data, ctx) == map["response" := Routing.Respond(Lower(MessageOf(data)), ctx)]
  {
  }

  /** A request without a "message" gets the fallback reply. */
  lemma MissingMessage(data: map<string, string>, ctx: Context)
    requires "message" !in data
    ensures Chat(data, ctx) == map["response" := Routing.FALLBACK_REPLY]
  {
    assert Lower("") == "";
  }

  /** The calendar functions receive the lower-cased message. */
  lemma LowerCasedHandOff(data: map<string, string>, ctx: Context)
    requires "message" in data
    ensures var m := Lower(data["message"]);
      && (Routing.HasAvailabilityKeyword(m) ==> Chat(data, ctx)["response"] == Availability.AvailabilityReply(m, ctx))
      && (!Routing.HasAvailabilityKeyword(m) && Routing.HasBookingKeyword(m) ==>
            Chat(data, ctx)["response"] == Booking.BookMeeting(m, ctx))
  {
  }
}
