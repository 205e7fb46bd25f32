/** The ordered keyword classifier shared by the chat page and the HTTP handler. */
module Routing {
  import opened Text
  import opened Calendar
  import Availability
  import Booking

  datatype Intent = CheckAvailability | BookMeeting | Fallback

  const FALLBACK_REPLY := "Please mention if you want to check availability or book a meeting."

  predicate HasAvailabilityKeyword(message: string)
  {
    Contains(message, "available") || Contains(message, "free")
  }

  predicate HasBookingKeyword(message: string)
  {
    Contains(message, "book") || Contains(message, "schedule")
  }

  /** The intent of an (already lower-cased) message: availability keywords
      first, booking keywords next, otherwise the fallback. */
  function Classify(message: string): Intent
  {
    if HasAvailabilityKeyword(message) then CheckAvailability
    else if HasBookingKeyword(message) then BookMeeting
    else Fallback
  }

  /** The reply to an (already lower-cased) message. */
  function Respond(message: string, ctx: Context): string
  {
    match Classify(message)
    case CheckAvailability => Availability.AvailabilityReply(message, ctx)
    case BookMeeting => Booking.BookMeeting(message, ctx)
    case Fallback => FALLBACK_REPLY
  }

  /** Each intent, with both directions of its keyword condition. */
  lemma ClassifyPrecedence(message: string)
    ensures Classify(message) == CheckAvailability <==> HasAvailabilityKeyword(message)
    ensures Classify(message) == BookMeeting <==> !HasAvailabilityKeyword(message) && HasBookingKeyword(message)
    ensures Classify(message) == Fallback <==> !HasAvailabilityKeyword(message) && !HasBookingKeyword(message)
  {
  }

  /** An availability keyword wins even beside a booking keyword. */
  lemma AvailabilityBeatsBooking(message: string, ctx: Context)
    requires HasAvailabilityKeyword(message) && HasBookingKeyword(message)
    ensures Respond(message, ctx) == Availability.AvailabilityReply(message, ctx)
  {
  }

  /** The fallback reply mentions no calendar at all: it is the same for every
      context, service and clock. */
  lemma FallbackCallsNothing(message: string, ctx: Context, other: Context)
    requires Classify(message) == Fallback
    ensures Respond(message, ctx) == FALLBACK_REPLY
    ensures Respond(message, other) == Respond(message, ctx)
  {
  }

  /** Routing ignores case: a keyword typed in any case is found once the
      message is lower-cased. */
  lemma KeywordInAnyCase(message: string, keyword: string)
    requires Contains(message, keyword)
    ensures Lower(keyword) == "available" || Lower(keyword) == "free" ==>
      Classify(Lower(message)) == CheckAvailability
    ensures Lower(keyword) == "book" || Lower(keyword) == "schedule" ==>
      Classify(Lower(message)) != Fallback
  {
    ContainsLower(message, keyword);
  }

  /** "Book me a FREE slot" is an availability check. */
  lemma MixedRequestExample()
    ensures Classify(Lower("Book me a FREE slot")) == CheckAvailability
  {
    var m := Lower("Book me a FREE slot");
    assert m[10..14] == "free" by {
      forall i | 10 <= i < 14 ensures m[i] == "free"[i - 10] {
        assert m[i] == LowerChar("Book me a FREE slot"[i]);
      }
    }
    assert OccursAt(m, "free", 10);
  }
}
