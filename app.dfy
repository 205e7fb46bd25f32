/** The chat page: a session-held history that every submitted input extends
    by the user's entry and the bot's reply. */
module App {
  import opened Wrappers
  import opened Text
  import opened Calendar
  import opened Routing
  import Availability
  import Booking

  const USER := "user"
  const BOT := "bot"

  /** One line of the conversation: who spoke and what. */
  datatype Entry = Entry(role: string, message: string)

  /** `if user_input:` treats both no input and an empty input as nothing submitted. */
  predicate Submitted(userInput: Option<string>)
  {
    userInput.Some? && userInput.value != ""
  }

  /** The history once a script run has initialised it. */
  function Initialised(chat: Option<seq<Entry>>): seq<Entry>
  {
    if chat.None? then [] else chat.value
  }

  /** The history after one run of the page for `userInput`, answering a
      submitted input with `respond`. */
  function Extend(chat: Option<seq<Entry>>, userInput: Option<string>, respond: string -> string): seq<Entry>
  {
    Initialised(chat)
      + if Submitted(userInput) then [Entry(USER, userInput.value), Entry(BOT, respond(userInput.value))] else []
  }

  /** The page's answer to a typed input: the routed reply to its lower-cased form. */
  function PageReply(ctx: Context): string -> string
  {
    input => Respond(Lower(input), ctx)
  }

  /** The history after one run of the page for `userInput`. */
  function NextHistory(chat: Option<seq<Entry>>, userInput: Option<string>, ctx: Context): seq<Entry>
  {
    Extend(chat, userInput, PageReply(ctx))
  }

  /** A submitted input adds exactly two entries, the original input from the
      user and the reply to its lower-cased form from the bot, after the
      unchanged earlier entries. */
  lemma SubmittedAppendsTwo(chat: Option<seq<Entry>>, userInput: Option<string>, ctx: Context)
    requires Submitted(userInput)
    ensures var before := Initialised(chat); var after := NextHistory(chat, userInput, ctx);
      && |after| == |before| + 2
      && after[..|before|] == before
      && after[|before|] == Entry(USER, userInput.value)
      && after[|before| + 1] == Entry(BOT, Respond(Lower(userInput.value), ctx))
      && after == before + [Entry(USER, userInput.value), Entry(BOT, Respond(Lower(userInput.value), ctx))]
  {
  }

  /** No input leaves an existing history as it is, and creates an empty one
      only when there is none yet. */
  lemma NothingSubmitted(chat: Option<seq<Entry>>, userInput: Option<string>, ctx: Context)
    requires !Submitted(userInput)
    ensures chat.Some? ==> NextHistory(chat, userInput, ctx) == chat.value
    ensures chat.None? ==> NextHistory(chat, userInput, ctx) == []
  {
  }

  /** The history reads user, bot, user, bot, ... */
  predicate Alternates(h: seq<Entry>)
  {
    |h| % 2 == 0 && forall i :: 0 <= i < |h| ==> h[i].role == if i % 2 == 0 then USER else BOT
  }

  /** Every run keeps the history alternating, whatever the replies. */
  lemma ExtendAlternates(chat: Option<seq<Entry>>, userInput: Option<string>, respond: string -> string)
    requires Alternates(Initialised(chat))
    ensures Alternates(Extend(chat, userInput, respond))
  {
    var before := Initialised(chat);
    var after := Extend(chat, userInput, respond);
    if Submitted(userInput) {
      forall i | 0 <= i < |after|
        ensures after[i].role == if i % 2 == 0 then USER else BOT
      {
        if i < |before| {
          assert after[i] == before[i];
        }
      }
    }
  }

  /** The inputs of a series of runs that were actually submitted. */
  function SubmittedTexts(inputs: seq<Option<string>>): seq<string>
    decreases |inputs|
  {
    if inputs == [] then []
    else (if Submitted(inputs[0]) then [inputs[0].value] else []) + SubmittedTexts(inputs[1..])
  }

  /** The history after the page has run once for each of `inputs`, in order,
      the i-th run answering with `responds[i]`: each run has its own reply
      function, since the clock and the calendar the replies depend on change
      from one run to the next. */
  function AfterRuns(chat: Option<seq<Entry>>, inputs: seq<Option<string>>, responds: seq<string -> string>): seq<Entry>
    requires |responds| == |inputs|
    decreases |inputs|
  {
    if inputs == [] then Initialised(chat)
    else AfterRuns(Some(Extend(chat, inputs[0], responds[0])), inputs[1..], responds[1..])
  }

  /** Over any series of runs, whatever each run replies, the history keeps
      its earlier entries and grows by two entries per submitted input. */
  lemma {:induction false} AfterRunsGrows(chat: Option<seq<Entry>>, inputs: seq<Option<string>>, responds: seq<string -> string>)
    requires |responds| == |inputs|
    ensures var before := Initialised(chat); var after := AfterRuns(chat, inputs, responds);
      |after| == |before| + 2 * |SubmittedTexts(inputs)| && after[..|before|] == before
    decreases |inputs|
  {
    if inputs != [] {
      var before := Initialised(chat);
      var mid := Extend(chat, inputs[0], responds[0]);
      AfterRunsGrows(Some(mid), inputs[1..], responds[1..]);
      var after := AfterRuns(Some(mid), inputs[1..], responds[1..]);
      assert mid[..|before|] == before;
      assert after[..|before|] == after[..|mid|][..|before|];
      if Submitted(inputs[0]) {
        assert SubmittedTexts(inputs) == [inputs[0].value] + SubmittedTexts(inputs[1..]);
      } else {
        assert SubmittedTexts(inputs) == SubmittedTexts(inputs[1..]);
      }
    }
  }

  /** Over any series of runs, whatever each run replies, an alternating
      history stays alternating. */
  lemma {:induction false} AfterRunsAlternate(chat: Option<seq<Entry>>, inputs: seq<Option<string>>, responds: seq<string -> string>)
    requires |responds| == |inputs|
    requires Alternates(Initialised(chat))
    ensures Alternates(AfterRuns(chat, inputs, responds))
    decreases |inputs|
  {
    if inputs != [] {
      ExtendAlternates(chat, inputs[0], responds[0]);
      AfterRunsAlternate(Some(Extend(chat, inputs[0], responds[0])), inputs[1..], responds[1..]);
    }
  }

  /** The messages of the user's entries, in history order. */
  function UserLines(h: seq<Entry>): seq<string>
    decreases |h|
  {
    if h == [] then [] else (if h[0].role == USER then [h[0].message] else []) + UserLines(h[1..])
  }

  lemma {:induction false} UserLinesConcat(a: seq<Entry>, b: seq<Entry>)
    ensures UserLines(a + b) == UserLines(a) + UserLines(b)
    decreases |a|
  {
    if a == [] {
      assert a + b == b;
    } else {
      assert (a + b)[1..] == a[1..] + b;
      UserLinesConcat(a[1..], b);
    }
  }

  /** One run adds the submitted input, and nothing else, to the user's lines. */
  lemma ExtendUserLines(chat: Option<seq<Entry>>, userInput: Option<string>, respond: string -> string)
    ensures UserLines(Extend(chat, userInput, respond))
         == UserLines(Initialised(chat)) + if Submitted(userInput) then [userInput.value] else []
  {
    var turn := if Submitted(userInput) then [Entry(USER, userInput.value), Entry(BOT, respond(userInput.value))] else [];
    assert Extend(chat, userInput, respond) == Initialised(chat) + turn;
    UserLinesConcat(Initialised(chat), turn);
    if Submitted(userInput) {
      assert turn[1..][1..] == [];
      assert UserLines(turn[1..]) == [];
    }
  }

  /** Over any series of runs, whatever each run replies, the user's lines
      are the earlier ones followed by the submitted inputs, in the order they
      were typed. */
  lemma {:induction false} AfterRunsUserLines(chat: Option<seq<Entry>>, inputs: seq<Option<string>>, responds: seq<string -> string>)
    requires |responds| == |inputs|
    ensures UserLines(AfterRuns(chat, inputs, responds)) == UserLines(Initialised(chat)) + SubmittedTexts(inputs)
    decreases |inputs|
  {
    if inputs != [] {
      var mid := Extend(chat, inputs[0], responds[0]);
      var first := if Submitted(inputs[0]) then [inputs[0].value] else [];
      calc {
        UserLines(AfterRuns(chat, inputs, responds));
        UserLines(AfterRuns(Some(mid), inputs[1..], responds[1..]));
        { AfterRunsUserLines(Some(mid), inputs[1..], responds[1..]); }
        UserLines(mid) + SubmittedTexts(inputs[1..]);
        { ExtendUserLines(chat, inputs[0], responds[0]); }
        (UserLines(Initialised(chat)) + first) + SubmittedTexts(inputs[1..]);
        UserLines(Initialised(chat)) + (first + SubmittedTexts(inputs[1..]));
        UserLines(Initialised(chat)) + SubmittedTexts(inputs);
      }
    }
  }

  /** `st.session_state`, as far as the page uses it. */
  class ChatSession {
    /** The "chat" entry of the session state; None until the page first creates it. */
    var chat: Option<seq<Entry>>

    /** A new session has no "chat" entry. */
    constructor ()
      ensures chat == None
    {
      chat := None;
    }

    /** One run of the page script with what the chat input returned. */
    method Run(userInput: Option<string>, ctx: Context)
      modifies this
      ensures chat == Some(NextHistory(old(chat), userInput, ctx))
    {
      if chat.None? {
        chat := Some([]);
      }
      if userInput.Some? && userInput.value != "" {
        chat := Some(chat.value + [Entry(USER, userInput.value)]);
        var message := Lower(userInput.value);
        var reply;
        match Classify(message) {
          case CheckAvailability =>
            reply := Availability.CheckAvailability(message, ctx);
          case BookMeeting =>
            reply := Booking.BookMeeting(message, ctx);
          case Fallback =>
            reply := FALLBACK_REPLY;
        }
        assert reply == Respond(message, ctx);
        chat := Some(chat.value + [Entry(BOT, reply)]);
        assert chat.value == Initialised(old(chat)) + [Entry(USER, userInput.value), Entry(BOT, reply)];
        SubmittedAppendsTwo(old(chat), userInput, ctx);
      } else {
        NothingSubmitted(old(chat), userInput, ctx);
      }
    }
  }

  /** Three runs from a fresh session, each with its own clock and calendar:
      the first input, then nothing, then a second input leave four
      alternating entries. */
  method TwoTurns(first: string, second: string, ctx1: Context, ctx2: Context, ctx3: Context) returns (h: seq<Entry>)
    requires first != "" && second != ""
    ensures |h| == 4 && Alternates(h)
    ensures h[0] == Entry(USER, first) && h[2] == Entry(USER, second)
  {
    var session := new ChatSession();
    session.Run(Some(first), ctx1);
    SubmittedAppendsTwo(None, Some(first), ctx1);
    ExtendAlternates(None, Some(first), PageReply(ctx1));
    ghost var h1 := session.chat;
    session.Run(None, ctx2);
    NothingSubmitted(h1, None, ctx2);
    ghost var h2 := session.chat;
    session.Run(Some(second), ctx3);
    SubmittedAppendsTwo(h2, Some(second), ctx3);
    ExtendAlternates(h2, Some(second), PageReply(ctx3));
    h := session.chat.value;
  }
}
