/** The state of the Greene Genie chat window that its event handlers change
    (GreeneGenieChat.clear_placeholder, add_placeholder, start_chat,
    transition_to_chat and send_message): the message field's text and colour,
    the chat_started flag, the handler the Send button is bound to, and the
    transcript. Here each handler is a function from state to state; the class in
    module ChatWindow performs the same updates in place and is proved against
    these functions.

    The handlers that transition_to_chat and send_message schedule with
    root.after run in the order of their delays; the model appends their messages
    in that order at once. The timestamp each append reads from the clock is a
    parameter. */
module Session {
  import opened Transcript
  import Replies

  const Placeholder: string := "Type your message here..."
  const Welcome: string := "Hello! I'm Greene Genie \U{F8FF}\U{00FC}\U{00EB}\U{00E3}"
  const HowCanIHelp: string := "How can I help you today?"

  /** The message field's foreground: '#999999' while it shows the placeholder,
      '#333333' once the placeholder has been cleared. */
  datatype Colour = HintGrey | TextDark

  /** The handler bound to the Send button's command. */
  datatype Command = StartChatCommand | SendMessageCommand

  datatype State = State(
    input: string,
    colour: Colour,
    chatStarted: bool,
    send: Command,
    transcript: seq<Segment>)

  /** After create_modern_input_area and __init__: the field holds the grey
      placeholder, no chat has started, Send runs start_chat, nothing is shown. */
  const Initial: State := State(Placeholder, HintGrey, false, StartChatCommand, [])

  /** The guard of start_chat and send_message: a non-empty message that is not
      the placeholder. */
  predicate Submittable(message: string)
  {
    message != "" && message != Placeholder
  }

  /** clear_placeholder, bound to <FocusIn>. */
  function ClearPlaceholder(s: State): State
  {
    if s.input == Placeholder then s.(input := "", colour := TextDark) else s
  }

  /** add_placeholder, bound to <FocusOut>. */
  function AddPlaceholder(s: State): State
  {
    if s.input == "" then s.(input := Placeholder, colour := HintGrey) else s
  }

  /** The user editing the Entry widget; its text becomes `text`. */
  function Edit(s: State, text: string): State
  {
    s.(input := text)
  }

  /** generate_bot_response: the reply to `message`, appended as a bot message. */
  function GenerateBotResponse(segs: seq<Segment>, message: string, stamp: string): seq<Segment>
  {
    AddMessage(segs, Bot, Replies.Respond(message), stamp)
  }

  /** transition_to_chat: create_chat_area replaces the welcome screen with a new,
      empty Text widget; the welcome, the question, the first message and the
      reply to it are appended to it in the order of their delays (0, 600, 1200
      and 2000 ms), and Send is rebound to send_message. */
  function TransitionToChat(s: State, first: string, t0: string, t1: string, t2: string, t3: string): State
  {
    var segs := AddMessage([], Bot, Welcome, t0);
    var segs := AddMessage(segs, Bot, HowCanIHelp, t1);
    var segs := AddMessage(segs, User, first, t2);
    var segs := GenerateBotResponse(segs, first, t3);
    s.(transcript := segs, send := SendMessageCommand)
  }

  /** start_chat, bound to the Send button at first and to <Return> for good.
      It leaves the field's text where it is. */
  function StartChat(s: State, t0: string, t1: string, t2: string, t3: string): State
  {
    if Submittable(s.input) && !s.chatStarted
    then TransitionToChat(s.(chatStarted := true), s.input, t0, t1, t2, t3)
    else s
  }

  /** send_message: the user's message, the field cleared, then (1000 ms later)
      the reply. */
  function SendMessage(s: State, t0: string, t1: string): State
  {
    if Submittable(s.input)
    then s.(transcript := GenerateBotResponse(AddMessage(s.transcript, User, s.input, t0), s.input, t1), input := "")
    else s
  }

  /** A click on Send runs whichever handler the button is bound to. */
  function PressSend(s: State, t0: string, t1: string, t2: string, t3: string): State
  {
    match s.send
    case StartChatCommand => StartChat(s, t0, t1, t2, t3)
    case SendMessageCommand => SendMessage(s, t0, t1)
  }

  /** The events the window reacts to; a send event carries the clock readings
      of the appends it may cause. */
  datatype Event =
    | FocusIn
    | FocusOut
    | Typed(text: string)
    | SendClicked(t0: string, t1: string, t2: string, t3: string)
    | ReturnPressed(t0: string, t1: string, t2: string, t3: string)

  function Step(s: State, ev: Event): State
  {
    match ev
    case FocusIn => ClearPlaceholder(s)
    case FocusOut => AddPlaceholder(s)
    case Typed(text) => Edit(s, text)
    case SendClicked(t0, t1, t2, t3) => PressSend(s, t0, t1, t2, t3)
    case ReturnPressed(t0, t1, t2, t3) => StartChat(s, t0, t1, t2, t3)
  }

  function Run(s: State, evs: seq<Event>): State
    decreases |evs|
  {
    if evs == [] then s else Run(Step(s, evs[0]), evs[1..])
  }

  /** How many events of `evs`, run from `s`, start the chat. */
  function Transitions(s: State, evs: seq<Event>): nat
    decreases |evs|
  {
    if evs == [] then 0
    else (if !s.chatStarted && Step(s, evs[0]).chatStarted then 1 else 0) + Transitions(Step(s, evs[0]), evs[1..])
  }

  // ----- The invariant -----

  /** Entries that alternate between a user message and the bot's answer to it,
      `reply` choosing the answer. */
  predicate Alternates(es: seq<Entry>, reply: string -> string)
    decreases |es|
  {
    es == [] ||
    (2 <= |es| && es[0].speaker == User && es[1].speaker == Bot &&
     es[1].message == reply(es[0].message) && Alternates(es[2..], reply))
  }

  /** After the opening, the conversation is a sequence of user messages each
      followed by the bot's reply to it. */
  predicate Exchanges(es: seq<Entry>)
  {
    Alternates(es, Replies.Respond)
  }

  /** The conversation shown once the chat has started. */
  predicate Conversation(es: seq<Entry>)
  {
    4 <= |es| &&
    es[0].speaker == Bot && es[0].message == Welcome &&
    es[1].speaker == Bot && es[1].message == HowCanIHelp &&
    Exchanges(es[2..])
  }

  /** What every reachable state satisfies: the transcript reads back as bubble and
      timestamp pairs; Send is bound to send_message exactly when the chat has
      started; before that nothing is shown, after it the transcript is the
      opening followed by exchanges. */
  predicate Valid(s: State)
  {
    Parse(s.transcript).Some? &&
    (s.chatStarted <==> s.send == SendMessageCommand) &&
    (if s.chatStarted then Conversation(Parse(s.transcript).value) else s.transcript == [])
  }

  // ----- Lemmas -----

  lemma InitialValid()
    ensures Valid(Initial)
  {
  }

  lemma {:induction false} AlternatesAppend(es: seq<Entry>, reply: string -> string, message: string, t0: string, t1: string)
    requires Alternates(es, reply)
    ensures Alternates(es + [Entry(User, message, t0), Entry(Bot, reply(message), t1)], reply)
    decreases |es|
  {
    var tail := [Entry(User, message, t0), Entry(Bot, reply(message), t1)];
    if es == [] {
      assert es + tail == tail;
      assert tail[2..] == [];
    } else {
      var r := es + tail;
      assert es[1].message == reply(es[0].message) && Alternates(es[2..], reply);
      AlternatesAppend(es[2..], reply, message, t0, t1);
      assert r[2..] == es[2..] + tail;
      assert r[0] == es[0] && r[1] == es[1];
    }
  }

  /** A user message followed by its reply extends the exchanges. */
  lemma ExchangesAppend(es: seq<Entry>, message: string, t0: string, t1: string)
    requires Exchanges(es)
    ensures Exchanges(es + [Entry(User, message, t0), Entry(Bot, Replies.Respond(message), t1)])
  {
    AlternatesAppend(es, Replies.Respond, message, t0, t1);
  }

  /** The four appends of the opening read back as four entries, whatever the
      reply to the first message is. */
  lemma OpeningParses(first: string, reply: string, t0: string, t1: string, t2: string, t3: string)
    ensures Parse(AddMessage(AddMessage(AddMessage(AddMessage([], Bot, Welcome, t0),
      Bot, HowCanIHelp, t1), User, first, t2), Bot, reply, t3)) == Some([
        Entry(Bot, Welcome, t0), Entry(Bot, HowCanIHelp, t1),
        Entry(User, first, t2), Entry(Bot, reply, t3)])
  {
    var segs0: seq<Segment> := [];
    AddMessageParses(segs0, Bot, Welcome, t0);
    var segs1 := AddMessage(segs0, Bot, Welcome, t0);
    AddMessageParses(segs1, Bot, HowCanIHelp, t1);
    var segs2 := AddMessage(segs1, Bot, HowCanIHelp, t1);
    AddMessageParses(segs2, User, first, t2);
    var segs3 := AddMessage(segs2, User, first, t2);
    AddMessageParses(segs3, Bot, reply, t3);
    var a, b, c, d := Entry(Bot, Welcome, t0), Entry(Bot, HowCanIHelp, t1),
      Entry(User, first, t2), Entry(Bot, reply, t3);
    assert [] + [a] + [b] + [c] + [d] == [a, b, c, d];
  }

  /** The transition shows, in this order and on a new transcript, the welcome,
      the question, the user's first message and the reply to it. */
  lemma TransitionToChatShows(s: State, first: string, t0: string, t1: string, t2: string, t3: string)
    ensures var r := TransitionToChat(s, first, t0, t1, t2, t3);
      Parse(r.transcript) == Some([
        Entry(Bot, Welcome, t0), Entry(Bot, HowCanIHelp, t1),
        Entry(User, first, t2), Entry(Bot, Replies.Respond(first), t3)])
      && r.send == SendMessageCommand
      && r.input == s.input && r.colour == s.colour && r.chatStarted == s.chatStarted
  {
    OpeningParses(first, Replies.Respond(first), t0, t1, t2, t3);
  }

  /** start_chat does nothing to a field that is empty or shows the placeholder,
      nor once the chat has started. */
  lemma StartChatIgnored(s: State, t0: string, t1: string, t2: string, t3: string)
    requires !Submittable(s.input) || s.chatStarted
    ensures StartChat(s, t0, t1, t2, t3) == s
  {
  }

  /** Otherwise it starts the chat, rebinds Send and shows the opening exchange,
      keeping the typed text in the field. */
  lemma StartChatStarts(s: State, t0: string, t1: string, t2: string, t3: string)
    requires Valid(s) && Submittable(s.input) && !s.chatStarted
    ensures var r := StartChat(s, t0, t1, t2, t3);
      r.chatStarted && r.send == SendMessageCommand && r.input == s.input &&
      Parse(r.transcript) == Some([
        Entry(Bot, Welcome, t0), Entry(Bot, HowCanIHelp, t1),
        Entry(User, s.input, t2), Entry(Bot, Replies.Respond(s.input), t3)])
  {
    TransitionToChatShows(s.(chatStarted := true), s.input, t0, t1, t2, t3);
  }

  /** send_message on a submittable field appends exactly the user's message and
      then the reply to it, and empties the field; otherwise it does nothing. */
  lemma SendMessageSends(s: State, t0: string, t1: string)
    requires Parse(s.transcript).Some?
    ensures var r := SendMessage(s, t0, t1);
      if Submittable(s.input) then
        Parse(r.transcript) == Some(Parse(s.transcript).value + [
          Entry(User, s.input, t0), Entry(Bot, Replies.Respond(s.input), t1)])
        && r == s.(transcript := r.transcript, input := "")
      else r == s
  {
    if Submittable(s.input) {
      var segs := AddMessage(s.transcript, User, s.input, t0);
      AddMessageParses(s.transcript, User, s.input, t0);
      AddMessageParses(segs, Bot, Replies.Respond(s.input), t1);
      var es := Parse(s.transcript).value;
      var u, b := Entry(User, s.input, t0), Entry(Bot, Replies.Respond(s.input), t1);
      assert es + [u] + [b] == es + [u, b];
    }
  }

  /** Focusing the field twice clears it once; leaving it twice fills it once. */
  lemma PlaceholderIdempotent(s: State)
    ensures ClearPlaceholder(ClearPlaceholder(s)) == ClearPlaceholder(s)
    ensures AddPlaceholder(AddPlaceholder(s)) == AddPlaceholder(s)
  {
  }

  /** Clearing only ever empties a field that shows exactly the placeholder, and
      filling only ever fills an empty one; focusing in and out again without
      typing brings the placeholder back. */
  lemma PlaceholderGuards(s: State)
    ensures ClearPlaceholder(s).input == (if s.input == Placeholder then "" else s.input)
    ensures AddPlaceholder(s).input == (if s.input == "" then Placeholder else s.input)
    ensures s.input == Placeholder ==> AddPlaceholder(ClearPlaceholder(s)) == s.(colour := HintGrey)
    ensures ClearPlaceholder(s).chatStarted == s.chatStarted && ClearPlaceholder(s).transcript == s.transcript
    ensures AddPlaceholder(s).chatStarted == s.chatStarted && AddPlaceholder(s).transcript == s.transcript
  {
  }

  /** Every event keeps the invariant. */
  lemma StepValid(s: State, ev: Event)
    requires Valid(s)
    ensures Valid(Step(s, ev))
  {
    match ev
    case FocusIn =>
    case FocusOut =>
    case Typed(_) =>
    case SendClicked(t0, t1, t2, t3) =>
      if s.chatStarted {
        SendStepValid(s, t0, t1);
      } else {
        StartChatValid(s, t0, t1, t2, t3);
      }
    case ReturnPressed(t0, t1, t2, t3) =>
      StartChatValid(s, t0, t1, t2, t3);
  }

  lemma StartChatValid(s: State, t0: string, t1: string, t2: string, t3: string)
    requires Valid(s)
    ensures Valid(StartChat(s, t0, t1, t2, t3))
  {
    if Submittable(s.input) && !s.chatStarted {
      StartChatStarts(s, t0, t1, t2, t3);
      var es := Parse(StartChat(s, t0, t1, t2, t3).transcript).value;
      ExchangesAppend([], s.input, t2, t3);
      assert es[2..] == [] + [Entry(User, s.input, t2), Entry(Bot, Replies.Respond(s.input), t3)];
    }
  }

  lemma SendStepValid(s: State, t0: string, t1: string)
    requires Valid(s) && s.chatStarted
    ensures Valid(SendMessage(s, t0, t1))
  {
    SendMessageSends(s, t0, t1);
    if Submittable(s.input) {
      ConversationAppend(Parse(s.transcript).value, s.input, t0, t1);
    }
  }

  /** A user message followed by its reply keeps a conversation a conversation. */
  lemma ConversationAppend(es: seq<Entry>, message: string, t0: string, t1: string)
    requires Conversation(es)
    ensures Conversation(es + [Entry(User, message, t0), Entry(Bot, Replies.Respond(message), t1)])
  {
    var tail := [Entry(User, message, t0), Entry(Bot, Replies.Respond(message), t1)];
    ExchangesAppend(es[2..], message, t0, t1);
    assert (es + tail)[2..] == es[2..] + tail;
  }

  /** Every run of events from a valid state ends in a valid state; in particular
      every state the window reaches from its initial state is valid. */
  lemma {:induction false} RunValid(s: State, evs: seq<Event>)
    requires Valid(s)
    ensures Valid(Run(s, evs))
    decreases |evs|
  {
    if evs != [] {
      StepValid(s, evs[0]);
      RunValid(Step(s, evs[0]), evs[1..]);
    }
  }

  /** No event takes back the start of the chat, and from a valid state none
      removes or rewrites what the transcript already holds (the transition
      replaces the transcript, but it is still empty then). */
  lemma StepMonotone(s: State, ev: Event)
    ensures s.chatStarted ==> Step(s, ev).chatStarted
    ensures Valid(s) ==> s.transcript <= Step(s, ev).transcript
  {
    if Valid(s) && !s.chatStarted {
      assert s.transcript == [];
    }
  }

  lemma {:induction false} RunMonotone(s: State, evs: seq<Event>)
    ensures s.chatStarted ==> Run(s, evs).chatStarted
    ensures Valid(s) ==> s.transcript <= Run(s, evs).transcript
    decreases |evs|
  {
    if evs != [] {
      StepMonotone(s, evs[0]);
      if Valid(s) {
        StepValid(s, evs[0]);
      }
      RunMonotone(Step(s, evs[0]), evs[1..]);
    }
  }

  /** The chat is started at most once in any run, and never again once it has
      started. */
  lemma {:induction false} TransitionsAtMostOnce(s: State, evs: seq<Event>)
    ensures Transitions(s, evs) <= 1
    ensures s.chatStarted ==> Transitions(s, evs) == 0
    decreases |evs|
  {
    if evs != [] {
      var next := Step(s, evs[0]);
      StepMonotone(s, evs[0]);
      TransitionsAtMostOnce(next, evs[1..]);
    }
  }

  /** Once the chat has started, <Return> does nothing (it is still bound to
      start_chat) and Send runs send_message. */
  lemma AfterStart(s: State, t0: string, t1: string, t2: string, t3: string)
    requires Valid(s) && s.chatStarted
    ensures Step(s, ReturnPressed(t0, t1, t2, t3)) == s
    ensures Step(s, SendClicked(t0, t1, t2, t3)) == SendMessage(s, t0, t1)
  {
    StartedStep(s, t0, t1, t2, t3);
  }

  lemma StartedStep(s: State, t0: string, t1: string, t2: string, t3: string)
    requires s.chatStarted && s.send == SendMessageCommand
    ensures Step(s, ReturnPressed(t0, t1, t2, t3)) == s
    ensures Step(s, SendClicked(t0, t1, t2, t3)) == SendMessage(s, t0, t1)
  {
  }
}
