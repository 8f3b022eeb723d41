/** The GreeneGenieChat object: the fields its event handlers update in place and
    the handlers themselves. Each method says what the new state is in terms of
    the matching function of module Session, where the properties of the handlers
    are proved; the handlers that can be triggered by the user also keep
    Session.Valid. */
module ChatWindow {
  import opened Transcript
  import Replies
  import Session

  class GreeneGenieChat {
    /** The text of the Entry widget `message_input`. */
    var input: string
    /** Its foreground colour. */
    var inputColour: Session.Colour
    var chatStarted: bool
    /** The command the Send button `send_btn` is configured with. */
    var sendCommand: Session.Command
    /** The contents of the Text widget `chat_display`. */
    var transcript: seq<Segment>

    function Snapshot(): Session.State
      reads this
    {
      Session.State(input, inputColour, chatStarted, sendCommand, transcript)
    }

    ghost predicate Valid()
      reads this
    {
      Session.Valid(Snapshot())
    }

    /** __init__ as far as this state goes: the placeholder in grey, no chat. */
    constructor ()
      ensures Snapshot() == Session.Initial && Valid()
    {
      input := Session.Placeholder;
      inputColour := Session.HintGrey;
      chatStarted := false;
      sendCommand := Session.StartChatCommand;
      transcript := [];
    }

    method ClearPlaceholder()
      requires Valid()
      modifies this
      ensures Valid()
      ensures Snapshot() == Session.ClearPlaceholder(old(Snapshot()))
    {
      if input == Session.Placeholder {
        input := "";
        inputColour := Session.TextDark;
      }
    }

    method AddPlaceholder()
      requires Valid()
      modifies this
      ensures Valid()
      ensures Snapshot() == Session.AddPlaceholder(old(Snapshot()))
    {
      if input == "" {
        input := Session.Placeholder;
        inputColour := Session.HintGrey;
      }
    }

    /** The user typing into the field. */
    method Edit(text: string)
      requires Valid()
      modifies this
      ensures Valid()
      ensures Snapshot() == Session.Edit(old(Snapshot()), text)
    {
      input := text;
    }

    method AddBotMessage(message: string, stamp: string)
      modifies this
      ensures transcript == AddMessage(old(transcript), Bot, message, stamp)
      ensures Snapshot() == old(Snapshot()).(transcript := transcript)
    {
      transcript := transcript + [Segment("\n" + message + "\n", BotBubble)];
      transcript := transcript + [Segment(stamp + "\n", TimestampTag)];
    }

    method AddUserMessage(message: string, stamp: string)
      modifies this
      ensures transcript == AddMessage(old(transcript), User, message, stamp)
      ensures Snapshot() == old(Snapshot()).(transcript := transcript)
    {
      transcript := transcript + [Segment("\n" + message + "\n", UserBubble)];
      transcript := transcript + [Segment(stamp + "\n", TimestampTag)];
    }

    /** Chooses the reply to `userMessage` and shows it. */
    method GenerateBotResponse(userMessage: string, stamp: string)
      modifies this
      ensures transcript == Session.GenerateBotResponse(old(transcript), userMessage, stamp)
      ensures Snapshot() == old(Snapshot()).(transcript := transcript)
    {
      var response := Replies.Respond(userMessage);
      AddBotMessage(response, stamp);
    }

    /** Builds the chat area with an empty transcript, then shows the opening. */
    method TransitionToChat(firstMessage: string, t0: string, t1: string, t2: string, t3: string)
      modifies this
      ensures Snapshot() == Session.TransitionToChat(old(Snapshot()), firstMessage, t0, t1, t2, t3)
    {
      transcript := [];
      AddBotMessage(Session.Welcome, t0);
      AddBotMessage(Session.HowCanIHelp, t1);
      AddUserMessage(firstMessage, t2);
      GenerateBotResponse(firstMessage, t3);
      sendCommand := Session.SendMessageCommand;
    }

    method StartChat(t0: string, t1: string, t2: string, t3: string)
      requires Valid()
      modifies this
      ensures Valid()
      ensures Snapshot() == Session.StartChat(old(Snapshot()), t0, t1, t2, t3)
    {
      Session.StartChatValid(Snapshot(), t0, t1, t2, t3);
      var message := input;
      if message != "" && message != Session.Placeholder {
        if !chatStarted {
          chatStarted := true;
          TransitionToChat(message, t0, t1, t2, t3);
        }
      }
    }

    /** Reachable only once Send has been rebound to it, after the start. */
    method SendMessage(t0: string, t1: string)
      requires Valid() && chatStarted
      modifies this
      ensures Valid()
      ensures Snapshot() == Session.SendMessage(old(Snapshot()), t0, t1)
    {
      Session.SendStepValid(Snapshot(), t0, t1);
      var message := input;
      if message != "" && message != Session.Placeholder {
        AddUserMessage(message, t0);
        input := "";
        GenerateBotResponse(message, t1);
      }
    }

    /** A click on the Send button. */
    method PressSend(t0: string, t1: string, t2: string, t3: string)
      requires Valid()
      modifies this
      ensures Valid()
      ensures Snapshot() == Session.PressSend(old(Snapshot()), t0, t1, t2, t3)
    {
      Session.StepValid(Snapshot(), Session.SendClicked(t0, t1, t2, t3));
      match sendCommand
      case StartChatCommand => StartChat(t0, t1, t2, t3);
      case SendMessageCommand => SendMessage(t0, t1);
    }
  }
}
