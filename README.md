# Greene Genie chat window — a Dafny model of its behaviour

Greene Genie is a borderless desktop chat popup written with tkinter. The user types a
message into a field that shows the placeholder "Type your message here..." when empty
and unfocused. Send, or Return, starts the chat. The welcome screen is then replaced by a
transcript: the bot greets, asks "How can I help you today?", repeats the user's message
as a user bubble and answers with a canned reply. The reply is chosen by keyword
matching. Later clicks on Send add the user's message and the reply to it.

This project models four parts of `wave_greeter.py`:

- `replies.dfy`, module `Replies`: the reply selector of `generate_bot_response`. The
  model has a `Lower` function for `str.lower()`, a substring test, the ordered table of
  six keyword groups (greeting, help, menu, booking, thanks, farewell) with their replies,
  and the fallback reply. `FirstMatch` finds the first matching group and `Respond`
  gives the reply. Choosing the reply is kept apart from appending it to the transcript.
- `transcript.dfy`, module `Transcript`: the Tk Text buffer that `add_bot_message` and
  `add_user_message` append to. The buffer is a sequence of tagged segments. Each call
  appends a bubble segment `"\n" + message + "\n"` and then a timestamp segment
  `stamp + "\n"`. `Parse` reads a buffer back as entries, and `RenderAll` is its inverse.
- `session.dfy`, module `Session`: the state that the event handlers change. That is:
  - the field's text and colour;
  - `chat_started`;
  - the command bound to Send;
  - the transcript.

  Each handler is a pure function on a `State`. An `Event` datatype and `Run` describe
  any sequence of focus, typing, Send and Return events. `Valid` is an invariant that
  every reachable state keeps.
- `chat_window.dfy`, module `ChatWindow`: class `GreeneGenieChat`. Its fields are
  updated in place by methods named after the source's handlers. Each method is proved
  to produce exactly the state given by the matching `Session` function. The methods the
  user can trigger also keep `Valid`.
- `rounded_entry.dfy`, module `RoundedEntry`: `create_rounded_rectangle`, the 24
  coordinates (12 points) of the message field's rounded outline.

Behaviours of the code that the model keeps as written:

- `start_chat` does not clear the field. The first message stays there after the
  transition.
- `<Return>` stays bound to `start_chat` for good; only the Send button is rebound. So
  once the chat has started, Return does nothing (`Session.AfterStart`).
- Phrases match as substrings. "Which drink?" contains "hi", so it gets the greeting and
  not the menu reply (`Replies.WhichDrinkIsGreeted`).
- The reply strings end in the characters the file actually holds. Those are UTF-8
  emoji bytes decoded as Mac Roman: for example, "today? " is followed by U+F8FF, U+00FC,
  U+00F2 and U+00E4 rather than by U+1F60A.

Timestamps (`datetime.now().strftime("%H:%M")`) are parameters of the operations that
append. Each `root.after` callback is performed at once, in the order of its delay.

## Model

| member | source | states |
|---|---|---|
| `Replies.Lower` | wave_greeter.py:307 | the lower-cased string is never shorter than the message (U+0130 lowers to two characters); see LowerIdempotent, LowerAppend and the Left out line |
| `Replies.Respond` | wave_greeter.py:306-322 | the reply is the reply of the first group with a phrase occurring in the lower-cased message, or the fallback when no group matches; RespondIsFirstMatchingRule and RespondFallback state both directions |
| `Replies.FirstMatch` | wave_greeter.py:309-322 | returns the position of the first group that has a phrase occurring in the text: every earlier group has none, that group has one, and the table length means no group matches |
| `Replies.RespondIsFirstMatchingRule` | wave_greeter.py:306-320 | the reply equals group k's reply if and only if group k is the first group, in table order, with a phrase occurring in the lower-cased message |
| `Replies.RespondFallback` | wave_greeter.py:321-322 | the fallback reply is given if and only if no phrase of any group occurs in the lower-cased message |
| `Replies.RepliesDistinct` | wave_greeter.py:310-322 | the six replies and the fallback are pairwise different, so a reply identifies the branch that produced it |
| `Replies.RespondIgnoresCase` | wave_greeter.py:307 | a message and its lower-cased form get the same reply |
| `Replies.LowerIdempotent` | wave_greeter.py:307 | lower-casing twice gives the same string as lower-casing once |
| `Replies.LowerAppend` | wave_greeter.py:307 | the model's lower-casing works character by character: lowering a concatenation concatenates the lowered parts |
| `Replies.ContainingHiIsGreeting` | wave_greeter.py:309 | any message whose lowered form contains "hi" anywhere, even inside a word, gets the greeting reply |
| `Replies.GreetingBeatsHelp` | wave_greeter.py:309-312 | "hello, I need help" matches the help group too, yet it gets the greeting reply because the greeting group comes first |
| `Replies.WhichDrinkIsGreeted` | wave_greeter.py:309-314 | "Which drink?" matches the menu group, yet it gets the greeting reply through the "hi" inside "which" |
| `Transcript.AddMessage` | wave_greeter.py:290-304 | an add call grows the buffer by exactly two segments, a bubble tagged for the speaker and then a timestamp segment, and leaves every earlier segment as it was |
| `Transcript.AddMessageParses` | wave_greeter.py:290-304 | on a well-formed buffer, an add call adds exactly one entry (speaker, message, timestamp) at the end of what the buffer shows |
| `Transcript.AddMessageText` | wave_greeter.py:293-294 | the buffer's characters grow by "\n", the message, "\n", the timestamp and "\n", and the earlier text is a prefix of the new text |
| `Transcript.ParseRenderAll` | wave_greeter.py:293-302 | reading back the segments that the add calls write gives back exactly the entries written |
| `Transcript.RenderAllParse` | wave_greeter.py:293-302 | a buffer that reads back as entries is exactly the rendering of those entries |
| `Session.ClearPlaceholder` | wave_greeter.py:207-210 | clear_placeholder as a state function; its properties are PlaceholderGuards and PlaceholderIdempotent |
| `Session.AddPlaceholder` | wave_greeter.py:212-215 | add_placeholder as a state function; its properties are PlaceholderGuards and PlaceholderIdempotent |
| `Session.StartChat` | wave_greeter.py:217-223 | start_chat as a state function; its properties are StartChatIgnored, StartChatStarts and TransitionsAtMostOnce |
| `Session.TransitionToChat` | wave_greeter.py:225-253 | transition_to_chat as a state function; its property is TransitionToChatShows |
| `Session.SendMessage` | wave_greeter.py:282-288 | send_message as a state function; its property is SendMessageSends |
| `Session.GenerateBotResponse` | wave_greeter.py:306-324 | generate_bot_response on the transcript: appends Replies.Respond of the message as a bot message; its properties are RespondIsFirstMatchingRule, RespondFallback and AddMessageParses |
| `Session.PressSend` | wave_greeter.py:195-196 | a click on Send runs start_chat while the button is bound to it and send_message after the rebind of line 234; its properties are StepValid and AfterStart |
| `Session.Step` | wave_greeter.py:189-196 | the event bindings: FocusIn runs clear_placeholder, FocusOut add_placeholder, Return start_chat for good, and Send the bound command; its properties are StepValid, StepMonotone and AfterStart |
| `Session.PlaceholderGuards` | wave_greeter.py:207-215 | clear_placeholder empties the field only when it holds exactly the placeholder; add_placeholder fills it only when it is empty; focusing in and then out without typing brings the placeholder back; neither touches the chat state |
| `Session.PlaceholderIdempotent` | wave_greeter.py:207-215 | clearing twice is the same as clearing once, and filling twice is the same as filling once |
| `Session.StartChatIgnored` | wave_greeter.py:217-223 | start_chat changes nothing when the field is empty, shows the placeholder, or the chat has already started |
| `Session.StartChatStarts` | wave_greeter.py:217-234 | otherwise start_chat sets chat_started, rebinds Send to send_message, keeps the field's text, and the transcript shows the welcome, the question, the user's message and the reply to it, in that order |
| `Session.TransitionToChatShows` | wave_greeter.py:225-253 | the transition builds a new, empty transcript (create_chat_area), whose read-back is then exactly those four entries, and rebinds Send; the field and the flag are unchanged |
| `Session.SendMessageSends` | wave_greeter.py:282-288 | for a submittable field, send_message appends exactly the user's message and then the reply to it, empties the field and changes nothing else; for any other field it changes nothing |
| `Session.InitialValid` | wave_greeter.py:186-205 | the initial state (placeholder shown, no chat as `chat_started = False` at line 91 of the same file sets it, Send bound to start_chat, empty transcript) satisfies the invariant |
| `Session.StepValid` | wave_greeter.py:207-234 | every focus, typing, Send or Return event keeps the invariant: the transcript reads back as entries; Send is bound to send_message exactly when the chat has started; before the start nothing is shown; after it the transcript is the welcome, the question, and then user messages each followed by the reply to it |
| `Session.RunValid` | wave_greeter.py:189-234 | every sequence of events from a valid state, and so every state reachable from the initial one, satisfies the invariant |
| `Session.StepMonotone` | wave_greeter.py:217-304 | no event resets chat_started, and from a valid state every event leaves the old transcript as a prefix of the new one |
| `Session.RunMonotone` | wave_greeter.py:217-304 | over any sequence of events the chat stays started, and from a valid state the transcript only grows at its end |
| `Session.TransitionsAtMostOnce` | wave_greeter.py:217-223 | in any sequence of events the chat is started at most once, and never again once it has started |
| `Session.AfterStart` | wave_greeter.py:189-234 | once the chat has started, Return (still bound to start_chat) changes nothing and Send runs send_message |
| `ChatWindow.GreeneGenieChat.constructor` | wave_greeter.py:186-191 | the new window's field holds the placeholder in grey, chat_started is false (set at line 91 of the same file), Send runs start_chat, and the transcript is empty |
| `ChatWindow.GreeneGenieChat.ClearPlaceholder` | wave_greeter.py:207-210 | updates the field as Session.ClearPlaceholder does and keeps the invariant |
| `ChatWindow.GreeneGenieChat.AddPlaceholder` | wave_greeter.py:212-215 | updates the field as Session.AddPlaceholder does and keeps the invariant |
| `ChatWindow.GreeneGenieChat.AddBotMessage` | wave_greeter.py:290-296 | appends the bot bubble segment and the timestamp segment to the transcript and changes nothing else |
| `ChatWindow.GreeneGenieChat.AddUserMessage` | wave_greeter.py:298-304 | appends the user bubble segment and the timestamp segment to the transcript and changes nothing else |
| `ChatWindow.GreeneGenieChat.GenerateBotResponse` | wave_greeter.py:306-324 | appends the reply chosen by Replies.Respond as a bot message and changes nothing else |
| `ChatWindow.GreeneGenieChat.TransitionToChat` | wave_greeter.py:225-234 | performs the four appends in delay order and rebinds Send, as Session.TransitionToChat does |
| `ChatWindow.GreeneGenieChat.StartChat` | wave_greeter.py:217-223 | changes the state as Session.StartChat does and keeps the invariant |
| `ChatWindow.GreeneGenieChat.SendMessage` | wave_greeter.py:282-288 | from a started chat (Send is bound to it only after line 234), changes the state as Session.SendMessage does and keeps the invariant |
| `ChatWindow.GreeneGenieChat.PressSend` | wave_greeter.py:194-205 | a click on Send runs whichever of start_chat and send_message the button is bound to, and keeps the invariant |
| `RoundedEntry.RoundedRectangle` | wave_greeter.py:32-47 | the list has 24 coordinates, and each of its 12 points has its x equal to x1 or x2, or its y equal to y1 or y2 (on a side of the box when the radius is in range, see OutlineInBox) |
| `RoundedEntry.OutlineIsAxisParallel` | wave_greeter.py:33-46 | the closed outline steps only horizontally or vertically from each point to the next, the last joining the first, and its corners are points 2, 5, 8 and 11 |
| `RoundedEntry.OutlineInBox` | wave_greeter.py:33-46 | with 0 <= radius and the radius at most half of each side, every point lies in the box and the points go once round it in order |
| `RoundedEntry.OutlineTranslates` | wave_greeter.py:33-46 | shifting the box shifts every point by the same offset |
| `RoundedEntry.InputOutline` | wave_greeter.py:21-23 | for the 207 by 46 message field (box (1,1)-(206,45), radius 22), the two points on each short side coincide at height 23, and all points lie in the box |

## Left out

- Widget construction, packing, colours other than the field's two foregrounds, fonts, scrollbars, the header, the welcome-screen labels and `root.geometry` (wave_greeter.py:14-31, 50-92, 104-205, 236-281): layout with no behaviour beyond the state modelled here. This includes destroying the welcome frame and building the chat area in `transition_to_chat`.
- `play_notification_sound`: a detached thread that calls `winsound.Beep`, which is concurrency and an operating-system call.
- `animate_entrance` / `slide_in`: the window position comes from floating-point easing (`1 - (1 - progress) ** 3`), paced by `root.after` timers.
- The `root.after` delays in `transition_to_chat` and `send_message`: the model appends each message at once, in delay order. In the program, events that arrive during the delays can interleave with the pending appends. For example, Send clicked within two seconds of the start puts its user message before the first reply. The model does not capture that interleaving.
- `datetime.now()`: each timestamp is a string parameter.
- The PIL logo loading and its file path, `close_app` and `run` (the Tk main loop).
- `Replies.Lower`: it follows Python's `str.lower()` for ASCII and Latin-1 capitals, U+0130 and U+212A, the only characters whose lower-case form contains an ASCII letter. Every other character is left unchanged. Python's `str.lower()` is also not purely character by character: a capital sigma at the end of a word becomes final sigma (U+03C2), which the model cannot express. All the phrases are ASCII, so the choice of reply is the same as Python's, but the lowered string itself can differ outside those characters.
- The file's non-ASCII text is mojibake: UTF-8 emoji and bullets that were decoded as Mac Roman and saved again. The replies and the welcome are modelled with the characters the file holds, not the emoji they were meant to be.
- Default arguments: `radius=25` of `create_rounded_rectangle` (wave_greeter.py:32) and the width 250 and height 45 that `RoundedEntry` falls back on (wave_greeter.py:21-22, 28-30). The only use passes width 207 and height 46 (wave_greeter.py:183) and radius 22, so the model takes these as explicit parameters and constants.
- `create_polygon` itself, with `smooth=True` (Tk's spline through the points) and the style keywords. The model stops at the coordinate list that is passed to it.
- Editing the Entry widget: the `Edit` method replaces the whole field text. Cursor positions and partial edits are not modelled. `insert(0, ...)` is only ever applied to an empty field, where it gives the inserted text.
- The Text widget's NORMAL/DISABLED toggling and `see(tk.END)` scrolling around each append.
- Calling the add methods before the chat has started: the model allows it. In the program, `chat_display` does not exist until `transition_to_chat`, and only handlers reached after that point call it.
- build_exe.py (PyInstaller invocation) and test_greeter.py (environment probes): build and display plumbing with no logic in it.
