/** The canned-reply selector of the Greene Genie chat window
    (GreeneGenieChat.generate_bot_response): the message is lower-cased and an
    ordered table of keyword groups is tried in turn; the first group one of whose
    phrases occurs in the lowered message picks the reply, and a fallback reply
    answers everything else. The choice of reply is a pure function here; appending
    it to the transcript is done by the chat window. */
module Replies {

  /** Python's str.lower() for one character, as far as the model follows it:
      ASCII and Latin-1 capitals, U+0130 (capital I with dot, lowered to "i" and a
      combining dot above) and U+212A (Kelvin sign, lowered to "k"). Every other
      character is kept as it is. */
  function LowerChar(c: char): (s: string)
  {
    if 'A' <= c <= 'Z' then [(c as int + 32) as char]
    else if '\U{00C0}' <= c <= '\U{00DE}' && c != '\U{00D7}' then [(c as int + 32) as char]
    else if c == '\U{0130}' then "i\U{0307}"
    else if c == '\U{212A}' then "k"
    else [c]
  }

  /** user_message.lower() */
  function Lower(s: string): (r: string)
    ensures |r| >= |s|
  {
    if s == [] then [] else LowerChar(s[0]) + Lower(s[1..])
  }

  /** Python's `phrase in text` on strings: phrase is a contiguous substring. */
  predicate Occurs(phrase: string, text: string)
  {
    exists i :: 0 <= i <= |text| && phrase <= text[i..]
  }

  /** One branch of the if/elif chain: its keyword list and the reply it gives. */
  datatype Rule = Rule(phrases: seq<string>, reply: string)

  /** `any(word in text for word in rule.phrases)` */
  predicate Matches(rule: Rule, text: string)
  {
    exists k :: 0 <= k < |rule.phrases| && Occurs(rule.phrases[k], text)
  }

  // The non-ASCII characters at the end of the replies are the ones the source file
  // holds: UTF-8 emoji that were once decoded as Mac Roman and saved again.
  const GreetingReply: string := "Hello! How can I assist you today? \U{F8FF}\U{00FC}\U{00F2}\U{00E4}"
  const HelpReply: string :=
    "I'm here to help! I can assist with:\n\U{201A}\U{00C4}\U{00A2} Restaurant bookings\n\U{201A}\U{00C4}\U{00A2} Menu information\n\U{201A}\U{00C4}\U{00A2} Special events\n\U{201A}\U{00C4}\U{00A2} General inquiries"
  const MenuReply: string :=
    "We have an excellent selection! Would you like information about our food menu or drinks? \U{F8FF}\U{00FC}\U{00E7}\U{03A9}\U{00D4}\U{220F}\U{00E8}\U{F8FF}\U{00FC}\U{00E7}\U{222B}"
  const BookingReply: string :=
    "I'd be happy to help with a reservation! What date and time work best for you? \U{F8FF}\U{00FC}\U{00EC}\U{00D6}"
  const ThanksReply: string := "You're welcome! Is there anything else I can help you with? \U{F8FF}\U{00FC}\U{00F2}\U{00E4}"
  const FarewellReply: string := "Goodbye! Have a wonderful day! Come back anytime! \U{F8FF}\U{00FC}\U{00EB}\U{00E3}"
  const Fallback: string :=
    "That's a great question! Let me help you with that. Could you provide more details? \U{F8FF}\U{00FC}\U{00A7}\U{00EE}"

  /** The keyword groups in the order the if/elif chain tries them: greeting,
      help, menu, booking, thanks and farewell. */
  const Table: seq<Rule> := [
    Rule(["hello", "hi", "hey"], GreetingReply),
    Rule(["help", "assist"], HelpReply),
    Rule(["menu", "food", "drink"], MenuReply),
    Rule(["booking", "reserve", "table"], BookingReply),
    Rule(["thanks", "thank you"], ThanksReply),
    Rule(["bye", "goodbye"], FarewellReply)
  ]

  /** Rule k is the first rule of `rules` that matches `text`. */
  predicate IsFirstMatch(rules: seq<Rule>, text: string, k: int)
  {
    0 <= k < |rules| && Matches(rules[k], text) &&
    forall j :: 0 <= j < k ==> !Matches(rules[j], text)
  }

  /** No rule of `rules` matches `text`. */
  predicate NoMatch(rules: seq<Rule>, text: string)
  {
    forall j :: 0 <= j < |rules| ==> !Matches(rules[j], text)
  }

  /** Index of the first rule matching `text`, or |rules| when none does. */
  function FirstMatch(rules: seq<Rule>, text: string): (k: nat)
    ensures k <= |rules|
    ensures k < |rules| ==> IsFirstMatch(rules, text, k)
    ensures k == |rules| ==> NoMatch(rules, text)
  {
    if rules == [] then 0
    else if Matches(rules[0], text) then 0
    else 1 + FirstMatch(rules[1..], text)
  }

  /** The reply generate_bot_response chooses for `msg`. */
  function Respond(msg: string): (r: string)
    ensures (exists k :: IsFirstMatch(Table, Lower(msg), k) && r == Table[k].reply) ||
            (NoMatch(Table, Lower(msg)) && r == Fallback)
  {
    var k := FirstMatch(Table, Lower(msg));
    if k < |Table| then Table[k].reply else Fallback
  }

  // ----- Lower-casing -----

  lemma {:induction false} LowerAppend(a: string, b: string)
    ensures Lower(a + b) == Lower(a) + Lower(b)
  {
    if a == [] {
      assert a + b == b;
    } else {
      assert (a + b)[0] == a[0];
      assert (a + b)[1..] == a[1..] + b;
      LowerAppend(a[1..], b);
    }
  }

  /** What LowerChar produces is already lower case. */
  lemma LowerCharFixed(c: char)
    ensures Lower(LowerChar(c)) == LowerChar(c)
  {
    var s := LowerChar(c);
    if c == '\U{0130}' {
      assert s == ['i'] + ['\U{0307}'];
      LowerAppend(['i'], ['\U{0307}']);
    } else {
      assert |s| == 1;
      assert Lower(s) == LowerChar(s[0]) + Lower([]);
    }
  }

  /** Lower-casing twice is lower-casing once. */
  lemma {:induction false} LowerIdempotent(s: string)
    ensures Lower(Lower(s)) == Lower(s)
  {
    if s != [] {
      LowerAppend(LowerChar(s[0]), Lower(s[1..]));
      LowerCharFixed(s[0]);
      LowerIdempotent(s[1..]);
    }
  }

  // ----- The reply table -----

  /** The seven possible replies are pairwise different, so a reply tells which
      rule (or the fallback) produced it. */
  lemma RepliesDistinct()
    ensures forall j, k :: 0 <= j < k < |Table| ==> Table[j].reply != Table[k].reply
    ensures forall k :: 0 <= k < |Table| ==> Table[k].reply != Fallback
  {
    assert |GreetingReply| == 39 && |HelpReply| == 122 && |MenuReply| == 101;
    assert |BookingReply| == 83 && |ThanksReply| == 64 && |FarewellReply| == 54;
    assert |Fallback| == 88;
  }

  /** At most one rule is the first match. */
  lemma FirstMatchUnique(rules: seq<Rule>, text: string, j: int, k: int)
    requires IsFirstMatch(rules, text, j) && IsFirstMatch(rules, text, k)
    ensures j == k
  {
  }

  /** The reply is rule k's exactly when rule k is the first group, in table order,
      with a phrase occurring in the lower-cased message. */
  lemma RespondIsFirstMatchingRule(msg: string, k: int)
    requires 0 <= k < |Table|
    ensures Respond(msg) == Table[k].reply <==> IsFirstMatch(Table, Lower(msg), k)
  {
    var i := FirstMatch(Table, Lower(msg));
    RepliesDistinct();
    if IsFirstMatch(Table, Lower(msg), k) && i < |Table| {
      FirstMatchUnique(Table, Lower(msg), i, k);
    }
  }

  /** The fallback is given exactly when no phrase of any group occurs in the
      lower-cased message. */
  lemma RespondFallback(msg: string)
    ensures Respond(msg) == Fallback <==> NoMatch(Table, Lower(msg))
  {
    var i := FirstMatch(Table, Lower(msg));
    RepliesDistinct();
  }

  /** Matching ignores case: a message and its lower-cased form get the same reply. */
  lemma RespondIgnoresCase(msg: string)
    ensures Respond(Lower(msg)) == Respond(msg)
  {
    LowerIdempotent(msg);
  }

  /** Phrases are matched as substrings, not words: any message whose lowered form
      contains "hi" (as "this", "think" or "which" do) gets the greeting reply. */
  lemma ContainingHiIsGreeting(msg: string)
    requires Occurs("hi", Lower(msg))
    ensures Respond(msg) == GreetingReply
  {
    assert Table[0].phrases[1] == "hi";
    assert Matches(Table[0], Lower(msg));
  }

  /** A string none of whose characters LowerChar changes is its own lower-cased form. */
  lemma {:induction false} LowerOfLowercase(s: string)
    requires forall i :: 0 <= i < |s| ==> LowerChar(s[i]) == [s[i]]
    ensures Lower(s) == s
  {
    if s != [] {
      LowerOfLowercase(s[1..]);
    }
  }

  lemma LowerSingle(c: char)
    ensures Lower([c]) == LowerChar(c)
  {
    assert [c][1..] == [];
  }

  /** Lower-casing one character in the middle of a string. */
  lemma LowerSplice(head: string, c: char, tail: string)
    ensures Lower(head + [c] + tail) == Lower(head) + LowerChar(c) + Lower(tail)
  {
    LowerAppend(head + [c], tail);
    LowerAppend(head, [c]);
    LowerSingle(c);
  }

  lemma LowerCons(c: char, tail: string)
    ensures Lower([c] + tail) == LowerChar(c) + Lower(tail)
  {
    LowerAppend([c], tail);
    LowerSingle(c);
  }

  lemma LowerOfCapitals()
    ensures LowerChar('I') == "i" && LowerChar('W') == "w"
  {
  }

  lemma LowerOfHelloComma(s: string)
    requires s == "hello, "
    ensures Lower(s) == s
  {
    LowerOfLowercase(s);
  }

  lemma LowerOfNeedHelp(s: string)
    requires s == " need help"
    ensures Lower(s) == s
  {
    LowerOfLowercase(s);
  }

  lemma LowerOfHichDrink(s: string)
    requires s == "hich drink?"
    ensures Lower(s) == s
  {
    LowerOfLowercase(s);
  }

  /** "hello, I need help" around its one capital. */
  lemma GreetingAndHelpSplit(msg: string, head: string, tail: string)
    requires msg == "hello, I need help" && head == "hello, " && tail == " need help"
    ensures msg == head + ['I'] + tail && head + "i" + tail == "hello, i need help"
  {
  }

  /** "Which drink?" around its one capital. */
  lemma WhichDrinkSplit(msg: string, tail: string)
    requires msg == "Which drink?" && tail == "hich drink?"
    ensures msg == ['W'] + tail && "w" + tail == "which drink?"
  {
  }

  /** "hello, I need help" lower-cased: only the capital I changes. */
  lemma LowerOfGreetingAndHelp(msg: string)
    requires msg == "hello, I need help"
    ensures Lower(msg) == "hello, i need help"
  {
    var head, tail := "hello, ", " need help";
    GreetingAndHelpSplit(msg, head, tail);
    LowerOfHelloComma(head);
    LowerOfNeedHelp(tail);
    LowerOfCapitals();
    LowerSplice(head, 'I', tail);
  }

  /** "Which drink?" lower-cased: only the capital W changes. */
  lemma LowerOfWhichDrink(msg: string)
    requires msg == "Which drink?"
    ensures Lower(msg) == "which drink?"
  {
    var tail := "hich drink?";
    WhichDrinkSplit(msg, tail);
    LowerOfHichDrink(tail);
    LowerOfCapitals();
    LowerCons('W', tail);
  }

  /** The phrases of the table the examples below use. */
  lemma TablePhrases()
    ensures Table[0].phrases[0] == "hello" && Table[0].phrases[1] == "hi"
    ensures Table[1].phrases[0] == "help" && Table[2].phrases[2] == "drink"
  {
  }

  lemma GreetingAndHelpPhrases(low: string)
    requires low == "hello, i need help"
    ensures Occurs("hello", low) && Occurs("help", low)
  {
    assert "hello" <= low[0..];
    assert "help" <= low[14..];
  }

  lemma WhichDrinkPhrases(low: string)
    requires low == "which drink?"
    ensures Occurs("hi", low) && Occurs("drink", low)
  {
    assert "hi" <= low[1..];
    assert "drink" <= low[6..];
  }

  /** An earlier group wins over a later one: "hello, I need help" also contains
      "help", yet it is answered with the greeting. */
  lemma GreetingBeatsHelp(msg: string)
    requires msg == "hello, I need help"
    ensures Matches(Table[1], Lower(msg))
    ensures Respond(msg) == GreetingReply
  {
    var low := Lower(msg);
    LowerOfGreetingAndHelp(msg);
    GreetingAndHelpPhrases(low);
    TablePhrases();
    assert Occurs(Table[1].phrases[0], low);
    assert Occurs(Table[0].phrases[0], low);
  }

  /** A question about drinks that starts with "Which" is greeted, not given the
      menu reply, although "drink" is a menu phrase. */
  lemma WhichDrinkIsGreeted(msg: string)
    requires msg == "Which drink?"
    ensures Matches(Table[2], Lower(msg))
    ensures Respond(msg) == GreetingReply
  {
    var low := Lower(msg);
    LowerOfWhichDrink(msg);
    WhichDrinkPhrases(low);
    TablePhrases();
    assert Occurs(Table[2].phrases[2], low);
    ContainingHiIsGreeting(msg);
  }
}
