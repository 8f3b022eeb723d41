/** The chat transcript: the Tk Text widget `chat_display`, to which
    add_bot_message and add_user_message append. Each call inserts two tagged
    segments at the end of the buffer: the message between newlines, tagged as a
    bot or a user bubble, then the timestamp and a newline, tagged 'timestamp'.
    The timestamp, datetime.now().strftime("%H:%M") in the source, is a parameter. */
module Transcript {

  datatype Option<T> = None | Some(value: T)

  /** The three text tags the chat area configures. */
  datatype Tag = BotBubble | UserBubble | TimestampTag

  /** One `chat_display.insert(tk.END, text, tag)`. */
  datatype Segment = Segment(text: string, tag: Tag)

  datatype Speaker = Bot | User

  /** One message of the conversation as the reader sees it. */
  datatype Entry = Entry(speaker: Speaker, message: string, stamp: string)

  function BubbleTag(who: Speaker): Tag
  {
    match who
    case Bot => BotBubble
    case User => UserBubble
  }

  /** The two segments one add_*_message call inserts. */
  function Render(e: Entry): seq<Segment>
  {
    [Segment("\n" + e.message + "\n", BubbleTag(e.speaker)), Segment(e.stamp + "\n", TimestampTag)]
  }

  function RenderAll(es: seq<Entry>): seq<Segment>
  {
    if es == [] then [] else Render(es[0]) + RenderAll(es[1..])
  }

  /** Reads back one bubble segment and the timestamp segment after it. */
  function ParseEntry(bubble: Segment, stamp: Segment): Option<Entry>
  {
    var b, t := bubble.text, stamp.text;
    if bubble.tag != TimestampTag && 2 <= |b| && b[0] == '\n' && b[|b| - 1] == '\n'
       && stamp.tag == TimestampTag && 1 <= |t| && t[|t| - 1] == '\n'
    then Some(Entry(if bubble.tag == BotBubble then Bot else User, b[1..|b| - 1], t[..|t| - 1]))
    else None
  }

  /** Reads a segment buffer back as the entries it shows; None when the buffer
      is not a sequence of bubble/timestamp pairs. */
  function Parse(segs: seq<Segment>): Option<seq<Entry>>
  {
    if segs == [] then Some([])
    else if |segs| < 2 then None
    else match ParseEntry(segs[0], segs[1])
      case None => None
      case Some(e) =>
        match Parse(segs[2..])
        case None => None
        case Some(rest) => Some([e] + rest)
  }

  /** add_bot_message / add_user_message on the segment buffer. */
  function AddMessage(segs: seq<Segment>, who: Speaker, message: string, stamp: string): (r: seq<Segment>)
    ensures |r| == |segs| + 2 && r[..|segs|] == segs
    ensures r[|segs|].tag == BubbleTag(who) && r[|segs| + 1].tag == TimestampTag
  {
    segs + Render(Entry(who, message, stamp))
  }

  /** The characters of the buffer, tags dropped. */
  function Text(segs: seq<Segment>): string
  {
    if segs == [] then [] else segs[0].text + Text(segs[1..])
  }

  // ----- Lemmas -----

  lemma ParseEntryRender(e: Entry)
    ensures ParseEntry(Render(e)[0], Render(e)[1]) == Some(e)
  {
    var b := "\n" + e.message + "\n";
    var t := e.stamp + "\n";
    assert b[1..|b| - 1] == e.message;
    assert t[..|t| - 1] == e.stamp;
  }

  lemma {:induction false} RenderAllAppend(a: seq<Entry>, b: seq<Entry>)
    ensures RenderAll(a + b) == RenderAll(a) + RenderAll(b)
  {
    if a == [] {
      assert a + b == b;
    } else {
      assert (a + b)[0] == a[0];
      assert (a + b)[1..] == a[1..] + b;
      RenderAllAppend(a[1..], b);
    }
  }

  /** Parsing undoes rendering. */
  lemma {:induction false} ParseRenderAll(es: seq<Entry>)
    ensures Parse(RenderAll(es)) == Some(es)
  {
    if es != [] {
      var segs := RenderAll(es);
      assert segs == Render(es[0]) + RenderAll(es[1..]);
      assert segs[0] == Render(es[0])[0] && segs[1] == Render(es[0])[1];
      assert segs[2..] == RenderAll(es[1..]);
      ParseEntryRender(es[0]);
      ParseRenderAll(es[1..]);
      assert [es[0]] + es[1..] == es;
    }
  }

  lemma RenderParseEntry(bubble: Segment, stamp: Segment)
    requires ParseEntry(bubble, stamp).Some?
    ensures Render(ParseEntry(bubble, stamp).value) == [bubble, stamp]
  {
    var b, t := bubble.text, stamp.text;
    assert "\n" + b[1..|b| - 1] + "\n" == b;
    assert t[..|t| - 1] + "\n" == t;
  }

  /** Rendering undoes parsing: a buffer that reads back is exactly the rendering
      of what it reads back as. */
  lemma {:induction false} RenderAllParse(segs: seq<Segment>)
    requires Parse(segs).Some?
    ensures RenderAll(Parse(segs).value) == segs
  {
    if segs != [] {
      assert 2 <= |segs| && ParseEntry(segs[0], segs[1]).Some? && Parse(segs[2..]).Some?;
      var e := ParseEntry(segs[0], segs[1]).value;
      var rest := Parse(segs[2..]).value;
      RenderParseEntry(segs[0], segs[1]);
      RenderAllParse(segs[2..]);
      assert Parse(segs).value == [e] + rest;
      assert ([e] + rest)[0] == e && ([e] + rest)[1..] == rest;
      assert segs == [segs[0], segs[1]] + segs[2..];
    }
  }

  /** Appending a message to a well-formed buffer appends exactly that entry to
      what the buffer shows; everything shown before stays. */
  lemma AddMessageParses(segs: seq<Segment>, who: Speaker, message: string, stamp: string)
    requires Parse(segs).Some?
    ensures Parse(AddMessage(segs, who, message, stamp)) == Some(Parse(segs).value + [Entry(who, message, stamp)])
  {
    var es := Parse(segs).value;
    var e := Entry(who, message, stamp);
    RenderAllParse(segs);
    RenderAllAppend(es, [e]);
    assert [e][1..] == [];
    assert RenderAll([e]) == Render(e);
    assert AddMessage(segs, who, message, stamp) == RenderAll(es + [e]);
    ParseRenderAll(es + [e]);
  }

  lemma {:induction false} TextAppend(a: seq<Segment>, b: seq<Segment>)
    ensures Text(a + b) == Text(a) + Text(b)
  {
    if a == [] {
      assert a + b == b;
    } else {
      assert (a + b)[0] == a[0];
      assert (a + b)[1..] == a[1..] + b;
      TextAppend(a[1..], b);
    }
  }

  lemma TextOfRender(e: Entry)
    ensures Text(Render(e)) == "\n" + e.message + "\n" + (e.stamp + "\n")
  {
    var r := Render(e);
    assert r[1..][1..] == [];
    assert Text(r[1..]) == r[1].text;
  }

  /** On the text buffer itself an add call appends "\n", the message, "\n", the
      timestamp and "\n", and leaves every earlier character where it was. */
  lemma AddMessageText(segs: seq<Segment>, who: Speaker, message: string, stamp: string)
    ensures Text(AddMessage(segs, who, message, stamp)) == Text(segs) + ("\n" + message + "\n" + (stamp + "\n"))
  {
    TextAppend(segs, Render(Entry(who, message, stamp)));
    TextOfRender(Entry(who, message, stamp));
  }
}
