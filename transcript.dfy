/** The transcript exporter `export_chat_pdf`: the list of flowables ("story") handed
    to the PDF renderer. Rendering, the temporary file and the clock are outside. */
module Transcript {
  import opened Chat

  /** The sample style sheet entries the story uses. */
  datatype Style = TitleStyle | NormalStyle | BodyTextStyle

  /** A reportlab flowable: a marked-up paragraph or a fixed-size spacer. */
  datatype Block = Paragraph(text: string, style: Style) | Spacer(width: nat, height: nat)

  const Title: string := "<b>Multi-Doc RAG Chat</b>"
  const QuestionLabel: string := "<b>Question:</b>"
  const AnswerLabel: string := "<b>Answer:</b>"
  const Break: string := "<br/>"

  /** The italic line carrying the formatted generation time. */
  function DateLine(date: string): (r: string)
    ensures |r| == 21 + |date|
    ensures r[..17] == "<i>Generated on: " && r[17..17 + |date|] == date && r[17 + |date|..] == "</i>"
  {
    "<i>Generated on: " + date + "</i>"
  }

  /** Human messages are questions; every other message class is an answer. */
  function Label(role: Role): (r: string)
    ensures r == QuestionLabel <==> role == Human
    ensures r == AnswerLabel <==> role != Human
  {
    if role == Human then QuestionLabel else AnswerLabel
  }

  /** `content.replace("\n", "<br/>")`: each line feed becomes a line-break tag. */
  function BreakLines(s: string): (r: string)
    ensures '\n' !in r
    ensures '\n' !in s ==> r == s
  {
    if s == [] then []
    else (if s[0] == '\n' then Break else [s[0]]) + BreakLines(s[1..])
  }

  /** The converse rewrite, every "<br/>" back to a line feed. */
  function RestoreLines(t: string): string
    decreases |t|
  {
    if |t| >= |Break| && t[..|Break|] == Break then "\n" + RestoreLines(t[|Break|..])
    else if t == [] then []
    else [t[0]] + RestoreLines(t[1..])
  }

  /** A leading "<br/>" is restored to one line feed. */
  lemma RestoreAfterBreak(u: string)
    ensures RestoreLines(Break + u) == "\n" + RestoreLines(u)
  {
    var t := Break + u;
    assert t[..|Break|] == Break && t[|Break|..] == u;
  }

  /** A leading character other than '<' is kept as it is. */
  lemma RestoreAfterChar(c: char, u: string)
    requires c != '<'
    ensures RestoreLines([c] + u) == [c] + RestoreLines(u)
  {
    var t := [c] + u;
    assert t[0] == c && t[1..] == u;
    assert |t| >= |Break| ==> t[..|Break|] != Break by {
      if |t| >= |Break| { assert t[..|Break|][0] == c != Break[0]; }
    }
  }

  /** Converting line breaks is lossless on text without markup. */
  lemma {:induction false} RestoreBreakLines(s: string)
    requires '<' !in s
    ensures RestoreLines(BreakLines(s)) == s
  {
    if s != [] {
      RestoreBreakLines(s[1..]);
      if s[0] == '\n' {
        RestoreAfterBreak(BreakLines(s[1..]));
      } else {
        RestoreAfterChar(s[0], BreakLines(s[1..]));
      }
      assert s == [s[0]] + s[1..];
    }
  }

  /** Converting line breaks works piecewise on a concatenation. */
  lemma {:induction false} BreakLinesAppend(s: string, u: string)
    ensures BreakLines(s + u) == BreakLines(s) + BreakLines(u)
  {
    if s != [] {
      assert (s + u)[1..] == s[1..] + u;
      BreakLinesAppend(s[1..], u);
    } else {
      assert s + u == u;
    }
  }

  /** The paragraph for one message: its label, a space and its converted content. */
  function MessageParagraph(m: Message): (b: Block)
    ensures b.Paragraph? && b.style == BodyTextStyle
    ensures b.text == Label(m.role) + " " + BreakLines(m.content)
  {
    Paragraph(Label(m.role) + " " + BreakLines(m.content), BodyTextStyle)
  }

  /** Title, spacer, date line, spacer. */
  function Header(date: string): (r: seq<Block>)
    ensures |r| == 4 && r[0].Paragraph? && r[2].Paragraph? && r[1].Spacer? && r[3].Spacer?
    ensures r[0].text == Title && r[2].text == DateLine(date)
  {
    [Paragraph(Title, TitleStyle), Spacer(1, 12), Paragraph(DateLine(date), NormalStyle), Spacer(1, 20)]
  }

  /** The blocks appended for the messages of `h`, in history order. */
  function MessageBlocks(h: seq<Message>): (r: seq<Block>)
    ensures |r| == 2 * |h|
  {
    if h == [] then []
    else MessageBlocks(h[..|h| - 1]) + [MessageParagraph(h[|h| - 1]), Spacer(1, 14)]
  }

  /** The whole story for history `h` generated at `date`. */
  function Story(h: seq<Message>, date: string): (r: seq<Block>)
    ensures |r| == 4 + 2 * |h| && r[..4] == Header(date)
  {
    Header(date) + MessageBlocks(h)
  }

  /** Two blocks per message, message i's paragraph and spacer at positions 2i and 2i+1. */
  lemma {:induction false} MessageBlocksShape(h: seq<Message>)
    ensures |MessageBlocks(h)| == 2 * |h|
    ensures forall i :: 0 <= i < |h| ==>
      MessageBlocks(h)[2 * i] == MessageParagraph(h[i]) && MessageBlocks(h)[2 * i + 1] == Spacer(1, 14)
  {
    if h != [] {
      var init := h[..|h| - 1];
      var mb, tail := MessageBlocks(init), [MessageParagraph(h[|h| - 1]), Spacer(1, 14)];
      MessageBlocksShape(init);
      assert MessageBlocks(h) == mb + tail;
      forall i | 0 <= i < |h|
        ensures MessageBlocks(h)[2 * i] == MessageParagraph(h[i])
        ensures MessageBlocks(h)[2 * i + 1] == Spacer(1, 14)
      {
        if i < |init| {
          assert init[i] == h[i];
          assert (mb + tail)[2 * i] == mb[2 * i] && (mb + tail)[2 * i + 1] == mb[2 * i + 1];
        } else {
          assert 2 * i == |mb|;
          assert (mb + tail)[2 * i] == tail[0] && (mb + tail)[2 * i + 1] == tail[1];
        }
      }
    }
  }

  /** The exported story never drops or reorders a message: after the four header
      blocks, message i of the history is paragraph 4 + 2i, labelled by its role, and
      each message paragraph is followed by a spacer. */
  lemma StoryShape(h: seq<Message>, date: string)
    ensures |Story(h, date)| == 4 + 2 * |h|
    ensures Story(h, date)[..4] == Header(date)
    ensures forall i :: 0 <= i < |h| ==>
      Story(h, date)[4 + 2 * i] == MessageParagraph(h[i]) && Story(h, date)[5 + 2 * i] == Spacer(1, 14)
  {
    MessageBlocksShape(h);
  }

  /** No message paragraph contains a raw line feed, and each starts with the label of
      its message's role. */
  lemma MessageParagraphText(m: Message)
    ensures '\n' !in MessageParagraph(m).text
    ensures MessageParagraph(m).text[..|Label(m.role)|] == Label(m.role)
    ensures (m.role == Human) <==>
      |MessageParagraph(m).text| >= |QuestionLabel| && MessageParagraph(m).text[..|QuestionLabel|] == QuestionLabel
  {
    var t := MessageParagraph(m).text;
    assert t == Label(m.role) + (" " + BreakLines(m.content));
    assert '\n' !in Label(m.role) + " ";
    assert QuestionLabel[3] != AnswerLabel[3];
  }

  /** The title and the date line hold no line feed when the date holds none. */
  lemma HeaderHasNoRawLineFeeds(date: string)
    requires '\n' !in date
    ensures '\n' !in Title
    ensures '\n' !in DateLine(date)
  {
    var open, close := "<i>Generated on: ", "</i>";
    assert forall c :: c in open ==> c != '\n';
    assert forall c :: c in close ==> c != '\n';
    assert forall c :: c in Title ==> c != '\n';
    assert DateLine(date) == open + date + close;
  }

  /** No message block holds a raw line feed. */
  lemma {:induction false} MessageBlocksHaveNoRawLineFeeds(h: seq<Message>)
    ensures forall j :: 0 <= j < |MessageBlocks(h)| && MessageBlocks(h)[j].Paragraph? ==>
      '\n' !in MessageBlocks(h)[j].text
  {
    if h != [] {
      MessageBlocksHaveNoRawLineFeeds(h[..|h| - 1]);
      MessageParagraphText(h[|h| - 1]);
    }
  }

  /** With a date free of line feeds, no paragraph of the story holds a raw line feed. */
  lemma StoryHasNoRawLineFeeds(h: seq<Message>, date: string)
    requires '\n' !in date
    ensures forall i :: 0 <= i < |Story(h, date)| && Story(h, date)[i].Paragraph? ==>
      '\n' !in Story(h, date)[i].text
  {
    var story, mb := Story(h, date), MessageBlocks(h);
    HeaderHasNoRawLineFeeds(date);
    MessageBlocksHaveNoRawLineFeeds(h);
    forall i | 0 <= i < |story| && story[i].Paragraph? ensures '\n' !in story[i].text {
      if i < 4 {
        assert story[i] == Header(date)[i];
      } else {
        assert story[i] == mb[i - 4];
      }
    }
  }

  /** `export_chat_pdf`'s loop: the story list built block by block. */
  method BuildStory(h: seq<Message>, date: string) returns (story: seq<Block>)
    ensures story == Story(h, date)
    ensures |story| == 4 + 2 * |h|
    ensures forall i :: 0 <= i < |h| ==> story[4 + 2 * i] == MessageParagraph(h[i])
    ensures '\n' !in date ==> forall i :: 0 <= i < |story| && story[i].Paragraph? ==> '\n' !in story[i].text
  {
    story := [];
    story := story + [Paragraph(Title, TitleStyle)];
    story := story + [Spacer(1, 12)];
    story := story + [Paragraph(DateLine(date), NormalStyle)];
    story := story + [Spacer(1, 20)];
    for i := 0 to |h|
      invariant story == Header(date) + MessageBlocks(h[..i])
    {
      var role := if h[i].role == Human then QuestionLabel else AnswerLabel;
      var content := BreakLines(h[i].content);
      ghost var before := story;
      story := story + [Paragraph(role + " " + content, BodyTextStyle)];
      story := story + [Spacer(1, 14)];
      assert story == before + [MessageParagraph(h[i]), Spacer(1, 14)];
      assert h[..i + 1][..i] == h[..i] && h[..i + 1][i] == h[i];
      assert MessageBlocks(h[..i + 1]) == MessageBlocks(h[..i]) + [MessageParagraph(h[i]), Spacer(1, 14)];
    }
    assert h[..|h|] == h;
    StoryShape(h, date);
    if '\n' !in date { StoryHasNoRawLineFeeds(h, date); }
  }
}
