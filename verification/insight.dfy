/** The assistant card (components/AiInsightCard.tsx): how a message text is
    laid out, which panel the card shows, and its query box. */
module Insight {
  import opened Seqs
  import opened Text
  import opened Sales

  /** One element of a formatted message: a list item or a paragraph. */
  datatype Block = ListItem(text: string) | Paragraph(text: string)

  /** A formatted message: a bullet list when any element is a list item,
      otherwise plain paragraphs. Either way it holds the elements in order. */
  datatype Formatted = BulletList(items: seq<Block>) | Prose(items: seq<Block>)

  predicate IsBullet(c: char)
  {
    c == '-' || c == '*'
  }

  /** The element a line becomes, if any: after trimming, a line starting with
      `-` or `*` is a list item holding the rest of the line trimmed again, any
      other non-empty line is a paragraph, and a blank line is nothing. */
  function ClassifyLine(line: string): (r: Option<Block>)
    ensures r == None <==> AllSpace(line)
    ensures r.Some? && r.value.Paragraph? ==> r.value.text == Trim(line) && !IsBullet(Trim(line)[0])
    ensures r.Some? && r.value.ListItem? ==>
      var t := Trim(line); |t| > 0 && IsBullet(t[0]) && r.value.text == Trim(t[1..])
  {
    var t := Trim(line);
    if |t| > 0 && IsBullet(t[0]) then Some(ListItem(Trim(t[1..])))
    else if |t| > 0 then Some(Paragraph(t))
    else None
  }

  /** The elements of the lines, blank lines dropped (`.filter(Boolean)`). */
  function Blocks(lines: seq<string>): (r: seq<Block>)
    ensures |r| <= |lines|
  {
    if |lines| == 0 then []
    else
      var rest := Blocks(DropLast(lines));
      match ClassifyLine(Last(lines))
      case None => rest
      case Some(b) => rest + [b]
  }

  predicate NotBlank(line: string)
  {
    !AllSpace(line)
  }

  /** One element per non-blank line, in line order. */
  lemma {:induction false} BlocksOfNonBlankLines(lines: seq<string>)
    ensures |Blocks(lines)| == |Filter(lines, NotBlank)|
    ensures forall i :: 0 <= i < |Blocks(lines)| ==>
      ClassifyLine(Filter(lines, NotBlank)[i]) == Some(Blocks(lines)[i])
  {
    if |lines| > 0 {
      var front, line := DropLast(lines), Last(lines);
      BlocksOfNonBlankLines(front);
      var f := Filter(front, NotBlank);
      var b := Blocks(front);
      if NotBlank(line) {
        assert Filter(lines, NotBlank) == f + [line];
        assert Blocks(lines) == b + [ClassifyLine(line).value];
      } else {
        assert Filter(lines, NotBlank) == f;
        assert Blocks(lines) == b;
      }
    }
  }

  /** `FormattedMessage`: split the text at line breaks and classify each line. */
  function Format(text: string): (r: Formatted)
    ensures r.items == Blocks(Split(text, '\n'))
    ensures r.BulletList? <==> exists i :: 0 <= i < |r.items| && r.items[i].ListItem?
  {
    var items := Blocks(Split(text, '\n'));
    if exists i :: 0 <= i < |items| && items[i].ListItem? then BulletList(items) else Prose(items)
  }

  /** A text with no line break and no bullet at its start is one paragraph. */
  lemma FormatSingleLine(text: string)
    requires '\n' !in text && !AllSpace(text) && !IsBullet(Trim(text)[0])
    ensures Format(text) == Prose([Paragraph(Trim(text))])
  {
    SplitWithoutSeparator(text, '\n');
    assert DropLast([text]) == [];
    var items := Blocks([text]);
    assert items == [Paragraph(Trim(text))];
    assert !items[0].ListItem?;
  }

  /** A line of one message bubble. */
  datatype Bubble = UserBubble(text: string) | AiBubble(message: Formatted)

  /** What the card's body shows: the spinner, the error, or the
      conversation (the first insight only before any question, one bubble
      per message, and a typing indicator while an answer is awaited). */
  datatype Panel =
    | Spinner
    | ErrorBox(message: string)
    | Conversation(initial: Option<Formatted>, bubbles: seq<Bubble>, typing: bool)

  function BubbleOf(m: ChatMessage): Bubble
  {
    if m.sender == User then UserBubble(m.text) else AiBubble(Format(m.text))
  }

  function ShowPanel(
    initialInsight: string, chat: seq<ChatMessage>,
    isLoading: bool, isAnswering: bool, error: string): (p: Panel)
    ensures isLoading <==> p == Spinner
    ensures p.ErrorBox? <==> !isLoading && error != ""
    ensures p.ErrorBox? ==> p.message == error
    ensures p.Conversation? ==>
      && (p.initial.Some? <==> chat == [])
      && (chat == [] ==> p.initial == Some(Format(initialInsight)))
      && |p.bubbles| == |chat|
      && (forall i :: 0 <= i < |chat| ==>
            p.bubbles[i] == if chat[i].sender == User then UserBubble(chat[i].text) else AiBubble(Format(chat[i].text)))
      && p.typing == isAnswering
  {
    if isLoading then Spinner
    else if error != "" then ErrorBox(error)
    else
      Conversation(
        if chat == [] then Some(Format(initialInsight)) else None,
        Map(chat, BubbleOf),
        isAnswering)
  }

  /** The send button: disabled while anything is pending, or while the
      query holds nothing but white space. */
  predicate SendDisabled(isLoading: bool, isAnswering: bool, query: string): (r: bool)
    ensures r <==> isLoading || isAnswering || forall i :: 0 <= i < |query| ==> IsSpace(query[i])
  {
    isLoading || isAnswering || Trim(query) == ""
  }

  /** The refresh button: disabled while anything is pending; then the send
      button is disabled too, whatever the query. */
  predicate RefreshDisabled(isLoading: bool, isAnswering: bool): (r: bool)
    ensures isLoading || isAnswering ==> r
    ensures r ==> forall query :: SendDisabled(isLoading, isAnswering, query)
  {
    isLoading || isAnswering
  }

  /** `handleFormSubmit`: the query goes to `onAsk` and the box is emptied. */
  datatype Submission = Submission(asked: string, query: string)

  function HandleFormSubmit(query: string): (r: Submission)
    ensures r.asked == query && r.query == ""
  {
    Submission(query, "")
  }

  /** Send is enabled exactly when nothing is pending and the query has a
      character that is not white space; whenever send is enabled, so is
      refresh. */
  lemma SendEnabledIff(isLoading: bool, isAnswering: bool, query: string)
    ensures !SendDisabled(isLoading, isAnswering, query) <==>
      !isLoading && !isAnswering && exists i :: 0 <= i < |query| && !IsSpace(query[i])
    ensures !SendDisabled(isLoading, isAnswering, query) ==> !RefreshDisabled(isLoading, isAnswering)
  {
  }
}
