/** `parse_markdown`: the overlay turns the Markdown event stream of its
    parser into a list of content blocks, code blocks (with their language)
    and prose.  The Markdown parser itself is outside the model: its output is
    the input here, a sequence of `MdEvent`s. */
module Markdown {
  import opened Strings

  datatype CodeBlockKind = Fenced(info: string) | Indented

  /** The parser events the overlay distinguishes; every other event
      (paragraph starts, headings, emphasis, inline code, ...) is `Other`. */
  datatype MdEvent =
    | StartCodeBlock(kind: CodeBlockKind)
    | EndCodeBlock
    | Text(text: string)
    | SoftBreak
    | HardBreak
    | EndParagraph
    | Other

  datatype ContentBlock = Code(lang: string, content: string) | Text(content: string)

  /** The language of a code block: a fenced block's info string, or "txt". */
  function LangOf(kind: CodeBlockKind): string {
    match kind
    case Fenced(info) => info
    case Indented => "txt"
  }

  /** The prose buffer as it is flushed when a code block starts: trimmed at
      the end unless it is only whitespace, which is kept as it is. */
  function FlushText(t: string): (r: seq<ContentBlock>)
    ensures r == [] <==> t == []
    ensures r != [] ==> |r| == 1 && r[0].Text? && r[0].content != [] && StartsWith(t, r[0].content)
    ensures r != [] ==> forall i :: |r[0].content| <= i < |t| ==> IsWhitespace(t[i])
    ensures r != [] && !AllWhitespace(t) ==> !IsWhitespace(r[0].content[|r[0].content| - 1])
    ensures r != [] && AllWhitespace(t) ==> r[0].content == t
  {
    TrimEmptyIffWhitespace(t);
    if Trim(t) != [] then
      assert TrimEnd(t) != [];
      [ContentBlock.Text(TrimEnd(t))]
    else if t != [] then [ContentBlock.Text(t)]
    else []
  }

  /** The loop state of `parse_markdown`. */
  datatype ParseState = ParseState(blocks: seq<ContentBlock>, text: string, code: string, lang: string, inCode: bool)

  const Start := ParseState([], [], [], [], false)

  function Step(st: ParseState, ev: MdEvent): ParseState {
    match ev
    case StartCodeBlock(kind) =>
      ParseState(st.blocks + FlushText(st.text), [], st.code, LangOf(kind), true)
    case EndCodeBlock =>
      if st.code != [] then ParseState(st.blocks + [Code(st.lang, st.code)], st.text, [], st.lang, false)
      else st.(inCode := false)
    case Text(s) =>
      if st.inCode then st.(code := st.code + s) else st.(text := st.text + s)
    case SoftBreak =>
      if st.inCode then st else st.(text := st.text + " ")
    case HardBreak =>
      if st.inCode then st else st.(text := st.text + "\n")
    case EndParagraph =>
      if !st.inCode && !EndsWith(st.text, "\n\n") then st.(text := st.text + "\n\n") else st
    case Other => st
  }

  /** The state after `events`, starting from `st`. */
  function RunFrom(st: ParseState, events: seq<MdEvent>): ParseState {
    if events == [] then st else Step(RunFrom(st, events[..|events| - 1]), events[|events| - 1])
  }

  function Run(events: seq<MdEvent>): ParseState {
    RunFrom(Start, events)
  }

  /** After the last event, leftover prose becomes a final block, untrimmed. */
  function Finish(st: ParseState): seq<ContentBlock> {
    if st.text != [] then st.blocks + [ContentBlock.Text(st.text)] else st.blocks
  }

  /** The blocks `parse_markdown` returns for an event stream. */
  function Parse(events: seq<MdEvent>): seq<ContentBlock> {
    Finish(Run(events))
  }

  /** `parse_markdown`. */
  method ParseMarkdown(events: seq<MdEvent>) returns (blocks: seq<ContentBlock>)
    ensures blocks == Parse(events)
  {
    blocks := [];
    var currentText: string := [];
    var currentCode: string := [];
    var currentLang: string := [];
    var inCodeBlock := false;
    var i := 0;
    while i < |events|
      invariant 0 <= i <= |events|
      invariant ParseState(blocks, currentText, currentCode, currentLang, inCodeBlock) == Run(events[..i])
    {
      assert events[..i + 1][..i] == events[..i];
      match events[i] {
        case StartCodeBlock(kind) =>
          if Trim(currentText) != [] {
            blocks := blocks + [ContentBlock.Text(TrimEnd(currentText))];
            currentText := [];
          } else if currentText != [] {
            blocks := blocks + [ContentBlock.Text(currentText)];
            currentText := [];
          }
          inCodeBlock := true;
          currentLang := match kind case Fenced(info) => info case Indented => "txt";
        case EndCodeBlock =>
          if currentCode != [] {
            blocks := blocks + [Code(currentLang, currentCode)];
            currentCode := [];
          }
          inCodeBlock := false;
        case Text(s) =>
          if inCodeBlock {
            currentCode := currentCode + s;
          } else {
            currentText := currentText + s;
          }
        case SoftBreak =>
          if !inCodeBlock {
            currentText := currentText + " ";
          }
        case HardBreak =>
          if !inCodeBlock {
            currentText := currentText + "\n";
          }
        case EndParagraph =>
          if !inCodeBlock && !EndsWith(currentText, "\n\n") {
            currentText := currentText + "\n\n";
          }
        case Other =>
      }
      i := i + 1;
    }
    assert events[..i] == events;
    if currentText != [] {
      blocks := blocks + [ContentBlock.Text(currentText)];
    }
  }

  /* ---------------- properties ---------------- */

  function BlockContent(b: ContentBlock): string {
    match b
    case Code(_, content) => content
    case Text(content) => content
  }

  /** What the loop keeps: no empty block, no code outside a code block and no
      prose inside one. */
  predicate Inv(st: ParseState) {
    && (forall k :: 0 <= k < |st.blocks| ==> BlockContent(st.blocks[k]) != [])
    && (!st.inCode ==> st.code == [])
    && (st.inCode ==> st.text == [])
  }

  lemma StepKeepsInv(st: ParseState, ev: MdEvent)
    requires Inv(st)
    ensures Inv(Step(st, ev))
  {
    match ev {
      case StartCodeBlock(kind) =>
        var flushed := FlushText(st.text);
        FlushedNonEmpty(st.text);
        AppendNonEmpty(st.blocks, flushed);
      case EndCodeBlock =>
        if st.code != [] {
          AppendNonEmpty(st.blocks, [Code(st.lang, st.code)]);
        }
      case _ =>
    }
  }

  lemma FlushedNonEmpty(t: string)
    ensures forall k :: 0 <= k < |FlushText(t)| ==> BlockContent(FlushText(t)[k]) != []
  {
    var r := FlushText(t);
    if r != [] {
      assert BlockContent(r[0]) == r[0].content;
    }
  }

  lemma AppendNonEmpty(a: seq<ContentBlock>, b: seq<ContentBlock>)
    requires forall k :: 0 <= k < |a| ==> BlockContent(a[k]) != []
    requires forall k :: 0 <= k < |b| ==> BlockContent(b[k]) != []
    ensures forall k :: 0 <= k < |a + b| ==> BlockContent((a + b)[k]) != []
  {
  }

  lemma {:induction false} RunKeepsInv(st: ParseState, events: seq<MdEvent>)
    requires Inv(st)
    ensures Inv(RunFrom(st, events))
  {
    if events != [] {
      RunKeepsInv(st, events[..|events| - 1]);
      StepKeepsInv(RunFrom(st, events[..|events| - 1]), events[|events| - 1]);
    }
  }

  /** No block `parse_markdown` returns is empty. */
  lemma ParseBlocksNonEmpty(events: seq<MdEvent>)
    ensures forall k :: 0 <= k < |Parse(events)| ==> BlockContent(Parse(events)[k]) != []
  {
    RunKeepsInv(Start, events);
  }

  lemma {:induction false} RunFromAppend(st: ParseState, a: seq<MdEvent>, b: seq<MdEvent>)
    ensures RunFrom(st, a + b) == RunFrom(RunFrom(st, a), b)
  {
    if b == [] {
      assert a + b == a;
    } else {
      assert (a + b)[..|a + b| - 1] == a + b[..|b| - 1];
      RunFromAppend(st, a, b[..|b| - 1]);
    }
  }

  predicate IsCodeBoundary(ev: MdEvent) {
    ev.StartCodeBlock? || ev.EndCodeBlock?
  }

  /** The text of a code block's body: its text events, with line breaks and
      paragraph ends contributing nothing. */
  function CodeOf(body: seq<MdEvent>): string {
    if body == [] then []
    else
      var last := body[|body| - 1];
      CodeOf(body[..|body| - 1]) + (if last.Text? then last.text else [])
  }

  /** Inside a code block, events up to its end only add to the code. */
  lemma {:induction false} InsideCodeBlock(st: ParseState, body: seq<MdEvent>)
    requires st.inCode
    requires forall j :: 0 <= j < |body| ==> !IsCodeBoundary(body[j])
    ensures RunFrom(st, body) == st.(code := st.code + CodeOf(body))
  {
    if body != [] {
      InsideCodeBlock(st, body[..|body| - 1]);
      var last := body[|body| - 1];
      assert st.code + CodeOf(body[..|body| - 1]) + (if last.Text? then last.text else [])
          == st.code + CodeOf(body);
    } else {
      assert st.code + [] == st.code;
    }
  }

  lemma RunFromOne(st: ParseState, ev: MdEvent)
    ensures RunFrom(st, [ev]) == Step(st, ev)
  {
    assert [ev][..0] == [];
  }

  /** The state inside a code block: the prose before it flushed, and the
      code of the body so far. */
  lemma OpenCodeBlock(pre: seq<MdEvent>, kind: CodeBlockKind, body: seq<MdEvent>)
    requires !Run(pre).inCode
    requires forall j :: 0 <= j < |body| ==> !IsCodeBoundary(body[j])
    ensures Run(pre + [StartCodeBlock(kind)] + body)
         == ParseState(Run(pre).blocks + FlushText(Run(pre).text), [], CodeOf(body), LangOf(kind), true)
  {
    var st := Run(pre);
    RunKeepsInv(Start, pre);
    RunFromAppend(Start, pre, [StartCodeBlock(kind)]);
    RunFromOne(st, StartCodeBlock(kind));
    var inBlock := Step(st, StartCodeBlock(kind));
    RunFromAppend(Start, pre + [StartCodeBlock(kind)], body);
    InsideCodeBlock(inBlock, body);
    assert [] + CodeOf(body) == CodeOf(body);
  }

  /** A code block, from its start event to its end event, flushes the prose
      before it and yields one code block holding its text verbatim in the
      block's language (none when the body has no text). */
  lemma CodeBlockSegment(pre: seq<MdEvent>, kind: CodeBlockKind, body: seq<MdEvent>)
    requires !Run(pre).inCode
    requires forall j :: 0 <= j < |body| ==> !IsCodeBoundary(body[j])
    ensures var st := Run(pre);
      Run(pre + [StartCodeBlock(kind)] + body + [EndCodeBlock])
      == ParseState(st.blocks + FlushText(st.text)
                      + (if CodeOf(body) != [] then [Code(LangOf(kind), CodeOf(body))] else []),
                    [], [], LangOf(kind), false)
  {
    var inside := pre + [StartCodeBlock(kind)] + body;
    OpenCodeBlock(pre, kind, body);
    RunFromAppend(Start, inside, [EndCodeBlock]);
    RunFromOne(Run(inside), EndCodeBlock);
    if CodeOf(body) == [] {
      assert Run(pre).blocks + FlushText(Run(pre).text) + [] == Run(pre).blocks + FlushText(Run(pre).text);
    }
  }

  /** A code block whose end event never comes contributes nothing: its text
      is lost when the stream ends. */
  lemma UnterminatedCodeBlockDropped(pre: seq<MdEvent>, kind: CodeBlockKind, body: seq<MdEvent>)
    requires !Run(pre).inCode
    requires forall j :: 0 <= j < |body| ==> !IsCodeBoundary(body[j])
    ensures Parse(pre + [StartCodeBlock(kind)] + body) == Run(pre).blocks + FlushText(Run(pre).text)
  {
    OpenCodeBlock(pre, kind, body);
  }

  /** The prose of a stream with no code block: text as it comes, a space per
      soft break, a newline per hard break and a blank line after a
      paragraph unless the text already ends in one. */
  function ProseOf(events: seq<MdEvent>): string {
    if events == [] then []
    else
      var p := ProseOf(events[..|events| - 1]);
      match events[|events| - 1]
      case Text(s) => p + s
      case SoftBreak => p + " "
      case HardBreak => p + "\n"
      case EndParagraph => if EndsWith(p, "\n\n") then p else p + "\n\n"
      case _ => p
  }

  /** Without code blocks the result is one prose block holding the whole
      prose, untrimmed, or nothing when there is no prose. */
  lemma ProseOnly(events: seq<MdEvent>)
    requires forall j :: 0 <= j < |events| ==> !events[j].StartCodeBlock?
    ensures Parse(events) == if ProseOf(events) == [] then [] else [ContentBlock.Text(ProseOf(events))]
  {
    ProseRun(events);
  }

  lemma {:induction false} ProseRun(events: seq<MdEvent>)
    requires forall j :: 0 <= j < |events| ==> !events[j].StartCodeBlock?
    ensures Run(events) == ParseState([], ProseOf(events), [], [], false)
  {
    if events != [] {
      ProseRun(events[..|events| - 1]);
    }
  }

  /** The events of a paragraph of one line: its start, its text, its end. */
  function Paragraph(line: string): seq<MdEvent> {
    [Other, MdEvent.Text(line), EndParagraph]
  }

  /** A paragraph, a fenced code block and a second paragraph: the first
      paragraph loses its blank-line ending when it is flushed before the
      code, the code is kept verbatim, and the last paragraph keeps it. */
  lemma ParagraphCodeParagraph(a: string, lang: string, code: string, b: string)
    requires a != [] && !IsWhitespace(a[|a| - 1])
    requires code != []
    requires !EndsWith(b, "\n\n")
    ensures Parse(Paragraph(a) + [StartCodeBlock(Fenced(lang))] + [MdEvent.Text(code)] + [EndCodeBlock] + Paragraph(b))
         == [ContentBlock.Text(a), Code(lang, code), ContentBlock.Text(b + "\n\n")]
  {
    var mid := Paragraph(a) + [StartCodeBlock(Fenced(lang))] + [MdEvent.Text(code)] + [EndCodeBlock];
    ParagraphThenCode(a, lang, code);
    RunFromAppend(Start, mid, Paragraph(b));
    var st := Run(mid);
    ParagraphAfter(st, b);
    var final := Run(mid + Paragraph(b));
    assert final.blocks == [ContentBlock.Text(a), Code(lang, code)];
    assert final.text == b + "\n\n";
  }

  /** The state after a one-line paragraph and a code block. */
  lemma ParagraphThenCode(a: string, lang: string, code: string)
    requires a != [] && !IsWhitespace(a[|a| - 1])
    requires code != []
    ensures Run(Paragraph(a) + [StartCodeBlock(Fenced(lang))] + [MdEvent.Text(code)] + [EndCodeBlock])
         == ParseState([ContentBlock.Text(a), Code(lang, code)], [], [], lang, false)
  {
    var pre := Paragraph(a);
    var body := [MdEvent.Text(code)];
    assert !Run(pre).inCode && Run(pre).blocks + FlushText(Run(pre).text) == [ContentBlock.Text(a)] by {
      OneParagraph(a);
      FlushParagraph(a);
    }
    assert CodeOf(body) == code by {
      assert body[..0] == [];
    }
    CodeBlockSegment(pre, Fenced(lang), body);
  }

  /** A one-line paragraph at the start of a document. */
  lemma OneParagraph(line: string)
    requires !EndsWith(line, "\n\n")
    ensures Run(Paragraph(line)) == ParseState([], line + "\n\n", [], [], false)
  {
    var pre := Paragraph(line);
    ProseRun(pre);
    assert pre[..2] == [Other, MdEvent.Text(line)];
    assert pre[..2][..1] == [Other];
    assert [Other][..0] == [];
    assert ProseOf([Other]) == [];
    assert ProseOf(pre[..2]) == [] + line;
  }

  /** A one-line paragraph after the state `st`, outside any code block and
      with no pending prose. */
  lemma ParagraphAfter(st: ParseState, line: string)
    requires !st.inCode && st.text == []
    requires !EndsWith(line, "\n\n")
    ensures RunFrom(st, Paragraph(line)) == st.(text := line + "\n\n")
  {
    var post := Paragraph(line);
    assert post[..2] == [Other, MdEvent.Text(line)];
    assert post[..2][..1] == [Other];
    RunFromOne(st, Other);
    assert RunFrom(st, post[..2]) == st.(text := [] + line);
  }

  /** A paragraph ending in a non-blank character is flushed without its
      blank-line ending. */
  lemma FlushParagraph(a: string)
    requires a != [] && !IsWhitespace(a[|a| - 1])
    ensures FlushText(a + "\n\n") == [ContentBlock.Text(a)]
  {
    var t := a + "\n\n";
    assert t[..|t| - 1] == a + "\n";
    assert t[..|t| - 1][..|t| - 2] == a;
    assert TrimEnd(t) == a;
    TrimEmptyIffWhitespace(t);
    assert !IsWhitespace(t[|a| - 1]);
  }
}
