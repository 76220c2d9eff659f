/** The overlay's height arithmetic: `_calculate_block_height` counts the
    visual lines of each source line of a block after wrapping, and
    `calculate_text_height` adds the blocks up with margins and padding and
    rounds up to a pixel count.

    The font enters as its vertical metrics and a `width` function (the summed
    advance widths of a token); the syntax highlighter enters as a function
    from the language, the block's earlier lines and the current line to the
    styled ranges of that line.  Pixel values, f32 in the program, are reals. */
module Height {
  import opened Strings
  import opened Numbers
  import opened Wrap
  import opened Markdown

  /** The font's vertical metrics at the configured size. */
  datatype VMetrics = VMetrics(ascent: real, descent: real, lineGap: real)

  function LineHeight(m: VMetrics): real {
    m.ascent - m.descent + m.lineGap
  }

  const TEXT_MARGIN_LEFT: real := 18.0
  const TEXT_MARGIN_RIGHT: real := 18.0
  const LINE_NUMBER_WIDTH: real := 40.0
  const TOP_MARGIN: real := 40.0
  const BLOCK_PADDING: real := 15.0
  const BOTTOM_MARGIN: real := 20.0

  /** The width available to text in a block: code blocks reserve a gutter
      for line numbers. */
  function MaxLineWidth(width: nat, isCode: bool): (r: real)
    ensures !isCode ==> r == width as real - TEXT_MARGIN_LEFT - TEXT_MARGIN_RIGHT
    ensures isCode ==> r == MaxLineWidth(width, false) - LINE_NUMBER_WIDTH
    decreases if isCode then 1 else 0
  {
    var textStartX := if isCode then TEXT_MARGIN_LEFT + LINE_NUMBER_WIDTH else TEXT_MARGIN_LEFT;
    width as real - textStartX - TEXT_MARGIN_RIGHT
  }

  /** A syntax highlighter: language, the block's lines before this one, and
      this line (with its '\n') give the styled ranges of this line. */
  type Highlighter<S> = (string, seq<string>, string) -> seq<Styled<S>>

  /** The number of visual lines the source lines of a block wrap into. */
  function VisualLines<S>(hl: Highlighter<S>, lang: string, lines: seq<string>,
                          width: string -> real, maxWidth: real): nat
  {
    if lines == [] then 0
    else
      var before := lines[..|lines| - 1];
      VisualLines(hl, lang, before, width, maxWidth)
        + |Wrapped(hl(lang, before, lines[|lines| - 1] + "\n"), width, maxWidth)|
  }

  /** `n` lines of height `lineHeight` stacked one below the other. */
  function Stacked(lineHeight: real, n: nat): real {
    if n == 0 then 0.0 else Stacked(lineHeight, n - 1) + lineHeight
  }

  /** The height of a block: the ascent, then one line height per visual line. */
  function BlockHeight<S>(m: VMetrics, hl: Highlighter<S>, text: string, lang: string,
                          width: string -> real, maxWidth: real): real
  {
    m.ascent + Stacked(LineHeight(m), VisualLines(hl, lang, Lines(text), width, maxWidth))
  }

  /** The inner loop of `_calculate_block_height`: one line height per
      wrapped line. */
  method AdvancePerLine<S>(y: real, lineHeight: real, wrappedLines: seq<Line<S>>) returns (yOffset: real)
    ensures yOffset == y + Stacked(lineHeight, |wrappedLines|)
  {
    yOffset := y;
    var j := 0;
    while j < |wrappedLines|
      invariant 0 <= j <= |wrappedLines|
      invariant yOffset == y + Stacked(lineHeight, j)
    {
      yOffset := yOffset + lineHeight;
      j := j + 1;
    }
  }

  /** `_calculate_block_height`. */
  method CalculateBlockHeight<S>(m: VMetrics, hl: Highlighter<S>, text: string, width: nat, lang: string,
                                 isCodeBlock: bool, measure: string -> real)
    returns (yOffset: real)
    ensures yOffset == BlockHeight(m, hl, text, lang, measure, MaxLineWidth(width, isCodeBlock))
  {
    var lineHeight := m.ascent - m.descent + m.lineGap;
    yOffset := m.ascent;
    var lines := Lines(text);
    var textStartX := if isCodeBlock then TEXT_MARGIN_LEFT + LINE_NUMBER_WIDTH else TEXT_MARGIN_LEFT;
    var maxLineWidth := width as real - textStartX - TEXT_MARGIN_RIGHT;
    assert maxLineWidth == MaxLineWidth(width, isCodeBlock);
    assert lineHeight == LineHeight(m);
    var i := 0;
    while i < |lines|
      invariant 0 <= i <= |lines|
      invariant yOffset == m.ascent + Stacked(lineHeight, VisualLines(hl, lang, lines[..i], measure, maxLineWidth))
    {
      var ranges := hl(lang, lines[..i], lines[i] + "\n");
      var wrappedLines := WrapLineWithSyntax(ranges, measure, maxLineWidth);
      ghost var y := yOffset;
      yOffset := AdvancePerLine(yOffset, lineHeight, wrappedLines);
      NextSourceLine(hl, lang, lines, i, measure, maxLineWidth, m.ascent, lineHeight, y, yOffset, wrappedLines);
      i := i + 1;
    }
    assert lines[..i] == lines;
  }

  /** One step of the loop of `_calculate_block_height`. */
  lemma NextSourceLine<S>(hl: Highlighter<S>, lang: string, lines: seq<string>, i: nat,
                          width: string -> real, maxWidth: real, ascent: real, lineHeight: real,
                          y: real, y': real, wrappedLines: seq<Line<S>>)
    requires i < |lines|
    requires wrappedLines == Wrapped(hl(lang, lines[..i], lines[i] + "\n"), width, maxWidth)
    requires y == ascent + Stacked(lineHeight, VisualLines(hl, lang, lines[..i], width, maxWidth))
    requires y' == y + Stacked(lineHeight, |wrappedLines|)
    ensures y' == ascent + Stacked(lineHeight, VisualLines(hl, lang, lines[..i + 1], width, maxWidth))
  {
    var before := VisualLines(hl, lang, lines[..i], width, maxWidth);
    var after := VisualLines(hl, lang, lines[..i + 1], width, maxWidth);
    assert after == before + |wrappedLines| by {
      VisualLinesSnoc(hl, lang, lines, i, width, maxWidth);
    }
    StackedSum(lineHeight, before, |wrappedLines|, after);
  }

  lemma VisualLinesSnoc<S>(hl: Highlighter<S>, lang: string, lines: seq<string>, i: nat,
                           width: string -> real, maxWidth: real)
    requires i < |lines|
    ensures VisualLines(hl, lang, lines[..i + 1], width, maxWidth)
         == VisualLines(hl, lang, lines[..i], width, maxWidth) + |Wrapped(hl(lang, lines[..i], lines[i] + "\n"), width, maxWidth)|
  {
    assert lines[..i + 1][..i] == lines[..i];
  }

  /** The text, language and kind `calculate_text_height` reads off a block;
      prose is laid out as plain text. */
  function BlockLayout(b: ContentBlock): (string, string, bool) {
    match b
    case Code(lang, content) => (content, lang, true)
    case Text(content) => (content, "txt", false)
  }

  /** The blocks' heights, each followed by the padding between blocks. */
  function BlocksHeight<S>(m: VMetrics, hl: Highlighter<S>, blocks: seq<ContentBlock>,
                           measure: string -> real, width: nat): real
  {
    if blocks == [] then 0.0
    else
      var (content, lang, isCode) := BlockLayout(blocks[|blocks| - 1]);
      BlocksHeight(m, hl, blocks[..|blocks| - 1], measure, width)
        + BlockHeight(m, hl, content, lang, measure, MaxLineWidth(width, isCode)) + BLOCK_PADDING
  }

  /** The least integer not below `x`. */
  function Ceil(x: real): (c: int)
    ensures c as real - 1.0 < x <= c as real
  {
    if x.Floor as real == x then x.Floor else x.Floor + 1
  }

  /** `f32::ceil` followed by Rust's saturating `as u32`. */
  function CeilToU32(x: real): (r: nat)
    ensures r < U32_LIMIT
    ensures 0.0 <= x <= (U32_LIMIT - 1) as real ==> r as real - 1.0 < x <= r as real
    ensures x <= 0.0 ==> r == 0
  {
    var c := Ceil(x);
    if c < 0 then 0 else if c >= U32_LIMIT then U32_LIMIT - 1 else c
  }

  /** The height `calculate_text_height` returns for a document. */
  function TextHeight<S>(m: VMetrics, hl: Highlighter<S>, events: seq<MdEvent>,
                         measure: string -> real, width: nat): nat
  {
    CeilToU32(TOP_MARGIN + BlocksHeight(m, hl, Parse(events), measure, width) + BOTTOM_MARGIN)
  }

  /** `calculate_text_height`. */
  method CalculateTextHeight<S>(m: VMetrics, hl: Highlighter<S>, events: seq<MdEvent>,
                                measure: string -> real, width: nat)
    returns (h: nat)
    ensures h == TextHeight(m, hl, events, measure, width)
  {
    var blocks := ParseMarkdown(events);
    var totalHeight := TOP_MARGIN;
    var k := 0;
    while k < |blocks|
      invariant 0 <= k <= |blocks|
      invariant totalHeight == TOP_MARGIN + BlocksHeight(m, hl, blocks[..k], measure, width)
    {
      var (content, lang, isCodeBlock) := BlockLayout(blocks[k]);
      var blockHeight := CalculateBlockHeight(m, hl, content, width, lang, isCodeBlock, measure);
      totalHeight := totalHeight + blockHeight;
      totalHeight := totalHeight + BLOCK_PADDING;
      assert blocks[..k + 1][..k] == blocks[..k];
      k := k + 1;
    }
    assert blocks[..k] == blocks;
    var total := totalHeight + BOTTOM_MARGIN;
    var ceiling := if total.Floor as real == total then total.Floor else total.Floor + 1;
    if ceiling < 0 {
      h := 0;
    } else if ceiling >= U32_LIMIT {
      h := U32_LIMIT - 1;
    } else {
      h := ceiling;
    }
  }

  /* ---------------- properties ---------------- */

  /** Stacking is multiplication: a block is `ascent + lineHeight * n` tall. */
  lemma {:induction false} StackedIsProduct(x: real, n: nat)
    ensures Stacked(x, n) == x * n as real
  {
    if n > 0 {
      StackedIsProduct(x, n - 1);
    }
  }

  lemma {:induction false} StackedAppend(x: real, a: nat, b: nat)
    ensures Stacked(x, a + b) == Stacked(x, a) + Stacked(x, b)
  {
    if b > 0 {
      StackedAppend(x, a, b - 1);
    }
  }

  /** `StackedAppend` for a count already known to be the sum, so that the
      caller need not rewrite the count. */
  lemma StackedSum(x: real, a: nat, b: nat, c: nat)
    requires c == a + b
    ensures Stacked(x, c) == Stacked(x, a) + Stacked(x, b)
  {
    StackedAppend(x, a, b);
  }

  lemma {:induction false} StackedMonotone(x: real, a: nat, b: nat)
    requires x >= 0.0 && a <= b
    ensures 0.0 <= Stacked(x, a) <= Stacked(x, b)
  {
    if b > a {
      StackedMonotone(x, a, b - 1);
    } else if a > 0 {
      StackedMonotone(x, a - 1, a - 1);
    }
  }

  /** Every source line takes at least one visual line. */
  lemma {:induction false} AtLeastOneLinePerSourceLine<S>(hl: Highlighter<S>, lang: string, lines: seq<string>,
                                                          width: string -> real, maxWidth: real)
    ensures VisualLines(hl, lang, lines, width, maxWidth) >= |lines|
  {
    if lines != [] {
      var before := lines[..|lines| - 1];
      AtLeastOneLinePerSourceLine(hl, lang, before, width, maxWidth);
      WrappedNotEmpty(hl(lang, before, lines[|lines| - 1] + "\n"), width, maxWidth);
    }
  }

  lemma WrappedNotEmpty<S>(ranges: seq<Styled<S>>, width: string -> real, maxWidth: real)
    ensures |Wrapped(ranges, width, maxWidth)| >= 1
  {
  }

  /** With non-negative line height, a block is at least as tall as its
      ascent plus one line per source line. */
  lemma BlockHeightLowerBound<S>(m: VMetrics, hl: Highlighter<S>, text: string, lang: string,
                                 width: string -> real, maxWidth: real)
    requires LineHeight(m) >= 0.0
    ensures BlockHeight(m, hl, text, lang, width, maxWidth) >= m.ascent + Stacked(LineHeight(m), |Lines(text)|)
  {
    AtLeastOneLinePerSourceLine(hl, lang, Lines(text), width, maxWidth);
    StackedMonotone(LineHeight(m), |Lines(text)|, VisualLines(hl, lang, Lines(text), width, maxWidth));
  }

  /** An empty block (no source line) is exactly as tall as the ascent. */
  lemma EmptyBlockHeight<S>(m: VMetrics, hl: Highlighter<S>, lang: string, width: string -> real, maxWidth: real)
    ensures BlockHeight(m, hl, [], lang, width, maxWidth) == m.ascent
  {
  }

  /** With non-negative ascent and line height, every block adds at least
      the padding, so a document of `n` blocks is at least 60 + 15n pixels
      tall (below the u32 ceiling). */
  lemma {:induction false} BlocksHeightLowerBound<S>(m: VMetrics, hl: Highlighter<S>, blocks: seq<ContentBlock>,
                                                     measure: string -> real, width: nat)
    requires m.ascent >= 0.0 && LineHeight(m) >= 0.0
    ensures BlocksHeight(m, hl, blocks, measure, width) >= BLOCK_PADDING * |blocks| as real
  {
    if blocks != [] {
      var (content, lang, isCode) := BlockLayout(blocks[|blocks| - 1]);
      BlocksHeightLowerBound(m, hl, blocks[..|blocks| - 1], measure, width);
      StackedMonotone(LineHeight(m), 0, VisualLines(hl, lang, Lines(content), measure, MaxLineWidth(width, isCode)));
    }
  }

  /** Rounding up and saturating never reverses an order. */
  lemma CeilToU32Monotone(x: real, y: real)
    requires x <= y
    ensures CeilToU32(x) <= CeilToU32(y)
  {
  }

  /** A whole number of pixels in range is returned unchanged. */
  lemma CeilToU32OfWhole(k: int)
    ensures CeilToU32(k as real) == if k < 0 then 0 else if k < U32_LIMIT then k else U32_LIMIT - 1
  {
  }

  /** A document of `n` blocks is at least 60 + 15n pixels tall, or the
      largest u32 when that does not fit. */
  lemma TextHeightLowerBound<S>(m: VMetrics, hl: Highlighter<S>, events: seq<MdEvent>,
                                measure: string -> real, width: nat)
    requires m.ascent >= 0.0 && LineHeight(m) >= 0.0
    ensures var least := 60 + 15 * |Parse(events)|;
            TextHeight(m, hl, events, measure, width) >= if least < U32_LIMIT then least else U32_LIMIT - 1
  {
    var n := |Parse(events)|;
    var total := TOP_MARGIN + BlocksHeight(m, hl, Parse(events), measure, width) + BOTTOM_MARGIN;
    BlocksHeightLowerBound(m, hl, Parse(events), measure, width);
    assert (60 + 15 * n) as real <= total;
    CeilToU32Monotone((60 + 15 * n) as real, total);
    CeilToU32OfWhole(60 + 15 * n);
  }

  /** A document with no blocks is 60 pixels tall: the top and bottom margins. */
  lemma EmptyTextHeight<S>(m: VMetrics, hl: Highlighter<S>, events: seq<MdEvent>,
                           measure: string -> real, width: nat)
    requires Parse(events) == []
    ensures TextHeight(m, hl, events, measure, width) == 60
  {
  }
}
