/** The line-wrap engine of the overlay: `split_segment_into_tokens` cuts a
    string into maximal runs of whitespace or non-whitespace, and
    `wrap_line_with_syntax` greedily packs the tokens of one highlighted source
    line into visual lines no wider than a maximum.  The style of a range is an
    opaque value `S` and the pixel width of a token is a function `width`
    supplied by the caller (the font's summed advance widths). */
module Wrap {
  import opened Strings

  /** A piece of text with a style: a highlighter range, or a wrapped token. */
  datatype Styled<S> = Styled(style: S, text: string)

  type Line<S> = seq<Styled<S>>

  /* ---------------- tokenizer ---------------- */

  /** Whether a token is a whitespace run; tokens are never empty. */
  predicate IsSpaceRun(t: string)
    requires t != []
  {
    IsWhitespace(t[0])
  }

  /** Every character of `t` has the class of its first one. */
  predicate Uniform(t: string) {
    t != [] && forall i :: 0 <= i < |t| ==> IsWhitespace(t[i]) == IsWhitespace(t[0])
  }

  function Concat(ts: seq<string>): string {
    if ts == [] then [] else Concat(ts[..|ts| - 1]) + ts[|ts| - 1]
  }

  /** What the tokenizer promises: the tokens spell `s`, each is a non-empty
      uniform run, and neighbours have different classes (so runs are maximal). */
  predicate IsRunSplit(ts: seq<string>, s: string) {
    && Concat(ts) == s
    && (forall k :: 0 <= k < |ts| ==> Uniform(ts[k]))
    && (forall k :: 0 <= k < |ts| - 1 ==> IsWhitespace(ts[k][0]) != IsWhitespace(ts[k + 1][0]))
  }

  /** The tokens of `s`, built one character at a time from the left as the
      source's loop does: a character joins the last token when it has that
      token's class, and starts a new token otherwise. */
  function Tokenize(s: string): (ts: seq<string>)
    ensures forall k :: 0 <= k < |ts| ==> ts[k] != []
    decreases |s|
  {
    if s == [] then []
    else
      var prev := Tokenize(s[..|s| - 1]);
      var c := s[|s| - 1];
      if prev != [] && IsWhitespace(prev[|prev| - 1][0]) == IsWhitespace(c)
      then prev[..|prev| - 1] + [prev[|prev| - 1] + [c]]
      else prev + [[c]]
  }

  lemma ConcatSnoc(ts: seq<string>, t: string)
    ensures Concat(ts + [t]) == Concat(ts) + t
  {
    assert (ts + [t])[..|ts|] == ts;
  }

  lemma {:induction false} TokenizeIsRunSplit(s: string)
    ensures IsRunSplit(Tokenize(s), s)
    decreases |s|
  {
    if s != [] {
      var init := s[..|s| - 1];
      var c := s[|s| - 1];
      assert init + [c] == s;
      TokenizeIsRunSplit(init);
      TokenizeStep(init, c);
    }
  }

  /** Appending one character keeps the tokenizer's promise. */
  lemma TokenizeStep(init: string, c: char)
    requires IsRunSplit(Tokenize(init), init)
    ensures IsRunSplit(Tokenize(init + [c]), init + [c])
  {
    var s := init + [c];
    assert s[..|s| - 1] == init;
    var prev := Tokenize(init);
    if prev != [] && IsWhitespace(prev[|prev| - 1][0]) == IsWhitespace(c) {
      assert Tokenize(s) == prev[..|prev| - 1] + [prev[|prev| - 1] + [c]];
      ExtendLastRun(prev, init, c);
    } else {
      assert Tokenize(s) == prev + [[c]];
      StartNewRun(prev, init, c);
    }
  }

  /** A character of the last run's class extends that run. */
  lemma ExtendLastRun(prev: seq<string>, init: string, c: char)
    requires IsRunSplit(prev, init)
    requires prev != [] && IsWhitespace(prev[|prev| - 1][0]) == IsWhitespace(c)
    ensures IsRunSplit(prev[..|prev| - 1] + [prev[|prev| - 1] + [c]], init + [c])
  {
    var front := prev[..|prev| - 1];
    var last := prev[|prev| - 1];
    var ts := front + [last + [c]];
    assert prev == front + [last];
    ConcatSnoc(front, last);
    ConcatSnoc(front, last + [c]);
    forall k | 0 <= k < |ts| ensures Uniform(ts[k]) {
      if k < |front| {
        assert ts[k] == prev[k];
      } else {
        assert Uniform(last);
      }
    }
    forall k | 0 <= k < |ts| - 1 ensures IsWhitespace(ts[k][0]) != IsWhitespace(ts[k + 1][0]) {
      assert ts[k] == prev[k];
      assert ts[k + 1][0] == prev[k + 1][0];
    }
  }

  /** A character of the other class (or the first character) starts a run. */
  lemma StartNewRun(prev: seq<string>, init: string, c: char)
    requires IsRunSplit(prev, init)
    requires prev == [] || IsWhitespace(prev[|prev| - 1][0]) != IsWhitespace(c)
    ensures IsRunSplit(prev + [[c]], init + [c])
  {
    var ts := prev + [[c]];
    ConcatSnoc(prev, [c]);
    forall k | 0 <= k < |ts| ensures Uniform(ts[k]) {
      if k < |prev| {
        assert ts[k] == prev[k];
      }
    }
    forall k | 0 <= k < |ts| - 1 ensures IsWhitespace(ts[k][0]) != IsWhitespace(ts[k + 1][0]) {
      assert ts[k] == prev[k];
    }
  }

  /** One more character, as the tokenizer takes it. */
  lemma TokenizeSnoc(init: string, c: char)
    ensures var prev := Tokenize(init);
      Tokenize(init + [c])
      == if prev != [] && IsWhitespace(prev[|prev| - 1][0]) == IsWhitespace(c)
         then prev[..|prev| - 1] + [prev[|prev| - 1] + [c]]
         else prev + [[c]]
  {
    assert (init + [c])[..|init|] == init;
  }

  /** The tokens of the empty string are none, and only of it. */
  lemma TokenizeEmpty(s: string)
    ensures Tokenize(s) == [] <==> s == []
  {
    TokenizeIsRunSplit(s);
  }

  /** `split_segment_into_tokens`. */
  method SplitSegmentIntoTokens(s: string) returns (tokens: seq<string>)
    ensures tokens == Tokenize(s)
    ensures IsRunSplit(tokens, s)
  {
    tokens := [];
    var current: string := [];
    var inWhitespace := false;
    if |s| > 0 {
      inWhitespace := IsWhitespace(s[0]);
    }
    var i := 0;
    while i < |s|
      invariant 0 <= i <= |s|
      invariant (if current == [] then tokens else tokens + [current]) == Tokenize(s[..i])
      invariant current == [] <==> i == 0
      invariant current != [] ==> inWhitespace == IsWhitespace(current[0])
    {
      var c := s[i];
      var charIsWhitespace := IsWhitespace(c);
      assert s[..i + 1] == s[..i] + [c];
      TokenizeSnoc(s[..i], c);
      if current == [] {
        current := [c];
        inWhitespace := charIsWhitespace;
      } else if charIsWhitespace == inWhitespace {
        current := current + [c];
      } else {
        tokens := tokens + [current];
        current := [c];
        inWhitespace := charIsWhitespace;
      }
      i := i + 1;
    }
    assert s[..i] == s;
    if current != [] {
      tokens := tokens + [current];
    }
    TokenizeIsRunSplit(s);
  }

  /* ---------------- greedy wrap: specification ---------------- */

  /** A range as the wrap engine sees it: trailing '\n's, then trailing '\r's, removed. */
  function Clean(t: string): string {
    TrimEndChar(TrimEndChar(t, '\n'), '\r')
  }

  function Tag<S>(style: S, ts: seq<string>): (r: seq<Styled<S>>)
    ensures |r| == |ts|
    ensures forall k :: 0 <= k < |ts| ==> r[k] == Styled(style, ts[k])
  {
    seq(|ts|, k requires 0 <= k < |ts| => Styled(style, ts[k]))
  }

  /** The styled tokens of a list of ranges, in order. */
  function AllTokens<S>(ranges: seq<Styled<S>>): seq<Styled<S>> {
    if ranges == [] then []
    else
      var last := ranges[|ranges| - 1];
      AllTokens(ranges[..|ranges| - 1]) + Tag(last.style, Tokenize(Clean(last.text)))
  }

  function LineWidth<S>(line: Line<S>, width: string -> real): real {
    if line == [] then 0.0 else LineWidth(line[..|line| - 1], width) + width(line[|line| - 1].text)
  }

  function Flatten<S>(lines: seq<Line<S>>): Line<S> {
    if lines == [] then [] else Flatten(lines[..|lines| - 1]) + lines[|lines| - 1]
  }

  /** The loop state of `wrap_line_with_syntax`: the closed lines, the line
      being filled, and its pixel width. */
  datatype WrapState<S> = WrapState(done: seq<Line<S>>, current: Line<S>, currentWidth: real)

  /** One token: close the current line first when the token would overflow
      it and the line already has some width. */
  function Step<S>(st: WrapState<S>, t: Styled<S>, width: string -> real, maxWidth: real): WrapState<S> {
    var w := width(t.text);
    if st.currentWidth + w > maxWidth && st.currentWidth > 0.0
    then WrapState(st.done + [st.current], [t], w)
    else WrapState(st.done, st.current + [t], st.currentWidth + w)
  }

  /** The loop state after the tokens `toks`, starting from `st`. */
  function FoldFrom<S>(st: WrapState<S>, toks: seq<Styled<S>>, width: string -> real, maxWidth: real): WrapState<S> {
    if toks == [] then st
    else Step(FoldFrom(st, toks[..|toks| - 1], width, maxWidth), toks[|toks| - 1], width, maxWidth)
  }

  /** The loop state after the tokens `toks`, starting from nothing. */
  function Fold<S>(toks: seq<Styled<S>>, width: string -> real, maxWidth: real): WrapState<S> {
    FoldFrom(WrapState([], [], 0.0), toks, width, maxWidth)
  }

  function Finish<S>(st: WrapState<S>): seq<Line<S>> {
    var lines := if st.current != [] then st.done + [st.current] else st.done;
    if lines == [] then [[]] else lines
  }

  /** The visual lines `wrap_line_with_syntax` produces for one source line. */
  function Wrapped<S>(ranges: seq<Styled<S>>, width: string -> real, maxWidth: real): seq<Line<S>> {
    Finish(Fold(AllTokens(ranges), width, maxWidth))
  }

  /* ---------------- greedy wrap: the method ---------------- */

  /** The inner loop of `wrap_line_with_syntax`: places the tokens of one
      range, all with that range's style, after the lines built so far. */
  method PlaceTokens<S>(done0: seq<Line<S>>, current0: Line<S>, currentWidth0: real, style: S,
                        tokens: seq<string>, width: string -> real, maxWidth: real)
    returns (done: seq<Line<S>>, current: Line<S>, currentWidth: real)
    ensures WrapState(done, current, currentWidth)
         == FoldFrom(WrapState(done0, current0, currentWidth0), Tag(style, tokens), width, maxWidth)
  {
    ghost var start := WrapState(done0, current0, currentWidth0);
    done, current, currentWidth := done0, current0, currentWidth0;
    var j := 0;
    while j < |tokens|
      invariant 0 <= j <= |tokens|
      invariant WrapState(done, current, currentWidth) == FoldFrom(start, Tag(style, tokens)[..j], width, maxWidth)
    {
      var token := tokens[j];
      var w := width(token);
      ghost var before := WrapState(done, current, currentWidth);
      ghost var next := Tag(style, tokens)[..j + 1];
      assert next[..j] == Tag(style, tokens)[..j];
      assert FoldFrom(start, next, width, maxWidth) == Step(before, Styled(style, token), width, maxWidth);
      if currentWidth + w > maxWidth && currentWidth > 0.0 {
        done := done + [current];
        current := [];
        currentWidth := 0.0;
      }
      current := current + [Styled(style, token)];
      currentWidth := currentWidth + w;
      assert WrapState(done, current, currentWidth) == Step(before, Styled(style, token), width, maxWidth);
      j := j + 1;
    }
    assert Tag(style, tokens)[..j] == Tag(style, tokens);
  }

  /** `wrap_line_with_syntax`. */
  method WrapLineWithSyntax<S>(ranges: seq<Styled<S>>, width: string -> real, maxWidth: real)
    returns (lines: seq<Line<S>>)
    ensures lines == Wrapped(ranges, width, maxWidth)
  {
    var done: seq<Line<S>> := [];
    var current: Line<S> := [];
    var currentWidth: real := 0.0;
    var k := 0;
    while k < |ranges|
      invariant 0 <= k <= |ranges|
      invariant WrapState(done, current, currentWidth) == Fold(AllTokens(ranges[..k]), width, maxWidth)
    {
      var style := ranges[k].style;
      var clean := TrimEndChar(TrimEndChar(ranges[k].text, '\n'), '\r');
      ghost var consumed := AllTokens(ranges[..k]);
      if |clean| == 0 {
        NextRange(ranges, k);
        TokenizeEmpty(clean);
        assert consumed + Tag(style, Tokenize(clean)) == consumed;
        k := k + 1;
        continue;
      }
      var tokens := SplitSegmentIntoTokens(clean);
      done, current, currentWidth := PlaceTokens(done, current, currentWidth, style, tokens, width, maxWidth);
      FoldAppend(consumed, Tag(style, tokens), width, maxWidth);
      NextRange(ranges, k);
      k := k + 1;
    }
    assert ranges[..k] == ranges;
    if |current| > 0 {
      done := done + [current];
    }
    if |done| == 0 {
      done := [[]];
    }
    lines := done;
  }

  /** Folding `a + b` is folding `a`, then `b` from where `a` left off. */
  lemma {:induction false} FoldAppend<S>(a: seq<Styled<S>>, b: seq<Styled<S>>, width: string -> real, maxWidth: real)
    ensures Fold(a + b, width, maxWidth) == FoldFrom(Fold(a, width, maxWidth), b, width, maxWidth)
  {
    if b != [] {
      assert (a + b)[..|a + b| - 1] == a + b[..|b| - 1];
      assert (a + b)[|a + b| - 1] == b[|b| - 1];
      FoldAppend(a, b[..|b| - 1], width, maxWidth);
    } else {
      assert a + b == a;
    }
  }

  /** The tokens of the first `k + 1` ranges extend those of the first `k`. */
  lemma NextRange<S>(ranges: seq<Styled<S>>, k: nat)
    requires k < |ranges|
    ensures AllTokens(ranges[..k + 1])
         == AllTokens(ranges[..k]) + Tag(ranges[k].style, Tokenize(Clean(ranges[k].text)))
  {
    assert ranges[..k + 1][..k] == ranges[..k];
  }

  /* ---------------- greedy wrap: properties ---------------- */

  ghost predicate NonNegative(width: string -> real) {
    forall t :: width(t) >= 0.0
  }

  /** A line fits: it is within the maximum, or everything before its last
      token has no width (the overflow comes from a single token). */
  ghost predicate Fits<S>(line: Line<S>, width: string -> real, maxWidth: real) {
    line == [] || LineWidth(line, width) <= maxWidth || LineWidth(line[..|line| - 1], width) == 0.0
  }

  /** Line `b` was started because its first token overflowed line `a`, which
      already had some width. */
  ghost predicate BrokeBetween<S>(a: Line<S>, b: Line<S>, width: string -> real, maxWidth: real) {
    b != [] && LineWidth(a, width) > 0.0 && LineWidth(a, width) + width(b[0].text) > maxWidth
  }

  ghost predicate WrapInv<S>(st: WrapState<S>, width: string -> real, maxWidth: real) {
    && st.currentWidth == LineWidth(st.current, width)
    && (forall i :: 0 <= i < |st.done| ==> st.done[i] != [] && Fits(st.done[i], width, maxWidth))
    && Fits(st.current, width, maxWidth)
    && (forall i :: 0 <= i < |st.done| - 1 ==> BrokeBetween(st.done[i], st.done[i + 1], width, maxWidth))
    && (st.done != [] ==> BrokeBetween(st.done[|st.done| - 1], st.current, width, maxWidth))
  }

  lemma LineWidthNonNegative<S>(line: Line<S>, width: string -> real)
    requires NonNegative(width)
    ensures LineWidth(line, width) >= 0.0
  {
  }

  lemma StepKeepsInv<S>(st: WrapState<S>, t: Styled<S>, width: string -> real, maxWidth: real)
    requires NonNegative(width)
    requires WrapInv(st, width, maxWidth)
    ensures WrapInv(Step(st, t, width, maxWidth), width, maxWidth)
  {
    var w := width(t.text);
    LineWidthNonNegative(st.current, width);
    if st.currentWidth + w > maxWidth && st.currentWidth > 0.0 {
      assert st.current != [];
      assert [t][..0] == [];
      assert LineWidth([t], width) == w;
    } else {
      assert (st.current + [t])[..|st.current|] == st.current;
    }
  }

  lemma StepFlattens<S>(st: WrapState<S>, t: Styled<S>, width: string -> real, maxWidth: real)
    ensures Flatten(Step(st, t, width, maxWidth).done) + Step(st, t, width, maxWidth).current
         == Flatten(st.done) + st.current + [t]
  {
    var st' := Step(st, t, width, maxWidth);
    if st'.done != st.done {
      assert st'.done[..|st.done|] == st.done;
    }
  }

  lemma {:induction false} FoldKeepsInv<S>(st: WrapState<S>, toks: seq<Styled<S>>, width: string -> real, maxWidth: real)
    requires NonNegative(width)
    requires WrapInv(st, width, maxWidth)
    ensures WrapInv(FoldFrom(st, toks, width, maxWidth), width, maxWidth)
  {
    if toks != [] {
      var init := toks[..|toks| - 1];
      FoldKeepsInv(st, init, width, maxWidth);
      StepKeepsInv(FoldFrom(st, init, width, maxWidth), toks[|toks| - 1], width, maxWidth);
    }
  }

  lemma {:induction false} FoldFlattens<S>(st: WrapState<S>, toks: seq<Styled<S>>, width: string -> real, maxWidth: real)
    ensures Flatten(FoldFrom(st, toks, width, maxWidth).done) + FoldFrom(st, toks, width, maxWidth).current
         == Flatten(st.done) + st.current + toks
  {
    if toks != [] {
      var init := toks[..|toks| - 1];
      FoldFlattens(st, init, width, maxWidth);
      StepFlattens(FoldFrom(st, init, width, maxWidth), toks[|toks| - 1], width, maxWidth);
      assert init + [toks[|toks| - 1]] == toks;
    } else {
      assert Flatten(st.done) + st.current + toks == Flatten(st.done) + st.current;
    }
  }

  /** No token is split, dropped or re-styled: the visual lines, read in order,
      are exactly the tokens of the ranges, each tagged with its range's style. */
  lemma WrappedFlattens<S>(ranges: seq<Styled<S>>, width: string -> real, maxWidth: real)
    ensures Flatten(Wrapped(ranges, width, maxWidth)) == AllTokens(ranges)
  {
    var st := Fold(AllTokens(ranges), width, maxWidth);
    FoldFlattens(WrapState([], [], 0.0), AllTokens(ranges), width, maxWidth);
    var lines := if st.current != [] then st.done + [st.current] else st.done;
    if st.current != [] {
      assert lines[..|lines| - 1] == st.done;
    } else {
      assert Flatten(st.done) + st.current == Flatten(st.done);
    }
    if lines == [] {
      var one: seq<Line<S>> := [[]];
      assert Flatten(one) == Flatten(one[..0]) + one[0];
    }
  }

  /** Every range that is empty once its line ending is stripped gives no token. */
  lemma {:induction false} AllTokensEmpty<S>(ranges: seq<Styled<S>>)
    ensures AllTokens(ranges) == [] <==> forall k :: 0 <= k < |ranges| ==> Clean(ranges[k].text) == []
  {
    if ranges != [] {
      var init := ranges[..|ranges| - 1];
      AllTokensEmpty(init);
      TokenizeEmpty(Clean(ranges[|ranges| - 1].text));
      assert forall k :: 0 <= k < |init| ==> ranges[k] == init[k];
    }
  }

  /** There is always at least one visual line; it is the single empty line
      exactly when every range is empty after stripping its line ending, and
      otherwise no visual line is empty. */
  lemma WrappedShape<S>(ranges: seq<Styled<S>>, width: string -> real, maxWidth: real)
    requires NonNegative(width)
    ensures var lines := Wrapped(ranges, width, maxWidth);
      && |lines| >= 1
      && (lines == [[]] <==> forall k :: 0 <= k < |ranges| ==> Clean(ranges[k].text) == [])
      && (lines != [[]] ==> forall i :: 0 <= i < |lines| ==> lines[i] != [])
  {
    var st := Fold(AllTokens(ranges), width, maxWidth);
    FoldKeepsInv(WrapState([], [], 0.0), AllTokens(ranges), width, maxWidth);
    FoldFlattens(WrapState([], [], 0.0), AllTokens(ranges), width, maxWidth);
    AllTokensEmpty(ranges);
    FinishShape(st, width, maxWidth);
  }

  /** The closing step: the lone empty line stands exactly for a state that
      holds no token; otherwise every line holds one. */
  lemma FinishShape<S>(st: WrapState<S>, width: string -> real, maxWidth: real)
    requires WrapInv(st, width, maxWidth)
    ensures |Finish(st)| >= 1
    ensures Finish(st) == [[]] <==> Flatten(st.done) + st.current == []
    ensures Finish(st) != [[]] ==> forall i :: 0 <= i < |Finish(st)| ==> Finish(st)[i] != []
  {
    if st.current != [] {
      var lines := st.done + [st.current];
      assert Finish(st) == lines;
      assert lines[|lines| - 1] != [];
    }
  }

  /** The width bound: every visual line is within `maxWidth` unless everything
      before its last token has zero width; and a line ends only because the
      next line's first token would have overflowed it while it already had
      some width (the greedy rule). */
  lemma WrappedWidths<S>(ranges: seq<Styled<S>>, width: string -> real, maxWidth: real)
    requires NonNegative(width)
    ensures var lines := Wrapped(ranges, width, maxWidth);
      && (forall i :: 0 <= i < |lines| ==> Fits(lines[i], width, maxWidth))
      && (forall i :: 0 <= i < |lines| - 1 ==> BrokeBetween(lines[i], lines[i + 1], width, maxWidth))
  {
    var st := Fold(AllTokens(ranges), width, maxWidth);
    FoldKeepsInv(WrapState([], [], 0.0), AllTokens(ranges), width, maxWidth);
    var lines := Wrapped(ranges, width, maxWidth);
    if st.current != [] {
      assert lines == st.done + [st.current];
    }
  }

  /** With a font where every non-empty token has positive width, a line
      wider than the maximum holds at most one token (it is the lone empty
      line only when the maximum is negative). */
  lemma OverflowIsSingleToken<S>(ranges: seq<Styled<S>>, width: string -> real, maxWidth: real, i: nat)
    requires NonNegative(width)
    requires forall t :: t != [] ==> width(t) > 0.0
    requires i < |Wrapped(ranges, width, maxWidth)|
    requires LineWidth(Wrapped(ranges, width, maxWidth)[i], width) > maxWidth
    ensures |Wrapped(ranges, width, maxWidth)[i]| <= 1
  {
    var lines := Wrapped(ranges, width, maxWidth);
    WrappedWidths(ranges, width, maxWidth);
    TokensOfLinesNonEmpty(ranges, width, maxWidth, i);
    ZeroPrefixIsSingle(lines[i], width);
  }

  /** A line of non-empty tokens whose tokens before the last have no width
      holds one token, when non-empty text always has positive width. */
  lemma ZeroPrefixIsSingle<S>(line: Line<S>, width: string -> real)
    requires NonNegative(width)
    requires forall t :: t != [] ==> width(t) > 0.0
    requires forall j :: 0 <= j < |line| ==> line[j].text != []
    ensures |line| >= 1 && LineWidth(line[..|line| - 1], width) == 0.0 ==> |line| == 1
  {
    if |line| > 1 {
      var init := line[..|line| - 1];
      assert init[..|init| - 1] == line[..|line| - 2];
      LineWidthNonNegative(init[..|init| - 1], width);
      assert init[|init| - 1].text != [];
    }
  }

  /** The text of every wrapped token is non-empty. */
  lemma TokensOfLinesNonEmpty<S>(ranges: seq<Styled<S>>, width: string -> real, maxWidth: real, i: nat)
    requires i < |Wrapped(ranges, width, maxWidth)|
    ensures forall j :: 0 <= j < |Wrapped(ranges, width, maxWidth)[i]| ==> Wrapped(ranges, width, maxWidth)[i][j].text != []
  {
    var lines := Wrapped(ranges, width, maxWidth);
    WrappedFlattens(ranges, width, maxWidth);
    AllTokensNonEmpty(ranges);
    FlattenContains(lines, i);
  }

  lemma {:induction false} AllTokensNonEmpty<S>(ranges: seq<Styled<S>>)
    ensures forall j :: 0 <= j < |AllTokens(ranges)| ==> AllTokens(ranges)[j].text != []
  {
    if ranges != [] {
      AllTokensNonEmpty(ranges[..|ranges| - 1]);
    }
  }

  /** Every token of line `i` occurs in the flattened lines. */
  lemma {:induction false} FlattenContains<S>(lines: seq<Line<S>>, i: nat)
    requires i < |lines|
    ensures forall j :: 0 <= j < |lines[i]| ==> lines[i][j] in Flatten(lines)
  {
    if i < |lines| - 1 {
      FlattenContains(lines[..|lines| - 1], i);
    }
  }
}
