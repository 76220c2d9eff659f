/** The overlay window's own state (`AppState` in src/overlay.rs): its size
    reconciled with the height of the text it shows, the vertical scroll
    offset, the margins a pointer drag moves, visibility and the current
    workspace.  Wayland objects, the pixel buffer and the clock are not
    modelled; files enter as a `readFile` function from a path to its
    content (None when it cannot be read). */
module Overlay {
  import opened Wrappers
  import opened Strings
  import opened Numbers
  import opened Markdown
  import opened Height
  import opened Workspace

  function Min(a: real, b: real): real { if a <= b then a else b }
  function Max(a: real, b: real): real { if a >= b then a else b }

  /** The `[app]` settings the overlay reads. */
  datatype AppConfig = AppConfig(width: U32, maxHeight: U32, scrollSpeed: real, autoScroll: bool)

  /** Everything `calculate_text_height` needs besides the text and width:
      font metrics, glyph widths, the highlighter and the markdown parser. */
  datatype Layout<S> = Layout(metrics: VMetrics, highlight: Highlighter<S>,
                              markdown: string -> seq<MdEvent>, measure: string -> real)

  /** `calculate_text_height` with the overlay's font, syntax set and theme
      fixed, as a function of the text and the window width: the function the
      window state is parameterised by. */
  function TextHeightFn<S>(layout: Layout<S>): (string, U32) -> nat {
    (text, width) => TextHeight(layout.metrics, layout.highlight, layout.markdown(text), layout.measure, width)
  }

  const MARGIN_LOG: string := "margin.log"
  const DEFAULT_MARGIN: int := 20
  const BTN_LEFT: nat := 0x110
  const KEY_ESC: nat := 1
  const KEY_R: nat := 19

  /* ---------------- text and height ---------------- */

  /** `load_text_from_log`: the file content, unless it is missing or blank. */
  function LoadTextFromLog(content: Option<string>): (r: Option<string>)
    ensures r.Some? <==> content.Some? && !AllWhitespace(content.value)
    ensures r.Some? ==> r.value == content.value
  {
    match content
    case None => None
    case Some(s) =>
      TrimEmptyIffWhitespace(s);
      if Trim(s) == [] then None else Some(s)
  }

  /** The text shown for a workspace: its log, or the keybinding help. */
  function TextFor(readFile: string -> Option<string>, workspace: nat, defaultText: string): string {
    match LoadTextFromLog(readFile(TextLogPath(workspace)))
    case Some(t) => t
    case None => defaultText
  }

  /** The window height for text of the given height: never above the
      configured maximum. */
  function FittedHeight(total: nat, maxHeight: U32): (h: U32)
    ensures h <= total && h <= maxHeight
    ensures h == total || h == maxHeight
  {
    if total < maxHeight then total else maxHeight
  }

  /** How far the text can scroll: the part of it below the window. */
  function MaxScroll(total: nat, height: nat): (m: real)
    ensures m >= 0.0
    ensures m > 0.0 <==> total > height
  {
    Max(total as real - height as real, 0.0)
  }

  /** The Axis arm: `(offset + value / speed).max(0.0).min(max)` in f32.  A
      zero speed makes the amount an infinity with the sign of `value`
      (clamped to an end), or NaN for a zero `value`, which `max(0.0)` turns
      into 0. */
  function ScrolledOffset(offset: real, value: real, speed: real, maxOffset: real): (r: real)
    ensures maxOffset >= 0.0 ==> 0.0 <= r <= maxOffset
    ensures speed != 0.0 && 0.0 <= offset + value / speed <= maxOffset ==> r == offset + value / speed
    ensures speed != 0.0 && offset + value / speed < 0.0 && maxOffset >= 0.0 ==> r == 0.0
    ensures speed != 0.0 && offset + value / speed > maxOffset && maxOffset >= 0.0 ==> r == maxOffset
  {
    if speed == 0.0 then
      Min(if value > 0.0 then maxOffset else 0.0, maxOffset)
    else
      Min(Max(offset + value / speed, 0.0), maxOffset)
  }

  /** The state after the workspace check read `n`: a different non-zero
      workspace is taken, scrolled to the top, with a text check due and a
      redraw requested; anything else leaves the state as it was. */
  function Switched(st: OverlayState, n: Option<U32>): (r: OverlayState)
    ensures n.Some? && n.value != st.currentWorkspace && n.value > 0 ==>
            r.currentWorkspace == n.value && r.scrollOffsetY == 0.0 && r.textUpdateDue &&
            r.textChanged == (st.surfaceReady && !st.visible)
    // every field but those four is kept: margins, visibility, drag state, text, size
    ensures r.(currentWorkspace := st.currentWorkspace, scrollOffsetY := st.scrollOffsetY,
               textUpdateDue := st.textUpdateDue, textChanged := st.textChanged) == st
    ensures !(n.Some? && n.value != st.currentWorkspace && n.value > 0) ==> r == st
    ensures r.text == st.text && r.height == st.height && r.maxScrollOffsetY == st.maxScrollOffsetY
  {
    if n.Some? && n.value != st.currentWorkspace && n.value > 0
    then st.(currentWorkspace := n.value, scrollOffsetY := 0.0, textUpdateDue := true,
             textChanged := st.surfaceReady && !st.visible)
    else st
  }

  /** The state after `update_text_from_log` loaded `newText`, whose height
      is `total`: the check is no longer due, and a different text is taken
      with the window fitted to it and a redraw requested. */
  function TextTaken(st: OverlayState, newText: string, total: nat, config: AppConfig): (r: OverlayState)
    ensures !r.textUpdateDue
    ensures newText == st.text ==> r == st.(textUpdateDue := false)
    ensures newText != st.text ==> r.text == newText && r.textChanged && r.height <= config.maxHeight
    ensures newText != st.text && config.autoScroll ==> r.scrollOffsetY == r.maxScrollOffsetY
    ensures r.currentWorkspace == st.currentWorkspace && r.marginX == st.marginX && r.marginY == st.marginY
  {
    if newText == st.text then st.(textUpdateDue := false)
    else
      var h := FittedHeight(total, config.maxHeight);
      st.(text := newText, textChanged := true, textUpdateDue := false,
          height := h, maxScrollOffsetY := MaxScroll(total, h),
          scrollOffsetY := if config.autoScroll then MaxScroll(total, h)
                           else Min(st.scrollOffsetY, MaxScroll(total, h)))
  }

  /* ---------------- dragging ---------------- */

  /** `f64 as i32`: truncation toward zero, saturating at the bounds. */
  function TruncToI32(r: real): (i: I32)
    ensures r >= 0.0 ==> i >= 0
    ensures r <= 0.0 ==> i <= 0
    ensures 0.0 <= r <= I32_MAX as real ==> i as real <= r < i as real + 1.0
    ensures I32_MIN as real <= r <= 0.0 ==> i as real - 1.0 < r <= i as real
    ensures r > I32_MAX as real ==> i == I32_MAX
    ensures r < I32_MIN as real ==> i == I32_MIN
  {
    var t := if r >= 0.0 then r.Floor else -((-r).Floor);
    if t < I32_MIN then I32_MIN else if t > I32_MAX then I32_MAX else t
  }

  /** Two's-complement wrap-around of i32 addition (a release build; a debug
      build would panic instead). */
  function WrapI32(v: int): (r: I32)
    ensures I32_MIN <= v <= I32_MAX ==> r == v
    ensures (r - v) % U32_LIMIT == 0
  {
    (v - I32_MIN) % U32_LIMIT + I32_MIN
  }

  /** `u32 as i32`. */
  function U32AsI32(u: U32): (r: I32)
    ensures u <= I32_MAX ==> r == u
  {
    if u <= I32_MAX then u else u - U32_LIMIT
  }

  /** `i32::saturating_sub`. */
  function SaturatingSubI32(a: I32, b: I32): (r: I32)
    ensures I32_MIN <= a - b <= I32_MAX ==> r == a - b
  {
    if a - b < I32_MIN then I32_MIN else if a - b > I32_MAX then I32_MAX else a - b
  }

  /** The largest margin that keeps the overlay on the output. */
  function MaxMargin(output: I32, dim: U32): (m: I32)
    ensures m >= 0
    ensures dim <= I32_MAX && output >= 0 ==> m == if output >= dim then output - dim else 0
  {
    var s := SaturatingSubI32(output, U32AsI32(dim));
    if s >= 0 then s else 0
  }

  /** The margin after the pointer moved from `from` to `to`. */
  function DraggedMargin(margin: I32, from: real, to: real, output: I32, dim: U32): (r: I32)
    ensures 0 <= r <= MaxMargin(output, dim)
    ensures var moved := margin + TruncToI32(to - from);
            0 <= moved <= MaxMargin(output, dim) ==> r == moved
  {
    var moved := WrapI32(margin + TruncToI32(to - from));
    var hi := MaxMargin(output, dim);
    if moved < 0 then 0 else if moved > hi then hi else moved
  }

  /** The line `update_drag` appends to margin.log. */
  function DraggingLine(x: int, y: int): string {
    "Dragging: x=" + IntToString(x) + ", y=" + IntToString(y)
  }

  /* ---------------- margin.log ---------------- */

  predicate IsDraggingLine(line: string) {
    Contains(line, "Dragging:")
  }

  /** `trim_end_matches(|c| !c.is_ascii_digit() && c != '-')`. */
  function TrimEndNonNumeric(s: string): (r: string)
    ensures |r| <= |s| && r == s[..|r|]
    ensures forall i :: |r| <= i < |s| ==> !IsAsciiDigit(s[i]) && s[i] != '-'
    ensures r == [] || IsAsciiDigit(r[|r| - 1]) || r[|r| - 1] == '-'
  {
    if s == [] || IsAsciiDigit(s[|s| - 1]) || s[|s| - 1] == '-' then s
    else
      var r := TrimEndNonNumeric(s[..|s| - 1]);
      assert s[..|s| - 1][..|r|] == s[..|r|];
      r
  }

  /** The text between the first "x=" of a line and the next ','. */
  function MarginXText(line: string): (r: Option<string>)
    ensures r.Some? <==> Find(line, "x=").Some? && ',' in line[Find(line, "x=").value + 2..]
    ensures r.Some? ==> var k := Find(line, "x=").value;
            k + 2 + |r.value| < |line| && line[k + 2..k + 2 + |r.value|] == r.value &&
            line[k + 2 + |r.value|] == ',' && ',' !in r.value
  {
    match Find(line, "x=")
    case None => None
    case Some(xStart) =>
      var rest := line[xStart + 2..];
      FindChar(rest, ',');
      match Find(rest, ",")
      case None => None
      case Some(xEnd) =>
        assert rest[..xEnd] == line[xStart + 2..xStart + 2 + xEnd];
        Some(line[xStart + 2..xStart + 2 + xEnd])
  }

  /** The x of a margin line: the integer between the first "x=" and the next
      ','. */
  function ParseMarginX(line: string): (r: Option<int>)
    ensures r.Some? ==> I32_MIN <= r.value <= I32_MAX
    ensures MarginXText(line).None? ==> r.None?
    ensures MarginXText(line).Some? ==> r == ParseI32(Trim(MarginXText(line).value))
  {
    match MarginXText(line)
    case None => None
    case Some(t) => ParseI32(Trim(t))
  }

  /** The text after the first "y=" of a line. */
  function MarginYText(line: string): (r: Option<string>)
    ensures r.Some? <==> Find(line, "y=").Some?
    ensures r.Some? ==> r.value == line[Find(line, "y=").value + 2..]
  {
    match Find(line, "y=")
    case None => None
    case Some(yStart) => Some(line[yStart + 2..])
  }

  /** The y of a margin line: what follows the first "y=", trimmed and with
      trailing characters that cannot end a number removed. */
  function ParseMarginY(line: string): (r: Option<int>)
    ensures r.Some? ==> I32_MIN <= r.value <= I32_MAX
    ensures MarginYText(line).None? ==> r.None?
    ensures MarginYText(line).Some? ==> r == ParseI32(TrimEndNonNumeric(Trim(MarginYText(line).value)))
  {
    match MarginYText(line)
    case None => None
    case Some(t) => ParseI32(TrimEndNonNumeric(Trim(t)))
  }

  /** The last x found on a "Dragging:" line. */
  function LastMarginX(lines: seq<string>): (r: Option<int>)
    ensures r.Some? ==> I32_MIN <= r.value <= I32_MAX
  {
    if lines == [] then None
    else
      var line := lines[|lines| - 1];
      if IsDraggingLine(line) && ParseMarginX(line).Some? then ParseMarginX(line)
      else LastMarginX(lines[..|lines| - 1])
  }

  /** The last y found on a "Dragging:" line, independently of x. */
  function LastMarginY(lines: seq<string>): (r: Option<int>)
    ensures r.Some? ==> I32_MIN <= r.value <= I32_MAX
  {
    if lines == [] then None
    else
      var line := lines[|lines| - 1];
      if IsDraggingLine(line) && ParseMarginY(line).Some? then ParseMarginY(line)
      else LastMarginY(lines[..|lines| - 1])
  }

  /** The last "Dragging:" line, or "" when there is none. */
  function LastDraggingLine(lines: seq<string>): string {
    if lines == [] then ""
    else if IsDraggingLine(lines[|lines| - 1]) then lines[|lines| - 1]
    else LastDraggingLine(lines[..|lines| - 1])
  }

  /** The margins found in a log: both the last x and the last y, or None. */
  function MarginsOf(lines: seq<string>): (r: Option<(int, int)>)
    ensures r.Some? ==> I32_MIN <= r.value.0 <= I32_MAX && I32_MIN <= r.value.1 <= I32_MAX
  {
    match (LastMarginX(lines), LastMarginY(lines))
    case (Some(x), Some(y)) => Some((x, y))
    case _ => None
  }

  /** What a log's margins load as: None also when it cannot be opened. */
  function LoadedMargins(log: Option<string>): (r: Option<(int, int)>)
    ensures r.Some? ==> I32_MIN <= r.value.0 <= I32_MAX && I32_MIN <= r.value.1 <= I32_MAX
  {
    match log
    case None => None
    case Some(content) => MarginsOf(Lines(content))
  }

  /** What margin.log is rewritten to: only its last "Dragging:" line. */
  function RewrittenLog(lastLine: string): string {
    if lastLine == [] then "" else lastLine + "\n"
  }

  /** `load_margins_from_log`: the margins found in margin.log, and the
      content the log is rewritten to (None when the log could not be opened
      and is left alone). */
  method LoadMarginsFromLog(log: Option<string>) returns (margins: Option<(int, int)>, rewritten: Option<string>)
    ensures margins == LoadedMargins(log)
    ensures log.None? ==> rewritten.None?
    ensures log.Some? ==> rewritten == Some(RewrittenLog(LastDraggingLine(Lines(log.value))))
  {
    if log.None? {
      return None, None;
    }
    var lines := Lines(log.value);
    var lastMarginX: Option<int> := None;
    var lastMarginY: Option<int> := None;
    var lastLine := "";
    for i := 0 to |lines|
      invariant lastMarginX == LastMarginX(lines[..i])
      invariant lastMarginY == LastMarginY(lines[..i])
      invariant lastLine == LastDraggingLine(lines[..i])
    {
      var line := lines[i];
      NextLogLine(lines, i);
      if Contains(line, "Dragging:") {
        var x := ParseMarginX(line);
        if x.Some? {
          lastMarginX := x;
        }
        var y := ParseMarginY(line);
        if y.Some? {
          lastMarginY := y;
        }
        lastLine := line;
      }
    }
    assert lines[..|lines|] == lines;
    rewritten := Some(if lastLine != [] then lastLine + "\n" else "");
    margins := match (lastMarginX, lastMarginY)
      case (Some(x), Some(y)) => Some((x, y))
      case _ => None;
  }

  /* ---------------- the window state ---------------- */

  datatype PointerEvent =
    | Enter(x: real, y: real)
    | Leave
    | Motion(x: real, y: real)
    | Button(button: nat, pressed: bool)
    | Axis(vertical: bool, value: real)

  /** All of an `AppState`'s fields, to state what a method leaves alone. */
  datatype OverlayState = OverlayState(
    width: U32, height: U32, marginX: I32, marginY: I32, visible: bool,
    dragging: bool, dragStartX: real, dragStartY: real, pointerX: real, pointerY: real,
    outputWidth: I32, outputHeight: I32, text: string, currentWorkspace: U32,
    textChanged: bool, textUpdateDue: bool, surfaceReady: bool,
    scrollOffsetY: real, maxScrollOffsetY: real)

  class AppState {
    const config: AppConfig
    /** `calculate_text_height` for this overlay (see `TextHeightFn`). */
    const textHeight: (string, U32) -> nat
    /** What loading the margins wrote back to margin.log, or None when it
        could not be opened and was left alone. */
    const marginLogRewrite: Option<string>

    /** The window size: the configured width and the fitted height at
        first, then whatever the compositor's last configure asked for. */
    var width: U32
    var height: U32
    var marginX: I32
    var marginY: I32
    var visible: bool
    var dragging: bool
    var dragStartX: real
    var dragStartY: real
    var pointerX: real
    var pointerY: real
    var outputWidth: I32
    var outputHeight: I32
    var text: string
    var currentWorkspace: U32
    var textChanged: bool
    /** Set when the next text check must run whatever the clock says (the
        source pushes `last_text_update` back by two intervals). */
    var textUpdateDue: bool
    /** Whether a surface and the shared-memory global are bound, so that
        `draw_overlay` can draw. */
    var surfaceReady: bool
    var scrollOffsetY: real
    var maxScrollOffsetY: real

    function State(): OverlayState
      reads this
    {
      OverlayState(width, height, marginX, marginY, visible, dragging, dragStartX, dragStartY,
                   pointerX, pointerY, outputWidth, outputHeight, text, currentWorkspace,
                   textChanged, textUpdateDue, surfaceReady, scrollOffsetY, maxScrollOffsetY)
    }

    /** The scroll offset lies in the scroll range.  Every event keeps this. */
    ghost predicate Valid()
      reads this
    {
      0.0 <= scrollOffsetY <= maxScrollOffsetY
    }

    /** The window height and the scroll range agree with the height of the
        text at the window's width.  Loading or changing the text establishes
        this; a configure from the compositor can break it until the text
        next changes. */
    ghost predicate Fitted()
      reads this
    {
      var total := textHeight(text, width);
      height == FittedHeight(total, config.maxHeight)
      && maxScrollOffsetY == MaxScroll(total, height)
    }

    /** `AppState::new`. */
    constructor(config: AppConfig, textHeight: (string, U32) -> nat, readFile: string -> Option<string>, defaultText: string)
      ensures this.config == config && this.textHeight == textHeight
      ensures Valid() && Fitted() && width == config.width
      ensures var m := LoadedMargins(readFile(MARGIN_LOG));
              (marginX, marginY) == if m.Some? then m.value else (DEFAULT_MARGIN, DEFAULT_MARGIN)
      ensures var w := ReadCurrentWorkspace(readFile(WORKSPACE_STATE_FILE));
              currentWorkspace == if w.Some? then w.value else 1
      ensures text == TextFor(readFile, currentWorkspace, defaultText)
      ensures visible && !dragging && !textChanged && !textUpdateDue && !surfaceReady
      ensures scrollOffsetY == 0.0 && pointerX == 0.0 && pointerY == 0.0
      ensures outputWidth == 1920 && outputHeight == 1080
      ensures var log := readFile(MARGIN_LOG);
              marginLogRewrite == if log.Some? then Some(RewrittenLog(LastDraggingLine(Lines(log.value)))) else None
    {
      var margins, rewritten := LoadMarginsFromLog(readFile(MARGIN_LOG));
      var (loadedX, loadedY) := if margins.Some? then margins.value else (DEFAULT_MARGIN, DEFAULT_MARGIN);
      var workspace := ReadCurrentWorkspace(readFile(WORKSPACE_STATE_FILE));
      var initialWorkspace: U32 := if workspace.Some? then workspace.value else 1;
      var loaded := LoadTextFromLog(readFile(TextLogPath(initialWorkspace)));
      this.config := config;
      this.textHeight := textHeight;
      marginLogRewrite := rewritten;
      width := config.width;
      height := 0;
      marginX := loadedX;
      marginY := loadedY;
      visible := true;
      dragging := false;
      dragStartX := 0.0;
      dragStartY := 0.0;
      pointerX := 0.0;
      pointerY := 0.0;
      outputWidth := 1920;
      outputHeight := 1080;
      text := if loaded.Some? then loaded.value else defaultText;
      currentWorkspace := initialWorkspace;
      textChanged := false;
      textUpdateDue := false;
      surfaceReady := false;
      scrollOffsetY := 0.0;
      maxScrollOffsetY := 0.0;
      new;
      Refit(false);
    }

    /** `create_overlay` succeeded: there is now a surface to draw on. */
    method AttachSurface()
      modifies this
      ensures State() == old(State()).(surfaceReady := true)
    {
      surfaceReady := true;
    }

    /** The state effect of `draw_overlay`: the change flag is cleared, except
        when a surface exists and the overlay is hidden, where the method
        returns early. */
    method DrawOverlay()
      modifies this
      ensures State() == old(State()).(textChanged := old(textChanged) && surfaceReady && !visible)
    {
      if surfaceReady && !visible {
        return;
      }
      textChanged := false;
    }

    /** `force_redraw`. */
    method ForceRedraw()
      modifies this
      ensures State() == old(State()).(textChanged := surfaceReady && !visible)
    {
      textChanged := true;
      DrawOverlay();
    }

    /** `check_for_workspace_switch`: follow the workspace file to another
        non-zero workspace, scrolled to the top, with a text check due. */
    method CheckForWorkspaceSwitch(workspaceFile: Option<string>)
      requires Valid()
      modifies this
      ensures Valid()
      ensures var n := ReadCurrentWorkspace(workspaceFile);
              State() == Switched(old(State()), n)
    {
      var newWorkspace := ReadCurrentWorkspace(workspaceFile);
      SwitchWorkspace(newWorkspace);
    }

    /** The state change of `check_for_workspace_switch` once the workspace
        file has been read. */
    method SwitchWorkspace(newWorkspace: Option<U32>)
      requires Valid()
      modifies this
      ensures Valid()
      ensures State() == Switched(old(State()), newWorkspace)
    {
      if newWorkspace.Some? {
        if newWorkspace.value != currentWorkspace && newWorkspace.value > 0 {
          currentWorkspace := newWorkspace.value;
          scrollOffsetY := 0.0;
          textUpdateDue := true;
          ForceRedraw();
        }
      }
    }

    /** `update_text_from_log`: when the interval has elapsed (or a check is
        due), load the workspace's text and take it (see `TakeText`).  The
        result says whether the text changed. */
    method UpdateTextFromLog(intervalElapsed: bool, readFile: string -> Option<string>, defaultText: string)
      returns (changed: bool)
      requires Valid()
      modifies this
      ensures Valid()
      ensures changed ==> Fitted()
      ensures old(Fitted()) ==> Fitted()
      ensures !(intervalElapsed || old(textUpdateDue)) ==> !changed && State() == old(State())
      ensures intervalElapsed || old(textUpdateDue) ==>
              var newText := TextFor(readFile, old(currentWorkspace), defaultText);
              (changed <==> newText != old(text))
              && State() == TextTaken(old(State()), newText, textHeight(newText, old(width)), config)
    {
      if !(intervalElapsed || textUpdateDue) {
        return false;
      }
      var loaded := LoadTextFromLog(readFile(TextLogPath(currentWorkspace)));
      changed := TakeText(if loaded.Some? then loaded.value else defaultText);
    }

    /** The state change of `update_text_from_log` once the text has been
        loaded: a different text is taken, the window height and scroll
        range are recomputed, and the offset follows the end of the text
        under auto-scroll or is kept within range. */
    method TakeText(newText: string) returns (changed: bool)
      requires Valid()
      modifies this
      ensures Valid()
      ensures changed ==> Fitted()
      ensures old(Fitted()) ==> Fitted()
      ensures changed <==> newText != old(text)
      ensures State() == TextTaken(old(State()), newText, textHeight(newText, old(width)), config)
    {
      textUpdateDue := false;
      if newText == text {
        return false;
      }
      text := newText;
      textChanged := true;
      Refit(config.autoScroll);
      return true;
    }

    /** The height and scroll-range recomputation shared by `new` and
        `update_text_from_log`: the window is as tall as the text up to the
        configured maximum and can scroll over the rest; the offset moves to
        the end of the text or is kept within the new range. */
    method Refit(toEnd: bool)
      requires 0.0 <= scrollOffsetY
      modifies this
      ensures Valid() && Fitted()
      ensures var total := textHeight(text, width);
              var h := FittedHeight(total, config.maxHeight);
              State() == old(State()).(height := h, maxScrollOffsetY := MaxScroll(total, h),
                                       scrollOffsetY := if toEnd then MaxScroll(total, h)
                                                        else Min(old(scrollOffsetY), MaxScroll(total, h)))
    {
      var calculated := textHeight(text, width);
      height := if calculated < config.maxHeight then calculated else config.maxHeight;
      var total := textHeight(text, width);
      maxScrollOffsetY := Max(total as real - height as real, 0.0);
      if toEnd {
        scrollOffsetY := maxScrollOffsetY;
      } else {
        scrollOffsetY := Min(scrollOffsetY, maxScrollOffsetY);
      }
    }

    /** `toggle_visibility`: showing the overlay redraws it. */
    method ToggleVisibility()
      modifies this
      ensures State() == old(State()).(visible := !old(visible),
                                       textChanged := old(textChanged) && old(visible))
    {
      visible := !visible;
      if visible {
        DrawOverlay();
      }
    }

    /** `start_drag`: remember where the pointer was pressed. */
    method StartDrag(x: real, y: real)
      modifies this
      ensures State() == old(State()).(dragging := true, dragStartX := x, dragStartY := y)
    {
      dragging := true;
      dragStartX := x;
      dragStartY := y;
    }

    /** `update_drag`: while dragging, move the margins by the pointer's
        movement since the last event, kept on the output, and log them; the
        result is the line appended to margin.log. */
    method UpdateDrag(x: real, y: real) returns (logged: Option<string>)
      modifies this
      ensures !old(dragging) ==> logged.None? && State() == old(State())
      ensures old(dragging) ==>
              State() == old(State()).(
                marginX := DraggedMargin(old(marginX), old(dragStartX), x, outputWidth, width),
                marginY := DraggedMargin(old(marginY), old(dragStartY), y, outputHeight, height),
                dragStartX := x, dragStartY := y)
              && 0 <= marginX <= MaxMargin(outputWidth, width)
              && 0 <= marginY <= MaxMargin(outputHeight, height)
              && logged == Some(DraggingLine(marginX, marginY))
    {
      if !dragging {
        return None;
      }
      marginX := DraggedMargin(marginX, dragStartX, x, outputWidth, width);
      marginY := DraggedMargin(marginY, dragStartY, y, outputHeight, height);
      dragStartX := x;
      dragStartY := y;
      logged := Some("Dragging: x=" + IntToString(marginX) + ", y=" + IntToString(marginY));
    }

    /** `stop_drag`. */
    method StopDrag()
      modifies this
      ensures State() == old(State()).(dragging := false)
    {
      if dragging {
        dragging := false;
      }
    }

    /** The pointer handler: track the pointer, drag with the left button,
        scroll on the vertical axis. */
    method HandlePointer(event: PointerEvent) returns (logged: Option<string>)
      requires Valid()
      modifies this
      ensures Valid()
      ensures logged.Some? ==> event.Motion? && old(dragging)
      ensures match event
              case Enter(x, y) => State() == old(State()).(pointerX := x, pointerY := y)
              case Leave => State() == old(State())
              case Motion(x, y) =>
                if !old(dragging) then State() == old(State()).(pointerX := x, pointerY := y)
                else (State() == old(State()).(
                        pointerX := x, pointerY := y, dragStartX := x, dragStartY := y,
                        marginX := DraggedMargin(old(marginX), old(dragStartX), x, outputWidth, width),
                        marginY := DraggedMargin(old(marginY), old(dragStartY), y, outputHeight, height))
                      && logged == Some(DraggingLine(marginX, marginY)))
              case Button(button, pressed) =>
                if button != BTN_LEFT then State() == old(State())
                else if pressed
                then State() == old(State()).(dragging := true, dragStartX := old(pointerX), dragStartY := old(pointerY))
                else State() == old(State()).(dragging := false)
              case Axis(vertical, value) =>
                if !vertical then State() == old(State())
                else State() == old(State()).(
                  scrollOffsetY := ScrolledOffset(old(scrollOffsetY), value, config.scrollSpeed, maxScrollOffsetY),
                  textChanged := old(textChanged) && surfaceReady && !visible)
    {
      logged := None;
      match event {
        case Enter(x, y) =>
          pointerX := x;
          pointerY := y;
        case Leave =>
        case Motion(x, y) =>
          pointerX := x;
          pointerY := y;
          if dragging {
            logged := UpdateDrag(x, y);
          }
        case Button(button, pressed) =>
          if button == BTN_LEFT {
            if pressed {
              StartDrag(pointerX, pointerY);
            } else {
              StopDrag();
            }
          }
        case Axis(vertical, value) =>
          if vertical {
            scrollOffsetY := ScrolledOffset(scrollOffsetY, value, config.scrollSpeed, maxScrollOffsetY);
            DrawOverlay();
          }
      }
    }

    /** The keyboard handler: Esc toggles visibility, R forces a redraw. */
    method HandleKey(key: nat, pressed: bool)
      modifies this
      ensures pressed && key == KEY_ESC ==>
              State() == old(State()).(visible := !old(visible), textChanged := old(textChanged) && old(visible))
      ensures pressed && key == KEY_R ==> State() == old(State()).(textChanged := surfaceReady && !visible)
      ensures !(pressed && (key == KEY_ESC || key == KEY_R)) ==> State() == old(State())
    {
      if pressed {
        if key == KEY_ESC {
          ToggleVisibility();
        } else if key == KEY_R {
          ForceRedraw();
        }
      }
    }

    /** The layer surface's configure event: a size with both sides positive
        becomes the window size (the scroll range is left as it was), and the
        overlay is drawn. */
    method Configure(newWidth: U32, newHeight: U32)
      requires Valid()
      modifies this
      ensures Valid()
      ensures newWidth > 0 && newHeight > 0 ==>
              State() == old(State()).(width := newWidth, height := newHeight,
                                       textChanged := old(textChanged) && surfaceReady && !visible)
      ensures !(newWidth > 0 && newHeight > 0) ==>
              State() == old(State()).(textChanged := old(textChanged) && surfaceReady && !visible)
    {
      if newWidth > 0 && newHeight > 0 {
        width := newWidth;
        height := newHeight;
      }
      DrawOverlay();
    }

    /** The output's mode event: the output size drags are kept within. */
    method OutputMode(newWidth: I32, newHeight: I32)
      modifies this
      ensures State() == old(State()).(outputWidth := newWidth, outputHeight := newHeight)
    {
      outputWidth := newWidth;
      outputHeight := newHeight;
    }
  }

  /** One more line of the log: what the loader's loop keeps. */
  lemma NextLogLine(lines: seq<string>, i: nat)
    requires i < |lines|
    ensures var line := lines[i];
            && LastMarginX(lines[..i + 1])
               == (if IsDraggingLine(line) && ParseMarginX(line).Some? then ParseMarginX(line) else LastMarginX(lines[..i]))
            && LastMarginY(lines[..i + 1])
               == (if IsDraggingLine(line) && ParseMarginY(line).Some? then ParseMarginY(line) else LastMarginY(lines[..i]))
            && LastDraggingLine(lines[..i + 1])
               == (if IsDraggingLine(line) then line else LastDraggingLine(lines[..i]))
  {
    assert lines[..i + 1][..i] == lines[..i];
  }

  /* ---------------- properties ---------------- */

  lemma IntToStringHasNo(i: int, c: char)
    requires c != '-' && !IsAsciiDigit(c)
    ensures c !in IntToString(i)
  {
    IntToStringShape(i);
  }

  /** A line `update_drag` logs reads back as the margins it was written
      from. */
  lemma DraggingLineParses(x: int, y: int)
    requires I32_MIN <= x <= I32_MAX && I32_MIN <= y <= I32_MAX
    ensures IsDraggingLine(DraggingLine(x, y))
    ensures ParseMarginX(DraggingLine(x, y)) == Some(x)
    ensures ParseMarginY(DraggingLine(x, y)) == Some(y)
  {
    DraggingLineIsDragging(x, y);
    DraggingLineX(x, y);
    DraggingLineY(x, y);
  }

  lemma DraggingLineIsDragging(x: int, y: int)
    ensures IsDraggingLine(DraggingLine(x, y))
  {
    var rest := " x=" + IntToString(x) + ", y=" + IntToString(y);
    assert DraggingLine(x, y) == [] + "Dragging:" + rest;
    FindAfter([], "Dragging:", rest);
  }

  lemma DraggingLineX(x: int, y: int)
    requires I32_MIN <= x <= I32_MAX
    ensures ParseMarginX(DraggingLine(x, y)) == Some(x)
  {
    DraggingLineXText(x, y);
    NumberParses(x);
  }

  lemma DraggingLineXText(x: int, y: int)
    ensures MarginXText(DraggingLine(x, y)) == Some(IntToString(x))
  {
    var xs := IntToString(x);
    assert DraggingLine(x, y) == "Dragging: " + "x=" + xs + "," + (" y=" + IntToString(y));
    IntToStringHasNo(x, ',');
    MarginXShape("Dragging: ", xs, " y=" + IntToString(y));
  }

  lemma DraggingLineY(x: int, y: int)
    requires I32_MIN <= y <= I32_MAX
    ensures ParseMarginY(DraggingLine(x, y)) == Some(y)
  {
    DraggingLineYText(x, y);
    IntToStringShape(y);
    assert TrimEndNonNumeric(IntToString(y)) == IntToString(y);
    NumberParses(y);
  }

  lemma DraggingLineYText(x: int, y: int)
    ensures MarginYText(DraggingLine(x, y)) == Some(IntToString(y))
  {
    var before := "Dragging: x=" + IntToString(x) + ", ";
    IntToStringHasNo(x, 'y');
    assert 'y' !in before;
    assert DraggingLine(x, y) == before + "y=" + IntToString(y);
    MarginYShape(before, IntToString(y));
  }

  /** The x of a line holding "x=" (first after `p`) and then a ',' is the
      number between them. */
  lemma MarginXShape(p: string, num: string, q: string)
    requires 'x' !in p && ',' !in num
    ensures MarginXText(p + "x=" + num + "," + q) == Some(num)
  {
    var rest := num + "," + q;
    var line := p + "x=" + rest;
    MarginXLineParts(p, num, q);
    FindAfter(p, "x=", rest);
    FindAfter(num, ",", q);
    MarginXTextAt(line, |p|, |num|);
  }

  lemma MarginXLineParts(p: string, num: string, q: string)
    ensures var line := p + "x=" + (num + "," + q);
            p + "x=" + num + "," + q == line && line[|p| + 2..] == num + "," + q &&
            line[|p| + 2..|p| + 2 + |num|] == num
  {
    var line := p + "x=" + (num + "," + q);
    assert line[|p| + 2..] == num + "," + q;
    assert line[|p| + 2..|p| + 2 + |num|] == (num + "," + q)[..|num|];
  }

  lemma MarginXTextAt(line: string, k: nat, j: nat)
    requires Find(line, "x=") == Some(k) && k + 2 <= |line| && Find(line[k + 2..], ",") == Some(j)
    ensures k + 2 + j <= |line| && MarginXText(line) == Some(line[k + 2..k + 2 + j])
  {
  }

  /** The y of a line whose first "y=" follows `p` is the rest of the line. */
  lemma MarginYShape(p: string, num: string)
    requires 'y' !in p
    ensures MarginYText(p + "y=" + num) == Some(num)
  {
    var line := p + "y=" + num;
    FindAfter(p, "y=", num);
    assert line[|p| + 2..] == num;
  }

  /** A written i32 needs no trimming and parses back. */
  lemma NumberParses(i: int)
    requires I32_MIN <= i <= I32_MAX
    ensures ParseI32(Trim(IntToString(i))) == Some(i)
  {
    IntToStringShape(i);
    TrimUntouched(IntToString(i));
    ParseI32OfIntToString(i);
  }

  /** A log whose last line is one `update_drag` wrote loads as the margins
      of that line. */
  lemma LogEndingInDragLoads(lines: seq<string>, x: int, y: int)
    requires I32_MIN <= x <= I32_MAX && I32_MIN <= y <= I32_MAX
    requires lines != [] && lines[|lines| - 1] == DraggingLine(x, y)
    ensures MarginsOf(lines) == Some((x, y))
    ensures LastDraggingLine(lines) == DraggingLine(x, y)
  {
    DraggingLineParses(x, y);
  }

  /** Lines without "Dragging:" do not affect what is loaded. */
  lemma OtherLinesIgnored(lines: seq<string>, line: string)
    requires !IsDraggingLine(line)
    ensures MarginsOf(lines + [line]) == MarginsOf(lines)
    ensures LastDraggingLine(lines + [line]) == LastDraggingLine(lines)
  {
    assert (lines + [line])[..|lines|] == lines;
  }

  /** When margins were found, the log is rewritten to a non-empty
      "Dragging:" line rather than emptied. That line need not hold both
      margins: x and y may have come from different lines. */
  lemma {:induction false} RewriteKeepsMargins(lines: seq<string>)
    requires MarginsOf(lines).Some?
    requires forall k :: 0 <= k < |lines| ==> '\n' !in lines[k]
    ensures LastDraggingLine(lines) != [] && IsDraggingLine(LastDraggingLine(lines))
  {
    var line := lines[|lines| - 1];
    if !IsDraggingLine(line) {
      RewriteKeepsMargins(lines[..|lines| - 1]);
    } else {
      assert line == LastDraggingLine(lines);
      assert Find(line, "Dragging:").Some?;
    }
  }

  /** A drag that stays on the output moves the margin by the pointer's
      movement, and a pointer that does not move leaves an on-screen margin
      where it is. */
  lemma DragFollowsPointer(margin: I32, from: real, to: real, output: I32, dim: U32)
    requires 0 <= margin + TruncToI32(to - from) <= MaxMargin(output, dim)
    ensures DraggedMargin(margin, from, to, output, dim) == margin + TruncToI32(to - from)
  {
  }

  lemma StillPointerKeepsMargin(margin: I32, p: real, output: I32, dim: U32)
    requires 0 <= margin <= MaxMargin(output, dim)
    ensures DraggedMargin(margin, p, p, output, dim) == margin
  {
  }

  /** A scroll by zero keeps an in-range offset. */
  lemma ScrollByNothing(offset: real, speed: real, maxOffset: real)
    requires speed != 0.0 && 0.0 <= offset <= maxOffset
    ensures ScrolledOffset(offset, 0.0, speed, maxOffset) == offset
  {
  }
}
