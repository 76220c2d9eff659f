# aerogel, modelled in Dafny

aerogel is a Wayland desktop assistant made of four programs:

- **A key logger** (`src/os/nix.rs`). It reads raw key events from the keyboard's input device. It turns them into key names, tracking the modifier keys, and appends them to an `.event` file.
- **An event handler** (`src/event_handler.rs`).
  - It follows that file token by token and recognises configured key combinations: screenshot, dictation, show/hide, clear, solve, and switch workspace.
  - It keeps a dictation buffer while recording.
  - It gives each workspace its own assistant process and its own text log `.tmp<n>`.
- **An assistant console** (`src/ai_manager.rs`). It accumulates a multi-line prompt and file attachments, and sends them to several AI providers through the client (`src/ai_client.rs`, configured by `src/config.rs`).
- **An overlay window** (`src/overlay.rs`). It shows the current workspace's text log as wrapped, syntax-highlighted markdown. It can be dragged, scrolled and hidden.

This project models the decision logic of those programs and proves what it promises. Modules follow the source files:

| module | source | what is modelled |
|---|---|---|
| `Markdown` | src/overlay.rs | `parse_markdown` as a fold over a sequence of markdown events |
| `Wrap` | src/overlay.rs | `split_segment_into_tokens` and the greedy word wrap `wrap_line_with_syntax` |
| `Height` | src/overlay.rs | `calculate_text_height` and `_calculate_block_height` |
| `Overlay` | src/overlay.rs | the `AppState` class: size, scroll, drag, margins, visibility, workspace; the margin-log parser |
| `Workspace` | src/event_handler.rs, src/overlay.rs | the `.aerogel_workspace` file and the `.tmp<n>` paths, shared by both programs |
| `Keybindings`, `Combo` | src/event_handler.rs | `canonicalize_keybinding`, `get_canonical_modifier`, and the combo string built in the main loop |
| `EventHandler` | src/event_handler.rs | the per-token state machine of `main`, `switch_workspace`, `read_new_content` |
| `AiManager` | src/ai_manager.rs | the prompt console loop of `main` |
| `Config` | src/config.rs | `get_key`, `get_config_paths`, `find_and_read_config` |
| `KeyLogger` | src/os/nix.rs | the key-code table, the modifier flags of `nix_log_keys`, `nix_find_keyboard_device` |
| `AiClient` | src/ai_client.rs | the per-provider history, the audio MIME table, transcripts, content parts and the request each chat function builds |
| `Strings`, `Numbers`, `Wrappers` | — | `trim`, `split`, `join`, `find`, ASCII lower-casing, integer printing and parsing, `Option`/`Result` |

How the model represents the outside world:

- **I/O as parameters.** Files, the environment, the clock and the network are parameters.
  - A file read is a function from a path to `Option<string>`.
  - A path's existence is a predicate.
  - "The interval has elapsed" is a boolean input.
  - A transcription or OCR call is a function from a media item to a `Result`.
- **Foreign libraries as parameters.**
  - pulldown_cmark is replaced by its event sequence.
  - syntect is replaced by a highlighter function returning styled ranges, with the style left opaque.
  - rusttype glyph widths are replaced by a width function.
- **Numbers.**
  - `f32` values are `real`.
  - `i32`/`u32` ranges, the `as i32` casts, `saturating_sub` and the final `ceil() as u32` are written out where the source relies on them.
- **Events instead of side effects.** Methods that would write files or talk to processes return the effects as values, e.g. the event handler's `Effect` list and the overlay's `Dragging:` log line.

Behaviour of the code that the model keeps as it is:

- **Trailing text is not trimmed.** The last text block of `parse_markdown` is emitted as accumulated, so a paragraph at the end keeps its `"\n\n"`. Only text flushed before a code block is trimmed at its end (src/overlay.rs:847-853, 897-900).
- **A code block is emitted at its end event.** The fold over the events emits a code block only on `End(CodeBlock)` (src/overlay.rs:861-869), so an event sequence that stops inside a code block contributes nothing for it (`Markdown.UnterminatedCodeBlockDropped`). pulldown_cmark closes every open block at the end of its input, so the parser never produces such a sequence; see Left out below.
- **Keybinding order.** Keybinding strings are canonicalised with a case-sensitive sort but compared ignoring case; see "## Findings". The event loop is modelled with the corrected, case-folding canonical form. `EventHandler.CanonicalBindingsAsWritten` shows that this is the program's own form for every binding written without upper-case letters.

## Model

| member | source | states |
|---|---|---|
| Markdown.Step | src/overlay.rs:844-895 | Specification of one event of the loop (no contract of its own). What it keeps is `Markdown.StepKeepsInv`, and its cases are `InsideCodeBlock`, `OpenCodeBlock` and `CodeBlockSegment`. |
| Markdown.Parse | src/overlay.rs:835-903 | Specification of `parse_markdown`: the events folded by `Step`, then the pending text flushed. `ParseMarkdown` is the loop proved equal to it, and `ParseBlocksNonEmpty` and `ProseOnly` are its properties. |
| Markdown.FlushText | src/overlay.rs:846-854 | The text pending before a code block becomes one Text block, or none iff it is empty. The block is a prefix of the text that drops only trailing whitespace. It ends in a non-whitespace character unless the text is all whitespace, in which case it is kept whole. |
| Markdown.ParseMarkdown | src/overlay.rs:835-903 | The loop over the events produces exactly the blocks of the fold `Parse` (the events folded by `Step`, then the pending text flushed). |
| Markdown.StepKeepsInv | src/overlay.rs:844-895 | After any event: no emitted block has empty content; outside a code block the code buffer is empty; inside one the text buffer is empty. |
| Markdown.RunKeepsInv | src/overlay.rs:844-895 | The same invariant holds after any sequence of events. |
| Markdown.ParseBlocksNonEmpty | src/overlay.rs:835-903 | No block returned by `parse_markdown` has empty content; in particular a code block with an empty body is never emitted. |
| Markdown.RunFromAppend | src/overlay.rs:844-895 | Folding `a + b` equals folding `a` and then `b`: the loop has no hidden state. |
| Markdown.InsideCodeBlock | src/overlay.rs:871-887 | Inside a code block, text goes only to the code body. Soft breaks, hard breaks and paragraph ends change nothing. The prose text is untouched. |
| Markdown.OpenCodeBlock | src/overlay.rs:846-876 | Opening a code block flushes the pending text. It records the language: a fenced block's info string, `"txt"` otherwise. The body then collects the code. |
| Markdown.CodeBlockSegment | src/overlay.rs:846-870 | A complete code block appends the flushed text and then `Code(lang, body)`, but only when the body is non-empty. All buffers end empty. |
| Markdown.UnterminatedCodeBlockDropped | src/overlay.rs:897-900 | A code block that is never closed contributes nothing to the result. |
| Markdown.ProseOnly | src/overlay.rs:871-900 | Events with no code block give at most one Text block: the prose with `' '` per soft break, `'\n'` per hard break and `"\n\n"` per paragraph end unless already present. The result is no block iff that prose is empty. |
| Markdown.ProseRun | src/overlay.rs:871-892 | Without code blocks, the state after the events holds exactly that prose and no blocks. |
| Markdown.ParagraphCodeParagraph | src/overlay.rs:835-903 | Paragraph `a`, fenced code, paragraph `b` parse to `[Text(a), Code(lang, code), Text(b + "\n\n")]`: the first paragraph is trimmed, the last is not. |
| Markdown.ParagraphThenCode | src/overlay.rs:846-891 | A paragraph followed by a fenced block leaves `[Text(a), Code(lang, code)]` with no pending text. |
| Markdown.OneParagraph | src/overlay.rs:871-891 | One paragraph leaves its line followed by `"\n\n"` pending. |
| Markdown.ParagraphAfter | src/overlay.rs:871-891 | From any state outside code with no pending text, a paragraph leaves only its line plus `"\n\n"` pending. |
| Markdown.FlushParagraph | src/overlay.rs:847-849 | Flushing `a + "\n\n"` gives `Text(a)` when `a` ends in a non-whitespace character. |
| Wrap.Step | src/overlay.rs:1393-1402 | Specification of placing one token. `Wrap.StepKeepsInv` and `Wrap.StepFlattens` are its properties. |
| Wrap.Wrapped | src/overlay.rs:1370-1417 | Specification of `wrap_line_with_syntax`. `WrapLineWithSyntax` is the loop proved equal to it; `WrappedFlattens`, `WrappedShape` and `WrappedWidths` are its properties. |
| Wrap.Tokenize | src/overlay.rs:1166-1199 | No token is empty. |
| Wrap.TokenizeIsRunSplit | src/overlay.rs:1166-1199 | The tokens concatenate back to the input. Each is entirely whitespace or entirely not. Adjacent tokens differ in that class. |
| Wrap.TokenizeStep | src/overlay.rs:1176-1193 | One more character keeps the run-split property: it extends the last run or starts a new one. |
| Wrap.ExtendLastRun | src/overlay.rs:1183-1185 | A character of the last run's class extends that run and keeps the run-split property. |
| Wrap.StartNewRun | src/overlay.rs:1179-1192 | A character of the other class, or the first character, starts a new run and keeps the run-split property. |
| Wrap.TokenizeSnoc | src/overlay.rs:1176-1193 | The tokens of `s + [c]` are those of `s` with `c` added to the last token when its class matches, otherwise with `[c]` appended. |
| Wrap.TokenizeEmpty | src/overlay.rs:1172-1198 | There are no tokens iff the input is empty. |
| Wrap.SplitSegmentIntoTokens | src/overlay.rs:1166-1199 | The loop returns `Tokenize(s)`, which is a run split of `s`. |
| Wrap.PlaceTokens | src/overlay.rs:1390-1403 | The inner loop over one range's tokens leaves the same lines, current line and width as the greedy fold over those tokens. |
| Wrap.WrapLineWithSyntax | src/overlay.rs:1370-1417 | The loops return exactly the greedy wrap `Wrapped` of the ranges. |
| Wrap.FoldAppend | src/overlay.rs:1380-1404 | Wrapping the tokens of `a + b` continues from where wrapping `a` stopped. |
| Wrap.NextRange | src/overlay.rs:1380-1388 | One more range adds its cleaned text's tokens, with its style, after those of the earlier ranges. |
| Wrap.LineWidthNonNegative | src/overlay.rs:1391-1402 | With non-negative glyph widths a line's width is non-negative. |
| Wrap.StepKeepsInv | src/overlay.rs:1393-1402 | Placing one token keeps the wrap invariant. Finished lines are non-empty and fit. Each break happened when the line had positive width and the token would overflow. The running width equals the width of the current line. |
| Wrap.StepFlattens | src/overlay.rs:1393-1402 | Placing a token appends it to the flattened lines: no token is lost, split or reordered. |
| Wrap.FoldKeepsInv | src/overlay.rs:1390-1403 | The wrap invariant holds after any sequence of tokens. |
| Wrap.FoldFlattens | src/overlay.rs:1390-1403 | After any sequence of tokens the flattened lines are the earlier ones followed by those tokens. |
| Wrap.WrappedFlattens | src/overlay.rs:1380-1416 | Flattening the wrapped lines gives every token of every range, in order, each tagged with its range's style. |
| Wrap.AllTokensEmpty | src/overlay.rs:1382-1386 | There are no tokens iff every range is empty after stripping trailing `'\n'` and `'\r'`. |
| Wrap.WrappedShape | src/overlay.rs:1406-1414 | There is always at least one line. The result is exactly one empty line iff every range is empty after stripping. Otherwise no line is empty. |
| Wrap.FinishShape | src/overlay.rs:1406-1414 | Closing the fold gives at least one line, and the single empty line iff no token was placed. |
| Wrap.WrappedWidths | src/overlay.rs:1393-1402 | Every line has width at most `max_width` or is one token after a zero-width prefix. Each break happened only after a line of positive width that the next token would overflow. |
| Wrap.OverflowIsSingleToken | src/overlay.rs:1393-1402 | With positive widths for non-empty text, a line wider than `max_width` holds at most one token. |
| Wrap.ZeroPrefixIsSingle | src/overlay.rs:1393-1402 | With positive widths, a line whose prefix has zero width holds one token. |
| Wrap.TokensOfLinesNonEmpty | src/overlay.rs:1383-1388 | No token on any wrapped line is empty. |
| Wrap.AllTokensNonEmpty | src/overlay.rs:1383-1388 | No token taken from the ranges is empty. |
| Wrap.FlattenContains | src/overlay.rs:1396-1408 | Every token of a line occurs in the flattened lines. |
| Height.BlockHeight | src/overlay.rs:1487-1530 | Specification of `_calculate_block_height`. `CalculateBlockHeight` is the loop proved equal to it; `BlockHeightLowerBound` and `EmptyBlockHeight` are its properties. |
| Height.TextHeight | src/overlay.rs:1462-1484 | Specification of `calculate_text_height`. `CalculateTextHeight` is the loop proved equal to it; `TextHeightLowerBound` and `EmptyTextHeight` are its properties. |
| Height.AdvancePerLine | src/overlay.rs:1525-1527 | The inner loop advances the offset by one line height per wrapped line. |
| Height.CalculateBlockHeight | src/overlay.rs:1487-1530 | The loop returns the ascent plus one line height per visual line of the block (`BlockHeight`). |
| Height.NextSourceLine | src/overlay.rs:1520-1528 | One more source line adds the line height once per line that source line wraps into. |
| Height.VisualLinesSnoc | src/overlay.rs:1520-1524 | The visual line count of `n + 1` source lines is that of `n` lines plus the wrapped line count of the last. |
| Height.Ceil | src/overlay.rs:1483 | The ceiling is the least integer not below its argument. |
| Height.CeilToU32 | src/overlay.rs:1483 | `ceil() as u32`: a u32 that is the ceiling for arguments in range and 0 for non-positive ones. |
| Height.CalculateTextHeight | src/overlay.rs:1462-1484 | The loop returns `TextHeight`: `ceil(40 + Σ(block height + 15) + 20)` as u32, each block laid out by its kind. |
| Height.StackedIsProduct | src/overlay.rs:1525-1527 | Adding the line height once per line equals line height times the line count. |
| Height.StackedAppend | src/overlay.rs:1525-1527 | The stacked height of `a + b` lines is that of `a` plus that of `b`. |
| Height.StackedMonotone | src/overlay.rs:1525-1527 | With a non-negative line height, more lines are never shorter. |
| Height.AtLeastOneLinePerSourceLine | src/overlay.rs:1520-1528 | A block has at least as many visual lines as source lines. (see also lines 1411-1414) |
| Height.WrappedNotEmpty | src/overlay.rs:1411-1414 | Every source line wraps into at least one line. |
| Height.BlockHeightLowerBound | src/overlay.rs:1498-1529 | A block is at least the ascent plus one line height per source line. |
| Height.EmptyBlockHeight | src/overlay.rs:1499-1506 | An empty block is exactly the ascent high. |
| Height.BlocksHeightLowerBound | src/overlay.rs:1472-1481 | With non-negative metrics, the blocks together are at least 15 per block high. |
| Height.CeilToU32Monotone | src/overlay.rs:1483 | The final conversion is monotone. |
| Height.CeilToU32OfWhole | src/overlay.rs:1483 | A whole number converts to itself, saturated at 0 and at the u32 maximum. |
| Height.TextHeightLowerBound | src/overlay.rs:1469-1483 | The text height is at least `60 + 15 × blocks`, saturated at the u32 maximum. |
| Height.EmptyTextHeight | src/overlay.rs:1470-1483 | Text without blocks is exactly 60 high. |
| Overlay.LoadTextFromLog | src/overlay.rs:375-386 | The file content is used iff the file could be read and is not blank, and then unchanged. |
| Overlay.FittedHeight | src/overlay.rs:247-248 | The window height is `min(text height, max_height)`. (see also line 409) |
| Overlay.MaxScroll | src/overlay.rs:291-292 | The scroll range is never negative and is positive iff the text is taller than the window. (see also line 419) |
| Overlay.ScrolledOffset | src/overlay.rs:711-719 | After a vertical axis event the offset is `clamp(offset + value / scroll_speed, 0, max)`. It lies in `[0, max]`. |
| Overlay.Switched | src/overlay.rs:303-313 | A positive workspace read that differs from the current one becomes current. The offset resets to 0, a text check is due, and the redraw flag is left set only when a surface exists and the overlay is hidden. Every other field is kept: margins, visibility, drag state, text, height and scroll range. Any other read changes nothing. |
| Overlay.TextTaken | src/overlay.rs:397-438 | Unchanged text changes nothing. New text is stored and marked changed. The height is capped by `max_height`. With auto-scroll the offset snaps to the end. Workspace and margins are untouched. |
| Overlay.TruncToI32 | src/overlay.rs:528-529 | `f64 as i32`: for in-range `r ≥ 0`, `i ≤ r < i + 1`; for in-range `r ≤ 0`, `i − 1 < r ≤ i`. The sign is kept, and the result saturates at the i32 bounds. |
| Overlay.WrapI32 | src/overlay.rs:528-529 | i32 addition wraps: the result is an i32 congruent to the sum modulo 2^32, and equal to it when in range. |
| Overlay.U32AsI32 | src/overlay.rs:532-533 | `u32 as i32` keeps values up to the i32 maximum. |
| Overlay.SaturatingSubI32 | src/overlay.rs:532-533 | `saturating_sub` equals the difference when that is in range. |
| Overlay.MaxMargin | src/overlay.rs:532-533 | The largest margin is never negative. It is `output − window` when the window fits the output, else 0. |
| Overlay.DraggedMargin | src/overlay.rs:524-535 | A dragged margin always ends in `[0, MaxMargin]`. It moves by the truncated pointer delta when that stays on screen. |
| Overlay.TrimEndNonNumeric | src/overlay.rs:341-343 | It is the longest prefix not ending in a character other than a digit or `'-'`. |
| Overlay.MarginXText | src/overlay.rs:329-331 | There is a text iff the line has an `x=` followed somewhere by a `,`. It is the slice after the first `x=` up to the first `,` after it, and holds no `,`. |
| Overlay.MarginYText | src/overlay.rs:338-339 | There is a text iff the line has a `y=`. It is everything after the first one. |
| Overlay.ParseMarginX | src/overlay.rs:329-335 | x is `ParseI32` of the trimmed `MarginXText`, and None when there is no such text; any value found is in i32 range. |
| Overlay.ParseMarginY | src/overlay.rs:338-347 | y is `ParseI32` of `MarginYText`, trimmed and stripped of trailing characters other than digits and `-`. It is None when there is no `y=`; any value found is in i32 range. |
| Overlay.LastMarginX | src/overlay.rs:319-353 | The last x found is in i32 range (which line it comes from: `NextLogLine`). |
| Overlay.LastMarginY | src/overlay.rs:319-353 | The last y found is in i32 range (which line it comes from: `NextLogLine`). |
| Overlay.MarginsOf | src/overlay.rs:363-372 | The margins of a log are in i32 range. |
| Overlay.LoadedMargins | src/overlay.rs:315-372 | A log that cannot be opened gives None; loaded margins are in i32 range. |
| Overlay.LoadMarginsFromLog | src/overlay.rs:315-373 | It returns the last x and the last y of the log's `Dragging:` lines, or None unless both were found. The log is rewritten to its last `Dragging:` line, or to nothing when there is none; it is left alone when it cannot be opened. |
| Overlay.AppState.constructor | src/overlay.rs:207-295 | Margins come from the log or default to 20, and the log is rewritten to its last `Dragging:` line (kept as `marginLogRewrite`). The workspace comes from the workspace file or defaults to 1. The text is that workspace's log or the help text. The window is the configured width, and height and scroll range fit the text at that width (`Fitted`); the offset is 0. Visible, not dragging, a 1920×1080 output until the output's first mode event. |
| Overlay.AppState.AttachSurface | src/overlay.rs:441-464 | Creating the surface changes only whether drawing is possible. |
| Overlay.AppState.DrawOverlay | src/overlay.rs:466-499 | The text-changed flag is cleared, except when a surface exists and the overlay is hidden, where drawing returns early; nothing else changes. |
| Overlay.AppState.ForceRedraw | src/overlay.rs:565-568 | The flag is set and then drawn away: it stays set only when a surface exists and the overlay is hidden; nothing else changes. |
| Overlay.AppState.CheckForWorkspaceSwitch | src/overlay.rs:297-313 | The workspace file's trimmed u32 drives `Switched`; the window invariant is kept. |
| Overlay.AppState.SwitchWorkspace | src/overlay.rs:303-313 | The state becomes `Switched` of the old one; the invariant is kept. |
| Overlay.AppState.UpdateTextFromLog | src/overlay.rs:388-439 | Before the interval it changes nothing and returns false. Otherwise it returns whether the workspace's text changed and applies `TextTaken`, with the text's height at the current window width. The offset stays in range; after a change the height and scroll range fit the text (`Fitted`), and a fitted state stays fitted. |
| Overlay.AppState.TakeText | src/overlay.rs:397-435 | Returns true iff the text differs; the state becomes `TextTaken`, with the text measured at the current window width. A change leaves the window fitted to the text. |
| Overlay.AppState.Refit | src/overlay.rs:402-425 | Height and scroll range are recomputed from the text at the current window width (src/overlay.rs:407, 417), so the window is fitted. The offset moves to the end, or is capped by the new range, so it is back in range. |
| Overlay.AppState.ToggleVisibility | src/overlay.rs:501-509 | Visibility flips; becoming visible redraws; nothing else changes. |
| Overlay.AppState.StartDrag | src/overlay.rs:511-516 | Dragging starts at the pointer position; nothing else changes. |
| Overlay.AppState.UpdateDrag | src/overlay.rs:518-557 | No-op when not dragging. Otherwise both margins move by the delta from the anchor, clamped to `[0, max(0, output − window)]`, where the output size is the last mode event's and the window size the last configure's (src/overlay.rs:532-533). The anchor becomes the pointer, and the logged line is `Dragging: x=…, y=…` of the new margins. |
| Overlay.AppState.StopDrag | src/overlay.rs:559-563 | Dragging stops; nothing else changes. |
| Overlay.AppState.HandlePointer | src/overlay.rs:649-726 | Enter and motion record the pointer; motion while dragging drags. A left-button press starts a drag and its release stops it. A vertical axis event scrolls by `ScrolledOffset` and redraws. Only a drag logs a line. The invariant is kept. |
| Overlay.AppState.HandleKey | src/overlay.rs:729-766 | A pressed Escape toggles visibility, a pressed R forces a redraw, and any other key changes nothing. |
| Overlay.AppState.Configure | src/overlay.rs:627-638 | A configure with both sides positive sets the window width and height; any configure then draws. The scroll range is not recomputed, so the window may no longer fit the text, but the offset stays in range. Nothing else changes. |
| Overlay.AppState.OutputMode | src/overlay.rs:813-816 | A mode event sets the output size that later drags are clamped to; nothing else changes. |
| Overlay.NextLogLine | src/overlay.rs:324-353 | One more line replaces the last x, and independently the last y, only when it is a `Dragging:` line whose value parses. It replaces the kept line whenever it is a `Dragging:` line. |
| Overlay.DraggingLine | src/overlay.rs:547 | The line a drag appends to margin.log (no contract of its own). `DraggingLineParses` shows the loader reads the same margins back from it. |
| Overlay.IntToStringHasNo | src/overlay.rs:547 | A printed integer holds only digits and `'-'`. |
| Overlay.DraggingLineParses | src/overlay.rs:547 | The line the drag writes is a `Dragging:` line from which the loader reads back the same x and y. (see also lines 327-347) |
| Overlay.DraggingLineIsDragging | src/overlay.rs:547 | That line contains `Dragging:`. (see also line 327) |
| Overlay.DraggingLineX | src/overlay.rs:547 | Its x reads back. (see also lines 329-335) |
| Overlay.DraggingLineXText | src/overlay.rs:547 | The text between `x=` and `,` is the printed x. (see also lines 329-331) |
| Overlay.DraggingLineY | src/overlay.rs:547 | Its y reads back. (see also lines 338-347) |
| Overlay.DraggingLineYText | src/overlay.rs:547 | The text after `y=` is the printed y. (see also lines 338-339) |
| Overlay.MarginXShape | src/overlay.rs:329-331 | In `p + "x=" + num + "," + q` with no `x` in `p` and no `,` in `num`, the x text is `num`. |
| Overlay.MarginXTextAt | src/overlay.rs:329-331 | The x text is the slice between the first `x=` and the next `,`. |
| Overlay.MarginYShape | src/overlay.rs:338-339 | In `p + "y=" + num` with no `y` in `p`, the y text is `num`. |
| Overlay.NumberParses | src/overlay.rs:332-344 | A printed i32 parses back after trimming. |
| Overlay.LogEndingInDragLoads | src/overlay.rs:315-372 | A log whose last line is a written drag line loads exactly those margins and keeps that line. |
| Overlay.OtherLinesIgnored | src/overlay.rs:327 | Lines without `Dragging:` change neither the margins nor the kept line. |
| Overlay.RewriteKeepsMargins | src/overlay.rs:355-360 | When margins were found, the rewritten log is a non-empty `Dragging:` line. |
| Overlay.DragFollowsPointer | src/overlay.rs:524-535 | A drag that stays on screen moves the margin by exactly the truncated delta. |
| Overlay.StillPointerKeepsMargin | src/overlay.rs:524-539 | A motion to the anchor leaves an on-screen margin unchanged. |
| Overlay.ScrollByNothing | src/overlay.rs:714-717 | A zero scroll leaves an in-range offset unchanged. |
| Workspace.WorkspaceFileContent | src/event_handler.rs:170-172 | What `update_workspace_state_file` writes (no contract of its own). `WorkspaceFileRoundTrip` shows the overlay reads the same u32 back. |
| Workspace.TextLogPath | src/event_handler.rs:60-63 | A workspace's text log is `.tmp` followed by its number. |
| Workspace.ReadCurrentWorkspace | src/overlay.rs:297-301 | A missing workspace file gives None. |
| Workspace.TextLogPathInjective | src/event_handler.rs:61-62 | Different workspaces have different text logs. |
| Workspace.WorkspaceFileRoundTrip | src/event_handler.rs:170-172 | What the event handler writes, the overlay reads back as the same u32. |
| Numbers.NatToString | src/event_handler.rs:171 | A printed number is a non-empty string of digits. |
| Numbers.ParseU32 | src/overlay.rs:300 | A parsed u32 is below 2^32. |
| Numbers.ParseI32 | src/overlay.rs:332-344 | A parsed i32 is in i32 range. |
| Numbers.DigitsOfNat | src/event_handler.rs:171 | The digits printed for `n` have value `n`. |
| Numbers.ParseU32OfNatToString | src/event_handler.rs:171 | Every u32 printed parses back to itself. |
| Numbers.ParseI32OfIntToString | src/overlay.rs:547 | Every i32 printed parses back to itself. (see also line 332) |
| Numbers.IntToStringShape | src/overlay.rs:547 | A printed integer is an optional `'-'` followed by digits. |
| Numbers.NatToStringInjective | src/event_handler.rs:62 | Different numbers print differently. |
| Keybindings.StrLeTotal | src/event_handler.rs:54 | The byte-wise string order used by `sort_unstable` is total. |
| Keybindings.StrLeAntisymmetric | src/event_handler.rs:54 | The order is antisymmetric. |
| Keybindings.StrLeTransitive | src/event_handler.rs:54 | The order is transitive. |
| Keybindings.InsertBy | src/event_handler.rs:54 | Inserting adds exactly the new element: one more in length and in the multiset. |
| Keybindings.SortBy | src/event_handler.rs:54 | Sorting keeps the length and is a permutation. |
| Keybindings.InsertBySorted | src/event_handler.rs:54 | Insertion into a sorted list keeps it sorted, and the new head is the element or the old head. |
| Keybindings.SortBySorted | src/event_handler.rs:54 | The sort result is sorted and a permutation of the input. |
| Keybindings.SortBySortedInput | src/event_handler.rs:54 | A sorted list sorts to itself. |
| Keybindings.SortedHeadLe | src/event_handler.rs:54 | The head of a sorted list is below each of its elements. |
| Keybindings.SortedUnique | src/event_handler.rs:54 | Two sorted permutations of each other are equal, so an unstable sort still has one result. |
| Keybindings.MultisetTail | src/event_handler.rs:54 | Equal multisets with equal heads have equal tails. |
| Keybindings.Canonicalize | src/event_handler.rs:46-49 | A binding without `'+'` is returned unchanged. |
| Keybindings.CanonicalizeShape | src/event_handler.rs:50-57 | With a `'+'`, the last part stays last. The parts before it are sorted. The parts are a permutation of the input's. |
| Keybindings.PartsOfSorted | src/event_handler.rs:54 | Sorting parts without `'+'` keeps them without `'+'`. |
| Keybindings.CanonicalizeIdempotent | src/event_handler.rs:46-58 | Canonicalising twice equals canonicalising once. |
| Keybindings.SplitHasSep | src/event_handler.rs:50 | A string with `'+'` splits into at least two parts. |
| Keybindings.JoinHasSep | src/event_handler.rs:57 | Joining at least two parts puts the separator in. |
| Keybindings.LowerAll | src/event_handler.rs:408 | Each part lower-cased, in place. |
| Keybindings.CanonicalizeFolded | src/event_handler.rs:46-58 | The corrected canonical form (modifiers sorted ignoring ASCII case) leaves a binding without `'+'` unchanged. |
| Keybindings.LowerConcat | src/event_handler.rs:408 | Lower-casing distributes over concatenation. |
| Keybindings.LowerHasSep | src/event_handler.rs:408 | Lower-casing neither adds nor removes `'+'`. |
| Keybindings.LowerSplit | src/event_handler.rs:50 | Lower-casing commutes with splitting on `'+'`. (see also line 408) |
| Keybindings.LowerJoin | src/event_handler.rs:57 | Lower-casing commutes with joining by `'+'`. (see also line 408) |
| Keybindings.LowerInsert | src/event_handler.rs:54 | Inserting by lower-cased key, then lower-casing, equals inserting the lower-cased element. (see also line 408) |
| Keybindings.LowerSort | src/event_handler.rs:54 | Sorting by lower-cased key, then lower-casing, equals sorting the lower-cased parts. (see also line 408) |
| Keybindings.LowerCanonicalizeFolded | src/event_handler.rs:46-58 | Lower-casing the corrected form equals canonicalising the lower-cased binding. (see also line 408) |
| Keybindings.LowerAllTake | src/event_handler.rs:52 | Lower-casing commutes with dropping the final key. |
| Keybindings.LowerAllAppend | src/event_handler.rs:56 | Lower-casing commutes with pushing the final key. |
| Keybindings.FoldedRespectsCase | src/event_handler.rs:46-58 | Bindings equal up to ASCII case have corrected forms equal up to ASCII case. (see also line 408) |
| Keybindings.InsertBySameKeys | src/event_handler.rs:54 | Inserting with two keys that agree on every element involved gives the same list. |
| Keybindings.SortBySameKeys | src/event_handler.rs:54 | Sorting with two keys that agree on every element gives the same list. |
| Keybindings.CanonicalFormsAgreeOnLowerCase | src/event_handler.rs:46-58 | For a binding without ASCII upper-case letters, the as-written canonical form equals the corrected one. |
| Combo.CanonicalModifier | src/event_handler.rs:553-561 | The seven modifier tokens (left and right Ctrl, Alt and Shift, and left Super) map to one of `Alt`, `Ctrl`, `Shift`, `Super`; every other token maps to the empty name. |
| Combo.CanonicalNames | src/event_handler.rs:388-392 | The names kept are exactly the non-empty canonical names of the held modifiers. |
| Combo.Dedup | src/event_handler.rs:394 | Removing adjacent duplicates keeps the same elements and the first one. |
| Combo.DedupSorted | src/event_handler.rs:393-394 | A sorted list without adjacent duplicates is strictly sorted. |
| Combo.FinalKeyDropsShifts | src/event_handler.rs:396-400 | Any key other than `[Enter]` and `[Space]` ends the combo as the typed text after all its leading `shift+` copies: the text is `n` copies of `shift+` followed by the final key, which does not start with `shift+`. |
| Combo.TrimStartMatches | src/event_handler.rs:399 | The result is a suffix of the input that no longer starts with the prefix. |
| Combo.TrimStartMatchesRemovesCopies | src/event_handler.rs:399 | What is removed is a whole number of copies of the prefix: the input is `n` copies of the prefix followed by the result. |
| Combo.ComboPartsSpec | src/event_handler.rs:388-394 | The combo's modifier names are strictly sorted, and are exactly the canonical names of the held modifiers. |
| Combo.ComboStringParts | src/event_handler.rs:402-404 | The combo string splits on `'+'` back into those names followed by the final key. |
| Combo.SortedHeadLeast | src/event_handler.rs:393 | The head of a strictly sorted list is below each of its elements. |
| Combo.StrictlySortedUnique | src/event_handler.rs:393-394 | Two strictly sorted lists with the same elements are equal. |
| Combo.TailElements | src/event_handler.rs:393-394 | The tail of a strictly sorted list holds every element but the head. |
| Combo.ComboIgnoresOrder | src/event_handler.rs:387-404 | The combo string depends only on which canonical modifiers are held, not on the order or repetition in which they were pressed. |
| Combo.ModifierNameCapitalized | src/event_handler.rs:553-561 | Every canonical modifier name is capitalised. |
| Combo.LowerCapitalized | src/event_handler.rs:408 | Lower-casing a capitalised name changes only its first letter. |
| Combo.NameOrderIgnoresCase | src/event_handler.rs:393 | Capitalised names keep their order when lower-cased. |
| Combo.LowerPartsSorted | src/event_handler.rs:393-408 | The combo's names stay sorted when lower-cased. |
| Combo.FoldedBindingMatches | src/event_handler.rs:46-58 | A binding whose modifier parts equal the held ones up to ASCII case and order, and whose final key matches, has a corrected form that matches the combo string ignoring case. (see also lines 387-408) |
| Combo.AltCtrlNames | src/event_handler.rs:388-392 | Holding `[AltL]`, `[CtrlL]` gives the names `Alt`, `Ctrl`. |
| Combo.AltCtrlParts | src/event_handler.rs:388-394 | Sorted and deduplicated they stay `Alt`, `Ctrl`. |
| Combo.AltCtrlCombo | src/event_handler.rs:387-404 | Holding Alt and Ctrl and typing `x` gives the combo `Alt+Ctrl+x`. |
| Combo.AltCtrlJoin | src/event_handler.rs:404 | Joining `Alt`, `Ctrl`, `x` gives `Alt+Ctrl+x`. |
| Combo.MixedBindingParts | src/event_handler.rs:50 | `alt+Ctrl+x` splits into `alt`, `Ctrl`, `x`. |
| Combo.MixedBindingCanonical | src/event_handler.rs:46-58 | `canonicalize_keybinding("alt+Ctrl+x")` is `Ctrl+alt+x`. |
| Combo.MixedBindingFolded | src/event_handler.rs:46-58 | The corrected form keeps `alt+Ctrl+x`. |
| Combo.MixedBindingSameCase | src/event_handler.rs:408 | `alt+Ctrl+x` equals `Alt+Ctrl+x` ignoring ASCII case. |
| Combo.CaseSensitiveSortMisses | src/event_handler.rs:46-58 | The binding `alt+Ctrl+x` matches the combo of Alt, Ctrl and `x` ignoring case. Its canonical form as written does not match, while the corrected form does. (see also line 408) |
| EventHandler.Switched | src/event_handler.rs:175-216 | Specification of `switch_workspace`. `SwitchedCases` characterises it, and `SwitchedKeepsValid` is the invariant it keeps. |
| EventHandler.RecordedKey | src/event_handler.rs:523-537 | Specification of the dictation buffer update. `RecordedKeyEffect` and `TypeThenErase` state what it does. |
| EventHandler.Snapshot | src/event_handler.rs:444-453 | Specification of the log kept when recording starts. `SnapshotShape` states its form. |
| EventHandler.MatchedAction | src/event_handler.rs:408-518 | Specification of which binding a combo triggers, in the order the source tests them. `DistinctBindingsMatch` states it for distinct bindings. |
| EventHandler.Perform | src/event_handler.rs:406-522 | Specification of performing a binding. `PerformKeepsValid` and `DictationRoundTrip` are its properties. |
| EventHandler.KeyStep | src/event_handler.rs:364-545 | Specification of one key token after any pending switch. `EventLoop.HandleKey` is the method proved equal to it. |
| EventHandler.TokenStep | src/event_handler.rs:329-546 | Specification of one token. `TokenStepKeepsValid`, `TokenStepModifiers` and `SwitchByModifierThenDigit` are its properties. |
| EventHandler.LogAfter | src/event_handler.rs:444-447 | What a read of a workspace's log gives after some of the loop's writes: the log as it was when there is no write to it, and otherwise the content of one of those writes. |
| EventHandler.LastWriteWins | src/event_handler.rs:444-447 | A read sees the last write to that log, whatever writes came before it (every write of the loop replaces the whole log, src/event_handler.rs:645-651). |
| EventHandler.SecondDictationSeesFirst | src/event_handler.rs:436-506 | A second dictation started after a first one is solved takes its snapshot from the log the first one left: the first snapshot, the typed text and `"  \n"`. |
| EventHandler.InitialValid | src/event_handler.rs:269-278 | The loop starts on workspace 1, which has an assistant, with nothing held. |
| EventHandler.CanonicalBindingsAsWritten | src/event_handler.rs:257-265 | When all seven bindings are written without upper-case letters, the bindings the loop compares against are exactly those `canonicalize_keybinding` produces. |
| EventHandler.SwitchedCases | src/event_handler.rs:175-216 | Effects happen iff the text parses to a u32 other than 0 and the current workspace; otherwise the state is unchanged. A switch changes only the current workspace and adds it to the assistants. Its effects all concern the new workspace and start with the workspace-file write. They include a cleared log and a new assistant iff the workspace had no assistant. |
| EventHandler.TypeThenErase | src/event_handler.rs:526-534 | Typing a character and then Backspace restores the buffer. |
| EventHandler.RecordedKeyEffect | src/event_handler.rs:523-537 | `[Space]` appends `' '`. `[Backspace]` drops the last character, or does nothing on an empty buffer. Other bracketed tokens leave it unchanged and write nothing. Any other token is appended verbatim. |
| EventHandler.SnapshotShape | src/event_handler.rs:444-453 | The snapshot starts with the log and ends in an empty line; an empty log gives `"\n"`. |
| EventHandler.DistinctBindingsMatch | src/event_handler.rs:408-518 | When no two of the five bindings are equal ignoring case, a combo triggers a binding iff it equals that binding ignoring case, and nothing iff it equals none. |
| EventHandler.DictationRoundTrip | src/event_handler.rs:436-506 | Start recording, type, then solve. This writes the snapshot, the typed text and `"  \n"` to the log, and sends the trimmed text followed by `"\n/ask"`. It leaves recording off with the buffer and snapshot cleared. |
| EventHandler.HoldKeepsValid | src/event_handler.rs:369-384 | Holding a modifier keeps the state valid: the held list stays free of duplicates and of anything but modifier tokens. |
| EventHandler.SwitchedKeepsValid | src/event_handler.rs:180-207 | A switch keeps the current workspace a valid u32 with an assistant. It never removes an assistant, and its effects target only workspaces with one. |
| EventHandler.PerformKeepsValid | src/event_handler.rs:406-518 | Performing a binding keeps the state valid, never changes the workspace or the assistants, and sends only to the current workspace. |
| EventHandler.ModifierTokenBracketed | src/event_handler.rs:364-367 | Modifier tokens are bracketed. (see also line 530) |
| EventHandler.TokenStepKeepsValid | src/event_handler.rs:329-546 | Any token keeps the state valid: the sender lookup of the current workspace never fails. Assistants are never removed, and every send or log write targets a workspace with an assistant. |
| EventHandler.TokenStepModifiers | src/event_handler.rs:375-377 | After a non-modifier token no modifier is held. After a modifier token it is held once: added only if not already held. (see also lines 520-522, 544) |
| EventHandler.SwitchByModifierThenDigit | src/event_handler.rs:341-384 | The switch modifier followed by a digit 1–9 arms and then makes that digit the current workspace, with an assistant. No modifier is held and the loop is no longer waiting. |
| EventHandler.PlainKeyTyped | src/event_handler.rs:523-542 | While recording with no modifier held, a plain token is appended to the buffer. The preview (snapshot + buffer) is written to the workspace's log. |
| EventHandler.TypingAppends | src/event_handler.rs:523-542 | A run of plain tokens appends their concatenation to the buffer. |
| EventHandler.ConcatLast | src/event_handler.rs:534 | Concatenating tokens is appending them one by one. |
| EventHandler.RunLinesKeepsValid | src/event_handler.rs:327-547 | Any sequence of lines keeps the state valid, never removes an assistant, and only targets workspaces with one. |
| EventHandler.EffectsAppend | src/event_handler.rs:327-547 | Effects that target existing assistants still do after further switches. |
| EventHandler.NewContent | src/event_handler.rs:629-643 | An unchanged length gives nothing new. A shrunk file is read from 0. A grown file gives the bytes after the old position. The position becomes the current length. |
| EventHandler.AppendedContentIsNew | src/event_handler.rs:629-643 | Successive appends to the `.event` file are each read exactly once. |
| EventHandler.EventLoop.constructor | src/event_handler.rs:257-290 | The bindings are put in the corrected canonical form (see Left out below). The loop starts in the initial state, watching from the end of the `.event` file. |
| EventHandler.EventLoop.SwitchWorkspace | src/event_handler.rs:175-216 | The loop's state and effects are those of `Switched`; the file position is kept. |
| EventHandler.EventLoop.PerformAction | src/event_handler.rs:406-522 | The loop's state and effects are those of performing the binding. |
| EventHandler.EventLoop.HoldModifier | src/event_handler.rs:369-384 | The modifier is held once; a switch-workspace modifier arms the switch. |
| EventHandler.EventLoop.TypeKey | src/event_handler.rs:523-543 | The buffer follows `RecordedKey`. The preview (snapshot + buffer) is written whenever `RecordedKey` yields a buffer: for every plain token, `[Space]` and `[Backspace]`, even on an empty buffer. Other bracketed tokens write nothing. |
| EventHandler.EventLoop.HandleToken | src/event_handler.rs:335-545 | One token updates the loop as `TokenStep` does and keeps it valid. |
| EventHandler.EventLoop.HandleKey | src/event_handler.rs:364-545 | A token after any pending switch is handled as `KeyStep`. |
| EventHandler.EventLoop.ReadNewContent | src/event_handler.rs:629-643 | The content and the new position are those of `NewContent`. |
| EventHandler.EventLoop.HandleModification | src/event_handler.rs:327-547 | A file change reads the new content and runs each of its lines through the state machine (`RunLines`), keeping it valid. A line that reads the text log (src/event_handler.rs:444-447) sees the writes of the lines before it in the same change. The position ends at the file's length. |
| EventHandler.EventLoop.HandleLine | src/event_handler.rs:329-546 | A blank line is skipped; otherwise the trimmed line is one token. |
| EventHandler.EventLoop.NextLine | src/event_handler.rs:329 | Handling the lines one at a time equals the fold over them. |
| AiManager.Interpret | src/ai_manager.rs:153-174 | Specification of how one line is read as a command. `CommandsIgnoreCase`, `UploadPathNonEmpty`, `BareUploadIsPromptText` and `InterpretPlausible` are its properties. |
| AiManager.Step | src/ai_manager.rs:154-213 | Specification of one command. `StepKeepsWellformed`, `AskIsSensible` and `MarkerAfterSend` are its properties. |
| AiManager.Run | src/ai_manager.rs:141-214 | Specification of the console over a list of lines. `ReadEvalLoop` is the loop proved equal to it; `RequestsAreSensible`, `QuitIsFinal` and `EndOfInputNeverQuits` are its properties. |
| AiManager.ReadEvalLoop | src/ai_manager.rs:141-214 | The loop's requests, prompt markers and quitting are those of `Run`: each line interpreted and stepped in turn until `/quit`. |
| AiManager.HandleInput | src/ai_manager.rs:154-213 | One line updates the attachments, the prompt and the outcome as `Step` of its interpretation. |
| AiManager.NextInput | src/ai_manager.rs:144-214 | Running one more line appends the marker shown before it, and the request it sent if any. |
| AiManager.MarkerAfterSend | src/ai_manager.rs:145-204 | The marker is `"> "` iff there are no attachments and no prompt, so it is `"> "` again after every send. |
| AiManager.UploadPathNonEmpty | src/ai_manager.rs:156-157 | `/upload ` takes the trimmed text after its 8 characters as the path, which is never empty. |
| AiManager.CommandsIgnoreCase | src/ai_manager.rs:167-174 | A line is `/quit` or `/exit`, or `/ask`, iff it equals one of them ignoring ASCII case after trimming. |
| AiManager.LowerCaseWords | src/ai_manager.rs:167-174 | The command words are already lower case. |
| AiManager.LowerCaseWord | src/ai_manager.rs:167-174 | A word without capitals is its own lower case. |
| AiManager.BareUploadIsPromptText | src/ai_manager.rs:156-213 | `/upload` alone, without its space, is prompt text. |
| AiManager.DropLeadingEmpty | src/ai_manager.rs:210-213 | The lines kept start with a non-empty one. |
| AiManager.PromptJoinsLines | src/ai_manager.rs:210-213 | The prompt is the lines typed joined by `'\n'`, leading empty lines dropped. |
| AiManager.DropLeadingEmptySnoc | src/ai_manager.rs:210-213 | One more line is kept unless everything so far and the line itself are empty. |
| AiManager.JoinSnoc | src/ai_manager.rs:211-213 | Joining one more part adds the separator and the part. |
| AiManager.JoinHead | src/ai_manager.rs:213 | A join starts with the first part's first character. |
| AiManager.InterpretPlausible | src/ai_manager.rs:154-213 | An upload path is never empty and a prompt line never starts with whitespace. |
| AiManager.StepKeepsWellformed | src/ai_manager.rs:156-213 | Attachments are non-empty paths that exist, and the prompt does not start with whitespace. Every request sent has text or files. |
| AiManager.UploadKeepsWellformed | src/ai_manager.rs:156-165 | Only an existing path is attached; the prompt is untouched. |
| AiManager.AskIsSensible | src/ai_manager.rs:175-180 | `/ask` with a prompt or attachment sends the trimmed prompt and the attachments, which is never an empty request. |
| AiManager.TextLineKeepsWellformed | src/ai_manager.rs:210-213 | Appending a line keeps the prompt free of leading whitespace. |
| AiManager.RequestsAreSensible | src/ai_manager.rs:141-214 | Over any input, the console stays well-formed, and every request sent has text or files and names only attachments found to exist. |
| AiManager.SensibleAppend | src/ai_manager.rs:186-189 | Requests stay sensible when appended. |
| AiManager.QuitIsFinal | src/ai_manager.rs:167-172 | After `/quit` or `/exit` no later input has any effect. |
| AiManager.EmptyReadIsPromptText | src/ai_manager.rs:151-213 | The empty line `read_line` gives at end of input is prompt text. It neither quits nor sends, and it adds `'\n'` to a non-empty prompt. |
| AiManager.EndOfInputNeverQuits | src/ai_manager.rs:143-213 | After lines that did not quit, any number of end-of-input reads leaves the console running with the same requests and attachments. |
| Config.GetKey | src/config.rs:149-157 | Specification of `get_key`. `KeyFromEnvironment` states it against the table of names and variables, and `GetKeyIgnoresCase` shows that case does not matter. |
| Config.GetKeyIgnoresCase | src/config.rs:149-150 | Provider names equal up to ASCII case select the same key. |
| Config.KeyFromEnvironment | src/config.rs:149-157 | Against a table of the six provider names (`openai`; `claude` and `anthropic`; `gemini` and `google`; `xai`) and their variables: the key for a name is the value of the variable listed for its lower-cased form, None when that variable is unset, and None for any unlisted name. |
| Config.ProviderKeys | src/config.rs:150-154 | The four lower-case provider names select their own keys. |
| Config.OpenRouterHasNoKey | src/config.rs:155 | `openrouter` has no key. |
| Config.JoinPath | src/config.rs:60-67 | A joined path ends with the joined name. |
| Config.GetConfigPaths | src/config.rs:51-87 | The list built step by step is `ConfigPathList`. |
| Config.ConfigPathOrder | src/config.rs:51-87 | The list is `aerogel.toml` and `../../aerogel.toml`, then two home entries (only with a home directory), then two entries under the configuration directory (only when known), then the two `/etc/aerogel` files. |
| Config.FirstReadableFrom | src/config.rs:94-107 | The position found holds a readable path and nothing readable comes before it; None iff nothing is readable. |
| Config.FindAndReadConfig | src/config.rs:91-117 | Returns the content and path of the first path that exists and reads, skipping unreadable ones. Otherwise it fails with the message listing every path. |
| Config.FirstReadableIs | src/config.rs:94-107 | The first readable position is `i` when nothing before it reads and it does. |
| Config.WorkingDirectoryFirst | src/config.rs:52-99 | A readable `aerogel.toml` in the working directory always wins. |
| Config.SystemFileLast | src/config.rs:73-99 | The last system file is used only when nothing before it is readable. |
| KeyLogger.KeyName | src/os/nix.rs:11-118 | The key-code table (no contract of its own). `EnterHasTwoCodes` and the `KeypadRepeats…` lemmas state its repetitions. |
| KeyLogger.NextModifiers | src/os/nix.rs:200-263 | Specification of the flag update for one event. `EventEffects` states it. |
| KeyLogger.KeyOutput | src/os/nix.rs:200-267 | Specification of the text one event adds. `EventEffects` states it. |
| KeyLogger.Run | src/os/nix.rs:158-270 | Specification of the logger over a list of readings. `LogKeys` is the loop proved equal to it; `NothingLost`, `NoEmptyWrites`, `AltAndSuperStay` and `CapsLockParity` are its properties. |
| KeyLogger.EnterHasTwoCodes | src/os/nix.rs:73-104 | Codes 28 and 96 both name `[Enter]`: the table is not injective. |
| KeyLogger.KeypadRepeatsLowerDigits | src/os/nix.rs:11-118 | Keypad codes 82, 79, 80, 81, 75 name the same digits 0–4 as row codes 11, 2, 3, 4, 5. |
| KeyLogger.KeypadRepeatsUpperDigits | src/os/nix.rs:11-118 | Keypad codes 76, 77, 71, 72, 73 name the same digits 5–9 as row codes 6–10. |
| KeyLogger.KeypadRepeatsPunctuation | src/os/nix.rs:11-118 | Keypad `-`, `.`, `/` (74, 83, 98) repeat codes 12, 52, 53. |
| KeyLogger.EventEffects | src/os/nix.rs:200-267 | An event that is not a press or release of a mapped non-zero key changes nothing and writes nothing. A press toggles CapsLock on `[CapsLock]`, sets the flag of a Shift, Ctrl, Alt or Super key, and appends exactly one rendered key. A release appends nothing, clears Shift or Ctrl, and leaves CapsLock, Alt and Super as they were. |
| KeyLogger.LogKeys | src/os/nix.rs:158-270 | The loop's writes to disk, modifier flags and capture buffer are those of `Run` over the readings, with the real key table. |
| KeyLogger.HandleEvent | src/os/nix.rs:200-267 | One event updates the flags and output as `NextModifiers` and `KeyOutput`. |
| KeyLogger.NextReading | src/os/nix.rs:178-268 | One more reading first flushes the buffer when the interval has elapsed (writing it only if non-empty), then applies the event. |
| KeyLogger.NothingLost | src/os/nix.rs:187-242 | Everything written plus the buffer is exactly everything typed, in order. |
| KeyLogger.FlushKeepsText | src/os/nix.rs:189-194 | A flush moves the buffer to the writes without losing or duplicating text. |
| KeyLogger.NoEmptyWrites | src/os/nix.rs:190-192 | An empty buffer is never written. |
| KeyLogger.AltAndSuperStay | src/os/nix.rs:221-263 | Once set, the Alt and Super flags stay set for the rest of the run. |
| KeyLogger.CapsLockParity | src/os/nix.rs:208-210 | CapsLock is on iff it was pressed an odd number of times. |
| KeyLogger.FileName | src/os/nix.rs:134-138 | The file name of a path has no `'/'`, and a string without one is its own file name. |
| KeyLogger.FirstEventWord | src/os/nix.rs:142-148 | The word picked is one of the words and contains `event`; None iff no word does. |
| KeyLogger.KeyboardLineFrom | src/os/nix.rs:130-152 | The position found is the first line containing `EV=120013`. |
| KeyLogger.FindKeyboardDevice | src/os/nix.rs:122-156 | The scan returns `KeyboardDevice`: the event word of the last sysrq handler line before the first keyboard line, or `""`. |
| KeyLogger.PickEventWord | src/os/nix.rs:142-150 | The inner loop picks the first word containing `event`, else keeps the handler text. |
| KeyLogger.KeyboardLineIs | src/os/nix.rs:141-151 | The keyboard line is at `i` when it is the first containing `EV=120013`. |
| KeyLogger.DeviceFoundIffAnnounced | src/os/nix.rs:125-151 | The result is `""` iff no line contains `EV=120013`; otherwise it starts with `/dev/input/`. |
| KeyLogger.DeviceIsEventFile | src/os/nix.rs:130-151 | The device is `/dev/input/` followed by the first word containing `event` of the last sysrq handler line seen up to the first keyboard line. Scanning stops at that line. |
| AiClient.WithEntry | src/ai_client.rs:88-104 | Recording an exchange adds the provider if absent. It appends exactly two messages to its list, keeping the earlier ones, and leaves every other provider unchanged. |
| AiClient.WithEntryKeepsTurns | src/ai_client.rs:94-103 | Lists stay alternating `user`/`assistant` pairs; the last two are the user's content and the reply as plain text. |
| AiClient.History.constructor | src/ai_client.rs:80-86 | A new client has no history. |
| AiClient.History.AddEntry | src/ai_client.rs:88-104 | The history becomes `WithEntry` of the old one and stays in pairs. |
| AiClient.History.Clear | src/ai_client.rs:106-109 | The history is empty afterwards. |
| AiClient.AudioExtension | src/ai_client.rs:374-387 | An unsupported type fails with `Unsupported audio MIME type for OpenAI transcription: '<type>'`. |
| AiClient.AudioExtensionCases | src/ai_client.rs:374-387 | It succeeds exactly for the twelve listed types. Each of the six extensions comes from exactly its group, in both directions: flac←flac; m4a←m4a/x-m4a/mp4; mp3←mp3/mpeg/mpga; ogg←oga/ogg; wav←wav/x-wav; webm←webm. |
| AiClient.SupportedAudioHasExtension | src/ai_client.rs:66-77 | Every type in `SUPPORTED_AUDIO_TYPES` has an extension. (see also lines 374-380) |
| AiClient.AliasesNeverTranscribed | src/ai_client.rs:66-77 | `audio/x-m4a` and `audio/x-wav` have extensions but are not in the supported list, so they are never transcribed. (see also lines 376-379) |
| AiClient.TranscribeOpenAi | src/ai_client.rs:368-420 | Specification of `transcribe_audio_openai` up to the upload. `UnsupportedTypeFailsEarly` states its error order. |
| AiClient.UnsupportedTypeFailsEarly | src/ai_client.rs:368-387 | An unsupported type fails before any upload: the result does not depend on the upload. |
| AiClient.TranscriptNote | src/ai_client.rs:448-460 | Each transcript, or `[Audio Transcription Failed: …]`, is followed by `"\n\n"`. |
| AiClient.TranscribeAll | src/ai_client.rs:444-464 | The loop's text is `Transcripts`: one note per supported audio file, in order. |
| AiClient.SupportedAudioMembers | src/ai_client.rs:446 | The files transcribed are exactly the attached supported audio files. |
| AiClient.TranscriptsOfSupportedOnly | src/ai_client.rs:446 | Other files contribute nothing to the transcripts. (see also line 630) |
| AiClient.TranscriptsSnoc | src/ai_client.rs:444-464 | One more file adds its note iff it is supported audio. |
| AiClient.NotesOfSupported | src/ai_client.rs:444-464 | For supported audio the transcripts are all the notes. |
| AiClient.FinalText | src/ai_client.rs:466 | The text sent starts with the transcripts, ends with the prompt, and is exactly as long as the two together, so it is the transcripts followed by the prompt with nothing between. (see also line 650) |
| AiClient.Collect | src/ai_client.rs:470-483 | At most one part per file. |
| AiClient.CollectAppend | src/ai_client.rs:470-483 | Parts are collected in file order. |
| AiClient.CollectAll | src/ai_client.rs:652-661 | When every file qualifies, each becomes a part, in order. |
| AiClient.CollectNone | src/ai_client.rs:470-483 | When none qualifies there are no parts. |
| AiClient.OcrNote | src/ai_client.rs:216-224 | An image read with non-blank text adds `"\n\n[OCR from image]: "` and that text; any other file, a failed read or a blank read adds nothing. |
| AiClient.OcrPartsSplit | src/ai_client.rs:213-245 | The OCR text is the notes of the files one after the other in their order (`OcrNotes`), and the image parts are exactly the data URLs of the images whose read failed, in their order (`Collect` with `FailedImage`). |
| AiClient.OcrPartsShape | src/ai_client.rs:213-245 | At most one part per file. Every part is the data URL of an image whose OCR failed, and without images there is no OCR text and no part. |
| AiClient.AssembleParts | src/ai_client.rs:120-138 | The text part comes first, then one part per qualifying file, in order. (see also lines 467-483, 650-661, 727-748) |
| AiClient.AudioIsNotImage | src/ai_client.rs:471-477 | An audio file is never an image. |
| AiClient.DataUrlPartsSkipAudio | src/ai_client.rs:467-483 | OpenAI and Ollama are sent no audio: with only audio attached the content is the text alone. |
| AiClient.InlinePartsKeepAll | src/ai_client.rs:650-661 | Gemini gets every non-audio file as inline data after the text, in order. |
| AiClient.OllamaRequest | src/ai_client.rs:111-160 | The request `chat_ollama` builds. `ChatOllama` is its method, and `RequestExtendsHistory` and `DataUrlPartsSkipAudio` are its properties. |
| AiClient.OpenAiRequest | src/ai_client.rs:430-500 | The request `chat_openai` builds. `MissingKeyFails`, `RequestExtendsHistory` and `DataUrlPartsSkipAudio` are its properties. |
| AiClient.ClaudeRequest | src/ai_client.rs:713-760 | The request `chat_claude` builds. `MissingKeyFails` and `RequestExtendsHistory` are its properties. |
| AiClient.XaiRequest | src/ai_client.rs:804-830 | The request `chat_xai` builds: the prompt text alone. `MissingKeyFails` and `RequestExtendsHistory` are its properties. |
| AiClient.OpenRouterRequest | src/ai_client.rs:198-260 | The request `chat_openrouter` builds. `OpenRouterAlwaysFails` shows it always fails. |
| AiClient.OcrParts | src/ai_client.rs:213-245 | The OCR text and image parts of `chat_openrouter`. `OcrPartsSplit` and `OcrPartsShape` state its form. |
| AiClient.GeminiRequestOf | src/ai_client.rs:597-680 | The request `chat_gemini` builds. `MissingKeyFails`, `GeminiSeesTurns`, `GeminiRecordedExchange` and `InlinePartsKeepAll` are its properties. |
| AiClient.OpenRouterAlwaysFails | src/ai_client.rs:198-205 | `chat_openrouter` always fails with `OpenRouter API key not found`: `get_key` has no `openrouter` entry. |
| AiClient.MissingKeyFails | src/ai_client.rs:433-437 | OpenAI, Claude, xAI and Gemini fail iff their key is missing, each with its own message. (see also lines 600-604, 716-720, 807-811) |
| AiClient.RequestExtendsHistory | src/ai_client.rs:140-147 | A request is the provider's past messages followed by one user message with the new content. |
| AiClient.GeminiSeesTurns | src/ai_client.rs:611-626 | A history of exchanges reaches Gemini as alternating `user` and `model` turns. |
| AiClient.GeminiRecordedExchange | src/ai_client.rs:88-104 | A recorded Gemini exchange comes back as the user's parts and then the reply as one text part. (see also lines 611-626) |
| AiClient.ChatOpenAi | src/ai_client.rs:430-500 | `chat_openai` up to the request: the key check, then the history, then the transcripts and text, then the images (`OpenAiRequest`). |
| AiClient.ChatOllama | src/ai_client.rs:111-160 | `chat_ollama` up to the request: the history, then the text and the images, with no key (`OllamaRequest`). |
| AiClient.ChatClaude | src/ai_client.rs:713-760 | `chat_claude` up to the request: the key check, then the history, then the text and the images as base64 sources (`ClaudeRequest`). |
| AiClient.ChatGemini | src/ai_client.rs:597-680 | `chat_gemini` up to the request: the key check, then the mapped history, then the transcripts, text and non-audio files (`GeminiRequestOf`). |

## Left out

- **I/O and processes.** Reading and writing files, the environment, `dotenv`, process spawning, pkill/pgrep, grim, the notify watcher and stdout/stderr are not modelled. Their results are parameters; their writes are returned as effects or log lines. In the event handler a failed workspace-file write, log read or write, or `.event` read ends `main` through `?` (src/event_handler.rs:193, 203, 328, 469, 489, 541); the model treats every read and write as succeeding.
- **Concurrency and streaming.** `process_prompt` (src/ai_manager.rs) runs the providers as concurrent tasks writing to a shared file. `manage_ai_process` (src/event_handler.rs) uses `tokio::select!`. Neither is modelled. The HTTP requests, SSE decoding and base64 encoding of src/ai_client.rs are left out as network I/O. The model stops at the request each chat function builds.
- **`PromptData::new`** (src/ai_client.rs:35-56) reads files and guesses MIME types. The model takes the resulting media list as input.
- **The network calls.** The OCR call of `chat_openrouter` and the transcription upload are parameters. `extract_text_with_gemini` and the Whisper request are not part of this model.
- **`chat_xai` and `chat_openrouter`.** These are modelled as the functions `XaiRequest` and `OpenRouterRequest` without a method wrapper. Since `OpenRouterRequest` always fails, its OCR branch is unreachable in the program as written.
- **Provider model settings.** `config.ollama` and `config.openrouter` are used by src/ai_client.rs but not defined in src/config.rs. The model never reads model names.
- **Configuration loading.** TOML parsing and `Lazy` configuration statics are left out. So is the event handler's own search for `aerogel.toml` (src/event_handler.rs:220-265). Bindings and the overlay settings are inputs.
- **Windows.** The `PROGRAMDATA` entries of `get_config_paths` are left out (unix is modelled).
- **`Path::join` and `file_name`.** These are modelled for plain unix paths only: no normalisation, and no trailing-slash or `..` handling.
- **`to_lowercase` and `trim`.**
  - `Config.GetKeyIgnoresCase`: ASCII lower-casing only, where `to_lowercase` also folds non-ASCII letters. The provider names are ASCII.
  - `Strings.Trim`: its whitespace set is a fixed list of Unicode white-space characters.
- **Floating point.** `f32`/`f64` arithmetic is exact `real` arithmetic: no rounding and no NaN, apart from the division by a zero scroll speed, which is written out. Pixel rendering, glyph rasterisation and `calculate_rounded_rect_alpha` are left out.
- **Timers.** `Instant`, `Duration` and `SystemTime` are booleans or `Option<nat>` elapsed seconds supplied with each step.
- **Wayland.** Registry binding, buffer creation (including `draw_overlay` destroying the old buffer before creating the new one, src/overlay.rs:473-475), attach, damage, commit, `ack_configure` and `set_size` are left out. Of the events, the layer surface's configure (`Overlay.AppState.Configure`), the output's mode (`Overlay.AppState.OutputMode`) and the pointer and keyboard events are modelled; output geometry and scale are not, nor the close event, which exits the program.
- **Keyboard input.** The overlay's keyboard handler reads a raw key code. Key names, repeat and modifiers are not modelled.
- **Key logger I/O.** Reading 24-byte packets from the device, `log_keys_to_disk`, and printing of unmapped events are left out. `set_modifier` is not part of this model; it is a parameter `render` from a key name and the flags to the text appended.
- **`record_audio`.** The record-audio binding is canonicalised but never matched by the main loop, so it has no action.
- **Screenshots.** The screenshot's timestamped file name and the `/upload` sent after grim succeeds are one `Screenshot` effect.
- **Text positions.** Strings are sequences of characters. Rust's byte offsets in `find` and slicing coincide with character positions for the ASCII text they are applied to.
- **`Overlay.LastMarginX` and `Overlay.LastMarginY`.** Their own contracts state only the i32 range. Which line a value comes from is stated by `Overlay.NextLogLine`.
- **`Overlay.RewriteKeepsMargins`.** It states that a non-empty `Dragging:` line is kept, not that reloading it gives the same margins. That would be false: x and y may come from different lines, and the kept line may hold neither.
- **`Workspace.ReadCurrentWorkspace`.** Its contract states only the missing-file case. The round trip with what the event handler writes is `Workspace.WorkspaceFileRoundTrip`.
- EventHandler.EventLoop.constructor: it canonicalises the bindings with the corrected, case-folding form (`EventHandler.CanonicalBindings`, `Keybindings.CanonicalizeFolded`), not the program's case-sensitive `canonicalize_keybinding` (src/event_handler.rs:257-265). So the loop lemmas (`DistinctBindingsMatch`, `DictationRoundTrip`, `TokenStepKeepsValid`, …) describe the corrected program. For bindings without upper-case letters the two are the same (`EventHandler.CanonicalBindingsAsWritten`). A binding with mixed case may match in the model and not in the program, as the Findings row shows.
- Markdown.ParseMarkdown: any event sequence is accepted, including one that ends inside a code block. pulldown_cmark always closes open blocks, so sequences it produces are balanced; the model does not require this, and states what an unbalanced one gives (`Markdown.UnterminatedCodeBlockDropped`).
- AiManager.ReadEvalLoop: it reads a finite list of lines and stops when the list is used up. At end of input the program instead keeps reading empty lines forever (src/ai_manager.rs:143-213). `AiManager.EndOfInputNeverQuits` states what those reads do, but the endless loop itself is not modelled. An I/O error from `flush` or `read_line` (src/ai_manager.rs:149-152) ends `main` through `?`; that exit is not modelled.
- EventHandler.EventLoop.HandleModification: `readLog` gives each text log as it is when the change of the `.event` file arrives, and the loop's own writes are applied to it line by line (`EventHandler.LogAfter`). A write to a `.tmp<n>` log by anything else while those lines are handled would not be seen until the next change. No other program of this repository writes those logs: the assistant opens `.tmp`, not the `.tmp<n>` it is given (src/ai_manager.rs:133).
- Overlay.AppState.constructor: `textHeight` is any function from a text and a window width to the text's height, taken as given. The program's is `calculate_text_height`, which the model states as `Height.TextHeight` (see `Overlay.TextHeightFn`); the constructor does not require `textHeight` to be that function.

## Findings

| source | as written | input that shows it | evidently intended | confidence | as-written member | corrected member |
|---|---|---|---|---|---|---|
| src/event_handler.rs:46-58, 408 | `canonicalize_keybinding` sorts the modifier parts case-sensitively (`sort_unstable` on the raw strings). The combo it is compared with is built from capitalised names, and the comparison ignores ASCII case only. | binding `alt+Ctrl+x` becomes `Ctrl+alt+x`. Holding Alt and Ctrl and pressing `x` gives the combo `Alt+Ctrl+x`, which never matches although the binding names exactly those keys. | Order the modifiers ignoring case, so that any binding equal to a combo up to case and modifier order matches it. | not executed | Combo.CaseSensitiveSortMisses | Combo.FoldedBindingMatches |
