/** The event handler's main loop: it follows the key logger's `.event` file,
    turns each new trimmed line (a key token) into changes of its own state
    (held modifiers, recording mode, the dictation buffer, the current
    workspace) and into effects on the outside world (lines sent to a
    workspace's assistant, text-log writes, screenshots, the overlay). */
module EventHandler {
  import opened Wrappers
  import opened Strings
  import opened Numbers
  import opened Keybindings
  import opened Combo

  /** The seven configured bindings. */
  datatype Bindings = Bindings(
    showHide: string, typeText: string, takeScreenshot: string,
    recordAudio: string, solve: string, clear: string, switchToWorkspace: string)

  /** The bindings as the loop compares them, each in canonical form. This
      is the corrected form, which orders modifiers ignoring case; the
      program orders them case-sensitively (see the Findings of the README),
      and the two agree on every binding without upper-case letters
      (`CanonicalBindingsAsWritten`). */
  function CanonicalBindings(raw: Bindings): Bindings {
    Bindings(CanonicalizeFolded(raw.showHide), CanonicalizeFolded(raw.typeText),
             CanonicalizeFolded(raw.takeScreenshot), CanonicalizeFolded(raw.recordAudio),
             CanonicalizeFolded(raw.solve), CanonicalizeFolded(raw.clear),
             CanonicalizeFolded(raw.switchToWorkspace))
  }

  /** Bindings written in lower case are compared exactly as the program
      compares them, in its case-sensitive canonical form. */
  lemma CanonicalBindingsAsWritten(raw: Bindings)
    requires NoAsciiUpper(raw.showHide) && NoAsciiUpper(raw.typeText) && NoAsciiUpper(raw.takeScreenshot)
    requires NoAsciiUpper(raw.recordAudio) && NoAsciiUpper(raw.solve) && NoAsciiUpper(raw.clear)
    requires NoAsciiUpper(raw.switchToWorkspace)
    ensures CanonicalBindings(raw)
            == Bindings(Canonicalize(raw.showHide), Canonicalize(raw.typeText),
                        Canonicalize(raw.takeScreenshot), Canonicalize(raw.recordAudio),
                        Canonicalize(raw.solve), Canonicalize(raw.clear),
                        Canonicalize(raw.switchToWorkspace))
  {
    CanonicalFormsAgreeOnLowerCase(raw.showHide);
    CanonicalFormsAgreeOnLowerCase(raw.typeText);
    CanonicalFormsAgreeOnLowerCase(raw.takeScreenshot);
    CanonicalFormsAgreeOnLowerCase(raw.recordAudio);
    CanonicalFormsAgreeOnLowerCase(raw.solve);
    CanonicalFormsAgreeOnLowerCase(raw.clear);
    CanonicalFormsAgreeOnLowerCase(raw.switchToWorkspace);
  }

  /** What the loop does outside its own state. */
  datatype Effect =
    | Send(workspace: nat, command: string)      // a line for that workspace's assistant
    | WriteLog(workspace: nat, content: string)  // overwrites the workspace's text log
    | WriteWorkspaceFile(workspace: nat)         // records the current workspace
    | StartAssistant(workspace: nat)             // spawns the workspace's assistant
    | Screenshot(workspace: nat)                 // grim, then "/upload <path>" on success
    | ToggleOverlay

  /** The loop's variables; `assistants` are the workspaces with a sender. */
  datatype LoopState = LoopState(
    current: nat, assistants: set<nat>, recording: bool, keyBuffer: string,
    snapshot: string, modifiers: seq<string>, waiting: bool)

  /** The state when watching starts: workspace 1 with its assistant. */
  function Initial(): LoopState {
    LoopState(1, {1}, false, [], [], [], false)
  }

  /** The current workspace is a valid u32 with an assistant (so the lookup
      of its sender never fails), every assistant's workspace is a valid
      u32, and the held modifiers are modifier tokens, each held once. */
  ghost predicate ValidState(s: LoopState) {
    0 < s.current < U32_LIMIT && s.current in s.assistants
    && (forall w :: w in s.assistants ==> 0 < w < U32_LIMIT)
    && (forall i :: 0 <= i < |s.modifiers| ==> IsModifierToken(s.modifiers[i]))
    && (forall i, j :: 0 <= i < j < |s.modifiers| ==> s.modifiers[i] != s.modifiers[j])
  }

  lemma InitialValid()
    ensures ValidState(Initial())
  {
  }

  /* ---------------- switch_workspace ---------------- */

  /** `switch_workspace`: a text that is not a u32, the number 0 or the
      current workspace changes nothing; otherwise the number becomes the
      current workspace, is written to the workspace file and, the first
      time, gets a cleared text log and its own assistant. */
  function Switched(s: LoopState, text: string): (LoopState, seq<Effect>)
  {
    match ParseU32(text)
    case None => (s, [])
    case Some(n) =>
      if n == 0 || n == s.current then (s, [])
      else if n in s.assistants then (s.(current := n), [WriteWorkspaceFile(n)])
      else (s.(current := n, assistants := s.assistants + {n}),
            [WriteWorkspaceFile(n), WriteLog(n, []), StartAssistant(n)])
  }

  /** Something happens exactly when the text names a workspace other than 0
      and the current one; a rejection changes nothing. A switch changes
      only the current workspace and the set of assistants. Its effects all
      concern the new workspace, start with the workspace-file write, and
      include a cleared log and a new assistant exactly when the workspace is
      visited for the first time. */
  lemma SwitchedCases(s: LoopState, text: string)
    ensures var r := Switched(s, text); var p := ParseU32(text);
            (r.1 == [] <==> p.None? || p.value == 0 || p.value == s.current)
            && (r.1 == [] ==> r.0 == s)
    ensures var r := Switched(s, text); var p := ParseU32(text);
            r.1 != [] ==>
              var n := p.value;
              && r.0.current == n && r.0.assistants == s.assistants + {n}
              && r.0.(current := s.current, assistants := s.assistants) == s
              && r.1[0] == WriteWorkspaceFile(n)
              && (forall e :: e in r.1 ==> !e.ToggleOverlay? && e.workspace == n)
              && (StartAssistant(n) in r.1 <==> n !in s.assistants)
              && (WriteLog(n, []) in r.1 <==> n !in s.assistants)
  {
  }

  /* ---------------- recording ---------------- */

  /** A token of the form "[...]", the key logger's name of a special key. */
  predicate IsBracketed(t: string) {
    StartsWith(t, "[") && EndsWith(t, "]")
  }

  /** The dictation buffer after a key typed with no modifier held, or None
      when the key leaves it (and the preview) alone. */
  function RecordedKey(buffer: string, t: string): Option<string> {
    if t == "[Space]" then Some(buffer + " ")
    else if t == "[Backspace]" then Some(if buffer == [] then [] else buffer[..|buffer| - 1])
    else if IsBracketed(t) then None
    else Some(buffer + t)
  }

  /** Typing one plain character and then Backspace gives the buffer back. */
  lemma TypeThenErase(buffer: string, c: char)
    requires c != '['
    ensures RecordedKey(buffer, [c]).Some?
    ensures RecordedKey(RecordedKey(buffer, [c]).value, "[Backspace]") == Some(buffer)
  {
    assert [c][..1] == [c];
    assert [c] != "[Space]" && [c] != "[Backspace]";
    var typed := buffer + [c];
    assert typed[..|typed| - 1] == buffer;
  }

  /** Space adds a blank, Backspace removes one character, and a plain
      token is added as it is. */
  lemma RecordedKeyEffect(buffer: string, t: string)
    ensures RecordedKey(buffer, t).None? <==> t != "[Space]" && t != "[Backspace]" && IsBracketed(t)
    ensures t == "[Space]" ==> RecordedKey(buffer, t) == Some(buffer + " ")
    ensures t == "[Backspace]" && buffer != [] ==>
              RecordedKey(buffer, t).Some? && RecordedKey(buffer, t).value + [buffer[|buffer| - 1]] == buffer
    ensures t == "[Backspace]" && buffer == [] ==> RecordedKey(buffer, t) == Some([])
    ensures !IsBracketed(t) ==> RecordedKey(buffer, t) == Some(buffer + t)
  {
    if t == "[Backspace]" && buffer != [] {
      assert buffer[..|buffer| - 1] + [buffer[|buffer| - 1]] == buffer;
    }
    if t == "[Space]" || t == "[Backspace]" {
      assert IsBracketed(t);
    }
  }

  /** The text log kept when recording starts: the log as it was, ending in
      a line break, followed by one empty line. */
  function Snapshot(log: string): string
  {
    (if log != [] && log[|log| - 1] != '\n' then log + "\n" else log) + "\n"
  }

  /** The snapshot keeps the log as its beginning and ends in an empty line. */
  lemma SnapshotShape(log: string)
    ensures |Snapshot(log)| > |log| && Snapshot(log)[..|log|] == log
    ensures log == [] ==> Snapshot(log) == "\n"
    ensures log != [] ==> |Snapshot(log)| >= |log| + 1 && Snapshot(log)[|Snapshot(log)| - 2..] == "\n\n"
    ensures log != [] && log[|log| - 1] == '\n' ==> Snapshot(log) == log + "\n"
  {
  }

  /* ---------------- combos ---------------- */

  /** The bindings a combo can trigger in the loop. */
  datatype Action = TakeScreenshot | TypeText | ShowHide | ClearLog | Solve

  /** The first binding the combo matches, ignoring ASCII case, trying
      screenshot, type text, show/hide, clear and solve in that order; the
      record-audio binding is never tried. */
  function MatchedAction(combo: string, b: Bindings): Option<Action>
  {
    if EqIgnoreAsciiCase(combo, b.takeScreenshot) then Some(TakeScreenshot)
    else if EqIgnoreAsciiCase(combo, b.typeText) then Some(TypeText)
    else if EqIgnoreAsciiCase(combo, b.showHide) then Some(ShowHide)
    else if EqIgnoreAsciiCase(combo, b.clear) then Some(ClearLog)
    else if EqIgnoreAsciiCase(combo, b.solve) then Some(Solve)
    else None
  }

  /** When no two of the five bindings are equal ignoring case, the order
      of trying them does not matter: a combo triggers exactly the binding
      it matches. */
  lemma DistinctBindingsMatch(combo: string, b: Bindings)
    requires var keys := [b.takeScreenshot, b.typeText, b.showHide, b.clear, b.solve];
             forall i, j :: 0 <= i < j < |keys| ==> !EqIgnoreAsciiCase(keys[i], keys[j])
    ensures MatchedAction(combo, b) == Some(TakeScreenshot) <==> EqIgnoreAsciiCase(combo, b.takeScreenshot)
    ensures MatchedAction(combo, b) == Some(TypeText) <==> EqIgnoreAsciiCase(combo, b.typeText)
    ensures MatchedAction(combo, b) == Some(ShowHide) <==> EqIgnoreAsciiCase(combo, b.showHide)
    ensures MatchedAction(combo, b) == Some(ClearLog) <==> EqIgnoreAsciiCase(combo, b.clear)
    ensures MatchedAction(combo, b) == Some(Solve) <==> EqIgnoreAsciiCase(combo, b.solve)
    ensures MatchedAction(combo, b).None? <==>
              !EqIgnoreAsciiCase(combo, b.takeScreenshot) && !EqIgnoreAsciiCase(combo, b.typeText)
              && !EqIgnoreAsciiCase(combo, b.showHide) && !EqIgnoreAsciiCase(combo, b.clear)
              && !EqIgnoreAsciiCase(combo, b.solve)
  {
    var keys := [b.takeScreenshot, b.typeText, b.showHide, b.clear, b.solve];
    assert !EqIgnoreAsciiCase(keys[0], keys[1]) && !EqIgnoreAsciiCase(keys[0], keys[2]);
    assert !EqIgnoreAsciiCase(keys[0], keys[3]) && !EqIgnoreAsciiCase(keys[0], keys[4]);
    assert !EqIgnoreAsciiCase(keys[1], keys[2]) && !EqIgnoreAsciiCase(keys[1], keys[3]);
    assert !EqIgnoreAsciiCase(keys[1], keys[4]) && !EqIgnoreAsciiCase(keys[2], keys[3]);
    assert !EqIgnoreAsciiCase(keys[2], keys[4]) && !EqIgnoreAsciiCase(keys[3], keys[4]);
  }

  /** What a matched binding does. `log` is the current workspace's text
      log, or "" when it cannot be read. */
  function Perform(s: LoopState, a: Action, log: string): (LoopState, seq<Effect>) {
    match a
    case TakeScreenshot => (s, [Screenshot(s.current)])
    case TypeText =>
      if !s.recording then
        var snap := Snapshot(log);
        (s.(recording := true, keyBuffer := [], snapshot := snap), [WriteLog(s.current, snap)])
      else (s, [])
    case ShowHide => (s, [ToggleOverlay])
    case ClearLog =>
      var s2 := if s.recording then s.(keyBuffer := [], snapshot := []) else s;
      (s2, [WriteLog(s.current, []), Send(s.current, "/restart")])
    case Solve =>
      if s.recording then
        var s2 := s.(recording := false, keyBuffer := [], snapshot := []);
        if s.keyBuffer != [] then
          (s2, [WriteLog(s.current, s.snapshot + s.keyBuffer + "  \n"),
                Send(s.current, Trim(s.keyBuffer) + "\n/ask")])
        else (s2, [WriteLog(s.current, s.snapshot), Send(s.current, "/ask")])
      else (s, [Send(s.current, "/ask")])
  }

  /** Dictation from start to end: "type text" starts recording from a
      snapshot of the log; "solve" then shows the typed text in the log,
      sends it trimmed with "/ask" and stops recording. */
  lemma DictationRoundTrip(s: LoopState, log: string, typed: string)
    requires !s.recording && typed != []
    ensures var started := Perform(s, TypeText, log).0;
            var done := Perform(started.(keyBuffer := typed), Solve, log);
            started.recording && started.snapshot == Snapshot(log)
            && done.1 == [WriteLog(s.current, Snapshot(log) + typed + "  \n"),
                          Send(s.current, Trim(typed) + "\n/ask")]
            && !done.0.recording && done.0.keyBuffer == [] && done.0.snapshot == []
  {
  }

  /** Two dictations in one batch of lines: the second snapshot is taken
      from the log the first one left, its text shown after the first
      snapshot and ended by "  \n". */
  lemma SecondDictationSeesFirst(s: LoopState, readLog: nat -> string, typed: string)
    requires !s.recording && typed != []
    ensures var started := Perform(s, TypeText, LogAfter(readLog, [], s.current));
            var done := Perform(started.0.(keyBuffer := typed), Solve, LogAfter(readLog, started.1, s.current));
            var again := Perform(done.0, TypeText, LogAfter(readLog, started.1 + done.1, s.current));
            again.0.recording
            && again.0.snapshot == Snapshot(Snapshot(readLog(s.current)) + typed + "  \n")
            && again.1 == [WriteLog(s.current, again.0.snapshot)]
  {
    var w := s.current;
    var snap := Snapshot(readLog(w));
    assert LogAfter(readLog, [], w) == readLog(w);
    var started := Perform(s, TypeText, readLog(w));
    assert started == (s.(recording := true, keyBuffer := [], snapshot := snap), [WriteLog(w, snap)]);
    var shown := snap + typed + "  \n";
    var sent := Send(w, Trim(typed) + "\n/ask");
    var done := Perform(started.0.(keyBuffer := typed), Solve, LogAfter(readLog, started.1, w));
    assert done.1 == [WriteLog(w, shown), sent];
    assert !done.0.recording && done.0.current == w;
    assert started.1 + done.1 == started.1 + [WriteLog(w, shown)] + [sent];
    LastWriteWins(readLog, started.1, w, shown, [sent]);
  }

  /* ---------------- one token ---------------- */

  /** The held modifiers after a modifier token, and whether it is the
      switch-workspace modifier. */
  function Hold(s: LoopState, b: Bindings, t: string): LoopState
    requires IsModifierToken(t)
  {
    var mods := if t in s.modifiers then s.modifiers else s.modifiers + [t];
    var c := CanonicalModifier(t);
    s.(modifiers := mods, waiting := s.waiting || (c != [] && EqIgnoreAsciiCase(c, b.switchToWorkspace)))
  }

  /** A key typed while recording with no modifier held. */
  function Typed(s: LoopState, t: string): (LoopState, seq<Effect>) {
    match RecordedKey(s.keyBuffer, t)
    case Some(buffer) => (s.(keyBuffer := buffer), [WriteLog(s.current, s.snapshot + buffer)])
    case None => (s, [])
  }

  /** A token that is not a pending workspace digit. `log` is what reading
      the current workspace's text log gives, should a binding need it. */
  function KeyStep(s: LoopState, b: Bindings, t: string, log: string): (LoopState, seq<Effect>) {
    if IsModifierToken(t) then (Hold(s, b, t), [])
    else if s.modifiers != [] then
      match MatchedAction(ComboString(s.modifiers, t), b)
      case Some(a) =>
        var done := Perform(s, a, log);
        (done.0.(modifiers := []), done.1)
      case None => (s.(modifiers := []), [])
    else if s.recording then Typed(s, t)
    else (s, [])
  }

  /** One trimmed, non-empty token of the `.event` file. After the
      switch-workspace modifier a single ASCII digit names the workspace to
      switch to; any other token cancels the wait and is handled as usual.
      `log` is what reading the current workspace's text log gives. */
  function TokenStep(s: LoopState, b: Bindings, t: string, log: string): (LoopState, seq<Effect>) {
    if s.waiting && |t| == 1 && IsAsciiDigit(t[0]) then
      var switched := Switched(s.(waiting := false), t);
      (switched.0.(modifiers := []), switched.1)
    else KeyStep(s.(waiting := false), b, t, log)
  }

  /** One line of new content: blank lines are skipped. */
  function LineStep(s: LoopState, b: Bindings, line: string, log: string): (LoopState, seq<Effect>) {
    var t := Trim(line);
    if t == [] then (s, []) else TokenStep(s, b, t, log)
  }

  /** What reading workspace w's text log gives after `effects`: the content
      of the last write to it among them, or `readLog(w)` when there is none
      (every write of the loop replaces the whole log). */
  function LogAfter(readLog: nat -> string, effects: seq<Effect>, w: nat): (r: string)
    ensures r == readLog(w) || WriteLog(w, r) in effects
    ensures (forall k :: 0 <= k < |effects| ==> !(effects[k].WriteLog? && effects[k].workspace == w)) ==> r == readLog(w)
    decreases |effects|
  {
    if effects == [] then readLog(w)
    else
      var e := effects[|effects| - 1];
      if e.WriteLog? && e.workspace == w then e.content
      else
        var r := LogAfter(readLog, effects[..|effects| - 1], w);
        assert forall k :: 0 <= k < |effects| - 1 ==> effects[..|effects| - 1][k] == effects[k];
        r
  }

  /** A read sees the last write to that log, whatever came before it. */
  lemma {:induction false} LastWriteWins(readLog: nat -> string, before: seq<Effect>, w: nat, content: string, after: seq<Effect>)
    requires forall k :: 0 <= k < |after| ==> !(after[k].WriteLog? && after[k].workspace == w)
    ensures LogAfter(readLog, before + [WriteLog(w, content)] + after, w) == content
    decreases |after|
  {
    var all := before + [WriteLog(w, content)] + after;
    if after != [] {
      var front := after[..|after| - 1];
      assert all[..|all| - 1] == before + [WriteLog(w, content)] + front;
      assert all[|all| - 1] == after[|after| - 1];
      LastWriteWins(readLog, before, w, content, front);
    }
  }

  /** The lines in order, with the effects of each after those before.
      `readLog(w)` is workspace w's text log when the lines arrive; a line
      that reads the log sees the writes of the lines before it. */
  function RunLines(s: LoopState, b: Bindings, lines: seq<string>, readLog: nat -> string): (LoopState, seq<Effect>)
    decreases |lines|
  {
    if lines == [] then (s, [])
    else
      var before := RunLines(s, b, lines[..|lines| - 1], readLog);
      var last := LineStep(before.0, b, lines[|lines| - 1], LogAfter(readLog, before.1, before.0.current));
      (last.0, before.1 + last.1)
  }

  /* ---------------- properties of the loop ---------------- */

  /** Every effect aimed at a workspace aims at one with an assistant. */
  ghost predicate EffectsTargetAssistants(s: LoopState, effects: seq<Effect>) {
    forall k :: 0 <= k < |effects| && (effects[k].Send? || effects[k].WriteLog?) ==>
      effects[k].workspace in s.assistants
  }

  lemma {:induction false} SwitchedKeepsValid(s: LoopState, text: string)
    requires ValidState(s)
    ensures ValidState(Switched(s, text).0)
    ensures Switched(s, text).0.assistants >= s.assistants
    ensures EffectsTargetAssistants(Switched(s, text).0, Switched(s, text).1)
  {
  }

  lemma {:induction false} PerformKeepsValid(s: LoopState, a: Action, log: string)
    requires ValidState(s)
    ensures ValidState(Perform(s, a, log).0)
    ensures Perform(s, a, log).0.current == s.current && Perform(s, a, log).0.assistants == s.assistants
    ensures EffectsTargetAssistants(s, Perform(s, a, log).1)
  {
  }

  lemma {:induction false} HoldKeepsValid(s: LoopState, b: Bindings, t: string)
    requires ValidState(s) && IsModifierToken(t)
    ensures ValidState(Hold(s, b, t))
  {
    var r := Hold(s, b, t);
    if t !in s.modifiers {
      var m := r.modifiers;
      assert m == s.modifiers + [t];
      forall i | 0 <= i < |m| ensures IsModifierToken(m[i]) {
        if i < |s.modifiers| {
          assert m[i] == s.modifiers[i];
        }
      }
      forall i, j | 0 <= i < j < |m| ensures m[i] != m[j] {
        if j < |s.modifiers| {
          assert m[i] == s.modifiers[i] && m[j] == s.modifiers[j];
        } else {
          assert m[i] == s.modifiers[i] && m[j] == t;
        }
      }
    }
  }

  /** The key logger's modifier tokens are all special keys. */
  lemma ModifierTokenBracketed(t: string)
    requires IsModifierToken(t)
    ensures IsBracketed(t) && |t| > 1
  {
  }

  /** A token keeps the loop's invariant, keeps every assistant, and only
      aims effects at workspaces with an assistant. */
  lemma {:induction false} TokenStepKeepsValid(s: LoopState, b: Bindings, t: string, log: string)
    requires ValidState(s)
    ensures ValidState(TokenStep(s, b, t, log).0)
    ensures TokenStep(s, b, t, log).0.assistants >= s.assistants
    ensures EffectsTargetAssistants(TokenStep(s, b, t, log).0, TokenStep(s, b, t, log).1)
  {
    var s1 := s.(waiting := false);
    assert ValidState(s1);
    if s.waiting && |t| == 1 && IsAsciiDigit(t[0]) {
      SwitchedKeepsValid(s1, t);
    } else if IsModifierToken(t) {
      HoldKeepsValid(s1, b, t);
    } else if s.modifiers != [] {
      var a := MatchedAction(ComboString(s.modifiers, t), b);
      if a.Some? {
        PerformKeepsValid(s1, a.value, log);
      }
    }
  }

  /** Every token that is not a modifier leaves no modifier held; a
      modifier token is held afterwards, once. */
  lemma TokenStepModifiers(s: LoopState, b: Bindings, t: string, log: string)
    ensures !IsModifierToken(t) ==> TokenStep(s, b, t, log).0.modifiers == []
    ensures IsModifierToken(t) ==>
              TokenStep(s, b, t, log).0.modifiers
              == (if t in s.modifiers then s.modifiers else s.modifiers + [t])
  {
    if IsModifierToken(t) {
      ModifierTokenBracketed(t);
    }
  }

  /** Pressing the modifier bound to "switch workspace" and then a digit
      other than 0 makes that digit's workspace current, with an assistant,
      and drops the held modifiers. */
  lemma SwitchByModifierThenDigit(s: LoopState, b: Bindings, m: string, d: char, log: string)
    requires ValidState(s) && IsModifierToken(m)
    requires EqIgnoreAsciiCase(CanonicalModifier(m), b.switchToWorkspace)
    requires '1' <= d <= '9'
    ensures var held := TokenStep(s, b, m, log).0;
            var after := TokenStep(held, b, [d], log).0;
            held.waiting && after.current == d as int - '0' as int
            && after.current in after.assistants && after.modifiers == [] && !after.waiting
  {
    var held := TokenStep(s, b, m, log).0;
    assert held.waiting;
    assert IsAsciiDigit([d][0]);
    var n := d as int - '0' as int;
    assert ParseU32([d]) == Some(n) by {
      assert UnsignedDigits([d]) == Some(DigitsValue([d]));
      assert DigitsValue([d]) == n;
    }
  }

  /** Recording, with nothing held and no digit awaited. */
  predicate Dictating(s: LoopState) {
    s.recording && s.modifiers == [] && !s.waiting
  }

  /** A non-empty token that neither starts nor ends with whitespace (so
      trimming keeps it) and is not a special key. */
  predicate PlainToken(t: string) {
    t != [] && !IsWhitespace(t[0]) && !IsWhitespace(t[|t| - 1]) && !IsBracketed(t)
  }

  /** A plain token typed while recording with nothing held is added to the
      buffer and refreshes the preview. */
  lemma PlainKeyTyped(s: LoopState, b: Bindings, t: string, log: string)
    requires Dictating(s) && PlainToken(t)
    ensures LineStep(s, b, t, log)
            == (s.(keyBuffer := s.keyBuffer + t), [WriteLog(s.current, s.snapshot + s.keyBuffer + t)])
  {
    if IsModifierToken(t) {
      ModifierTokenBracketed(t);
    }
    TrimUntouched(t);
    RecordedKeyEffect(s.keyBuffer, t);
    assert s.snapshot + (s.keyBuffer + t) == s.snapshot + s.keyBuffer + t;
  }

  /** While recording with nothing held, plain tokens are added to the
      buffer one after the other. */
  lemma {:induction false} TypingAppends(s: LoopState, b: Bindings, lines: seq<string>, readLog: nat -> string)
    requires Dictating(s)
    requires forall k :: 0 <= k < |lines| ==> PlainToken(lines[k])
    ensures RunLines(s, b, lines, readLog).0 == s.(keyBuffer := s.keyBuffer + Concat(lines))
    decreases |lines|
  {
    if lines != [] {
      var front := lines[..|lines| - 1];
      var t := lines[|lines| - 1];
      TypingAppends(s, b, front, readLog);
      var before := RunLines(s, b, front, readLog);
      var mid := before.0;
      var log := LogAfter(readLog, before.1, mid.current);
      assert Dictating(mid) && PlainToken(t);
      PlainKeyTyped(mid, b, t, log);
      assert RunLines(s, b, lines, readLog).0 == LineStep(mid, b, t, log).0;
      ConcatLast(lines);
      AppendAssoc(s.keyBuffer, Concat(front), t);
    }
  }

  lemma AppendAssoc(a: string, b: string, c: string)
    ensures (a + b) + c == a + (b + c)
  {
  }

  /** All strings of a sequence, one after the other. */
  function Concat(ss: seq<string>): (r: string)
    ensures ss == [] ==> r == []
  {
    if ss == [] then [] else ss[0] + Concat(ss[1..])
  }

  lemma {:induction false} ConcatLast(ss: seq<string>)
    requires ss != []
    ensures Concat(ss) == Concat(ss[..|ss| - 1]) + ss[|ss| - 1]
    decreases |ss|
  {
    if |ss| > 1 {
      ConcatLast(ss[1..]);
      assert ss[1..][..|ss| - 2] == ss[..|ss| - 1][1..];
    }
  }

  /** A run of lines keeps the invariant and every assistant, and aims every
      effect at a workspace with an assistant. */
  lemma {:induction false} RunLinesKeepsValid(s: LoopState, b: Bindings, lines: seq<string>, readLog: nat -> string)
    requires ValidState(s)
    ensures ValidState(RunLines(s, b, lines, readLog).0)
    ensures RunLines(s, b, lines, readLog).0.assistants >= s.assistants
    ensures EffectsTargetAssistants(RunLines(s, b, lines, readLog).0, RunLines(s, b, lines, readLog).1)
    decreases |lines|
  {
    if lines != [] {
      var front := lines[..|lines| - 1];
      RunLinesKeepsValid(s, b, front, readLog);
      var mid := RunLines(s, b, front, readLog);
      var log := LogAfter(readLog, mid.1, mid.0.current);
      var step := LineStep(mid.0, b, lines[|lines| - 1], log);
      var t := Trim(lines[|lines| - 1]);
      if t != [] {
        TokenStepKeepsValid(mid.0, b, t, log);
      }
      EffectsAppend(mid.0, step.0, mid.1, step.1);
    }
  }

  /** Effects aimed at assistants stay so when assistants are only added. */
  lemma EffectsAppend(s: LoopState, s': LoopState, e1: seq<Effect>, e2: seq<Effect>)
    requires EffectsTargetAssistants(s, e1) && s'.assistants >= s.assistants
    requires EffectsTargetAssistants(s', e2)
    ensures EffectsTargetAssistants(s', e1 + e2)
  {
    forall k | 0 <= k < |e1 + e2| && ((e1 + e2)[k].Send? || (e1 + e2)[k].WriteLog?)
      ensures (e1 + e2)[k].workspace in s'.assistants
    {
      if k < |e1| { assert (e1 + e2)[k] == e1[k]; } else { assert (e1 + e2)[k] == e2[k - |e1|]; }
    }
  }

  /* ---------------- read_new_content ---------------- */

  /** `read_new_content` on a file now holding `file`, last read up to
      `lastPos`: what is read, and where the next read starts. */
  function NewContent(file: string, lastPos: nat): (r: (string, nat))
    ensures r.1 == |file|
    ensures |file| == lastPos ==> r.0 == []
    ensures |file| < lastPos ==> r.0 == file
    ensures |file| > lastPos ==> file == file[..lastPos] + r.0
  {
    if |file| == lastPos then ([], lastPos)
    else
      var start := if |file| < lastPos then 0 else lastPos;
      (file[start..], |file|)
  }

  /** Appending to the watched file and reading delivers exactly what was
      appended; two appends read in turn deliver both, in order. */
  lemma AppendedContentIsNew(before: string, added: string, more: string)
    ensures NewContent(before + added, |before|) == (added, |before + added|)
    ensures var first := NewContent(before + added, |before|);
            NewContent(before + added + more, first.1) == (more, |before + added + more|)
  {
    assert (before + added)[|before|..] == added;
    assert (before + added + more)[|before + added|..] == more;
  }

  /* ---------------- the loop as an object ---------------- */

  /** The main loop's variables, updated token by token. */
  class EventLoop {
    const bindings: Bindings
    var currentWorkspace: nat
    var assistants: set<nat>
    var recording: bool
    var keyBuffer: string
    var snapshot: string
    var activeModifiers: seq<string>
    var waiting: bool
    var filePos: nat

    function State(): LoopState
      reads this
    {
      LoopState(currentWorkspace, assistants, recording, keyBuffer, snapshot, activeModifiers, waiting)
    }

    ghost predicate Valid()
      reads this
    {
      ValidState(State())
    }

    /** Workspace 1 with its assistant; the watch starts at the end of the
        `.event` file as it is. */
    constructor(raw: Bindings, eventFileLength: nat)
      ensures Valid() && State() == Initial()
      ensures bindings == CanonicalBindings(raw) && filePos == eventFileLength
    {
      bindings := CanonicalBindings(raw);
      currentWorkspace := 1;
      assistants := {1};
      recording := false;
      keyBuffer := [];
      snapshot := [];
      activeModifiers := [];
      waiting := false;
      filePos := eventFileLength;
    }

    /** `switch_workspace` on the loop's current workspace and senders. */
    method SwitchWorkspace(text: string) returns (effects: seq<Effect>)
      modifies this
      ensures State() == Switched(old(State()), text).0 && effects == Switched(old(State()), text).1
      ensures filePos == old(filePos)
    {
      effects := [];
      var parsed := ParseU32(text);
      if parsed.None? || parsed.value == 0 || parsed.value == currentWorkspace {
        return;
      }
      var n := parsed.value;
      currentWorkspace := n;
      effects := [WriteWorkspaceFile(n)];
      if n !in assistants {
        effects := effects + [WriteLog(n, []), StartAssistant(n)];
        assistants := assistants + {n};
      }
    }

    /** A matched binding's action. */
    method PerformAction(a: Action, log: string) returns (effects: seq<Effect>)
      modifies this
      ensures State() == Perform(old(State()), a, log).0 && effects == Perform(old(State()), a, log).1
      ensures filePos == old(filePos)
    {
      effects := [];
      match a
      case TakeScreenshot =>
        effects := [Screenshot(currentWorkspace)];
      case TypeText =>
        if !recording {
          recording := true;
          keyBuffer := [];
          snapshot := Snapshot(log);
          effects := [WriteLog(currentWorkspace, snapshot)];
        }
      case ShowHide =>
        effects := [ToggleOverlay];
      case ClearLog =>
        effects := [WriteLog(currentWorkspace, [])];
        if recording {
          keyBuffer := [];
          snapshot := [];
        }
        effects := effects + [Send(currentWorkspace, "/restart")];
      case Solve =>
        if recording {
          recording := false;
          if keyBuffer != [] {
            effects := [WriteLog(currentWorkspace, snapshot + keyBuffer + "  \n"),
                        Send(currentWorkspace, Trim(keyBuffer) + "\n/ask")];
            keyBuffer := [];
          } else {
            effects := [WriteLog(currentWorkspace, snapshot), Send(currentWorkspace, "/ask")];
          }
          snapshot := [];
        } else {
          effects := [Send(currentWorkspace, "/ask")];
        }
    }

    /** A modifier token: held once, and the switch-workspace modifier
        starts the wait for a digit. */
    method HoldModifier(t: string)
      requires IsModifierToken(t)
      modifies this
      ensures State() == Hold(old(State()), bindings, t) && filePos == old(filePos)
    {
      if t !in activeModifiers {
        activeModifiers := activeModifiers + [t];
      }
      var c := CanonicalModifier(t);
      if c != [] && EqIgnoreAsciiCase(c, bindings.switchToWorkspace) {
        waiting := true;
      }
    }

    /** A key typed while recording with no modifier held. */
    method TypeKey(t: string) returns (effects: seq<Effect>)
      modifies this
      ensures State() == Typed(old(State()), t).0 && effects == Typed(old(State()), t).1
      ensures filePos == old(filePos)
    {
      effects := [];
      var needsUpdate := true;
      if t == "[Space]" {
        keyBuffer := keyBuffer + " ";
      } else if t == "[Backspace]" {
        if keyBuffer != [] {
          keyBuffer := keyBuffer[..|keyBuffer| - 1];
        }
      } else if IsBracketed(t) {
        needsUpdate := false;
      } else {
        keyBuffer := keyBuffer + t;
      }
      if needsUpdate {
        effects := [WriteLog(currentWorkspace, snapshot + keyBuffer)];
      }
    }

    /** One trimmed, non-empty token. */
    method HandleToken(t: string, log: string) returns (effects: seq<Effect>)
      requires Valid()
      modifies this
      ensures Valid()
      ensures State() == TokenStep(old(State()), bindings, t, log).0
      ensures effects == TokenStep(old(State()), bindings, t, log).1
      ensures filePos == old(filePos)
    {
      TokenStepKeepsValid(State(), bindings, t, log);
      effects := [];
      if waiting {
        waiting := false;
        if |t| == 1 && IsAsciiDigit(t[0]) {
          effects := SwitchWorkspace(t);
          activeModifiers := [];
          return;
        }
      }
      effects := HandleKey(t, log);
    }

    /** A token that is not a pending workspace digit: a modifier is held;
        another key ends a chord, or is typed while recording; either way
        no modifier is held afterwards. */
    method HandleKey(t: string, log: string) returns (effects: seq<Effect>)
      modifies this
      ensures State() == KeyStep(old(State()), bindings, t, log).0
      ensures effects == KeyStep(old(State()), bindings, t, log).1
      ensures filePos == old(filePos)
    {
      effects := [];
      if IsModifierToken(t) {
        HoldModifier(t);
      } else {
        if activeModifiers != [] {
          var combo := ComboString(activeModifiers, t);
          var action := MatchedAction(combo, bindings);
          if action.Some? {
            effects := PerformAction(action.value, log);
          }
        } else if recording {
          effects := TypeKey(t);
        }
        activeModifiers := [];
      }
    }

    /** `read_new_content` on the `.event` file now holding `file`. */
    method ReadNewContent(file: string) returns (content: string)
      modifies this`filePos
      ensures (content, filePos) == NewContent(file, old(filePos))
    {
      if |file| == filePos {
        return [];
      }
      if |file| < filePos {
        filePos := 0;
      }
      content := file[filePos..];
      filePos := |file|;
    }

    /** One modification of the `.event` file: its new lines, in order. */
    method HandleModification(file: string, readLog: nat -> string) returns (effects: seq<Effect>)
      requires Valid()
      modifies this
      ensures Valid()
      ensures var lines := Lines(NewContent(file, old(filePos)).0);
              State() == RunLines(old(State()), bindings, lines, readLog).0
              && effects == RunLines(old(State()), bindings, lines, readLog).1
      ensures filePos == |file|
    {
      var content := ReadNewContent(file);
      var lines := Lines(content);
      ghost var start := State();
      effects := [];
      for i := 0 to |lines|
        invariant Valid() && filePos == |file|
        invariant State() == RunLines(start, bindings, lines[..i], readLog).0
        invariant effects == RunLines(start, bindings, lines[..i], readLog).1
      {
        NextLine(start, lines, i, readLog);
        var e := HandleLine(lines[i], LogAfter(readLog, effects, currentWorkspace));
        effects := effects + e;
      }
      assert lines[..|lines|] == lines;
    }

    /** One line of new content; blank lines are skipped. */
    method HandleLine(line: string, log: string) returns (effects: seq<Effect>)
      requires Valid()
      modifies this
      ensures Valid()
      ensures State() == LineStep(old(State()), bindings, line, log).0
      ensures effects == LineStep(old(State()), bindings, line, log).1
      ensures filePos == old(filePos)
    {
      effects := [];
      var t := Trim(line);
      if t != [] {
        effects := HandleToken(t, log);
      }
    }

    /** The fold over the lines read so far, one line further. */
    lemma NextLine(start: LoopState, lines: seq<string>, i: nat, readLog: nat -> string)
      requires i < |lines|
      ensures var before := RunLines(start, bindings, lines[..i], readLog);
              var step := LineStep(before.0, bindings, lines[i], LogAfter(readLog, before.1, before.0.current));
              RunLines(start, bindings, lines[..i + 1], readLog) == (step.0, before.1 + step.1)
    {
      assert lines[..i + 1][..i] == lines[..i];
    }
  }
}
