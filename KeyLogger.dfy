/** The unix key logger: the table from key codes to labels, the modifier
    flags and the capture buffer that the event loop keeps while it reads
    input events, and the scan of the input-device list for the keyboard.
    The device, the clock and the list file are inputs; turning a name and
    the flags into text (`set_modifier`) is a function parameter. */
module KeyLogger {
  import opened Wrappers
  import opened Strings

  /** The name of each key code the logger knows; `None` for the others.
      The table is split by ranges of codes, which keeps each lookup short. */
  function KeyName(code: nat): Option<string> {
    if code < 30 then KeyNameBelow30(code)
    else if code < 60 then KeyName30To59(code)
    else if code < 100 then KeyName60To99(code)
    else KeyNameFrom100(code)
  }

  function KeyNameBelow30(code: nat): Option<string> {
    match code
    case 1 => Some("[esc]")
    case 2 => Some("1")
    case 3 => Some("2")
    case 4 => Some("3")
    case 5 => Some("4")
    case 6 => Some("5")
    case 7 => Some("6")
    case 8 => Some("7")
    case 9 => Some("8")
    case 10 => Some("9")
    case 11 => Some("0")
    case 12 => Some("-")
    case 13 => Some("=")
    case 14 => Some("[Backspace]")
    case 15 => Some("[Tab]")
    case 16 => Some("q")
    case 17 => Some("w")
    case 18 => Some("e")
    case 19 => Some("r")
    case 20 => Some("t")
    case 21 => Some("y")
    case 22 => Some("u")
    case 23 => Some("i")
    case 24 => Some("o")
    case 25 => Some("p")
    case 26 => Some("[")
    case 27 => Some("]")
    case 28 => Some("[Enter]")
    case 29 => Some("[CtrlL]")
    case _ => None
  }

  function KeyName30To59(code: nat): Option<string> {
    match code
    case 30 => Some("a")
    case 31 => Some("s")
    case 32 => Some("d")
    case 33 => Some("f")
    case 34 => Some("g")
    case 35 => Some("h")
    case 36 => Some("j")
    case 37 => Some("k")
    case 38 => Some("l")
    case 39 => Some(";")
    case 40 => Some("'")
    case 41 => Some("`")
    case 42 => Some("[ShiftL]")
    case 43 => Some("\\")
    case 44 => Some("z")
    case 45 => Some("x")
    case 46 => Some("c")
    case 47 => Some("v")
    case 48 => Some("b")
    case 49 => Some("n")
    case 50 => Some("m")
    case 51 => Some(",")
    case 52 => Some(".")
    case 53 => Some("/")
    case 54 => Some("[ShiftR]")
    case 55 => Some("*")
    case 56 => Some("[AltL]")
    case 57 => Some("[Space]")
    case 58 => Some("[CapsLock]")
    case 59 => Some("[F1]")
    case _ => None
  }

  function KeyName60To99(code: nat): Option<string> {
    match code
    case 60 => Some("[F2]")
    case 61 => Some("[F3]")
    case 62 => Some("[F4]")
    case 63 => Some("[F5]")
    case 64 => Some("[F6]")
    case 65 => Some("[F7]")
    case 66 => Some("[F8]")
    case 67 => Some("[F9]")
    case 68 => Some("[F10]")
    case 69 => Some("[NumLock]")
    case 71 => Some("7")
    case 72 => Some("8")
    case 73 => Some("9")
    case 74 => Some("-")
    case 75 => Some("4")
    case 76 => Some("5")
    case 77 => Some("6")
    case 78 => Some("+")
    case 79 => Some("1")
    case 80 => Some("2")
    case 81 => Some("3")
    case 82 => Some("0")
    case 83 => Some(".")
    case 87 => Some("[F11]")
    case 88 => Some("[F12]")
    case 96 => Some("[Enter]")
    case 97 => Some("[CtrlR]")
    case 98 => Some("/")
    case 99 => Some("[PrtSc]")
    case _ => None
  }

  function KeyNameFrom100(code: nat): Option<string> {
    match code
    case 100 => Some("[AltR]")
    case 103 => Some("[up]")
    case 105 => Some("[left]")
    case 106 => Some("[right]")
    case 108 => Some("[down]")
    case 110 => Some("[Insert]")
    case 111 => Some("[Delete]")
    case 113 => Some("[Fn-F1]")
    case 114 => Some("[Fn-F2]")
    case 115 => Some("[Fn-F3]")
    case 125 => Some("[SuperL]")
    case 140 => Some("[Fn-F12]")
    case 163 => Some("[Forward]")
    case 164 => Some("[Play/Pause]")
    case 165 => Some("[Backward]")
    case 166 => Some("[Stop]")
    case _ => None
  }

  /** Two codes for Enter (the main key and the keypad one). */
  lemma EnterHasTwoCodes()
    ensures KeyName(28) == KeyName(96) == Some("[Enter]")
  {
  }

  /** The keypad repeats the names of the digits of the number row, so a
      name does not tell which of the two keys was pressed: here for 0 to 4. */
  lemma KeypadRepeatsLowerDigits()
    ensures KeyName(82) == KeyName(11) == Some("0")
    ensures KeyName(79) == KeyName(2) == Some("1")
    ensures KeyName(80) == KeyName(3) == Some("2")
    ensures KeyName(81) == KeyName(4) == Some("3")
    ensures KeyName(75) == KeyName(5) == Some("4")
  {
  }

  /** The same for the digits 5 to 9. */
  lemma KeypadRepeatsUpperDigits()
    ensures KeyName(76) == KeyName(6) == Some("5")
    ensures KeyName(77) == KeyName(7) == Some("6")
    ensures KeyName(71) == KeyName(8) == Some("7")
    ensures KeyName(72) == KeyName(9) == Some("8")
    ensures KeyName(73) == KeyName(10) == Some("9")
  {
  }

  /** The same holds for '-', '.' and '/'. */
  lemma KeypadRepeatsPunctuation()
    ensures KeyName(74) == KeyName(12) == Some("-")
    ensures KeyName(83) == KeyName(52) == Some(".")
    ensures KeyName(98) == KeyName(53) == Some("/")
  {
  }

  /* ---------------- modifier flags ---------------- */

  /** The flags the event loop keeps: `option` is Alt and `func` is Super. */
  datatype Modifiers = Modifiers(shift: bool, capslock: bool, ctrl: bool, option: bool, func: bool)

  const NO_MODIFIERS: Modifiers := Modifiers(false, false, false, false, false)

  predicate IsShift(name: string) { name == "[ShiftL]" || name == "[ShiftR]" }
  predicate IsCtrl(name: string) { name == "[CtrlL]" || name == "[CtrlR]" }
  predicate IsAlt(name: string) { name == "[AltL]" || name == "[AltR]" }
  predicate IsSuper(name: string) { name == "[SuperL]" || name == "[SuperR]" }
  predicate IsCapsLock(name: string) { name == "[CapsLock]" }

  /** A press sets the flag of its modifier and flips Caps Lock. */
  function Pressed(m: Modifiers, name: string): Modifiers {
    Modifiers(m.shift || IsShift(name),
              if IsCapsLock(name) then !m.capslock else m.capslock,
              m.ctrl || IsCtrl(name),
              m.option || IsAlt(name),
              m.func || IsSuper(name))
  }

  /** A release clears Shift and Ctrl only: Alt and Super stay set. */
  function Released(m: Modifiers, name: string): Modifiers {
    m.(shift := m.shift && !IsShift(name), ctrl := m.ctrl && !IsCtrl(name))
  }

  /** One input event: its type, key code and value (1 press, 0 release,
      2 auto-repeat). */
  datatype KeyEvent = KeyEvent(evtype: nat, code: nat, value: int)

  /** Only key presses and releases of a non-zero code are looked at. */
  predicate Considered(e: KeyEvent) {
    e.code != 0 && e.evtype == 1 && (e.value == 1 || e.value == 0)
  }

  /** A press of a key the table names. */
  predicate NamedPress(e: KeyEvent, keys: nat -> Option<string>) {
    Considered(e) && e.value == 1 && keys(e.code).Some?
  }

  /** The flags after an event, for a table `keys` of key names. */
  function NextModifiers(m: Modifiers, e: KeyEvent, keys: nat -> Option<string>): Modifiers {
    if !Considered(e) || keys(e.code).None? then m
    else if e.value == 1 then Pressed(m, keys(e.code).value)
    else Released(m, keys(e.code).value)
  }

  /** The text an event adds to the capture buffer: the rendering of the
      pressed key with the flags as they are after the press. */
  function KeyOutput(m: Modifiers, e: KeyEvent, keys: nat -> Option<string>, render: (string, Modifiers) -> string): string {
    if NamedPress(e, keys) then render(keys(e.code).value, Pressed(m, keys(e.code).value)) else []
  }

  /** What one event does to the flags and the text. */
  lemma EventEffects(m: Modifiers, e: KeyEvent, keys: nat -> Option<string>, render: (string, Modifiers) -> string)
    ensures !Considered(e) || keys(e.code).None? ==>
              NextModifiers(m, e, keys) == m && KeyOutput(m, e, keys, render) == []
    ensures NamedPress(e, keys) ==>
              var name := keys(e.code).value;
              var next := NextModifiers(m, e, keys);
              && next.capslock == (m.capslock != IsCapsLock(name))
              && (IsShift(name) ==> next.shift)
              && (IsCtrl(name) ==> next.ctrl)
              && (IsAlt(name) ==> next.option)
              && (IsSuper(name) ==> next.func)
              && KeyOutput(m, e, keys, render) == render(name, next)
    ensures Considered(e) && e.value == 0 ==>
              var next := NextModifiers(m, e, keys);
              && KeyOutput(m, e, keys, render) == []
              && next.capslock == m.capslock && next.option == m.option && next.func == m.func
              && (keys(e.code).Some? && IsShift(keys(e.code).value) ==> !next.shift)
              && (keys(e.code).Some? && IsCtrl(keys(e.code).value) ==> !next.ctrl)
  {
  }

  /* ---------------- the capture loop ---------------- */

  /** An event as read, with the seconds the read took (`None` when the
      clock went backwards). */
  datatype Reading = Reading(event: KeyEvent, elapsed: Option<nat>)

  /** The buffer is handed to the disk writer, and emptied, once a read has
      taken the write interval or longer. */
  predicate IntervalElapsed(elapsed: Option<nat>, interval: nat) {
    elapsed.Some? && elapsed.value >= interval
  }

  /** The logger after some readings: the flags, the capture buffer, the
      chunks handed to the disk writer, and all the text captured so far. */
  datatype Logger = Logger(mods: Modifiers, buffer: string, written: seq<string>, typed: string)

  function Run(readings: seq<Reading>, interval: nat, keys: nat -> Option<string>,
               render: (string, Modifiers) -> string): Logger
    decreases |readings|
  {
    if readings == [] then Logger(NO_MODIFIERS, [], [], [])
    else
      var l := Run(readings[..|readings| - 1], interval, keys, render);
      var r := readings[|readings| - 1];
      var flush := IntervalElapsed(r.elapsed, interval);
      var written := if flush && l.buffer != [] then l.written + [l.buffer] else l.written;
      var buffer := if flush then [] else l.buffer;
      var out := KeyOutput(l.mods, r.event, keys, render);
      Logger(NextModifiers(l.mods, r.event, keys), buffer + out, written, l.typed + out)
  }

  /** The event loop over the readings available, with the logger's key
      table. */
  method LogKeys(readings: seq<Reading>, interval: nat, render: (string, Modifiers) -> string)
    returns (written: seq<string>, mods: Modifiers, captureBuffer: string)
    ensures written == Run(readings, interval, KeyName, render).written
    ensures mods == Run(readings, interval, KeyName, render).mods
    ensures captureBuffer == Run(readings, interval, KeyName, render).buffer
  {
    var keys := KeyName;
    written, mods, captureBuffer := [], NO_MODIFIERS, [];
    for i := 0 to |readings|
      invariant written == Run(readings[..i], interval, keys, render).written
      invariant mods == Run(readings[..i], interval, keys, render).mods
      invariant captureBuffer == Run(readings[..i], interval, keys, render).buffer
    {
      NextReading(readings, i, interval, keys, render);
      var r := readings[i];
      if r.elapsed.Some? && r.elapsed.value >= interval {
        if |captureBuffer| > 0 {
          written := written + [captureBuffer];
        }
        captureBuffer := [];
      }
      var out;
      mods, out := HandleEvent(mods, r.event, keys, render);
      captureBuffer := captureBuffer + out;
    }
    assert readings[..|readings|] == readings;
  }

  /** One event: the flags after it and the text it adds. */
  method HandleEvent(m: Modifiers, e: KeyEvent, keys: nat -> Option<string>, render: (string, Modifiers) -> string)
    returns (mods: Modifiers, out: string)
    ensures mods == NextModifiers(m, e, keys) && out == KeyOutput(m, e, keys, render)
  {
    mods, out := m, [];
    if e.code != 0 && (e.evtype == 1 && (e.value == 1 || e.value == 0)) {
      match keys(e.code)
      case Some(name) =>
        if e.value == 1 {
          if IsShift(name) { mods := mods.(shift := true); }
          if IsCapsLock(name) { mods := mods.(capslock := !mods.capslock); }
          if IsCtrl(name) { mods := mods.(ctrl := true); }
          if IsAlt(name) { mods := mods.(option := true); }
          if IsSuper(name) { mods := mods.(func := true); }
          out := render(name, mods);
        } else {
          if IsShift(name) { mods := mods.(shift := false); }
          if IsCtrl(name) { mods := mods.(ctrl := false); }
        }
      case None =>
    }
  }

  lemma NextReading(readings: seq<Reading>, i: nat, interval: nat, keys: nat -> Option<string>,
                    render: (string, Modifiers) -> string)
    requires i < |readings|
    ensures var l := Run(readings[..i], interval, keys, render);
            var r := readings[i];
            var flush := IntervalElapsed(r.elapsed, interval);
            var out := KeyOutput(l.mods, r.event, keys, render);
            Run(readings[..i + 1], interval, keys, render)
            == Logger(NextModifiers(l.mods, r.event, keys),
                      (if flush then [] else l.buffer) + out,
                      if flush && l.buffer != [] then l.written + [l.buffer] else l.written,
                      l.typed + out)
  {
    assert readings[..i + 1][..i] == readings[..i];
  }

  /* ---------------- over a whole run ---------------- */

  function Concat(chunks: seq<string>): string
    decreases |chunks|
  {
    if chunks == [] then [] else Concat(chunks[..|chunks| - 1]) + chunks[|chunks| - 1]
  }

  /** Nothing captured is lost or repeated: the chunks written, followed by
      what is still in the buffer, are all the text captured, in order. */
  lemma {:induction false} NothingLost(readings: seq<Reading>, interval: nat, keys: nat -> Option<string>,
                                       render: (string, Modifiers) -> string)
    ensures var l := Run(readings, interval, keys, render);
            Concat(l.written) + l.buffer == l.typed
    decreases |readings|
  {
    if readings != [] {
      var init := readings[..|readings| - 1];
      NothingLost(init, interval, keys, render);
      var l := Run(init, interval, keys, render);
      var r := readings[|readings| - 1];
      FlushKeepsText(l.written, l.buffer, l.typed, KeyOutput(l.mods, r.event, keys, render),
                     IntervalElapsed(r.elapsed, interval));
    }
  }

  /** One step of the loop keeps the written chunks and the buffer equal to
      the text captured. */
  lemma FlushKeepsText(written: seq<string>, buffer: string, typed: string, out: string, flush: bool)
    requires Concat(written) + buffer == typed
    ensures var w := if flush && buffer != [] then written + [buffer] else written;
            Concat(w) + ((if flush then [] else buffer) + out) == typed + out
  {
    if flush && buffer != [] {
      assert (written + [buffer])[..|written|] == written;
      assert Concat(written + [buffer]) == typed;
    } else if !flush {
      assert Concat(written) + (buffer + out) == (Concat(written) + buffer) + out;
    }
  }

  /** No chunk handed to the disk writer is empty. */
  lemma {:induction false} NoEmptyWrites(readings: seq<Reading>, interval: nat, keys: nat -> Option<string>,
                                         render: (string, Modifiers) -> string)
    ensures forall chunk :: chunk in Run(readings, interval, keys, render).written ==> chunk != []
    decreases |readings|
  {
    if readings != [] {
      var init := readings[..|readings| - 1];
      NoEmptyWrites(init, interval, keys, render);
      var l := Run(init, interval, keys, render);
      var r := readings[|readings| - 1];
      if IntervalElapsed(r.elapsed, interval) && l.buffer != [] {
        assert Run(readings, interval, keys, render).written == l.written + [l.buffer];
      }
    }
  }

  /** Alt and Super, once pressed, stay set for the rest of the run. */
  lemma {:induction false} AltAndSuperStay(readings: seq<Reading>, i: nat, interval: nat, keys: nat -> Option<string>,
                                           render: (string, Modifiers) -> string)
    requires i <= |readings|
    ensures Run(readings[..i], interval, keys, render).mods.option ==> Run(readings, interval, keys, render).mods.option
    ensures Run(readings[..i], interval, keys, render).mods.func ==> Run(readings, interval, keys, render).mods.func
    decreases |readings| - i
  {
    if i < |readings| {
      NextReading(readings, i, interval, keys, render);
      AltAndSuperStay(readings, i + 1, interval, keys, render);
    } else {
      assert readings[..i] == readings;
    }
  }

  /** The number of presses of Caps Lock among the readings. */
  function CapsLockPresses(readings: seq<Reading>, keys: nat -> Option<string>): nat
    decreases |readings|
  {
    if readings == [] then 0
    else
      var e := readings[|readings| - 1].event;
      CapsLockPresses(readings[..|readings| - 1], keys)
      + (if NamedPress(e, keys) && IsCapsLock(keys(e.code).value) then 1 else 0)
  }

  /** Caps Lock is on exactly when it has been pressed an odd number of
      times. */
  lemma {:induction false} CapsLockParity(readings: seq<Reading>, interval: nat, keys: nat -> Option<string>,
                                          render: (string, Modifiers) -> string)
    ensures Run(readings, interval, keys, render).mods.capslock == (CapsLockPresses(readings, keys) % 2 == 1)
    decreases |readings|
  {
    if readings != [] {
      CapsLockParity(readings[..|readings| - 1], interval, keys, render);
    }
  }

  /* ---------------- finding the keyboard ---------------- */

  const SYSRQ_HANDLERS: string := "H: Handlers=sysrq"
  const KEYBOARD_EVENTS: string := "EV=120013"
  const EVENT_DIR: string := "/dev/input/"

  /** `Path::file_name` of a line: what follows its last '/'. */
  function FileName(s: string): (r: string)
    ensures '/' !in s ==> r == s
    ensures '/' !in r
    decreases |s|
  {
    if s == [] then []
    else if s[|s| - 1] == '/' then []
    else
      var init := FileName(s[..|s| - 1]);
      assert '/' !in s ==> '/' !in s[..|s| - 1];
      assert '/' !in s ==> s[..|s| - 1] + [s[|s| - 1]] == s;
      init + [s[|s| - 1]]
  }

  /** What the scan holds for a handler after some lines: the file name of
      the last line naming the sysrq handler, or nothing. */
  function LastHandler(lines: seq<string>): string
    decreases |lines|
  {
    if lines == [] then []
    else if Contains(lines[|lines| - 1], SYSRQ_HANDLERS) then FileName(lines[|lines| - 1])
    else LastHandler(lines[..|lines| - 1])
  }

  /** The first word holding "event", if any. */
  function FirstEventWord(words: seq<string>): (r: Option<string>)
    ensures r.Some? ==> r.value in words && Contains(r.value, "event")
    ensures r.None? ==> forall k :: 0 <= k < |words| ==> !Contains(words[k], "event")
    decreases |words|
  {
    if words == [] then None
    else if Contains(words[0], "event") then Some(words[0])
    else FirstEventWord(words[1..])
  }

  /** The handler's event word, or the whole handler text when it has none. */
  function EventWord(handler: string): string {
    match FirstEventWord(Split(handler, ' '))
    case Some(w) => w
    case None => handler
  }

  /** The position of the first line at `i` or later that announces
      keyboard events. */
  function KeyboardLineFrom(lines: seq<string>, i: nat): (r: Option<nat>)
    requires i <= |lines|
    ensures r.Some? ==> i <= r.value < |lines| && Contains(lines[r.value], KEYBOARD_EVENTS)
    ensures r.Some? ==> forall j :: i <= j < r.value ==> !Contains(lines[j], KEYBOARD_EVENTS)
    ensures r.None? ==> forall j :: i <= j < |lines| ==> !Contains(lines[j], KEYBOARD_EVENTS)
    decreases |lines| - i
  {
    if i == |lines| then None
    else if Contains(lines[i], KEYBOARD_EVENTS) then Some(i)
    else KeyboardLineFrom(lines, i + 1)
  }

  /** The keyboard device: the event word of the last sysrq handler seen up
      to and including the first line that announces keyboard events, under
      the input directory; empty when no line announces them. */
  function KeyboardDevice(lines: seq<string>): string {
    match KeyboardLineFrom(lines, 0)
    case None => []
    case Some(k) => EVENT_DIR + EventWord(LastHandler(lines[..k + 1]))
  }

  /** Scans the device list line by line and stops at the first keyboard. */
  method FindKeyboardDevice(lines: seq<string>) returns (keyboardFile: string)
    ensures keyboardFile == KeyboardDevice(lines)
  {
    keyboardFile := [];
    var tmpValue: string := [];
    var i := 0;
    while i < |lines|
      invariant 0 <= i <= |lines|
      invariant tmpValue == LastHandler(lines[..i])
      invariant forall j :: 0 <= j < i ==> !Contains(lines[j], KEYBOARD_EVENTS)
    {
      var line := lines[i];
      assert lines[..i + 1][..i] == lines[..i];
      if Contains(line, SYSRQ_HANDLERS) {
        tmpValue := FileName(line);
      }
      if Contains(line, KEYBOARD_EVENTS) {
        tmpValue := PickEventWord(tmpValue);
        keyboardFile := EVENT_DIR + tmpValue;
        KeyboardLineIs(lines, i);
        return;
      }
      i := i + 1;
    }
    KeyboardLineIs(lines, |lines|);
  }

  /** The first word of a handler that holds "event", or the handler
      unchanged. */
  method PickEventWord(handler: string) returns (value: string)
    ensures value == EventWord(handler)
  {
    value := handler;
    var words := Split(handler, ' ');
    for k := 0 to |words|
      invariant FirstEventWord(words) == FirstEventWord(words[k..])
    {
      assert words[k..][1..] == words[k + 1..];
      if Contains(words[k], "event") {
        value := words[k];
        return;
      }
    }
  }

  lemma KeyboardLineIs(lines: seq<string>, i: nat)
    requires i <= |lines|
    requires forall j :: 0 <= j < i ==> !Contains(lines[j], KEYBOARD_EVENTS)
    requires i < |lines| ==> Contains(lines[i], KEYBOARD_EVENTS)
    ensures KeyboardLineFrom(lines, 0) == if i < |lines| then Some(i) else None
  {
  }

  /** The device is empty exactly when no line announces keyboard events,
      and otherwise is a path in the input directory. */
  lemma DeviceFoundIffAnnounced(lines: seq<string>)
    ensures KeyboardDevice(lines) == [] <==> forall j :: 0 <= j < |lines| ==> !Contains(lines[j], KEYBOARD_EVENTS)
    ensures KeyboardDevice(lines) != [] ==> StartsWith(KeyboardDevice(lines), EVENT_DIR)
  {
    match KeyboardLineFrom(lines, 0)
    case None =>
    case Some(k) =>
      var d := EVENT_DIR + EventWord(LastHandler(lines[..k + 1]));
      assert d[..|EVENT_DIR|] == EVENT_DIR;
  }

  /** When the handler names an event file, the device is that file. */
  lemma DeviceIsEventFile(lines: seq<string>, k: nat)
    requires k < |lines| && Contains(lines[k], KEYBOARD_EVENTS)
    requires forall j :: 0 <= j < k ==> !Contains(lines[j], KEYBOARD_EVENTS)
    requires FirstEventWord(Split(LastHandler(lines[..k + 1]), ' ')).Some?
    ensures var w := FirstEventWord(Split(LastHandler(lines[..k + 1]), ' ')).value;
            KeyboardDevice(lines) == EVENT_DIR + w && Contains(w, "event") && ' ' !in w
  {
    KeyboardLineIs(lines, k);
  }
}
