/** The prompt console of the AI manager: it reads lines from standard input,
    attaches files with `/upload <path>`, gathers the other lines into a
    multi-line prompt, sends prompt and attachments with `/ask`, and stops on
    `/quit` or `/exit`. Standard input is a sequence of lines, the file system
    a predicate `pathExists` on paths, and sending a prompt is a `Request` value;
    what happens to a request once sent is not part of this module. */
module AiManager {
  import opened Strings

  const UPLOAD_PREFIX: string := "/upload "

  /** What one input line asks for. */
  datatype Command = Upload(path: string) | Quit | Ask | TextLine(line: string)

  /** The two pieces of state the console keeps between lines. */
  datatype Console = Console(attached: seq<string>, prompt: string)

  /** The prompt text and the attached paths handed over by `/ask`. */
  datatype Request = Request(text: string, files: seq<string>)

  datatype Outcome = Continue | Exit | Send(request: Request)

  /** The command a line holds, once trimmed; `/upload ` is matched with its
      exact case and its space, the other commands ignoring ASCII case (the
      words are lower case, so comparing the lower-cased line with them is
      `eq_ignore_ascii_case`, as `CommandsIgnoreCase` shows). */
  function Interpret(input: string): Command {
    var t := Trim(input);
    var lower := ToAsciiLower(t);
    if StartsWith(t, UPLOAD_PREFIX) then Upload(Trim(t[|UPLOAD_PREFIX|..]))
    else if lower == "/quit" || lower == "/exit" then Quit
    else if lower == "/ask" then Ask
    else TextLine(t)
  }

  /** The prompt with one more line: a '\n' goes in front only when the
      prompt already holds something. */
  function AppendLine(prompt: string, line: string): string {
    (if prompt == [] then prompt else prompt + "\n") + line
  }

  /** The marker printed before each line is read. */
  function Marker(c: Console): string {
    if c.attached == [] && c.prompt == [] then "> " else ". "
  }

  /** What the console does with one command. */
  function Step(c: Console, cmd: Command, pathExists: string -> bool): (Console, Outcome) {
    match cmd
    case Upload(p) => (if pathExists(p) then c.(attached := c.attached + [p]) else c, Continue)
    case Quit => (c, Exit)
    case Ask =>
      if c.prompt == [] && c.attached == [] then (c, Continue)
      else (Console([], []), Send(Request(Trim(c.prompt), c.attached)))
    case TextLine(t) => (c.(prompt := AppendLine(c.prompt, t)), Continue)
  }

  /** Everything the console has done after some lines. */
  datatype Session = Session(console: Console, requests: seq<Request>, markers: seq<string>, quit: bool)

  /** The lines in order; after `/quit` nothing more is read. */
  function Run(inputs: seq<string>, pathExists: string -> bool): Session
    decreases |inputs|
  {
    if inputs == [] then Session(Console([], []), [], [], false)
    else
      var s := Run(inputs[..|inputs| - 1], pathExists);
      if s.quit then s
      else
        var next := Step(s.console, Interpret(inputs[|inputs| - 1]), pathExists);
        Session(next.0,
                s.requests + (if next.1.Send? then [next.1.request] else []),
                s.markers + [Marker(s.console)],
                next.1.Exit?)
  }

  /** The console loop, over the lines available. */
  method ReadEvalLoop(inputs: seq<string>, pathExists: string -> bool)
    returns (requests: seq<Request>, markers: seq<string>, quit: bool)
    ensures requests == Run(inputs, pathExists).requests
    ensures markers == Run(inputs, pathExists).markers
    ensures quit == Run(inputs, pathExists).quit
  {
    var attached: seq<string> := [];
    var prompt: string := [];
    requests, markers, quit := [], [], false;
    var i := 0;
    while i < |inputs| && !quit
      invariant 0 <= i <= |inputs|
      invariant Run(inputs[..i], pathExists) == Session(Console(attached, prompt), requests, markers, quit)
    {
      NextInput(inputs, i, pathExists);
      markers := markers + [if attached == [] && prompt == [] then "> " else ". "];
      var outcome;
      attached, prompt, outcome := HandleInput(attached, prompt, inputs[i], pathExists);
      if outcome.Send? {
        requests := requests + [outcome.request];
      }
      quit := outcome.Exit?;
      i := i + 1;
    }
    if i < |inputs| {
      QuitIsFinal(inputs, i, pathExists);
    } else {
      assert inputs[..i] == inputs;
    }
  }

  /** One line read by the loop: the attachments and the prompt after it, and
      what it asks the loop to do. */
  method HandleInput(attached: seq<string>, prompt: string, input: string, pathExists: string -> bool)
    returns (attached': seq<string>, prompt': string, outcome: Outcome)
    ensures (Console(attached', prompt'), outcome) == Step(Console(attached, prompt), Interpret(input), pathExists)
  {
    attached', prompt', outcome := attached, prompt, Continue;
    match Interpret(input) {
      case Upload(path) =>
        if pathExists(path) {
          attached' := attached' + [path];
        }
      case Quit =>
        outcome := Exit;
      case Ask =>
        if !(prompt == [] && attached == []) {
          outcome := Send(Request(Trim(prompt), attached));
          attached' := [];
          prompt' := [];
        }
      case TextLine(trimmed) =>
        if prompt' != [] {
          prompt' := prompt' + "\n";
        }
        prompt' := prompt' + trimmed;
    }
  }

  /** One more line: what the loop keeps. */
  lemma NextInput(inputs: seq<string>, i: nat, pathExists: string -> bool)
    requires i < |inputs| && !Run(inputs[..i], pathExists).quit
    ensures var s := Run(inputs[..i], pathExists);
            var next := Step(s.console, Interpret(inputs[i]), pathExists);
            Run(inputs[..i + 1], pathExists)
            == Session(next.0, s.requests + (if next.1.Send? then [next.1.request] else []),
                       s.markers + [Marker(s.console)], next.1.Exit?)
  {
    assert inputs[..i + 1][..i] == inputs[..i];
  }

  /* ---------------- one line ---------------- */

  /** After a request is sent the console is empty again, so the next
      marker is "> "; the marker is "> " exactly when nothing is pending. */
  lemma MarkerAfterSend(c: Console, cmd: Command, pathExists: string -> bool)
    ensures Step(c, cmd, pathExists).1.Send? ==> Marker(Step(c, cmd, pathExists).0) == "> "
    ensures Marker(c) == "> " <==> c.attached == [] && c.prompt == []
  {
  }

  /** An upload line always names a non-empty path: the trimmed line ends in
      a non-blank character after the prefix's space. */
  lemma UploadPathNonEmpty(input: string)
    requires StartsWith(Trim(input), UPLOAD_PREFIX)
    ensures Interpret(input) == Upload(Trim(Trim(input)[8..]))
    ensures Interpret(input).path != []
  {
    var e := TrimEnd(input);
    var t := Trim(input);
    assert t == e[|e| - |t|..];
    assert t[7] == ' ';
    assert |t| > 8;
    var rest := t[8..];
    assert rest[|rest| - 1] == t[|t| - 1] == e[|e| - 1];
    assert !AllWhitespace(rest);
    TrimEmptyIffWhitespace(rest);
  }

  /** The commands other than `/upload ` ignore ASCII case and surrounding
      blanks. */
  lemma CommandsIgnoreCase(input: string)
    ensures Interpret(input) == Quit
            <==> EqIgnoreAsciiCase(Trim(input), "/quit") || EqIgnoreAsciiCase(Trim(input), "/exit")
    ensures Interpret(input) == Ask <==> EqIgnoreAsciiCase(Trim(input), "/ask")
  {
    var t := Trim(input);
    LowerCaseWords("/quit", "/exit", "/ask");
    if ToAsciiLower(t) in {"/quit", "/exit", "/ask"} {
      assert |t| < 8;
    }
  }

  lemma LowerCaseWords(quit: string, exit: string, ask: string)
    requires quit == "/quit" && exit == "/exit" && ask == "/ask"
    ensures ToAsciiLower(quit) == quit && ToAsciiLower(exit) == exit && ToAsciiLower(ask) == ask
  {
    LowerCaseWord(quit);
    LowerCaseWord(exit);
    LowerCaseWord(ask);
  }

  /** A word with no upper-case letter is its own lower-case form. */
  lemma LowerCaseWord(w: string)
    requires forall i :: 0 <= i < |w| ==> !('A' <= w[i] <= 'Z')
    ensures ToAsciiLower(w) == w
  {
  }

  /** `/upload` without a path is no command: it becomes a line of the
      prompt. */
  lemma BareUploadIsPromptText(input: string)
    requires Trim(input) == "/upload"
    ensures Interpret(input) == TextLine("/upload")
  {
    var t := Trim(input);
    var lower := ToAsciiLower(t);
    assert |lower| == 7;
    assert lower != "/quit" && lower != "/exit" && lower != "/ask";
    assert !StartsWith(t, UPLOAD_PREFIX);
  }

  /* ---------------- the prompt ---------------- */

  /** The prompt built from prompt lines, one after the other. */
  function PromptOf(lines: seq<string>): string
    decreases |lines|
  {
    if lines == [] then [] else AppendLine(PromptOf(lines[..|lines| - 1]), lines[|lines| - 1])
  }

  /** The lines that come after the leading empty ones. */
  function DropLeadingEmpty(lines: seq<string>): (r: seq<string>)
    ensures r == [] || r[0] != []
  {
    if lines == [] || lines[0] != [] then lines else DropLeadingEmpty(lines[1..])
  }

  /** The prompt is its lines joined by '\n', except that empty lines before
      the first non-empty one leave no trace. */
  lemma {:induction false} PromptJoinsLines(lines: seq<string>)
    ensures PromptOf(lines) == Join(DropLeadingEmpty(lines), '\n')
    decreases |lines|
  {
    if lines != [] {
      var init := lines[..|lines| - 1];
      var last := lines[|lines| - 1];
      assert lines == init + [last];
      PromptJoinsLines(init);
      DropLeadingEmptySnoc(init, last);
      var d := DropLeadingEmpty(init);
      assert PromptOf(lines) == AppendLine(Join(d, '\n'), last);
      if d != [] {
        JoinSnoc(d, last, '\n');
        JoinHead(d, '\n');
        assert AppendLine(Join(d, '\n'), last) == Join(d, '\n') + ['\n'] + last;
      } else {
        assert d + [last] == [last];
        assert Join([last], '\n') == last;
      }
    }
  }

  lemma {:induction false} DropLeadingEmptySnoc(lines: seq<string>, last: string)
    ensures var d := DropLeadingEmpty(lines);
            DropLeadingEmpty(lines + [last]) == (if d == [] && last == [] then [] else d + [last])
    decreases |lines|
  {
    if lines == [] {
      assert lines + [last] == [last];
    } else {
      var all := lines + [last];
      assert all[0] == lines[0];
      if lines[0] == [] {
        assert all[1..] == lines[1..] + [last];
        DropLeadingEmptySnoc(lines[1..], last);
      }
    }
  }

  lemma {:induction false} JoinSnoc(parts: seq<string>, last: string, sep: char)
    requires parts != []
    ensures Join(parts + [last], sep) == Join(parts, sep) + [sep] + last
    decreases |parts|
  {
    if |parts| > 1 {
      assert (parts + [last])[1..] == parts[1..] + [last];
      JoinSnoc(parts[1..], last, sep);
    }
  }

  lemma JoinHead(parts: seq<string>, sep: char)
    requires parts != [] && parts[0] != []
    ensures Join(parts, sep) != [] && Join(parts, sep)[0] == parts[0][0]
  {
  }

  /* ---------------- over a whole session ---------------- */

  /** What holds of the console between lines: a non-empty prompt starts with
      a non-blank character, and every attached path is non-empty and was
      found to exist. */
  ghost predicate Wellformed(c: Console, pathExists: string -> bool) {
    (c.prompt == [] || !IsWhitespace(c.prompt[0]))
    && forall k :: 0 <= k < |c.attached| ==> c.attached[k] != [] && pathExists(c.attached[k])
  }

  /** A request that is never empty: some prompt text or some file. */
  ghost predicate Sensible(r: Request, pathExists: string -> bool) {
    (r.text != [] || r.files != [])
    && forall k :: 0 <= k < |r.files| ==> r.files[k] != [] && pathExists(r.files[k])
  }

  /** What `Interpret` can return: a non-empty upload path, or a prompt line
      that is empty or starts with a non-blank character. */
  ghost predicate Plausible(cmd: Command) {
    match cmd
    case Upload(p) => p != []
    case TextLine(t) => t == [] || !IsWhitespace(t[0])
    case _ => true
  }

  lemma InterpretPlausible(input: string)
    ensures Plausible(Interpret(input))
  {
    if StartsWith(Trim(input), UPLOAD_PREFIX) {
      UploadPathNonEmpty(input);
    } else {
      assert Trim(input) == [] || !IsWhitespace(Trim(input)[0]);
    }
  }

  lemma StepKeepsWellformed(c: Console, cmd: Command, pathExists: string -> bool)
    requires Wellformed(c, pathExists) && Plausible(cmd)
    ensures Wellformed(Step(c, cmd, pathExists).0, pathExists)
    ensures Step(c, cmd, pathExists).1.Send? ==> Sensible(Step(c, cmd, pathExists).1.request, pathExists)
  {
    match cmd
    case Upload(p) =>
      UploadKeepsWellformed(c, p, pathExists);
    case Quit =>
    case Ask =>
      if !(c.prompt == [] && c.attached == []) {
        AskIsSensible(c, pathExists);
      }
    case TextLine(t) =>
      TextLineKeepsWellformed(c, t, pathExists);
  }

  lemma UploadKeepsWellformed(c: Console, p: string, pathExists: string -> bool)
    requires Wellformed(c, pathExists) && p != []
    ensures Wellformed(if pathExists(p) then c.(attached := c.attached + [p]) else c, pathExists)
  {
    if pathExists(p) {
      var a := c.attached + [p];
      forall k | 0 <= k < |a| ensures a[k] != [] && pathExists(a[k]) {
        if k < |c.attached| { assert a[k] == c.attached[k]; }
      }
    }
  }

  lemma AskIsSensible(c: Console, pathExists: string -> bool)
    requires Wellformed(c, pathExists) && !(c.prompt == [] && c.attached == [])
    ensures Sensible(Request(Trim(c.prompt), c.attached), pathExists)
  {
    if c.prompt != [] {
      assert !AllWhitespace(c.prompt);
      TrimEmptyIffWhitespace(c.prompt);
    }
  }

  lemma TextLineKeepsWellformed(c: Console, t: string, pathExists: string -> bool)
    requires Wellformed(c, pathExists) && (t == [] || !IsWhitespace(t[0]))
    ensures Wellformed(c.(prompt := AppendLine(c.prompt, t)), pathExists)
  {
    if c.prompt != [] {
      assert AppendLine(c.prompt, t)[0] == c.prompt[0];
    }
  }

  /** Every request a session sends holds text or a file, and every file it
      names was found to exist when it was attached. */
  lemma {:induction false} RequestsAreSensible(inputs: seq<string>, pathExists: string -> bool)
    ensures Wellformed(Run(inputs, pathExists).console, pathExists)
    ensures forall k :: 0 <= k < |Run(inputs, pathExists).requests| ==>
              Sensible(Run(inputs, pathExists).requests[k], pathExists)
    decreases |inputs|
  {
    if inputs != [] {
      var s := Run(inputs[..|inputs| - 1], pathExists);
      RequestsAreSensible(inputs[..|inputs| - 1], pathExists);
      if !s.quit {
        var cmd := Interpret(inputs[|inputs| - 1]);
        InterpretPlausible(inputs[|inputs| - 1]);
        StepKeepsWellformed(s.console, cmd, pathExists);
        var next := Step(s.console, cmd, pathExists);
        var added := if next.1.Send? then [next.1.request] else [];
        assert Run(inputs, pathExists).requests == s.requests + added;
        SensibleAppend(s.requests, added, pathExists);
      }
    }
  }

  lemma SensibleAppend(a: seq<Request>, b: seq<Request>, pathExists: string -> bool)
    requires forall k :: 0 <= k < |a| ==> Sensible(a[k], pathExists)
    requires forall k :: 0 <= k < |b| ==> Sensible(b[k], pathExists)
    ensures forall k :: 0 <= k < |a + b| ==> Sensible((a + b)[k], pathExists)
  {
    forall k | 0 <= k < |a + b| ensures Sensible((a + b)[k], pathExists) {
      if k < |a| { assert (a + b)[k] == a[k]; } else { assert (a + b)[k] == b[k - |a|]; }
    }
  }

  /** Once `/quit` is read, the rest of the input is ignored. */
  lemma {:induction false} QuitIsFinal(inputs: seq<string>, i: nat, pathExists: string -> bool)
    requires i <= |inputs| && Run(inputs[..i], pathExists).quit
    ensures Run(inputs, pathExists) == Run(inputs[..i], pathExists)
    decreases |inputs| - i
  {
    if i < |inputs| {
      assert inputs[..i + 1][..i] == inputs[..i];
      QuitIsFinal(inputs, i + 1, pathExists);
    } else {
      assert inputs[..i] == inputs;
    }
  }

  /** At the end of input `read_line` yields an empty line, which is prompt
      text: it never quits and never sends, and it adds a '\n' to a
      non-empty prompt. */
  lemma EmptyReadIsPromptText(c: Console, pathExists: string -> bool)
    ensures Interpret("") == TextLine("")
    ensures Step(c, Interpret(""), pathExists)
            == (c.(prompt := if c.prompt == [] then [] else c.prompt + "\n"), Continue)
  {
    assert Trim("") == "";
    assert !StartsWith("", UPLOAD_PREFIX);
    assert ToAsciiLower("") == "";
    if c.prompt == [] {
      assert AppendLine(c.prompt, "") == [];
    } else {
      assert AppendLine(c.prompt, "") == c.prompt + "\n";
    }
  }

  /** `k` reads at the end of input. */
  function EmptyReads(k: nat): (r: seq<string>)
    ensures |r| == k && forall i :: 0 <= i < k ==> r[i] == ""
  {
    if k == 0 then [] else EmptyReads(k - 1) + [""]
  }

  /** So once input is exhausted the loop goes on forever: any number of
      empty reads after lines that did not quit leave it running, with the
      same requests and attachments. */
  lemma {:induction false} EndOfInputNeverQuits(inputs: seq<string>, k: nat, pathExists: string -> bool)
    requires !Run(inputs, pathExists).quit
    ensures var s := Run(inputs + EmptyReads(k), pathExists);
            !s.quit && s.requests == Run(inputs, pathExists).requests
            && s.console.attached == Run(inputs, pathExists).console.attached
  {
    if k > 0 {
      EndOfInputNeverQuits(inputs, k - 1, pathExists);
      var before := inputs + EmptyReads(k - 1);
      var more := inputs + EmptyReads(k);
      assert more == before + [""];
      assert more[..|more| - 1] == before && more[|more| - 1] == "";
      var s := Run(before, pathExists);
      EmptyReadIsPromptText(s.console, pathExists);
      assert Run(more, pathExists).requests == s.requests + [];
    } else {
      assert inputs + EmptyReads(k) == inputs;
    }
  }
}
