/** The five service-control batch scripts `generateBatchScripts` writes next to
    the executable: each echoes what it does, invokes the executable with WinSW
    verbs, and waits for a key. */
module Scripts {
  import opened Strings
  import opened Naming

  datatype Verb = Install | Uninstall | Start | Stop | Restart

  /** The scripts in the order they are written. */
  const Verbs := [Install, Uninstall, Start, Stop, Restart]

  /** Where a script comes in the writing order. */
  function Position(v: Verb): (k: nat)
    ensures k < |Verbs| && Verbs[k] == v
  {
    match v
    case Install => 0
    case Uninstall => 1
    case Start => 2
    case Stop => 3
    case Restart => 4
  }

  function ScriptName(v: Verb): string
  {
    match v
    case Install => "install.bat"
    case Uninstall => "uninstall.bat"
    case Start => "start.bat"
    case Stop => "stop.bat"
    case Restart => "restart.bat"
  }

  /** The WinSW commands a script runs, in order: uninstalling stops the service first. */
  function Commands(v: Verb): seq<string>
  {
    match v
    case Install => ["install"]
    case Uninstall => ["stop", "uninstall"]
    case Start => ["start"]
    case Stop => ["stop"]
    case Restart => ["restart"]
  }

  function Activity(v: Verb): string
  {
    match v
    case Install => "Installing"
    case Uninstall => "Uninstalling"
    case Start => "Starting"
    case Stop => "Stopping"
    case Restart => "Restarting"
  }

  function Outcome(v: Verb): string
  {
    match v
    case Install => "Installation completed."
    case Uninstall => "Uninstallation completed."
    case Start => "Service start command sent."
    case Stop => "Service stop command sent."
    case Restart => "Service restart command sent."
  }

  const EchoOff := "@echo off"
  /** Written as two literals because the verifier does not look inside a single
      literal this long, and the proofs below need to see its characters. */
  const Reminder := "echo Please make sure you run" + " this script as Administrator!"
  const Pause := "pause > nul"

  /** `.\<id>.exe <command>`: the executable is run from the script's own directory. */
  function Invocation(exeName: string, command: string): string
  {
    ".\\" + exeName + " " + command
  }

  function Invocations(exeName: string, commands: seq<string>): seq<string>
  {
    seq(|commands|, i requires 0 <= i < |commands| => Invocation(exeName, commands[i]))
  }

  /** What a script says before it runs anything. */
  function Preamble(v: Verb, id: string): seq<string>
  {
    [EchoOff,
     "echo " + Activity(v) + " Windows Service: " + id,
     Reminder,
     "echo."]
  }

  /** What a script says afterwards, waiting for a key. */
  function Epilogue(v: Verb): seq<string>
  {
    ["echo.", "echo " + Outcome(v) + " Press any key to exit.", Pause]
  }

  /** The lines of a script, as the plugin writes them. */
  function ScriptLines(v: Verb, id: string): seq<string>
  {
    Preamble(v, id) + Invocations(ExeName(id), Commands(v)) + Epilogue(v)
  }

  /** Lines separated by a newline, with none after the last. */
  function JoinLines(ls: seq<string>): string
  {
    if ls == [] then ""
    else if |ls| == 1 then ls[0]
    else ls[0] + "\n" + JoinLines(ls[1..])
  }

  /** The text of a script. */
  function Script(v: Verb, id: string): string
  {
    JoinLines(ScriptLines(v, id))
  }

  /** The lines of a text, `current` being the line read so far: the inverse of `JoinLines`. */
  function SplitLines(s: string, current: string): seq<string>
    decreases |s|
  {
    if s == [] then [current]
    else if s[0] == '\n' then [current] + SplitLines(s[1..], "")
    else SplitLines(s[1..], current + [s[0]])
  }

  predicate OneLine(s: string)
  {
    '\n' !in s
  }

  lemma {:induction false} SplitLinesOfLine(w: string, rest: string, current: string)
    requires OneLine(w)
    ensures SplitLines(w + rest, current) == SplitLines(rest, current + w)
    decreases |w|
  {
    if w == [] {
      assert w + rest == rest && current + w == current;
    } else {
      assert (w + rest)[0] == w[0] && (w + rest)[1..] == w[1..] + rest;
      assert w[0] != '\n' by { assert w[0] in w; }
      assert OneLine(w[1..]) by {
        forall c | c in w[1..] ensures c != '\n' { assert c in w; }
      }
      SplitLinesOfLine(w[1..], rest, current + [w[0]]);
      assert current + [w[0]] + w[1..] == current + w;
    }
  }

  /** Splitting the text of non-empty lines that hold no newline gives the lines back. */
  lemma {:induction false} SplitJoin(ls: seq<string>)
    requires ls != [] && AllOneLine(ls)
    ensures SplitLines(JoinLines(ls), "") == ls
    decreases |ls|
  {
    if |ls| == 1 {
      SplitLinesOfLine(ls[0], "", "");
      assert ls[0] + "" == ls[0] && "" + ls[0] == ls[0];
    } else {
      var rest := JoinLines(ls[1..]);
      assert JoinLines(ls) == ls[0] + ("\n" + rest);
      SplitLinesOfLine(ls[0], "\n" + rest, "");
      assert "" + ls[0] == ls[0];
      assert ("\n" + rest)[0] == '\n' && ("\n" + rest)[1..] == rest;
      SplitJoin(ls[1..]);
      assert ls == [ls[0]] + ls[1..];
    }
  }

  lemma OneLineConcat(a: string, b: string)
    ensures OneLine(a + b) <==> OneLine(a) && OneLine(b)
  {
    if OneLine(a) && OneLine(b) {
      forall c | c in a + b ensures c != '\n' {
        assert c in a || c in b;
      }
    }
    if OneLine(a + b) {
      forall c | c in a ensures c != '\n' { assert c in a + b; }
      forall c | c in b ensures c != '\n' { assert c in a + b; }
    }
  }

  predicate AllOneLine(ls: seq<string>)
  {
    forall k | 0 <= k < |ls| :: OneLine(ls[k])
  }

  lemma AllOneLineConcat(a: seq<string>, b: seq<string>)
    requires AllOneLine(a) && AllOneLine(b)
    ensures AllOneLine(a + b)
  {
    forall k | 0 <= k < |a + b| ensures OneLine((a + b)[k]) {
      if k >= |a| { assert (a + b)[k] == b[k - |a|]; }
    }
  }

  lemma PreambleLines(v: Verb, id: string)
    requires OneLine(id)
    ensures AllOneLine(Preamble(v, id))
  {
    var ls := Preamble(v, id);
    assert OneLine(Activity(v));
    OneLineConcat("echo ", Activity(v));
    OneLineConcat("echo " + Activity(v), " Windows Service: ");
    OneLineConcat("echo " + Activity(v) + " Windows Service: ", id);
    assert OneLine(ls[0]) && OneLine(ls[1]) && OneLine(ls[3]);
    OneLineConcat("echo Please make sure you run", " this script as Administrator!");
  }

  lemma InvocationLines(id: string, commands: seq<string>)
    requires OneLine(id) && AllOneLine(commands)
    ensures AllOneLine(Invocations(ExeName(id), commands))
  {
    OneLineConcat(id, ExeSuffix);
    OneLineConcat(".\\", ExeName(id));
    OneLineConcat(".\\" + ExeName(id), " ");
    forall k | 0 <= k < |commands| ensures OneLine(Invocations(ExeName(id), commands)[k]) {
      OneLineConcat(".\\" + ExeName(id) + " ", commands[k]);
    }
  }

  lemma EpilogueLines(v: Verb)
    ensures AllOneLine(Epilogue(v))
  {
    OneLineConcat("echo ", Outcome(v));
    OneLineConcat("echo " + Outcome(v), " Press any key to exit.");
  }

  /** A script's lines hold no newline when the id holds none. */
  lemma ScriptLinesAreLines(v: Verb, id: string)
    requires OneLine(id)
    ensures AllOneLine(ScriptLines(v, id))
  {
    PreambleLines(v, id);
    assert AllOneLine(Commands(v));
    InvocationLines(id, Commands(v));
    EpilogueLines(v);
    AllOneLineConcat(Preamble(v, id), Invocations(ExeName(id), Commands(v)));
    AllOneLineConcat(Preamble(v, id) + Invocations(ExeName(id), Commands(v)), Epilogue(v));
  }

  /** The script text determines its lines: splitting it at newlines recovers them. */
  lemma ScriptRoundTrip(v: Verb, id: string)
    requires OneLine(id)
    ensures SplitLines(Script(v, id), "") == ScriptLines(v, id)
  {
    ScriptLinesAreLines(v, id);
    SplitJoin(ScriptLines(v, id));
  }

  /** Read back from the text, a script's second line announces what it does to
      the service named by the id, and the line after the reminder is blank. */
  lemma ScriptAnnouncesService(v: Verb, id: string)
    requires OneLine(id)
    ensures var ls := SplitLines(Script(v, id), "");
      |ls| >= 4 && ls[1] == "echo " + Activity(v) + " Windows Service: " + id
      && HasSuffix(ls[1], id) && ls[2] == Reminder && ls[3] == "echo."
  {
    ScriptRoundTrip(v, id);
    SuffixOfConcat("echo " + Activity(v) + " Windows Service: ", id);
  }

  /** Text joined from two or more lines starts with the first line and a newline,
      and ends with a newline and the last line. */
  lemma {:induction false} JoinLinesEnds(ls: seq<string>)
    requires |ls| >= 2
    ensures HasPrefix(JoinLines(ls), ls[0] + "\n")
    ensures HasSuffix(JoinLines(ls), "\n" + ls[|ls| - 1])
    decreases |ls|
  {
    var rest := JoinLines(ls[1..]);
    assert JoinLines(ls) == (ls[0] + "\n") + rest;
    if |ls| == 2 {
      assert rest == ls[1];
      assert JoinLines(ls) == ls[0] + ("\n" + ls[1]);
    } else {
      JoinLinesEnds(ls[1..]);
      var t := "\n" + ls[|ls| - 1];
      assert rest[|rest| - |t|..] == t;
      assert JoinLines(ls)[|JoinLines(ls)| - |t|..] == rest[|rest| - |t|..];
    }
  }

  /** Every script turns echo off first and ends waiting for a key, with no newline after it. */
  lemma ScriptFrame(v: Verb, id: string)
    ensures HasPrefix(Script(v, id), EchoOff + "\n")
    ensures HasSuffix(Script(v, id), "\n" + Pause)
  {
    var ls := ScriptLines(v, id);
    assert ls[0] == EchoOff && ls[|ls| - 1] == Pause;
    JoinLinesEnds(ls);
  }

  /** The commands a script passes to `exeName`: the rest of each line that invokes it. */
  function InvokedCommands(ls: seq<string>, exeName: string): seq<string>
  {
    var call := ".\\" + exeName + " ";
    if ls == [] then []
    else (if HasPrefix(ls[0], call) then [ls[0][|call|..]] else []) + InvokedCommands(ls[1..], exeName)
  }

  lemma {:induction false} InvokedCommandsAppend(a: seq<string>, b: seq<string>, exeName: string)
    ensures InvokedCommands(a + b, exeName) == InvokedCommands(a, exeName) + InvokedCommands(b, exeName)
    decreases |a|
  {
    if a == [] {
      assert a + b == b;
    } else {
      assert (a + b)[0] == a[0] && (a + b)[1..] == a[1..] + b;
      InvokedCommandsAppend(a[1..], b, exeName);
    }
  }

  lemma {:induction false} InvokedInvocations(exeName: string, commands: seq<string>)
    ensures InvokedCommands(Invocations(exeName, commands), exeName) == commands
    decreases |commands|
  {
    var ls := Invocations(exeName, commands);
    if commands != [] {
      var call := ".\\" + exeName + " ";
      assert ls[0] == call + commands[0];
      assert ls[0][..|call|] == call && ls[0][|call|..] == commands[0];
      assert ls[1..] == Invocations(exeName, commands[1..]);
      InvokedInvocations(exeName, commands[1..]);
    }
  }

  /** Lines that start with none of the invocation's first character invoke nothing. */
  lemma {:induction false} NothingInvoked(ls: seq<string>, exeName: string)
    requires forall k | 0 <= k < |ls| :: ls[k] != [] && ls[k][0] != '.'
    ensures InvokedCommands(ls, exeName) == []
    decreases |ls|
  {
    if ls != [] {
      NothingInvoked(ls[1..], exeName);
    }
  }

  /** Each script runs its own service's executable, and exactly with its WinSW
      commands in order: the messages it echoes invoke nothing. */
  lemma ScriptCommands(v: Verb, id: string)
    ensures InvokedCommands(ScriptLines(v, id), ExeName(id)) == Commands(v)
  {
    var pre, inv, post := Preamble(v, id), Invocations(ExeName(id), Commands(v)), Epilogue(v);
    assert pre[1][0] == 'e' && pre[2][0] == 'e';
    NothingInvoked(pre, ExeName(id));
    NothingInvoked(post, ExeName(id));
    InvokedInvocations(ExeName(id), Commands(v));
    InvokedCommandsAppend(pre, inv, ExeName(id));
    InvokedCommandsAppend(pre + inv, post, ExeName(id));
  }
}
