/** The terminal window: the lines on screen, the text being typed, and a
    cursor into the interpreter's history that the arrow keys move. The
    interpreter is created once per window over the desktop's file system,
    and the window keeps the desktop's current directory in step with it. */
module TerminalApp {
  import opened Text
  import opened Commands
  import opened Desktop
  import opened Shell

  datatype LineType = CommandLine | OutputLine | ErrorLine

  datatype TerminalLine = TerminalLine(kind: LineType, content: string)

  /** What a new terminal window shows. */
  const Banner: seq<TerminalLine> := [
    TerminalLine(OutputLine, "Welcome to WebOS Terminal"),
    TerminalLine(OutputLine, "Type \"help\" for available commands"),
    TerminalLine(OutputLine, "")
  ]

  /** The prompt line echoing `cmd` as typed in directory `path`. */
  function Echoed(path: string, cmd: string): TerminalLine {
    TerminalLine(CommandLine, path + " $ " + cmd)
  }

  /** The screen after `cmd`, typed in `path`, gave `result`: the output
      `CLEAR` wipes everything, the echo included; any other non-empty
      output follows the echo as one line, marked as an error when the
      result is one; an empty output adds nothing after the echo. */
  function Shown(lines: seq<TerminalLine>, path: string, cmd: string, result: CommandResult): (r: seq<TerminalLine>)
    ensures r == [] <==> result.output == "CLEAR"
    ensures result.output != "CLEAR" ==>
              |r| == |lines| + (if result.output == "" then 1 else 2) &&
              r[..|lines|] == lines && r[|lines|] == Echoed(path, cmd)
    ensures result.output != "CLEAR" && result.output != "" ==>
              r[|r| - 1].content == result.output &&
              (r[|r| - 1].kind == ErrorLine <==> result.error)
  {
    var echoed := lines + [Echoed(path, cmd)];
    if result.output == "CLEAR" then []
    else if result.output != "" then
      echoed + [TerminalLine(if result.error then ErrorLine else OutputLine, result.output)]
    else echoed
  }

  /** Because the screen is cleared on the output text alone, `echo CLEAR`
      clears the screen just as `clear` does. */
  lemma EchoClearClears(lines: seq<TerminalLine>, path: string, st: ShellState, line: string,
                        now: nat, date: string)
    requires Says(line, Echo, "CLEAR")
    ensures Shown(lines, path, line, Exec(st, line, now, date).result) == []
  {
    EchoRoundTrip(st, line, now, date);
    assert Words(Trim(line))[1..] == ["CLEAR"];
  }

  /** The history cursor: `-1` for "not browsing", else an entry's index. */
  predicate InRange(n: nat, index: int) {
    -1 <= index < n
  }

  /** ArrowUp over `n` entries: from "not browsing" to the newest entry,
      otherwise one older but not past the oldest; nothing to browse
      leaves the cursor alone. */
  function Up(n: nat, index: int): (r: int)
    ensures InRange(n, index) ==> InRange(n, r)
    ensures n > 0 && InRange(n, index) ==> r != -1
  {
    if n == 0 then index
    else if index == -1 then n - 1
    else if index - 1 > 0 then index - 1 else 0
  }

  /** ArrowDown: one newer, and past the newest back to "not browsing". */
  function Down(n: nat, index: int): (r: int)
    ensures InRange(n, index) ==> InRange(n, r)
  {
    if index == -1 then -1
    else if index + 1 >= n then -1
    else index + 1
  }

  /** ArrowDown undoes ArrowUp everywhere but at the oldest entry, and
      after the newest it returns to "not browsing". */
  lemma DownUndoesUp(n: nat, index: int)
    requires InRange(n, index) && n > 0
    ensures index != 0 ==> Down(n, Up(n, index)) == index
    ensures index == 0 ==> Up(n, index) == 0
  {
  }

  /** `k` presses of ArrowUp. */
  function Ups(n: nat, index: int, k: nat): (r: int)
    ensures InRange(n, index) ==> InRange(n, r)
  {
    if k == 0 then index else Up(n, Ups(n, index, k - 1))
  }

  /** Pressing ArrowUp `k` times from "not browsing" shows the `k`-th most
      recent entry, stopping at the oldest. */
  lemma {:induction false} UpsWalkBack(n: nat, k: nat)
    requires n > 0 && k > 0
    ensures Ups(n, -1, k) == if k <= n then n - k else 0
  {
    if k > 1 {
      UpsWalkBack(n, k - 1);
    }
  }

  /** One terminal window. */
  class TerminalView {
    const session: Session
    const shell: TerminalCommands
    var lines: seq<TerminalLine>
    var input: string
    var historyIndex: int

    predicate Valid()
      reads this, shell
    {
      InRange(|shell.history|, historyIndex)
    }

    /** A new window: the banner, an empty prompt, not browsing, and an
        interpreter in the desktop's current directory. */
    constructor(session: Session)
      ensures this.session == session && fresh(shell)
      ensures shell.fs == session.fs && shell.currentPath == session.currentPath && shell.history == []
      ensures lines == Banner && input == "" && historyIndex == -1
      ensures Valid()
    {
      this.session := session;
      shell := new TerminalCommands(session.fs, session.currentPath);
      lines := Banner;
      input := "";
      historyIndex := -1;
    }

    /** The effect that runs whenever the desktop's directory changes. */
    method PathChanged()
      requires Valid()
      modifies shell
      ensures shell.currentPath == session.currentPath && shell.history == old(shell.history)
      ensures Valid()
    {
      shell.SetPath(session.currentPath);
    }

    /** Typing into the prompt. */
    method SetInput(text: string)
      modifies this
      ensures input == text && lines == old(lines) && historyIndex == old(historyIndex)
    {
      input := text;
    }

    /** `executeCommand(cmd)`: echo, run, show the output, and hand a
        changed directory back to the desktop. */
    method ExecuteCommand(cmd: string, now: nat, date: string) returns (r: CommandResult)
      modifies this, shell, shell.fs, session
      ensures Step(r, shell.State()) == Exec(old(shell.State()), cmd, now, date)
      ensures lines == Shown(old(lines), old(session.currentPath), cmd, r)
      ensures session.State() == old(session.State()).(currentPath := shell.currentPath)
      ensures input == old(input) && historyIndex == old(historyIndex)
    {
      lines := lines + [Echoed(session.currentPath, cmd)];
      r := shell.Execute(cmd, now, date);
      if r.output == "CLEAR" {
        lines := [];
      } else if r.output != "" {
        lines := lines + [TerminalLine(if r.error then ErrorLine else OutputLine, r.output)];
      }
      var newPath := shell.GetPath();
      if newPath != session.currentPath {
        session.SetCurrentPath(newPath);
      }
    }

    /** `handleSubmit`: a blank prompt is ignored; otherwise the command
        runs and the prompt and cursor are reset. */
    method HandleSubmit(now: nat, date: string)
      modifies this, shell, shell.fs, session
      ensures Trim(old(input)) == "" ==>
                lines == old(lines) && input == old(input) && historyIndex == old(historyIndex) &&
                shell.State() == old(shell.State()) && session.State() == old(session.State())
      ensures Trim(old(input)) != "" ==>
                var s := Exec(old(shell.State()), old(input), now, date);
                shell.State() == s.state &&
                lines == Shown(old(lines), old(session.currentPath), old(input), s.result) &&
                session.State() == old(session.State()).(currentPath := shell.currentPath) &&
                input == "" && historyIndex == -1
      ensures Trim(old(input)) != "" ==> Valid()
    {
      if Trim(input) == "" {
        return;
      }
      var r := ExecuteCommand(input, now, date);
      input := "";
      historyIndex := -1;
    }

    /** ArrowUp: recall an older command into the prompt. */
    method ArrowUp()
      requires Valid()
      modifies this
      ensures historyIndex == Up(|shell.history|, old(historyIndex))
      ensures input == if shell.history == [] then old(input) else shell.history[historyIndex]
      ensures lines == old(lines)
      ensures Valid()
    {
      var history := shell.GetHistory();
      if |history| == 0 {
        return;
      }
      var newIndex := if historyIndex == -1 then |history| - 1
                      else if historyIndex - 1 > 0 then historyIndex - 1 else 0;
      historyIndex := newIndex;
      input := history[newIndex];
    }

    /** ArrowDown: recall a newer command, or clear the prompt after the
        newest. */
    method ArrowDown()
      requires Valid()
      modifies this
      ensures historyIndex == Down(|shell.history|, old(historyIndex))
      ensures input == if old(historyIndex) == -1 then old(input)
                       else if historyIndex == -1 then "" else shell.history[historyIndex]
      ensures lines == old(lines)
      ensures Valid()
    {
      var history := shell.GetHistory();
      if historyIndex == -1 {
        return;
      }
      var newIndex := historyIndex + 1;
      if newIndex >= |history| {
        historyIndex := -1;
        input := "";
      } else {
        historyIndex := newIndex;
        input := history[newIndex];
      }
    }
  }
}
