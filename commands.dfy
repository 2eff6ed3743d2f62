/** What each shell command computes, as functions of the tree, the current
    directory and the command history. The `TerminalCommands` class runs
    them against its file system. */
module Commands {
  import opened Text
  import opened Paths
  import opened Tree
  import opened FileOps

  /** `{output, error}`; an absent `error` is `false`. */
  datatype CommandResult = CommandResult(output: string, error: bool)

  /** What a command can read and change. */
  datatype ShellState = ShellState(root: Node, cwd: string, history: seq<string>)

  /** A command's result together with the state it leaves. */
  datatype Step = Step(result: CommandResult, state: ShellState)

  /** What one dispatched command prints, and the tree and current directory
      it leaves. */
  datatype Effect = Effect(result: CommandResult, root: Node, cwd: string)

  const UserName: string := "user"
  const Home: string := "/home/user"
  const HostName: string := "webos"

  function Ok(output: string): CommandResult { CommandResult(output, false) }
  function Fail(output: string): CommandResult { CommandResult(output, true) }

  // ---------------------------------------------------------------------
  // Arguments
  // ---------------------------------------------------------------------

  /** The private `resolvePath(arg)` of the interpreter: the six cases are
      tried in this order. */
  function ResolveArg(cwd: string, arg: string): (r: string)
    ensures arg != "." ==> r != "" && r[0] == '/'
  {
    if |arg| > 0 && arg[0] == '/' then arg
    else if arg == "~" then Home
    else if |arg| >= 2 && arg[..2] == "~/" then Home + arg[1..]
    else if arg == ".." then GetParentPath(cwd)
    else if arg == "." then cwd
    else JoinPath([cwd, arg])
  }

  /** An argument that names an entry of the current directory: any
      segment but `~`, `.` and `..` (a segment cannot start with `~/`). */
  predicate IsRelativeName(arg: string) {
    IsSegment(arg) && arg != "~" && arg != "." && arg != ".."
  }

  /** In segments, every argument names what its shape says: an absolute
      path itself, `~` and `~/…` below the home directory, `..` the parent,
      `.` the current directory, and anything else a path below it. */
  lemma ResolveArgParts(cwd: string, arg: string)
    ensures GetPathParts(ResolveArg(cwd, arg)) ==
            if |arg| > 0 && arg[0] == '/' then GetPathParts(arg)
            else if arg == "~" then ["home", "user"]
            else if |arg| >= 2 && arg[..2] == "~/" then ["home", "user"] + GetPathParts(arg[2..])
            else if arg == ".." then DropLast(GetPathParts(cwd))
            else if arg == "." then GetPathParts(cwd)
            else GetPathParts(cwd) + GetPathParts(arg)
  {
    if |arg| > 0 && arg[0] == '/' {
    } else if arg == "~" {
      HomeParts();
    } else if |arg| >= 2 && arg[..2] == "~/" {
      assert ResolveArg(cwd, arg) == Home + arg[1..];
      assert arg[1..] == "/" + arg[2..];
      assert Home + arg[1..] == "/home/user" + "/" + arg[2..];
      PartsOfConcat("/home/user", arg[2..]);
      HomeParts();
    } else if arg == ".." {
      assert ResolveArg(cwd, arg) == GetParentPath(cwd);
      PartsOfParent(cwd);
    } else if arg == "." {
    } else {
      assert ResolveArg(cwd, arg) == JoinPath([cwd, arg]);
      PartsOfJoinPath(cwd, arg);
    }
  }

  lemma HomeParts()
    ensures GetPathParts(Home) == ["home", "user"]
  {
    assert IsSegment("home") && IsSegment("user");
    assert Join(["home", "user"], "/") == "home/user";
    PartsOfRebuilt(["home", "user"]);
  }

  /** A plain name is joined onto the current directory string, which for
      `/home/user` gives a path with two leading slashes. */
  lemma ResolveArgRelative(cwd: string, arg: string)
    requires IsRelativeName(arg)
    ensures ResolveArg(cwd, arg) == JoinPath([cwd, arg])
    ensures GetPathParts(ResolveArg(cwd, arg)) == GetPathParts(cwd) + [arg]
    ensures cwd == Home && arg == "test" ==> ResolveArg(cwd, arg) == "//home/user/test"
  {
    assert arg[0] != '/' && (|arg| >= 2 ==> arg[1] != '/');
    ResolveArgParts(cwd, arg);
    PartsOfSegment(arg);
    JoinPathDoubleSlash();
  }

  // ---------------------------------------------------------------------
  // ls
  // ---------------------------------------------------------------------

  /** The code-point order on names: a total order standing in for
      `localeCompare`. */
  predicate NameLeq(a: string, b: string)
    decreases |a|
  {
    a == [] || (b != [] && (a[0] < b[0] || (a[0] == b[0] && NameLeq(a[1..], b[1..]))))
  }

  lemma {:induction false} NameLeqTotal(a: string, b: string)
    ensures NameLeq(a, b) || NameLeq(b, a)
    decreases |a|
  {
    if a != [] && b != [] && a[0] == b[0] {
      NameLeqTotal(a[1..], b[1..]);
    }
  }

  /** The comparator of `ls`: directories before files, then by name. */
  predicate ItemLeq(a: Node, b: Node) {
    if a.kind == Directory && b.kind != Directory then true
    else if a.kind != Directory && b.kind == Directory then false
    else NameLeq(a.name, b.name)
  }

  lemma ItemLeqTotal(a: Node, b: Node)
    ensures ItemLeq(a, b) || ItemLeq(b, a)
  {
    NameLeqTotal(a.name, b.name);
  }

  predicate Sorted(s: seq<Node>) {
    forall i :: 0 < i < |s| ==> ItemLeq(s[i - 1], s[i])
  }

  /** Places `x` before the first element it does not exceed; equal items
      keep their relative order. */
  function Insert(x: Node, s: seq<Node>): (r: seq<Node>)
    ensures |r| == |s| + 1
  {
    if s == [] then [x]
    else if ItemLeq(x, s[0]) then [x] + s
    else [s[0]] + Insert(x, s[1..])
  }

  /** The stable sort `items.sort(comparator)` performs. */
  function SortItems(xs: seq<Node>): (r: seq<Node>)
    ensures |r| == |xs|
  {
    if xs == [] then [] else Insert(xs[0], SortItems(xs[1..]))
  }

  /** An item no greater than the head of a sorted list extends it. */
  lemma SortedCons(a: Node, t: seq<Node>)
    requires Sorted(t) && (t == [] || ItemLeq(a, t[0]))
    ensures Sorted([a] + t)
  {
    forall i | 1 < i < |[a] + t|
      ensures ItemLeq(([a] + t)[i - 1], ([a] + t)[i])
    {
      assert ([a] + t)[i - 1] == t[i - 2] && ([a] + t)[i] == t[i - 1];
    }
  }

  lemma {:induction false} InsertSpec(x: Node, s: seq<Node>)
    requires Sorted(s)
    ensures Sorted(Insert(x, s))
    ensures multiset(Insert(x, s)) == multiset(s) + multiset{x}
    ensures Insert(x, s)[0] == x || (s != [] && Insert(x, s)[0] == s[0])
  {
    if s == [] {
    } else if ItemLeq(x, s[0]) {
      SortedCons(x, s);
    } else {
      ItemLeqTotal(x, s[0]);
      var t := Insert(x, s[1..]);
      assert Sorted(s[1..]) by {
        forall i | 0 < i < |s[1..]|
          ensures ItemLeq(s[1..][i - 1], s[1..][i])
        {
          assert s[1..][i - 1] == s[i] && s[1..][i] == s[i + 1];
        }
      }
      InsertSpec(x, s[1..]);
      assert s[1..] != [] ==> ItemLeq(s[0], s[1]);
      SortedCons(s[0], t);
      assert s == [s[0]] + s[1..];
    }
  }

  /** `ls` lists every item exactly once, in comparator order. */
  lemma {:induction false} SortItemsSpec(xs: seq<Node>)
    ensures Sorted(SortItems(xs))
    ensures multiset(SortItems(xs)) == multiset(xs)
  {
    if xs != [] {
      SortItemsSpec(xs[1..]);
      InsertSpec(xs[0], SortItems(xs[1..]));
      assert xs == [xs[0]] + xs[1..];
    }
  }

  /** In a sorted listing no file comes before a directory. */
  lemma {:induction false} DirectoriesFirst(s: seq<Node>, i: int, j: int)
    requires Sorted(s) && 0 <= i < j < |s| && s[j].kind == Directory
    ensures s[i].kind == Directory
    decreases j - i
  {
    if i + 1 < j {
      DirectoriesFirst(s, i + 1, j);
    }
    assert ItemLeq(s[i], s[i + 1]);
  }

  /** How `ls` shows one item. */
  function Render(n: Node): string {
    if n.kind == Directory then n.name + "/" else n.name
  }

  /** The rendering of each item, in order. */
  function Rendered(s: seq<Node>): seq<string> {
    if s == [] then [] else [Render(s[0])] + Rendered(s[1..])
  }

  /** One rendering per item, in the items' order. */
  lemma {:induction false} RenderedAt(s: seq<Node>)
    ensures |Rendered(s)| == |s|
    ensures forall i :: 0 <= i < |s| ==> Rendered(s)[i] == Render(s[i])
  {
    if s != [] {
      RenderedAt(s[1..]);
    }
  }

  /** `ls [path]`. */
  function LsOutput(root: Node, cwd: string, args: seq<string>): CommandResult {
    var path := if |args| > 0 then ResolveArg(cwd, args[0]) else cwd;
    match ListDirectoryAt(root, GetPathParts(path))
    case None =>
      Fail("ls: cannot access '" + (if |args| > 0 then args[0] else ".") + "': No such file or directory")
    case Some(items) =>
      if items == [] then Ok("") else Ok(Join(Rendered(SortItems(items)), "  "))
  }

  /** `ls` fails exactly on a path that is not a directory, prints nothing
      for an empty one, and otherwise joins with two spaces one rendering per
      child, taken from a sorted rearrangement of the children. */
  lemma LsSpec(root: Node, cwd: string, args: seq<string>)
    ensures var path := if |args| > 0 then ResolveArg(cwd, args[0]) else cwd;
            var r := LsOutput(root, cwd, args);
      && (r.error <==> !IsDirAt(root, GetPathParts(path)))
      && (!r.error ==> var items := Values(Resolve(root, GetPathParts(path)).value.children);
            && (items == [] ==> r.output == "")
            && (items != [] ==> exists sorted ::
                  && Sorted(sorted) && multiset(sorted) == multiset(items)
                  && r.output == Join(Rendered(sorted), "  ")))
  {
    var path := if |args| > 0 then ResolveArg(cwd, args[0]) else cwd;
    if IsDirAt(root, GetPathParts(path)) {
      var items := Values(Resolve(root, GetPathParts(path)).value.children);
      SortItemsSpec(items);
    }
  }

  // ---------------------------------------------------------------------
  // cd, cat, mkdir, touch, rm, history, help
  // ---------------------------------------------------------------------

  /** `cd [path]`: the result and the new current directory. */
  function CdStep(root: Node, cwd: string, args: seq<string>): (CommandResult, string) {
    if |args| == 0 then (Ok(""), Home)
    else
      var target := ResolveArg(cwd, args[0]);
      match Resolve(root, GetPathParts(target))
      case None => (Fail("cd: " + args[0] + ": No such file or directory"), cwd)
      case Some(n) =>
        if n.kind != Directory then (Fail("cd: " + args[0] + ": Not a directory"), cwd)
        else (Ok(""), target)
  }

  /** `cd` without argument goes home; `cd arg` fails, keeping the current
      directory, exactly when `arg` does not name a directory, and otherwise
      moves to the argument's resolved path string. */
  lemma CdSpec(root: Node, cwd: string, args: seq<string>)
    ensures var (r, cwd') := CdStep(root, cwd, args);
      && (args == [] ==> r == Ok("") && cwd' == Home)
      && (args != [] ==> && (r.error <==> !IsDirAt(root, GetPathParts(ResolveArg(cwd, args[0]))))
                         && (r.error ==> cwd' == cwd)
                         && (!r.error ==> cwd' == ResolveArg(cwd, args[0]) && r.output == ""))
      && (!r.error ==> IsDirAt(root, GetPathParts(cwd')) || cwd' == Home)
  {
  }

  /** `cat <file>`. */
  function CatOutput(root: Node, cwd: string, args: seq<string>): CommandResult {
    if |args| == 0 then Fail("cat: missing file operand")
    else match ReadFileAt(root, GetPathParts(ResolveArg(cwd, args[0])))
      case None => Fail("cat: " + args[0] + ": No such file or directory")
      case Some(content) => Ok(content)
  }

  /** `mkdir <name>`: always in the current directory, extra arguments
      ignored. */
  function MkdirStep(root: Node, cwd: string, args: seq<string>, now: nat): (CommandResult, Node) {
    if |args| == 0 then (Fail("mkdir: missing operand"), root)
    else
      var o := CreateDirectoryAt(root, GetPathParts(cwd), args[0], now);
      if !o.ok then (Fail("mkdir: cannot create directory '" + args[0] + "': File exists"), o.root)
      else (Ok(""), o.root)
  }

  /** `touch <name>`: an empty file in the current directory. */
  function TouchStep(root: Node, cwd: string, args: seq<string>, now: nat): (CommandResult, Node) {
    if |args| == 0 then (Fail("touch: missing file operand"), root)
    else
      var o := CreateFileAt(root, GetPathParts(cwd), args[0], "", now);
      if !o.ok then (Fail("touch: cannot create file '" + args[0] + "': File exists"), o.root)
      else (Ok(""), o.root)
  }

  /** `rm <name>`: removes an entry of the current directory, subtree and
      all. */
  function RmStep(root: Node, cwd: string, args: seq<string>, now: nat): (CommandResult, Node) {
    if |args| == 0 then (Fail("rm: missing operand"), root)
    else
      var o := DeleteAt(root, GetPathParts(cwd), args[0], now);
      if !o.ok then (Fail("rm: cannot remove '" + args[0] + "': No such file or directory"), o.root)
      else (Ok(""), o.root)
  }

  /** The numbered lines `history` prints. */
  function HistoryLines(history: seq<string>): (r: seq<string>)
    ensures |r| == |history|
  {
    seq(|history|, i requires 0 <= i < |history| => NatToString(i + 1) + "  " + history[i])
  }

  /** The output of `help`: nineteen lines joined by newlines. */
  const HelpText: string :=
    "Available commands:\n"
    + "\n"
    + "File System:\n"
    + "  ls [path]       - list directory contents\n"
    + "  cd [path]       - change directory\n"
    + "  pwd             - print working directory\n"
    + "  cat <file>      - display file contents\n"
    + "  mkdir <name>    - create directory\n"
    + "  touch <name>    - create empty file\n"
    + "  rm <name>       - remove file or directory\n"
    + "\n"
    + "Utilities:\n"
    + "  echo <text>     - display text\n"
    + "  clear           - clear terminal\n"
    + "  date            - show current date/time\n"
    + "  whoami          - print current user\n"
    + "  hostname        - print hostname\n"
    + "  history         - show command history\n"
    + "  help            - show this help"

  /** The commands `execute` knows, and `Unknown` for any other word. */
  datatype Command =
    | Ls | Cd | Pwd | Cat | Echo | Mkdir | Touch | Rm
    | Clear | Help | Whoami | Hostname | Date | History
    | Unknown

  /** The `case` label a command word matches. */
  function Classify(word: string): Command {
    if word == "ls" then Ls
    else if word == "cd" then Cd
    else if word == "pwd" then Pwd
    else if word == "cat" then Cat
    else if word == "echo" then Echo
    else if word == "mkdir" then Mkdir
    else if word == "touch" then Touch
    else if word == "rm" then Rm
    else if word == "clear" then Clear
    else if word == "help" then Help
    else if word == "whoami" then Whoami
    else if word == "hostname" then Hostname
    else if word == "date" then Date
    else if word == "history" then History
    else Unknown
  }

  /** The `switch` of `execute`, on a state whose history already holds the
      line: what the command prints, and the tree and current directory it
      leaves. `date` is the clock's rendering of the current time. */
  function Dispatch(st: ShellState, word: string, args: seq<string>, now: nat, date: string): Effect {
    match Classify(word)
    case Ls => Effect(LsOutput(st.root, st.cwd, args), st.root, st.cwd)
    case Cd =>
      var (r, cwd) := CdStep(st.root, st.cwd, args);
      Effect(r, st.root, cwd)
    case Pwd => Effect(Ok(st.cwd), st.root, st.cwd)
    case Cat => Effect(CatOutput(st.root, st.cwd, args), st.root, st.cwd)
    case Echo => Effect(Ok(Join(args, " ")), st.root, st.cwd)
    case Mkdir =>
      var (r, root) := MkdirStep(st.root, st.cwd, args, now);
      Effect(r, root, st.cwd)
    case Touch =>
      var (r, root) := TouchStep(st.root, st.cwd, args, now);
      Effect(r, root, st.cwd)
    case Rm =>
      var (r, root) := RmStep(st.root, st.cwd, args, now);
      Effect(r, root, st.cwd)
    case Clear => Effect(Ok("CLEAR"), st.root, st.cwd)
    case Help => Effect(Ok(HelpText), st.root, st.cwd)
    case Whoami => Effect(Ok(UserName), st.root, st.cwd)
    case Hostname => Effect(Ok(HostName), st.root, st.cwd)
    case Date => Effect(Ok(date), st.root, st.cwd)
    case History => Effect(Ok(Join(HistoryLines(st.history), "\n")), st.root, st.cwd)
    case Unknown => Effect(Fail("Command not found: " + word + ". Type 'help' for available commands."), st.root, st.cwd)
  }

  /** `execute(input)`: a blank line does nothing; any other line is
      trimmed, recorded in the history and split at white-space runs into
      the command and its arguments. */
  function Exec(st: ShellState, input: string, now: nat, date: string): Step {
    var trimmed := Trim(input);
    if trimmed == "" then Step(Ok(""), st)
    else
      assert trimmed[0] !in WhiteSpace;
      WordsOfNonBlank(trimmed);
      var parts := Words(trimmed);
      var recorded := st.(history := st.history + [trimmed]);
      var e := Dispatch(recorded, parts[0], parts[1..], now, date);
      Step(e.result, ShellState(e.root, e.cwd, recorded.history))
  }

  // ---------------------------------------------------------------------
  // Properties of whole command lines
  // ---------------------------------------------------------------------

  /** A blank line changes nothing and prints nothing; any other line is
      appended, trimmed, to the history exactly once, whatever the command
      and its outcome. */
  lemma ExecHistory(st: ShellState, input: string, now: nat, date: string)
    ensures var s := Exec(st, input, now, date);
      && (Trim(input) == "" ==> s == Step(Ok(""), st))
      && (Trim(input) != "" ==> s.state.history == st.history + [Trim(input)])
  {
  }

  /** The first word of `line` selects the command `c`. */
  predicate Names(line: string, c: Command) {
    var words := Words(Trim(line));
    Trim(line) != "" && words != [] && Classify(words[0]) == c
  }

  /** `line` is the command `c` with the single argument `arg`, however the
      words are spaced. */
  predicate Says(line: string, c: Command, arg: string) {
    var words := Words(Trim(line));
    Names(line, c) && |words| == 2 && words[1] == arg
  }

  /** The line a user types for a command with one argument. */
  function Line(command: string, arg: string): string {
    command + " " + arg
  }

  /** A command word and an argument separated by a space say just that. */
  lemma LineSays(command: string, arg: string)
    requires command != "" && Free(command, WhiteSpace)
    requires arg != "" && Free(arg, WhiteSpace)
    ensures Says(Line(command, arg), Classify(command), arg)
  {
    var line := Line(command, arg);
    assert line[0] == command[0] && line[|line| - 1] == arg[|arg| - 1];
    TrimNoop(line);
    WordsOfTwo(command, arg);
  }

  /** A line that is not blank is recorded trimmed, and its first word
      picks the command that runs on the rest. */
  lemma ExecNonBlank(st: ShellState, input: string, now: nat, date: string)
    requires Trim(input) != ""
    ensures |Words(Trim(input))| >= 1
    ensures var words := Words(Trim(input));
            var recorded := st.history + [Trim(input)];
            var e := Dispatch(st.(history := recorded), words[0], words[1..], now, date);
            Exec(st, input, now, date) == Step(e.result, ShellState(e.root, e.cwd, recorded))
  {
    var t := Trim(input);
    assert t[0] !in WhiteSpace;
    WordsOfNonBlank(t);
  }

  /** Within the `switch`: only `mkdir`, `touch` and `rm` change the tree,
      each to what its step computes, and only `cd` the current directory. */
  lemma DispatchFrame(st: ShellState, word: string, args: seq<string>, now: nat, date: string)
    ensures var e := Dispatch(st, word, args, now, date);
      && (e.root != st.root ==> Classify(word) in {Mkdir, Touch, Rm})
      && (e.cwd != st.cwd ==> Classify(word) == Cd)
      && (Classify(word) == Mkdir ==> e.root == MkdirStep(st.root, st.cwd, args, now).1)
      && (Classify(word) == Touch ==> e.root == TouchStep(st.root, st.cwd, args, now).1)
      && (Classify(word) == Rm ==> e.root == RmStep(st.root, st.cwd, args, now).1)
  {
    match Classify(word)
    case Ls =>
    case Cd =>
    case Pwd =>
    case Cat =>
    case Echo =>
    case Mkdir =>
    case Touch =>
    case Rm =>
    case Clear =>
    case Help =>
    case Whoami =>
    case Hostname =>
    case Date =>
    case History =>
    case Unknown =>
  }

  /** Only `mkdir`, `touch` and `rm` change the tree, and only `cd` the
      current directory. */
  lemma ExecFrame(st: ShellState, input: string, now: nat, date: string)
    ensures var s := Exec(st, input, now, date).state;
      && (s.root != st.root ==> Names(input, Mkdir) || Names(input, Touch) || Names(input, Rm))
      && (s.cwd != st.cwd ==> Names(input, Cd))
  {
    if Trim(input) != "" {
      ExecNonBlank(st, input, now, date);
      var words := Words(Trim(input));
      DispatchFrame(st.(history := st.history + [Trim(input)]), words[0], words[1..], now, date);
    }
  }

  /** The commands that change the tree keep a valid tree valid. */
  lemma StepsKeepValid(root: Node, cwd: string, args: seq<string>, now: nat)
    requires Valid(root)
    ensures Valid(MkdirStep(root, cwd, args, now).1)
    ensures Valid(TouchStep(root, cwd, args, now).1)
    ensures Valid(RmStep(root, cwd, args, now).1)
  {
    if args != [] {
      CreateFrame(root, GetPathParts(cwd), args[0], "", now);
      DeleteFrame(root, GetPathParts(cwd), args[0], now);
    }
  }

  /** The tree a line leaves behind, for the three commands that change it. */
  lemma ExecRoot(st: ShellState, input: string, now: nat, date: string)
    ensures var s := Exec(st, input, now, date).state;
      && (Names(input, Mkdir) ==> s.root == MkdirStep(st.root, st.cwd, Words(Trim(input))[1..], now).1)
      && (Names(input, Touch) ==> s.root == TouchStep(st.root, st.cwd, Words(Trim(input))[1..], now).1)
      && (Names(input, Rm) ==> s.root == RmStep(st.root, st.cwd, Words(Trim(input))[1..], now).1)
  {
    if Trim(input) != "" {
      ExecNonBlank(st, input, now, date);
      var words := Words(Trim(input));
      DispatchFrame(st.(history := st.history + [Trim(input)]), words[0], words[1..], now, date);
    }
  }

  /** No command line turns a valid tree into an invalid one. */
  lemma ExecKeepsValid(st: ShellState, input: string, now: nat, date: string)
    requires Valid(st.root)
    ensures Valid(Exec(st, input, now, date).state.root)
  {
    ExecFrame(st, input, now, date);
    ExecRoot(st, input, now, date);
    var t := Trim(input);
    if t != "" {
      assert t[0] !in WhiteSpace;
      WordsOfNonBlank(t);
      StepsKeepValid(st.root, st.cwd, Words(t)[1..], now);
    }
  }

  /** `echo` prints its arguments one space apart, so its output splits back
      into exactly those arguments. */
  lemma EchoRoundTrip(st: ShellState, input: string, now: nat, date: string)
    requires Names(input, Echo)
    ensures var s := Exec(st, input, now, date);
            var args := Words(Trim(input))[1..];
      && s.result == Ok(Join(args, " "))
      && s.state == st.(history := st.history + [Trim(input)])
      && Words(s.result.output) == args
  {
    var words := Words(Trim(input));
    WordsAreTokens(Trim(input));
    var args := words[1..];
    assert forall i :: 0 <= i < |args| ==> args[i] == words[i + 1];
    WordsOfJoin(args);
  }

  /** An unknown command is an error naming it and changes nothing but the
      history. */
  lemma ExecUnknown(st: ShellState, input: string, now: nat, date: string)
    requires Names(input, Unknown)
    ensures var s := Exec(st, input, now, date);
      && s.result == Fail("Command not found: " + Words(Trim(input))[0] + ". Type 'help' for available commands.")
      && s.state == st.(history := st.history + [Trim(input)])
  {
  }

  /** The commands that print a fixed text, the clock or the current
      directory change nothing but the history; `clear` prints the marker
      `CLEAR` for the window to act on. */
  lemma ExecFixedOutputs(st: ShellState, input: string, now: nat, date: string, c: Command)
    requires Names(input, c) && c in {Clear, Pwd, Whoami, Hostname, Help, Date}
    ensures Exec(st, input, now, date).state == st.(history := st.history + [Trim(input)])
    ensures Exec(st, input, now, date).result == Ok(match c
              case Clear => "CLEAR"
              case Pwd => st.cwd
              case Whoami => "user"
              case Hostname => "webos"
              case Help => HelpText
              case _ => date)
  {
  }

  /** `cat`: without an operand it complains; otherwise it fails exactly
      when the first argument does not name a file and prints that file's
      content verbatim when it does. Further arguments are ignored. */
  lemma CatSpec(root: Node, cwd: string, args: seq<string>)
    ensures args == [] ==> CatOutput(root, cwd, args) == Fail("cat: missing file operand")
    ensures args != [] ==>
              var path := GetPathParts(ResolveArg(cwd, args[0]));
              var r := CatOutput(root, cwd, args);
              && r == CatOutput(root, cwd, [args[0]])
              && (r.error <==> Resolve(root, path).None? || Resolve(root, path).value.kind != File)
              && (!r.error ==> r.output == Resolve(root, path).value.content)
  {
  }

  /** `mkdir`, `touch` and `rm` act on the current directory with their
      first argument only. Without one they complain and change nothing;
      otherwise `mkdir` and `touch` fail exactly when the current directory
      is missing or already holds the name, and `rm` exactly when it does
      not hold it. A failure leaves the tree alone and a success prints
      nothing. */
  lemma StepOutcomes(root: Node, cwd: string, args: seq<string>, now: nat)
    ensures args == [] ==>
              && MkdirStep(root, cwd, args, now) == (Fail("mkdir: missing operand"), root)
              && TouchStep(root, cwd, args, now) == (Fail("touch: missing file operand"), root)
              && RmStep(root, cwd, args, now) == (Fail("rm: missing operand"), root)
    ensures args != [] ==>
              && MkdirStep(root, cwd, args, now) == MkdirStep(root, cwd, [args[0]], now)
              && TouchStep(root, cwd, args, now) == TouchStep(root, cwd, [args[0]], now)
              && RmStep(root, cwd, args, now) == RmStep(root, cwd, [args[0]], now)
    ensures args != [] ==>
              var dir := GetPathParts(cwd);
              && (MkdirStep(root, cwd, args, now).0.error <==> !IsDirAt(root, dir) || HasChild(root, dir, args[0]))
              && (TouchStep(root, cwd, args, now).0.error <==> !IsDirAt(root, dir) || HasChild(root, dir, args[0]))
              && (RmStep(root, cwd, args, now).0.error <==> !HasChild(root, dir, args[0]))
    ensures MkdirStep(root, cwd, args, now).0.error ==> MkdirStep(root, cwd, args, now).1 == root
    ensures TouchStep(root, cwd, args, now).0.error ==> TouchStep(root, cwd, args, now).1 == root
    ensures RmStep(root, cwd, args, now).0.error ==> RmStep(root, cwd, args, now).1 == root
    ensures !MkdirStep(root, cwd, args, now).0.error ==> MkdirStep(root, cwd, args, now).0.output == ""
    ensures !TouchStep(root, cwd, args, now).0.error ==> TouchStep(root, cwd, args, now).0.output == ""
    ensures !RmStep(root, cwd, args, now).0.error ==> RmStep(root, cwd, args, now).0.output == ""
  {
  }

  /** `history` prints one numbered line per recorded command, its own line
      included as the last. */
  lemma HistoryListsItself(st: ShellState, input: string, now: nat, date: string)
    requires Names(input, History)
    ensures var s := Exec(st, input, now, date);
            var lines := HistoryLines(st.history + [Trim(input)]);
      && s.result == Ok(Join(lines, "\n"))
      && s.state == st.(history := st.history + [Trim(input)])
      && |lines| == |st.history| + 1
      && lines[|st.history|] == NatToString(|st.history| + 1) + "  " + Trim(input)
  {
  }

  /** After `mkdir name` succeeds, `cd name` succeeds and enters the new,
      empty directory. */
  lemma MkdirThenCd(st: ShellState, name: string, l1: string, l2: string, t1: nat, t2: nat, date: string)
    requires IsRelativeName(name)
    requires Says(l1, Mkdir, name) && Says(l2, Cd, name)
    requires !Exec(st, l1, t1, date).result.error
    ensures var s1 := Exec(st, l1, t1, date).state;
            var s2 := Exec(s1, l2, t2, date);
      && !s2.result.error
      && s2.state.cwd == JoinPath([st.cwd, name])
      && ListDirectoryAt(s2.state.root, GetPathParts(s2.state.cwd)) == Some([])
  {
    ExecMkdir(st, l1, name, t1, date);
    var s1 := Exec(st, l1, t1, date).state;
    ExecCd(s1, l2, name, t2, date);
    CreateDirectoryEffect(st.root, GetPathParts(st.cwd), name, t1);
    ResolveArgRelative(st.cwd, name);
  }

  /** After `touch name` succeeds, `cat name` succeeds and prints nothing. */
  lemma TouchThenCat(st: ShellState, name: string, l1: string, l2: string, t1: nat, t2: nat, date: string)
    requires IsRelativeName(name)
    requires Says(l1, Touch, name) && Says(l2, Cat, name)
    requires !Exec(st, l1, t1, date).result.error
    ensures var s1 := Exec(st, l1, t1, date).state;
            Exec(s1, l2, t2, date).result == Ok("")
  {
    ExecTouch(st, l1, name, t1, date);
    var s1 := Exec(st, l1, t1, date).state;
    ExecCat(s1, l2, name, t2, date);
    CreateFileEffect(st.root, GetPathParts(st.cwd), name, "", t1);
    ResolveArgRelative(st.cwd, name);
  }

  /** After `rm name` succeeds, `cat name` and `cd name` both fail. */
  lemma RmThenGone(st: ShellState, name: string, l1: string, l2: string, l3: string, t1: nat, t2: nat, date: string)
    requires IsRelativeName(name)
    requires Says(l1, Rm, name) && Says(l2, Cat, name) && Says(l3, Cd, name)
    requires !Exec(st, l1, t1, date).result.error
    ensures var s1 := Exec(st, l1, t1, date).state;
      && Exec(s1, l2, t2, date).result.error
      && Exec(s1, l3, t2, date).result.error
  {
    ExecRm(st, l1, name, t1, date);
    var s1 := Exec(st, l1, t1, date).state;
    ExecCat(s1, l2, name, t2, date);
    ExecCd(s1, l3, name, t2, date);
    RmGone(st.root, st.cwd, name, t1);
  }

  /** After a successful `rm name`, the name resolves to nothing below the
      current directory, so `cat name` and `cd name` both fail. */
  lemma RmGone(root: Node, cwd: string, name: string, now: nat)
    requires IsRelativeName(name)
    requires !RmStep(root, cwd, [name], now).0.error
    ensures var root' := RmStep(root, cwd, [name], now).1;
      && Resolve(root', GetPathParts(cwd) + [name]) == None
      && CatOutput(root', cwd, [name]).error
      && CdStep(root', cwd, [name]).0.error
  {
    DeleteEffect(root, GetPathParts(cwd), name, now, []);
    assert GetPathParts(cwd) + [name] + [] == GetPathParts(cwd) + [name];
    ResolveArgRelative(cwd, name);
  }

  /** A line saying `cd arg` runs `CdStep` and records the line. */
  lemma ExecCd(st: ShellState, line: string, arg: string, now: nat, date: string)
    requires Says(line, Cd, arg)
    ensures var (r, cwd) := CdStep(st.root, st.cwd, [arg]);
            Exec(st, line, now, date) == Step(r, ShellState(st.root, cwd, st.history + [Trim(line)]))
  {
    assert Words(Trim(line))[1..] == [arg];
  }

  /** A line saying `cat arg` runs `CatOutput` and records the line. */
  lemma ExecCat(st: ShellState, line: string, arg: string, now: nat, date: string)
    requires Says(line, Cat, arg)
    ensures Exec(st, line, now, date) == Step(CatOutput(st.root, st.cwd, [arg]), st.(history := st.history + [Trim(line)]))
  {
    assert Words(Trim(line))[1..] == [arg];
  }

  /** A line saying `mkdir arg` runs `MkdirStep` and records the line. */
  lemma ExecMkdir(st: ShellState, line: string, arg: string, now: nat, date: string)
    requires Says(line, Mkdir, arg)
    ensures var (r, root) := MkdirStep(st.root, st.cwd, [arg], now);
            Exec(st, line, now, date) == Step(r, ShellState(root, st.cwd, st.history + [Trim(line)]))
  {
    assert Words(Trim(line))[1..] == [arg];
  }

  /** A line saying `touch arg` runs `TouchStep` and records the line. */
  lemma ExecTouch(st: ShellState, line: string, arg: string, now: nat, date: string)
    requires Says(line, Touch, arg)
    ensures var (r, root) := TouchStep(st.root, st.cwd, [arg], now);
            Exec(st, line, now, date) == Step(r, ShellState(root, st.cwd, st.history + [Trim(line)]))
  {
    assert Words(Trim(line))[1..] == [arg];
  }

  /** A line saying `rm arg` runs `RmStep` and records the line. */
  lemma ExecRm(st: ShellState, line: string, arg: string, now: nat, date: string)
    requires Says(line, Rm, arg)
    ensures var (r, root) := RmStep(st.root, st.cwd, [arg], now);
            Exec(st, line, now, date) == Step(r, ShellState(root, st.cwd, st.history + [Trim(line)]))
  {
    assert Words(Trim(line))[1..] == [arg];
  }

  /** `cd name` with a plain name enters the directory of that name below the
      current one. */
  lemma CdIntoName(root: Node, cwd: string, name: string)
    requires IsRelativeName(name)
    requires !CdStep(root, cwd, [name]).0.error
    ensures CdStep(root, cwd, [name]).1 == JoinPath([cwd, name])
    ensures GetPathParts(CdStep(root, cwd, [name]).1) == GetPathParts(cwd) + [name]
    ensures IsDirAt(root, GetPathParts(cwd) + [name])
  {
    ResolveArgRelative(cwd, name);
  }

  /** `cd ..` succeeds whenever the segments above the current directory name
      a directory, and then names exactly those segments. */
  lemma CdUp(root: Node, cwd: string)
    requires IsDirAt(root, DropLast(GetPathParts(cwd)))
    ensures !CdStep(root, cwd, [".."]).0.error
    ensures GetPathParts(CdStep(root, cwd, [".."]).1) == DropLast(GetPathParts(cwd))
  {
    ResolveArgParts(cwd, "..");
  }

  /** `cd name` then `cd ..`, as steps. */
  lemma CdRoundTrip(root: Node, cwd: string, name: string)
    requires Valid(root) && IsRelativeName(name)
    requires !CdStep(root, cwd, [name]).0.error
    ensures var there := CdStep(root, cwd, [name]).1;
            GetPathParts(CdStep(root, there, [".."]).1) == GetPathParts(cwd)
  {
    var d := GetPathParts(cwd);
    CdIntoName(root, cwd, name);
    DirAbove(root, d, name);
    assert DropLast(d + [name]) == d;
    CdUp(root, CdStep(root, cwd, [name]).1);
  }

  /** `cd name` followed by `cd ..` comes back to the same directory, as
      segments (the path string may have gained a slash). */
  lemma CdThereAndBack(st: ShellState, name: string, l1: string, l2: string, t1: nat, t2: nat, date: string)
    requires Valid(st.root) && IsRelativeName(name)
    requires Says(l1, Cd, name) && Says(l2, Cd, "..")
    requires !Exec(st, l1, t1, date).result.error
    ensures var s1 := Exec(st, l1, t1, date).state;
            var s2 := Exec(s1, l2, t2, date).state;
            GetPathParts(s2.cwd) == GetPathParts(st.cwd)
  {
    ExecCd(st, l1, name, t1, date);
    var s1 := Exec(st, l1, t1, date).state;
    ExecCd(s1, l2, "..", t2, date);
    CdRoundTrip(st.root, st.cwd, name);
  }
}
