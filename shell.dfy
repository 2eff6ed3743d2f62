/** The `TerminalCommands` interpreter object: a current directory and a
    command history held in fields, and a file system it shares with the
    rest of the desktop. Each command is carried out against that file
    system and agrees with the function that describes it. */
module Shell {
  import opened Text
  import opened Paths
  import opened Tree
  import opened FileOps
  import opened Vfs
  import opened Commands

  class TerminalCommands {
    const fs: FileSystem
    var currentPath: string
    var history: seq<string>

    /** Everything a command can read or change. */
    function State(): ShellState
      reads this, fs
    {
      ShellState(fs.root, currentPath, history)
    }

    /** A fresh interpreter starts in `initialPath` with an empty history. */
    constructor(fs: FileSystem, initialPath: string)
      ensures this.fs == fs && currentPath == initialPath && history == []
    {
      this.fs := fs;
      currentPath := initialPath;
      history := [];
    }

    /** `setPath(path)`: adopts the desktop's current directory. */
    method SetPath(path: string)
      modifies this
      ensures currentPath == path && history == old(history)
    {
      currentPath := path;
    }

    method GetPath() returns (path: string)
      ensures path == currentPath
    {
      return currentPath;
    }

    method GetHistory() returns (h: seq<string>)
      ensures h == history
    {
      return history;
    }

    /** `execute(input)`: the result and the new state are those `Exec`
        describes. `now` is the clock reading for any file it touches and
        `date` the clock's rendering of the current time. */
    method Execute(input: string, now: nat, date: string) returns (r: CommandResult)
      modifies this, fs
      ensures Step(r, State()) == Exec(old(State()), input, now, date)
    {
      var trimmed := Trim(input);
      if trimmed == "" {
        return Ok("");
      }
      history := history + [trimmed];
      assert trimmed[0] !in WhiteSpace;
      WordsOfNonBlank(trimmed);
      var parts := Words(trimmed);
      var command := parts[0];
      var args := parts[1..];
      match Classify(command)
      case Ls => r := Ls(args);
      case Cd => r := Cd(args);
      case Pwd => r := Ok(currentPath);
      case Cat => r := Cat(args);
      case Echo => r := Ok(Join(args, " "));
      case Mkdir => r := Mkdir(args, now);
      case Touch => r := Touch(args, now);
      case Rm => r := Rm(args, now);
      case Clear => r := Ok("CLEAR");
      case Help => r := Ok(HelpText);
      case Whoami => r := Ok(UserName);
      case Hostname => r := Ok(HostName);
      case Date => r := Ok(date);
      case History => r := Ok(Join(HistoryLines(history), "\n"));
      case Unknown =>
        r := Fail("Command not found: " + command + ". Type 'help' for available commands.");
    }

    /** `ls [path]`: lists the directory, sorted, or reports it missing. */
    method Ls(args: seq<string>) returns (r: CommandResult)
      ensures r == LsOutput(fs.root, currentPath, args)
    {
      var path := if |args| > 0 then ResolveArg(currentPath, args[0]) else currentPath;
      var items := fs.ListDirectory(path);
      if items.None? {
        return Fail("ls: cannot access '" + (if |args| > 0 then args[0] else ".") + "': No such file or directory");
      }
      if items.value == [] {
        return Ok("");
      }
      var sorted := SortItems(items.value);
      return Ok(Join(Rendered(sorted), "  "));
    }

    /** `cd [path]`: moves to a directory, or reports why it cannot. */
    method Cd(args: seq<string>) returns (r: CommandResult)
      modifies this
      ensures (r, currentPath) == CdStep(fs.root, old(currentPath), args)
      ensures history == old(history)
    {
      if |args| == 0 {
        currentPath := Home;
        return Ok("");
      }
      var targetPath := ResolveArg(currentPath, args[0]);
      var target := fs.ResolvePath(targetPath);
      if target.None? {
        return Fail("cd: " + args[0] + ": No such file or directory");
      }
      if target.value.kind != Directory {
        return Fail("cd: " + args[0] + ": Not a directory");
      }
      currentPath := targetPath;
      return Ok("");
    }

    /** `cat <file>`: prints a file's content. */
    method Cat(args: seq<string>) returns (r: CommandResult)
      ensures r == CatOutput(fs.root, currentPath, args)
    {
      if |args| == 0 {
        return Fail("cat: missing file operand");
      }
      var path := ResolveArg(currentPath, args[0]);
      var content := fs.ReadFile(path);
      if content.None? {
        return Fail("cat: " + args[0] + ": No such file or directory");
      }
      return Ok(content.value);
    }

    /** `mkdir <name>`: a directory in the current one. */
    method Mkdir(args: seq<string>, now: nat) returns (r: CommandResult)
      modifies fs
      ensures (r, fs.root) == MkdirStep(old(fs.root), currentPath, args, now)
    {
      if |args| == 0 {
        return Fail("mkdir: missing operand");
      }
      var name := args[0];
      var success := fs.CreateDirectory(currentPath, name, now);
      if !success {
        return Fail("mkdir: cannot create directory '" + name + "': File exists");
      }
      return Ok("");
    }

    /** `touch <name>`: an empty file in the current directory. */
    method Touch(args: seq<string>, now: nat) returns (r: CommandResult)
      modifies fs
      ensures (r, fs.root) == TouchStep(old(fs.root), currentPath, args, now)
    {
      if |args| == 0 {
        return Fail("touch: missing file operand");
      }
      var name := args[0];
      var success := fs.CreateFile(currentPath, name, "", now);
      if !success {
        return Fail("touch: cannot create file '" + name + "': File exists");
      }
      return Ok("");
    }

    /** `rm <name>`: removes an entry of the current directory. */
    method Rm(args: seq<string>, now: nat) returns (r: CommandResult)
      modifies fs
      ensures (r, fs.root) == RmStep(old(fs.root), currentPath, args, now)
    {
      if |args| == 0 {
        return Fail("rm: missing operand");
      }
      var name := args[0];
      var success := fs.DeleteNode(currentPath, name, now);
      if !success {
        return Fail("rm: cannot remove '" + name + "': No such file or directory");
      }
      return Ok("");
    }
  }
}
