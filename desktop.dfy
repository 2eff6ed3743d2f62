/** The desktop session: the open windows, the counter that orders new
    windows, the shared current directory, the power state, the timeouts
    the power transitions schedule, and the last file tree handed to the
    key/value store. The power transitions are functions on a `Desk`
    value; the `Session` object holds the same state in fields and each of
    its methods agrees with the matching function. */
module Desktop {
  import opened Text
  import opened Tree
  import opened FileOps
  import opened Vfs
  import opened Windows
  import opened Commands

  datatype Power = Running | Shutdown | Sleeping | Booting

  /** What a scheduled callback does when it runs. */
  datatype Action = BecomeRunning | BecomeBooting

  /** A scheduled callback and the time it is due. */
  datatype Timer = Timer(due: nat, action: Action)

  /** Milliseconds from `booting` to `running`. */
  const BootDelay := 2000

  /** Milliseconds a restart spends in `shutdown` before booting. */
  const RestartDelay := 500

  datatype Desk = Desk(windows: seq<Window>, nextZ: int, currentPath: string,
                       power: Power, pending: seq<Timer>, saved: Option<Node>)

  /** `boot`: `booting` now, `running` once the timeout fires. */
  function BootStep(d: Desk, now: nat): Desk {
    d.(power := Booting, pending := d.pending + [Timer(now + BootDelay, BecomeRunning)])
  }

  /** `shutdown`: the tree is saved, every window closed. */
  function ShutdownStep(d: Desk, root: Node): Desk {
    d.(saved := Some(root), windows := [], power := Shutdown)
  }

  /** `restart`: a shutdown that boots again after a short pause. */
  function RestartStep(d: Desk, root: Node, now: nat): Desk {
    ShutdownStep(d, root).(pending := d.pending + [Timer(now + RestartDelay, BecomeBooting)])
  }

  /** `sleep` and `wakeUp` assign the state from any state. */
  function SleepStep(d: Desk): Desk {
    d.(power := Sleeping)
  }

  function WakeUpStep(d: Desk): Desk {
    d.(power := Running)
  }

  /** Timer `i` is due no later than any other pending one, so the event
      loop may run it next. */
  predicate Earliest(pending: seq<Timer>, i: int) {
    0 <= i < |pending| && forall j :: 0 <= j < |pending| ==> pending[i].due <= pending[j].due
  }

  /** Running timer `i`: it leaves the queue and sets its state; the
      restart's first callback schedules the boot's completion in turn. */
  function FireStep(d: Desk, i: int): Desk
    requires Earliest(d.pending, i)
  {
    var t := d.pending[i];
    var rest := d.pending[..i] + d.pending[i + 1..];
    match t.action
    case BecomeRunning => d.(power := Running, pending := rest)
    case BecomeBooting => d.(power := Booting, pending := rest + [Timer(t.due + BootDelay, BecomeRunning)])
  }

  /** What every reachable session satisfies: the window cap holds and the
      counter never falls below its starting value. */
  predicate WellFormed(d: Desk) {
    |d.windows| <= MaxWindows && d.nextZ >= FirstZ
  }

  /** With nothing else scheduled, a restart closes every window, saves,
      shows `shutdown`, then `booting` half a second later and `running`
      two seconds after that, with nothing left scheduled. */
  lemma RestartSequence(d: Desk, root: Node, now: nat)
    requires d.pending == []
    ensures var d1 := RestartStep(d, root, now);
      d1.power == Shutdown && d1.windows == [] && d1.saved == Some(root) &&
      Earliest(d1.pending, 0) &&
      var d2 := FireStep(d1, 0);
      d2.power == Booting && d2.pending == [Timer(now + RestartDelay + BootDelay, BecomeRunning)] &&
      Earliest(d2.pending, 0) &&
      var d3 := FireStep(d2, 0);
      d3.power == Running && d3.pending == [] && d3.windows == [] && d3.saved == Some(root)
  {
    var d1 := RestartStep(d, root, now);
    assert d1.pending == [Timer(now + RestartDelay, BecomeBooting)];
    var d2 := FireStep(d1, 0);
    assert d2.pending == [Timer(now + RestartDelay + BootDelay, BecomeRunning)];
  }

  /** With nothing else scheduled, booting ends in `running` with nothing
      left scheduled and the windows untouched. */
  lemma BootSequence(d: Desk, now: nat)
    requires d.pending == []
    ensures var d1 := BootStep(d, now);
      d1.power == Booting && Earliest(d1.pending, 0) &&
      var d2 := FireStep(d1, 0);
      d2.power == Running && d2.pending == [] && d2.windows == d.windows
  {
    assert BootStep(d, now).pending == [Timer(now + BootDelay, BecomeRunning)];
  }

  /** Neither `shutdown` nor `sleep` cancels a pending boot: a desktop
      shut down or put to sleep while booting still comes up `running`
      when the boot's timeout fires. */
  lemma PendingBootWins(d: Desk, root: Node, now: nat)
    requires d.pending == []
    ensures var b := BootStep(d, now);
      Earliest(ShutdownStep(b, root).pending, 0) && FireStep(ShutdownStep(b, root), 0).power == Running &&
      FireStep(ShutdownStep(b, root), 0).windows == [] &&
      Earliest(SleepStep(b).pending, 0) && FireStep(SleepStep(b), 0).power == Running
  {
    assert BootStep(d, now).pending == [Timer(now + BootDelay, BecomeRunning)];
  }

  /** The power transitions keep the session invariant. */
  lemma PowerKeepsWellFormed(d: Desk, root: Node, now: nat, i: int)
    requires WellFormed(d)
    ensures WellFormed(BootStep(d, now)) && WellFormed(ShutdownStep(d, root)) && WellFormed(RestartStep(d, root, now))
    ensures WellFormed(SleepStep(d)) && WellFormed(WakeUpStep(d))
    ensures Earliest(d.pending, i) ==> WellFormed(FireStep(d, i)) && |FireStep(d, i).pending| <= |d.pending|
  {
  }

  /** The window updaters keep the session invariant. */
  lemma WindowsKeepWellFormed(d: Desk, data: WindowData, id: string, p: Patch, f: Flag)
    requires WellFormed(d)
    ensures var (ws, z) := AddWindow(d.windows, d.nextZ, data, id); WellFormed(d.(windows := ws, nextZ := z))
    ensures WellFormed(d.(windows := RemoveWindow(d.windows, id)))
    ensures WellFormed(d.(windows := UpdateWindow(d.windows, id, p)))
    ensures WellFormed(d.(windows := FocusWindow(d.windows, id)))
    ensures WellFormed(d.(windows := Toggle(d.windows, id, f)))
  {
  }

  /** The `DesktopProvider` state. The file system is created once, from
      the stored tree if there is one, and shared with every app. */
  class Session {
    const fs: FileSystem
    var windows: seq<Window>
    var nextZ: int
    var currentPath: string
    var power: Power
    var pending: seq<Timer>
    var saved: Option<Node>

    function State(): Desk
      reads this
    {
      Desk(windows, nextZ, currentPath, power, pending, saved)
    }

    /** Mounting the provider: a file system from the stored tree or the
        seeded one, no windows, the counter at 1000, the home directory,
        and the mount effect's boot under way. */
    constructor(stored: Option<Node>, now: nat)
      ensures fresh(fs) && fs.root == (if stored.Some? then stored.value else InitialTree(now))
      ensures State() == BootStep(Desk([], FirstZ, Home, Booting, [], stored), now)
      ensures WellFormed(State())
    {
      fs := new FileSystem(stored, now);
      windows := [];
      nextZ := FirstZ;
      currentPath := Home;
      saved := stored;
      power := Booting;
      pending := [Timer(now + BootDelay, BecomeRunning)];
    }

    /** `saveFileSystem`, also run by the five-second interval: the store
        receives the current tree. */
    method SaveFileSystem()
      modifies this
      ensures State() == old(State()).(saved := Some(fs.root))
    {
      saved := Some(fs.root);
    }

    method SetCurrentPath(path: string)
      modifies this
      ensures State() == old(State()).(currentPath := path)
    {
      currentPath := path;
    }

    /** `addWindow(windowData)`; `id` is the generated identifier. */
    method AddWindow(data: WindowData, id: string)
      requires WellFormed(State())
      modifies this
      ensures (windows, nextZ) == Windows.AddWindow(old(windows), old(nextZ), data, id)
      ensures State() == old(State()).(windows := windows, nextZ := nextZ)
      ensures WellFormed(State())
    {
      if |windows| >= MaxWindows {
        return;
      }
      windows := windows + [Opened(data, id, nextZ)];
      nextZ := nextZ + 1;
    }

    /** `removeWindow(id)`: closes the window and saves the tree. */
    method RemoveWindow(id: string)
      requires WellFormed(State())
      modifies this
      ensures State() == old(State()).(windows := Windows.RemoveWindow(old(windows), id), saved := Some(fs.root))
      ensures WellFormed(State())
    {
      windows := Windows.RemoveWindow(windows, id);
      SaveFileSystem();
    }

    method UpdateWindow(id: string, p: Patch)
      requires WellFormed(State())
      modifies this
      ensures State() == old(State()).(windows := Windows.UpdateWindow(old(windows), id, p))
      ensures WellFormed(State())
    {
      windows := Windows.UpdateWindow(windows, id, p);
    }

    method FocusWindow(id: string)
      requires WellFormed(State())
      modifies this
      ensures State() == old(State()).(windows := Windows.FocusWindow(old(windows), id))
      ensures WellFormed(State())
    {
      windows := Windows.FocusWindow(windows, id);
    }

    method MinimizeWindow(id: string)
      requires WellFormed(State())
      modifies this
      ensures State() == old(State()).(windows := Toggle(old(windows), id, Minimized))
      ensures WellFormed(State())
    {
      windows := Toggle(windows, id, Minimized);
    }

    method MaximizeWindow(id: string)
      requires WellFormed(State())
      modifies this
      ensures State() == old(State()).(windows := Toggle(old(windows), id, Maximized))
      ensures WellFormed(State())
    {
      windows := Toggle(windows, id, Maximized);
    }

    method ShutDown()
      requires WellFormed(State())
      modifies this
      ensures State() == ShutdownStep(old(State()), fs.root)
      ensures WellFormed(State())
    {
      SaveFileSystem();
      windows := [];
      power := Shutdown;
    }

    method Restart(now: nat)
      requires WellFormed(State())
      modifies this
      ensures State() == RestartStep(old(State()), fs.root, now)
      ensures WellFormed(State())
    {
      SaveFileSystem();
      windows := [];
      power := Shutdown;
      pending := pending + [Timer(now + RestartDelay, BecomeBooting)];
    }

    method Sleep()
      modifies this
      ensures State() == SleepStep(old(State()))
    {
      power := Sleeping;
    }

    method WakeUp()
      modifies this
      ensures State() == WakeUpStep(old(State()))
    {
      power := Running;
    }

    method Boot(now: nat)
      modifies this
      ensures State() == BootStep(old(State()), now)
    {
      power := Booting;
      pending := pending + [Timer(now + BootDelay, BecomeRunning)];
    }

    /** The event loop runs the earliest pending timeout. */
    method Fire(i: int)
      requires Earliest(pending, i)
      modifies this
      ensures State() == FireStep(old(State()), i)
    {
      var t := pending[i];
      pending := pending[..i] + pending[i + 1..];
      match t.action
      case BecomeRunning =>
        power := Running;
      case BecomeBooting =>
        power := Booting;
        pending := pending + [Timer(t.due + BootDelay, BecomeRunning)];
    }
  }
}
