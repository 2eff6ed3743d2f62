/** The desktop's open windows as a list of values, and the list-to-list
    updaters the desktop applies to it: open (capped), close, merge fields
    into, raise to the front, and the minimize/maximize toggles. */
module Windows {
  import opened Text

  /** One open window (`data` payloads are not modelled). */
  datatype Window = Window(id: string, appType: string, title: string,
                           x: int, y: int, width: int, height: int,
                           minimized: bool, maximized: bool, zIndex: int)

  /** What a caller supplies to open a window: everything but the id and
      the stacking order, which the desktop assigns. */
  datatype WindowData = WindowData(appType: string, title: string,
                                   x: int, y: int, width: int, height: int,
                                   minimized: bool, maximized: bool)

  /** A partial window: the fields present are the ones to overwrite. */
  datatype Patch = Patch(id: Option<string>, appType: Option<string>, title: Option<string>,
                         x: Option<int>, y: Option<int>, width: Option<int>, height: Option<int>,
                         minimized: Option<bool>, maximized: Option<bool>, zIndex: Option<int>)

  /** The two flags a window's title bar toggles. */
  datatype Flag = Minimized | Maximized

  /** No more windows are opened once this many are open. */
  const MaxWindows := 10

  /** The stacking order handed to the first window opened. */
  const FirstZ := 1000

  function Or<T>(o: Option<T>, d: T): T {
    if o.Some? then o.value else d
  }

  /** `{...w, ...p}`: the fields `p` carries replace those of `w`. */
  function Merge(w: Window, p: Patch): Window {
    Window(Or(p.id, w.id), Or(p.appType, w.appType), Or(p.title, w.title),
           Or(p.x, w.x), Or(p.y, w.y), Or(p.width, w.width), Or(p.height, w.height),
           Or(p.minimized, w.minimized), Or(p.maximized, w.maximized), Or(p.zIndex, w.zIndex))
  }

  /** The window `addWindow` builds from the caller's data. */
  function Opened(data: WindowData, id: string, z: int): Window {
    Window(id, data.appType, data.title, data.x, data.y, data.width, data.height,
           data.minimized, data.maximized, z)
  }

  /** `addWindow`: the new list and the new `nextZIndex`. With ten or more
      windows open nothing changes; otherwise the window is appended in
      front of the others. The id stands for the clock-and-random string
      the desktop generates. */
  function AddWindow(ws: seq<Window>, nextZ: int, data: WindowData, id: string): (r: (seq<Window>, int))
    ensures |ws| >= MaxWindows ==> r == (ws, nextZ)
    ensures |ws| < MaxWindows ==> |r.0| == |ws| + 1 && r.0[..|ws|] == ws && r.1 == nextZ + 1
    ensures |ws| < MaxWindows ==> r.0[|ws|].id == id && r.0[|ws|].zIndex == nextZ
    ensures |ws| <= MaxWindows ==> |r.0| <= MaxWindows
    ensures nextZ <= r.1 <= nextZ + 1
  {
    if |ws| >= MaxWindows then (ws, nextZ)
    else (ws + [Opened(data, id, nextZ)], nextZ + 1)
  }

  /** `removeWindow`: every window with the id is dropped. */
  function RemoveWindow(ws: seq<Window>, id: string): (r: seq<Window>)
    ensures |r| <= |ws|
    ensures forall w :: w in r <==> w in ws && w.id != id
  {
    if ws == [] then []
    else (if ws[0].id == id then [] else [ws[0]]) + RemoveWindow(ws[1..], id)
  }

  /** `updateWindow`: the patch is merged into every window with the id. */
  function UpdateWindow(ws: seq<Window>, id: string, p: Patch): (r: seq<Window>)
    ensures |r| == |ws|
    ensures forall i :: 0 <= i < |ws| && ws[i].id == id ==> r[i] == Merge(ws[i], p)
    ensures forall i :: 0 <= i < |ws| && ws[i].id != id ==> r[i] == ws[i]
  {
    if ws == [] then []
    else [if ws[0].id == id then Merge(ws[0], p) else ws[0]] + UpdateWindow(ws[1..], id, p)
  }

  function Toggled(w: Window, f: Flag): Window {
    match f
    case Minimized => w.(minimized := !w.minimized)
    case Maximized => w.(maximized := !w.maximized)
  }

  /** `minimizeWindow` / `maximizeWindow`: the flag is flipped on every
      window with the id. */
  function Toggle(ws: seq<Window>, id: string, f: Flag): (r: seq<Window>)
    ensures |r| == |ws|
    ensures forall i :: 0 <= i < |ws| && ws[i].id == id ==> r[i] == Toggled(ws[i], f)
    ensures forall i :: 0 <= i < |ws| && ws[i].id != id ==> r[i] == ws[i]
  {
    if ws == [] then []
    else [if ws[0].id == id then Toggled(ws[0], f) else ws[0]] + Toggle(ws[1..], id, f)
  }

  /** `find`: the first window with the id. */
  function Find(ws: seq<Window>, id: string): (r: Option<Window>)
    ensures r.Some? ==> r.value.id == id
  {
    if ws == [] then None
    else if ws[0].id == id then Some(ws[0])
    else Find(ws[1..], id)
  }

  /** The search fails only when no window has the id, and otherwise finds
      the first one that has it. */
  lemma {:induction false} FindFirst(ws: seq<Window>, id: string)
    ensures Find(ws, id).None? <==> forall i :: 0 <= i < |ws| ==> ws[i].id != id
    ensures Find(ws, id).Some? ==> exists k :: 0 <= k < |ws| && ws[k] == Find(ws, id).value &&
                                     forall i :: 0 <= i < k ==> ws[i].id != id
  {
    if ws != [] && ws[0].id != id {
      FindFirst(ws[1..], id);
      if Find(ws, id).Some? {
        var k :| 0 <= k < |ws[1..]| && ws[1..][k] == Find(ws, id).value &&
                 forall i :: 0 <= i < k ==> ws[1..][i].id != id;
        assert ws[k + 1] == Find(ws, id).value;
      }
    } else if ws != [] {
      assert ws[0] == Find(ws, id).value;
    }
  }

  /** `Math.max` of the stacking orders of a non-empty list. */
  function MaxZ(ws: seq<Window>): (r: int)
    requires ws != []
    ensures forall i :: 0 <= i < |ws| ==> ws[i].zIndex <= r
  {
    if |ws| == 1 then ws[0].zIndex
    else
      var m := MaxZ(ws[1..]);
      assert forall i :: 1 <= i < |ws| ==> ws[i] == ws[1..][i - 1];
      if ws[0].zIndex >= m then ws[0].zIndex else m
  }

  /** The maximum is the order of some window of the list. */
  lemma {:induction false} MaxZAttained(ws: seq<Window>)
    requires ws != []
    ensures exists i :: 0 <= i < |ws| && ws[i].zIndex == MaxZ(ws)
  {
    if |ws| > 1 && ws[0].zIndex < MaxZ(ws[1..]) {
      MaxZAttained(ws[1..]);
      var i :| 0 <= i < |ws[1..]| && ws[1..][i].zIndex == MaxZ(ws[1..]);
      assert ws[i + 1].zIndex == MaxZ(ws);
    } else {
      assert ws[0].zIndex == MaxZ(ws);
    }
  }

  /** The patch focusing applies: in front of everything, not minimized. */
  function Raise(z: int): Patch {
    Patch(None, None, None, None, None, None, None, Some(false), None, Some(z))
  }

  /** `focusWindow`: unknown ids and a window already level with the top
      leave the list as it is; otherwise the window is brought one above
      the top and un-minimized. The counter for new windows is untouched. */
  function FocusWindow(ws: seq<Window>, id: string): (r: seq<Window>)
    ensures |r| == |ws|
  {
    var target := Find(ws, id);
    if target.None? || target.value.zIndex == MaxZ(ws) then ws
    else UpdateWindow(ws, id, Raise(MaxZ(ws) + 1))
  }

  /** Closing filters in list order: the survivors of two lists are the
      survivors of each, one after the other. */
  lemma {:induction false} RemoveAppend(a: seq<Window>, b: seq<Window>, id: string)
    ensures RemoveWindow(a + b, id) == RemoveWindow(a, id) + RemoveWindow(b, id)
  {
    if a == [] {
      assert a + b == b;
    } else {
      assert (a + b)[1..] == a[1..] + b;
      RemoveAppend(a[1..], b, id);
    }
  }

  /** Closing an id no window has changes nothing. */
  lemma {:induction false} RemoveAbsent(ws: seq<Window>, id: string)
    requires forall i :: 0 <= i < |ws| ==> ws[i].id != id
    ensures RemoveWindow(ws, id) == ws
  {
    if ws != [] {
      RemoveAbsent(ws[1..], id);
    }
  }

  /** Opening a window under a fresh id and closing it again gives back
      the list it was opened in. */
  lemma AddThenRemove(ws: seq<Window>, nextZ: int, data: WindowData, id: string)
    requires |ws| < MaxWindows
    requires forall i :: 0 <= i < |ws| ==> ws[i].id != id
    ensures RemoveWindow(AddWindow(ws, nextZ, data, id).0, id) == ws
  {
    var w := Opened(data, id, nextZ);
    RemoveAppend(ws, [w], id);
    RemoveAbsent(ws, id);
    assert RemoveWindow([w], id) == [];
  }

  /** Updating an id no window has changes nothing. */
  lemma UpdateAbsent(ws: seq<Window>, id: string, p: Patch)
    requires forall i :: 0 <= i < |ws| ==> ws[i].id != id
    ensures UpdateWindow(ws, id, p) == ws
  {
    assert forall i :: 0 <= i < |ws| ==> UpdateWindow(ws, id, p)[i] == ws[i];
  }

  /** Minimizing (or maximizing) twice restores the list. */
  lemma {:induction false} ToggleTwice(ws: seq<Window>, id: string, f: Flag)
    ensures Toggle(Toggle(ws, id, f), id, f) == ws
  {
    if ws != [] {
      ToggleTwice(ws[1..], id, f);
      assert Toggle(ws, id, f)[1..] == Toggle(ws[1..], id, f);
    }
  }

  /** Focusing leaves the list alone exactly when the id is unknown or the
      window is already level with the top. */
  lemma FocusNoop(ws: seq<Window>, id: string)
    ensures FocusWindow(ws, id) == ws <==>
              Find(ws, id).None? || Find(ws, id).value.zIndex == MaxZ(ws)
  {
    var f := Find(ws, id);
    if f.Some? && f.value.zIndex != MaxZ(ws) {
      FindFirst(ws, id);
      FocusIsRaise(ws, id);
      var k :| 0 <= k < |ws| && ws[k] == f.value;
      assert FocusWindow(ws, id)[k].zIndex == MaxZ(ws) + 1 != ws[k].zIndex;
    }
  }

  /** Raising to an order above every window puts the windows with the id
      strictly above all the others, un-minimized. */
  lemma RaiseAbove(ws: seq<Window>, id: string, z: int)
    requires forall i :: 0 <= i < |ws| ==> ws[i].zIndex < z
    ensures var r := UpdateWindow(ws, id, Raise(z));
      (forall i :: 0 <= i < |r| && r[i].id == id ==> !r[i].minimized && r[i].zIndex == z) &&
      (forall i :: 0 <= i < |r| && r[i].id != id ==> r[i].zIndex < z)
  {
    var r := UpdateWindow(ws, id, Raise(z));
    forall i | 0 <= i < |r|
      ensures r[i].id == id ==> !r[i].minimized && r[i].zIndex == z
      ensures r[i].id != id ==> r[i].zIndex < z
    {
      if ws[i].id == id {
        assert r[i] == Merge(ws[i], Raise(z));
      } else {
        assert r[i] == ws[i];
      }
    }
  }

  /** A focus that does something is the raise patch one above the top. */
  lemma FocusIsRaise(ws: seq<Window>, id: string)
    requires Find(ws, id).Some? && Find(ws, id).value.zIndex != MaxZ(ws)
    ensures FocusWindow(ws, id) == UpdateWindow(ws, id, Raise(MaxZ(ws) + 1))
  {
  }

  /** A focus that does something puts every window with the id strictly
      above every other window, un-minimized, and leaves the others alone. */
  lemma FocusRaises(ws: seq<Window>, id: string)
    requires Find(ws, id).Some? && Find(ws, id).value.zIndex != MaxZ(ws)
    ensures var r := FocusWindow(ws, id);
      (forall i :: 0 <= i < |r| && r[i].id == id ==> !r[i].minimized && r[i].zIndex == MaxZ(ws) + 1) &&
      (forall i :: 0 <= i < |r| && r[i].id != id ==> r[i].zIndex <= MaxZ(ws)) &&
      (forall i :: 0 <= i < |r| && ws[i].id != id ==> r[i] == ws[i])
  {
    FocusIsRaise(ws, id);
    RaiseAbove(ws, id, MaxZ(ws) + 1);
  }

  /** Focusing the same window twice in a row is the same as once. */
  lemma FocusIdempotent(ws: seq<Window>, id: string)
    ensures FocusWindow(FocusWindow(ws, id), id) == FocusWindow(ws, id)
  {
    var f := Find(ws, id);
    if f.Some? && f.value.zIndex != MaxZ(ws) {
      var r := FocusWindow(ws, id);
      FocusIsRaise(ws, id);
      FocusRaises(ws, id);
      FindFirst(ws, id);
      var j :| 0 <= j < |ws| && ws[j] == f.value;
      assert r[j].id == id;
      FindFirst(r, id);
      var g := Find(r, id);
      var k :| 0 <= k < |r| && r[k] == g.value;
      assert g.value.zIndex == MaxZ(ws) + 1;
      MaxZAttained(r);
      assert MaxZ(r) == MaxZ(ws) + 1;
    }
  }

  /** Focusing does not advance the counter for new windows, so stacking
      orders are not unique: here a focused window and a window opened
      right after it share the order 1002. */
  lemma FocusThenAddCollides(data: WindowData)
    ensures var a := Opened(data, "a", 1000);
            var b := Opened(data, "b", 1001);
            var r := AddWindow(FocusWindow([a, b], "a"), 1002, data, "c").0;
            |r| == 3 && r[0].id == "a" && r[2].id == "c" && r[0].zIndex == r[2].zIndex == 1002
  {
    var a := Opened(data, "a", 1000);
    var b := Opened(data, "b", 1001);
    assert Find([a, b], "a") == Some(a);
    assert MaxZ([a, b]) == 1001;
    assert FocusWindow([a, b], "a")[0].zIndex == 1002;
  }
}
