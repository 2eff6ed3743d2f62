/** The operations of the virtual file system as functions from the tree
    before to the boolean result and the tree after, with what each one
    promises. The `FileSystem` class runs them on its `root` field. */
module FileOps {
  import opened Text
  import opened Paths
  import opened Tree

  /** The boolean an operation returns and the tree it leaves behind. */
  datatype Outcome = Outcome(ok: bool, root: Node)

  /** The file `createFile` stores: its id derives from the parent's id. */
  function NewFile(parentId: string, name: string, content: string, now: nat): Node {
    Node(parentId + "-" + name, name, File, content, [], now, now, |content|)
  }

  /** The directory `createDirectory` stores. */
  function NewDirectory(parentId: string, name: string, now: nat): Node {
    Node(parentId + "-" + name, name, Directory, "", [], now, now, 0)
  }

  /** True when `dir` resolves to a directory. */
  predicate IsDirAt(root: Node, dir: seq<string>) {
    Resolve(root, dir).Some? && Resolve(root, dir).value.kind == Directory
  }

  /** True when `dir` resolves to a directory holding the key `name`. */
  predicate HasChild(root: Node, dir: seq<string>, name: string) {
    IsDirAt(root, dir) && name in Keys(Resolve(root, dir).value.children)
  }

  /** The tree after the directory at `dir` stored `child` under `name` and
      took `now` as its modification time. */
  function SetChild(root: Node, dir: seq<string>, name: string, child: Node, now: nat): Node
    requires Resolve(root, dir).Some?
  {
    var parent := Resolve(root, dir).value;
    ReplaceAt(root, dir, parent.(children := Put(parent.children, name, child), modified := now))
  }

  /** `createFile(path, name, content)`: fails on a missing or non-directory
      parent and on a taken name, and then changes nothing. */
  function CreateFileAt(root: Node, dir: seq<string>, name: string, content: string, now: nat): (o: Outcome)
    ensures o.ok <==> IsDirAt(root, dir) && !HasChild(root, dir, name)
    ensures !o.ok ==> o.root == root
  {
    match Resolve(root, dir)
    case None => Outcome(false, root)
    case Some(parent) =>
      if parent.kind != Directory || name in Keys(parent.children) then Outcome(false, root)
      else Outcome(true, SetChild(root, dir, name, NewFile(parent.id, name, content, now), now))
  }

  /** `createDirectory(path, name)`: fails like `createFile`. */
  function CreateDirectoryAt(root: Node, dir: seq<string>, name: string, now: nat): (o: Outcome)
    ensures o.ok <==> IsDirAt(root, dir) && !HasChild(root, dir, name)
    ensures !o.ok ==> o.root == root
  {
    match Resolve(root, dir)
    case None => Outcome(false, root)
    case Some(parent) =>
      if parent.kind != Directory || name in Keys(parent.children) then Outcome(false, root)
      else Outcome(true, SetChild(root, dir, name, NewDirectory(parent.id, name, now), now))
  }

  /** `deleteNode(path, name)`: fails unless the parent directory holds
      `name`; there is no emptiness check. */
  function DeleteAt(root: Node, dir: seq<string>, name: string, now: nat): (o: Outcome)
    ensures o.ok <==> HasChild(root, dir, name)
    ensures !o.ok ==> o.root == root
  {
    match Resolve(root, dir)
    case None => Outcome(false, root)
    case Some(parent) =>
      if parent.kind != Directory || name !in Keys(parent.children) then Outcome(false, root)
      else Outcome(true, ReplaceAt(root, dir, parent.(children := Remove(parent.children, name), modified := now)))
  }

  /** `writeFile(path, content)`: only an existing file is written. */
  function WriteFileAt(root: Node, path: seq<string>, content: string, now: nat): (o: Outcome)
    ensures o.ok <==> Resolve(root, path).Some? && Resolve(root, path).value.kind == File
    ensures !o.ok ==> o.root == root
  {
    match Resolve(root, path)
    case None => Outcome(false, root)
    case Some(f) =>
      if f.kind != File then Outcome(false, root)
      else Outcome(true, ReplaceAt(root, path, f.(content := content, size := |content|, modified := now)))
  }

  /** `readFile(path)`: `None` stands for `null`, returned exactly for a
      missing path or a directory. */
  function ReadFileAt(root: Node, path: seq<string>): (r: Option<string>)
    ensures r.Some? <==> Resolve(root, path).Some? && Resolve(root, path).value.kind == File
    ensures r.Some? ==> r.value == Resolve(root, path).value.content
  {
    match Resolve(root, path)
    case None => None
    case Some(f) => if f.kind != File then None else Some(f.content)
  }

  /** `listDirectory(path)`: the children in insertion order, `None` for a
      missing path or a file. */
  function ListDirectoryAt(root: Node, path: seq<string>): (r: Option<seq<Node>>)
    ensures r.None? <==> !IsDirAt(root, path)
    ensures r.Some? ==> |r.value| == |Resolve(root, path).value.children|
  {
    match Resolve(root, path)
    case None => None
    case Some(d) => if d.kind != Directory then None else Some(Values(d.children))
  }

  /** `renameNode(path, oldName, newName)`: assign under the new key (at the
      end of the order), then delete the old key. Renaming to a taken name,
      the old name included, fails. */
  function RenameAt(root: Node, dir: seq<string>, oldName: string, newName: string, now: nat): (o: Outcome)
    ensures o.ok <==> HasChild(root, dir, oldName) && !HasChild(root, dir, newName)
    ensures oldName == newName ==> !o.ok
    ensures !o.ok ==> o.root == root
  {
    match Resolve(root, dir)
    case None => Outcome(false, root)
    case Some(parent) =>
      if parent.kind != Directory || oldName !in Keys(parent.children) || newName in Keys(parent.children) then
        Outcome(false, root)
      else
        var node := Lookup(parent.children, oldName).value.(name := newName);
        var children := Remove(Put(parent.children, newName, node), oldName);
        Outcome(true, ReplaceAt(root, dir, parent.(children := children, modified := now)))
  }

  /** The `deepCopy` closure of `copyNode`: every node of the copy gets the
      same `id`, the same `name` and fresh timestamps; keys are kept. */
  function DeepCopy(n: Node, id: string, name: string, now: nat): Node
    decreases n
  {
    var kids := seq(|n.children|, i requires 0 <= i < |n.children| =>
                      Entry(n.children[i].key, DeepCopy(n.children[i].node, id, name, now)));
    n.(id := id, name := name, created := now, modified := now, children := kids)
  }

  /** The id `copyNode` gives every copied node. */
  function CopyId(destId: string, name: string, now: nat): string {
    destId + "-" + name + "-" + NatToString(now)
  }

  /** `copyNode(sourcePath, destPath, name)`: the copy is built from the tree
      as it was and then stored under `name`, replacing any entry there. */
  function CopyAt(root: Node, src: seq<string>, dest: seq<string>, name: string, now: nat): (o: Outcome)
    ensures o.ok <==> Resolve(root, src).Some? && IsDirAt(root, dest)
    ensures !o.ok ==> o.root == root
  {
    match (Resolve(root, src), Resolve(root, dest))
    case (Some(s), Some(d)) =>
      if d.kind != Directory then Outcome(false, root)
      else Outcome(true, SetChild(root, dest, name, DeepCopy(s, CopyId(d.id, name, now), name, now), now))
    case _ => Outcome(false, root)
  }

  /** `moveNode(sourcePath, sourceParentPath, destPath, name)`: copy, then
      delete the last segment of the source path from the given parent. A
      source path without segments keeps the copy and reports failure. */
  function MoveAt(root: Node, src: seq<string>, srcParent: seq<string>, dest: seq<string>,
                  name: string, now: nat): Outcome {
    var copied := CopyAt(root, src, dest, name, now);
    if !copied.ok then Outcome(false, root)
    else if src == [] then Outcome(false, copied.root)
    else DeleteAt(copied.root, srcParent, src[|src| - 1], now)
  }

  // ---------------------------------------------------------------------
  // Path resolution
  // ---------------------------------------------------------------------

  /** Resolving `joinPath(dir, name)` for a plain name looks `name` up among
      the children of what `dir` resolves to. */
  lemma ResolveJoinPath(root: Node, dir: string, name: string)
    requires IsSegment(name)
    ensures Resolve(root, GetPathParts(JoinPath([dir, name]))) ==
            match Resolve(root, GetPathParts(dir))
            case None => None
            case Some(d) => Lookup(d.children, name)
  {
    PartsOfJoinPath(dir, name);
    PartsOfSegment(name);
    ResolveAppend(root, GetPathParts(dir), [name]);
  }

  // ---------------------------------------------------------------------
  // Storing a child: shared by createFile, createDirectory and copyNode
  // ---------------------------------------------------------------------

  /** After storing, the directory holds `child` under `name` (in place of an
      old entry, or appended) and was modified at `now`; the paths through
      `name` walk the child. */
  lemma SetChildEffect(root: Node, dir: seq<string>, name: string, child: Node, now: nat, rest: seq<string>)
    requires Resolve(root, dir).Some?
    ensures var parent := Resolve(root, dir).value;
            var root' := SetChild(root, dir, name, child, now);
            && Resolve(root', dir) == Some(parent.(children := Put(parent.children, name, child), modified := now))
            && Resolve(root', dir + [name] + rest) == Resolve(child, rest)
            && Keys(Resolve(root', dir).value.children) ==
               (if name in Keys(parent.children) then Keys(parent.children) else Keys(parent.children) + [name])
  {
    var parent := Resolve(root, dir).value;
    var parent' := parent.(children := Put(parent.children, name, child), modified := now);
    ResolveReplaced(root, dir, parent');
    ResolveReplacedBelow(root, dir, parent', name, rest);
    PutLookup(parent.children, name, child, name);
    PutKeys(parent.children, name, child);
  }

  /** Storing a child changes nothing outside `dir` and its key `name`. */
  lemma SetChildFrame(root: Node, dir: seq<string>, name: string, child: Node, now: nat)
    requires Resolve(root, dir).Some?
    ensures OnlyChanged(root, SetChild(root, dir, name, child, now), dir, {name})
  {
    var parent := Resolve(root, dir).value;
    var parent' := parent.(children := Put(parent.children, name, child), modified := now);
    forall k | k !in {name}
      ensures Lookup(parent'.children, k) == Lookup(parent.children, k)
    {
      PutLookup(parent.children, name, child, k);
    }
    ReplaceDirFrame(root, dir, parent', {name});
  }

  /** The same, one path at a time: a path that neither leads to `dir` nor
      runs through `name` resolves as before. */
  lemma SetChildKeeps(root: Node, dir: seq<string>, name: string, child: Node, now: nat, p: seq<string>)
    requires Resolve(root, dir).Some?
    requires !(dir + [name] <= p) && !(p <= dir)
    ensures Resolve(SetChild(root, dir, name, child, now), p) == Resolve(root, p)
  {
    var parent := Resolve(root, dir).value;
    var parent' := parent.(children := Put(parent.children, name, child), modified := now);
    forall j | j != name
      ensures Lookup(parent'.children, j) == Lookup(parent.children, j)
    {
      PutLookup(parent.children, name, child, j);
    }
    ReplaceDirKeeps(root, dir, parent', name, p);
  }

  /** Storing a valid child in a directory of a valid tree keeps it valid. */
  lemma SetChildValid(root: Node, dir: seq<string>, name: string, child: Node, now: nat)
    requires Valid(root) && Valid(child) && IsDirAt(root, dir)
    ensures Valid(SetChild(root, dir, name, child, now))
  {
    var parent := Resolve(root, dir).value;
    var parent' := parent.(children := Put(parent.children, name, child), modified := now);
    ResolveValid(root, dir);
    PutUnique(parent.children, name, child);
    PutFrom(parent.children, name, child);
    forall i | 0 <= i < |parent'.children| ensures Valid(parent'.children[i].node) {
      if parent'.children[i] != Entry(name, child) {
        assert parent'.children[i] in parent.children;
      }
    }
    ReplaceAtValid(root, dir, parent');
  }

  lemma ValuesAppend(es: seq<Entry>, e: Entry)
    ensures Values(es + [e]) == Values(es) + [e.node]
  {
    KeysValuesAt(es + [e]);
    KeysValuesAt(es);
  }

  // ---------------------------------------------------------------------
  // createFile / createDirectory
  // ---------------------------------------------------------------------

  /** A created file ends its parent's list, resolves under `name`, reads
      back as `content` with `size` its length, and its parent was modified
      at `now`. */
  lemma CreateFileEffect(root: Node, dir: seq<string>, name: string, content: string, now: nat)
    requires IsDirAt(root, dir) && !HasChild(root, dir, name)
    ensures var o := CreateFileAt(root, dir, name, content, now);
            var parent := Resolve(root, dir).value;
            var file := NewFile(parent.id, name, content, now);
      && Resolve(o.root, dir) == Some(parent.(children := parent.children + [Entry(name, file)], modified := now))
      && ReadFileAt(o.root, dir + [name]) == Some(content)
      && Resolve(o.root, dir + [name]).value.size == |content|
      && ListDirectoryAt(o.root, dir) == Some(Values(parent.children) + [file])
  {
    var parent := Resolve(root, dir).value;
    var file := NewFile(parent.id, name, content, now);
    SetChildEffect(root, dir, name, file, now, []);
    assert dir + [name] + [] == dir + [name];
    PutNew(parent.children, name, file);
    ValuesAppend(parent.children, Entry(name, file));
  }

  /** A created directory is empty, of size 0, and ends its parent's list. */
  lemma CreateDirectoryEffect(root: Node, dir: seq<string>, name: string, now: nat)
    requires IsDirAt(root, dir) && !HasChild(root, dir, name)
    ensures var o := CreateDirectoryAt(root, dir, name, now);
            var parent := Resolve(root, dir).value;
            var sub := NewDirectory(parent.id, name, now);
      && Resolve(o.root, dir) == Some(parent.(children := parent.children + [Entry(name, sub)], modified := now))
      && ListDirectoryAt(o.root, dir + [name]) == Some([])
      && Resolve(o.root, dir + [name]).value.size == 0
      && ListDirectoryAt(o.root, dir) == Some(Values(parent.children) + [sub])
  {
    var parent := Resolve(root, dir).value;
    var sub := NewDirectory(parent.id, name, now);
    SetChildEffect(root, dir, name, sub, now, []);
    assert dir + [name] + [] == dir + [name];
    PutNew(parent.children, name, sub);
    ValuesAppend(parent.children, Entry(name, sub));
  }

  /** Creating changes nothing outside the new entry and keeps a valid tree
      valid. */
  lemma CreateFrame(root: Node, dir: seq<string>, name: string, content: string, now: nat)
    ensures var o := CreateFileAt(root, dir, name, content, now);
            o.ok ==> OnlyChanged(root, o.root, dir, {name}) && (Valid(root) ==> Valid(o.root))
    ensures var o := CreateDirectoryAt(root, dir, name, now);
            o.ok ==> OnlyChanged(root, o.root, dir, {name}) && (Valid(root) ==> Valid(o.root))
  {
    if IsDirAt(root, dir) && !HasChild(root, dir, name) {
      var parent := Resolve(root, dir).value;
      SetChildFrame(root, dir, name, NewFile(parent.id, name, content, now), now);
      SetChildFrame(root, dir, name, NewDirectory(parent.id, name, now), now);
      if Valid(root) {
        SetChildValid(root, dir, name, NewFile(parent.id, name, content, now), now);
        SetChildValid(root, dir, name, NewDirectory(parent.id, name, now), now);
      }
    }
  }

  // ---------------------------------------------------------------------
  // deleteNode
  // ---------------------------------------------------------------------

  /** After a delete no path through `name` resolves (the whole subtree is
      gone), the other entries keep their order, and the parent was modified
      at `now`. */
  lemma DeleteEffect(root: Node, dir: seq<string>, name: string, now: nat, rest: seq<string>)
    requires HasChild(root, dir, name)
    ensures var o := DeleteAt(root, dir, name, now);
            var parent := Resolve(root, dir).value;
      && Resolve(o.root, dir) == Some(parent.(children := Remove(parent.children, name), modified := now))
      && Resolve(o.root, dir + [name] + rest) == None
  {
    var parent := Resolve(root, dir).value;
    var parent' := parent.(children := Remove(parent.children, name), modified := now);
    ResolveReplaced(root, dir, parent');
    ResolveReplacedBelow(root, dir, parent', name, rest);
    RemoveLookup(parent.children, name, name);
  }

  /** A delete changes nothing outside the deleted entry and keeps a valid
      tree valid. */
  lemma DeleteFrame(root: Node, dir: seq<string>, name: string, now: nat)
    ensures var o := DeleteAt(root, dir, name, now);
            o.ok ==> OnlyChanged(root, o.root, dir, {name}) && (Valid(root) ==> Valid(o.root))
  {
    if HasChild(root, dir, name) {
      var parent := Resolve(root, dir).value;
      var parent' := parent.(children := Remove(parent.children, name), modified := now);
      forall k | k !in {name}
        ensures Lookup(parent'.children, k) == Lookup(parent.children, k)
      {
        RemoveLookup(parent.children, name, k);
      }
      ReplaceDirFrame(root, dir, parent', {name});
      if Valid(root) {
        ResolveValid(root, dir);
        RemoveUnique(parent.children, name);
        RemoveFrom(parent.children, name);
        forall i | 0 <= i < |parent'.children| ensures Valid(parent'.children[i].node) {
          assert parent'.children[i] in parent.children;
        }
        ReplaceAtValid(root, dir, parent');
      }
    }
  }

  /** The same, one path at a time: a path that neither leads to `dir` nor
      runs through `name` survives a delete. */
  lemma DeleteKeeps(root: Node, dir: seq<string>, name: string, now: nat, p: seq<string>)
    requires !(dir + [name] <= p) && !(p <= dir)
    ensures Resolve(DeleteAt(root, dir, name, now).root, p) == Resolve(root, p)
  {
    if HasChild(root, dir, name) {
      var parent := Resolve(root, dir).value;
      var parent' := parent.(children := Remove(parent.children, name), modified := now);
      forall j | j != name
        ensures Lookup(parent'.children, j) == Lookup(parent.children, j)
      {
        RemoveLookup(parent.children, name, j);
      }
      ReplaceDirKeeps(root, dir, parent', name, p);
    }
  }

  // ---------------------------------------------------------------------
  // writeFile
  // ---------------------------------------------------------------------

  /** After a write, reading returns the written text, `size` is its length,
      and the file was modified at `now`. */
  lemma WriteEffect(root: Node, path: seq<string>, content: string, now: nat)
    requires Resolve(root, path).Some? && Resolve(root, path).value.kind == File
    ensures var o := WriteFileAt(root, path, content, now);
      && ReadFileAt(o.root, path) == Some(content)
      && Resolve(o.root, path).value.size == |content|
      && Resolve(o.root, path).value.modified == now
  {
    var f := Resolve(root, path).value;
    ResolveReplaced(root, path, f.(content := content, size := |content|, modified := now));
  }

  /** A write creates no path and removes none, changes nothing but the
      file, and keeps a valid tree valid. */
  lemma WriteFrame(root: Node, path: seq<string>, content: string, now: nat, q: seq<string>)
    ensures var o := WriteFileAt(root, path, content, now);
      o.ok ==> && (Resolve(o.root, q).Some? <==> Resolve(root, q).Some?)
               && OnlyChanged(root, o.root, path, {})
               && (Valid(root) ==> Valid(o.root))
  {
    var o := WriteFileAt(root, path, content, now);
    if o.ok {
      var f := Resolve(root, path).value;
      var f' := f.(content := content, size := |content|, modified := now);
      ReplaceDirFrame(root, path, f', {});
      if path <= q {
        ResolveReplaceInside(root, path, f', q);
        ResolveAppend(root, path, q[|path|..]);
        assert path + q[|path|..] == q;
      } else if q < path {
        ResolveReplaceAbove(root, path, f', q);
      } else {
        ResolveReplaceBeside(root, path, f', q);
      }
      if Valid(root) {
        ResolveValid(root, path);
        ReplaceAtValid(root, path, f');
      }
    }
  }

  /** Writing twice in a row with the same text is the same as writing once
      at the later time. */
  lemma WriteTwice(root: Node, path: seq<string>, content: string, t1: nat, t2: nat)
    ensures WriteFileAt(WriteFileAt(root, path, content, t1).root, path, content, t2) ==
            WriteFileAt(root, path, content, t2)
  {
    var o := WriteFileAt(root, path, content, t1);
    if o.ok {
      var f := Resolve(root, path).value;
      var f1 := f.(content := content, size := |content|, modified := t1);
      var f2 := f.(content := content, size := |content|, modified := t2);
      ResolveReplaced(root, path, f1);
      assert f1.(content := content, size := |content|, modified := t2) == f2;
      ReplaceTwice(root, path, f1, f2);
    }
  }

  /** Replacing twice at the same path keeps only the second replacement. */
  lemma {:induction false} ReplaceTwice(n: Node, p: seq<string>, s1: Node, s2: Node)
    requires Resolve(n, p).Some?
    ensures ReplaceAt(ReplaceAt(n, p, s1), p, s2) == ReplaceAt(n, p, s2)
    decreases |p|
  {
    if p != [] {
      var c := Lookup(n.children, p[0]).value;
      var c1 := ReplaceAt(c, p[1..], s1);
      ReplaceAtStep(n, p, s1, p[0]);
      ReplaceTwice(c, p[1..], s1, s2);
      PutTwice(n.children, p[0], c1, ReplaceAt(c, p[1..], s2));
    }
  }

  lemma {:induction false} PutTwice(es: seq<Entry>, k: string, v1: Node, v2: Node)
    ensures Put(Put(es, k, v1), k, v2) == Put(es, k, v2)
  {
    if es != [] && es[0].key != k {
      PutTwice(es[1..], k, v1, v2);
      assert Put(es, k, v1)[1..] == Put(es[1..], k, v1);
    }
  }

  // ---------------------------------------------------------------------
  // renameNode
  // ---------------------------------------------------------------------

  /** After a rename the parent lists the same node, its `name` set to
      `newName`, at the end of the order under `newName`, in place of the
      entry under `oldName`. */
  lemma RenameEffect(root: Node, dir: seq<string>, oldName: string, newName: string, now: nat)
    requires HasChild(root, dir, oldName) && !HasChild(root, dir, newName)
    ensures var o := RenameAt(root, dir, oldName, newName, now);
            var parent := Resolve(root, dir).value;
            var node := Lookup(parent.children, oldName).value;
      Resolve(o.root, dir) == Some(parent.(children :=
        Remove(parent.children, oldName) + [Entry(newName, node.(name := newName))], modified := now))
  {
    var parent := Resolve(root, dir).value;
    var node := Lookup(parent.children, oldName).value;
    var node' := node.(name := newName);
    var mid := Put(parent.children, newName, node');
    var parent' := parent.(children := Remove(mid, oldName), modified := now);
    PutNew(parent.children, newName, node');
    RemoveAppend(parent.children, [Entry(newName, node')], oldName);
    assert Remove([Entry(newName, node')], oldName) == [Entry(newName, node')];
    ResolveReplaced(root, dir, parent');
  }

  /** After a rename the subtree answers to `newName`, with its own `name`
      updated and everything below it unchanged. */
  lemma RenameMoves(root: Node, dir: seq<string>, oldName: string, newName: string, now: nat, rest: seq<string>)
    requires HasChild(root, dir, oldName) && !HasChild(root, dir, newName)
    ensures var o := RenameAt(root, dir, oldName, newName, now);
            var node := Lookup(Resolve(root, dir).value.children, oldName).value;
      Resolve(o.root, dir + [newName] + rest) ==
      if rest == [] then Some(node.(name := newName)) else Resolve(root, dir + [oldName] + rest)
  {
    var parent := Resolve(root, dir).value;
    var node := Lookup(parent.children, oldName).value;
    var node' := node.(name := newName);
    var mid := Put(parent.children, newName, node');
    var parent' := parent.(children := Remove(mid, oldName), modified := now);
    ResolveReplacedBelow(root, dir, parent', newName, rest);
    RemoveLookup(mid, oldName, newName);
    PutLookup(parent.children, newName, node', newName);
    ResolveBelow(root, dir, oldName, rest);
    if rest != [] {
      assert Resolve(node', rest) == Resolve(node, rest);
    }
  }

  /** After a rename nothing resolves through `oldName` any more. */
  lemma RenameGone(root: Node, dir: seq<string>, oldName: string, newName: string, now: nat, rest: seq<string>)
    requires HasChild(root, dir, oldName) && !HasChild(root, dir, newName)
    ensures Resolve(RenameAt(root, dir, oldName, newName, now).root, dir + [oldName] + rest) == None
  {
    var parent := Resolve(root, dir).value;
    var node' := Lookup(parent.children, oldName).value.(name := newName);
    var mid := Put(parent.children, newName, node');
    var parent' := parent.(children := Remove(mid, oldName), modified := now);
    ResolveReplacedBelow(root, dir, parent', oldName, rest);
    RemoveLookup(mid, oldName, oldName);
  }

  /** A rename changes nothing outside the two names and keeps a valid tree
      valid. */
  lemma RenameFrame(root: Node, dir: seq<string>, oldName: string, newName: string, now: nat)
    ensures var o := RenameAt(root, dir, oldName, newName, now);
            o.ok ==> OnlyChanged(root, o.root, dir, {oldName, newName}) && (Valid(root) ==> Valid(o.root))
  {
    if HasChild(root, dir, oldName) && !HasChild(root, dir, newName) {
      var parent := Resolve(root, dir).value;
      var node := Lookup(parent.children, oldName).value;
      var node' := node.(name := newName);
      var mid := Put(parent.children, newName, node');
      var children := Remove(mid, oldName);
      var parent' := parent.(children := children, modified := now);
      forall k | k !in {oldName, newName}
        ensures Lookup(parent'.children, k) == Lookup(parent.children, k)
      {
        RemoveLookup(mid, oldName, k);
        PutLookup(parent.children, newName, node', k);
      }
      ReplaceDirFrame(root, dir, parent', {oldName, newName});
      if Valid(root) {
        ResolveValid(root, dir);
        PutUnique(parent.children, newName, node');
        RemoveUnique(mid, oldName);
        PutFrom(parent.children, newName, node');
        RemoveFrom(mid, oldName);
        LookupFound(parent.children, oldName);
        assert Entry(oldName, node) in parent.children;
        forall i | 0 <= i < |children| ensures Valid(children[i].node) {
          assert children[i] in mid;
        }
        ReplaceAtValid(root, dir, parent');
      }
    }
  }

  // ---------------------------------------------------------------------
  // copyNode
  // ---------------------------------------------------------------------

  /** A node with its id, name and timestamps blanked, recursively: what a
      deep copy must preserve. */
  function Shape(n: Node): Node
    decreases n
  {
    var kids := seq(|n.children|, i requires 0 <= i < |n.children| =>
                      Entry(n.children[i].key, Shape(n.children[i].node)));
    Node("", "", n.kind, n.content, kids, 0, 0, n.size)
  }

  /** Every node of `n` carries the given id, name and timestamps. */
  predicate Stamped(n: Node, id: string, name: string, now: nat)
    decreases n
  {
    n.id == id && n.name == name && n.created == now && n.modified == now &&
    forall i :: 0 <= i < |n.children| ==> Stamped(n.children[i].node, id, name, now)
  }

  /** The deep copy has the source's structure, kinds, keys, contents and
      sizes; every one of its nodes, not only the top one, is renamed to
      `name` and carries the same id and the copy time; and a valid source
      gives a valid copy. */
  lemma {:induction false} DeepCopySpec(n: Node, id: string, name: string, now: nat)
    ensures Shape(DeepCopy(n, id, name, now)) == Shape(n)
    ensures Stamped(DeepCopy(n, id, name, now), id, name, now)
    ensures Keys(DeepCopy(n, id, name, now).children) == Keys(n.children)
    ensures Valid(n) ==> Valid(DeepCopy(n, id, name, now))
    decreases n
  {
    var c := DeepCopy(n, id, name, now);
    forall i | 0 <= i < |n.children|
      ensures Shape(c.children[i].node) == Shape(n.children[i].node)
      ensures Stamped(c.children[i].node, id, name, now)
      ensures Valid(n.children[i].node) ==> Valid(c.children[i].node)
    {
      DeepCopySpec(n.children[i].node, id, name, now);
    }
    assert Shape(c).children == Shape(n).children;
    KeysValuesAt(c.children);
    KeysValuesAt(n.children);
    assert Keys(c.children) == Keys(n.children);
  }

  /** After a copy the deep copy of the source as it was sits under `name`,
      replacing an existing entry in its place or else appended at the end,
      and the destination was modified at `now`. */
  lemma CopyEffect(root: Node, src: seq<string>, dest: seq<string>, name: string, now: nat)
    requires Resolve(root, src).Some? && IsDirAt(root, dest)
    ensures var o := CopyAt(root, src, dest, name, now);
            var d := Resolve(root, dest).value;
            var copy := DeepCopy(Resolve(root, src).value, CopyId(d.id, name, now), name, now);
      && Resolve(o.root, dest + [name]) == Some(copy)
      && Resolve(o.root, dest).Some? && Resolve(o.root, dest).value.modified == now
      && Keys(Resolve(o.root, dest).value.children) ==
         (if name in Keys(d.children) then Keys(d.children) else Keys(d.children) + [name])
  {
    var d := Resolve(root, dest).value;
    var copy := DeepCopy(Resolve(root, src).value, CopyId(d.id, name, now), name, now);
    SetChildEffect(root, dest, name, copy, now, []);
    assert dest + [name] + [] == dest + [name];
  }

  /** A copy changes nothing outside the destination entry and keeps a valid
      tree valid. */
  lemma CopyFrame(root: Node, src: seq<string>, dest: seq<string>, name: string, now: nat)
    ensures var o := CopyAt(root, src, dest, name, now);
            o.ok ==> OnlyChanged(root, o.root, dest, {name}) && (Valid(root) ==> Valid(o.root))
  {
    if Resolve(root, src).Some? && IsDirAt(root, dest) {
      var s := Resolve(root, src).value;
      var d := Resolve(root, dest).value;
      var copy := DeepCopy(s, CopyId(d.id, name, now), name, now);
      SetChildFrame(root, dest, name, copy, now);
      if Valid(root) {
        ResolveValid(root, src);
        DeepCopySpec(s, CopyId(d.id, name, now), name, now);
        SetChildValid(root, dest, name, copy, now);
      }
    }
  }

  // ---------------------------------------------------------------------
  // moveNode
  // ---------------------------------------------------------------------

  /** `moveNode` reports failure and leaves the tree alone when the copy
      fails; a copy of a source without segments (the root) stays in place
      although failure is reported; otherwise the result is that of deleting
      the last source segment from the given parent, after the copy. */
  lemma MoveSpec(root: Node, src: seq<string>, srcParent: seq<string>, dest: seq<string>, name: string, now: nat)
    ensures var o := MoveAt(root, src, srcParent, dest, name, now);
            var c := CopyAt(root, src, dest, name, now);
      && (!c.ok ==> o == Outcome(false, root))
      && (c.ok && src == [] ==>
            !o.ok && Resolve(o.root, dest + [name]) ==
                     Some(DeepCopy(root, CopyId(Resolve(root, dest).value.id, name, now), name, now)))
      && (c.ok && src != [] ==> o == DeleteAt(c.root, srcParent, src[|src| - 1], now))
  {
    if CopyAt(root, src, dest, name, now).ok && src == [] {
      CopyEffect(root, src, dest, name, now);
    }
  }

  /** A proper move, where neither the destination entry nor the source lies
      inside the other, in a valid tree: the copy appears at the destination
      and the source path no longer resolves. */
  lemma MoveDisjoint(root: Node, parent: seq<string>, last: string, dest: seq<string>, name: string, now: nat)
    requires Valid(root)
    requires Resolve(root, parent + [last]).Some? && IsDirAt(root, dest)
    requires !(dest + [name] <= parent + [last]) && !(parent + [last] <= dest + [name])
    ensures var o := MoveAt(root, parent + [last], parent, dest, name, now);
            var d := Resolve(root, dest).value;
      && o.ok
      && Resolve(o.root, dest + [name]) ==
         Some(DeepCopy(Resolve(root, parent + [last]).value, CopyId(d.id, name, now), name, now))
      && Resolve(o.root, parent + [last]) == None
  {
    var src := parent + [last];
    var q := dest + [name];
    assert src[|src| - 1] == last;
    var d := Resolve(root, dest).value;
    var copy := DeepCopy(Resolve(root, src).value, CopyId(d.id, name, now), name, now);
    var c := CopyAt(root, src, dest, name, now);
    CopyEffect(root, src, dest, name, now);
    // The source survives the copy ...
    assert !(src <= dest);
    SetChildKeeps(root, dest, name, copy, now, src);
    // ... so its parent is still a directory holding `last`.
    ResolveAppend(c.root, parent, [last]);
    CopyFrame(root, src, dest, name, now);
    ResolveValid(c.root, parent);
    assert HasChild(c.root, parent, last);
    DeleteEffect(c.root, parent, last, now, []);
    assert parent + [last] + [] == src;
    // The copy survives the delete.
    assert !(q <= parent);
    DeleteKeeps(c.root, parent, last, now, q);
  }

  /** Moving a node onto its own parent under its own name deletes it: the
      copy overwrites the node and the delete then removes the copy. */
  lemma MoveOntoItself(root: Node, parent: seq<string>, name: string, now: nat, rest: seq<string>)
    requires Resolve(root, parent + [name]).Some? && IsDirAt(root, parent)
    ensures var o := MoveAt(root, parent + [name], parent, parent, name, now);
            o.ok && Resolve(o.root, parent + [name] + rest) == None
  {
    var src := parent + [name];
    assert src[|src| - 1] == name;
    var d := Resolve(root, parent).value;
    var copy := DeepCopy(Resolve(root, src).value, CopyId(d.id, name, now), name, now);
    var c := CopyAt(root, src, parent, name, now);
    SetChildEffect(root, parent, name, copy, now, []);
    PutKeys(d.children, name, copy);
    assert HasChild(c.root, parent, name);
    DeleteEffect(c.root, parent, name, now, rest);
  }

  // ---------------------------------------------------------------------
  // The tree a new session starts with
  // ---------------------------------------------------------------------

  const WelcomeText: string :=
    "Welcome to WebOS!\n\nThis is a fully functional Linux-like desktop environment running in your browser.\n\nTry opening the terminal and running commands like:\n- ls\n- pwd\n- cat welcome.txt\n- mkdir test\n\nEverything persists between sessions!"

  function EmptyDir(id: string, name: string, now: nat): Node {
    Node(id, name, Directory, "", [], now, now, 0)
  }

  /** `createInitialFileSystem`: `/home/user` with `Documents/welcome.txt`
      and the empty `Downloads` and `Pictures`. */
  function InitialTree(now: nat): Node {
    var welcome := Node("welcome-txt", "welcome.txt", File, WelcomeText, [], now, now, 200);
    var documents := EmptyDir("documents", "Documents", now).(children := [Entry("welcome.txt", welcome)]);
    var user := EmptyDir("user", "user", now).(children := [
      Entry("Documents", documents),
      Entry("Downloads", EmptyDir("downloads", "Downloads", now)),
      Entry("Pictures", EmptyDir("pictures", "Pictures", now))]);
    var home := EmptyDir("home", "home", now).(children := [Entry("user", user)]);
    EmptyDir("root", "/", now).(children := [Entry("home", home)])
  }

  /** The initial tree is valid, and `/home/user` is a directory holding
      `Documents`, `Downloads` and `Pictures` in that order. */
  lemma InitialTreeSpec(now: nat)
    ensures Valid(InitialTree(now))
    ensures IsDirAt(InitialTree(now), ["home", "user"])
    ensures Keys(Resolve(InitialTree(now), ["home", "user"]).value.children) == ["Documents", "Downloads", "Pictures"]
  {
    InitialTreeValid(now);
    UserDirectory(now);
    KeysValuesAt(Resolve(InitialTree(now), ["home", "user"]).value.children);
  }

  lemma InitialTreeValid(now: nat)
    ensures Valid(InitialTree(now))
  {
    var t := InitialTree(now);
    var home := t.children[0].node;
    var user := home.children[0].node;
    var docs := user.children[0].node;
    assert Valid(docs.children[0].node);
    assert Valid(docs);
    assert Valid(user.children[1].node) && Valid(user.children[2].node);
    assert Valid(user);
    assert Valid(home);
  }

  lemma UserDirectory(now: nat)
    ensures Resolve(InitialTree(now), ["home", "user"]) == Some(InitialTree(now).children[0].node.children[0].node)
  {
    var t := InitialTree(now);
    assert Resolve(t, ["home"]) == Some(t.children[0].node) by {
      assert ["home"][1..] == [];
    }
    assert ["home", "user"][1..] == ["user"];
    assert ["user"][1..] == [];
  }

  /** The seeded `welcome.txt` reads back as the welcome text, yet records a
      size of 200 although that text is 235 characters long. */
  lemma InitialWelcome(now: nat)
    ensures ReadFileAt(InitialTree(now), ["home", "user", "Documents", "welcome.txt"]) == Some(WelcomeText)
    ensures Resolve(InitialTree(now), ["home", "user", "Documents", "welcome.txt"]).value.size == 200
    ensures |WelcomeText| == 235
  {
    var t := InitialTree(now);
    var docs := t.children[0].node.children[0].node.children[0].node;
    UserDirectory(now);
    ResolveBelow(t, ["home", "user"], "Documents", ["welcome.txt"]);
    assert ["home", "user"] + ["Documents"] + ["welcome.txt"] == ["home", "user", "Documents", "welcome.txt"];
    assert Resolve(docs, ["welcome.txt"]) == Some(docs.children[0].node) by {
      assert ["welcome.txt"][1..] == [];
    }
  }

  /** `Downloads` starts empty. */
  lemma InitialDownloads(now: nat)
    ensures ListDirectoryAt(InitialTree(now), ["home", "user", "Downloads"]) == Some([])
  {
    UserDirectory(now);
    ResolveBelow(InitialTree(now), ["home", "user"], "Downloads", []);
    assert ["home", "user"] + ["Downloads"] + [] == ["home", "user", "Downloads"];
  }
}
