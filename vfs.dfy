/** The `FileSystem` object: one tree, held in a field and replaced by each
    operation that changes it. The clock reading an operation takes is its
    `now` parameter. */
module Vfs {
  import opened Text
  import opened Paths
  import opened Tree
  import opened FileOps

  class FileSystem {
    var root: Node

    /** A saved tree is adopted as it is; without one the session starts
        from the seeded home directory. */
    constructor(savedRoot: Option<Node>, now: nat)
      ensures root == (if savedRoot.Some? then savedRoot.value else InitialTree(now))
      ensures savedRoot.None? ==> Valid(root)
    {
      if savedRoot.Some? {
        root := savedRoot.value;
      } else {
        root := InitialTree(now);
        InitialTreeSpec(now);
      }
    }

    /** `resolvePath(path)`: `/` and the empty path name the root; otherwise
        walk one child per segment and give up at the first missing one. */
    method ResolvePath(path: string) returns (r: Option<Node>)
      ensures r == Resolve(root, GetPathParts(path))
      ensures path == "/" || path == "" ==> r == Some(root)
    {
      if path == "/" || path == "" {
        PartsOfRoot();
        return Some(root);
      }
      var parts := GetPathParts(path);
      var current := root;
      var i := 0;
      while i < |parts|
        invariant 0 <= i <= |parts|
        invariant Resolve(root, parts) == Resolve(current, parts[i..])
      {
        assert parts[i..][1..] == parts[i + 1..];
        var next := Lookup(current.children, parts[i]);
        if next.None? {
          return None;
        }
        current := next.value;
        i := i + 1;
      }
      assert parts[i..] == [];
      return Some(current);
    }

    /** `createFile(path, name, content)`. */
    method CreateFile(path: string, name: string, content: string, now: nat) returns (ok: bool)
      modifies this
      ensures ok == CreateFileAt(old(root), GetPathParts(path), name, content, now).ok
      ensures root == CreateFileAt(old(root), GetPathParts(path), name, content, now).root
      ensures Valid(old(root)) ==> Valid(root)
    {
      CreateFrame(root, GetPathParts(path), name, content, now);
      var parent := ResolvePath(path);
      if parent.None? || parent.value.kind != Directory {
        return false;
      }
      if name in Keys(parent.value.children) {
        return false;
      }
      root := SetChild(root, GetPathParts(path), name, NewFile(parent.value.id, name, content, now), now);
      return true;
    }

    /** `createDirectory(path, name)`. */
    method CreateDirectory(path: string, name: string, now: nat) returns (ok: bool)
      modifies this
      ensures ok == CreateDirectoryAt(old(root), GetPathParts(path), name, now).ok
      ensures root == CreateDirectoryAt(old(root), GetPathParts(path), name, now).root
      ensures Valid(old(root)) ==> Valid(root)
    {
      CreateFrame(root, GetPathParts(path), name, "", now);
      var parent := ResolvePath(path);
      if parent.None? || parent.value.kind != Directory {
        return false;
      }
      if name in Keys(parent.value.children) {
        return false;
      }
      root := SetChild(root, GetPathParts(path), name, NewDirectory(parent.value.id, name, now), now);
      return true;
    }

    /** `deleteNode(path, name)`. */
    method DeleteNode(path: string, name: string, now: nat) returns (ok: bool)
      modifies this
      ensures ok == DeleteAt(old(root), GetPathParts(path), name, now).ok
      ensures root == DeleteAt(old(root), GetPathParts(path), name, now).root
      ensures Valid(old(root)) ==> Valid(root)
    {
      DeleteFrame(root, GetPathParts(path), name, now);
      var parent := ResolvePath(path);
      if parent.None? || parent.value.kind != Directory {
        return false;
      }
      if name !in Keys(parent.value.children) {
        return false;
      }
      var p := parent.value;
      root := ReplaceAt(root, GetPathParts(path), p.(children := Remove(p.children, name), modified := now));
      return true;
    }

    /** `writeFile(path, content)`. */
    method WriteFile(path: string, content: string, now: nat) returns (ok: bool)
      modifies this
      ensures ok == WriteFileAt(old(root), GetPathParts(path), content, now).ok
      ensures root == WriteFileAt(old(root), GetPathParts(path), content, now).root
      ensures Valid(old(root)) ==> Valid(root)
    {
      WriteFrame(root, GetPathParts(path), content, now, []);
      var file := ResolvePath(path);
      if file.None? || file.value.kind != File {
        return false;
      }
      var f := file.value;
      root := ReplaceAt(root, GetPathParts(path), f.(content := content, size := |content|, modified := now));
      return true;
    }

    /** `readFile(path)`: the content of a file, `None` for anything else. */
    method ReadFile(path: string) returns (r: Option<string>)
      ensures r == ReadFileAt(root, GetPathParts(path))
    {
      var file := ResolvePath(path);
      if file.None? || file.value.kind != File {
        return None;
      }
      return Some(file.value.content);
    }

    /** `listDirectory(path)`: the children of a directory in insertion
        order, `None` for anything else. */
    method ListDirectory(path: string) returns (r: Option<seq<Node>>)
      ensures r == ListDirectoryAt(root, GetPathParts(path))
    {
      var dir := ResolvePath(path);
      if dir.None? || dir.value.kind != Directory {
        return None;
      }
      return Some(Values(dir.value.children));
    }

    /** `renameNode(path, oldName, newName)`. */
    method RenameNode(path: string, oldName: string, newName: string, now: nat) returns (ok: bool)
      modifies this
      ensures ok == RenameAt(old(root), GetPathParts(path), oldName, newName, now).ok
      ensures root == RenameAt(old(root), GetPathParts(path), oldName, newName, now).root
      ensures Valid(old(root)) ==> Valid(root)
    {
      RenameFrame(root, GetPathParts(path), oldName, newName, now);
      var parent := ResolvePath(path);
      if parent.None? || parent.value.kind != Directory {
        return false;
      }
      var p := parent.value;
      if oldName !in Keys(p.children) || newName in Keys(p.children) {
        return false;
      }
      var node := Lookup(p.children, oldName).value.(name := newName);
      var children := Remove(Put(p.children, newName, node), oldName);
      root := ReplaceAt(root, GetPathParts(path), p.(children := children, modified := now));
      return true;
    }

    /** `copyNode(sourcePath, destPath, name)`. */
    method CopyNode(sourcePath: string, destPath: string, name: string, now: nat) returns (ok: bool)
      modifies this
      ensures ok == CopyAt(old(root), GetPathParts(sourcePath), GetPathParts(destPath), name, now).ok
      ensures root == CopyAt(old(root), GetPathParts(sourcePath), GetPathParts(destPath), name, now).root
      ensures Valid(old(root)) ==> Valid(root)
    {
      CopyFrame(root, GetPathParts(sourcePath), GetPathParts(destPath), name, now);
      var source := ResolvePath(sourcePath);
      var dest := ResolvePath(destPath);
      if source.None? || dest.None? || dest.value.kind != Directory {
        return false;
      }
      var copy := DeepCopy(source.value, CopyId(dest.value.id, name, now), name, now);
      root := SetChild(root, GetPathParts(destPath), name, copy, now);
      return true;
    }

    /** `moveNode(sourcePath, sourceParentPath, destPath, name)`: a copy
        followed by a delete of the source's last segment. */
    method MoveNode(sourcePath: string, sourceParentPath: string, destPath: string, name: string, now: nat)
      returns (ok: bool)
      modifies this
      ensures ok == MoveAt(old(root), GetPathParts(sourcePath), GetPathParts(sourceParentPath),
                           GetPathParts(destPath), name, now).ok
      ensures root == MoveAt(old(root), GetPathParts(sourcePath), GetPathParts(sourceParentPath),
                             GetPathParts(destPath), name, now).root
      ensures Valid(old(root)) ==> Valid(root)
    {
      ghost var before := root;
      var copied := CopyNode(sourcePath, destPath, name, now);
      ghost var copy := CopyAt(before, GetPathParts(sourcePath), GetPathParts(destPath), name, now);
      if copied {
        var parts := GetPathParts(sourcePath);
        if parts != [] {
          var oldName := parts[|parts| - 1];
          ok := DeleteNode(sourceParentPath, oldName, now);
          assert root == DeleteAt(copy.root, GetPathParts(sourceParentPath), oldName, now).root;
          return;
        }
      }
      return false;
    }
  }
}
