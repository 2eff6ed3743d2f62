/** The path-string helpers of the virtual file system: splitting a path into
    its segments, joining, taking the parent and the last segment. None of
    them looks at the tree. */
module Paths {
  import opened Text

  const Slash: set<char> := {'/'}

  /** A path segment: what survives `split('/').filter(Boolean)`. */
  predicate IsSegment(s: string) {
    s != "" && Free(s, Slash)
  }

  /** `path.split('/').filter(Boolean)`: leading, trailing and repeated
      slashes contribute nothing. */
  function GetPathParts(path: string): seq<string> {
    NonEmpty(Split(path, Slash))
  }

  /** Every part is a segment. */
  lemma PartsAreSegments(path: string)
    ensures forall i :: 0 <= i < |GetPathParts(path)| ==> IsSegment(GetPathParts(path)[i])
  {
    var pieces := Split(path, Slash);
    SplitPieces(path, Slash);
    NonEmptySpec(pieces);
    var r := NonEmpty(pieces);
    assert forall i :: 0 <= i < |r| ==> r[i] in pieces;
  }

  /** `joinPath(...parts)`: the non-empty arguments joined by `/` behind one
      leading `/`, whether or not the first argument already starts with one. */
  function JoinPath(parts: seq<string>): (r: string)
    ensures r != "" && r[0] == '/'
  {
    var filtered := NonEmpty(parts);
    if filtered == [] then "/" else "/" + Join(filtered, "/")
  }

  /** `getParentPath(path)`: root for root, otherwise the path rebuilt from all
      segments but the last. */
  function GetParentPath(path: string): (r: string)
    ensures r != "" && r[0] == '/'
  {
    if path == "/" || path == "" then "/"
    else
      var parts := GetPathParts(path);
      var kept := if parts == [] then [] else parts[..|parts| - 1];
      if kept == [] then "/" else "/" + Join(kept, "/")
  }

  /** `getFileName(path)`: the last segment, or `/` when there is none. */
  function GetFileName(path: string): (r: string)
    ensures r != ""
  {
    var parts := GetPathParts(path);
    PartsAreSegments(path);
    if parts == [] then "/" else parts[|parts| - 1]
  }

  /** Everything but the last segment (nothing for no segments). */
  function DropLast(parts: seq<string>): seq<string> {
    if parts == [] then [] else parts[..|parts| - 1]
  }

  /** A single segment is its own, only, part. */
  lemma PartsOfSegment(s: string)
    requires IsSegment(s)
    ensures GetPathParts(s) == [s]
  {
    SplitFree(s, Slash);
  }

  lemma PartsOfRoot()
    ensures GetPathParts("/") == [] && GetPathParts("") == []
  {
    assert "/" == "" + ['/'] + "";
    SplitAppend("", '/', "", Slash);
    NonEmptyAllEmpty(Split("", Slash));
    NonEmptyAllEmpty(Split("/", Slash));
  }

  /** A slash between two strings separates their segments: slashes are never
      part of a segment, so repeated slashes are harmless. */
  lemma PartsOfConcat(a: string, b: string)
    ensures GetPathParts(a + "/" + b) == GetPathParts(a) + GetPathParts(b)
  {
    assert a + "/" + b == a + ['/'] + b;
    SplitAppend(a, '/', b, Slash);
    NonEmptyAppend(Split(a, Slash), Split(b, Slash));
  }

  /** A leading slash changes nothing. */
  lemma PartsOfAbsolute(a: string)
    ensures GetPathParts("/" + a) == GetPathParts(a)
  {
    PartsOfConcat("", a);
    assert "" + "/" + a == "/" + a;
    assert GetPathParts("") == [] by { PartsOfRoot(); }
  }

  /** Rebuilding a path from segments and splitting it again gives the same
      segments. */
  lemma PartsOfRebuilt(parts: seq<string>)
    requires |parts| >= 1
    requires forall i :: 0 <= i < |parts| ==> IsSegment(parts[i])
    ensures GetPathParts("/" + Join(parts, "/")) == parts
  {
    PartsOfAbsolute(Join(parts, "/"));
    SplitJoin(parts, '/', Slash);
    NonEmptyKeeps(parts);
  }

  /** The segments of `joinPath(a, b)` are those of `a` followed by those of `b`. */
  lemma PartsOfJoinPath(a: string, b: string)
    ensures GetPathParts(JoinPath([a, b])) == GetPathParts(a) + GetPathParts(b)
  {
    PartsOfRoot();
    assert [a, b] == [a] + [b];
    NonEmptyAppend([a], [b]);
    if a == "" && b == "" {
    } else if a == "" {
      assert NonEmpty([a, b]) == [b];
      PartsOfAbsolute(b);
    } else if b == "" {
      assert NonEmpty([a, b]) == [a];
      PartsOfAbsolute(a);
    } else {
      assert NonEmpty([a, b]) == [a, b];
      assert Join([a, b], "/") == a + "/" + b;
      PartsOfAbsolute(a + "/" + b);
      PartsOfConcat(a, b);
    }
  }

  /** `joinPath` prefixes a slash to an absolute first argument too, so joining
      onto `/home/user` yields a path that starts with two slashes. */
  lemma JoinPathDoubleSlash()
    ensures JoinPath(["/home/user", "test"]) == "//home/user/test"
  {
    assert NonEmpty(["/home/user", "test"]) == ["/home/user", "test"];
  }

  /** The parent path names exactly the segments of `path` but the last. */
  lemma PartsOfParent(path: string)
    ensures GetPathParts(GetParentPath(path)) == DropLast(GetPathParts(path))
  {
    PartsOfRoot();
    if path != "/" && path != "" {
      var parts := GetPathParts(path);
      if parts != [] && |parts| > 1 {
        PartsAreSegments(path);
        PartsOfRebuilt(parts[..|parts| - 1]);
      }
    }
  }

  /** The file name is the last segment. */
  lemma FileNameIsLast(path: string)
    ensures GetPathParts(path) != [] ==> GetFileName(path) == GetPathParts(path)[|GetPathParts(path)| - 1]
    ensures GetPathParts(path) == [] <==> GetFileName(path) == "/"
  {
    PartsAreSegments(path);
  }

  /** Going to a child and then to the parent names the starting directory
      again (as segments; the string may differ, e.g. in leading slashes). */
  lemma {:induction false} ParentOfJoin(dir: string, name: string)
    requires IsSegment(name)
    ensures GetPathParts(GetParentPath(JoinPath([dir, name]))) == GetPathParts(dir)
  {
    PartsOfParent(JoinPath([dir, name]));
    PartsOfJoinPath(dir, name);
    PartsOfSegment(name);
    assert (GetPathParts(dir) + [name])[..|GetPathParts(dir)|] == GetPathParts(dir);
  }

  /** The parent of a path whose segments are `home`, `user`, `test` is
      `/home/user`, however many slashes the path has. */
  lemma ParentOfHomeUserTest(p: string)
    requires GetPathParts(p) == ["home", "user", "test"]
    ensures GetParentPath(p) == "/home/user"
  {
    PartsOfRoot();
    assert ["home", "user", "test"][..2] == ["home", "user"];
    assert Join(["home", "user"], "/") == "home/user";
  }

  /** As text, the parent of `joinPath(dir, name)` is `dir` rebuilt with
      single slashes, so a doubled leading slash from `joinPath` disappears
      again (the parent of `//home/user/test` is `/home/user`). */
  lemma ParentOfJoinText(dir: string, name: string)
    requires IsSegment(name) && GetPathParts(dir) != []
    ensures GetParentPath(JoinPath([dir, name])) == "/" + Join(GetPathParts(dir), "/")
  {
    var p := JoinPath([dir, name]);
    PartsOfJoinPath(dir, name);
    PartsOfSegment(name);
    PartsOfRoot();
    var parts := GetPathParts(dir) + [name];
    assert GetPathParts(p) == parts;
    assert parts[..|parts| - 1] == GetPathParts(dir);
  }
}
