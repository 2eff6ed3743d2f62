/** The virtual file tree as a value: nodes, the insertion-ordered children
    record of a directory, path resolution, and the rebuild of the path from
    the root down to a node that replaced one subtree (the value-level
    counterpart of mutating that node in place). */
module Tree {
  import opened Text

  datatype Kind = File | Directory

  /** A file or directory. An absent `content` is the empty string and an
      absent `children` record is the empty list; a file has no children. */
  datatype Node = Node(id: string, name: string, kind: Kind, content: string,
                       children: seq<Entry>, created: nat, modified: nat, size: int)

  /** One key of a children record with the node stored under it. The key is
      what paths use; it need not equal the node's own `name`. */
  datatype Entry = Entry(key: string, node: Node)

  /** The keys of a children record, in insertion order. */
  function Keys(es: seq<Entry>): (r: seq<string>)
    ensures |r| == |es|
  {
    if es == [] then [] else [es[0].key] + Keys(es[1..])
  }

  /** The nodes of a children record, in insertion order (`Object.values`). */
  function Values(es: seq<Entry>): (r: seq<Node>)
    ensures |r| == |es|
  {
    if es == [] then [] else [es[0].node] + Values(es[1..])
  }

  /** `children[k]`: the node under key `k`, if any. Only the directory's
      own entries are searched, not the names every object inherits. */
  function Lookup(es: seq<Entry>, k: string): (r: Option<Node>)
    ensures r.None? <==> k !in Keys(es)
  {
    if es == [] then None
    else if es[0].key == k then Some(es[0].node)
    else Lookup(es[1..], k)
  }

  /** `children[k] = v`: an existing key keeps its place in the insertion
      order, a new key goes to the end. */
  function Put(es: seq<Entry>, k: string, v: Node): (r: seq<Entry>)
  {
    if es == [] then [Entry(k, v)]
    else if es[0].key == k then [Entry(k, v)] + es[1..]
    else [es[0]] + Put(es[1..], k, v)
  }

  /** `delete children[k]`. */
  function Remove(es: seq<Entry>, k: string): (r: seq<Entry>)
  {
    if es == [] then []
    else if es[0].key == k then Remove(es[1..], k)
    else [es[0]] + Remove(es[1..], k)
  }

  /** The keys and the nodes line up with the entries. */
  lemma {:induction false} KeysValuesAt(es: seq<Entry>)
    ensures forall i :: 0 <= i < |es| ==> Keys(es)[i] == es[i].key && Values(es)[i] == es[i].node
  {
    if es != [] {
      KeysValuesAt(es[1..]);
    }
  }

  /** Every entry after `children[k] = v` was there before or is the new one. */
  lemma {:induction false} PutFrom(es: seq<Entry>, k: string, v: Node)
    ensures forall e :: e in Put(es, k, v) ==> e in es || e == Entry(k, v)
  {
    if es != [] && es[0].key != k {
      PutFrom(es[1..], k, v);
    }
  }

  /** Every entry after `delete children[k]` was there before, under another key. */
  lemma {:induction false} RemoveFrom(es: seq<Entry>, k: string)
    ensures forall e :: e in Remove(es, k) ==> e in es && e.key != k
  {
    if es != [] {
      RemoveFrom(es[1..], k);
    }
  }

  /** A key that is found comes from an entry holding that node. */
  lemma {:induction false} LookupFound(es: seq<Entry>, k: string)
    ensures Lookup(es, k).Some? ==> Entry(k, Lookup(es, k).value) in es
  {
    if es != [] && es[0].key != k {
      LookupFound(es[1..], k);
    }
  }

  lemma KeysCons(e: Entry, es: seq<Entry>)
    ensures Keys([e] + es) == [e.key] + Keys(es)
  {
    assert ([e] + es)[1..] == es;
  }

  lemma LookupCons(e: Entry, es: seq<Entry>, j: string)
    ensures Lookup([e] + es, j) == if e.key == j then Some(e.node) else Lookup(es, j)
  {
    assert ([e] + es)[1..] == es;
  }

  /** After `children[k] = v`, key `k` holds `v` and every other key holds
      what it held before. */
  lemma {:induction false} PutLookup(es: seq<Entry>, k: string, v: Node, j: string)
    ensures Lookup(Put(es, k, v), j) == if j == k then Some(v) else Lookup(es, j)
  {
    if es == [] {
    } else if es[0].key == k {
      LookupCons(Entry(k, v), es[1..], j);
    } else {
      LookupCons(es[0], Put(es[1..], k, v), j);
      PutLookup(es[1..], k, v, j);
    }
  }

  /** `children[k] = v` keeps the key order, appending `k` only when new. */
  lemma {:induction false} PutKeys(es: seq<Entry>, k: string, v: Node)
    ensures Keys(Put(es, k, v)) == if k in Keys(es) then Keys(es) else Keys(es) + [k]
  {
    if es == [] {
    } else if es[0].key == k {
      KeysCons(Entry(k, v), es[1..]);
      KeysCons(es[0], es[1..]);
      assert es == [es[0]] + es[1..];
    } else {
      KeysCons(es[0], Put(es[1..], k, v));
      PutKeys(es[1..], k, v);
      assert es == [es[0]] + es[1..];
      KeysCons(es[0], es[1..]);
    }
  }

  /** After `delete children[k]`, `k` is absent and every other key holds
      what it held before. */
  lemma {:induction false} RemoveLookup(es: seq<Entry>, k: string, j: string)
    ensures Lookup(Remove(es, k), j) == if j == k then None else Lookup(es, j)
  {
    if es == [] {
    } else if es[0].key == k {
      RemoveLookup(es[1..], k, j);
    } else {
      LookupCons(es[0], Remove(es[1..], k), j);
      RemoveLookup(es[1..], k, j);
    }
  }

  /** Assigning a new key appends one entry. */
  lemma {:induction false} PutNew(es: seq<Entry>, k: string, v: Node)
    requires k !in Keys(es)
    ensures Put(es, k, v) == es + [Entry(k, v)]
  {
    if es != [] {
      PutNew(es[1..], k, v);
      assert es == [es[0]] + es[1..];
    }
  }

  /** Deleting an absent key changes nothing. */
  lemma {:induction false} RemoveAbsent(es: seq<Entry>, k: string)
    requires k !in Keys(es)
    ensures Remove(es, k) == es
  {
    if es != [] {
      RemoveAbsent(es[1..], k);
      assert es == [es[0]] + es[1..];
    }
  }

  /** Deletion distributes over the concatenation of two records. */
  lemma {:induction false} RemoveAppend(a: seq<Entry>, b: seq<Entry>, k: string)
    ensures Remove(a + b, k) == Remove(a, k) + Remove(b, k)
  {
    if a == [] {
      assert a + b == b;
    } else {
      assert (a + b)[1..] == a[1..] + b;
      RemoveAppend(a[1..], b, k);
    }
  }

  predicate UniqueKeys(es: seq<Entry>) {
    forall i, j :: 0 <= i < j < |es| ==> es[i].key != es[j].key
  }

  /** The shape every tree built by the file system keeps: the keys of each
      children record are distinct and files have no children. */
  predicate Valid(n: Node) {
    UniqueKeys(n.children) &&
    (n.kind == File ==> n.children == []) &&
    forall i :: 0 <= i < |n.children| ==> Valid(n.children[i].node)
  }

  lemma PutUnique(es: seq<Entry>, k: string, v: Node)
    requires UniqueKeys(es)
    ensures UniqueKeys(Put(es, k, v))
  {
    var r := Put(es, k, v);
    PutKeys(es, k, v);
    var ks := Keys(r);
    KeysValuesAt(r);
    KeysValuesAt(es);
    assert forall i :: 0 <= i < |r| ==> r[i].key == ks[i];
    assert forall i, j :: 0 <= i < j < |es| ==> Keys(es)[i] != Keys(es)[j];
  }

  lemma {:induction false} RemoveUnique(es: seq<Entry>, k: string)
    requires UniqueKeys(es)
    ensures UniqueKeys(Remove(es, k))
  {
    if es != [] {
      RemoveUnique(es[1..], k);
      var rest := Remove(es[1..], k);
      KeysValuesAt(es[1..]);
      RemoveFrom(es[1..], k);
      if es[0].key != k {
        assert es[0].key !in Keys(es[1..]);
        forall e | e in rest ensures e.key != es[0].key {
          assert e in es[1..];
        }
      }
    }
  }

  /** `resolvePath` over the segments of a path: walk one key per segment and
      fail as soon as a key is missing. */
  function Resolve(n: Node, parts: seq<string>): Option<Node>
    decreases |parts|
  {
    if parts == [] then Some(n)
    else match Lookup(n.children, parts[0])
      case None => None
      case Some(c) => Resolve(c, parts[1..])
  }

  /** The tree in which the node at `parts` has been replaced by `s`, every
      directory on the way keeping its place under its own key. A path that
      does not resolve leaves the tree unchanged. */
  function ReplaceAt(n: Node, parts: seq<string>, s: Node): Node
    decreases |parts|
  {
    if parts == [] then s
    else match Lookup(n.children, parts[0])
      case None => n
      case Some(c) => n.(children := Put(n.children, parts[0], ReplaceAt(c, parts[1..], s)))
  }

  /** A node with its children record emptied: everything a node holds itself. */
  function Stat(n: Node): Node {
    n.(children := [])
  }

  /** Resolving a concatenated path resolves the first part, then the rest
      from there. */
  lemma {:induction false} ResolveAppend(n: Node, p: seq<string>, q: seq<string>)
    ensures Resolve(n, p + q) == match Resolve(n, p)
                                 case None => None
                                 case Some(m) => Resolve(m, q)
    decreases |p|
  {
    if p == [] {
      assert p + q == q;
    } else {
      assert (p + q)[0] == p[0];
      assert (p + q)[1..] == p[1..] + q;
      match Lookup(n.children, p[0])
      case None =>
      case Some(c) => ResolveAppend(c, p[1..], q);
    }
  }

  /** Every resolvable node of a valid tree is itself valid. */
  lemma {:induction false} ResolveValid(n: Node, p: seq<string>)
    requires Valid(n)
    requires Resolve(n, p).Some?
    ensures Valid(Resolve(n, p).value)
    decreases |p|
  {
    if p != [] {
      var c := Lookup(n.children, p[0]).value;
      LookupFound(n.children, p[0]);
      assert Entry(p[0], c) in n.children;
      ResolveValid(c, p[1..]);
    }
  }

  /** In a valid tree nothing resolves below a file. */
  lemma ResolveBelowFile(n: Node, p: seq<string>, k: string, rest: seq<string>)
    requires Valid(n)
    requires Resolve(n, p).Some? && Resolve(n, p).value.kind == File
    ensures Resolve(n, p + [k] + rest) == None
  {
    ResolveValid(n, p);
    ResolveAppend(n, p, [k] + rest);
    assert p + [k] + rest == p + ([k] + rest);
  }

  /** One step of `ReplaceAt`: the root keeps everything but the entry on
      the path, which now holds the rebuilt subtree. */
  lemma ReplaceAtStep(n: Node, p: seq<string>, s: Node, j: string)
    requires p != [] && Lookup(n.children, p[0]).Some?
    ensures Lookup(ReplaceAt(n, p, s).children, j) ==
            if j == p[0] then Some(ReplaceAt(Lookup(n.children, p[0]).value, p[1..], s))
            else Lookup(n.children, j)
    ensures Stat(ReplaceAt(n, p, s)) == Stat(n)
  {
    var c := Lookup(n.children, p[0]).value;
    PutLookup(n.children, p[0], ReplaceAt(c, p[1..], s), j);
  }

  /** Paths through the replaced node now walk the replacement. */
  lemma {:induction false} ResolveReplaceInside(n: Node, p: seq<string>, s: Node, q: seq<string>)
    requires Resolve(n, p).Some?
    requires p <= q
    ensures Resolve(ReplaceAt(n, p, s), q) == Resolve(s, q[|p|..])
    decreases |p|
  {
    if p == [] {
      assert q[0..] == q;
    } else {
      var c := Lookup(n.children, p[0]).value;
      ReplaceAtStep(n, p, s, q[0]);
      assert p[1..] <= q[1..];
      ResolveReplaceInside(c, p[1..], s, q[1..]);
      assert q[|p|..] == q[1..][|p[1..]|..];
    }
  }

  /** Paths that branch off before the replaced node resolve as before. */
  lemma {:induction false} ResolveReplaceBeside(n: Node, p: seq<string>, s: Node, q: seq<string>)
    requires Resolve(n, p).Some?
    requires !(p <= q) && !(q <= p)
    ensures Resolve(ReplaceAt(n, p, s), q) == Resolve(n, q)
    decreases |p|
  {
    var c := Lookup(n.children, p[0]).value;
    ReplaceAtStep(n, p, s, q[0]);
    if q[0] == p[0] {
      assert !(p[1..] <= q[1..]) && !(q[1..] <= p[1..]);
      ResolveReplaceBeside(c, p[1..], s, q[1..]);
    }
  }

  /** The directories above the replaced node keep all their own fields. */
  lemma {:induction false} ResolveReplaceAbove(n: Node, p: seq<string>, s: Node, q: seq<string>)
    requires Resolve(n, p).Some?
    requires q < p
    ensures Resolve(ReplaceAt(n, p, s), q).Some? && Resolve(n, q).Some?
    ensures Stat(Resolve(ReplaceAt(n, p, s), q).value) == Stat(Resolve(n, q).value)
    decreases |p|
  {
    var c := Lookup(n.children, p[0]).value;
    ReplaceAtStep(n, p, s, p[0]);
    if q != [] {
      assert q[1..] < p[1..];
      ResolveReplaceAbove(c, p[1..], s, q[1..]);
    }
  }

  /** The replaced path resolves to the replacement. */
  lemma ResolveReplaced(n: Node, p: seq<string>, s: Node)
    requires Resolve(n, p).Some?
    ensures Resolve(ReplaceAt(n, p, s), p) == Some(s)
  {
    ResolveReplaceInside(n, p, s, p);
    assert p[|p|..] == [];
  }

  /** A path through one key of the replaced node walks that key of the
      replacement. */
  lemma ResolveReplacedBelow(n: Node, p: seq<string>, s: Node, k: string, rest: seq<string>)
    requires Resolve(n, p).Some?
    ensures Resolve(ReplaceAt(n, p, s), p + [k] + rest) ==
            match Lookup(s.children, k)
            case None => None
            case Some(c) => Resolve(c, rest)
  {
    ResolveReplaceInside(n, p, s, p + [k] + rest);
    assert (p + [k] + rest)[|p|..] == [k] + rest;
    assert ([k] + rest)[1..] == rest;
  }

  /** A path through one key of a resolvable node. */
  lemma ResolveBelow(n: Node, p: seq<string>, k: string, rest: seq<string>)
    requires Resolve(n, p).Some?
    ensures Resolve(n, p + [k] + rest) ==
            match Lookup(Resolve(n, p).value.children, k)
            case None => None
            case Some(c) => Resolve(c, rest)
  {
    ResolveAppend(n, p, [k] + rest);
    assert p + [k] + rest == p + ([k] + rest);
    assert ([k] + rest)[1..] == rest;
  }

  /** Replacing a node by a valid node of the same kind keeps a valid tree
      valid. */
  lemma {:induction false} ReplaceAtValid(n: Node, p: seq<string>, s: Node)
    requires Valid(n) && Valid(s)
    requires Resolve(n, p).Some? && Resolve(n, p).value.kind == s.kind
    ensures Valid(ReplaceAt(n, p, s)) && ReplaceAt(n, p, s).kind == n.kind
    decreases |p|
  {
    if p != [] {
      var c := Lookup(n.children, p[0]).value;
      LookupFound(n.children, p[0]);
      assert Entry(p[0], c) in n.children;
      ReplaceAtValid(c, p[1..], s);
      var c' := ReplaceAt(c, p[1..], s);
      PutUnique(n.children, p[0], c');
      var es := Put(n.children, p[0], c');
      PutFrom(n.children, p[0], c');
      forall i | 0 <= i < |es| ensures Valid(es[i].node) {
        if es[i] != Entry(p[0], c') {
          assert es[i] in n.children;
        }
      }
    }
  }

  /** `after` differs from `before` only in the node at `dir` and below it
      under the keys in `keys`: paths that branch off before `dir` resolve as
      before, the directories above `dir` keep all their own fields, and every
      path through another key of `dir` resolves as before. */
  ghost predicate OnlyChanged(before: Node, after: Node, dir: seq<string>, keys: set<string>) {
    (forall q :: !(dir <= q) && !(q <= dir) ==> Resolve(after, q) == Resolve(before, q)) &&
    (forall q :: q < dir ==> Resolve(after, q).Some? && Resolve(before, q).Some? &&
                             Stat(Resolve(after, q).value) == Stat(Resolve(before, q).value)) &&
    (forall k, rest :: k !in keys ==> Resolve(after, dir + [k] + rest) == Resolve(before, dir + [k] + rest))
  }

  /** Replacing the directory at `dir` by one whose children agree with the old
      ones outside `keys` changes nothing else. */
  lemma ReplaceDirFrame(n: Node, dir: seq<string>, d': Node, keys: set<string>)
    requires Resolve(n, dir).Some?
    requires forall k :: k !in keys ==> Lookup(d'.children, k) == Lookup(Resolve(n, dir).value.children, k)
    ensures OnlyChanged(n, ReplaceAt(n, dir, d'), dir, keys)
  {
    var r := ReplaceAt(n, dir, d');
    var d := Resolve(n, dir).value;
    forall q | !(dir <= q) && !(q <= dir) ensures Resolve(r, q) == Resolve(n, q) {
      ResolveReplaceBeside(n, dir, d', q);
    }
    forall q | q < dir
      ensures Resolve(r, q).Some? && Resolve(n, q).Some? && Stat(Resolve(r, q).value) == Stat(Resolve(n, q).value)
    {
      ResolveReplaceAbove(n, dir, d', q);
    }
    forall k, rest | k !in keys ensures Resolve(r, dir + [k] + rest) == Resolve(n, dir + [k] + rest) {
      var q := dir + [k] + rest;
      ResolveReplaceInside(n, dir, d', q);
      assert q[|dir|..] == [k] + rest;
      ResolveAppend(n, dir, [k] + rest);
      assert q == dir + ([k] + rest);
    }
  }

  /** A path that neither leads to `dir` nor runs through its key `k`
      resolves as before when the directory at `dir` is replaced by one that
      agrees on every other key. */
  lemma ReplaceDirKeeps(n: Node, dir: seq<string>, d': Node, k: string, p: seq<string>)
    requires Resolve(n, dir).Some?
    requires forall j :: j != k ==> Lookup(d'.children, j) == Lookup(Resolve(n, dir).value.children, j)
    requires !(dir + [k] <= p) && !(p <= dir)
    ensures Resolve(ReplaceAt(n, dir, d'), p) == Resolve(n, p)
  {
    if dir <= p {
      var j := p[|dir|];
      var rest := p[|dir| + 1..];
      assert p == dir + [j] + rest;
      ResolveReplacedBelow(n, dir, d', j, rest);
      ResolveBelow(n, dir, j, rest);
    } else {
      ResolveReplaceBeside(n, dir, d', p);
    }
  }

  /** In a valid tree, whatever holds a directory is itself a directory:
      files have no children. */
  lemma DirAbove(root: Node, d: seq<string>, name: string)
    requires Valid(root)
    requires Resolve(root, d + [name]).Some? && Resolve(root, d + [name]).value.kind == Directory
    ensures Resolve(root, d).Some? && Resolve(root, d).value.kind == Directory
  {
    ResolveAppend(root, d, [name]);
    assert d + [name] + [] == d + [name];
    if Resolve(root, d).value.kind == File {
      ResolveBelowFile(root, d, name, []);
    }
  }
}
