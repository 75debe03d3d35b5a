/** The hierarchical key-value store (minion/consensus).  A node's key is its position in
    the parent, so it is not stored a second time. */
module TreeStore {
  import opened Basics
  import Text

  datatype Tree = Tree(value: string, children: map<string, Tree>)

  datatype Outcome = Outcome(root: Tree, ok: bool)

  // ---------------------------------------------------------------------------------
  // Paths
  // ---------------------------------------------------------------------------------

  predicate Rooted(path: string) { path != "" && path[0] == '/' }

  function SplitPath(path: string): (r: seq<string>)
    requires Rooted(path)
    ensures r != [] && Text.AllClean(r, '/')
  {
    Text.Split(path[1..], '/')
  }

  // The directory of a path, and its last component.
  function DirPath(path: string): (r: (string, string))
    requires Rooted(path)
    ensures Rooted(r.0) && Text.Clean(r.1, '/')
  {
    var c := SplitPath(path);
    ("/" + (if |c| == 1 then "" else Text.Join(c[..|c| - 1], '/')), c[|c| - 1])
  }

  function Route(path: string): (r: seq<string>)
    requires Rooted(path)
    ensures Text.AllClean(r, '/')
  {
    if path == "/" then [] else SplitPath(path)
  }

  // ---------------------------------------------------------------------------------
  // Trees
  // ---------------------------------------------------------------------------------

  function Walk(t: Tree, p: seq<string>): Option<Tree> {
    if p == [] then Some(t)
    else if p[0] in t.children then Walk(t.children[p[0]], p[1..])
    else None
  }

  const EMPTY := Tree("", map[])

  function Child(t: Tree, key: string): Tree { if key in t.children then t.children[key] else EMPTY }

  // All nodes on the way, created where they are missing.
  function Ensure(t: Tree, p: seq<string>): Tree
    decreases |p|
  {
    if p == [] then t else Tree(t.value, t.children[p[0] := Ensure(Child(t, p[0]), p[1..])])
  }

  function Replace(t: Tree, p: seq<string>, sub: Tree): Tree
    requires Walk(t, p).Some?
  {
    if p == [] then sub else Tree(t.value, t.children[p[0] := Replace(t.children[p[0]], p[1..], sub)])
  }

  function Put(t: Tree, key: string, sub: Tree): Tree { Tree(t.value, t.children[key := sub]) }

  function Cut(t: Tree, key: string): Tree { Tree(t.value, t.children - {key}) }

  // ---------------------------------------------------------------------------------
  // Operations
  // ---------------------------------------------------------------------------------

  function GetTree(t: Tree, path: string): Option<Tree>
    requires Rooted(path)
  {
    Walk(t, Route(path))
  }

  function Get(t: Tree, path: string): Option<string>
    requires Rooted(path)
  {
    var (dir, node) := DirPath(path);
    match GetTree(t, dir)
    case None => None
    case Some(tree) => if node in tree.children then Some(tree.children[node].value) else None
  }

  function Mkdir(t: Tree, path: string): Outcome
    requires Rooted(path)
  {
    if path == "/" then Outcome(t, true)
    else if Get(t, path).Some? then Outcome(t, false)
    else Outcome(Ensure(t, SplitPath(path)), true)
  }

  function Create(t: Tree, path: string, value: string): Outcome
    requires Rooted(path)
  {
    var (dir, node) := DirPath(path);
    var t := Mkdir(t, dir).root;
    match GetTree(t, dir)
    case None => Outcome(t, false)
    case Some(tree) =>
      if node in tree.children then Outcome(t, false)
      else Outcome(Replace(t, Route(dir), Put(tree, node, Tree(value, map[]))), true)
  }

  function Update(t: Tree, path: string, value: string): Outcome
    requires Rooted(path)
  {
    var (dir, node) := DirPath(path);
    var t := Mkdir(t, dir).root;
    match GetTree(t, dir)
    case None => Outcome(t, false)
    case Some(tree) =>
      if node !in tree.children then Outcome(t, false)
      else Outcome(Replace(t, Route(dir), Put(tree, node, Tree(value, tree.children[node].children))), true)
  }

  function Set(t: Tree, path: string, value: string): Outcome
    requires Rooted(path)
  {
    if Get(t, path).None? then Create(t, path, value) else Update(t, path, value)
  }

  function Delete(t: Tree, path: string): Outcome
    requires Rooted(path)
  {
    var (dir, node) := DirPath(path);
    match GetTree(t, dir)
    case None => Outcome(t, false)
    case Some(tree) =>
      if node !in tree.children then Outcome(t, false)
      else Outcome(Replace(t, Route(dir), Cut(tree, node)), true)
  }

  // A store shared by the cluster.  If it is not reliable, any operation may report an
  // error, and if it is not atomic either, the operation may have taken effect all the same.
  class Store {
    var root: Tree
    const reliable: bool
    const atomic: bool

    constructor (reliable: bool, atomic: bool)
      ensures root == EMPTY && this.reliable == reliable && this.atomic == atomic
    {
      root, this.reliable, this.atomic := EMPTY, reliable, atomic;
    }

    ghost predicate Done(before: Tree, ok: bool, o: Outcome)
      reads this
    {
      && (reliable ==> root == o.root && ok == o.ok)
      && (ok ==> o.ok && root == o.root)
      && (atomic && o.ok && !ok ==> root == before)
      && (root == before || root == o.root)
    }

    method Apply(o: Outcome) returns (ok: bool)
      modifies this
      ensures Done(old(root), ok, o)
    {
      var fails, lands := *, *;
      ok := o.ok && (reliable || !fails);
      if reliable || !fails || (lands && !atomic) { root := o.root; }
    }

    method MakeDir(path: string) returns (ok: bool)
      requires Rooted(path)
      modifies this
      ensures Done(old(root), ok, Mkdir(old(root), path))
    {
      ok := Apply(Mkdir(root, path));
    }

    method Write(path: string, value: string) returns (ok: bool)
      requires Rooted(path)
      modifies this
      ensures Done(old(root), ok, Set(old(root), path, value))
    {
      ok := Apply(Set(root, path, value));
    }

    method Remove(path: string) returns (ok: bool)
      requires Rooted(path)
      modifies this
      ensures Done(old(root), ok, Delete(old(root), path))
    {
      ok := Apply(Delete(root, path));
    }

    method Read(path: string) returns (r: Option<Tree>)
      requires Rooted(path)
      ensures reliable ==> r == GetTree(root, path)
      ensures r.Some? ==> r == GetTree(root, path)
    {
      var fails := *;
      r := if fails && !reliable then None else GetTree(root, path);
    }
  }

  // ---------------------------------------------------------------------------------
  // Laws of paths
  // ---------------------------------------------------------------------------------

  function Sub(base: string, key: string): (r: string)
    requires Rooted(base)
    ensures Rooted(r) && r != "/"
  {
    base + "/" + key
  }

  // An entry of a directory is found through that directory.
  lemma SubPath(base: string, key: string)
    requires Rooted(base) && base != "/" && Text.Clean(key, '/')
    ensures SplitPath(Sub(base, key)) == SplitPath(base) + [key]
    ensures DirPath(Sub(base, key)) == (base, key)
  {
    var c := SplitPath(base);
    Text.JoinSplit(base[1..], '/');
    Text.JoinMore(c, [key], '/');
    assert Sub(base, key)[1..] == base[1..] + "/" + key;
    Text.SplitJoin(c + [key], '/');
    assert (c + [key])[..|c|] == c;
    assert base == "/" + base[1..];
  }

  // The directory of a path is routed to the components before the last, unless the path
  // starts with two slashes.
  lemma DirRoute(path: string)
    requires Rooted(path) && SplitPath(path)[0] != ""
    ensures var c := SplitPath(path); Route(DirPath(path).0) == c[..|c| - 1]
  {
    var c := SplitPath(path);
    if |c| > 1 {
      var init := c[..|c| - 1];
      Text.SplitJoin(init, '/');
      assert ("/" + Text.Join(init, '/'))[1..] == Text.Join(init, '/');
      assert init[0] != "";
    }
  }

  // ---------------------------------------------------------------------------------
  // Laws of trees
  // ---------------------------------------------------------------------------------

  lemma {:induction false} WalkAppend(t: Tree, a: seq<string>, b: seq<string>)
    ensures Walk(t, a + b) == if Walk(t, a).Some? then Walk(Walk(t, a).value, b) else None
    decreases |a|
  {
    if a == [] {
      assert a + b == b;
    } else if a[0] in t.children {
      WalkAppend(t.children[a[0]], a[1..], b);
      assert (a + b)[1..] == a[1..] + b;
    }
  }

  lemma {:induction false} WalkReplace(t: Tree, p: seq<string>, sub: Tree)
    requires Walk(t, p).Some?
    ensures Walk(Replace(t, p, sub), p) == Some(sub)
    decreases |p|
  {
    if p != [] { WalkReplace(t.children[p[0]], p[1..], sub); }
  }

  lemma {:induction false} ReplaceAppend(t: Tree, a: seq<string>, b: seq<string>, sub: Tree)
    requires Walk(t, a).Some? && Walk(Walk(t, a).value, b).Some?
    ensures Walk(t, a + b).Some? && Replace(t, a + b, sub) == Replace(t, a, Replace(Walk(t, a).value, b, sub))
    decreases |a|
  {
    if a == [] {
      assert a + b == b;
    } else {
      ReplaceAppend(t.children[a[0]], a[1..], b, sub);
      assert (a + b)[1..] == a[1..] + b;
    }
  }

  // Only what lies on the way to p or below it can change.
  predicate Apart(p: seq<string>, q: seq<string>) { !(p <= q) && !(q <= p) }

  lemma {:induction false} WalkApart(t: Tree, p: seq<string>, sub: Tree, q: seq<string>)
    requires Walk(t, p).Some? && Apart(p, q)
    ensures Walk(Replace(t, p, sub), q) == Walk(t, q)
    decreases |p|
  {
    if p[0] == q[0] {
      assert p == [p[0]] + p[1..] && q == [q[0]] + q[1..];
      WalkApart(t.children[p[0]], p[1..], sub, q[1..]);
    }
  }

  lemma {:induction false} EnsureSame(t: Tree, p: seq<string>)
    requires Walk(t, p).Some?
    ensures Ensure(t, p) == t
    decreases |p|
  {
    if p != [] {
      EnsureSame(t.children[p[0]], p[1..]);
      assert t.children[p[0] := t.children[p[0]]] == t.children;
    }
  }

  lemma {:induction false} EnsureNew(t: Tree, p: seq<string>, key: string)
    requires Walk(t, p).Some? && key !in Walk(t, p).value.children
    ensures Ensure(t, p + [key]) == Replace(t, p, Put(Walk(t, p).value, key, EMPTY))
    decreases |p|
  {
    if p == [] {
      assert p + [key] == [key] && [key][1..] == [];
    } else {
      EnsureNew(t.children[p[0]], p[1..], key);
      assert (p + [key])[1..] == p[1..] + [key];
    }
  }

  lemma {:induction false} EnsureWalk(t: Tree, p: seq<string>)
    ensures Walk(Ensure(t, p), p) == Some(if Walk(t, p).Some? then Walk(t, p).value else EMPTY)
    decreases |p|
  {
    if p != [] {
      EnsureWalk(Child(t, p[0]), p[1..]);
      if p[0] !in t.children && p[1..] != [] { assert p[1..][0] !in EMPTY.children; }
    }
  }

  lemma {:induction false} EnsureApart(t: Tree, p: seq<string>, q: seq<string>)
    requires Apart(p, q)
    ensures Walk(Ensure(t, p), q) == Walk(t, q)
    decreases |p|
  {
    if p[0] == q[0] {
      assert p == [p[0]] + p[1..] && q == [q[0]] + q[1..];
      EnsureApart(Child(t, p[0]), p[1..], q[1..]);
      if p[0] !in t.children { assert q[1..][0] !in EMPTY.children; }
    }
  }
}
