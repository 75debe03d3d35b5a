/** Directories of the store: the first two levels below a path, as `getDirectory` of
    minion/network/store.go reads them, and what the store's operations do to them. */
module Directories {
  import opened Basics
  import opened TreeStore
  import Text

  type Files = map<string, string>
  type Entries = map<string, Files>

  ghost function FilesOf(t: Tree): Files { map n | n in t.children :: t.children[n].value }

  ghost function EntriesOf(t: Tree): Entries { map k | k in t.children :: FilesOf(t.children[k]) }

  ghost function View(root: Tree, base: string): Option<Entries>
    requires Rooted(base)
  {
    match GetTree(root, base)
    case None => None
    case Some(t) => Some(EntriesOf(t))
  }

  method GetDirectory(store: Store, base: string) returns (r: Option<Entries>)
    requires Rooted(base)
    ensures r.Some? ==> r == View(store.root, base)
    ensures store.reliable ==> r == View(store.root, base)
  {
    var tree := store.Read(base);
    if tree.None? { return None; }
    var dir: Entries := map[];
    var rest := tree.value.children.Keys;
    while rest != {}
      invariant rest <= tree.value.children.Keys
      invariant dir == map k | k in tree.value.children && k !in rest :: FilesOf(tree.value.children[k])
    {
      var k :| k in rest;
      var files := ReadFiles(tree.value.children[k]);
      dir := dir[k := files];
      rest := rest - {k};
    }
    assert dir == EntriesOf(tree.value);
    return Some(dir);
  }

  method ReadFiles(t: Tree) returns (files: Files)
    ensures files == FilesOf(t)
  {
    files := map[];
    var rest := t.children.Keys;
    while rest != {}
      invariant rest <= t.children.Keys
      invariant files == map n | n in t.children && n !in rest :: t.children[n].value
    {
      var n :| n in rest;
      files := files[n := t.children[n].value];
      rest := rest - {n};
    }
  }

  // Nothing outside the directory has changed.
  ghost predicate Framed(before: Tree, after: Tree, base: string)
    requires Rooted(base)
  {
    forall q :: Apart(SplitPath(base), q) ==> Walk(after, q) == Walk(before, q)
  }

  // What an operation on a directory comes to.
  ghost predicate Becomes(before: Tree, o: Outcome, base: string, view: Entries)
    requires Rooted(base)
  {
    o.ok && View(o.root, base) == Some(view) && Framed(before, o.root, base)
  }

  predicate Proper(base: string) { Rooted(base) && base != "/" && SplitPath(base)[0] != "" }

  lemma ViewReplace(t: Tree, base: string, sub: Tree)
    requires Proper(base) && GetTree(t, base).Some?
    ensures var t' := Replace(t, SplitPath(base), sub); View(t', base) == Some(EntriesOf(sub)) && Framed(t, t', base)
  {
    var c := SplitPath(base);
    WalkReplace(t, c, sub);
    forall q | Apart(c, q) ensures Walk(Replace(t, c, sub), q) == Walk(t, q) {
      WalkApart(t, c, sub, q);
    }
  }

  lemma HasBase(t: Tree, base: string)
    requires Proper(base)
    ensures Get(t, base).Some? <==> GetTree(t, base).Some?
  {
    var c := SplitPath(base);
    var init, node := c[..|c| - 1], c[|c| - 1];
    DirRoute(base);
    assert c == init + [node];
    WalkAppend(t, init, [node]);
    if Walk(t, init).Some? { WalkOne(Walk(t, init).value, node); }
  }

  lemma WalkOne(t: Tree, key: string)
    ensures Walk(t, [key]) == if key in t.children then Some(t.children[key]) else None
  {
    assert [key][1..] == [];
  }

  // Making the directory itself.
  lemma MakeBase(t: Tree, base: string)
    requires Proper(base)
    ensures var t' := Mkdir(t, base).root;
            && View(t', base) == Some(if View(t, base).Some? then View(t, base).value else map[])
            && Framed(t, t', base)
  {
    var c := SplitPath(base);
    HasBase(t, base);
    if GetTree(t, base).None? {
      EnsureWalk(t, c);
      forall q | Apart(c, q) ensures Walk(Ensure(t, c), q) == Walk(t, q) {
        EnsureApart(t, c, q);
      }
      assert EntriesOf(EMPTY) == map[];
    }
  }

  lemma MakeEntry(t: Tree, base: string, key: string)
    requires Proper(base) && Text.Clean(key, '/') && View(t, base).Some? && key !in View(t, base).value
    ensures Becomes(t, Mkdir(t, Sub(base, key)), base, View(t, base).value[key := map[]])
  {
    var c, tree := SplitPath(base), GetTree(t, base).value;
    SubPath(base, key);
    EnsureNew(t, c, key);
    ViewReplace(t, base, Put(tree, key, EMPTY));
    assert EntriesOf(Put(tree, key, EMPTY)) == EntriesOf(tree)[key := map[]];
  }

  lemma DeleteEntry(t: Tree, base: string, key: string)
    requires Proper(base) && Text.Clean(key, '/') && View(t, base).Some? && key in View(t, base).value
    ensures Becomes(t, Delete(t, Sub(base, key)), base, View(t, base).value - {key})
  {
    var tree := GetTree(t, base).value;
    SubPath(base, key);
    ViewReplace(t, base, Cut(tree, key));
    assert EntriesOf(Cut(tree, key)) == EntriesOf(tree) - {key};
  }

  // Replacing one entry.
  lemma ReplaceEntry(t: Tree, base: string, key: string, sub: Tree)
    requires Proper(base) && Text.Clean(key, '/') && View(t, base).Some? && key in View(t, base).value
    ensures GetTree(t, Sub(base, key)) == Some(GetTree(t, base).value.children[key])
    ensures Route(Sub(base, key)) == SplitPath(base) + [key] && Walk(t, SplitPath(base) + [key]).Some?
    ensures Becomes(t, Outcome(Replace(t, SplitPath(base) + [key], sub), true), base,
                    View(t, base).value[key := FilesOf(sub)])
  {
    var c, tree := SplitPath(base), GetTree(t, base).value;
    SubPath(base, key);
    WalkAppend(t, c, [key]);
    ReplaceAppend(t, c, [key], sub);
    ViewReplace(t, base, Put(tree, key, sub));
    assert [key][1..] == [];
    assert Replace(tree, [key], sub) == Put(tree, key, sub);
    assert EntriesOf(Put(tree, key, sub)) == EntriesOf(tree)[key := FilesOf(sub)];
  }

  lemma SetFile(t: Tree, base: string, key: string, name: string, value: string)
    requires Proper(base) && Text.Clean(key, '/') && Text.Clean(name, '/')
    requires View(t, base).Some? && key in View(t, base).value
    ensures Becomes(t, Set(t, Sub(Sub(base, key), name), value), base,
                    View(t, base).value[key := View(t, base).value[key][name := value]])
  {
    var entry := GetTree(t, base).value.children[key];
    var sub := Put(entry, name, Tree(value, Child(entry, name).children));
    ReplaceEntry(t, base, key, sub);
    SubPath(Sub(base, key), name);
    EnsureSame(t, SplitPath(Sub(base, key)));
    assert FilesOf(sub) == FilesOf(entry)[name := value];
  }

  lemma DeleteFile(t: Tree, base: string, key: string, name: string)
    requires Proper(base) && Text.Clean(key, '/') && Text.Clean(name, '/')
    requires View(t, base).Some? && key in View(t, base).value
    ensures var o := Delete(t, Sub(Sub(base, key), name));
            && (o.ok <==> name in View(t, base).value[key])
            && View(o.root, base) == Some(View(t, base).value[key := View(t, base).value[key] - {name}])
            && Framed(t, o.root, base)
  {
    var entry := GetTree(t, base).value.children[key];
    ReplaceEntry(t, base, key, Cut(entry, name));
    SubPath(Sub(base, key), name);
    assert FilesOf(Cut(entry, name)) == FilesOf(entry) - {name};
    if name !in entry.children { NoSuchFile(View(t, base).value, key, name); }
  }

  lemma NoSuchFile(view: Entries, key: string, name: string)
    requires key in view && name !in view[key]
    ensures view[key := view[key] - {name}] == view
  {
    assert view[key] - {name} == view[key];
  }

  // ---------------------------------------------------------------------------------
  // Names with a slash
  // ---------------------------------------------------------------------------------

  // No node of the store is called by a name with a slash in it.
  ghost predicate Sliced(t: Tree) { forall p :: Walk(t, p).Some? ==> Text.AllClean(p, '/') }

  lemma {:induction false} ReplaceSliced(t: Tree, p: seq<string>, sub: Tree, q: seq<string>)
    requires Walk(t, p).Some? && Walk(Replace(t, p, sub), q).Some?
    ensures Walk(t, q).Some? || (p <= q && Walk(sub, q[|p|..]).Some?)
    decreases |p|
  {
    if p != [] && q != [] && p[0] == q[0] {
      ReplaceSliced(t.children[p[0]], p[1..], sub, q[1..]);
      assert q == [q[0]] + q[1..] && p == [p[0]] + p[1..];
      if p[1..] <= q[1..] { assert q[1..][|p[1..]|..] == q[|p|..]; }
    }
  }

  lemma {:induction false} EnsureSliced(t: Tree, p: seq<string>, q: seq<string>)
    requires Walk(Ensure(t, p), q).Some?
    ensures Walk(t, q).Some? || q <= p
    decreases |p|
  {
    if p != [] && q != [] && p[0] == q[0] {
      EnsureSliced(Child(t, p[0]), p[1..], q[1..]);
      assert q == [q[0]] + q[1..] && p == [p[0]] + p[1..];
    }
  }

  lemma KeepsSliced(t: Tree, path: string, value: string)
    requires Sliced(t) && Rooted(path)
    ensures Sliced(Mkdir(t, path).root) && Sliced(Set(t, path, value).root) && Sliced(Delete(t, path).root)
  {
    MkdirSliced(t, path);
    var (dir, node) := DirPath(path);
    MkdirSliced(t, dir);
    var made := Mkdir(t, dir).root;
    if GetTree(made, dir).Some? {
      var tree := GetTree(made, dir).value;
      PutSliced(made, Route(dir), node, Tree(value, map[]));
      PutSliced(made, Route(dir), node, Tree(value, Child(tree, node).children));
    }
    if GetTree(t, dir).Some? { CutSliced(t, Route(dir), node); }
  }

  lemma MkdirSliced(t: Tree, path: string)
    requires Sliced(t) && Rooted(path)
    ensures Sliced(Mkdir(t, path).root)
  {
    var c := SplitPath(path);
    forall q | Walk(Ensure(t, c), q).Some? ensures Text.AllClean(q, '/') {
      EnsureSliced(t, c, q);
    }
  }

  lemma PutSliced(t: Tree, p: seq<string>, key: string, sub: Tree)
    requires Sliced(t) && Text.AllClean(p, '/') && Walk(t, p).Some? && Text.Clean(key, '/')
    requires sub.children == map[] || sub.children == Child(Walk(t, p).value, key).children
    ensures Sliced(Replace(t, p, Put(Walk(t, p).value, key, sub)))
  {
    var tree := Walk(t, p).value;
    forall q | Walk(Replace(t, p, Put(tree, key, sub)), q).Some? ensures Text.AllClean(q, '/') {
      ReplaceSliced(t, p, Put(tree, key, sub), q);
      if Walk(t, q).None? {
        var rest := q[|p|..];
        assert q == p + rest;
        WalkAppend(t, p, rest);
        assert rest == [key];
      }
    }
  }

  lemma CutSliced(t: Tree, p: seq<string>, key: string)
    requires Sliced(t) && Walk(t, p).Some?
    ensures Sliced(Replace(t, p, Cut(Walk(t, p).value, key)))
  {
    var tree := Walk(t, p).value;
    forall q | Walk(Replace(t, p, Cut(tree, key)), q).Some? ensures Text.AllClean(q, '/') {
      ReplaceSliced(t, p, Cut(tree, key), q);
      if p <= q {
        assert q == p + q[|p|..];
        WalkAppend(t, p, q[|p|..]);
      }
    }
  }

  // So a name with a slash is never an entry of a directory, whatever was written.
  lemma SlashUnlisted(t: Tree, base: string, key: string)
    requires Sliced(t) && Rooted(base) && View(t, base).Some? && key in View(t, base).value
    ensures Text.Clean(key, '/')
  {
    var c := Route(base);
    WalkAppend(t, c, [key]);
    assert [key][1..] == [];
    assert Walk(t, c + [key]).Some?;
    assert (c + [key])[|c|] == key;
  }
}
