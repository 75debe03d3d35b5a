/** Making the entries of a directory one after the other (`syncDir` of
    minion/network/store.go).  A name is a path, so making it can make others as well. */
module Making {
  import opened Basics
  import opened TreeStore
  import opened Directories
  import Text

  ghost function Parts(name: string): seq<string> { Text.Split(name, '/') }

  lemma PartsApart(a: string, b: string)
    requires Parts(a) == Parts(b)
    ensures a == b
  {
    Text.JoinSplit(a, '/');
    Text.JoinSplit(b, '/');
  }

  lemma CleanParts(name: string)
    ensures Text.Clean(name, '/') <==> Parts(name) == [name]
  {
    var p := Parts(name);
    assert Text.Clean(p[0], '/');
    if Text.Clean(name, '/') { Text.HeadOf(name, "", '/'); }
  }

  // ---------------------------------------------------------------------------------
  // The store below a directory
  // ---------------------------------------------------------------------------------

  ghost function NodeAt(root: Tree, base: string): Tree
    requires Rooted(base)
  {
    if GetTree(root, base).Some? then GetTree(root, base).value else EMPTY
  }

  lemma NodeKeys(root: Tree, base: string)
    requires Rooted(base) && View(root, base).Some?
    ensures NodeAt(root, base).children.Keys == View(root, base).value.Keys
  {
  }

  lemma NodeOfBase(t: Tree, base: string)
    requires Proper(base)
    ensures NodeAt(Mkdir(t, base).root, base) == NodeAt(t, base)
  {
    HasBase(t, base);
    EnsureWalk(t, SplitPath(base));
  }

  lemma SubParts(base: string, name: string)
    requires Proper(base)
    ensures SplitPath(Sub(base, name)) == SplitPath(base) + Parts(name) && Proper(Sub(base, name))
  {
    var c, p := SplitPath(base), Parts(name);
    Text.JoinSplit(base[1..], '/');
    Text.JoinSplit(name, '/');
    Text.JoinMore(c, p, '/');
    assert Sub(base, name)[1..] == base[1..] + "/" + name;
    Text.SplitJoin(c + p, '/');
  }

  lemma {:induction false} EnsureBelow(t: Tree, a: seq<string>, b: seq<string>)
    requires Walk(t, a).Some?
    ensures Ensure(t, a + b) == Replace(t, a, Ensure(Walk(t, a).value, b))
    decreases |a|
  {
    if a == [] {
      assert a + b == b;
    } else {
      EnsureBelow(t.children[a[0]], a[1..], b);
      assert (a + b)[1..] == a[1..] + b;
    }
  }

  // A name can be made exactly if there is no node at its path, and then all nodes on the
  // way to it are there.
  lemma MakeName(t: Tree, base: string, name: string)
    requires Proper(base) && GetTree(t, base).Some?
    ensures var node, o := GetTree(t, base).value, Mkdir(t, Sub(base, name));
            && (o.ok <==> Walk(node, Parts(name)).None?)
            && GetTree(o.root, base) == Some(if o.ok then Ensure(node, Parts(name)) else node)
            && Framed(t, o.root, base)
  {
    var c, node := SplitPath(base), GetTree(t, base).value;
    SubParts(base, name);
    HasBase(t, Sub(base, name));
    WalkAppend(t, c, Parts(name));
    EnsureBelow(t, c, Parts(name));
    ViewReplace(t, base, Ensure(node, Parts(name)));
    WalkReplace(t, c, Ensure(node, Parts(name)));
  }

  lemma DropName(t: Tree, base: string, key: string)
    requires Proper(base) && GetTree(t, base).Some? && Text.Clean(key, '/') && key in GetTree(t, base).value.children
    ensures GetTree(Delete(t, Sub(base, key)).root, base) == Some(Cut(GetTree(t, base).value, key))
  {
    SubPath(base, key);
    WalkReplace(t, SplitPath(base), Cut(GetTree(t, base).value, key));
  }

  ghost function Without(t: Tree, keys: set<string>): Tree { Tree(t.value, t.children - keys) }

  lemma WithoutMore(t: Tree, keys: set<string>, key: string)
    ensures Without(t, {}) == t && Cut(Without(t, keys), key) == Without(t, keys + {key})
  {
  }

  // ---------------------------------------------------------------------------------
  // Making several names
  // ---------------------------------------------------------------------------------

  // The tree of the directory, and the names whose entries are there or could be made.
  datatype Made = Made(node: Tree, names: set<string>)

  ghost function MakeOne(m: Made, name: string): Made {
    if name in m.names || Walk(m.node, Parts(name)).Some? then m
    else Made(Ensure(m.node, Parts(name)), m.names + {name})
  }

  ghost function Make(m: Made, names: seq<string>): Made {
    if names == [] then m else MakeOne(Make(m, names[..|names| - 1]), names[|names| - 1])
  }

  // One of the names is at the path or below it.
  ghost predicate Leads(m: Made, names: seq<string>, p: seq<string>) {
    exists k :: k in names && k !in m.names && p <= Parts(k)
  }

  lemma {:induction false} WalkPrefix(t: Tree, p: seq<string>, q: seq<string>)
    requires p <= q && Walk(t, q).Some?
    ensures Walk(t, p).Some?
  {
    assert q == p + q[|p|..];
    WalkAppend(t, p, q[|p|..]);
  }

  lemma {:induction false} EnsureExactly(t: Tree, q: seq<string>, p: seq<string>)
    ensures Walk(Ensure(t, q), p).Some? <==> Walk(t, p).Some? || p <= q
    decreases |p|
  {
    if p != [] && q != [] && p[0] == q[0] {
      EnsureExactly(Child(t, q[0]), q[1..], p[1..]);
      assert p == [p[0]] + p[1..] && q == [q[0]] + q[1..];
      if p[0] !in t.children && p[1..] != [] { assert p[1..][0] !in EMPTY.children; }
    }
  }

  lemma {:induction false} MadeNames(m: Made, names: seq<string>, k: string)
    ensures k in Make(m, names).names ==> k in m.names || k in names
    ensures k in m.names ==> k in Make(m, names).names
    decreases |names|
  {
    if names != [] { MadeNames(m, names[..|names| - 1], k); }
  }

  // A node is there exactly if it was there before or is on the way to one of the names.
  lemma {:induction false} MadeNodes(m: Made, names: seq<string>, p: seq<string>)
    ensures Walk(Make(m, names).node, p).Some? <==> Walk(m.node, p).Some? || Leads(m, names, p)
    decreases |names|
  {
    if names != [] {
      var init, k := names[..|names| - 1], names[|names| - 1];
      assert names == init + [k];
      var m1 := Make(m, init);
      MadeNodes(m, init, p);
      MadeNames(m, init, k);
      assert Leads(m, names, p) <==> Leads(m, init, p) || (k !in m.names && p <= Parts(k));
      if k !in m1.names {
        EnsureExactly(m1.node, Parts(k), p);
        if Walk(m1.node, Parts(k)).Some? && p <= Parts(k) { WalkPrefix(m1.node, p, Parts(k)); }
      } else if k !in m.names && p <= Parts(k) {
        assert k in init;
      }
    }
  }

  // The names before the first occurrence of one.
  ghost function Before(names: seq<string>, k: string): seq<string> {
    if names == [] || names[0] == k then [] else [names[0]] + Before(names[1..], k)
  }

  lemma {:induction false} BeforeMore(names: seq<string>, last: string, k: string)
    ensures Before(names + [last], k) ==
              if k in names then Before(names, k) else names + (if last == k then [] else [last])
    decreases |names|
  {
    if names == [] {
      assert names + [last] == [last] && [last][1..] == [];
    } else {
      BeforeMore(names[1..], last, k);
      assert (names + [last])[1..] == names[1..] + [last];
      assert names == [names[0]] + names[1..];
    }
  }

  // A name is missed exactly if its path is there, or becomes so with a name made before.
  lemma {:induction false} MissedName(m: Made, names: seq<string>, k: string)
    requires k in names && k !in m.names
    ensures k !in Make(m, names).names <==> Walk(m.node, Parts(k)).Some? || Leads(m, Before(names, k), Parts(k))
    decreases |names|
  {
    var init, last := names[..|names| - 1], names[|names| - 1];
    assert names == init + [last];
    BeforeMore(init, last, k);
    MadeNodes(m, init, Parts(k));
    if k in init {
      MissedName(m, init, k);
      if k !in Make(m, init).names { LeadsMore(m, Before(init, k), init, Parts(k), k); }
    } else {
      MadeNames(m, init, k);
      assert Before(names, k) == init;
    }
  }

  lemma {:induction false} LeadsMore(m: Made, some: seq<string>, names: seq<string>, p: seq<string>, k: string)
    requires some == Before(names, k)
    ensures Leads(m, some, p) ==> Leads(m, names, p)
    decreases |names|
  {
    if Leads(m, some, p) {
      var x :| x in some && x !in m.names && p <= Parts(x);
      BeforeIn(names, k, x);
    }
  }

  lemma {:induction false} BeforeIn(names: seq<string>, k: string, x: string)
    requires x in Before(names, k)
    ensures x in names && x != k
    decreases |names|
  {
    if x != names[0] { BeforeIn(names[1..], k, x); }
  }
}
