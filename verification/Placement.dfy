/** Exclusive placement, from the `placement` built-in (dsl/func.go) through the container
    table (minion/engine.go) to the affinity constraints handed to swarm
    (minion/scheduler/swarm.go). */
module Placement {
  import opened Syntax
  import opened World
  import opened Prims
  import opened WorldInvariant

  function UserLabel(l: string): string { "di.user.label." + l }

  function Affinity(l: string): string { "affinity:" + UserLabel(l) + "!=1" }

  function Variable(key: string, value: string): string { key + "=" + value }

  ghost function Elems(s: seq<string>): set<string> { set l | l in s }

  // The labels that containers with `labels` must not share a host with.
  ghost function Conflicts(labels: set<string>, exclusive: set<(string, string)>): set<string> {
    (set p | p in exclusive && p.0 in labels :: p.1) + (set p | p in exclusive && p.1 in labels :: p.0)
  }

  ghost function EnvOf(labels: set<string>, exclusive: set<(string, string)>, env: map<string, string>): set<string> {
    (set l | l in Conflicts(labels, exclusive) :: Affinity(l)) + (set k | k in env :: Variable(k, env[k]))
  }

  method MakeEnv(labels: seq<string>, exclusive: set<(string, string)>, vars: map<string, string>)
    returns (env: set<string>)
    ensures env == EnvOf(Elems(labels), exclusive, vars)
  {
    env := {};
    for n := 0 to |labels|
      invariant env == EnvOf(Elems(labels[..n]), exclusive, map[])
    {
      var added := Affinities(labels[n], exclusive);
      env := env + added;
      OneMoreLabel(labels, n, exclusive);
    }
    assert labels[..|labels|] == labels;
    ghost var affinities := env;
    var rest := vars.Keys;
    while rest != {}
      invariant rest <= vars.Keys
      invariant env == affinities + set k | k in vars && k !in rest :: Variable(k, vars[k])
    {
      var k :| k in rest;
      env := env + {Variable(k, vars[k])};
      rest := rest - {k};
    }
  }

  // The inner loop over the exclusive pairs, for one label.
  method Affinities(name: string, exclusive: set<(string, string)>) returns (env: set<string>)
    ensures env == AffinitiesOf(Conflicts({name}, exclusive))
  {
    env := {};
    var rest, done := exclusive, {};
    while rest != {}
      invariant rest + done == exclusive
      invariant env == AffinitiesOf(Conflicts({name}, done))
      decreases rest
    {
      var p :| p in rest;
      if p.0 == name {
        env := env + {Affinity(p.1)};
      } else if p.1 == name {
        env := env + {Affinity(p.0)};
      }
      OneMorePair(name, done, p);
      rest, done := rest - {p}, done + {p};
    }
    assert done == exclusive;
  }

  ghost function AffinitiesOf(ls: set<string>): set<string> { set l | l in ls :: Affinity(l) }

  lemma OneMorePair(name: string, done: set<(string, string)>, p: (string, string))
    ensures Conflicts({name}, done + {p}) == Conflicts({name}, done)
            + (if p.0 == name then {p.1} else if p.1 == name then {p.0} else {})
  {
    var before, after := Conflicts({name}, done), Conflicts({name}, done + {p});
    var added := if p.0 == name then {p.1} else if p.1 == name then {p.0} else {};
    forall l | l in before + added ensures l in after {
      if l in added { assert p in done + {p}; }
    }
  }

  lemma OneMoreLabel(labels: seq<string>, n: nat, exclusive: set<(string, string)>)
    requires n < |labels|
    ensures EnvOf(Elems(labels[..n + 1]), exclusive, map[])
            == EnvOf(Elems(labels[..n]), exclusive, map[])
               + (set l | l in Conflicts({labels[n]}, exclusive) :: Affinity(l))
  {
    assert labels[..n + 1] == labels[..n] + [labels[n]];
    assert Elems(labels[..n + 1]) == Elems(labels[..n]) + {labels[n]};
    ConflictsUnion(Elems(labels[..n]), {labels[n]}, exclusive);
  }

  lemma ConflictsUnion(a: set<string>, b: set<string>, exclusive: set<(string, string)>)
    ensures Conflicts(a + b, exclusive) == Conflicts(a, exclusive) + Conflicts(b, exclusive)
  {
  }

  // ---------------------------------------------------------------------------------
  // End to end
  // ---------------------------------------------------------------------------------

  lemma {:induction false} FlattenLabelGood(w: World, c: nat, elems: seq<Ast>, i: nat)
    requires Inv(w) && c < |w.frames| && AllRefs(w, elems) && FlattenLabel(w, c, elems).Some?
    requires i < |FlattenLabel(w, c, elems).value|
    ensures var l := FlattenLabel(w, c, elems).value[i];
            l.Label? && (l == Label(PublicInternet, []) || Refs(w, l))
  {
    ResolveGood(w, c, elems[0]);
    if 0 < i { FlattenLabelGood(w, c, elems[1..], i - 1); }
  }

  lemma {:induction false} AllMembersHas(ls: seq<Ast>, i: nat, k: nat)
    requires i < |ls| && ls[i].Label? && k in ls[i].members
    ensures k in AllMembers(ls)
  {
    if 0 < i { AllMembersHas(ls[1..], i - 1, k); }
  }

  // The labels a placement call ranges over.
  ghost function PlacedLabels(args: seq<Ast>, c: nat, w: World): seq<Ast>
    requires 2 <= |args| && PlacementImpl(args, c, w).Ok?
  {
    FlattenLabel(w, c, Flatten(args[1..])).value
  }

  // The placement itself: the container of one label gets the pair with the other.
  lemma PairPlaced(args: seq<Ast>, c: nat, w: World, i: nat, j: nat, k: nat)
    requires Inv(w) && c < |w.frames| && GoodArgs(w, args) && 2 <= |args| && PlacementImpl(args, c, w).Ok?
    requires var ls := PlacedLabels(args, c, w); i < |ls| && j < |ls| && i != j && ls[i].Label? && ls[j].Label?
    requires k < |w.atoms| && PlacedLabels(args, c, w)[i].ident in w.atoms[k].labels
    ensures var ls, w1 := PlacedLabels(args, c, w), PlacementImpl(args, c, w).w;
            && k < |w1.atoms| && w1.atoms[k].ContainerObj? && w1.atoms[k].labels == w.atoms[k].labels
            && (|| (ls[i].ident, ls[j].ident) in w1.atoms[k].exclusive
                || (ls[j].ident, ls[i].ident) in w1.atoms[k].exclusive)
  {
    var elems := Flatten(args[1..]);
    var ls := PlacedLabels(args, c, w);
    FlattenGood(w, args[1..]);
    forall x | x in elems ensures Refs(w, x) { assert GoodValue(w, x); }
    FlattenLabelGood(w, c, elems, i);
    assert k in ls[i].members;
    AllMembersHas(ls, i, k);
    ExclusiveTouches(w, AllMembers(ls), ExclusivePairs(Idents(ls)));
    PairListed(Idents(ls), i, j);
  }

  lemma PairListed(names: seq<string>, i: nat, j: nat)
    requires i < |names| && j < |names| && i != j
    ensures (names[i], names[j]) in ExclusivePairs(names) || (names[j], names[i]) in ExclusivePairs(names)
  {
    if i < j {
      assert Ordered(names[i], names[j]) in ExclusivePairs(names);
    } else {
      assert Ordered(names[j], names[i]) in ExclusivePairs(names);
    }
  }

  // After an exclusive placement over a list of labels, every container that carries the
  // i-th label at that point is kept apart from the j-th, in whatever state the program
  // ends and in whatever order its labels are stored.  Swapping i and j gives the converse,
  // and a label listed twice is kept apart from itself.
  lemma ExclusiveHolds(args: seq<Ast>, c: nat, w: World, end: World, i: nat, j: nat, k: nat,
                       stored: seq<string>, vars: map<string, string>)
    requires Inv(w) && c < |w.frames| && GoodArgs(w, args) && 2 <= |args| && PlacementImpl(args, c, w).Ok?
    requires Grows(PlacementImpl(args, c, w).w, end)
    requires var ls := PlacedLabels(args, c, w); i < |ls| && j < |ls| && i != j && ls[i].Label? && ls[j].Label?
    requires k < |w.atoms| && PlacedLabels(args, c, w)[i].ident in w.atoms[k].labels
    requires k < |end.atoms| && multiset(stored) == multiset(end.atoms[k].labels)
    ensures end.atoms[k].ContainerObj?
    ensures Affinity(PlacedLabels(args, c, w)[j].ident)
            in EnvOf(Elems(stored), end.atoms[k].exclusive, vars)
  {
    PairPlaced(args, c, w, i, j, k);
    var w1 := PlacementImpl(args, c, w).w;
    var a, b := PlacedLabels(args, c, w)[i].ident, PlacedLabels(args, c, w)[j].ident;
    assert AtomGrows(w1.atoms[k], end.atoms[k]);
    assert a in multiset(stored) by { assert a in end.atoms[k].labels; }
    assert b in Conflicts(Elems(stored), end.atoms[k].exclusive);
  }
}
