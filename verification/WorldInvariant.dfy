/** What every world reached by evaluation satisfies, how worlds grow, and that the
    built-ins keep both. */
module WorldInvariant {
  import opened Basics
  import opened Syntax
  import opened World
  import opened Prims

  // ---------------------------------------------------------------------------------
  // The invariant
  // ---------------------------------------------------------------------------------

  // Contexts form trees that grow downwards; every root points to the one global store,
  // every other store stays empty, and a copied context has only copied ancestors.
  ghost predicate Shape(w: World) {
    && w.frames != [] && w.stores != []
    && (forall i :: 0 <= i < |w.frames| ==> FrameShape(w, i))
    && (forall s :: 0 < s < |w.stores| ==> w.stores[s] == EmptyStore)
  }

  ghost predicate FrameShape(w: World, i: nat)
    requires i < |w.frames|
  {
    var f := w.frames[i];
    match f.parent
    case None => f.store == 0
    case Some(p) => p < i && 0 < f.store < |w.stores| && (f.copied ==> w.frames[p].copied)
  }

  // An atom is a member of a label exactly when it carries the label, and carries no
  // label twice.
  ghost predicate Labelled(w: World) {
    w.stores != [] &&
    var labels := w.stores[0].labels;
    && PublicInternet !in labels
    && (forall n, i :: n in labels && i in labels[n] ==> i < |w.atoms|)
    && (forall i, n :: 0 <= i < |w.atoms| ==> (n in w.atoms[i].labels <==> n in labels && i in labels[n]))
    && (forall i :: 0 <= i < |w.atoms| ==> NoDup(w.atoms[i].labels))
  }

  // Every atom is declared exactly once, in the list of its kind.
  ghost predicate Ledger(w: World) {
    w.stores != [] &&
    var store := w.stores[0];
    && NoDup(store.containers) && NoDup(store.machines)
    && (forall i :: i in store.containers <==> 0 <= i < |w.atoms| && w.atoms[i].ContainerObj?)
    && (forall i :: i in store.machines <==> 0 <= i < |w.atoms| && w.atoms[i].MachineObj?)
  }

  // Every reference held by a term is live, label values agree with the store, and
  // closures hold only contexts that were copied for them.
  ghost predicate Refs(w: World, a: Ast) {
    match a
    case Sexp(elems) => forall x :: x in elems ==> Refs(w, x)
    case Module(_, body) => forall x :: x in body ==> Refs(w, x)
    case List(items, _) => forall x :: x in items ==> Refs(w, x)
    case Closure(_, do, ctx) =>
      ctx < |w.frames| && w.frames[ctx].copied && do != [] && forall x :: x in do ==> Refs(w, x)
    case Label(n, members) => w.stores != [] && n in w.stores[0].labels && w.stores[0].labels[n] == members
    case Atom(i) => i < |w.atoms|
    case _ => true
  }

  ghost predicate AllRefs(w: World, s: seq<Ast>) {
    forall x :: x in s ==> Refs(w, x)
  }

  // The label that a reference names, by the global store.
  ghost function Named(w: World, ref: Ast): Option<Ast> {
    match ref
    case Str(s) =>
      if s == PublicInternet then Some(Label(s, []))
      else if w.stores != [] && s in w.stores[0].labels then Some(Label(s, w.stores[0].labels[s]))
      else None
    case Label(_, _) => Some(ref)
    case _ => None
  }

  ghost function AllNamed(w: World, refs: seq<Ast>): Option<seq<Ast>> {
    if refs == [] then Some([])
    else match (Named(w, refs[0]), AllNamed(w, refs[1..]))
         case (Some(l), Some(rest)) => Some([l] + rest)
         case _ => None
  }

  ghost predicate Excluded(w: World, members: seq<nat>, pairs: set<(string, string)>) {
    forall i :: i in members ==> i < |w.atoms| && w.atoms[i].ContainerObj? && pairs <= w.atoms[i].exclusive
  }

  // A placement with these arguments has been made.
  ghost predicate Made(w: World, args: seq<Ast>) {
    && 2 <= |args| && args[0] == Str("exclusive")
    && var labels := AllNamed(w, Flatten(args[1..]));
       && labels.Some? && 2 <= |labels.value|
       && Excluded(w, AllMembers(labels.value), ExclusivePairs(Idents(labels.value)))
  }

  // All placements that occur in a value have been made.
  ghost predicate Placed(w: World, v: Ast) {
    match v
    case Sexp(elems) => elems != [] && Made(w, elems[1..]) && forall x :: x in elems ==> Placed(w, x)
    case Module(_, body) => forall x :: x in body ==> Placed(w, x)
    case List(items, _) => forall x :: x in items ==> Placed(w, x)
    case _ => true
  }

  ghost predicate GoodValue(w: World, v: Ast) {
    Settled(v) && Refs(w, v) && Placed(w, v)
  }

  ghost predicate GoodBinds(w: World, binds: map<Id, Ast>) {
    forall id :: id in binds ==> GoodValue(w, binds[id])
  }

  ghost predicate Bound(w: World) {
    forall i :: 0 <= i < |w.frames| ==> GoodBinds(w, w.frames[i].binds)
  }

  ghost predicate Inv(w: World) {
    Shape(w) && Labelled(w) && Ledger(w) && Bound(w)
  }

  lemma InitialInv()
    ensures Inv(Initial)
  {
  }

  // ---------------------------------------------------------------------------------
  // Growth
  // ---------------------------------------------------------------------------------

  ghost predicate AtomGrows(a: AtomObj, b: AtomObj) {
    && a.labels <= b.labels
    && match a
       case ContainerObj(image, command, _, exclusive, _) =>
         b.ContainerObj? && b.image == image && b.command == command && exclusive <= b.exclusive
       case MachineObj(_, _, _) => b.MachineObj?
  }

  ghost predicate StoreGrows(s: Store, t: Store) {
    && (forall n :: n in s.labels ==> n in t.labels && t.labels[n] == s.labels[n])
    && s.connections <= t.connections && s.containers <= t.containers && s.machines <= t.machines
  }

  // Nothing declared is ever taken back.
  ghost predicate Grows(w: World, w': World) {
    && |w.frames| <= |w'.frames| && |w.atoms| <= |w'.atoms|
    && (forall i :: 0 <= i < |w.frames| ==> w'.frames[i].copied == w.frames[i].copied)
    && (forall i :: 0 <= i < |w.atoms| ==> AtomGrows(w.atoms[i], w'.atoms[i]))
    && w.stores != [] && |w.stores| <= |w'.stores| && StoreGrows(w.stores[0], w'.stores[0])
  }

  lemma GrowsTransitive(w: World, w1: World, w2: World)
    requires Grows(w, w1) && Grows(w1, w2)
    ensures Grows(w, w2)
  {
    forall i | 0 <= i < |w.atoms| ensures AtomGrows(w.atoms[i], w2.atoms[i]) {
      assert AtomGrows(w.atoms[i], w1.atoms[i]) && AtomGrows(w1.atoms[i], w2.atoms[i]);
    }
    forall i | 0 <= i < |w.frames| ensures w2.frames[i].copied == w.frames[i].copied {
      assert w1.frames[i].copied == w.frames[i].copied;
    }
  }

  lemma {:induction false} RefsGrow(w: World, w': World, a: Ast)
    requires Grows(w, w') && Refs(w, a)
    ensures Refs(w', a)
    ensures Placed(w, a) ==> Placed(w', a)
    decreases a
  {
    match a
    case Sexp(elems) =>
      AllRefsGrow(w, w', elems);
      if Placed(w, a) { MadeGrows(w, w', elems[1..]); }
    case Module(_, body) => AllRefsGrow(w, w', body);
    case List(items, _) => AllRefsGrow(w, w', items);
    case Closure(_, do, ctx) => AllRefsGrow(w, w', do);
    case _ =>
  }

  lemma {:induction false} AllRefsGrow(w: World, w': World, s: seq<Ast>)
    requires Grows(w, w') && AllRefs(w, s)
    ensures AllRefs(w', s)
    ensures forall x :: x in s && Placed(w, x) ==> Placed(w', x)
    decreases s
  {
    forall x | x in s ensures Refs(w', x) && (Placed(w, x) ==> Placed(w', x)) {
      RefsGrow(w, w', x);
    }
  }

  lemma {:induction false} NamedGrows(w: World, w': World, refs: seq<Ast>)
    requires Grows(w, w') && AllNamed(w, refs).Some?
    ensures AllNamed(w', refs) == AllNamed(w, refs)
    decreases |refs|
  {
    if refs != [] { NamedGrows(w, w', refs[1..]); }
  }

  // What has been placed stays so.
  lemma MadeGrows(w: World, w': World, args: seq<Ast>)
    requires Grows(w, w') && Made(w, args)
    ensures Made(w', args)
  {
    NamedGrows(w, w', Flatten(args[1..]));
    var labels := AllNamed(w, Flatten(args[1..])).value;
    var members, pairs := AllMembers(labels), ExclusivePairs(Idents(labels));
    forall i | i in members ensures i < |w'.atoms| && w'.atoms[i].ContainerObj? && pairs <= w'.atoms[i].exclusive {
      assert AtomGrows(w.atoms[i], w'.atoms[i]);
    }
  }

  lemma BindsGrow(w: World, w': World, binds: map<Id, Ast>)
    requires Grows(w, w') && GoodBinds(w, binds)
    ensures GoodBinds(w', binds)
  {
    forall id | id in binds ensures GoodValue(w', binds[id]) {
      assert GoodValue(w, binds[id]);
      RefsGrow(w, w', binds[id]);
    }
  }

  // Existing contexts are untouched, except for the bindings of `c`.
  ghost predicate KeptBut(w: World, w': World, c: nat) {
    && |w.frames| <= |w'.frames|
    && (forall i :: 0 <= i < |w.frames| && i != c ==> w'.frames[i] == w.frames[i])
    && (c < |w.frames| ==> w'.frames[c] == w.frames[c].(binds := w'.frames[c].binds))
  }

  ghost predicate Kept(w: World, w': World) {
    |w.frames| <= |w'.frames| && forall i :: 0 <= i < |w.frames| ==> w'.frames[i] == w.frames[i]
  }

  // ---------------------------------------------------------------------------------
  // Contexts
  // ---------------------------------------------------------------------------------

  // All contexts share one global store.
  lemma {:induction false} GlobalShared(w: World, c: nat)
    requires Shape(w) && c < |w.frames|
    ensures var g := GlobalOf(w, c); g < |w.frames| && w.frames[g].parent.None? && w.frames[g].store == 0
  {
    assert FrameShape(w, c);
    if w.frames[c].parent.Some? { GlobalShared(w, w.frames[c].parent.value); }
  }

  lemma NewFrameInv(w: World, parent: nat)
    requires Inv(w) && parent < |w.frames|
    ensures var w' := NewFrame(w, parent); Inv(w') && Grows(w, w') && Kept(w, w')
  {
    var w' := NewFrame(w, parent);
    forall i | 0 <= i < |w'.frames| ensures FrameShape(w', i) {
      if i < |w.frames| { assert FrameShape(w, i); }
    }
    forall i | 0 <= i < |w'.frames| ensures GoodBinds(w', w'.frames[i].binds) {
      if i < |w.frames| { BindsGrow(w, w', w.frames[i].binds); }
    }
  }

  lemma BindInv(w: World, c: nat, binds: map<Id, Ast>)
    requires Inv(w) && c < |w.frames| && GoodBinds(w, binds)
    ensures var w' := Bind(w, c, binds); Inv(w') && Grows(w, w') && KeptBut(w, w', c)
  {
    var w' := Bind(w, c, binds);
    forall i | 0 <= i < |w'.frames| ensures FrameShape(w', i) {
      assert FrameShape(w, i);
    }
    forall i | 0 <= i < |w'.frames| ensures GoodBinds(w', w'.frames[i].binds) {
      BindsGrow(w, w', w.frames[i].binds);
      BindsGrow(w, w', binds);
    }
  }

  // Appending a copied frame over the global store.
  lemma AppendCopyInv(w: World, f: Frame)
    requires Inv(w) && f.copied && GoodBinds(w, f.binds)
    requires f.parent.None? ==> f.store == 0
    requires f.parent.Some? ==>
               f.parent.value < |w.frames| && w.frames[f.parent.value].copied && 0 < f.store < |w.stores|
    ensures var w' := w.(frames := w.frames + [f]); Inv(w') && Grows(w, w') && Kept(w, w')
  {
    var w' := w.(frames := w.frames + [f]);
    forall i | 0 <= i < |w'.frames| ensures FrameShape(w', i) {
      if i < |w.frames| { assert FrameShape(w, i); }
    }
    forall i | 0 <= i < |w'.frames| ensures GoodBinds(w', w'.frames[i].binds) {
      BindsGrow(w, w', if i < |w.frames| then w.frames[i].binds else f.binds);
    }
  }

  lemma {:induction false} DeepCopyInv(w: World, c: nat)
    requires Inv(w) && c < |w.frames|
    ensures var w' := DeepCopy(w, c);
            Inv(w') && Grows(w, w') && Kept(w, w') && w'.frames[|w'.frames| - 1].copied
    decreases c
  {
    var f := w.frames[c];
    assert FrameShape(w, c);
    assert GoodBinds(w, f.binds);
    match f.parent
    case None => AppendCopyInv(w, Frame(f.binds, f.store, None, true));
    case Some(p) =>
      DeepCopyInv(w, p);
      CopyStep(w, c, p);
      CopyAbove(w, DeepCopy(w, p), f);
  }

  lemma CopyStep(w: World, c: nat, p: nat)
    requires c < |w.frames| && w.frames[c].parent == Some(p) && p < c
    ensures var f, w1 := w.frames[c], DeepCopy(w, p);
            DeepCopy(w, c) ==
              w1.(frames := w1.frames + [Frame(f.binds, f.store, Some((|w1.frames| - 1) as nat), true)])
  {
  }

  lemma CopyAbove(w: World, w1: World, f: Frame)
    requires Inv(w1) && Grows(w, w1) && Kept(w, w1) && w1.frames != [] && w1.frames[|w1.frames| - 1].copied
    requires GoodBinds(w, f.binds) && 0 < f.store < |w1.stores|
    ensures var w' := w1.(frames := w1.frames + [Frame(f.binds, f.store, Some((|w1.frames| - 1) as nat), true)]);
            Inv(w') && Grows(w, w') && Kept(w, w')
  {
    var g := Frame(f.binds, f.store, Some((|w1.frames| - 1) as nat), true);
    BindsGrow(w, w1, f.binds);
    AppendCopyInv(w1, g);
    GrowsTransitive(w, w1, w1.(frames := w1.frames + [g]));
  }

  // A copied context sees exactly the bindings its original saw.
  lemma {:induction false} DeepCopySees(w: World, c: nat, id: Id)
    requires Shape(w) && c < |w.frames|
    ensures var w' := DeepCopy(w, c); Lookup(w', |w'.frames| - 1, id) == Lookup(w, c, id)
    decreases c
  {
    assert FrameShape(w, c);
    match w.frames[c].parent
    case None =>
    case Some(p) =>
      DeepCopySees(w, p, id);
      CopyStep(w, c, p);
      var w1, f := DeepCopy(w, p), w.frames[c];
      LookupAbove(w1, Frame(f.binds, f.store, Some((|w1.frames| - 1) as nat), true), id);
  }

  // Looking up from a context put above the last one.
  lemma {:induction false} LookupAbove(w: World, f: Frame, id: Id)
    requires w.frames != [] && f.parent == Some(|w.frames| - 1)
    ensures Lookup(w.(frames := w.frames + [f]), |w.frames|, id)
         == if id in f.binds then Some(f.binds[id]) else Lookup(w, |w.frames| - 1, id)
  {
    var w' := w.(frames := w.frames + [f]);
    assert w'.frames[|w.frames|] == f;
    LookupPrefix(w, w', |w.frames| - 1, id);
  }

  lemma {:induction false} LookupPrefix(w: World, w': World, c: nat, id: Id)
    requires c < |w.frames| && Kept(w, w')
    ensures Lookup(w', c, id) == Lookup(w, c, id)
    decreases c
  {
    assert w'.frames[c] == w.frames[c];
    if id !in w.frames[c].binds && ParentOf(w, c).Some? { LookupPrefix(w, w', ParentOf(w, c).value, id); }
  }

  lemma CleanGlobalInv(w: World, c: nat)
    requires Inv(w) && c < |w.frames|
    ensures var w' := CleanGlobal(w, c);
            Inv(w') && Grows(w, w') && Kept(w, w') && |w'.frames| == |w.frames| + 1
  {
    GlobalShared(w, c);
    AppendCopyInv(w, Frame(map[], w.frames[GlobalOf(w, c)].store, None, true));
  }

  lemma {:induction false} LookupGood(w: World, c: nat, id: Id)
    requires Inv(w) && c < |w.frames| && Lookup(w, c, id).Some?
    ensures GoodValue(w, Lookup(w, c, id).value)
  {
    var f := w.frames[c];
    assert FrameShape(w, c) && GoodBinds(w, f.binds);
    if id in f.binds {
      assert GoodValue(w, f.binds[id]);
    } else {
      LookupGood(w, f.parent.value, id);
    }
  }

  // A string resolves exactly when it is "public" or names a declared label.
  lemma {:induction false} ResolveGood(w: World, c: nat, ref: Ast)
    requires Inv(w) && c < |w.frames| && Refs(w, ref)
    ensures var r := ResolveLabel(w, c, ref);
            && (ref.Str? ==> (r.Some? <==> ref.s == PublicInternet || ref.s in w.stores[0].labels))
            && (ref.Label? ==> r == Some(ref))
            && (r.Some? ==> r.value.Label? && (r.value == Label(PublicInternet, []) || Refs(w, r.value)))
            && (r.Some? && ref.Str? ==>
                  r.value == Label(ref.s, if ref.s == PublicInternet then [] else w.stores[0].labels[ref.s]))
  {
    var f := w.frames[c];
    assert FrameShape(w, c);
    if f.parent.Some? {
      assert w.stores[f.store] == EmptyStore;
      ResolveGood(w, f.parent.value, ref);
    }
  }

  // ---------------------------------------------------------------------------------
  // Built-ins that change atoms without touching their labels
  // ---------------------------------------------------------------------------------

  ghost predicate Touches(w: World, w': World) {
    && w'.frames == w.frames && w'.stores == w.stores && |w'.atoms| == |w.atoms|
    && forall i :: 0 <= i < |w.atoms| ==> w'.atoms[i].labels == w.atoms[i].labels && AtomGrows(w.atoms[i], w'.atoms[i])
  }

  // The given containers get the given exclusions, and nothing else changes.
  ghost predicate Excludes(w: World, w': World, members: seq<nat>, pairs: set<(string, string)>) {
    && w'.frames == w.frames && w'.stores == w.stores && |w'.atoms| == |w.atoms|
    && (forall i :: i in members ==> i < |w.atoms| && w.atoms[i].ContainerObj?)
    && forall i :: 0 <= i < |w.atoms| ==>
         w'.atoms[i] == if i in members then w.atoms[i].(exclusive := w.atoms[i].exclusive + pairs) else w.atoms[i]
  }

  lemma TouchesInv(w: World, w': World)
    requires Inv(w) && Touches(w, w')
    ensures Inv(w') && Grows(w, w')
  {
    forall i | 0 <= i < |w'.frames| ensures FrameShape(w', i) {
      assert FrameShape(w, i);
    }
    forall i | 0 <= i < |w'.frames| ensures GoodBinds(w', w'.frames[i].binds) {
      BindsGrow(w, w', w.frames[i].binds);
    }
    forall i, n | 0 <= i < |w'.atoms|
      ensures n in w'.atoms[i].labels <==> n in w'.stores[0].labels && i in w'.stores[0].labels[n]
    {
      assert w'.atoms[i].labels == w.atoms[i].labels;
    }
    forall i | 0 <= i < |w'.atoms| ensures AtomGrows(w.atoms[i], w'.atoms[i]) {
      assert w'.atoms[i].labels == w.atoms[i].labels;
    }
  }

  lemma TouchesOne(w: World, w1: World, w2: World, i: nat)
    requires i < |w.atoms| == |w1.atoms| && w1 == SetAtom(w, i, w1.atoms[i]) && Touches(w1, w2)
    requires w1.atoms[i].labels == w.atoms[i].labels && AtomGrows(w.atoms[i], w1.atoms[i])
    ensures Touches(w, w2)
  {
    forall k | 0 <= k < |w.atoms|
      ensures w2.atoms[k].labels == w.atoms[k].labels && AtomGrows(w.atoms[k], w2.atoms[k])
    {
      assert AtomGrows(w1.atoms[k], w2.atoms[k]);
    }
  }

  lemma {:induction false} SetEnvTouches(w: World, targets: seq<nat>, key: string, value: string)
    requires SetEnvOn(w, targets, key, value).Some?
    ensures Touches(w, SetEnvOn(w, targets, key, value).value)
    decreases |targets|
  {
    if targets != [] {
      var i := targets[0];
      var w1 := SetAtom(w, i, w.atoms[i].(env := w.atoms[i].env[key := value]));
      SetEnvTouches(w1, targets[1..], key, value);
      TouchesOne(w, w1, SetEnvOn(w1, targets[1..], key, value).value, i);
    }
  }

  lemma {:induction false} ExclusiveTouches(w: World, members: seq<nat>, pairs: set<(string, string)>)
    requires AddExclusive(w, members, pairs).Some?
    ensures var w' := AddExclusive(w, members, pairs).value; Excludes(w, w', members, pairs) && Touches(w, w')
    decreases |members|
  {
    if members != [] {
      var i := members[0];
      var w1 := SetAtom(w, i, w.atoms[i].(exclusive := w.atoms[i].exclusive + pairs));
      ExclusiveTouches(w1, members[1..], pairs);
      var w2 := AddExclusive(w1, members[1..], pairs).value;
      assert forall k :: k in members <==> k == i || k in members[1..];
      forall k | 0 <= k < |w.atoms|
        ensures w2.atoms[k] ==
                  if k in members then w.atoms[k].(exclusive := w.atoms[k].exclusive + pairs) else w.atoms[k]
      {
        if k == i { assert w.atoms[i].exclusive + pairs + pairs == w.atoms[i].exclusive + pairs; }
      }
    }
  }

  lemma {:induction false} SetAttributesLabels(m: AtomObj, args: seq<Ast>)
    requires m.MachineObj? && SetAttributes(m, args).Some?
    ensures var m' := SetAttributes(m, args).value; m'.MachineObj? && m'.labels == m.labels
    decreases |args|
  {
    if args != [] {
      var k := args[0].kind;
      SetAttributesLabels(if k.GithubKey? || k.PlaintextKey? then m.(keys := m.keys + [args[0]])
                          else m.(attrs := m.attrs[k := args[0].arg]), args[1..]);
    }
  }

  lemma {:induction false} ChangeMachinesTouches(w: World, ms: seq<Ast>, args: seq<Ast>)
    requires ChangeMachines(w, ms, args).Some?
    ensures Touches(w, ChangeMachines(w, ms, args).value)
    decreases |ms|
  {
    if ms != [] {
      var i := ms[0].ref;
      SetAttributesLabels(w.atoms[i], args);
      var w1 := SetAtom(w, i, SetAttributes(w.atoms[i], args).value);
      ChangeMachinesTouches(w1, ms[1..], args);
      TouchesOne(w, w1, ChangeMachines(w1, ms[1..], args).value, i);
    }
  }

  // ---------------------------------------------------------------------------------
  // Declarations
  // ---------------------------------------------------------------------------------

  // A new atom, appended together with its entry in the ledger.
  ghost function Declare(w: World, a: AtomObj): World
    requires w.stores != []
  {
    var store := w.stores[0];
    var i := |w.atoms|;
    World(w.frames,
          w.stores[0 := if a.ContainerObj? then store.(containers := store.containers + [i])
                        else store.(machines := store.machines + [i])],
          w.atoms + [a])
  }

  lemma DeclareInv(w: World, a: AtomObj)
    requires Inv(w) && a.labels == []
    ensures var w' := Declare(w, a); Inv(w') && Grows(w, w')
  {
    var w' := Declare(w, a);
    var i := |w.atoms|;
    forall k | 0 <= k < |w'.frames| ensures FrameShape(w', k) {
      assert FrameShape(w, k);
    }
    assert Grows(w, w');
    forall k | 0 <= k < |w'.frames| ensures GoodBinds(w', w'.frames[k].binds) {
      BindsGrow(w, w', w.frames[k].binds);
    }
    assert Labelled(w');
    assert Ledger(w') by {
      assert i !in w.stores[0].containers && i !in w.stores[0].machines;
      assert forall k :: 0 <= k < |w.atoms| ==> w'.atoms[k] == w.atoms[k];
    }
  }

  lemma ConnectionsInv(w: World, added: set<Connection>)
    requires Inv(w)
    ensures var w' := w.(stores := w.stores[0 := w.stores[0].(connections := w.stores[0].connections + added)]);
            Inv(w') && Grows(w, w')
  {
    var w' := w.(stores := w.stores[0 := w.stores[0].(connections := w.stores[0].connections + added)]);
    forall k | 0 <= k < |w'.frames| ensures FrameShape(w', k) {
      assert FrameShape(w, k);
    }
    forall k | 0 <= k < |w'.frames| ensures GoodBinds(w', w'.frames[k].binds) {
      BindsGrow(w, w', w.frames[k].binds);
    }
  }

  lemma {:induction false} AddLabelsAt(w: World, members: seq<nat>, name: string)
    ensures var w' := AddLabels(w, members, name);
            && w'.frames == w.frames && w'.stores == w.stores && |w'.atoms| == |w.atoms|
            && forall i :: 0 <= i < |w.atoms| ==>
                 w'.atoms[i] == if i in members then AddLabel(w.atoms[i], name) else w.atoms[i]
    decreases |members|
  {
    if members != [] {
      var i := members[0];
      AddLabelsAt(if i < |w.atoms| then SetAtom(w, i, AddLabel(w.atoms[i], name)) else w, members[1..], name);
    }
  }

  lemma {:induction false} MembersGood(w: World, c: nat, elems: seq<Ast>)
    requires Inv(w) && c < |w.frames| && AllRefs(w, elems) && MembersOf(w, c, elems).Some?
    ensures forall i :: i in MembersOf(w, c, elems).value ==> i < |w.atoms|
  {
    if elems != [] {
      MembersGood(w, c, elems[1..]);
      assert Refs(w, elems[0]);
      ResolveGood(w, c, elems[0]);
    }
  }

  // Declaring a new label over existing atoms.
  ghost function AddLabelTo(w: World, name: string, members: seq<nat>): World
    requires w.stores != []
  {
    var w1 := AddLabels(w, members, name);
    World(w1.frames, w.stores[0 := w.stores[0].(labels := w.stores[0].labels[name := members])], w1.atoms)
  }

  lemma AddLabelToInv(w: World, name: string, members: seq<nat>)
    requires Inv(w) && name != PublicInternet && name !in w.stores[0].labels
    requires forall i :: i in members ==> i < |w.atoms|
    ensures var w' := AddLabelTo(w, name, members); Inv(w') && Grows(w, w')
  {
    var w' := AddLabelTo(w, name, members);
    AddLabelsAt(w, members, name);
    forall i | 0 <= i < |w.atoms|
      ensures w'.atoms[i] == (if i in members then w.atoms[i].(labels := w.atoms[i].labels + [name]) else w.atoms[i])
    {
      assert name !in w.atoms[i].labels;
    }
    assert Grows(w, w');
    forall k | 0 <= k < |w'.frames| ensures FrameShape(w', k) {
      assert FrameShape(w, k);
    }
    forall k | 0 <= k < |w'.frames| ensures GoodBinds(w', w'.frames[k].binds) {
      BindsGrow(w, w', w.frames[k].binds);
    }
    AddLabelToLabelled(w, w', name, members);
  }

  lemma AddLabelToLabelled(w: World, w': World, name: string, members: seq<nat>)
    requires Labelled(w) && name != PublicInternet && name !in w.stores[0].labels
    requires forall i :: i in members ==> i < |w.atoms|
    requires w'.stores != [] && w'.stores[0].labels == w.stores[0].labels[name := members]
    requires |w'.atoms| == |w.atoms|
    requires forall i :: 0 <= i < |w.atoms| ==>
               w'.atoms[i] == (if i in members then w.atoms[i].(labels := w.atoms[i].labels + [name]) else w.atoms[i])
    ensures Labelled(w')
  {
    var labels, labels' := w.stores[0].labels, w'.stores[0].labels;
    forall i, n | 0 <= i < |w'.atoms|
      ensures n in w'.atoms[i].labels <==> n in labels' && i in labels'[n]
    {
      assert n in w.atoms[i].labels <==> n in labels && i in labels[n];
      if i in members {
        assert w'.atoms[i].labels == w.atoms[i].labels + [name];
      }
    }
    forall i | 0 <= i < |w'.atoms| ensures NoDup(w'.atoms[i].labels) {
      assert NoDup(w.atoms[i].labels);
      assert name !in w.atoms[i].labels;
    }
  }

  // ---------------------------------------------------------------------------------
  // All built-ins
  // ---------------------------------------------------------------------------------

  ghost predicate GoodArgs(w: World, args: seq<Ast>) {
    forall x :: x in args ==> GoodValue(w, x)
  }

  lemma {:induction false} FlattenGood(w: World, s: seq<Ast>)
    requires GoodArgs(w, s)
    ensures GoodArgs(w, Flatten(s))
  {
    if s != [] {
      FlattenGood(w, s[1..]);
      assert GoodValue(w, s[0]);
      if s[0].List? {
        forall x | x in s[0].items ensures GoodValue(w, x) {}
        FlattenGood(w, s[0].items);
      }
    }
  }

  lemma RangeGood(w: World, start: int, stop: int, step: int)
    requires 0 < step
    ensures GoodArgs(w, RangeList(start, stop, step))
    decreases stop - start
  {
    if start < stop { RangeGood(w, start + step, stop, step); }
  }

  lemma ComputeGood(f: Builtin, args: seq<Ast>, w: World)
    requires MinArgs(f) <= |args| && GoodArgs(w, args) && Compute(f, args, w).Some?
    ensures GoodValue(w, Compute(f, args, w).value)
  {
    match f
    case Car | Cdr =>
      assert GoodValue(w, args[0]);
      assert args[0].items[0] in args[0].items;
    case Cons =>
      assert GoodValue(w, args[0]) && GoodValue(w, args[1]);
      var r := Compute(f, args, w).value;
      forall x | x in r.items ensures GoodValue(w, x) {
        assert x == args[0] || x in args[1].items;
      }
    case Nth =>
      assert GoodValue(w, args[1]);
      assert args[1].items[args[0].n] in args[1].items;
    case MkList =>
      ListGood(w, args);
    case Range =>
      var r := Compute(f, args, w).value;
      var n := (i: nat) => if i < |args| && args[i].Int? then args[i].n else 0;
      var start, stop := if |args| == 1 then 0 else n(0), if |args| == 1 then n(0) else n(1);
      var step := if |args| == 3 then n(2) else 1;
      RangeGood(w, start, stop, step);
      assert r == MayBeNil(RangeList(start, stop, step));
      ListGood(w, r.items);
    case _ =>
  }

  lemma ListGood(w: World, s: seq<Ast>)
    requires GoodArgs(w, s)
    ensures (forall n :: GoodValue(w, List(s, n))) && forall name :: GoodValue(w, Module(name, s))
  {
    forall x | x in s ensures Settled(x) && Refs(w, x) && Placed(w, x) { assert GoodValue(w, x); }
  }

  // The outcome of a built-in on good arguments.
  ghost predicate GoodEffect(w: World, r: Ret<Ast>) {
    r.Ok? ==> Inv(r.w) && Grows(w, r.w) && r.w.frames == w.frames && GoodValue(r.w, r.value)
  }

  lemma PrimGood(f: Builtin, args: seq<Ast>, c: nat, w: World)
    requires Inv(w) && c < |w.frames| && GoodArgs(w, args) && MinArgs(f) <= |args|
    ensures GoodEffect(w, Prim(f, args, c, w))
  {
    if Effectful(f) {
      EffectGood(f, args, c, w);
    } else if Compute(f, args, w).Some? {
      ComputeGood(f, args, w);
    }
  }

  lemma EffectGood(f: Builtin, args: seq<Ast>, c: nat, w: World)
    requires Inv(w) && c < |w.frames| && GoodArgs(w, args) && MinArgs(f) <= |args|
    ensures GoodEffect(w, Effect(f, args, c, w))
  {
    match f
    case Docker | Machine | SetEnv | MachineAttribute => ObjectGood(f, args, c, w);
    case MkLabel | Connect | Placement => LinkGood(f, args, c, w);
    case LabelName | LabelHost =>
    case _ =>
  }

  lemma LinkGood(f: Builtin, args: seq<Ast>, c: nat, w: World)
    requires Inv(w) && c < |w.frames| && GoodArgs(w, args) && MinArgs(f) <= |args|
    requires f == MkLabel || f == Connect || f == Placement
    ensures GoodEffect(w, Effect(f, args, c, w))
  {
    match f
    case MkLabel => LabelGood(args, c, w);
    case Connect => ConnectGood(args, c, w);
    case Placement => PlacementGood(args, c, w);
  }

  lemma ObjectGood(f: Builtin, args: seq<Ast>, c: nat, w: World)
    requires Inv(w) && c < |w.frames| && GoodArgs(w, args) && MinArgs(f) <= |args|
    requires f == Docker || f == Machine || f == SetEnv || f == MachineAttribute
    ensures GoodEffect(w, Effect(f, args, c, w))
  {
    match f
    case Docker => DockerGood(args, c, w);
    case Machine => MachineGood(args, c, w);
    case SetEnv => SetEnvGood(args, c, w);
    case MachineAttribute => MachineAttributeGood(args, w);
  }

  lemma DockerGood(args: seq<Ast>, c: nat, w: World)
    requires Inv(w) && c < |w.frames|
    ensures GoodEffect(w, DockerImpl(args, c, w))
  {
    if DockerImpl(args, c, w).Ok? {
      GlobalShared(w, c);
      var ss := Strings(Flatten(args)).value;
      var a := ContainerObj(ss[0], ss[1..], map[], {}, []);
      DeclareInv(w, a);
      assert DockerImpl(args, c, w).w == Declare(w, a);
    }
  }

  lemma MachineGood(args: seq<Ast>, c: nat, w: World)
    requires Inv(w) && c < |w.frames|
    ensures GoodEffect(w, MachineImpl(args, c, w))
  {
    if MachineImpl(args, c, w).Ok? {
      GlobalShared(w, c);
      SetAttributesLabels(MachineObj(map[], [], []), Flatten(args));
      var a := SetAttributes(MachineObj(map[], [], []), Flatten(args)).value;
      DeclareInv(w, a);
      assert MachineImpl(args, c, w).w == Declare(w, a);
    }
  }

  lemma SetEnvGood(args: seq<Ast>, c: nat, w: World)
    requires Inv(w) && 3 <= |args|
    ensures GoodEffect(w, SetEnvImpl(args, c, w))
  {
    if SetEnvImpl(args, c, w).Ok? {
      var targets := MembersOf(w, c, Flatten([args[0]])).value;
      if targets != [] {
        SetEnvTouches(w, targets, args[1].s, args[2].s);
        TouchesInv(w, SetEnvImpl(args, c, w).w);
      }
    }
  }

  lemma MachineAttributeGood(args: seq<Ast>, w: World)
    requires Inv(w) && GoodArgs(w, args) && 2 <= |args|
    ensures GoodEffect(w, MachineAttributeImpl(args, w))
  {
    var r := MachineAttributeImpl(args, w);
    if r.Ok? {
      var ms := Flatten([args[0]]);
      ChangeMachinesTouches(w, ms, Flatten(args[1..]));
      TouchesInv(w, r.w);
      FlattenGood(w, [args[0]]);
      GoodArgsGrow(w, r.w, ms);
      ListGood(r.w, ms);
    }
  }

  lemma GoodArgsGrow(w: World, w': World, s: seq<Ast>)
    requires Grows(w, w') && GoodArgs(w, s)
    ensures GoodArgs(w', s)
  {
    forall x | x in s ensures GoodValue(w', x) {
      assert GoodValue(w, x);
      RefsGrow(w, w', x);
    }
  }

  lemma LabelGood(args: seq<Ast>, c: nat, w: World)
    requires Inv(w) && c < |w.frames| && GoodArgs(w, args) && 2 <= |args|
    ensures GoodEffect(w, LabelImpl(args, c, w))
    ensures LabelImpl(args, c, w).Ok? ==>
              var r := LabelImpl(args, c, w);
              && r.value.Label? && r.value.ident == args[0].s
              && MembersOf(w, c, Flatten(args[1..])) == Some(r.value.members)
              && r.w.stores != [] && r.w.stores[0].labels == w.stores[0].labels[args[0].s := r.value.members]
  {
    if LabelImpl(args, c, w).Ok? {
      var elems := Flatten(args[1..]);
      FlattenGood(w, args[1..]);
      forall x | x in elems ensures Refs(w, x) { assert GoodValue(w, x); }
      MembersGood(w, c, elems);
      ResolveGood(w, c, args[0]);
      var members := MembersOf(w, c, elems).value;
      AddLabelToInv(w, args[0].s, members);
      AddLabelsAt(w, members, args[0].s);
      GlobalShared(w, c);
      var w1 := AddLabels(w, members, args[0].s);
      GlobalSame(w, w1, c);
      assert LabelImpl(args, c, w).w == AddLabelTo(w, args[0].s, members);
    }
  }

  lemma {:induction false} GlobalSame(w: World, w': World, c: nat)
    requires w'.frames == w.frames
    ensures GlobalOf(w', c) == GlobalOf(w, c)
    decreases c
  {
    if ParentOf(w, c).Some? { GlobalSame(w, w', ParentOf(w, c).value); }
  }

  lemma ConnectGood(args: seq<Ast>, c: nat, w: World)
    requires Inv(w) && c < |w.frames| && 3 <= |args|
    ensures GoodEffect(w, ConnectImpl(args, c, w))
  {
    if ConnectImpl(args, c, w).Ok? {
      GlobalShared(w, c);
      var (min, max) := Ports(args[0]).value;
      var fs := Idents(FlattenLabel(w, c, Flatten([args[1]])).value);
      var ts := Idents(FlattenLabel(w, c, Flatten(args[2..])).value);
      ConnectionsInv(w, set f, t | f in fs && t in ts :: Connection(f, t, min, max));
    }
  }

  lemma PlacementGood(args: seq<Ast>, c: nat, w: World)
    requires Inv(w) && c < |w.frames| && GoodArgs(w, args) && 2 <= |args|
    ensures GoodEffect(w, PlacementImpl(args, c, w))
    ensures PlacementImpl(args, c, w).Ok? ==>
              var labels := FlattenLabel(w, c, Flatten(args[1..]));
              && labels.Some? && PlacementImpl(args, c, w).value == Sexp([Ident(Fn(Placement))] + args)
              && Excludes(w, PlacementImpl(args, c, w).w, AllMembers(labels.value),
                          ExclusivePairs(Idents(labels.value)))
  {
    var r := PlacementImpl(args, c, w);
    if r.Ok? {
      var labels := FlattenLabel(w, c, Flatten(args[1..])).value;
      ExclusiveTouches(w, AllMembers(labels), ExclusivePairs(Idents(labels)));
      TouchesInv(w, r.w);
      forall x | x in r.value.elems ensures Settled(x) && Refs(r.w, x) && Placed(r.w, x) {
        if x != Ident(Fn(Placement)) {
          assert x in args;
          assert GoodValue(w, x);
          RefsGrow(w, r.w, x);
        }
      }
      PlacementMade(args, c, w);
      assert r.value.elems[1..] == args;
    }
  }

  lemma {:induction false} ResolvesNamed(w: World, c: nat, ref: Ast)
    requires Inv(w) && c < |w.frames|
    ensures ResolveLabel(w, c, ref) == Named(w, ref)
    decreases c
  {
    var f := w.frames[c];
    assert FrameShape(w, c);
    if f.parent.Some? {
      assert w.stores[f.store] == EmptyStore;
      ResolvesNamed(w, f.parent.value, ref);
    }
  }

  lemma {:induction false} AllResolveNamed(w: World, c: nat, refs: seq<Ast>)
    requires Inv(w) && c < |w.frames|
    ensures FlattenLabel(w, c, refs) == AllNamed(w, refs)
    decreases |refs|
  {
    if refs != [] {
      ResolvesNamed(w, c, refs[0]);
      AllResolveNamed(w, c, refs[1..]);
    }
  }

  lemma PlacementMade(args: seq<Ast>, c: nat, w: World)
    requires Inv(w) && c < |w.frames| && 2 <= |args| && PlacementImpl(args, c, w).Ok?
    ensures Made(PlacementImpl(args, c, w).w, args)
  {
    var refs, r := Flatten(args[1..]), PlacementImpl(args, c, w);
    AllResolveNamed(w, c, refs);
    var labels := AllNamed(w, refs).value;
    ExclusiveTouches(w, AllMembers(labels), ExclusivePairs(Idents(labels)));
    SameNamed(w, r.w, refs);
  }

  lemma {:induction false} SameNamed(w: World, w': World, refs: seq<Ast>)
    requires w'.stores == w.stores
    ensures AllNamed(w', refs) == AllNamed(w, refs)
    decreases |refs|
  {
    if refs != [] { SameNamed(w, w', refs[1..]); }
  }
}
