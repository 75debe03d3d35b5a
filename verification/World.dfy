/** The heap of the evaluator: evaluation contexts linked by parent pointers, the global
    structures they point to, and the atoms (containers and machines) of dsl/eval.go. */
module World {
  import opened Basics
  import opened Syntax

  datatype Connection = Connection(from: string, to: string, min: int, max: int)

  // labels, connections, machines and containers of an evalCtx, always created together.
  datatype Store = Store(labels: map<string, seq<nat>>, connections: set<Connection>,
                         machines: seq<nat>, containers: seq<nat>)

  const EmptyStore := Store(map[], {}, [], [])

  // An evalCtx.  `copied` says that it was made by deepCopy rather than by newEvalCtx.
  datatype Frame = Frame(binds: map<Id, Ast>, store: nat, parent: Option<nat>, copied: bool)

  datatype AtomObj =
    | ContainerObj(image: string, command: seq<string>, env: map<string, string>,
                   exclusive: set<(string, string)>, labels: seq<string>)
    | MachineObj(attrs: map<AttrKind, Ast>, keys: seq<Ast>, labels: seq<string>)

  datatype World = World(frames: seq<Frame>, stores: seq<Store>, atoms: seq<AtomObj>)

  const Initial := World([Frame(map[], 0, None, false)], [EmptyStore], [])

  // Heap accesses are total so that evaluation needs no side conditions; on the worlds
  // evaluation reaches, every reference is in range.
  function FrameAt(w: World, c: nat): Frame {
    if c < |w.frames| then w.frames[c] else Frame(map[], 0, None, false)
  }

  function StoreAt(w: World, s: nat): Store {
    if s < |w.stores| then w.stores[s] else EmptyStore
  }

  function ParentOf(w: World, c: nat): Option<nat> {
    var p := FrameAt(w, c).parent;
    if p.Some? && p.value < c then p else None
  }

  function GlobalOf(w: World, c: nat): nat
    decreases c
  {
    match ParentOf(w, c)
    case None => c
    case Some(p) => GlobalOf(w, p)
  }

  function Bind(w: World, c: nat, binds: map<Id, Ast>): World {
    if c < |w.frames| then w.(frames := w.frames[c := w.frames[c].(binds := w.frames[c].binds + binds)]) else w
  }

  function SetStore(w: World, s: nat, store: Store): World {
    if s < |w.stores| then w.(stores := w.stores[s := store]) else w
  }

  function SetAtom(w: World, i: nat, a: AtomObj): World {
    if i < |w.atoms| then w.(atoms := w.atoms[i := a]) else w
  }

  function NewFrame(w: World, parent: nat): World {
    w.(frames := w.frames + [Frame(map[], |w.stores|, Some(parent), false)], stores := w.stores + [EmptyStore])
  }

  // Copies the chain of contexts, sharing the global structures.  The copy of `c` is the
  // last frame of the result.
  function DeepCopy(w: World, c: nat): (r: World)
    decreases c
    ensures |w.frames| < |r.frames| && r.stores == w.stores && r.atoms == w.atoms
    ensures r.frames[..|w.frames|] == w.frames
  {
    var f := FrameAt(w, c);
    match ParentOf(w, c)
    case None => w.(frames := w.frames + [Frame(f.binds, f.store, None, true)])
    case Some(p) =>
      var w1 := DeepCopy(w, p);
      w1.(frames := w1.frames + [Frame(f.binds, f.store, Some((|w1.frames| - 1) as nat), true)])
  }

  // The context a module body starts from: the global structures without any binding.
  function CleanGlobal(w: World, c: nat): World {
    var g := FrameAt(w, GlobalOf(w, c));
    w.(frames := w.frames + [Frame(map[], g.store, None, true)])
  }

  function Lookup(w: World, c: nat, id: Id): Option<Ast>
    decreases c
  {
    var f := FrameAt(w, c);
    if id in f.binds then Some(f.binds[id])
    else match ParentOf(w, c)
         case None => None
         case Some(p) => Lookup(w, p, id)
  }

  const PublicInternet := "public"

  // The label a string or label value refers to, searched from `c` towards the root.
  function ResolveLabel(w: World, c: nat, ref: Ast): Option<Ast>
    decreases c
  {
    if ref.Str? && ref.s == PublicInternet then Some(Label(ref.s, []))
    else if ref.Str? && ref.s in StoreAt(w, FrameAt(w, c).store).labels then
      Some(Label(ref.s, StoreAt(w, FrameAt(w, c).store).labels[ref.s]))
    else if ref.Label? then Some(ref)
    else match ParentOf(w, c)
         case None => None
         case Some(p) => ResolveLabel(w, p, ref)
  }
}
