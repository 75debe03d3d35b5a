/** The built-ins of dsl/func.go that do not evaluate anything themselves: they take
    evaluated arguments and may change the global structures and the atoms. */
module Prims {
  import opened Basics
  import opened Syntax
  import opened World

  // The outcome of an evaluation.  An error abandons the whole evaluation, so it carries
  // no world; NoFuel says only that the evaluation did not finish within its fuel.
  datatype Ret<T> = Ok(value: T, w: World) | Err | NoFuel {
    predicate IsFailure() { !Ok? }
    function PropagateFailure<U>(): Ret<U>
      requires !Ok?
    {
      if Err? then Err else NoFuel
    }
    function Extract(): (T, World)
      requires Ok?
    {
      (value, w)
    }
  }

  function MinArgs(f: Builtin): nat {
    match f
    case MkList | Machine => 0
    case Not | And | ToBool | Car | Cdr | Docker | Import | LabelName | LabelHost | Let | Len | Or
       | Panic | Progn | Range | Attribute(_) => 1
    case Connect | SetEnv => 3
    case _ => 2
  }

  // Built-ins whose arguments are not evaluated automatically.
  predicate Lazy(f: Builtin) {
    f.And? || f.Define? || f.If? || f.Import? || f.MkLambda? || f.Let? || f.MakeList? || f.MkModule? || f.Or?
  }

  // Strict built-ins that evaluate s-expressions they construct.
  predicate HigherOrder(f: Builtin) {
    f.Not? || f.Apply? || f.MapOver? || f.Reduce?
  }

  // ---------------------------------------------------------------------------------
  // Numbers, strings and lists
  // ---------------------------------------------------------------------------------

  function Wrap64(x: int): int {
    (x + 0x8000_0000_0000_0000) % 0x1_0000_0000_0000_0000 - 0x8000_0000_0000_0000
  }

  // Go's division truncates toward zero.
  function TruncDiv(a: int, b: int): int
    requires b != 0
  {
    var q := (if a < 0 then -a else a) / (if b < 0 then -b else b);
    if (a < 0) == (b < 0) then q else -q
  }

  function Arith(f: Builtin, a: int, b: int): Option<int> {
    match f
    case Plus => Some(Wrap64(a + b))
    case Sub => Some(Wrap64(a - b))
    case Mul => Some(Wrap64(a * b))
    case Div => if b == 0 then None else Some(Wrap64(TruncDiv(a, b)))
    case _ => if b == 0 then None else Some(a - b * TruncDiv(a, b))
  }

  function FoldArith(f: Builtin, total: int, rest: seq<Ast>): Option<int>
    decreases |rest|
  {
    if rest == [] then Some(total)
    else if !rest[0].Int? then None
    else match Arith(f, total, rest[0].n)
         case None => None
         case Some(t) => FoldArith(f, t, rest[1..])
  }

  function Concat(args: seq<Ast>): Option<string> {
    if args == [] then Some("")
    else if !args[0].Str? then None
    else match Concat(args[1..])
         case None => None
         case Some(s) => Some(args[0].s + s)
  }

  function Strings(args: seq<Ast>): Option<seq<string>> {
    if args == [] then Some([])
    else if !args[0].Str? then None
    else match Strings(args[1..])
         case None => None
         case Some(s) => Some([args[0].s] + s)
  }

  function RangeList(start: int, stop: int, step: int): seq<Ast>
    requires 0 < step
    decreases stop - start
  {
    if stop <= start then [] else [Int(start)] + RangeList(start + step, stop, step)
  }

  // A list built by appending to a nil slice.
  function MayBeNil(items: seq<Ast>): Ast { List(items, items == []) }

  predicate SameAtom(w: World, i: nat, j: nat) {
    i == j || (i < |w.atoms| && j < |w.atoms| && w.atoms[i] == w.atoms[j])
  }

  // reflect.DeepEqual, which follows the pointers to atoms.
  predicate DeepEq(w: World, a: Ast, b: Ast) {
    match (a, b)
    case (List(s, m), List(t, n)) => m == n && |s| == |t| && forall i :: 0 <= i < |s| ==> DeepEq(w, s[i], t[i])
    case (Module(n, s), Module(m, t)) => n == m && |s| == |t| && forall i :: 0 <= i < |s| ==> DeepEq(w, s[i], t[i])
    case (Sexp(s), Sexp(t)) => |s| == |t| && forall i :: 0 <= i < |s| ==> DeepEq(w, s[i], t[i])
    case (Atom(i), Atom(j)) => SameAtom(w, i, j)
    case (Label(n, s), Label(m, t)) =>
      n == m && |s| == |t| && forall i :: 0 <= i < |s| ==> SameAtom(w, s[i], t[i])
    case _ => a == b
  }

  // ---------------------------------------------------------------------------------
  // Labels
  // ---------------------------------------------------------------------------------

  // The atoms that flattened `label` arguments stand for.
  function MembersOf(w: World, c: nat, elems: seq<Ast>): Option<seq<nat>> {
    if elems == [] then Some([])
    else match MembersOf(w, c, elems[1..])
         case None => None
         case Some(rest) =>
           match elems[0]
           case Atom(i) => Some([i] + rest)
           case Str(_) | Label(_, _) =>
             (match ResolveLabel(w, c, elems[0])
              case None => None
              case Some(l) => if l.Label? then Some(l.members + rest) else None)
           case _ => None
  }

  function AddLabel(a: AtomObj, name: string): AtomObj {
    if a.labels != [] && a.labels[|a.labels| - 1] == name then a else a.(labels := a.labels + [name])
  }

  function AddLabels(w: World, members: seq<nat>, name: string): World
    decreases |members|
  {
    if members == [] then w
    else
      var i := members[0];
      AddLabels(if i < |w.atoms| then SetAtom(w, i, AddLabel(w.atoms[i], name)) else w, members[1..], name)
  }

  function LabelImpl(args: seq<Ast>, c: nat, w: World): Ret<Ast>
    requires 2 <= |args|
  {
    if !args[0].Str? then Err
    else if args[0].s == PublicInternet then Err
    else if ResolveLabel(w, c, args[0]).Some? then Err
    else match MembersOf(w, c, Flatten(args[1..]))
         case None => Err
         case Some(members) =>
           var w1 := AddLabels(w, members, args[0].s);
           var s := FrameAt(w1, GlobalOf(w1, c)).store;
           var store := StoreAt(w1, s);
           Ok(Label(args[0].s, members), SetStore(w1, s, store.(labels := store.labels[args[0].s := members])))
  }

  // The labels that flattened references stand for.
  function FlattenLabel(w: World, c: nat, elems: seq<Ast>): Option<seq<Ast>> {
    if elems == [] then Some([])
    else match (ResolveLabel(w, c, elems[0]), FlattenLabel(w, c, elems[1..]))
         case (Some(l), Some(rest)) => Some([l] + rest)
         case _ => None
  }

  // ---------------------------------------------------------------------------------
  // Containers, machines and connections
  // ---------------------------------------------------------------------------------

  function DockerImpl(args: seq<Ast>, c: nat, w: World): Ret<Ast> {
    match Strings(Flatten(args))
    case None => Err
    case Some(ss) =>
      if ss == [] then Err else
        var s := FrameAt(w, GlobalOf(w, c)).store;
        var store := StoreAt(w, s);
        var w1 := w.(atoms := w.atoms + [ContainerObj(ss[0], ss[1..], map[], {}, [])]);
        Ok(Atom(|w.atoms|), SetStore(w1, s, store.(containers := store.containers + [|w.atoms|])))
  }

  function SetAttributes(m: AtomObj, args: seq<Ast>): Option<AtomObj>
    requires m.MachineObj?
    decreases |args|
  {
    if args == [] then Some(m)
    else if !args[0].Attr? then None
    else
      var k := args[0].kind;
      SetAttributes(if k.GithubKey? || k.PlaintextKey? then m.(keys := m.keys + [args[0]])
                    else m.(attrs := m.attrs[k := args[0].arg]), args[1..])
  }

  function MachineImpl(args: seq<Ast>, c: nat, w: World): Ret<Ast> {
    match SetAttributes(MachineObj(map[], [], []), Flatten(args))
    case None => Err
    case Some(m) =>
      var s := FrameAt(w, GlobalOf(w, c)).store;
      var store := StoreAt(w, s);
      var w1 := w.(atoms := w.atoms + [m]);
      Ok(Atom(|w.atoms|), SetStore(w1, s, store.(machines := store.machines + [|w.atoms|])))
  }

  function ChangeMachines(w: World, ms: seq<Ast>, args: seq<Ast>): Option<World>
    decreases |ms|
  {
    if ms == [] then Some(w)
    else if ms[0].Atom? && ms[0].ref < |w.atoms| && w.atoms[ms[0].ref].MachineObj? then
      match SetAttributes(w.atoms[ms[0].ref], args)
      case None => None
      case Some(m) => ChangeMachines(SetAtom(w, ms[0].ref, m), ms[1..], args)
    else None
  }

  function SetEnvOn(w: World, targets: seq<nat>, key: string, value: string): Option<World>
    decreases |targets|
  {
    if targets == [] then Some(w)
    else
      var i := targets[0];
      if i < |w.atoms| && w.atoms[i].ContainerObj? then
        SetEnvOn(SetAtom(w, i, w.atoms[i].(env := w.atoms[i].env[key := value])), targets[1..], key, value)
      else None
  }

  // The arguments of setEnv are containers and labels, with the same reading as in label.
  function SetEnvImpl(args: seq<Ast>, c: nat, w: World): Ret<Ast>
    requires 3 <= |args|
  {
    match MembersOf(w, c, Flatten([args[0]]))
    case None => Err
    case Some(targets) =>
      if targets == [] then Ok(List([], false), w)
      else if !args[1].Str? || !args[2].Str? then Err
      else match SetEnvOn(w, targets, args[1].s, args[2].s)
           case None => Err
           case Some(w1) => Ok(List([], false), w1)
  }

  function Ports(a: Ast): Option<(int, int)> {
    match a
    case Int(n) => Some((n, n))
    case List(items, _) =>
      if |items| == 2 && items[0].Int? && items[1].Int? then Some((items[0].n, items[1].n)) else None
    case _ => None
  }

  function Idents(ls: seq<Ast>): seq<string> {
    seq(|ls|, i requires 0 <= i < |ls| => if ls[i].Label? then ls[i].ident else "")
  }

  predicate ConnectOk(from: string, to: string, min: int, max: int) {
    && ((from == PublicInternet || to == PublicInternet) ==> min == max)
    && !(from == PublicInternet && to == PublicInternet)
  }

  function ConnectImpl(args: seq<Ast>, c: nat, w: World): Ret<Ast>
    requires 3 <= |args|
  {
    match (Ports(args[0]), FlattenLabel(w, c, Flatten([args[1]])), FlattenLabel(w, c, Flatten(args[2..])))
    case (Some((min, max)), Some(froms), Some(tos)) =>
      var fs, ts := Idents(froms), Idents(tos);
      if min < 0 || 65535 < max || max < min then Err
      else if exists f, t :: f in fs && t in ts && !ConnectOk(f, t, min, max) then Err
      else
        var s := FrameAt(w, GlobalOf(w, c)).store;
        var store := StoreAt(w, s);
        var added := set f, t | f in fs && t in ts :: Connection(f, t, min, max);
        Ok(List([], false), SetStore(w, s, store.(connections := store.connections + added)))
    case _ => Err
  }

  // ---------------------------------------------------------------------------------
  // Placement
  // ---------------------------------------------------------------------------------

  // Go's string order.
  predicate StrLess(a: string, b: string) {
    if b == "" then false
    else if a == "" then true
    else a[0] < b[0] || (a[0] == b[0] && StrLess(a[1..], b[1..]))
  }

  function Ordered(a: string, b: string): (string, string) {
    if StrLess(a, b) then (a, b) else (b, a)
  }

  function ExclusivePairs(names: seq<string>): set<(string, string)> {
    set i, j | 0 <= i < j < |names| :: Ordered(names[i], names[j])
  }

  function AddExclusive(w: World, members: seq<nat>, pairs: set<(string, string)>): Option<World>
    decreases |members|
  {
    if members == [] then Some(w)
    else
      var i := members[0];
      if i < |w.atoms| && w.atoms[i].ContainerObj? then
        AddExclusive(SetAtom(w, i, w.atoms[i].(exclusive := w.atoms[i].exclusive + pairs)), members[1..], pairs)
      else None
  }

  function AllMembers(ls: seq<Ast>): seq<nat> {
    if ls == [] then [] else (if ls[0].Label? then ls[0].members else []) + AllMembers(ls[1..])
  }

  function PlacementImpl(args: seq<Ast>, c: nat, w: World): Ret<Ast>
    requires 2 <= |args|
  {
    if !args[0].Str? then Err
    else match FlattenLabel(w, c, Flatten(args[1..]))
         case None => Err
         case Some(labels) =>
           if |labels| < 2 || args[0].s != "exclusive" then Err
           else match AddExclusive(w, AllMembers(labels), ExclusivePairs(Idents(labels)))
                case None => Err
                case Some(w1) => Ok(Sexp([Ident(Fn(Placement))] + args), w1)
  }

  // ---------------------------------------------------------------------------------
  // All of them
  // ---------------------------------------------------------------------------------

  // Built-ins that only compute a result from their arguments.
  function Compute(f: Builtin, args: seq<Ast>, w: World): Option<Ast>
    requires MinArgs(f) <= |args|
  {
    match f
    case Plus =>
      if args[0].Str? then (match Concat(args) case None => None case Some(s) => Some(Str(s)))
      else if !args[0].Int? then None
      else (match FoldArith(f, args[0].n, args[1..]) case None => None case Some(n) => Some(Int(n)))
    case Sub | Mul | Div | Mod =>
      if !args[0].Int? then None
      else (match FoldArith(f, args[0].n, args[1..]) case None => None case Some(n) => Some(Int(n)))
    case Less | More =>
      if exists x :: x in args && !x.Int? then None
      else if args[0].Int? && args[1].Int? then
        Some(Bool(if f.Less? then args[0].n < args[1].n else args[0].n > args[1].n))
      else None
    case Eq => Some(Bool(DeepEq(w, args[0], args[1])))
    case ToBool => Some(Bool(Truth(args[0])))
    case Car => if args[0].List? && args[0].items != [] then Some(args[0].items[0]) else None
    case Cdr => if args[0].List? && args[0].items != [] then Some(List(args[0].items[1..], false)) else None
    case Cons => if args[1].List? then Some(List([args[0]] + args[1].items, false)) else None
    case Len => if args[0].List? then Some(Int(|args[0].items|)) else None
    case Nth =>
      if args[0].Int? && args[1].List? && 0 <= args[0].n < |args[1].items| then Some(args[1].items[args[0].n])
      else None
    case MkList => Some(MayBeNil(args))
    case Progn => Some(args[|args| - 1])
    case Range =>
      if (exists x :: x in args && !x.Int?) || 3 < |args| then None else
        var n := (i: nat) => if i < |args| && args[i].Int? then args[i].n else 0;
        var start, stop := if |args| == 1 then 0 else n(0), if |args| == 1 then n(0) else n(1);
        var step := if |args| == 3 then n(2) else 1;
        if step <= 0 then None else Some(MayBeNil(RangeList(start, stop, step)))
    case Attribute(k) =>
      if k.DiskSize? then (if args[0].Int? then Some(Attr(k, args[0])) else None)
      else if args[0].Str? then Some(Attr(k, args[0])) else None
    case _ => None
  }

  // Built-ins that read or change the global structures and the atoms.
  predicate Effectful(f: Builtin) {
    f.Docker? || f.MkLabel? || f.LabelName? || f.LabelHost? || f.Connect? || f.Placement? || f.SetEnv?
    || f.Machine? || f.MachineAttribute?
  }

  function Effect(f: Builtin, args: seq<Ast>, c: nat, w: World): Ret<Ast>
    requires MinArgs(f) <= |args|
  {
    match f
    case Docker => DockerImpl(args, c, w)
    case MkLabel => LabelImpl(args, c, w)
    case LabelName | LabelHost => LabelText(f, args[0], c, w)
    case Connect => ConnectImpl(args, c, w)
    case Placement => PlacementImpl(args, c, w)
    case SetEnv => SetEnvImpl(args, c, w)
    case Machine => MachineImpl(args, c, w)
    case MachineAttribute => MachineAttributeImpl(args, w)
    case _ => Err
  }

  function LabelText(f: Builtin, ref: Ast, c: nat, w: World): Ret<Ast> {
    match ResolveLabel(w, c, ref)
    case Some(Label(n, _)) => Ok(Str(if f.LabelName? then n else n + ".di"), w)
    case _ => Err
  }

  function MachineAttributeImpl(args: seq<Ast>, w: World): Ret<Ast>
    requires 2 <= |args|
  {
    var ms := Flatten([args[0]]);
    match ChangeMachines(w, ms, Flatten(args[1..]))
    case None => Err
    case Some(w1) => Ok(MayBeNil(ms), w1)
  }

  function Prim(f: Builtin, args: seq<Ast>, c: nat, w: World): Ret<Ast>
    requires MinArgs(f) <= |args|
  {
    if Effectful(f) then Effect(f, args, c, w)
    else match Compute(f, args, w) case None => Err case Some(v) => Ok(v, w)
  }
}
