/** The evaluator of dsl/eval.go and the built-ins of dsl/func.go that evaluate.  Fuel
    bounds the nesting of calls that are not on subterms of the program; a closure can be
    applied to itself, so evaluation is not total. */
module Evaluator {
  import opened Syntax
  import opened World
  import opened Prims

  function Eval(fuel: nat, a: Ast, c: nat, w: World): Ret<Ast>
    decreases fuel, a, 0
  {
    match a
    case Ident(id) =>
      if id.Fn? then Ok(a, w)
      else (match Lookup(w, c, id) case None => Err case Some(v) => Ok(v, w))
    case List(items, _) =>
      var (vs, w1) :- EvalAll(fuel, items, c, w);
      Ok(List(vs, false), w1)
    case Module(name, body) => EvalModule(fuel, name, body, c, w)
    case Sexp(elems) => EvalSexp(fuel, elems, c, w)
    case _ => Ok(a, w)
  }

  function EvalAll(fuel: nat, s: seq<Ast>, c: nat, w: World): (r: Ret<seq<Ast>>)
    decreases fuel, s, 0
    ensures r.Ok? ==> |r.value| == |s|
  {
    if s == [] then Ok([], w) else
      var (v, w1) :- Eval(fuel, s[0], c, w);
      var (vs, w2) :- EvalAll(fuel, s[1..], c, w1);
      Ok([v] + vs, w2)
  }

  function EvalSexp(fuel: nat, elems: seq<Ast>, c: nat, w: World): Ret<Ast>
    decreases fuel, elems, 0
  {
    if elems == [] then Err else
      var (first, w1) :- Eval(fuel, elems[0], c, w);
      match first
      case Ident(Fn(f)) =>
        if |elems| - 1 < MinArgs(f) then Err
        else if Lazy(f) then EvalLazy(fuel, f, elems[1..], c, w1)
        else
          var (args, w2) :- EvalAll(fuel, elems[1..], c, w1);
          if !HigherOrder(f) then Prim(f, args, c, w2)
          else if fuel == 0 then NoFuel
          else EvalHigher(fuel - 1, f, args, c, w2)
      case Closure(params, do, ctx) =>
        var (args, w2) :- EvalAll(fuel, elems[1..], c, w1);
        if fuel == 0 then NoFuel else Call(fuel - 1, params, do, ctx, args, w2)
      case _ => Err
  }

  // Binding names to values in order; a repeated name keeps its last value.
  function Zip(names: seq<Id>, vals: seq<Ast>): map<Id, Ast>
    requires |names| == |vals|
  {
    if names == [] then map[] else map[names[0] := vals[0]] + Zip(names[1..], vals[1..])
  }

  // evalLambda: the arguments are evaluated once more, in the closure's own context.
  function Call(fuel: nat, params: seq<Id>, do: seq<Ast>, ctx: nat, args: seq<Ast>, w: World): Ret<Ast>
    decreases fuel
  {
    if |params| != |args| then Err else
      var fn := |w.frames|;
      var (vals, w1) :- EvalAll(fuel, args, ctx, NewFrame(w, ctx));
      var (results, w2) :- EvalAll(fuel, do, fn, Bind(w1, fn, Zip(params, vals)));
      if results == [] then Err else Ok(results[|results| - 1], w2)
  }

  // ---------------------------------------------------------------------------------
  // Built-ins that evaluate their own arguments
  // ---------------------------------------------------------------------------------

  predicate AllIdents(s: seq<Ast>) { forall x :: x in s ==> x.Ident? }

  function IdsOf(s: seq<Ast>): (r: seq<Id>)
    requires AllIdents(s)
    ensures |r| == |s|
  {
    seq(|s|, i requires 0 <= i < |s| => assert s[i] in s; s[i].id)
  }

  function MakeClosure(params: Ast, do: seq<Ast>, c: nat, w: World): Ret<Ast> {
    if !params.Sexp? || !AllIdents(params.elems) then Err else
      var w1 := DeepCopy(w, c);
      Ok(Closure(IdsOf(params.elems), do, |w1.frames| - 1), w1)
  }

  predicate IsBinding(b: Ast) { b.Sexp? && |b.elems| == 2 }

  function EvalLazy(fuel: nat, f: Builtin, args: seq<Ast>, c: nat, w: World): Ret<Ast>
    requires MinArgs(f) <= |args|
    decreases fuel, args, 1
  {
    match f
    case And => EvalAnd(fuel, args, c, w)
    case Or => EvalOr(fuel, args, c, w)
    case If =>
      var (p, w1) :- Eval(fuel, args[0], c, w);
      if Truth(p) then Eval(fuel, args[1], c, w1)
      else if |args| == 2 then Ok(List([], false), w1)
      else Eval(fuel, args[2], c, w1)
    case Define =>
      (match args[0]
       case Sexp(sig) =>
         if sig == [] || !sig[0].Ident? then Err else
           var (v, w1) :- MakeClosure(Sexp(sig[1..]), args[1..], c, w);
           DefineIn(sig[0].id, v, c, w1)
       case Ident(id) =>
         if 2 < |args| then Err else
           var (v, w1) :- Eval(fuel, args[1], c, w);
           DefineIn(id, v, c, w1)
       case _ => Err)
    case MkLambda => MakeClosure(args[0], args[1..], c, w)
    case Let => EvalLet(fuel, args, c, w)
    case MakeList =>
      var (n, w1) :- Eval(fuel, args[0], c, w);
      if !n.Int? || n.n < 0 then Err else
        var (vs, w2) :- EvalRepeat(fuel, args[1], n.n, c, w1);
        Ok(MayBeNil(vs), w2)
    case MkModule =>
      var (name, w1) :- Eval(fuel, args[0], c, w);
      if !name.Str? then Err else EvalModule(fuel, name.s, args[1..], c, w1)
    case _ => Err
  }

  predicate BindingList(a: Ast) {
    a.Sexp? && forall b :: b in a.elems ==> IsBinding(b)
  }

  // The bindings are evaluated in a context of their own and the values are then passed
  // to a closure over `c` itself, which evaluates them again.
  function EvalLet(fuel: nat, args: seq<Ast>, c: nat, w: World): Ret<Ast>
    requires 1 <= |args|
    decreases fuel, args, 0
  {
    if !BindingList(args[0]) then Err else
      var (bound, w1) :- EvalBindings(fuel, args[0].elems, |w.frames|, NewFrame(w, c));
      if fuel == 0 then NoFuel else
        var (vals, w2) :- EvalAll(fuel - 1, bound.1, c, w1);
        Call(fuel - 1, bound.0, LetBody(args), c, vals, w2)
  }

  function LetBody(args: seq<Ast>): seq<Ast>
    requires 1 <= |args|
  {
    if |args| == 1 then [List([], false)] else args[1..]
  }

  function DefineIn(id: Id, v: Ast, c: nat, w: World): Ret<Ast> {
    if id in FrameAt(w, c).binds then Err else Ok(List([], false), Bind(w, c, map[id := v]))
  }

  function EvalAnd(fuel: nat, args: seq<Ast>, c: nat, w: World): Ret<Ast>
    decreases fuel, args, 0
  {
    if args == [] then Ok(Bool(true), w) else
      var (p, w1) :- Eval(fuel, args[0], c, w);
      if Truth(p) then EvalAnd(fuel, args[1..], c, w1) else Ok(Bool(false), w1)
  }

  function EvalOr(fuel: nat, args: seq<Ast>, c: nat, w: World): Ret<Ast>
    decreases fuel, args, 0
  {
    if args == [] then Ok(Bool(false), w) else
      var (p, w1) :- Eval(fuel, args[0], c, w);
      if Truth(p) then Ok(Bool(true), w1) else EvalOr(fuel, args[1..], c, w1)
  }

  function EvalRepeat(fuel: nat, a: Ast, n: nat, c: nat, w: World): Ret<seq<Ast>>
    decreases fuel, a, n
  {
    if n == 0 then Ok([], w) else
      var (v, w1) :- Eval(fuel, a, c, w);
      var (vs, w2) :- EvalRepeat(fuel, a, n - 1, c, w1);
      Ok([v] + vs, w2)
  }

  // The bindings of a let, evaluated in order in the context `b` they are added to.
  function EvalBindings(fuel: nat, bs: seq<Ast>, b: nat, w: World): (r: Ret<(seq<Id>, seq<Ast>)>)
    decreases fuel, bs, 0
    ensures r.Ok? ==> |r.value.0| == |r.value.1|
  {
    if bs == [] then Ok(([], []), w)
    else if !IsBinding(bs[0]) || !bs[0].elems[0].Ident? then Err
    else
      var id := bs[0].elems[0].id;
      var (v, w1) :- Eval(fuel, bs[0].elems[1], b, w);
      var (rest, w2) :- EvalBindings(fuel, bs[1..], b, Bind(w1, b, map[id := v]));
      Ok(([id] + rest.0, [v] + rest.1), w2)
  }

  // ---------------------------------------------------------------------------------
  // Modules
  // ---------------------------------------------------------------------------------

  predicate ShouldExport(id: Id) {
    id.Name? && id.name != "" && 'A' <= id.name[0] <= 'Z'
  }

  function Exports(name: string, binds: map<Id, Ast>): map<Id, Ast> {
    var ids := set id | id in binds && ShouldExport(id);
    map q | q in (set id | id in ids :: Name(name + "." + id.name)) ::
      (assert q.Name? && Name(q.name[|name| + 1..]) in ids; binds[Name(q.name[|name| + 1..])])
  }

  // The body runs in a fresh context over the global structures, and its capitalised
  // bindings are exported into `c`.
  function EvalModule(fuel: nat, name: string, body: seq<Ast>, c: nat, w: World): Ret<Ast>
    decreases fuel, body, 1
  {
    var w0 := CleanGlobal(w, c);
    var m := |w0.frames|;
    var (vs, w1) :- EvalAll(fuel, body, m, NewFrame(w0, m - 1));
    Ok(Module(name, vs), Bind(w1, c, Exports(name, FrameAt(w1, m).binds)))
  }

  // ---------------------------------------------------------------------------------
  // Built-ins that evaluate s-expressions made of their evaluated arguments
  // ---------------------------------------------------------------------------------

  // The i-th elements of all lists, for every i.
  function Rows(lists: seq<Ast>, n: nat): seq<seq<Ast>>
    requires forall l :: l in lists ==> l.List? && |l.items| == n
  {
    seq(n, i requires 0 <= i < n => Row(lists, n, i))
  }

  function Row(lists: seq<Ast>, n: nat, i: nat): seq<Ast>
    requires forall l :: l in lists ==> l.List? && |l.items| == n
    requires i < n
  {
    seq(|lists|, k requires 0 <= k < |lists| => assert lists[k] in lists; lists[k].items[i])
  }

  function EvalHigher(fuel: nat, f: Builtin, args: seq<Ast>, c: nat, w: World): Ret<Ast>
    requires MinArgs(f) <= |args|
    decreases fuel
  {
    match f
    case Not =>
      var (p, w1) :- Eval(fuel, args[0], c, w);
      Ok(Bool(!Truth(p)), w1)
    case Apply => if args[1].List? then EvalSexp(fuel, [args[0]] + args[1].items, c, w) else Err
    case MapOver =>
      if !args[1].List? || exists l :: l in args[1..] && !(l.List? && |l.items| == |args[1].items|) then Err else
        var (vs, w1) :- EvalMap(fuel, args[0], Rows(args[1..], |args[1].items|), c, w);
        Ok(MayBeNil(vs), w1)
    case Reduce =>
      if !args[1].List? || |args[1].items| < 2 then Err
      else EvalReduce(fuel, args[0], args[1].items[0], args[1].items[1..], c, w)
    case _ => Err
  }

  function EvalMap(fuel: nat, f: Ast, rows: seq<seq<Ast>>, c: nat, w: World): Ret<seq<Ast>>
    decreases fuel, rows, 0
  {
    if rows == [] then Ok([], w)
    else if fuel == 0 then NoFuel
    else
      var (v, w1) :- EvalSexp(fuel - 1, [f] + rows[0], c, w);
      var (vs, w2) :- EvalMap(fuel, f, rows[1..], c, w1);
      Ok([v] + vs, w2)
  }

  function EvalReduce(fuel: nat, f: Ast, acc: Ast, rest: seq<Ast>, c: nat, w: World): Ret<Ast>
    decreases fuel, rest, 0
  {
    if rest == [] then Ok(acc, w)
    else if fuel == 0 then NoFuel
    else
      var (v, w1) :- EvalSexp(fuel - 1, [f, acc, rest[0]], c, w);
      EvalReduce(fuel, f, v, rest[1..], c, w1)
  }

  // The value of a whole program and the world it leaves.
  function Run(fuel: nat, program: seq<Ast>): Ret<seq<Ast>> {
    EvalAll(fuel, program, 0, Initial)
  }
}
