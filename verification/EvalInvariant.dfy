/** Evaluation keeps the world invariant, only adds to the world, returns settled values,
    and writes to no existing context other than the one it runs in.  In particular no
    captured context ever changes. */
module EvalInvariant {
  import opened Syntax
  import opened World
  import opened Prims
  import opened Evaluator
  import opened WorldInvariant

  // A context in which a program may run: live, not a copy held by a closure.
  ghost predicate Ready(w: World, c: nat) {
    Inv(w) && c < |w.frames| && !w.frames[c].copied
  }

  ghost predicate Step(w: World, c: nat, w': World) {
    Inv(w') && Grows(w, w') && KeptBut(w, w', c)
  }

  ghost predicate Quiet(w: World, w': World) {
    Inv(w') && Grows(w, w') && Kept(w, w')
  }

  ghost predicate Good(w: World, c: nat, r: Ret<Ast>) {
    r.Ok? ==> Step(w, c, r.w) && GoodValue(r.w, r.value)
  }

  ghost predicate GoodAll(w: World, c: nat, r: Ret<seq<Ast>>) {
    r.Ok? ==> Step(w, c, r.w) && GoodArgs(r.w, r.value)
  }

  lemma Chain(w: World, w1: World, w2: World, c: nat)
    requires Step(w, c, w1) && Step(w1, c, w2)
    ensures Step(w, c, w2)
  {
    GrowsTransitive(w, w1, w2);
  }

  lemma QuietChain(w: World, w1: World, w2: World)
    requires Quiet(w, w1) && Quiet(w1, w2)
    ensures Quiet(w, w2)
  {
    GrowsTransitive(w, w1, w2);
  }

  // Work done in a context that did not exist before is quiet for what did.
  lemma FreshChain(w: World, w1: World, w2: World, c: nat)
    requires Quiet(w, w1) && Step(w1, c, w2) && |w.frames| <= c
    ensures Quiet(w, w2)
  {
    GrowsTransitive(w, w1, w2);
  }

  lemma ConsGood(w: World, v: Ast, w': World, vs: seq<Ast>)
    requires Grows(w, w') && GoodValue(w, v) && GoodArgs(w', vs)
    ensures GoodArgs(w', [v] + vs)
  {
    RefsGrow(w, w', v);
  }

  // ---------------------------------------------------------------------------------
  // Evaluating what is already settled
  // ---------------------------------------------------------------------------------

  // Re-evaluation of a settled value writes to no existing context at all, in any context.
  lemma {:induction false} SettledQuiet(fuel: nat, a: Ast, c: nat, w: World)
    requires Inv(w) && c < |w.frames| && GoodValue(w, a)
    ensures var r := Eval(fuel, a, c, w); r.Ok? ==> Quiet(w, r.w) && GoodValue(r.w, r.value)
    decreases a, 1
  {
    match a
    case List(items, _) =>
      SettledQuietAll(fuel, items, c, w);
      var r := EvalAll(fuel, items, c, w);
      if r.Ok? { ListGood(r.w, r.value); }
    case Module(name, body) => SettledModule(fuel, name, body, c, w);
    case Sexp(elems) => SettledPlacement(fuel, elems, c, w);
    case _ =>
  }

  lemma {:induction false} SettledQuietAll(fuel: nat, s: seq<Ast>, c: nat, w: World)
    requires Inv(w) && c < |w.frames| && GoodArgs(w, s)
    ensures var r := EvalAll(fuel, s, c, w); r.Ok? ==> Quiet(w, r.w) && GoodArgs(r.w, r.value)
    decreases s, 0
  {
    if s != [] {
      assert GoodValue(w, s[0]);
      SettledQuiet(fuel, s[0], c, w);
      var r1 := Eval(fuel, s[0], c, w);
      if r1.Ok? {
        GoodArgsGrow(w, r1.w, s[1..]);
        SettledQuietAll(fuel, s[1..], c, r1.w);
        var r2 := EvalAll(fuel, s[1..], c, r1.w);
        if r2.Ok? {
          QuietChain(w, r1.w, r2.w);
          ConsGood(r1.w, r1.value, r2.w, r2.value);
        }
      }
    }
  }

  lemma {:induction false} SettledModule(fuel: nat, name: string, body: seq<Ast>, c: nat, w: World)
    requires Inv(w) && c < |w.frames| && GoodValue(w, Module(name, body))
    ensures var r := EvalModule(fuel, name, body, c, w); r.Ok? ==> Quiet(w, r.w) && GoodValue(r.w, r.value)
    decreases body, 1
  {
    var w0 := CleanGlobal(w, c);
    var m := |w0.frames|;
    CleanGlobalInv(w, c);
    NewFrameInv(w0, m - 1);
    var w1 := NewFrame(w0, m - 1);
    QuietChain(w, w0, w1);
    forall x | x in body ensures GoodValue(w, x) {}
    GoodArgsGrow(w, w1, body);
    SettledQuietAll(fuel, body, m, w1);
    var r := EvalAll(fuel, body, m, w1);
    if r.Ok? {
      QuietChain(w, w1, r.w);
      assert r.w.frames[m] == w1.frames[m];
      NoExports(name, r.w, c, m);
      ListGood(r.w, r.value);
    }
  }

  lemma NoExports(name: string, w: World, c: nat, m: nat)
    requires FrameAt(w, m).binds == map[]
    ensures Bind(w, c, Exports(name, FrameAt(w, m).binds)) == w
  {
    assert Exports(name, map[]) == map[];
    assert FrameAt(w, c).binds + map[] == FrameAt(w, c).binds;
  }

  lemma {:induction false} SettledPlacement(fuel: nat, elems: seq<Ast>, c: nat, w: World)
    requires Inv(w) && c < |w.frames| && GoodValue(w, Sexp(elems))
    ensures var r := EvalSexp(fuel, elems, c, w); r.Ok? ==> Quiet(w, r.w) && GoodValue(r.w, r.value)
    decreases elems, 1
  {
    var args := elems[1..];
    forall x | x in args ensures GoodValue(w, x) {
      assert x in elems;
    }
    SettledQuietAll(fuel, args, c, w);
    var r1 := EvalAll(fuel, args, c, w);
    if r1.Ok? && 2 <= |args| {
      var r2 := Prim(Placement, r1.value, c, r1.w);
      assert EvalSexp(fuel, elems, c, w) == r2;
      if r2.Ok? {
        PrimGood(Placement, r1.value, c, r1.w);
        QuietChain(w, r1.w, r2.w);
      }
    }
  }

  // ---------------------------------------------------------------------------------
  // Evaluation
  // ---------------------------------------------------------------------------------

  lemma {:induction false} EvalGood(fuel: nat, a: Ast, c: nat, w: World)
    requires Ready(w, c) && Refs(w, a)
    ensures Good(w, c, Eval(fuel, a, c, w))
    decreases fuel, a, 0
  {
    match a
    case Ident(id) => if id.Name? && Lookup(w, c, id).Some? { LookupGood(w, c, id); }
    case List(items, _) =>
      EvalAllGood(fuel, items, c, w);
      var r := EvalAll(fuel, items, c, w);
      if r.Ok? { ListGood(r.w, r.value); }
    case Module(name, body) => ModuleGood(fuel, name, body, c, w);
    case Sexp(elems) => SexpGood(fuel, elems, c, w);
    case _ =>
  }

  lemma {:induction false} EvalAllGood(fuel: nat, s: seq<Ast>, c: nat, w: World)
    requires Ready(w, c) && AllRefs(w, s)
    ensures GoodAll(w, c, EvalAll(fuel, s, c, w))
    decreases fuel, s, 0
  {
    if s != [] {
      EvalGood(fuel, s[0], c, w);
      var r1 := Eval(fuel, s[0], c, w);
      if r1.Ok? {
        AllRefsGrow(w, r1.w, s[1..]);
        EvalAllGood(fuel, s[1..], c, r1.w);
        var r2 := EvalAll(fuel, s[1..], c, r1.w);
        if r2.Ok? {
          Chain(w, r1.w, r2.w, c);
          ConsGood(r1.w, r1.value, r2.w, r2.value);
        }
      }
    }
  }

  lemma {:induction false} SexpGood(fuel: nat, elems: seq<Ast>, c: nat, w: World)
    requires Ready(w, c) && AllRefs(w, elems)
    ensures Good(w, c, EvalSexp(fuel, elems, c, w))
    decreases fuel, elems, 0
  {
    if elems != [] {
      EvalGood(fuel, elems[0], c, w);
      var r1 := Eval(fuel, elems[0], c, w);
      if r1.Ok? {
        AllRefsGrow(w, r1.w, elems[1..]);
        ApplyGood(fuel, r1.value, elems[1..], c, r1.w);
        assert EvalSexp(fuel, elems, c, w) == ApplyTo(fuel, r1.value, elems[1..], c, r1.w);
        if EvalSexp(fuel, elems, c, w).Ok? { Chain(w, r1.w, EvalSexp(fuel, elems, c, w).w, c); }
      }
    }
  }

  // What EvalSexp does once the function position is evaluated.
  ghost function ApplyTo(fuel: nat, first: Ast, rest: seq<Ast>, c: nat, w: World): Ret<Ast> {
    match first
    case Ident(Fn(f)) =>
      if |rest| < MinArgs(f) then Err
      else if Lazy(f) then EvalLazy(fuel, f, rest, c, w)
      else
        var (args, w2) :- EvalAll(fuel, rest, c, w);
        if !HigherOrder(f) then Prim(f, args, c, w2)
        else if fuel == 0 then NoFuel
        else EvalHigher(fuel - 1, f, args, c, w2)
    case Closure(params, do, ctx) =>
      var (args, w2) :- EvalAll(fuel, rest, c, w);
      if fuel == 0 then NoFuel else Call(fuel - 1, params, do, ctx, args, w2)
    case _ => Err
  }

  lemma {:induction false} ApplyGood(fuel: nat, first: Ast, rest: seq<Ast>, c: nat, w: World)
    requires Ready(w, c) && AllRefs(w, rest) && GoodValue(w, first)
    ensures Good(w, c, ApplyTo(fuel, first, rest, c, w))
    decreases fuel, rest, 3
  {
    match first
    case Ident(Fn(f)) =>
      if MinArgs(f) <= |rest| {
        if Lazy(f) {
          LazyGood(fuel, f, rest, c, w);
        } else {
          EvalAllGood(fuel, rest, c, w);
          var r := EvalAll(fuel, rest, c, w);
          if r.Ok? {
            if !HigherOrder(f) {
              var r2 := Prim(f, r.value, c, r.w);
              if r2.Ok? { PrimGood(f, r.value, c, r.w); Chain(w, r.w, r2.w, c); }
            } else if 0 < fuel {
              HigherGood(fuel - 1, f, r.value, c, r.w);
              var r2 := EvalHigher(fuel - 1, f, r.value, c, r.w);
              if r2.Ok? { Chain(w, r.w, r2.w, c); }
            }
          }
        }
      }
    case Closure(params, do, ctx) =>
      EvalAllGood(fuel, rest, c, w);
      var r := EvalAll(fuel, rest, c, w);
      if r.Ok? && 0 < fuel {
        RefsGrow(w, r.w, first);
        CallGood(fuel - 1, params, do, ctx, r.value, r.w);
        var r2 := Call(fuel - 1, params, do, ctx, r.value, r.w);
        if r2.Ok? { Chain(w, r.w, r2.w, c); }
      }
    case _ =>
  }

  lemma {:induction false} ZipGood(w: World, names: seq<Id>, vals: seq<Ast>)
    requires |names| == |vals| && GoodArgs(w, vals)
    ensures GoodBinds(w, Zip(names, vals))
  {
    if names != [] {
      assert GoodValue(w, vals[0]);
      ZipGood(w, names[1..], vals[1..]);
    }
  }

  // A call writes only to the context it creates.
  lemma {:induction false} CallGood(fuel: nat, params: seq<Id>, do: seq<Ast>, ctx: nat, args: seq<Ast>, w: World)
    requires Inv(w) && ctx < |w.frames| && AllRefs(w, do) && GoodArgs(w, args)
    ensures var r := Call(fuel, params, do, ctx, args, w); r.Ok? ==> Quiet(w, r.w) && GoodValue(r.w, r.value)
    decreases fuel
  {
    if |params| == |args| {
      var fn := |w.frames|;
      var w0 := NewFrame(w, ctx);
      NewFrameInv(w, ctx);
      GoodArgsGrow(w, w0, args);
      SettledQuietAll(fuel, args, ctx, w0);
      var r1 := EvalAll(fuel, args, ctx, w0);
      if r1.Ok? {
        QuietChain(w, w0, r1.w);
        assert r1.w.frames[fn] == w0.frames[fn];
        ZipGood(r1.w, params, r1.value);
        var w1 := Bind(r1.w, fn, Zip(params, r1.value));
        BindInv(r1.w, fn, Zip(params, r1.value));
        FreshChain(w, r1.w, w1, fn);
        AllRefsGrow(w, w1, do);
        EvalAllGood(fuel, do, fn, w1);
        var r2 := EvalAll(fuel, do, fn, w1);
        if r2.Ok? && r2.value != [] {
          FreshChain(w, w1, r2.w, fn);
          assert GoodValue(r2.w, r2.value[|r2.value| - 1]);
        }
      }
    }
  }

  lemma ClosureGood(params: Ast, do: seq<Ast>, c: nat, w: World)
    requires Inv(w) && c < |w.frames| && AllRefs(w, do) && do != []
    ensures var r := MakeClosure(params, do, c, w); r.Ok? ==> Quiet(w, r.w) && GoodValue(r.w, r.value)
  {
    if MakeClosure(params, do, c, w).Ok? {
      DeepCopyInv(w, c);
      AllRefsGrow(w, DeepCopy(w, c), do);
    }
  }

  lemma DefineGood(id: Id, v: Ast, c: nat, w: World)
    requires Ready(w, c) && GoodValue(w, v)
    ensures Good(w, c, DefineIn(id, v, c, w))
  {
    BindInv(w, c, map[id := v]);
  }

  lemma {:induction false} LazyGood(fuel: nat, f: Builtin, args: seq<Ast>, c: nat, w: World)
    requires Ready(w, c) && AllRefs(w, args) && MinArgs(f) <= |args|
    ensures Good(w, c, EvalLazy(fuel, f, args, c, w))
    decreases fuel, args, 2
  {
    match f
    case And | Or | Let | MkLambda => DirectGood(fuel, f, args, c, w);
    case If => IfGood(fuel, args, c, w);
    case Define => DefinitionGood(fuel, args, c, w);
    case MakeList => MakeListGood(fuel, args, c, w);
    case MkModule => MkModuleGood(fuel, args, c, w);
    case _ =>
  }

  lemma {:induction false} DirectGood(fuel: nat, f: Builtin, args: seq<Ast>, c: nat, w: World)
    requires Ready(w, c) && AllRefs(w, args) && MinArgs(f) <= |args|
    requires f == And || f == Or || f == Let || f == MkLambda
    ensures Good(w, c, EvalLazy(fuel, f, args, c, w))
    decreases fuel, args, 1
  {
    match f
    case And => AndGood(fuel, args, c, w);
    case Or => OrGood(fuel, args, c, w);
    case Let => LetGood(fuel, args, c, w);
    case MkLambda => ClosureGood(args[0], args[1..], c, w);
  }

  lemma {:induction false} MakeListGood(fuel: nat, args: seq<Ast>, c: nat, w: World)
    requires Ready(w, c) && AllRefs(w, args) && 2 <= |args|
    ensures Good(w, c, EvalLazy(fuel, MakeList, args, c, w))
    decreases fuel, args, 0
  {
    EvalGood(fuel, args[0], c, w);
    var r1 := Eval(fuel, args[0], c, w);
    if r1.Ok? && r1.value.Int? && 0 <= r1.value.n {
      RefsGrow(w, r1.w, args[1]);
      RepeatGood(fuel, args[1], r1.value.n, c, r1.w);
      var r2 := EvalRepeat(fuel, args[1], r1.value.n, c, r1.w);
      if r2.Ok? { Chain(w, r1.w, r2.w, c); ListGood(r2.w, r2.value); }
    }
  }

  lemma {:induction false} MkModuleGood(fuel: nat, args: seq<Ast>, c: nat, w: World)
    requires Ready(w, c) && AllRefs(w, args) && MinArgs(MkModule) <= |args|
    ensures Good(w, c, EvalLazy(fuel, MkModule, args, c, w))
    decreases fuel, args, 0
  {
    EvalGood(fuel, args[0], c, w);
    var r1 := Eval(fuel, args[0], c, w);
    if r1.Ok? && r1.value.Str? {
      AllRefsGrow(w, r1.w, args[1..]);
      ModuleGood(fuel, r1.value.s, args[1..], c, r1.w);
      var r2 := EvalModule(fuel, r1.value.s, args[1..], c, r1.w);
      if r2.Ok? { Chain(w, r1.w, r2.w, c); }
    }
  }

  lemma {:induction false} IfGood(fuel: nat, args: seq<Ast>, c: nat, w: World)
    requires Ready(w, c) && AllRefs(w, args) && 2 <= |args|
    ensures Good(w, c, EvalLazy(fuel, If, args, c, w))
    decreases fuel, args, 0
  {
    EvalGood(fuel, args[0], c, w);
    var r1 := Eval(fuel, args[0], c, w);
    if r1.Ok? && (Truth(r1.value) || 2 < |args|) {
      var branch := if Truth(r1.value) then args[1] else args[2];
      assert branch in args;
      RefsGrow(w, r1.w, branch);
      EvalGood(fuel, branch, c, r1.w);
      var r2 := Eval(fuel, branch, c, r1.w);
      assert EvalLazy(fuel, If, args, c, w) == r2;
      if r2.Ok? { Chain(w, r1.w, r2.w, c); }
    }
  }

  lemma {:induction false} DefinitionGood(fuel: nat, args: seq<Ast>, c: nat, w: World)
    requires Ready(w, c) && AllRefs(w, args) && 2 <= |args|
    ensures Good(w, c, EvalLazy(fuel, Define, args, c, w))
    decreases fuel, args, 0
  {
    match args[0]
    case Sexp(sig) =>
      if sig != [] && sig[0].Ident? {
        ClosureGood(Sexp(sig[1..]), args[1..], c, w);
        var r1 := MakeClosure(Sexp(sig[1..]), args[1..], c, w);
        if r1.Ok? {
          DefineGood(sig[0].id, r1.value, c, r1.w);
          var r2 := DefineIn(sig[0].id, r1.value, c, r1.w);
          if r2.Ok? { Chain(w, r1.w, r2.w, c); }
        }
      }
    case Ident(id) =>
      if |args| == 2 {
        EvalGood(fuel, args[1], c, w);
        var r1 := Eval(fuel, args[1], c, w);
        if r1.Ok? {
          DefineGood(id, r1.value, c, r1.w);
          var r2 := DefineIn(id, r1.value, c, r1.w);
          if r2.Ok? { Chain(w, r1.w, r2.w, c); }
        }
      }
    case _ =>
  }

  lemma {:induction false} LetBindingsGood(fuel: nat, bs: seq<Ast>, c: nat, w: World)
    requires Ready(w, c) && AllRefs(w, bs)
    ensures var r := EvalBindings(fuel, bs, |w.frames|, NewFrame(w, c));
            r.Ok? ==> Quiet(w, r.w) && GoodArgs(r.w, r.value.1)
    decreases fuel, bs, 1
  {
    var w0 := NewFrame(w, c);
    NewFrameInv(w, c);
    AllRefsGrow(w, w0, bs);
    BindingsGood(fuel, bs, |w.frames|, w0);
    var r := EvalBindings(fuel, bs, |w.frames|, w0);
    if r.Ok? { FreshChain(w, w0, r.w, |w.frames|); }
  }

  lemma {:induction false} LetGood(fuel: nat, args: seq<Ast>, c: nat, w: World)
    requires Ready(w, c) && AllRefs(w, args) && 1 <= |args|
    ensures Good(w, c, EvalLet(fuel, args, c, w))
    decreases fuel, args, 0
  {
    if BindingList(args[0]) {
      assert Refs(w, args[0]);
      LetBindingsGood(fuel, args[0].elems, c, w);
      var r1 := EvalBindings(fuel, args[0].elems, |w.frames|, NewFrame(w, c));
      if r1.Ok? && 0 < fuel {
        SettledQuietAll(fuel - 1, r1.value.1, c, r1.w);
        var r2 := EvalAll(fuel - 1, r1.value.1, c, r1.w);
        if r2.Ok? {
          QuietChain(w, r1.w, r2.w);
          LetCallGood(fuel, r1.value.0, args, c, r2.value, w, r2.w);
        }
      }
    }
  }

  lemma {:induction false} LetCallGood(fuel: nat, ids: seq<Id>, args: seq<Ast>, c: nat, vals: seq<Ast>, w: World,
                                       w2: World)
    requires 0 < fuel && Quiet(w, w2) && AllRefs(w, args) && 1 <= |args| && c < |w.frames| && GoodArgs(w2, vals)
    ensures var r := Call(fuel - 1, ids, LetBody(args), c, vals, w2); r.Ok? ==> Quiet(w, r.w) && GoodValue(r.w, r.value)
    decreases fuel, args[1..]
  {
    AllRefsGrow(w, w2, args);
    CallGood(fuel - 1, ids, LetBody(args), c, vals, w2);
    var r := Call(fuel - 1, ids, LetBody(args), c, vals, w2);
    if r.Ok? { QuietChain(w, w2, r.w); }
  }

  lemma {:induction false} AndGood(fuel: nat, args: seq<Ast>, c: nat, w: World)
    requires Ready(w, c) && AllRefs(w, args)
    ensures Good(w, c, EvalAnd(fuel, args, c, w))
    decreases fuel, args, 0
  {
    if args != [] {
      EvalGood(fuel, args[0], c, w);
      var r1 := Eval(fuel, args[0], c, w);
      if r1.Ok? && Truth(r1.value) {
        AllRefsGrow(w, r1.w, args[1..]);
        AndGood(fuel, args[1..], c, r1.w);
        var r2 := EvalAnd(fuel, args[1..], c, r1.w);
        if r2.Ok? { Chain(w, r1.w, r2.w, c); }
      }
    }
  }

  lemma {:induction false} OrGood(fuel: nat, args: seq<Ast>, c: nat, w: World)
    requires Ready(w, c) && AllRefs(w, args)
    ensures Good(w, c, EvalOr(fuel, args, c, w))
    decreases fuel, args, 0
  {
    if args != [] {
      EvalGood(fuel, args[0], c, w);
      var r1 := Eval(fuel, args[0], c, w);
      if r1.Ok? && !Truth(r1.value) {
        AllRefsGrow(w, r1.w, args[1..]);
        OrGood(fuel, args[1..], c, r1.w);
        var r2 := EvalOr(fuel, args[1..], c, r1.w);
        if r2.Ok? { Chain(w, r1.w, r2.w, c); }
      }
    }
  }

  lemma {:induction false} RepeatGood(fuel: nat, a: Ast, n: nat, c: nat, w: World)
    requires Ready(w, c) && Refs(w, a)
    ensures GoodAll(w, c, EvalRepeat(fuel, a, n, c, w))
    decreases fuel, a, n
  {
    if n != 0 {
      EvalGood(fuel, a, c, w);
      var r1 := Eval(fuel, a, c, w);
      if r1.Ok? {
        RefsGrow(w, r1.w, a);
        RepeatGood(fuel, a, n - 1, c, r1.w);
        var r2 := EvalRepeat(fuel, a, n - 1, c, r1.w);
        if r2.Ok? {
          Chain(w, r1.w, r2.w, c);
          ConsGood(r1.w, r1.value, r2.w, r2.value);
        }
      }
    }
  }

  lemma {:induction false} BindingsGood(fuel: nat, bs: seq<Ast>, b: nat, w: World)
    requires Ready(w, b) && AllRefs(w, bs)
    ensures var r := EvalBindings(fuel, bs, b, w); r.Ok? ==> Step(w, b, r.w) && GoodArgs(r.w, r.value.1)
    decreases fuel, bs, 0
  {
    if bs != [] && IsBinding(bs[0]) && bs[0].elems[0].Ident? {
      var id := bs[0].elems[0].id;
      assert Refs(w, bs[0]);
      EvalGood(fuel, bs[0].elems[1], b, w);
      var r1 := Eval(fuel, bs[0].elems[1], b, w);
      if r1.Ok? {
        var w1 := Bind(r1.w, b, map[id := r1.value]);
        BindInv(r1.w, b, map[id := r1.value]);
        Chain(w, r1.w, w1, b);
        AllRefsGrow(w, w1, bs[1..]);
        BindingsGood(fuel, bs[1..], b, w1);
        var r2 := EvalBindings(fuel, bs[1..], b, w1);
        if r2.Ok? {
          Chain(w, w1, r2.w, b);
          GrowsTransitive(r1.w, w1, r2.w);
          ConsGood(r1.w, r1.value, r2.w, r2.value.1);
        }
      }
    }
  }

  lemma ExportsGood(w: World, name: string, binds: map<Id, Ast>)
    requires GoodBinds(w, binds)
    ensures GoodBinds(w, Exports(name, binds))
  {
    var e := Exports(name, binds);
    forall q | q in e ensures GoodValue(w, e[q]) {
      assert Name(q.name[|name| + 1..]) in binds;
    }
  }

  lemma {:induction false} ModuleGood(fuel: nat, name: string, body: seq<Ast>, c: nat, w: World)
    requires Ready(w, c) && AllRefs(w, body)
    ensures Good(w, c, EvalModule(fuel, name, body, c, w))
    decreases fuel, body, 1
  {
    var w0 := CleanGlobal(w, c);
    var m := |w0.frames|;
    CleanGlobalInv(w, c);
    NewFrameInv(w0, m - 1);
    var w1 := NewFrame(w0, m - 1);
    QuietChain(w, w0, w1);
    AllRefsGrow(w, w1, body);
    EvalAllGood(fuel, body, m, w1);
    var r := EvalAll(fuel, body, m, w1);
    if r.Ok? {
      FreshChain(w, w1, r.w, m);
      var e := Exports(name, FrameAt(r.w, m).binds);
      ExportsGood(r.w, name, r.w.frames[m].binds);
      BindInv(r.w, c, e);
      var w2 := Bind(r.w, c, e);
      Chain(w, r.w, w2, c);
      GoodArgsGrow(r.w, w2, r.value);
      ListGood(w2, r.value);
    }
  }

  lemma {:induction false} MapListGood(fuel: nat, args: seq<Ast>, rows: seq<seq<Ast>>, c: nat, w: World)
    requires Ready(w, c) && GoodArgs(w, args) && 2 <= |args| && args[1].List?
    requires forall l :: l in args[1..] ==> l.List? && |l.items| == |args[1].items|
    requires rows == Rows(args[1..], |args[1].items|)
    ensures Good(w, c, EvalHigher(fuel, MapOver, args, c, w))
    decreases fuel, rows, 1
  {
    assert GoodValue(w, args[0]);
    RowsGood(w, args[1..], |args[1].items|);
    MapGood(fuel, args[0], rows, c, w);
    var r := EvalMap(fuel, args[0], rows, c, w);
    if r.Ok? { ListGood(r.w, r.value); }
  }

  lemma {:induction false} AppliedGood(fuel: nat, f: Ast, list: Ast, c: nat, w: World)
    requires Ready(w, c) && GoodValue(w, f) && GoodValue(w, list) && list.List?
    ensures Good(w, c, EvalSexp(fuel, [f] + list.items, c, w))
    decreases fuel, [f] + list.items, 9
  {
    SexpGood(fuel, [f] + list.items, c, w);
  }

  lemma {:induction false} HigherGood(fuel: nat, f: Builtin, args: seq<Ast>, c: nat, w: World)
    requires Ready(w, c) && GoodArgs(w, args) && HigherOrder(f) && MinArgs(f) <= |args|
    ensures Good(w, c, EvalHigher(fuel, f, args, c, w))
    decreases fuel
  {
    assert GoodValue(w, args[0]);
    match f
    case Not => EvalGood(fuel, args[0], c, w);
    case Apply =>
      if args[1].List? { AppliedGood(fuel, args[0], args[1], c, w); }
    case MapOver =>
      if args[1].List? && !(exists l :: l in args[1..] && !(l.List? && |l.items| == |args[1].items|)) {
        MapListGood(fuel, args, Rows(args[1..], |args[1].items|), c, w);
      }
    case Reduce =>
      assert GoodValue(w, args[1]);
      if args[1].List? && 2 <= |args[1].items| {
        ReduceGood(fuel, args[0], args[1].items[0], args[1].items[1..], c, w);
      }
    case _ =>
  }

  lemma RowsGood(w: World, lists: seq<Ast>, n: nat)
    requires GoodArgs(w, lists)
    requires forall l :: l in lists ==> l.List? && |l.items| == n
    ensures forall row :: row in Rows(lists, n) ==> AllRefs(w, row)
  {
    forall row | row in Rows(lists, n) ensures AllRefs(w, row) {
      var i :| 0 <= i < n && row == Rows(lists, n)[i];
      forall x | x in row ensures Refs(w, x) {
        var k :| 0 <= k < |lists| && x == row[k];
        assert lists[k] in lists;
        assert GoodValue(w, lists[k]);
        assert x in lists[k].items;
      }
    }
  }

  lemma {:induction false} MapGood(fuel: nat, f: Ast, rows: seq<seq<Ast>>, c: nat, w: World)
    requires Ready(w, c) && Refs(w, f) && forall row :: row in rows ==> AllRefs(w, row)
    ensures GoodAll(w, c, EvalMap(fuel, f, rows, c, w))
    decreases fuel, rows, 0
  {
    if rows != [] && 0 < fuel {
      assert AllRefs(w, rows[0]);
      SexpGood(fuel - 1, [f] + rows[0], c, w);
      var r1 := EvalSexp(fuel - 1, [f] + rows[0], c, w);
      if r1.Ok? {
        RefsGrow(w, r1.w, f);
        forall row | row in rows[1..] ensures AllRefs(r1.w, row) { AllRefsGrow(w, r1.w, row); }
        MapGood(fuel, f, rows[1..], c, r1.w);
        var r2 := EvalMap(fuel, f, rows[1..], c, r1.w);
        if r2.Ok? {
          Chain(w, r1.w, r2.w, c);
          ConsGood(r1.w, r1.value, r2.w, r2.value);
        }
      }
    }
  }

  lemma {:induction false} ReduceGood(fuel: nat, f: Ast, acc: Ast, rest: seq<Ast>, c: nat, w: World)
    requires Ready(w, c) && Refs(w, f) && GoodValue(w, acc) && AllRefs(w, rest)
    ensures Good(w, c, EvalReduce(fuel, f, acc, rest, c, w))
    decreases fuel, rest, 0
  {
    if rest != [] && 0 < fuel {
      SexpGood(fuel - 1, [f, acc, rest[0]], c, w);
      var r1 := EvalSexp(fuel - 1, [f, acc, rest[0]], c, w);
      if r1.Ok? {
        RefsGrow(w, r1.w, f);
        AllRefsGrow(w, r1.w, rest[1..]);
        ReduceGood(fuel, f, r1.value, rest[1..], c, r1.w);
        var r2 := EvalReduce(fuel, f, r1.value, rest[1..], c, r1.w);
        if r2.Ok? { Chain(w, r1.w, r2.w, c); }
      }
    }
  }
}
