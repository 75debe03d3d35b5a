/** Laws of evaluation: fuel only decides whether evaluation finishes, values evaluate to
    themselves, the repeated evaluation of arguments repeats no effect, and captured
    contexts never change. */
module EvalLaws {
  import opened Basics
  import opened Syntax
  import opened World
  import opened Prims
  import opened Evaluator
  import opened WorldInvariant
  import opened EvalInvariant

  // ---------------------------------------------------------------------------------
  // Fuel
  // ---------------------------------------------------------------------------------

  lemma {:induction false} MoreFuel(fuel: nat, a: Ast, c: nat, w: World)
    ensures !Eval(fuel, a, c, w).NoFuel? ==> Eval(fuel + 1, a, c, w) == Eval(fuel, a, c, w)
    decreases fuel, a, 0
  {
    match a
    case List(items, _) => MoreFuelAll(fuel, items, c, w);
    case Module(name, body) => MoreFuelModule(fuel, name, body, c, w);
    case Sexp(elems) => MoreFuelSexp(fuel, elems, c, w);
    case _ =>
  }

  lemma {:induction false} MoreFuelAll(fuel: nat, s: seq<Ast>, c: nat, w: World)
    ensures !EvalAll(fuel, s, c, w).NoFuel? ==> EvalAll(fuel + 1, s, c, w) == EvalAll(fuel, s, c, w)
    decreases fuel, s, 0
  {
    if s != [] {
      MoreFuel(fuel, s[0], c, w);
      var r := Eval(fuel, s[0], c, w);
      if r.Ok? { MoreFuelAll(fuel, s[1..], c, r.w); }
    }
  }

  lemma {:induction false} MoreFuelModule(fuel: nat, name: string, body: seq<Ast>, c: nat, w: World)
    ensures !EvalModule(fuel, name, body, c, w).NoFuel?
            ==> EvalModule(fuel + 1, name, body, c, w) == EvalModule(fuel, name, body, c, w)
    decreases fuel, body, 1
  {
    var w0 := CleanGlobal(w, c);
    MoreFuelAll(fuel, body, |w0.frames|, NewFrame(w0, |w0.frames| - 1));
  }

  lemma {:induction false} MoreFuelSexp(fuel: nat, elems: seq<Ast>, c: nat, w: World)
    ensures !EvalSexp(fuel, elems, c, w).NoFuel? ==> EvalSexp(fuel + 1, elems, c, w) == EvalSexp(fuel, elems, c, w)
    decreases fuel, elems, 0
  {
    if elems != [] {
      MoreFuel(fuel, elems[0], c, w);
      var r := Eval(fuel, elems[0], c, w);
      if r.Ok? {
        MoreFuelApply(fuel, r.value, elems[1..], c, r.w);
        assert EvalSexp(fuel, elems, c, w) == ApplyTo(fuel, r.value, elems[1..], c, r.w);
        assert EvalSexp(fuel + 1, elems, c, w).NoFuel? || EvalSexp(fuel + 1, elems, c, w)
               == ApplyTo(fuel + 1, r.value, elems[1..], c, r.w);
      }
    }
  }

  lemma {:induction false} MoreFuelApply(fuel: nat, first: Ast, rest: seq<Ast>, c: nat, w: World)
    ensures !ApplyTo(fuel, first, rest, c, w).NoFuel?
            ==> ApplyTo(fuel + 1, first, rest, c, w) == ApplyTo(fuel, first, rest, c, w)
    decreases fuel, rest, 2
  {
    match first
    case Ident(Fn(f)) =>
      if MinArgs(f) <= |rest| {
        if Lazy(f) {
          MoreFuelLazy(fuel, f, rest, c, w);
        } else {
          MoreFuelAll(fuel, rest, c, w);
          var r := EvalAll(fuel, rest, c, w);
          if r.Ok? && HigherOrder(f) && 0 < fuel { MoreFuelHigher(fuel - 1, f, r.value, c, r.w); }
        }
      }
    case Closure(params, do, ctx) =>
      MoreFuelAll(fuel, rest, c, w);
      var r := EvalAll(fuel, rest, c, w);
      if r.Ok? && 0 < fuel { MoreFuelCall(fuel - 1, params, do, ctx, r.value, r.w); }
    case _ =>
  }

  lemma {:induction false} MoreFuelCall(fuel: nat, params: seq<Id>, do: seq<Ast>, ctx: nat, args: seq<Ast>, w: World)
    ensures !Call(fuel, params, do, ctx, args, w).NoFuel?
            ==> Call(fuel + 1, params, do, ctx, args, w) == Call(fuel, params, do, ctx, args, w)
    decreases fuel
  {
    if |params| == |args| {
      var fn := |w.frames|;
      MoreFuelAll(fuel, args, ctx, NewFrame(w, ctx));
      var r := EvalAll(fuel, args, ctx, NewFrame(w, ctx));
      if r.Ok? { MoreFuelAll(fuel, do, fn, Bind(r.w, fn, Zip(params, r.value))); }
    }
  }

  lemma {:induction false} MoreFuelLazy(fuel: nat, f: Builtin, args: seq<Ast>, c: nat, w: World)
    requires MinArgs(f) <= |args|
    ensures !EvalLazy(fuel, f, args, c, w).NoFuel?
            ==> EvalLazy(fuel + 1, f, args, c, w) == EvalLazy(fuel, f, args, c, w)
    decreases fuel, args, 1
  {
    match f
    case And => MoreFuelAnd(fuel, args, c, w);
    case Or => MoreFuelOr(fuel, args, c, w);
    case If =>
      MoreFuel(fuel, args[0], c, w);
      var r := Eval(fuel, args[0], c, w);
      if r.Ok? {
        MoreFuel(fuel, args[1], c, r.w);
        if 2 < |args| { MoreFuel(fuel, args[2], c, r.w); }
      }
    case Define => MoreFuel(fuel, args[1], c, w);
    case Let => MoreFuelLet(fuel, args, c, w);
    case MakeList =>
      MoreFuel(fuel, args[0], c, w);
      var r := Eval(fuel, args[0], c, w);
      if r.Ok? && r.value.Int? && 0 <= r.value.n { MoreFuelRepeat(fuel, args[1], r.value.n, c, r.w); }
    case MkModule =>
      MoreFuel(fuel, args[0], c, w);
      var r := Eval(fuel, args[0], c, w);
      if r.Ok? && r.value.Str? { MoreFuelModule(fuel, r.value.s, args[1..], c, r.w); }
    case _ =>
  }

  lemma {:induction false} MoreFuelLet(fuel: nat, args: seq<Ast>, c: nat, w: World)
    requires 1 <= |args|
    ensures !EvalLet(fuel, args, c, w).NoFuel? ==> EvalLet(fuel + 1, args, c, w) == EvalLet(fuel, args, c, w)
    decreases fuel, args, 0
  {
    if BindingList(args[0]) {
      MoreFuelBindings(fuel, args[0].elems, |w.frames|, NewFrame(w, c));
      var r := EvalBindings(fuel, args[0].elems, |w.frames|, NewFrame(w, c));
      if r.Ok? && 0 < fuel {
        MoreFuelAll(fuel - 1, r.value.1, c, r.w);
        var r2 := EvalAll(fuel - 1, r.value.1, c, r.w);
        if r2.Ok? { MoreFuelCall(fuel - 1, r.value.0, LetBody(args), c, r2.value, r2.w); }
      }
    }
  }

  lemma {:induction false} MoreFuelAnd(fuel: nat, args: seq<Ast>, c: nat, w: World)
    ensures !EvalAnd(fuel, args, c, w).NoFuel? ==> EvalAnd(fuel + 1, args, c, w) == EvalAnd(fuel, args, c, w)
    decreases fuel, args, 0
  {
    if args != [] {
      MoreFuel(fuel, args[0], c, w);
      var r := Eval(fuel, args[0], c, w);
      if r.Ok? { MoreFuelAnd(fuel, args[1..], c, r.w); }
    }
  }

  lemma {:induction false} MoreFuelOr(fuel: nat, args: seq<Ast>, c: nat, w: World)
    ensures !EvalOr(fuel, args, c, w).NoFuel? ==> EvalOr(fuel + 1, args, c, w) == EvalOr(fuel, args, c, w)
    decreases fuel, args, 0
  {
    if args != [] {
      MoreFuel(fuel, args[0], c, w);
      var r := Eval(fuel, args[0], c, w);
      if r.Ok? { MoreFuelOr(fuel, args[1..], c, r.w); }
    }
  }

  lemma {:induction false} MoreFuelRepeat(fuel: nat, a: Ast, n: nat, c: nat, w: World)
    ensures !EvalRepeat(fuel, a, n, c, w).NoFuel? ==> EvalRepeat(fuel + 1, a, n, c, w) == EvalRepeat(fuel, a, n, c, w)
    decreases fuel, a, n
  {
    if n != 0 {
      MoreFuel(fuel, a, c, w);
      var r := Eval(fuel, a, c, w);
      if r.Ok? { MoreFuelRepeat(fuel, a, n - 1, c, r.w); }
    }
  }

  lemma {:induction false} MoreFuelBindings(fuel: nat, bs: seq<Ast>, b: nat, w: World)
    ensures !EvalBindings(fuel, bs, b, w).NoFuel? ==> EvalBindings(fuel + 1, bs, b, w) == EvalBindings(fuel, bs, b, w)
    decreases fuel, bs, 0
  {
    if bs != [] && IsBinding(bs[0]) && bs[0].elems[0].Ident? {
      MoreFuel(fuel, bs[0].elems[1], b, w);
      var r := Eval(fuel, bs[0].elems[1], b, w);
      if r.Ok? { MoreFuelBindings(fuel, bs[1..], b, Bind(r.w, b, map[bs[0].elems[0].id := r.value])); }
    }
  }

  lemma {:induction false} MoreFuelHigher(fuel: nat, f: Builtin, args: seq<Ast>, c: nat, w: World)
    requires MinArgs(f) <= |args|
    ensures !EvalHigher(fuel, f, args, c, w).NoFuel?
            ==> EvalHigher(fuel + 1, f, args, c, w) == EvalHigher(fuel, f, args, c, w)
    decreases fuel
  {
    match f
    case Not => MoreFuel(fuel, args[0], c, w);
    case Apply => if args[1].List? { MoreFuelSexp(fuel, [args[0]] + args[1].items, c, w); }
    case MapOver =>
      if args[1].List? && !(exists l :: l in args[1..] && !(l.List? && |l.items| == |args[1].items|)) {
        MoreFuelMap(fuel, args[0], Rows(args[1..], |args[1].items|), c, w);
      }
    case Reduce =>
      if args[1].List? && 2 <= |args[1].items| {
        MoreFuelReduce(fuel, args[0], args[1].items[0], args[1].items[1..], c, w);
      }
    case _ =>
  }

  lemma {:induction false} MoreFuelMap(fuel: nat, f: Ast, rows: seq<seq<Ast>>, c: nat, w: World)
    ensures !EvalMap(fuel, f, rows, c, w).NoFuel? ==> EvalMap(fuel + 1, f, rows, c, w) == EvalMap(fuel, f, rows, c, w)
    decreases fuel, rows, 0
  {
    if rows != [] && 0 < fuel {
      MoreFuelSexp(fuel - 1, [f] + rows[0], c, w);
      var r := EvalSexp(fuel - 1, [f] + rows[0], c, w);
      if r.Ok? { MoreFuelMap(fuel, f, rows[1..], c, r.w); }
    }
  }

  lemma {:induction false} MoreFuelReduce(fuel: nat, f: Ast, acc: Ast, rest: seq<Ast>, c: nat, w: World)
    ensures !EvalReduce(fuel, f, acc, rest, c, w).NoFuel?
            ==> EvalReduce(fuel + 1, f, acc, rest, c, w) == EvalReduce(fuel, f, acc, rest, c, w)
    decreases fuel, rest, 0
  {
    if rest != [] && 0 < fuel {
      MoreFuelSexp(fuel - 1, [f, acc, rest[0]], c, w);
      var r := EvalSexp(fuel - 1, [f, acc, rest[0]], c, w);
      if r.Ok? { MoreFuelReduce(fuel, f, r.value, rest[1..], c, r.w); }
    }
  }

  // A program has at most one outcome: all fuels with which it finishes agree.
  lemma {:induction false} Deterministic(f: nat, g: nat, program: seq<Ast>)
    requires f <= g && !Run(f, program).NoFuel?
    ensures Run(g, program) == Run(f, program)
    decreases g - f
  {
    if f < g {
      MoreFuelAll(f, program, 0, Initial);
      Deterministic(f + 1, g, program);
    }
  }

  // ---------------------------------------------------------------------------------
  // Values
  // ---------------------------------------------------------------------------------

  // `w'` differs from `w` only by contexts nothing refers to.
  ghost predicate Garbage(w: World, w': World) {
    w.frames <= w'.frames && w.stores <= w'.stores && w'.atoms == w.atoms
  }

  // A value with every nil list made an empty one.
  function Normal(a: Ast): Ast {
    match a
    case List(items, _) => List(NormalAll(items), false)
    case Module(name, body) => Module(name, NormalAll(body))
    case Sexp(elems) => Sexp(NormalAll(elems))
    case _ => a
  }

  function NormalAll(s: seq<Ast>): (r: seq<Ast>)
    ensures |r| == |s|
  {
    if s == [] then [] else [Normal(s[0])] + NormalAll(s[1..])
  }

  predicate NoNil(a: Ast) {
    match a
    case List(items, isNil) => !isNil && forall x :: x in items ==> NoNil(x)
    case Module(_, body) => forall x :: x in body ==> NoNil(x)
    case Sexp(elems) => forall x :: x in elems ==> NoNil(x)
    case _ => true
  }

  lemma {:induction false} NormalFixed(a: Ast)
    ensures Normal(a) == a <==> NoNil(a)
    decreases a, 1
  {
    match a
    case List(items, _) => NormalAllFixed(items);
    case Module(_, body) => NormalAllFixed(body);
    case Sexp(elems) => NormalAllFixed(elems);
    case _ =>
  }

  lemma {:induction false} NormalAllFixed(s: seq<Ast>)
    ensures NormalAll(s) == s <==> forall x :: x in s ==> NoNil(x)
    decreases s, 0
  {
    if s != [] {
      NormalFixed(s[0]);
      NormalAllFixed(s[1..]);
      assert NormalAll(s)[0] == Normal(s[0]) && NormalAll(s)[1..] == NormalAll(s[1..]);
      assert s == [s[0]] + s[1..];
    }
  }

  lemma {:induction false} NormalTwice(a: Ast)
    ensures Normal(Normal(a)) == Normal(a)
    ensures IsValue(a) ==> IsValue(Normal(a))
    decreases a, 1
  {
    match a
    case List(items, _) => NormalAllTwice(items);
    case Module(_, body) => NormalAllTwice(body);
    case Sexp(elems) => NormalAllTwice(elems);
    case _ =>
  }

  lemma {:induction false} NormalAllTwice(s: seq<Ast>)
    ensures NormalAll(NormalAll(s)) == NormalAll(s)
    ensures AllValues(s) ==> AllValues(NormalAll(s))
    decreases s, 0
  {
    if s != [] {
      NormalTwice(s[0]);
      NormalAllTwice(s[1..]);
      assert NormalAll(s)[0] == Normal(s[0]) && NormalAll(s)[1..] == NormalAll(s[1..]);
    }
  }

  // Values in any state, and in a state that keeps the invariant whatever evaluation has
  // returned, placements included.
  ghost predicate Result(w: World, c: nat, a: Ast) {
    IsValue(a) || (Inv(w) && c < |w.frames| && GoodValue(w, a))
  }

  ghost predicate Results(w: World, c: nat, s: seq<Ast>) {
    AllValues(s) || (Inv(w) && c < |w.frames| && GoodArgs(w, s))
  }

  // What evaluation returns are such results, in all contexts.
  lemma EveryResult(fuel: nat, s: seq<Ast>, c: nat, w: World, c2: nat)
    requires Ready(w, c) && AllRefs(w, s) && EvalAll(fuel, s, c, w).Ok? && c2 < |EvalAll(fuel, s, c, w).w.frames|
    ensures var r := EvalAll(fuel, s, c, w); Results(r.w, c2, r.value)
  {
    EvalAllGood(fuel, s, c, w);
  }

  // A result evaluates to its normal form, in any context and with any fuel, and its
  // evaluation changes nothing.  So it is a fixed point exactly if it has no nil list in it.
  lemma {:induction false} ValueFixed(fuel: nat, a: Ast, c: nat, w: World)
    requires Result(w, c, a)
    ensures var r := Eval(fuel, a, c, w); r.Ok? && r.value == Normal(a) && Garbage(w, r.w)
    ensures Eval(fuel, a, c, w).value == a <==> NoNil(a)
    decreases a, 1
  {
    NormalFixed(a);
    match a
    case List(items, _) =>
      ItemsGood(w, a, items);
      ValuesFixed(fuel, items, c, w);
    case Module(name, body) =>
      ItemsGood(w, a, body);
      ModuleFixed(fuel, name, body, c, w);
    case Sexp(elems) => MadeFixed(fuel, elems, c, w);
    case _ =>
  }

  lemma ItemsGood(w: World, a: Ast, s: seq<Ast>)
    requires (a.List? && a.items == s) || (a.Module? && a.body == s) || (a.Sexp? && a.elems == s)
    ensures GoodValue(w, a) ==> GoodArgs(w, s)
    ensures IsValue(a) ==> AllValues(s)
  {
  }

  lemma {:induction false} ModuleFixed(fuel: nat, name: string, body: seq<Ast>, c: nat, w: World)
    requires Results(w, c, body)
    ensures var r := EvalModule(fuel, name, body, c, w);
            r.Ok? && r.value == Module(name, NormalAll(body)) && Garbage(w, r.w)
    decreases body, 1
  {
    var w0 := CleanGlobal(w, c);
    var m := |w0.frames|;
    var w1 := NewFrame(w0, m - 1);
    if !AllValues(body) { ModuleArgs(body, c, w); }
    ValuesFixed(fuel, body, m, w1);
    var r := EvalAll(fuel, body, m, w1);
    assert r.w.frames[m] == w1.frames[m];
    NoExports(name, r.w, c, m);
  }

  lemma ModuleArgs(body: seq<Ast>, c: nat, w: World)
    requires Inv(w) && c < |w.frames| && GoodArgs(w, body)
    ensures var w0 := CleanGlobal(w, c);
            var w1 := NewFrame(w0, |w0.frames| - 1);
            Inv(w1) && |w0.frames| < |w1.frames| && GoodArgs(w1, body)
  {
    var w0 := CleanGlobal(w, c);
    CleanGlobalInv(w, c);
    NewFrameInv(w0, |w0.frames| - 1);
    GrowsTransitive(w, w0, NewFrame(w0, |w0.frames| - 1));
    GoodArgsGrow(w, NewFrame(w0, |w0.frames| - 1), body);
  }

  lemma {:induction false} ValuesFixed(fuel: nat, s: seq<Ast>, c: nat, w: World)
    requires Results(w, c, s)
    ensures var r := EvalAll(fuel, s, c, w); r.Ok? && r.value == NormalAll(s) && Garbage(w, r.w)
    decreases s, 0
  {
    if s != [] {
      assert s[0] in s && Result(w, c, s[0]);
      ValueFixed(fuel, s[0], c, w);
      var w1 := Eval(fuel, s[0], c, w).w;
      if !AllValues(s) { RestGood(fuel, s, c, w); }
      ValuesFixed(fuel, s[1..], c, w1);
    }
  }

  lemma RestGood(fuel: nat, s: seq<Ast>, c: nat, w: World)
    requires s != [] && Inv(w) && c < |w.frames| && GoodArgs(w, s) && Eval(fuel, s[0], c, w).Ok?
    ensures Results(Eval(fuel, s[0], c, w).w, c, s[1..])
  {
    assert s[0] in s;
    SettledQuiet(fuel, s[0], c, w);
    GoodArgsGrow(w, Eval(fuel, s[0], c, w).w, s[1..]);
  }

  // Once evaluated again, they are results still.
  lemma {:induction false} StillResults(fuel: nat, s: seq<Ast>, c: nat, w: World, c2: nat)
    requires Results(w, c, s) && (!AllValues(s) ==> c2 < |w.frames|)
    ensures EvalAll(fuel, s, c, w).Ok? && Results(EvalAll(fuel, s, c, w).w, c2, NormalAll(s))
  {
    ValuesFixed(fuel, s, c, w);
    NormalAllTwice(s);
    if !AllValues(s) { SettledQuietAll(fuel, s, c, w); }
  }

  // A closure body run in the fresh context `fn` with the given arguments bound.
  ghost function Body(fuel: nat, params: seq<Id>, do: seq<Ast>, fn: nat, args: seq<Ast>, w: World): Ret<Ast>
    requires |params| == |args|
  {
    var (results, w2) :- EvalAll(fuel, do, fn, Bind(w, fn, Zip(params, args)));
    if results == [] then Err else Ok(results[|results| - 1], w2)
  }

  // Calling a closure on results repeats none of the effects that produced them: the body
  // runs directly on the normal forms of the arguments, in a world that differs only by
  // garbage.
  lemma CallOnce(fuel: nat, params: seq<Id>, do: seq<Ast>, ctx: nat, args: seq<Ast>, w: World) returns (w1: World)
    requires Results(w, ctx, args) && |params| == |args|
    ensures Garbage(NewFrame(w, ctx), w1)
    ensures Call(fuel, params, do, ctx, args, w) == Body(fuel, params, do, |w.frames|, NormalAll(args), w1)
  {
    var w0 := NewFrame(w, ctx);
    if !AllValues(args) {
      NewFrameInv(w, ctx);
      GoodArgsGrow(w, w0, args);
    }
    ValuesFixed(fuel, args, ctx, w0);
    w1 := EvalAll(fuel, args, ctx, w0).w;
  }

  // A let evaluates each binding's expression exactly once, although the code evaluates
  // the values again in `c` and once more in the call.
  lemma LetOnce(fuel: nat, args: seq<Ast>, c: nat, w: World) returns (w1: World)
    requires 1 <= |args| && BindingList(args[0]) && 0 < fuel
    requires var b := EvalBindings(fuel, args[0].elems, |w.frames|, NewFrame(w, c)); b.Ok? && Results(b.w, c, b.value.1)
    ensures var b := EvalBindings(fuel, args[0].elems, |w.frames|, NewFrame(w, c));
            && w1.atoms == b.w.atoms && b.w.frames <= w1.frames && b.w.stores <= w1.stores
            && exists fn ::
                 && |b.w.frames| <= fn < |w1.frames| && w1.frames[fn].parent == Some(c) && w1.frames[fn].binds == map[]
                 && EvalLet(fuel, args, c, w) == Body(fuel - 1, b.value.0, LetBody(args), fn, NormalAll(b.value.1), w1)
  {
    var b := EvalBindings(fuel, args[0].elems, |w.frames|, NewFrame(w, c));
    var fn;
    fn, w1 := CallAgain(fuel - 1, b.value.0, LetBody(args), c, b.value.1, b.w);
    assert EvalLet(fuel, args, c, w) == Body(fuel - 1, b.value.0, LetBody(args), fn, NormalAll(b.value.1), w1);
  }

  // Evaluating results once more before a call makes no difference.
  lemma CallAgain(fuel: nat, params: seq<Id>, do: seq<Ast>, c: nat, vals: seq<Ast>, w: World)
    returns (fn: nat, w1: World)
    requires Results(w, c, vals) && |params| == |vals|
    ensures var r := EvalAll(fuel, vals, c, w);
            r.Ok? && Call(fuel, params, do, c, r.value, r.w) == Body(fuel, params, do, fn, NormalAll(vals), w1)
    ensures w1.atoms == w.atoms && w.frames <= w1.frames && w.stores <= w1.stores
    ensures |w.frames| <= fn < |w1.frames| && w1.frames[fn].parent == Some(c) && w1.frames[fn].binds == map[]
  {
    ValuesFixed(fuel, vals, c, w);
    NormalAllTwice(vals);
    StillResults(fuel, vals, c, w, c);
    var w2 := EvalAll(fuel, vals, c, w).w;
    w1 := CallOnce(fuel, params, do, c, NormalAll(vals), w2);
    fn := |w2.frames|;
    assert w1.frames[fn] == NewFrame(w2, c).frames[fn];
  }

  // The values of a let's bindings are such results in every state that keeps the invariant.
  lemma LetResults(fuel: nat, args: seq<Ast>, c: nat, w: World)
    requires 1 <= |args| && BindingList(args[0]) && Ready(w, c) && AllRefs(w, args)
    ensures var b := EvalBindings(fuel, args[0].elems, |w.frames|, NewFrame(w, c)); b.Ok? ==> Results(b.w, c, b.value.1)
  {
    assert args[0] in args;
    LetBindingsGood(fuel, args[0].elems, c, w);
  }

  // Every step of a map over results calls the function directly on the row.
  lemma MapOnce(fuel: nat, f: Ast, row: seq<Ast>, c: nat, w: World) returns (w1: World, w2: World)
    requires f.Closure? && Results(w, c, [f] + row) && |f.params| == |row| && 0 < fuel
    ensures Garbage(w, w1) && Garbage(NewFrame(w1, f.ctx), w2)
    ensures EvalSexp(fuel, [f] + row, c, w) == Body(fuel - 1, f.params, f.do, |w1.frames|, NormalAll(row), w2)
  {
    RowResults(f, row, c, w);
    ValuesFixed(fuel, row, c, w);
    NormalAllTwice(row);
    StillResults(fuel, row, c, w, f.ctx);
    assert ([f] + row)[1..] == row;
    w1 := EvalAll(fuel, row, c, w).w;
    w2 := CallOnce(fuel - 1, f.params, f.do, f.ctx, NormalAll(row), w1);
  }

  lemma RowResults(f: Ast, row: seq<Ast>, c: nat, w: World)
    requires f.Closure? && Results(w, c, [f] + row)
    ensures Results(w, c, row) && (!AllValues(row) ==> f.ctx < |w.frames|)
  {
    assert forall x :: x in row ==> x in [f] + row;
    assert f in [f] + row;
  }

  // The same for a built-in, except that those that evaluate their own arguments get the row
  // itself.
  lemma MapBuiltin(fuel: nat, f: Builtin, row: seq<Ast>, c: nat, w: World) returns (w1: World)
    requires Results(w, c, row)
    ensures Garbage(w, w1)
    ensures EvalSexp(fuel, [Ident(Fn(f))] + row, c, w) ==
              if |row| < MinArgs(f) then Err
              else if Lazy(f) then EvalLazy(fuel, f, row, c, w)
              else if !HigherOrder(f) then Prim(f, NormalAll(row), c, w1)
              else if fuel == 0 then NoFuel
              else EvalHigher(fuel - 1, f, NormalAll(row), c, w1)
  {
    ValuesFixed(fuel, row, c, w);
    var elems := [Ident(Fn(f))] + row;
    assert elems[1..] == row && elems[0] == Ident(Fn(f));
    assert Eval(fuel, elems[0], c, w) == Ok(Ident(Fn(f)), w);
    w1 := EvalAll(fuel, row, c, w).w;
  }

  // ---------------------------------------------------------------------------------
  // Placement results
  // ---------------------------------------------------------------------------------

  predicate Referring(s: seq<Ast>) { forall x :: x in s ==> x.Str? || x.Label? }

  lemma {:induction false} NamedRefer(w: World, refs: seq<Ast>)
    requires AllNamed(w, refs).Some?
    ensures Referring(refs)
    decreases |refs|
  {
    if refs != [] {
      NamedRefer(w, refs[1..]);
      assert refs == [refs[0]] + refs[1..];
    }
  }

  // Nested lists of references are values, and their normal forms name the same.
  lemma {:induction false} ReferringValues(s: seq<Ast>)
    requires Referring(Flatten(s))
    ensures AllValues(s) && Flatten(NormalAll(s)) == Flatten(s)
  {
    if s != [] {
      var head := match s[0] case List(items, _) => Flatten(items) case x => [x];
      assert Flatten(s) == head + Flatten(s[1..]);
      forall x | x in head ensures x.Str? || x.Label? { assert x in Flatten(s); }
      forall x | x in Flatten(s[1..]) ensures x.Str? || x.Label? { assert x in Flatten(s); }
      ReferringValues(s[1..]);
      assert NormalAll(s)[0] == Normal(s[0]) && NormalAll(s)[1..] == NormalAll(s[1..]);
      if s[0].List? {
        ReferringValues(s[0].items);
      } else {
        assert s[0] in head;
      }
    }
  }

  lemma {:induction false} ExcludedAgain(w: World, members: seq<nat>, pairs: set<(string, string)>)
    requires Excluded(w, members, pairs)
    ensures AddExclusive(w, members, pairs) == Some(w)
    decreases |members|
  {
    if members != [] {
      var i := members[0];
      assert i in members && w.atoms[i].exclusive + pairs == w.atoms[i].exclusive;
      assert w.atoms[i := w.atoms[i]] == w.atoms;
      assert forall k :: k in members[1..] ==> k in members;
      ExcludedAgain(w, members[1..], pairs);
    }
  }

  // A placement that has been made changes nothing.
  lemma MadeAgain(args: seq<Ast>, c: nat, w: World)
    requires Inv(w) && c < |w.frames| && Made(w, args)
    ensures PlacementImpl(args, c, w) == Ok(Sexp([Ident(Fn(Placement))] + args), w)
  {
    var refs := Flatten(args[1..]);
    AllResolveNamed(w, c, refs);
    var labels := AllNamed(w, refs).value;
    ExcludedAgain(w, AllMembers(labels), ExclusivePairs(Idents(labels)));
  }

  // A placement repeated in any later state, from any context, changes nothing.
  lemma PlacementAgain(args: seq<Ast>, again: seq<Ast>, c: nat, w: World, c2: nat, w2: World)
    requires Inv(w) && c < |w.frames| && 2 <= |args| && PlacementImpl(args, c, w).Ok?
    requires Inv(w2) && c2 < |w2.frames| && Grows(PlacementImpl(args, c, w).w, w2)
    requires |again| == |args| && again[0] == args[0] && Flatten(again[1..]) == Flatten(args[1..])
    ensures PlacementImpl(again, c2, w2) == Ok(Sexp([Ident(Fn(Placement))] + again), w2)
  {
    PlacementMade(args, c, w);
    MadeGrows(PlacementImpl(args, c, w).w, w2, args);
    MadeAgain(again, c2, w2);
  }

  // The arguments of a placement that has been made are values.
  lemma {:induction false} MadeArgs(args: seq<Ast>, w: World)
    requires Made(w, args)
    ensures AllValues(args) && Made(w, NormalAll(args))
  {
    NamedRefer(w, Flatten(args[1..]));
    ReferringValues(args[1..]);
    assert args == [args[0]] + args[1..];
    assert NormalAll(args)[0] == args[0] && NormalAll(args)[1..] == NormalAll(args[1..]);
  }

  lemma {:induction false} MadeFixed(fuel: nat, elems: seq<Ast>, c: nat, w: World)
    requires Inv(w) && c < |w.frames| && GoodValue(w, Sexp(elems))
    ensures var r := Eval(fuel, Sexp(elems), c, w);
            r.Ok? && r.value == Sexp(NormalAll(elems)) && Garbage(w, r.w)
    decreases elems, 1
  {
    var args := elems[1..];
    assert elems == [Ident(Fn(Placement))] + args && NormalAll(elems) == [Ident(Fn(Placement))] + NormalAll(args);
    ItemsGood(w, Sexp(elems), elems);
    MadeArgs(args, w);
    ValuesFixed(fuel, args, c, w);
    MadeCall(fuel, args, c, w);
    StrictCall(fuel, Placement, args, c, w);
  }

  lemma {:induction false} MadeCall(fuel: nat, args: seq<Ast>, c: nat, w: World)
    requires Inv(w) && c < |w.frames| && GoodArgs(w, args) && Made(w, args)
    requires EvalAll(fuel, args, c, w).Ok? && EvalAll(fuel, args, c, w).value == NormalAll(args)
    ensures var r := EvalAll(fuel, args, c, w);
            Prim(Placement, r.value, c, r.w) == Ok(Sexp([Ident(Fn(Placement))] + r.value), r.w)
  {
    var r := EvalAll(fuel, args, c, w);
    SettledQuietAll(fuel, args, c, w);
    MadeGrows(w, r.w, args);
    MadeArgs(args, r.w);
    MadeAgain(r.value, c, r.w);
    PrimPlacement(r.value, c, r.w);
  }

  lemma {:induction false} PrimPlacement(args: seq<Ast>, c: nat, w: World)
    requires 2 <= |args|
    ensures Prim(Placement, args, c, w) == PlacementImpl(args, c, w)
  {
  }

  // So the result of a placement is one of those results in every later state, and
  // evaluating it again changes nothing.
  lemma PlacementFixed(fuel: nat, args: seq<Ast>, c: nat, w: World, c2: nat, w2: World)
    requires Inv(w) && c < |w.frames| && GoodArgs(w, args) && 2 <= |args| && PlacementImpl(args, c, w).Ok?
    requires Inv(w2) && c2 < |w2.frames| && Grows(PlacementImpl(args, c, w).w, w2)
    ensures var v := PlacementImpl(args, c, w).value; v == Sexp([Ident(Fn(Placement))] + args) && Result(w2, c2, v)
    ensures var r := Eval(fuel, Sexp([Ident(Fn(Placement))] + args), c2, w2);
            r.Ok? && r.value == Sexp([Ident(Fn(Placement))] + NormalAll(args)) && Garbage(w2, r.w)
  {
    LaterResult(args, c, w, c2, w2);
    ValueFixed(fuel, PlacementImpl(args, c, w).value, c2, w2);
    NormalPlacement(args);
  }

  lemma LaterResult(args: seq<Ast>, c: nat, w: World, c2: nat, w2: World)
    requires Inv(w) && c < |w.frames| && GoodArgs(w, args) && 2 <= |args| && PlacementImpl(args, c, w).Ok?
    requires Inv(w2) && c2 < |w2.frames| && Grows(PlacementImpl(args, c, w).w, w2)
    ensures var v := PlacementImpl(args, c, w).value; v == Sexp([Ident(Fn(Placement))] + args) && Result(w2, c2, v)
  {
    PlacementGood(args, c, w);
    RefsGrow(PlacementImpl(args, c, w).w, w2, PlacementImpl(args, c, w).value);
  }

  lemma NormalPlacement(args: seq<Ast>)
    ensures Normal(Sexp([Ident(Fn(Placement))] + args)) == Sexp([Ident(Fn(Placement))] + NormalAll(args))
  {
    var elems := [Ident(Fn(Placement))] + args;
    assert elems[0] == Ident(Fn(Placement)) && elems[1..] == args;
    assert NormalAll(elems) == [Normal(elems[0])] + NormalAll(elems[1..]);
  }

  // ---------------------------------------------------------------------------------
  // Nil lists
  // ---------------------------------------------------------------------------------

  const NoElements := Sexp([Ident(Fn(MkList))])

  function Equal(a: Ast, b: Ast): Ast { Sexp([Ident(Fn(Eq)), a, b]) }

  function Lambda(x: string, do: Ast): Ast { Sexp([Ident(Fn(MkLambda)), Sexp([Ident(Name(x))]), do]) }

  lemma StrictCall(fuel: nat, f: Builtin, args: seq<Ast>, c: nat, w: World)
    requires !Lazy(f) && !HigherOrder(f) && MinArgs(f) <= |args| && EvalAll(fuel, args, c, w).Ok?
    ensures var r := EvalAll(fuel, args, c, w);
            Eval(fuel, Sexp([Ident(Fn(f))] + args), c, w) == Prim(f, r.value, c, r.w)
  {
    var elems := [Ident(Fn(f))] + args;
    assert elems[1..] == args && elems[0] == Ident(Fn(f));
    assert Eval(fuel, elems[0], c, w) == Ok(Ident(Fn(f)), w);
  }

  lemma LazyCall(fuel: nat, f: Builtin, args: seq<Ast>, c: nat, w: World)
    requires Lazy(f) && MinArgs(f) <= |args|
    ensures Eval(fuel, Sexp([Ident(Fn(f))] + args), c, w) == EvalLazy(fuel, f, args, c, w)
  {
    var elems := [Ident(Fn(f))] + args;
    assert elems[1..] == args && elems[0] == Ident(Fn(f));
    assert Eval(fuel, elems[0], c, w) == Ok(Ident(Fn(f)), w);
  }

  lemma EvalNone(fuel: nat, c: nat, w: World)
    ensures Eval(fuel, NoElements, c, w) == Ok(List([], true), w)
  {
    assert EvalAll(fuel, [], c, w) == Ok([], w);
    StrictCall(fuel, MkList, [], c, w);
    assert [Ident(Fn(MkList))] + [] == [Ident(Fn(MkList))];
  }

  lemma EvalOne(fuel: nat, a: Ast, c: nat, w: World)
    requires Eval(fuel, a, c, w).Ok?
    ensures EvalAll(fuel, [a], c, w) == Ok([Eval(fuel, a, c, w).value], Eval(fuel, a, c, w).w)
  {
    var r := Eval(fuel, a, c, w);
    assert [a][0] == a && [a][1..] == [];
    assert EvalAll(fuel, [a][1..], c, r.w) == Ok([], r.w);
    assert [r.value] + [] == [r.value];
  }

  lemma EvalTwo(fuel: nat, a: Ast, b: Ast, c: nat, w: World)
    requires Eval(fuel, a, c, w).Ok? && Eval(fuel, a, c, w).w == w && Eval(fuel, b, c, w).Ok?
    ensures EvalAll(fuel, [a, b], c, w) ==
              Ok([Eval(fuel, a, c, w).value, Eval(fuel, b, c, w).value], Eval(fuel, b, c, w).w)
  {
    EvalOne(fuel, b, c, w);
    var x, y := Eval(fuel, a, c, w).value, Eval(fuel, b, c, w).value;
    assert [a, b][0] == a && [a, b][1..] == [b] && [x] + [y] == [x, y];
  }

  lemma {:induction false} EvalEqual(fuel: nat, a: Ast, b: Ast, x: Ast, y: Ast, c: nat, w: World)
    requires Eval(fuel, a, c, w) == Ok(x, w) && Eval(fuel, b, c, w) == Ok(y, w)
    ensures Eval(fuel, Equal(a, b), c, w) == Ok(Bool(DeepEq(w, x, y)), w)
  {
    EvalTwo(fuel, a, b, c, w);
    StrictCall(fuel, Eq, [a, b], c, w);
    assert Equal(a, b) == Sexp([Ident(Fn(Eq))] + [a, b]);
    PrimEqual(x, y, c, w);
  }

  lemma {:induction false} PrimEqual(x: Ast, y: Ast, c: nat, w: World)
    ensures Prim(Eq, [x, y], c, w) == Ok(Bool(DeepEq(w, x, y)), w)
  {
  }

  // The law fails for nil lists: `(= (list) (list))` is true, and so is comparing the two in
  // a function false, in every context.
  lemma NilArgument(fuel: nat, c: nat, w: World)
    requires 0 < fuel && c < |w.frames|
    ensures Eval(fuel, Equal(NoElements, NoElements), c, w) == Ok(Bool(true), w)
    ensures var r := Eval(fuel, Sexp([Lambda("x", Equal(Ident(Name("x")), NoElements)), NoElements]), c, w);
            r.Ok? && r.value == Bool(false)
  {
    EvalNone(fuel, c, w);
    EvalEqual(fuel, NoElements, NoElements, List([], true), List([], true), c, w);
    var do := Equal(Ident(Name("x")), NoElements);
    var call := [Lambda("x", do), NoElements];
    var w1 := DeepCopy(w, c);
    var f := Closure([Name("x")], [do], |w1.frames| - 1);
    EvalLambda(fuel, "x", do, c, w);
    EvalNone(fuel, c, w1);
    EvalOne(fuel, NoElements, c, w1);
    assert call[1..] == [NoElements];
    assert Eval(fuel, Sexp(call), c, w) == Call(fuel - 1, f.params, f.do, f.ctx, [List([], true)], w1);
    NilCall(fuel - 1, f.ctx, w1);
  }

  lemma EvalLambda(fuel: nat, x: string, do: Ast, c: nat, w: World)
    ensures var w1 := DeepCopy(w, c);
            Eval(fuel, Lambda(x, do), c, w) == Ok(Closure([Name(x)], [do], |w1.frames| - 1), w1)
  {
    var args := [Sexp([Ident(Name(x))]), do];
    LazyCall(fuel, MkLambda, args, c, w);
    assert [Ident(Fn(MkLambda))] + args == [Ident(Fn(MkLambda)), Sexp([Ident(Name(x))]), do] && args[1..] == [do];
    assert IdsOf([Ident(Name(x))]) == [Name(x)];
  }

  lemma NilCall(fuel: nat, ctx: nat, w: World)
    ensures var r := Call(fuel, [Name("x")], [Equal(Ident(Name("x")), NoElements)], ctx, [List([], true)], w);
            r.Ok? && r.value == Bool(false)
  {
    var x, do := Name("x"), Equal(Ident(Name("x")), NoElements);
    var w1 := CallOnce(fuel, [x], [do], ctx, [List([], true)], w);
    var fn := |w.frames|;
    var w2 := Bind(w1, fn, Zip([x], [List([], false)]));
    assert NormalAll([List([], true)]) == [List([], false)];
    assert Zip([x], [List([], false)]) == map[x := List([], false)] by {
      assert [x][1..] == [] && [List([], false)][1..] == [];
    }
    assert Lookup(w2, fn, x) == Some(List([], false));
    EvalNone(fuel, fn, w2);
    EvalEqual(fuel, Ident(x), NoElements, List([], false), List([], true), fn, w2);
    EvalOne(fuel, do, fn, w2);
  }

  // ---------------------------------------------------------------------------------
  // Captured contexts
  // ---------------------------------------------------------------------------------

  // Whatever runs after a context was captured, every context captured before it is
  // unchanged, together with all its ancestors.
  lemma CapturedFrozen(fuel: nat, a: Ast, c: nat, w: World, k: nat)
    requires Ready(w, c) && Refs(w, a) && Eval(fuel, a, c, w).Ok?
    requires k < |w.frames| && w.frames[k].copied
    ensures var w' := Eval(fuel, a, c, w).w;
            && k < |w'.frames| && w'.frames[k] == w.frames[k]
            && (w.frames[k].parent.Some? ==>
                  w.frames[k].parent.value < k && w.frames[w.frames[k].parent.value].copied)
  {
    EvalGood(fuel, a, c, w);
    assert FrameShape(w, k);
  }

  // So a closure sees the same bindings for as long as it lives.
  lemma ClosureStable(fuel: nat, a: Ast, c: nat, w: World, closure: Ast, id: Id)
    requires Ready(w, c) && Refs(w, a) && Eval(fuel, a, c, w).Ok?
    requires closure.Closure? && Refs(w, closure)
    ensures Lookup(Eval(fuel, a, c, w).w, closure.ctx, id) == Lookup(w, closure.ctx, id)
  {
    EvalGood(fuel, a, c, w);
    FrozenLookup(w, Eval(fuel, a, c, w).w, c, closure.ctx, id);
  }

  lemma {:induction false} FrozenLookup(w: World, w': World, c: nat, k: nat, id: Id)
    requires Ready(w, c) && Step(w, c, w') && k < |w.frames| && w.frames[k].copied
    ensures Lookup(w', k, id) == Lookup(w, k, id)
    decreases k
  {
    assert FrameShape(w, k);
    assert w'.frames[k] == w.frames[k];
    if id !in w.frames[k].binds && w.frames[k].parent.Some? {
      FrozenLookup(w, w', c, w.frames[k].parent.value, id);
    }
  }

  // ---------------------------------------------------------------------------------
  // Whole programs
  // ---------------------------------------------------------------------------------

  // What the parser and import resolution produce.
  ghost predicate Syntactic(a: Ast) {
    match a
    case Ident(_) | Str(_) | Int(_) | Float(_) | Bool(_) => true
    case Sexp(elems) => forall x :: x in elems ==> Syntactic(x)
    case Module(_, body) => forall x :: x in body ==> Syntactic(x)
    case _ => false
  }

  lemma {:induction false} SyntacticRefs(w: World, a: Ast)
    requires Syntactic(a)
    ensures Refs(w, a)
  {
    match a
    case Sexp(elems) => forall x | x in elems ensures Refs(w, x) { SyntacticRefs(w, x); }
    case Module(_, body) => forall x | x in body ensures Refs(w, x) { SyntacticRefs(w, x); }
    case _ =>
  }

  // In every state a program reaches, all contexts share one global store, an atom is a
  // member of a label exactly when it carries it, no atom carries a label twice, and every
  // atom is listed exactly once among the containers or machines.
  lemma ProgramInvariant(fuel: nat, program: seq<Ast>, n: nat)
    requires n <= |program| && (forall x :: x in program ==> Syntactic(x)) && Run(fuel, program[..n]).Ok?
    ensures var w := Run(fuel, program[..n]).w;
            && w.stores != []
            && (forall c :: 0 <= c < |w.frames| ==>
                  GlobalOf(w, c) < |w.frames| && w.frames[GlobalOf(w, c)].store == 0)
            && (forall i, l :: 0 <= i < |w.atoms| ==>
                  (l in w.atoms[i].labels <==> l in w.stores[0].labels && i in w.stores[0].labels[l]))
            && (forall i :: 0 <= i < |w.atoms| ==> NoDup(w.atoms[i].labels))
            && |w.stores[0].containers| + |w.stores[0].machines| == |w.atoms|
  {
    InitialInv();
    var p := program[..n];
    forall x | x in p ensures Refs(Initial, x) { SyntacticRefs(Initial, x); }
    EvalAllGood(fuel, p, 0, Initial);
    var w := Run(fuel, p).w;
    forall c | 0 <= c < |w.frames| ensures GlobalOf(w, c) < |w.frames| && w.frames[GlobalOf(w, c)].store == 0 {
      GlobalShared(w, c);
    }
    LedgerCount(w);
  }

  lemma LedgerCount(w: World)
    requires Ledger(w)
    ensures |w.stores[0].containers| + |w.stores[0].machines| == |w.atoms|
  {
    var cs, ms := w.stores[0].containers, w.stores[0].machines;
    var all := cs + ms;
    forall i, j | 0 <= i < j < |all| ensures all[i] != all[j] {
      if i < |cs| && |cs| <= j {
        assert all[i] in cs && all[j] in ms;
      }
    }
    NoDupCount(all, |w.atoms|);
  }

  // A sequence that lists every number below `n` exactly once has length `n`.
  lemma {:induction false} NoDupCount(s: seq<nat>, n: nat)
    requires NoDup(s) && forall i: nat :: i in s <==> i < n
    ensures |s| == n
  {
    if s == [] {
      assert 0 !in s;
    } else {
      assert s[0] in s;
      assert n - 1 in s;
      var k :| 0 <= k < |s| && s[k] == n - 1;
      var t := s[..k] + s[k + 1..];
      forall i: nat ensures i in t <==> i < n - 1 {
        if i in t { assert i in s; }
        if i < n - 1 {
          assert i in s;
          var j :| 0 <= j < |s| && s[j] == i;
          assert t[if j < k then j else j - 1] == i;
        }
      }
      NoDupCount(t, n - 1);
    }
  }
}
