/** Import resolution (dsl/imports.go) and the path a policy takes from the controller to
    the minions (dsl/dsl.go, minion/engine.go). */
module Imports {
  import opened Basics
  import opened Syntax
  import opened Parser
  import opened World
  import opened Prims
  import opened Evaluator
  import opened EvalLaws
  import opened Names
  import opened Literals

  // ---------------------------------------------------------------------------------
  // Resolution
  // ---------------------------------------------------------------------------------

  // The first file found on the path for each module name.
  type Files = map<string, seq<Token>>

  // `(import)` without a name makes the code index past the end of the form.
  datatype Form = Other | ImportOf(name: string) | Malformed

  function FormOf(a: Ast): Form {
    if !a.Sexp? || a.elems == [] || a.elems[0] != Ident(Fn(Import)) then Other
    else if |a.elems| == 1 then Malformed
    else if a.elems[1].Str? && a.elems[1].s != "" then ImportOf(a.elems[1].s)
    else Other
  }

  ghost function Elems<T>(s: seq<T>): set<T> { set x | x in s }

  // The resolved forms, or None if resolution fails.  `chain` holds the modules being
  // imported and `top` says that only imports have been seen so far.
  function Resolve(files: Files, asts: seq<Ast>, chain: seq<string>, top: bool): Option<seq<Ast>>
    decreases |files.Keys - Elems(chain)|, |asts|
  {
    if asts == [] then Some([])
    else match FormOf(asts[0])
         case Malformed => None
         case Other =>
           (match Resolve(files, asts[1..], chain, false)
            case None => None
            case Some(rest) => Some([asts[0]] + rest))
         case ImportOf(name) =>
           if !top || name in chain || name !in files then None
           else match Parse(files[name])
                case None => None
                case Some(parsed) =>
                  LongerChain(files, chain, name);
                  match (Resolve(files, parsed, chain + [name], true), Resolve(files, asts[1..], chain, top))
                  case (Some(body), Some(rest)) => Some([Module(name, body)] + rest)
                  case _ => None
  }

  lemma LongerChain(files: Files, chain: seq<string>, name: string)
    requires name in files && name !in chain
    ensures |files.Keys - Elems(chain + [name])| < |files.Keys - Elems(chain)|
  {
    assert files.Keys - Elems(chain) == (files.Keys - Elems(chain + [name])) + {name};
  }

  method ResolveImports(files: Files, asts: seq<Ast>, chain: seq<string>) returns (r: Option<seq<Ast>>)
    ensures r == Resolve(files, asts, chain, true)
    decreases |files.Keys - Elems(chain)|
  {
    var newAsts, top, i := [], true, 0;
    assert asts[0..] == asts;
    PushNone(Resolve(files, asts, chain, true));
    while i < |asts|
      invariant 0 <= i <= |asts|
      invariant Resolve(files, asts, chain, true) == Push(newAsts, Resolve(files, asts[i..], chain, top))
    {
      assert asts[i..][0] == asts[i] && asts[i..][1..] == asts[i + 1..];
      ghost var rest := Resolve(files, asts[i + 1..], chain, if FormOf(asts[i]).Other? then false else top);
      match FormOf(asts[i]) {
        case Malformed => return None;
        case Other =>
          PushTwice(newAsts, [asts[i]], rest);
          newAsts, top := newAsts + [asts[i]], false;
        case ImportOf(name) =>
          if !top || name in chain || name !in files {
            return None;
          }
          var parsed := Parse(files[name]);
          if parsed.None? {
            return None;
          }
          LongerChain(files, chain, name);
          var body := ResolveImports(files, parsed.value, chain + [name]);
          if body.None? {
            return None;
          }
          PushTwice(newAsts, [Module(name, body.value)], rest);
          newAsts := newAsts + [Module(name, body.value)];
      }
      i := i + 1;
    }
    assert newAsts + [] == newAsts;
    return Some(newAsts);
  }

  ghost function Push(done: seq<Ast>, r: Option<seq<Ast>>): Option<seq<Ast>> {
    match r
    case None => None
    case Some(rest) => Some(done + rest)
  }

  lemma PushNone(r: Option<seq<Ast>>)
    ensures Push([], r) == r
  {
    if r.Some? { assert [] + r.value == r.value; }
  }

  lemma PushTwice(a: seq<Ast>, b: seq<Ast>, r: Option<seq<Ast>>)
    ensures Push(a, Push(b, r)) == Push(a + b, r)
  {
    if r.Some? { assert a + (b + r.value) == a + b + r.value; }
  }

  // ---------------------------------------------------------------------------------
  // When resolution succeeds
  // ---------------------------------------------------------------------------------

  // Imports come first and none is malformed.
  ghost predicate Ordered(asts: seq<Ast>) {
    && (forall i :: 0 <= i < |asts| ==> !FormOf(asts[i]).Malformed?)
    && (forall i, j :: 0 <= i < j < |asts| && FormOf(asts[j]).ImportOf? ==> FormOf(asts[i]).ImportOf?)
  }

  ghost predicate ImportsName(asts: seq<Ast>, name: string) {
    exists i :: 0 <= i < |asts| && FormOf(asts[i]) == ImportOf(name)
  }

  ghost predicate Loads(files: Files, name: string) {
    name in files && Parse(files[name]).Some?
  }

  ghost function Source(files: Files, name: string): seq<Ast>
    requires Loads(files, name)
  {
    Parse(files[name]).value
  }

  // Following imports from `asts` leads through the modules of `path` in turn.
  ghost predicate Reaches(files: Files, asts: seq<Ast>, path: seq<string>)
    decreases |path|
  {
    path != [] && ImportsName(asts, path[0]) &&
    (1 < |path| ==> Loads(files, path[0]) && Reaches(files, Source(files, path[0]), path[1..]))
  }

  // A reached module opens, parses, has its imports on top, and is not on its own chain.
  ghost predicate Sound(files: Files, chain: seq<string>, path: seq<string>) {
    path != [] && NoDup(chain + path) && Loads(files, path[|path| - 1]) && Ordered(Source(files, path[|path| - 1]))
  }

  ghost predicate Resolvable(files: Files, asts: seq<Ast>, chain: seq<string>) {
    Ordered(asts) && forall path :: Reaches(files, asts, path) ==> Sound(files, chain, path)
  }

  lemma {:induction false} ResolveSound(files: Files, asts: seq<Ast>, chain: seq<string>, top: bool, path: seq<string>)
    requires NoDup(chain) && Resolve(files, asts, chain, top).Some? && Reaches(files, asts, path)
    ensures top && Sound(files, chain, path)
    decreases |files.Keys - Elems(chain)|, |asts|
  {
    var name := path[0];
    ResolveHead(files, asts, chain, top);
    if FormOf(asts[0]) == ImportOf(name) {
      LongerChain(files, chain, name);
      var source := Source(files, name);
      ResolveOrdered(files, source, chain + [name], true);
      if 1 < |path| {
        ResolveSound(files, source, chain + [name], true, path[1..]);
        SoundLonger(files, chain, path);
      } else {
        assert path == [name];
      }
    } else {
      var i :| 0 <= i < |asts| && FormOf(asts[i]) == ImportOf(name);
      assert FormOf(asts[1..][i - 1]) == ImportOf(name);
      ResolveSound(files, asts[1..], chain, top && !FormOf(asts[0]).Other?, path);
    }
  }

  lemma SoundLonger(files: Files, chain: seq<string>, path: seq<string>)
    requires 1 < |path| && Sound(files, chain + [path[0]], path[1..])
    ensures Sound(files, chain, path)
  {
    assert chain + [path[0]] + path[1..] == chain + path;
    assert path[1..][|path| - 2] == path[|path| - 1];
  }

  // What a successful resolution says about the first form and the rest.
  lemma ResolveHead(files: Files, asts: seq<Ast>, chain: seq<string>, top: bool)
    requires asts != [] && Resolve(files, asts, chain, top).Some?
    ensures Resolve(files, asts[1..], chain, top && !FormOf(asts[0]).Other?).Some?
    ensures FormOf(asts[0]).ImportOf? ==>
              var name := FormOf(asts[0]).name;
              && top && name !in chain && Loads(files, name)
              && Resolve(files, Source(files, name), chain + [name], true).Some?
  {
  }

  lemma {:induction false} ResolveOrdered(files: Files, asts: seq<Ast>, chain: seq<string>, top: bool)
    requires Resolve(files, asts, chain, top).Some?
    ensures Ordered(asts) && (!top ==> forall i :: 0 <= i < |asts| ==> FormOf(asts[i]).Other?)
    decreases |asts|
  {
    if asts != [] {
      ResolveOrdered(files, asts[1..], chain, top && !FormOf(asts[0]).Other?);
      forall i | 0 <= i < |asts| ensures !FormOf(asts[i]).Malformed? && (!top ==> FormOf(asts[i]).Other?) {
        if 0 < i { assert asts[i] == asts[1..][i - 1]; }
      }
      forall i, j | 0 <= i < j < |asts| && FormOf(asts[j]).ImportOf? ensures FormOf(asts[i]).ImportOf? {
        assert asts[j] == asts[1..][j - 1];
        if 0 < i { assert asts[i] == asts[1..][i - 1]; }
      }
    }
  }

  lemma {:induction false} ResolveComplete(files: Files, asts: seq<Ast>, chain: seq<string>, top: bool)
    requires Resolvable(files, asts, chain)
    requires top || forall i :: 0 <= i < |asts| ==> FormOf(asts[i]).Other?
    ensures Resolve(files, asts, chain, top).Some?
    decreases |files.Keys - Elems(chain)|, |asts|
  {
    if asts != [] {
      TailResolvable(files, asts, chain);
      match FormOf(asts[0])
      case Other =>
        forall i | 0 <= i < |asts[1..]| ensures FormOf(asts[1..][i]).Other? {
          assert !FormOf(asts[i + 1]).ImportOf? && !FormOf(asts[i + 1]).Malformed?;
        }
        ResolveComplete(files, asts[1..], chain, false);
      case ImportOf(name) =>
        assert Reaches(files, asts, [name]);
        assert Sound(files, chain, [name]);
        NewInChain(chain, name);
        LongerChain(files, chain, name);
        ModuleResolvable(files, asts, chain, name);
        ResolveComplete(files, Source(files, name), chain + [name], true);
        ResolveComplete(files, asts[1..], chain, top);
  }
  }

  lemma NewInChain(chain: seq<string>, name: string)
    requires NoDup(chain + [name])
    ensures name !in chain
  {
    forall i | 0 <= i < |chain| ensures chain[i] != name {
      assert (chain + [name])[i] != (chain + [name])[|chain|];
    }
  }

  lemma TailResolvable(files: Files, asts: seq<Ast>, chain: seq<string>)
    requires asts != [] && Resolvable(files, asts, chain)
    ensures Resolvable(files, asts[1..], chain)
  {
    forall path | Reaches(files, asts[1..], path) ensures Sound(files, chain, path) {
      var i :| 0 <= i < |asts[1..]| && FormOf(asts[1..][i]) == ImportOf(path[0]);
      assert FormOf(asts[i + 1]) == ImportOf(path[0]);
      assert Reaches(files, asts, path);
    }
  }

  lemma ModuleResolvable(files: Files, asts: seq<Ast>, chain: seq<string>, name: string)
    requires Resolvable(files, asts, chain) && ImportsName(asts, name) && Loads(files, name)
    ensures Resolvable(files, Source(files, name), chain + [name])
  {
    assert Reaches(files, asts, [name]);
    assert Sound(files, chain, [name]);
    forall path | Reaches(files, Source(files, name), path) ensures Sound(files, chain + [name], path) {
      var longer := [name] + path;
      assert longer[1..] == path;
      assert Reaches(files, asts, longer);
      assert chain + longer == chain + [name] + path;
      assert longer[|longer| - 1] == path[|path| - 1];
    }
  }

  // Resolution succeeds exactly when every module reachable through imports opens, parses,
  // has its imports on top, and is not reachable from itself.
  lemma ResolveExactly(files: Files, asts: seq<Ast>)
    ensures Resolve(files, asts, [], true).Some? <==> Resolvable(files, asts, [])
  {
    if Resolve(files, asts, [], true).Some? {
      ResolveOrdered(files, asts, [], true);
      forall path | Reaches(files, asts, path) ensures Sound(files, [], path) {
        ResolveSound(files, asts, [], true, path);
      }
    }
    if Resolvable(files, asts, []) {
      ResolveComplete(files, asts, [], true);
    }
  }

  // ---------------------------------------------------------------------------------
  // What resolution returns
  // ---------------------------------------------------------------------------------

  // Terms without module nodes, as the parser returns them.
  ghost predicate ModuleFree(a: Ast) {
    match a
    case Module(_, _) => false
    case Sexp(elems) => forall x :: x in elems ==> ModuleFree(x)
    case _ => true
  }

  // Module nodes stand only at the top of a program or of a module body, and no import
  // is left beside them.
  ghost predicate Flat(a: Ast) {
    match a
    case Module(_, body) => forall x :: x in body ==> Flat(x)
    case _ => ModuleFree(a) && FormOf(a).Other?
  }

  ghost predicate AllFlat(s: seq<Ast>) { forall x :: x in s ==> Flat(x) }

  lemma {:induction false} ParsedModuleFree(ts: seq<Token>, depth: nat)
    requires ParseFrom(ts, depth).Done?
    ensures forall x :: x in ParseFrom(ts, depth).asts ==> ModuleFree(x)
    decreases |ts|
  {
    if ts != [] {
      match ts[0]
      case Word(text) => ParsedModuleFree(Dotted(text, ts[1..]).value.1, depth);
      case LParen =>
        ParsedModuleFree(ts[1..], depth + 1);
        ParsedModuleFree(ParseFrom(ts[1..], depth + 1).rest, depth);
      case RParen =>
      case Op(_) => ParsedModuleFree(ts[1..], depth);
      case IntTok(_) => ParsedModuleFree(ts[1..], depth);
      case FloatTok(_) => ParsedModuleFree(ts[1..], depth);
      case StrTok(_) => ParsedModuleFree(ts[1..], depth);
    }
  }

  ghost predicate ScannedFiles(files: Files) { forall name :: name in files ==> TokensOk(files[name]) }

  // The result has no import left in any body, and only terms the printer can print.
  lemma {:induction false} ResolveResult(files: Files, asts: seq<Ast>, chain: seq<string>, top: bool)
    requires Resolve(files, asts, chain, top).Some?
    requires ScannedFiles(files) && AllReadable(asts) && forall x :: x in asts ==> ModuleFree(x)
    ensures AllFlat(Resolve(files, asts, chain, top).value)
    ensures AllReadable(Resolve(files, asts, chain, top).value)
    decreases |files.Keys - Elems(chain)|, |asts|
  {
    if asts != [] {
      match FormOf(asts[0])
      case Other =>
        assert ModuleFree(asts[0]) && Flat(asts[0]);
        ResolveResult(files, asts[1..], chain, false);
      case ImportOf(name) =>
        LongerChain(files, chain, name);
        ParsedModuleFree(files[name], 0);
        ParsedReadable(files[name], 0);
        ResolveResult(files, Source(files, name), chain + [name], true);
        ResolveResult(files, asts[1..], chain, top);
        var body := Resolve(files, Source(files, name), chain + [name], true).value;
        assert Readable(asts[0]) && asts[0].elems[1] in asts[0].elems;
        assert Flat(Module(name, body)) && Readable(Module(name, body));
    }
  }

  // A program without imports resolves to itself.
  lemma {:induction false} ResolveNothing(files: Files, asts: seq<Ast>, chain: seq<string>, top: bool)
    requires forall i :: 0 <= i < |asts| ==> FormOf(asts[i]).Other?
    ensures Resolve(files, asts, chain, top) == Some(asts)
    decreases |asts|
  {
    if asts != [] {
      assert FormOf(asts[0]).Other?;
      ResolveNothing(files, asts[1..], chain, false);
      assert asts == [asts[0]] + asts[1..];
    }
  }

  // ---------------------------------------------------------------------------------
  // Shipping
  // ---------------------------------------------------------------------------------

  // No module body is empty: `module` needs a name and at least one form.
  ghost predicate Populated(a: Ast) {
    a.Module? ==> a.body != [] && forall x :: x in a.body ==> Populated(x)
  }

  ghost predicate AllPopulated(s: seq<Ast>) { forall x :: x in s ==> Populated(x) }

  lemma {:induction false} ShipSame(a: Ast)
    requires ModuleFree(a)
    ensures Ship(a) == a
    decreases a, 1
  {
    match a
    case Sexp(elems) => ShipAllSame(elems);
    case _ =>
  }

  lemma {:induction false} ShipAllSame(s: seq<Ast>)
    requires forall x :: x in s ==> ModuleFree(x)
    ensures ShipAll(s) == s
    decreases s, 0
  {
    if s != [] {
      ShipSame(s[0]);
      ShipAllSame(s[1..]);
      assert s == [s[0]] + s[1..];
    }
  }

  // The two forms of a module evaluate alike, unless the body is empty.
  lemma {:induction false} ShipEval(fuel: nat, a: Ast, c: nat, w: World)
    requires Flat(a)
    ensures Populated(a) ==> Eval(fuel, Ship(a), c, w) == Eval(fuel, a, c, w)
    ensures !Populated(a) && Eval(fuel, a, c, w).Ok? ==> Eval(fuel, Ship(a), c, w) == Err
    decreases a, 1
  {
    match a
    case Module(name, body) =>
      var w0 := CleanGlobal(w, c);
      ShipEvalAll(fuel, body, |w0.frames|, NewFrame(w0, |w0.frames| - 1));
      ModuleCall(fuel, name, ShipAll(body), c, w);
      assert Populated(a) <==> body != [] && AllPopulated(body);
      assert Eval(fuel, a, c, w) == EvalModule(fuel, name, body, c, w);
    case _ => ShipSame(a);
  }

  // Calling the built-in `module` is evaluating a module, given at least one form.
  lemma ModuleCall(fuel: nat, name: string, body: seq<Ast>, c: nat, w: World)
    ensures Eval(fuel, Sexp([Ident(Fn(MkModule)), Str(name)] + body), c, w)
            == if body == [] then Err else EvalModule(fuel, name, body, c, w)
  {
    var rest := [Str(name)] + body;
    var elems := [Ident(Fn(MkModule)), Str(name)] + body;
    assert elems[1..] == rest && rest[1..] == body;
    assert Eval(fuel, elems[0], c, w) == Ok(elems[0], w);
    assert |body| == |elems| - 2 && MinArgs(MkModule) == 2;
    if body == [] {
      assert EvalSexp(fuel, elems, c, w) == Err;
    } else {
      assert EvalSexp(fuel, elems, c, w) == EvalLazy(fuel, MkModule, rest, c, w);
      assert Eval(fuel, rest[0], c, w) == Ok(Str(name), w);
      assert EvalLazy(fuel, MkModule, rest, c, w) == EvalModule(fuel, name, body, c, w);
    }
  }

  lemma {:induction false} ShipEvalAll(fuel: nat, s: seq<Ast>, c: nat, w: World)
    requires AllFlat(s)
    ensures AllPopulated(s) ==> EvalAll(fuel, ShipAll(s), c, w) == EvalAll(fuel, s, c, w)
    ensures !AllPopulated(s) && EvalAll(fuel, s, c, w).Ok? ==> EvalAll(fuel, ShipAll(s), c, w) == Err
    decreases s, 0
  {
    if s != [] {
      ShipEval(fuel, s[0], c, w);
      var r := Eval(fuel, s[0], c, w);
      assert ShipAll(s)[0] == Ship(s[0]) && ShipAll(s)[1..] == ShipAll(s[1..]);
      if r.Ok? { ShipEvalAll(fuel, s[1..], c, r.w); }
      assert AllPopulated(s) <==> Populated(s[0]) && AllPopulated(s[1..]);
    }
  }

  // Parsing and import resolution of a policy text.
  ghost function Compile(files: Files, text: seq<Token>): Option<seq<Ast>> {
    match Parse(text)
    case None => None
    case Some(asts) => Resolve(files, asts, [], true)
  }

  // Without files to import, resolution changes nothing.
  lemma {:induction false} ResolveAlone(asts: seq<Ast>, top: bool)
    ensures Resolve(map[], asts, [], top).Some? ==> Resolve(map[], asts, [], top) == Some(asts)
    decreases |asts|
  {
    if asts != [] {
      ResolveAlone(asts[1..], false);
      assert asts == [asts[0]] + asts[1..];
    }
  }

  // The controller ships the printed form of its compiled program.  A minion, which has no
  // files to import, gets the same program from that text, whatever its scanner makes of
  // it, exactly if every string prints as one literal and no float prints as an integer.
  lemma Shipped(files: Files, text: seq<Token>, ts: seq<Token>)
    requires TokensOk(text) && ScannedFiles(files) && Compile(files, text).Some?
    requires Scans(PrintAll(Compile(files, text).value), ts)
    ensures var p := Compile(files, text).value;
            && AllFlat(p) && AllReadable(p)
            && (AllPrintable(p) ==> Compile(map[], ts) == Some(RereadAll(p)))
            && (Compile(map[], ts) == Some(ShipAll(p)) <==> AllPrintable(p) && AllFloatsKept(p))
  {
    ParsedReadable(text, 0);
    ParsedModuleFree(text, 0);
    ResolveResult(files, Parse(text).value, [], true);
    var p := Compile(files, text).value;
    SurvivesExactly(p, ts);
    if AllPrintable(p) { Accepted(p, ts); }
    if Parse(ts).Some? { ResolveAlone(Parse(ts).value, true); }
  }

  lemma Accepted(p: seq<Ast>, ts: seq<Token>)
    requires AllFlat(p) && AllReadable(p) && AllPrintable(p) && Scans(PrintAll(p), ts)
    ensures Compile(map[], ts) == Some(RereadAll(p)) && (RereadAll(p) == ShipAll(p) <==> AllFloatsKept(p))
  {
    PrintAllWritten(p);
    ScansSame(PrintAll(p), ts);
    ProgramRoundTrip(p);
    RereadIsShipAll(p);
    RereadForms(p);
    ResolveNothing(map[], RereadAll(p), [], true);
  }

  // The program then has the same outcome at the minion (also if that is an error), down to
  // every container, label, connection and binding, if no imported file is empty.  If one
  // is, a program that evaluates at the controller fails at the minion.
  lemma Shipping(files: Files, text: seq<Token>, ts: seq<Token>, fuel: nat)
    requires TokensOk(text) && ScannedFiles(files) && Compile(files, text).Some?
    requires var p := Compile(files, text).value; AllPrintable(p) && AllFloatsKept(p) && Scans(PrintAll(p), ts)
    ensures var p := Compile(files, text).value;
            var shipped := Compile(map[], ts);
            && shipped == Some(ShipAll(p))
            && (AllPopulated(p) ==> Run(fuel, shipped.value) == Run(fuel, p))
            && (!AllPopulated(p) && Run(fuel, p).Ok? ==> Run(fuel, shipped.value) == Err)
  {
    Shipped(files, text, ts);
    ShipEvalAll(fuel, Compile(files, text).value, 0, Initial);
  }

  lemma {:induction false} RereadForm(a: Ast)
    requires Flat(a)
    ensures FormOf(Reread(a)).Other?
  {
    if a.Sexp? && a.elems != [] {
      var r := RereadAll(a.elems);
      assert r[0] == Reread(a.elems[0]);
      if |a.elems| > 1 {
        assert r[1..] == RereadAll(a.elems[1..]) && r[1] == Reread(a.elems[1]);
        assert ModuleFree(a) && a.elems[1] in a.elems && ModuleFree(a.elems[1]);
      }
      assert a.elems[0] in a.elems && ModuleFree(a.elems[0]);
    }
  }

  lemma {:induction false} RereadForms(s: seq<Ast>)
    requires AllFlat(s)
    ensures forall i :: 0 <= i < |s| ==> FormOf(RereadAll(s)[i]).Other?
  {
    if s != [] {
      RereadForms(s[1..]);
      RereadForm(s[0]);
      forall i | 0 <= i < |s| ensures FormOf(RereadAll(s)[i]).Other? {
        if 0 < i { assert RereadAll(s)[i] == RereadAll(s[1..])[i - 1]; }
      }
    }
  }

  // ---------------------------------------------------------------------------------
  // The failing case
  // ---------------------------------------------------------------------------------

  const ImportA := Sexp([Ident(Fn(Import)), Str("a")])

  lemma LiteralA()
    ensures Closed("a") && LiteralValue("a") && Quote("a") == "\"a\"" && IsLiteral("\"a\"")
  {
    assert Step("a") == 1 && "a"[1..] == "";
    assert Quote("a")[1..2] == "a";
  }

  lemma PrintOne(a: Ast)
    ensures PrintAll([a]) == Print(a)
  {
    assert [a][0] == a && [a][1..] == [];
    assert Print(a) + [] == Print(a);
  }

  lemma PrintImport()
    ensures PrintAll([ImportA]) == [LParen, Word("import"), StrTok("\"a\""), RParen]
  {
    LiteralA();
    FnNameForm(Import);
    PrintOne(ImportA);
    PrintOne(Str("a"));
    assert ImportA.elems[0] == Ident(Fn(Import)) && ImportA.elems[1..] == [Str("a")];
    assert Print(Ident(Fn(Import))) == [Word("import")];
  }

  lemma ImportText()
    ensures var text := [LParen, Word("import"), StrTok("\"a\""), RParen];
            TokensOk(text) && Parse(text) == Some([ImportA])
  {
    LiteralA();
    PrintImport();
    ImportReadable();
    ProgramRoundTrip([ImportA]);
    RereadIsShipAll([ImportA]);
    ShipAllSame([ImportA]);
  }

  lemma ImportReadable()
    ensures AllReadable([ImportA]) && AllPrintable([ImportA]) && AllFloatsKept([ImportA])
    ensures IsWord("import") && ModuleFree(ImportA)
  {
    LiteralA();
    FnNameForm(Import);
  }

  lemma ResolveA()
    ensures Resolve(map["a" := []], [ImportA], [], true) == Some([Module("a", [])])
  {
    var files: Files := map["a" := []];
    assert [ImportA][0] == ImportA && [ImportA][1..] == [];
    assert FormOf(ImportA) == ImportOf("a");
    assert ParseFrom([], 0) == Done([], []) && Parse(files["a"]) == Some([]);
    assert [Module("a", [])] + [] == [Module("a", [])];
    assert Resolve(files, [], [] + ["a"], true) == Some([]) && Resolve(files, [], [], true) == Some([]);
  }

  // A program that imports an empty file evaluates at the controller, and its text is
  // accepted by a minion but does not evaluate there.
  lemma EmptyImport(fuel: nat)
    ensures var text := [LParen, Word("import"), StrTok("\"a\""), RParen];
            var p := [Module("a", [])];
            && TokensOk(text) && Compile(map["a" := []], text) == Some(p) && Run(fuel, p).Ok?
            && Scans(PrintAll(p), PrintAll(p))
            && Compile(map[], PrintAll(p)) == Some(ShipAll(p)) && Run(fuel, ShipAll(p)) == Err
  {
    var text := [LParen, Word("import"), StrTok("\"a\""), RParen];
    var p := [Module("a", [])];
    ImportText();
    ResolveA();
    LiteralA();
    ValueFixed(fuel, Module("a", []), 0, Initial);
    EvalOne(fuel, Module("a", []), 0, Initial);
    assert !Populated(p[0]) && p[0] in p;
    PrintAllWritten(p);
    ScansSame(PrintAll(p), PrintAll(p));
    Shipping(map["a" := []], text, PrintAll(p), fuel);
  }
}
