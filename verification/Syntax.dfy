/** Syntax trees of the policy language (dsl/ast.go).  The same type holds source syntax
    and evaluated values, as in the source. */
module Syntax {

  datatype AttrKind = Provider | Role | Region | Size | DiskSize | GithubKey | PlaintextKey

  // The built-in functions of `funcImplMap`.
  datatype Builtin =
    | Not | Mod | Mul | Plus | Sub | Div | Less | Eq | More
    | And | Apply | ToBool | Car | Cdr | Connect | Cons | Define | Docker | If | Import
    | MkLabel | LabelName | LabelHost | MkLambda | Let | Len | MkList | Machine
    | MachineAttribute | MakeList | MapOver | MkModule | Nth | Or | Placement | Panic
    | Progn | Reduce | Range | SetEnv | Attribute(kind: AttrKind)

  // An identifier either names a built-in or it is an ordinary name.
  datatype Id = Fn(fn: Builtin) | Name(name: string)

  datatype Ast =
    // Produced by the parser.
    | Ident(id: Id)
    | Str(s: string)
    | Int(n: int)
    | Float(x: real)
    | Bool(b: bool)
    | Sexp(elems: seq<Ast>)
    // Produced by import resolution.
    | Module(name: string, body: seq<Ast>)
    // Produced by evaluation.  Contexts and atoms are heap references.  An empty list can be
    // a nil slice, which reflect.DeepEqual tells from an empty one.
    | List(items: seq<Ast>, isNil: bool)
    | Closure(params: seq<Id>, do: seq<Ast>, ctx: nat)
    | Label(ident: string, members: seq<nat>)
    | Atom(ref: nat)
    | Attr(kind: AttrKind, arg: Ast)

  // Evaluated values.  The result of `placement` is an s-expression and is not one.
  predicate IsValue(a: Ast) {
    match a
    case Ident(id) => id.Fn?
    case Sexp(_) => false
    case Module(_, body) => forall x :: x in body ==> IsValue(x)
    case List(items, _) => forall x :: x in items ==> IsValue(x)
    case _ => true
  }

  predicate AllValues(s: seq<Ast>) {
    forall x :: x in s ==> IsValue(x)
  }

  // Everything evaluation can return: values, and `placement` s-expressions over them.
  predicate Settled(a: Ast) {
    match a
    case Ident(id) => id.Fn?
    case Sexp(elems) => elems != [] && elems[0] == Ident(Fn(Placement)) && forall x :: x in elems ==> Settled(x)
    case Module(_, body) => forall x :: x in body ==> Settled(x)
    case List(items, _) => forall x :: x in items ==> Settled(x)
    case _ => true
  }

  // The nested lists of a sequence spliced into one sequence.
  function Flatten(s: seq<Ast>): seq<Ast> {
    if s == [] then []
    else (match s[0] case List(items, _) => Flatten(items) case x => [x]) + Flatten(s[1..])
  }

  predicate Truth(a: Ast) {
    match a
    case List(items, _) => items != []
    case Str(s) => s != ""
    case Int(n) => n != 0
    case Bool(b) => b
    case _ => true
  }
}
