/** The spelling of the built-ins: the keys of `funcImplMap` (dsl/func.go). */
module Names {
  import opened Syntax

  function FnName(f: Builtin): string {
    match f
    case Not => "!"
    case Mod => "%"
    case Mul => "*"
    case Plus => "+"
    case Sub => "-"
    case Div => "/"
    case Less => "<"
    case Eq => "="
    case More => ">"
    case And => "and"
    case Apply => "apply"
    case ToBool => "bool"
    case Car => "car"
    case Cdr => "cdr"
    case Connect => "connect"
    case Cons => "cons"
    case Define => "define"
    case Docker => "docker"
    case If => "if"
    case Import => "import"
    case MkLabel => "label"
    case LabelName => "labelName"
    case LabelHost => "labelHost"
    case MkLambda => "lambda"
    case Let => "let"
    case Len => "len"
    case MkList => "list"
    case Machine => "machine"
    case MachineAttribute => "machineAttribute"
    case MakeList => "makeList"
    case MapOver => "map"
    case MkModule => "module"
    case Nth => "nth"
    case Or => "or"
    case Placement => "placement"
    case Panic => "panic"
    case Progn => "progn"
    case Reduce => "reduce"
    case Range => "range"
    case SetEnv => "setEnv"
    case Attribute(Provider) => "provider"
    case Attribute(Role) => "role"
    case Attribute(Region) => "region"
    case Attribute(Size) => "size"
    case Attribute(DiskSize) => "diskSize"
    case Attribute(GithubKey) => "githubKey"
    case Attribute(PlaintextKey) => "plaintextKey"
  }

  function Spell(id: Id): string {
    match id
    case Fn(f) => FnName(f)
    case Name(s) => s
  }

  // The identifier a spelling denotes, looked up by length.
  function IdOf(s: string): Id {
    match |s|
    case 1 => Id1(s)
    case 2 => Id2(s)
    case 3 => Id3(s)
    case 4 => Id4(s)
    case 5 => Id5(s)
    case 6 => Id6(s)
    case 7 => Id7(s)
    case 8 => Id8(s)
    case 9 => Id9(s)
    case 12 => Id12(s)
    case 16 => Id16(s)
    case _ => Name(s)
  }

  function Id1(s: string): Id
    requires |s| == 1
  {
    if s == "!" then Fn(Not) else
    if s == "%" then Fn(Mod) else
    if s == "*" then Fn(Mul) else
    if s == "+" then Fn(Plus) else
    if s == "-" then Fn(Sub) else
    if s == "/" then Fn(Div) else
    if s == "<" then Fn(Less) else
    if s == "=" then Fn(Eq) else
    if s == ">" then Fn(More) else
    Name(s)
  }

  function Id2(s: string): Id
    requires |s| == 2
  {
    if s == "if" then Fn(If) else
    if s == "or" then Fn(Or) else
    Name(s)
  }

  function Id3(s: string): Id
    requires |s| == 3
  {
    if s == "and" then Fn(And) else
    if s == "car" then Fn(Car) else
    if s == "cdr" then Fn(Cdr) else
    if s == "let" then Fn(Let) else
    if s == "len" then Fn(Len) else
    if s == "map" then Fn(MapOver) else
    if s == "nth" then Fn(Nth) else
    Name(s)
  }

  function Id4(s: string): Id
    requires |s| == 4
  {
    if s == "bool" then Fn(ToBool) else
    if s == "cons" then Fn(Cons) else
    if s == "list" then Fn(MkList) else
    if s == "role" then Fn(Attribute(Role)) else
    if s == "size" then Fn(Attribute(Size)) else
    Name(s)
  }

  function Id5(s: string): Id
    requires |s| == 5
  {
    if s == "apply" then Fn(Apply) else
    if s == "label" then Fn(MkLabel) else
    if s == "panic" then Fn(Panic) else
    if s == "progn" then Fn(Progn) else
    if s == "range" then Fn(Range) else
    Name(s)
  }

  function Id6(s: string): Id
    requires |s| == 6
  {
    if s == "define" then Fn(Define) else
    if s == "docker" then Fn(Docker) else
    if s == "import" then Fn(Import) else
    if s == "lambda" then Fn(MkLambda) else
    if s == "module" then Fn(MkModule) else
    if s == "reduce" then Fn(Reduce) else
    if s == "setEnv" then Fn(SetEnv) else
    if s == "region" then Fn(Attribute(Region)) else
    Name(s)
  }

  function Id7(s: string): Id
    requires |s| == 7
  {
    if s == "connect" then Fn(Connect) else
    if s == "machine" then Fn(Machine) else
    Name(s)
  }

  function Id8(s: string): Id
    requires |s| == 8
  {
    if s == "makeList" then Fn(MakeList) else
    if s == "provider" then Fn(Attribute(Provider)) else
    if s == "diskSize" then Fn(Attribute(DiskSize)) else
    Name(s)
  }

  function Id9(s: string): Id
    requires |s| == 9
  {
    if s == "labelName" then Fn(LabelName) else
    if s == "labelHost" then Fn(LabelHost) else
    if s == "placement" then Fn(Placement) else
    if s == "githubKey" then Fn(Attribute(GithubKey)) else
    Name(s)
  }

  function Id12(s: string): Id
    requires |s| == 12
  {
    if s == "plaintextKey" then Fn(Attribute(PlaintextKey)) else
    Name(s)
  }

  function Id16(s: string): Id
    requires |s| == 16
  {
    if s == "machineAttribute" then Fn(MachineAttribute) else
    Name(s)
  }

  // Different built-ins have different names: each is found under its own.
  lemma NameRoundTrip(f: Builtin)
    ensures IdOf(FnName(f)) == Fn(f)
  {
    match |FnName(f)|
    case 1 => Fn1(f);
    case 2 => Fn2(f);
    case 3 => Fn3(f);
    case 4 => Fn4(f);
    case 5 => Fn5(f);
    case 6 => Fn6(f);
    case 7 => Fn7(f);
    case 8 => Fn8(f);
    case 9 => Fn9(f);
    case 12 => Fn12(f);
    case 16 => Fn16(f);
    case _ =>
  }

  lemma Fn1(f: Builtin)
    requires |FnName(f)| == 1
    ensures IdOf(FnName(f)) == Fn(f)
  {
  }

  lemma Fn2(f: Builtin)
    requires |FnName(f)| == 2
    ensures IdOf(FnName(f)) == Fn(f)
  {
  }

  lemma Fn3(f: Builtin)
    requires |FnName(f)| == 3
    ensures IdOf(FnName(f)) == Fn(f)
  {
  }

  lemma Fn4(f: Builtin)
    requires |FnName(f)| == 4
    ensures IdOf(FnName(f)) == Fn(f)
  {
  }

  lemma Fn5(f: Builtin)
    requires |FnName(f)| == 5
    ensures IdOf(FnName(f)) == Fn(f)
  {
  }

  lemma Fn6(f: Builtin)
    requires |FnName(f)| == 6
    ensures IdOf(FnName(f)) == Fn(f)
  {
  }

  lemma Fn7(f: Builtin)
    requires |FnName(f)| == 7
    ensures IdOf(FnName(f)) == Fn(f)
  {
  }

  lemma Fn8(f: Builtin)
    requires |FnName(f)| == 8
    ensures IdOf(FnName(f)) == Fn(f)
  {
  }

  lemma Fn9(f: Builtin)
    requires |FnName(f)| == 9
    ensures IdOf(FnName(f)) == Fn(f)
  {
  }

  lemma Fn12(f: Builtin)
    requires |FnName(f)| == 12
    ensures IdOf(FnName(f)) == Fn(f)
  {
  }

  lemma Fn16(f: Builtin)
    requires |FnName(f)| == 16
    ensures IdOf(FnName(f)) == Fn(f)
  {
  }

  const Operators := {'+', '-', '/', '%', '*', '=', '<', '>', '!'}

  // An identifier token of the scanner: it has no period and does not start like an operator.
  predicate IsWord(s: string) {
    s != "" && '.' !in s && s[0] !in Operators
  }

  predicate IsOperator(s: string) {
    |s| == 1 && s[0] in Operators
  }

  lemma FnNameForm(f: Builtin)
    ensures IsWord(FnName(f)) || IsOperator(FnName(f))
    ensures FnName(f) != "true" && FnName(f) != "false"
  {
    match |FnName(f)|
    case 4 => Form4(f);
    case 5 => Form5(f);
    case 6 => Form6(f);
    case 7 | 8 => Form8(f);
    case 9 | 12 | 16 => LongForm(f);
    case _ => ShortForm(f);
  }

  lemma ShortForm(f: Builtin)
    requires |FnName(f)| !in {4, 5, 6, 7, 8, 9, 12, 16}
    ensures IsWord(FnName(f)) || IsOperator(FnName(f))
    ensures |FnName(f)| <= 3
  {
  }

  lemma Form4(f: Builtin)
    requires |FnName(f)| == 4
    ensures IsWord(FnName(f)) && FnName(f) != "true"
  {
  }

  lemma Form5(f: Builtin)
    requires |FnName(f)| == 5
    ensures IsWord(FnName(f)) && FnName(f) != "false"
  {
  }

  lemma Form6(f: Builtin)
    requires |FnName(f)| == 6
    ensures IsWord(FnName(f))
  {
  }

  lemma Form8(f: Builtin)
    requires |FnName(f)| == 7 || |FnName(f)| == 8
    ensures IsWord(FnName(f))
  {
  }

  lemma LongForm(f: Builtin)
    requires 8 < |FnName(f)|
    ensures IsWord(FnName(f))
  {
  }
}
