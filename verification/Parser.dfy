/** The parser of dsl/parse.go over scanner tokens, and the printers of dsl/ast.go. */
module Parser {
  import opened Basics
  import opened Syntax
  import opened Names
  import opened Literals

  // Scanner tokens.  A string token carries its source text, quotes included; a period
  // right after an identifier is a token of its own.
  datatype Token =
    | Op(c: char) | Word(text: string) | Dot | IntTok(n: nat) | FloatTok(x: real)
    | StrTok(text: string) | LParen | RParen | Bad

  // ---------------------------------------------------------------------------------
  // Parsing
  // ---------------------------------------------------------------------------------

  datatype Parsed = Done(asts: seq<Ast>, rest: seq<Token>) | Fail

  function TrimLeft(s: string): string {
    if s != "" && s[0] == '"' then TrimLeft(s[1..]) else s
  }

  function TrimRight(s: string): string {
    if s != "" && s[|s| - 1] == '"' then TrimRight(s[..|s| - 1]) else s
  }

  function Trim(s: string): string { TrimRight(TrimLeft(s)) }

  function ParseIdent(s: string): Ast {
    if s == "true" then Bool(true) else if s == "false" then Bool(false) else Ident(IdOf(s))
  }

  // The rest of a dotted name whose beginning has been read.
  function Dotted(acc: string, ts: seq<Token>): (r: Option<(string, seq<Token>)>)
    ensures r.Some? ==> |r.value.1| <= |ts|
    decreases |ts|
  {
    if ts == [] || !ts[0].Dot? then Some((acc, ts))
    else if |ts| == 1 || !ts[1].Word? then None
    else Dotted(acc + "." + ts[1].text, ts[2..])
  }

  function Prepend(asts: seq<Ast>, p: Parsed): Parsed {
    match p
    case Fail => Fail
    case Done(more, rest) => Done(asts + more, rest)
  }

  // The forms up to the closing parenthesis of the enclosing s-expression, or to the end
  // of the input at depth zero.
  function ParseFrom(ts: seq<Token>, depth: nat): (r: Parsed)
    ensures r.Done? ==> |r.rest| <= |ts| && (0 < depth ==> |r.rest| < |ts|)
    decreases |ts|
  {
    if ts == [] then (if depth == 0 then Done([], []) else Fail)
    else match ts[0]
         case Op(c) => Prepend([ParseIdent([c])], ParseFrom(ts[1..], depth))
         case Word(text) =>
           (match Dotted(text, ts[1..])
            case None => Fail
            case Some((name, rest)) => Prepend([ParseIdent(name)], ParseFrom(rest, depth)))
         case IntTok(n) => Prepend([Int(n)], ParseFrom(ts[1..], depth))
         case FloatTok(x) => Prepend([Float(x)], ParseFrom(ts[1..], depth))
         case StrTok(text) => Prepend([Str(Trim(text))], ParseFrom(ts[1..], depth))
         case LParen =>
           (match ParseFrom(ts[1..], depth + 1)
            case Fail => Fail
            case Done(elems, rest) => Prepend([Sexp(elems)], ParseFrom(rest, depth)))
         case RParen => if depth == 0 then Fail else Done([], ts[1..])
         case Dot | Bad => Fail
  }

  function Parse(ts: seq<Token>): Option<seq<Ast>> {
    match ParseFrom(ts, 0)
    case Fail => None
    case Done(asts, _) => Some(asts)
  }

  // The scanner shared by the recursive calls of parseText.
  class Scanner {
    const tokens: seq<Token>
    var pos: nat

    ghost predicate Valid()
      reads this
    {
      pos <= |tokens|
    }

    ghost function Rest(): seq<Token>
      reads this
      requires Valid()
    {
      tokens[pos..]
    }

    constructor (ts: seq<Token>)
      ensures Valid() && Rest() == ts
    {
      tokens, pos := ts, 0;
    }

    // The loop over '.' and identifier tokens.
    method ReadName(first: string) returns (name: Option<string>)
      requires Valid()
      modifies this`pos
      ensures Valid() && old(pos) <= pos
      ensures match Dotted(first, old(Rest()))
              case None => name.None?
              case Some((text, rest)) => name == Some(text) && Rest() == rest
    {
      var ident := first;
      while pos < |tokens| && tokens[pos].Dot?
        invariant old(pos) <= pos <= |tokens|
        invariant Dotted(first, old(Rest())) == Dotted(ident, Rest())
      {
        if pos + 1 == |tokens| || !tokens[pos + 1].Word? {
          return None;
        }
        assert Rest()[2..] == tokens[pos + 2..];
        ident := ident + "." + tokens[pos + 1].text;
        pos := pos + 2;
      }
      return Some(ident);
    }

    method ParseText(depth: nat) returns (r: Option<seq<Ast>>)
      requires Valid()
      modifies this`pos
      ensures Valid() && old(pos) <= pos
      ensures match ParseFrom(old(Rest()), depth)
              case Fail => r.None?
              case Done(asts, rest) => r == Some(asts) && Rest() == rest
      decreases |tokens| - pos
    {
      ghost var all := tokens[pos..];
      var slice := [];
      while pos < |tokens|
        invariant old(pos) <= pos <= |tokens|
        invariant ParseFrom(all, depth) == Prepend(slice, ParseFrom(tokens[pos..], depth))
        decreases |tokens| - pos
      {
        var token := tokens[pos];
        ghost var rest := tokens[pos..];
        assert rest[0] == token && rest[1..] == tokens[pos + 1..];
        pos := pos + 1;
        var ast;
        match token {
          case Op(c) => ast := ParseIdent([c]);
          case Word(text) =>
            var name := ReadName(text);
            if name.None? { return None; }
            ast := ParseIdent(name.value);
          case IntTok(n) => ast := Int(n);
          case FloatTok(x) => ast := Float(x);
          case StrTok(text) => ast := Str(Trim(text));
          case LParen =>
            var sexp := ParseText(depth + 1);
            if sexp.None? { return None; }
            ast := Sexp(sexp.value);
          case RParen =>
            if depth == 0 { return None; }
            assert slice + [] == slice;
            return Some(slice);
          case Dot => return None;
          case Bad => return None;
        }
        assert ParseFrom(rest, depth) == Prepend([ast], ParseFrom(tokens[pos..], depth));
        PrependTwice(slice, [ast], ParseFrom(tokens[pos..], depth));
        slice := slice + [ast];
      }
      if depth != 0 { return None; }
      assert Rest() == [] && slice + [] == slice;
      return Some(slice);
    }
  }

  lemma {:induction false} PrependTwice(a: seq<Ast>, b: seq<Ast>, p: Parsed)
    ensures Prepend(a, Prepend(b, p)) == Prepend(a + b, p)
  {
    if p.Done? { assert a + (b + p.asts) == a + b + p.asts; }
  }

  // ---------------------------------------------------------------------------------
  // Printing
  // ---------------------------------------------------------------------------------

  // A name cut at its periods.
  function NameTokens(s: string): seq<Token>
    decreases |s|
  {
    if '.' !in s then [Word(s)] else
      var i := FirstDot(s);
      [Word(s[..i]), Dot] + NameTokens(s[i + 1..])
  }

  function FirstDot(s: string): (i: nat)
    requires '.' in s
    ensures i < |s| && s[i] == '.' && '.' !in s[..i]
  {
    if s[0] == '.' then 0 else 1 + FirstDot(s[1..])
  }

  function IdentTokens(s: string): seq<Token> {
    if IsOperator(s) then [Op(s[0])] else NameTokens(s)
  }

  function Quote(s: string): string { "\"" + s + "\"" }

  // Below 1e6 the format %g prints an integral float without a decimal point or an exponent.
  predicate PrintsAsInt(x: real) { x.Floor as real == x && x < 1000000.0 }

  function NumberTokens(x: real): seq<Token> {
    if x < 0.0 then [Op('-')] + (if PrintsAsInt(-x) then [IntTok((-x).Floor)] else [FloatTok(-x)])
    else if PrintsAsInt(x) then [IntTok(x.Floor)] else [FloatTok(x)]
  }

  // The tokens that the printed form of source syntax is meant to have.
  function Print(a: Ast): seq<Token> {
    match a
    case Ident(id) => IdentTokens(Spell(id))
    case Str(s) => [StrTok(Quote(s))]
    case Int(n) => if n < 0 then [Op('-'), IntTok(-n)] else [IntTok(n)]
    case Float(x) => NumberTokens(x)
    case Bool(b) => [Word(if b then "true" else "false")]
    case Sexp(elems) => [LParen] + PrintAll(elems) + [RParen]
    case Module(name, body) => [LParen, Word("module"), StrTok(Quote(name))] + PrintAll(body) + [RParen]
    case _ => []
  }

  function PrintAll(s: seq<Ast>): seq<Token> {
    if s == [] then [] else Print(s[0]) + PrintAll(s[1..])
  }

  // ---------------------------------------------------------------------------------
  // Round trip
  // ---------------------------------------------------------------------------------

  // Every part of a dotted name is an identifier token.
  predicate NameOk(s: string)
    decreases |s|
  {
    if '.' !in s then IsWord(s) else
      var i := FirstDot(s);
      IsWord(s[..i]) && NameOk(s[i + 1..])
  }

  predicate IdOk(id: Id) {
    match id
    case Fn(_) => true
    case Name(s) => NameOk(s) && IdOf(s) == id && s != "true" && s != "false"
  }

  // The value of a literal: its text without the quotes around it, and without a quote that
  // is escaped at its end.
  predicate LiteralValue(s: string) {
    && (s == "" || (s[0] != '"' && s[|s| - 1] != '"'))
    && (Closed(s) || Closed(s + "\""))
  }

  // Source syntax as the parser and import resolution produce it.
  predicate Readable(a: Ast) {
    match a
    case Ident(id) => IdOk(id)
    case Str(s) => LiteralValue(s)
    case Bool(_) => true
    case Int(n) => 0 <= n
    case Float(x) => 0.0 <= x
    case Sexp(elems) => forall x :: x in elems ==> Readable(x)
    case Module(name, body) => LiteralValue(name) && forall x :: x in body ==> Readable(x)
    case _ => false
  }

  predicate AllReadable(s: seq<Ast>) {
    forall x :: x in s ==> Readable(x)
  }

  // Every string prints as one literal.
  predicate Printable(a: Ast) {
    match a
    case Str(s) => Closed(s)
    case Sexp(elems) => forall x :: x in elems ==> Printable(x)
    case Module(name, body) => Closed(name) && forall x :: x in body ==> Printable(x)
    case _ => true
  }

  predicate AllPrintable(s: seq<Ast>) {
    forall x :: x in s ==> Printable(x)
  }

  // What reading the printed form of a term gives back.
  function Reread(a: Ast): Ast {
    match a
    case Float(x) => if PrintsAsInt(x) then Int(x.Floor) else a
    case Sexp(elems) => Sexp(RereadAll(elems))
    case Module(name, body) => Sexp([Ident(Fn(MkModule)), Str(name)] + RereadAll(body))
    case _ => a
  }

  function RereadAll(s: seq<Ast>): (r: seq<Ast>)
    ensures |r| == |s|
  {
    if s == [] then [] else [Reread(s[0])] + RereadAll(s[1..])
  }

  // The same term, with each module node turned into a call of the built-in `module`.
  function Ship(a: Ast): Ast {
    match a
    case Sexp(elems) => Sexp(ShipAll(elems))
    case Module(name, body) => Sexp([Ident(Fn(MkModule)), Str(name)] + ShipAll(body))
    case _ => a
  }

  function ShipAll(s: seq<Ast>): (r: seq<Ast>)
    ensures |r| == |s|
  {
    if s == [] then [] else [Ship(s[0])] + ShipAll(s[1..])
  }

  predicate NoDotFirst(ts: seq<Token>) { ts == [] || !ts[0].Dot? }

  // One step of the loop that reads a dotted name.
  lemma {:induction false} DottedStep(acc: string, word: string, ts: seq<Token>)
    ensures Dotted(acc, [Dot, Word(word)] + ts) == Dotted(acc + "." + word, ts)
  {
    assert ([Dot, Word(word)] + ts)[2..] == ts;
  }

  lemma {:induction false} NameCut(s: string) returns (word: string, more: string)
    requires '.' in s && NameOk(s)
    ensures s == word + "." + more && |more| < |s| && NameOk(more)
    ensures NameTokens(s) == [Word(word), Dot] + NameTokens(more)
  {
    var i := FirstDot(s);
    word, more := s[..i], s[i + 1..];
  }

  lemma {:induction false} NameWhole(acc: string, word: string, more: string)
    ensures acc + "." + word + "." + more == acc + "." + (word + "." + more)
  {
  }

  lemma {:induction false} NameRead(acc: string, s: string, tail: seq<Token>)
    requires NameOk(s) && NoDotFirst(tail)
    ensures Dotted(acc, [Dot] + (NameTokens(s) + tail)) == Some((acc + "." + s, tail))
    decreases |s|
  {
    if '.' in s {
      var word, more := NameCut(s);
      var rest := [Dot] + (NameTokens(more) + tail);
      assert [Dot] + (NameTokens(s) + tail) == [Dot, Word(word)] + rest;
      DottedStep(acc, word, rest);
      NameRead(acc + "." + word, more, tail);
      NameWhole(acc, word, more);
    } else {
      assert [Dot] + (NameTokens(s) + tail) == [Dot, Word(s)] + tail;
      DottedStep(acc, s, tail);
    }
  }

  lemma {:induction false} DottedRead(s: string, tail: seq<Token>) returns (first: string, rest: seq<Token>)
    requires NameOk(s) && NoDotFirst(tail)
    ensures NameTokens(s) + tail == [Word(first)] + rest && Dotted(first, rest) == Some((s, tail))
  {
    if '.' in s {
      var more;
      first, more := NameCut(s);
      rest := [Dot] + (NameTokens(more) + tail);
      assert NameTokens(s) + tail == [Word(first)] + rest;
      NameRead(first, more, tail);
    } else {
      first, rest := s, tail;
    }
  }

  lemma {:induction false} IdentRead(s: string, depth: nat, tail: seq<Token>)
    requires IsOperator(s) || NameOk(s)
    requires NoDotFirst(tail)
    ensures ParseFrom(IdentTokens(s) + tail, depth) == Prepend([ParseIdent(s)], ParseFrom(tail, depth))
  {
    var ts := IdentTokens(s) + tail;
    if IsOperator(s) {
      assert s == [s[0]];
      assert ts[1..] == tail;
    } else {
      var first, rest := DottedRead(s, tail);
      assert ts[0] == Word(first) && ts[1..] == rest;
    }
  }

  lemma {:induction false} PrintStarts(a: Ast)
    requires Readable(a)
    ensures Print(a) != [] && !Print(a)[0].Dot?
  {
  }

  lemma {:induction false} PrintAllStarts(s: seq<Ast>, tail: seq<Token>)
    requires AllReadable(s) && NoDotFirst(tail)
    ensures NoDotFirst(PrintAll(s) + tail)
  {
    if s != [] { PrintStarts(s[0]); }
  }

  lemma {:induction false} IdentParse(id: Id, depth: nat, tail: seq<Token>)
    requires IdOk(id) && NoDotFirst(tail)
    ensures ParseFrom(IdentTokens(Spell(id)) + tail, depth) == Prepend([Ident(id)], ParseFrom(tail, depth))
  {
    if id.Fn? {
      FnNameForm(id.fn);
      NameRoundTrip(id.fn);
    }
    IdentRead(Spell(id), depth, tail);
  }

  lemma {:induction false} TrimLeftFixed(s: string)
    requires s == "" || s[0] != '"'
    ensures TrimLeft(Quote(s)) == if s == "" then "" else s + "\""
  {
    assert Quote(s)[1..] == s + "\"";
    if s == "" {
      assert TrimLeft("\"") == TrimLeft("\""[1..]);
    }
  }

  lemma {:induction false} TrimQuote(s: string)
    requires LiteralValue(s)
    ensures Trim(Quote(s)) == s
  {
    TrimLeftFixed(s);
    if s != "" {
      assert (s + "\"")[..|s|] == s;
      assert TrimRight(s + "\"") == TrimRight(s);
    }
  }

  lemma {:induction false} LiteralParse(a: Ast, depth: nat, tail: seq<Token>)
    requires Readable(a) && NoDotFirst(tail) && (a.Str? || a.Int? || a.Float? || a.Bool?)
    ensures ParseFrom(Print(a) + tail, depth) == Prepend([Reread(a)], ParseFrom(tail, depth))
  {
    assert (Print(a) + tail)[1..] == tail;
    if a.Str? { TrimQuote(a.s); }
  }

  // Reading the printed form of a term gives the term, with modules as s-expressions.
  lemma {:induction false} PrintParse(a: Ast, depth: nat, tail: seq<Token>)
    requires Readable(a) && NoDotFirst(tail)
    ensures ParseFrom(Print(a) + tail, depth) == Prepend([Reread(a)], ParseFrom(tail, depth))
    decreases a, 1
  {
    match a
    case Ident(id) => IdentParse(id, depth, tail);
    case Sexp(elems) =>
      PrintParseAll(elems, depth + 1, [RParen] + tail);
      GroupParse(PrintAll(elems), RereadAll(elems), depth, tail);
    case Module(name, body) =>
      PrintParseAll(body, depth + 1, [RParen] + tail);
      ModuleRead(name, PrintAll(body), RereadAll(body), depth, tail);
    case _ => LiteralParse(a, depth, tail);
  }

  lemma {:induction false} GroupParse(inner: seq<Token>, elems: seq<Ast>, depth: nat, tail: seq<Token>)
    requires ParseFrom(inner + ([RParen] + tail), depth + 1) == Prepend(elems, ParseFrom([RParen] + tail, depth + 1))
    ensures ParseFrom([LParen] + inner + [RParen] + tail, depth) == Prepend([Sexp(elems)], ParseFrom(tail, depth))
  {
    var ts := [LParen] + inner + [RParen] + tail;
    assert ts[1..] == inner + ([RParen] + tail);
    SexpRead(ts, elems, depth, tail);
  }

  lemma {:induction false} SexpRead(ts: seq<Token>, elems: seq<Ast>, depth: nat, tail: seq<Token>)
    requires ts != [] && ts[0] == LParen
    requires ParseFrom(ts[1..], depth + 1) == Prepend(elems, ParseFrom([RParen] + tail, depth + 1))
    ensures ParseFrom(ts, depth) == Prepend([Sexp(elems)], ParseFrom(tail, depth))
  {
    assert ([RParen] + tail)[1..] == tail;
    assert elems + [] == elems;
  }

  lemma {:induction false} ModuleWord()
    ensures ParseIdent("module") == Ident(Fn(MkModule))
    ensures IdentTokens("module") == [Word("module")] && NameOk("module")
  {
    NameRoundTrip(MkModule);
  }

  // Reading a parenthesised group from the readings of its two parts.
  lemma {:induction false} GroupRead(
      first: seq<Token>, head: seq<Ast>, inner: seq<Token>, elems: seq<Ast>, depth: nat, tail: seq<Token>)
    requires var end := [RParen] + tail;
             && ParseFrom(first + (inner + end), depth + 1) == Prepend(head, ParseFrom(inner + end, depth + 1))
             && ParseFrom(inner + end, depth + 1) == Prepend(elems, ParseFrom(end, depth + 1))
    ensures ParseFrom([LParen] + first + inner + [RParen] + tail, depth)
            == Prepend([Sexp(head + elems)], ParseFrom(tail, depth))
  {
    var end := [RParen] + tail;
    var ts := [LParen] + first + inner + [RParen] + tail;
    assert ts[1..] == first + (inner + end);
    PrependTwice(head, elems, ParseFrom(end, depth + 1));
    SexpRead(ts, head + elems, depth, tail);
  }

  lemma {:induction false} ModuleRead(name: string, inner: seq<Token>, elems: seq<Ast>, depth: nat, tail: seq<Token>)
    requires LiteralValue(name)
    requires ParseFrom(inner + ([RParen] + tail), depth + 1) == Prepend(elems, ParseFrom([RParen] + tail, depth + 1))
    ensures ParseFrom([LParen, Word("module"), StrTok(Quote(name))] + inner + [RParen] + tail, depth)
            == Prepend([Sexp([Ident(Fn(MkModule)), Str(name)] + elems)], ParseFrom(tail, depth))
  {
    TrimQuote(name);
    ModuleName(Quote(name), name, inner + ([RParen] + tail), depth + 1);
    GroupRead([Word("module"), StrTok(Quote(name))], [Ident(Fn(MkModule)), Str(name)], inner, elems, depth, tail);
    Regroup(LParen, Word("module"), StrTok(Quote(name)), inner);
  }

  lemma {:induction false} Regroup(a: Token, b: Token, c: Token, rest: seq<Token>)
    ensures [a, b, c] + rest == [a] + [b, c] + rest && [b, c] + rest == [b] + ([c] + rest) && ([c] + rest)[1..] == rest
  {
  }

  lemma {:induction false} ModuleName(text: string, name: string, inner: seq<Token>, depth: nat)
    requires Trim(text) == name
    ensures ParseFrom([Word("module"), StrTok(text)] + inner, depth)
            == Prepend([Ident(Fn(MkModule)), Str(name)], ParseFrom(inner, depth))
  {
    Regroup(LParen, Word("module"), StrTok(text), inner);
    StringParse(text, inner, depth);
    ModuleHead([StrTok(text)] + inner, depth);
    PrependTwice([Ident(Fn(MkModule))], [Str(name)], ParseFrom(inner, depth));
  }

  lemma {:induction false} StringParse(text: string, inner: seq<Token>, depth: nat)
    ensures ParseFrom([StrTok(text)] + inner, depth) == Prepend([Str(Trim(text))], ParseFrom(inner, depth))
  {
    assert ([StrTok(text)] + inner)[1..] == inner;
  }

  lemma {:induction false} ModuleHead(named: seq<Token>, depth: nat)
    requires NoDotFirst(named)
    ensures ParseFrom([Word("module")] + named, depth) == Prepend([Ident(Fn(MkModule))], ParseFrom(named, depth))
  {
    ModuleWord();
    IdentRead("module", depth, named);
  }

  lemma {:induction false} PrintParseAll(s: seq<Ast>, depth: nat, tail: seq<Token>)
    requires AllReadable(s) && NoDotFirst(tail)
    ensures ParseFrom(PrintAll(s) + tail, depth) == Prepend(RereadAll(s), ParseFrom(tail, depth))
    decreases s, 0
  {
    if s == [] {
      assert PrintAll(s) + tail == tail;
      if ParseFrom(tail, depth).Done? { assert [] + ParseFrom(tail, depth).asts == ParseFrom(tail, depth).asts; }
    } else {
      var next := PrintAll(s[1..]) + tail;
      assert PrintAll(s) + tail == Print(s[0]) + next;
      PrintAllStarts(s[1..], tail);
      PrintParse(s[0], depth, next);
      PrintParseAll(s[1..], depth, tail);
      PrependTwice([Reread(s[0])], RereadAll(s[1..]), ParseFrom(tail, depth));
    }
  }

  // These tokens parse to the program, with modules as s-expressions.
  lemma {:induction false} ProgramRoundTrip(program: seq<Ast>)
    requires AllReadable(program)
    ensures Parse(PrintAll(program)) == Some(RereadAll(program))
  {
    assert PrintAll(program) + [] == PrintAll(program);
    PrintParseAll(program, 0, []);
    assert RereadAll(program) + [] == RereadAll(program);
  }

  // No float prints as an integer.
  predicate FloatsKept(a: Ast) {
    match a
    case Float(x) => !PrintsAsInt(x)
    case Sexp(elems) => forall x :: x in elems ==> FloatsKept(x)
    case Module(_, body) => forall x :: x in body ==> FloatsKept(x)
    case _ => true
  }

  predicate AllFloatsKept(s: seq<Ast>) {
    forall x :: x in s ==> FloatsKept(x)
  }

  lemma {:induction false} RereadIsShip(a: Ast)
    ensures Reread(a) == Ship(a) <==> FloatsKept(a)
    decreases a, 1
  {
    match a
    case Sexp(elems) => RereadIsShipAll(elems);
    case Module(name, body) =>
      RereadIsShipAll(body);
      var r, t := Reread(a).elems, Ship(a).elems;
      assert r[2..] == RereadAll(body) && t[2..] == ShipAll(body);
    case _ =>
  }

  lemma {:induction false} RereadIsShipAll(s: seq<Ast>)
    ensures RereadAll(s) == ShipAll(s) <==> AllFloatsKept(s)
    decreases s, 0
  {
    if s != [] {
      RereadIsShip(s[0]);
      RereadIsShipAll(s[1..]);
      assert RereadAll(s)[0] == Reread(s[0]) && ShipAll(s)[0] == Ship(s[0]);
      assert RereadAll(s)[1..] == RereadAll(s[1..]) && ShipAll(s)[1..] == ShipAll(s[1..]);
      assert AllFloatsKept(s) <==> FloatsKept(s[0]) && AllFloatsKept(s[1..]);
    }
  }

  // A string that the parser has read is printable exactly if it does not end in an odd
  // number of backslashes.
  lemma PrintableString(s: string)
    requires Readable(Str(s))
    ensures Printable(Str(s)) <==> Backslashes(s) % 2 == 0
  {
    ClosedExactly(s);
  }

  // ---------------------------------------------------------------------------------
  // What the parser produces
  // ---------------------------------------------------------------------------------

  // Tokens as the scanner delivers them.
  predicate TokenOk(t: Token) {
    match t
    case Op(c) => c in Operators
    case Word(text) => IsWord(text)
    case FloatTok(x) => 0.0 <= x
    case StrTok(text) => IsLiteral(text)
    case _ => true
  }

  predicate IsLiteral(text: string) {
    2 <= |text| && text == Quote(text[1..|text| - 1]) && Closed(text[1..|text| - 1])
  }

  // What trimming leaves of a literal.
  lemma {:induction false} LiteralTrim(b: string)
    requires Closed(b)
    ensures IsLiteral(Quote(b)) && LiteralValue(Trim(Quote(b)))
    ensures Trim(Quote(b)) == if b != "" && b[|b| - 1] == '"' then b[..|b| - 1] else b
    ensures Closed(Trim(Quote(b))) <==> b == "" || b[|b| - 1] != '"'
  {
    assert Quote(b)[1..|Quote(b)| - 1] == b;
    TrimLeftFixed(b);
    if b != "" {
      assert (b + "\"")[..|b|] == b;
      assert TrimRight(b + "\"") == TrimRight(b);
      if b[|b| - 1] == '"' { EscapedTrim(b); }
    }
  }

  lemma {:induction false} EscapedTrim(b: string)
    requires Closed(b) && b != "" && b[|b| - 1] == '"'
    ensures var s := b[..|b| - 1]; TrimRight(b) == s && LiteralValue(s) && !Closed(s)
  {
    QuoteNeeded(b);
    var s := b[..|b| - 1];
    assert s + "\"" == b && s[0] == b[0];
  }

  predicate TokensOk(ts: seq<Token>) { forall t :: t in ts ==> TokenOk(t) }

  lemma {:induction false} DottedOk(acc: string, ts: seq<Token>)
    requires TokensOk(ts) && NameOk(acc) && Dotted(acc, ts).Some?
    ensures NameOk(Dotted(acc, ts).value.0) && TokensOk(Dotted(acc, ts).value.1)
    decreases |ts|
  {
    if ts != [] && ts[0].Dot? {
      assert ts[1] in ts;
      NameJoin(acc, ts[1].text);
      DottedOk(acc + "." + ts[1].text, ts[2..]);
    }
  }

  lemma {:induction false} NameJoin(s: string, t: string)
    requires NameOk(s) && IsWord(t)
    ensures NameOk(s + "." + t)
    decreases |s|
  {
    var r := s + "." + t;
    if '.' !in s {
      FirstDotAt(s, t);
      assert r[..|s|] == s && r[|s| + 1..] == t;
    } else {
      var k := FirstDot(s);
      var rest := s[k + 1..] + "." + t;
      assert r == s[..k] + "." + rest;
      FirstDotAt(s[..k], rest);
      assert r[..k] == s[..k] && r[k + 1..] == rest;
      NameJoin(s[k + 1..], t);
    }
  }

  lemma {:induction false} FirstDotAt(s: string, t: string)
    requires '.' !in s
    ensures FirstDot(s + "." + t) == |s|
  {
    var r := s + "." + t;
    assert r[|s|] == '.';
    if s != "" {
      assert r[0] == s[0] && r[1..] == s[1..] + "." + t;
      FirstDotAt(s[1..], t);
    }
  }

  lemma {:induction false} IdentParsed(s: string)
    requires IsOperator(s) || NameOk(s)
    ensures Readable(ParseIdent(s))
  {
    if IsOperator(s) {
      assert s == "!" || s == "%" || s == "*" || s == "+" || s == "-" || s == "/" || s == "<" || s == "=" || s == ">";
    }
  }

  lemma {:induction false} ParsedReadable(ts: seq<Token>, depth: nat)
    requires TokensOk(ts) && ParseFrom(ts, depth).Done?
    ensures AllReadable(ParseFrom(ts, depth).asts) && TokensOk(ParseFrom(ts, depth).rest)
    decreases |ts|
  {
    if ts != [] {
      assert TokenOk(ts[0]);
      match ts[0]
      case Op(c) => IdentParsed([c]); ParsedReadable(ts[1..], depth);
      case Word(text) =>
        DottedOk(text, ts[1..]);
        var (name, rest) := Dotted(text, ts[1..]).value;
        IdentParsed(name);
        ParsedReadable(rest, depth);
      case IntTok(n) => ParsedReadable(ts[1..], depth);
      case FloatTok(x) => ParsedReadable(ts[1..], depth);
      case StrTok(text) =>
        LiteralTrim(text[1..|text| - 1]);
        ParsedReadable(ts[1..], depth);
      case LParen =>
        ParsedReadable(ts[1..], depth + 1);
        ParsedReadable(ParseFrom(ts[1..], depth + 1).rest, depth);
      case RParen =>
    }
  }

  // ---------------------------------------------------------------------------------
  // What the scanner makes of a printed program
  // ---------------------------------------------------------------------------------

  // The token read at the printed form of a string that is followed by some text.
  function StringAt(s: string, tail: string): Token {
    var text := s + "\"" + tail;
    match LiteralEnd(text)
    case None => Bad
    case Some(n) => if n <= |text| then StrTok(Quote(text[..n])) else Bad
  }

  // After a printed string comes a blank, a parenthesis or a line end, or nothing.
  predicate Follows(tail: string) { tail == "" || tail[0] != '"' }

  function BodyOf(text: string): string { if 2 <= |text| then text[1..|text| - 1] else "" }

  // The tokens that the scanner may deliver for a text printed to have the given ones.  Once
  // it has taken a closing quote into a string, they can be any.
  ghost predicate Scans(printed: seq<Token>, ts: seq<Token>) {
    if printed == [] then ts == []
    else if ts == [] then false
    else match printed[0]
         case StrTok(text) =>
           && (exists tail :: Follows(tail) && ts[0] == StringAt(BodyOf(text), tail))
           && (Closed(BodyOf(text)) ==> Scans(printed[1..], ts[1..]))
         case _ => ts[0] == printed[0] && Scans(printed[1..], ts[1..])
  }

  // A printed string is read back as it is if it is closed, and otherwise it is not,
  // whatever follows: the scanner reports an error or takes in more.
  lemma {:induction false} Misread(s: string, tail: string)
    requires LiteralValue(s) && Follows(tail)
    ensures var token := StringAt(s, tail);
            if Closed(s) then token == StrTok(Quote(s))
            else token == Bad || (token.StrTok? && Trim(token.text) != s)
  {
    var text := s + "\"" + tail;
    if Closed(s) {
      LiteralExact(s, tail);
      assert text[..|s|] == s;
    } else {
      ReadClosed(s + "\"", tail);
      if LiteralEnd(text).Some? {
        EndClosed(text);
        var b := text[..LiteralEnd(text).value];
        LiteralTrim(b);
        assert |b| > |s| + 1;
      }
    }
  }

  // The values of the string tokens, and the strings of a term.
  function Texts(ts: seq<Token>): seq<string> {
    if ts == [] then [] else (if ts[0].StrTok? then [Trim(ts[0].text)] else []) + Texts(ts[1..])
  }

  function Strings(a: Ast): seq<string> {
    match a
    case Str(s) => [s]
    case Sexp(elems) => AllStrings(elems)
    case _ => []
  }

  function AllStrings(s: seq<Ast>): seq<string> {
    if s == [] then [] else Strings(s[0]) + AllStrings(s[1..])
  }

  lemma {:induction false} AllStringsMore(a: Ast, s: seq<Ast>)
    ensures AllStrings([a] + s) == Strings(a) + AllStrings(s)
  {
    assert ([a] + s)[1..] == s;
  }

  lemma {:induction false} DottedTexts(acc: string, ts: seq<Token>)
    requires Dotted(acc, ts).Some?
    ensures Texts(Dotted(acc, ts).value.1) == Texts(ts)
    ensures Bad in ts ==> Bad in Dotted(acc, ts).value.1
    decreases |ts|
  {
    if ts != [] && ts[0].Dot? {
      DottedTexts(acc + "." + ts[1].text, ts[2..]);
      assert ts[1..][1..] == ts[2..] && ts == [ts[0], ts[1]] + ts[2..];
      assert Texts(ts[1..]) == Texts(ts[2..]);
    }
  }

  // The strings of what is parsed are those of the tokens, in order, and none is bad.
  predicate Accounts(ts: seq<Token>, p: Parsed) {
    p.Done? ==> Texts(ts) == AllStrings(p.asts) + Texts(p.rest) && (Bad in ts ==> Bad in p.rest)
  }

  lemma {:induction false} AccountsMore(ts: seq<Token>, a: Ast, next: seq<Token>, p: Parsed)
    requires Texts(ts) == Strings(a) + Texts(next) && (Bad in ts ==> Bad in next) && Accounts(next, p)
    ensures Accounts(ts, Prepend([a], p))
  {
    if p.Done? { AllStringsMore(a, p.asts); }
  }

  lemma {:induction false} ParsedTexts(ts: seq<Token>, depth: nat)
    ensures Accounts(ts, ParseFrom(ts, depth))
    decreases |ts|
  {
    if ts != [] {
      var next := ts[1..];
      assert ts == [ts[0]] + next;
      ParsedTexts(next, depth);
      match ts[0]
      case Op(c) => AccountsMore(ts, ParseIdent([c]), next, ParseFrom(next, depth));
      case Word(text) => WordTexts(ts, depth);
      case IntTok(n) => AccountsMore(ts, Int(n), next, ParseFrom(next, depth));
      case FloatTok(x) => AccountsMore(ts, Float(x), next, ParseFrom(next, depth));
      case StrTok(text) => AccountsMore(ts, Str(Trim(text)), next, ParseFrom(next, depth));
      case LParen => GroupTexts(ts, depth);
      case RParen =>
      case Dot =>
      case Bad =>
    }
  }

  lemma {:induction false} WordTexts(ts: seq<Token>, depth: nat)
    requires ts != [] && ts[0].Word?
    ensures Accounts(ts, ParseFrom(ts, depth))
    decreases |ts|, 0
  {
    assert ts == [ts[0]] + ts[1..];
    var d := Dotted(ts[0].text, ts[1..]);
    if d.Some? {
      DottedTexts(ts[0].text, ts[1..]);
      ParsedTexts(d.value.1, depth);
      AccountsMore(ts, ParseIdent(d.value.0), d.value.1, ParseFrom(d.value.1, depth));
    }
  }

  lemma {:induction false} GroupTexts(ts: seq<Token>, depth: nat)
    requires ts != [] && ts[0] == LParen
    ensures Accounts(ts, ParseFrom(ts, depth))
    decreases |ts|, 0
  {
    assert ts == [ts[0]] + ts[1..];
    var p := ParseFrom(ts[1..], depth + 1);
    ParsedTexts(ts[1..], depth + 1);
    if p.Done? {
      ParsedTexts(p.rest, depth);
      AccountsMore(ts, Sexp(p.asts), p.rest, ParseFrom(p.rest, depth));
    }
  }

  // ---------------------------------------------------------------------------------
  // Exactly the programs that survive
  // ---------------------------------------------------------------------------------

  // Printed strings: literal values in quotes, and those of them that are read back.
  predicate IsWritten(t: Token) { t.StrTok? ==> LiteralValue(BodyOf(t.text)) && t.text == Quote(BodyOf(t.text)) }

  predicate Written(ts: seq<Token>) { forall t :: t in ts ==> IsWritten(t) }

  predicate IsClosed(t: Token) { t.StrTok? ==> Closed(BodyOf(t.text)) }

  predicate AllClosed(ts: seq<Token>) { forall t :: t in ts ==> IsClosed(t) }

  lemma {:induction false} ScansSame(printed: seq<Token>, ts: seq<Token>)
    requires Written(printed) && AllClosed(printed)
    ensures Scans(printed, ts) <==> ts == printed
    decreases |printed|
  {
    if printed != [] && ts != [] {
      var t := printed[0];
      assert printed == [t] + printed[1..] && ts == [ts[0]] + ts[1..];
      ScansSame(printed[1..], ts[1..]);
      if t.StrTok? {
        var s := BodyOf(t.text);
        assert t in printed;
        forall tail | Follows(tail) ensures StringAt(s, tail) == t { Misread(s, tail); }
        assert Follows("");
      }
    }
  }

  lemma {:induction false} ScansString(printed: seq<Token>, ts: seq<Token>)
    requires printed != [] && printed[0].StrTok? && Written(printed) && Scans(printed, ts)
    ensures var t := printed[0];
            && ts != []
            && (Closed(BodyOf(t.text)) ==> ts[0] == t)
            && (!Closed(BodyOf(t.text)) ==> ts[0] == Bad || (ts[0].StrTok? && Trim(ts[0].text) != Trim(t.text)))
  {
    var s := BodyOf(printed[0].text);
    assert printed[0] in printed;
    var tail :| Follows(tail) && ts[0] == StringAt(s, tail);
    Misread(s, tail);
    TrimQuote(s);
  }

  lemma {:induction false} TextsDiffer(a: seq<Token>, b: seq<Token>)
    requires a != [] && b != [] && (a[0] == b[0] ==> Texts(a[1..]) != Texts(b[1..]))
    requires a[0] != b[0] ==> a[0].StrTok? && b[0].StrTok? && Trim(a[0].text) != Trim(b[0].text)
    ensures Texts(a) != Texts(b)
  {
    if a[0].StrTok? {
      var x, y := Texts(a), Texts(b);
      assert x[0] == Trim(a[0].text) && y[0] == Trim(b[0].text);
      assert x[1..] == Texts(a[1..]) && y[1..] == Texts(b[1..]);
    } else {
      assert Texts(a) == Texts(a[1..]) && Texts(b) == Texts(b[1..]);
    }
  }

  // A string that is not closed is read as an error or as another one.
  lemma {:induction false} ScansDiffer(printed: seq<Token>, ts: seq<Token>)
    requires Written(printed) && !AllClosed(printed) && Scans(printed, ts)
    ensures Bad in ts || Texts(ts) != Texts(printed)
    decreases |printed|
  {
    var t := printed[0];
    assert printed == [t] + printed[1..] && ts == [ts[0]] + ts[1..];
    if t.StrTok? { ScansString(printed, ts); }
    if !t.StrTok? || Closed(BodyOf(t.text)) { ScansDiffer(printed[1..], ts[1..]); }
    if Bad !in ts { TextsDiffer(ts, printed); }
  }

  lemma {:induction false} PrintWritten(a: Ast)
    requires Readable(a)
    ensures Written(Print(a)) && (AllClosed(Print(a)) <==> Printable(a))
    decreases a, 1
  {
    match a
    case Ident(id) => NameWritten(Spell(id));
    case Str(s) =>
      QuotedToken(s);
      assert StrTok(Quote(s)) in Print(a);
    case Sexp(elems) => PrintAllWritten(elems);
    case Module(name, body) =>
      PrintAllWritten(body);
      ModuleWritten(name, PrintAll(body));
    case _ =>
  }

  lemma {:induction false} ModuleWritten(name: string, inner: seq<Token>)
    requires LiteralValue(name) && Written(inner)
    ensures var ts := [LParen, Word("module"), StrTok(Quote(name))] + inner + [RParen];
            Written(ts) && (AllClosed(ts) <==> Closed(name) && AllClosed(inner))
  {
    var head := [LParen, Word("module"), StrTok(Quote(name))];
    QuotedToken(name);
    WrittenThree(LParen, Word("module"), StrTok(Quote(name)));
    WrittenConcat(head, inner);
    WrittenConcat(head + inner, [RParen]);
  }

  lemma {:induction false} QuotedToken(s: string)
    ensures IsWritten(StrTok(Quote(s))) <==> LiteralValue(s)
    ensures IsClosed(StrTok(Quote(s))) <==> Closed(s)
  {
    assert BodyOf(Quote(s)) == s;
  }

  lemma {:induction false} WrittenThree(a: Token, b: Token, c: Token)
    ensures Written([a, b, c]) <==> IsWritten(a) && IsWritten(b) && IsWritten(c)
    ensures AllClosed([a, b, c]) <==> IsClosed(a) && IsClosed(b) && IsClosed(c)
  {
    assert a in [a, b, c] && b in [a, b, c] && c in [a, b, c];
  }

  lemma {:induction false} WrittenConcat(a: seq<Token>, b: seq<Token>)
    ensures Written(a + b) <==> Written(a) && Written(b)
    ensures AllClosed(a + b) <==> AllClosed(a) && AllClosed(b)
  {
    assert forall t :: t in a + b <==> t in a || t in b;
  }

  lemma {:induction false} NameWritten(s: string)
    ensures forall t :: t in NameTokens(s) ==> !t.StrTok?
    decreases |s|
  {
    if '.' in s { NameWritten(s[FirstDot(s) + 1..]); }
  }

  lemma {:induction false} PrintAllWritten(s: seq<Ast>)
    requires AllReadable(s)
    ensures Written(PrintAll(s)) && (AllClosed(PrintAll(s)) <==> AllPrintable(s))
    decreases s, 0
  {
    if s != [] {
      PrintWritten(s[0]);
      PrintAllWritten(s[1..]);
      assert AllPrintable(s) <==> Printable(s[0]) && AllPrintable(s[1..]);
    }
  }

  lemma {:induction false} SameStrings(a: Ast)
    ensures Strings(Reread(a)) == Strings(Ship(a))
    decreases a, 1
  {
    match a
    case Sexp(elems) => SameAllStrings(elems);
    case Module(name, body) =>
      SameAllStrings(body);
      NamedStrings(name, RereadAll(body));
      NamedStrings(name, ShipAll(body));
    case _ =>
  }

  lemma {:induction false} NamedStrings(name: string, s: seq<Ast>)
    ensures AllStrings([Ident(Fn(MkModule)), Str(name)] + s) == [name] + AllStrings(s)
  {
    assert [Ident(Fn(MkModule)), Str(name)] + s == [Ident(Fn(MkModule))] + ([Str(name)] + s);
    AllStringsMore(Ident(Fn(MkModule)), [Str(name)] + s);
    AllStringsMore(Str(name), s);
  }

  lemma {:induction false} SameAllStrings(s: seq<Ast>)
    ensures AllStrings(RereadAll(s)) == AllStrings(ShipAll(s))
    decreases s, 0
  {
    if s != [] {
      SameStrings(s[0]);
      SameAllStrings(s[1..]);
      AllStringsMore(Reread(s[0]), RereadAll(s[1..]));
      AllStringsMore(Ship(s[0]), ShipAll(s[1..]));
    }
  }

  lemma {:induction false} NothingLeft(ts: seq<Token>)
    ensures ParseFrom(ts, 0).Done? ==> ParseFrom(ts, 0).rest == []
    decreases |ts|
  {
    if ts != [] {
      match ts[0]
      case Word(text) => if Dotted(text, ts[1..]).Some? { NothingLeft(Dotted(text, ts[1..]).value.1); }
      case LParen => if ParseFrom(ts[1..], 1).Done? { NothingLeft(ParseFrom(ts[1..], 1).rest); }
      case _ => NothingLeft(ts[1..]);
    }
  }

  // Whatever the scanner makes of the printed form of a program, it is the program, with
  // modules as s-expressions, if and only if every string is printable and no float prints
  // as an integer.
  lemma SurvivesExactly(program: seq<Ast>, ts: seq<Token>)
    requires AllReadable(program) && Scans(PrintAll(program), ts)
    ensures Parse(ts) == Some(ShipAll(program)) <==> AllPrintable(program) && AllFloatsKept(program)
  {
    PrintAllWritten(program);
    ProgramRoundTrip(program);
    if AllPrintable(program) {
      ScansSame(PrintAll(program), ts);
      RereadIsShipAll(program);
    } else {
      ScansDiffer(PrintAll(program), ts);
      OtherStrings(program, ts);
    }
  }

  lemma OtherStrings(program: seq<Ast>, ts: seq<Token>)
    requires AllReadable(program) && (Bad in ts || Texts(ts) != Texts(PrintAll(program)))
    ensures Parse(ts) != Some(ShipAll(program))
  {
    var printed := PrintAll(program);
    ProgramRoundTrip(program);
    ParsedTexts(ts, 0);
    ParsedTexts(printed, 0);
    NothingLeft(ts);
    NothingLeft(printed);
    SameAllStrings(program);
  }

  lemma OneString(text: string)
    ensures Parse([StrTok(text)]) == Some([Str(Trim(text))])
  {
    assert [StrTok(text)][1..] == [] && ParseFrom([], 0) == Done([], []);
    assert [Str(Trim(text))] + [] == [Str(Trim(text))];
  }

  // So a literal that ends in an escaped quote is read once and not again: the parser keeps
  // the backslash and drops the quote, the printed text has the closing quote escaped, and
  // without another quote after it the scanner reports an error.
  lemma DanglingBackslash(body: string, tail: string, ts: seq<Token>)
    requires Closed(body) && Scans(PrintAll([Str(body + "\\")]), ts)
    ensures var token := StrTok(Quote(body + "\\\""));
            && TokenOk(token) && Parse([token]) == Some([Str(body + "\\")])
            && Parse(ts) != Some([Str(body + "\\")])
    ensures '"' !in tail ==> StringAt(body + "\\", tail) == Bad
  {
    var s := body + "\\";
    Dangling(body);
    OneString(Quote(body + "\\\""));
    assert AllReadable([Str(s)]) && Str(s) in [Str(s)];
    assert ShipAll([Str(s)]) == [Str(s)] by { assert [Str(s)][1..] == []; }
    SurvivesExactly([Str(s)], ts);
    if '"' !in tail { Unterminated(body, tail); }
  }

  lemma Dangling(body: string)
    requires Closed(body)
    ensures var s, b := body + "\\", body + "\\\"";
            IsLiteral(Quote(b)) && Trim(Quote(b)) == s && LiteralValue(s) && !Closed(s)
  {
    var b := body + "\\\"";
    QuoteEscape();
    ClosedAppend(body, "\\\"");
    LiteralTrim(b);
    assert b[|b| - 1] == '"' && b[..|b| - 1] == body + "\\";
  }

  lemma SwallowedText(body: string, gap: string, more: string)
    ensures var text, s := body + "\\" + "\"" + (gap + "\"" + more), body + "\\\"" + gap;
            text == s + "\"" + more && |s| <= |text| && text[..|s|] == s
  {
  }

  // With another quote, everything up to it is taken in, so the text may even be accepted as
  // a different program.
  lemma Swallowed(body: string, gap: string, more: string)
    requires Closed(body) && Closed(gap)
    ensures StringAt(body + "\\", gap + "\"" + more) == StrTok(Quote(body + "\\\"" + gap))
  {
    var s := body + "\\\"" + gap;
    QuoteEscape();
    ClosedAppend(body, "\\\"");
    ClosedAppend(body + "\\\"", gap);
    SwallowedText(body, gap, more);
    LiteralExact(s, more);
  }
}
