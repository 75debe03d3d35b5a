/** String literals as the scanner of package text/scanner reads them: up to the first quote
    that is not part of an escape. */
module Literals {
  import opened Basics

  predicate IsOctal(c: char) { '0' <= c <= '7' }

  predicate IsHex(c: char) { '0' <= c <= '9' || 'a' <= c <= 'f' || 'A' <= c <= 'F' }

  // The length of the escape that a character starts after a backslash, if it starts one.
  function Needed(c: char): nat {
    match c
    case 'a' | 'b' | 'f' | 'n' | 'r' | 't' | 'v' | '\\' | '"' => 1
    case 'x' => 3
    case 'u' => 5
    case 'U' => 9
    case _ => if IsOctal(c) then 3 else 0
  }

  predicate IsDigit(c: char, d: char) { if IsOctal(c) then IsOctal(d) else IsHex(d) }

  // The first n characters are one that starts an escape and the digits it calls for.
  predicate Proper(s: string, n: nat) { 0 < n <= |s| && forall i :: 1 <= i < n ==> IsDigit(s[0], s[i]) }

  // The length of the escape that follows a backslash, or zero if it is not one.
  function Escape(s: string): (n: nat)
    ensures n <= |s|
  {
    if s == "" then 0 else var n := Needed(s[0]); if Proper(s, n) then n else 0
  }

  // The length of the first character or escape of a literal, or zero if there is none.
  function Step(s: string): (n: nat)
    ensures n <= |s|
  {
    if s == "" || s[0] == '"' || s[0] == '\n' then 0
    else if s[0] != '\\' then 1
    else var n := Escape(s[1..]); if n == 0 then 0 else 1 + n
  }

  // Where the literal ends whose text, after the opening quote, begins with s; or None if
  // the scanner reports an error.
  function LiteralEnd(s: string): Option<nat>
    decreases |s|
  {
    if s != "" && s[0] == '"' then Some(0)
    else if Step(s) == 0 then None
    else Shift(Step(s), LiteralEnd(s[Step(s)..]))
  }

  function Shift(n: nat, o: Option<nat>): Option<nat> {
    match o
    case None => None
    case Some(i) => Some(n + i)
  }

  // A sequence of characters and escapes.
  predicate Closed(s: string)
    decreases |s|
  {
    s == "" || (Step(s) > 0 && Closed(s[Step(s)..]))
  }

  lemma {:induction false} StepMore(s: string, rest: string)
    requires Step(s) > 0
    ensures Step(s + rest) == Step(s)
  {
    if s[0] == '\\' {
      var t := s[1..];
      assert (s + rest)[1..] == t + rest;
      assert forall i :: 0 <= i < |t| ==> (t + rest)[i] == t[i];
    }
  }

  lemma {:induction false} StepLess(s: string, k: nat)
    requires 0 < Step(s) <= k <= |s|
    ensures Step(s[..k]) == Step(s)
  {
    if s[0] == '\\' {
      var t, u := s[1..], s[..k][1..];
      assert u == t[..k - 1];
      assert forall i :: 0 <= i < |u| ==> u[i] == t[i];
    }
  }

  // Reading goes on after a closed text as if it had not been there.
  lemma {:induction false} ReadClosed(s: string, rest: string)
    requires Closed(s)
    ensures LiteralEnd(s + rest) == Shift(|s|, LiteralEnd(rest))
    decreases |s|
  {
    if s == "" {
      assert s + rest == rest;
    } else {
      var n := Step(s);
      StepRead(s, rest);
      ReadClosed(s[n..], rest);
      assert LiteralEnd(s + rest) == Shift(n, Shift(|s| - n, LiteralEnd(rest)));
    }
  }

  lemma {:induction false} ClosedAppend(s: string, t: string)
    requires Closed(s) && Closed(t)
    ensures Closed(s + t)
    decreases |s|
  {
    if s == "" {
      assert s + t == t;
    } else {
      var n := Step(s);
      StepMore(s, t);
      assert (s + t)[n..] == s[n..] + t;
      ClosedAppend(s[n..], t);
    }
  }

  lemma QuoteEscape()
    ensures Closed("\\\"")
  {
    assert "\\\""[2..] == "" && "\\\""[1..] == "\"";
  }

  // A text between quotes is read as one literal if it is closed, and only then, whatever
  // follows.
  lemma {:induction false} LiteralExact(s: string, tail: string)
    ensures LiteralEnd(s + "\"" + tail) == Some(|s|) <==> Closed(s)
  {
    var rest := "\"" + tail;
    assert s + "\"" + tail == s + rest;
    if Closed(s) { ReadClosed(s, rest); } else { OpenRead(s, rest); }
  }

  lemma {:induction false} OpenRead(s: string, rest: string)
    requires !Closed(s) && rest != "" && rest[0] == '"'
    ensures LiteralEnd(s + rest) != Some(|s|)
    decreases |s|
  {
    if Step(s) > 0 {
      OpenRead(s[Step(s)..], rest);
      StepRead(s, rest);
    } else {
      Unread(s, rest);
    }
  }

  lemma {:induction false} Unread(s: string, rest: string)
    requires s != "" && Step(s) == 0 && rest != "" && rest[0] == '"'
    ensures LiteralEnd(s + rest) != Some(|s|)
  {
    assert (s + rest)[0] == s[0];
    if s[0] == '\\' { Unescaped(s, rest); }
  }

  lemma {:induction false} StepRead(s: string, rest: string)
    requires Step(s) > 0
    ensures LiteralEnd(s + rest) == Shift(Step(s), LiteralEnd(s[Step(s)..] + rest))
  {
    StepMore(s, rest);
    assert (s + rest)[Step(s)..] == s[Step(s)..] + rest;
  }

  // A backslash that starts no escape starts none with a quote after it either, unless the
  // quote itself is escaped.
  lemma {:induction false} Unescaped(s: string, rest: string)
    requires s != "" && s[0] == '\\' && Step(s) == 0 && rest != "" && rest[0] == '"'
    ensures Step(s + rest) == 0 || (s == "\\" && Step(s + rest) == 2)
  {
    var t := s[1..];
    assert (s + rest)[1..] == t + rest;
    if t == "" {
      assert t + rest == rest && s == "\\";
    } else {
      assert (t + rest)[0] == t[0] && (t + rest)[|t|] == '"';
      assert forall i :: 0 <= i < |t| ==> (t + rest)[i] == t[i];
      assert !Proper(t, Needed(t[0]));
    }
  }

  // What is read as a literal is closed.
  lemma {:induction false} EndClosed(s: string)
    requires LiteralEnd(s).Some?
    ensures LiteralEnd(s).value < |s| && Closed(s[..LiteralEnd(s).value])
    decreases |s|
  {
    if s[0] != '"' {
      var n, end := Step(s), LiteralEnd(s).value;
      EndClosed(s[n..]);
      StepLess(s, end);
      assert s[..end][n..] == s[n..][..end - n];
    }
  }

  // ---------------------------------------------------------------------------------
  // Texts that end in an open escape
  // ---------------------------------------------------------------------------------

  lemma {:induction false} NoQuote(s: string)
    requires '"' !in s
    ensures LiteralEnd(s) == None
    decreases |s|
  {
    if Step(s) > 0 { NoQuote(s[Step(s)..]); }
  }

  // After such a text the closing quote is read as part of it, and without a further quote
  // the scanner reports an error.
  lemma Unterminated(s: string, tail: string)
    requires Closed(s) && '"' !in tail
    ensures LiteralEnd(s + "\\" + "\"" + tail) == None
  {
    var rest := "\\" + "\"" + tail;
    assert s + "\\" + "\"" + tail == s + rest;
    ReadClosed(s, rest);
    assert rest[1..] == "\"" + tail && rest[2..] == tail;
    NoQuote(tail);
  }

  // A closed text that ends in a quote ends in an escaped one.
  lemma {:induction false} EscapedQuote(s: string)
    requires Closed(s) && s != "" && s[|s| - 1] == '"'
    ensures 2 <= |s| && s[|s| - 2] == '\\' && Closed(s[..|s| - 2])
    decreases |s|
  {
    var n := Step(s);
    if n == |s| {
      assert s[0] == '\\' && s[1..][|s| - 2] == '"';
      assert |s| == 2;
    } else {
      var t := s[n..];
      EscapedQuote(t);
      assert t[|t| - 2] == s[|s| - 2];
      StepLess(s, |s| - 2);
      assert s[..|s| - 2][n..] == t[..|t| - 2];
    }
  }

  // The number of backslashes at the end.
  function Backslashes(s: string): (n: nat)
    ensures n <= |s|
  {
    if s == "" || s[|s| - 1] != '\\' then 0 else 1 + Backslashes(s[..|s| - 1])
  }

  lemma {:induction false} BackslashesAppend(a: string, b: string)
    ensures Backslashes(a + b) == if Backslashes(b) == |b| then Backslashes(a) + |b| else Backslashes(b)
    decreases |b|
  {
    if b == "" {
      assert a + b == a;
    } else {
      assert (a + b)[|a + b| - 1] == b[|b| - 1] && (a + b)[..|a + b| - 1] == a + b[..|b| - 1];
      BackslashesAppend(a, b[..|b| - 1]);
    }
  }

  lemma {:induction false} StepBackslashes(s: string)
    requires Step(s) > 0
    ensures Backslashes(s[..Step(s)]) % 2 == 0
  {
    var n := Step(s);
    var chunk := s[..n];
    if s[0] == '\\' && s[1] == '\\' {
      assert n == 2 && chunk == "\\" + "\\" && chunk[..1] == "\\" && "\\"[..0] == "";
    } else {
      assert chunk[n - 1] == s[n - 1] != '\\';
    }
  }

  lemma {:induction false} ClosedEven(s: string)
    requires Closed(s)
    ensures Backslashes(s) % 2 == 0
    decreases |s|
  {
    if s != "" {
      var n := Step(s);
      StepBackslashes(s);
      ClosedEven(s[n..]);
      BackslashesAppend(s[..n], s[n..]);
      assert s == s[..n] + s[n..];
    }
  }

  // Of a text that is closed, or is with a further quote, one can tell by its backslashes
  // which of the two it is.
  lemma ClosedExactly(s: string)
    requires Closed(s) || Closed(s + "\"")
    ensures Closed(s) <==> Backslashes(s) % 2 == 0
  {
    if Closed(s) { ClosedEven(s); } else { OpenOdd(s); }
  }

  lemma {:induction false} OpenOdd(s: string)
    requires Closed(s + "\"")
    ensures s != "" && s[|s| - 1] == '\\' && Backslashes(s) % 2 == 1
  {
    var q := s + "\"";
    EscapedQuote(q);
    assert q[..|q| - 2] == s[..|s| - 1] && q[|q| - 2] == s[|s| - 1];
    ClosedEven(s[..|s| - 1]);
  }

  // Without its quote, a closed text that ends in one ends in a backslash and is open.
  lemma {:induction false} QuoteNeeded(s: string)
    requires Closed(s) && s != "" && s[|s| - 1] == '"'
    ensures 2 <= |s| && s[|s| - 2] == '\\' && !Closed(s[..|s| - 1])
  {
    var t := s[..|s| - 1];
    assert t + "\"" == s;
    OpenOdd(t);
    if Closed(t) { ClosedEven(t); }
  }
}
