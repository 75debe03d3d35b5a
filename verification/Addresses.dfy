/** IPv4 addresses: 32-bit numbers and their dotted-quad spelling. */
module Addresses {
  import opened Basics
  import opened Text

  newtype Word = x: int | 0 <= x < 0x1_0000_0000

  function Octet(n: nat): (s: string)
    requires n < 256
    ensures 1 <= |s| <= 3 && Clean(s, '.')
  {
    if n < 10 then [Digit(n)]
    else if n < 100 then [Digit(n / 10), Digit(n % 10)]
    else [Digit(n / 100), Digit(n / 10 % 10), Digit(n % 10)]
  }

  function Digit(n: nat): (c: char)
    requires n < 10
    ensures '0' <= c <= '9'
  {
    '0' + n as char
  }

  predicate Digits(s: string) { forall i :: 0 <= i < |s| ==> '0' <= s[i] <= '9' }

  function Value(s: string): nat
    requires Digits(s)
  {
    if s == "" then 0 else Value(s[..|s| - 1]) * 10 + (s[|s| - 1] - '0') as nat
  }

  // At most three digits, and a value that fits a byte.
  predicate IsOctet(s: string) { 1 <= |s| <= 3 && Digits(s) && Value(s) < 256 }

  function Show(ip: Word): string {
    var n := ip as nat;
    Join([Octet(n / 0x100_0000), Octet(n / 0x1_0000 % 256), Octet(n / 256 % 256), Octet(n % 256)], '.')
  }

  function Parse(s: string): Option<Word> {
    var p := Split(s, '.');
    if |p| == 4 && IsOctet(p[0]) && IsOctet(p[1]) && IsOctet(p[2]) && IsOctet(p[3]) then
      Some((((Value(p[0]) * 256 + Value(p[1])) * 256 + Value(p[2])) * 256 + Value(p[3])) as Word)
    else
      None
  }

  lemma ValueMore(s: string, n: nat)
    requires Digits(s) && n < 10
    ensures Digits(s + [Digit(n)]) && Value(s + [Digit(n)]) == Value(s) * 10 + n
  {
    assert (s + [Digit(n)])[..|s|] == s;
  }

  lemma ValueTwo(t: nat, u: nat)
    requires t < 10 && u < 10
    ensures Digits([Digit(t), Digit(u)]) && Value([Digit(t), Digit(u)]) == 10 * t + u
  {
    ValueMore("", t);
    assert "" + [Digit(t)] == [Digit(t)] && [Digit(t)] + [Digit(u)] == [Digit(t), Digit(u)];
    ValueMore([Digit(t)], u);
  }

  lemma ValueThree(h: nat, t: nat, u: nat)
    requires h < 10 && t < 10 && u < 10
    ensures Digits([Digit(h), Digit(t), Digit(u)]) && Value([Digit(h), Digit(t), Digit(u)]) == 100 * h + 10 * t + u
  {
    ValueTwo(h, t);
    ValueMore([Digit(h), Digit(t)], u);
    assert [Digit(h), Digit(t)] + [Digit(u)] == [Digit(h), Digit(t), Digit(u)];
  }

  lemma OctetValue(n: nat)
    requires n < 256
    ensures IsOctet(Octet(n)) && Value(Octet(n)) == n
  {
    if n < 10 {
      ValueMore("", n);
      assert "" + [Digit(n)] == Octet(n);
    } else if n < 100 {
      ValueTwo(n / 10, n % 10);
    } else {
      ValueThree(n / 100, n / 10 % 10, n % 10);
    }
  }

  lemma Quad(n: nat)
    requires n < 0x1_0000_0000
    ensures n / 0x100_0000 < 256
    ensures ((n / 0x100_0000 * 256 + n / 0x1_0000 % 256) * 256 + n / 256 % 256) * 256 + n % 256 == n
  {
  }

  // An address printed and parsed again is the same address.
  lemma RoundTrip(ip: Word)
    ensures Parse(Show(ip)) == Some(ip)
  {
    var n := ip as nat;
    var a, b, c, d := n / 0x100_0000, n / 0x1_0000 % 256, n / 256 % 256, n % 256;
    Quad(n);
    OctetValue(a);
    OctetValue(b);
    OctetValue(c);
    OctetValue(d);
    SplitJoin([Octet(a), Octet(b), Octet(c), Octet(d)], '.');
  }

  // A spelling of addresses, as package net has one.
  datatype Spelling = Spelling(parse: string -> Option<Word>, show: Word -> string)

  ghost predicate Exact(net: Spelling) {
    net.parse("") == None && forall ip :: net.parse(net.show(ip)) == Some(ip)
  }

  // Dotted quads are one.
  lemma DottedExact()
    ensures Exact(Spelling(Parse, Show))
  {
    forall ip ensures Parse(Show(ip)) == Some(ip) { RoundTrip(ip); }
    assert Split("", '.') == [""];
  }
}
