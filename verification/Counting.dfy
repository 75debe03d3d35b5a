/** Counting the elements of a sequence that satisfy a predicate, and the multiset of
    the images of a sequence under a key function. */
module Counting {

  ghost function Count<T(!new)>(s: seq<T>, p: T -> bool): nat {
    if s == [] then 0 else (if p(s[0]) then 1 else 0) + Count(s[1..], p)
  }

  function Map<T, U>(s: seq<T>, f: T -> U): (r: seq<U>)
    ensures |r| == |s| && forall i :: 0 <= i < |s| ==> r[i] == f(s[i])
  {
    seq(|s|, i requires 0 <= i < |s| => f(s[i]))
  }

  lemma {:induction false} CountConcat<T(!new)>(s: seq<T>, t: seq<T>, p: T -> bool)
    ensures Count(s + t, p) == Count(s, p) + Count(t, p)
  {
    if s == [] {
      assert s + t == t;
    } else {
      assert (s + t)[1..] == s[1..] + t;
      CountConcat(s[1..], t, p);
    }
  }

  lemma OneOut<T>(s: seq<T>, k: nat)
    requires k < |s|
    ensures s == s[..k] + ([s[k]] + s[k + 1..])
    ensures multiset(s) == multiset(s[..k] + s[k + 1..]) + multiset{s[k]}
  {
    assert s == s[..k] + ([s[k]] + s[k + 1..]);
  }

  // Taking one element out of a sequence takes its share out of the count.
  lemma CountRemove<T(!new)>(s: seq<T>, k: nat, p: T -> bool)
    requires k < |s|
    ensures Count(s, p) == Count(s[..k] + s[k + 1..], p) + (if p(s[k]) then 1 else 0)
    ensures multiset(s) == multiset(s[..k] + s[k + 1..]) + multiset{s[k]}
  {
    OneOut(s, k);
    CountConcat(s[..k], [s[k]] + s[k + 1..], p);
    CountConcat([s[k]], s[k + 1..], p);
    CountConcat(s[..k], s[k + 1..], p);
    assert [s[k]][1..] == [];
  }

  lemma Cancel<T>(a: multiset<T>, b: multiset<T>, x: T)
    ensures a + multiset{x} <= b + multiset{x} ==> a <= b
    ensures a + multiset{x} == b + multiset{x} ==> a == b
  {
    assert a == (a + multiset{x}) - multiset{x};
    assert b == (b + multiset{x}) - multiset{x};
  }

  // A sub-multiset never has more elements satisfying `p`.
  lemma {:induction false} CountMonotone<T(!new)>(s: seq<T>, t: seq<T>, p: T -> bool)
    requires multiset(s) <= multiset(t)
    ensures Count(s, p) <= Count(t, p)
  {
    if s != [] {
      assert s[0] in multiset(s);
      var k :| 0 <= k < |t| && t[k] == s[0];
      CountRemove(t, k, p);
      CountRemove(s, 0, p);
      assert s[..0] + s[0 + 1..] == s[1..];
      Cancel(multiset(s[1..]), multiset(t[..k] + t[k + 1..]), s[0]);
      CountMonotone(s[1..], t[..k] + t[k + 1..], p);
    }
  }

  lemma CountSame<T(!new)>(s: seq<T>, t: seq<T>, p: T -> bool)
    requires multiset(s) == multiset(t)
    ensures Count(s, p) == Count(t, p)
  {
    CountMonotone(s, t, p);
    CountMonotone(t, s, p);
  }

  lemma {:induction false} CountNone<T(!new)>(s: seq<T>, p: T -> bool)
    requires forall x :: x in s ==> !p(x)
    ensures Count(s, p) == 0
  {
    if s != [] { CountNone(s[1..], p); }
  }

  // Counting images is counting with the composed predicate.
  lemma {:induction false} CountMap<T(!new), U(!new)>(s: seq<T>, f: T -> U, p: U -> bool)
    ensures Count(Map(s, f), p) == Count(s, x => p(f(x)))
  {
    if s != [] {
      assert Map(s, f)[1..] == Map(s[1..], f);
      CountMap(s[1..], f, p);
    }
  }

  lemma MapConcat<T, U>(s: seq<T>, t: seq<T>, f: T -> U)
    ensures Map(s + t, f) == Map(s, f) + Map(t, f)
  {
  }

  // A multiset of sequence elements determines the multiset of their images.
  lemma {:induction false} MapSame<T, U>(s: seq<T>, t: seq<T>, f: T -> U)
    requires multiset(s) == multiset(t)
    ensures multiset(Map(s, f)) == multiset(Map(t, f))
  {
    if s == [] {
      assert |multiset(t)| == 0;
      assert t == [];
    } else {
      assert s[0] in multiset(s);
      var k :| 0 <= k < |t| && t[k] == s[0];
      assert t == t[..k] + [t[k]] + t[k + 1..];
      assert s == [s[0]] + s[1..];
      var rest := t[..k] + t[k + 1..];
      assert multiset(t) == multiset(rest) + multiset{s[0]};
      assert multiset(s) == multiset(s[1..]) + multiset{s[0]};
      Cancel(multiset(s[1..]), multiset(rest), s[0]);
      MapSame(s[1..], rest, f);
      MapConcat([s[0]], s[1..], f);
      MapConcat(t[..k] + [t[k]], t[k + 1..], f);
      MapConcat(t[..k], [t[k]], f);
      MapConcat(t[..k], t[k + 1..], f);
      assert Map([s[0]], f) == [f(s[0])] == Map([t[k]], f);
    }
  }
}
