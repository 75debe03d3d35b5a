/** The greedy join of join/join.go: matches the elements of a left slice with elements
    of a right slice, preferring the score closest to zero and never matching a negative
    score. */
module GreedyJoin {
  import opened Counting

  // ---------------------------------------------------------------------------------
  // Specification
  // ---------------------------------------------------------------------------------

  // The first index with the least non-negative score among the first `n` rights, or -1.
  ghost function BestUpTo<L, R>(l: L, rs: seq<R>, score: (L, R) -> int, n: nat): (k: int)
    requires n <= |rs|
    ensures -1 <= k < n
    ensures 0 <= k ==> 0 <= score(l, rs[k])
    ensures forall j :: 0 <= j < n && 0 <= score(l, rs[j]) ==> 0 <= k && score(l, rs[k]) <= score(l, rs[j])
    ensures forall j :: 0 <= j < k && 0 <= score(l, rs[j]) ==> score(l, rs[k]) < score(l, rs[j])
  {
    if n == 0 then -1 else
      var b := BestUpTo(l, rs, score, n - 1);
      var s := score(l, rs[n - 1]);
      if 0 <= s && (b < 0 || s < score(l, rs[b])) then n - 1 else b
  }

  ghost function Best<L, R>(l: L, rs: seq<R>, score: (L, R) -> int): int {
    BestUpTo(l, rs, score, |rs|)
  }

  // Deletion by moving the last element into the hole.
  function SwapDelete<R>(s: seq<R>, i: nat): (r: seq<R>)
    requires i < |s|
    ensures |r| == |s| - 1
    ensures multiset(s) == multiset(r) + multiset{s[i]}
  {
    assert s == s[..i] + [s[i]] + s[i + 1..];
    assert i < |s| - 1 ==> s[i + 1..] == s[i + 1..|s| - 1] + [s[|s| - 1]];
    var r := s[i := s[|s| - 1]][..|s| - 1];
    assert i < |s| - 1 ==> r == s[..i] + [s[|s| - 1]] + s[i + 1..|s| - 1];
    assert i == |s| - 1 ==> r == s[..i];
    r
  }

  datatype Joined<L, R> = Joined(pairs: seq<(L, R)>, lefts: seq<L>, rights: seq<R>)

  ghost function Greedy<L, R>(ls: seq<L>, rs: seq<R>, score: (L, R) -> int): Joined<L, R> {
    if ls == [] then Joined([], [], rs) else
      var k := Best(ls[0], rs, score);
      if 0 <= k then
        var rest := Greedy(ls[1..], SwapDelete(rs, k), score);
        Joined([(ls[0], rs[k])] + rest.pairs, rest.lefts, rest.rights)
      else
        var rest := Greedy(ls[1..], rs, score);
        Joined(rest.pairs, [ls[0]] + rest.lefts, rest.rights)
  }

  function Fsts<L, R>(ps: seq<(L, R)>): (r: seq<L>)
    ensures |r| == |ps| && forall i :: 0 <= i < |ps| ==> r[i] == ps[i].0
  {
    Map(ps, (p: (L, R)) => p.0)
  }

  function Snds<L, R>(ps: seq<(L, R)>): (r: seq<R>)
    ensures |r| == |ps| && forall i :: 0 <= i < |ps| ==> r[i] == ps[i].1
  {
    Map(ps, (p: (L, R)) => p.1)
  }

  // ---------------------------------------------------------------------------------
  // The implementation
  // ---------------------------------------------------------------------------------

  method SliceDel<R>(a: array<R>, l: nat, i: nat)
    requires i < l <= a.Length
    modifies a
    ensures a[..l - 1] == SwapDelete(old(a[..l]), i)
  {
    a[i] := a[l - 1];
  }

  // The inner loop of the join: scan the remaining rights for `l`.
  method PickBest<L, R>(l: L, slice: array<R>, n: nat, score: (L, R) -> int) returns (bestIndex: int)
    requires n <= slice.Length
    ensures bestIndex == Best(l, slice[..n], score)
  {
    var bestScore, j := -1, 0;
    bestIndex := -1;
    while j < n
      invariant 0 <= j <= n && -1 <= bestIndex < j
      invariant bestIndex == BestUpTo(l, slice[..n], score, j)
      invariant bestScore == if bestIndex < 0 then -1 else score(l, slice[bestIndex])
      invariant bestScore != 0
    {
      var s := score(l, slice[j]);
      if s < 0 {
      } else if s == 0 {
        ZeroIsBest(l, slice[..n], score, j);
        return j;
      } else if s < bestScore || bestScore < 0 {
        bestIndex, bestScore := j, s;
      }
      j := j + 1;
    }
  }

  method Join<L, R>(ls: seq<L>, rs: seq<R>, score: (L, R) -> int)
    returns (pairs: seq<(L, R)>, lonelyLefts: seq<L>, lonelyRights: seq<R>)
    ensures Joined(pairs, lonelyLefts, lonelyRights) == Greedy(ls, rs, score)
  {
    var slice := new R[|rs|](i requires 0 <= i < |rs| => rs[i]);
    var n := |rs|;
    assert slice[..n] == rs;
    pairs, lonelyLefts := [], [];
    ghost var left := rs;
    var i := 0;
    while i < |ls|
      invariant 0 <= i <= |ls| && 0 <= n <= slice.Length && left == slice[..n]
      invariant Greedy(ls, rs, score) == After(pairs, lonelyLefts, Greedy(ls[i..], left, score))
    {
      var l := ls[i];
      GreedyStep(pairs, lonelyLefts, ls[i..], left, score);
      assert ls[i..][1..] == ls[i + 1..];
      var bestIndex := PickBest(l, slice, n, score);
      if 0 <= bestIndex {
        pairs := pairs + [(l, slice[bestIndex])];
        SliceDel(slice, n, bestIndex);
        n := n - 1;
        left := SwapDelete(left, bestIndex);
      } else {
        lonelyLefts := lonelyLefts + [l];
      }
      i := i + 1;
    }
    lonelyRights := slice[..n];
    assert ls[i..] == [];
  }

  // The result once `pairs` and `lefts` have been produced and `rest` is still to come.
  ghost function After<L, R>(pairs: seq<(L, R)>, lefts: seq<L>, rest: Joined<L, R>): Joined<L, R> {
    Joined(pairs + rest.pairs, lefts + rest.lefts, rest.rights)
  }

  lemma GreedyStep<L, R>(pairs: seq<(L, R)>, lefts: seq<L>, ls: seq<L>, rs: seq<R>, score: (L, R) -> int)
    requires ls != []
    ensures var k := Best(ls[0], rs, score);
            After(pairs, lefts, Greedy(ls, rs, score)) ==
            if 0 <= k then After(pairs + [(ls[0], rs[k])], lefts, Greedy(ls[1..], SwapDelete(rs, k), score))
            else After(pairs, lefts + [ls[0]], Greedy(ls[1..], rs, score))
  {
    var k := Best(ls[0], rs, score);
    if 0 <= k {
      var rest := Greedy(ls[1..], SwapDelete(rs, k), score);
      assert pairs + ([(ls[0], rs[k])] + rest.pairs) == pairs + [(ls[0], rs[k])] + rest.pairs;
    } else {
      var rest := Greedy(ls[1..], rs, score);
      assert lefts + ([ls[0]] + rest.lefts) == lefts + [ls[0]] + rest.lefts;
    }
  }

  lemma ZeroIsBest<L, R>(l: L, rs: seq<R>, score: (L, R) -> int, j: nat)
    requires j < |rs| && score(l, rs[j]) == 0
    requires BestUpTo(l, rs, score, j) < 0 || score(l, rs[BestUpTo(l, rs, score, j)]) != 0
    ensures Best(l, rs, score) == j
  {
    forall i | 0 <= i < j ensures score(l, rs[i]) != 0 {}
    var k := Best(l, rs, score);
    assert score(l, rs[k]) == 0;
  }

  // ---------------------------------------------------------------------------------
  // What the greedy result promises
  // ---------------------------------------------------------------------------------

  // Both inputs are partitioned: nothing is lost, duplicated or invented.
  lemma {:induction false} Partition<L, R>(ls: seq<L>, rs: seq<R>, score: (L, R) -> int)
    ensures var g := Greedy(ls, rs, score);
            && multiset(ls) == multiset(Fsts(g.pairs)) + multiset(g.lefts)
            && multiset(rs) == multiset(Snds(g.pairs)) + multiset(g.rights)
  {
    if ls != [] {
      assert ls == [ls[0]] + ls[1..];
      var k := Best(ls[0], rs, score);
      if 0 <= k {
        Partition(ls[1..], SwapDelete(rs, k), score);
        var rest := Greedy(ls[1..], SwapDelete(rs, k), score);
        var ps := [(ls[0], rs[k])] + rest.pairs;
        assert Fsts(ps) == [ls[0]] + Fsts(rest.pairs);
        assert Snds(ps) == [rs[k]] + Snds(rest.pairs);
      } else {
        Partition(ls[1..], rs, score);
      }
    } else {
      assert Fsts(Greedy(ls, rs, score).pairs) == [];
      assert Snds(Greedy(ls, rs, score).pairs) == [];
    }
  }

  // The right of a pair is a best choice for its left among `others`.
  ghost predicate Prefers<L, R(!new)>(p: (L, R), others: iset<R>, score: (L, R) -> int) {
    && 0 <= score(p.0, p.1)
    && forall r :: r in others && 0 <= score(p.0, r) ==> score(p.0, p.1) <= score(p.0, r)
  }

  // The rights still unmatched when the i-th pair was made.
  ghost function Remaining<L, R(!new)>(g: Joined<L, R>, i: nat): iset<R>
    requires i <= |g.pairs|
  {
    iset r | r in Snds(g.pairs)[i..] || r in g.rights
  }

  lemma {:induction false} PairIsBest<L, R>(ls: seq<L>, rs: seq<R>, score: (L, R) -> int, i: nat, r: R)
    requires i < |Greedy(ls, rs, score).pairs|
    requires r in Snds(Greedy(ls, rs, score).pairs)[i..] || r in Greedy(ls, rs, score).rights
    ensures var p := Greedy(ls, rs, score).pairs[i];
            0 <= score(p.0, p.1) && (0 <= score(p.0, r) ==> score(p.0, p.1) <= score(p.0, r))
  {
    var g := Greedy(ls, rs, score);
    var k := Best(ls[0], rs, score);
    if k < 0 {
      PairIsBest(ls[1..], rs, score, i, r);
    } else if i == 0 {
      Partition(ls, rs, score);
      assert r in multiset(rs);
    } else {
      var rest := Greedy(ls[1..], SwapDelete(rs, k), score);
      assert Snds(g.pairs)[i..] == Snds(rest.pairs)[i - 1..];
      PairIsBest(ls[1..], SwapDelete(rs, k), score, i - 1, r);
    }
  }

  // Pairs never score below zero, and each pair's right was a best choice among all the
  // rights not taken before it.
  lemma Optimal<L, R(!new)>(ls: seq<L>, rs: seq<R>, score: (L, R) -> int, i: nat)
    requires i < |Greedy(ls, rs, score).pairs|
    ensures var g := Greedy(ls, rs, score); Prefers(g.pairs[i], Remaining(g, i), score)
  {
    var g := Greedy(ls, rs, score);
    assert g.pairs[i].1 == Snds(g.pairs)[i..][0];
    PairIsBest(ls, rs, score, i, g.pairs[i].1);
    forall r | r in Remaining(g, i) && 0 <= score(g.pairs[i].0, r)
      ensures score(g.pairs[i].0, g.pairs[i].1) <= score(g.pairs[i].0, r)
    {
      PairIsBest(ls, rs, score, i, r);
    }
  }

  // No two lonely elements could have been matched.
  lemma {:induction false} Lonely<L, R>(ls: seq<L>, rs: seq<R>, score: (L, R) -> int, l: L, r: R)
    requires l in Greedy(ls, rs, score).lefts && r in Greedy(ls, rs, score).rights
    ensures score(l, r) < 0
  {
    var k := Best(ls[0], rs, score);
    if 0 <= k {
      Lonely(ls[1..], SwapDelete(rs, k), score, l, r);
    } else if l in Greedy(ls[1..], rs, score).lefts {
      Lonely(ls[1..], rs, score, l, r);
    } else {
      Partition(ls[1..], rs, score);
      assert r in multiset(rs);
    }
  }

  lemma NonNegative<L, R(!new)>(ls: seq<L>, rs: seq<R>, score: (L, R) -> int)
    ensures var g := Greedy(ls, rs, score);
            forall i :: 0 <= i < |g.pairs| ==> 0 <= score(g.pairs[i].0, g.pairs[i].1)
  {
    var g := Greedy(ls, rs, score);
    forall i | 0 <= i < |g.pairs| ensures 0 <= score(g.pairs[i].0, g.pairs[i].1) {
      Optimal(ls, rs, score, i);
    }
  }

  // ---------------------------------------------------------------------------------
  // Matchability by keys
  // ---------------------------------------------------------------------------------

  // Among the given elements, exactly those with equal keys can be matched.
  ghost predicate Keyed<L(!new), R(!new), K>(ls: seq<L>, rs: seq<R>, score: (L, R) -> int, kl: L -> K, kr: R -> K) {
    forall l, r :: l in ls && r in rs ==> (0 <= score(l, r) <==> kl(l) == kr(r))
  }

  // Every left and right of the result comes from the inputs.
  lemma FromInputs<L, R>(ls: seq<L>, rs: seq<R>, score: (L, R) -> int)
    ensures var g := Greedy(ls, rs, score);
            && (forall i :: 0 <= i < |g.pairs| ==> g.pairs[i].0 in ls && g.pairs[i].1 in rs)
            && (forall l :: l in g.lefts ==> l in ls) && (forall r :: r in g.rights ==> r in rs)
  {
    var g := Greedy(ls, rs, score);
    Partition(ls, rs, score);
    forall i | 0 <= i < |g.pairs| ensures g.pairs[i].0 in ls && g.pairs[i].1 in rs {
      assert Fsts(g.pairs)[i] in multiset(ls) && Snds(g.pairs)[i] in multiset(rs);
    }
    forall l | l in g.lefts ensures l in ls { assert l in multiset(ls); }
    forall r | r in g.rights ensures r in rs { assert r in multiset(rs); }
  }

  ghost function Min(a: nat, b: nat): nat { if a < b then a else b }

  lemma CountPairs<L(!new), R(!new)>(ps: seq<(L, R)>, p: L -> bool, q: R -> bool)
    requires forall i :: 0 <= i < |ps| ==> p(ps[i].0) == q(ps[i].1)
    ensures Count(Fsts(ps), p) == Count(Snds(ps), q)
  {
    if ps != [] {
      assert Fsts(ps)[1..] == Fsts(ps[1..]);
      assert Snds(ps)[1..] == Snds(ps[1..]);
      CountPairs(ps[1..], p, q);
    }
  }

  // Every key gets exactly min(lefts, rights) pairs.
  lemma KeyCounts<L(!new), R(!new), K(!new)>(
      ls: seq<L>, rs: seq<R>, score: (L, R) -> int, kl: L -> K, kr: R -> K, key: K)
    requires Keyed(ls, rs, score, kl, kr)
    ensures var g := Greedy(ls, rs, score);
            && Count(Fsts(g.pairs), l => kl(l) == key)
               == Count(Snds(g.pairs), r => kr(r) == key)
               == Min(Count(ls, l => kl(l) == key), Count(rs, r => kr(r) == key))
  {
    var g := Greedy(ls, rs, score);
    var p, q := (l: L) => kl(l) == key, (r: R) => kr(r) == key;
    Partition(ls, rs, score);
    NonNegative(ls, rs, score);
    FromInputs(ls, rs, score);
    CountPairs(g.pairs, p, q);
    CountSame(ls, Fsts(g.pairs) + g.lefts, p);
    CountSame(rs, Snds(g.pairs) + g.rights, q);
    CountConcat(Fsts(g.pairs), g.lefts, p);
    CountConcat(Snds(g.pairs), g.rights, q);
    if l :| l in g.lefts && p(l) {
      forall r | r in g.rights ensures !q(r) {
        Lonely(ls, rs, score, l, r);
      }
      CountNone(g.rights, q);
    } else {
      CountNone(g.lefts, p);
    }
  }

  // A matching pairs elements of `ls` with elements of `rs`, each used at most once.
  ghost predicate IsMatching<L, R>(m: seq<(L, R)>, ls: seq<L>, rs: seq<R>, score: (L, R) -> int) {
    && multiset(Fsts(m)) <= multiset(ls)
    && multiset(Snds(m)) <= multiset(rs)
    && forall i :: 0 <= i < |m| ==> 0 <= score(m[i].0, m[i].1)
  }

  // The greedy pairs form a matching that no other matching exceeds.
  lemma Maximum<L(!new), R(!new), K(!new)>(
      ls: seq<L>, rs: seq<R>, score: (L, R) -> int, kl: L -> K, kr: R -> K, m: seq<(L, R)>)
    requires Keyed(ls, rs, score, kl, kr)
    requires IsMatching(m, ls, rs, score)
    ensures var g := Greedy(ls, rs, score); IsMatching(g.pairs, ls, rs, score) && |m| <= |g.pairs|
  {
    var g := Greedy(ls, rs, score);
    Partition(ls, rs, score);
    NonNegative(ls, rs, score);
    FromInputs(ls, rs, score);
    // Split the keys by whether some left with that key stayed lonely: where one did, all
    // rights with the key are paired; elsewhere all lefts are.
    var lonely := iset l | l in g.lefts :: kl(l);
    var pl, nl := (l: L) => kl(l) in lonely, (l: L) => kl(l) !in lonely;
    var pr := (r: R) => kr(r) in lonely;
    forall i | 0 <= i < |m| ensures pl(m[i].0) == pr(m[i].1) {
      assert Fsts(m)[i] in multiset(ls) && Snds(m)[i] in multiset(rs);
    }
    Halves(m, pl, nl);
    Halves(g.pairs, pl, nl);
    CountPairs(m, pl, pr);
    CountPairs(g.pairs, pl, pr);
    CountMonotone(Snds(m), rs, pr);
    CountMonotone(Fsts(m), ls, nl);
    CountSame(ls, Fsts(g.pairs) + g.lefts, nl);
    CountSame(rs, Snds(g.pairs) + g.rights, pr);
    CountConcat(Fsts(g.pairs), g.lefts, nl);
    CountConcat(Snds(g.pairs), g.rights, pr);
    CountNone(g.lefts, nl);
    forall r | r in g.rights ensures !pr(r) {
      if pr(r) {
        var l :| l in g.lefts && kl(l) == kr(r);
        Lonely(ls, rs, score, l, r);
      }
    }
    CountNone(g.rights, pr);
  }

  lemma {:induction false} Halves<L(!new), R>(ps: seq<(L, R)>, p: L -> bool, n: L -> bool)
    requires forall l :: n(l) == !p(l)
    ensures Count(Fsts(ps), p) + Count(Fsts(ps), n) == |ps|
  {
    if ps != [] {
      assert Fsts(ps)[1..] == Fsts(ps[1..]);
      Halves(ps[1..], p, n);
    }
  }

  // Where both sides carry the same multiset of keys, everything is matched.
  lemma {:induction false} Perfect<L(!new), R(!new), K(!new)>(
      ls: seq<L>, rs: seq<R>, score: (L, R) -> int, kl: L -> K, kr: R -> K)
    requires Keyed(ls, rs, score, kl, kr)
    requires multiset(Map(ls, kl)) == multiset(Map(rs, kr))
    ensures var g := Greedy(ls, rs, score); g.lefts == [] && g.rights == []
  {
    var g := Greedy(ls, rs, score);
    Partition(ls, rs, score);
    if g.lefts != [] {
      var key := kl(g.lefts[0]);
      var p := (l: L) => kl(l) == key;
      KeyCounts(ls, rs, score, kl, kr, key);
      SameKeyCount(ls, rs, kl, kr, key);
      CountSame(ls, Fsts(g.pairs) + g.lefts, p);
      CountConcat(Fsts(g.pairs), g.lefts, p);
      assert false;
    }
    assert |multiset(Map(ls, kl))| == |ls| && |multiset(Map(rs, kr))| == |rs|;
    assert |multiset(ls)| == |g.pairs| + |g.lefts| && |multiset(rs)| == |g.pairs| + |g.rights|;
  }

  lemma SameKeyCount<L(!new), R(!new), K(!new)>(ls: seq<L>, rs: seq<R>, kl: L -> K, kr: R -> K, key: K)
    requires multiset(Map(ls, kl)) == multiset(Map(rs, kr))
    ensures Count(ls, l => kl(l) == key) == Count(rs, r => kr(r) == key)
  {
    var p := (k: K) => k == key;
    CountSame(Map(ls, kl), Map(rs, kr), p);
    CountMap(ls, kl, p);
    CountMap(rs, kr, p);
    SameCount(ls, l => p(kl(l)), l => kl(l) == key);
    SameCount(rs, r => p(kr(r)), r => kr(r) == key);
  }

  lemma {:induction false} SameCount<T(!new)>(s: seq<T>, p: T -> bool, q: T -> bool)
    requires forall x :: p(x) == q(x)
    ensures Count(s, p) == Count(s, q)
  {
    if s != [] { SameCount(s[1..], p, q); }
  }

  // Among the given elements, exactly those with equal keys score zero.
  ghost predicate ZeroIsEqualKeys<L(!new), R(!new), K>(
      ls: seq<L>, rs: seq<R>, score: (L, R) -> int, kl: L -> K, kr: R -> K)
  {
    forall l, r :: l in ls && r in rs ==> (score(l, r) == 0 <==> kl(l) == kr(r))
  }

  lemma BestIsExact<L(!new), R(!new), K>(
      ls: seq<L>, l: L, rs: seq<R>, score: (L, R) -> int, kl: L -> K, kr: R -> K)
    requires ZeroIsEqualKeys(ls, rs, score, kl, kr) && l in ls
    requires kl(l) in Map(rs, kr)
    ensures var k := Best(l, rs, score); 0 <= k && kr(rs[k]) == kl(l)
  {
    var j :| 0 <= j < |rs| && Map(rs, kr)[j] == kl(l);
    assert score(l, rs[j]) == 0;
  }

  // If a score of zero means equal keys, and both sides carry the same multiset of keys,
  // then every pair is an exact one, whatever the other scores are.
  lemma {:induction false} Exact<L(!new), R(!new), K(!new)>(
      ls: seq<L>, rs: seq<R>, score: (L, R) -> int, kl: L -> K, kr: R -> K)
    requires ZeroIsEqualKeys(ls, rs, score, kl, kr)
    requires multiset(Map(ls, kl)) == multiset(Map(rs, kr))
    ensures var g := Greedy(ls, rs, score);
            && g.lefts == [] && g.rights == []
            && forall i :: 0 <= i < |g.pairs| ==> kl(g.pairs[i].0) == kr(g.pairs[i].1)
  {
    var g := Greedy(ls, rs, score);
    if ls == [] {
      assert |multiset(Map(rs, kr))| == 0;
    } else {
      ExactStep(ls, rs, score, kl, kr);
      var k := Best(ls[0], rs, score);
      forall r | r in SwapDelete(rs, k) ensures r in rs { assert r in multiset(rs); }
      Exact(ls[1..], SwapDelete(rs, k), score, kl, kr);
      var rest := Greedy(ls[1..], SwapDelete(rs, k), score);
      assert g.pairs == [(ls[0], rs[k])] + rest.pairs;
    }
  }

  lemma ExactStep<L(!new), R(!new), K(!new)>(
      ls: seq<L>, rs: seq<R>, score: (L, R) -> int, kl: L -> K, kr: R -> K)
    requires ls != [] && ZeroIsEqualKeys(ls, rs, score, kl, kr)
    requires multiset(Map(ls, kl)) == multiset(Map(rs, kr))
    ensures var k := Best(ls[0], rs, score);
            && 0 <= k && kr(rs[k]) == kl(ls[0])
            && multiset(Map(ls[1..], kl)) == multiset(Map(SwapDelete(rs, k), kr))
  {
    var l := ls[0];
    assert Map(ls, kl) == [kl(l)] + Map(ls[1..], kl);
    assert kl(l) in multiset(Map(rs, kr));
    BestIsExact(ls, l, rs, score, kl, kr);
    var k := Best(l, rs, score);
    SwapDeleteMap(rs, k, kr);
    Cancel(multiset(Map(ls[1..], kl)), multiset(Map(SwapDelete(rs, k), kr)), kl(l));
  }

  lemma SwapDeleteMap<R, K>(s: seq<R>, i: nat, f: R -> K)
    requires i < |s|
    ensures multiset(Map(s, f)) == multiset(Map(SwapDelete(s, i), f)) + multiset{f(s[i])}
  {
    assert Map(SwapDelete(s, i), f) == SwapDelete(Map(s, f), i);
  }

  // If a score is non-negative exactly on equal elements, what stays lonely is the
  // difference of the two inputs.
  lemma Difference<T(!new)>(ls: seq<T>, rs: seq<T>, score: (T, T) -> int)
    requires forall l, r :: 0 <= score(l, r) <==> l == r
    ensures var g := Greedy(ls, rs, score);
            multiset(g.lefts) == multiset(ls) - multiset(rs) && multiset(g.rights) == multiset(rs) - multiset(ls)
  {
    var g := Greedy(ls, rs, score);
    Partition(ls, rs, score);
    NonNegative(ls, rs, score);
    assert Fsts(g.pairs) == Snds(g.pairs);
    forall x | x in g.lefts && x in g.rights ensures false { Lonely(ls, rs, score, x, x); }
    SameCommon(multiset(ls), multiset(rs), multiset(Fsts(g.pairs)), multiset(g.lefts), multiset(g.rights));
  }

  lemma SameCommon<T>(l: multiset<T>, r: multiset<T>, common: multiset<T>, a: multiset<T>, b: multiset<T>)
    requires l == common + a && r == common + b && a !! b
    ensures a == l - r && b == r - l
  {
  }
}
