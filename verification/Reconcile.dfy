/** What a table holds after it has been settled with the result of a join. */
module Reconcile {
  import opened Basics
  import opened Counting
  import opened GreedyJoin
  import opened Database

  lemma {:induction false} CommitAllAt<S, Row>(rows: map<nat, Row>, ts: seq<Target<S, Row>>, write: (S, Row) -> Row)
    requires NoDup(Ids(ts))
    ensures var final := CommitAll(rows, ts, write);
            && (forall id :: id in final <==> id in rows || id in Ids(ts))
            && (forall i :: 0 <= i < |ts| ==> ts[i].id in final && final[ts[i].id] == write(ts[i].spec, ts[i].row))
            && (forall id :: id in rows && id !in Ids(ts) ==> id in final && final[id] == rows[id])
    decreases |ts|
  {
    if ts != [] {
      var row := write(ts[0].spec, ts[0].row);
      assert Ids(ts) == [ts[0].id] + Ids(ts[1..]);
      forall i, j | 0 <= i < j < |ts| - 1 ensures Ids(ts[1..])[i] != Ids(ts[1..])[j] {
        assert Ids(ts)[i + 1] != Ids(ts)[j + 1];
      }
      forall i | 0 <= i < |ts| - 1 ensures Ids(ts[1..])[i] != ts[0].id {
        assert Ids(ts)[0] != Ids(ts)[i + 1];
      }
      CommitAllAt(rows[ts[0].id := row], ts[1..], write);
      var final := CommitAll(rows, ts, write);
      assert ts[0].id !in Ids(ts[1..]);
      assert final[ts[0].id] == row;
      forall i | 0 <= i < |ts| ensures ts[i].id in final && final[ts[i].id] == write(ts[i].spec, ts[i].row) {
        if 0 < i { assert ts[i] == ts[1..][i - 1]; }
      }
    }
  }

  lemma {:induction false} NoDupCounts<T>(s: seq<T>)
    ensures NoDup(s) <==> forall x :: multiset(s)[x] <= 1
  {
    if s != [] {
      NoDupCounts(s[1..]);
      assert s == [s[0]] + s[1..];
      if NoDup(s) {
        forall i, j | 0 <= i < j < |s[1..]| ensures s[1..][i] != s[1..][j] {
          assert s[i + 1] != s[j + 1];
        }
        assert s[0] !in s[1..];
      }
      if forall x :: multiset(s)[x] <= 1 {
        forall x ensures multiset(s[1..])[x] <= 1 { assert multiset(s)[x] <= 1; }
        assert multiset(s)[s[0]] <= 1;
        assert s[0] !in multiset(s[1..]);
        assert s[0] !in s[1..];
        forall i, j | 0 <= i < j < |s| ensures s[i] != s[j] {
          if 0 < i { assert s[1..][i - 1] != s[1..][j - 1]; } else { assert s[j] in s[1..]; }
        }
      }
    }
  }

  lemma DistinctPermutation<Row>(s: seq<(nat, Row)>, t: seq<(nat, Row)>)
    requires DistinctIds(s) && multiset(t) == multiset(s)
    ensures DistinctIds(t)
  {
    var id := (r: (nat, Row)) => r.0;
    MapSame(s, t, id);
    assert Map(s, id) == Fsts(s) && Map(t, id) == Fsts(t);
    NoDupCounts(Fsts(s));
    NoDupCounts(Fsts(t));
    assert NoDup(Fsts(s));
    forall i, j | 0 <= i < j < |t| ensures t[i].0 != t[j].0 {
      assert Fsts(t)[i] != Fsts(t)[j];
    }
  }

  // The selected rows are split into those that were matched and those to be dropped.
  ghost predicate Splits<S, Row>(sel: seq<(nat, Row)>, ts: seq<Target<S, Row>>, drop: seq<(nat, Row)>) {
    multiset(sel) == multiset(Reads(ts)) + multiset(drop)
  }

  // `sel` lists a part of the table.
  ghost predicate Selects<Row>(sel: seq<(nat, Row)>, sub: map<nat, Row>, rows: map<nat, Row>) {
    Lists(sel, sub) && forall id :: id in sub ==> id in rows && rows[id] == sub[id]
  }

  lemma SplitTargets<S, Row>(rows: map<nat, Row>, sub: map<nat, Row>, sel: seq<(nat, Row)>,
                             ts: seq<Target<S, Row>>, drop: seq<(nat, Row)>)
    requires Selects(sel, sub, rows) && Splits(sel, ts, drop)
    ensures Targets(ts, rows)
    ensures forall r, i :: r in drop && 0 <= i < |ts| ==> r.0 != ts[i].id
    ensures forall i :: 0 <= i < |ts| ==> ts[i].id in sub
    ensures forall r :: r in drop ==> r.0 in sub
  {
    var perm := Reads(ts) + drop;
    DistinctPermutation(sel, perm);
    forall i, j | 0 <= i < j < |ts| ensures Ids(ts)[i] != Ids(ts)[j] {
      assert perm[i].0 != perm[j].0;
    }
    forall r, i | r in drop && 0 <= i < |ts| ensures r.0 != ts[i].id {
      var j :| 0 <= j < |drop| && drop[j] == r;
      assert perm[i].0 != perm[|ts| + j].0;
    }
    forall i | 0 <= i < |ts| ensures ts[i].id in sub && rows[ts[i].id] == ts[i].row {
      assert Reads(ts)[i] in multiset(sel);
      assert Reads(ts)[i] in sel;
    }
    forall r | r in drop ensures r.0 in sub {
      assert r in multiset(sel);
    }
  }

  // The rows a settled selection ends up with.
  ghost function Mine<Row>(rows: map<nat, Row>, sub: map<nat, Row>, final: map<nat, Row>): map<nat, Row> {
    map id | id in final && (id !in rows || id in sub) :: final[id]
  }

  // Every target of `all` holds what was written to it, the rows outside the selection are
  // as before, and there is nothing else.
  ghost predicate Placed<S, Row>(rows: map<nat, Row>, sub: map<nat, Row>, final: map<nat, Row>,
                                 all: seq<Target<S, Row>>, write: (S, Row) -> Row)
  {
    && NoDup(Ids(all))
    && (forall i :: 0 <= i < |all| ==> all[i].id in final && final[all[i].id] == write(all[i].spec, all[i].row))
    && (forall id :: id in rows && id !in sub ==> id in final && final[id] == rows[id])
    && (forall id :: id in final && (id !in rows || id in sub) ==> id in Ids(all))
    && (forall i :: 0 <= i < |all| ==> all[i].id !in rows || all[i].id in sub)
  }

  lemma SettledAt<S, Row>(rows: map<nat, Row>, sub: map<nat, Row>, base: nat, sel: seq<(nat, Row)>,
                          ts: seq<Target<S, Row>>, drop: seq<(nat, Row)>, add: seq<S>, write: (S, Row) -> Row,
                          zero: Row)
    requires Selects(sel, sub, rows) && Splits(sel, ts, drop) && forall id :: id in rows ==> id <= base
    ensures Placed(rows, sub, Settled(rows, base, ts, drop, add, write, zero), ts + Added(add, base, zero), write)
  {
    var all := ts + Added(add, base, zero);
    var start := Inserted(Dropped(rows, drop), base, |add|, zero);
    SplitTargets(rows, sub, sel, ts, drop);
    CommitTargets(ts, add, base, start, zero);
    CommitAllAt(start, all, write);
    var final := Settled(rows, base, ts, drop, add, write, zero);
    forall id | id in rows && id !in sub ensures id in final && final[id] == rows[id] {
      assert id !in Ids(all);
    }
    forall id | id in final && (id !in rows || id in sub) ensures id in Ids(all) {
      if id in sub && id in start { KeptIsTarget(sub, sel, ts, drop, id); assert Ids(all)[..|ts|] == Ids(ts); }
      if base < id <= base + |add| { assert Ids(all)[|ts| + (id - base - 1)] == id; }
    }
  }

  lemma KeptIsTarget<S, Row>(sub: map<nat, Row>, sel: seq<(nat, Row)>, ts: seq<Target<S, Row>>, drop: seq<(nat, Row)>,
                             id: nat)
    requires Lists(sel, sub) && Splits(sel, ts, drop) && id in sub && id !in (set r | r in drop :: r.0)
    ensures id in Ids(ts)
  {
    assert id in Fsts(sel);
    var i :| 0 <= i < |sel| && Fsts(sel)[i] == id;
    assert sel[i] in multiset(sel);
    assert sel[i] !in drop;
    assert sel[i] in Reads(ts);
    var j :| 0 <= j < |ts| && Reads(ts)[j] == sel[i];
    assert Ids(ts)[j] == id;
  }

  // Rows outside the selection are untouched; the others are exactly one written row for
  // every target and every added spec.
  lemma SettledContents<S, Row(!new)>(
      rows: map<nat, Row>, sub: map<nat, Row>, base: nat, sel: seq<(nat, Row)>,
      ts: seq<Target<S, Row>>, drop: seq<(nat, Row)>, add: seq<S>, write: (S, Row) -> Row, zero: Row)
    requires Selects(sel, sub, rows) && Splits(sel, ts, drop) && forall id :: id in rows ==> id <= base
    ensures var final := Settled(rows, base, ts, drop, add, write, zero);
            && (forall id :: id in rows && id !in sub ==> id in final && final[id] == rows[id])
            && Bag(Mine(rows, sub, final)) == multiset(Snds(Writes(ts + Added(add, base, zero), write)))
  {
    var final := Settled(rows, base, ts, drop, add, write, zero);
    var all := ts + Added(add, base, zero);
    var listing := Writes(all, write);
    var mine := Mine(rows, sub, final);
    SettledAt(rows, sub, base, sel, ts, drop, add, write, zero);
    forall i, j | 0 <= i < j < |listing| ensures listing[i].0 != listing[j].0 {
      assert Ids(all)[i] != Ids(all)[j];
    }
    forall id | id in mine ensures id in Fsts(listing) {
      assert Fsts(listing) == Ids(all);
    }
    BagOfList(listing, mine);
  }

  // Where the whole table is selected and a write depends only on the spec, the table ends
  // up with exactly the rows of the specs.
  lemma WholeTable<S, Row(!new)>(
      rows: map<nat, Row>, base: nat, sel: seq<(nat, Row)>, ts: seq<Target<S, Row>>, drop: seq<(nat, Row)>,
      add: seq<S>, write: (S, Row) -> Row, zero: Row, spec: seq<S>, toRow: S -> Row)
    requires Lists(sel, rows) && Splits(sel, ts, drop) && forall id :: id in rows ==> id <= base
    requires multiset(spec) == multiset(Specs(ts)) + multiset(add)
    requires forall i :: 0 <= i < |ts| ==> write(ts[i].spec, ts[i].row) == toRow(ts[i].spec)
    requires forall i :: 0 <= i < |add| ==> write(add[i], zero) == toRow(add[i])
    ensures Bag(Settled(rows, base, ts, drop, add, write, zero)) == multiset(Map(spec, toRow))
  {
    var final := Settled(rows, base, ts, drop, add, write, zero);
    var all := ts + Added(add, base, zero);
    SettledContents(rows, rows, base, sel, ts, drop, add, write, zero);
    assert Mine(rows, rows, final) == final;
    assert Specs(all) == Specs(ts) + add;
    WrittenRows(base, ts, add, write, zero, toRow);
    MapSame(Specs(all), spec, toRow);
  }

  lemma WrittenRows<S, Row>(base: nat, ts: seq<Target<S, Row>>, add: seq<S>, write: (S, Row) -> Row, zero: Row,
                            toRow: S -> Row)
    requires forall i :: 0 <= i < |ts| ==> write(ts[i].spec, ts[i].row) == toRow(ts[i].spec)
    requires forall i :: 0 <= i < |add| ==> write(add[i], zero) == toRow(add[i])
    ensures var all := ts + Added(add, base, zero); Snds(Writes(all, write)) == Map(Specs(all), toRow)
  {
    var all := ts + Added(add, base, zero);
    var written := Snds(Writes(all, write));
    forall i | 0 <= i < |all| ensures written[i] == Map(Specs(all), toRow)[i] {
      if |ts| <= i { assert all[i] == Added(add, base, zero)[i - |ts|]; }
    }
  }

  // ---------------------------------------------------------------------------------
  // From a join
  // ---------------------------------------------------------------------------------

  // Targets of pairs whose right is the row, and of pairs whose left is.
  function OfRights<S, Row>(ps: seq<(S, (nat, Row))>): (ts: seq<Target<S, Row>>)
    ensures |ts| == |ps| && forall i :: 0 <= i < |ps| ==> ts[i] == Target(ps[i].0, ps[i].1.0, ps[i].1.1)
  {
    seq(|ps|, i requires 0 <= i < |ps| => Target(ps[i].0, ps[i].1.0, ps[i].1.1))
  }

  function OfLefts<S, Row>(ps: seq<((nat, Row), S)>): (ts: seq<Target<S, Row>>)
    ensures |ts| == |ps| && forall i :: 0 <= i < |ps| ==> ts[i] == Target(ps[i].1, ps[i].0.0, ps[i].0.1)
  {
    seq(|ps|, i requires 0 <= i < |ps| => Target(ps[i].1, ps[i].0.0, ps[i].0.1))
  }

  lemma RightsSplit<S, Row>(spec: seq<S>, sel: seq<(nat, Row)>, score: (S, (nat, Row)) -> int)
    ensures var g := Greedy(spec, sel, score);
            && Splits(sel, OfRights(g.pairs), g.rights)
            && multiset(spec) == multiset(Specs(OfRights(g.pairs))) + multiset(g.lefts)
  {
    var g := Greedy(spec, sel, score);
    Partition(spec, sel, score);
    assert Reads(OfRights(g.pairs)) == Snds(g.pairs);
    assert Specs(OfRights(g.pairs)) == Fsts(g.pairs);
  }

  lemma LeftsSplit<S, Row>(sel: seq<(nat, Row)>, spec: seq<S>, score: ((nat, Row), S) -> int)
    ensures var g := Greedy(sel, spec, score);
            && Splits(sel, OfLefts(g.pairs), g.lefts)
            && multiset(spec) == multiset(Specs(OfLefts(g.pairs))) + multiset(g.rights)
  {
    var g := Greedy(sel, spec, score);
    Partition(sel, spec, score);
    assert Reads(OfLefts(g.pairs)) == Fsts(g.pairs);
    assert Specs(OfLefts(g.pairs)) == Snds(g.pairs);
  }
}
