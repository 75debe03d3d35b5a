/** One table of the in-memory database (db/db.go): rows by ID, the change counter `seq`,
    and the ID allocator; and the pattern by which the reconcilers bring a table in line
    with a desired state after a join. */
module Database {
  import opened Basics
  import opened GreedyJoin

  // ---------------------------------------------------------------------------------
  // The contents of a table as a multiset of rows
  // ---------------------------------------------------------------------------------

  ghost function Pick(ids: set<nat>): nat
    requires ids != {}
    ensures Pick(ids) in ids
  {
    var k :| k in ids;
    k
  }

  ghost function Bag<T(!new)>(rows: map<nat, T>): multiset<T>
    decreases |rows|
  {
    if rows == map[] then multiset{} else
      var k := Pick(rows.Keys);
      assert rows.Keys == (rows - {k}).Keys + {k};
      Bag(rows - {k}) + multiset{rows[k]}
  }

  lemma {:induction false} BagRemove<T(!new)>(rows: map<nat, T>, k: nat)
    requires k in rows
    ensures Bag(rows) == Bag(rows - {k}) + multiset{rows[k]}
    decreases |rows|
  {
    var j := Pick(rows.Keys);
    if j != k {
      assert rows.Keys == (rows - {j}).Keys + {j} && rows.Keys == (rows - {k}).Keys + {k};
      assert rows - {j} - {k} == rows - {k} - {j};
      BagRemove(rows - {j}, k);
      BagRemove(rows - {k}, j);
    }
  }

  // `s` lists every row of the table exactly once, with its ID.
  ghost predicate Lists<T>(s: seq<(nat, T)>, rows: map<nat, T>) {
    && DistinctIds(s)
    && (forall i :: 0 <= i < |s| ==> s[i].0 in rows && rows[s[i].0] == s[i].1)
    && (forall id :: id in rows ==> id in Fsts(s))
  }

  ghost predicate DistinctIds<T>(s: seq<(nat, T)>) {
    forall i, j :: 0 <= i < j < |s| ==> s[i].0 != s[j].0
  }

  lemma ListsTail<T>(s: seq<(nat, T)>, rows: map<nat, T>)
    requires s != [] && Lists(s, rows)
    ensures Lists(s[1..], rows - {s[0].0})
  {
    var rest := rows - {s[0].0};
    forall i | 0 <= i < |s| - 1 ensures s[1..][i].0 in rest && rest[s[1..][i].0] == s[1..][i].1 {
      assert s[1..][i] == s[i + 1] && s[0].0 != s[i + 1].0;
    }
    forall id | id in rest ensures id in Fsts(s[1..]) {
      assert id in Fsts(s);
      var i :| 0 <= i < |s| && Fsts(s)[i] == id;
      assert Fsts(s[1..])[i - 1] == id;
    }
  }

  lemma {:induction false} BagOfList<T(!new)>(s: seq<(nat, T)>, rows: map<nat, T>)
    requires Lists(s, rows)
    ensures Bag(rows) == multiset(Snds(s))
  {
    if s == [] {
      assert rows == map[];
    } else {
      ListsTail(s, rows);
      assert s[0].0 in rows && rows[s[0].0] == s[0].1;
      BagOfList(s[1..], rows - {s[0].0});
      BagCons(s, rows);
    }
  }

  lemma BagCons<T(!new)>(s: seq<(nat, T)>, rows: map<nat, T>)
    requires s != [] && s[0].0 in rows && rows[s[0].0] == s[0].1
    requires Bag(rows - {s[0].0}) == multiset(Snds(s[1..]))
    ensures Bag(rows) == multiset(Snds(s))
  {
    BagRemove(rows, s[0].0);
    assert Snds(s) == [s[0].1] + Snds(s[1..]);
  }

  // ---------------------------------------------------------------------------------
  // The table
  // ---------------------------------------------------------------------------------

  class Table<Row(==, !new)> {
    var rows: map<nat, Row>
    var seqNo: nat
    var idAlloc: nat
    ghost var issued: set<nat>  // every ID ever handed out

    ghost predicate Valid()
      reads this
    {
      rows.Keys <= issued && forall id :: id in issued ==> 1 <= id <= idAlloc
    }

    constructor ()
      ensures Valid() && rows == map[] && issued == {}
    {
      rows, seqNo, idAlloc, issued := map[], 0, 0, {};
    }

    // nextID and insert: the ID was never handed out before.
    method Insert(zero: Row) returns (id: nat)
      requires Valid()
      modifies this
      ensures Valid() && id !in old(issued) && issued == old(issued) + {id}
      ensures id == idAlloc == old(idAlloc) + 1
      ensures rows == old(rows)[id := zero] && seqNo == old(seqNo) + 1
    {
      idAlloc := idAlloc + 1;
      id := idAlloc;
      issued := issued + {id};
      rows := rows[id := zero];
      seqNo := seqNo + 1;
    }

    // Committing a row that is no longer in the table makes the source panic.
    method Commit(id: nat, row: Row)
      requires Valid() && id in rows
      modifies this`rows, this`seqNo
      ensures Valid() && rows == old(rows)[id := row]
      ensures seqNo == old(seqNo) + if old(rows)[id] == row then 0 else 1
    {
      if rows[id] != row {
        rows := rows[id := row];
        seqNo := seqNo + 1;
      }
    }

    method Remove(id: nat)
      requires Valid()
      modifies this`rows, this`seqNo
      ensures Valid() && rows == old(rows) - {id} && seqNo == old(seqNo) + 1
    {
      rows := rows - {id};
      seqNo := seqNo + 1;
    }

    // The rows that satisfy `check`, in the arbitrary order of a map iteration.
    method Select(check: Row -> bool) returns (s: seq<(nat, Row)>)
      ensures Lists(s, map id | id in rows && check(rows[id]) :: rows[id])
    {
      s := [];
      var rest := rows.Keys;
      while rest != {}
        invariant rest <= rows.Keys
        invariant Lists(s, map id | id in rows && id !in rest && check(rows[id]) :: rows[id])
      {
        var id :| id in rest;
        ghost var before := s;
        rest := rest - {id};
        if check(rows[id]) {
          s := s + [(id, rows[id])];
          assert Fsts(s) == Fsts(before) + [id];
        }
      }
    }
  }

  // ---------------------------------------------------------------------------------
  // Bringing a table in line with a join
  // ---------------------------------------------------------------------------------

  // A spec to be written into the row read under `id`.
  datatype Target<S, Row> = Target(spec: S, id: nat, row: Row)

  ghost function Ids<S, Row>(ts: seq<Target<S, Row>>): (r: seq<nat>)
    ensures |r| == |ts| && forall i :: 0 <= i < |ts| ==> r[i] == ts[i].id
  {
    seq(|ts|, i requires 0 <= i < |ts| => ts[i].id)
  }

  ghost function Specs<S, Row>(ts: seq<Target<S, Row>>): (r: seq<S>)
    ensures |r| == |ts| && forall i :: 0 <= i < |ts| ==> r[i] == ts[i].spec
  {
    seq(|ts|, i requires 0 <= i < |ts| => ts[i].spec)
  }

  // The rows as they were read, with their IDs.
  ghost function Reads<S, Row>(ts: seq<Target<S, Row>>): (r: seq<(nat, Row)>)
    ensures |r| == |ts| && forall i :: 0 <= i < |ts| ==> r[i] == (ts[i].id, ts[i].row)
  {
    seq(|ts|, i requires 0 <= i < |ts| => (ts[i].id, ts[i].row))
  }

  // The rows as they are written, with their IDs.
  ghost function Writes<S, Row>(ts: seq<Target<S, Row>>, write: (S, Row) -> Row): (r: seq<(nat, Row)>)
    ensures |r| == |ts| && forall i :: 0 <= i < |ts| ==> r[i] == (ts[i].id, write(ts[i].spec, ts[i].row))
  {
    seq(|ts|, i requires 0 <= i < |ts| => (ts[i].id, write(ts[i].spec, ts[i].row)))
  }

  ghost function CommitAll<S, Row>(rows: map<nat, Row>, ts: seq<Target<S, Row>>, write: (S, Row) -> Row): map<nat, Row>
    decreases |ts|
  {
    if ts == [] then rows
    else CommitAll(rows[ts[0].id := write(ts[0].spec, ts[0].row)], ts[1..], write)
  }

  // The specs without a row are written into fresh rows, numbered from `base` + 1.
  ghost function Added<S, Row>(add: seq<S>, base: nat, zero: Row): (r: seq<Target<S, Row>>)
    ensures |r| == |add| && forall i :: 0 <= i < |add| ==> r[i] == Target(add[i], base + 1 + i, zero)
  {
    seq(|add|, i requires 0 <= i < |add| => Target(add[i], base + 1 + i, zero))
  }

  ghost function Inserted<Row>(rows: map<nat, Row>, base: nat, n: nat, zero: Row): (r: map<nat, Row>)
    ensures forall id :: id in r <==> id in rows || base < id <= base + n
    ensures forall id :: id in r ==> r[id] == if base < id <= base + n then zero else rows[id]
  {
    if n == 0 then rows else Inserted(rows, base, n - 1, zero)[base + n := zero]
  }

  ghost function Dropped<Row>(rows: map<nat, Row>, drop: seq<(nat, Row)>): map<nat, Row> {
    rows - (set r | r in drop :: r.0)
  }

  ghost function Settled<S, Row>(rows: map<nat, Row>, base: nat, ts: seq<Target<S, Row>>, drop: seq<(nat, Row)>,
                                 add: seq<S>, write: (S, Row) -> Row, zero: Row): map<nat, Row>
  {
    CommitAll(Inserted(Dropped(rows, drop), base, |add|, zero), ts + Added(add, base, zero), write)
  }

  // Whether the writes change nothing.
  ghost predicate Idle<S, Row>(ts: seq<Target<S, Row>>, write: (S, Row) -> Row) {
    forall i :: 0 <= i < |ts| ==> write(ts[i].spec, ts[i].row) == ts[i].row
  }

  // Every target is a row of its own that still holds what was read.
  ghost predicate Targets<S, Row>(ts: seq<Target<S, Row>>, rows: map<nat, Row>) {
    NoDup(Ids(ts)) && forall i :: 0 <= i < |ts| ==> ts[i].id in rows && rows[ts[i].id] == ts[i].row
  }

  method DropAll<Row(==, !new)>(table: Table<Row>, drop: seq<(nat, Row)>)
    requires table.Valid()
    modifies table`rows, table`seqNo
    ensures table.Valid() && table.rows == Dropped(old(table.rows), drop)
    ensures table.seqNo == old(table.seqNo) + |drop|
  {
    for n := 0 to |drop|
      invariant table.Valid()
      invariant table.rows == Dropped(old(table.rows), drop[..n])
      invariant table.seqNo == old(table.seqNo) + n
    {
      table.Remove(drop[n].0);
      assert drop[..n + 1] == drop[..n] + [drop[n]];
    }
    assert drop[..|drop|] == drop;
  }

  method AddAll<S, Row(==, !new)>(table: Table<Row>, add: seq<S>, zero: Row) returns (ts: seq<Target<S, Row>>)
    requires table.Valid()
    modifies table
    ensures table.Valid() && old(table.issued) <= table.issued && table.idAlloc == old(table.idAlloc) + |add|
    ensures table.rows == Inserted(old(table.rows), old(table.idAlloc), |add|, zero)
    ensures table.seqNo == old(table.seqNo) + |add|
    ensures ts == Added(add, old(table.idAlloc), zero)
  {
    ts := [];
    for m := 0 to |add|
      invariant table.Valid() && old(table.issued) <= table.issued && table.idAlloc == old(table.idAlloc) + m
      invariant table.rows == Inserted(old(table.rows), old(table.idAlloc), m, zero)
      invariant table.seqNo == old(table.seqNo) + m
      invariant ts == Added(add[..m], old(table.idAlloc), zero)
    {
      var id := table.Insert(zero);
      ts := ts + [Target(add[m], id, zero)];
      assert add[..m + 1] == add[..m] + [add[m]];
    }
    assert add[..|add|] == add;
  }

  method CommitPairs<S, Row(==, !new)>(table: Table<Row>, ts: seq<Target<S, Row>>, write: (S, Row) -> Row)
    requires table.Valid() && Targets(ts, table.rows)
    modifies table`rows, table`seqNo
    ensures table.Valid()
    ensures table.rows == CommitAll(old(table.rows), ts, write)
    ensures old(table.seqNo) <= table.seqNo
    ensures Idle(ts, write) ==> table.seqNo == old(table.seqNo) && table.rows == old(table.rows)
  {
    for k := 0 to |ts|
      invariant table.Valid() && Targets(ts[k..], table.rows)
      invariant CommitAll(table.rows, ts[k..], write) == CommitAll(old(table.rows), ts, write)
      invariant old(table.seqNo) <= table.seqNo
      invariant Idle(ts, write) ==> table.seqNo == old(table.seqNo) && table.rows == old(table.rows)
    {
      assert ts[k..][0] == ts[k] && ts[k..][1..] == ts[k + 1..];
      TargetsTail(ts[k..], table.rows, write(ts[k].spec, ts[k].row));
      table.Commit(ts[k].id, write(ts[k].spec, ts[k].row));
    }
  }

  lemma TargetsTail<S, Row>(ts: seq<Target<S, Row>>, rows: map<nat, Row>, row: Row)
    requires ts != [] && Targets(ts, rows)
    ensures Targets(ts[1..], rows[ts[0].id := row])
  {
    forall i, j | 0 <= i < j < |ts| - 1 ensures Ids(ts[1..])[i] != Ids(ts[1..])[j] {
      assert Ids(ts)[i + 1] != Ids(ts)[j + 1];
    }
    forall i | 0 <= i < |ts| - 1 ensures ts[1..][i].id != ts[0].id {
      assert Ids(ts)[0] != Ids(ts)[i + 1];
    }
  }

  // Remove the lonely rows, insert rows for the lonely specs, commit every pair.
  method Settle<S, Row(==, !new)>(table: Table<Row>, ts: seq<Target<S, Row>>, drop: seq<(nat, Row)>,
                                  add: seq<S>, write: (S, Row) -> Row, zero: Row)
    requires table.Valid() && Targets(ts, table.rows)
    requires forall r, i :: r in drop && 0 <= i < |ts| ==> r.0 != ts[i].id
    modifies table
    ensures table.Valid() && old(table.issued) <= table.issued && table.idAlloc == old(table.idAlloc) + |add|
    ensures table.rows == Settled(old(table.rows), old(table.idAlloc), ts, drop, add, write, zero)
    ensures old(table.seqNo) <= table.seqNo
    ensures drop == [] && add == [] && Idle(ts, write) ==>
              table.seqNo == old(table.seqNo) && table.rows == old(table.rows)
  {
    DropAll(table, drop);
    var added := AddAll(table, add, zero);
    CommitTargets(ts, add, old(table.idAlloc), table.rows, zero);
    if add == [] { assert ts + added == ts; }
    CommitPairs(table, ts + added, write);
  }

  // The targets of all commits are distinct and hold what was read.
  lemma CommitTargets<S, Row>(ts: seq<Target<S, Row>>, add: seq<S>, base: nat, rows: map<nat, Row>, zero: Row)
    requires Targets(ts, rows) && forall i :: 0 <= i < |ts| ==> ts[i].id <= base
    requires forall id :: base < id <= base + |add| ==> id in rows && rows[id] == zero
    ensures Targets(ts + Added(add, base, zero), rows)
  {
    var all := ts + Added(add, base, zero);
    forall i, j | 0 <= i < j < |all| ensures Ids(all)[i] != Ids(all)[j] {
      if j < |ts| { assert Ids(ts)[i] != Ids(ts)[j]; }
    }
    forall i | 0 <= i < |all| ensures all[i].id in rows && rows[all[i].id] == all[i].row {
      if |ts| <= i { assert all[i] == Added(add, base, zero)[i - |ts|]; }
    }
  }
}
