/** The reconcilers of the connection table (minion/engine.go, updateConnections) and of the
    label table (minion/network/store.go, readLabelTransact). */
module Connections {
  import opened Counting
  import opened GreedyJoin
  import opened Database
  import opened Reconcile

  // ---------------------------------------------------------------------------------
  // Connections
  // ---------------------------------------------------------------------------------

  datatype Connection = Connection(from: string, to: string, min: int, max: int)

  const NoConnection := Connection("", "", 0, 0)

  // An equal row scores zero, any other row can still be reused.
  function ConnectionScore(l: Connection, r: (nat, Connection)): int { if l == r.1 then 0 else 1 }

  function WriteConnection(l: Connection, row: Connection): Connection { l }

  // The table ends up with exactly the connections of the spec, one row each, whatever it
  // held before and in whatever order its rows are read; and if it already held them,
  // nothing changes, not even the table's change counter.
  method UpdateConnections(table: Table<Connection>, spec: seq<Connection>)
    requires table.Valid()
    modifies table
    ensures table.Valid() && old(table.issued) <= table.issued
    ensures Bag(table.rows) == multiset(spec)
    ensures old(Bag(table.rows)) == multiset(spec) ==> table.rows == old(table.rows) && table.seqNo == old(table.seqNo)
  {
    var sel := table.Select(_ => true);
    ghost var rows := table.rows;
    assert (map id | id in rows && true :: rows[id]) == rows;
    var pairs, add, drop := Join(spec, sel, ConnectionScore);
    RightsSplit(spec, sel, ConnectionScore);
    var ts := OfRights(pairs);
    SplitTargets(rows, rows, sel, ts, drop);
    ConnectionsContents(rows, table.idAlloc, spec, sel);
    if Bag(rows) == multiset(spec) { ConnectionsExact(rows, spec, sel); }
    Settle(table, ts, drop, add, WriteConnection, NoConnection);
  }

  lemma ConnectionsContents(rows: map<nat, Connection>, base: nat, spec: seq<Connection>, sel: seq<(nat, Connection)>)
    requires Lists(sel, rows) && forall id :: id in rows ==> id <= base
    ensures var g := Greedy(spec, sel, ConnectionScore);
            Bag(Settled(rows, base, OfRights(g.pairs), g.rights, g.lefts, WriteConnection, NoConnection)) ==
              multiset(spec)
  {
    var g := Greedy(spec, sel, ConnectionScore);
    RightsSplit(spec, sel, ConnectionScore);
    WholeTable(rows, base, sel, OfRights(g.pairs), g.rights, g.lefts, WriteConnection, NoConnection, spec, l => l);
    assert Map(spec, (l: Connection) => l) == spec;
  }

  // On a table that already holds the spec, the join finds an equal row for everything.
  lemma ConnectionsExact(rows: map<nat, Connection>, spec: seq<Connection>, sel: seq<(nat, Connection)>)
    requires Lists(sel, rows) && Bag(rows) == multiset(spec)
    ensures var g := Greedy(spec, sel, ConnectionScore);
            g.lefts == [] && g.rights == [] && Idle(OfRights(g.pairs), WriteConnection)
  {
    BagOfList(sel, rows);
    var row := (r: (nat, Connection)) => r.1;
    var same := (l: Connection) => l;
    assert Map(sel, row) == Snds(sel) && Map(spec, same) == spec;
    Exact(spec, sel, ConnectionScore, same, row);
  }

  // ---------------------------------------------------------------------------------
  // Labels
  // ---------------------------------------------------------------------------------

  datatype LabelRow = LabelRow(name: string, ip: string, multiHost: bool)

  const NoLabel := LabelRow("", "", false)

  type Directory = map<string, map<string, string>>

  // A missing entry reads as the empty string.
  function Entry(dir: Directory, key: string, file: string): string {
    if key in dir && file in dir[key] then dir[key][file] else ""
  }

  // The row for a directory key.
  function LabelOf(dir: Directory, key: string): LabelRow {
    LabelRow(key, Entry(dir, key, "IP"), key in dir && "MultiHost" in dir[key])
  }

  function LabelScore(l: (nat, LabelRow), key: string): int { if l.1.name == key then 0 else 1 }

  // directory.keys: the keys in the arbitrary order of a map iteration.
  method Keys(dir: Directory) returns (keys: seq<string>)
    ensures multiset(keys) == multiset(dir.Keys)
  {
    keys := [];
    var rest := dir.Keys;
    while rest != {}
      invariant rest <= dir.Keys
      invariant multiset(keys) == multiset(dir.Keys - rest)
    {
      var k :| k in rest;
      rest := rest - {k};
      assert dir.Keys - rest == (dir.Keys - (rest + {k})) + {k};
      keys := keys + [k];
    }
    assert dir.Keys - rest == dir.Keys;
  }

  // The rows a directory calls for.
  ghost function LabelRows(dir: Directory, keys: seq<string>): (r: seq<LabelRow>)
    ensures |r| == |keys| && forall i :: 0 <= i < |keys| ==> r[i] == LabelOf(dir, keys[i])
  {
    Map(keys, k => LabelOf(dir, k))
  }

  lemma LabelRowsSame(dir: Directory, s: seq<string>, t: seq<string>)
    requires multiset(s) == multiset(t)
    ensures multiset(LabelRows(dir, s)) == multiset(LabelRows(dir, t))
  {
    var toRow := (k: string) => LabelOf(dir, k);
    MapSame(s, t, toRow);
    assert Map(s, toRow) == LabelRows(dir, s) && Map(t, toRow) == LabelRows(dir, t);
  }

  // The table ends up with exactly one row for every key of the directory, carrying its
  // address and its MultiHost mark; and if it already did, nothing changes.
  method ReadLabelTransact(table: Table<LabelRow>, dir: Directory, ghost anyOrder: seq<string>)
    requires table.Valid() && multiset(anyOrder) == multiset(dir.Keys)
    modifies table
    ensures table.Valid() && old(table.issued) <= table.issued
    ensures Bag(table.rows) == multiset(LabelRows(dir, anyOrder))
    ensures old(Bag(table.rows)) == multiset(LabelRows(dir, anyOrder))
            ==> table.rows == old(table.rows) && table.seqNo == old(table.seqNo)
  {
    var sel := table.Select(_ => true);
    ghost var rows := table.rows;
    assert (map id | id in rows && true :: rows[id]) == rows;
    var keys := Keys(dir);
    var pairs, drop, add := Join(sel, keys, LabelScore);
    LeftsSplit(sel, keys, LabelScore);
    var ts := OfLefts(pairs);
    SplitTargets(rows, rows, sel, ts, drop);
    LabelsContents(dir, rows, table.idAlloc, keys, sel);
    LabelRowsSame(dir, keys, anyOrder);
    if Bag(rows) == multiset(LabelRows(dir, keys)) { LabelsExact(dir, rows, keys, sel); }
    Settle(table, ts, drop, add, (k, row) => LabelOf(dir, k), NoLabel);
  }

  lemma LabelsContents(dir: Directory, rows: map<nat, LabelRow>, base: nat, keys: seq<string>,
                       sel: seq<(nat, LabelRow)>)
    requires Lists(sel, rows) && forall id :: id in rows ==> id <= base
    ensures var g := Greedy(sel, keys, LabelScore);
            var write := (k: string, row: LabelRow) => LabelOf(dir, k);
            Bag(Settled(rows, base, OfLefts(g.pairs), g.lefts, g.rights, write, NoLabel)) ==
              multiset(LabelRows(dir, keys))
  {
    var g := Greedy(sel, keys, LabelScore);
    var write := (k: string, row: LabelRow) => LabelOf(dir, k);
    var toRow := (k: string) => LabelOf(dir, k);
    LeftsSplit(sel, keys, LabelScore);
    WholeTable(rows, base, sel, OfLefts(g.pairs), g.lefts, g.rights, write, NoLabel, keys, toRow);
    assert Map(keys, toRow) == LabelRows(dir, keys);
  }

  lemma LabelsExact(dir: Directory, rows: map<nat, LabelRow>, keys: seq<string>, sel: seq<(nat, LabelRow)>)
    requires Lists(sel, rows) && Bag(rows) == multiset(LabelRows(dir, keys))
    ensures var g := Greedy(sel, keys, LabelScore);
            && g.lefts == [] && g.rights == []
            && Idle(OfLefts(g.pairs), (k: string, row: LabelRow) => LabelOf(dir, k))
  {
    var rowName := (r: (nat, LabelRow)) => r.1.name;
    var same := (k: string) => k;
    SameNames(dir, rows, keys, sel, rowName, same);
    Exact(sel, keys, LabelScore, rowName, same);
    var g := Greedy(sel, keys, LabelScore);
    FromInputs(sel, keys, LabelScore);
    forall i | 0 <= i < |g.pairs| ensures LabelOf(dir, g.pairs[i].1) == g.pairs[i].0.1 {
      assert rowName(g.pairs[i].0) == same(g.pairs[i].1);
      RowOfDirectory(dir, rows, keys, sel, g.pairs[i].0);
    }
  }

  lemma SameNames(dir: Directory, rows: map<nat, LabelRow>, keys: seq<string>, sel: seq<(nat, LabelRow)>,
                  rowName: ((nat, LabelRow)) -> string, same: string -> string)
    requires Lists(sel, rows) && Bag(rows) == multiset(LabelRows(dir, keys))
    requires (forall r :: rowName(r) == r.1.name) && forall k :: same(k) == k
    ensures multiset(Map(sel, rowName)) == multiset(Map(keys, same))
  {
    var name := (r: LabelRow) => r.name;
    BagOfList(sel, rows);
    MapSame(Snds(sel), LabelRows(dir, keys), name);
    assert Map(Snds(sel), name) == Map(sel, rowName);
    assert Map(LabelRows(dir, keys), name) == Map(keys, same);
  }

  lemma RowOfDirectory(dir: Directory, rows: map<nat, LabelRow>, keys: seq<string>, sel: seq<(nat, LabelRow)>,
                       r: (nat, LabelRow))
    requires Lists(sel, rows) && Bag(rows) == multiset(LabelRows(dir, keys)) && r in sel
    ensures r.1 == LabelOf(dir, r.1.name)
  {
    BagOfList(sel, rows);
    var j :| 0 <= j < |sel| && sel[j] == r;
    assert Snds(sel)[j] in multiset(LabelRows(dir, keys));
  }
}
