/** Synchronisation of a cluster's machine rows with the cloud (cluster/cluster.go), over an
    ideal provider: every request succeeds, and machines keep their identity and addresses. */
module CloudSync {
  import opened Basics
  import opened Counting
  import opened GreedyJoin
  import opened Database
  import opened Reconcile

  datatype Kind = Kind(provider: string, region: string, size: string, diskSize: int)

  // A row of the machine table.  Cloud ID zero stands for the empty string.
  datatype Row = Row(kind: Kind, cloudID: nat, publicIP: string, privateIP: string)

  // A machine of the cloud, listed under its ID.
  datatype Instance = Instance(kind: Kind, publicIP: string, privateIP: string)

  // The old machines are still there, and beside them exactly the booted ones.
  ghost predicate Grown(before: map<nat, Instance>, after: map<nat, Instance>, booted: seq<(nat, Instance)>) {
    Lists(booted, after - before.Keys) && forall id :: id in before ==> id in after && after[id] == before[id]
  }

  lemma ListsMore<T>(s: seq<(nat, T)>, m: map<nat, T>, id: nat, x: T)
    requires Lists(s, m) && id !in m
    ensures Lists(s + [(id, x)], m[id := x])
  {
    assert Fsts(s + [(id, x)]) == Fsts(s) + [id];
  }

  // ---------------------------------------------------------------------------------
  // The provider
  // ---------------------------------------------------------------------------------

  class Cloud {
    var machines: map<nat, Instance>
    var lastID: nat

    ghost predicate Valid()
      reads this
    {
      forall id :: id in machines ==> 1 <= id <= lastID
    }

    constructor ()
      ensures Valid() && machines == map[]
    {
      machines, lastID := map[], 0;
    }

    method Get() returns (s: seq<(nat, Instance)>)
      ensures Lists(s, machines)
    {
      s := [];
      var rest := machines.Keys;
      while rest != {}
        invariant rest <= machines.Keys
        invariant Lists(s, machines - rest)
      {
        var id :| id in rest;
        ListsMore(s, machines - rest, id, machines[id]);
        assert (machines - rest)[id := machines[id]] == machines - (rest - {id});
        rest := rest - {id};
        s := s + [(id, machines[id])];
      }
      assert machines - rest == machines;
    }

    // New machines of the requested kinds, with IDs never used before and any addresses.
    method Boot(kinds: seq<Kind>) returns (ghost booted: seq<(nat, Instance)>)
      requires Valid()
      modifies this
      ensures Valid() && |booted| == |kinds| && forall i :: 0 <= i < |kinds| ==> booted[i].1.kind == kinds[i]
      ensures Grown(old(machines), machines, booted)
    {
      booted := [];
      for n := 0 to |kinds|
        invariant Valid() && |booted| == n && forall i :: 0 <= i < n ==> booted[i].1.kind == kinds[i]
        invariant old(lastID) <= lastID && Grown(old(machines), machines, booted)
      {
        var publicIP: string, privateIP: string := *, *;
        ghost var before, b := machines, booted;
        lastID := lastID + 1;
        machines := machines[lastID := Instance(kinds[n], publicIP, privateIP)];
        booted := booted + [(lastID, machines[lastID])];
        assert machines - old(machines).Keys == (before - old(machines).Keys)[lastID := machines[lastID]];
        ListsMore(b, before - old(machines).Keys, lastID, machines[lastID]);
      }
    }

    method Stop(ms: seq<(nat, Instance)>)
      requires Valid()
      modifies this`machines
      ensures Valid() && machines == Dropped(old(machines), ms)
    {
      for n := 0 to |ms|
        invariant Valid() && machines == Dropped(old(machines), ms[..n])
      {
        machines := machines - {ms[n].0};
        assert ms[..n + 1] == ms[..n] + [ms[n]];
      }
      assert ms[..|ms|] == ms;
    }
  }

  // ---------------------------------------------------------------------------------
  // One round
  // ---------------------------------------------------------------------------------

  // A machine may serve a row.  Attributes that the provider leaves out match anything.
  predicate Compatible(row: Kind, m: Kind) {
    && row.provider == m.provider && (m.region != "" ==> row.region == m.region)
    && (m.size != "" ==> row.size == m.size) && (m.diskSize != 0 ==> row.diskSize == m.diskSize)
  }

  function Score(l: (nat, Row), r: (nat, Instance)): (s: int)
    ensures 0 <= s <==> Compatible(l.1.kind, r.1.kind)
  {
    var dbm, m := l.1, r.1;
    if dbm.kind.provider != m.kind.provider then -1
    else if m.kind.region != "" && dbm.kind.region != m.kind.region then -1
    else if m.kind.size != "" && dbm.kind.size != m.kind.size then -1
    else if m.kind.diskSize != 0 && dbm.kind.diskSize != m.kind.diskSize then -1
    else if dbm.cloudID == r.0 then 0
    else if dbm.publicIP == m.publicIP then 1
    else if dbm.privateIP == m.privateIP then 2
    else 3
  }

  // What a matched machine reports into its row.
  function Report(r: (nat, Instance), row: Row): Row {
    Row(Kind(r.1.kind.provider, row.kind.region,
             if r.1.kind.size != "" then r.1.kind.size else row.kind.size,
             if r.1.kind.diskSize != 0 then r.1.kind.diskSize else row.kind.diskSize),
        r.0, r.1.publicIP, r.1.privateIP)
  }

  function KindsOf(s: seq<(nat, Row)>): (r: seq<Kind>)
    ensures |r| == |s| && forall i :: 0 <= i < |s| ==> r[i] == s[i].1.kind
  {
    Map(s, (x: (nat, Row)) => x.1.kind)
  }

  // Every attribute that decides about a match is given.
  predicate Explicit(k: Kind) { k.region != "" && k.size != "" && k.diskSize != 0 }

  ghost predicate AllExplicit(rows: map<nat, Row>, machines: map<nat, Instance>) {
    (forall id :: id in rows ==> Explicit(rows[id].kind)) && forall id :: id in machines ==> Explicit(machines[id].kind)
  }

  ghost function RowKindMap(rows: map<nat, Row>): map<nat, Kind> { map id | id in rows :: rows[id].kind }

  ghost function CloudKindMap(machines: map<nat, Instance>): map<nat, Kind> {
    map id | id in machines :: machines[id].kind
  }

  ghost function RowKinds(rows: map<nat, Row>): multiset<Kind> { Bag(RowKindMap(rows)) }

  ghost function CloudKinds(machines: map<nat, Instance>): multiset<Kind> { Bag(CloudKindMap(machines)) }

  // Each row knows a machine of its own, and no machine is without a row.
  ghost predicate Linked(rows: map<nat, Row>, machines: map<nat, Instance>) {
    && (forall id :: id in rows ==> rows[id].cloudID in machines && Agrees(rows[id], machines[rows[id].cloudID]))
    && (forall i, j :: i in rows && j in rows && i != j ==> rows[i].cloudID != rows[j].cloudID)
    && (forall m {:trigger IsKnown(rows, m)} :: m in machines ==> IsKnown(rows, m))
  }

  ghost predicate IsKnown(rows: map<nat, Row>, m: nat) { exists id :: id in rows && rows[id].cloudID == m }

  predicate Agrees(row: Row, m: Instance) {
    Compatible(row.kind, m.kind) && row.publicIP == m.publicIP && row.privateIP == m.privateIP
  }

  // A machine for every row and a row for every machine.
  ghost predicate Serves(to: map<nat, nat>, rows: map<nat, Row>, machines: map<nat, Instance>) {
    && to.Keys == rows.Keys
    && (forall id :: id in rows ==> to[id] in machines && Compatible(rows[id].kind, machines[to[id]].kind))
    && (forall i, j :: i in to && j in to && i != j ==> to[i] != to[j])
    && (forall m {:trigger IsTaken(to, m)} :: m in machines ==> IsTaken(to, m))
  }

  ghost predicate IsTaken(to: map<nat, nat>, m: nat) { exists id :: id in to && to[id] == m }

  ghost predicate Served(rows: map<nat, Row>, machines: map<nat, Instance>) { exists to :: Serves(to, rows, machines) }

  // No machine may serve rows of two kinds.
  ghost predicate Unambiguous(rows: map<nat, Row>, machines: map<nat, Instance>) {
    forall m, i, j :: OneKind(rows, machines, m, i, j)
  }

  ghost predicate OneKind(rows: map<nat, Row>, machines: map<nat, Instance>, m: nat, i: nat, j: nat) {
    m in machines && i in rows && j in rows ==>
      Compatible(rows[i].kind, machines[m].kind) && Compatible(rows[j].kind, machines[m].kind) ==>
        rows[i].kind == rows[j].kind
  }

  // What makes a round boot and stop nothing.
  ghost predicate AtRest(rows: map<nat, Row>, machines: map<nat, Instance>) {
    || (Served(rows, machines) && Unambiguous(rows, machines))
    || (AllExplicit(rows, machines) && CloudKinds(machines) == RowKinds(rows))
    || Linked(rows, machines)
  }

  // After any round there is a compatible machine for every row and none besides; then the
  // next one boots and stops nothing if no machine may serve rows of two kinds.  A round
  // that boots and stops nothing links every row to its machine, and once the rows are
  // linked nothing changes at all.  If all attributes are given, one round brings the cloud
  // to exactly the kinds of machines the table asks for, and then nothing is booted or
  // stopped.
  method Round(table: Table<Row>, cloud: Cloud)
    returns (bootSet: seq<Kind>, terminateSet: seq<(nat, Instance)>, ghost to: map<nat, nat>)
    requires table.Valid() && cloud.Valid()
    modifies table`rows, table`seqNo, cloud
    ensures table.Valid() && cloud.Valid()
    ensures table.rows.Keys == old(table.rows.Keys) && RowKinds(table.rows) == old(RowKinds(table.rows))
    ensures Serves(to, table.rows, cloud.machines)
    ensures old(AtRest(table.rows, cloud.machines)) ==> bootSet == [] && terminateSet == []
    ensures bootSet == [] && terminateSet == [] ==>
              cloud.machines == old(cloud.machines) && Linked(table.rows, cloud.machines)
    ensures old(Linked(table.rows, cloud.machines)) ==>
              table.rows == old(table.rows) && table.seqNo == old(table.seqNo)
    ensures old(AllExplicit(table.rows, cloud.machines)) ==>
              AllExplicit(table.rows, cloud.machines) && CloudKinds(cloud.machines) == RowKinds(table.rows)
  {
    ghost var rows, machines := table.rows, cloud.machines;
    var listing := cloud.Get();
    var sel := table.Select(_ => true);
    assert (map id | id in rows && true :: rows[id]) == rows;
    var pairs, dbms, cms := SyncDB(sel, listing, rows, machines);
    bootSet, terminateSet := KindsOf(dbms), cms;
    to := Update(table, cloud, sel, listing, pairs, dbms, cms);
  }

  // The matching of rows with machines.  The lonely rows are to be booted and the lonely
  // machines to be stopped.
  method SyncDB(sel: seq<(nat, Row)>, listing: seq<(nat, Instance)>, ghost rows: map<nat, Row>,
                ghost machines: map<nat, Instance>)
    returns (pairs: seq<((nat, Row), (nat, Instance))>, dbms: seq<(nat, Row)>, cms: seq<(nat, Instance)>)
    requires Lists(sel, rows) && Lists(listing, machines)
    ensures Matched(rows, machines, sel, listing, pairs, dbms, cms)
    ensures AtRest(rows, machines) ==> dbms == [] && cms == []
    ensures Linked(rows, machines) ==> Idle(OfLefts(pairs), Report)
  {
    pairs, dbms, cms := Join(sel, listing, Score);
    JoinMatches(rows, machines, sel, listing);
    if AtRest(rows, machines) { Resting(rows, machines, sel, listing); }
    if Linked(rows, machines) { Steady(rows, machines, sel, listing); }
  }

  // The commits of a round and its requests to the provider.
  method Update(table: Table<Row>, cloud: Cloud, ghost sel: seq<(nat, Row)>, ghost listing: seq<(nat, Instance)>,
                pairs: seq<((nat, Row), (nat, Instance))>, dbms: seq<(nat, Row)>, cms: seq<(nat, Instance)>)
    returns (ghost to: map<nat, nat>)
    requires table.Valid() && cloud.Valid()
    requires Matched(table.rows, cloud.machines, sel, listing, pairs, dbms, cms)
    modifies table`rows, table`seqNo, cloud
    ensures table.Valid() && cloud.Valid()
    ensures table.rows.Keys == old(table.rows.Keys) && RowKinds(table.rows) == old(RowKinds(table.rows))
    ensures Serves(to, table.rows, cloud.machines)
    ensures old(AllExplicit(table.rows, cloud.machines)) ==>
              AllExplicit(table.rows, cloud.machines) && CloudKinds(cloud.machines) == RowKinds(table.rows)
    ensures dbms == [] && cms == [] ==> cloud.machines == old(cloud.machines) && Linked(table.rows, cloud.machines)
    ensures Idle(OfLefts(pairs), Report) ==> table.rows == old(table.rows) && table.seqNo == old(table.seqNo)
  {
    ghost var rows, machines := table.rows, cloud.machines;
    RoundTargets(rows, machines, sel, listing, pairs, dbms, cms);
    CommitPairs(table, OfLefts(pairs), Report);
    ghost var booted := cloud.Boot(KindsOf(dbms));
    ghost var grown := cloud.machines;
    cloud.Stop(cms);
    assert InstanceKinds(booted) == KindsOf(dbms);
    RowsAfter(rows, machines, sel, listing, pairs, dbms, cms);
    to := Serving(rows, machines, grown, sel, listing, pairs, dbms, cms, booted);
    SameServed(to, rows, table.rows, cloud.machines);
    Updated(rows, machines, grown, sel, listing, pairs, dbms, cms, booted);
  }

  // The loop of sync.  With all attributes given, two rounds settle the cloud and link
  // every row, and the remaining six change nothing.
  method Sync(table: Table<Row>, cloud: Cloud) returns (ghost to: map<nat, nat>)
    requires table.Valid() && cloud.Valid()
    modifies table`rows, table`seqNo, cloud
    ensures table.Valid() && cloud.Valid() && RowKinds(table.rows) == old(RowKinds(table.rows))
    ensures Serves(to, table.rows, cloud.machines)
    ensures old(AllExplicit(table.rows, cloud.machines)) ==>
              CloudKinds(cloud.machines) == RowKinds(table.rows) && Linked(table.rows, cloud.machines)
  {
    ghost var explicit := AllExplicit(table.rows, cloud.machines);
    to := map[];
    for i := 0 to 8
      invariant table.Valid() && cloud.Valid() && RowKinds(table.rows) == old(RowKinds(table.rows))
      invariant 1 <= i ==> Serves(to, table.rows, cloud.machines)
      invariant explicit ==> AllExplicit(table.rows, cloud.machines)
      invariant explicit && 1 <= i ==> CloudKinds(cloud.machines) == RowKinds(table.rows)
      invariant explicit && 2 <= i ==> Linked(table.rows, cloud.machines)
    {
      var bootSet, terminateSet, t := Round(table, cloud);
      to := t;
    }
  }

  // ---------------------------------------------------------------------------------
  // Proofs
  // ---------------------------------------------------------------------------------

  // What a round's join says about rows and machines: both are split into matched and
  // lonely ones, and matched ones are compatible.
  ghost predicate Matched(rows: map<nat, Row>, machines: map<nat, Instance>, sel: seq<(nat, Row)>,
                          listing: seq<(nat, Instance)>,
                          pairs: seq<((nat, Row), (nat, Instance))>, dbms: seq<(nat, Row)>, cms: seq<(nat, Instance)>)
  {
    && Lists(sel, rows) && Lists(listing, machines)
    && multiset(sel) == multiset(Fsts(pairs)) + multiset(dbms)
    && multiset(listing) == multiset(Snds(pairs)) + multiset(cms)
    && forall i :: 0 <= i < |pairs| ==> Fitting(pairs[i])
  }

  ghost predicate Fitting(p: ((nat, Row), (nat, Instance))) { Compatible(p.0.1.kind, p.1.1.kind) }

  lemma Member<T>(s: seq<(nat, T)>, m: map<nat, T>, x: (nat, T))
    requires Lists(s, m) && x in s
    ensures x.0 in m && m[x.0] == x.1
  {
  }

  lemma JoinMatches(rows: map<nat, Row>, machines: map<nat, Instance>, sel: seq<(nat, Row)>,
                    listing: seq<(nat, Instance)>)
    requires Lists(sel, rows) && Lists(listing, machines)
    ensures var g := Greedy(sel, listing, Score); Matched(rows, machines, sel, listing, g.pairs, g.lefts, g.rights)
  {
    var g := Greedy(sel, listing, Score);
    Partition(sel, listing, Score);
    FromInputs(sel, listing, Score);
    NonNegative(sel, listing, Score);
    forall i | 0 <= i < |g.pairs| ensures Fitting(g.pairs[i]) {
      assert 0 <= Score(g.pairs[i].0, g.pairs[i].1);
    }
  }

  lemma RoundTargets(rows: map<nat, Row>, machines: map<nat, Instance>, sel: seq<(nat, Row)>,
                     listing: seq<(nat, Instance)>,
                     pairs: seq<((nat, Row), (nat, Instance))>, dbms: seq<(nat, Row)>, cms: seq<(nat, Instance)>)
    requires Matched(rows, machines, sel, listing, pairs, dbms, cms)
    ensures Targets(OfLefts(pairs), rows) && Splits(sel, OfLefts(pairs), dbms)
  {
    assert Reads(OfLefts(pairs)) == Fsts(pairs);
    SplitTargets(rows, rows, sel, OfLefts(pairs), dbms);
  }

  ghost function RowsOf(rows: map<nat, Row>, pairs: seq<((nat, Row), (nat, Instance))>): map<nat, Row> {
    CommitAll(rows, OfLefts(pairs), Report)
  }

  // The commits change no row's kind.
  lemma RowsAfter(rows: map<nat, Row>, machines: map<nat, Instance>, sel: seq<(nat, Row)>,
                  listing: seq<(nat, Instance)>,
                  pairs: seq<((nat, Row), (nat, Instance))>, dbms: seq<(nat, Row)>, cms: seq<(nat, Instance)>)
    requires Matched(rows, machines, sel, listing, pairs, dbms, cms)
    ensures var rows' := RowsOf(rows, pairs);
            && rows'.Keys == rows.Keys && (forall id :: id in rows' ==> rows'[id].kind == rows[id].kind)
            && RowKinds(rows') == RowKinds(rows)
  {
    var ts, rows' := OfLefts(pairs), RowsOf(rows, pairs);
    RoundTargets(rows, machines, sel, listing, pairs, dbms, cms);
    CommitAllAt(rows, ts, Report);
    forall id | id in rows' ensures id in rows && rows'[id].kind == rows[id].kind {
      if id in Ids(ts) {
        var i :| 0 <= i < |ts| && Ids(ts)[i] == id;
        assert Fitting(pairs[i]);
        assert rows'[ts[i].id] == Report(ts[i].spec, ts[i].row);
      }
    }
    assert RowKindMap(rows') == RowKindMap(rows);
  }

  lemma RowKindsListed(rows: map<nat, Row>, s: seq<(nat, Row)>)
    requires Lists(s, rows)
    ensures RowKinds(rows) == multiset(KindsOf(s))
  {
    var named := seq(|s|, i requires 0 <= i < |s| => (s[i].0, s[i].1.kind));
    assert Fsts(named) == Fsts(s) && Snds(named) == KindsOf(s);
    BagOfList(named, RowKindMap(rows));
  }

  ghost function InstanceKinds(s: seq<(nat, Instance)>): (r: seq<Kind>)
    ensures |r| == |s| && forall i :: 0 <= i < |s| ==> r[i] == s[i].1.kind
  {
    seq(|s|, i requires 0 <= i < |s| => s[i].1.kind)
  }

  lemma CloudKindsListed(machines: map<nat, Instance>, s: seq<(nat, Instance)>)
    requires Lists(s, machines)
    ensures CloudKinds(machines) == multiset(InstanceKinds(s))
  {
    var named := seq(|s|, i requires 0 <= i < |s| => (s[i].0, s[i].1.kind));
    assert Fsts(named) == Fsts(s) && Snds(named) == InstanceKinds(s);
    BagOfList(named, CloudKindMap(machines));
  }

  // What is left of the old machines, plus what was booted, has the kinds of the rows.
  lemma CloudAfter(rows: map<nat, Row>, machines: map<nat, Instance>, machines': map<nat, Instance>,
                   sel: seq<(nat, Row)>,
                   listing: seq<(nat, Instance)>, pairs: seq<((nat, Row), (nat, Instance))>, dbms: seq<(nat, Row)>,
                   cms: seq<(nat, Instance)>, booted: seq<(nat, Instance)>)
    requires Matched(rows, machines, sel, listing, pairs, dbms, cms) && AllExplicit(rows, machines)
    requires InstanceKinds(booted) == KindsOf(dbms) && Lists(Snds(pairs) + booted, machines')
    ensures CloudKinds(machines') == RowKinds(rows)
  {
    var now := Snds(pairs) + booted;
    forall i | 0 <= i < |pairs| ensures pairs[i].0.1.kind == pairs[i].1.1.kind {
      assert Fitting(pairs[i]) && Snds(pairs)[i] in multiset(listing);
      Member(listing, machines, pairs[i].1);
    }
    CloudKindsListed(machines', now);
    KindsAppend(pairs, dbms, booted);
    var kind := (x: (nat, Row)) => x.1.kind;
    MapSame(Fsts(pairs) + dbms, sel, kind);
    assert Map(sel, kind) == KindsOf(sel) && Map(Fsts(pairs) + dbms, kind) == KindsOf(Fsts(pairs) + dbms);
    RowKindsListed(rows, sel);
  }

  lemma KindsAppend(pairs: seq<((nat, Row), (nat, Instance))>, dbms: seq<(nat, Row)>, booted: seq<(nat, Instance)>)
    requires forall i :: 0 <= i < |pairs| ==> pairs[i].0.1.kind == pairs[i].1.1.kind
    requires InstanceKinds(booted) == KindsOf(dbms)
    ensures InstanceKinds(Snds(pairs) + booted) == KindsOf(Fsts(pairs) + dbms)
  {
    var a, b := InstanceKinds(Snds(pairs) + booted), KindsOf(Fsts(pairs) + dbms);
    forall i | 0 <= i < |a| ensures a[i] == b[i] {
      if |pairs| <= i { assert InstanceKinds(booted)[i - |pairs|] == KindsOf(dbms)[i - |pairs|]; }
    }
  }

  // Kinds that occur in the table are explicit, so the whole cloud is.
  lemma CloudExplicit(rows: map<nat, Row>, machines: map<nat, Instance>)
    requires (forall id :: id in rows ==> Explicit(rows[id].kind)) && CloudKinds(machines) == RowKinds(rows)
    ensures forall id :: id in machines ==> Explicit(machines[id].kind)
  {
    var ck, rk := CloudKindMap(machines), RowKindMap(rows);
    forall id | id in machines ensures Explicit(machines[id].kind) {
      BagRemove(ck, id);
      assert ck[id] in Bag(rk);
      BagHas(rk, ck[id]);
    }
  }

  lemma {:induction false} BagHas<T(!new)>(m: map<nat, T>, x: T)
    requires x in Bag(m)
    ensures exists k :: k in m && m[k] == x
    decreases |m|
  {
    var k := Pick(m.Keys);
    if m[k] != x {
      assert m.Keys == (m - {k}).Keys + {k};
      BagHas(m - {k}, x);
    }
  }

  // The cloud after booting and stopping lists exactly the matched and the new machines.
  lemma CloudNow(machines: map<nat, Instance>, grown: map<nat, Instance>, listing: seq<(nat, Instance)>,
                 kept: seq<(nat, Instance)>, cms: seq<(nat, Instance)>, booted: seq<(nat, Instance)>)
    requires Lists(listing, machines) && multiset(listing) == multiset(kept) + multiset(cms)
    requires Grown(machines, grown, booted)
    ensures Lists(kept + booted, Dropped(grown, cms))
  {
    var now, after := kept + booted, Dropped(grown, cms);
    KeptMachines(machines, listing, kept, cms);
    forall i | 0 <= i < |cms| ensures cms[i].0 in machines {
      assert cms[i] in multiset(listing);
      Member(listing, machines, cms[i]);
    }
    forall i | 0 <= i < |now| ensures now[i].0 in after && after[now[i].0] == now[i].1 {
      if |kept| <= i { assert now[i] == booted[i - |kept|]; }
    }
    forall id | id in after ensures id in Fsts(now) {
      if id in machines {
        KeptMachine(machines, listing, kept, cms, id);
        var j :| 0 <= j < |kept| && Fsts(kept)[j] == id;
        assert Fsts(now)[j] == id;
      } else {
        assert id in Fsts(booted);
        var j :| 0 <= j < |booted| && Fsts(booted)[j] == id;
        assert Fsts(now)[|kept| + j] == id;
      }
    }
  }

  // The state after a round's update.
  lemma Updated(rows: map<nat, Row>, machines: map<nat, Instance>, grown: map<nat, Instance>, sel: seq<(nat, Row)>,
                listing: seq<(nat, Instance)>, pairs: seq<((nat, Row), (nat, Instance))>, dbms: seq<(nat, Row)>,
                cms: seq<(nat, Instance)>, booted: seq<(nat, Instance)>)
    requires Matched(rows, machines, sel, listing, pairs, dbms, cms)
    requires InstanceKinds(booted) == KindsOf(dbms) && Grown(machines, grown, booted)
    ensures var rows', machines' := RowsOf(rows, pairs), Dropped(grown, cms);
            && (AllExplicit(rows, machines) ==>
                  AllExplicit(rows', machines') && CloudKinds(machines') == RowKinds(rows'))
            && (dbms == [] && cms == [] ==> machines' == machines && Linked(rows', machines'))
  {
    RowsAfter(rows, machines, sel, listing, pairs, dbms, cms);
    if AllExplicit(rows, machines) { CloudUpdated(rows, machines, grown, sel, listing, pairs, dbms, cms, booted); }
    if dbms == [] && cms == [] {
      NothingBooted(machines, grown, dbms, cms, booted);
      LinkAll(rows, machines, sel, listing, pairs);
    }
  }

  lemma CloudUpdated(rows: map<nat, Row>, machines: map<nat, Instance>, grown: map<nat, Instance>, sel: seq<(nat, Row)>,
                     listing: seq<(nat, Instance)>, pairs: seq<((nat, Row), (nat, Instance))>, dbms: seq<(nat, Row)>,
                     cms: seq<(nat, Instance)>, booted: seq<(nat, Instance)>)
    requires Matched(rows, machines, sel, listing, pairs, dbms, cms) && AllExplicit(rows, machines)
    requires InstanceKinds(booted) == KindsOf(dbms) && Grown(machines, grown, booted)
    ensures var machines' := Dropped(grown, cms);
            CloudKinds(machines') == RowKinds(rows) && forall id :: id in machines' ==> Explicit(machines'[id].kind)
  {
    var machines' := Dropped(grown, cms);
    CloudNow(machines, grown, listing, Snds(pairs), cms, booted);
    CloudAfter(rows, machines, machines', sel, listing, pairs, dbms, cms, booted);
    CloudExplicit(rows, machines');
  }

  lemma NothingBooted(machines: map<nat, Instance>, grown: map<nat, Instance>, dbms: seq<(nat, Row)>,
                      cms: seq<(nat, Instance)>, booted: seq<(nat, Instance)>)
    requires InstanceKinds(booted) == KindsOf(dbms) && Grown(machines, grown, booted)
    requires dbms == [] && cms == []
    ensures Dropped(grown, cms) == machines
  {
    assert |InstanceKinds(booted)| == 0;
    assert Fsts(booted) == [];
    assert forall id :: id in grown - machines.Keys ==> id in Fsts(booted);
    assert grown - machines.Keys == map[];
    assert forall id :: id in grown ==> id in machines || id in grown - machines.Keys;
    assert (set r | r in cms :: r.0) == {};
  }

  lemma KeptMachines(machines: map<nat, Instance>, listing: seq<(nat, Instance)>, kept: seq<(nat, Instance)>,
                     cms: seq<(nat, Instance)>)
    requires Lists(listing, machines) && multiset(listing) == multiset(kept) + multiset(cms)
    ensures DistinctIds(kept)
    ensures forall i :: 0 <= i < |kept| ==>
              kept[i].0 in machines && machines[kept[i].0] == kept[i].1 && kept[i].0 !in (set r | r in cms :: r.0)
  {
    DistinctPermutation(listing, kept + cms);
    forall i, j | 0 <= i < j < |kept| ensures kept[i].0 != kept[j].0 {
      assert (kept + cms)[i].0 != (kept + cms)[j].0;
    }
    forall i | 0 <= i < |kept|
      ensures kept[i].0 in machines && machines[kept[i].0] == kept[i].1 && kept[i].0 !in (set r | r in cms :: r.0)
    {
      assert kept[i] in multiset(listing);
      Member(listing, machines, kept[i]);
      forall j | 0 <= j < |cms| ensures cms[j].0 != kept[i].0 {
        assert (kept + cms)[i].0 != (kept + cms)[|kept| + j].0;
      }
    }
  }

  lemma KeptMachine(machines: map<nat, Instance>, listing: seq<(nat, Instance)>, kept: seq<(nat, Instance)>,
                    cms: seq<(nat, Instance)>, id: nat)
    requires Lists(listing, machines) && multiset(listing) == multiset(kept) + multiset(cms)
    requires id in machines && id !in (set r | r in cms :: r.0)
    ensures id in Fsts(kept)
  {
    assert id in Fsts(listing);
    var i :| 0 <= i < |listing| && Fsts(listing)[i] == id;
    assert listing[i] in multiset(listing);
    assert listing[i] !in cms;
    assert listing[i] in kept;
    var j :| 0 <= j < |kept| && kept[j] == listing[i];
    assert Fsts(kept)[j] == id;
  }

  // The matched machines and the booted ones serve the rows they were matched or booted
  // for.
  lemma Serving(rows: map<nat, Row>, machines: map<nat, Instance>, grown: map<nat, Instance>, sel: seq<(nat, Row)>,
                listing: seq<(nat, Instance)>, pairs: seq<((nat, Row), (nat, Instance))>, dbms: seq<(nat, Row)>,
                cms: seq<(nat, Instance)>, booted: seq<(nat, Instance)>) returns (to: map<nat, nat>)
    requires Matched(rows, machines, sel, listing, pairs, dbms, cms)
    requires InstanceKinds(booted) == KindsOf(dbms) && Grown(machines, grown, booted)
    ensures Serves(to, rows, Dropped(grown, cms))
  {
    var rs, ms := Fsts(pairs) + dbms, Snds(pairs) + booted;
    CloudNow(machines, grown, listing, Snds(pairs), cms, booted);
    ListsPermuted(sel, rs, rows);
    assert |InstanceKinds(booted)| == |KindsOf(dbms)|;
    forall i | 0 <= i < |rs| ensures Compatible(rs[i].1.kind, ms[i].1.kind) {
      if i < |pairs| {
        assert Fitting(pairs[i]);
      } else {
        assert InstanceKinds(booted)[i - |pairs|] == KindsOf(dbms)[i - |pairs|];
      }
    }
    ServingLists(rs, ms, rows, Dropped(grown, cms));
    to := Pairing(rs, ms, rows);
  }

  lemma ListsPermuted<T>(s: seq<(nat, T)>, t: seq<(nat, T)>, m: map<nat, T>)
    requires Lists(s, m) && multiset(t) == multiset(s)
    ensures Lists(t, m)
  {
    DistinctPermutation(s, t);
    forall i | 0 <= i < |t| ensures t[i].0 in m && m[t[i].0] == t[i].1 {
      assert t[i] in multiset(s);
      Member(s, m, t[i]);
    }
    forall id | id in m ensures id in Fsts(t) {
      assert id in Fsts(s);
      var i :| 0 <= i < |s| && Fsts(s)[i] == id;
      assert s[i] in multiset(t);
      var j :| 0 <= j < |t| && t[j] == s[i];
      assert Fsts(t)[j] == id;
    }
  }

  ghost function IndexOf(s: seq<nat>, x: nat): (i: nat)
    requires x in s
    ensures i < |s| && s[i] == x
  {
    var i :| 0 <= i < |s| && s[i] == x;
    i
  }

  ghost function Paired(rs: seq<(nat, Row)>, ms: seq<(nat, Instance)>, id: nat): nat
    requires id in Fsts(rs) && |rs| == |ms|
  {
    ms[IndexOf(Fsts(rs), id)].0
  }

  ghost function Pairing(rs: seq<(nat, Row)>, ms: seq<(nat, Instance)>, rows: map<nat, Row>): (to: map<nat, nat>)
    requires Lists(rs, rows) && |rs| == |ms|
    ensures to.Keys == rows.Keys && forall id :: id in to ==> to[id] == Paired(rs, ms, id)
  {
    map id | id in rows :: Paired(rs, ms, id)
  }

  lemma ServingLists(rs: seq<(nat, Row)>, ms: seq<(nat, Instance)>, rows: map<nat, Row>, machines: map<nat, Instance>)
    requires Lists(rs, rows) && Lists(ms, machines) && |rs| == |ms|
    requires forall i :: 0 <= i < |rs| ==> Compatible(rs[i].1.kind, ms[i].1.kind)
    ensures Serves(Pairing(rs, ms, rows), rows, machines)
  {
    var to := Pairing(rs, ms, rows);
    assert forall id :: id in rows ==> to[id] in machines && Compatible(rows[id].kind, machines[to[id]].kind) by {
      forall id | id in rows ensures to[id] in machines && Compatible(rows[id].kind, machines[to[id]].kind) {
        PairedFits(rs, ms, rows, machines, id);
      }
    }
    assert forall i, j :: i in to && j in to && i != j ==> to[i] != to[j] by {
      forall i, j | i in to && j in to && i != j ensures to[i] != to[j] {
        PairedApart(rs, ms, rows, machines, i, j);
      }
    }
    assert forall m :: m in machines ==> IsTaken(to, m) by {
      forall m | m in machines ensures IsTaken(to, m) {
        var id := PairedBack(rs, ms, rows, machines, m);
        assert to[id] == m;
      }
    }
  }

  lemma PairedApart(rs: seq<(nat, Row)>, ms: seq<(nat, Instance)>, rows: map<nat, Row>, machines: map<nat, Instance>,
                    i: nat, j: nat)
    requires Lists(rs, rows) && Lists(ms, machines) && |rs| == |ms| && i in rows && j in rows && i != j
    ensures Paired(rs, ms, i) != Paired(rs, ms, j)
  {
    var a, b := IndexOf(Fsts(rs), i), IndexOf(Fsts(rs), j);
    assert a != b && ms[a].0 != ms[b].0;
  }

  lemma PairedFits(rs: seq<(nat, Row)>, ms: seq<(nat, Instance)>, rows: map<nat, Row>, machines: map<nat, Instance>,
                   id: nat)
    requires Lists(rs, rows) && Lists(ms, machines) && |rs| == |ms| && id in rows
    requires forall i :: 0 <= i < |rs| ==> Compatible(rs[i].1.kind, ms[i].1.kind)
    ensures var m := Paired(rs, ms, id); m in machines && Compatible(rows[id].kind, machines[m].kind)
  {
    var i := IndexOf(Fsts(rs), id);
    assert rs[i].0 == id && rows[id] == rs[i].1 && ms[i].0 in machines && machines[ms[i].0] == ms[i].1;
  }

  lemma PairedBack(rs: seq<(nat, Row)>, ms: seq<(nat, Instance)>, rows: map<nat, Row>, machines: map<nat, Instance>,
                   m: nat)
    returns (id: nat)
    requires Lists(rs, rows) && Lists(ms, machines) && |rs| == |ms| && m in machines
    ensures id in rows && Paired(rs, ms, id) == m
  {
    assert m in Fsts(ms);
    var i :| 0 <= i < |ms| && Fsts(ms)[i] == m;
    id := rs[i].0;
    assert id == Fsts(rs)[i];
    var k := IndexOf(Fsts(rs), id);
    assert rs[k].0 == rs[i].0;
    assert k == i;
  }

  lemma SameServed(to: map<nat, nat>, rows: map<nat, Row>, rows': map<nat, Row>, machines: map<nat, Instance>)
    requires Serves(to, rows, machines) && rows'.Keys == rows.Keys
    requires forall id :: id in rows' ==> rows'[id].kind == rows[id].kind
    ensures Serves(to, rows', machines)
  {
  }

  // If table and cloud agree on the kinds, the join matches everything.
  lemma Settling(rows: map<nat, Row>, machines: map<nat, Instance>, sel: seq<(nat, Row)>, listing: seq<(nat, Instance)>)
    requires Lists(sel, rows) && Lists(listing, machines) && AllExplicit(rows, machines)
    requires CloudKinds(machines) == RowKinds(rows)
    ensures var g := Greedy(sel, listing, Score); g.lefts == [] && g.rights == []
  {
    var rk := (x: (nat, Row)) => x.1.kind;
    var ck := (x: (nat, Instance)) => x.1.kind;
    RowKindsListed(rows, sel);
    CloudKindsListed(machines, listing);
    assert Map(sel, rk) == KindsOf(sel) && Map(listing, ck) == InstanceKinds(listing);
    ScoreByKind(rows, machines, sel, listing, rk, ck);
    Perfect(sel, listing, Score, rk, ck);
  }

  lemma ScoreByKind(rows: map<nat, Row>, machines: map<nat, Instance>, sel: seq<(nat, Row)>,
                    listing: seq<(nat, Instance)>, rk: ((nat, Row)) -> Kind, ck: ((nat, Instance)) -> Kind)
    requires Lists(sel, rows) && Lists(listing, machines) && AllExplicit(rows, machines)
    requires (forall x :: rk(x) == x.1.kind) && forall x :: ck(x) == x.1.kind
    ensures Keyed(sel, listing, Score, rk, ck)
  {
    forall l, r | l in sel && r in listing ensures 0 <= Score(l, r) <==> rk(l) == ck(r) {
      Member(listing, machines, r);
    }
  }

  lemma Resting(rows: map<nat, Row>, machines: map<nat, Instance>, sel: seq<(nat, Row)>, listing: seq<(nat, Instance)>)
    requires Lists(sel, rows) && Lists(listing, machines) && AtRest(rows, machines)
    ensures var g := Greedy(sel, listing, Score); g.lefts == [] && g.rights == []
  {
    if Linked(rows, machines) {
      Steady(rows, machines, sel, listing);
    } else if AllExplicit(rows, machines) && CloudKinds(machines) == RowKinds(rows) {
      Settling(rows, machines, sel, listing);
    } else {
      var to :| Serves(to, rows, machines);
      SettlingServed(to, rows, machines, sel, listing);
    }
  }

  // So it does if every row is served and no machine may serve rows of two kinds.
  lemma SettlingServed(to: map<nat, nat>, rows: map<nat, Row>, machines: map<nat, Instance>, sel: seq<(nat, Row)>,
                       listing: seq<(nat, Instance)>)
    requires Lists(sel, rows) && Lists(listing, machines) && Serves(to, rows, machines) && Unambiguous(rows, machines)
    ensures var g := Greedy(sel, listing, Score); g.lefts == [] && g.rights == []
  {
    var rk := (x: (nat, Row)) => x.1.kind;
    var ck := (x: (nat, Instance)) => ServedKind(to, rows, machines, x.0);
    forall l, r | l in sel && r in listing ensures 0 <= Score(l, r) <==> rk(l) == ck(r) {
      Member(sel, rows, l);
      Member(listing, machines, r);
      FitsServed(to, rows, machines, l.0, r.0);
    }
    ServedKinds(to, rows, machines, sel, listing, rk, ck);
    Perfect(sel, listing, Score, rk, ck);
  }

  lemma FitsServed(to: map<nat, nat>, rows: map<nat, Row>, machines: map<nat, Instance>, id: nat, m: nat)
    requires Serves(to, rows, machines) && Unambiguous(rows, machines) && id in rows && m in machines
    ensures Compatible(rows[id].kind, machines[m].kind) <==> rows[id].kind == ServedKind(to, rows, machines, m)
  {
    var row := ServedBy(to, rows, machines, m);
    assert Compatible(rows[row].kind, machines[m].kind) && OneKind(rows, machines, m, id, row);
  }

  // The kind of the row that a machine serves.
  ghost function ServedKind(to: map<nat, nat>, rows: map<nat, Row>, machines: map<nat, Instance>, m: nat): Kind
    requires Serves(to, rows, machines)
  {
    if m in machines then rows[ServedBy(to, rows, machines, m)].kind else Kind("", "", "", 0)
  }

  ghost function ServedBy(to: map<nat, nat>, rows: map<nat, Row>, machines: map<nat, Instance>, m: nat): (id: nat)
    requires Serves(to, rows, machines) && m in machines
    ensures id in rows && to[id] == m
  {
    assert IsTaken(to, m);
    var id :| id in to && to[id] == m;
    id
  }

  lemma ServedKinds(to: map<nat, nat>, rows: map<nat, Row>, machines: map<nat, Instance>, sel: seq<(nat, Row)>,
                    listing: seq<(nat, Instance)>, rk: ((nat, Row)) -> Kind, ck: ((nat, Instance)) -> Kind)
    requires Lists(sel, rows) && Lists(listing, machines) && Serves(to, rows, machines)
    requires (forall x :: rk(x) == x.1.kind) && forall x :: ck(x) == ServedKind(to, rows, machines, x.0)
    ensures multiset(Map(sel, rk)) == multiset(Map(listing, ck))
  {
    var order := seq(|listing|, i requires 0 <= i < |listing| => ServedRow(to, rows, machines, listing, i));
    ServedOrder(to, rows, machines, listing, order);
    RowKindsListed(rows, sel);
    RowKindsListed(rows, order);
    assert Map(sel, rk) == KindsOf(sel) && Map(listing, ck) == KindsOf(order);
  }

  ghost function ServedRow(to: map<nat, nat>, rows: map<nat, Row>, machines: map<nat, Instance>,
                           listing: seq<(nat, Instance)>, i: nat): (r: (nat, Row))
    requires Serves(to, rows, machines) && Lists(listing, machines) && i < |listing|
    ensures r.0 in rows && rows[r.0] == r.1 && to[r.0] == listing[i].0
    ensures r.1.kind == ServedKind(to, rows, machines, listing[i].0)
  {
    var id := ServedBy(to, rows, machines, listing[i].0);
    (id, rows[id])
  }

  // The rows in the order of their machines.
  lemma ServedOrder(to: map<nat, nat>, rows: map<nat, Row>, machines: map<nat, Instance>, listing: seq<(nat, Instance)>,
                    order: seq<(nat, Row)>)
    requires Serves(to, rows, machines) && Lists(listing, machines) && |order| == |listing|
    requires forall i :: 0 <= i < |listing| ==> order[i] == ServedRow(to, rows, machines, listing, i)
    ensures Lists(order, rows)
  {
    forall id | id in rows ensures id in Fsts(order) {
      assert to[id] in Fsts(listing);
      var i :| 0 <= i < |listing| && Fsts(listing)[i] == to[id];
      assert Fsts(order)[i] == id;
    }
  }

  // A join that matches everything links every row to a machine of its own.
  lemma LinkAll(rows: map<nat, Row>, machines: map<nat, Instance>, sel: seq<(nat, Row)>, listing: seq<(nat, Instance)>,
                pairs: seq<((nat, Row), (nat, Instance))>)
    requires Matched(rows, machines, sel, listing, pairs, [], [])
    ensures Linked(RowsOf(rows, pairs), machines)
  {
    var ts, rows' := OfLefts(pairs), RowsOf(rows, pairs);
    RoundTargets(rows, machines, sel, listing, pairs, [], []);
    CommitAllAt(rows, ts, Report);
    KeptMachines(machines, listing, Snds(pairs), []);
    forall id | id in rows' ensures id in Ids(ts) {
      KeptIsTarget(rows, sel, ts, [], id);
    }
    PairsLink(rows', machines, pairs, ts);
    forall m | m in machines ensures IsKnown(rows', m) {
      KeptMachine(machines, listing, Snds(pairs), [], m);
      var i :| 0 <= i < |pairs| && Fsts(Snds(pairs))[i] == m;
      assert ts[i].id in rows' && rows'[ts[i].id].cloudID == m;
    }
  }

  lemma PairsLink(rows': map<nat, Row>, machines: map<nat, Instance>, pairs: seq<((nat, Row), (nat, Instance))>,
                  ts: seq<Target<(nat, Instance), Row>>)
    requires ts == OfLefts(pairs) && forall i :: 0 <= i < |pairs| ==> Fitting(pairs[i])
    requires forall i :: 0 <= i < |ts| ==> ts[i].id in rows' && rows'[ts[i].id] == Report(ts[i].spec, ts[i].row)
    requires forall id :: id in rows' ==> id in Ids(ts)
    requires DistinctIds(Snds(pairs))
    requires forall i :: 0 <= i < |pairs| ==> pairs[i].1.0 in machines && machines[pairs[i].1.0] == pairs[i].1.1
    ensures forall id :: id in rows' ==> rows'[id].cloudID in machines && Agrees(rows'[id], machines[rows'[id].cloudID])
    ensures forall i, j :: i in rows' && j in rows' && i != j ==> rows'[i].cloudID != rows'[j].cloudID
    ensures forall i :: 0 <= i < |ts| ==> rows'[ts[i].id].cloudID == pairs[i].1.0
  {
    forall id | id in rows' ensures rows'[id].cloudID in machines && Agrees(rows'[id], machines[rows'[id].cloudID]) {
      var i :| 0 <= i < |ts| && Ids(ts)[i] == id;
      assert Fitting(pairs[i]);
    }
    forall a, b | a in rows' && b in rows' && a != b ensures rows'[a].cloudID != rows'[b].cloudID {
      var i :| 0 <= i < |ts| && Ids(ts)[i] == a;
      var j :| 0 <= j < |ts| && Ids(ts)[j] == b;
      assert Snds(pairs)[i].0 != Snds(pairs)[j].0;
    }
  }

  // If every row is linked, each finds its own machine with score zero and reports nothing
  // new.
  lemma Steady(rows: map<nat, Row>, machines: map<nat, Instance>, sel: seq<(nat, Row)>, listing: seq<(nat, Instance)>)
    requires Lists(sel, rows) && Lists(listing, machines) && Linked(rows, machines)
    ensures var g := Greedy(sel, listing, Score); g.lefts == [] && g.rights == [] && Idle(OfLefts(g.pairs), Report)
  {
    var g := Greedy(sel, listing, Score);
    var rid := (x: (nat, Row)) => x.1.cloudID;
    var mid := (x: (nat, Instance)) => x.0;
    ScoreByID(rows, machines, sel, listing);
    SameIDs(rows, machines, sel, listing, rid, mid);
    Exact(sel, listing, Score, rid, mid);
    FromInputs(sel, listing, Score);
    forall i | 0 <= i < |g.pairs| ensures Report(g.pairs[i].1, g.pairs[i].0.1) == g.pairs[i].0.1 {
      Member(sel, rows, g.pairs[i].0);
      Member(listing, machines, g.pairs[i].1);
      assert rid(g.pairs[i].0) == mid(g.pairs[i].1);
    }
  }

  lemma ScoreByID(rows: map<nat, Row>, machines: map<nat, Instance>, sel: seq<(nat, Row)>,
                  listing: seq<(nat, Instance)>)
    requires Lists(sel, rows) && Lists(listing, machines) && Linked(rows, machines)
    ensures forall l, r :: l in sel && r in listing ==> (Score(l, r) == 0 <==> l.1.cloudID == r.0)
  {
    forall l, r | l in sel && r in listing ensures Score(l, r) == 0 <==> l.1.cloudID == r.0 {
      Member(sel, rows, l);
      Member(listing, machines, r);
    }
  }

  lemma SameIDs(rows: map<nat, Row>, machines: map<nat, Instance>, sel: seq<(nat, Row)>, listing: seq<(nat, Instance)>,
                rid: ((nat, Row)) -> nat, mid: ((nat, Instance)) -> nat)
    requires Lists(sel, rows) && Lists(listing, machines) && Linked(rows, machines)
    requires (forall x :: rid(x) == x.1.cloudID) && forall x :: mid(x) == x.0
    ensures multiset(Map(sel, rid)) == multiset(Map(listing, mid))
  {
    var s, t := Map(sel, rid), Map(listing, mid);
    forall i, j | 0 <= i < j < |s| ensures s[i] != s[j] {
      assert sel[i].0 in rows && sel[j].0 in rows && sel[i].0 != sel[j].0;
    }
    forall i, j | 0 <= i < j < |t| ensures t[i] != t[j] {}
    forall x | x in s ensures x in t {
      var i :| 0 <= i < |s| && s[i] == x;
      assert sel[i].0 in rows && x in machines;
      assert x in Fsts(listing);
      var j :| 0 <= j < |listing| && Fsts(listing)[j] == x;
      assert t[j] == x;
    }
    forall x | x in t ensures x in s {
      var j :| 0 <= j < |t| && t[j] == x;
      assert listing[j].0 in machines;
      assert IsKnown(rows, x);
      var id :| id in rows && rows[id].cloudID == x;
      assert id in Fsts(sel);
      var i :| 0 <= i < |sel| && Fsts(sel)[i] == id;
      assert s[i] == x;
    }
    SameElements(s, t);
  }

  lemma SameElements(s: seq<nat>, t: seq<nat>)
    requires NoDup(s) && NoDup(t) && forall x :: x in s <==> x in t
    ensures multiset(s) == multiset(t)
  {
    NoDupCounts(s);
    NoDupCounts(t);
    forall x ensures multiset(s)[x] == multiset(t)[x] {
      assert x in s <==> x in multiset(s);
      assert x in t <==> x in multiset(t);
    }
  }

  // Where a provider leaves an attribute out, the next round need not be idle: after a
  // first round that boots a small machine, the second gives the one of unknown size, which
  // serves the large row, to the small row, boots a large one and stops the small one.
  lemma UnknownSize() returns (small: Row, large: Row, m1: (nat, Instance), m2: (nat, Instance))
    ensures m1.1.kind.size == "" && Explicit(small.kind) && Explicit(large.kind) && m2.1.kind == small.kind
    ensures Greedy([(2, large), (1, small)], [m1], Score) == Joined([((2, large), m1)], [(1, small)], [])
    ensures var large' := Report(m1, large);
            Greedy([(1, small), (2, large')], [m1, m2], Score) == Joined([((1, small), m1)], [(2, large')], [m2])
  {
    small := Row(Kind("p", "r", "small", 1), 0, "", "");
    large := Row(Kind("p", "r", "large", 1), 0, "", "");
    m1 := (1, Instance(Kind("p", "r", "", 1), "a", "b"));
    m2 := (2, Instance(small.kind, "c", "d"));
    assert "small" != "large" by { assert "small"[0] != "large"[0]; }
    assert "" != "a" && "" != "b" && "" != "c" && "" != "d";
    FirstFree((2, large), (1, small), m1);
    Stolen((1, small), (2, Report(m1, large)), m1, m2);
  }

  lemma FirstFree(l: (nat, Row), k: (nat, Row), m: (nat, Instance))
    requires Score(l, m) == 3
    ensures Greedy([l, k], [m], Score) == Joined([(l, m)], [k], [])
  {
    FirstTaken(l, [k], m, []);
    NoneTaken(k, []);
    assert [l] + [k] == [l, k] && [m] + [] == [m];
  }

  lemma Stolen(l: (nat, Row), k: (nat, Row), m: (nat, Instance), n: (nat, Instance))
    requires Score(l, m) == 3 == Score(l, n) && Score(k, n) < 0
    ensures Greedy([l, k], [m, n], Score) == Joined([(l, m)], [k], [n])
  {
    FirstTaken(l, [k], m, [n]);
    NoneTaken(k, [n]);
    assert [l] + [k] == [l, k] && [m] + [n] == [m, n];
  }

  // A row that scores three with the first machine and no less with any other takes it.
  lemma FirstTaken(l: (nat, Row), ls: seq<(nat, Row)>, r: (nat, Instance), rs: seq<(nat, Instance)>)
    requires |rs| <= 1 && Score(l, r) == 3 && forall x :: x in rs ==> Score(l, x) == 3 || Score(l, x) < 0
    ensures var g := Greedy(ls, rs, Score);
            Greedy([l] + ls, [r] + rs, Score) == Joined([(l, r)] + g.pairs, g.lefts, g.rights)
  {
    var all := [r] + rs;
    assert ([l] + ls)[1..] == ls;
    assert BestUpTo(l, all, Score, 1) == 0;
    assert Best(l, all, Score) == 0;
    assert SwapDelete(all, 0) == rs;
  }

  lemma NoneTaken(l: (nat, Row), rs: seq<(nat, Instance)>)
    requires |rs| <= 1 && forall x :: x in rs ==> Score(l, x) < 0
    ensures Greedy([l], rs, Score) == Joined([], [l], rs)
  {
    assert [l][1..] == [];
    assert Best(l, rs, Score) < 0;
  }
}
