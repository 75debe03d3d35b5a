/** The machine reconciler of the policy engine (engine/engine.go). */
module Machines {
  import opened Counting
  import opened GreedyJoin
  import opened Database
  import opened Reconcile

  datatype Role = NoRole | Worker | Master

  // What the policy decides about a machine.
  datatype Policy = Policy(role: Role, provider: string, region: string, size: string, diskSize: int,
                           sshKeys: seq<string>)

  // A row of the machine table; the last three fields come from the cloud provider.
  datatype Machine = Machine(clusterID: int, policy: Policy, cloudID: string, publicIP: string, privateIP: string)

  const NoMachine := Machine(0, Policy(NoRole, "", "", "", 0, []), "", "", "")

  ghost predicate Bootable(spec: seq<Policy>) {
    (exists m :: m in spec && m.role.Master?) && (exists m :: m in spec && m.role.Worker?)
  }

  // There must be at least one master and one worker.
  method CanBoot(spec: seq<Policy>) returns (ok: bool)
    ensures ok <==> Bootable(spec)
  {
    var hasMaster, hasWorker := false, false;
    for i := 0 to |spec|
      invariant hasMaster <==> exists m :: m in spec[..i] && m.role.Master?
      invariant hasWorker <==> exists m :: m in spec[..i] && m.role.Worker?
    {
      hasMaster := hasMaster || spec[i].role.Master?;
      hasWorker := hasWorker || spec[i].role.Worker?;
      assert spec[..i + 1] == spec[..i] + [spec[i]];
    }
    assert spec[..|spec|] == spec;
    return hasMaster && hasWorker;
  }

  function Score(l: Policy, r: (nat, Machine)): int {
    var m := r.1;
    if m.policy.provider != l.provider then -1
    else if m.policy.region != l.region then -1
    else if m.policy.size != "" && l.size != m.policy.size then -1
    else if !m.policy.role.NoRole? && m.policy.role != l.role then -1
    else if m.policy.diskSize != l.diskSize then -1
    else if m.privateIP == "" then 2
    else if m.publicIP == "" then 1
    else 0
  }

  function Write(clusterID: int, l: Policy, m: Machine): Machine { m.(clusterID := clusterID, policy := l) }

  ghost function Cluster(rows: map<nat, Machine>, clusterID: int): map<nat, Machine> {
    map id | id in rows && rows[id].clusterID == clusterID :: rows[id]
  }

  // The machines to aim for: none at all unless the spec can boot.
  ghost function Wanted(spec: seq<Policy>): seq<Policy> { if Bootable(spec) then spec else [] }

  // The policies of a cluster's rows.
  ghost function PolicyMap(rows: map<nat, Machine>, clusterID: int): map<nat, Policy> {
    map id | id in Cluster(rows, clusterID) :: rows[id].policy
  }

  ghost function Policies(rows: map<nat, Machine>, clusterID: int): multiset<Policy> {
    Bag(PolicyMap(rows, clusterID))
  }

  // A kept row keeps what the cloud provider reported.
  ghost predicate CloudKept(before: map<nat, Machine>, after: map<nat, Machine>) {
    forall id :: id in before && id in after ==>
      after[id].cloudID == before[id].cloudID
      && after[id].publicIP == before[id].publicIP && after[id].privateIP == before[id].privateIP
  }

  // A row that was removed although a row it could have stood in for was kept was no better
  // a match: `l` is the policy now held by the kept row.
  ghost predicate NoBetterRemoved(before: map<nat, Machine>, after: map<nat, Machine>, clusterID: int) {
    forall kept, gone ::
      && kept in Cluster(before, clusterID) && kept in after
      && gone in Cluster(before, clusterID) && gone !in after
      && 0 <= Score(after[kept].policy, (gone, before[gone]))
      ==> 0 <= Score(after[kept].policy, (kept, before[kept])) <= Score(after[kept].policy, (gone, before[gone]))
  }

  // Every row says which machines it stands for.
  ghost predicate Explicit(rows: map<nat, Machine>) {
    forall id :: id in rows ==> !rows[id].policy.role.NoRole? && rows[id].policy.size != ""
  }

  // The cluster's rows carry exactly the wanted policies, kept rows keep their cloud fields,
  // and the rows of other clusters are untouched.
  ghost predicate Contents(before: map<nat, Machine>, after: map<nat, Machine>, wanted: seq<Policy>, clusterID: int) {
    && Policies(after, clusterID) == multiset(wanted)
    && CloudKept(before, after)
    && forall id :: id in before && before[id].clusterID != clusterID ==> id in after && after[id] == before[id]
  }

  // Explicit rows that already carry the wanted policies all stay, under their IDs.
  ghost predicate IdsKept(before: map<nat, Machine>, after: map<nat, Machine>, wanted: seq<Policy>, clusterID: int) {
    Explicit(Cluster(before, clusterID)) && Policies(before, clusterID) == multiset(wanted) ==>
      after.Keys == before.Keys
  }

  method MachineTxn(table: Table<Machine>, spec: seq<Policy>, clusterID: int)
    requires table.Valid()
    modifies table
    ensures table.Valid() && old(table.issued) <= table.issued
    ensures Contents(old(table.rows), table.rows, Wanted(spec), clusterID)
    ensures NoBetterRemoved(old(table.rows), table.rows, clusterID)
    ensures IdsKept(old(table.rows), table.rows, Wanted(spec), clusterID)
  {
    var ok := CanBoot(spec);
    var wanted := if ok then spec else [];
    var sel := table.Select((m: Machine) => m.clusterID == clusterID);
    ghost var rows, sub := table.rows, Cluster(table.rows, clusterID);
    assert (map id | id in rows && rows[id].clusterID == clusterID :: rows[id]) == sub;
    var pairs, add, drop := Join(wanted, sel, Score);
    var ts := OfRights(pairs);
    var write := (l: Policy, m: Machine) => Write(clusterID, l, m);
    TxnResult(rows, table.idAlloc, wanted, sel, pairs, add, drop, write, clusterID);
    Settle(table, ts, drop, add, write, NoMachine);
  }

  lemma TxnResult(rows: map<nat, Machine>, base: nat, wanted: seq<Policy>, sel: seq<(nat, Machine)>,
                  pairs: seq<(Policy, (nat, Machine))>, add: seq<Policy>, drop: seq<(nat, Machine)>,
                  write: (Policy, Machine) -> Machine, clusterID: int)
    requires Selects(sel, Cluster(rows, clusterID), rows) && forall id :: id in rows ==> id <= base
    requires forall l, m :: write(l, m) == Write(clusterID, l, m)
    requires Joined(pairs, add, drop) == Greedy(wanted, sel, Score)
    ensures var ts := OfRights(pairs);
            && Targets(ts, rows) && (forall r, i :: r in drop && 0 <= i < |ts| ==> r.0 != ts[i].id)
            && var final := Settled(rows, base, ts, drop, add, write, NoMachine);
               Contents(rows, final, wanted, clusterID) && NoBetterRemoved(rows, final, clusterID)
               && IdsKept(rows, final, wanted, clusterID)
  {
    var ts := OfRights(pairs);
    var sub := Cluster(rows, clusterID);
    RightsSplit(wanted, sel, Score);
    SplitTargets(rows, sub, sel, ts, drop);
    SettledAt(rows, sub, base, sel, ts, drop, add, write, NoMachine);
    var final := Settled(rows, base, ts, drop, add, write, NoMachine);
    TxnPolicies(rows, final, base, wanted, ts, add, write, clusterID);
    CloudPlaced(rows, final, ts, Added(add, base, NoMachine), write, clusterID);
    RemovedLonely(rows, final, base, wanted, sel, write, clusterID);
    Stable(rows, final, base, wanted, sel, write, clusterID);
  }

  lemma TxnPolicies(rows: map<nat, Machine>, final: map<nat, Machine>, base: nat, wanted: seq<Policy>,
                    ts: seq<Target<Policy, Machine>>, add: seq<Policy>, write: (Policy, Machine) -> Machine,
                    clusterID: int)
    requires forall l, m :: write(l, m) == Write(clusterID, l, m)
    requires multiset(wanted) == multiset(Specs(ts)) + multiset(add)
    requires Placed(rows, Cluster(rows, clusterID), final, ts + Added(add, base, NoMachine), write)
    ensures Policies(final, clusterID) == multiset(wanted)
  {
    var all := ts + Added(add, base, NoMachine);
    assert Specs(all) == Specs(ts) + add;
    PoliciesPlaced(rows, final, all, write, clusterID);
  }

  lemma Stable(rows: map<nat, Machine>, final: map<nat, Machine>, base: nat, wanted: seq<Policy>,
               sel: seq<(nat, Machine)>, write: (Policy, Machine) -> Machine, clusterID: int)
    requires Selects(sel, Cluster(rows, clusterID), rows)
    requires var g := Greedy(wanted, sel, Score);
             Placed(rows, Cluster(rows, clusterID), final, OfRights(g.pairs) + Added(g.lefts, base, NoMachine), write)
    ensures IdsKept(rows, final, wanted, clusterID)
  {
    if Explicit(Cluster(rows, clusterID)) && Policies(rows, clusterID) == multiset(wanted) {
      var g := Greedy(wanted, sel, Score);
      var ts := OfRights(g.pairs);
      AllMatched(rows, wanted, sel, clusterID);
      assert ts + Added(g.lefts, base, NoMachine) == ts;
      RightsSplit(wanted, sel, Score);
      IdsStable(rows, final, sel, ts, write, clusterID);
    }
  }

  lemma PoliciesPlaced(rows: map<nat, Machine>, final: map<nat, Machine>, all: seq<Target<Policy, Machine>>,
                       write: (Policy, Machine) -> Machine, clusterID: int)
    requires Placed(rows, Cluster(rows, clusterID), final, all, write)
    requires forall l, m :: write(l, m) == Write(clusterID, l, m)
    ensures Policies(final, clusterID) == multiset(Specs(all))
  {
    var named := seq(|all|, i requires 0 <= i < |all| => (all[i].id, all[i].spec));
    var policies := PolicyMap(final, clusterID);
    assert Fsts(named) == Ids(all) && Snds(named) == Specs(all);
    forall i, j | 0 <= i < j < |named| ensures named[i].0 != named[j].0 {
      assert Ids(all)[i] != Ids(all)[j];
    }
    forall i | 0 <= i < |named| ensures named[i].0 in policies && policies[named[i].0] == named[i].1 {
      assert final[all[i].id] == Write(clusterID, all[i].spec, all[i].row);
    }
    BagOfList(named, policies);
  }

  lemma CloudPlaced(rows: map<nat, Machine>, final: map<nat, Machine>, ts: seq<Target<Policy, Machine>>,
                    added: seq<Target<Policy, Machine>>, write: (Policy, Machine) -> Machine, clusterID: int)
    requires Placed(rows, Cluster(rows, clusterID), final, ts + added, write) && Targets(ts, rows)
    requires forall l, m :: write(l, m) == Write(clusterID, l, m)
    requires forall i :: 0 <= i < |added| ==> added[i].id !in rows
    ensures CloudKept(rows, final)
  {
    var all := ts + added;
    forall id | id in rows && id in final
      ensures final[id].cloudID == rows[id].cloudID && final[id].publicIP == rows[id].publicIP
              && final[id].privateIP == rows[id].privateIP
    {
      if id in Cluster(rows, clusterID) {
        assert id in Ids(all);
        var i :| 0 <= i < |all| && Ids(all)[i] == id;
        assert forall k :: |ts| <= k < |all| ==> all[k] == added[k - |ts|] && all[k].id !in rows;
        assert i < |ts|;
        assert all[i] == ts[i] && rows[ts[i].id] == ts[i].row;
        assert final[id] == Write(clusterID, ts[i].spec, ts[i].row);
      }
    }
  }

  lemma RemovedLonely(rows: map<nat, Machine>, final: map<nat, Machine>, base: nat, wanted: seq<Policy>,
                      sel: seq<(nat, Machine)>, write: (Policy, Machine) -> Machine, clusterID: int)
    requires Selects(sel, Cluster(rows, clusterID), rows) && forall id :: id in rows ==> id <= base
    requires forall l, m :: write(l, m) == Write(clusterID, l, m)
    requires var g := Greedy(wanted, sel, Score);
             Placed(rows, Cluster(rows, clusterID), final, OfRights(g.pairs) + Added(g.lefts, base, NoMachine), write)
    ensures NoBetterRemoved(rows, final, clusterID)
  {
    var g := Greedy(wanted, sel, Score);
    var sub := Cluster(rows, clusterID);
    forall kept, gone | kept in sub && kept in final && gone in sub && gone !in final
                        && 0 <= Score(final[kept].policy, (gone, rows[gone]))
      ensures 0 <= Score(final[kept].policy, (kept, rows[kept])) <= Score(final[kept].policy, (gone, rows[gone]))
    {
      var i := KeptPair(rows, final, base, wanted, sel, write, clusterID, kept);
      GoneIsLonely(rows, final, base, wanted, sel, write, clusterID, gone);
      PairIsBest(wanted, sel, Score, i, (gone, rows[gone]));
    }
  }

  // The row kept under an old ID is the right of a pair, whose left it now carries.
  lemma KeptPair(rows: map<nat, Machine>, final: map<nat, Machine>, base: nat, wanted: seq<Policy>,
                 sel: seq<(nat, Machine)>,
                 write: (Policy, Machine) -> Machine, clusterID: int, kept: nat) returns (i: nat)
    requires Selects(sel, Cluster(rows, clusterID), rows) && forall id :: id in rows ==> id <= base
    requires forall l, m :: write(l, m) == Write(clusterID, l, m)
    requires var g := Greedy(wanted, sel, Score);
             Placed(rows, Cluster(rows, clusterID), final, OfRights(g.pairs) + Added(g.lefts, base, NoMachine), write)
    requires kept in Cluster(rows, clusterID) && kept in final
    ensures var g := Greedy(wanted, sel, Score);
            i < |g.pairs| && g.pairs[i] == (final[kept].policy, (kept, rows[kept]))
  {
    var g := Greedy(wanted, sel, Score);
    var ts := OfRights(g.pairs);
    var all := ts + Added(g.lefts, base, NoMachine);
    RightsSplit(wanted, sel, Score);
    SplitTargets(rows, Cluster(rows, clusterID), sel, ts, g.rights);
    assert kept in Ids(all);
    i :| 0 <= i < |all| && Ids(all)[i] == kept;
    assert i < |ts|;
    assert all[i] == ts[i] && final[kept] == Write(clusterID, ts[i].spec, ts[i].row);
  }

  lemma GoneIsLonely(rows: map<nat, Machine>, final: map<nat, Machine>, base: nat, wanted: seq<Policy>,
                     sel: seq<(nat, Machine)>, write: (Policy, Machine) -> Machine, clusterID: int, gone: nat)
    requires Selects(sel, Cluster(rows, clusterID), rows)
    requires var g := Greedy(wanted, sel, Score);
             Placed(rows, Cluster(rows, clusterID), final, OfRights(g.pairs) + Added(g.lefts, base, NoMachine), write)
    requires gone in Cluster(rows, clusterID) && gone !in final
    ensures (gone, rows[gone]) in Greedy(wanted, sel, Score).rights
  {
    var g := Greedy(wanted, sel, Score);
    var ts := OfRights(g.pairs);
    Partition(wanted, sel, Score);
    assert gone in Fsts(sel);
    var i :| 0 <= i < |sel| && Fsts(sel)[i] == gone;
    assert sel[i] == (gone, rows[gone]);
    assert sel[i] in multiset(sel);
    forall j | 0 <= j < |g.pairs| ensures Snds(g.pairs)[j] != sel[i] {
      assert (ts + Added(g.lefts, base, NoMachine))[j] == ts[j];
      assert ts[j].id in final;
    }
  }

  // On explicit rows that already carry the wanted policies every row is matched.
  lemma AllMatched(rows: map<nat, Machine>, wanted: seq<Policy>, sel: seq<(nat, Machine)>, clusterID: int)
    requires Selects(sel, Cluster(rows, clusterID), rows) && Explicit(Cluster(rows, clusterID))
    requires Policies(rows, clusterID) == multiset(wanted)
    ensures var g := Greedy(wanted, sel, Score); g.lefts == [] && g.rights == []
  {
    var kind := (l: Policy) => (l.provider, l.region, l.size, l.role, l.diskSize);
    var policy := (r: (nat, Machine)) => r.1.policy;
    var rowKind := (r: (nat, Machine)) => kind(r.1.policy);
    forall l, r | l in wanted && r in sel ensures 0 <= Score(l, r) <==> kind(l) == rowKind(r) {
      var i :| 0 <= i < |sel| && sel[i] == r;
      assert r.0 in Cluster(rows, clusterID);
    }
    PoliciesListed(rows, sel, policy, clusterID);
    MapSame(Map(sel, policy), wanted, kind);
    assert Map(Map(sel, policy), kind) == Map(sel, rowKind);
    Perfect(wanted, sel, Score, kind, rowKind);
  }

  lemma PoliciesListed(rows: map<nat, Machine>, sel: seq<(nat, Machine)>, policy: ((nat, Machine)) -> Policy,
                       clusterID: int)
    requires Selects(sel, Cluster(rows, clusterID), rows)
    requires forall i :: 0 <= i < |sel| ==> policy(sel[i]) == sel[i].1.policy
    ensures Policies(rows, clusterID) == multiset(Map(sel, policy))
  {
    var named := seq(|sel|, i requires 0 <= i < |sel| => (sel[i].0, sel[i].1.policy));
    var policies := PolicyMap(rows, clusterID);
    assert Fsts(named) == Fsts(sel);
    BagOfList(named, policies);
    assert Snds(named) == Map(sel, policy);
  }

  lemma IdsStable(rows: map<nat, Machine>, final: map<nat, Machine>, sel: seq<(nat, Machine)>,
                  ts: seq<Target<Policy, Machine>>, write: (Policy, Machine) -> Machine, clusterID: int)
    requires Selects(sel, Cluster(rows, clusterID), rows) && Splits(sel, ts, [])
    requires Placed(rows, Cluster(rows, clusterID), final, ts, write)
    ensures final.Keys == rows.Keys
  {
    var sub := Cluster(rows, clusterID);
    SplitTargets(rows, sub, sel, ts, []);
    forall id | id in rows ensures id in final {
      if id in sub {
        KeptIsTarget(sub, sel, ts, [], id);
        var i :| 0 <= i < |ts| && Ids(ts)[i] == id;
        assert ts[i].id in final;
      }
    }
    assert forall id :: id in Ids(ts) ==> id in rows;
  }

  // The policies of an explicit spec make the rows explicit.
  lemma ExplicitAfter(before: map<nat, Machine>, after: map<nat, Machine>, wanted: seq<Policy>, clusterID: int)
    requires Contents(before, after, wanted, clusterID)
    requires forall l :: l in wanted ==> !l.role.NoRole? && l.size != ""
    ensures Explicit(Cluster(after, clusterID))
  {
    var policies := PolicyMap(after, clusterID);
    forall id | id in Cluster(after, clusterID)
      ensures !after[id].policy.role.NoRole? && after[id].policy.size != ""
    {
      BagRemove(policies, id);
      assert policies[id] in Bag(policies);
      assert after[id].policy in multiset(wanted);
    }
  }

  // Running the transaction again with the same explicit spec keeps every row ID.
  lemma Rerun(before: map<nat, Machine>, once: map<nat, Machine>, twice: map<nat, Machine>, wanted: seq<Policy>,
              clusterID: int)
    requires Contents(before, once, wanted, clusterID) && IdsKept(once, twice, wanted, clusterID)
    requires forall l :: l in wanted ==> !l.role.NoRole? && l.size != ""
    ensures twice.Keys == once.Keys
  {
    ExplicitAfter(before, once, wanted, clusterID);
  }
}
