/** The supervisor of the system containers (minion/supervisor/supervisor.go). */
module Supervisor {
  datatype Role = NoRole | Worker | Master

  datatype Name = Etcd | OvnController | OvnNorthd | Ovsdb | Vswitchd | Swarm

  // A Go slice: nil and the empty slice are told apart when slices are compared.
  datatype Slice = Nil | Slice(ips: seq<string>)

  function Members(s: Slice): seq<string> { if s.Nil? then [] else s.ips }

  // The arguments of a container, with the addresses that enter into them.
  datatype Args = NoArgs
    | EtcdMember(ip: string, members: seq<string>)
    | EtcdProxy(members: seq<string>)
    | SwarmManage(ip: string)
    | SwarmJoin(ip: string)

  // Where the virtual switch is told to find its controller.
  datatype Remote = Unset | Remote(leaderIP: string, ip: string)

  // What the minion and etcd tables say.
  datatype Config = Config(role: Role, ip: string, etcdIPs: Slice, leaderIP: string, leader: bool)

  // What the daemon runs, and what its switch is set to.
  datatype Containers = Containers(running: map<Name, Args>, remote: Remote)

  datatype State = State(config: Config, containers: Containers)

  const ZERO := Config(NoRole, "", Nil, "", false)

  const IMAGES := {Etcd, OvnController, OvnNorthd, Ovsdb, Vswitchd, Swarm}

  // ---------------------------------------------------------------------------------
  // Docker
  // ---------------------------------------------------------------------------------

  // Running a container that exists does not replace it.
  function Ran(d: Containers, name: Name, args: Args): Containers {
    if name in d.running then d else d.(running := d.running[name := args])
  }

  // A removed switch forgets its settings.
  function Removed(d: Containers, name: Name): Containers {
    Containers(d.running - {name}, if name == Vswitchd then Unset else d.remote)
  }

  class Docker {
    var running: map<Name, Args>
    var remote: Remote

    constructor (running: map<Name, Args>)
      ensures Now() == Containers(running, Unset)
    {
      this.running, remote := running, Unset;
    }

    function Now(): Containers
      reads this
    {
      Containers(running, remote)
    }

    method Run(name: Name, args: Args)
      modifies this
      ensures Now() == Ran(old(Now()), name, args)
    {
      if name !in running { running := running[name := args]; }
    }

    method Remove(name: Name)
      modifies this
      ensures Now() == Removed(old(Now()), name)
    {
      running := running - {name};
      if name == Vswitchd { remote := Unset; }
    }

    // Sets the switch's external IDs, if the switch is there.
    method Exec(leaderIP: string, ip: string)
      modifies this
      ensures Now() == Configured(old(Now()), leaderIP, ip)
    {
      if Vswitchd in running { remote := Remote(leaderIP, ip); }
    }
  }

  function Configured(d: Containers, leaderIP: string, ip: string): Containers {
    if Vswitchd in d.running then d.(remote := Remote(leaderIP, ip)) else d
  }

  // ---------------------------------------------------------------------------------
  // One step
  // ---------------------------------------------------------------------------------

  function RemovedIf(d: Containers, cond: bool, name: Name): Containers { if cond then Removed(d, name) else d }

  function MasterStep(c0: Config, c: Config, d: Containers): Containers {
    var d := RemovedIf(d, c0.ip != c.ip || c0.etcdIPs != c.etcdIPs, Etcd);
    var d := RemovedIf(d, c0.ip != c.ip, Swarm);
    if c.ip == "" || |Members(c.etcdIPs)| == 0 then d
    else
      var d := Ran(d, Etcd, EtcdMember(c.ip, Members(c.etcdIPs)));
      var d := Ran(d, Ovsdb, NoArgs);
      var d := Ran(d, Swarm, SwarmManage(c.ip));
      if c.leader then Ran(d, OvnNorthd, NoArgs) else Removed(d, OvnNorthd)
  }

  // The last part is skipped unless there still is a minion row.
  function WorkerStep(c0: Config, c: Config, d: Containers, hasRow: bool): Containers {
    var d := RemovedIf(d, c0.etcdIPs != c.etcdIPs, Etcd);
    var d := RemovedIf(d, c0.leaderIP != c.leaderIP || c0.ip != c.ip, Swarm);
    var d := Ran(d, Etcd, EtcdProxy(Members(c.etcdIPs)));
    var d := Ran(Ran(d, Ovsdb, NoArgs), Vswitchd, NoArgs);
    if c.leaderIP == "" || c.ip == "" then d
    else
      var d := Ran(d, Swarm, SwarmJoin(c.ip));
      if !hasRow then d
      else Ran(Removed(Configured(d, c.leaderIP, c.ip), OvnController), OvnController, NoArgs)
  }

  function Step(s: State, c: Config, hasRow: bool): State {
    if s.config == c then s
    else
      var d := if c.role != s.config.role then Containers(map[], Unset) else s.containers;
      State(c, match c.role
               case NoRole => d
               case Master => MasterStep(s.config, c, d)
               case Worker => WorkerStep(s.config, c, d, hasRow))
  }

  class Supervisor {
    var role: Role
    var etcdIPs: Slice
    var leaderIP: string
    var ip: string
    var leader: bool
    const dk: Docker

    constructor (dk: Docker)
      ensures this.dk == dk && Now() == State(ZERO, dk.Now())
    {
      role, etcdIPs, leaderIP, ip, leader := NoRole, Nil, "", "", false;
      this.dk := dk;
    }

    function Recorded(): Config
      reads this
    {
      Config(role, ip, etcdIPs, leaderIP, leader)
    }

    function Now(): State
      reads this, dk
    {
      State(Recorded(), dk.Now())
    }

    method RunSystemOnce(minionRole: Role, privateIP: string, members: Slice, newLeaderIP: string, newLeader: bool,
                         hasRow: bool)
      modifies this, dk
      ensures Now() == Step(old(Now()), Config(minionRole, privateIP, members, newLeaderIP, newLeader), hasRow)
    {
      if role == minionRole && etcdIPs == members && leaderIP == newLeaderIP && ip == privateIP && leader == newLeader {
        return;
      }
      if minionRole != role { RemoveAll(); }
      match minionRole {
        case NoRole =>
        case Master => UpdateMaster(privateIP, members, newLeader);
        case Worker => UpdateWorker(privateIP, newLeaderIP, members, hasRow);
      }
      role, etcdIPs, leaderIP, ip, leader := minionRole, members, newLeaderIP, privateIP, newLeader;
    }

    method UpdateMaster(newIP: string, members: Slice, newLeader: bool)
      modifies dk
      ensures forall r, l :: dk.Now() == MasterStep(Recorded(), Config(r, newIP, members, l, newLeader), old(dk.Now()))
    {
      if ip != newIP || etcdIPs != members { dk.Remove(Etcd); }
      if ip != newIP { dk.Remove(Swarm); }
      if newIP == "" || |Members(members)| == 0 { return; }
      dk.Run(Etcd, EtcdMember(newIP, Members(members)));
      dk.Run(Ovsdb, NoArgs);
      dk.Run(Swarm, SwarmManage(newIP));
      if newLeader {
        dk.Run(OvnNorthd, NoArgs);
      } else {
        dk.Remove(OvnNorthd);
      }
    }

    method UpdateWorker(newIP: string, newLeaderIP: string, members: Slice, hasRow: bool)
      modifies dk
      ensures forall r, l ::
                dk.Now() == WorkerStep(Recorded(), Config(r, newIP, members, newLeaderIP, l), old(dk.Now()), hasRow)
    {
      if etcdIPs != members { dk.Remove(Etcd); }
      if leaderIP != newLeaderIP || ip != newIP { dk.Remove(Swarm); }
      dk.Run(Etcd, EtcdProxy(Members(members)));
      dk.Run(Ovsdb, NoArgs);
      dk.Run(Vswitchd, NoArgs);
      if newLeaderIP == "" || newIP == "" { return; }
      dk.Run(Swarm, SwarmJoin(newIP));
      if !hasRow { return; }
      dk.Exec(newLeaderIP, newIP);
      dk.Remove(OvnController);
      dk.Run(OvnController, NoArgs);
    }

    method RemoveAll()
      modifies dk
      ensures dk.Now() == Containers(map[], Unset)
    {
      var rest := IMAGES;
      forall n: Name ensures n in IMAGES {
        match n case Etcd => case OvnController => case OvnNorthd => case Ovsdb => case Vswitchd => case Swarm =>
      }
      while rest != {}
        invariant rest <= IMAGES
        invariant forall n :: n in dk.running ==> n in rest
        invariant Vswitchd in rest || dk.remote == Unset
      {
        var n :| n in rest;
        rest := rest - {n};
        dk.Remove(n);
      }
    }
  }

  // ---------------------------------------------------------------------------------
  // Safety: no stale arguments
  // ---------------------------------------------------------------------------------

  // The arguments a container should have.
  function ArgsFor(c: Config, name: Name): Args {
    match (c.role, name)
    case (Master, Etcd) => EtcdMember(c.ip, Members(c.etcdIPs))
    case (Master, Swarm) => SwarmManage(c.ip)
    case (Worker, Etcd) => EtcdProxy(Members(c.etcdIPs))
    case (Worker, Swarm) => SwarmJoin(c.ip)
    case _ => NoArgs
  }

  ghost predicate Fits(c: Config, d: Containers) {
    forall n :: n in d.running ==> d.running[n] == ArgsFor(c, n)
  }

  ghost predicate UpToDate(s: State) { s.config.role != NoRole ==> Fits(s.config, s.containers) }

  lemma RanFits(c: Config, d: Containers, name: Name, args: Args)
    requires Fits(c, d) && args == ArgsFor(c, name)
    ensures Fits(c, Ran(d, name, args))
  {
  }

  lemma MasterFits(c0: Config, c: Config, d: Containers)
    requires Fits(c0, d) && c0.role == Master == c.role
    ensures Fits(c, MasterStep(c0, c, d))
  {
    var d1 := RemovedIf(RemovedIf(d, c0.ip != c.ip || c0.etcdIPs != c.etcdIPs, Etcd), c0.ip != c.ip, Swarm);
    assert Fits(c, d1);
    var d2 := Ran(d1, Etcd, EtcdMember(c.ip, Members(c.etcdIPs)));
    RanFits(c, d1, Etcd, EtcdMember(c.ip, Members(c.etcdIPs)));
    RanFits(c, d2, Ovsdb, NoArgs);
    var d3 := Ran(d2, Ovsdb, NoArgs);
    RanFits(c, d3, Swarm, SwarmManage(c.ip));
    RanFits(c, Ran(d3, Swarm, SwarmManage(c.ip)), OvnNorthd, NoArgs);
  }

  lemma WorkerFits(c0: Config, c: Config, d: Containers, hasRow: bool)
    requires Fits(c0, d) && c0.role == Worker == c.role
    ensures Fits(c, WorkerStep(c0, c, d, hasRow))
  {
    var d1 := RemovedIf(RemovedIf(d, c0.etcdIPs != c.etcdIPs, Etcd), c0.leaderIP != c.leaderIP || c0.ip != c.ip, Swarm);
    assert Fits(c, d1);
    var d2 := Ran(d1, Etcd, EtcdProxy(Members(c.etcdIPs)));
    RanFits(c, d1, Etcd, EtcdProxy(Members(c.etcdIPs)));
    RanFits(c, d2, Ovsdb, NoArgs);
    var d3 := Ran(d2, Ovsdb, NoArgs);
    RanFits(c, d3, Vswitchd, NoArgs);
    var d4 := Ran(d3, Vswitchd, NoArgs);
    RanFits(c, d4, Swarm, SwarmJoin(c.ip));
    var d5 := Removed(Configured(Ran(d4, Swarm, SwarmJoin(c.ip)), c.leaderIP, c.ip), OvnController);
    RanFits(c, d5, OvnController, NoArgs);
  }

  // With an empty daemon it does not matter which configuration came before.
  lemma EmptyStep(c0: Config, c: Config, hasRow: bool)
    ensures var d := Containers(map[], Unset);
            MasterStep(c0, c, d) == MasterStep(c, c, d) && WorkerStep(c0, c, d, hasRow) == WorkerStep(c, c, d, hasRow)
  {
    var none: map<Name, Args> := map[];
    assert none - {Etcd} == none && none - {Swarm} == none;
  }

  // Containers left behind by an earlier supervisor do no harm: they are removed with the
  // first role.
  lemma StepUpToDate(s: State, c: Config, hasRow: bool)
    requires UpToDate(s)
    ensures UpToDate(Step(s, c, hasRow))
  {
    var switched := c.role != s.config.role;
    var c0 := if switched then c else s.config;
    var d := if switched then Containers(map[], Unset) else s.containers;
    EmptyStep(s.config, c, hasRow);
    match c.role
    case NoRole =>
    case Master => MasterFits(c0, c, d);
    case Worker => WorkerFits(c0, c, d, hasRow);
  }

  // ---------------------------------------------------------------------------------
  // History independence
  // ---------------------------------------------------------------------------------

  predicate Complete(c: Config) {
    match c.role
    case NoRole => false
    case Master => c.ip != "" && Members(c.etcdIPs) != []
    case Worker => c.ip != "" && c.leaderIP != ""
  }

  function NamesFor(c: Config): set<Name> {
    match c.role
    case NoRole => {}
    case Master => if c.leader then {Etcd, Ovsdb, Swarm, OvnNorthd} else {Etcd, Ovsdb, Swarm}
    case Worker => {Etcd, Ovsdb, Vswitchd, Swarm, OvnController}
  }

  function Target(c: Config): Containers {
    Containers(map n | n in NamesFor(c) :: ArgsFor(c, n),
               if c.role == Worker then Remote(c.leaderIP, c.ip) else Unset)
  }

  // Only containers of the role are running.
  predicate InRole(s: State) {
    match s.config.role
    case NoRole => true
    case Master => s.containers.running.Keys <= {Etcd, Ovsdb, Swarm, OvnNorthd} && s.containers.remote == Unset
    case Worker => s.containers.running.Keys <= {Etcd, Ovsdb, Vswitchd, Swarm, OvnController}
  }

  ghost predicate Inv(s: State) { UpToDate(s) && InRole(s) }

  lemma MasterRuns(c0: Config, c: Config, d: Containers)
    requires c.role == Master && d.running.Keys <= {Etcd, Ovsdb, Swarm, OvnNorthd} && d.remote == Unset
    ensures var d' := MasterStep(c0, c, d);
            && d'.running.Keys <= {Etcd, Ovsdb, Swarm, OvnNorthd} && d'.remote == Unset
            && (Complete(c) ==> d'.running.Keys == NamesFor(c))
  {
  }

  lemma WorkerRuns(c0: Config, c: Config, d: Containers)
    requires c.role == Worker && d.running.Keys <= {Etcd, Ovsdb, Vswitchd, Swarm, OvnController}
    ensures var d' := WorkerStep(c0, c, d, true);
            && d'.running.Keys <= {Etcd, Ovsdb, Vswitchd, Swarm, OvnController}
            && (Complete(c) ==> d'.running.Keys == NamesFor(c) && d'.remote == Remote(c.leaderIP, c.ip))
  {
  }

  // Without the minion row, the controller and the switch's settings stay as they were.
  lemma WorkerBlind(c0: Config, c: Config, d: Containers)
    requires c.role == Worker && d.running.Keys <= {Etcd, Ovsdb, Vswitchd, Swarm, OvnController}
    ensures var d' := WorkerStep(c0, c, d, false);
            && d'.running.Keys <= {Etcd, Ovsdb, Vswitchd, Swarm, OvnController}
            && d'.remote == d.remote && (OvnController in d'.running <==> OvnController in d.running)
            && (Complete(c) ==> {Etcd, Ovsdb, Vswitchd, Swarm} <= d'.running.Keys)
  {
  }

  lemma StepInv(s: State, c: Config, hasRow: bool)
    requires Inv(s)
    ensures Inv(Step(s, c, hasRow))
  {
    StepUpToDate(s, c, hasRow);
    var d := if c.role != s.config.role then Containers(map[], Unset) else s.containers;
    match c.role
    case NoRole =>
    case Master => MasterRuns(s.config, c, d);
    case Worker =>
      WorkerRuns(s.config, c, d);
      WorkerBlind(s.config, c, d);
  }

  // The controller is already running, and the switch already points where it should.
  predicate Controlled(s: State, c: Config) {
    s.config.role == Worker && OvnController in s.containers.running && s.containers.remote == Remote(c.leaderIP, c.ip)
  }

  // A change to a complete configuration leads to its containers, except that a worker
  // without its minion row needs to have been controlled like this before.
  lemma StepTarget(s: State, c: Config, hasRow: bool)
    requires Inv(s) && Complete(c) && s.config != c
    ensures Step(s, c, hasRow).containers == Target(c) <==> c.role == Master || hasRow || Controlled(s, c)
  {
    StepInv(s, c, hasRow);
    var s' := Step(s, c, hasRow);
    var d := if c.role != s.config.role then Containers(map[], Unset) else s.containers;
    match c.role
    case Master =>
      MasterRuns(s.config, c, d);
      SameContainers(c, s'.containers);
    case Worker =>
      WorkerRuns(s.config, c, d);
      WorkerBlind(s.config, c, d);
      if s'.containers.running.Keys == NamesFor(c) { SameContainers(c, s'.containers); }
  }

  lemma SameContainers(c: Config, d: Containers)
    requires Fits(c, d) && d.running.Keys == NamesFor(c)
    ensures d.running == Target(c).running
  {
  }

  // ---------------------------------------------------------------------------------
  // Runs
  // ---------------------------------------------------------------------------------

  // A configuration, and whether the minion row is there when a worker looks again.
  datatype Look = Look(config: Config, hasRow: bool)

  function Run(s: State, looks: seq<Look>): State {
    if looks == [] then s
    else
      var last := looks[|looks| - 1];
      Step(Run(s, looks[..|looks| - 1]), last.config, last.hasRow)
  }

  // The last change of configuration in a run went all the way.
  predicate Arrived(s: State, looks: seq<Look>) {
    looks != [] &&
    var init, last := looks[..|looks| - 1], looks[|looks| - 1];
    if Run(s, init).config == last.config then Arrived(s, init)
    else last.config.role == Master || last.hasRow || Controlled(Run(s, init), last.config)
  }

  // Whatever ran before and whatever the configurations in between, a run that ends in a
  // complete configuration has exactly its containers if the last change arrived, and only
  // then.
  lemma {:induction false} RunExactly(d: Containers, looks: seq<Look>)
    ensures Inv(Run(State(ZERO, d), looks))
    ensures looks != [] ==> Run(State(ZERO, d), looks).config == looks[|looks| - 1].config
    ensures var s := Run(State(ZERO, d), looks);
            Complete(s.config) ==> (s.containers == Target(s.config) <==> Arrived(State(ZERO, d), looks))
    decreases |looks|
  {
    if looks != [] {
      var init, last := looks[..|looks| - 1], looks[|looks| - 1];
      RunExactly(d, init);
      var s := Run(State(ZERO, d), init);
      StepInv(s, last.config, last.hasRow);
      if Complete(last.config) && s.config != last.config { StepTarget(s, last.config, last.hasRow); }
    }
  }

  function Fresh(c: Config): Containers { Step(State(ZERO, Containers(map[], Unset)), c, true).containers }

  ghost predicate Attended(looks: seq<Look>) { forall i :: 0 <= i < |looks| ==> looks[i].hasRow }

  // Every history leads to what a new supervisor with no containers would start.
  ghost predicate Independent(c: Config) {
    forall d, looks :: Attended(looks) ==> Run(State(ZERO, d), looks + [Look(c, true)]).containers == Fresh(c)
  }

  // This holds of the complete configurations and of no others.
  lemma HistoryIndependence(c: Config)
    ensures Independent(c) <==> Complete(c)
  {
    if Complete(c) {
      StepInv(State(ZERO, Containers(map[], Unset)), c, true);
      StepTarget(State(ZERO, Containers(map[], Unset)), c, true);
      forall d, looks | Attended(looks)
        ensures Run(State(ZERO, d), looks + [Look(c, true)]).containers == Fresh(c)
      {
        var all := looks + [Look(c, true)];
        RunExactly(d, all);
        AttendedArrives(State(ZERO, d), all);
      }
    } else {
      var d, looks := Lingering(c);
      assert !(Attended(looks) ==> Run(State(ZERO, d), looks + [Look(c, true)]).containers == Fresh(c));
    }
  }

  lemma {:induction false} AttendedArrives(s: State, looks: seq<Look>)
    requires Attended(looks) && looks != [] && s.config.role == NoRole && looks[|looks| - 1].config.role != NoRole
    ensures Arrived(s, looks)
    decreases |looks|
  {
    var init, last := looks[..|looks| - 1], looks[|looks| - 1];
    if Run(s, init).config == last.config {
      assert init != [];
      RunConfig(s, init);
      AttendedArrives(s, init);
    }
  }

  lemma RunConfig(s: State, looks: seq<Look>)
    requires looks != []
    ensures Run(s, looks).config == looks[|looks| - 1].config
  {
  }

  // A history whose containers an incomplete configuration leaves running.
  lemma Lingering(c: Config) returns (d: Containers, looks: seq<Look>)
    requires !Complete(c)
    ensures Attended(looks) && Run(State(ZERO, d), looks + [Look(c, true)]).containers != Fresh(c)
  {
    d := Containers(map[Ovsdb := NoArgs], Unset);
    match c.role
    case NoRole =>
      looks := [];
      assert looks + [Look(c, true)] == [Look(c, true)] && [Look(c, true)][..0] == [];
      assert Run(State(ZERO, d), looks + [Look(c, true)]) == Step(Run(State(ZERO, d), []), c, true);
      assert Ovsdb in Run(State(ZERO, d), looks + [Look(c, true)]).containers.running && Ovsdb !in Fresh(c).running;
    case Master =>
      var before := Config(Master, "10.0.0.2", Slice(["10.0.0.2"]), "", false);
      looks := [Look(before, true)];
      TwoLooks(State(ZERO, d), before, c);
      MasterLingers(State(ZERO, d), before, c);
    case Worker =>
      var before := Config(Worker, "10.0.0.2", Nil, "10.0.0.3", false);
      looks := [Look(before, true)];
      TwoLooks(State(ZERO, d), before, c);
      WorkerLingers(State(ZERO, d), before, c);
  }

  // The database server of a master is not stopped.
  lemma MasterLingers(s: State, before: Config, c: Config)
    requires Inv(s) && s.config != before && Complete(before) && before.role == Master == c.role && !Complete(c)
    ensures Ovsdb in Step(Step(s, before, true), c, true).containers.running && Ovsdb !in Fresh(c).running
  {
    StepTarget(s, before, true);
  }

  // The controller of a worker is not stopped.
  lemma WorkerLingers(s: State, before: Config, c: Config)
    requires Inv(s) && s.config != before && Complete(before) && before.role == Worker == c.role && !Complete(c)
    ensures OvnController in Step(Step(s, before, true), c, true).containers.running
    ensures OvnController !in Fresh(c).running
  {
    StepTarget(s, before, true);
    NoController(c);
  }

  lemma NoController(c: Config)
    requires c.role == Worker && !Complete(c)
    ensures OvnController !in Fresh(c).running
  {
  }

  lemma TwoLooks(s: State, before: Config, c: Config)
    ensures Run(s, [Look(before, true)] + [Look(c, true)]) == Step(Step(s, before, true), c, true)
  {
    var looks := [Look(before, true)] + [Look(c, true)];
    assert looks[..1] == [Look(before, true)] && [Look(before, true)][..0] == [];
    assert Run(s, [Look(before, true)]) == Step(Run(s, []), before, true);
  }

  // A worker without its minion row never starts its controller, or leaves it with the old
  // leader, and the same configuration does not repair it.
  lemma ControllerMissed(s: State, c: Config, hasRow: bool)
    requires Inv(s) && Complete(c) && c.role == Worker && s.config != c && !Controlled(s, c)
    ensures var s' := Step(s, c, false); s'.containers != Target(c) && Step(s', c, hasRow) == s'
    ensures s.config.role == Worker && s.containers == Target(s.config) ==>
              Step(s, c, false).containers.remote == Remote(s.config.leaderIP, s.config.ip)
  {
    StepTarget(s, c, false);
  }
}
