/** Leader election over an expiring key in the consensus store (minion/elector/elector.go),
    as a system of any number of minions, one store and a clock.  `Create` needs the key to
    be absent, `Update` only needs it to be present (minion/consensus/consensus.go). */
module Elector {
  import opened Basics

  const ElectionTTL := 30
  const BootDelay := 60

  // Where a minion's campaign loop stands.  `update` is the Leader flag read at the top of
  // the iteration, which decides between Update and Create.
  datatype Pc =
    | Waiting
    | Booting(update: bool, until: int)
    | Writing(update: bool)
    | Replied(ok: bool, settle: bool)
    | Settling(until: int)

  // `leader` is the Leader flag of the Etcd row, `lastWrite` the time of the last
  // acknowledged write of the key, `watched` a value read but not yet committed.
  datatype Minion = Minion(pc: Pc, master: bool, leader: bool, lastWrite: int,
                           leaderIP: Option<string>, watched: Option<Option<string>>)

  datatype Key = NoKey | Held(owner: string, expires: int)

  datatype State = State(now: int, key: Key, minions: map<string, Minion>)

  // What the store did with a write and what it answered.
  datatype Reply = Acked | AppliedOnly | Refused(present: bool)

  datatype Event =
    | Tick(seconds: nat)
    | Wake(n: string, master: bool, hasIP: bool)
    | Booted(n: string, master: bool, hasIP: bool)
    | Write(n: string, reply: Reply)
    | Commit(n: string)
    | Settled(n: string)
    | WatchRead(n: string, failed: bool)
    | WatchCommit(n: string)

  predicate Live(s: State) { s.key.Held? && s.now < s.key.expires }

  function Put(s: State, n: string, m: Minion): State { s.(minions := s.minions[n := m]) }

  // commitLeader: the row's address changes only when one is given.
  function CommitLeader(m: Minion, leader: bool, ip: Option<Option<string>>): Minion {
    m.(leader := leader, leaderIP := if ip.Some? then ip.value else m.leaderIP)
  }

  // Where an iteration goes once the role is known.
  function Proceed(m: Minion, master: bool, hasIP: bool, update: bool): Minion {
    m.(master := master, pc := if master && hasIP then Writing(update) else Waiting)
  }

  predicate CanWrite(s: State, update: bool) { update == Live(s) }

  function Apply(s: State, e: Event): Option<State> {
    if e.Tick? then Some(s.(now := s.now + e.seconds))
    else if e.n !in s.minions then None
    else
      var m := s.minions[e.n];
      match e
      case Wake(n, master, hasIP) =>
        if !m.pc.Waiting? then None
        else if m.master && !master then
          Some(Put(s, n, CommitLeader(m, false, Some(None)).(master := false)))
        else if !m.master && master then
          Some(Put(s, n, m.(pc := Booting(m.leader, s.now + BootDelay))))
        else Some(Put(s, n, Proceed(m, master, hasIP, m.leader)))
      case Booted(n, master, hasIP) =>
        if !m.pc.Booting? || s.now < m.pc.until then None
        else Some(Put(s, n, Proceed(m, master, hasIP, m.pc.update)))
      case Write(n, reply) =>
        if !m.pc.Writing? then None
        else (match reply
              case Acked =>
                if !CanWrite(s, m.pc.update) then None
                else Some(Put(s, n, m.(pc := Replied(true, false), lastWrite := s.now))
                          .(key := Held(n, s.now + ElectionTTL)))
              case AppliedOnly =>
                if !CanWrite(s, m.pc.update) then None
                else Some(Put(s, n, m.(pc := Replied(false, true))).(key := Held(n, s.now + ElectionTTL)))
              case Refused(ex) =>
                if ex && (m.pc.update || !Live(s)) then None
                else Some(Put(s, n, m.(pc := Replied(false, !ex)))))
      case Commit(n) =>
        if !m.pc.Replied? then None
        else if m.pc.ok then Some(Put(s, n, CommitLeader(m, true, Some(Some(n))).(pc := Waiting)))
        else if m.pc.settle then
          Some(Put(s, n, CommitLeader(m, false, Some(None)).(pc := Settling(s.now + ElectionTTL))))
        else Some(Put(s, n, CommitLeader(m, false, None).(pc := Waiting)))
      case Settled(n) =>
        if !m.pc.Settling? || s.now < m.pc.until then None else Some(Put(s, n, m.(pc := Waiting)))
      case WatchRead(n, failed) =>
        Some(Put(s, n, m.(watched := Some(if failed || !Live(s) then None else Some(s.key.owner)))))
      case WatchCommit(n) =>
        if m.watched.None? then None
        else Some(Put(s, n, m.(leaderIP := m.watched.value, watched := None)))
  }

  predicate Initial(s: State) {
    s.key.NoKey? &&
    forall n :: n in s.minions ==>
      s.minions[n].pc.Waiting? && !s.minions[n].master && !s.minions[n].leader
      && s.minions[n].leaderIP.None? && s.minions[n].watched.None?
  }

  ghost predicate IsRun(states: seq<State>, events: seq<Event>) {
    && |states| == |events| + 1
    && Initial(states[0])
    && forall i :: 0 <= i < |events| ==> Apply(states[i], events[i]) == Some(states[i + 1])
  }

  // ---------------------------------------------------------------------------------
  // Safety
  // ---------------------------------------------------------------------------------

  // A minion that is the leader, or has won the key and not yet committed the flag.
  predicate Holding(m: Minion) { m.leader || (m.pc.Replied? && m.pc.ok) }

  // The timing assumption: a holder has written the key less than the TTL ago.
  predicate Leased(s: State) {
    forall n :: n in s.minions && Holding(s.minions[n]) ==> s.now < s.minions[n].lastWrite + ElectionTTL
  }

  predicate Safe(s: State) {
    && (forall n :: n in s.minions && s.minions[n].leader ==> Live(s) && s.key.owner == n)
    && (forall n, m :: n in s.minions && m in s.minions && s.minions[n].leader && s.minions[m].leader ==> n == m)
  }

  // The key belongs to every holder for at least as long as its lease lasts, and the flag
  // read at the top of an iteration is still current when it is used.
  predicate HolderInv(s: State, n: string)
    requires n in s.minions
  {
    var m := s.minions[n];
    && (Holding(m) ==> s.key.Held? && s.key.owner == n && m.lastWrite <= s.now
                       && m.lastWrite + ElectionTTL <= s.key.expires)
    && (m.pc.Booting? || m.pc.Writing? ==> m.pc.update == m.leader)
  }

  predicate Inv(s: State) {
    forall n :: n in s.minions ==> HolderInv(s, n)
  }

  lemma InvSafe(s: State)
    requires Inv(s) && Leased(s)
    ensures Safe(s)
  {
    forall n | n in s.minions && s.minions[n].leader ensures Live(s) && s.key.owner == n {
      assert HolderInv(s, n);
    }
  }

  lemma InvStep(s: State, e: Event)
    requires Inv(s) && Leased(s) && Apply(s, e).Some?
    ensures Inv(Apply(s, e).value)
  {
    var s' := Apply(s, e).value;
    forall n | n in s'.minions ensures HolderInv(s', n) {
      assert HolderInv(s, n);
      if !e.Tick? {
        assert HolderInv(s, e.n);
        if e.n != n && e.Write? && Holding(s.minions[n]) {
          // Another minion wrote the key: its flag was set, and then it already owned the
          // key, or the key was free, and then nobody held it.
          assert Live(s);
        }
      }
    }
  }

  // In every run in which holders keep their lease, at every point at most one minion has
  // its Leader flag set, and that minion owns the live key.
  lemma {:induction false} ElectionSafety(states: seq<State>, events: seq<Event>, k: nat)
    requires IsRun(states, events) && k < |states|
    requires forall i :: 0 <= i <= k ==> Leased(states[i])
    ensures Inv(states[k]) && Safe(states[k])
  {
    if 0 < k {
      ElectionSafety(states, events, k - 1);
      assert Apply(states[k - 1], events[k - 1]) == Some(states[k]);
      InvStep(states[k - 1], events[k - 1]);
    }
    InvSafe(states[k]);
  }

  // ---------------------------------------------------------------------------------
  // The timing assumption is needed
  // ---------------------------------------------------------------------------------

  // From any state in which a leader has let the key lapse, another minion about to create
  // the key becomes leader as well, in two steps.
  lemma LapseIsUnsafe(s: State, n: string, m: string)
    requires n in s.minions && m in s.minions && n != m
    requires s.minions[n].leader && !Live(s)
    requires s.minions[m].pc == Writing(false)
    ensures var s1 := Apply(s, Write(m, Acked));
            && s1.Some?
            && var s2 := Apply(s1.value, Commit(m));
               s2.Some? && s2.value.minions[n].leader && s2.value.minions[m].leader && !Safe(s2.value)
  {
    var s1 := Apply(s, Write(m, Acked)).value;
    var s2 := Apply(s1, Commit(m)).value;
    assert s2.minions[n] == s.minions[n] && s2.minions[m].leader;
  }

  // Such states occur: a leader that stops renewing, for instance because its address is
  // gone, keeps its flag past the expiry of the key.
  lemma LapseOccurs() returns (states: seq<State>, events: seq<Event>)
    ensures IsRun(states, events)
    ensures var s := states[|states| - 1];
            && "a" in s.minions && "b" in s.minions && s.minions["a"].leader && !Live(s)
            && s.minions["b"].pc == Writing(false) && !Leased(s)
  {
    var m := Minion(Waiting, false, false, 0, None, None);
    var s0 := State(0, NoKey, map["a" := m, "b" := m]);
    events := [Wake("a", true, true), Wake("b", true, true), Tick(60), Booted("a", true, true), Write("a", Acked),
               Commit("a"), Tick(30), Booted("b", true, true)];
    var s1 := Apply(s0, events[0]).value;
    var s2 := Apply(s1, events[1]).value;
    var s3 := Apply(s2, events[2]).value;
    var s4 := Apply(s3, events[3]).value;
    var s5 := Apply(s4, events[4]).value;
    var s6 := Apply(s5, events[5]).value;
    var s7 := Apply(s6, events[6]).value;
    var s8 := Apply(s7, events[7]).value;
    states := [s0, s1, s2, s3, s4, s5, s6, s7, s8];
  }

  // ---------------------------------------------------------------------------------
  // What the other minions see
  // ---------------------------------------------------------------------------------

  // Every address a minion has recorded or is about to record belongs to `owners`.
  ghost predicate AddressesIn(s: State, owners: set<string>) {
    && (s.key.Held? ==> s.key.owner in owners)
    && forall n :: n in s.minions ==> AddressIn(s.minions[n], n, owners)
  }

  ghost predicate AddressIn(m: Minion, n: string, owners: set<string>) {
    && (m.leaderIP.Some? ==> m.leaderIP.value in owners)
    && (m.watched.Some? && m.watched.value.Some? ==> m.watched.value.value in owners)
    && (m.pc.Replied? && m.pc.ok ==> n in owners)
  }

  lemma AddressStep(s: State, e: Event, owners: set<string>)
    requires AddressesIn(s, owners) && Apply(s, e).Some?
    ensures var s' := Apply(s, e).value;
            AddressesIn(s', owners + if s'.key.Held? then {s'.key.owner} else {})
  {
    var s' := Apply(s, e).value;
    var owners' := owners + if s'.key.Held? then {s'.key.owner} else {};
    forall n | n in s'.minions ensures AddressIn(s'.minions[n], n, owners') {
      assert AddressIn(s.minions[n], n, owners);
    }
  }

  // The minions that have owned the key in the first states of a run.
  ghost function Owners(states: seq<State>): set<string> {
    if states == [] then {} else
      var last := states[|states| - 1].key;
      Owners(states[..|states| - 1]) + if last.Held? then {last.owner} else {}
  }

  // The leader address in any minion's database is empty or belongs to a minion that has
  // owned the key by then.  This needs no timing assumption.
  lemma {:induction false} LeaderAddress(states: seq<State>, events: seq<Event>, k: nat)
    requires IsRun(states, events) && k < |states|
    ensures AddressesIn(states[k], Owners(states[..k + 1]))
  {
    assert states[..k + 1][..k] == states[..k];
    if 0 < k {
      LeaderAddress(states, events, k - 1);
      assert Apply(states[k - 1], events[k - 1]) == Some(states[k]);
      AddressStep(states[k - 1], events[k - 1], Owners(states[..k]));
    }
  }
}
