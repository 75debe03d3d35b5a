/** The notification protocol of the database (db/db.go, db/table.go): transactions bump
    table sequence numbers, the server then alerts every table, and each trigger's channel
    holds at most one notification. */
module Triggers {
  import opened Basics

  type Trigger = nat

  // ---------------------------------------------------------------------------------
  // Alerting one table
  // ---------------------------------------------------------------------------------

  datatype TableState = TableState(seqNo: int, trigSeq: int, triggers: set<Trigger>)

  predicate Changed(t: TableState) { t.seqNo != t.trigSeq }

  // Stopped triggers are dropped, and everyone that was registered is notified.
  function Alerted(t: TableState, stopped: set<Trigger>): TableState {
    if Changed(t) then TableState(t.seqNo, t.seqNo, t.triggers - stopped) else t
  }

  function Notified(t: TableState): set<Trigger> {
    if Changed(t) then t.triggers else {}
  }

  // The channels of all triggers: which are stopped and which hold a notification.
  class Channels {
    var stopped: set<Trigger>
    var pending: set<Trigger>
  }

  class WatchedTable {
    var seqNo: int
    var trigSeq: int
    var triggers: set<Trigger>

    ghost function State(): TableState
      reads this
    {
      TableState(seqNo, trigSeq, triggers)
    }

    method Alert(channels: Channels)
      modifies this, channels`pending
      ensures State() == Alerted(old(State()), channels.stopped)
      ensures channels.pending == old(channels.pending) + Notified(old(State()))
    {
      if seqNo == trigSeq {
        return;
      }
      trigSeq := seqNo;
      var rest := triggers;
      while rest != {}
        invariant rest <= old(triggers) && seqNo == trigSeq == old(seqNo)
        invariant triggers == old(triggers) - (channels.stopped - rest)
        invariant channels.pending == old(channels.pending) + (old(triggers) - rest)
      {
        var t :| t in rest;
        if t in channels.stopped {
          triggers := triggers - {t};
        }
        channels.pending := channels.pending + {t};
        rest := rest - {t};
      }
    }
  }

  // ---------------------------------------------------------------------------------
  // The protocol
  // ---------------------------------------------------------------------------------

  // `alerting` holds the tables whose alert is still to come after the last transaction.
  // Times are positions in the run: when a table last changed, when a consumer last
  // received, when a trigger registered with a table.
  datatype State = State(
    clock: nat, tables: map<string, TableState>, alerting: set<string>,
    stopped: set<Trigger>, pending: set<Trigger>,
    changedAt: map<string, nat>, receivedAt: map<Trigger, nat>, registeredAt: map<(string, Trigger), nat>)

  datatype Event =
    | Transact(bumps: map<string, nat>, trigger: Trigger, watches: set<string>)
    | Alert(table: string)
    | Receive(t: Trigger)
    | Tick(t: Trigger)
    | Stop(t: Trigger)

  // A transaction changes some tables and may register a trigger with some.
  function Transacted(s: State, bumps: map<string, nat>, t: Trigger, watches: set<string>): State {
    s.(tables := map n | n in s.tables ::
         var was := s.tables[n];
         TableState(if n in bumps then was.seqNo + bumps[n] else was.seqNo, was.trigSeq,
                    if n in watches then was.triggers + {t} else was.triggers),
       changedAt := map n | n in s.tables && (n in s.changedAt || (n in bumps && bumps[n] != 0)) ::
         if n in bumps && bumps[n] != 0 then s.clock else s.changedAt[n],
       registeredAt := map k | k in s.registeredAt.Keys + (set n | n in watches :: (n, t)) ::
         if k in s.registeredAt then s.registeredAt[k] else s.clock,
       alerting := s.tables.Keys)
  }

  function Apply(s: State, e: Event): Option<State> {
    match e
    case Transact(bumps, t, watches) =>
      // The server takes the next transaction only after alerting every table.
      if s.alerting != {} then None
      else Some(Transacted(s, bumps, t, watches).(clock := s.clock + 1))
    case Alert(n) =>
      if n !in s.alerting || n !in s.tables then None
      else Some(s.(tables := s.tables[n := Alerted(s.tables[n], s.stopped)],
                   pending := s.pending + Notified(s.tables[n]),
                   alerting := s.alerting - {n}, clock := s.clock + 1))
    case Receive(t) =>
      if t !in s.pending then None
      else Some(s.(pending := s.pending - {t}, receivedAt := s.receivedAt[t := s.clock], clock := s.clock + 1))
    case Tick(t) => Some(s.(pending := s.pending + {t}, clock := s.clock + 1))
    case Stop(t) => Some(s.(stopped := s.stopped + {t}, clock := s.clock + 1))
  }

  predicate Initial(s: State) {
    && s.alerting == {} && s.changedAt == map[] && s.receivedAt == map[] && s.registeredAt == map[]
    && forall n :: n in s.tables ==> s.tables[n].seqNo == s.tables[n].trigSeq && s.tables[n].triggers == {}
  }

  ghost predicate IsRun(states: seq<State>, events: seq<Event>) {
    && |states| == |events| + 1
    && Initial(states[0])
    && forall i :: 0 <= i < |events| ==> Apply(states[i], events[i]) == Some(states[i + 1])
  }

  // Nothing has happened to table `n` that the consumer of `t` could miss: a notification
  // is pending, or it has received one since the last change, or there was no change since
  // it registered.
  ghost predicate Informed(s: State, n: string, t: Trigger) {
    || t in s.pending
    || n !in s.changedAt
    || (t in s.receivedAt && s.changedAt[n] < s.receivedAt[t])
    || ((n, t) in s.registeredAt && s.changedAt[n] <= s.registeredAt[(n, t)])
  }

  ghost predicate TableInv(s: State, n: string)
    requires n in s.tables
  {
    && (Changed(s.tables[n]) ==> n in s.alerting)
    && (n in s.changedAt ==> s.changedAt[n] < s.clock)
    && forall t :: (n, t) in s.registeredAt && t !in s.stopped ==>
         t in s.tables[n].triggers && (!Changed(s.tables[n]) ==> Informed(s, n, t))
  }

  ghost predicate Inv(s: State) {
    && s.alerting <= s.tables.Keys
    && (forall n :: n in s.tables ==> TableInv(s, n))
    && (forall n, t :: (n, t) in s.registeredAt ==> s.registeredAt[(n, t)] < s.clock)
  }

  lemma TransactInv(s: State, e: Event)
    requires Inv(s) && e.Transact? && Apply(s, e).Some?
    ensures Inv(Apply(s, e).value)
  {
    var s' := Apply(s, e).value;
    forall n | n in s'.tables ensures TableInv(s', n) {
      assert TableInv(s, n);
      forall t | (n, t) in s'.registeredAt && t !in s'.stopped
        ensures t in s'.tables[n].triggers && (!Changed(s'.tables[n]) ==> Informed(s', n, t))
      {
        if (n, t) in s.registeredAt {
          assert t in s.tables[n].triggers && Informed(s, n, t);
        } else {
          assert n in e.watches && t == e.trigger;
        }
      }
    }
  }

  lemma AlertInv(s: State, e: Event)
    requires Inv(s) && e.Alert? && Apply(s, e).Some?
    ensures Inv(Apply(s, e).value)
  {
    var s' := Apply(s, e).value;
    forall n | n in s'.tables ensures TableInv(s', n) {
      assert TableInv(s, n);
      forall t | (n, t) in s'.registeredAt && t !in s'.stopped
        ensures t in s'.tables[n].triggers && (!Changed(s'.tables[n]) ==> Informed(s', n, t))
      {
        assert t in s.tables[n].triggers && (!Changed(s.tables[n]) ==> Informed(s, n, t));
      }
    }
  }

  lemma OtherInv(s: State, e: Event)
    requires Inv(s) && (e.Receive? || e.Tick? || e.Stop?) && Apply(s, e).Some?
    ensures Inv(Apply(s, e).value)
  {
    var s' := Apply(s, e).value;
    forall n | n in s'.tables ensures TableInv(s', n) {
      assert TableInv(s, n);
      forall t | (n, t) in s'.registeredAt && t !in s'.stopped
        ensures t in s'.tables[n].triggers && (!Changed(s'.tables[n]) ==> Informed(s', n, t))
      {
        assert t in s.tables[n].triggers && (!Changed(s.tables[n]) ==> Informed(s, n, t));
      }
    }
  }

  lemma {:induction false} RunInv(states: seq<State>, events: seq<Event>, k: nat)
    requires IsRun(states, events) && k < |states|
    ensures Inv(states[k])
  {
    if 0 < k {
      RunInv(states, events, k - 1);
      var s, e := states[k - 1], events[k - 1];
      assert Apply(s, e) == Some(states[k]);
      match e
      case Transact(_, _, _) => TransactInv(s, e);
      case Alert(_) => AlertInv(s, e);
      case _ => OtherInv(s, e);
    }
  }

  // No wakeup is lost: in every interleaving, once a table's alert has run, every trigger
  // registered with it and not stopped is informed of the table's last change.
  lemma NoLostWakeups(states: seq<State>, events: seq<Event>, k: nat, n: string, t: Trigger)
    requires IsRun(states, events) && k < |states|
    requires n in states[k].tables && n !in states[k].alerting
    requires (n, t) in states[k].registeredAt && t !in states[k].stopped
    ensures Informed(states[k], n, t)
  {
    RunInv(states, events, k);
    assert TableInv(states[k], n);
  }
}
