/** The event store as its methods run it: an account whose fields are updated event by event, and the two
    tables, keyed by aggregate. */
module EventStore {
  import opened Basics
  import opened EventSourcing

  class LiveAccount {
    var owner: string
    var balance: int
    var open: bool
    var version: nat

    ghost function Value(): Account
      reads this
    {
      Account(owner, balance, open, version)
    }

    constructor (from: Account)
      ensures Value() == from
    {
      owner, balance, open, version := from.owner, from.balance, from.open, from.version;
    }

    method ApplyEvent(e: Event)
      modifies this
      ensures Value() == Apply(old(Value()), e)
      ensures balance == old(balance) + (if e.Deposited? then e.amount else if e.Withdrew? then -e.amount else 0)
      ensures owner == (if e.Opened? then e.owner else old(owner)) && version == old(version) + 1
      ensures open == (e.Opened? || (old(open) && !e.Closed?))
    {
      match e {
        case Opened(name) =>
          owner := name;
          open := true;
        case Deposited(amount) => balance := balance + amount;
        case Withdrew(amount) => balance := balance - amount;
        case Closed => open := false;
      }
      version := version + 1;
    }
  }

  /** Every row of one aggregate's tables is as a run of the step machine leaves it. */
  ghost predicate Coherent(events: Events, snapshots: Snapshots) {
    Inv(State(events, snapshots, map[]))
  }

  lemma NoRowsCoherent()
    ensures Coherent(map[], map[])
  {
    assert Top(map[]) == 0;
  }

  lemma AppendCoherent(events: Events, snapshots: Snapshots, v: nat, e: Event)
    requires Coherent(events, snapshots) && v <= Top(events) && v + 1 !in events
    ensures v == Top(events) && Coherent(events[v + 1 := e], snapshots)
    ensures Log(events[v + 1 := e]) == Log(events) + [e]
  {
    hide SnapshotsFaithful, WritersFaithful, Log;
    assert v == Top(events) by { assert v < Top(events) ==> v + 1 in events; }
    TopGrows(events, e);
    LogSnoc(events, e);
    AllStillFaithful(State(events, snapshots, map[]), e);
  }

  lemma FoldSnoc(a: Account, log: seq<Event>, k: nat)
    requires k < |log|
    ensures Fold(a, log[..k + 1]) == Apply(Fold(a, log[..k]), log[k])
  {
    assert log[..k + 1][..k] == log[..k];
  }

  lemma AfterLength(events: Events, from: nat, top: nat)
    requires Dense(events) && from <= top <= Top(events)
    ensures |After(events, from, top)| == top - from
  {
    PrefixIs(events, from);
    PrefixIs(events, top);
    AfterIsRest(events, from, top);
  }

  lemma NewestSnapshot(events: Events, snapshots: Snapshots)
    requires Coherent(events, snapshots)
    ensures Faithful(events, Latest(snapshots)) && Latest(snapshots).version == MaxOf(snapshots.Keys)
  {
    LatestFaithful(State(events, snapshots, map[]));
  }

  lemma FoldOneMore(log: seq<Event>, e: Event)
    ensures Fold(FRESH, log + [e]) == Apply(Fold(FRESH, log), e)
  {
    assert (log + [e])[..|log|] == log;
  }

  class Store {
    var events: map<string, Events>
    var snapshots: map<string, Snapshots>

    function EventsOf(id: string): Events
      reads this
    {
      if id in events then events[id] else map[]
    }

    function SnapshotsOf(id: string): Snapshots
      reads this
    {
      if id in snapshots then snapshots[id] else map[]
    }

    ghost predicate Valid()
      reads this
    {
      forall id :: Coherent(EventsOf(id), SnapshotsOf(id))
    }

    /** The state of an aggregate according to its whole history. */
    ghost function Truth(id: string): Account
      reads this
    {
      Fold(FRESH, Log(EventsOf(id)))
    }

    constructor ()
      ensures Valid() && events == map[] && snapshots == map[]
    {
      events, snapshots := map[], map[];
      new;
      NoRowsCoherent();
    }

    /** Whatever snapshots there are, the result is the fold of the whole log; they only save replaying. */
    method Load(id: string) returns (acc: LiveAccount, replayed: nat)
      requires Valid()
      ensures fresh(acc) && acc.Value() == Truth(id)
      ensures acc.balance == Paid(Log(EventsOf(id))) - Drawn(Log(EventsOf(id)))
      ensures replayed + MaxOf(SnapshotsOf(id).Keys) == Top(EventsOf(id))
    {
      ghost var start := Latest(SnapshotsOf(id));
      var fromVersion := 0;
      if SnapshotsOf(id).Keys != {} {
        fromVersion := MaxOf(SnapshotsOf(id).Keys);
        acc := new LiveAccount(SnapshotsOf(id)[fromVersion]);
      } else {
        acc := new LiveAccount(FRESH);
      }
      assert Coherent(EventsOf(id), SnapshotsOf(id));
      NewestSnapshot(EventsOf(id), SnapshotsOf(id));
      var rows := After(EventsOf(id), fromVersion, MaxOf(EventsOf(id).Keys));
      replayed := 0;
      while replayed < |rows|
        invariant replayed <= |rows|
        invariant fresh(acc) && acc.Value() == Fold(start, rows[..replayed])
      {
        FoldSnoc(start, rows, replayed);
        acc.ApplyEvent(rows[replayed]);
        replayed := replayed + 1;
      }
      assert rows[..replayed] == rows;
      LoadIsFold(EventsOf(id), start);
      FoldSays(Log(EventsOf(id)));
      AfterLength(EventsOf(id), fromVersion, Top(EventsOf(id)));
    }

    /** Optimistic concurrency: the event is inserted at `expected + 1` unless that version is taken. A caller
        whose `expected` is not beyond the log extends the log by exactly this event, or is refused. */
    method AppendEvent(id: string, expected: nat, e: Event) returns (ok: bool)
      requires Valid()
      modifies this`events
      ensures ok <==> expected + 1 !in old(EventsOf(id))
      ensures events == if ok then old(events)[id := old(EventsOf(id))[expected + 1 := e]] else old(events)
      ensures expected <= Top(old(EventsOf(id))) ==>
                && Valid()
                && (ok <==> expected == Top(old(EventsOf(id))))
                && Log(EventsOf(id)) == old(Log(EventsOf(id))) + if ok then [e] else []
    {
      assert Coherent(EventsOf(id), SnapshotsOf(id));
      if expected + 1 in EventsOf(id) {
        return false;
      }
      if expected <= Top(EventsOf(id)) {
        AppendCoherent(EventsOf(id), SnapshotsOf(id), expected, e);
      }
      events := events[id := EventsOf(id)[expected + 1 := e]];
      ok := true;
      hide Coherent;
      forall other | other != id ensures Coherent(EventsOf(other), SnapshotsOf(other)) {
        assert old(Coherent(EventsOf(other), SnapshotsOf(other)));
      }
    }

    /** A snapshot of any state that some load returned keeps every later load exact. */
    method Snapshot(id: string, acc: LiveAccount)
      requires Valid() && Faithful(EventsOf(id), acc.Value())
      modifies this`snapshots
      ensures Valid()
      ensures snapshots == old(snapshots)[id := SnapshotsOf(id)]
      ensures SnapshotsOf(id) == (if acc.version in old(SnapshotsOf(id)) then old(SnapshotsOf(id))
                                  else old(SnapshotsOf(id))[acc.version := acc.Value()])
    {
      assert Coherent(EventsOf(id), SnapshotsOf(id));
      var table := SnapshotsOf(id);
      if acc.version !in table {
        table := table[acc.version := Account(acc.owner, acc.balance, acc.open, acc.version)];
      }
      snapshots := snapshots[id := table];
      forall other ensures Coherent(EventsOf(other), SnapshotsOf(other)) {
        assert other != id ==> old(Coherent(EventsOf(other), SnapshotsOf(other)));
      }
    }

    /** Opens the account under this owner, unless it is open; the balance stays. */
    method OpenAccount(id: string, owner: string) returns (ok: bool)
      requires Valid()
      modifies this`events
      ensures Valid() && Logged(old(events), old(Truth(id)), id, Command.OpenAccount(owner), ok)
      ensures ok <==> !old(Truth(id)).open
      ensures ok ==> Truth(id) == Account(owner, old(Truth(id)).balance, true, old(Truth(id)).version + 1)
      ensures !ok ==> Truth(id) == old(Truth(id))
    {
      hide Coherent, Fold, Log;
      var acc, _ := Load(id);
      LoadedVersion(id);
      if acc.open { return false; }
      FoldOneMore(Log(EventsOf(id)), Opened(owner));
      ok := AppendEvent(id, acc.version, Opened(owner));
    }

    /** Adds the amount to the balance of an open account, and changes nothing else of it. */
    method Deposit(id: string, amount: int) returns (ok: bool)
      requires Valid()
      modifies this`events
      ensures Valid() && Logged(old(events), old(Truth(id)), id, Command.Deposit(amount), ok)
      ensures ok <==> old(Truth(id)).open
      ensures ok ==> Truth(id) == Account(old(Truth(id)).owner, old(Truth(id)).balance + amount, true,
                                          old(Truth(id)).version + 1)
      ensures !ok ==> Truth(id) == old(Truth(id))
    {
      hide Coherent, Fold, Log;
      var acc, _ := Load(id);
      LoadedVersion(id);
      if !acc.open { return false; }
      FoldOneMore(Log(EventsOf(id)), Deposited(amount));
      ok := AppendEvent(id, acc.version, Deposited(amount));
    }

    /** Takes the amount off the balance of an open account that has it, and changes nothing else of it. */
    method Withdraw(id: string, amount: int) returns (ok: bool)
      requires Valid()
      modifies this`events
      ensures Valid() && Logged(old(events), old(Truth(id)), id, Command.Withdraw(amount), ok)
      ensures ok <==> old(Truth(id)).open && old(Truth(id)).balance >= amount
      ensures ok ==> Truth(id) == Account(old(Truth(id)).owner, old(Truth(id)).balance - amount, true,
                                          old(Truth(id)).version + 1)
      ensures !ok ==> Truth(id) == old(Truth(id))
    {
      hide Coherent, Fold, Log;
      var acc, _ := Load(id);
      LoadedVersion(id);
      if !acc.open { return false; }
      if acc.balance < amount { return false; }
      FoldOneMore(Log(EventsOf(id)), Withdrew(amount));
      ok := AppendEvent(id, acc.version, Withdrew(amount));
    }

    lemma LoadedVersion(id: string)
      requires Valid()
      ensures Truth(id).version == Top(EventsOf(id))
    {
      assert Coherent(EventsOf(id), SnapshotsOf(id));
      FreshFaithful(EventsOf(id));
      LoadIsFold(EventsOf(id), FRESH);
    }

    /** A command that is alone succeeds exactly when the truth allows it; then the aggregate's log has its one
        event more and the other aggregates their old logs, else nothing changed. */
    ghost predicate Logged(before: map<string, Events>, truth: Account, id: string, c: Command, ok: bool)
      reads this
    {
      && ok == Validate(truth, c).Some?
      && (!ok ==> events == before)
      && (ok ==> Log(EventsOf(id)) == Log(if id in before then before[id] else map[]) + [Validate(truth, c).value])
      && (forall other :: other != id ==> EventsOf(other) == if other in before then before[other] else map[])
    }
  }
}
