/** Event sourcing of bank accounts: an append-only event table with UNIQUE (aggregate_id, version), snapshots
    that cache the fold, and commands that load, validate and append, with any number of writers interleaved
    between the two queries of a load and the insert. Rows of different aggregates never meet, so `State`
    holds the rows of one aggregate. */
module EventSourcing {
  import opened Basics

  datatype Event = Opened(owner: string) | Deposited(amount: int) | Withdrew(amount: int) | Closed

  datatype Account = Account(owner: string, balance: int, open: bool, version: nat)

  datatype Command = OpenAccount(owner: string) | Deposit(amount: int) | Withdraw(amount: int)

  const FRESH := Account("", 0, false, 0)

  /** Account.apply. */
  function Apply(a: Account, e: Event): Account {
    var b := match e
             case Opened(owner) => a.(owner := owner, open := true)
             case Deposited(amount) => a.(balance := a.balance + amount)
             case Withdrew(amount) => a.(balance := a.balance - amount)
             case Closed => a.(open := false);
    b.(version := a.version + 1)
  }

  /** The state after a log. */
  function Fold(a: Account, log: seq<Event>): Account {
    if log == [] then a else Apply(Fold(a, log[..|log| - 1]), log[|log| - 1])
  }

  /** The event a command appends, if the loaded state allows it. */
  function Validate(a: Account, c: Command): Option<Event> {
    match c
    case OpenAccount(owner) => if a.open then None else Some(Opened(owner))
    case Deposit(amount) => if !a.open then None else Some(Deposited(amount))
    case Withdraw(amount) => if !a.open || a.balance < amount then None else Some(Withdrew(amount))
  }

  // ---------------------------------------------------------------- tables and steps

  type Events = map<nat, Event>       // by version
  type Snapshots = map<nat, Account>  // by version

  /** A writer: after the snapshot query (`from` and the state found), or after the events query. */
  datatype Writer = HasSnapshot(acc: Account, from: nat) | Loaded(acc: Account)

  datatype State = State(events: Events, snapshots: Snapshots, writers: map<nat, Writer>)

  datatype Step =
    | ReadSnapshot(w: nat)
    | ReadEvents(w: nat)
    | Append(w: nat, c: Command)
    | TakeSnapshot(w: nat)

  const INIT := State(map[], map[], map[])

  /** ORDER BY version DESC LIMIT 1. */
  function Latest(snapshots: Snapshots): Account {
    if snapshots.Keys == {} then FRESH else snapshots[MaxOf(snapshots.Keys)]
  }

  /** The events with a version above `from`, in version order, as far as `top`. */
  function After(events: Events, from: nat, top: nat): seq<Event>
    decreases top
  {
    if top <= from then []
    else
      var before := After(events, from, top - 1);
      if top in events then before + [events[top]] else before
  }

  function Next(s: State, step: Step): State {
    match step
    case ReadSnapshot(w) =>
      s.(writers := s.writers[w := HasSnapshot(Latest(s.snapshots), MaxOf(s.snapshots.Keys))])
    case ReadEvents(w) =>
      if w !in s.writers || !s.writers[w].HasSnapshot? then s
      else
        var more := After(s.events, s.writers[w].from, MaxOf(s.events.Keys));
        s.(writers := s.writers[w := Loaded(Fold(s.writers[w].acc, more))])
    case Append(w, c) =>
      if Appends(s, step).None? then s.(writers := s.writers - {w})
      else s.(events := s.events[s.writers[w].acc.version + 1 := Appends(s, step).value], writers := s.writers - {w})
    case TakeSnapshot(w) =>
      if w !in s.writers || !s.writers[w].Loaded? || s.writers[w].acc.version in s.snapshots then s
      else s.(snapshots := s.snapshots[s.writers[w].acc.version := s.writers[w].acc])
  }

  /** The event an Append step inserts: None if the command is invalid, or the version is taken. */
  function Appends(s: State, step: Step): Option<Event> {
    if !step.Append? || step.w !in s.writers || !s.writers[step.w].Loaded? then None
    else
      var acc := s.writers[step.w].acc;
      if acc.version + 1 in s.events then None else Validate(acc, step.c)
  }

  function Run(s: State, steps: seq<Step>): State {
    if steps == [] then s else Next(Run(s, steps[..|steps| - 1]), steps[|steps| - 1])
  }

  // ---------------------------------------------------------------- the log behind the table

  function Top(events: Events): nat {
    MaxOf(events.Keys)
  }

  /** Versions are 1, 2, .. without a gap. */
  ghost predicate Dense(events: Events) {
    forall v: nat :: v in events <==> 1 <= v <= Top(events)
  }

  /** The first `n` events. */
  function Prefix(events: Events, n: nat): seq<Event> {
    After(events, 0, n)
  }

  /** The whole log. */
  function Log(events: Events): seq<Event> {
    Prefix(events, Top(events))
  }

  lemma {:induction false} PrefixIs(events: Events, n: nat)
    requires Dense(events) && n <= Top(events)
    ensures |Prefix(events, n)| == n && forall v: nat :: 1 <= v <= n ==> Prefix(events, n)[v - 1] == events[v]
  {
    if n > 0 {
      PrefixIs(events, n - 1);
    }
  }

  lemma {:induction false} FoldVersion(a: Account, log: seq<Event>)
    ensures Fold(a, log).version == a.version + |log|
  {
    if log != [] {
      FoldVersion(a, log[..|log| - 1]);
    }
  }

  lemma {:induction false} FoldConcat(a: Account, log: seq<Event>, more: seq<Event>)
    ensures Fold(a, log + more) == Fold(Fold(a, log), more)
  {
    if more == [] {
      assert log + more == log;
    } else {
      assert (log + more)[..|log + more| - 1] == log + more[..|more| - 1];
      FoldConcat(a, log, more[..|more| - 1]);
    }
  }

  // ---------------------------------------------------------------- what a log says, without folding it

  /** The money that came in. */
  function Paid(log: seq<Event>): int {
    if log == [] then 0
    else Paid(log[..|log| - 1]) + match log[|log| - 1] { case Deposited(amount) => amount case _ => 0 }
  }

  /** The money that went out. */
  function Drawn(log: seq<Event>): int {
    if log == [] then 0
    else Drawn(log[..|log| - 1]) + match log[|log| - 1] { case Withdrew(amount) => amount case _ => 0 }
  }

  /** Opened, and not closed since. */
  ghost predicate IsOpen(log: seq<Event>) {
    exists i: nat :: i < |log| && log[i].Opened? && forall j: nat :: i < j < |log| ==> !log[j].Closed?
  }

  /** The owner of the last opening, if there was one. */
  ghost predicate OwnedBy(log: seq<Event>, owner: string) {
    || (owner == "" && forall i: nat :: i < |log| ==> !log[i].Opened?)
    || (exists i: nat :: i < |log| && log[i] == Opened(owner) && forall j: nat :: i < j < |log| ==> !log[j].Opened?)
  }

  lemma IsOpenSnoc(log: seq<Event>, e: Event)
    ensures IsOpen(log + [e]) <==> e.Opened? || (IsOpen(log) && !e.Closed?)
  {
    var more := log + [e];
    assert more[|log|] == e && forall i: nat :: i < |log| ==> more[i] == log[i];
    if e.Opened? {
      assert IsOpen(more);
    } else if IsOpen(log) && !e.Closed? {
      var i: nat :| i < |log| && log[i].Opened? && forall j: nat :: i < j < |log| ==> !log[j].Closed?;
      assert more[i].Opened?;
    }
  }

  lemma OwnedBySnoc(log: seq<Event>, e: Event, owner: string)
    requires if e.Opened? then owner == e.owner else OwnedBy(log, owner)
    ensures OwnedBy(log + [e], owner)
  {
    var more := log + [e];
    assert more[|log|] == e && forall i: nat :: i < |log| ==> more[i] == log[i];
    if !e.Opened? && exists i: nat :: i < |log| && log[i].Opened? {
      var i: nat :| i < |log| && log[i] == Opened(owner) && forall j: nat :: i < j < |log| ==> !log[j].Opened?;
      assert more[i] == Opened(owner);
    }
  }

  /** The fold of a log is the money in less the money out, under the owner of the last opening, open if not closed
      since, at the version that counts the events. */
  lemma {:induction false} FoldSays(log: seq<Event>)
    ensures var a := Fold(FRESH, log);
            && a.balance == Paid(log) - Drawn(log) && a.version == |log|
            && (a.open <==> IsOpen(log)) && OwnedBy(log, a.owner)
  {
    if log != [] {
      var front, e := log[..|log| - 1], log[|log| - 1];
      FoldSays(front);
      assert log == front + [e];
      IsOpenSnoc(front, e);
      OwnedBySnoc(front, e, Fold(FRESH, log).owner);
    }
  }

  /** The events after a snapshot are the rest of the log. */
  lemma {:induction false} AfterIsRest(events: Events, from: nat, top: nat)
    requires from <= top
    ensures Prefix(events, top) == Prefix(events, from) + After(events, from, top)
    decreases top
  {
    if from < top {
      AfterIsRest(events, from, top - 1);
    }
  }

  lemma {:induction false} PrefixStable(events: Events, v: nat, e: Event, n: nat)
    requires n < v
    ensures Prefix(events[v := e], n) == Prefix(events, n)
  {
    if n > 0 {
      PrefixStable(events, v, e, n - 1);
    }
  }

  // ---------------------------------------------------------------- what a run must keep

  /** `acc` is the fold of the first `acc.version` events. */
  ghost predicate Faithful(events: Events, acc: Account) {
    acc.version <= Top(events) && acc == Fold(FRESH, Prefix(events, acc.version))
  }

  ghost predicate SnapshotsFaithful(events: Events, snapshots: Snapshots) {
    forall v: nat :: v in snapshots ==> snapshots[v].version == v && Faithful(events, snapshots[v])
  }

  ghost predicate WritersFaithful(events: Events, writers: map<nat, Writer>) {
    forall w: nat :: w in writers ==>
      Faithful(events, writers[w].acc) && (writers[w].HasSnapshot? ==> writers[w].acc.version == writers[w].from)
  }

  ghost predicate Inv(s: State) {
    Dense(s.events) && SnapshotsFaithful(s.events, s.snapshots) && WritersFaithful(s.events, s.writers)
  }

  lemma FreshFaithful(events: Events)
    ensures Faithful(events, FRESH)
  {
    assert Prefix(events, 0) == [];
  }

  /** From any snapshot of the log, replaying what comes after it gives the fold of the whole log. */
  lemma LoadIsFold(events: Events, acc: Account)
    requires Dense(events) && Faithful(events, acc)
    ensures Fold(acc, After(events, acc.version, Top(events))) == Fold(FRESH, Log(events))
    ensures Fold(FRESH, Log(events)).version == Top(events)
  {
    AfterIsRest(events, acc.version, Top(events));
    FoldConcat(FRESH, Prefix(events, acc.version), After(events, acc.version, Top(events)));
    PrefixIs(events, Top(events));
    FoldVersion(FRESH, Log(events));
  }

  lemma TopGrows(events: Events, e: Event)
    requires Dense(events)
    ensures var events' := events[Top(events) + 1 := e]; Top(events') == Top(events) + 1 && Dense(events')
  {
    var events' := events[Top(events) + 1 := e];
    assert Top(events) + 1 in events'.Keys;
    assert Top(events') in events'.Keys;
  }

  lemma StillFaithful(events: Events, e: Event, acc: Account)
    requires Dense(events) && Faithful(events, acc)
    ensures Faithful(events[Top(events) + 1 := e], acc)
  {
    TopGrows(events, e);
    PrefixStable(events, Top(events) + 1, e, acc.version);
  }

  /** An insert that the UNIQUE constraint lets through goes right after the newest event. */
  lemma AppendGoesLast(s: State, step: Step)
    requires Inv(s) && Appends(s, step).Some?
    ensures s.writers[step.w].acc.version == Top(s.events)
    ensures s.writers[step.w].acc == Fold(FRESH, Log(s.events))
  {
  }

  lemma AllStillFaithful(s: State, e: Event)
    requires Inv(s)
    ensures var events' := s.events[Top(s.events) + 1 := e];
            SnapshotsFaithful(events', s.snapshots) && WritersFaithful(events', s.writers)
  {
    hide Faithful, Top;
    forall v: nat | v in s.snapshots ensures Faithful(s.events[Top(s.events) + 1 := e], s.snapshots[v]) {
      StillFaithful(s.events, e, s.snapshots[v]);
    }
    forall w: nat | w in s.writers ensures Faithful(s.events[Top(s.events) + 1 := e], s.writers[w].acc) {
      StillFaithful(s.events, e, s.writers[w].acc);
    }
  }

  lemma WriterLeaves(events: Events, writers: map<nat, Writer>, w: nat)
    requires WritersFaithful(events, writers)
    ensures WritersFaithful(events, writers - {w})
  {
    hide Faithful;
  }

  lemma AppendAccepted(s: State, w: nat, e: Event)
    requires Inv(s)
    ensures Inv(s.(events := s.events[Top(s.events) + 1 := e], writers := s.writers - {w}))
  {
    hide SnapshotsFaithful, WritersFaithful, Dense;
    TopGrows(s.events, e);
    AllStillFaithful(s, e);
    WriterLeaves(s.events[Top(s.events) + 1 := e], s.writers, w);
  }

  lemma AppendKeeps(s: State, w: nat, c: Command)
    requires Inv(s)
    ensures Inv(Next(s, Append(w, c)))
  {
    hide SnapshotsFaithful, WritersFaithful, Validate, Dense;
    WriterLeaves(s.events, s.writers, w);
    if Appends(s, Append(w, c)).Some? {
      AppendGoesLast(s, Append(w, c));
      AppendAccepted(s, w, Appends(s, Append(w, c)).value);
    }
  }

  lemma WriterKeeps(s: State, w: nat, writer: Writer)
    requires Inv(s) && Faithful(s.events, writer.acc) && (writer.HasSnapshot? ==> writer.acc.version == writer.from)
    ensures Inv(s.(writers := s.writers[w := writer]))
  {
  }

  lemma SnapshotKeeps(s: State, w: nat)
    requires Inv(s) && w in s.writers
    ensures Inv(s.(snapshots := s.snapshots[s.writers[w].acc.version := s.writers[w].acc]))
  {
  }

  lemma LatestFaithful(s: State)
    requires Inv(s)
    ensures Faithful(s.events, Latest(s.snapshots)) && Latest(s.snapshots).version == MaxOf(s.snapshots.Keys)
  {
    FreshFaithful(s.events);
  }

  /** A load that started from a faithful state ends in the fold of the whole log. */
  lemma ReadEventsKeeps(s: State, w: nat)
    requires Inv(s) && w in s.writers && s.writers[w].HasSnapshot?
    ensures Next(s, ReadEvents(w)) == s.(writers := s.writers[w := Loaded(Fold(FRESH, Log(s.events)))])
    ensures Inv(Next(s, ReadEvents(w)))
  {
    LoadIsFold(s.events, s.writers[w].acc);
    WriterKeeps(s, w, Loaded(Fold(FRESH, Log(s.events))));
  }

  lemma StepKeeps(s: State, step: Step)
    requires Inv(s)
    ensures Inv(Next(s, step))
  {
    hide Inv, Faithful, Appends;
    match step
    case ReadSnapshot(w) =>
      LatestFaithful(s);
      WriterKeeps(s, w, HasSnapshot(Latest(s.snapshots), MaxOf(s.snapshots.Keys)));
    case ReadEvents(w) =>
      if w in s.writers && s.writers[w].HasSnapshot? { ReadEventsKeeps(s, w); }
    case Append(w, c) => AppendKeeps(s, w, c);
    case TakeSnapshot(w) =>
      if w in s.writers { SnapshotKeeps(s, w); }
  }

  lemma {:induction false} RunKeeps(steps: seq<Step>)
    ensures Inv(Run(INIT, steps))
  {
    if steps != [] {
      hide Inv, Next;
      RunKeeps(steps[..|steps| - 1]);
      StepKeeps(Run(INIT, steps[..|steps| - 1]), steps[|steps| - 1]);
    } else {
      assert Top(map[]) == 0;
    }
  }

  // ---------------------------------------------------------------- results

  /** Each aggregate's versions are exactly 1..n, whatever the writers did. */
  lemma VersionsDense(steps: seq<Step>)
    ensures Dense(Run(INIT, steps).events)
  {
    RunKeeps(steps);
  }

  /** Snapshots are transparent: whatever was snapshotted when, and although writers come in between the two
      queries, a load returns the fold of the whole log as of its second query. */
  lemma SnapshotsTransparent(steps: seq<Step>, w: nat)
    ensures var s := Run(INIT, steps);
            w in s.writers && s.writers[w].HasSnapshot? ==>
              Next(s, ReadEvents(w)).writers[w] == Loaded(Fold(FRESH, Log(s.events)))
  {
    RunKeeps(steps);
    var s := Run(INIT, steps);
    if w in s.writers && s.writers[w].HasSnapshot? {
      ReadEventsKeeps(s, w);
    }
  }

  /** The log is append-only. */
  lemma {:induction false} EventsGrow(s: State, steps: seq<Step>, v: nat)
    requires v in s.events
    ensures v in Run(s, steps).events && Run(s, steps).events[v] == s.events[v]
  {
    if steps != [] {
      EventsGrow(s, steps[..|steps| - 1], v);
    }
  }

  lemma {:induction false} RunConcat(s: State, steps: seq<Step>, more: seq<Step>)
    ensures Run(s, steps + more) == Run(Run(s, steps), more)
  {
    if more == [] {
      assert steps + more == steps;
    } else {
      assert (steps + more)[..|steps + more| - 1] == steps + more[..|more| - 1];
      RunConcat(s, steps, more[..|more| - 1]);
    }
  }

  /** Of the appends that race for a version, at most one succeeds. */
  lemma OneWinner(steps: seq<Step>, i: nat, j: nat)
    requires i < j < |steps|
    requires Appends(Run(INIT, steps[..i]), steps[i]).Some? && Appends(Run(INIT, steps[..j]), steps[j]).Some?
    ensures Run(INIT, steps[..i]).writers[steps[i].w].acc.version
            != Run(INIT, steps[..j]).writers[steps[j].w].acc.version
  {
    var before := Run(INIT, steps[..i]);
    var v := before.writers[steps[i].w].acc.version + 1;
    assert steps[..i + 1][..i] == steps[..i];
    assert v in Run(INIT, steps[..i + 1]).events;
    assert steps[..j] == steps[..i + 1] + steps[i + 1..j];
    RunConcat(INIT, steps[..i + 1], steps[i + 1..j]);
    EventsGrow(Run(INIT, steps[..i + 1]), steps[i + 1..j], v);
  }

  // ---------------------------------------------------------------- business rules over the whole log

  /** Money moves only on an open account, and only a closed one is opened. */
  predicate Permits(a: Account, e: Event) {
    && (e.Deposited? || e.Withdrew? ==> a.open)
    && (e.Opened? ==> !a.open)
  }

  ghost predicate SoundAt(log: seq<Event>, k: nat)
    requires k <= |log|
  {
    && Fold(FRESH, log[..k]).balance >= 0
    && (k < |log| ==> Permits(Fold(FRESH, log[..k]), log[k]))
  }

  /** No prefix overdraws, and every event is permitted by the prefix before it. */
  ghost predicate Sound(log: seq<Event>) {
    forall k: nat :: k <= |log| ==> SoundAt(log, k)
  }

  /** The check that Deposit does not make. */
  predicate Overdraws(a: Account, e: Event) {
    e.Deposited? && a.balance + e.amount < 0
  }

  lemma ValidPermits(a: Account, c: Command)
    ensures Validate(a, c).Some? ==> Permits(a, Validate(a, c).value)
    ensures Validate(a, c).Some? && a.balance >= 0 ==>
              (Apply(a, Validate(a, c).value).balance < 0 <==> Overdraws(a, Validate(a, c).value))
  {
  }

  /** Soundness of a log and one more event is soundness of the log, and of its last two prefixes. */
  lemma SoundSplit(log: seq<Event>, e: Event)
    ensures Sound(log + [e]) <==>
              (Sound(log) && Permits(Fold(FRESH, log), e) && Apply(Fold(FRESH, log), e).balance >= 0)
  {
    hide Permits, Apply;
    var more := log + [e];
    var n := |log|;
    assert more[..n] == log && log[..n] == log && more[..n + 1] == more;
    assert Fold(FRESH, more) == Apply(Fold(FRESH, log), e);
    assert SoundAt(more, n + 1) <==> Apply(Fold(FRESH, log), e).balance >= 0;
    assert SoundAt(more, n) <==> SoundAt(log, n) && Permits(Fold(FRESH, log), e);
    forall k: nat | k < n ensures SoundAt(more, k) <==> SoundAt(log, k) {
      assert more[..k] == log[..k];
    }
    hide SoundAt;
    assert Sound(more) ==> SoundAt(more, n) && SoundAt(more, n + 1);
    assert Sound(log) ==> SoundAt(log, n);
  }

  lemma SoundSnoc(log: seq<Event>, c: Command)
    ensures var acc := Fold(FRESH, log);
            var e := Validate(acc, c);
            e.Some? ==> (Sound(log + [e.value]) <==> Sound(log) && !Overdraws(acc, e.value))
  {
    hide Validate, Apply, Permits, Overdraws;
    var acc := Fold(FRESH, log);
    var e := Validate(acc, c);
    if e.Some? {
      SoundSplit(log, e.value);
      ValidPermits(acc, c);
      assert Sound(log) ==> SoundAt(log, |log|);
      assert log[..|log|] == log;
    }
  }

  lemma LogSnoc(events: Events, e: Event)
    requires Dense(events)
    ensures Log(events[Top(events) + 1 := e]) == Log(events) + [e]
  {
    TopGrows(events, e);
    PrefixStable(events, Top(events) + 1, e, Top(events));
  }

  /** The step appends a deposit that the account it loaded cannot bear. */
  predicate OverdrawsAt(s: State, step: Step) {
    Appends(s, step).Some? && Overdraws(s.writers[step.w].acc, Appends(s, step).value)
  }

  lemma SoundStep(s: State, step: Step)
    requires Inv(s)
    ensures Sound(Log(Next(s, step).events)) <==> Sound(Log(s.events)) && !OverdrawsAt(s, step)
  {
    if Appends(s, step).Some? {
      AppendGoesLast(s, step);
      LogSnoc(s.events, Appends(s, step).value);
      SoundSnoc(Log(s.events), step.c);
    }
  }

  ghost predicate NeverOverdraws(steps: seq<Step>) {
    forall i :: 0 <= i < |steps| ==> !OverdrawsAt(Run(INIT, steps[..i]), steps[i])
  }

  lemma NeverOverdrawsSnoc(steps: seq<Step>)
    requires steps != []
    ensures var front := steps[..|steps| - 1];
            NeverOverdraws(steps) <==> NeverOverdraws(front) && !OverdrawsAt(Run(INIT, front), steps[|steps| - 1])
  {
    hide OverdrawsAt, Run;
    var front := steps[..|steps| - 1];
    assert forall i :: 0 <= i < |front| ==> front[..i] == steps[..i] && front[i] == steps[i];
  }

  lemma EmptySound()
    ensures Sound(Log(INIT.events))
  {
    assert Log(map[]) == [];
  }

  /** The rules that commands check against loads that may be stale hold of the log at every point, in every
      interleaving, exactly when no negative deposit exceeds the balance, which the code does not check. */
  lemma {:induction false} LogSoundExactly(steps: seq<Step>)
    ensures Sound(Log(Run(INIT, steps).events)) <==> NeverOverdraws(steps)
  {
    if steps == [] {
      EmptySound();
    } else {
      hide OverdrawsAt, Sound, Next, Inv, NeverOverdraws, Log;
      LogSoundExactly(steps[..|steps| - 1]);
      RunKeeps(steps[..|steps| - 1]);
      SoundStep(Run(INIT, steps[..|steps| - 1]), steps[|steps| - 1]);
      NeverOverdrawsSnoc(steps);
    }
  }

  /** In particular non-negative deposits are enough. */
  lemma {:induction false} NonNegativeDepositsAreSound(steps: seq<Step>)
    requires forall i :: 0 <= i < |steps| && steps[i].Append? && steps[i].c.Deposit? ==> steps[i].c.amount >= 0
    ensures Sound(Log(Run(INIT, steps).events))
  {
    if steps == [] {
      EmptySound();
    } else {
      hide Sound, Next, Inv, Log;
      NonNegativeDepositsAreSound(steps[..|steps| - 1]);
      RunKeeps(steps[..|steps| - 1]);
      LoadedIsSound(Run(INIT, steps[..|steps| - 1]), steps[|steps| - 1]);
    }
  }

  /** A writer that loads and appends with nobody in between. */
  function Session(w: nat, c: Command): seq<Step> {
    [ReadSnapshot(w)] + [ReadEvents(w)] + [Append(w, c)]
  }

  lemma SessionRuns(s: State, w: nat, c: Command)
    requires Inv(s) && Validate(Fold(FRESH, Log(s.events)), c).Some?
    ensures var s', e := Run(s, Session(w, c)), Validate(Fold(FRESH, Log(s.events)), c).value;
            Inv(s') && Log(s'.events) == Log(s.events) + [e]
  {
    hide Inv, Log, Faithful, Fold, Validate, Run;
    var s1 := Next(s, ReadSnapshot(w));
    StepKeeps(s, ReadSnapshot(w));
    ReadEventsKeeps(s1, w);
    var s2 := Next(s1, ReadEvents(w));
    StepKeeps(s2, Append(w, c));
    SessionSteps(s, w, c);
    LoadedAppends(s2, w, c);
  }

  lemma SessionSteps(s: State, w: nat, c: Command)
    ensures Run(s, Session(w, c)) == Next(Next(Next(s, ReadSnapshot(w)), ReadEvents(w)), Append(w, c))
  {
    hide Next;
    assert Session(w, c)[..2] == [ReadSnapshot(w)] + [ReadEvents(w)];
    assert ([ReadSnapshot(w)] + [ReadEvents(w)])[..1] == [ReadSnapshot(w)] && [ReadSnapshot(w)][..0] == [];
    assert Run(s, [ReadSnapshot(w)]) == Next(s, ReadSnapshot(w));
    assert Run(s, [ReadSnapshot(w)] + [ReadEvents(w)]) == Next(Next(s, ReadSnapshot(w)), ReadEvents(w));
  }

  lemma LoadedAppends(s: State, w: nat, c: Command)
    requires Inv(s) && w in s.writers && s.writers[w] == Loaded(Fold(FRESH, Log(s.events)))
    requires Validate(s.writers[w].acc, c).Some?
    ensures Log(Next(s, Append(w, c)).events) == Log(s.events) + [Validate(s.writers[w].acc, c).value]
  {
    FreshFaithful(s.events);
    LoadIsFold(s.events, FRESH);
    LogSnoc(s.events, Validate(s.writers[w].acc, c).value);
    hide Validate, Fold;
  }

  /** A negative deposit into a new account is accepted and overdraws it. */
  lemma NegativeDepositOverdraws(w: nat, owner: string, amount: int)
    requires amount < 0
    ensures var log := Log(Run(INIT, Session(w, OpenAccount(owner)) + Session(w, Deposit(amount))).events);
            log == [Opened(owner), Deposited(amount)] && !Sound(log)
  {
    NothingLogged();
    var first := Run(INIT, Session(w, OpenAccount(owner)));
    SessionRuns(INIT, w, OpenAccount(owner));
    FoldOpened(owner);
    assert Log(first.events) == [Opened(owner)];
    SessionRuns(first, w, Deposit(amount));
    hide Run, Inv, Sound, Fold, Log;
    RunConcat(INIT, Session(w, OpenAccount(owner)), Session(w, Deposit(amount)));
    SoundSplit([Opened(owner)], Deposited(amount));
  }

  lemma NothingLogged()
    ensures Inv(INIT) && Log(INIT.events) == [] && Fold(FRESH, []) == FRESH
  {
    assert Top(map[]) == 0;
  }

  lemma FoldOpened(owner: string)
    ensures Fold(FRESH, [Opened(owner)]) == Account(owner, 0, true, 1)
  {
    assert [Opened(owner)][..0] == [];
  }

  lemma LoadedIsSound(s: State, step: Step)
    requires Inv(s) && Sound(Log(s.events))
    requires step.Append? && step.c.Deposit? ==> step.c.amount >= 0
    ensures Sound(Log(Next(s, step).events))
  {
    SoundStep(s, step);
    if Appends(s, step).Some? {
      AppendGoesLast(s, step);
      assert SoundAt(Log(s.events), |Log(s.events)|);
      assert Log(s.events)[..|Log(s.events)|] == Log(s.events);
      assert s.writers[step.w].acc.balance >= 0;
    }
  }
}
