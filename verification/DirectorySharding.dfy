/** Directory-based sharding: a lookup table from tenant to shard, routers that cache it, writes fenced by
    `hosted_tenants`, and the online move of one tenant to another shard.

    Every committed transaction or single statement is one step. A step that is blocked, or whose guard
    fails, leaves the state alone, so a run is any list of steps whatsoever. All tables and caches are keyed
    by tenant and no statement touches two tenants, so `State` holds the rows of one tenant in all databases
    and `Fleet` (below) puts all tenants together. */
module DirectorySharding {
  import opened Basics

  type Shard = string
  type RouterId = nat
  type MoveId = nat
  type Amount = int
  type Rows = map<nat, Amount>   // the tenant's orders on one shard, by id

  datatype Status = Active | Moving
  datatype DirRow = DirRow(shard: Shard, status: Status, version: nat)
  datatype Entry = Entry(shard: Shard, version: nat)
  datatype Phase = Marked | Fenced | Copied | TargetCommitted | SourceCommitted
  datatype Move = Move(router: RouterId, source: Shard, target: Shard, phase: Phase, data: Rows)

  /** An InsertOrders call: `entry` is None before the lookup of this attempt, Some before its INSERT. */
  datatype Call = Call(amounts: seq<Amount>, attempt: nat, entry: Option<Entry>)

  /** `hosted` and `orders` are committed rows; `fenced` holds the shards whose `hosted_tenants` row is
      deleted by a source transaction that is still open. `home` and `acked` are history: where the
      authoritative copy was put last, and the amounts of the acknowledged orders in order. `onboarding` holds
      the shards of Onboard calls that have hosted the tenant but not entered it in the directory yet. */
  datatype State = State(
    directory: Option<DirRow>,
    hosted: set<Shard>,
    fenced: set<Shard>,
    orders: map<Shard, Rows>,
    caches: map<RouterId, Entry>,
    calls: map<RouterId, Call>,
    onboarding: set<Shard>,
    moves: map<MoveId, Move>,
    home: Option<Shard>,
    acked: seq<Amount>)

  datatype Step =
    | OnboardHost(sh: Shard)
    | OnboardDirectory(sh: Shard)
    | Peek(r: RouterId)
    | StartInsert(r: RouterId, amounts: seq<Amount>)
    | ResolveInsert(r: RouterId)
    | ExecInsert(r: RouterId)
    | MoveMark(m: MoveId, r: RouterId, target: Shard)
    | MoveFence(m: MoveId)
    | MoveCopy(m: MoveId)
    | MoveCommitTarget(m: MoveId)
    | MoveCommitSource(m: MoveId)
    | MoveFlip(m: MoveId)
    | MoverDies(m: MoveId)

  const INIT := State(None, {}, {}, map[], map[], map[], {}, map[], None, [])

  // ---------------------------------------------------------------- statements

  /** The rows kept under a key: a shard here, a shard and a tenant where all tenants share a table. */
  function RowsAt<K>(orders: map<K, Rows>, at: K): Rows {
    if at in orders then orders[at] else map[]
  }

  function Item(amounts: seq<Amount>, top: nat, id: nat): Amount
    requires top < id <= top + |amounts|
  {
    amounts[id - top - 1]
  }

  /** The amounts under the ids top + 1, top + 2, .. */
  function Numbered(top: nat, amounts: seq<Amount>): Rows {
    map id: nat | top < id <= top + |amounts| :: Item(amounts, top, id)
  }

  /** The rows an INSERT leaves: ids continue after `coalesce(max(id), 0)`. */
  function Extend(rows: Rows, amounts: seq<Amount>): Rows {
    rows + Numbered(MaxOf(rows.Keys), amounts)
  }

  /** The table that holds the amounts of `log` under the ids 1, 2, .., |log| and nothing else. */
  function Table(log: seq<Amount>): Rows {
    Numbered(0, log)
  }

  /** Router.lookup: the entry it returns, None for an unknown tenant. */
  function LookupEntry(cached: Option<Entry>, directory: Option<DirRow>): Option<Entry> {
    if cached.Some? then cached
    else if directory.Some? then Some(Entry(directory.value.shard, directory.value.version))
    else None
  }

  /** Router.lookup: the cache entry it leaves; a mapping that is mid-move is never cached. */
  function LookupCached(cached: Option<Entry>, directory: Option<DirRow>): Option<Entry> {
    if directory.Some? && directory.value.status.Active? then LookupEntry(cached, directory) else cached
  }

  function CacheOf(s: State, r: RouterId): Option<Entry> {
    if r in s.caches then Some(s.caches[r]) else None
  }

  function WithLookup(s: State, r: RouterId): State {
    var e := LookupCached(CacheOf(s, r), s.directory);
    if e.Some? then s.(caches := s.caches[r := e.value]) else s
  }

  // ---------------------------------------------------------------- steps

  function Next(s: State, step: Step): State {
    match step
    case OnboardHost(sh) =>
      if sh in s.hosted then s
      else s.(hosted := s.hosted + {sh}, onboarding := s.onboarding + {sh}, home := Some(sh))
    case OnboardDirectory(sh) =>
      if sh !in s.onboarding then s
      else if s.directory.Some? then s.(onboarding := s.onboarding - {sh})   // key violation: the process stops
      else s.(directory := Some(DirRow(sh, Active, 1)), onboarding := s.onboarding - {sh})
    case Peek(r) => WithLookup(s, r)
    case StartInsert(r, amounts) =>
      if r in s.calls then s else s.(calls := s.calls[r := Call(amounts, 0, None)])
    case ResolveInsert(r) => Resolve(s, r)
    case ExecInsert(r) => Exec(s, r)
    case MoveMark(m, r, target) => Mark(s, m, r, target)
    case MoveFence(m) =>
      if !InPhase(s, m, Marked) || s.moves[m].source in s.fenced then s
      else Advance(s, m, Fenced).(fenced := s.fenced + {s.moves[m].source})
    case MoveCopy(m) =>
      if !InPhase(s, m, Fenced) then s
      else s.(moves := s.moves[m := s.moves[m].(phase := Copied, data := RowsAt(s.orders, s.moves[m].source))])
    case MoveCommitTarget(m) => CommitTarget(s, m)
    case MoveCommitSource(m) => CommitSource(s, m)
    case MoveFlip(m) => Flip(s, m)
    case MoverDies(m) => Die(s, m)
  }

  predicate InPhase(s: State, m: MoveId, p: Phase) {
    m in s.moves && s.moves[m].phase == p
  }

  function Advance(s: State, m: MoveId, p: Phase): State
    requires m in s.moves
  {
    s.(moves := s.moves[m := s.moves[m].(phase := p)])
  }

  /** The source transaction is open and holds the deleted `hosted_tenants` row. */
  predicate HoldsFence(p: Phase) {
    p.Fenced? || p.Copied? || p.TargetCommitted?
  }

  function Resolve(s: State, r: RouterId): State {
    if r !in s.calls || s.calls[r].entry.Some? then s
    else
      var e := LookupEntry(CacheOf(s, r), s.directory);
      if e.None? then s.(calls := s.calls - {r})   // unknown tenant: the process stops
      else WithLookup(s, r).(calls := s.calls[r := s.calls[r].(entry := e)])
  }

  /** The fenced INSERT. It waits while the row is fenced; zero rows mean the mapping was stale. */
  function Exec(s: State, r: RouterId): State {
    if r !in s.calls || s.calls[r].entry.None? then s
    else
      var c := s.calls[r];
      var sh := c.entry.value.shard;
      if sh in s.fenced then s
      else if sh in s.hosted && c.amounts != [] then
        s.(orders := s.orders[sh := Extend(RowsAt(s.orders, sh), c.amounts)],
           acked := s.acked + c.amounts,
           calls := s.calls - {r})
      else
        s.(caches := s.caches - {r},
           calls := if c.attempt == 0 then s.calls[r := Call(c.amounts, 1, None)] else s.calls - {r})
  }

  function Mark(s: State, m: MoveId, r: RouterId, target: Shard): State {
    if m in s.moves || s.directory.None? || !s.directory.value.status.Active? then s
    else s.(directory := Some(s.directory.value.(status := Moving)),
            moves := s.moves[m := Move(r, s.directory.value.shard, target, Marked, map[])])
  }

  /** COPY plus INSERT INTO hosted_tenants. It cannot commit if a key is taken already, or if it would have
      to wait for the mover's own open source transaction. */
  function CommitTarget(s: State, m: MoveId): State {
    if !InPhase(s, m, Copied) || !CopyFits(s, s.moves[m]) then s
    else
      var mv := s.moves[m];
      Advance(s, m, TargetCommitted).(
        hosted := s.hosted + {mv.target},
        orders := s.orders[mv.target := RowsAt(s.orders, mv.target) + mv.data],
        home := Some(mv.target))
  }

  predicate CopyFits(s: State, mv: Move) {
    mv.target !in s.hosted && RowsAt(s.orders, mv.target).Keys !! mv.data.Keys
  }

  function CommitSource(s: State, m: MoveId): State {
    if !InPhase(s, m, TargetCommitted) then s
    else
      var source := s.moves[m].source;
      Advance(s, m, SourceCommitted).(
        hosted := s.hosted - {source}, fenced := s.fenced - {source}, orders := s.orders - {source})
  }

  function Flip(s: State, m: MoveId): State {
    if !InPhase(s, m, SourceCommitted) || s.directory.None? then s
    else
      var mv := s.moves[m];
      s.(directory := Some(DirRow(mv.target, Active, s.directory.value.version + 1)),
         moves := s.moves - {m},
         caches := s.caches - {mv.router})
  }

  /** The mover's process stops; an open source transaction is rolled back. */
  function Die(s: State, m: MoveId): State {
    if m !in s.moves then s
    else
      var mv := s.moves[m];
      s.(moves := s.moves - {m}, fenced := if HoldsFence(mv.phase) then s.fenced - {mv.source} else s.fenced)
  }

  function Run(s: State, steps: seq<Step>): State {
    if steps == [] then s
    else Next(Run(s, steps[..|steps| - 1]), steps[|steps| - 1])
  }

  // ---------------------------------------------------------------- what a run must keep

  /** The shard can take a write: the row is there and no open transaction has deleted it. */
  predicate Accepts(s: State, sh: Shard) {
    sh in s.hosted && sh !in s.fenced
  }

  ghost predicate AtMostOneWriter(s: State) {
    forall a, b :: Accepts(s, a) && Accepts(s, b) ==> a == b
  }

  /** Every acknowledged order is on every shard that accepts writes, once, under the ids 1..N, and some
      shard holds all of them even while none accepts. */
  ghost predicate AckedOrdersSafe(s: State) {
    && (forall sh :: Accepts(s, sh) ==> RowsAt(s.orders, sh) == Table(s.acked))
    && (s.home.Some? ==> s.home.value in s.hosted && RowsAt(s.orders, s.home.value) == Table(s.acked))
  }

  /** A mapping is no newer than the directory, and as new only if it names the same shard. */
  predicate Coherent(e: Entry, d: DirRow) {
    e.version <= d.version && (e.version == d.version ==> e.shard == d.shard)
  }

  ghost predicate CachesCoherent(s: State) {
    && (forall r :: r in s.caches ==> s.directory.Some? && Coherent(s.caches[r], s.directory.value))
    && (forall r :: r in s.calls && s.calls[r].entry.Some? ==>
          s.directory.Some? && Coherent(s.calls[r].entry.value, s.directory.value))
  }

  /** The rows without a move in progress. */
  ghost predicate Settled(s: State) {
    && s.fenced == {}
    && (s.home.Some? ==> s.hosted == {s.home.value})
    && (s.home.None? ==> s.hosted == {} && s.acked == [] && s.directory.None? && s.onboarding == {})
    && (forall sh :: sh in s.orders ==> sh in s.hosted)
    && (s.onboarding != {} ==> s.home.Some? && s.onboarding == {s.home.value} && s.directory.None?)
    && (s.directory.Some? && s.directory.value.status.Active? ==> s.home == Some(s.directory.value.shard))
  }

  /** The rows while `mv` is the one move in progress. */
  ghost predicate UnderMove(s: State, mv: Move) {
    && s.onboarding == {}
    && s.directory.Some? && s.directory.value == DirRow(mv.source, Moving, s.directory.value.version)
    && s.fenced == (if HoldsFence(mv.phase) then {mv.source} else {})
    && (forall sh :: sh in s.orders ==> sh in s.hosted)
    && match mv.phase
       case Marked => s.home == Some(mv.source) && s.hosted == {mv.source}
       case Fenced => s.home == Some(mv.source) && s.hosted == {mv.source}
       case Copied => s.home == Some(mv.source) && s.hosted == {mv.source} && mv.data == Table(s.acked)
       case TargetCommitted => s.home == Some(mv.target) && mv.source != mv.target && s.hosted == {mv.source, mv.target}
       case SourceCommitted => s.home == Some(mv.target) && s.hosted == {mv.target}
  }

  ghost predicate RowsInv(s: State) {
    && AckedOrdersSafe(s)
    && (forall m, n :: m in s.moves && n in s.moves ==> m == n)
    && (s.moves == map[] ==> Settled(s))
    && (forall m :: m in s.moves ==> UnderMove(s, s.moves[m]))
  }

  ghost predicate Inv(s: State) {
    RowsInv(s) && CachesCoherent(s)
  }

  // ---------------------------------------------------------------- every step keeps the invariant

  /** The tenant gets a host by an Onboard call. */
  predicate Onboards(s: State, step: Step) {
    step.OnboardHost? && step.sh !in s.hosted
  }

  /** The mover dies between the target commit and the source commit. */
  predicate DiesInWindow(s: State, step: Step) {
    step.MoverDies? && InPhase(s, step.m, TargetCommitted)
  }

  /** Numbering continues where it stopped, so ids stay dense. */
  lemma ExtendTable(log: seq<Amount>, amounts: seq<Amount>)
    ensures Extend(Table(log), amounts) == Table(log + amounts)
  {
    var ids := Table(log).Keys;
    assert log != [] ==> |log| in ids;
    assert MaxOf(ids) == |log|;
  }

  /** `after` is `before` and one more row for each amount of the batch, numbered on from the largest old id. */
  ghost predicate Appended(before: Rows, after: Rows, batch: seq<Amount>) {
    var top := MaxOf(before.Keys);
    && (forall id: nat :: id in before ==> id in after && after[id] == before[id])
    && (forall id: nat :: id in after ==> id in before || top < id <= top + |batch|)
    && (forall i: nat :: i < |batch| ==> top + 1 + i in after && after[top + 1 + i] == batch[i])
  }

  /** The rows are the amounts of the log, in order, under the ids 1..N, and no others. */
  ghost predicate Lists(rows: Rows, log: seq<Amount>) {
    && (forall id: nat :: id in rows ==> 1 <= id <= |log|)
    && (forall i: nat :: i < |log| ==> i + 1 in rows && rows[i + 1] == log[i])
  }

  lemma ExtendAppends(rows: Rows, amounts: seq<Amount>)
    ensures Appended(rows, Extend(rows, amounts), amounts)
  {
    assert forall i: nat :: i < |amounts| ==> Item(amounts, MaxOf(rows.Keys), MaxOf(rows.Keys) + 1 + i) == amounts[i];
  }

  lemma TableLists(log: seq<Amount>)
    ensures Lists(Table(log), log)
  {
    assert forall i: nat :: i < |log| ==> Item(log, 0, i + 1) == log[i];
  }

  lemma OnboardKeeps(s: State, step: Step)
    requires Inv(s) && (step.OnboardHost? || step.OnboardDirectory?)
    requires Onboards(s, step) ==> s.home.None?
    ensures Inv(Next(s, step))
  {
    assert Table([]) == map[];
  }

  /** Steps that touch neither the directory nor the shards keep what is said about those. */
  lemma SameRows(s: State, s': State)
    requires RowsInv(s)
    requires s' == s.(caches := s'.caches, calls := s'.calls)
    ensures RowsInv(s')
  {
    assert s.moves == map[] ==> Settled(s');
    assert forall m :: m in s.moves ==> UnderMove(s', s.moves[m]);
  }

  lemma LookupCoherent(s: State, step: Step)
    requires CachesCoherent(s) && (step.Peek? || step.StartInsert? || step.ResolveInsert?)
    ensures CachesCoherent(Next(s, step))
  {
  }

  lemma LookupKeeps(s: State, step: Step)
    requires Inv(s) && (step.Peek? || step.StartInsert? || step.ResolveInsert?)
    ensures Inv(Next(s, step))
  {
    hide RowsInv, CachesCoherent;
    LookupCoherent(s, step);
    SameRows(s, Next(s, step));
  }

  lemma ExecKeeps(s: State, r: RouterId)
    requires Inv(s)
    ensures Inv(Exec(s, r))
  {
    var s' := Exec(s, r);
    if s'.acked == s.acked && s'.orders == s.orders {
      SameRows(s, s');
    } else {
      WriteKeeps(s, r);
    }
  }

  lemma WriteKeeps(s: State, r: RouterId)
    requires Inv(s)
    requires r in s.calls && s.calls[r].entry.Some? && s.calls[r].amounts != []
    requires Accepts(s, s.calls[r].entry.value.shard)
    ensures Inv(Exec(s, r))
  {
    var sh := s.calls[r].entry.value.shard;
    ExtendTable(s.acked, s.calls[r].amounts);
    assert Some(sh) == s.home;
  }

  lemma MarkKeeps(s: State, m: MoveId, r: RouterId, target: Shard)
    requires Inv(s)
    ensures Inv(Mark(s, m, r, target))
  {
  }

  lemma FenceKeeps(s: State, m: MoveId)
    requires Inv(s)
    ensures Inv(Next(s, MoveFence(m)))
  {
    var s' := Next(s, MoveFence(m));
    if s' != s {
      assert m in s'.moves && s'.fenced == {s.moves[m].source};
      assert UnderMove(s', s'.moves[m]);
    }
  }

  lemma CopyKeeps(s: State, m: MoveId)
    requires Inv(s)
    ensures Inv(Next(s, MoveCopy(m)))
  {
  }

  lemma CommitTargetKeeps(s: State, m: MoveId)
    requires Inv(s)
    ensures Inv(CommitTarget(s, m))
  {
  }

  lemma CommitSourceKeeps(s: State, m: MoveId)
    requires Inv(s)
    ensures Inv(CommitSource(s, m))
  {
  }

  lemma FlipKeeps(s: State, m: MoveId)
    requires Inv(s)
    ensures Inv(Flip(s, m))
  {
  }

  lemma DieKeeps(s: State, m: MoveId)
    requires Inv(s) && !InPhase(s, m, TargetCommitted)
    ensures Inv(Die(s, m))
  {
  }

  lemma StepKeeps(s: State, step: Step)
    requires Inv(s) && !DiesInWindow(s, step)
    requires Onboards(s, step) ==> s.home.None?
    ensures Inv(Next(s, step))
  {
    match step
    case OnboardHost(_) => OnboardKeeps(s, step);
    case OnboardDirectory(_) => OnboardKeeps(s, step);
    case Peek(_) => LookupKeeps(s, step);
    case StartInsert(_, _) => LookupKeeps(s, step);
    case ResolveInsert(_) => LookupKeeps(s, step);
    case ExecInsert(r) => ExecKeeps(s, r);
    case MoveMark(m, r, target) => MarkKeeps(s, m, r, target);
    case MoveFence(m) => FenceKeeps(s, m);
    case MoveCopy(m) => CopyKeeps(s, m);
    case MoveCommitTarget(m) => CommitTargetKeeps(s, m);
    case MoveCommitSource(m) => CommitSourceKeeps(s, m);
    case MoveFlip(m) => FlipKeeps(s, m);
    case MoverDies(m) => DieKeeps(s, m);
  }

  // ---------------------------------------------------------------- whole runs

  /** How many Onboard calls gave the tenant a host. */
  function Onboardings(s: State, steps: seq<Step>): nat {
    if steps == [] then 0
    else
      var front, last := steps[..|steps| - 1], steps[|steps| - 1];
      Onboardings(s, front) + if Onboards(Run(s, front), last) then 1 else 0
  }

  /** How many movers died between the target commit and the source commit. */
  function WindowDeaths(s: State, steps: seq<Step>): nat {
    if steps == [] then 0
    else
      var front, last := steps[..|steps| - 1], steps[|steps| - 1];
      WindowDeaths(s, front) + if DiesInWindow(Run(s, front), last) then 1 else 0
  }

  // -- how many hosts there are

  /** Some move is between its fence and its target commit: its source takes no writes. */
  ghost predicate HeldBack(s: State) {
    exists m :: InPhase(s, m, Fenced) || InPhase(s, m, Copied)
  }

  ghost predicate InWindow(s: State) {
    exists m :: InPhase(s, m, TargetCommitted)
  }

  /** What a move in progress says about the hosts, whoever else hosts the tenant. */
  ghost predicate MoveShape(s: State, mv: Move) {
    && s.directory.Some? && s.directory.value.status.Moving? && s.directory.value.shard == mv.source
    && s.fenced == (if HoldsFence(mv.phase) then {mv.source} else {})
    && (!mv.phase.SourceCommitted? ==> mv.source in s.hosted)
    && (mv.phase.TargetCommitted? ==> mv.source != mv.target)
    && (mv.phase.TargetCommitted? || mv.phase.SourceCommitted? ==> mv.target in s.hosted)
  }

  ghost predicate Shape(s: State) {
    && (forall m, n :: m in s.moves && n in s.moves ==> m == n)
    && (s.moves == map[] ==> s.fenced == {})
    && (forall m :: m in s.moves ==> MoveShape(s, s.moves[m]))
    && (s.directory.None? ==> s.moves == map[] && s.onboarding <= s.hosted)
    && (s.directory.Some? && s.directory.value.status.Active? ==>
        s.moves == map[] && s.directory.value.shard in s.hosted)
  }

  ghost function Spare(s: State): nat {
    if InWindow(s) then 1 else 0
  }

  /** A run leaves one host for every onboarding and every death in the window, and one more in the window. */
  ghost predicate HostCount(s: State, n: nat) {
    Shape(s) && |s.hosted| == n + Spare(s)
  }

  lemma SameMovesShape(s: State, s': State)
    requires Shape(s) && s'.moves == s.moves && s'.fenced == s.fenced && s.hosted <= s'.hosted
    requires s'.directory == s.directory && s'.onboarding <= s.onboarding + (s'.hosted - s.hosted)
    ensures Shape(s') && Spare(s') == Spare(s)
  {
    forall m | m in s.moves ensures MoveShape(s', s.moves[m]) {
      assert MoveShape(s, s.moves[m]);
    }
    assert forall m :: InPhase(s', m, TargetCommitted) <==> InPhase(s, m, TargetCommitted);
  }

  lemma OnboardShape(s: State, step: Step)
    requires Shape(s) && (step.OnboardHost? || step.OnboardDirectory?)
    ensures Shape(Next(s, step)) && Spare(Next(s, step)) == Spare(s)
    ensures Next(s, step).hosted == if Onboards(s, step) then s.hosted + {step.sh} else s.hosted
  {
    if step.OnboardDirectory? && s.directory.None? {
      NoMoves(s);
      NoMoves(Next(s, step));
    } else {
      SameMovesShape(s, Next(s, step));
    }
  }

  lemma RouterShape(s: State, step: Step)
    requires Shape(s) && (step.Peek? || step.StartInsert? || step.ResolveInsert? || step.ExecInsert?)
    ensures Shape(Next(s, step)) && Spare(Next(s, step)) == Spare(s)
    ensures Next(s, step).hosted == s.hosted
  {
    hide Shape, Spare;
    SameMovesShape(s, Next(s, step));
  }

  lemma OnlyMove(s: State, m: MoveId)
    requires Shape(s) && m in s.moves
    ensures s.moves == map[m := s.moves[m]] && MoveShape(s, s.moves[m])
    ensures InWindow(s) <==> s.moves[m].phase.TargetCommitted?
    ensures HeldBack(s) <==> s.moves[m].phase.Fenced? || s.moves[m].phase.Copied?
  {
    assert forall n :: n in s.moves ==> n == m;
    assert InPhase(s, m, s.moves[m].phase);
  }

  lemma AdvancedShape(s': State, m: MoveId, mv: Move)
    requires s'.moves == map[m := mv] && MoveShape(s', mv)
    ensures Shape(s') && Spare(s') == if mv.phase.TargetCommitted? then 1 else 0
  {
    assert InPhase(s', m, mv.phase);
  }

  lemma NoMoves(s: State)
    requires s.moves == map[]
    ensures !InWindow(s) && !HeldBack(s)
  {
  }

  lemma MarkShape(s: State, m: MoveId, r: RouterId, target: Shard)
    requires Shape(s)
    ensures var s' := Mark(s, m, r, target);
            Shape(s') && s'.hosted == s.hosted && Spare(s') == Spare(s)
  {
    var s' := Mark(s, m, r, target);
    if s' != s {
      NoMoves(s);
      assert s'.moves == map[m := s'.moves[m]];
      AdvancedShape(s', m, s'.moves[m]);
    }
  }

  lemma BeforeCommitShape(s: State, step: Step)
    requires Shape(s) && (step.MoveFence? || step.MoveCopy?)
    ensures var s' := Next(s, step);
            Shape(s') && s'.hosted == s.hosted && Spare(s') == Spare(s)
  {
    var s' := Next(s, step);
    if s' != s {
      OnlyMove(s, step.m);
      assert s'.moves == map[step.m := s'.moves[step.m]];
      AdvancedShape(s', step.m, s'.moves[step.m]);
    }
  }

  lemma CommitTargetShape(s: State, m: MoveId)
    requires Shape(s)
    ensures var s' := CommitTarget(s, m);
            Shape(s') && |s'.hosted| - Spare(s') == |s.hosted| - Spare(s)
  {
    var s' := CommitTarget(s, m);
    if s' != s {
      OnlyMove(s, m);
      assert s'.moves == map[m := s'.moves[m]];
      AdvancedShape(s', m, s'.moves[m]);
    }
  }

  lemma CommitSourceShape(s: State, m: MoveId)
    requires Shape(s)
    ensures var s' := CommitSource(s, m);
            Shape(s') && |s'.hosted| - Spare(s') == |s.hosted| - Spare(s)
  {
    var s' := CommitSource(s, m);
    if s' != s {
      OnlyMove(s, m);
      assert s'.moves == map[m := s'.moves[m]];
      AdvancedShape(s', m, s'.moves[m]);
    }
  }

  lemma EndShape(s: State, step: Step)
    requires Shape(s) && (step.MoveFlip? || step.MoverDies?)
    ensures var s' := Next(s, step);
            && Shape(s') && s'.hosted == s.hosted
            && Spare(s') == (if DiesInWindow(s, step) then 0 else Spare(s))
            && (DiesInWindow(s, step) ==> Spare(s) == 1 && |s.hosted| >= 2)
  {
    var s' := Next(s, step);
    if s' != s {
      OnlyMove(s, step.m);
      assert s'.moves == map[];
      NoMoves(s');
      if DiesInWindow(s, step) {
        var mv := s.moves[step.m];
        assert |{mv.source, mv.target}| <= |s.hosted| by { SubsetSize({mv.source, mv.target}, s.hosted); }
      }
    }
  }

  lemma {:induction false} SubsetSize<T>(a: set<T>, b: set<T>)
    requires a <= b
    ensures |a| <= |b|
  {
    assert b == a + (b - a);
  }

  lemma CountStep(s: State, step: Step, n: nat)
    requires HostCount(s, n)
    ensures HostCount(Next(s, step), n + (if Onboards(s, step) then 1 else 0) + if DiesInWindow(s, step) then 1 else 0)
    ensures DiesInWindow(s, step) ==> n > 0
  {
    hide Shape, Spare;
    match step {
      case MoveMark(m, r, target) => MarkShape(s, m, r, target);
      case MoveFence(_) => BeforeCommitShape(s, step);
      case MoveCopy(_) => BeforeCommitShape(s, step);
      case MoveCommitTarget(m) => CommitTargetShape(s, m);
      case MoveCommitSource(m) => CommitSourceShape(s, m);
      case MoveFlip(_) => EndShape(s, step);
      case MoverDies(_) => EndShape(s, step);
      case OnboardHost(_) => OnboardShape(s, step);
      case OnboardDirectory(_) => OnboardShape(s, step);
      case _ => RouterShape(s, step);
    }
  }

  lemma {:induction false} HostsCounted(steps: seq<Step>)
    ensures HostCount(Run(INIT, steps), Onboardings(INIT, steps) + WindowDeaths(INIT, steps))
    ensures WindowDeaths(INIT, steps) > 0 ==> Onboardings(INIT, steps) > 0
  {
    hide HostCount, Next, Onboards, DiesInWindow;
    if steps == [] {
      InitCount();
    } else {
      var front := steps[..|steps| - 1];
      HostsCounted(front);
      CountStep(Run(INIT, front), steps[|steps| - 1], Onboardings(INIT, front) + WindowDeaths(INIT, front));
    }
  }

  lemma InitCount()
    ensures HostCount(INIT, 0)
  {
  }

  ghost function Writers(s: State): set<Shard> {
    s.hosted - s.fenced
  }

  lemma WritersCounted(s: State, n: nat)
    requires HostCount(s, n)
    ensures |Writers(s)| + (if HeldBack(s) then 1 else 0) == n
    ensures AtMostOneWriter(s) <==> |Writers(s)| <= 1
  {
    FewWriters(s);
    if s.moves == map[] {
      NoMoves(s);
      assert Writers(s) == s.hosted;
    } else {
      var m :| m in s.moves;
      OnlyMove(s, m);
    }
  }

  lemma FewWriters(s: State)
    ensures AtMostOneWriter(s) <==> |Writers(s)| <= 1
  {
    var w := Writers(s);
    assert forall b :: b in w <==> Accepts(s, b);
    if w != {} {
      var a :| a in w;
      if AtMostOneWriter(s) {
        assert w == {a};
      } else {
        var b, c :| Accepts(s, b) && Accepts(s, c) && b != c;
        assert b in w && c in w;
        assert |{b, c}| == 2;
        SubsetSize({b, c}, w);
      }
    }
  }

  // -- the invariant of well-behaved runs

  lemma InitInv()
    ensures Inv(INIT)
  {
    assert Table([]) == map[];
  }

  /** There is nothing to route or move before the tenant is onboarded. */
  predicate Unknown(s: State) {
    s.home.None? && s.moves == map[] && s.directory.None? && s.onboarding == {} && s.hosted == {}
  }

  lemma UnknownStays(s: State, step: Step)
    requires Unknown(s) && !Onboards(s, step)
    ensures Unknown(Next(s, step))
  {
  }

  lemma {:induction false} HomeNeedsOnboard(steps: seq<Step>)
    requires Onboardings(INIT, steps) == 0
    ensures Unknown(Run(INIT, steps))
  {
    if steps != [] {
      HomeNeedsOnboard(steps[..|steps| - 1]);
      UnknownStays(Run(INIT, steps[..|steps| - 1]), steps[|steps| - 1]);
    }
  }

  lemma {:induction false} RunKeeps(steps: seq<Step>)
    requires Onboardings(INIT, steps) <= 1 && WindowDeaths(INIT, steps) == 0
    ensures Inv(Run(INIT, steps))
  {
    hide Inv, Next, Onboards, DiesInWindow;
    if steps == [] {
      InitInv();
    } else {
      var front, last := steps[..|steps| - 1], steps[|steps| - 1];
      RunKeeps(front);
      if Onboards(Run(INIT, front), last) {
        HomeNeedsOnboard(front);
      }
      StepKeeps(Run(INIT, front), last);
    }
  }

  // ---------------------------------------------------------------- results

  /** After any run, every accepted onboarding and every death between the target commit and the source commit
      has left one shard that accepts writes, not counting a source that a move is holding back. So there is at
      most one writer exactly if they are at most one together, or two while a move holds one back; and with no
      move in progress, exactly if no onboarding after the first was accepted and no mover died in that window. */
  lemma OneWriterExactly(steps: seq<Step>)
    ensures var s, n := Run(INIT, steps), Onboardings(INIT, steps) + WindowDeaths(INIT, steps);
            && |Writers(s)| + (if HeldBack(s) then 1 else 0) == n
            && (AtMostOneWriter(s) <==> n <= if HeldBack(s) then 2 else 1)
    ensures var s := Run(INIT, steps);
            s.moves == map[] ==>
              (AtMostOneWriter(s) <==> Onboardings(INIT, steps) <= 1 && WindowDeaths(INIT, steps) == 0)
  {
    hide HostCount, AtMostOneWriter, Onboardings, WindowDeaths, Run, Writers, HeldBack;
    HostsCounted(steps);
    WritersCounted(Run(INIT, steps), Onboardings(INIT, steps) + WindowDeaths(INIT, steps));
    if Run(INIT, steps).moves == map[] { NoMoves(Run(INIT, steps)); }
  }

  /** No acknowledged order is lost or duplicated, and ids stay 1..N, if at most one onboarding was accepted and
      no mover died in the window. */
  lemma AckedOrdersSurvive(steps: seq<Step>)
    requires Onboardings(INIT, steps) <= 1 && WindowDeaths(INIT, steps) == 0
    ensures AckedOrdersSafe(Run(INIT, steps))
    ensures var s := Run(INIT, steps);
            && (forall sh :: Accepts(s, sh) && s.acked != [] ==> sh in s.orders && Lists(s.orders[sh], s.acked))
            && (s.acked != [] ==> s.home.Some? && s.home.value in s.hosted
                                  && s.home.value in s.orders && Lists(s.orders[s.home.value], s.acked))
  {
    RunKeeps(steps);
    var s := Run(INIT, steps);
    TableLists(s.acked);
    InvHome(s);
    if s.acked != [] {
      assert 1 in Table(s.acked);
      forall sh | Accepts(s, sh) ensures sh in s.orders && Lists(s.orders[sh], s.acked) {
        assert RowsAt(s.orders, sh) == Table(s.acked);
      }
    }
  }

  lemma InvHome(s: State)
    requires Inv(s)
    ensures s.acked != [] ==> s.home.Some?
  {
    if s.moves != map[] {
      var m :| m in s.moves;
      assert UnderMove(s, s.moves[m]);
    }
  }

  /** No cached mapping runs ahead of the directory, in any run whatsoever. */
  lemma {:induction false} CachesStayCoherent(steps: seq<Step>)
    ensures CachesCoherent(Run(INIT, steps))
  {
    hide Next, CachesCoherent;
    if steps == [] {
      NothingCached();
    } else {
      CachesStayCoherent(steps[..|steps| - 1]);
      StepCoherent(Run(INIT, steps[..|steps| - 1]), steps[|steps| - 1]);
    }
  }

  lemma NothingCached()
    ensures CachesCoherent(INIT)
  {
  }

  lemma StepCoherent(s: State, step: Step)
    requires CachesCoherent(s)
    ensures CachesCoherent(Next(s, step))
  {
    if step.Peek? || step.StartInsert? || step.ResolveInsert? {
      LookupCoherent(s, step);
    }
  }

  /** The copy can commit at the target, whatever happened before, exactly when it is another shard. */
  lemma CopyFitsExactly(s: State, m: MoveId)
    requires Inv(s) && InPhase(s, m, Copied)
    ensures CopyFits(s, s.moves[m]) <==> s.moves[m].target != s.moves[m].source
  {
  }

  /** Onboarding a tenant a second time, on another shard, makes two writers. */
  lemma OnboardingTwiceSplits(a: Shard, b: Shard)
    requires a != b
    ensures !AtMostOneWriter(Run(INIT, [OnboardHost(a), OnboardHost(b)]))
  {
    var s1 := Next(INIT, OnboardHost(a));
    var s2 := Next(s1, OnboardHost(b));
    assert [OnboardHost(a), OnboardHost(b)][..1] == [OnboardHost(a)];
    assert [OnboardHost(a)][..0] == [];
    assert Run(INIT, [OnboardHost(a)]) == s1;
    assert Accepts(s2, a) && Accepts(s2, b);
  }

  /** The accident can hit every move that has copied its rows: if the mover stops right after the target
      commit, two shards accept writes; if it goes on to the source commit, one does. */
  lemma DeathInWindowHappens(s: State, m: MoveId)
    requires Inv(s) && InPhase(s, m, Copied) && s.moves[m].target != s.moves[m].source
    ensures var moved := CommitTarget(s, m);
            !AtMostOneWriter(Die(moved, m)) && AtMostOneWriter(CommitSource(moved, m))
  {
    CopyFitsExactly(s, m);
    CommitTargetKeeps(s, m);
    var moved := CommitTarget(s, m);
    CommitSourceKeeps(moved, m);
    var dead := Die(moved, m);
    assert UnderMove(moved, moved.moves[m]);
    assert Accepts(dead, s.moves[m].target) && Accepts(dead, s.moves[m].source);
    assert UnderMove(CommitSource(moved, m), CommitSource(moved, m).moves[m]);
  }

  // ---------------------------------------------------------------- InsertOrders with no move in progress

  function Attempt(s: State, r: RouterId): State {
    Exec(Resolve(s, r), r)
  }

  function InsertAlone(s: State, r: RouterId, amounts: seq<Amount>): State {
    Attempt(Attempt(Next(s, StartInsert(r, amounts)), r), r)
  }

  /** Nobody is moving the tenant. The directory row may be active, or left as moving by a mover that died. */
  ghost predicate Resting(s: State) {
    Inv(s) && s.moves == map[] && s.directory.Some?
  }

  lemma RestingAccepts(s: State)
    requires Resting(s)
    ensures s.fenced == {} && s.home.Some? && s.hosted == {s.home.value}
    ensures RowsAt(s.orders, s.home.value) == Table(s.acked)
    ensures s.directory.value.status.Active? ==> s.home.value == s.directory.value.shard
  {
  }

  /** One attempt writes if the mapping it finds names the home shard; else it drops the mapping. */
  lemma AttemptSettles(s: State, r: RouterId)
    requires Resting(s) && r in s.calls && s.calls[r].entry.None?
    ensures var s' := Attempt(s, r);
            var c, e := s.calls[r], LookupEntry(CacheOf(s, r), s.directory).value;
            var ok := c.amounts != [] && s.home == Some(e.shard);
            && Resting(s') && s'.directory == s.directory && s'.home == s.home
            && (ok ==> && r !in s'.calls && s'.acked == s.acked + c.amounts
                       && s'.caches == WithLookup(s, r).caches)
            && (!ok ==> && s'.acked == s.acked && s'.orders == s.orders && r !in s'.caches
                        && s'.calls == (if c.attempt == 0 then s.calls[r := c.(attempt := 1)] else s.calls - {r}))
  {
    hide RowsInv, CachesCoherent, Extend;
    LookupKeeps(s, ResolveInsert(r));
    ExecKeeps(Resolve(s, r), r);
    RestingAccepts(s);
  }

  /** With no move in progress two attempts are enough, from any reachable cache, exactly if the directory or the
      cached mapping names the home shard: then the orders land there. Otherwise nothing is written. With an
      active directory row they always land, and the router's cache names the directory's shard. */
  lemma InsertSettlesExactly(s: State, r: RouterId, amounts: seq<Amount>)
    requires Resting(s) && r !in s.calls
    ensures var s' := InsertAlone(s, r, amounts);
            var sh := s.directory.value.shard;
            var named := s.home == Some(sh) || (r in s.caches && s.home == Some(s.caches[r].shard));
            && r !in s'.calls && s.home.Some?
            && (amounts != [] && named ==>
                  && s'.acked == s.acked + amounts
                  && RowsAt(s'.orders, s.home.value) == Table(s.acked + amounts)
                  && s.home.value in s'.orders && Lists(s'.orders[s.home.value], s.acked + amounts))
            && (!(amounts != [] && named) ==> s'.acked == s.acked && s'.orders == s.orders)
            && (amounts != [] && s.directory.value.status.Active? ==>
                  s'.acked == s.acked + amounts && r in s'.caches && s'.caches[r].shard == sh)
  {
    hide Inv, Attempt;
    var s1 := Next(s, StartInsert(r, amounts));
    LookupKeeps(s, StartInsert(r, amounts));
    AttemptSettles(s1, r);
    var s2 := Attempt(s1, r);
    if r in s2.calls {
      AttemptSettles(s2, r);
    } else {
      assert Attempt(s2, r) == s2 by { NoAttempt(s2, r); }
    }
    RestingAccepts(s);
    RestingAccepts(Attempt(s2, r));
    TableLists(s.acked + amounts);
    if amounts != [] {
      assert 1 in Table(s.acked + amounts);
    }
  }

  lemma NoAttempt(s: State, r: RouterId)
    requires r !in s.calls
    ensures Attempt(s, r) == s
  {
  }

  // ---------------------------------------------------------------- all tenants together

  type Fleet = map<string, State>

  function Slice(f: Fleet, t: string): State {
    if t in f then f[t] else INIT
  }

  function FleetRun(steps: seq<(string, Step)>): Fleet {
    if steps == [] then map[]
    else
      var f, (t, step) := FleetRun(steps[..|steps| - 1]), steps[|steps| - 1];
      f[t := Next(Slice(f, t), step)]
  }

  function StepsOf(steps: seq<(string, Step)>, t: string): seq<Step> {
    if steps == [] then []
    else
      var before, (u, step) := StepsOf(steps[..|steps| - 1], t), steps[|steps| - 1];
      if u == t then before + [step] else before
  }

  lemma {:induction false} FleetProjects(steps: seq<(string, Step)>, t: string)
    ensures Slice(FleetRun(steps), t) == Run(INIT, StepsOf(steps, t))
  {
    if steps != [] {
      var p := steps[..|steps| - 1];
      FleetProjects(p, t);
      var (u, step) := steps[|steps| - 1];
      if u == t {
        assert (StepsOf(p, t) + [step])[..|StepsOf(p, t)|] == StepsOf(p, t);
      }
    }
  }

  /** The same guarantees for every tenant of a fleet, under every interleaving of everybody's steps. */
  lemma FleetSafe(steps: seq<(string, Step)>, t: string)
    ensures var s, mine := Slice(FleetRun(steps), t), StepsOf(steps, t);
            && (s.moves == map[] ==>
                  (AtMostOneWriter(s) <==> Onboardings(INIT, mine) <= 1 && WindowDeaths(INIT, mine) == 0))
            && (Onboardings(INIT, mine) <= 1 && WindowDeaths(INIT, mine) == 0 ==> AckedOrdersSafe(s))
            && CachesCoherent(s)
  {
    var mine := StepsOf(steps, t);
    FleetProjects(steps, t);
    OneWriterExactly(mine);
    CachesStayCoherent(mine);
    if Onboardings(INIT, mine) <= 1 && WindowDeaths(INIT, mine) == 0 {
      AckedOrdersSurvive(mine);
    }
  }
}
