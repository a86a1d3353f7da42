/** Particular runs of the directory protocol: a whole move or a whole insert with nobody in between, and what a
    second onboarding or a death in the commit window can cost. */
module DirectoryRuns {
  import opened Basics
  import opened DirectorySharding

  // ---------------------------------------------------------------- runs in parts

  lemma {:induction false} RunConcat(s: State, steps: seq<Step>, more: seq<Step>)
    ensures Run(s, steps + more) == Run(Run(s, steps), more)
    ensures Onboardings(s, steps + more) == Onboardings(s, steps) + Onboardings(Run(s, steps), more)
    ensures WindowDeaths(s, steps + more) == WindowDeaths(s, steps) + WindowDeaths(Run(s, steps), more)
  {
    hide Next, Onboards, DiesInWindow;
    if more == [] {
      assert steps + more == steps;
    } else {
      assert (steps + more)[..|steps + more| - 1] == steps + more[..|more| - 1];
      RunConcat(s, steps, more[..|more| - 1]);
    }
  }

  lemma RunSnoc(s: State, steps: seq<Step>, step: Step)
    ensures Run(s, steps + [step]) == Next(Run(s, steps), step)
    ensures Onboardings(s, steps + [step]) == Onboardings(s, steps) + if Onboards(Run(s, steps), step) then 1 else 0
    ensures WindowDeaths(s, steps + [step]) ==
              WindowDeaths(s, steps) + if DiesInWindow(Run(s, steps), step) then 1 else 0
  {
    assert (steps + [step])[..|steps|] == steps;
  }

  lemma NothingRun(s: State)
    ensures Run(s, []) == s && Onboardings(s, []) == 0 && WindowDeaths(s, []) == 0
  {
  }

  // ---------------------------------------------------------------- a whole move

  /** The first four statements of a move. */
  function MoveHead(m: MoveId, r: RouterId, target: Shard): seq<Step> {
    [] + [MoveMark(m, r, target)] + [MoveFence(m)] + [MoveCopy(m)] + [MoveCommitTarget(m)]
  }

  function MoveSteps(m: MoveId, r: RouterId, target: Shard): seq<Step> {
    MoveHead(m, r, target) + [MoveCommitSource(m)] + [MoveFlip(m)]
  }

  /** Nobody is moving the tenant, and the target can take the copy. */
  predicate CanMoveTo(s: State, target: Shard) {
    && s.moves == map[] && s.fenced == {}
    && s.directory.Some? && s.directory.value.status.Active?
    && s.directory.value.shard != target && target !in s.hosted
    && RowsAt(s.orders, target).Keys !! RowsAt(s.orders, s.directory.value.shard).Keys
  }

  /** The state between the two commits. */
  function Halfway(s: State, m: MoveId, r: RouterId, target: Shard): State
    requires s.directory.Some?
  {
    var row := s.directory.value;
    var data := RowsAt(s.orders, row.shard);
    s.(directory := Some(row.(status := Moving)),
       fenced := {row.shard},
       hosted := s.hosted + {target},
       orders := s.orders[target := RowsAt(s.orders, target) + data],
       moves := map[m := Move(r, row.shard, target, TargetCommitted, data)],
       home := Some(target))
  }

  lemma MarkNext(s: State, m: MoveId, r: RouterId, target: Shard)
    requires CanMoveTo(s, target)
    ensures Next(s, MoveMark(m, r, target)) ==
            s.(directory := Some(s.directory.value.(status := Moving)),
               moves := map[m := Move(r, s.directory.value.shard, target, Marked, map[])])
  {
  }

  lemma FenceNext(s: State, m: MoveId, mv: Move)
    requires s.moves == map[m := mv] && mv.phase.Marked? && s.fenced == {}
    ensures Next(s, MoveFence(m)) == s.(fenced := {mv.source}, moves := map[m := mv.(phase := Fenced)])
  {
  }

  lemma CopyNext(s: State, m: MoveId, mv: Move)
    requires s.moves == map[m := mv] && mv.phase.Fenced?
    ensures Next(s, MoveCopy(m)) == s.(moves := map[m := mv.(phase := Copied, data := RowsAt(s.orders, mv.source))])
  {
  }

  lemma CommitTargetNext(s: State, m: MoveId, mv: Move)
    requires s.moves == map[m := mv] && mv.phase.Copied? && CopyFits(s, mv)
    ensures Next(s, MoveCommitTarget(m)) ==
            s.(hosted := s.hosted + {mv.target},
               orders := s.orders[mv.target := RowsAt(s.orders, mv.target) + mv.data],
               moves := map[m := mv.(phase := TargetCommitted)],
               home := Some(mv.target))
  {
  }

  lemma MoveHalfway(s: State, m: MoveId, r: RouterId, target: Shard)
    requires CanMoveTo(s, target)
    ensures Run(s, MoveHead(m, r, target)) == Halfway(s, m, r, target)
    ensures Onboardings(s, MoveHead(m, r, target)) == 0 && WindowDeaths(s, MoveHead(m, r, target)) == 0
  {
    hide Run, Onboardings, WindowDeaths, Next;
    NothingRun(s);
    RunSnoc(s, [], MoveMark(m, r, target));
    RunSnoc(s, [] + [MoveMark(m, r, target)], MoveFence(m));
    RunSnoc(s, [] + [MoveMark(m, r, target)] + [MoveFence(m)], MoveCopy(m));
    RunSnoc(s, [] + [MoveMark(m, r, target)] + [MoveFence(m)] + [MoveCopy(m)], MoveCommitTarget(m));
    MarkNext(s, m, r, target);
    var mv := Move(r, s.directory.value.shard, target, Marked, map[]);
    FenceNext(Next(s, MoveMark(m, r, target)), m, mv);
    CopyNext(Next(Next(s, MoveMark(m, r, target)), MoveFence(m)), m, mv.(phase := Fenced));
    CommitTargetNext(Run(s, [] + [MoveMark(m, r, target)] + [MoveFence(m)] + [MoveCopy(m)]), m,
                     mv.(phase := Copied, data := RowsAt(s.orders, mv.source)));
  }

  /** The state after a whole move: the directory names the target under the next version, the target hosts the
      tenant and has its rows, the source has neither, and the mover's cache entry is gone. */
  function MovedTo(s: State, r: RouterId, target: Shard): State
    requires s.directory.Some?
  {
    var row := s.directory.value;
    s.(directory := Some(DirRow(target, Active, row.version + 1)),
       hosted := s.hosted + {target} - {row.shard},
       orders := s.orders[target := RowsAt(s.orders, target) + RowsAt(s.orders, row.shard)] - {row.shard},
       caches := s.caches - {r},
       home := Some(target))
  }

  lemma CommitSourceNext(s: State, m: MoveId, mv: Move)
    requires s.moves == map[m := mv] && mv.phase.TargetCommitted? && s.fenced == {mv.source}
    ensures Next(s, MoveCommitSource(m)) ==
            s.(hosted := s.hosted - {mv.source}, fenced := {}, orders := s.orders - {mv.source},
               moves := map[m := mv.(phase := SourceCommitted)])
  {
  }

  lemma FlipNext(s: State, m: MoveId, mv: Move)
    requires s.moves == map[m := mv] && mv.phase.SourceCommitted? && s.directory.Some?
    ensures Next(s, MoveFlip(m)) ==
            s.(directory := Some(DirRow(mv.target, Active, s.directory.value.version + 1)),
               moves := map[], caches := s.caches - {mv.router})
  {
  }

  lemma MoveRuns(s: State, m: MoveId, r: RouterId, target: Shard)
    requires CanMoveTo(s, target)
    ensures Run(s, MoveSteps(m, r, target)) == MovedTo(s, r, target)
    ensures Onboardings(s, MoveSteps(m, r, target)) == 0 && WindowDeaths(s, MoveSteps(m, r, target)) == 0
  {
    hide Run, Onboardings, WindowDeaths, Next;
    MoveHalfway(s, m, r, target);
    RunSnoc(s, MoveHead(m, r, target), MoveCommitSource(m));
    RunSnoc(s, MoveHead(m, r, target) + [MoveCommitSource(m)], MoveFlip(m));
    var half := Halfway(s, m, r, target);
    CommitSourceNext(half, m, half.moves[m]);
    FlipNext(Next(half, MoveCommitSource(m)), m, half.moves[m].(phase := SourceCommitted));
  }

  /** A move that cannot copy: the process dies with its source transaction open. */
  function FailedMove(m: MoveId, r: RouterId, target: Shard): seq<Step> {
    [] + [MoveMark(m, r, target)] + [MoveFence(m)] + [MoverDies(m)]
  }

  lemma FailedMoveRuns(s: State, m: MoveId, r: RouterId, target: Shard)
    requires s.moves == map[] && s.fenced == {} && s.directory.Some? && s.directory.value.status.Active?
    ensures Run(s, FailedMove(m, r, target)) == s.(directory := Some(s.directory.value.(status := Moving)))
    ensures Onboardings(s, FailedMove(m, r, target)) == 0 && WindowDeaths(s, FailedMove(m, r, target)) == 0
  {
    hide Run, Onboardings, WindowDeaths;
    NothingRun(s);
    RunSnoc(s, [], MoveMark(m, r, target));
    RunSnoc(s, [] + [MoveMark(m, r, target)], MoveFence(m));
    RunSnoc(s, [] + [MoveMark(m, r, target)] + [MoveFence(m)], MoverDies(m));
    FenceNext(Next(s, MoveMark(m, r, target)), m, Move(r, s.directory.value.shard, target, Marked, map[]));
    var fenced := Next(Next(s, MoveMark(m, r, target)), MoveFence(m));
    assert fenced.moves - {m} == map[] && fenced.fenced - {s.directory.value.shard} == {};
  }

  // ---------------------------------------------------------------- a whole insert

  function InsertSteps(r: RouterId, amounts: seq<Amount>): seq<Step> {
    [] + [StartInsert(r, amounts)] + [ResolveInsert(r)] + [ExecInsert(r)]
  }

  /** The shard that the router's next lookup names. */
  function Routed(s: State, r: RouterId): Option<Entry> {
    LookupEntry(CacheOf(s, r), s.directory)
  }

  lemma ResolveNext(s: State, r: RouterId, amounts: seq<Amount>)
    requires r !in s.calls && Routed(s, r).Some?
    ensures Next(Next(s, StartInsert(r, amounts)), ResolveInsert(r)) ==
            WithLookup(s, r).(calls := s.calls[r := Call(amounts, 0, Routed(s, r))])
  {
    var s1 := Next(s, StartInsert(r, amounts));
    assert s1 == s.(calls := s.calls[r := Call(amounts, 0, None)]);
    assert s1.calls[r := Call(amounts, 0, Routed(s, r))] == s.calls[r := Call(amounts, 0, Routed(s, r))];
  }

  lemma ExecNext(s: State, r: RouterId, c: Call)
    requires r !in s.calls && c.amounts != [] && c.entry.Some? && Accepts(s, c.entry.value.shard)
    ensures var sh := c.entry.value.shard;
            Next(s.(calls := s.calls[r := c]), ExecInsert(r)) ==
              s.(orders := s.orders[sh := Extend(RowsAt(s.orders, sh), c.amounts)], acked := s.acked + c.amounts)
  {
    hide Extend;
    assert s.calls[r := c] - {r} == s.calls;
  }

  lemma InsertRuns(s: State, r: RouterId, amounts: seq<Amount>)
    requires r !in s.calls && amounts != [] && Routed(s, r).Some? && Accepts(s, Routed(s, r).value.shard)
    ensures var sh := Routed(s, r).value.shard;
            Run(s, InsertSteps(r, amounts)) ==
              WithLookup(s, r).(orders := s.orders[sh := Extend(RowsAt(s.orders, sh), amounts)],
                                acked := s.acked + amounts)
    ensures Onboardings(s, InsertSteps(r, amounts)) == 0 && WindowDeaths(s, InsertSteps(r, amounts)) == 0
  {
    hide Run, Onboardings, WindowDeaths, Extend, Next;
    NothingRun(s);
    RunSnoc(s, [], StartInsert(r, amounts));
    RunSnoc(s, [] + [StartInsert(r, amounts)], ResolveInsert(r));
    RunSnoc(s, [] + [StartInsert(r, amounts)] + [ResolveInsert(r)], ExecInsert(r));
    ResolveNext(s, r, amounts);
    ExecNext(WithLookup(s, r), r, Call(amounts, 0, Routed(s, r)));
  }

  // ---------------------------------------------------------------- losing an acknowledged order

  /** Some host has every acknowledged order, once, under the ids 1..N. */
  ghost predicate SomeHostHasAll(s: State) {
    s.acked == [] || exists sh :: sh in s.hosted && RowsAt(s.orders, sh) == Table(s.acked)
  }

  /** Onboarded on `a`, cached there by router `r`, and moved to `b` by router `q`. */
  function Prelude(a: Shard, b: Shard, r: RouterId, q: RouterId): seq<Step> {
    ([] + [OnboardHost(a)] + [OnboardDirectory(a)] + [Peek(r)]) + MoveSteps(0, q, b)
  }

  function AfterPrelude(b: Shard, a: Shard, r: RouterId): State {
    State(Some(DirRow(b, Active, 2)), {b}, {}, map[b := map[]], map[r := Entry(a, 1)], map[], {}, map[], Some(b), [])
  }

  lemma PreludeRuns(a: Shard, b: Shard, r: RouterId, q: RouterId)
    requires a != b && r != q
    ensures Run(INIT, Prelude(a, b, r, q)) == AfterPrelude(b, a, r)
    ensures Onboardings(INIT, Prelude(a, b, r, q)) == 1 && WindowDeaths(INIT, Prelude(a, b, r, q)) == 0
  {
    hide Run, Onboardings, WindowDeaths;
    NothingRun(INIT);
    RunSnoc(INIT, [], OnboardHost(a));
    RunSnoc(INIT, [] + [OnboardHost(a)], OnboardDirectory(a));
    RunSnoc(INIT, [] + [OnboardHost(a)] + [OnboardDirectory(a)], Peek(r));
    var start := [] + [OnboardHost(a)] + [OnboardDirectory(a)] + [Peek(r)];
    var s := Run(INIT, start);
    assert s == State(Some(DirRow(a, Active, 1)), {a}, {}, map[], map[r := Entry(a, 1)], map[], {}, map[], Some(a), []);
    RunConcat(INIT, start, MoveSteps(0, q, b));
    MoveRuns(s, 0, q, b);
    assert MovedTo(s, q, b) == AfterPrelude(b, a, r);
  }

  /** Two hosts that took one order each. */
  lemma OneEachLoses(s: State, a: Shard, b: Shard, x: Amount, y: Amount)
    requires s.hosted == {a, b} && s.acked == [x, y]
    requires RowsAt(s.orders, a) == Extend(map[], [x]) && RowsAt(s.orders, b) == Extend(map[], [y])
    ensures !SomeHostHasAll(s)
  {
    assert 2 in Table([x, y]);
    assert 2 !in Extend(map[], [x]) && 2 !in Extend(map[], [y]);
  }

  /** The two routers insert one order each: `r` by its stale cache, `q` by the directory. */
  lemma BothInsert(s: State, a: Shard, b: Shard, r: RouterId, q: RouterId, x: Amount, y: Amount)
    requires a != b && r != q && s.calls == map[] && s.acked == [] && s.fenced == {} && s.hosted == {a, b}
    requires s.caches == map[r := Entry(a, 1)] && s.directory.Some? && s.directory.value.shard == b
    requires RowsAt(s.orders, a) == map[] && RowsAt(s.orders, b) == map[]
    ensures var steps := InsertSteps(r, [x]) + InsertSteps(q, [y]);
            && !SomeHostHasAll(Run(s, steps))
            && Onboardings(s, steps) == 0 && WindowDeaths(s, steps) == 0
  {
    hide Run, Onboardings, WindowDeaths, Extend;
    RunConcat(s, InsertSteps(r, [x]), InsertSteps(q, [y]));
    InsertRuns(s, r, [x]);
    var s1 := Run(s, InsertSteps(r, [x]));
    InsertRuns(s1, q, [y]);
    var s2 := Run(s1, InsertSteps(q, [y]));
    assert s2.acked == [] + [x] + [y];
    OneEachLoses(s2, a, b, x, y);
  }

  function OnboardAgain(a: Shard, b: Shard, r: RouterId, q: RouterId, x: Amount, y: Amount): seq<Step> {
    Prelude(a, b, r, q) + [OnboardHost(a)] + (InsertSteps(r, [x]) + InsertSteps(q, [y]))
  }

  /** A second onboarding on a shard that a router still has cached. */
  lemma OnboardAgainLoses(a: Shard, b: Shard, r: RouterId, q: RouterId, x: Amount, y: Amount)
    requires a != b && r != q
    ensures var steps := OnboardAgain(a, b, r, q, x, y);
            && !SomeHostHasAll(Run(INIT, steps))
            && Onboardings(INIT, steps) == 2 && WindowDeaths(INIT, steps) == 0
  {
    hide Run, Onboardings, WindowDeaths;
    var start := Prelude(a, b, r, q);
    PreludeRuns(a, b, r, q);
    RunSnoc(INIT, start, OnboardHost(a));
    var s := Run(INIT, start + [OnboardHost(a)]);
    RunConcat(INIT, start + [OnboardHost(a)], InsertSteps(r, [x]) + InsertSteps(q, [y]));
    BothInsert(s, a, b, r, q, x, y);
  }

  function DieHalfway(a: Shard, b: Shard, r: RouterId, q: RouterId, x: Amount, y: Amount): seq<Step> {
    Prelude(a, b, r, q) + MoveHead(0, q, a) + [MoverDies(0)] + (InsertSteps(r, [x]) + InsertSteps(q, [y]))
  }

  /** A move back to a shard that a router still has cached, whose mover dies between the commits. */
  lemma DieHalfwayLoses(a: Shard, b: Shard, r: RouterId, q: RouterId, x: Amount, y: Amount)
    requires a != b && r != q
    ensures var steps := DieHalfway(a, b, r, q, x, y);
            && !SomeHostHasAll(Run(INIT, steps))
            && Onboardings(INIT, steps) == 1 && WindowDeaths(INIT, steps) == 1
  {
    hide Run, Onboardings, WindowDeaths;
    var start := Prelude(a, b, r, q);
    PreludeRuns(a, b, r, q);
    var s := Run(INIT, start);
    RunConcat(INIT, start, MoveHead(0, q, a));
    MoveHalfway(s, 0, q, a);
    RunSnoc(INIT, start + MoveHead(0, q, a), MoverDies(0));
    var split := Run(INIT, start + MoveHead(0, q, a) + [MoverDies(0)]);
    RunConcat(INIT, start + MoveHead(0, q, a) + [MoverDies(0)], InsertSteps(r, [x]) + InsertSteps(q, [y]));
    BothInsert(split, a, b, r, q, x, y);
  }

  /** Every run with at most `n` accepted onboardings and `d` deaths in the window keeps all acknowledged orders
      together. */
  ghost predicate KeepsAcked(n: nat, d: nat) {
    forall steps :: Onboardings(INIT, steps) <= n && WindowDeaths(INIT, steps) <= d ==> SomeHostHasAll(Run(INIT, steps))
  }

  /** That is promised exactly for runs with at most one onboarding and no such death. */
  lemma AckedKeptExactly(n: nat, d: nat)
    requires n > 0
    ensures KeepsAcked(n, d) <==> n == 1 && d == 0
  {
    hide Run, Onboardings, WindowDeaths, SomeHostHasAll;
    if n == 1 && d == 0 {
      forall steps | Onboardings(INIT, steps) <= n && WindowDeaths(INIT, steps) <= d
        ensures SomeHostHasAll(Run(INIT, steps))
      {
        RunKeeps(steps);
        InvHasAll(Run(INIT, steps));
      }
    } else if n > 1 {
      OnboardAgainLoses("shard1", "shard2", 0, 1, 10, 20);
      assert Onboardings(INIT, OnboardAgain("shard1", "shard2", 0, 1, 10, 20)) <= n;
    } else {
      DieHalfwayLoses("shard1", "shard2", 0, 1, 10, 20);
      assert WindowDeaths(INIT, DieHalfway("shard1", "shard2", 0, 1, 10, 20)) <= d;
    }
  }

  lemma InvHasAll(s: State)
    requires Inv(s)
    ensures SomeHostHasAll(s)
  {
    if s.moves != map[] {
      var m :| m in s.moves;
      assert UnderMove(s, s.moves[m]);
    }
  }

  // ---------------------------------------------------------------- a mover that dies before the flip

  /** Everything of a move but the last statement: the process dies after the source commit. */
  function UnflippedMove(m: MoveId, r: RouterId, target: Shard): seq<Step> {
    MoveHead(m, r, target) + [MoveCommitSource(m)] + [MoverDies(m)]
  }

  /** The rows and the host are at the target, and the directory names the source for good. */
  function Stranded(s: State, target: Shard): State
    requires s.directory.Some?
  {
    var row := s.directory.value;
    s.(directory := Some(row.(status := Moving)),
       hosted := s.hosted + {target} - {row.shard},
       orders := s.orders[target := RowsAt(s.orders, target) + RowsAt(s.orders, row.shard)] - {row.shard},
       home := Some(target))
  }

  lemma DieNext(s: State, m: MoveId, mv: Move)
    requires s.moves == map[m := mv] && mv.phase.SourceCommitted?
    ensures Next(s, MoverDies(m)) == s.(moves := map[]) && !DiesInWindow(s, MoverDies(m))
  {
    assert s.moves - {m} == map[];
  }

  lemma UnflippedMoveRuns(s: State, m: MoveId, r: RouterId, target: Shard)
    requires CanMoveTo(s, target)
    ensures Run(s, UnflippedMove(m, r, target)) == Stranded(s, target)
    ensures Onboardings(s, UnflippedMove(m, r, target)) == 0 && WindowDeaths(s, UnflippedMove(m, r, target)) == 0
  {
    hide Run, Onboardings, WindowDeaths, Next, DiesInWindow;
    MoveHalfway(s, m, r, target);
    RunSnoc(s, MoveHead(m, r, target), MoveCommitSource(m));
    RunSnoc(s, MoveHead(m, r, target) + [MoveCommitSource(m)], MoverDies(m));
    var half := Halfway(s, m, r, target);
    CommitSourceNext(half, m, half.moves[m]);
    DieNext(Next(half, MoveCommitSource(m)), m, half.moves[m].(phase := SourceCommitted));
    NoWindow(half, MoveCommitSource(m));
  }

  lemma NoWindow(s: State, step: Step)
    requires !step.MoverDies?
    ensures !DiesInWindow(s, step)
  {
  }

  // ---------------------------------------------------------------- writing for ever, or never again

  /** The mapping that the next INSERT of router `r` uses, if it does not come from the directory, names a host. */
  predicate Reaches(s: State, r: RouterId) {
    var e := if r in s.calls && s.calls[r].entry.Some? then s.calls[r].entry else CacheOf(s, r);
    e.Some? && e.value.shard in s.hosted && (r in s.calls ==> s.calls[r].amounts != [])
  }

  /** The mark of a dead mover: no move is in progress and the directory row is left as moving. */
  predicate Abandoned(s: State) {
    s.moves == map[] && s.fenced == {} && s.directory.Some? && s.directory.value.status.Moving?
  }

  /** Nobody finds a host, neither by the directory nor by a mapping looked up before. */
  ghost predicate Unreachable(s: State) {
    Abandoned(s) && s.directory.value.shard !in s.hosted && forall r: RouterId :: !Reaches(s, r)
  }

  /** Whatever happens, short of a new onboarding, no order is acknowledged. */
  ghost predicate NeverAcks(s: State) {
    forall steps :: Onboardings(s, steps) == 0 ==> Run(s, steps).acked == s.acked
  }

  lemma UnreachableStays(s: State, step: Step)
    requires Unreachable(s) && !Onboards(s, step)
    ensures Unreachable(Next(s, step)) && Next(s, step).acked == s.acked
  {
    var s' := Next(s, step);
    assert step.ExecInsert? ==> !Reaches(s, step.r);
    assert s'.acked == s.acked && s'.hosted == s.hosted && s'.directory == s.directory;
    forall r: RouterId ensures !Reaches(s', r) {
      assert !Reaches(s, r);
    }
  }

  lemma {:induction false} UnreachableForEver(s: State, steps: seq<Step>)
    requires Unreachable(s) && Onboardings(s, steps) == 0
    ensures Unreachable(Run(s, steps)) && Run(s, steps).acked == s.acked
  {
    hide Next, Unreachable, Onboards;
    if steps != [] {
      UnreachableForEver(s, steps[..|steps| - 1]);
      UnreachableStays(Run(s, steps[..|steps| - 1]), steps[|steps| - 1]);
    }
  }

  /** A router with such a mapping finishes its call, or makes one. */
  function ReachingSteps(s: State, r: RouterId): seq<Step> {
    if r !in s.calls then InsertSteps(r, [0])
    else if s.calls[r].entry.None? then [] + [ResolveInsert(r)] + [ExecInsert(r)]
    else [] + [ExecInsert(r)]
  }

  lemma ReachingAcks(s: State, r: RouterId)
    requires Reaches(s, r) && s.fenced == {}
    ensures Onboardings(s, ReachingSteps(s, r)) == 0 && Run(s, ReachingSteps(s, r)).acked != s.acked
  {
    hide Run, Onboardings, WindowDeaths, Extend;
    if r !in s.calls {
      InsertRuns(s, r, [0]);
    } else {
      NothingRun(s);
      if s.calls[r].entry.None? {
        RunSnoc(s, [], ResolveInsert(r));
        RunSnoc(s, [] + [ResolveInsert(r)], ExecInsert(r));
      } else {
        RunSnoc(s, [], ExecInsert(r));
      }
    }
  }

  /** A router that has never been heard of. */
  lemma NewRouter(s: State) returns (r: RouterId)
    ensures r !in s.calls && r !in s.caches
  {
    r := MaxOf(s.calls.Keys + s.caches.Keys) + 1;
  }

  /** With the directory row left as moving, no further order is ever acknowledged, without a new onboarding,
      exactly if the row's shard is no host and no router is left with a mapping that names one: every later
      MoveTenant refuses a row that is not active, so nothing corrects it. */
  lemma NeverAcksExactly(s: State)
    requires Abandoned(s)
    ensures NeverAcks(s) <==> s.directory.value.shard !in s.hosted && forall r: RouterId :: !Reaches(s, r)
  {
    hide Run, Onboardings, Reaches;
    if s.directory.value.shard !in s.hosted && forall r: RouterId :: !Reaches(s, r) {
      forall steps | Onboardings(s, steps) == 0 ensures Run(s, steps).acked == s.acked {
        UnreachableForEver(s, steps);
      }
    } else if r: RouterId :| Reaches(s, r) {
      ReachingAcks(s, r);
    } else {
      var r := NewRouter(s);
      InsertRuns(s, r, [0]);
      assert Run(s, InsertSteps(r, [0])).acked != s.acked;
    }
  }

  /** A mover that dies after the source commit, of any move, leaves the tenant without writes for good exactly if
      no router is left with a mapping that names the target, or another host. */
  lemma UnflippedMoveStrands(s: State, m: MoveId, r: RouterId, target: Shard)
    requires CanMoveTo(s, target)
    ensures var s' := Run(s, UnflippedMove(m, r, target));
            && WindowDeaths(s, UnflippedMove(m, r, target)) == 0
            && (NeverAcks(s') <==> forall q: RouterId :: !Reaches(s', q))
  {
    hide NeverAcks, Run, Reaches;
    UnflippedMoveRuns(s, m, r, target);
    NeverAcksExactly(Stranded(s, target));
  }

  /** In particular the first move of a tenant does, in a run with one onboarding and no death in the window. */
  lemma FirstMoveStrands(a: Shard, b: Shard, r: RouterId)
    requires a != b
    ensures var steps := ([] + [OnboardHost(a)] + [OnboardDirectory(a)]) + UnflippedMove(0, r, b);
            && Onboardings(INIT, steps) == 1 && WindowDeaths(INIT, steps) == 0
            && NeverAcks(Run(INIT, steps))
  {
    hide Run, Onboardings, WindowDeaths, NeverAcks;
    NothingRun(INIT);
    RunSnoc(INIT, [], OnboardHost(a));
    RunSnoc(INIT, [] + [OnboardHost(a)], OnboardDirectory(a));
    var start := [] + [OnboardHost(a)] + [OnboardDirectory(a)];
    var s := Run(INIT, start);
    RunConcat(INIT, start, UnflippedMove(0, r, b));
    UnflippedMoveRuns(s, 0, r, b);
    UnflippedMoveStrands(s, 0, r, b);
    assert forall q: RouterId :: !Reaches(Stranded(s, b), q);
  }
}
