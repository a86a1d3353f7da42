/** Archival of old orders: batches move from the hot table to the archive, one statement each, past whatever rows
    are locked; single orders are restored; a lookup asks the two tables in two queries. */
module Archiver {
  import opened Basics

  datatype Order = Order(customer: int, status: string, total: int, createdAt: int, details: string)

  type Table = map<nat, Order>

  datatype State = State(hot: Table, archive: Table)

  datatype Step =
    | Insert(id: nat, order: Order)
    | SetStatus(id: nat, status: string)
    | Batch(cutoff: int, limit: nat, locked: set<nat>)
    | Restore(id: nat)

  // ---------------------------------------------------------------- the batch statement

  predicate Qualifies(order: Order, cutoff: int) {
    order.status == "delivered" && order.createdAt < cutoff
  }

  function Qualifying(hot: Table, cutoff: int): set<nat> {
    set id | id in hot && Qualifies(hot[id], cutoff)
  }

  /** The first id from `k` on, if there is none below. */
  function FirstFrom(ids: set<nat>, k: nat, top: nat): (r: nat)
    requires top in ids && k <= top && forall i :: i in ids ==> k <= i
    ensures r in ids && forall i :: i in ids ==> r <= i
    decreases top - k
  {
    if k in ids then k else FirstFrom(ids, k + 1, top)
  }

  function MinOf(ids: set<nat>): (r: nat)
    requires ids != {}
    ensures r in ids && forall i :: i in ids ==> r <= i
  {
    FirstFrom(ids, 0, MaxOf(ids))
  }

  /** ORDER BY id LIMIT n. */
  function Lowest(ids: set<nat>, n: nat): (r: set<nat>)
    ensures r <= ids
    ensures |r| == if n < |ids| then n else |ids|
    decreases n
  {
    if n == 0 || ids == {} then {}
    else
      var k := MinOf(ids);
      {k} + Lowest(ids - {k}, n - 1)
  }

  /** What a batch leaves behind has higher ids than what it takes. */
  lemma {:induction false} LowestBelow(ids: set<nat>, n: nat, i: nat, j: nat)
    requires i in Lowest(ids, n) && j in ids && j !in Lowest(ids, n)
    ensures i < j
    decreases n
  {
    LowestStep(ids, n);
    hide Lowest;
    var k := MinOf(ids);
    if i != k {
      LowestBelow(ids - {k}, n - 1, i, j);
    }
  }

  lemma LowestStep(ids: set<nat>, n: nat)
    requires n > 0 && ids != {}
    ensures forall i: nat :: i in Lowest(ids, n) <==> i == MinOf(ids) || i in Lowest(ids - {MinOf(ids)}, n - 1)
  {
  }

  /** The rows a batch picks: the lowest ids that qualify, skipping locked rows. */
  function Picked(hot: Table, cutoff: int, limit: nat, locked: set<nat>): set<nat> {
    Lowest(Qualifying(hot, cutoff) - locked, limit)
  }

  function Rows(t: Table, ids: set<nat>): Table {
    map id | id in t && id in ids :: t[id]
  }

  function Disputed(order: Order): Order {
    order.(status := "disputed")
  }

  /** The rows a batch moves: none if it violates the archive's key. */
  function Taken(s: State, cutoff: int, limit: nat, locked: set<nat>): set<nat> {
    var moved := Picked(s.hot, cutoff, limit, locked);
    if moved * s.archive.Keys != {} then {} else moved
  }

  /** One statement; a primary key violation undoes it. */
  function Next(s: State, step: Step): State {
    match step
    case Insert(id, order) => if id in s.hot then s else s.(hot := s.hot[id := order])
    case SetStatus(id, status) => if id !in s.hot then s else s.(hot := s.hot[id := s.hot[id].(status := status)])
    case Batch(cutoff, limit, locked) =>
      var moved := Picked(s.hot, cutoff, limit, locked);
      if moved * s.archive.Keys != {} then s else State(s.hot - moved, s.archive + Rows(s.hot, moved))
    case Restore(id) =>
      if id !in s.archive || id in s.hot then s
      else State(s.hot[id := Disputed(s.archive[id])], s.archive - {id})
  }

  function Run(s: State, steps: seq<Step>): State {
    if steps == [] then s else Next(Run(s, steps[..|steps| - 1]), steps[|steps| - 1])
  }

  // ---------------------------------------------------------------- exactly one table

  ghost predicate OnePlace(s: State) {
    forall id: nat :: id in s.hot ==> id !in s.archive
  }

  /** An insert that takes an id the archive holds; no key of the hot table objects. */
  predicate Reuses(s: State, step: Step) {
    step.Insert? && step.id in s.archive && step.id !in s.hot
  }

  lemma StepOnePlace(s: State, step: Step)
    ensures OnePlace(Next(s, step)) <==> OnePlace(s) && !Reuses(s, step)
  {
    if OnePlace(s) && !Reuses(s, step) {
      assert OnePlace(Next(s, step));
    } else if Reuses(s, step) {
      assert step.id in Next(s, step).hot && step.id in Next(s, step).archive;
    } else {
      var id: nat :| id in s.hot && id in s.archive;
      BothStays(s, step, id);
    }
  }

  /** An order in both tables stays in both: every statement that would move it violates a primary key. */
  lemma BothStays(s: State, step: Step, id: nat)
    requires id in s.hot && id in s.archive
    ensures id in Next(s, step).hot && id in Next(s, step).archive
  {
    if step.Batch? {
      var moved := Picked(s.hot, step.cutoff, step.limit, step.locked);
      assert id in moved ==> id in moved * s.archive.Keys;
    }
  }

  ghost predicate NeverReuses(s: State, steps: seq<Step>) {
    forall i :: 0 <= i < |steps| ==> !Reuses(Run(s, steps[..i]), steps[i])
  }

  lemma NeverReusesSnoc(s: State, steps: seq<Step>)
    requires steps != []
    ensures var front := steps[..|steps| - 1];
            NeverReuses(s, steps) <==> NeverReuses(s, front) && !Reuses(Run(s, front), steps[|steps| - 1])
  {
    hide Run, Reuses;
    var front := steps[..|steps| - 1];
    assert forall i :: 0 <= i < |front| ==> front[..i] == steps[..i] && front[i] == steps[i];
  }

  /** After any run every order is in one table only, exactly when no insert took the id of an archived order. */
  lemma {:induction false} OnePlaceExactly(s: State, steps: seq<Step>)
    requires OnePlace(s)
    ensures OnePlace(Run(s, steps)) <==> NeverReuses(s, steps)
  {
    if steps != [] {
      hide OnePlace, Next, NeverReuses, Reuses;
      OnePlaceExactly(s, steps[..|steps| - 1]);
      StepOnePlace(Run(s, steps[..|steps| - 1]), steps[|steps| - 1]);
      NeverReusesSnoc(s, steps);
    }
  }

  // ---------------------------------------------------------------- nothing is lost

  /** Both tables, by id. */
  function All(s: State): Table {
    s.hot + s.archive
  }

  /** An order, up to its status. */
  function Content(order: Order): Order {
    order.(status := "")
  }

  /** The orders_all view, a UNION ALL, shows a row of this content under this id. */
  predicate Shows(s: State, id: nat, content: Order) {
    (id in s.hot && Content(s.hot[id]) == content) || (id in s.archive && Content(s.archive[id]) == content)
  }

  /** No row of the order went away, and two rows of the same id both stay where they are. */
  ghost predicate Keeps(s: State, s': State, id: nat) {
    && (forall content :: Shows(s, id, content) ==> Shows(s', id, content))
    && (id in s.hot && id in s.archive ==>
          && id in s'.hot && Content(s'.hot[id]) == Content(s.hot[id])
          && id in s'.archive && s'.archive[id] == s.archive[id])
    && (id in All(s) ==> id in All(s') && Content(All(s')[id]) == Content(All(s)[id]))
  }

  /** An order has moved to the archive with its row, or is where it was. */
  ghost predicate MovedOrNot(s: State, s': State, id: nat) {
    || (&& id in s.hot && id !in s.archive
        && id !in s'.hot && id in s'.archive && s'.archive[id] == s.hot[id])
    || (&& (id in s'.hot <==> id in s.hot) && (id in s.hot ==> s'.hot[id] == s.hot[id])
        && (id in s'.archive <==> id in s.archive) && (id in s.archive ==> s'.archive[id] == s.archive[id]))
  }

  lemma MovedRow(s: State, moved: set<nat>, id: nat)
    requires id in moved ==> id in s.hot && id !in s.archive
    ensures MovedOrNot(s, State(s.hot - moved, s.archive + Rows(s.hot, moved)), id)
  {
  }

  lemma BatchRow(s: State, step: Step, id: nat)
    requires step.Batch?
    ensures MovedOrNot(s, Next(s, step), id)
  {
    hide MovedOrNot, Rows;
    var moved := Picked(s.hot, step.cutoff, step.limit, step.locked);
    assert moved <= Qualifying(s.hot, step.cutoff);
    if moved * s.archive.Keys == {} {
      assert id in moved && id in s.archive ==> id in moved * s.archive.Keys;
      MovedRow(s, moved, id);
    } else {
      Unmoved(s, id);
    }
  }

  lemma Unmoved(s: State, id: nat)
    ensures MovedOrNot(s, s, id)
  {
  }

  lemma BatchLosesNothing(s: State, step: Step, id: nat)
    requires step.Batch?
    ensures Keeps(s, Next(s, step), id)
  {
    hide Next, Content;
    BatchRow(s, step, id);
  }

  lemma StepLosesNothing(s: State, step: Step, id: nat)
    ensures Keeps(s, Next(s, step), id)
  {
    if step.Batch? { BatchLosesNothing(s, step, id); }
    hide Picked, Rows;
  }

  /** No run of batches, restores, updates and inserts, reused ids included, loses a row of an order or changes
      anything but its status. */
  lemma {:induction false} NothingLost(s: State, steps: seq<Step>, id: nat)
    ensures Keeps(s, Run(s, steps), id)
  {
    if steps != [] {
      hide Next;
      NothingLost(s, steps[..|steps| - 1], id);
      StepLosesNothing(Run(s, steps[..|steps| - 1]), steps[|steps| - 1], id);
    }
  }

  // ---------------------------------------------------------------- the two queries of a lookup

  datatype Where = Hot | Archive | Nowhere

  /** findOrder: the first query sees `first`, the second, if it is made, `second`. */
  function FindOrder(first: State, second: State, id: nat): Where {
    if id in first.hot then Hot else if id in second.archive then Archive else Nowhere
  }

  ghost predicate NoRestore(steps: seq<Step>, id: nat) {
    forall i :: 0 <= i < |steps| ==> steps[i] != Restore(id)
  }

  lemma {:induction false} ArchivedStays(s: State, steps: seq<Step>, id: nat)
    requires id in s.archive && NoRestore(steps, id)
    ensures id in Run(s, steps).archive
  {
    if steps != [] {
      assert steps[|steps| - 1] != Restore(id);
      ArchivedStays(s, steps[..|steps| - 1], id);
    }
  }

  /** An order that exists is reported missing exactly when it was in the archive only at the first query and in
      the hot table only at the second; that takes a restore of it in between. Any other answer was true when
      given. */
  lemma FindOrderExactly(s: State, steps: seq<Step>, id: nat)
    requires id in All(s)
    ensures var later := Run(s, steps);
            && (FindOrder(s, later, id) == Nowhere <==>
                  id in s.archive && id !in s.hot && id in later.hot && id !in later.archive)
            && (FindOrder(s, later, id) == Nowhere ==> !NoRestore(steps, id))
            && (FindOrder(s, later, id) == Hot ==> id in s.hot)
            && (FindOrder(s, later, id) == Archive ==> id in later.archive)
  {
    NothingLost(s, steps, id);
    if id in s.archive && NoRestore(steps, id) {
      ArchivedStays(s, steps, id);
    }
  }

  /** Step `k` brings the order back to the hot table. */
  predicate RestoresAt(s: State, steps: seq<Step>, k: nat, id: nat)
    requires k < |steps|
  {
    steps[k] == Restore(id) && id in Run(s, steps[..k]).archive && id !in Run(s, steps[..k]).hot
  }

  /** Step `k` takes the order to the archive. */
  predicate ArchivesAt(s: State, steps: seq<Step>, k: nat, id: nat)
    requires k < |steps|
  {
    steps[k].Batch? && id in Taken(Run(s, steps[..k]), steps[k].cutoff, steps[k].limit, steps[k].locked)
  }

  /** Some step restored the order, and none has archived it since. */
  ghost predicate RestoredLast(s: State, steps: seq<Step>, id: nat) {
    exists k: nat :: k < |steps| && RestoresAt(s, steps, k, id) && NotArchivedFrom(s, steps, k + 1, id)
  }

  ghost predicate NotArchivedFrom(s: State, steps: seq<Step>, from: nat, id: nat) {
    forall j: nat :: from <= j < |steps| ==> !ArchivesAt(s, steps, j, id)
  }

  lemma RestoredLastSnoc(s: State, steps: seq<Step>, id: nat)
    requires steps != []
    ensures var n := |steps| - 1;
            RestoredLast(s, steps, id) <==>
              RestoresAt(s, steps, n, id) || (RestoredLast(s, steps[..n], id) && !ArchivesAt(s, steps, n, id))
  {
    hide Run, Taken;
    var n := |steps| - 1;
    var front := steps[..n];
    forall j: nat | j < n
      ensures RestoresAt(s, front, j, id) <==> RestoresAt(s, steps, j, id)
      ensures ArchivesAt(s, front, j, id) <==> ArchivesAt(s, steps, j, id)
    {
      assert front[..j] == steps[..j] && front[j] == steps[j];
    }
    hide RestoresAt, ArchivesAt;
    if RestoresAt(s, steps, n, id) {
      assert NotArchivedFrom(s, steps, n + 1, id);
    }
    forall from: nat | from <= n
      ensures NotArchivedFrom(s, steps, from, id) <==>
                NotArchivedFrom(s, front, from, id) && !ArchivesAt(s, steps, n, id)
    {
    }
  }

  /** Where one step leaves an order that is in one table or the other. */
  lemma StepPlaces(s: State, step: Step, id: nat)
    requires id in All(s)
    ensures var s' := Next(s, step);
            var restores := step == Restore(id) && id in s.archive && id !in s.hot;
            var archives := step.Batch? && id in Taken(s, step.cutoff, step.limit, step.locked);
            && (id in s.archive ==> (id !in s'.archive <==> restores))
            && (id !in s.archive ==> (id !in s'.archive <==> !archives))
            && !(restores && archives)
            && (restores ==> id in s.archive) && (archives ==> id !in s.archive)
  {
    if step.Batch? {
      TakenPlaces(s, step.cutoff, step.limit, step.locked, id);
    }
    hide Picked, Rows, Taken;
  }

  lemma TakenPlaces(s: State, cutoff: int, limit: nat, locked: set<nat>, id: nat)
    ensures var taken, s' := Taken(s, cutoff, limit, locked), Next(s, Batch(cutoff, limit, locked));
            && (id in s'.archive <==> id in s.archive || id in taken)
            && (id in taken ==> id !in s.archive)
  {
    var moved := Picked(s.hot, cutoff, limit, locked);
    assert id in moved ==> id in s.hot by { assert moved <= Qualifying(s.hot, cutoff); }
    assert id in moved && id in s.archive ==> id in moved * s.archive.Keys;
    hide Picked, Qualifying;
  }

  /** An archived order is out of the archive later exactly if it was restored and has not been archived since. */
  lemma {:induction false} OutExactly(s: State, steps: seq<Step>, id: nat)
    requires id in s.archive
    ensures id !in Run(s, steps).archive <==> RestoredLast(s, steps, id)
  {
    if steps != [] {
      hide Next, RestoredLast, Taken;
      var n := |steps| - 1;
      OutExactly(s, steps[..n], id);
      NothingLost(s, steps[..n], id);
      RestoredLastSnoc(s, steps, id);
      StepPlaces(Run(s, steps[..n]), steps[n], id);
    }
  }

  /** So an order that exists is reported missing exactly if it was only in the archive at the first query, and
      between the queries was restored and not archived again. */
  lemma MissedExactly(s: State, steps: seq<Step>, id: nat)
    requires id in All(s)
    ensures FindOrder(s, Run(s, steps), id) == Nowhere <==> id !in s.hot && RestoredLast(s, steps, id)
  {
    if id in s.archive {
      OutExactly(s, steps, id);
    }
  }

  /** That can happen to every archived order. */
  lemma RestoredInBetween(s: State, id: nat)
    requires OnePlace(s) && id in s.archive
    ensures FindOrder(s, Run(s, [Restore(id)]), id) == Nowhere && id in All(s) && id in All(Run(s, [Restore(id)]))
  {
    assert [Restore(id)][..0] == [];
    assert Run(s, [Restore(id)]) == Next(s, Restore(id));
  }

  /** From insert to dispute: a delivered order that is old enough goes to the archive, and a restore brings it back
      with all but its status. */
  lemma LifeOfAnOrder(s: State, id: nat, order: Order, cutoff: int, limit: nat)
    requires OnePlace(s) && id !in All(s) && order.createdAt < cutoff && |s.hot| < limit
    ensures var delivered := Next(Next(s, Insert(id, order)), SetStatus(id, "delivered"));
            var archived := Next(delivered, Batch(cutoff, limit, {}));
            var restored := Next(archived, Restore(id));
            && archived.hot == s.hot - Qualifying(s.hot, cutoff)
            && id in archived.archive && archived.archive[id] == order.(status := "delivered")
            && id !in restored.archive && restored.hot == archived.hot[id := order.(status := "disputed")]
  {
    var delivered := Next(Next(s, Insert(id, order)), SetStatus(id, "delivered"));
    DeliveredNext(s, id, order);
    OneMoreQualifies(s.hot, id, order.(status := "delivered"), cutoff);
    hide Picked, Qualifying, Next;
    AllPicked(delivered, cutoff, limit);
    RestoreIs(Next(delivered, Batch(cutoff, limit, {})), id);
  }

  lemma DeliveredNext(s: State, id: nat, order: Order)
    requires OnePlace(s) && id !in All(s)
    ensures var delivered := Next(Next(s, Insert(id, order)), SetStatus(id, "delivered"));
            delivered == State(s.hot[id := order.(status := "delivered")], s.archive) && OnePlace(delivered)
  {
  }

  lemma OneMoreQualifies(hot: Table, id: nat, order: Order, cutoff: int)
    requires id !in hot && Qualifies(order, cutoff)
    ensures var now := hot[id := order];
            && |now| == |hot| + 1 && Qualifying(now, cutoff) == Qualifying(hot, cutoff) + {id}
            && now - Qualifying(now, cutoff) == hot - Qualifying(hot, cutoff)
  {
    assert hot[id := order].Keys == hot.Keys + {id};
    assert Qualifying(hot[id := order], cutoff) == Qualifying(hot, cutoff) + {id};
    AddedAndRemoved(hot, id, order, Qualifying(hot, cutoff));
  }

  lemma AddedAndRemoved(hot: Table, id: nat, order: Order, gone: set<nat>)
    requires id !in hot
    ensures hot[id := order] - (gone + {id}) == hot - gone
  {
  }

  lemma RestoreIs(s: State, id: nat)
    requires id in s.archive && id !in s.hot
    ensures Next(s, Restore(id)) == State(s.hot[id := s.archive[id].(status := "disputed")], s.archive - {id})
  {
  }

  /** A batch with room for the whole table takes all that qualifies. */
  lemma AllPicked(s: State, cutoff: int, limit: nat)
    requires OnePlace(s) && |s.hot| <= limit
    ensures var gone := Qualifying(s.hot, cutoff);
            Next(s, Batch(cutoff, limit, {})) == State(s.hot - gone, s.archive + Rows(s.hot, gone))
  {
    var gone, moved := Qualifying(s.hot, cutoff), Picked(s.hot, cutoff, limit, {});
    assert gone - {} == gone && gone <= s.hot.Keys;
    assert s.hot.Keys == gone + (s.hot.Keys - gone);
    assert |moved| == |gone| && moved <= gone;
    SubsetOfSameSize(moved, gone);
    BatchMoves(s, cutoff, limit, {});
  }

  // ---------------------------------------------------------------- the archive loop

  lemma RowsAdd(hot: Table, gone: set<nat>, more: set<nat>)
    ensures Rows(hot, gone) + Rows(hot - gone, more) == Rows(hot, gone + more)
  {
  }

  lemma MoveMore(hot: Table, archive: Table, gone: set<nat>, more: set<nat>)
    ensures (hot - gone) - more == hot - (gone + more)
    ensures archive + Rows(hot, gone) + Rows(hot - gone, more) == archive + Rows(hot, gone + more)
  {
    RowsAdd(hot, gone, more);
    hide Rows;
    var a, b := Rows(hot, gone), Rows(hot - gone, more);
    assert archive + a + b == archive + (a + b);
  }

  lemma FewerLeft(hot: Table, more: set<nat>)
    requires more <= hot.Keys
    ensures |hot - more| == |hot| - |more|
  {
    assert (hot - more).Keys == hot.Keys - more;
  }

  lemma NoneUnlocked(hot: Table, cutoff: int, limit: nat, locked: set<nat>)
    requires limit > 0 && Picked(hot, cutoff, limit, locked) == {}
    ensures Qualifying(hot, cutoff) <= locked
  {
    var eligible := Qualifying(hot, cutoff) - locked;
    assert |Lowest(eligible, limit)| == 0;
    assert eligible == {};
    forall id | id in Qualifying(hot, cutoff) ensures id in locked { assert id !in eligible; }
  }

  /** `gone`, all of them qualifying at first, have moved from the hot table to the archive. */
  ghost predicate MovedSoFar(first: State, now: State, gone: set<nat>, cutoff: int) {
    && gone <= Qualifying(first.hot, cutoff)
    && now.hot == first.hot - gone && now.archive == first.archive + Rows(first.hot, gone)
  }

  lemma NothingMoved(hot: Table, archive: Table, cutoff: int)
    ensures MovedSoFar(State(hot, archive), State(hot, archive), {}, cutoff)
  {
  }

  lemma MovedAll(first: State, now: State, gone: set<nat>, cutoff: int)
    requires MovedSoFar(first, now, gone, cutoff)
    ensures gone == first.hot.Keys - now.hot.Keys
    ensures gone <= Qualifying(first.hot, cutoff)
    ensures now.hot == first.hot - gone && now.archive == first.archive + Rows(first.hot, gone)
  {
  }

  lemma PickedBounds(first: Table, gone: set<nat>, cutoff: int, limit: nat, locked: set<nat>)
    ensures var moved := Picked(first - gone, cutoff, limit, locked);
            moved <= (first - gone).Keys && moved !! gone && moved <= Qualifying(first, cutoff)
  {
    var moved := Picked(first - gone, cutoff, limit, locked);
    assert moved <= Qualifying(first - gone, cutoff);
    assert forall id :: id in moved ==> id in first - gone;
  }

  lemma BatchMoves(s: State, cutoff: int, limit: nat, locked: set<nat>)
    requires OnePlace(s)
    ensures var moved := Picked(s.hot, cutoff, limit, locked);
            Next(s, Batch(cutoff, limit, locked)) == State(s.hot - moved, s.archive + Rows(s.hot, moved))
  {
    var moved := Picked(s.hot, cutoff, limit, locked);
    assert moved <= Qualifying(s.hot, cutoff);
    assert moved * s.archive.Keys == {};
  }

  lemma BatchAdds(first: State, now: State, gone: set<nat>, cutoff: int, limit: nat, locked: set<nat>, moved: set<nat>)
    requires OnePlace(now) && MovedSoFar(first, now, gone, cutoff) && moved == Picked(now.hot, cutoff, limit, locked)
    ensures var after := Next(now, Batch(cutoff, limit, locked));
            && MovedSoFar(first, after, gone + moved, cutoff)
            && |gone + moved| == |gone| + |moved| && |after.hot| == |now.hot| - |moved|
  {
    BatchMoves(now, cutoff, limit, locked);
    PickedBounds(first.hot, gone, cutoff, limit, locked);
    hide Picked, Qualifying, Next, OnePlace;
    MoveMore(first.hot, first.archive, gone, moved);
    hide Rows;
    FewerLeft(now.hot, moved);
  }

  // -- with other statements in between

  /** Other traffic that makes no row qualify. */
  predicate Harmless(step: Step, cutoff: int) {
    match step
    case Insert(_, order) => !Qualifies(order, cutoff)
    case SetStatus(_, status) => status != "delivered"
    case Batch(_, _, _) => true
    case Restore(_) => true
  }

  lemma StepHarmless(s: State, step: Step, cutoff: int)
    requires Harmless(step, cutoff)
    ensures Qualifying(Next(s, step).hot, cutoff) <= Qualifying(s.hot, cutoff)
  {
    hide Picked;
  }

  lemma {:induction false} RunHarmless(s: State, steps: seq<Step>, cutoff: int)
    requires forall i :: 0 <= i < |steps| ==> Harmless(steps[i], cutoff)
    ensures Qualifying(Run(s, steps).hot, cutoff) <= Qualifying(s.hot, cutoff)
  {
    hide Next, Qualifying, Harmless;
    if steps != [] {
      RunHarmless(s, steps[..|steps| - 1], cutoff);
      StepHarmless(Run(s, steps[..|steps| - 1]), steps[|steps| - 1], cutoff);
    }
  }

  /** The first `n` batches of the archive loop, with what others do before each. */
  function LoopSteps(cutoff: int, limit: nat, locked: nat -> set<nat>, between: nat -> seq<Step>, n: nat): seq<Step> {
    if n == 0 then []
    else LoopSteps(cutoff, limit, locked, between, n - 1) + between(n) + [Batch(cutoff, limit, locked(n))]
  }

  /** How many rows those batches move. */
  function LoopMoves(s: State, cutoff: int, limit: nat, locked: nat -> set<nat>, between: nat -> seq<Step>,
                     n: nat): nat {
    if n == 0 then 0
    else
      LoopMoves(s, cutoff, limit, locked, between, n - 1)
      + |Taken(Run(s, LoopSteps(cutoff, limit, locked, between, n - 1) + between(n)), cutoff, limit, locked(n))|
  }

  lemma {:induction false} RunConcat(s: State, steps: seq<Step>, more: seq<Step>)
    ensures Run(s, steps + more) == Run(Run(s, steps), more)
  {
    hide Next;
    if more == [] {
      assert steps + more == steps;
    } else {
      assert (steps + more)[..|steps + more| - 1] == steps + more[..|more| - 1];
      RunConcat(s, steps, more[..|more| - 1]);
    }
  }

  lemma LoopSnoc(s: State, cutoff: int, limit: nat, locked: nat -> set<nat>, between: nat -> seq<Step>, n: nat)
    ensures var before := Run(Run(s, LoopSteps(cutoff, limit, locked, between, n)), between(n + 1));
            && Run(s, LoopSteps(cutoff, limit, locked, between, n + 1)) ==
                 Next(before, Batch(cutoff, limit, locked(n + 1)))
            && LoopMoves(s, cutoff, limit, locked, between, n + 1) ==
                 LoopMoves(s, cutoff, limit, locked, between, n) + |Taken(before, cutoff, limit, locked(n + 1))|
  {
    hide Next, Taken;
    var steps := LoopSteps(cutoff, limit, locked, between, n);
    RunConcat(s, steps, between(n + 1));
    assert (steps + between(n + 1) + [Batch(cutoff, limit, locked(n + 1))])[..|steps + between(n + 1)|]
           == steps + between(n + 1);
  }

  /** A batch that moves something leaves fewer rows that qualify; one that moves nothing, and violates no key,
      leaves only locked ones. */
  lemma BatchProgress(s: State, cutoff: int, limit: nat, locked: set<nat>)
    ensures var after, moved := Next(s, Batch(cutoff, limit, locked)), Taken(s, cutoff, limit, locked);
            && (moved != {} ==> |Qualifying(after.hot, cutoff)| < |Qualifying(s.hot, cutoff)|)
            && (moved == {} && Picked(s.hot, cutoff, limit, locked) == {} && limit > 0 ==>
                  Qualifying(after.hot, cutoff) <= locked)
  {
    var moved := Taken(s, cutoff, limit, locked);
    TakenQualifies(s, cutoff, limit, locked);
    if moved != {} {
      hide Picked, Qualifying, Rows;
      LessQualifies(s.hot, moved, cutoff);
    } else if Picked(s.hot, cutoff, limit, locked) == {} && limit > 0 {
      hide Picked, Qualifying, Rows;
      NoneUnlocked(s.hot, cutoff, limit, locked);
      assert s.hot - {} == s.hot;
    }
  }

  lemma TakenQualifies(s: State, cutoff: int, limit: nat, locked: set<nat>)
    ensures Taken(s, cutoff, limit, locked) <= Qualifying(s.hot, cutoff)
    ensures Taken(s, cutoff, limit, locked) != {} ==>
              Next(s, Batch(cutoff, limit, locked)).hot == s.hot - Taken(s, cutoff, limit, locked)
  {
    hide Rows;
  }

  lemma LessQualifies(hot: Table, moved: set<nat>, cutoff: int)
    requires moved <= Qualifying(hot, cutoff) && moved != {}
    ensures |Qualifying(hot - moved, cutoff)| < |Qualifying(hot, cutoff)|
  {
    assert Qualifying(hot - moved, cutoff) == Qualifying(hot, cutoff) - moved;
  }

  lemma NothingLooped(s: State, cutoff: int, limit: nat, locked: nat -> set<nat>, between: nat -> seq<Step>)
    ensures Run(s, LoopSteps(cutoff, limit, locked, between, 0)) == s
    ensures LoopMoves(s, cutoff, limit, locked, between, 0) == 0
  {
  }

  lemma FewerQualify(s: State, s': State, cutoff: int)
    requires Qualifying(s'.hot, cutoff) <= Qualifying(s.hot, cutoff)
    ensures |Qualifying(s'.hot, cutoff)| <= |Qualifying(s.hot, cutoff)|
  {
    hide Qualifying;
    var a, b := Qualifying(s'.hot, cutoff), Qualifying(s.hot, cutoff);
    assert b == a + (b - a);
  }

  /** A batch that fails moves nothing and shows an order in both tables; one that moves nothing otherwise had
      nothing to pick. */
  lemma FailedInBoth(s: State, cutoff: int, limit: nat, locked: set<nat>, failed: bool)
    requires failed <==> exists id :: id in Picked(s.hot, cutoff, limit, locked) && id in s.archive
    ensures failed ==> Taken(s, cutoff, limit, locked) == {} && !OnePlace(Next(s, Batch(cutoff, limit, locked)))
    ensures !failed ==> Taken(s, cutoff, limit, locked) == Picked(s.hot, cutoff, limit, locked)
  {
    var moved := Picked(s.hot, cutoff, limit, locked);
    if failed {
      var id :| id in moved && id in s.archive;
      assert id in moved * s.archive.Keys;
      assert id in Qualifying(s.hot, cutoff);
      BothStays(s, Batch(cutoff, limit, locked), id);
    } else {
      assert moved * s.archive.Keys == {};
    }
  }

  lemma NothingBetween(s: State, steps: seq<Step>)
    requires steps == []
    ensures Run(s, steps) == s
  {
  }

  lemma TakenAlone(s: State, cutoff: int, limit: nat, locked: set<nat>)
    requires OnePlace(s)
    ensures Taken(s, cutoff, limit, locked) == Picked(s.hot, cutoff, limit, locked)
  {
    assert Picked(s.hot, cutoff, limit, locked) <= Qualifying(s.hot, cutoff);
    assert Picked(s.hot, cutoff, limit, locked) * s.archive.Keys == {};
  }

  lemma CommonIds(moved: set<nat>, archive: Table)
    ensures moved * archive.Keys != {} <==> exists id :: id in moved && id in archive
  {
    if moved * archive.Keys != {} {
      var id :| id in moved * archive.Keys;
      assert id in moved && id in archive;
    }
    assert forall id :: id in moved && id in archive ==> id in moved * archive.Keys;
  }

  lemma QualifyingAre(hot: Table, cutoff: int)
    ensures forall id :: id in Qualifying(hot, cutoff) <==>
                           id in hot && hot[id].status == "delivered" && hot[id].createdAt < cutoff
  {
  }

  /** What a batch picks: delivered orders from before the cutoff that nobody has locked, the lowest ids first, all
      of them if the limit allows. */
  lemma PickedAre(hot: Table, cutoff: int, limit: nat, locked: set<nat>)
    ensures var moved := Picked(hot, cutoff, limit, locked);
            && (forall id :: id in moved ==>
                  id in hot && hot[id].status == "delivered" && hot[id].createdAt < cutoff && id !in locked)
            && (forall id: nat :: id in hot && hot[id].status == "delivered" && hot[id].createdAt < cutoff
                                  && id !in locked && id !in moved ==>
                  |moved| == limit && forall m: nat :: m in moved ==> m < id)
  {
    var eligible, moved := Qualifying(hot, cutoff) - locked, Picked(hot, cutoff, limit, locked);
    forall id: nat | id in eligible && id !in moved
      ensures |moved| == limit && forall m: nat :: m in moved ==> m < id
    {
      if |moved| == |eligible| {
        SubsetOfSameSize(moved, eligible);
      }
      forall m: nat | m in moved ensures m < id { LowestBelow(eligible, limit, m, id); }
    }
  }

  lemma SubsetOfSameSize(a: set<nat>, b: set<nat>)
    requires a <= b && |a| == |b|
    ensures a == b
  {
    assert |b - a| == 0;
    assert b == a + (b - a);
  }

  /** `moved` are delivered orders from before the cutoff that nobody had locked; they are in the archive as they
      were, and everything else is where it was. Any other such order that is left has a higher id, and was left
      because the limit was reached. A failed statement moved nothing. */
  ghost predicate MovedRight(s: State, s': State, moved: set<nat>, failed: bool,
                             cutoff: int, limit: nat, locked: set<nat>)
  {
    && (forall id :: id in moved ==>
          && id in s.hot && s.hot[id].status == "delivered" && s.hot[id].createdAt < cutoff && id !in locked
          && id in s'.archive && s'.archive[id] == s.hot[id])
    && s'.hot == s.hot - moved && s'.archive.Keys == s.archive.Keys + moved
    && (forall id :: id in s.archive ==> s'.archive[id] == s.archive[id])
    && (failed ==> moved == {})
    && (!failed ==> forall id: nat :: && id in s'.hot && s'.hot[id].status == "delivered"
                                      && s'.hot[id].createdAt < cutoff && id !in locked ==>
                      |moved| == limit && forall m: nat :: m in moved ==> m < id)
  }

  lemma TakenRows(s: State, moved: set<nat>)
    requires moved <= s.hot.Keys && moved * s.archive.Keys == {}
    ensures var archive := s.archive + Rows(s.hot, moved);
            && archive.Keys == s.archive.Keys + moved
            && (forall id :: id in moved ==> archive[id] == s.hot[id])
            && (forall id :: id in s.archive ==> archive[id] == s.archive[id])
  {
    assert forall id :: id in moved && id in s.archive ==> id in moved * s.archive.Keys;
  }

  lemma BatchMovesRight(s: State, cutoff: int, limit: nat, locked: set<nat>)
    ensures MovedRight(s, Next(s, Batch(cutoff, limit, locked)), Taken(s, cutoff, limit, locked),
                       Picked(s.hot, cutoff, limit, locked) * s.archive.Keys != {}, cutoff, limit, locked)
  {
    PickedAre(s.hot, cutoff, limit, locked);
    var moved := Picked(s.hot, cutoff, limit, locked);
    hide Picked, Rows;
    if moved * s.archive.Keys == {} {
      TakenRows(s, moved);
    } else {
      assert s.hot - {} == s.hot && s.archive.Keys + {} == s.archive.Keys;
    }
  }

  class Orders {
    var hot: Table
    var archive: Table

    constructor ()
      ensures hot == map[] && archive == map[]
    {
      hot, archive := map[], map[];
    }

    function Value(): State
      reads this
    {
      State(hot, archive)
    }

    /** One batch statement: it fails, and changes nothing, exactly if a picked id is in the archive already. */
    method MoveBatch(cutoff: int, limit: nat, locked: set<nat>) returns (moved: set<nat>, failed: bool)
      modifies this
      ensures Value() == Next(old(Value()), Batch(cutoff, limit, locked))
      ensures moved == Taken(old(Value()), cutoff, limit, locked)
      ensures MovedRight(old(Value()), Value(), moved, failed, cutoff, limit, locked)
      ensures failed <==> exists id :: id in Picked(old(hot), cutoff, limit, locked) && id in old(archive)
      ensures old(OnePlace(Value())) ==> OnePlace(Value()) && !failed
    {
      moved := Picked(hot, cutoff, limit, locked);
      failed := moved * archive.Keys != {};
      StepOnePlace(Value(), Batch(cutoff, limit, locked));
      CommonIds(moved, archive);
      BatchMovesRight(Value(), cutoff, limit, locked);
      if OnePlace(Value()) { BatchMoves(Value(), cutoff, limit, locked); }
      hide Picked, Rows, OnePlace, MovedRight;
      if failed {
        moved := {};
      } else {
        hot, archive := hot - moved, archive + Rows(hot, moved);
      }
    }

    /** The archive loop alongside other traffic: `locked(i)` are the rows that others hold at the i-th batch, and
        `between(i)` is what others have committed since the batch before, if it makes no row qualify. The loop
        ends. What it leaves is what all these statements leave, in order, and it counted what its batches moved.
        Unless a batch failed, on an order in both tables, every row that still qualifies is one that was locked at
        the last batch. Alone, it moved qualifying rows from one table to the other and changed nothing else. */
    method Archive(cutoff: int, limit: nat, locked: nat -> set<nat>, between: nat -> seq<Step>)
      returns (total: nat, batches: nat, failed: bool)
      requires forall i: nat, k: nat :: k < |between(i)| ==> Harmless(between(i)[k], cutoff)
      modifies this
      ensures batches >= 1
      ensures Value() == Run(old(Value()), LoopSteps(cutoff, limit, locked, between, batches))
      ensures total == LoopMoves(old(Value()), cutoff, limit, locked, between, batches)
      ensures failed ==> !OnePlace(Value())
      ensures !failed && limit > 0 ==> Qualifying(hot, cutoff) <= locked(batches)
      ensures !failed && limit > 0 ==>
                forall id :: id in hot && hot[id].status == "delivered" && hot[id].createdAt < cutoff ==>
                               id in locked(batches)
      ensures old(OnePlace(Value())) && (forall i: nat :: between(i) == []) ==>
                var gone := old(hot).Keys - hot.Keys;
                && !failed && OnePlace(Value())
                && total == |gone| && gone <= Qualifying(old(hot), cutoff)
                && hot == old(hot) - gone && archive == old(archive) + Rows(old(hot), gone)
    {
      hide MovedRight, MovedSoFar, Picked, Qualifying, Next, Rows, OnePlace, Taken, Harmless, Run, LoopSteps, LoopMoves;
      total, batches, failed := 0, 0, false;
      ghost var gone: set<nat> := {};
      ghost var alone := OnePlace(Value()) && forall i: nat :: between(i) == [];
      NothingMoved(hot, archive, cutoff);
      NothingLooped(Value(), cutoff, limit, locked, between);
      var more := true;
      while more
        invariant Value() == Run(old(Value()), LoopSteps(cutoff, limit, locked, between, batches))
        invariant total == LoopMoves(old(Value()), cutoff, limit, locked, between, batches)
        invariant more ==> !failed
        invariant !more ==> batches >= 1 && (failed ==> !OnePlace(Value()))
                            && (!failed && limit > 0 ==> Qualifying(hot, cutoff) <= locked(batches))
        invariant alone ==> OnePlace(Value()) && MovedSoFar(old(Value()), Value(), gone, cutoff) && total == |gone|
        decreases more, |Qualifying(hot, cutoff)|
      {
        LoopSnoc(old(Value()), cutoff, limit, locked, between, batches);
        batches := batches + 1;
        ghost var first := Value();
        RunHarmless(Value(), between(batches), cutoff);
        FewerQualify(Value(), Run(Value(), between(batches)), cutoff);
        var now := Run(Value(), between(batches));
        hot, archive := now.hot, now.archive;
        BatchProgress(now, cutoff, limit, locked(batches));
        var moved;
        moved, failed := MoveBatch(cutoff, limit, locked(batches));
        FailedInBoth(now, cutoff, limit, locked(batches), failed);
        if alone {
          NothingBetween(first, between(batches));
          TakenAlone(now, cutoff, limit, locked(batches));
          BatchAdds(old(Value()), now, gone, cutoff, limit, locked(batches), moved);
        }
        gone, total, more := gone + moved, total + |moved|, moved != {};
      }
      if alone { MovedAll(old(Value()), Value(), gone, cutoff); }
      QualifyingAre(hot, cutoff);
    }

    method RestoreOrder(id: nat)
      requires OnePlace(Value())
      modifies this
      ensures OnePlace(Value()) && Value() == Next(old(Value()), Restore(id))
      ensures id in old(archive) ==> && hot == old(hot)[id := old(archive)[id].(status := "disputed")]
                                     && archive == old(archive) - {id}
      ensures id !in old(archive) ==> hot == old(hot) && archive == old(archive)
    {
      StepOnePlace(Value(), Restore(id));
      if id in archive {
        hot, archive := hot[id := Disputed(archive[id])], archive - {id};
      }
    }

    /** The lookup with no statement in between: the answer is where the order is. */
    method Find(id: nat) returns (r: Where)
      ensures r == Hot <==> id in hot
      ensures r == Nowhere <==> id !in All(Value())
      ensures OnePlace(Value()) ==> (r == Where.Archive <==> id in archive)
    {
      if id in hot { return Hot; }
      if id in archive { return Where.Archive; }
      r := Nowhere;
    }
  }
}
