/** Incremental maintenance of a summary table: a refresh folds the sales rows above a watermark into per-group
    totals and moves the watermark in the same transaction. The statements of a refresh interleave with committing
    inserts; the row lock on the watermark keeps refreshes apart, so at most one is under way. */
module IncrementalView {
  import opened Basics

  datatype Group = Group(region: string, day: int)
  datatype Sale = Sale(group: Group, amount: int)
  datatype Totals = Totals(orders: int, revenue: int)

  type Sales = map<nat, Sale>
  type Summary = map<Group, Totals>

  // ---------------------------------------------------------------- the recomputation

  function One(g: Group): (nat, Sale) -> int {
    (id: nat, s: Sale) => if s.group == g then 1 else 0
  }

  function Amount(g: Group): (nat, Sale) -> int {
    (id: nat, s: Sale) => if s.group == g then s.amount else 0
  }

  ghost function TotalsOf(rows: Sales, g: Group): Totals {
    Totals(Sum(rows, One(g)), Sum(rows, Amount(g)))
  }

  function GroupsOf(rows: Sales): set<Group> {
    set id | id in rows :: rows[id].group
  }

  /** SELECT region, day, count(*), sum(amount) FROM rows GROUP BY region, day. */
  ghost function GroupBy(rows: Sales): Summary {
    map g | g in GroupsOf(rows) :: TotalsOf(rows, g)
  }

  function Plus(a: Totals, b: Totals): Totals {
    Totals(a.orders + b.orders, a.revenue + b.revenue)
  }

  function At(agg: Summary, g: Group): Totals {
    if g in agg then agg[g] else Totals(0, 0)
  }

  /** MERGE: add to the totals of a group that exists, insert one that does not. */
  function Merge(agg: Summary, groups: Summary): Summary {
    map g | g in agg.Keys + groups.Keys :: Plus(At(agg, g), At(groups, g))
  }

  /** WHERE id > from AND id <= to. */
  function Between(sales: Sales, from: nat, to: nat): Sales {
    map id | id in sales && from < id <= to :: sales[id]
  }

  function UpTo(sales: Sales, mark: nat): Sales {
    map id | id in sales && id <= mark :: sales[id]
  }

  // ---------------------------------------------------------------- steps

  /** Where the one refresh under way is; Merged holds the rows of the MERGE's snapshot. */
  datatype Refresh = Idle | HasMark(from: nat) | HasMax(from: nat, to: nat) | Merged(to: nat, rows: Sales)

  datatype State = State(sales: Sales, agg: Summary, mark: nat, refresh: Refresh)

  datatype Step = Insert(id: nat, sale: Sale) | ReadMark | ReadMax | MergeRows | Commit | Abort

  const INIT := State(map[], map[], 0, Idle)

  ghost function Next(s: State, step: Step): State {
    match step
    case Insert(id, sale) => if id in s.sales then s else s.(sales := s.sales[id := sale])
    case ReadMark => if s.refresh.Idle? then s.(refresh := HasMark(s.mark)) else s
    case ReadMax => if s.refresh.HasMark? then s.(refresh := HasMax(s.refresh.from, MaxOf(s.sales.Keys))) else s
    case MergeRows =>
      if !s.refresh.HasMax? then s
      else s.(refresh := Merged(s.refresh.to, Between(s.sales, s.refresh.from, s.refresh.to)))
    case Commit =>
      if !s.refresh.Merged? then s
      else s.(agg := Merge(s.agg, GroupBy(s.refresh.rows)), mark := s.refresh.to, refresh := Idle)
    case Abort => s.(refresh := Idle)
  }

  ghost function Run(steps: seq<Step>): State {
    if steps == [] then INIT else Next(Run(steps[..|steps| - 1]), steps[|steps| - 1])
  }

  /** The rows that a step puts out of reach of every later refresh: a row inserted at or below the watermark, and
      at a commit the rows at or below the new watermark that the MERGE did not see. */
  function LateAt(s: State, step: Step): Sales {
    if step.Insert? && step.id !in s.sales && step.id <= s.mark then map[step.id := step.sale]
    else if step.Commit? && s.refresh.Merged? then Between(s.sales, s.mark, s.refresh.to) - s.refresh.rows.Keys
    else map[]
  }

  ghost function Late(steps: seq<Step>): Sales {
    if steps == [] then map[]
    else Late(steps[..|steps| - 1]) + LateAt(Run(steps[..|steps| - 1]), steps[|steps| - 1])
  }

  // ---------------------------------------------------------------- grouping disjoint rows

  ghost predicate Disjoint(m: Sales, n: Sales) {
    forall id :: id in n ==> id !in m
  }

  lemma TotalsAdd(m: Sales, n: Sales, g: Group)
    requires Disjoint(m, n)
    ensures TotalsOf(m + n, g) == Plus(TotalsOf(m, g), TotalsOf(n, g))
  {
    hide Sum;
    SumUnion(m, n, One(g));
    SumUnion(m, n, Amount(g));
  }

  lemma GroupsAdd(m: Sales, n: Sales)
    requires Disjoint(m, n)
    ensures GroupsOf(m + n) == GroupsOf(m) + GroupsOf(n)
  {
    forall g ensures g in GroupsOf(m + n) <==> g in GroupsOf(m) + GroupsOf(n) {
      if g in GroupsOf(m) {
        var id :| id in m && m[id].group == g;
        assert id in m + n && (m + n)[id].group == g;
      }
      if g in GroupsOf(n) {
        var id :| id in n && n[id].group == g;
        assert id in m + n && (m + n)[id].group == g;
      }
    }
  }

  /** A group that no row belongs to totals to nothing. */
  lemma NoGroup(m: Sales, g: Group)
    requires g !in GroupsOf(m)
    ensures TotalsOf(m, g) == Totals(0, 0)
  {
    forall id | id in m ensures m[id].group != g { assert m[id].group in GroupsOf(m); }
    SumZero(m, One(g));
    SumZero(m, Amount(g));
  }

  lemma AtGroupBy(m: Sales, g: Group)
    ensures At(GroupBy(m), g) == TotalsOf(m, g)
  {
    if g !in GroupsOf(m) { NoGroup(m, g); }
  }

  /** Merging the groups of new rows gives the groups of all rows. */
  lemma MergeIsGroupBy(m: Sales, n: Sales)
    requires Disjoint(m, n)
    ensures Merge(GroupBy(m), GroupBy(n)) == GroupBy(m + n)
  {
    GroupsAdd(m, n);
    hide TotalsOf, At, GroupsOf, Plus;
    forall g ensures Plus(At(GroupBy(m), g), At(GroupBy(n), g)) == TotalsOf(m + n, g) {
      AtGroupBy(m, g);
      AtGroupBy(n, g);
      TotalsAdd(m, n, g);
    }
  }

  lemma {:induction false} CountNotNegative(m: Sales, g: Group)
    ensures Sum(m, One(g)) >= 0
    decreases |m|
  {
    if m != map[] { CountNotNegative(m - {Pick(m)}, g); }
  }

  /** Grouping loses no row: rows and a proper part of them have different groups. */
  lemma GroupByTellsPartsApart(m: Sales, n: Sales)
    requires Disjoint(m, n)
    ensures GroupBy(m) == GroupBy(m + n) <==> n == map[]
  {
    if n == map[] {
      assert m + n == m;
    } else {
      var id := Pick(n);
      var g := n[id].group;
      TotalsAdd(m, n, g);
      SumTake(n, One(g), id);
      CountNotNegative(n - {id}, g);
      AtGroupBy(m, g);
      AtGroupBy(m + n, g);
    }
  }

  // ---------------------------------------------------------------- what every run keeps

  /** The rows the summary has counted: those up to the watermark that were not late. */
  ghost function Counted(s: State, late: Sales): Sales {
    UpTo(s.sales, s.mark) - late.Keys
  }

  ghost predicate PartOf(m: Sales, n: Sales) {
    forall id :: id in m ==> id in n && m[id] == n[id]
  }

  ghost predicate RefreshSound(s: State) {
    match s.refresh
    case Idle => true
    case HasMark(from) => from == s.mark
    case HasMax(from, to) => from == s.mark <= to && (to == 0 || to in s.sales)
    case Merged(to, rows) => s.mark <= to && (to == 0 || to in s.sales) && PartOf(rows, Between(s.sales, s.mark, to))
  }

  ghost predicate Inv(s: State, late: Sales) {
    && PartOf(late, UpTo(s.sales, s.mark))
    && (s.mark == 0 || s.mark in s.sales)
    && RefreshSound(s)
    && s.agg == GroupBy(Counted(s, late))
  }

  lemma LateInsert(sales: Sales, mark: nat, late: Sales, id: nat, sale: Sale)
    requires PartOf(late, UpTo(sales, mark)) && id !in sales && id <= mark
    ensures PartOf(late[id := sale], UpTo(sales[id := sale], mark))
    ensures UpTo(sales[id := sale], mark) - late[id := sale].Keys == UpTo(sales, mark) - late.Keys
  {
    assert UpTo(sales[id := sale], mark) == UpTo(sales, mark)[id := sale];
  }

  lemma InsertCounted(s: State, late: Sales, step: Step)
    requires PartOf(late, UpTo(s.sales, s.mark)) && step.Insert?
    ensures var late' := late + LateAt(s, step);
            PartOf(late', UpTo(Next(s, step).sales, s.mark)) && Counted(Next(s, step), late') == Counted(s, late)
  {
    if step.id !in s.sales && step.id <= s.mark {
      LateInsert(s.sales, s.mark, late, step.id, step.sale);
      assert late + LateAt(s, step) == late[step.id := step.sale];
    } else {
      assert late + LateAt(s, step) == late;
      assert UpTo(Next(s, step).sales, s.mark) == UpTo(s.sales, s.mark);
    }
  }

  lemma InsertSound(s: State, step: Step)
    requires RefreshSound(s) && step.Insert?
    ensures RefreshSound(Next(s, step))
  {
    if s.refresh.Merged? {
      var to := s.refresh.to;
      assert PartOf(Between(s.sales, s.mark, to), Between(Next(s, step).sales, s.mark, to));
    }
  }

  lemma InsertKeeps(s: State, late: Sales, step: Step)
    requires Inv(s, late) && step.Insert?
    ensures Inv(Next(s, step), late + LateAt(s, step))
  {
    hide GroupBy, Counted, RefreshSound, PartOf, LateAt;
    InsertCounted(s, late, step);
    InsertSound(s, step);
  }

  /** The rows between the old and the new watermark are those the MERGE saw and those that are now late. */
  lemma WindowSplits(sales: Sales, mark: nat, to: nat, rows: Sales, late: Sales)
    requires mark <= to && PartOf(late, UpTo(sales, mark)) && PartOf(rows, Between(sales, mark, to))
    ensures var late' := late + (Between(sales, mark, to) - rows.Keys);
            UpTo(sales, to) - late'.Keys == (UpTo(sales, mark) - late.Keys) + rows
  {
    var window := Between(sales, mark, to);
    var late' := late + (window - rows.Keys);
    var left, right := UpTo(sales, to) - late'.Keys, (UpTo(sales, mark) - late.Keys) + rows;
    forall id ensures id in left <==> id in right {
      assert id in rows ==> id in window;
      assert id in late ==> id <= mark;
    }
  }

  lemma CommitCounted(s: State, late: Sales)
    requires PartOf(late, UpTo(s.sales, s.mark)) && RefreshSound(s) && s.refresh.Merged?
    ensures var late' := late + LateAt(s, Commit);
            && PartOf(late', UpTo(s.sales, s.refresh.to))
            && UpTo(s.sales, s.refresh.to) - late'.Keys == Counted(s, late) + s.refresh.rows
            && Disjoint(Counted(s, late), s.refresh.rows)
  {
    WindowSplits(s.sales, s.mark, s.refresh.to, s.refresh.rows, late);
  }

  lemma CommitKeeps(s: State, late: Sales)
    requires Inv(s, late) && s.refresh.Merged?
    ensures Inv(Next(s, Commit), late + LateAt(s, Commit))
  {
    CommitCounted(s, late);
    MergeIsGroupBy(Counted(s, late), s.refresh.rows);
    hide GroupBy, Merge, LateAt, PartOf, Disjoint;
  }

  lemma StepKeeps(s: State, late: Sales, step: Step)
    requires Inv(s, late)
    ensures Inv(Next(s, step), late + LateAt(s, step))
  {
    if step.Insert? {
      InsertKeeps(s, late, step);
    } else if step.Commit? && s.refresh.Merged? {
      CommitKeeps(s, late);
    } else {
      hide GroupBy, Counted;
      assert late + map[] == late;
      assert s.mark in s.sales.Keys ==> s.mark <= MaxOf(s.sales.Keys);
      assert Counted(Next(s, step), late) == Counted(s, late) by { SameCounted(s, step, late); }
    }
  }

  lemma SameCounted(s: State, step: Step, late: Sales)
    requires !step.Insert? && !(step.Commit? && s.refresh.Merged?)
    ensures Counted(Next(s, step), late) == Counted(s, late)
  {
  }

  lemma {:induction false} RunKeeps(steps: seq<Step>)
    ensures Inv(Run(steps), Late(steps))
  {
    if steps != [] {
      hide Inv, Next, LateAt;
      RunKeeps(steps[..|steps| - 1]);
      StepKeeps(Run(steps[..|steps| - 1]), Late(steps[..|steps| - 1]), steps[|steps| - 1]);
    } else {
      assert Counted(INIT, map[]) == map[];
    }
  }

  // ---------------------------------------------------------------- results

  lemma RestOf(m: Sales, late: Sales)
    requires PartOf(late, m)
    ensures m == (m - late.Keys) + late && Disjoint(m - late.Keys, late)
  {
  }

  /** A sale stays in the table as it was inserted. */
  lemma {:induction false} InsertedStays(steps: seq<Step>, i: nat)
    requires i < |steps| && steps[i].Insert? && steps[i].id !in Run(steps[..i]).sales
    ensures steps[i].id in Run(steps).sales && Run(steps).sales[steps[i].id] == steps[i].sale
  {
    var front := steps[..|steps| - 1];
    if i < |front| {
      assert front[..i] == steps[..i] && front[i] == steps[i];
      InsertedStays(front, i);
    } else {
      assert steps[..i] == front;
    }
  }

  /** The summary is the group-by of the rows up to the watermark, short of exactly the late rows: so it is the
      group-by of all of them if and only if no row was ever late. */
  lemma SummaryExactly(steps: seq<Step>)
    ensures var s := Run(steps);
            && s.agg == GroupBy(UpTo(s.sales, s.mark) - Late(steps).Keys)
            && PartOf(Late(steps), UpTo(s.sales, s.mark))
            && (s.agg == GroupBy(UpTo(s.sales, s.mark)) <==> Late(steps) == map[])
  {
    RunKeeps(steps);
    var s := Run(steps);
    RestOf(UpTo(s.sales, s.mark), Late(steps));
    GroupByTellsPartsApart(Counted(s, Late(steps)), Late(steps));
  }

  /** It equals the full recomputation if and only if no row was late and none is above the watermark. */
  lemma FullRecomputeExactly(steps: seq<Step>)
    ensures var s := Run(steps);
            s.agg == GroupBy(s.sales) <==> Late(steps) == map[] && forall id :: id in s.sales ==> id <= s.mark
  {
    hide GroupBy, Run, Late, Counted, RefreshSound;
    RunKeeps(steps);
    var s := Run(steps);
    MissingNothing(s, Late(steps));
    var counted := Counted(s, Late(steps));
    GroupByTellsPartsApart(counted, s.sales - counted.Keys);
  }

  lemma MissingNothing(s: State, late: Sales)
    requires PartOf(late, UpTo(s.sales, s.mark))
    ensures s.sales == Counted(s, late) + (s.sales - Counted(s, late).Keys)
    ensures s.sales - Counted(s, late).Keys == map[] <==> late == map[] && forall id :: id in s.sales ==> id <= s.mark
  {
    var missing := s.sales - Counted(s, late).Keys;
    if missing == map[] {
      forall id | id in s.sales ensures id <= s.mark && id !in late { assert id !in missing; }
    } else {
      var id := Pick(missing);
      assert id in late || id > s.mark;
    }
  }

  /** A sale whose transaction drew a lower id and committed after the refresh is such a row. */
  lemma LowerIdCommitsLate(lo: nat, hi: nat, first: Sale, late: Sale)
    requires 0 < lo < hi
    ensures var steps := LateRun(lo, hi, first, late);
            Late(steps) == map[lo := late] && Run(steps).agg != GroupBy(UpTo(Run(steps).sales, Run(steps).mark))
  {
    var steps := LateRun(lo, hi, first, late);
    LateRunState(lo, hi, first, late);
    assert lo in Late(steps);
    hide Run, Late, GroupBy;
    SummaryExactly(steps);
  }

  function LateRun(lo: nat, hi: nat, first: Sale, late: Sale): seq<Step> {
    [] + [Insert(hi, first)] + [ReadMark] + [ReadMax] + [MergeRows] + [Commit] + [Insert(lo, late)]
  }

  lemma Snoc(steps: seq<Step>, step: Step)
    ensures Run(steps + [step]) == Next(Run(steps), step)
    ensures Late(steps + [step]) == Late(steps) + LateAt(Run(steps), step)
  {
    hide Next, LateAt;
    assert (steps + [step])[..|steps|] == steps;
  }

  lemma LateRunState(lo: nat, hi: nat, first: Sale, late: Sale)
    requires 0 < lo < hi
    ensures Late(LateRun(lo, hi, first, late)) == map[lo := late]
  {
    hide Run, Late, GroupBy, Merge;
    NothingRun();
    Snoc([], Insert(hi, first));
    Snoc([] + [Insert(hi, first)], ReadMark);
    Snoc([] + [Insert(hi, first)] + [ReadMark], ReadMax);
    Snoc([] + [Insert(hi, first)] + [ReadMark] + [ReadMax], MergeRows);
    Snoc([] + [Insert(hi, first)] + [ReadMark] + [ReadMax] + [MergeRows], Commit);
    Snoc([] + [Insert(hi, first)] + [ReadMark] + [ReadMax] + [MergeRows] + [Commit], Insert(lo, late));
    var sales: Sales := map[hi := first];
    assert MaxOf(sales.Keys) == hi by { assert hi in sales.Keys; }
    assert Between(sales, 0, hi) == sales;
  }

  lemma NothingRun()
    ensures Run([]) == INIT && Late([]) == map[]
  {
  }

  /** Every insert is above the watermark, and none falls between the statements of a refresh. */
  ghost predicate Orderly(steps: seq<Step>) {
    forall i :: 0 <= i < |steps| && steps[i].Insert? ==>
                  Run(steps[..i]).refresh.Idle? && Run(steps[..i]).mark < steps[i].id
  }

  ghost predicate MergedAll(s: State) {
    && (s.refresh.HasMax? ==> s.refresh.to == MaxOf(s.sales.Keys))
    && (s.refresh.Merged? ==>
        s.refresh.rows == Between(s.sales, s.mark, s.refresh.to) && s.refresh.to == MaxOf(s.sales.Keys))
  }

  lemma {:induction false} OrderlyKeeps(steps: seq<Step>)
    requires Orderly(steps)
    ensures Late(steps) == map[] && MergedAll(Run(steps)) && Inv(Run(steps), map[])
  {
    RunKeeps(steps);
    if steps != [] {
      hide Inv, Run, Late;
      var front, last := steps[..|steps| - 1], steps[|steps| - 1];
      assert Orderly(front) by {
        assert forall i :: 0 <= i < |front| ==> front[..i] == steps[..i] && front[i] == steps[i];
      }
      OrderlyKeeps(front);
      assert last.Insert? ==> Run(front).refresh.Idle? && Run(front).mark < last.id;
      OrderlyStep(Run(front), last);
      UnfoldLast(steps);
    }
  }

  lemma UnfoldLast(steps: seq<Step>)
    requires steps != []
    ensures var front := steps[..|steps| - 1];
            && Run(steps) == Next(Run(front), steps[|steps| - 1])
            && Late(steps) == Late(front) + LateAt(Run(front), steps[|steps| - 1])
  {
  }

  lemma OrderlyStep(s: State, step: Step)
    requires Inv(s, map[]) && MergedAll(s) && (step.Insert? ==> s.refresh.Idle? && s.mark < step.id)
    ensures LateAt(s, step) == map[] && MergedAll(Next(s, step))
  {
    hide GroupBy;
  }

  /** Right after a refresh, the summary is the full recomputation. */
  lemma RefreshGivesRecompute(steps: seq<Step>)
    requires Orderly(steps) && steps != [] && steps[|steps| - 1].Commit?
    requires Run(steps[..|steps| - 1]).refresh.Merged?
    ensures Run(steps).agg == GroupBy(Run(steps).sales)
  {
    hide GroupBy, Inv;
    assert Orderly(steps[..|steps| - 1]) by {
      var front := steps[..|steps| - 1];
      hide Run;
      assert forall i :: 0 <= i < |front| ==> front[..i] == steps[..i] && front[i] == steps[i];
    }
    OrderlyKeeps(steps[..|steps| - 1]);
    OrderlyKeeps(steps);
    FullRecomputeExactly(steps);
  }

  // ---------------------------------------------------------------- the refresh as it runs

  /** One more row in its group. */
  function Grown(groups: Summary, sale: Sale): Summary {
    groups[sale.group := Plus(At(groups, sale.group), Totals(1, sale.amount))]
  }

  lemma GroupByGrows(m: Sales, id: nat, sale: Sale)
    requires id !in m
    ensures GroupBy(m[id := sale]) == Grown(GroupBy(m), sale)
  {
    var one: Sales := map[id := sale];
    assert m + one == m[id := sale];
    MergeIsGroupBy(m, one);
    OneRow(id, sale, sale.group);
    assert GroupBy(one) == map[sale.group := Totals(1, sale.amount)];
    hide GroupBy, Merge;
    MergeNone(GroupBy(m));
    MergeOne(GroupBy(m), map[], sale.group, Totals(1, sale.amount));
  }

  lemma OneRow(id: nat, sale: Sale, g: Group)
    ensures TotalsOf(map[id := sale], g) == if g == sale.group then Totals(1, sale.amount) else Totals(0, 0)
  {
    var one: Sales := map[id := sale];
    SumTake(one, One(g), id);
    SumTake(one, Amount(g), id);
    assert one - {id} == map[];
  }

  lemma RowMoves(seen: Sales, left: Sales, id: nat)
    requires Disjoint(seen, left) && id in left
    ensures seen[id := left[id]] + (left - {id}) == seen + left
    ensures Disjoint(seen[id := left[id]], left - {id}) && id !in seen
  {
  }

  lemma NothingGrouped()
    ensures GroupBy(map[]) == map[]
  {
    assert GroupsOf(map[]) == {};
  }

  /** The grouped subquery, row by row in any order. */
  method GroupRows(rows: Sales) returns (groups: Summary)
    ensures groups == GroupBy(rows)
  {
    hide GroupBy, Disjoint, Grown;
    groups := map[];
    ghost var seen: Sales := map[];
    var left := rows;
    NothingGrouped();
    assert seen + left == rows && Disjoint(seen, left) by { NoOverlap(rows); }
    while left != map[]
      invariant seen + left == rows && Disjoint(seen, left)
      invariant groups == GroupBy(seen)
      decreases |left|
    {
      var id :| id in left;
      RowMoves(seen, left, id);
      GroupByGrows(seen, id, left[id]);
      groups := Grown(groups, left[id]);
      seen := seen[id := left[id]];
      left := left - {id};
    }
    assert seen == rows;
  }

  lemma NoOverlap(rows: Sales)
    ensures map[] + rows == rows && Disjoint(map[], rows)
  {
  }

  /** MERGE takes its source row by row, if no two are of the same group. */
  lemma MergeOne(agg: Summary, done: Summary, g: Group, t: Totals)
    requires g !in done
    ensures Merge(agg, done[g := t]) == Merge(agg, done)[g := Plus(At(Merge(agg, done), g), t)]
  {
  }

  lemma MergeNone(agg: Summary)
    ensures Merge(agg, map[]) == agg
  {
  }

  /** The rows of a table, as EXCEPT compares them. */
  function Tuples(t: Summary): set<(Group, Totals)> {
    set g | g in t :: (g, t[g])
  }

  lemma SameTuples(t: Summary, u: Summary)
    requires Tuples(t) <= Tuples(u)
    ensures forall g :: g in t ==> g in u && t[g] == u[g]
  {
    forall g | g in t ensures g in u && t[g] == u[g] {
      assert (g, t[g]) in Tuples(t);
    }
  }

  class Warehouse {
    var sales: Sales
    var agg: Summary
    var mark: nat

    constructor ()
      ensures sales == map[] && agg == map[] && mark == 0
    {
      sales, agg, mark := map[], map[], 0;
    }

    /** incrementalRefresh with nothing in between. If the summary was that of the rows up to the watermark, it is
        now that of all rows. */
    method IncrementalRefresh()
      modifies this`agg, this`mark
      ensures mark == MaxOf(sales.Keys)
      ensures agg == Merge(old(agg), GroupBy(Between(sales, old(mark), mark)))
      ensures old(agg) == GroupBy(UpTo(sales, old(mark))) ==> agg == GroupBy(sales)
    {
      var from, to := mark, MaxOf(sales.Keys);
      var groups := GroupRows(Between(sales, from, to));
      hide GroupBy, Merge;
      var done: Summary := map[];
      var merged := agg;
      MergeNone(agg);
      var todo := groups.Keys;
      while todo != {}
        invariant todo == groups.Keys - done.Keys
        invariant forall g :: g in done ==> g in groups && done[g] == groups[g]
        invariant merged == Merge(agg, done)
        modifies {}
        decreases todo
      {
        var g :| g in todo;
        todo := todo - {g};
        MergeOne(agg, done, g, groups[g]);
        if g in merged {
          merged := merged[g := Plus(merged[g], groups[g])];
        } else {
          merged := merged[g := groups[g]];
        }
        done := done[g := groups[g]];
      }
      assert forall g :: g in groups ==> g !in todo;
      assert done == groups;
      UpToMerges(sales, from, to);
      agg, mark := merged, to;
    }

    /** verifyIncremental: the symmetric difference of the two tables is empty exactly when they are equal. */
    method VerifyIncremental(view: Summary) returns (diff: nat)
      ensures diff == 0 <==> view == agg
    {
      diff := |Tuples(view) - Tuples(agg)| + |Tuples(agg) - Tuples(view)|;
      if diff == 0 {
        assert Tuples(view) - Tuples(agg) == {} && Tuples(agg) - Tuples(view) == {};
        assert forall t :: t in Tuples(view) ==> t !in Tuples(view) - Tuples(agg);
        assert forall t :: t in Tuples(agg) ==> t !in Tuples(agg) - Tuples(view);
        SameTuples(view, agg);
        SameTuples(agg, view);
      }
    }
  }

  lemma UpToMerges(sales: Sales, from: nat, to: nat)
    requires to == MaxOf(sales.Keys)
    ensures Merge(GroupBy(UpTo(sales, from)), GroupBy(Between(sales, from, to))) == GroupBy(sales)
  {
    hide GroupBy;
    MergeIsGroupBy(UpTo(sales, from), Between(sales, from, to));
    assert UpTo(sales, from) + Between(sales, from, to) == sales;
  }
}
