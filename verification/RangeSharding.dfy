/** Range-based sharding by order date: an application-side range map, rows routed by it, range queries that
    visit only the shards the map names, and splits that move part of a range to another shard. */
module RangeSharding {
  import opened Basics

  type Time = int
  type Shard = string

  datatype End = Until(t: Time) | Unbounded
  datatype Range = Range(from: Time, to: End, shards: seq<Shard>)
  datatype Row = Row(id: nat, customer: nat, amount: int, at: Time)
  type Tables = map<Shard, seq<Row>>

  predicate Before(t: Time, end: End) {
    end.Unbounded? || t < end.t
  }

  predicate Contains(r: Range, t: Time) {
    r.from <= t && Before(t, r.to)
  }

  predicate Overlaps(r: Range, from: Time, to: Time) {
    Before(from, r.to) && to > r.from
  }

  /** The first range that contains `t`. */
  function Find(ranges: seq<Range>, t: Time): (r: Option<nat>)
    ensures r.Some? ==> r.value < |ranges| && Contains(ranges[r.value], t)
    ensures r.None? ==> forall i :: 0 <= i < |ranges| ==> !Contains(ranges[i], t)
  {
    if ranges == [] then None
    else
      var before := Find(ranges[..|ranges| - 1], t);
      if before.Some? then before
      else if Contains(ranges[|ranges| - 1], t) then Some(|ranges| - 1)
      else None
  }

  /** The shard of a row: its range, then the customer within the range. */
  function Route(ranges: seq<Range>, t: Time, customer: nat): Option<Shard> {
    var i := Find(ranges, t);
    if i.None? || ranges[i.value].shards == [] then None
    else Some(ShardIn(ranges[i.value], customer))
  }

  function ShardIn(r: Range, customer: nat): Shard
    requires r.shards != []
  {
    r.shards[customer % |r.shards|]
  }

  function TableOf(tables: Tables, s: Shard): seq<Row> {
    if s in tables then tables[s] else []
  }

  // ---------------------------------------------------------------- the map is a partition of time

  /** Sorted, disjoint and without gaps: each range ends where the next begins. */
  ghost predicate Tiling(ranges: seq<Range>) {
    && (forall i :: 0 <= i < |ranges| ==>
        ranges[i].shards != [] && (ranges[i].to.Unbounded? || ranges[i].from <= ranges[i].to.t))
    && (forall i :: 0 <= i < |ranges| - 1 ==> ranges[i].to == Until(ranges[i + 1].from))
  }

  lemma {:induction false} TilingOrdered(ranges: seq<Range>, i: nat, j: nat)
    requires Tiling(ranges) && i < j < |ranges|
    ensures ranges[i].to.Until? && ranges[i].to.t <= ranges[j].from
    decreases j - i
  {
    assert ranges[i].to == Until(ranges[i + 1].from);
    if i + 1 < j {
      TilingOrdered(ranges, i + 1, j);
      assert ranges[i + 1].from <= ranges[i + 1].to.t;
    }
  }

  /** At most one range contains a time. */
  lemma TilingDisjoint(ranges: seq<Range>, i: nat, j: nat, t: Time)
    requires Tiling(ranges) && i < |ranges| && j < |ranges| && Contains(ranges[i], t) && Contains(ranges[j], t)
    ensures i == j
  {
    if i < j { TilingOrdered(ranges, i, j); }
    if j < i { TilingOrdered(ranges, j, i); }
  }

  /** The ranges cover exactly the time from the first start to the last end. */
  lemma {:induction false} TilingCovers(ranges: seq<Range>, t: Time)
    requires Tiling(ranges) && ranges != []
    ensures Find(ranges, t).Some? <==> ranges[0].from <= t && Before(t, ranges[|ranges| - 1].to)
  {
    var front, last := ranges[..|ranges| - 1], ranges[|ranges| - 1];
    if front != [] {
      assert forall i :: 0 <= i < |front| - 1 ==> ranges[i].to == Until(ranges[i + 1].from);
      TilingCovers(front, t);
      assert front[|front| - 1].to == Until(last.from);
      TilingOrdered(ranges, 0, |ranges| - 1);
      assert ranges[0].from <= last.from;
    }
  }

  lemma RouteIs(ranges: seq<Range>, i: nat, t: Time, customer: nat)
    requires Tiling(ranges) && i < |ranges| && Contains(ranges[i], t)
    ensures Route(ranges, t, customer) == Some(ShardIn(ranges[i], customer))
  {
    var f := Find(ranges, t);
    TilingDisjoint(ranges, i, f.value, t);
  }

  // ---------------------------------------------------------------- rows are where the map says

  ghost predicate Placed(ranges: seq<Range>, tables: Tables) {
    forall s, row :: row in TableOf(tables, s) ==> Route(ranges, row.at, row.customer) == Some(s)
  }

  // ---------------------------------------------------------------- range queries

  /** SELECT .. WHERE created_at >= from AND created_at < to. */
  function Window(rows: seq<Row>, from: Time, to: Time): seq<Row> {
    if rows == [] then []
    else
      var last := rows[|rows| - 1];
      Window(rows[..|rows| - 1], from, to) + if from <= last.at < to then [last] else []
  }

  /** What a query collects from a list of shards. */
  function Collect(shards: seq<Shard>, tables: Tables, from: Time, to: Time): multiset<Row> {
    if shards == [] then multiset{}
    else
      Collect(shards[..|shards| - 1], tables, from, to)
          + multiset(Window(TableOf(tables, shards[|shards| - 1]), from, to))
  }

  ghost predicate NoRepeat(shards: seq<Shard>) {
    forall i, j :: 0 <= i < j < |shards| ==> shards[i] != shards[j]
  }

  /** The shards named by the ranges that overlap the query. */
  ghost predicate Named(ranges: seq<Range>, from: Time, to: Time, s: Shard) {
    exists i :: 0 <= i < |ranges| && Overlaps(ranges[i], from, to) && s in ranges[i].shards
  }

  lemma {:induction false} WindowElements(rows: seq<Row>, from: Time, to: Time, x: Row)
    ensures x in Window(rows, from, to) <==> x in rows && from <= x.at < to
  {
    if rows != [] {
      WindowElements(rows[..|rows| - 1], from, to, x);
      assert rows == rows[..|rows| - 1] + [rows[|rows| - 1]];
    }
  }

  /** A row that only one shard holds is collected from that shard alone. */
  lemma {:induction false} CollectCount(shards: seq<Shard>, tables: Tables, from: Time, to: Time, x: Row, home: Shard)
    requires NoRepeat(shards)
    requires forall s :: x in TableOf(tables, s) ==> s == home
    ensures Collect(shards, tables, from, to)[x] ==
            if home in shards then multiset(Window(TableOf(tables, home), from, to))[x] else 0
  {
    if shards != [] {
      var front, last := shards[..|shards| - 1], shards[|shards| - 1];
      CollectCount(front, tables, from, to, x, home);
      WindowElements(TableOf(tables, last), from, to, x);
      assert shards == front + [last];
      assert last !in front;
    }
  }

  /** The shard of a row in the window is named by a range that overlaps the window. */
  lemma HomeIsNamed(ranges: seq<Range>, tables: Tables, from: Time, to: Time, x: Row, home: Shard)
    requires Placed(ranges, tables) && x in TableOf(tables, home) && from <= x.at < to
    ensures Named(ranges, from, to, home)
  {
    var i := Find(ranges, x.at);
    assert home in ranges[i.value].shards;
    assert Overlaps(ranges[i.value], from, to);
  }

  lemma SameCount(ranges: seq<Range>, tables: Tables, visited: seq<Shard>, all: seq<Shard>, from: Time, to: Time,
                  x: Row)
    requires Placed(ranges, tables)
    requires NoRepeat(visited) && forall s :: s in visited <==> Named(ranges, from, to, s)
    requires NoRepeat(all) && forall s :: s in tables ==> s in all
    ensures Collect(visited, tables, from, to)[x] == Collect(all, tables, from, to)[x]
  {
    var route := Route(ranges, x.at, x.customer);
    var home := if route.Some? then route.value else "";
    CollectCount(visited, tables, from, to, x, home);
    CollectCount(all, tables, from, to, x, home);
    WindowElements(TableOf(tables, home), from, to, x);
    if x in TableOf(tables, home) && from <= x.at < to {
      HomeIsNamed(ranges, tables, from, to, x, home);
    }
  }

  /** A query over the named shards alone collects what a scan of all shards collects, each row once. */
  lemma PrunedEqualsScan(ranges: seq<Range>, tables: Tables, visited: seq<Shard>, all: seq<Shard>, from: Time, to: Time)
    requires Placed(ranges, tables)
    requires NoRepeat(visited) && forall s :: s in visited <==> Named(ranges, from, to, s)
    requires NoRepeat(all) && forall s :: s in tables ==> s in all
    ensures Collect(visited, tables, from, to) == Collect(all, tables, from, to)
  {
    forall x: Row ensures Collect(visited, tables, from, to)[x] == Collect(all, tables, from, to)[x] {
      SameCount(ranges, tables, visited, all, from, to, x);
    }
  }

  // ---------------------------------------------------------------- splitting a range

  function SplitRanges(ranges: seq<Range>, i: nat, at: Time, target: Shard): seq<Range>
    requires i < |ranges|
  {
    var whole := ranges[i];
    ranges[..i] + [Range(whole.from, Until(at), whole.shards), Range(at, whole.to, [target])] + ranges[i + 1..]
  }

  /** The rows at or after `at` (if `late`), or before it. */
  function Half(rows: seq<Row>, at: Time, late: bool): seq<Row> {
    if rows == [] then []
    else
      var last := rows[|rows| - 1];
      Half(rows[..|rows| - 1], at, late) + if (last.at >= at) == late then [last] else []
  }

  /** DELETE .. WHERE created_at >= at RETURNING, and the COPY into the target. */
  function SplitTables(tables: Tables, source: Shard, at: Time, target: Shard): Tables {
    var rows := TableOf(tables, source);
    tables[source := Half(rows, at, false)][target := TableOf(tables, target) + Half(rows, at, true)]
  }

  /** The COPY goes through: onto another shard, or with no rows. A copy of rows back onto the source would wait for
      the open transaction that deletes them. */
  predicate CanCopy(tables: Tables, source: Shard, at: Time, target: Shard) {
    target != source || Half(TableOf(tables, source), at, true) == []
  }

  lemma {:induction false} HalfElements(rows: seq<Row>, at: Time, late: bool, x: Row)
    ensures x in Half(rows, at, late) <==> x in rows && ((x.at >= at) == late)
  {
    if rows != [] {
      HalfElements(rows[..|rows| - 1], at, late, x);
      assert rows == rows[..|rows| - 1] + [rows[|rows| - 1]];
    }
  }

  lemma CountSnoc(rows: seq<Row>, last: Row, x: Row)
    ensures Times(rows + [last], x) == Times(rows, x) + (if last == x then 1 else 0)
  {
  }

  function Times(rows: seq<Row>, x: Row): nat {
    multiset(rows)[x]
  }

  lemma HalfCount(rows: seq<Row>, at: Time, late: bool, x: Row)
    requires rows != []
    ensures var last := rows[|rows| - 1];
            Times(Half(rows, at, late), x) == Times(Half(rows[..|rows| - 1], at, late), x)
                + (if (last.at >= at) == late && last == x then 1 else 0)
  {
    CountSnoc(Half(rows[..|rows| - 1], at, late), rows[|rows| - 1], x);
  }

  lemma NoHalves(at: Time, x: Row)
    ensures Times(Half([], at, false), x) == 0 && Times(Half([], at, true), x) == 0 && Times([], x) == 0
  {
  }

  lemma {:induction false} HalvesConserve(rows: seq<Row>, at: Time, x: Row)
    ensures Times(Half(rows, at, false), x) + Times(Half(rows, at, true), x) == Times(rows, x)
  {
    hide Half, Times;
    if rows == [] {
      NoHalves(at, x);
    } else {
      var front, last := rows[..|rows| - 1], rows[|rows| - 1];
      HalvesConserve(front, at, x);
      CountSnoc(front, last, x);
      assert rows == front + [last];
      HalfCount(rows, at, false, x);
      HalfCount(rows, at, true, x);
    }
  }

  /** The split map is a partition again, of the same time. */
  lemma SplitTiling(ranges: seq<Range>, i: nat, at: Time, target: Shard)
    requires Tiling(ranges) && i < |ranges| && Contains(ranges[i], at)
    ensures var after := SplitRanges(ranges, i, at, target);
            && Tiling(after)
            && after[0].from == ranges[0].from && after[|after| - 1].to == ranges[|ranges| - 1].to
  {
    var after := SplitRanges(ranges, i, at, target);
    forall k | 0 <= k < |after|
      ensures after[k].shards != [] && (after[k].to.Unbounded? || after[k].from <= after[k].to.t)
    {
      assert k < i ==> after[k] == ranges[k];
      assert k > i + 1 ==> after[k] == ranges[k - 1];
    }
    forall k | 0 <= k < |after| - 1 ensures after[k].to == Until(after[k + 1].from) {
      assert k < i ==> after[k] == ranges[k];
      assert k > i + 1 ==> after[k] == ranges[k - 1];
      assert k + 1 < i ==> after[k + 1] == ranges[k + 1];
      assert k + 1 > i + 1 ==> after[k + 1] == ranges[k];
    }
  }

  /** After a split, exactly the upper half of the range routes elsewhere. */
  lemma SplitRoute(ranges: seq<Range>, i: nat, at: Time, target: Shard, t: Time, customer: nat)
    requires Tiling(ranges) && i < |ranges| && Contains(ranges[i], at)
    ensures Route(SplitRanges(ranges, i, at, target), t, customer) ==
            if Contains(ranges[i], t) && t >= at then Some(target) else Route(ranges, t, customer)
  {
    var after := SplitRanges(ranges, i, at, target);
    SplitTiling(ranges, i, at, target);
    var f := Find(ranges, t);
    if f.None? {
      TilingCovers(ranges, t);
      TilingCovers(after, t);
    } else if f.value == i {
      var k := if t >= at then i + 1 else i;
      RouteIs(after, k, t, customer);
    } else {
      if Contains(ranges[i], t) { TilingDisjoint(ranges, i, f.value, t); }
      var k := if f.value < i then f.value else f.value + 1;
      assert after[k] == ranges[f.value];
      RouteIs(after, k, t, customer);
    }
  }

  /** What the unbounded DELETE and the single source shard need: no row from `at` on sits on the source
      outside the range, and none inside the range sits on a third shard. */
  ghost predicate SplitFits(r: Range, tables: Tables, at: Time, target: Shard)
    requires r.shards != []
  {
    && (forall row :: row in TableOf(tables, r.shards[0]) && row.at >= at ==> Contains(r, row.at))
    && (forall s, row :: row in TableOf(tables, s) && row.at >= at && Contains(r, row.at) ==>
        s == r.shards[0] || s == target)
  }

  /** Every row is on its shard after the split exactly when that condition held before it. */
  lemma SplitPlacedExactly(ranges: seq<Range>, tables: Tables, i: nat, at: Time, target: Shard)
    requires Tiling(ranges) && Placed(ranges, tables) && i < |ranges| && Contains(ranges[i], at)
    requires CanCopy(tables, ranges[i].shards[0], at, target)
    ensures Placed(SplitRanges(ranges, i, at, target), SplitTables(tables, ranges[i].shards[0], at, target))
            <==> SplitFits(ranges[i], tables, at, target)
  {
    var source := ranges[i].shards[0];
    var ranges', tables' := SplitRanges(ranges, i, at, target), SplitTables(tables, source, at, target);
    forall t, c
      ensures Route(ranges', t, c) == if Contains(ranges[i], t) && t >= at then Some(target) else Route(ranges, t, c)
    {
      SplitRoute(ranges, i, at, target, t, c);
    }
    forall s, row
      ensures row in TableOf(tables', s) <==>
              || (s != source && row in TableOf(tables, s))
              || (row in TableOf(tables, source) && s == if row.at >= at then target else source)
    {
      HalfElements(TableOf(tables, source), at, false, row);
      HalfElements(TableOf(tables, source), at, true, row);
    }
    forall row | row in TableOf(tables, source) && target == source ensures row.at < at {
      HalfElements(TableOf(tables, source), at, true, row);
    }
    SplitPlacedBothWays(ranges, tables, ranges', tables', i, at, target);
  }

  lemma SplitPlacedBothWays(ranges: seq<Range>, tables: Tables, ranges': seq<Range>, tables': Tables, i: nat, at: Time,
                            target: Shard)
    requires Placed(ranges, tables) && i < |ranges| && ranges[i].shards != []
    requires target == ranges[i].shards[0] ==> forall row :: row in TableOf(tables, target) ==> row.at < at
    requires forall t, c :: Route(ranges', t, c) ==
               if Contains(ranges[i], t) && t >= at then Some(target) else Route(ranges, t, c)
    requires forall s, row :: row in TableOf(tables', s) <==>
               (s != ranges[i].shards[0] && row in TableOf(tables, s))
               || (&& row in TableOf(tables, ranges[i].shards[0])
                   && s == if row.at >= at then target else ranges[i].shards[0])
    ensures Placed(ranges', tables') <==> SplitFits(ranges[i], tables, at, target)
  {
    var source := ranges[i].shards[0];
    if Placed(ranges', tables') {
      forall row | row in TableOf(tables, source) && row.at >= at ensures Contains(ranges[i], row.at) {
        assert row in TableOf(tables', target);
      }
      forall s, row | row in TableOf(tables, s) && row.at >= at && Contains(ranges[i], row.at)
        ensures s == source || s == target
      {
        assert s != source ==> row in TableOf(tables', s);
      }
    }
    if SplitFits(ranges[i], tables, at, target) {
      forall s, row | row in TableOf(tables', s) ensures Route(ranges', row.at, row.customer) == Some(s) {
        assert Route(ranges', row.at, row.customer) ==
               if Contains(ranges[i], row.at) && row.at >= at then Some(target)
               else Route(ranges, row.at, row.customer);
      }
    }
  }

  predicate Empty(r: Range) {
    r.to.Until? && r.to.t <= r.from
  }

  /** What can be read off the map alone: the range is on no third shard, and, unless it stays where it is, its shard
      owns no later time. */
  predicate MapFits(ranges: seq<Range>, i: nat, target: Shard)
    requires i < |ranges| && ranges[i].shards != []
  {
    var source := ranges[i].shards[0];
    && (forall s :: s in ranges[i].shards ==> s == source || s == target)
    && (target == source || forall j :: i < j < |ranges| && source in ranges[j].shards ==> Empty(ranges[j]))
  }

  /** Whatever rows there are where the map says, the split leaves them where the new map says. */
  ghost predicate SplitKeepsAll(ranges: seq<Range>, i: nat, at: Time, target: Shard)
    requires i < |ranges| && ranges[i].shards != []
  {
    var source := ranges[i].shards[0];
    forall tables :: Placed(ranges, tables) && CanCopy(tables, source, at, target) ==>
                       Placed(SplitRanges(ranges, i, at, target), SplitTables(tables, source, at, target))
  }

  /** A row is routed by the range that contains it. */
  lemma RowsRange(ranges: seq<Range>, row: Row, s: Shard)
    requires Route(ranges, row.at, row.customer) == Some(s)
    ensures var f := Find(ranges, row.at);
            f.Some? && f.value < |ranges| && Contains(ranges[f.value], row.at) && s in ranges[f.value].shards
  {
  }

  lemma SourceRowFits(ranges: seq<Range>, i: nat, at: Time, target: Shard, row: Row, rows: seq<Row>)
    requires Tiling(ranges) && i < |ranges| && Contains(ranges[i], at) && MapFits(ranges, i, target)
    requires row in rows && row.at >= at && Route(ranges, row.at, row.customer) == Some(ranges[i].shards[0])
    requires target == ranges[i].shards[0] ==> Half(rows, at, true) == []
    ensures Contains(ranges[i], row.at)
  {
    RowsRange(ranges, row, ranges[i].shards[0]);
    var f := Find(ranges, row.at).value;
    HalfElements(rows, at, true, row);
    hide Route, Find, Half;
    if f < i { TilingOrdered(ranges, f, i); }
  }

  lemma MapFitsSuffices(ranges: seq<Range>, tables: Tables, i: nat, at: Time, target: Shard)
    requires Tiling(ranges) && Placed(ranges, tables) && i < |ranges| && Contains(ranges[i], at)
    requires MapFits(ranges, i, target) && CanCopy(tables, ranges[i].shards[0], at, target)
    ensures SplitFits(ranges[i], tables, at, target)
  {
    hide Route, Half, MapFits;
    var source := ranges[i].shards[0];
    forall row | row in TableOf(tables, source) && row.at >= at ensures Contains(ranges[i], row.at) {
      SourceRowFits(ranges, i, at, target, row, TableOf(tables, source));
    }
    forall s, row | row in TableOf(tables, s) && row.at >= at && Contains(ranges[i], row.at)
      ensures s == source || s == target
    {
      RouteIs(ranges, i, row.at, row.customer);
      OnTwoShards(ranges, i, target, ShardIn(ranges[i], row.customer));
    }
  }

  lemma OnTwoShards(ranges: seq<Range>, i: nat, target: Shard, s: Shard)
    requires i < |ranges| && ranges[i].shards != [] && MapFits(ranges, i, target) && s in ranges[i].shards
    ensures s == ranges[i].shards[0] || s == target
  {
  }

  /** One row, at any time of a range and on any of its shards. */
  function OneRow(r: Range, k: nat, t: Time): Tables
    requires k < |r.shards|
  {
    map[r.shards[k] := [Row(0, k, 0, t)]]
  }

  lemma OneRowPlaced(ranges: seq<Range>, j: nat, k: nat, t: Time)
    requires Tiling(ranges) && j < |ranges| && k < |ranges[j].shards| && Contains(ranges[j], t)
    ensures Placed(ranges, OneRow(ranges[j], k, t))
    ensures Row(0, k, 0, t) in TableOf(OneRow(ranges[j], k, t), ranges[j].shards[k])
  {
    RouteIs(ranges, j, t, k);
    OwnIndex(ranges[j], k);
    hide Route, ShardIn, Tiling;
    OneRowIs(ranges[j], k, t);
  }

  lemma OwnIndex(r: Range, k: nat)
    requires k < |r.shards|
    ensures ShardIn(r, k) == r.shards[k]
  {
  }

  lemma OneRowIs(r: Range, k: nat, t: Time)
    requires k < |r.shards|
    ensures forall s, row :: row in TableOf(OneRow(r, k, t), s) <==> s == r.shards[k] && row == Row(0, k, 0, t)
  {
    assert forall row :: row in [Row(0, k, 0, t)] <==> row == Row(0, k, 0, t);
  }

  lemma ThirdShardLoses(ranges: seq<Range>, i: nat, at: Time, target: Shard, k: nat)
    requires Tiling(ranges) && i < |ranges| && Contains(ranges[i], at)
    requires k < |ranges[i].shards| && ranges[i].shards[k] != ranges[i].shards[0] && ranges[i].shards[k] != target
    ensures !SplitKeepsAll(ranges, i, at, target)
  {
    var source, tables := ranges[i].shards[0], OneRow(ranges[i], k, at);
    OneRowPlaced(ranges, i, k, at);
    assert TableOf(tables, source) == [];
    assert CanCopy(tables, source, at, target);
    SplitPlacedExactly(ranges, tables, i, at, target);
  }

  lemma LaterRangeLoses(ranges: seq<Range>, i: nat, at: Time, target: Shard, j: nat, k: nat)
    requires Tiling(ranges) && i < j < |ranges| && Contains(ranges[i], at) && !Empty(ranges[j])
    requires k < |ranges[j].shards| && ranges[j].shards[k] == ranges[i].shards[0] && target != ranges[i].shards[0]
    ensures !SplitKeepsAll(ranges, i, at, target)
  {
    var tables := OneRow(ranges[j], k, ranges[j].from);
    OneRowPlaced(ranges, j, k, ranges[j].from);
    TilingOrdered(ranges, i, j);
    assert CanCopy(tables, ranges[i].shards[0], at, target);
    SplitPlacedExactly(ranges, tables, i, at, target);
  }

  /** A split keeps all rows in place, whatever rows there are, exactly if the map fits. */
  lemma SplitKeepsAllExactly(ranges: seq<Range>, i: nat, at: Time, target: Shard)
    requires Tiling(ranges) && i < |ranges| && Contains(ranges[i], at)
    ensures SplitKeepsAll(ranges, i, at, target) <==> MapFits(ranges, i, target)
  {
    hide SplitTables, SplitRanges, Placed;
    var source := ranges[i].shards[0];
    if MapFits(ranges, i, target) {
      forall tables | Placed(ranges, tables) && CanCopy(tables, source, at, target)
        ensures Placed(SplitRanges(ranges, i, at, target), SplitTables(tables, source, at, target))
      {
        MapFitsSuffices(ranges, tables, i, at, target);
        SplitPlacedExactly(ranges, tables, i, at, target);
      }
    } else if s :| s in ranges[i].shards && s != source && s != target {
      var k :| 0 <= k < |ranges[i].shards| && ranges[i].shards[k] == s;
      ThirdShardLoses(ranges, i, at, target, k);
    } else {
      var j :| i < j < |ranges| && source in ranges[j].shards && !Empty(ranges[j]);
      var k :| 0 <= k < |ranges[j].shards| && ranges[j].shards[k] == source;
      LaterRangeLoses(ranges, i, at, target, j, k);
    }
  }

  /** The condition fails after the spread step: the shard of the range before it still owns the newest range, so
      splitting that older range takes rows of the newest one along. */
  lemma SplitBeforeSpreadMisplaces(from: Time, at: Time, cut: Time, row: Row, a: Shard, b: Shard, target: Shard)
    requires from <= at < cut <= row.at && row.customer % 2 == 0 && target != a
    ensures var ranges := [Range(from, Until(cut), [a]), Range(cut, Unbounded, [a, b])];
            var tables := map[a := [row]];
            && Tiling(ranges) && Placed(ranges, tables)
            && !Placed(SplitRanges(ranges, 0, at, target), SplitTables(tables, a, at, target))
  {
    var ranges := [Range(from, Until(cut), [a]), Range(cut, Unbounded, [a, b])];
    var tables := map[a := [row]];
    RouteIs(ranges, 1, row.at, row.customer);
    assert Placed(ranges, tables) by {
      forall s, r | r in TableOf(tables, s) ensures Route(ranges, r.at, r.customer) == Some(s) {
        assert r == row && s == a;
      }
    }
    assert row in TableOf(tables, a);
    SplitPlacedExactly(ranges, tables, 0, at, target);
  }

  // ---------------------------------------------------------------- no row is lost or duplicated

  /** How often a row is stored on a list of shards. */
  function Copies(shards: seq<Shard>, tables: Tables, x: Row): nat {
    if shards == [] then 0
    else Copies(shards[..|shards| - 1], tables, x) + multiset(TableOf(tables, shards[|shards| - 1]))[x]
  }

  lemma {:induction false} CopiesOutside(shards: seq<Shard>, tables: Tables, s: Shard, rows: seq<Row>, x: Row)
    requires s !in shards
    ensures Copies(shards, tables[s := rows], x) == Copies(shards, tables, x)
  {
    if shards != [] {
      CopiesOutside(shards[..|shards| - 1], tables, s, rows, x);
    }
  }

  /** Replacing one table changes the copies by the difference. */
  lemma {:induction false} CopiesUpdate(shards: seq<Shard>, tables: Tables, s: Shard, rows: seq<Row>, x: Row)
    requires NoRepeat(shards) && s in shards
    ensures Copies(shards, tables[s := rows], x) + multiset(TableOf(tables, s))[x] ==
              Copies(shards, tables, x) + multiset(rows)[x]
  {
    var front, last := shards[..|shards| - 1], shards[|shards| - 1];
    assert shards == front + [last];
    if s == last {
      assert s !in front;
      CopiesOutside(front, tables, s, rows, x);
    } else {
      CopiesUpdate(front, tables, s, rows, x);
    }
  }

  lemma {:induction false} HalfOfNone(rows: seq<Row>, at: Time)
    requires Half(rows, at, true) == []
    ensures Half(rows, at, false) == rows
  {
    if rows != [] {
      HalfOfNone(rows[..|rows| - 1], at);
    }
  }

  /** A split keeps the rows of the cluster, whatever it is applied to. */
  lemma SplitConserves(shards: seq<Shard>, tables: Tables, source: Shard, at: Time, target: Shard, x: Row)
    requires NoRepeat(shards) && source in shards && target in shards && CanCopy(tables, source, at, target)
    ensures Copies(shards, SplitTables(tables, source, at, target), x) == Copies(shards, tables, x)
  {
    var rows := TableOf(tables, source);
    var stay, go := Half(rows, at, false), Half(rows, at, true);
    var mid := tables[source := stay];
    if source == target { HalfOfNone(rows, at); }
    CopiesUpdate(shards, tables, source, stay, x);
    CopiesUpdate(shards, mid, target, TableOf(mid, target) + go, x);
    HalvesConserve(rows, at, x);
    assert multiset(TableOf(mid, target) + go)[x] == multiset(TableOf(mid, target))[x] + multiset(go)[x];
  }

  // ---------------------------------------------------------------- which shards a query visits

  /** The shard is one of a range that contains a time of the window. */
  ghost predicate OwnsTimeIn(ranges: seq<Range>, from: Time, to: Time, s: Shard) {
    exists i: nat, t: Time :: i < |ranges| && from <= t < to && Contains(ranges[i], t) && s in ranges[i].shards
  }

  /** A range overlaps a window exactly if they have a time in common. */
  lemma OverlapsExactly(r: Range, from: Time, to: Time)
    requires from < to && !Empty(r)
    ensures Overlaps(r, from, to) <==> exists t: Time :: from <= t < to && Contains(r, t)
  {
    if Overlaps(r, from, to) {
      var t := if from < r.from then r.from else from;
      assert from <= t < to && Contains(r, t);
    }
  }

  lemma OwnersAreNamed(ranges: seq<Range>, from: Time, to: Time)
    ensures from < to && (forall r :: r in ranges ==> !Empty(r)) ==>
              forall s :: Named(ranges, from, to, s) <==> OwnsTimeIn(ranges, from, to, s)
  {
    if from < to && (forall r :: r in ranges ==> !Empty(r)) {
      forall s ensures Named(ranges, from, to, s) <==> OwnsTimeIn(ranges, from, to, s) {
        NamedOwns(ranges, from, to, s);
      }
    }
  }

  lemma NamedOwns(ranges: seq<Range>, from: Time, to: Time, s: Shard)
    requires from < to && forall r :: r in ranges ==> !Empty(r)
    ensures Named(ranges, from, to, s) <==> OwnsTimeIn(ranges, from, to, s)
  {
    if Named(ranges, from, to, s) {
      var i :| 0 <= i < |ranges| && Overlaps(ranges[i], from, to) && s in ranges[i].shards;
      OverlapsExactly(ranges[i], from, to);
      var t: Time :| from <= t < to && Contains(ranges[i], t);
    }
    if OwnsTimeIn(ranges, from, to, s) {
      var i: nat, t: Time :| i < |ranges| && from <= t < to && Contains(ranges[i], t) && s in ranges[i].shards;
      OverlapsExactly(ranges[i], from, to);
    }
  }

  /** Within a range, customers take its shards in turn. */
  lemma ShardsInTurn(r: Range, customer: nat)
    requires r.shards != []
    ensures customer < |r.shards| ==> ShardIn(r, customer) == r.shards[customer]
    ensures ShardIn(r, customer + |r.shards|) == ShardIn(r, customer)
  {
    var n := |r.shards|;
    assert (customer + n) % n == customer % n by { AddModulus(customer, n); }
  }

  lemma AddModulus(c: nat, n: nat)
    requires n > 0
    ensures (c + n) % n == c % n
  {
    var p, q := (c + n) / n, c / n;
    assert c + n == n * p + (c + n) % n && c == n * q + c % n;
    assert n * (p - q - 1) == n * p - n * q - n;
    SmallMultiple(n, p - q - 1);
  }

  lemma SmallMultiple(n: nat, m: int)
    requires 0 < n + n * m && n * m < n
    ensures m == 0
  {
    assert m >= 1 ==> n * m >= n;
    assert m <= -1 ==> n * m <= 0 - n;
  }

  // ---------------------------------------------------------------- what a query collects, row by row

  /** A shard's window has every row as often as its table does, if its time is in the window. */
  lemma {:induction false} WindowTimes(rows: seq<Row>, from: Time, to: Time, x: Row)
    ensures Times(Window(rows, from, to), x) == if from <= x.at < to then Times(rows, x) else 0
  {
    hide Times;
    if rows == [] {
      NoTimes(x);
    } else {
      var front, last := rows[..|rows| - 1], rows[|rows| - 1];
      WindowTimes(front, from, to, x);
      assert rows == front + [last];
      assert from <= last.at < to || Window(rows, from, to) == Window(front, from, to);
      CountSnoc(front, last, x);
      CountSnoc(Window(front, from, to), last, x);
    }
  }

  lemma NoTimes(x: Row)
    ensures Times([], x) == 0
  {
  }

  /** Collecting a window from some shards finds every row as often as they hold it, if its time is in the window,
      and no other row. */
  lemma {:induction false} CollectIsCopies(shards: seq<Shard>, tables: Tables, from: Time, to: Time, x: Row)
    ensures Collect(shards, tables, from, to)[x] == if from <= x.at < to then Copies(shards, tables, x) else 0
  {
    if shards != [] {
      var front, last := shards[..|shards| - 1], shards[|shards| - 1];
      CollectIsCopies(front, tables, from, to, x);
      WindowTimes(TableOf(tables, last), from, to, x);
      hide Window;
    }
  }

  // ---------------------------------------------------------------- spreading the newest range

  /** The last range is cut off and a new open-ended one begins, spread over several shards. */
  function Spread(ranges: seq<Range>, cut: Time, shards: seq<Shard>): seq<Range>
    requires ranges != []
  {
    ranges[..|ranges| - 1] + [ranges[|ranges| - 1].(to := Until(cut)), Range(cut, Unbounded, shards)]
  }

  lemma SpreadKeeps(ranges: seq<Range>, tables: Tables, cut: Time, shards: seq<Shard>)
    requires Tiling(ranges) && ranges != [] && Placed(ranges, tables) && shards != []
    requires ranges[|ranges| - 1].from <= cut
    requires forall s, row :: row in TableOf(tables, s) ==> row.at < cut
    ensures Tiling(Spread(ranges, cut, shards)) && Placed(Spread(ranges, cut, shards), tables)
  {
    var after := Spread(ranges, cut, shards);
    var n := |ranges| - 1;
    assert forall k :: 0 <= k < n ==> after[k] == ranges[k];
    forall k | 0 <= k < |after| - 1 ensures after[k].to == Until(after[k + 1].from) {
      assert k < n ==> ranges[k].to == Until(ranges[k + 1].from);
    }
    forall s, row | row in TableOf(tables, s) ensures Route(after, row.at, row.customer) == Some(s) {
      var f := Find(ranges, row.at);
      RouteIs(after, f.value, row.at, row.customer);
    }
  }

  /** From the cut on, rows go to the given shards in turn; before it nothing changes. */
  lemma SpreadRoute(ranges: seq<Range>, cut: Time, shards: seq<Shard>, t: Time, customer: nat)
    requires Tiling(ranges) && ranges != [] && shards != [] && ranges[|ranges| - 1].from <= cut
    requires ranges[|ranges| - 1].to.Unbounded?
    ensures t >= cut ==> Route(Spread(ranges, cut, shards), t, customer) == Some(shards[customer % |shards|])
    ensures t < cut ==> Route(Spread(ranges, cut, shards), t, customer) == Route(ranges, t, customer)
  {
    var after, n := Spread(ranges, cut, shards), |ranges| - 1;
    assert forall k :: 0 <= k < n ==> after[k] == ranges[k];
    assert Tiling(after) by {
      forall k | 0 <= k < |after| - 1 ensures after[k].to == Until(after[k + 1].from) {
        assert k < n ==> ranges[k].to == Until(ranges[k + 1].from);
      }
    }
    if t >= cut {
      RouteIs(after, n + 1, t, customer);
    } else {
      TilingCovers(ranges, t);
      TilingCovers(after, t);
      var f := Find(ranges, t);
      if f.Some? {
        RouteIs(after, f.value, t, customer);
      }
    }
  }

  // ---------------------------------------------------------------- inserting

  /** The rows of a batch that belong on shard `s`, in order. */
  function RoutedTo(ranges: seq<Range>, batch: seq<Row>, s: Shard): seq<Row> {
    if batch == [] then []
    else
      var last := batch[|batch| - 1];
      RoutedTo(ranges, batch[..|batch| - 1], s)
      + if Route(ranges, last.at, last.customer) == Some(s) then [last] else []
  }

  predicate Routable(ranges: seq<Range>, batch: seq<Row>) {
    forall i :: 0 <= i < |batch| ==> Route(ranges, batch[i].at, batch[i].customer).Some?
  }

  /** The tables after a batch: nothing is copied if any row has no range. */
  function InsertAll(ranges: seq<Range>, tables: Tables, batch: seq<Row>): Tables
    requires Routable(ranges, batch)
  {
    if batch == [] then tables
    else
      var before, last := InsertAll(ranges, tables, batch[..|batch| - 1]), batch[|batch| - 1];
      var s := Route(ranges, last.at, last.customer).value;
      before[s := TableOf(before, s) + [last]]
  }

  /** Each shard receives exactly its rows, in order. */
  lemma {:induction false} InsertAllTables(ranges: seq<Range>, tables: Tables, batch: seq<Row>, s: Shard)
    requires Routable(ranges, batch)
    ensures TableOf(InsertAll(ranges, tables, batch), s) == TableOf(tables, s) + RoutedTo(ranges, batch, s)
  {
    if batch != [] {
      InsertAllTables(ranges, tables, batch[..|batch| - 1], s);
    }
  }

  lemma {:induction false} RoutedToElements(ranges: seq<Range>, batch: seq<Row>, s: Shard, x: Row)
    ensures x in RoutedTo(ranges, batch, s) <==> x in batch && Route(ranges, x.at, x.customer) == Some(s)
  {
    if batch != [] {
      RoutedToElements(ranges, batch[..|batch| - 1], s, x);
      assert batch == batch[..|batch| - 1] + [batch[|batch| - 1]];
    }
  }

  lemma InsertKeepsPlaced(ranges: seq<Range>, tables: Tables, batch: seq<Row>)
    requires Placed(ranges, tables) && Routable(ranges, batch)
    ensures Placed(ranges, InsertAll(ranges, tables, batch))
  {
    var tables' := InsertAll(ranges, tables, batch);
    forall s, row | row in TableOf(tables', s) ensures Route(ranges, row.at, row.customer) == Some(s) {
      InsertAllTables(ranges, tables, batch, s);
      RoutedToElements(ranges, batch, s, row);
    }
  }

  // ---------------------------------------------------------------- histories

  datatype State = State(ranges: seq<Range>, tables: Tables)

  datatype Op =
    | InsertBatch(batch: seq<Row>)
    | SplitAt(at: Time, target: Shard)
    | SpreadFrom(cut: Time, shards: seq<Shard>)

  function Apply(c: State, op: Op): State {
    match op
    case InsertBatch(batch) =>
      if !Routable(c.ranges, batch) then c else c.(tables := InsertAll(c.ranges, c.tables, batch))
    case SplitAt(at, target) =>
      var i := Find(c.ranges, at);
      if i.None? || c.ranges[i.value].shards == [] || !CanCopy(c.tables, c.ranges[i.value].shards[0], at, target) then c
      else State(SplitRanges(c.ranges, i.value, at, target),
                 SplitTables(c.tables, c.ranges[i.value].shards[0], at, target))
    case SpreadFrom(cut, shards) =>
      if c.ranges == [] then c else c.(ranges := Spread(c.ranges, cut, shards))
  }

  /** What the caller has to see to; each part can be read off the map and the tables before the call. */
  ghost predicate Legal(c: State, op: Op) {
    match op
    case InsertBatch(_) => true
    case SplitAt(at, target) =>
      var i := Find(c.ranges, at);
      i.Some? && c.ranges[i.value].shards != [] && MapFits(c.ranges, i.value, target)
    case SpreadFrom(cut, shards) =>
      && c.ranges != [] && shards != [] && c.ranges[|c.ranges| - 1].from <= cut
      && forall s, row :: row in TableOf(c.tables, s) ==> row.at < cut
  }

  function Replay(c: State, ops: seq<Op>): State {
    if ops == [] then c else Apply(Replay(c, ops[..|ops| - 1]), ops[|ops| - 1])
  }

  ghost predicate LegalHistory(c: State, ops: seq<Op>) {
    forall k :: 0 <= k < |ops| ==> Legal(Replay(c, ops[..k]), ops[k])
  }

  lemma OpKeeps(c: State, op: Op)
    requires Tiling(c.ranges) && Placed(c.ranges, c.tables) && Legal(c, op)
    ensures var c' := Apply(c, op); Tiling(c'.ranges) && Placed(c'.ranges, c'.tables)
  {
    match op
    case InsertBatch(batch) => if Routable(c.ranges, batch) { InsertKeepsPlaced(c.ranges, c.tables, batch); }
    case SplitAt(at, target) =>
      var i := Find(c.ranges, at).value;
      if CanCopy(c.tables, c.ranges[i].shards[0], at, target) {
        MapFitsSuffices(c.ranges, c.tables, i, at, target);
        SplitPlacedExactly(c.ranges, c.tables, i, at, target);
        SplitTiling(c.ranges, i, at, target);
      }
    case SpreadFrom(cut, shards) => SpreadKeeps(c.ranges, c.tables, cut, shards);
  }

  lemma {:induction false} HistoryKeeps(c: State, ops: seq<Op>)
    requires Tiling(c.ranges) && Placed(c.ranges, c.tables) && LegalHistory(c, ops)
    ensures var c' := Replay(c, ops); Tiling(c'.ranges) && Placed(c'.ranges, c'.tables)
  {
    if ops != [] {
      var front := ops[..|ops| - 1];
      forall k | 0 <= k < |front| ensures Legal(Replay(c, front[..k]), front[k]) {
        assert front[..k] == ops[..k];
      }
      HistoryKeeps(c, front);
      assert Legal(Replay(c, ops[..|ops| - 1]), ops[|ops| - 1]);
      OpKeeps(Replay(c, front), ops[|ops| - 1]);
    }
  }

  /** All shards of the map are among `all`. */
  ghost predicate ShardsIn(ranges: seq<Range>, all: seq<Shard>) {
    forall i, s :: 0 <= i < |ranges| && s in ranges[i].shards ==> s in all
  }

  ghost predicate NamesOnly(op: Op, all: seq<Shard>) {
    match op
    case InsertBatch(_) => true
    case SplitAt(_, target) => target in all
    case SpreadFrom(_, shards) => forall s :: s in shards ==> s in all
  }

  /** The rows that an operation brings into the cluster. */
  function Accepted(c: State, op: Op): seq<Row> {
    if op.InsertBatch? && Routable(c.ranges, op.batch) then op.batch else []
  }

  function AllAccepted(c: State, ops: seq<Op>): seq<Row> {
    if ops == [] then []
    else AllAccepted(c, ops[..|ops| - 1]) + Accepted(Replay(c, ops[..|ops| - 1]), ops[|ops| - 1])
  }

  lemma InsertOneConserves(tables: Tables, s: Shard, row: Row, all: seq<Shard>, x: Row)
    requires NoRepeat(all) && s in all
    ensures Copies(all, tables[s := TableOf(tables, s) + [row]], x) ==
              Copies(all, tables, x) + (if row == x then 1 else 0)
  {
    CopiesUpdate(all, tables, s, TableOf(tables, s) + [row], x);
    CountSnoc(TableOf(tables, s), row, x);
  }

  lemma {:induction false} InsertConserves(ranges: seq<Range>, tables: Tables, batch: seq<Row>, all: seq<Shard>, x: Row)
    requires Routable(ranges, batch) && NoRepeat(all) && ShardsIn(ranges, all)
    ensures Copies(all, InsertAll(ranges, tables, batch), x) == Copies(all, tables, x) + Times(batch, x)
  {
    hide Copies, NoRepeat;
    if batch != [] {
      var front, last := batch[..|batch| - 1], batch[|batch| - 1];
      assert batch == front + [last];
      InsertConserves(ranges, tables, front, all, x);
      CountSnoc(front, last, x);
      var s := Route(ranges, last.at, last.customer).value;
      assert s in all by { assert s in ranges[Find(ranges, last.at).value].shards; }
      InsertOneConserves(InsertAll(ranges, tables, front), s, last, all, x);
      hide Times;
    }
  }

  lemma ShardsStayIn(c: State, op: Op, all: seq<Shard>)
    requires Tiling(c.ranges) && Legal(c, op) && ShardsIn(c.ranges, all) && NamesOnly(op, all)
    ensures ShardsIn(Apply(c, op).ranges, all)
  {
    hide Routable, InsertAll, SplitTables;
    if op.SplitAt? {
      var i := Find(c.ranges, op.at).value;
      var after := SplitRanges(c.ranges, i, op.at, op.target);
      forall k, s | 0 <= k < |after| && s in after[k].shards ensures s in all {
        assert k <= i ==> after[k].shards == c.ranges[k].shards;
        assert k > i + 1 ==> after[k] == c.ranges[k - 1];
      }
    } else if op.SpreadFrom? {
      var after := Spread(c.ranges, op.cut, op.shards);
      forall k, s | 0 <= k < |after| && s in after[k].shards ensures s in all {
        assert k < |c.ranges| ==> after[k].shards == c.ranges[k].shards;
      }
    }
  }

  lemma OpConserves(c: State, op: Op, all: seq<Shard>, x: Row)
    requires Tiling(c.ranges) && Legal(c, op) && NoRepeat(all) && ShardsIn(c.ranges, all) && NamesOnly(op, all)
    ensures Copies(all, Apply(c, op).tables, x) == Copies(all, c.tables, x) + Times(Accepted(c, op), x)
  {
    hide Routable, InsertAll, SplitTables, Copies;
    if op.InsertBatch? {
      if Routable(c.ranges, op.batch) { InsertConserves(c.ranges, c.tables, op.batch, all, x); }
    } else if op.SplitAt? {
      var i := Find(c.ranges, op.at).value;
      if CanCopy(c.tables, c.ranges[i].shards[0], op.at, op.target) {
        assert c.ranges[i].shards[0] in c.ranges[i].shards;
        SplitConserves(all, c.tables, c.ranges[i].shards[0], op.at, op.target, x);
      }
    }
  }

  lemma TimesAdd(s: seq<Row>, t: seq<Row>, x: Row)
    ensures Times(s + t, x) == Times(s, x) + Times(t, x)
  {
  }

  lemma LegalSnoc(c: State, ops: seq<Op>)
    requires ops != [] && LegalHistory(c, ops)
    ensures LegalHistory(c, ops[..|ops| - 1]) && Legal(Replay(c, ops[..|ops| - 1]), ops[|ops| - 1])
  {
    hide Legal, Replay;
    var front := ops[..|ops| - 1];
    assert forall k :: 0 <= k < |front| ==> front[..k] == ops[..k] && front[k] == ops[k];
  }

  /** After any such history the cluster holds the rows it started with and the rows it accepted, each as often as
      it came in, whatever was moved. */
  lemma {:induction false} HistoryConserves(c: State, ops: seq<Op>, all: seq<Shard>, x: Row)
    requires Tiling(c.ranges) && Placed(c.ranges, c.tables) && LegalHistory(c, ops)
    requires NoRepeat(all) && ShardsIn(c.ranges, all) && forall k :: 0 <= k < |ops| ==> NamesOnly(ops[k], all)
    ensures ShardsIn(Replay(c, ops).ranges, all)
    ensures Copies(all, Replay(c, ops).tables, x) == Copies(all, c.tables, x) + Times(AllAccepted(c, ops), x)
  {
    hide Legal, Apply, Copies, Tiling, Placed, ShardsIn, NamesOnly, NoRepeat, LegalHistory, Accepted;
    if ops != [] {
      var front, last := ops[..|ops| - 1], ops[|ops| - 1];
      LegalSnoc(c, ops);
      HistoryConserves(c, front, all, x);
      HistoryKeeps(c, front);
      ShardsStayIn(Replay(c, front), last, all);
      OpConserves(Replay(c, front), last, all, x);
      TimesAdd(AllAccepted(c, front), Accepted(Replay(c, front), last), x);
    }
  }

  /** After any history of inserts, valid splits and spread steps, a pruned range query is exact. */
  lemma QueriesStayExact(c: State, ops: seq<Op>, visited: seq<Shard>, all: seq<Shard>, from: Time, to: Time)
    requires Tiling(c.ranges) && Placed(c.ranges, c.tables) && LegalHistory(c, ops)
    requires NoRepeat(visited) && forall s :: s in visited <==> Named(Replay(c, ops).ranges, from, to, s)
    requires NoRepeat(all) && forall s :: s in Replay(c, ops).tables ==> s in all
    ensures Collect(visited, Replay(c, ops).tables, from, to) == Collect(all, Replay(c, ops).tables, from, to)
    ensures forall x: Row :: Collect(visited, Replay(c, ops).tables, from, to)[x] ==
                             if from <= x.at < to then Copies(all, Replay(c, ops).tables, x) else 0
  {
    forall x: Row ensures Collect(all, Replay(c, ops).tables, from, to)[x] ==
                          if from <= x.at < to then Copies(all, Replay(c, ops).tables, x) else 0
    {
      CollectIsCopies(all, Replay(c, ops).tables, from, to, x);
    }
    hide Collect, Copies;
    HistoryKeeps(c, ops);
    PrunedEqualsScan(Replay(c, ops).ranges, Replay(c, ops).tables, visited, all, from, to);
  }

  // ---------------------------------------------------------------- the object

  class Cluster {
    var ranges: seq<Range>
    var tables: Tables

    constructor (ranges: seq<Range>)
      ensures this.ranges == ranges && tables == map[]
    {
      this.ranges, tables := ranges, map[];
    }

    /** route; None where the process stops: no range covers the row, or the range has no shards. */
    method RouteRow(at: Time, customer: nat) returns (s: Option<Shard>)
      ensures s == Route(ranges, at, customer)
    {
      for i := 0 to |ranges|
        invariant Find(ranges[..i], at).None?
      {
        assert ranges[..i + 1][..i] == ranges[..i];
        if Contains(ranges[i], at) {
          FindPrefix(ranges, at, i);
          return if ranges[i].shards == [] then None else Some(ShardIn(ranges[i], customer));
        }
      }
      assert ranges[..|ranges|] == ranges;
      s := None;
    }

    method ShardsFor(from: Time, to: Time) returns (out: seq<Shard>)
      ensures NoRepeat(out)
      ensures forall s :: s in out <==> Named(ranges, from, to, s)
      ensures from < to && (forall r :: r in ranges ==> !Empty(r)) ==>
                forall s :: s in out <==> OwnsTimeIn(ranges, from, to, s)
    {
      OwnersAreNamed(ranges, from, to);
      out := [];
      for i := 0 to |ranges|
        invariant NoRepeat(out)
        invariant forall s :: s in out <==> Named(ranges[..i], from, to, s)
      {
        NamedSnoc(ranges, from, to, i);
        if Overlaps(ranges[i], from, to) {
          ghost var before := out;
          for j := 0 to |ranges[i].shards|
            invariant NoRepeat(out)
            invariant forall s :: s in out <==> s in before || s in ranges[i].shards[..j]
          {
            var s := ranges[i].shards[j];
            assert ranges[i].shards[..j + 1] == ranges[i].shards[..j] + [s];
            if s !in out {
              out := out + [s];
            }
          }
          assert ranges[i].shards[..|ranges[i].shards|] == ranges[i].shards;
        }
      }
      assert ranges[..|ranges|] == ranges;
    }

    /** The grouping loop of insert. */
    method GroupByShard(batch: seq<Row>) returns (byShard: Option<Tables>)
      ensures byShard.Some? <==> Routable(ranges, batch)
      ensures byShard.Some? ==> forall s :: TableOf(byShard.value, s) == RoutedTo(ranges, batch, s)
    {
      hide Route;
      var groups: Tables := map[];
      for i := 0 to |batch|
        invariant Routable(ranges, batch[..i])
        invariant groups == InsertAll(ranges, map[], batch[..i])
      {
        var s := RouteRow(batch[i].at, batch[i].customer);
        if s.None? { return None; }
        assert batch[..i + 1][..i] == batch[..i];
        groups := groups[s.value := TableOf(groups, s.value) + [batch[i]]];
      }
      assert batch[..|batch|] == batch;
      forall s ensures TableOf(groups, s) == RoutedTo(ranges, batch, s) {
        InsertAllTables(ranges, map[], batch, s);
      }
      byShard := Some(groups);
    }

    /** insert: group by shard, then one COPY per shard. */
    method Insert(batch: seq<Row>) returns (ok: bool)
      modifies `tables
      ensures ok <==> Routable(ranges, batch)
      ensures ok ==> forall s :: TableOf(tables, s) == TableOf(old(tables), s) + RoutedTo(ranges, batch, s)
      ensures !ok ==> tables == old(tables)
    {
      var byShard := GroupByShard(batch);
      ok := byShard.Some?;
      if !ok { return; }
      var rest := byShard.value.Keys;
      while rest != {}
        invariant rest <= byShard.value.Keys
        invariant forall s :: TableOf(tables, s) ==
                    TableOf(old(tables), s) + if s in rest then [] else TableOf(byShard.value, s)
      {
        var s :| s in rest;
        tables := tables[s := TableOf(tables, s) + byShard.value[s]];
        rest := rest - {s};
      }
    }

    /** splitRange: the number of rows moved; None if no range contains `at`, or if the copy cannot go through. */
    method SplitRange(at: Time, target: Shard) returns (moved: Option<nat>)
      modifies this
      ensures var i := Find(old(ranges), at);
              if i.None? || old(ranges)[i.value].shards == []
                 || !CanCopy(old(tables), old(ranges)[i.value].shards[0], at, target)
              then moved == None && ranges == old(ranges) && tables == old(tables)
              else
                var source := old(ranges)[i.value].shards[0];
                && moved == Some(|Half(TableOf(old(tables), source), at, true)|)
                && ranges == SplitRanges(old(ranges), i.value, at, target)
                && tables == SplitTables(old(tables), source, at, target)
    {
      var i := Find(ranges, at);
      if i.None? || ranges[i.value].shards == [] { return None; }
      var source := ranges[i.value].shards[0];
      var rows := TableOf(tables, source);
      var go := Half(rows, at, true);
      if source == target && go != [] { return None; }
      if source == target { HalfOfNone(rows, at); }
      tables := tables[source := Half(rows, at, false)];
      tables := tables[target := TableOf(tables, target) + go];
      ranges := SplitRanges(ranges, i.value, at, target);
      moved := Some(|go|);
    }

    /** The range query of the demo: the rows found on the shards that ShardsFor names. */
    method Query(from: Time, to: Time, ghost all: seq<Shard>) returns (rows: multiset<Row>)
      requires Placed(ranges, tables)
      requires NoRepeat(all) && forall s :: s in tables ==> s in all
      ensures rows == Collect(all, tables, from, to)
      ensures forall x: Row :: rows[x] == if from <= x.at < to then Copies(all, tables, x) else 0
    {
      forall x: Row ensures Collect(all, tables, from, to)[x] == if from <= x.at < to then Copies(all, tables, x) else 0
      {
        CollectIsCopies(all, tables, from, to, x);
      }
      var targets := ShardsFor(from, to);
      hide Window, Placed, Tiling, Copies;
      rows := multiset{};
      for k := 0 to |targets|
        invariant rows == Collect(targets[..k], tables, from, to)
      {
        assert targets[..k + 1][..k] == targets[..k];
        rows := rows + multiset(Window(TableOf(tables, targets[k]), from, to));
      }
      assert targets[..|targets|] == targets;
      PrunedEqualsScan(ranges, tables, targets, all, from, to);
    }
  }

  lemma {:induction false} FindPrefix(ranges: seq<Range>, t: Time, i: nat)
    requires i < |ranges| && Find(ranges[..i], t).None? && Contains(ranges[i], t)
    ensures Find(ranges, t) == Some(i)
  {
    if i + 1 < |ranges| {
      assert ranges[..|ranges| - 1][..i] == ranges[..i];
      FindPrefix(ranges[..|ranges| - 1], t, i);
    }
  }

  lemma NamedSnoc(ranges: seq<Range>, from: Time, to: Time, i: nat)
    requires i < |ranges|
    ensures forall s :: Named(ranges[..i + 1], from, to, s) <==>
              Named(ranges[..i], from, to, s) || (Overlaps(ranges[i], from, to) && s in ranges[i].shards)
  {
    forall s ensures Named(ranges[..i + 1], from, to, s) <==>
                     Named(ranges[..i], from, to, s) || (Overlaps(ranges[i], from, to) && s in ranges[i].shards)
    {
      if Named(ranges[..i], from, to, s) {
        var k :| 0 <= k < i && Overlaps(ranges[..i][k], from, to) && s in ranges[..i][k].shards;
        assert ranges[..i + 1][k] == ranges[k];
      }
      if Overlaps(ranges[i], from, to) && s in ranges[i].shards {
        assert ranges[..i + 1][i] == ranges[i];
      }
    }
  }
}
