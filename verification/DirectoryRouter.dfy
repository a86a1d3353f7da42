/** The Router object of directory-based sharding, running without interference: its cache and counters are
    updated in place, InsertOrders is a retry loop and MoveTenant changes three databases in sequence. The
    statements are those of DirectorySharding, which treats their interleavings. */
module DirectoryRouter {
  import opened Basics
  import opened DirectorySharding
  import opened DirectoryRuns

  type Tenant = string

  /** The primary keys of all orders on a shard. */
  function Keys(orders: map<(Shard, Tenant), Rows>, sh: Shard): set<((Shard, Tenant), nat)> {
    set at, id | at in orders && at.0 == sh && id in orders[at] :: (at, id)
  }

  /** SELECT count(*) FROM orders. */
  function Load(orders: map<(Shard, Tenant), Rows>, sh: Shard): nat {
    |Keys(orders, sh)|
  }

  /** The orders after the rows of `t` were copied to the target and deleted at the source. */
  function Moved(orders: map<(Shard, Tenant), Rows>, source: Shard, target: Shard, t: Tenant)
    : map<(Shard, Tenant), Rows>
  {
    orders[(target, t) := RowsAt(orders, (target, t)) + RowsAt(orders, (source, t))] - {(source, t)}
  }

  /** A move carries every row of the tenant, keeps what the target had, and touches nobody else. */
  lemma MovedConserves(orders: map<(Shard, Tenant), Rows>, source: Shard, target: Shard, t: Tenant, sh: Shard,
                       u: Tenant)
    requires source != target
    requires RowsAt(orders, (target, t)).Keys !! RowsAt(orders, (source, t)).Keys
    ensures var after := Moved(orders, source, target, t);
            && RowsAt(after, (source, t)) == map[]
            && (u != t || (sh != source && sh != target) ==> RowsAt(after, (sh, u)) == RowsAt(orders, (sh, u)))
            && |RowsAt(after, (target, t))| == |RowsAt(orders, (target, t))| + |RowsAt(orders, (source, t))|
            && (forall id :: id in RowsAt(orders, (source, t)) ==>
                  && id in RowsAt(after, (target, t))
                  && RowsAt(after, (target, t))[id] == RowsAt(orders, (source, t))[id])
            && (forall id :: id in RowsAt(orders, (target, t)) ==>
                  && id in RowsAt(after, (target, t))
                  && RowsAt(after, (target, t))[id] == RowsAt(orders, (target, t))[id])
  {
    var there, here := RowsAt(orders, (target, t)), RowsAt(orders, (source, t));
    assert (there + here).Keys == there.Keys + here.Keys;
  }

  /** The rows of one tenant on the shard. */
  function Weight(sh: Shard): ((Shard, Tenant), Rows) -> int {
    (at: (Shard, Tenant), rows: Rows) => if at.0 == sh then |rows| else 0
  }

  function KeysAt(at: (Shard, Tenant), rows: Rows): set<((Shard, Tenant), nat)> {
    set id | id in rows :: (at, id)
  }

  lemma {:induction false} KeysAtCount(at: (Shard, Tenant), rows: Rows)
    ensures |KeysAt(at, rows)| == |rows|
    decreases |rows|
  {
    if rows == map[] {
      assert KeysAt(at, rows) == {};
    } else {
      var k := Pick(rows);
      KeysAtCount(at, rows - {k});
      assert KeysAt(at, rows) == KeysAt(at, rows - {k}) + {(at, k)};
      assert (at, k) !in KeysAt(at, rows - {k});
    }
  }

  lemma KeysOfOne(orders: map<(Shard, Tenant), Rows>, at: (Shard, Tenant), sh: Shard)
    requires at in orders
    ensures |Keys(orders, sh)| == |Keys(orders - {at}, sh)| + if at.0 == sh then |KeysAt(at, orders[at])| else 0
  {
    var rest, own := Keys(orders - {at}, sh), KeysAt(at, orders[at]);
    if at.0 == sh {
      assert Keys(orders, sh) == rest + own;
      assert rest !! own;
    } else {
      assert Keys(orders, sh) == rest;
    }
  }

  /** The count of a shard is the sum over its tenants. */
  lemma {:induction false} LoadIsSum(orders: map<(Shard, Tenant), Rows>, sh: Shard)
    ensures Load(orders, sh) == Sum(orders, Weight(sh))
    decreases |orders|
  {
    if orders == map[] {
      assert Keys(orders, sh) == {};
    } else {
      hide Keys, KeysAt;
      var at := Pick(orders);
      LoadIsSum(orders - {at}, sh);
      SumTake(orders, Weight(sh), at);
      KeysOfOne(orders, at, sh);
      KeysAtCount(at, orders[at]);
    }
  }

  /** The first shard, by name, with the fewest rows. */
  ghost predicate LeastLoaded(open: seq<Shard>, orders: map<(Shard, Tenant), Rows>, k: int) {
    && 0 <= k < |open|
    && (forall j :: 0 <= j < |open| ==> Sum(orders, Weight(open[k])) <= Sum(orders, Weight(open[j])))
    && (forall j :: 0 <= j < k ==> Sum(orders, Weight(open[k])) < Sum(orders, Weight(open[j])))
  }

  // ---------------------------------------------------------------- what the objects show of one tenant

  /** The databases, and the cache of router `id`, as far as they concern tenant `t`. */
  datatype View = View(directory: map<Tenant, DirRow>, hosted: set<(Shard, Tenant)>,
                       orders: map<(Shard, Tenant), Rows>, cache: map<Tenant, Entry>)

  /** `s` is what the step machine of DirectorySharding knows of the tenant. */
  ghost predicate Shows(v: View, t: Tenant, s: State, id: RouterId) {
    && s.directory == (if t in v.directory then Some(v.directory[t]) else None)
    && (forall sh :: sh in s.hosted <==> (sh, t) in v.hosted)
    && (forall sh :: RowsAt(s.orders, sh) == RowsAt(v.orders, (sh, t)))
    && CacheOf(s, id) == (if t in v.cache then Some(v.cache[t]) else None)
  }

  /** The databases and the cache after a move. */
  function MovedView(v: View, t: Tenant, target: Shard): View
    requires t in v.directory
  {
    var row := v.directory[t];
    View(v.directory[t := DirRow(target, Active, row.version + 1)], v.hosted + {(target, t)} - {(row.shard, t)},
         Moved(v.orders, row.shard, target, t), v.cache - {t})
  }

  predicate ViewCanMove(v: View, t: Tenant, target: Shard) {
    && t in v.directory && v.directory[t].status.Active? && v.directory[t].shard != target
    && (target, t) !in v.hosted
    && RowsAt(v.orders, (target, t)).Keys !! RowsAt(v.orders, (v.directory[t].shard, t)).Keys
  }

  /** MoveTenant is the six steps of a move, run without a break: it takes every state that the objects show to one
      that they show afterwards. */
  lemma MoveRefines(v: View, t: Tenant, target: Shard, s: State, id: RouterId, m: MoveId)
    requires Shows(v, t, s, id) && s.moves == map[] && s.fenced == {} && ViewCanMove(v, t, target)
    ensures Shows(MovedView(v, t, target), t, Run(s, MoveSteps(m, id, target)), id)
  {
    hide Run, Moved, RowsAt;
    MoveRuns(s, m, id, target);
    MovedRowsShown(s.orders, v.orders, t, v.directory[t].shard, target);
  }

  lemma MovedRowsShown(rows: map<Shard, Rows>, all: map<(Shard, Tenant), Rows>, t: Tenant, source: Shard, target: Shard)
    requires forall sh :: RowsAt(rows, sh) == RowsAt(all, (sh, t))
    ensures forall sh :: RowsAt(rows[target := RowsAt(rows, target) + RowsAt(rows, source)] - {source}, sh)
                         == RowsAt(Moved(all, source, target, t), (sh, t))
  {
    assert RowsAt(rows, source) == RowsAt(all, (source, t)) && RowsAt(rows, target) == RowsAt(all, (target, t));
    forall sh ensures RowsAt(rows[target := RowsAt(rows, target) + RowsAt(rows, source)] - {source}, sh)
                      == RowsAt(Moved(all, source, target, t), (sh, t))
    {
      assert RowsAt(rows, sh) == RowsAt(all, (sh, t));
    }
  }

  /** A refused MoveTenant marks the row, raises the fence and dies. */
  lemma FailedMoveRefines(v: View, t: Tenant, target: Shard, s: State, id: RouterId, m: MoveId)
    requires Shows(v, t, s, id) && s.moves == map[] && s.fenced == {}
    requires t in v.directory && v.directory[t].status.Active?
    ensures Shows(v.(directory := v.directory[t := v.directory[t].(status := Moving)]), t,
                  Run(s, FailedMove(m, id, target)), id)
  {
    FailedMoveRuns(s, m, id, target);
  }

  function MoveTenantView(v: View, t: Tenant, target: Shard): View {
    if t !in v.directory then v
    else if ViewCanMove(v, t, target) then MovedView(v, t, target)
    else v.(directory := v.directory[t := v.directory[t].(status := Moving)])
  }

  function MoveTenantSteps(v: View, t: Tenant, target: Shard, id: RouterId, m: MoveId): seq<Step> {
    if t !in v.directory || v.directory[t].status.Moving? then []
    else if ViewCanMove(v, t, target) then MoveSteps(m, id, target)
    else FailedMove(m, id, target)
  }

  lemma MoveTenantRefines(v: View, t: Tenant, target: Shard, s: State, id: RouterId, m: MoveId)
    requires Shows(v, t, s, id) && s.moves == map[] && s.fenced == {}
    ensures Shows(MoveTenantView(v, t, target), t, Run(s, MoveTenantSteps(v, t, target, id, m)), id)
  {
    if t !in v.directory {
    } else if v.directory[t].status.Moving? {
      assert v.directory[t := v.directory[t].(status := Moving)] == v.directory;
    } else if ViewCanMove(v, t, target) {
      MoveRefines(v, t, target, s, id, m);
    } else {
      FailedMoveRefines(v, t, target, s, id, m);
    }
  }

  class Databases {
    var open: seq<Shard>                      // open shards by name, as listed in the directory
    var directory: map<Tenant, DirRow>
    var hosted: set<(Shard, Tenant)>
    var orders: map<(Shard, Tenant), Rows>

    constructor (open: seq<Shard>)
      ensures this.open == open && directory == map[] && hosted == {} && orders == map[]
    {
      this.open, directory, hosted, orders := open, map[], {}, map[];
    }

    predicate Hosts(sh: Shard, t: Tenant)
      reads this
    {
      (sh, t) in hosted
    }

    function Row(t: Tenant): Option<DirRow>
      reads this
    {
      if t in directory then Some(directory[t]) else None
    }

    /** The directory names the one shard that hosts the tenant; by `RunKeeps` this holds in every
        reachable state whose directory row is active, if the tenant was onboarded once and no mover died in its
        window. */
    ghost predicate AtRest(t: Tenant)
      reads this
    {
      && t in directory && directory[t].status.Active?
      && forall sh :: (sh, t) in hosted <==> sh == directory[t].shard
    }

    /** A move can commit at the target. */
    predicate CanMove(t: Tenant, target: Shard)
      reads this
    {
      ViewCanMove(View(directory, hosted, orders, map[]), t, target)
    }
  }

  class Router {
    const db: Databases
    var cache: map<Tenant, Entry>
    var hits: nat
    var misses: nat

    constructor (db: Databases)
      ensures this.db == db && cache == map[] && hits == misses == 0
    {
      this.db, cache, hits, misses := db, map[], 0, 0;
    }

    function Cached(t: Tenant): Option<Entry>
      reads this
    {
      if t in cache then Some(cache[t]) else None
    }

    ghost function Sees(): View
      reads this, db
    {
      View(db.directory, db.hosted, db.orders, cache)
    }

    method Lookup(t: Tenant) returns (e: Option<Entry>)
      modifies this
      ensures e == (if t in old(cache) then Some(old(cache)[t])
                    else if t in db.directory then Some(Entry(db.directory[t].shard, db.directory[t].version))
                    else None)
      ensures t in cache <==> t in old(cache) || (t in db.directory && db.directory[t].status.Active?)
      ensures t in cache ==> e == Some(cache[t])
      ensures e == LookupEntry(old(Cached(t)), db.Row(t))
      ensures Cached(t) == LookupCached(old(Cached(t)), db.Row(t))
      ensures cache - {t} == old(cache) - {t}
      ensures hits + misses == old(hits + misses) + 1 && (hits > old(hits) <==> t in old(cache))
    {
      if t in cache {
        hits := hits + 1;
        return Some(cache[t]);
      }
      misses := misses + 1;
      if t !in db.directory { return None; }
      var row := db.directory[t];
      e := Some(Entry(row.shard, row.version));
      if row.status.Active? {
        cache := cache[t := e.value];
      }
    }

    /** The fenced INSERT of one batch: how many rows it inserted. */
    method Insert(sh: Shard, t: Tenant, amounts: seq<Amount>) returns (affected: nat)
      modifies db`orders
      ensures (sh, t) in db.hosted ==>
                && affected == |amounts|
                && db.orders == old(db.orders)[(sh, t) := Extend(RowsAt(old(db.orders), (sh, t)), amounts)]
                && Appended(if (sh, t) in old(db.orders) then old(db.orders)[(sh, t)] else map[],
                            db.orders[(sh, t)], amounts)
      ensures (sh, t) !in db.hosted ==> affected == 0 && db.orders == old(db.orders)
    {
      affected := 0;
      if (sh, t) in db.hosted {
        ExtendAppends(RowsAt(db.orders, (sh, t)), amounts);
        db.orders := db.orders[(sh, t) := Extend(RowsAt(db.orders, (sh, t)), amounts)];
        affected := |amounts|;
      }
    }

    /** InsertOrders: the shard written and whether a retry was needed, or None where the process gives up. It
        succeeds, on a non-empty batch, exactly if the shard of the first lookup hosts the tenant, or else the
        directory's does; it retries exactly if the first does not. So with the tenant at rest it succeeds on
        every non-empty batch, on the directory's shard. */
    method InsertOrders(t: Tenant, amounts: seq<Amount>) returns (r: Option<(Shard, bool)>)
      modifies this, db`orders
      ensures r.Some? ==>
                && amounts != [] && (r.value.0, t) in db.hosted
                && db.orders ==
                     old(db.orders)[(r.value.0, t) := Extend(RowsAt(old(db.orders), (r.value.0, t)), amounts)]
                && Appended(if (r.value.0, t) in old(db.orders) then old(db.orders)[(r.value.0, t)] else map[],
                            db.orders[(r.value.0, t)], amounts)
      ensures r.None? ==> forall sh, u :: RowsAt(db.orders, (sh, u)) == RowsAt(old(db.orders), (sh, u))
      ensures var first, row := LookupEntry(old(Cached(t)), db.Row(t)), db.Row(t);
              && (r.Some? <==>
                    && amounts != [] && first.Some?
                    && (db.Hosts(first.value.shard, t) || (row.Some? && db.Hosts(row.value.shard, t))))
              && (r.Some? ==> (if db.Hosts(first.value.shard, t) then r.value == (first.value.shard, false)
                               else row.Some? && r.value == (row.value.shard, true)))
      ensures old(db.AtRest(t)) ==> (r.Some? <==> amounts != [])
      ensures old(db.AtRest(t)) && r.Some? ==>
                && r.value.0 == db.directory[t].shard
                && (r.value.1 <==> t in old(cache) && old(cache)[t].shard != r.value.0)
                && t in cache && cache[t].shard == r.value.0
    {
      for attempt := 0 to 2
        invariant amounts != [] ==> db.orders == old(db.orders)
        invariant forall sh, u :: RowsAt(db.orders, (sh, u)) == RowsAt(old(db.orders), (sh, u))
        invariant attempt == 0 ==> cache == old(cache)
        invariant attempt > 0 ==> t !in cache
        invariant attempt > 0 && amounts != [] ==>
                    var first := LookupEntry(old(Cached(t)), db.Row(t));
                    first.Some? && !db.Hosts(first.value.shard, t)
        invariant attempt == 2 && amounts != [] ==> db.Row(t).Some? ==> !db.Hosts(db.Row(t).value.shard, t)
      {
        var e := Lookup(t);
        if e.None? { return None; }
        ghost var before := db.orders;
        var affected := Insert(e.value.shard, t, amounts);
        if affected > 0 {
          return Some((e.value.shard, attempt > 0));
        }
        if amounts == [] {
          assert Numbered(MaxOf(RowsAt(before, (e.value.shard, t)).Keys), amounts) == map[];
        }
        cache := cache - {t};
      }
      r := None;
    }

    /** Onboard: the least loaded open shard. None where the process gives up; if only the directory refuses
        the tenant, it stays hosted there all the same. */
    method Onboard(t: Tenant) returns (r: Option<Shard>)
      modifies db`hosted, db`directory
      ensures db.open == [] ==> r.None? && db.hosted == old(db.hosted) && db.directory == old(db.directory)
      ensures db.open != [] ==>
                exists k :: LeastLoaded(db.open, db.orders, k) &&
                  var sh := db.open[k];
                  && db.hosted == old(db.hosted) + {(sh, t)}
                  && (if (sh, t) in old(db.hosted) || t in old(db.directory)
                      then r == None && db.directory == old(db.directory)
                      else r == Some(sh) && db.directory == old(db.directory)[t := DirRow(sh, Active, 1)])
    {
      if db.open == [] { return None; }
      var best := 0;
      for k := 1 to |db.open|
        invariant 0 <= best < k
        invariant forall j :: 0 <= j < k ==> Load(db.orders, db.open[best]) <= Load(db.orders, db.open[j])
        invariant forall j :: 0 <= j < best ==> Load(db.orders, db.open[best]) < Load(db.orders, db.open[j])
      {
        if Load(db.orders, db.open[k]) < Load(db.orders, db.open[best]) {
          best := k;
        }
      }
      forall j | 0 <= j < |db.open| ensures Load(db.orders, db.open[j]) == Sum(db.orders, Weight(db.open[j])) {
        LoadIsSum(db.orders, db.open[j]);
      }
      hide Load;
      assert LeastLoaded(db.open, db.orders, best);
      var target := db.open[best];
      if (target, t) in db.hosted {
        assert db.hosted == db.hosted + {(target, t)};
        return None;
      }
      db.hosted := db.hosted + {(target, t)};
      if t in db.directory { return None; }
      db.directory := db.directory[t := DirRow(target, Active, 1)];
      r := Some(target);
    }

    /** MoveTenant: the number of rows moved. It fails exactly when the tenant is not active or the copy cannot
        commit; a failed copy rolls the source back but leaves the directory row marked as moving. In terms of the
        step machine it is a whole move, or one whose mover died behind its fence, or nothing. */
    method MoveTenant(t: Tenant, target: Shard) returns (r: Option<nat>)
      modifies this, db`directory, db`hosted, db`orders
      ensures r.Some? <==> old(db.CanMove(t, target))
      ensures r.Some? ==>
                && r.value == |RowsAt(old(db.orders), (old(db.directory)[t].shard, t))|
                && Sees() == MovedView(old(Sees()), t, target)
                && (var row := old(db.directory)[t];
                    && db.directory == old(db.directory)[t := DirRow(target, Active, row.version + 1)]
                    && db.hosted == old(db.hosted) + {(target, t)} - {(row.shard, t)}
                    && cache == old(cache) - {t})
      ensures r.None? ==>
                && db.hosted == old(db.hosted) && db.orders == old(db.orders) && cache == old(cache)
                && db.directory == (if t in old(db.directory)
                                    then old(db.directory)[t := old(db.directory)[t].(status := Moving)]
                                    else old(db.directory))
      ensures forall s: State, id: RouterId, m: MoveId ::
                Shows(old(Sees()), t, s, id) && s.moves == map[] && s.fenced == {} ==>
                  Shows(Sees(), t, Run(s, MoveTenantSteps(old(Sees()), t, target, id, m)), id)
    {
      forall s: State, id: RouterId, m: MoveId | Shows(Sees(), t, s, id) && s.moves == map[] && s.fenced == {}
        ensures Shows(MoveTenantView(Sees(), t, target), t, Run(s, MoveTenantSteps(Sees(), t, target, id, m)), id)
      {
        MoveTenantRefines(Sees(), t, target, s, id, m);
      }
      hide Shows;
      if t !in db.directory || !db.directory[t].status.Active? { return None; }
      var row := db.directory[t];
      var source := row.shard;
      db.directory := db.directory[t := row.(status := Moving)];
      var data := RowsAt(db.orders, (source, t));
      var there := RowsAt(db.orders, (target, t));
      if source == target || (target, t) in db.hosted || !(there.Keys !! data.Keys) {
        return None;   // the source transaction rolls back
      }
      db.orders := db.orders[(target, t) := there + data];
      db.hosted := db.hosted + {(target, t)};
      db.orders := db.orders - {(source, t)};
      db.hosted := db.hosted - {(source, t)};
      db.directory := db.directory[t := DirRow(target, Active, db.directory[t].version + 1)];
      assert db.directory == old(db.directory)[t := DirRow(target, Active, row.version + 1)];
      cache := cache - {t};
      r := Some(|data|);
    }
  }
}
