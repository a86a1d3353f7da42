/** Cache-aside with a TTL, write-through and invalidation, over a Redis that may fail at any call. Calls do not
    overlap; the database access and the cache access of a call happen at one instant. */
module QueryCache {
  import opened Basics

  datatype Product = Product(name: string, price: int)

  datatype Entry = Entry(value: Product, expires: int)

  /** How a Redis write ends: done; refused; or done although the caller sees an error. */
  datatype Outcome = Done | Refused | DoneUnseen

  datatype State = State(now: int, products: map<nat, Product>, cache: map<nat, Entry>, hits: nat, misses: nat)

  datatype Step =
    | Pass(time: nat)
    | Read(id: nat, get: bool, put: Outcome)
    | WriteThrough(id: nat, price: int, put: Outcome)
    | Invalidate(id: nat, price: int, del: Outcome)
    | Elsewhere(id: nat, row: Option<Product>)

  predicate Alive(s: State, id: nat) {
    id in s.cache && s.now < s.cache[id].expires
  }

  /** The Redis GET finds an entry (`get`: the call itself succeeds). */
  predicate Hits(s: State, id: nat, get: bool) {
    get && Alive(s, id)
  }

  /** What GetProduct returns; None is the error for a missing row. */
  function Result(s: State, id: nat, get: bool): Option<Product> {
    if Hits(s, id, get) then Some(s.cache[id].value)
    else if id in s.products then Some(s.products[id])
    else None
  }

  function Stored(ttl: nat, s: State, id: nat, p: Product, put: Outcome): State {
    if put.Refused? then s else s.(cache := s.cache[id := Entry(p, s.now + ttl)])
  }

  function Priced(s: State, id: nat, price: int): State {
    if id !in s.products then s else s.(products := s.products[id := s.products[id].(price := price)])
  }

  function Next(ttl: nat, s: State, step: Step): State {
    match step
    case Pass(time) => s.(now := s.now + time)
    case Read(id, get, put) =>
      if Hits(s, id, get) then s.(hits := s.hits + 1)
      else
        var s' := s.(misses := s.misses + 1);
        if id !in s.products then s' else Stored(ttl, s', id, s.products[id], put)
    case WriteThrough(id, price, put) =>
      if id !in s.products then s
      else
        var s' := Priced(s, id, price);
        Stored(ttl, s', id, s'.products[id], put)
    case Invalidate(id, price, del) =>
      var s' := Priced(s, id, price);
      if del.Refused? then s' else s'.(cache := s'.cache - {id})
    case Elsewhere(id, row) =>
      s.(products := if row.None? then s.products - {id} else s.products[id := row.value])
  }

  function Run(ttl: nat, s: State, steps: seq<Step>): State {
    if steps == [] then s else Next(ttl, Run(ttl, s, steps[..|steps| - 1]), steps[|steps| - 1])
  }

  // ---------------------------------------------------------------- staleness is bounded by the TTL

  /** After the first `j` steps the database held `p` as the row of `id`, at a time after `since`. */
  predicate HeldAt(ttl: nat, s: State, steps: seq<Step>, j: nat, id: nat, p: Product, since: int)
    requires j <= |steps|
  {
    var past := Run(ttl, s, steps[..j]);
    id in past.products && past.products[id] == p && since < past.now
  }

  ghost predicate HeldSince(ttl: nat, s: State, steps: seq<Step>, id: nat, p: Product, since: int) {
    exists j: nat :: j <= |steps| && HeldAt(ttl, s, steps, j, id, p, since)
  }

  lemma HeldLater(ttl: nat, s: State, steps: seq<Step>, id: nat, p: Product, since: int)
    requires steps != [] && HeldSince(ttl, s, steps[..|steps| - 1], id, p, since)
    ensures HeldSince(ttl, s, steps, id, p, since)
  {
    var front := steps[..|steps| - 1];
    var j: nat :| j <= |front| && HeldAt(ttl, s, front, j, id, p, since);
    assert steps[..j] == front[..j];
    assert HeldAt(ttl, s, steps, j, id, p, since);
  }

  /** The row in an entry is one the database held less than a TTL before the entry expires. */
  ghost predicate Bounded(ttl: nat, s: State, steps: seq<Step>, cache: map<nat, Entry>) {
    forall id: nat :: id in cache ==> HeldSince(ttl, s, steps, id, cache[id].value, cache[id].expires - ttl - 1)
  }

  /** A step leaves an entry as it was, or stores the row that the database holds, for a TTL from now. */
  lemma EntryComesFrom(ttl: nat, s: State, step: Step, id: nat)
    requires id in Next(ttl, s, step).cache
    ensures var s' := Next(ttl, s, step);
            || (id in s.cache && s'.cache[id] == s.cache[id])
            || (id in s'.products && s'.cache[id] == Entry(s'.products[id], s'.now + ttl))
  {
  }

  lemma {:induction false} EntriesBounded(ttl: nat, s: State, steps: seq<Step>)
    requires s.cache == map[]
    ensures Bounded(ttl, s, steps, Run(ttl, s, steps).cache)
  {
    if steps != [] {
      hide Next, HeldSince;
      var front := steps[..|steps| - 1];
      var before, after := Run(ttl, s, front), Run(ttl, s, steps);
      EntriesBounded(ttl, s, front);
      forall id: nat | id in after.cache
        ensures HeldSince(ttl, s, steps, id, after.cache[id].value, after.cache[id].expires - ttl - 1)
      {
        EntryComesFrom(ttl, before, steps[|steps| - 1], id);
        if id in before.cache && after.cache[id] == before.cache[id] {
          HeldLater(ttl, s, steps, id, before.cache[id].value, before.cache[id].expires - ttl - 1);
        } else {
          HeldNow(ttl, s, steps, id, after.now - 1);
        }
      }
    }
  }

  lemma HeldNow(ttl: nat, s: State, steps: seq<Step>, id: nat, since: int)
    requires id in Run(ttl, s, steps).products && since < Run(ttl, s, steps).now
    ensures HeldSince(ttl, s, steps, id, Run(ttl, s, steps).products[id], since)
  {
    assert steps[..|steps|] == steps;
    assert HeldAt(ttl, s, steps, |steps|, id, Run(ttl, s, steps).products[id], since);
  }

  lemma HeldEarlier(ttl: nat, s: State, steps: seq<Step>, id: nat, p: Product, since: int, earlier: int)
    requires HeldSince(ttl, s, steps, id, p, since) && earlier <= since
    ensures HeldSince(ttl, s, steps, id, p, earlier)
  {
    var j: nat :| j <= |steps| && HeldAt(ttl, s, steps, j, id, p, since);
    assert HeldAt(ttl, s, steps, j, id, p, earlier);
  }

  /** Whatever Redis calls fail and whoever else writes the database: a read returns a row that the database held
      at some moment within the last TTL. */
  lemma StaleAtMostTtl(ttl: nat, s: State, steps: seq<Step>, id: nat, get: bool)
    requires s.cache == map[] && ttl > 0
    ensures var now := Run(ttl, s, steps);
            Result(now, id, get).Some? ==> HeldSince(ttl, s, steps, id, Result(now, id, get).value, now.now - ttl)
  {
    hide Run, HeldSince;
    var now := Run(ttl, s, steps);
    if Hits(now, id, get) {
      EntriesBounded(ttl, s, steps);
      HeldEarlier(ttl, s, steps, id, now.cache[id].value, now.cache[id].expires - ttl - 1, now.now - ttl);
    } else if id in now.products {
      HeldNow(ttl, s, steps, id, now.now - ttl);
    }
  }

  // ---------------------------------------------------------------- without failures the cache is transparent

  /** No write of the cache is refused, and nobody writes the database behind its back. */
  ghost predicate Careful(step: Step) {
    match step
    case Pass(_) => true
    case Read(_, _, _) => true
    case WriteThrough(_, _, put) => !put.Refused?
    case Invalidate(_, _, del) => !del.Refused?
    case Elsewhere(_, _) => false
  }

  ghost predicate Coherent(s: State) {
    forall id: nat :: id in s.cache ==> id in s.products && s.cache[id].value == s.products[id]
  }

  lemma CarefulKeeps(ttl: nat, s: State, step: Step)
    requires Coherent(s) && Careful(step)
    ensures Coherent(Next(ttl, s, step))
  {
  }

  lemma {:induction false} RunCoherent(ttl: nat, s: State, steps: seq<Step>)
    requires Coherent(s) && forall i :: 0 <= i < |steps| ==> Careful(steps[i])
    ensures Coherent(Run(ttl, s, steps))
  {
    if steps != [] {
      hide Next, Coherent, Careful;
      RunCoherent(ttl, s, steps[..|steps| - 1]);
      CarefulKeeps(ttl, Run(ttl, s, steps[..|steps| - 1]), steps[|steps| - 1]);
    }
  }

  /** Then a read is a read of the database, also when the cache cannot be read or populated. */
  lemma {:induction false} ReadsAreCurrent(ttl: nat, s: State, steps: seq<Step>, id: nat, get: bool)
    requires s.cache == map[] && forall i :: 0 <= i < |steps| ==> Careful(steps[i])
    ensures var now := Run(ttl, s, steps);
            Result(now, id, get) == if id in now.products then Some(now.products[id]) else None
  {
    RunCoherent(ttl, s, steps);
  }

  /** A write is careless to a reader exactly when its cache write is refused while an entry is alive and the price
      is a new one; a write-through of the price that is already there, or with nothing cached, does no harm. */
  lemma RefusedWriteExactly(ttl: nat, s: State, step: Step)
    requires Coherent(s)
    requires (step.WriteThrough? && step.put.Refused?) || (step.Invalidate? && step.del.Refused?)
    requires step.id in s.products
    ensures var s' := Next(ttl, s, step);
            Result(s', step.id, true) == Some(s'.products[step.id]) <==>
                !Alive(s, step.id) || step.price == s.products[step.id].price
  {
  }

  /** The next read of any product, whether the cache answers or not, gives the row of the database. */
  ghost predicate ReadsCurrent(s: State) {
    forall id: nat, get: bool :: Result(s, id, get) == if id in s.products then Some(s.products[id]) else None
  }

  /** Every entry alive holds the row. */
  ghost predicate LiveRight(s: State) {
    forall id: nat :: Alive(s, id) ==> id in s.products && s.cache[id].value == s.products[id]
  }

  lemma ReadsCurrentIs(s: State)
    ensures ReadsCurrent(s) <==> LiveRight(s)
  {
    if ReadsCurrent(s) {
      forall id: nat | Alive(s, id) ensures id in s.products && s.cache[id].value == s.products[id] {
        assert Hits(s, id, true);
        assert Result(s, id, true) == Some(s.cache[id].value);
      }
    }
  }

  /** The row under a live entry changes and the entry does not: a write from elsewhere, or an update whose cache
      write is refused. */
  predicate Harms(s: State, step: Step) {
    match step
    case Pass(_) => false
    case Read(_, _, _) => false
    case WriteThrough(id, price, put) =>
      put.Refused? && Alive(s, id) && id in s.products && s.products[id].price != price
    case Invalidate(id, price, del) =>
      del.Refused? && Alive(s, id) && id in s.products && s.products[id].price != price
    case Elsewhere(id, row) => Alive(s, id) && (id in s.products ==> row != Some(s.products[id]))
  }

  lemma LiveRightStep(ttl: nat, s: State, step: Step)
    requires LiveRight(s)
    ensures LiveRight(Next(ttl, s, step)) <==> !Harms(s, step)
  {
    var s' := Next(ttl, s, step);
    if Harms(s, step) {
      assert Alive(s, step.id) && Alive(s', step.id);
    } else {
      forall id: nat | Alive(s', id) ensures id in s'.products && s'.cache[id].value == s'.products[id] {
        assert Alive(s, id) ==> id in s.products && s.cache[id].value == s.products[id];
      }
    }
  }

  ghost predicate AlwaysCurrent(ttl: nat, s: State, steps: seq<Step>) {
    forall k: nat :: k <= |steps| ==> ReadsCurrent(Run(ttl, s, steps[..k]))
  }

  ghost predicate NeverHarmed(ttl: nat, s: State, steps: seq<Step>) {
    forall i: nat :: i < |steps| ==> !Harms(Run(ttl, s, steps[..i]), steps[i])
  }

  lemma PrefixesSnoc(ttl: nat, s: State, steps: seq<Step>)
    requires steps != []
    ensures var front := steps[..|steps| - 1];
            && (AlwaysCurrent(ttl, s, steps) <==> AlwaysCurrent(ttl, s, front) && ReadsCurrent(Run(ttl, s, steps)))
            && (NeverHarmed(ttl, s, steps) <==>
                  NeverHarmed(ttl, s, front) && !Harms(Run(ttl, s, front), steps[|steps| - 1]))
  {
    hide Run, Harms, ReadsCurrent;
    var front := steps[..|steps| - 1];
    assert forall k: nat :: k <= |front| ==> front[..k] == steps[..k];
    assert forall i: nat :: i < |front| ==> front[i] == steps[i];
    assert steps[..|steps|] == steps;
  }

  /** Reads are current at every point of a run exactly if no write from elsewhere, and no update whose cache write
      is refused, changes the row under a live entry. */
  lemma {:induction false} AlwaysCurrentExactly(ttl: nat, s: State, steps: seq<Step>)
    requires ReadsCurrent(s)
    ensures AlwaysCurrent(ttl, s, steps) <==> NeverHarmed(ttl, s, steps)
  {
    hide Next, Harms, ReadsCurrent, LiveRight;
    if steps == [] {
      NothingDone(ttl, s);
    } else {
      var front, last := steps[..|steps| - 1], steps[|steps| - 1];
      PrefixesSnoc(ttl, s, steps);
      AlwaysCurrentExactly(ttl, s, front);
      if AlwaysCurrent(ttl, s, front) {
        var before := Run(ttl, s, front);
        assert front[..|front|] == front;
        ReadsCurrentIs(before);
        LiveRightStep(ttl, before, last);
        ReadsCurrentIs(Run(ttl, s, steps));
      }
    }
  }

  lemma NothingDone(ttl: nat, s: State)
    requires ReadsCurrent(s)
    ensures AlwaysCurrent(ttl, s, []) && NeverHarmed(ttl, s, [])
  {
    hide ReadsCurrent;
    var none: seq<Step> := [];
    assert forall k: nat :: k <= |none| ==> none[..k] == [];
  }

  /** A read that fills the cache is followed by hits on what it read for a TTL, and by none after. */
  lemma HitsForOneTtl(ttl: nat, s: State, id: nat, get: bool, time: nat)
    requires !Hits(s, id, get) && id in s.products
    ensures var later := Next(ttl, Next(ttl, s, Read(id, get, Done)), Pass(time));
            && (Hits(later, id, true) <==> time < ttl)
            && (time < ttl ==> Result(later, id, true) == Some(s.products[id]))
  {
  }

  // ---------------------------------------------------------------- every read is counted once

  function Reads(steps: seq<Step>): nat {
    if steps == [] then 0 else Reads(steps[..|steps| - 1]) + if steps[|steps| - 1].Read? then 1 else 0
  }

  lemma StepCounts(ttl: nat, s: State, step: Step)
    ensures var s' := Next(ttl, s, step); s'.hits + s'.misses == s.hits + s.misses + if step.Read? then 1 else 0
  {
  }

  lemma {:induction false} EveryReadCounts(ttl: nat, s: State, steps: seq<Step>)
    ensures var now := Run(ttl, s, steps); now.hits + now.misses == s.hits + s.misses + Reads(steps)
  {
    if steps != [] {
      hide Next;
      EveryReadCounts(ttl, s, steps[..|steps| - 1]);
      StepCounts(ttl, Run(ttl, s, steps[..|steps| - 1]), steps[|steps| - 1]);
    }
  }

  // ---------------------------------------------------------------- the cache as it runs

  class Cache {
    const ttl: nat
    var now: int
    var products: map<nat, Product>
    var entries: map<nat, Entry>
    var hits: nat
    var misses: nat

    ghost function Value(): State
      reads this
    {
      State(now, products, entries, hits, misses)
    }

    constructor (ttl: nat, now: int, products: map<nat, Product>)
      ensures this.ttl == ttl && Value() == State(now, products, map[], 0, 0)
    {
      this.ttl, this.now, this.products, entries, hits, misses := ttl, now, products, map[], 0, 0;
    }

    method GetProduct(id: nat, get: bool, put: Outcome) returns (r: Option<Product>)
      modifies this`entries, this`hits, this`misses
      ensures r == Result(old(Value()), id, get)
      ensures var hit := get && id in old(entries) && now < old(entries)[id].expires;
              && (hit ==> && r == Some(old(entries)[id].value) && entries == old(entries)
                          && hits == old(hits) + 1 && misses == old(misses))
              && (!hit ==> && r == (if id in products then Some(products[id]) else None)
                           && hits == old(hits) && misses == old(misses) + 1
                           && entries == (if id in products && !put.Refused?
                                          then old(entries)[id := Entry(products[id], now + ttl)] else old(entries)))
      ensures Value() == Next(ttl, old(Value()), Read(id, get, put))
      ensures old(Coherent(Value())) ==>
                Coherent(Value()) && r == (if id in products then Some(products[id]) else None)
    {
      if get && id in entries && now < entries[id].expires {
        hits := hits + 1;
        return Some(entries[id].value);
      }
      misses := misses + 1;
      if id !in products { return None; }
      if !put.Refused? {
        entries := entries[id := Entry(products[id], now + ttl)];
      }
      r := Some(products[id]);
    }

    /** The database is updated even when the error of the cache write is returned. */
    method UpdatePriceWriteThrough(id: nat, price: int, put: Outcome) returns (ok: bool)
      modifies this`products, this`entries
      ensures ok <==> id in old(products) && put.Done?
      ensures products == if id in old(products) then old(products)[id := old(products)[id].(price := price)]
                          else old(products)
      ensures entries == if id in old(products) && !put.Refused?
                         then old(entries)[id := Entry(products[id], now + ttl)] else old(entries)
      ensures Value() == Next(ttl, old(Value()), WriteThrough(id, price, put))
      ensures old(Coherent(Value())) && !put.Refused? ==> Coherent(Value())
    {
      if id !in products { return false; }
      products := products[id := products[id].(price := price)];
      if !put.Refused? {
        entries := entries[id := Entry(products[id], now + ttl)];
      }
      ok := put.Done?;
    }

    /** An unknown id is no error here: the statement updates no row. */
    method UpdatePriceInvalidate(id: nat, price: int, del: Outcome) returns (ok: bool)
      modifies this`products, this`entries
      ensures ok <==> del.Done?
      ensures products == if id in old(products) then old(products)[id := old(products)[id].(price := price)]
                          else old(products)
      ensures entries == if del.Refused? then old(entries) else old(entries) - {id}
      ensures Value() == Next(ttl, old(Value()), Invalidate(id, price, del))
      ensures old(Coherent(Value())) && !del.Refused? ==> Coherent(Value())
    {
      if id in products {
        products := products[id := products[id].(price := price)];
      }
      if !del.Refused? {
        entries := entries - {id};
      }
      ok := del.Done?;
    }
  }
}
