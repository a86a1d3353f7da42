/** The cache of QueryCache with calls that overlap: a call gets its row from the database in one step and stores it
    in Redis in a later one, and anything may happen in between. */
module OverlappingCache {
  import opened Basics
  import Q = QueryCache

  /** A call between its database statement and its SET. */
  datatype Fetched = Fetched(id: nat, row: Q.Product, at: int)

  datatype State = State(now: int, products: map<nat, Q.Product>, cache: map<nat, Q.Entry>, pending: map<nat, Fetched>)

  datatype Step =
    | Pass(time: nat)
    | Fetch(c: nat, id: nat)               // GetProduct after a miss
    | Update(c: nat, id: nat, price: int)  // UPDATE .. RETURNING of the write-through
    | Store(c: nat, put: Q.Outcome)        // the SET of either
    | Reprice(id: nat, price: int)         // UPDATE before an invalidation
    | Remove(id: nat, del: Q.Outcome)      // its DEL
    | Elsewhere(id: nat, row: Option<Q.Product>)
    | Dies(c: nat)

  function Next(ttl: nat, s: State, step: Step): State {
    match step
    case Pass(time) => s.(now := s.now + time)
    case Fetch(c, id) =>
      if c in s.pending || id !in s.products then s
      else s.(pending := s.pending[c := Fetched(id, s.products[id], s.now)])
    case Update(c, id, price) =>
      if c in s.pending || id !in s.products then s
      else
        var row := s.products[id].(price := price);
        s.(products := s.products[id := row], pending := s.pending[c := Fetched(id, row, s.now)])
    case Store(c, put) =>
      if c !in s.pending then s
      else
        var f := s.pending[c];
        s.(pending := s.pending - {c},
           cache := if put.Refused? then s.cache else s.cache[f.id := Q.Entry(f.row, s.now + ttl)])
    case Reprice(id, price) =>
      if id !in s.products then s else s.(products := s.products[id := s.products[id].(price := price)])
    case Remove(id, del) => if del.Refused? then s else s.(cache := s.cache - {id})
    case Elsewhere(id, row) =>
      s.(products := if row.None? then s.products - {id} else s.products[id := row.value])
    case Dies(c) => s.(pending := s.pending - {c})
  }

  function Run(ttl: nat, s: State, steps: seq<Step>): State {
    if steps == [] then s else Next(ttl, Run(ttl, s, steps[..|steps| - 1]), steps[|steps| - 1])
  }

  predicate Alive(s: State, id: nat) {
    id in s.cache && s.now < s.cache[id].expires
  }

  // ---------------------------------------------------------------- where an entry comes from

  /** After the first `j` steps the database held `p` as the row of `id`, not before `since`. */
  predicate HeldAt(ttl: nat, s: State, steps: seq<Step>, j: nat, id: nat, p: Q.Product, since: int)
    requires j <= |steps|
  {
    var past := Run(ttl, s, steps[..j]);
    id in past.products && past.products[id] == p && since <= past.now
  }

  ghost predicate HeldSince(ttl: nat, s: State, steps: seq<Step>, id: nat, p: Q.Product, since: int) {
    exists j: nat :: j <= |steps| && HeldAt(ttl, s, steps, j, id, p, since)
  }

  lemma HeldLater(ttl: nat, s: State, steps: seq<Step>, id: nat, p: Q.Product, since: int, earlier: int)
    requires steps != [] && HeldSince(ttl, s, steps[..|steps| - 1], id, p, since) && earlier <= since
    ensures HeldSince(ttl, s, steps, id, p, earlier)
  {
    var front := steps[..|steps| - 1];
    var j: nat :| j <= |front| && HeldAt(ttl, s, front, j, id, p, since);
    assert steps[..j] == front[..j];
    assert HeldAt(ttl, s, steps, j, id, p, earlier);
  }

  lemma HeldNow(ttl: nat, s: State, steps: seq<Step>, id: nat)
    requires id in Run(ttl, s, steps).products
    ensures HeldSince(ttl, s, steps, id, Run(ttl, s, steps).products[id], Run(ttl, s, steps).now)
  {
    assert steps[..|steps|] == steps;
    assert HeldAt(ttl, s, steps, |steps|, id, Run(ttl, s, steps).products[id], Run(ttl, s, steps).now);
  }

  /** The SET comes at most `gap` after the call's database statement. */
  predicate Prompt(gap: nat, s: State, step: Step) {
    step.Store? && step.c in s.pending ==> s.now <= s.pending[step.c].at + gap
  }

  ghost predicate AllPrompt(ttl: nat, gap: nat, s: State, steps: seq<Step>) {
    forall i: nat :: i < |steps| ==> Prompt(gap, Run(ttl, s, steps[..i]), steps[i])
  }

  lemma PromptSnoc(ttl: nat, gap: nat, s: State, steps: seq<Step>)
    requires steps != [] && AllPrompt(ttl, gap, s, steps)
    ensures var front := steps[..|steps| - 1];
            AllPrompt(ttl, gap, s, front) && Prompt(gap, Run(ttl, s, front), steps[|steps| - 1])
  {
    hide Run, Prompt;
    var front := steps[..|steps| - 1];
    assert forall i: nat :: i < |front| ==> front[..i] == steps[..i] && front[i] == steps[i];
  }

  /** What calls hold, the database held when they got it. */
  ghost predicate PendingHeld(ttl: nat, s: State, steps: seq<Step>, pending: map<nat, Fetched>) {
    forall c: nat :: c in pending ==> HeldSince(ttl, s, steps, pending[c].id, pending[c].row, pending[c].at)
  }

  /** What is cached, it held at most `gap` before the TTL of the entry began. */
  ghost predicate CacheHeld(ttl: nat, gap: nat, s: State, steps: seq<Step>, cache: map<nat, Q.Entry>) {
    forall id: nat :: id in cache ==> HeldSince(ttl, s, steps, id, cache[id].value, cache[id].expires - ttl - gap)
  }

  /** A step leaves what a call holds, or fetches the row of now. */
  lemma PendingSources(ttl: nat, s: State, step: Step, c: nat)
    requires c in Next(ttl, s, step).pending
    ensures var s' := Next(ttl, s, step);
            var f := s'.pending[c];
            || (c in s.pending && f == s.pending[c])
            || (f.id in s'.products && f.row == s'.products[f.id] && f.at == s'.now)
  {
  }

  /** A step leaves an entry, or stores what a call holds. */
  lemma CacheSources(ttl: nat, gap: nat, s: State, step: Step, id: nat)
    requires Prompt(gap, s, step) && id in Next(ttl, s, step).cache
    ensures var e := Next(ttl, s, step).cache[id];
            || (id in s.cache && e == s.cache[id])
            || (&& step.Store? && step.c in s.pending && s.pending[step.c].id == id && s.pending[step.c].row == e.value
                && e.expires - ttl - gap <= s.pending[step.c].at)
  {
  }

  lemma RunLast(ttl: nat, s: State, steps: seq<Step>)
    requires steps != []
    ensures Run(ttl, s, steps) == Next(ttl, Run(ttl, s, steps[..|steps| - 1]), steps[|steps| - 1])
  {
    hide Next;
  }

  lemma PendingStep(ttl: nat, s: State, steps: seq<Step>)
    requires steps != [] && PendingHeld(ttl, s, steps[..|steps| - 1], Run(ttl, s, steps[..|steps| - 1]).pending)
    ensures PendingHeld(ttl, s, steps, Run(ttl, s, steps).pending)
  {
    var before, after := Run(ttl, s, steps[..|steps| - 1]), Run(ttl, s, steps);
    hide Next, Run, HeldSince, HeldAt;
    RunLast(ttl, s, steps);
    forall c: nat | c in after.pending
      ensures HeldSince(ttl, s, steps, after.pending[c].id, after.pending[c].row, after.pending[c].at)
    {
      var f := after.pending[c];
      PendingSources(ttl, before, steps[|steps| - 1], c);
      if c in before.pending && f == before.pending[c] {
        HeldLater(ttl, s, steps, f.id, f.row, f.at, f.at);
      } else {
        HeldNow(ttl, s, steps, f.id);
      }
    }
  }

  lemma EntryStep(ttl: nat, gap: nat, s: State, steps: seq<Step>, before: State, last: Step, id: nat)
    requires steps != [] && Prompt(gap, before, last) && id in Next(ttl, before, last).cache
    requires PendingHeld(ttl, s, steps[..|steps| - 1], before.pending)
    requires CacheHeld(ttl, gap, s, steps[..|steps| - 1], before.cache)
    ensures var e := Next(ttl, before, last).cache[id];
            HeldSince(ttl, s, steps, id, e.value, e.expires - ttl - gap)
  {
    hide Next, HeldSince, Prompt;
    CacheSources(ttl, gap, before, last, id);
    var e := Next(ttl, before, last).cache[id];
    var since := e.expires - ttl - gap;
    if id in before.cache && e == before.cache[id] {
      HeldLater(ttl, s, steps, id, e.value, since, since);
    } else {
      HeldLater(ttl, s, steps, id, e.value, before.pending[last.c].at, since);
    }
  }

  lemma CacheStep(ttl: nat, gap: nat, s: State, steps: seq<Step>)
    requires steps != [] && Prompt(gap, Run(ttl, s, steps[..|steps| - 1]), steps[|steps| - 1])
    requires PendingHeld(ttl, s, steps[..|steps| - 1], Run(ttl, s, steps[..|steps| - 1]).pending)
    requires CacheHeld(ttl, gap, s, steps[..|steps| - 1], Run(ttl, s, steps[..|steps| - 1]).cache)
    ensures CacheHeld(ttl, gap, s, steps, Run(ttl, s, steps).cache)
  {
    hide Next, Run, HeldSince, Prompt, PendingHeld;
    RunLast(ttl, s, steps);
    var before, last := Run(ttl, s, steps[..|steps| - 1]), steps[|steps| - 1];
    forall id: nat | id in Next(ttl, before, last).cache
      ensures var e := Next(ttl, before, last).cache[id]; HeldSince(ttl, s, steps, id, e.value, e.expires - ttl - gap)
    {
      EntryStep(ttl, gap, s, steps, before, last, id);
    }
  }

  lemma {:induction false} RunBounded(ttl: nat, gap: nat, s: State, steps: seq<Step>)
    requires s.cache == map[] && s.pending == map[] && AllPrompt(ttl, gap, s, steps)
    ensures PendingHeld(ttl, s, steps, Run(ttl, s, steps).pending)
    ensures CacheHeld(ttl, gap, s, steps, Run(ttl, s, steps).cache)
  {
    if steps != [] {
      PromptSnoc(ttl, gap, s, steps);
      RunBounded(ttl, gap, s, steps[..|steps| - 1]);
      PendingStep(ttl, s, steps);
      CacheStep(ttl, gap, s, steps);
    }
  }

  // ---------------------------------------------------------------- results

  /** With overlapping calls, whatever fails and whoever writes: a hit returns a row that the database held within
      the last TTL and the longest time from a call's database statement to its SET. */
  lemma StaleAtMostTtlAndGap(ttl: nat, gap: nat, s: State, steps: seq<Step>, id: nat)
    requires s.cache == map[] && s.pending == map[] && AllPrompt(ttl, gap, s, steps)
    ensures var now := Run(ttl, s, steps);
            Alive(now, id) ==> HeldSince(ttl, s, steps, id, now.cache[id].value, now.now - ttl - gap + 1)
  {
    hide Run, HeldSince, AllPrompt;
    RunBounded(ttl, gap, s, steps);
    var now := Run(ttl, s, steps);
    if Alive(now, id) {
      HeldEarlier(ttl, s, steps, id, now.cache[id].value, now.cache[id].expires - ttl - gap, now.now - ttl - gap + 1);
    }
  }

  lemma HeldEarlier(ttl: nat, s: State, steps: seq<Step>, id: nat, p: Q.Product, since: int, earlier: int)
    requires HeldSince(ttl, s, steps, id, p, since) && earlier <= since
    ensures HeldSince(ttl, s, steps, id, p, earlier)
  {
    var j: nat :| j <= |steps| && HeldAt(ttl, s, steps, j, id, p, since);
    assert HeldAt(ttl, s, steps, j, id, p, earlier);
  }

  lemma RunSnoc(ttl: nat, s: State, steps: seq<Step>, step: Step)
    ensures Run(ttl, s, steps + [step]) == Next(ttl, Run(ttl, s, steps), step)
  {
    hide Next;
    assert (steps + [step])[..|steps|] == steps;
  }

  /** The steps of a call that nobody comes between, made by caller `c`. */
  function Alone(c: nat, q: Q.State, step: Q.Step): seq<Step> {
    match step
    case Pass(time) => [Pass(time)]
    case Read(id, get, put) => if Q.Hits(q, id, get) then [] else [Fetch(c, id), Store(c, put)]
    case WriteThrough(id, price, put) => [Update(c, id, price), Store(c, put)]
    case Invalidate(id, price, del) => [Reprice(id, price), Remove(id, del)]
    case Elsewhere(id, row) => [Elsewhere(id, row)]
  }

  /** The calls one after the other. */
  function InTurn(ttl: nat, c: nat, q: Q.State, steps: seq<Q.Step>): seq<Step> {
    if steps == [] then []
    else
      var front := steps[..|steps| - 1];
      InTurn(ttl, c, q, front) + Alone(c, Q.Run(ttl, q, front), steps[|steps| - 1])
  }

  /** The same clock, table and cache, with no call under way. */
  predicate Matches(s: State, q: Q.State) {
    s.now == q.now && s.products == q.products && s.cache == q.cache && s.pending == map[]
  }

  lemma RunShort(ttl: nat, s: State, steps: seq<Step>)
    requires |steps| <= 2
    ensures Run(ttl, s, steps) ==
            if steps == [] then s
            else if |steps| == 1 then Next(ttl, s, steps[0])
            else Next(ttl, Next(ttl, s, steps[0]), steps[1])
  {
    hide Next;
    NothingRun(ttl, s);
    if |steps| == 1 {
      RunSnoc(ttl, s, [], steps[0]);
      assert steps == [] + [steps[0]];
    } else if |steps| == 2 {
      RunSnoc(ttl, s, [], steps[0]);
      RunSnoc(ttl, s, [] + [steps[0]], steps[1]);
      assert steps == [] + [steps[0]] + [steps[1]];
    }
  }

  lemma AloneMatches(ttl: nat, c: nat, s: State, q: Q.State, step: Q.Step)
    requires Matches(s, q)
    ensures Matches(Run(ttl, s, Alone(c, q, step)), Q.Next(ttl, q, step))
  {
    hide Run;
    RunShort(ttl, s, Alone(c, q, step));
  }

  lemma {:induction false} RunConcat(ttl: nat, s: State, steps: seq<Step>, more: seq<Step>)
    ensures Run(ttl, s, steps + more) == Run(ttl, Run(ttl, s, steps), more)
  {
    hide Next;
    if more == [] {
      assert steps + more == steps;
    } else {
      assert (steps + more)[..|steps + more| - 1] == steps + more[..|more| - 1];
      RunConcat(ttl, s, steps, more[..|more| - 1]);
    }
  }

  /** Calls that do not overlap are the runs of QueryCache. */
  lemma {:induction false} InTurnMatches(ttl: nat, c: nat, s: State, q: Q.State, steps: seq<Q.Step>)
    requires Matches(s, q)
    ensures Matches(Run(ttl, s, InTurn(ttl, c, q, steps)), Q.Run(ttl, q, steps))
  {
    hide Matches, Alone, Next, Q.Next;
    if steps == [] {
      NothingRun(ttl, s);
    } else {
      var front := steps[..|steps| - 1];
      InTurnMatches(ttl, c, s, q, front);
      var s', q' := Run(ttl, s, InTurn(ttl, c, q, front)), Q.Run(ttl, q, front);
      AloneMatches(ttl, c, s', q', steps[|steps| - 1]);
      RunConcat(ttl, s, InTurn(ttl, c, q, front), Alone(c, q', steps[|steps| - 1]));
    }
  }

  /** A reader fetches, an invalidating update comes and goes, and the reader stores what it has. */
  function Overtaken(id: nat, price: int, gap: nat, wait: nat): seq<Step> {
    [] + [Fetch(0, id)] + [Reprice(id, price)] + [Remove(id, Q.Done)] + [Pass(gap)] + [Store(0, Q.Done)] + [Pass(wait)]
  }

  /** No bound below that holds, even if no call fails: the row that an invalidation replaced can be served until
      a TTL after the last such SET. */
  lemma OldRowServedThatLong(ttl: nat, gap: nat, s: State, id: nat, price: int)
    requires ttl > 0 && s.pending == map[] && id in s.products && s.products[id].price != price
    ensures var now := Run(ttl, s, Overtaken(id, price, gap, ttl - 1));
            && Alive(now, id) && now.cache[id].value == s.products[id]
            && id in now.products && now.products[id] != s.products[id]
            && now.now == s.now + gap + ttl - 1
  {
    hide Run;
    assert Run(ttl, s, []) == s by { NothingRun(ttl, s); }
    RunSnoc(ttl, s, [], Fetch(0, id));
    RunSnoc(ttl, s, [] + [Fetch(0, id)], Reprice(id, price));
    RunSnoc(ttl, s, [] + [Fetch(0, id)] + [Reprice(id, price)], Remove(id, Q.Done));
    RunSnoc(ttl, s, [] + [Fetch(0, id)] + [Reprice(id, price)] + [Remove(id, Q.Done)], Pass(gap));
    RunSnoc(ttl, s, [] + [Fetch(0, id)] + [Reprice(id, price)] + [Remove(id, Q.Done)] + [Pass(gap)], Store(0, Q.Done));
    RunSnoc(ttl, s, [] + [Fetch(0, id)] + [Reprice(id, price)] + [Remove(id, Q.Done)] + [Pass(gap)]
                    + [Store(0, Q.Done)], Pass(ttl - 1));
  }

  lemma NothingRun(ttl: nat, s: State)
    ensures Run(ttl, s, []) == s
  {
  }
}
