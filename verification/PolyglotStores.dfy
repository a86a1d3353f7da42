/** The stores and the relay's processBatch as they run, one call at a time. How far a bulk request or a Redis
    pipeline gets before it fails is a parameter. PolyglotRelay treats the interleavings. */
module PolyglotStores {
  import opened Basics
  import opened PolyglotRelay

  // ---------------------------------------------------------------- what a batch does

  /** ORDER BY id LIMIT `limit` over the events that are not taken: neither processed nor locked by another relay. */
  function Pending(n: nat, taken: set<nat>, limit: nat): seq<nat> {
    if n == 0 then []
    else
      var before := Pending(n - 1, taken, limit);
      if n - 1 in taken || |before| == limit then before else before + [n - 1]
  }

  predicate ValidIds(outbox: seq<Event>, ids: seq<nat>) {
    forall i :: 0 <= i < |ids| ==> ids[i] < |outbox|
  }

  function DocsOf(outbox: seq<Event>, ids: seq<nat>): seq<Product>
    requires ValidIds(outbox, ids)
  {
    if ids == [] then []
    else
      var before, last := DocsOf(outbox, ids[..|ids| - 1]), outbox[ids[|ids| - 1]];
      if last.Upserted? then before + [last.doc] else before
  }

  function OrdersOf(outbox: seq<Event>, ids: seq<nat>): (r: seq<nat>)
    requires ValidIds(outbox, ids)
    ensures forall i :: 0 <= i < |r| ==> r[i] < |outbox| && outbox[r[i]].Ordered?
  {
    if ids == [] then []
    else
      var before, last := OrdersOf(outbox, ids[..|ids| - 1]), ids[|ids| - 1];
      if outbox[last].Ordered? then before + [last] else before
  }

  function PutAll(index: map<nat, Product>, docs: seq<Product>): map<nat, Product> {
    if docs == [] then index else Put(PutAll(index, docs[..|docs| - 1]), docs[|docs| - 1])
  }

  function CountAll(t: Tally, outbox: seq<Event>, ids: seq<nat>): Tally
    requires forall i :: 0 <= i < |ids| ==> ids[i] < |outbox| && outbox[ids[i]].Ordered?
  {
    if ids == [] then t else CountOne(CountAll(t, outbox, ids[..|ids| - 1]), outbox, ids[|ids| - 1])
  }

  // ---------------------------------------------------------------- redelivery is harmless

  /** After a list of documents went in, the index has at least their versions. */
  lemma {:induction false} PutAllCovers(index: map<nat, Product>, docs: seq<Product>, k: nat)
    requires k < |docs|
    ensures var after := PutAll(index, docs); docs[k].id in after && docs[k].version <= after[docs[k].id].version
  {
    if k < |docs| - 1 {
      PutAllCovers(index, docs[..|docs| - 1], k);
    }
  }

  /** A batch that already got in as far as its first `k` documents can be delivered again from the start. */
  lemma {:induction false} PutAllRetry(index: map<nat, Product>, docs: seq<Product>, k: nat, n: nat)
    requires k <= |docs| && n <= |docs|
    ensures PutAll(PutAll(index, docs[..k]), docs[..n]) == PutAll(index, docs[..if k < n then n else k])
    decreases n
  {
    if n > 0 {
      PutAllRetry(index, docs, k, n - 1);
      assert docs[..n][..n - 1] == docs[..n - 1];
      if n <= k {
        PutAllCovers(index, docs[..k], n - 1);
      }
    }
  }

  lemma {:induction false} CountAllCovers(t: Tally, outbox: seq<Event>, ids: seq<nat>, k: nat)
    requires forall i :: 0 <= i < |ids| ==> ids[i] < |outbox| && outbox[ids[i]].Ordered?
    requires k < |ids|
    ensures ids[k] in CountAll(t, outbox, ids).done
  {
    if k < |ids| - 1 {
      CountAllCovers(t, outbox, ids[..|ids| - 1], k);
    }
  }

  lemma {:induction false} CountAllRetry(t: Tally, outbox: seq<Event>, ids: seq<nat>, k: nat, n: nat)
    requires forall i :: 0 <= i < |ids| ==> ids[i] < |outbox| && outbox[ids[i]].Ordered?
    requires k <= |ids| && n <= |ids|
    ensures CountAll(CountAll(t, outbox, ids[..k]), outbox, ids[..n]) ==
              CountAll(t, outbox, ids[..if k < n then n else k])
    decreases n
  {
    if n > 0 {
      CountAllRetry(t, outbox, ids, k, n - 1);
      assert ids[..n][..n - 1] == ids[..n - 1];
      if n <= k {
        CountAllCovers(t, outbox, ids[..k], n - 1);
      }
    }
  }

  /** Pending lists, in order and without repetition, free events; it stops early only at the limit. */
  lemma {:induction false} PendingIsBatch(n: nat, taken: set<nat>, limit: nat)
    ensures var ids := Pending(n, taken, limit);
            && |ids| <= limit
            && (forall i :: 0 <= i < |ids| ==> ids[i] < n && ids[i] !in taken)
            && (forall i, j :: 0 <= i < j < |ids| ==> ids[i] < ids[j])
            && (forall e: nat :: e < n && e !in taken && e !in ids ==>
                  |ids| == limit && forall i :: 0 <= i < |ids| ==> ids[i] < e)
  {
    if n > 0 {
      PendingIsBatch(n - 1, taken, limit);
    }
  }

  // ---------------------------------------------------------------- the objects

  lemma NothingToApply(index: map<nat, Product>, tally: Tally, outbox: seq<Event>)
    ensures DocsOf(outbox, []) == [] && OrdersOf(outbox, []) == []
    ensures PutAll(index, []) == index && CountAll(tally, outbox, []) == tally
  {
  }

  // ---------------------------------------------------------------- a batch in the step machine

  datatype Tables = Tables(products: map<nat, Product>, orders: seq<(nat, int)>, outbox: seq<Event>,
                           processed: set<nat>, index: map<nat, Product>, tally: Tally)

  ghost predicate Shows(v: Tables, s: State) {
    v == Tables(s.products, s.orders, s.outbox, s.processed, s.index, Tally(s.done, s.board))
  }

  ghost predicate LockedBy(s: State, locked: set<nat>) {
    forall e: nat :: Locked(s, e) <==> e in locked
  }

  function PendingOf(v: Tables, locked: set<nat>): (ids: seq<nat>)
    ensures ValidIds(v.outbox, ids)
  {
    PendingIsBatch(|v.outbox|, v.processed + locked, BATCH_LIMIT);
    Pending(|v.outbox|, v.processed + locked, BATCH_LIMIT)
  }

  function Least(a: nat, b: nat): nat {
    if a < b then a else b
  }

  /** Both requests got through. */
  predicate Delivered(v: Tables, ids: seq<nat>, accepted: nat, executed: nat)
    requires ValidIds(v.outbox, ids)
  {
    accepted >= |DocsOf(v.outbox, ids)| && executed >= |OrdersOf(v.outbox, ids)|
  }

  function AfterBatch(v: Tables, ids: seq<nat>, accepted: nat, executed: nat): Tables
    requires ValidIds(v.outbox, ids)
  {
    var docs, placed := DocsOf(v.outbox, ids), OrdersOf(v.outbox, ids);
    v.(processed := if Delivered(v, ids, accepted, executed) then v.processed + Elements(ids) else v.processed,
       index := PutAll(v.index, docs[..Least(accepted, |docs|)]),
       tally := if accepted < |docs| then v.tally else CountAll(v.tally, v.outbox, placed[..Least(executed, |placed|)]))
  }

  /** The events of a batch that carry documents. */
  function DocIds(outbox: seq<Event>, ids: seq<nat>): seq<nat>
    requires ValidIds(outbox, ids)
  {
    if ids == [] then []
    else
      var before, last := DocIds(outbox, ids[..|ids| - 1]), ids[|ids| - 1];
      if outbox[last].Upserted? then before + [last] else before
  }

  function Sends(r: nat, docs: seq<nat>): seq<Step> {
    if docs == [] then [] else Sends(r, docs[..|docs| - 1]) + [IndexDoc(r, docs[|docs| - 1])]
  }

  function Counts(r: nat, placed: seq<nat>): seq<Step> {
    if placed == [] then [] else Counts(r, placed[..|placed| - 1]) + [CountOrder(r, placed[|placed| - 1])]
  }

  /** Claim, send, count, and commit; or roll back where a request failed. */
  function BatchSteps(v: Tables, r: nat, locked: set<nat>, accepted: nat, executed: nat): seq<Step> {
    var ids := PendingOf(v, locked);
    var docs, placed := DocIds(v.outbox, ids), OrdersOf(v.outbox, ids);
    if ids == [] then []
    else if accepted < |docs| then [Claim(r, Elements(ids))] + Sends(r, docs[..accepted]) + [Rollback(r)]
    else if executed < |placed| then
      [Claim(r, Elements(ids))] + Sends(r, docs) + Counts(r, placed[..executed]) + [Rollback(r)]
    else [Claim(r, Elements(ids))] + Sends(r, docs) + Counts(r, placed) + [Commit(r)]
  }

  lemma {:induction false} RunConcat(s: State, steps: seq<Step>, more: seq<Step>)
    ensures Run(s, steps + more) == Run(Run(s, steps), more)
  {
    hide Next;
    if more == [] {
      assert steps + more == steps;
    } else {
      assert (steps + more)[..|steps + more| - 1] == steps + more[..|more| - 1];
      RunConcat(s, steps, more[..|more| - 1]);
    }
  }

  lemma RunSnoc(s: State, steps: seq<Step>, step: Step)
    ensures Run(s, steps + [step]) == Next(Run(s, steps), step)
  {
    hide Next;
    assert (steps + [step])[..|steps|] == steps;
  }

  ghost predicate AllDocs(outbox: seq<Event>, docs: seq<nat>) {
    forall i :: 0 <= i < |docs| ==> docs[i] < |outbox| && outbox[docs[i]].Upserted?
  }

  ghost predicate AllOrders(outbox: seq<Event>, placed: seq<nat>) {
    forall i :: 0 <= i < |placed| ==> placed[i] < |outbox| && outbox[placed[i]].Ordered?
  }

  lemma {:induction false} DocIdsAre(outbox: seq<Event>, ids: seq<nat>)
    requires ValidIds(outbox, ids)
    ensures AllDocs(outbox, DocIds(outbox, ids)) && DocsOf(outbox, DocIds(outbox, ids)) == DocsOf(outbox, ids)
    ensures forall e: nat :: e in DocIds(outbox, ids) <==> e in ids && outbox[e].Upserted?
    ensures forall e: nat :: e in OrdersOf(outbox, ids) <==> e in ids && outbox[e].Ordered?
  {
    if ids != [] {
      var front, last := ids[..|ids| - 1], ids[|ids| - 1];
      DocIdsAre(outbox, front);
      assert ids == front + [last];
      var before := DocIds(outbox, front);
      assert (before + [last])[..|before|] == before;
    }
  }

  /** Without orders in between, documents correspond to events one to one. */
  lemma {:induction false} DocsPrefix(outbox: seq<Event>, docs: seq<nat>, k: nat)
    requires AllDocs(outbox, docs) && k <= |docs|
    ensures |DocsOf(outbox, docs)| == |docs| && DocsOf(outbox, docs[..k]) == DocsOf(outbox, docs)[..k]
  {
    if docs != [] {
      var front := docs[..|docs| - 1];
      if k == |docs| {
        DocsPrefix(outbox, front, |front|);
        assert docs[..k] == docs;
        assert DocsOf(outbox, docs)[..k] == DocsOf(outbox, docs);
      } else {
        DocsPrefix(outbox, front, k);
        assert docs[..k] == front[..k];
      }
    }
  }

  ghost predicate Claims(s: State, r: nat, ids: seq<nat>) {
    r in s.relays && forall e :: e in ids ==> e in s.relays[r].claimed
  }

  function Applying(s: State, r: nat, ids: seq<nat>): State
    requires r in s.relays
  {
    s.(relays := s.relays[r := s.relays[r].(applied := s.relays[r].applied + Elements(ids))])
  }

  function Elements(ids: seq<nat>): set<nat> {
    set e | e in ids
  }

  lemma ElementsSnoc(ids: seq<nat>, e: nat)
    ensures Elements(ids + [e]) == Elements(ids) + {e} && Elements([]) == {}
  {
  }

  lemma ApplyingNothing(s: State, r: nat)
    requires r in s.relays
    ensures Applying(s, r, []) == s
  {
    assert s.relays[r].applied + Elements([]) == s.relays[r].applied;
  }

  lemma {:induction false} SendsRun(s: State, r: nat, docs: seq<nat>)
    requires AllDocs(s.outbox, docs) && Claims(s, r, docs)
    ensures Run(s, Sends(r, docs)) == Applying(s, r, docs).(index := PutAll(s.index, DocsOf(s.outbox, docs)))
  {
    if docs == [] {
      ApplyingNothing(s, r);
    } else {
      hide Next, PutAll, DocsOf, Applying;
      var front, e := docs[..|docs| - 1], docs[|docs| - 1];
      assert docs == front + [e];
      SendsRun(s, r, front);
      SendOneMore(s, r, front, e, PutAll(s.index, DocsOf(s.outbox, front)));
      PutDocsSnoc(s.index, s.outbox, front, e);
      RunSnoc(s, Sends(r, front), IndexDoc(r, e));
    }
  }

  lemma PutSnoc(index: map<nat, Product>, docs: seq<Product>, d: Product)
    ensures PutAll(index, docs + [d]) == Put(PutAll(index, docs), d)
  {
    assert (docs + [d])[..|docs|] == docs;
  }

  lemma DocsSnoc(outbox: seq<Event>, front: seq<nat>, e: nat)
    requires AllDocs(outbox, front) && AllDocs(outbox, front + [e]) && e < |outbox| && outbox[e].Upserted?
    ensures DocsOf(outbox, front + [e]) == DocsOf(outbox, front) + [outbox[e].doc]
  {
    assert (front + [e])[..|front|] == front && (front + [e])[|front|] == e;
  }

  lemma ApplyingSnoc(s: State, r: nat, front: seq<nat>, e: nat)
    requires r in s.relays
    ensures Applied(Applying(s, r, front), r, e) == Applying(s, r, front + [e])
  {
    ElementsSnoc(front, e);
    hide Elements;
    assert s.relays[r].applied + Elements(front) + {e} == s.relays[r].applied + Elements(front + [e]);
  }

  lemma LastIsClaimed(s: State, r: nat, front: seq<nat>, e: nat)
    requires Claims(s, r, front + [e])
    ensures r in s.relays && e in s.relays[r].claimed
  {
    assert e in front + [e];
  }

  lemma SendOneMore(s: State, r: nat, front: seq<nat>, e: nat, index: map<nat, Product>)
    requires Claims(s, r, front + [e]) && e < |s.outbox| && s.outbox[e].Upserted?
    ensures Next(Applying(s, r, front).(index := index), IndexDoc(r, e)) ==
            Applying(s, r, front + [e]).(index := Put(index, s.outbox[e].doc))
  {
    LastIsClaimed(s, r, front, e);
    ApplyingSnoc(s, r, front, e);
    hide Elements, Put, Claims;
  }

  lemma PutDocsSnoc(index: map<nat, Product>, outbox: seq<Event>, front: seq<nat>, e: nat)
    requires AllDocs(outbox, front) && AllDocs(outbox, front + [e]) && e < |outbox| && outbox[e].Upserted?
    ensures PutAll(index, DocsOf(outbox, front + [e])) == Put(PutAll(index, DocsOf(outbox, front)), outbox[e].doc)
  {
    DocsSnoc(outbox, front, e);
    PutSnoc(index, DocsOf(outbox, front), outbox[e].doc);
  }

  lemma {:induction false} CountsRun(s: State, r: nat, placed: seq<nat>)
    requires AllOrders(s.outbox, placed) && Claims(s, r, placed) && AllDocsSent(s, r)
    ensures var t := CountAll(Tally(s.done, s.board), s.outbox, placed);
            Run(s, Counts(r, placed)) == Applying(s, r, placed).(done := t.done, board := t.board)
  {
    if placed == [] {
      ApplyingNothing(s, r);
    } else {
      hide Next, CountAll, Applying;
      var front, e := placed[..|placed| - 1], placed[|placed| - 1];
      assert placed == front + [e];
      CountsRun(s, r, front);
      CountOneMore(s, r, front, e);
      RunSnoc(s, Counts(r, front), CountOrder(r, e));
    }
  }

  lemma CountSnoc(t: Tally, outbox: seq<Event>, front: seq<nat>, e: nat)
    requires AllOrders(outbox, front) && AllOrders(outbox, front + [e]) && e < |outbox| && outbox[e].Ordered?
    ensures CountAll(t, outbox, front + [e]) == CountOne(CountAll(t, outbox, front), outbox, e)
  {
    assert (front + [e])[..|front|] == front && (front + [e])[|front|] == e;
  }

  lemma CountOneMore(s: State, r: nat, front: seq<nat>, e: nat)
    requires AllOrders(s.outbox, front + [e]) && AllOrders(s.outbox, front)
    requires Claims(s, r, front + [e]) && AllDocsSent(s, r)
    ensures var t := CountAll(Tally(s.done, s.board), s.outbox, front);
            var u := CountAll(Tally(s.done, s.board), s.outbox, front + [e]);
            Next(Applying(s, r, front).(done := t.done, board := t.board), CountOrder(r, e)) ==
              Applying(s, r, front + [e]).(done := u.done, board := u.board)
  {
    assert e < |s.outbox| && s.outbox[e].Ordered? by { assert (front + [e])[|front|] == e; }
    LastIsClaimed(s, r, front, e);
    ApplyingSnoc(s, r, front, e);
    CountSnoc(Tally(s.done, s.board), s.outbox, front, e);
    hide Elements, CountAll, CountOne, Claims;
  }

  lemma {:induction false} SetOfDistinct(ids: seq<nat>)
    requires forall i, j :: 0 <= i < j < |ids| ==> ids[i] < ids[j]
    ensures |Elements(ids)| == |ids|
  {
    if ids != [] {
      var front, last := ids[..|ids| - 1], ids[|ids| - 1];
      SetOfDistinct(front);
      assert ids == front + [last];
      ElementsSnoc(front, last);
    }
  }

  /** The pending list is a batch that the step machine lets the relay claim. */
  lemma PendingClaimable(v: Tables, s: State, locked: set<nat>)
    requires Shows(v, s) && LockedBy(s, locked) && PendingOf(v, locked) != []
    ensures IsBatch(s, Elements(PendingOf(v, locked)))
  {
    var ids := PendingOf(v, locked);
    PendingIsBatch(|v.outbox|, v.processed + locked, BATCH_LIMIT);
    SetOfDistinct(ids);
    hide Pending;
    assert ids[0] in Elements(ids);
    assert forall e: nat :: Claimable(s, e) <==> e < |v.outbox| && e !in v.processed + locked;
  }

  function Claimed(s: State, r: nat, ids: seq<nat>): State {
    s.(relays := s.relays[r := Batch(Elements(ids), {})])
  }

  /** Relay `r` alone has joined, with `ids` claimed and `applied` done. */
  ghost predicate Joined(relays: map<nat, Batch>, relays': map<nat, Batch>, r: nat, ids: seq<nat>, applied: set<nat>) {
    r in relays' && relays' - {r} == relays && relays'[r] == Batch(Elements(ids), applied)
  }

  lemma ClaimRuns(s: State, r: nat, ids: seq<nat>)
    requires IsBatch(s, Elements(ids)) && r !in s.relays
    ensures Run(s, [Claim(r, Elements(ids))]) == Claimed(s, r, ids)
    ensures Joined(s.relays, Claimed(s, r, ids).relays, r, ids, {})
  {
    RunSnoc(s, [], Claim(r, Elements(ids)));
    assert [] + [Claim(r, Elements(ids))] == [Claim(r, Elements(ids))];
  }

  lemma AppliesMore(relays: map<nat, Batch>, s: State, r: nat, ids: seq<nat>, applied: set<nat>, more: seq<nat>)
    requires Joined(relays, s.relays, r, ids, applied)
    ensures Joined(relays, Applying(s, r, more).relays, r, ids, applied + Elements(more))
  {
    hide Elements;
  }

  lemma DocsClaimed(s: State, r: nat, ids: seq<nat>, k: nat)
    requires ValidIds(s.outbox, ids) && k <= |DocIds(s.outbox, ids)|
    ensures |DocsOf(s.outbox, ids)| == |DocIds(s.outbox, ids)|
    ensures var sent := DocIds(s.outbox, ids)[..k];
            && AllDocs(s.outbox, sent) && Claims(Claimed(s, r, ids), r, sent)
            && DocsOf(s.outbox, sent) == DocsOf(s.outbox, ids)[..k]
  {
    hide DocIds, DocsOf;
    var docs := DocIds(s.outbox, ids);
    DocIdsAre(s.outbox, ids);
    DocsPrefix(s.outbox, docs, k);
    assert forall e :: e in docs[..k] ==> e in docs;
  }

  lemma SentAfterClaim(s: State, r: nat, ids: seq<nat>, sent: seq<nat>)
    requires AllDocs(s.outbox, sent)
    ensures var c := Claimed(s, r, ids);
            var index := PutAll(s.index, DocsOf(s.outbox, sent));
            && r in c.relays && c.outbox == s.outbox && c.index == s.index
            && Applying(c, r, sent).(index := index) == s.(relays := Applying(c, r, sent).relays, index := index)
  {
    hide PutAll, DocsOf, Elements;
  }

  /** Sending the first `k` documents of a claimed batch. */
  lemma SendsAfterClaim(s: State, r: nat, ids: seq<nat>, k: nat)
    requires IsBatch(s, Elements(ids)) && r !in s.relays && ValidIds(s.outbox, ids) && k <= |DocIds(s.outbox, ids)|
    ensures |DocsOf(s.outbox, ids)| == |DocIds(s.outbox, ids)|
    ensures var sent := DocIds(s.outbox, ids)[..k];
            var x := Run(s, [Claim(r, Elements(ids))] + Sends(r, sent));
            && x == s.(relays := x.relays, index := PutAll(s.index, DocsOf(s.outbox, ids)[..k]))
            && Joined(s.relays, x.relays, r, ids, Elements(sent))
  {
    hide *;
    var sent, c := DocIds(s.outbox, ids)[..k], Claimed(s, r, ids);
    ClaimRuns(s, r, ids);
    DocsClaimed(s, r, ids, k);
    SentAfterClaim(s, r, ids, sent);
    SendsRun(c, r, sent);
    AppliesMore(s.relays, c, r, ids, {}, sent);
    RunConcat(s, [Claim(r, Elements(ids))], Sends(r, sent));
    assert {} + Elements(sent) == Elements(sent);
  }

  /** With its documents sent, a claimed batch may count its orders. */
  lemma ReadyToCount(s: State, x: State, r: nat, ids: seq<nat>, k: nat)
    requires ValidIds(s.outbox, ids) && k <= |OrdersOf(s.outbox, ids)| && x.outbox == s.outbox
    requires Joined(s.relays, x.relays, r, ids, Elements(DocIds(s.outbox, ids)))
    ensures Claims(x, r, OrdersOf(s.outbox, ids)[..k]) && AllDocsSent(x, r)
  {
    DocIdsAre(s.outbox, ids);
    var placed := OrdersOf(s.outbox, ids);
    assert forall e :: e in placed[..k] ==> e in placed;
  }

  /** Then, with all documents sent, counting the first `k` orders. */
  lemma CountsAfterSends(s: State, r: nat, ids: seq<nat>, k: nat)
    requires IsBatch(s, Elements(ids)) && r !in s.relays && ValidIds(s.outbox, ids) && k <= |OrdersOf(s.outbox, ids)|
    ensures var docs, placed := DocIds(s.outbox, ids), OrdersOf(s.outbox, ids)[..k];
            var t := CountAll(Tally(s.done, s.board), s.outbox, placed);
            var x := Run(s, [Claim(r, Elements(ids))] + Sends(r, docs) + Counts(r, placed));
            && x == s.(relays := x.relays, index := PutAll(s.index, DocsOf(s.outbox, ids)), done := t.done,
                       board := t.board)
            && Joined(s.relays, x.relays, r, ids, Elements(docs) + Elements(placed))
  {
    hide IsBatch, Sends, Counts, PutAll, CountAll, Joined, DocsOf, DocIds, Run, Elements, AllDocsSent, Claims;
    var docs, placed := DocIds(s.outbox, ids), OrdersOf(s.outbox, ids)[..k];
    SendsAfterClaim(s, r, ids, |docs|);
    assert docs[..|docs|] == docs && DocsOf(s.outbox, ids)[..|docs|] == DocsOf(s.outbox, ids);
    var x := Run(s, [Claim(r, Elements(ids))] + Sends(r, docs));
    ReadyToCount(s, x, r, ids, k);
    assert r in x.relays by { JoinedIn(s.relays, x.relays, r, ids, Elements(docs)); }
    CountsRun(x, r, placed);
    AppliesMore(s.relays, x, r, ids, Elements(docs), placed);
    RunConcat(s, [Claim(r, Elements(ids))] + Sends(r, docs), Counts(r, placed));
  }

  lemma JoinedIn(relays: map<nat, Batch>, relays': map<nat, Batch>, r: nat, ids: seq<nat>, applied: set<nat>)
    requires Joined(relays, relays', r, ids, applied)
    ensures r in relays' && relays' - {r} == relays && relays'[r] == Batch(Elements(ids), applied)
  {
  }

  lemma FailedSend(s: State, r: nat, ids: seq<nat>, k: nat)
    requires IsBatch(s, Elements(ids)) && r !in s.relays && ValidIds(s.outbox, ids) && k <= |DocIds(s.outbox, ids)|
    ensures |DocsOf(s.outbox, ids)| == |DocIds(s.outbox, ids)|
    ensures Run(s, [Claim(r, Elements(ids))] + Sends(r, DocIds(s.outbox, ids)[..k]) + [Rollback(r)]) ==
            s.(index := PutAll(s.index, DocsOf(s.outbox, ids)[..k]))
  {
    hide IsBatch, PutAll, Sends, DocsOf, DocIds, Run, Elements;
    SendsAfterClaim(s, r, ids, k);
    RunSnoc(s, [Claim(r, Elements(ids))] + Sends(r, DocIds(s.outbox, ids)[..k]), Rollback(r));
  }

  lemma FailedCount(s: State, r: nat, ids: seq<nat>, k: nat)
    requires IsBatch(s, Elements(ids)) && r !in s.relays && ValidIds(s.outbox, ids) && k <= |OrdersOf(s.outbox, ids)|
    ensures var placed := OrdersOf(s.outbox, ids)[..k];
            var t := CountAll(Tally(s.done, s.board), s.outbox, placed);
            Run(s, [Claim(r, Elements(ids))] + Sends(r, DocIds(s.outbox, ids)) + Counts(r, placed) + [Rollback(r)]) ==
              s.(index := PutAll(s.index, DocsOf(s.outbox, ids)), done := t.done, board := t.board)
  {
    hide IsBatch, PutAll, CountAll, Sends, Counts, DocsOf, DocIds, Run, Elements;
    CountsAfterSends(s, r, ids, k);
    var steps := [Claim(r, Elements(ids))] + Sends(r, DocIds(s.outbox, ids)) + Counts(r, OrdersOf(s.outbox, ids)[..k]);
    RunSnoc(s, steps, Rollback(r));
  }

  /** Every event of a batch is a document or an order. */
  lemma AllApplied(outbox: seq<Event>, ids: seq<nat>)
    requires ValidIds(outbox, ids)
    ensures Elements(ids) <= Elements(DocIds(outbox, ids)) + Elements(OrdersOf(outbox, ids))
  {
    DocIdsAre(outbox, ids);
    forall e | e in Elements(ids) ensures e in DocIds(outbox, ids) || e in OrdersOf(outbox, ids) {
      assert outbox[e].Upserted? || outbox[e].Ordered?;
    }
  }

  lemma CommitNext(relays: map<nat, Batch>, x: State, r: nat, ids: seq<nat>, applied: set<nat>)
    requires Joined(relays, x.relays, r, ids, applied) && Elements(ids) <= applied
    ensures Next(x, Commit(r)) == x.(processed := x.processed + Elements(ids), relays := relays)
  {
  }

  lemma WholeBatch(s: State, r: nat, ids: seq<nat>)
    requires IsBatch(s, Elements(ids)) && r !in s.relays && ValidIds(s.outbox, ids)
    ensures var placed := OrdersOf(s.outbox, ids);
            var t := CountAll(Tally(s.done, s.board), s.outbox, placed);
            Run(s, [Claim(r, Elements(ids))] + Sends(r, DocIds(s.outbox, ids)) + Counts(r, placed) + [Commit(r)]) ==
              s.(processed := s.processed + Elements(ids), index := PutAll(s.index, DocsOf(s.outbox, ids)),
                 done := t.done, board := t.board)
  {
    hide IsBatch, PutAll, CountAll, Sends, Counts, DocsOf, DocIds, Run, Elements, OrdersOf, Next, Joined;
    var docs, placed := DocIds(s.outbox, ids), OrdersOf(s.outbox, ids);
    assert placed[..|placed|] == placed;
    CountsAfterSends(s, r, ids, |placed|);
    var x := Run(s, [Claim(r, Elements(ids))] + Sends(r, docs) + Counts(r, placed));
    RunSnoc(s, [Claim(r, Elements(ids))] + Sends(r, docs) + Counts(r, placed), Commit(r));
    AllApplied(s.outbox, ids);
    CommitNext(s.relays, x, r, ids, Elements(docs) + Elements(placed));
  }

  /** What the steps of a batch leave, in the three ways it can end. */
  lemma BatchRuns(v: Tables, s: State, r: nat, locked: set<nat>, accepted: nat, executed: nat)
    requires Shows(v, s) && LockedBy(s, locked) && r !in s.relays && PendingOf(v, locked) != []
    ensures var after := AfterBatch(v, PendingOf(v, locked), accepted, executed);
            Run(s, BatchSteps(v, r, locked, accepted, executed)) ==
              s.(processed := after.processed, index := after.index, done := after.tally.done,
                 board := after.tally.board)
  {
    hide IsBatch, PutAll, CountAll, Run, LockedBy, PendingOf, DocsOf, DocIds, OrdersOf, Sends, Counts, Elements;
    var ids := PendingOf(v, locked);
    var docs, placed := DocIds(v.outbox, ids), OrdersOf(v.outbox, ids);
    PendingClaimable(v, s, locked);
    FailedSend(s, r, ids, Least(accepted, |docs|));
    if accepted >= |docs| {
      assert DocsOf(v.outbox, ids)[..|docs|] == DocsOf(v.outbox, ids);
      if executed < |placed| {
        FailedCount(s, r, ids, executed);
      } else {
        WholeBatch(s, r, ids);
        assert placed[..|placed|] == placed;
      }
    }
  }

  /** processBatch, alone, is its steps in the step machine: they take every state that the stores show to one that
      they show afterwards, and leave the other relays' locks. */
  lemma BatchRefines(v: Tables, s: State, r: nat, locked: set<nat>, accepted: nat, executed: nat)
    requires Shows(v, s) && LockedBy(s, locked) && r !in s.relays
    ensures var after := Run(s, BatchSteps(v, r, locked, accepted, executed));
            Shows(AfterBatch(v, PendingOf(v, locked), accepted, executed), after) && LockedBy(after, locked)
  {
    if PendingOf(v, locked) == [] {
      NothingToApply(v.index, v.tally, v.outbox);
      assert v.processed + Elements([]) == v.processed;
    } else {
      BatchRuns(v, s, r, locked, accepted, executed);
      var after := Run(s, BatchSteps(v, r, locked, accepted, executed));
      assert after.relays == s.relays;
      assert forall e: nat :: Locked(after, e) <==> Locked(s, e);
    }
  }

  // ---------------------------------------------------------------- a transaction of orders

  function EventsOf(batch: seq<(nat, int)>): seq<Event> {
    if batch == [] then []
    else EventsOf(batch[..|batch| - 1]) + [Ordered(batch[|batch| - 1].0, batch[|batch| - 1].1)]
  }

  lemma {:induction false} EventsAre(batch: seq<(nat, int)>)
    ensures |EventsOf(batch)| == |batch|
    ensures forall i :: 0 <= i < |batch| ==> EventsOf(batch)[i] == Ordered(batch[i].0, batch[i].1)
  {
    if batch != [] { EventsAre(batch[..|batch| - 1]); }
  }

  function Placing(batch: seq<(nat, int)>): seq<Step> {
    if batch == [] then []
    else Placing(batch[..|batch| - 1]) + [PlaceOrder(batch[|batch| - 1].0, batch[|batch| - 1].1)]
  }

  lemma {:induction false} PlacingRuns(s: State, batch: seq<(nat, int)>)
    requires forall i :: 0 <= i < |batch| ==> batch[i].0 in s.products
    ensures Run(s, Placing(batch)) == s.(orders := s.orders + batch, outbox := s.outbox + EventsOf(batch))
  {
    if batch != [] {
      var front, last := batch[..|batch| - 1], batch[|batch| - 1];
      PlacingRuns(s, front);
      RunSnoc(s, Placing(front), PlaceOrder(last.0, last.1));
      assert s.orders + front + [last] == s.orders + batch;
      assert s.outbox + EventsOf(front) + [Ordered(last.0, last.1)] == s.outbox + EventsOf(batch);
    } else {
      assert s.orders + batch == s.orders && s.outbox + EventsOf(batch) == s.outbox;
    }
  }

  // ---------------------------------------------------------------- a whole reindex

  /** One step per document. */
  function Reindexing(j: nat, n: nat): seq<Step> {
    if n == 0 then [] else Reindexing(j, n - 1) + [ReindexDoc(j)]
  }

  lemma ReindexNext(s: State, j: nat, docs: seq<Product>, n: nat)
    requires j in s.jobs && 0 < n <= |docs|
    ensures var before := s.(index := PutAll(s.index, docs[..n - 1]), jobs := s.jobs[j := docs[n - 1..]]);
            Next(before, ReindexDoc(j)) == s.(index := PutAll(s.index, docs[..n]), jobs := s.jobs[j := docs[n..]])
  {
    assert docs[..n] == docs[..n - 1] + [docs[n - 1]];
    PutSnoc(s.index, docs[..n - 1], docs[n - 1]);
    assert docs[n - 1..][1..] == docs[n..] && docs[n - 1..][0] == docs[n - 1];
    hide PutAll, Put;
  }

  lemma {:induction false} ReindexingRuns(s: State, j: nat, docs: seq<Product>, n: nat)
    requires j in s.jobs && s.jobs[j] == docs && n <= |docs|
    ensures Run(s, Reindexing(j, n)) == s.(index := PutAll(s.index, docs[..n]), jobs := s.jobs[j := docs[n..]])
  {
    if n == 0 {
      assert docs[..0] == [] && docs[0..] == docs && s.jobs[j := docs] == s.jobs;
    } else {
      ReindexingRuns(s, j, docs, n - 1);
      RunSnoc(s, Reindexing(j, n - 1), ReindexDoc(j));
      ReindexNext(s, j, docs, n);
    }
    hide Next, PutAll;
  }

  lemma StartNext(s: State, j: nat, docs: seq<Product>)
    requires j !in s.jobs && IsSelectAll(s, docs)
    ensures Run(s, [StartReindex(j, docs)]) == s.(jobs := s.jobs[j := docs], rebuildDue := false)
  {
    RunSnoc(s, [], StartReindex(j, docs));
    assert [] + [StartReindex(j, docs)] == [StartReindex(j, docs)];
  }

  /** A reindex with nobody in between sends every row of the products table and leaves nothing due: afterwards the
      index has every product, at the table's version at least. */
  lemma ReindexCovers(s: State, j: nat, docs: seq<Product>, id: nat)
    requires j !in s.jobs && IsSelectAll(s, docs) && (id in s.products ==> s.products[id].id == id)
    ensures var s' := Run(s, [StartReindex(j, docs)] + Reindexing(j, |docs|));
            && !s'.rebuildDue && j in s'.jobs && s'.jobs[j] == [] && s'.products == s.products
            && (id in s.products ==> id in s'.index && s.products[id].version <= s'.index[id].version)
  {
    hide Run, Reindexing, PutAll;
    StartNext(s, j, docs);
    var s1 := s.(jobs := s.jobs[j := docs], rebuildDue := false);
    RunConcat(s, [StartReindex(j, docs)], Reindexing(j, |docs|));
    ReindexingRuns(s1, j, docs, |docs|);
    assert docs[..|docs|] == docs && docs[|docs|..] == [];
    if id in s.products {
      var k :| 0 <= k < |docs| && docs[k] == s.products[id];
      PutAllCovers(s.index, docs, k);
    }
  }

  class Stores {
    var products: map<nat, Product>
    var orders: seq<(nat, int)>
    var outbox: seq<Event>
    var processed: set<nat>
    var index: map<nat, Product>
    var tally: Tally

    constructor ()
      ensures products == map[] && orders == [] && outbox == [] && processed == {}
      ensures index == map[] && tally == Tally({}, map[])
    {
      products, orders, outbox, processed, index, tally := map[], [], [], {}, map[], Tally({}, map[]);
    }

    ghost function Sees(): Tables
      reads this
    {
      Tables(products, orders, outbox, processed, index, tally)
    }

    /** The new row and its event commit together, or neither does; a step of the step machine. */
    method UpdateProduct(id: nat, body: string) returns (ok: bool)
      modifies `products, `outbox
      ensures ok <==> id in old(products)
      ensures ok ==>
                var d := Product(id, body, old(products)[id].version + 1);
                products == old(products)[id := d] && outbox == old(outbox) + [Upserted(d)]
      ensures !ok ==> products == old(products) && outbox == old(outbox)
      ensures forall s: State :: Shows(old(Sees()), s) ==> Shows(Sees(), Next(s, Step.UpdateProduct(id, body)))
    {
      ok := id in products;
      if ok {
        var d := Product(id, body, products[id].version + 1);
        products := products[id := d];
        outbox := outbox + [Upserted(d)];
      }
    }

    /** A transaction of orders, each with its event; an unknown product undoes them all. Otherwise it is a step of
        the step machine for each. */
    method PlaceOrders(batch: seq<(nat, int)>) returns (ok: bool)
      modifies `orders, `outbox
      ensures ok <==> forall i :: 0 <= i < |batch| ==> batch[i].0 in products
      ensures ok ==> orders == old(orders) + batch && |outbox| == |old(outbox)| + |batch|
                     && outbox[..|old(outbox)|] == old(outbox)
                     && forall i :: 0 <= i < |batch| ==> outbox[|old(outbox)| + i] == Ordered(batch[i].0, batch[i].1)
      ensures !ok ==> orders == old(orders) && outbox == old(outbox)
      ensures ok ==> forall s: State :: Shows(old(Sees()), s) ==> Shows(Sees(), Run(s, Placing(batch)))
    {
      var orders0, outbox0 := orders, outbox;
      for i := 0 to |batch|
        invariant orders == old(orders) + batch[..i] && outbox == old(outbox) + EventsOf(batch[..i])
        invariant forall k :: 0 <= k < i ==> batch[k].0 in products
      {
        if batch[i].0 !in products {
          orders, outbox := orders0, outbox0;
          return false;
        }
        assert batch[..i + 1][..i] == batch[..i];
        orders := orders + [batch[i]];
        outbox := outbox + [Ordered(batch[i].0, batch[i].1)];
      }
      assert batch[..|batch|] == batch;
      EventsAre(batch);
      forall s: State | Shows(old(Sees()), s) ensures Shows(Sees(), Run(s, Placing(batch))) {
        PlacingRuns(s, batch);
      }
      ok := true;
    }

    /** The request reaches Elasticsearch up to its `accepted`-th document. */
    method BulkIndex(docs: seq<Product>, accepted: nat) returns (ok: bool)
      modifies `index
      ensures ok <==> accepted >= |docs|
      ensures index == PutAll(old(index), docs[..if ok then |docs| else accepted])
    {
      ok := accepted >= |docs|;
      var n := if ok then |docs| else accepted;
      for k := 0 to n
        invariant index == PutAll(old(index), docs[..k])
      {
        assert docs[..k + 1][..k] == docs[..k];
        var d := docs[k];
        if d.id !in index || index[d.id].version < d.version {
          index := index[d.id := d];
        }
      }
    }

    method IncrOnce(e: nat)
      requires e < |outbox| && outbox[e].Ordered?
      modifies `tally
      ensures tally == CountOne(old(tally), outbox, e)
      ensures forall p: nat :: Score(tally.board, p) ==
                Score(old(tally.board), p)
                + if e !in old(tally.done) && p == outbox[e].product then outbox[e].qty else 0
    {
      if e !in tally.done {
        var p := outbox[e].product;
        tally := Tally(tally.done + {e}, tally.board[p := Score(tally.board, p) + outbox[e].qty]);
      }
    }

    /** SELECT .. WHERE processed_at IS NULL ORDER BY id LIMIT 500 FOR UPDATE SKIP LOCKED. */
    method SelectBatch(locked: set<nat>) returns (ids: seq<nat>)
      ensures ids == Pending(|outbox|, processed + locked, BATCH_LIMIT) && ValidIds(outbox, ids)
    {
      ids := [];
      for e := 0 to |outbox|
        invariant ids == Pending(e, processed + locked, BATCH_LIMIT) && ValidIds(outbox, ids)
      {
        if e !in processed && e !in locked && |ids| != BATCH_LIMIT {
          ids := ids + [e];
        }
      }
    }

    /** The loop over the batch: the documents for the bulk request and the orders for the pipeline. */
    method Collect(ids: seq<nat>) returns (docs: seq<Product>, placed: seq<nat>)
      requires ValidIds(outbox, ids)
      ensures docs == DocsOf(outbox, ids) && placed == OrdersOf(outbox, ids)
    {
      docs, placed := [], [];
      for k := 0 to |ids|
        invariant docs == DocsOf(outbox, ids[..k]) && placed == OrdersOf(outbox, ids[..k])
      {
        assert ids[..k + 1][..k] == ids[..k];
        match outbox[ids[k]]
        case Upserted(d) => docs := docs + [d];
        case Ordered(_, _) => placed := placed + [ids[k]];
      }
      assert ids[..|ids|] == ids;
    }

    method RunPipeline(placed: seq<nat>, executed: nat) returns (ok: bool)
      requires forall i :: 0 <= i < |placed| ==> placed[i] < |outbox| && outbox[placed[i]].Ordered?
      modifies `tally
      ensures ok <==> executed >= |placed|
      ensures tally == CountAll(old(tally), outbox, placed[..if ok then |placed| else executed])
    {
      ok := executed >= |placed|;
      var n := if ok then |placed| else executed;
      for k := 0 to n
        invariant tally == CountAll(old(tally), outbox, placed[..k])
      {
        assert placed[..k + 1][..k] == placed[..k];
        IncrOnce(placed[k]);
      }
    }

    /** processBatch, while other relays hold the events in `locked`. On success the whole batch is applied and
        marked; on failure nothing is marked, and the effects are a prefix of the documents, then a prefix of the
        orders. In terms of the step machine it is one relay's steps from its claim to its commit or rollback. */
    method ProcessBatch(locked: set<nat>, accepted: nat, executed: nat) returns (n: nat, ok: bool)
      modifies this
      ensures var ids := PendingOf(old(Sees()), locked);
              && (ok <==> Delivered(old(Sees()), ids, accepted, executed))
              && n == (if ok then |ids| else 0)
      ensures Sees() == AfterBatch(old(Sees()), PendingOf(old(Sees()), locked), accepted, executed)
      ensures forall s: State, r: nat :: Shows(old(Sees()), s) && LockedBy(s, locked) && r !in s.relays ==>
                var after := Run(s, BatchSteps(old(Sees()), r, locked, accepted, executed));
                Shows(Sees(), after) && LockedBy(after, locked)
    {
      forall s: State, r: nat | Shows(Sees(), s) && LockedBy(s, locked) && r !in s.relays
        ensures var after := Run(s, BatchSteps(Sees(), r, locked, accepted, executed));
                && Shows(AfterBatch(Sees(), PendingOf(Sees(), locked), accepted, executed), after)
                && LockedBy(after, locked)
      {
        BatchRefines(Sees(), s, r, locked, accepted, executed);
      }
      hide Shows, LockedBy, PutAll, CountAll, Pending, DocsOf, OrdersOf;
      var ids := SelectBatch(locked);
      var docs, placed := Collect(ids);
      n, ok := 0, true;
      if ids == [] {
        NothingToApply(index, tally, outbox);
        return;
      }
      ok := BulkIndex(docs, accepted);
      if !ok { return; }
      ok := RunPipeline(placed, executed);
      if !ok { return; }
      n := |ids|;
      processed := processed + set e | e in ids;
    }
  }
}
