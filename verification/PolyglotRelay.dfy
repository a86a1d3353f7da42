/** Polyglot persistence: the app writes products and orders to PostgreSQL together with an outbox event, and
    any number of relays apply the events to Elasticsearch (external versions) and to a Redis leaderboard
    (dedupe keys), at least once each. A relay can stop or roll back after any part of its effects, batches
    overtake each other, and the search index can be dropped and rebuilt while all of this goes on.

    Every committed transaction, indexed document and Redis script is one step; a step whose guard fails
    leaves the state alone. The dedupe keys' expiry (86400 s) is taken to be later than any redelivery. */
module PolyglotRelay {
  import opened Basics

  datatype Product = Product(id: nat, body: string, version: nat)
  datatype Event = Upserted(doc: Product) | Ordered(product: nat, qty: int)

  /** One processBatch transaction in flight: the event ids it locked, and those whose effect it has applied. */
  datatype Batch = Batch(claimed: set<nat>, applied: set<nat>)

  /** `outbox` is append-only, an event's id is its position, and `processed` the ids with a processed_at.
      `jobs` are reindex runs in flight with the documents they still have to send, and `rebuildDue` says that
      the index was dropped, or a reindex given up, with no new reindex begun since. */
  datatype State = State(
    products: map<nat, Product>,
    orders: seq<(nat, int)>,
    outbox: seq<Event>,
    processed: set<nat>,
    relays: map<nat, Batch>,
    index: map<nat, Product>,
    jobs: map<nat, seq<Product>>,
    rebuildDue: bool,
    done: set<nat>,
    board: map<nat, int>)

  datatype Step =
    | CreateProduct(id: nat, body: string)
    | UpdateProduct(id: nat, body: string)
    | PlaceOrder(product: nat, qty: int)
    | Claim(r: nat, ids: set<nat>)
    | IndexDoc(r: nat, e: nat)
    | CountOrder(r: nat, e: nat)
    | Commit(r: nat)
    | Rollback(r: nat)
    | DropIndex
    | StartReindex(j: nat, docs: seq<Product>)
    | ReindexDoc(j: nat)
    | GiveUpReindex(j: nat)

  const BATCH_LIMIT: nat := 500

  const INIT := State(map[], [], [], {}, map[], map[], map[], false, {}, map[])

  // ---------------------------------------------------------------- appliers

  /** External versioning: a document is kept only if its version is higher than the stored one. */
  function Put(index: map<nat, Product>, d: Product): map<nat, Product> {
    if d.id in index && d.version <= index[d.id].version then index else index[d.id := d]
  }

  function Score(board: map<nat, int>, p: nat): int {
    if p in board then board[p] else 0
  }

  /** The dedupe keys and the sorted set. */
  datatype Tally = Tally(done: set<nat>, board: map<nat, int>)

  /** incrOnce: SET NX of the event's key and ZINCRBY, atomically. */
  function CountOne(t: Tally, outbox: seq<Event>, e: nat): Tally
    requires e < |outbox| && outbox[e].Ordered?
  {
    if e in t.done then t
    else Tally(t.done + {e}, t.board[outbox[e].product := Score(t.board, outbox[e].product) + outbox[e].qty])
  }

  // ---------------------------------------------------------------- steps

  predicate Locked(s: State, e: nat) {
    exists r: nat :: r in s.relays && e in s.relays[r].claimed
  }

  predicate Claimable(s: State, e: nat) {
    e < |s.outbox| && e !in s.processed && !Locked(s, e)
  }

  /** ORDER BY id LIMIT 500 FOR UPDATE SKIP LOCKED. */
  ghost predicate IsBatch(s: State, ids: set<nat>) {
    && ids != {} && |ids| <= BATCH_LIMIT
    && (forall e: nat :: e in ids ==> Claimable(s, e))
    && (forall e: nat :: Claimable(s, e) && e !in ids ==> |ids| == BATCH_LIMIT && forall i: nat :: i in ids ==> i < e)
  }

  predicate HasDoc(s: State, r: nat, e: nat) {
    r in s.relays && e in s.relays[r].claimed && e < |s.outbox| && s.outbox[e].Upserted?
  }

  predicate HasOrder(s: State, r: nat, e: nat) {
    r in s.relays && e in s.relays[r].claimed && e < |s.outbox| && s.outbox[e].Ordered?
  }

  /** The bulk request goes out before the Redis pipeline. */
  predicate AllDocsSent(s: State, r: nat) {
    r in s.relays && forall e: nat :: e in s.relays[r].claimed && HasDoc(s, r, e) ==> e in s.relays[r].applied
  }

  function Applied(s: State, r: nat, e: nat): State
    requires r in s.relays
  {
    s.(relays := s.relays[r := s.relays[r].(applied := s.relays[r].applied + {e})])
  }

  ghost function Next(s: State, step: Step): State {
    match step
    case CreateProduct(id, body) =>
      if id in s.products then s else WithDoc(s, Product(id, body, 1))
    case UpdateProduct(id, body) =>
      if id !in s.products then s else WithDoc(s, Product(id, body, s.products[id].version + 1))
    case PlaceOrder(product, qty) =>
      if product !in s.products then s
      else Emit(s, s.products, s.orders + [(product, qty)], Ordered(product, qty))
    case Claim(r, ids) =>
      if r in s.relays || !IsBatch(s, ids) then s else s.(relays := s.relays[r := Batch(ids, {})])
    case IndexDoc(r, e) =>
      if !HasDoc(s, r, e) then s else SendDoc(s, r, e)
    case CountOrder(r, e) =>
      if !HasOrder(s, r, e) || !AllDocsSent(s, r) then s else Count(Applied(s, r, e), e)
    case Commit(r) =>
      if r !in s.relays || !(s.relays[r].claimed <= s.relays[r].applied) then s else CommitBatch(s, r)
    case Rollback(r) => s.(relays := s.relays - {r})
    case DropIndex => s.(index := map[], rebuildDue := true)
    case StartReindex(j, docs) =>
      if j in s.jobs || !IsSelectAll(s, docs) then s else s.(jobs := s.jobs[j := docs], rebuildDue := false)
    case ReindexDoc(j) =>
      if j !in s.jobs || s.jobs[j] == [] then s else SendJobDoc(s, j)
    case GiveUpReindex(j) =>
      if j !in s.jobs then s else EndJob(s, j)
  }

  function Emit(s: State, products: map<nat, Product>, orders: seq<(nat, int)>, ev: Event): State {
    s.(products := products, orders := orders, outbox := s.outbox + [ev])
  }

  /** The product row and its event are written in one transaction. */
  function WithDoc(s: State, d: Product): State {
    Emit(s, s.products[d.id := d], s.orders, Upserted(d))
  }

  function SendDoc(s: State, r: nat, e: nat): State
    requires HasDoc(s, r, e)
  {
    Applied(s, r, e).(index := Put(s.index, s.outbox[e].doc))
  }

  function CommitBatch(s: State, r: nat): State
    requires r in s.relays
  {
    s.(processed := s.processed + s.relays[r].claimed, relays := s.relays - {r})
  }

  function SendJobDoc(s: State, j: nat): State
    requires j in s.jobs && s.jobs[j] != []
  {
    s.(index := Put(s.index, s.jobs[j][0]), jobs := s.jobs[j := s.jobs[j][1..]])
  }

  /** A reindex run ends; if documents were left to send, another one is due. */
  function EndJob(s: State, j: nat): State
    requires j in s.jobs
  {
    s.(jobs := s.jobs - {j}, rebuildDue := s.rebuildDue || s.jobs[j] != [])
  }

  function Count(s: State, e: nat): State
    requires e < |s.outbox| && s.outbox[e].Ordered?
  {
    var t := CountOne(Tally(s.done, s.board), s.outbox, e);
    s.(done := t.done, board := t.board)
  }

  /** The rows a SELECT of the whole products table returns, in any order. */
  predicate IsSelectAll(s: State, docs: seq<Product>) {
    && (forall id: nat :: id in s.products ==> s.products[id] in docs)
    && (forall d :: d in docs ==> d.id in s.products && s.products[d.id] == d)
  }

  ghost function Run(s: State, steps: seq<Step>): State {
    if steps == [] then s
    else Next(Run(s, steps[..|steps| - 1]), steps[|steps| - 1])
  }

  // ---------------------------------------------------------------- what a run must keep

  type Docs = map<nat, Product>

  /** `d` is a version of a product that some transaction committed. */
  ghost predicate Committed(outbox: seq<Event>, d: Product) {
    Upserted(d) in outbox
  }

  /** The table is the newest committed version of every product, and versions identify documents. */
  ghost predicate TableInv(products: Docs, outbox: seq<Event>) {
    && (forall d :: Committed(outbox, d) ==> d.id in products && d.version <= products[d.id].version)
    && (forall d, e :: Committed(outbox, d) && Committed(outbox, e) && d.id == e.id && d.version == e.version ==>
        d == e)
    && (forall id: nat :: id in products ==> products[id].id == id && Committed(outbox, products[id]))
  }

  ghost predicate IndexInv(index: Docs, outbox: seq<Event>) {
    forall id: nat :: id in index ==> index[id].id == id && Committed(outbox, index[id])
  }

  ghost predicate JobsInv(jobs: map<nat, seq<Product>>, outbox: seq<Event>) {
    forall j: nat, d :: j in jobs && d in jobs[j] ==> Committed(outbox, d)
  }

  predicate Current(products: Docs, d: Product) {
    d.id in products && products[d.id] == d
  }

  /** The index has `d`, or a reindex will still send it, or a reindex is due. */
  ghost predicate Safe(s: State, d: Product) {
    s.rebuildDue || Current(s.index, d) || (exists j: nat :: j in s.jobs && d in s.jobs[j])
  }

  ghost predicate Waiting(outbox: seq<Event>, processed: set<nat>, d: Product) {
    exists e: nat :: e < |outbox| && e !in processed && outbox[e] == Upserted(d)
  }

  ghost predicate SyncInv(s: State) {
    forall d :: Current(s.products, d) ==> Safe(s, d) || Waiting(s.outbox, s.processed, d)
  }

  /** Relay `r` has applied the effect of event `e` and may still roll back. */
  predicate Sent(s: State, r: nat, e: nat) {
    r in s.relays && e in s.relays[r].applied
  }

  ghost predicate AppliedSafe(s: State) {
    forall r: nat, e: nat :: Sent(s, r, e) ==>
      e < |s.outbox| && (s.outbox[e].Upserted? && Current(s.products, s.outbox[e].doc) ==> Safe(s, s.outbox[e].doc))
  }

  ghost predicate IdsInv(s: State) {
    && (forall e: nat :: e in s.processed ==> e < |s.outbox|)
    && (forall r: nat, e: nat :: r in s.relays && e in s.relays[r].claimed ==> e < |s.outbox|)
  }

  ghost predicate SearchInv(s: State) {
    && TableInv(s.products, s.outbox) && IndexInv(s.index, s.outbox) && JobsInv(s.jobs, s.outbox)
    && SyncInv(s) && AppliedSafe(s) && IdsInv(s)
  }

  /** Units of `p` over the order events in `ids`. */
  function Units(outbox: seq<Event>, ids: set<nat>, p: nat): int {
    if outbox == [] then 0
    else
      var e := |outbox| - 1;
      Units(outbox[..e], ids, p) + if e in ids && outbox[e].Ordered? && outbox[e].product == p then outbox[e].qty else 0
  }

  /** SELECT sum(qty) FROM orders WHERE product_id = p. */
  function Sold(orders: seq<(nat, int)>, p: nat): int {
    if orders == [] then 0
    else
      var last := orders[|orders| - 1];
      Sold(orders[..|orders| - 1], p) + if last.0 == p then last.1 else 0
  }

  /** Units of `p` over all order events. */
  function AllUnits(outbox: seq<Event>, p: nat): int {
    if outbox == [] then 0
    else
      var last := outbox[|outbox| - 1];
      AllUnits(outbox[..|outbox| - 1], p) + if last.Ordered? && last.product == p then last.qty else 0
  }

  ghost predicate BoardInv(s: State) {
    && (forall e: nat :: e in s.done ==> e < |s.outbox|)
    && (forall p: nat :: Score(s.board, p) == Units(s.outbox, s.done, p))
    && (forall p: nat :: Sold(s.orders, p) == AllUnits(s.outbox, p))
  }

  /** What was applied or processed was counted. */
  ghost predicate CountedInv(s: State) {
    && (forall e: nat :: e in s.processed && e < |s.outbox| && s.outbox[e].Ordered? ==> e in s.done)
    && (forall r: nat, e: nat :: Sent(s, r, e) && e < |s.outbox| && s.outbox[e].Ordered? ==> e in s.done)
  }

  ghost predicate Inv(s: State) {
    SearchInv(s) && BoardInv(s) && CountedInv(s)
  }

  // ---------------------------------------------------------------- the search index

  lemma CommittedSnoc(outbox: seq<Event>, ev: Event)
    ensures forall d :: Committed(outbox + [ev], d) <==> Committed(outbox, d) || ev == Upserted(d)
  {
    forall d ensures Committed(outbox + [ev], d) <==> Committed(outbox, d) || ev == Upserted(d) {
      assert Upserted(d) in outbox + [ev] <==> Upserted(d) in outbox || Upserted(d) in [ev];
    }
  }

  lemma WaitingSnoc(outbox: seq<Event>, processed: set<nat>, ev: Event, d: Product)
    requires forall e: nat :: e in processed ==> e < |outbox|
    ensures Waiting(outbox, processed, d) || ev == Upserted(d) ==> Waiting(outbox + [ev], processed, d)
  {
    var after := outbox + [ev];
    if Waiting(outbox, processed, d) {
      var e: nat :| e < |outbox| && e !in processed && outbox[e] == Upserted(d);
      assert after[e] == Upserted(d);
    } else if ev == Upserted(d) {
      assert after[|outbox|] == ev;
    }
  }

  /** A transaction that adds an event either leaves the products alone or writes the event's next version. */
  ghost predicate Consistent(products: Docs, products': Docs, ev: Event) {
    match ev
    case Ordered(_, _) => products' == products
    case Upserted(d) => products' == products[d.id := d] && (d.id in products ==> products[d.id].version < d.version)
  }

  lemma EmitKeepsTable(products: Docs, outbox: seq<Event>, products': Docs, ev: Event)
    requires TableInv(products, outbox) && Consistent(products, products', ev)
    ensures TableInv(products', outbox + [ev])
  {
    CommittedSnoc(outbox, ev);
    if ev.Upserted? {
      assert forall d :: Committed(outbox, d) && d.id == ev.doc.id ==> d.version < ev.doc.version;
    }
  }

  lemma EmitKeepsSync(s: State, products: Docs, orders: seq<(nat, int)>, ev: Event)
    requires SearchInv(s) && Consistent(s.products, products, ev)
    ensures SyncInv(Emit(s, products, orders, ev))
  {
    var s' := Emit(s, products, orders, ev);
    forall d | Current(products, d) ensures Safe(s', d) || Waiting(s'.outbox, s'.processed, d) {
      WaitingSnoc(s.outbox, s.processed, ev, d);
      assert ev != Upserted(d) ==> Current(s.products, d);
      assert Safe(s, d) ==> Safe(s', d);
    }
  }

  lemma EmitKeepsApplied(s: State, products: Docs, orders: seq<(nat, int)>, ev: Event)
    requires SearchInv(s) && Consistent(s.products, products, ev)
    ensures AppliedSafe(Emit(s, products, orders, ev))
  {
    var s' := Emit(s, products, orders, ev);
    forall r: nat, e: nat | Sent(s', r, e)
      ensures e < |s'.outbox|
              && (s'.outbox[e].Upserted? && Current(products, s'.outbox[e].doc) ==> Safe(s', s'.outbox[e].doc))
    {
      assert Sent(s, r, e);
      assert s'.outbox[e] == s.outbox[e];
      if s.outbox[e].Upserted? {
        var d := s.outbox[e].doc;
        assert Committed(s.outbox, d);
        assert Current(products, d) ==> Current(s.products, d);
        assert Safe(s, d) ==> Safe(s', d);
      }
    }
  }

  lemma EmitKeepsSearch(s: State, products: Docs, orders: seq<(nat, int)>, ev: Event)
    requires SearchInv(s) && Consistent(s.products, products, ev)
    ensures SearchInv(Emit(s, products, orders, ev))
  {
    EmitKeepsTable(s.products, s.outbox, products, ev);
    CommittedSnoc(s.outbox, ev);
    EmitKeepsSync(s, products, orders, ev);
    EmitKeepsApplied(s, products, orders, ev);
  }

  /** Storing any committed document never displaces the newest version of a product. */
  lemma PutKeepsCurrent(products: Docs, outbox: seq<Event>, index: Docs, x: Product, d: Product)
    requires TableInv(products, outbox) && IndexInv(index, outbox) && Committed(outbox, x)
    requires Current(products, d)
    ensures Current(index, d) || x == d ==> Current(Put(index, x), d)
  {
    if x == d && d.id in index {
      assert Committed(outbox, index[d.id]);
    }
  }

  /** Steps that write neither tables nor outbox: it is enough that safe documents stay safe and that newly
      applied ones are safe. */
  lemma KeepsSearch(s: State, s': State)
    requires SearchInv(s) && IdsInv(s')
    requires s'.products == s.products && s'.outbox == s.outbox && s'.processed == s.processed
    requires IndexInv(s'.index, s.outbox) && JobsInv(s'.jobs, s.outbox)
    requires forall d :: Current(s.products, d) && Safe(s, d) ==> Safe(s', d)
    requires forall r: nat, e: nat :: Sent(s', r, e) ==>
               Sent(s, r, e) || (e < |s.outbox| && (s.outbox[e].Upserted? ==> Safe(s', s.outbox[e].doc)))
               || (e < |s.outbox| && s.outbox[e].Upserted? && !Current(s.products, s.outbox[e].doc))
    ensures SearchInv(s')
  {
    forall r: nat, e: nat | Sent(s', r, e)
      ensures e < |s'.outbox|
              && (s'.outbox[e].Upserted? && Current(s'.products, s'.outbox[e].doc) ==> Safe(s', s'.outbox[e].doc))
    {
      if Sent(s, r, e) { assert e < |s.outbox|; }
    }
    assert SyncInv(s');
  }

  lemma SendDocSafe(s: State, r: nat, e: nat, d: Product)
    requires TableInv(s.products, s.outbox) && IndexInv(s.index, s.outbox) && HasDoc(s, r, e) && Current(s.products, d)
    ensures Safe(s, d) || s.outbox[e].doc == d ==> Safe(SendDoc(s, r, e), d)
  {
    assert Committed(s.outbox, s.outbox[e].doc);
    PutKeepsCurrent(s.products, s.outbox, s.index, s.outbox[e].doc, d);
  }

  lemma SendDocKeeps(s: State, r: nat, e: nat)
    requires SearchInv(s) && HasDoc(s, r, e)
    ensures SearchInv(SendDoc(s, r, e))
  {
    var s' := SendDoc(s, r, e);
    assert Committed(s.outbox, s.outbox[e].doc);
    PutKeepsIndex(s.outbox, s.index, s.outbox[e].doc);
    hide Committed, Safe, TableInv, SyncInv, AppliedSafe, IndexInv, JobsInv;
    forall d | Current(s.products, d)
      ensures Safe(s, d) || s.outbox[e].doc == d ==> Safe(s', d)
    {
      SendDocSafe(s, r, e, d);
    }
    SendDocSent(s, r, e);
    KeepsSearch(s, s');
  }

  lemma SendDocSent(s: State, r: nat, e: nat)
    requires HasDoc(s, r, e)
    ensures forall q: nat, f: nat :: Sent(SendDoc(s, r, e), q, f) ==> Sent(s, q, f) || f == e
  {
  }

  lemma SendJobDocSafe(s: State, j: nat, d: Product)
    requires TableInv(s.products, s.outbox) && IndexInv(s.index, s.outbox) && JobsInv(s.jobs, s.outbox)
    requires j in s.jobs && s.jobs[j] != [] && Current(s.products, d) && Safe(s, d)
    ensures Safe(SendJobDoc(s, j), d)
  {
    var s' := SendJobDoc(s, j);
    var x := s.jobs[j][0];
    assert Committed(s.outbox, x) by { assert x in s.jobs[j]; }
    PutKeepsCurrent(s.products, s.outbox, s.index, x, d);
    if i: nat :| i in s.jobs && d in s.jobs[i] {
      assert s.jobs[j] == [x] + s.jobs[j][1..];
      assert d == x || d in s'.jobs[i];
    }
  }

  lemma SendJobDocKeeps(s: State, j: nat)
    requires SearchInv(s) && j in s.jobs && s.jobs[j] != []
    ensures SearchInv(SendJobDoc(s, j))
  {
    var s' := SendJobDoc(s, j);
    var x := s.jobs[j][0];
    assert Committed(s.outbox, x) by { assert x in s.jobs[j]; }
    PutKeepsIndex(s.outbox, s.index, x);
    forall d | Current(s.products, d) && Safe(s, d) ensures Safe(s', d) {
      SendJobDocSafe(s, j, d);
    }
    assert forall q: nat, f: nat :: Sent(s', q, f) ==> Sent(s, q, f);
    KeepsSearch(s, s');
  }

  lemma DropKeeps(s: State)
    requires SearchInv(s)
    ensures SearchInv(Next(s, DropIndex))
  {
    var s' := Next(s, DropIndex);
    assert forall q: nat, f: nat :: Sent(s', q, f) ==> Sent(s, q, f);
    KeepsSearch(s, s');
  }

  lemma StartReindexKeeps(s: State, j: nat, docs: seq<Product>)
    requires SearchInv(s) && IsSelectAll(s, docs)
    ensures SearchInv(s.(jobs := s.jobs[j := docs], rebuildDue := false))
  {
    var s' := s.(jobs := s.jobs[j := docs], rebuildDue := false);
    assert forall d :: d in docs ==> Committed(s.outbox, d);
    forall d | Current(s.products, d) ensures Safe(s', d) {
      assert j in s'.jobs && d in s'.jobs[j];
    }
    assert forall q: nat, f: nat :: Sent(s', q, f) ==> Sent(s, q, f);
    KeepsSearch(s, s');
  }

  lemma EndJobKeeps(s: State, j: nat)
    requires SearchInv(s) && j in s.jobs
    ensures SearchInv(EndJob(s, j))
  {
    var s' := EndJob(s, j);
    forall d | Current(s.products, d) && Safe(s, d) ensures Safe(s', d) {
      if i: nat :| i in s.jobs && d in s.jobs[i] {
        assert s'.rebuildDue || (i in s'.jobs && d in s'.jobs[i]);
      }
    }
    assert forall q: nat, f: nat :: Sent(s', q, f) ==> Sent(s, q, f);
    KeepsSearch(s, s');
  }

  lemma ClaimKeeps(s: State, s': State)
    requires SearchInv(s) && IdsInv(s')
    requires s' == s.(relays := s'.relays, done := s'.done, board := s'.board)
    requires forall q: nat, f: nat :: Sent(s', q, f) ==> Sent(s, q, f) || (f < |s.outbox| && s.outbox[f].Ordered?)
    ensures SearchInv(s')
  {
    assert forall d :: Safe(s, d) ==> Safe(s', d);
    KeepsSearch(s, s');
  }

  /** What a relay marks as processed it has applied, so the newest version is safe before the event goes. */
  lemma CommitKeeps(s: State, r: nat)
    requires SearchInv(s) && r in s.relays && s.relays[r].claimed <= s.relays[r].applied
    ensures SearchInv(CommitBatch(s, r))
  {
    var s' := CommitBatch(s, r);
    forall d | Current(s.products, d) ensures Safe(s', d) || Waiting(s'.outbox, s'.processed, d) {
      if Waiting(s.outbox, s.processed, d) {
        var e: nat :| e < |s.outbox| && e !in s.processed && s.outbox[e] == Upserted(d);
        if e in s.relays[r].claimed {
          assert Sent(s, r, e);
          assert Safe(s, d);
        } else {
          assert e !in s'.processed;
        }
      }
      assert Safe(s, d) ==> Safe(s', d);
    }
    assert forall q: nat, f: nat :: Sent(s', q, f) ==> Sent(s, q, f);
    assert forall d :: Safe(s, d) ==> Safe(s', d);
    assert AppliedSafe(s');
  }

  lemma PutKeepsIndex(outbox: seq<Event>, index: Docs, x: Product)
    requires IndexInv(index, outbox) && Committed(outbox, x)
    ensures IndexInv(Put(index, x), outbox)
  {
  }

  lemma ClaimBatchKeeps(s: State, r: nat, ids: set<nat>)
    requires SearchInv(s) && r !in s.relays && IsBatch(s, ids)
    ensures SearchInv(s.(relays := s.relays[r := Batch(ids, {})]))
  {
    var s' := s.(relays := s.relays[r := Batch(ids, {})]);
    assert forall e: nat :: e in ids ==> Claimable(s, e);
    assert IdsInv(s');
    ClaimKeeps(s, s');
  }

  lemma CountKeepsSearch(s: State, r: nat, e: nat)
    requires SearchInv(s) && HasOrder(s, r, e)
    ensures SearchInv(Count(Applied(s, r, e), e))
  {
    var s' := Count(Applied(s, r, e), e);
    assert IdsInv(s');
    ClaimKeeps(s, s');
  }

  lemma RollbackKeeps(s: State, r: nat)
    requires SearchInv(s)
    ensures SearchInv(s.(relays := s.relays - {r}))
  {
    var s' := s.(relays := s.relays - {r});
    assert IdsInv(s');
    ClaimKeeps(s, s');
  }

  // ---------------------------------------------------------------- the leaderboard

  lemma {:induction false} UnitsAdd(outbox: seq<Event>, ids: set<nat>, e: nat, p: nat)
    requires e !in ids
    ensures Units(outbox, ids + {e}, p) ==
            Units(outbox, ids, p)
            + if e < |outbox| && outbox[e].Ordered? && outbox[e].product == p then outbox[e].qty else 0
  {
    if outbox != [] {
      UnitsAdd(outbox[..|outbox| - 1], ids, e, p);
    }
  }

  lemma {:induction false} UnitsAll(outbox: seq<Event>, ids: set<nat>, p: nat)
    requires forall e: nat :: e < |outbox| && outbox[e].Ordered? ==> e in ids
    ensures Units(outbox, ids, p) == AllUnits(outbox, p)
  {
    if outbox != [] {
      UnitsAll(outbox[..|outbox| - 1], ids, p);
    }
  }

  lemma EmitKeepsBoard(s: State, products: Docs, orders: seq<(nat, int)>, ev: Event)
    requires BoardInv(s)
    requires orders == if ev.Ordered? then s.orders + [(ev.product, ev.qty)] else s.orders
    ensures BoardInv(Emit(s, products, orders, ev))
  {
    var s' := Emit(s, products, orders, ev);
    assert s'.outbox[..|s.outbox|] == s.outbox;
    if ev.Ordered? {
      assert orders[..|s.orders|] == s.orders;
    }
  }

  lemma CountKeepsBoard(s: State, e: nat)
    requires BoardInv(s) && e < |s.outbox| && s.outbox[e].Ordered?
    ensures BoardInv(Count(s, e))
  {
    if e !in s.done {
      forall p: nat ensures Score(Count(s, e).board, p) == Units(s.outbox, s.done + {e}, p) {
        UnitsAdd(s.outbox, s.done, e, p);
      }
    }
  }

  lemma EmitKeepsCounted(s: State, products: Docs, orders: seq<(nat, int)>, ev: Event)
    requires CountedInv(s) && AppliedSafe(s) && IdsInv(s)
    ensures CountedInv(Emit(s, products, orders, ev))
  {
    var s' := Emit(s, products, orders, ev);
    forall r: nat, e: nat | Sent(s', r, e) ensures e < |s.outbox| && s'.outbox[e] == s.outbox[e] && Sent(s, r, e) {
      assert Sent(s, r, e);
    }
    assert forall e: nat :: e in s.processed ==> e < |s.outbox| && s'.outbox[e] == s.outbox[e];
  }

  /** Relay steps that extend what was applied by `e`. */
  lemma ApplyKeepsCounted(s: State, s': State, e: nat)
    requires CountedInv(s) && e < |s.outbox|
    requires s'.outbox == s.outbox && s'.processed == s.processed && s.done <= s'.done
    requires forall q: nat, f: nat :: Sent(s', q, f) ==> Sent(s, q, f) || f == e
    requires s.outbox[e].Ordered? ==> e in s'.done
    ensures CountedInv(s')
  {
  }

  lemma CommitKeepsCounted(s: State, r: nat)
    requires Inv(s) && r in s.relays && s.relays[r].claimed <= s.relays[r].applied
    ensures CountedInv(CommitBatch(s, r))
  {
    var s' := CommitBatch(s, r);
    assert forall e: nat :: e in s.relays[r].claimed ==> Sent(s, r, e);
    assert forall q: nat, f: nat :: Sent(s', q, f) ==> Sent(s, q, f);
  }

  lemma QuietKeepsCounted(s: State, s': State)
    requires CountedInv(s)
    requires s'.outbox == s.outbox && s'.processed == s.processed && s'.done == s.done
    requires forall q: nat, f: nat :: Sent(s', q, f) ==> Sent(s, q, f)
    ensures CountedInv(s')
  {
  }

  // ---------------------------------------------------------------- every step keeps the invariant

  lemma SearchIds(s: State)
    requires SearchInv(s)
    ensures AppliedSafe(s) && IdsInv(s)
  {
  }

  lemma EmitKeeps(s: State, products: Docs, orders: seq<(nat, int)>, ev: Event)
    requires Inv(s) && Consistent(s.products, products, ev)
    requires orders == if ev.Ordered? then s.orders + [(ev.product, ev.qty)] else s.orders
    ensures Inv(Emit(s, products, orders, ev))
  {
    hide SearchInv, BoardInv, CountedInv;
    EmitKeepsSearch(s, products, orders, ev);
    EmitKeepsBoard(s, products, orders, ev);
    SearchIds(s);
    EmitKeepsCounted(s, products, orders, ev);
  }

  lemma WriteStepKeeps(s: State, step: Step)
    requires Inv(s) && (step.CreateProduct? || step.UpdateProduct? || step.PlaceOrder?)
    ensures Inv(Next(s, step))
  {
    hide Inv;
    match step
    case CreateProduct(id, body) =>
      if id !in s.products {
        EmitKeeps(s, s.products[id := Product(id, body, 1)], s.orders, Upserted(Product(id, body, 1)));
      }
    case UpdateProduct(id, body) =>
      if id in s.products {
        var d := Product(id, body, s.products[id].version + 1);
        EmitKeeps(s, s.products[id := d], s.orders, Upserted(d));
      }
    case PlaceOrder(product, qty) =>
      if product in s.products { EmitKeeps(s, s.products, s.orders + [(product, qty)], Ordered(product, qty)); }
  }

  lemma SameBoard(s: State, s': State)
    requires BoardInv(s)
    requires s'.outbox == s.outbox && s'.orders == s.orders && s'.done == s.done && s'.board == s.board
    ensures BoardInv(s')
  {
  }

  lemma SendKeepsCounted(s: State, r: nat, e: nat)
    requires CountedInv(s) && HasDoc(s, r, e)
    ensures CountedInv(SendDoc(s, r, e))
  {
    ApplyKeepsCounted(s, SendDoc(s, r, e), e);
  }

  lemma IndexDocStepKeeps(s: State, r: nat, e: nat)
    requires Inv(s) && HasDoc(s, r, e)
    ensures Inv(SendDoc(s, r, e))
  {
    hide SearchInv, BoardInv, CountedInv;
    SendDocKeeps(s, r, e);
    SendKeepsCounted(s, r, e);
    SameBoard(s, SendDoc(s, r, e));
  }

  lemma CountKeepsCounted(s: State, r: nat, e: nat)
    requires CountedInv(s) && HasOrder(s, r, e)
    ensures CountedInv(Count(Applied(s, r, e), e))
  {
    ApplyKeepsCounted(s, Count(Applied(s, r, e), e), e);
  }

  lemma CountStepKeeps(s: State, r: nat, e: nat)
    requires Inv(s) && HasOrder(s, r, e)
    ensures Inv(Count(Applied(s, r, e), e))
  {
    hide SearchInv, BoardInv, CountedInv;
    CountKeepsSearch(s, r, e);
    CountKeepsCounted(s, r, e);
    assert BoardInv(Count(Applied(s, r, e), e)) by {
      SameBoard(s, Applied(s, r, e));
      CountKeepsBoard(Applied(s, r, e), e);
    }
  }

  lemma CommitStepKeeps(s: State, r: nat)
    requires Inv(s) && r in s.relays && s.relays[r].claimed <= s.relays[r].applied
    ensures Inv(CommitBatch(s, r))
  {
    hide SearchInv, BoardInv, CountedInv;
    CommitKeeps(s, r);
    CommitKeepsCounted(s, r);
    SameBoard(s, CommitBatch(s, r));
  }

  lemma ClaimStepKeeps(s: State, step: Step)
    requires Inv(s) && (step.Claim? || step.Rollback?)
    ensures Inv(Next(s, step))
  {
    hide SearchInv, BoardInv, CountedInv;
    if step.Rollback? {
      RollbackKeeps(s, step.r);
      QuietKeeps(s, s.(relays := s.relays - {step.r}));
    } else if step.r !in s.relays && IsBatch(s, step.ids) {
      ClaimBatchKeeps(s, step.r, step.ids);
      QuietKeeps(s, s.(relays := s.relays[step.r := Batch(step.ids, {})]));
    }
  }

  lemma RelayStepKeeps(s: State, step: Step)
    requires Inv(s) && (step.IndexDoc? || step.CountOrder? || step.Commit?)
    ensures Inv(Next(s, step))
  {
    hide Inv;
    match step
    case IndexDoc(r, e) => if HasDoc(s, r, e) { IndexDocStepKeeps(s, r, e); }
    case CountOrder(r, e) => if HasOrder(s, r, e) { CountStepKeeps(s, r, e); }
    case Commit(r) => if r in s.relays && s.relays[r].claimed <= s.relays[r].applied { CommitStepKeeps(s, r); }
  }

  lemma QuietKeeps(s: State, s': State)
    requires Inv(s) && SearchInv(s')
    requires s'.outbox == s.outbox && s'.orders == s.orders && s'.processed == s.processed
    requires s'.done == s.done && s'.board == s.board
    requires forall q: nat, f: nat :: Sent(s', q, f) ==> Sent(s, q, f)
    ensures Inv(s')
  {
    hide SearchInv, BoardInv, CountedInv;
    SameBoard(s, s');
    QuietKeepsCounted(s, s');
  }

  /** Steps on the index and its rebuilds alone. */
  lemma IndexOnlyKeeps(s: State, s': State)
    requires Inv(s) && SearchInv(s')
    requires s' == s.(index := s'.index, jobs := s'.jobs, rebuildDue := s'.rebuildDue)
    ensures Inv(s')
  {
    assert forall q: nat, f: nat :: Sent(s', q, f) == Sent(s, q, f);
    QuietKeeps(s, s');
  }

  lemma RebuildStepKeeps(s: State, step: Step)
    requires Inv(s) && (step.DropIndex? || step.StartReindex?)
    ensures Inv(Next(s, step))
  {
    hide SearchInv, BoardInv, CountedInv;
    if step.DropIndex? {
      DropKeeps(s);
    } else if step.j !in s.jobs && IsSelectAll(s, step.docs) {
      StartReindexKeeps(s, step.j, step.docs);
    }
    IndexOnlyKeeps(s, Next(s, step));
  }

  lemma JobStepKeeps(s: State, step: Step)
    requires Inv(s) && (step.ReindexDoc? || step.GiveUpReindex?)
    ensures Inv(Next(s, step))
  {
    hide SearchInv, BoardInv, CountedInv;
    if step.GiveUpReindex? {
      if step.j in s.jobs { EndJobKeeps(s, step.j); }
    } else if step.j in s.jobs && s.jobs[step.j] != [] {
      SendJobDocKeeps(s, step.j);
    }
    IndexOnlyKeeps(s, Next(s, step));
  }

  // ---------------------------------------------------------------- whole runs

  lemma {:induction false} RunKeeps(steps: seq<Step>)
    ensures Inv(Run(INIT, steps))
  {
    if steps != [] {
      var s, step := Run(INIT, steps[..|steps| - 1]), steps[|steps| - 1];
      RunKeeps(steps[..|steps| - 1]);
      if step.CreateProduct? || step.UpdateProduct? || step.PlaceOrder? {
        WriteStepKeeps(s, step);
      } else if step.DropIndex? || step.StartReindex? {
        RebuildStepKeeps(s, step);
      } else if step.ReindexDoc? || step.GiveUpReindex? {
        JobStepKeeps(s, step);
      } else if step.Claim? || step.Rollback? {
        ClaimStepKeeps(s, step);
      } else {
        RelayStepKeeps(s, step);
      }
    }
  }

  /** Every outbox event is processed. */
  predicate Drained(s: State) {
    forall e: nat :: e < |s.outbox| ==> e in s.processed
  }

  /** No index drop or abandoned reindex is still waiting to be made good. */
  predicate NoRebuildOpen(s: State) {
    !s.rebuildDue && forall j: nat :: j in s.jobs ==> s.jobs[j] == []
  }

  /** The search index holds only committed product versions, whatever the relays did; and once the outbox is
      drained, and every drop was followed by a complete reindex, it is the products table. */
  lemma IndexConverges(steps: seq<Step>)
    ensures var s := Run(INIT, steps);
            && (forall id: nat :: id in s.index ==> Committed(s.outbox, s.index[id]) && s.index[id].id == id)
            && (Drained(s) && NoRebuildOpen(s) ==> s.index == s.products)
  {
    RunKeeps(steps);
    var s := Run(INIT, steps);
    if Drained(s) && NoRebuildOpen(s) {
      forall id: nat | id in s.products ensures id in s.index && s.index[id] == s.products[id] {
        assert Current(s.products, s.products[id]);
      }
      assert forall id: nat :: id in s.index ==> Committed(s.outbox, s.index[id]);
    }
  }

  /** A drained outbox alone does not make a dropped index good: it stays empty, and a reindex given up before it sent
      anything leaves all as it was. */
  lemma DroppedStaysEmpty(s: State, j: nat, docs: seq<Product>)
    requires Drained(s) && s.products != map[] && j !in s.jobs && IsSelectAll(s, docs)
    ensures var dropped := Next(s, DropIndex);
            && Drained(dropped) && dropped.products == s.products && dropped.index == map[]
            && Next(Next(dropped, StartReindex(j, docs)), GiveUpReindex(j)) == dropped
            && !NoRebuildOpen(dropped)
  {
    var id: nat :| id in s.products;
    assert s.products[id] in docs;
    var dropped := Next(s, DropIndex);
    assert IsSelectAll(dropped, docs);
    assert Next(dropped, StartReindex(j, docs)).jobs == s.jobs[j := docs];
    assert s.jobs[j := docs] - {j} == s.jobs;
  }

  lemma VersionGrows(s: State, step: Step, id: nat)
    requires !step.DropIndex? && id in s.index
    ensures id in Next(s, step).index && s.index[id].version <= Next(s, step).index[id].version
  {
    assert forall d :: id in Put(s.index, d) && s.index[id].version <= Put(s.index, d)[id].version;
  }

  /** Between index drops no document disappears or goes back in version. */
  lemma {:induction false} VersionsOnlyGrow(s: State, steps: seq<Step>, id: nat)
    requires forall i :: 0 <= i < |steps| ==> !steps[i].DropIndex?
    requires id in s.index
    ensures id in Run(s, steps).index && s.index[id].version <= Run(s, steps).index[id].version
  {
    if steps != [] {
      VersionsOnlyGrow(s, steps[..|steps| - 1], id);
      VersionGrows(Run(s, steps[..|steps| - 1]), steps[|steps| - 1], id);
    }
  }

  /** The writes of a run to a product: the first one creates it, later ones update it. */
  function Writes(steps: seq<Step>, id: nat): seq<string> {
    if steps == [] then []
    else
      var before, last := Writes(steps[..|steps| - 1], id), steps[|steps| - 1];
      if last.CreateProduct? && last.id == id && before == [] then [last.body]
      else if last.UpdateProduct? && last.id == id && before != [] then before + [last.body]
      else before
  }

  /** The row after these writes: the body last written, its version the number of writes. */
  function WrittenRow(id: nat, writes: seq<string>): Option<Product> {
    if writes == [] then None else Some(Product(id, writes[|writes| - 1], |writes|))
  }

  function RowOf(products: map<nat, Product>, id: nat): Option<Product> {
    if id in products then Some(products[id]) else None
  }

  lemma StepProducts(s: State, step: Step, id: nat)
    ensures RowOf(Next(s, step).products, id) ==
            if step.CreateProduct? && step.id == id && id !in s.products then Some(Product(id, step.body, 1))
            else if step.UpdateProduct? && step.id == id && id in s.products then
              Some(Product(id, step.body, s.products[id].version + 1))
            else RowOf(s.products, id)
  {
  }

  lemma {:induction false} ProductsAreWritten(steps: seq<Step>, id: nat)
    ensures RowOf(Run(INIT, steps).products, id) == WrittenRow(id, Writes(steps, id))
  {
    if steps != [] {
      hide Next;
      ProductsAreWritten(steps[..|steps| - 1], id);
      StepProducts(Run(INIT, steps[..|steps| - 1]), steps[|steps| - 1], id);
    }
  }

  /** The orders of a run, as they were placed: those of products that existed. */
  ghost function PlacedOrders(steps: seq<Step>): seq<(nat, int)> {
    if steps == [] then []
    else
      var front, last := steps[..|steps| - 1], steps[|steps| - 1];
      PlacedOrders(front)
      + if last.PlaceOrder? && last.product in Run(INIT, front).products then [(last.product, last.qty)] else []
  }

  lemma StepOrders(s: State, step: Step)
    ensures Next(s, step).orders ==
            if step.PlaceOrder? && step.product in s.products then s.orders + [(step.product, step.qty)] else s.orders
  {
  }

  lemma {:induction false} OrdersArePlaced(steps: seq<Step>)
    ensures Run(INIT, steps).orders == PlacedOrders(steps)
  {
    if steps != [] {
      hide Next;
      OrdersArePlaced(steps[..|steps| - 1]);
      StepOrders(Run(INIT, steps[..|steps| - 1]), steps[|steps| - 1]);
    }
  }

  /** Under at-least-once delivery the leaderboard counts each order event exactly once: it is always the sum
      over the deduplicated event ids, and with a drained outbox the sum over the orders table. */
  lemma LeaderboardExact(steps: seq<Step>, p: nat)
    ensures var s := Run(INIT, steps);
            && Score(s.board, p) == Units(s.outbox, s.done, p)
            && (Drained(s) ==> Score(s.board, p) == Sold(s.orders, p) == Sold(PlacedOrders(steps), p))
  {
    RunKeeps(steps);
    OrdersArePlaced(steps);
    var s := Run(INIT, steps);
    if Drained(s) {
      UnitsAll(s.outbox, s.done, p);
    }
  }
}
