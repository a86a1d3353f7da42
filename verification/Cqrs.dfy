/** CQRS with an outbox: commands commit to a normalized write store together with an event; a projector reads
    unprocessed events, recomputes the order's summary from the write store, upserts it into the read store and
    marks the event, as separate statements between which commands commit and the projector may die. */
module Cqrs {
  import opened Basics

  // ---------------------------------------------------------------- the write store

  datatype Customer = Customer(name: string, email: string)
  datatype Order = Order(customer: nat, status: string, createdAt: int)
  datatype Item = Item(product: string, qty: int, price: int)
  datatype ItemRow = ItemRow(order: nat, item: Item)
  datatype Event = Event(order: nat, processed: bool)

  datatype Write = Write(customers: map<nat, Customer>, orders: map<nat, Order>, items: seq<ItemRow>,
                         events: map<nat, Event>)

  datatype Summary = Summary(name: string, email: string, count: nat, total: int, status: string, placedAt: int)

  function ItemCount(items: seq<ItemRow>, o: nat): nat {
    if items == [] then 0
    else ItemCount(items[..|items| - 1], o) + if items[|items| - 1].order == o then 1 else 0
  }

  function Total(items: seq<ItemRow>, o: nat): int {
    if items == [] then 0
    else
      var last := items[|items| - 1];
      Total(items[..|items| - 1], o) + if last.order == o then last.item.qty * last.item.price else 0
  }

  /** The join and aggregate of projectOrder; no row if the order (or its customer) does not exist. */
  function Project(w: Write, o: nat): Option<Summary> {
    if o !in w.orders || w.orders[o].customer !in w.customers then None
    else
      var order := w.orders[o];
      var customer := w.customers[order.customer];
      Some(Summary(customer.name, customer.email, ItemCount(w.items, o), Total(w.items, o), order.status,
                   order.createdAt))
  }

  function RowsOf(o: nat, lines: seq<Item>): seq<ItemRow> {
    if lines == [] then [] else RowsOf(o, lines[..|lines| - 1]) + [ItemRow(o, lines[|lines| - 1])]
  }

  /** PlaceOrder's transaction, under the ids `o` and `e` that the sequences gave it; the foreign key refuses an
      unknown customer and nothing is kept. */
  function Placed(w: Write, o: nat, e: nat, customer: nat, createdAt: int, lines: seq<Item>): Write {
    if customer !in w.customers then w
    else w.(orders := w.orders[o := Order(customer, "placed", createdAt)],
            items := w.items + RowsOf(o, lines),
            events := w.events[e := Event(o, false)])
  }

  /** UpdateStatus's transaction: the event is appended whether or not the order exists. */
  function StatusSet(w: Write, e: nat, o: nat, status: string): Write {
    w.(orders := if o in w.orders then w.orders[o := w.orders[o].(status := status)] else w.orders,
       events := w.events[e := Event(o, false)])
  }

  function Marked(w: Write, e: nat): Write {
    if e !in w.events then w else w.(events := w.events[e := w.events[e].(processed := true)])
  }

  /** SELECT id .. WHERE NOT processed ORDER BY id, up to the id `top`. */
  function Unprocessed(events: map<nat, Event>, top: nat): seq<nat> {
    (if top == 0 then [] else Unprocessed(events, top - 1))
    + if top in events && !events[top].processed then [top] else []
  }

  // ---------------------------------------------------------------- steps

  /** A projector between statements: at the next event of its batch; holding the summary it read for the first
      event; or with that summary upserted and the event not marked yet. */
  datatype Projector = Ready(batch: seq<nat>) | Holds(batch: seq<nat>, row: Summary) | Upserted(batch: seq<nat>)

  datatype State = State(w: Write, read: map<nat, Summary>, projectors: map<nat, Projector>)

  datatype Step =
    | PlaceOrder(o: nat, e: nat, customer: nat, createdAt: int, lines: seq<Item>)
    | UpdateStatus(e: nat, o: nat, status: string)
    | Fetch(p: nat)
    | ReadOrder(p: nat)
    | Upsert(p: nat)
    | Mark(p: nat)
    | Crash(p: nat)

  function ProjectorOf(s: State, p: nat): Projector {
    if p in s.projectors then s.projectors[p] else Ready([])
  }

  function OrderOf(w: Write, e: nat): nat {
    if e in w.events then w.events[e].order else 0
  }

  function Next(s: State, step: Step): State {
    match step
    case PlaceOrder(o, e, customer, createdAt, lines) =>
      if o in s.w.orders || e in s.w.events then s else s.(w := Placed(s.w, o, e, customer, createdAt, lines))
    case UpdateStatus(e, o, status) =>
      if e in s.w.events then s else s.(w := StatusSet(s.w, e, o, status))
    case Fetch(p) =>
      if ProjectorOf(s, p) != Ready([]) then s
      else s.(projectors := s.projectors[p := Ready(Unprocessed(s.w.events, MaxOf(s.w.events.Keys)))])
    case ReadOrder(p) =>
      var at := ProjectorOf(s, p);
      if !at.Ready? || at.batch == [] then s
      else
        var row := Project(s.w, OrderOf(s.w, at.batch[0]));
        // no row: Project returns the error and gives the batch up
        s.(projectors := s.projectors[p := if row.None? then Ready([]) else Holds(at.batch, row.value)])
    case Upsert(p) =>
      var at := ProjectorOf(s, p);
      if !at.Holds? || at.batch == [] then s
      else s.(read := s.read[OrderOf(s.w, at.batch[0]) := at.row], projectors := s.projectors[p := Upserted(at.batch)])
    case Mark(p) =>
      var at := ProjectorOf(s, p);
      if !at.Upserted? || at.batch == [] then s
      else s.(w := Marked(s.w, at.batch[0]), projectors := s.projectors[p := Ready(at.batch[1..])])
    case Crash(p) => s.(projectors := s.projectors[p := Ready([])])
  }

  function Run(s: State, steps: seq<Step>): State {
    if steps == [] then s else Next(Run(s, steps[..|steps| - 1]), steps[|steps| - 1])
  }

  function Start(customers: map<nat, Customer>): State {
    State(Write(customers, map[], [], map[]), map[], map[])
  }

  // ---------------------------------------------------------------- what every run keeps

  /** The foreign keys. */
  ghost predicate Keyed(w: Write) {
    && (forall o: nat :: o in w.orders ==> w.orders[o].customer in w.customers)
    && (forall i :: 0 <= i < |w.items| ==> w.items[i].order in w.orders)
  }

  predicate Pending(w: Write, o: nat, e: nat) {
    e in w.events && !w.events[e].processed && w.events[e].order == o
  }

  /** An unprocessed event other than `except` will rebuild the summary of `o`. */
  ghost predicate Covered(w: Write, o: nat, except: Option<nat>) {
    exists e: nat :: Pending(w, o, e) && Some(e) != except
  }

  predicate Current(w: Write, read: map<nat, Summary>, o: nat) {
    o in read && Project(w, o) == Some(read[o])
  }

  /** The event that is done with but not marked yet. */
  function Settled(at: Projector): Option<nat> {
    if at.Upserted? && at.batch != [] then Some(at.batch[0]) else None
  }

  /** Every order is current, or some event that the projector has yet to read it for is pending. */
  ghost predicate Fresh(w: Write, read: map<nat, Summary>, at: Projector) {
    && (forall o: nat :: o in read ==> o in w.orders)
    && (forall o: nat :: o in w.orders ==> Current(w, read, o) || Covered(w, o, Settled(at)))
  }

  ghost predicate Known(events: map<nat, Event>, batch: seq<nat>) {
    forall i :: 0 <= i < |batch| ==> batch[i] in events
  }

  lemma {:induction false} UnprocessedKnown(events: map<nat, Event>, top: nat)
    ensures Known(events, Unprocessed(events, top))
    ensures forall e: nat :: e in Unprocessed(events, top) <==> e <= top && e in events && !events[e].processed
  {
    if top > 0 { UnprocessedKnown(events, top - 1); }
  }

  /** The row in hand is of the order of the event in hand, and current, or that order has another event. */
  ghost predicate InHand(w: Write, at: Projector) {
    && Known(w.events, at.batch)
    && (!at.Ready? ==> at.batch != [] && OrderOf(w, at.batch[0]) in w.orders)
    && (at.Holds? ==> var o := OrderOf(w, at.batch[0]);
                      Project(w, o) == Some(at.row) || Covered(w, o, Some(at.batch[0])))
  }

  /** `p` is the one projector. */
  ghost predicate Inv(s: State, p: nat) {
    Keyed(s.w) && Fresh(s.w, s.read, ProjectorOf(s, p)) && InHand(s.w, ProjectorOf(s, p))
  }

  // -- commands

  lemma {:induction false} RowsAreOf(o: nat, lines: seq<Item>)
    ensures |RowsOf(o, lines)| == |lines|
    ensures forall i :: 0 <= i < |lines| ==> RowsOf(o, lines)[i] == ItemRow(o, lines[i])
  {
    if lines != [] { RowsAreOf(o, lines[..|lines| - 1]); }
  }

  /** Rows of another order do not change an order's aggregates. */
  lemma {:induction false} OthersKeepAggregates(items: seq<ItemRow>, more: seq<ItemRow>, o: nat)
    requires forall i :: 0 <= i < |more| ==> more[i].order != o
    ensures ItemCount(items + more, o) == ItemCount(items, o) && Total(items + more, o) == Total(items, o)
  {
    if more == [] {
      assert items + more == items;
    } else {
      assert (items + more)[..|items + more| - 1] == items + more[..|more| - 1];
      OthersKeepAggregates(items, more[..|more| - 1], o);
    }
  }

  /** What a command does to an order it is not about: nothing. */
  lemma PlacedElsewhere(w: Write, o: nat, e: nat, customer: nat, createdAt: int, lines: seq<Item>, other: nat)
    requires other != o
    ensures Project(Placed(w, o, e, customer, createdAt, lines), other) == Project(w, other)
  {
    RowsAreOf(o, lines);
    OthersKeepAggregates(w.items, RowsOf(o, lines), other);
  }

  lemma CoverStays(w: Write, w': Write, o: nat, except: Option<nat>)
    requires Covered(w, o, except) && forall e: nat :: e in w.events ==> e in w'.events && w'.events[e] == w.events[e]
    ensures Covered(w', o, except)
  {
    var e: nat :| Pending(w, o, e) && Some(e) != except;
    assert Pending(w', o, e);
  }

  /** A command that only touches order `o`, and appends an event for it under a new id, keeps the invariant. */
  lemma CommandKeeps(w: Write, read: map<nat, Summary>, at: Projector, w': Write, o: nat, e: nat)
    requires Fresh(w, read, at) && InHand(w, at) && e !in w.events
    requires w'.events == w.events[e := Event(o, false)]
    requires forall k: nat :: k in w'.orders <==> k in w.orders || (k == o && o in w'.orders)
    requires forall k: nat :: k != o ==> Project(w', k) == Project(w, k)
    ensures Fresh(w', read, at) && InHand(w', at)
  {
    hide Project;
    assert Pending(w', o, e);
    forall k: nat | k in w'.orders ensures Current(w', read, k) || Covered(w', k, Settled(at)) {
      if k != o && !Current(w, read, k) {
        CoverStays(w, w', k, Settled(at));
      }
    }
    if at.Holds? {
      var k := OrderOf(w, at.batch[0]);
      assert OrderOf(w', at.batch[0]) == k;
      if k != o && Project(w, k) != Some(at.row) {
        CoverStays(w, w', k, Some(at.batch[0]));
      }
    }
  }

  lemma PlaceKeeps(s: State, step: Step, p: nat)
    requires Inv(s, p) && step.PlaceOrder?
    ensures Inv(Next(s, step), p)
  {
    if step.o !in s.w.orders && step.e !in s.w.events && step.customer in s.w.customers {
      hide Fresh, InHand, Project;
      var w' := Placed(s.w, step.o, step.e, step.customer, step.createdAt, step.lines);
      forall k: nat | k != step.o ensures Project(w', k) == Project(s.w, k) {
        PlacedElsewhere(s.w, step.o, step.e, step.customer, step.createdAt, step.lines, k);
      }
      RowsAreOf(step.o, step.lines);
      CommandKeeps(s.w, s.read, ProjectorOf(s, p), w', step.o, step.e);
    }
  }

  lemma StatusKeeps(s: State, step: Step, p: nat)
    requires Inv(s, p) && step.UpdateStatus?
    ensures Inv(Next(s, step), p)
  {
    if step.e !in s.w.events {
      hide Fresh, InHand;
      CommandKeeps(s.w, s.read, ProjectorOf(s, p), StatusSet(s.w, step.e, step.o, step.status), step.o, step.e);
    }
  }

  // -- the projector

  lemma UpsertKeeps(w: Write, read: map<nat, Summary>, at: Projector)
    requires Fresh(w, read, at) && InHand(w, at) && at.Holds?
    ensures var at' := Upserted(at.batch);
            Fresh(w, read[OrderOf(w, at.batch[0]) := at.row], at') && InHand(w, at')
  {
    hide Project;
    var o, read' := OrderOf(w, at.batch[0]), read[OrderOf(w, at.batch[0]) := at.row];
    forall k: nat | k in w.orders ensures Current(w, read', k) || Covered(w, k, Some(at.batch[0])) {
      if k != o && !Current(w, read, k) {
        var e: nat :| Pending(w, k, e) && Some(e) != Settled(at);
        assert e != at.batch[0];
      }
    }
  }

  lemma MarkKeeps(w: Write, read: map<nat, Summary>, at: Projector)
    requires Keyed(w) && Fresh(w, read, at) && InHand(w, at) && at.Upserted?
    ensures var at' := Ready(at.batch[1..]);
            var w' := Marked(w, at.batch[0]);
            Keyed(w') && Fresh(w', read, at') && InHand(w', at')
  {
    var w' := Marked(w, at.batch[0]);
    forall k: nat | k in w'.orders ensures Current(w', read, k) || Covered(w', k, None) {
      if !Current(w, read, k) {
        var e: nat :| Pending(w, k, e) && Some(e) != Settled(at);
        assert Pending(w', k, e);
      }
    }
  }

  /** Giving up, or moving on without having settled anything, is always safe. */
  lemma ReadyKeeps(w: Write, read: map<nat, Summary>, at: Projector, batch: seq<nat>)
    requires Fresh(w, read, at) && Known(w.events, batch)
    ensures Fresh(w, read, Ready(batch)) && InHand(w, Ready(batch))
  {
    hide Project;
    forall k: nat | k in w.orders ensures Current(w, read, k) || Covered(w, k, None) {
      if !Current(w, read, k) {
        var e: nat :| Pending(w, k, e) && Some(e) != Settled(at);
        assert Pending(w, k, e) && Some(e) != None;
      }
    }
  }

  lemma ReadKeeps(s: State, p: nat)
    requires Inv(s, p)
    ensures Inv(Next(s, ReadOrder(p)), p)
  {
    var at := ProjectorOf(s, p);
    if at.Ready? && at.batch != [] {
      ReadyKeeps(s.w, s.read, at, []);
      hide Covered;
    }
  }

  lemma StepKeeps(s: State, step: Step, p: nat)
    requires Inv(s, p) && (step.PlaceOrder? || step.UpdateStatus? || step.p == p)
    ensures Inv(Next(s, step), p)
  {
    var at := ProjectorOf(s, p);
    match step {
      case PlaceOrder(_, _, _, _, _) => PlaceKeeps(s, step, p);
      case UpdateStatus(_, _, _) => StatusKeeps(s, step, p);
      case ReadOrder(_) => ReadKeeps(s, p);
      case Upsert(_) =>
        hide Fresh, Keyed, Project;
        if at.Holds? { UpsertKeeps(s.w, s.read, at); }
      case Mark(_) =>
        hide Fresh, Keyed, Project;
        if at.Upserted? { MarkKeeps(s.w, s.read, at); }
      case Fetch(_) =>
        hide Fresh, InHand, Keyed, Project;
        UnprocessedKnown(s.w.events, MaxOf(s.w.events.Keys));
        ReadyKeeps(s.w, s.read, at, Unprocessed(s.w.events, MaxOf(s.w.events.Keys)));
      case Crash(_) =>
        hide Fresh, InHand, Keyed, Project;
        ReadyKeeps(s.w, s.read, at, []);
    }
  }

  /** All projector steps are those of the projectors `ps`. */
  ghost predicate ProjectedBy(ps: set<nat>, steps: seq<Step>) {
    forall i :: 0 <= i < |steps| ==> steps[i].PlaceOrder? || steps[i].UpdateStatus? || steps[i].p in ps
  }

  lemma {:induction false} RunKeeps(customers: map<nat, Customer>, steps: seq<Step>, p: nat)
    requires ProjectedBy({p}, steps)
    ensures Inv(Run(Start(customers), steps), p)
  {
    if steps != [] {
      hide Inv, Next;
      RunKeeps(customers, steps[..|steps| - 1], p);
      StepKeeps(Run(Start(customers), steps[..|steps| - 1]), steps[|steps| - 1], p);
    }
  }

  // ---------------------------------------------------------------- results

  /** The read model that a recomputation of everything would give. */
  function FullProjection(w: Write): map<nat, Summary> {
    map o | o in w.orders && Project(w, o).Some? :: Project(w, o).value
  }

  /** Every order whose row differs from the write store has an unprocessed event, in every run of commands and
      one projector that may die anywhere. */
  lemma StaleHasEvent(customers: map<nat, Customer>, steps: seq<Step>, p: nat, o: nat)
    requires ProjectedBy({p}, steps)
    ensures var s := Run(Start(customers), steps);
            o in s.w.orders && !Current(s.w, s.read, o) ==> exists e: nat :: Pending(s.w, o, e)
  {
    RunKeeps(customers, steps, p);
  }

  /** With an empty outbox the read model is the full projection. */
  ghost predicate ExactWhenDrained(s: State) {
    (forall e: nat :: e in s.w.events ==> s.w.events[e].processed) ==> s.read == FullProjection(s.w)
  }

  lemma DrainedIsExact(customers: map<nat, Customer>, steps: seq<Step>, p: nat)
    requires ProjectedBy({p}, steps)
    ensures ExactWhenDrained(Run(Start(customers), steps))
  {
    RunKeeps(customers, steps, p);
    var s := Run(Start(customers), steps);
    if forall e: nat :: e in s.w.events ==> s.w.events[e].processed {
      DrainedState(s, p);
    }
  }

  lemma DrainedState(s: State, p: nat)
    requires Inv(s, p) && forall e: nat :: e in s.w.events ==> s.w.events[e].processed
    ensures s.read == FullProjection(s.w)
  {
    hide Project;
    forall o: nat | o in s.w.orders ensures Current(s.w, s.read, o) {
      assert !Covered(s.w, o, Settled(ProjectorOf(s, p)));
    }
  }

  // ---------------------------------------------------------------- one projector is needed

  const ONE_CUSTOMER := map[1 := Customer("Alice Wong", "alice@example.com")]

  /** Two events of order 1, the second for a status that projector `p` has not seen, both fetched by `q`. */
  function OvertakingStep(p: nat, q: nat, i: nat): Step {
    match i
    case 0 => PlaceOrder(1, 1, 1, 0, [])
    case 1 => Fetch(p)
    case 2 => ReadOrder(p)
    case 3 => UpdateStatus(2, 1, "shipped")
    case 4 => Fetch(q)
    case 5 => ReadOrder(q)
    case 6 => Upsert(q)
    case 7 => Mark(q)
    case 8 => ReadOrder(q)
    case 9 => Upsert(q)
    case 10 => Mark(q)
    case _ => Upsert(p)
  }

  function Overtaking(p: nat, q: nat, n: nat): seq<Step> {
    seq(n, (i: nat) => OvertakingStep(p, q, i))
  }

  const PLACED_ROW := Summary("Alice Wong", "alice@example.com", 0, 0, "placed", 0)
  const SHIPPED_ROW := PLACED_ROW.(status := "shipped")

  function Placed1(): Write {
    Write(ONE_CUSTOMER, map[1 := Order(1, "placed", 0)], [], map[1 := Event(1, false)])
  }

  function Shipped1(first: bool, second: bool): Write {
    Write(ONE_CUSTOMER, map[1 := Order(1, "shipped", 0)], [], map[1 := Event(1, first), 2 := Event(1, second)])
  }

  function WithOne(p: nat, at: Projector, w: Write): State {
    State(w, map[], map[p := at])
  }

  /** Projector `p` keeps the row it read before the second command, while projector `q` works. */
  function WithBoth(p: nat, q: nat, w: Write, read: map<nat, Summary>, at: Projector): State {
    State(w, read, map[p := Holds([1], PLACED_ROW), q := at])
  }

  /** The states of that run. */
  function Stage(p: nat, q: nat, i: nat): State {
    var shipped := map[1 := SHIPPED_ROW];
    match i
    case 0 => Start(ONE_CUSTOMER)
    case 1 => State(Placed1(), map[], map[])
    case 2 => WithOne(p, Ready([1]), Placed1())
    case 3 => WithOne(p, Holds([1], PLACED_ROW), Placed1())
    case 4 => WithOne(p, Holds([1], PLACED_ROW), Shipped1(false, false))
    case 5 => WithBoth(p, q, Shipped1(false, false), map[], Ready([1, 2]))
    case 6 => WithBoth(p, q, Shipped1(false, false), map[], Holds([1, 2], SHIPPED_ROW))
    case 7 => WithBoth(p, q, Shipped1(false, false), shipped, Upserted([1, 2]))
    case 8 => WithBoth(p, q, Shipped1(true, false), shipped, Ready([2]))
    case 9 => WithBoth(p, q, Shipped1(true, false), shipped, Holds([2], SHIPPED_ROW))
    case 10 => WithBoth(p, q, Shipped1(true, false), shipped, Upserted([2]))
    case 11 => WithBoth(p, q, Shipped1(true, true), shipped, Ready([]))
    case _ => State(Shipped1(true, true), map[1 := PLACED_ROW], map[p := Upserted([1]), q := Ready([])])
  }

  lemma OutboxOf(second: bool)
    ensures var events := if second then Shipped1(false, false).events else Placed1().events;
            Unprocessed(events, MaxOf(events.Keys)) == if second then [1, 2] else [1]
  {
    var events := if second then Shipped1(false, false).events else Placed1().events;
    assert 1 in events && (second ==> 2 in events);
    assert MaxOf(events.Keys) == if second then 2 else 1;
    assert Unprocessed(events, 0) == [];
    assert Unprocessed(events, 1) == [1];
  }

  lemma StageCommand(p: nat, q: nat, i: nat)
    requires p != q && (i == 0 || i == 3)
    ensures Next(Stage(p, q, i), OvertakingStep(p, q, i)) == Stage(p, q, i + 1)
  {
    assert RowsOf(1, []) == [];
  }

  lemma StageFetch(p: nat, q: nat, i: nat)
    requires p != q && (i == 1 || i == 4)
    ensures Next(Stage(p, q, i), OvertakingStep(p, q, i)) == Stage(p, q, i + 1)
  {
    OutboxOf(i == 4);
    hide Unprocessed;
  }

  lemma StageRead(p: nat, q: nat, i: nat)
    requires p != q && (i == 2 || i == 5 || i == 8)
    ensures Next(Stage(p, q, i), OvertakingStep(p, q, i)) == Stage(p, q, i + 1)
  {
    assert ItemCount([], 1) == 0 && Total([], 1) == 0;
  }

  lemma StageUpsert(p: nat, q: nat, i: nat)
    requires p != q && (i == 6 || i == 9 || i == 11)
    ensures Next(Stage(p, q, i), OvertakingStep(p, q, i)) == Stage(p, q, i + 1)
  {
  }

  lemma StageMark(p: nat, q: nat, i: nat)
    requires p != q && (i == 7 || i == 10)
    ensures Next(Stage(p, q, i), OvertakingStep(p, q, i)) == Stage(p, q, i + 1)
  {
    assert [1, 2][1..] == [2] && [2][1..] == [];
  }

  lemma {:induction false} StageReached(p: nat, q: nat, i: nat)
    requires p != q && i <= 12
    ensures Run(Start(ONE_CUSTOMER), Overtaking(p, q, i)) == Stage(p, q, i)
  {
    if i > 0 {
      hide Next, Stage, OvertakingStep;
      StageReached(p, q, i - 1);
      assert Overtaking(p, q, i)[..i - 1] == Overtaking(p, q, i - 1);
      var k := i - 1;
      if k == 0 || k == 3 { StageCommand(p, q, k); }
      else if k == 1 || k == 4 { StageFetch(p, q, k); }
      else if k == 2 || k == 5 || k == 8 { StageRead(p, q, k); }
      else if k == 7 || k == 10 { StageMark(p, q, k); }
      else { StageUpsert(p, q, k); }
    }
  }

  lemma StaleStage(p: nat, q: nat)
    ensures !ExactWhenDrained(Stage(p, q, 12))
  {
    var s := Stage(p, q, 12);
    assert "placed" != "shipped" by { assert |"placed"| == 6 && |"shipped"| == 7; }
    assert Project(s.w, 1).value.status == "shipped";
    assert FullProjection(s.w)[1].status != s.read[1].status;
  }

  /** With any two projectors an old row can be written after the event for the new one was marked: the outbox is
      empty and the read model is stale for good. */
  lemma TwoProjectorsLoseAnUpdate(p: nat, q: nat)
    requires p != q
    ensures !ExactWhenDrained(Run(Start(ONE_CUSTOMER), Overtaking(p, q, 12)))
            && ProjectedBy({p, q}, Overtaking(p, q, 12))
  {
    hide Run, Stage, ExactWhenDrained;
    StageReached(p, q, 12);
    StaleStage(p, q);
  }

  /** Whatever the customers, the commands and the interleaving, an empty outbox means an exact read model. */
  ghost predicate SafeProjectors(ps: set<nat>) {
    forall customers, steps :: ProjectedBy(ps, steps) ==> ExactWhenDrained(Run(Start(customers), steps))
  }

  /** That is so exactly for at most one projector. */
  lemma OneProjectorExactly(ps: set<nat>)
    ensures SafeProjectors(ps) <==> |ps| <= 1
  {
    hide ExactWhenDrained, Run;
    if |ps| <= 1 {
      var p :| ps <= {p} by { FewElements(ps); }
      forall customers, steps | ProjectedBy(ps, steps) ensures ExactWhenDrained(Run(Start(customers), steps)) {
        assert ProjectedBy({p}, steps);
        DrainedIsExact(customers, steps, p);
      }
    } else {
      var p :| p in ps;
      assert |ps - {p}| == |ps| - 1;
      var q :| q in ps - {p};
      TwoProjectorsLoseAnUpdate(p, q);
      assert ProjectedBy(ps, Overtaking(p, q, 12));
    }
  }

  lemma FewElements(ps: set<nat>)
    requires |ps| <= 1
    ensures exists p: nat :: ps <= {p}
  {
    if ps == {} {
      assert ps <= {0};
    } else {
      var p :| p in ps;
      assert |ps - {p}| == 0;
      assert ps <= {p} by { forall q | q in ps ensures q == p { assert q !in ps - {p}; } }
    }
  }

  // ---------------------------------------------------------------- the handler and the projector as they run

  /** No unprocessed event refers to a missing order. */
  predicate NoOrphan(w: Write) {
    forall e :: e in w.events && !w.events[e].processed ==> w.events[e].order in w.orders
  }

  // -- an event of a missing order

  ghost predicate AllKnown(s: State) {
    forall p: nat :: Known(s.w.events, ProjectorOf(s, p).batch)
  }

  lemma StepKnown(s: State, step: Step)
    requires AllKnown(s)
    ensures AllKnown(Next(s, step))
  {
    UnprocessedKnown(s.w.events, MaxOf(s.w.events.Keys));
    hide Project, Unprocessed, RowsOf, MaxOf;
    var s' := Next(s, step);
    forall p: nat ensures Known(s'.w.events, ProjectorOf(s', p).batch) {
      assert Known(s.w.events, ProjectorOf(s, p).batch);
    }
  }

  lemma {:induction false} RunKnown(s: State, steps: seq<Step>)
    requires AllKnown(s)
    ensures AllKnown(Run(s, steps))
  {
    hide Next, AllKnown;
    if steps != [] {
      RunKnown(s, steps[..|steps| - 1]);
      StepKnown(Run(s, steps[..|steps| - 1]), steps[|steps| - 1]);
    }
  }

  /** Event `e` waits for an order that does not exist, and no projector has got past reading it. */
  ghost predicate Orphaned(s: State, o: nat, e: nat) {
    && Pending(s.w, o, e) && o !in s.w.orders
    && forall p: nat :: ProjectorOf(s, p).batch != [] && ProjectorOf(s, p).batch[0] == e ==> ProjectorOf(s, p).Ready?
  }

  lemma OrphanStays(s: State, step: Step, o: nat, e: nat)
    requires Orphaned(s, o, e) && (step.PlaceOrder? ==> step.o != o)
    ensures Orphaned(Next(s, step), o, e)
  {
    hide Unprocessed, RowsOf, MaxOf, ItemCount, Total;
    var s' := Next(s, step);
    forall p: nat | ProjectorOf(s', p).batch != [] && ProjectorOf(s', p).batch[0] == e
      ensures ProjectorOf(s', p).Ready?
    {
      assert ProjectorOf(s, p).batch != [] && ProjectorOf(s, p).batch[0] == e ==> ProjectorOf(s, p).Ready?;
    }
  }

  lemma {:induction false} OrphanStaysAlong(s: State, steps: seq<Step>, o: nat, e: nat)
    requires Orphaned(s, o, e) && forall i :: 0 <= i < |steps| && steps[i].PlaceOrder? ==> steps[i].o != o
    ensures Orphaned(Run(s, steps), o, e)
  {
    hide Next, Orphaned;
    if steps != [] {
      OrphanStaysAlong(s, steps[..|steps| - 1], o, e);
      OrphanStays(Run(s, steps[..|steps| - 1]), steps[|steps| - 1], o, e);
    }
  }

  /** An UpdateStatus of an order that does not exist leaves an event that no projector, however many and however
      often they try, gets past until that order is placed. */
  lemma OrphanBlocks(customers: map<nat, Customer>, before: seq<Step>, e: nat, o: nat, status: string, rest: seq<Step>)
    requires e !in Run(Start(customers), before).w.events && o !in Run(Start(customers), before).w.orders
    requires forall i :: 0 <= i < |rest| && rest[i].PlaceOrder? ==> rest[i].o != o
    ensures var later := Run(Next(Run(Start(customers), before), UpdateStatus(e, o, status)), rest);
            Pending(later.w, o, e) && !NoOrphan(later.w)
  {
    hide Run;
    NoBatches(customers);
    RunKnown(Start(customers), before);
    var s := Run(Start(customers), before);
    var marked := Next(s, UpdateStatus(e, o, status));
    assert Orphaned(marked, o, e) by {
      forall p: nat | ProjectorOf(marked, p).batch != [] ensures ProjectorOf(marked, p).batch[0] != e {
        assert Known(s.w.events, ProjectorOf(s, p).batch);
      }
    }
    OrphanStaysAlong(marked, rest, o, e);
  }

  lemma NoBatches(customers: map<nat, Customer>)
    ensures Run(Start(customers), []) == Start(customers) && AllKnown(Start(customers))
  {
  }

  // -- the methods

  /** The outbox after exactly the events of `done` were marked. */
  ghost predicate MarkedExactly(before: map<nat, Event>, after: map<nat, Event>, done: seq<nat>) {
    && after.Keys == before.Keys
    && (forall e: nat :: e in before ==> after[e] == if e in done then before[e].(processed := true) else before[e])
  }

  lemma MarkOneMore(before: map<nat, Event>, after: map<nat, Event>, batch: seq<nat>, k: nat)
    requires k < |batch| && batch[k] in before && MarkedExactly(before, after, batch[..k])
    ensures MarkedExactly(before, after[batch[k] := after[batch[k]].(processed := true)], batch[..k + 1])
  {
    assert batch[..k + 1] == batch[..k] + [batch[k]];
  }

  lemma RowsSnoc(o: nat, lines: seq<Item>, i: nat)
    requires i < |lines|
    ensures RowsOf(o, lines[..i + 1]) == RowsOf(o, lines[..i]) + [ItemRow(o, lines[i])]
  {
    assert lines[..i + 1][..i] == lines[..i];
  }

  /** An exact outbox means an exact read model. */
  lemma FreshDrained(w: Write, read: map<nat, Summary>)
    requires Keyed(w) && Fresh(w, read, Ready([])) && forall e: nat :: e in w.events ==> w.events[e].processed
    ensures read == FullProjection(w)
  {
    hide Project;
    DrainedState(State(w, read, map[0 := Ready([])]), 0);
  }

  lemma ProjectedKeeps(w: Write, read: map<nat, Summary>, e: nat)
    requires Keyed(w) && Fresh(w, read, Ready([])) && e in w.events && w.events[e].order in w.orders
    ensures Project(w, w.events[e].order).Some?
    ensures var read' := read[w.events[e].order := Project(w, w.events[e].order).value];
            Keyed(Marked(w, e)) && Fresh(Marked(w, e), read', Ready([]))
  {
    hide Fresh, Covered;
    var o := w.events[e].order;
    var at := Holds([e], Project(w, o).value);
    assert Fresh(w, read, at) by { SettledNothing(w, read, at); }
    UpsertKeeps(w, read, at);
    MarkKeeps(w, read[o := at.row], Upserted([e]));
    assert [e][1..] == [];
  }

  lemma SettledNothing(w: Write, read: map<nat, Summary>, at: Projector)
    requires Fresh(w, read, Ready([])) && Settled(at).None?
    ensures Fresh(w, read, at)
  {
  }

  lemma PlaceFresh(w: Write, read: map<nat, Summary>, o: nat, e: nat, customer: nat, createdAt: int, lines: seq<Item>)
    requires Keyed(w) && Fresh(w, read, Ready([])) && o !in w.orders && e !in w.events
    ensures var w' := Placed(w, o, e, customer, createdAt, lines); Keyed(w') && Fresh(w', read, Ready([]))
  {
    hide Fresh, Keyed, Placed;
    PlaceKeeps(State(w, read, map[]), Step.PlaceOrder(o, e, customer, createdAt, lines), 0);
  }

  lemma StatusFresh(w: Write, read: map<nat, Summary>, e: nat, o: nat, status: string)
    requires Keyed(w) && Fresh(w, read, Ready([])) && e !in w.events
    ensures Keyed(StatusSet(w, e, o, status)) && Fresh(StatusSet(w, e, o, status), read, Ready([]))
  {
    hide Fresh, Keyed, StatusSet;
    StatusKeeps(State(w, read, map[]), Step.UpdateStatus(e, o, status), 0);
  }

  lemma ProjectExists(w: Write, o: nat)
    requires Keyed(w)
    ensures Project(w, o).Some? <==> o in w.orders
  {
  }

  // -- what a projection shows of a command

  /** What the lines of an order come to. */
  function Worth(lines: seq<Item>): int {
    if lines == [] then 0 else lines[0].qty * lines[0].price + Worth(lines[1..])
  }

  lemma {:induction false} WorthSnoc(lines: seq<Item>, last: Item)
    ensures Worth(lines + [last]) == Worth(lines) + last.qty * last.price
  {
    if lines == [] {
      assert lines + [last] == [last] && [last][1..] == [];
    } else {
      WorthSnoc(lines[1..], last);
      assert (lines + [last])[1..] == lines[1..] + [last];
    }
  }

  lemma {:induction false} NoItemsOf(items: seq<ItemRow>, o: nat)
    requires forall i :: 0 <= i < |items| ==> items[i].order != o
    ensures ItemCount(items, o) == 0 && Total(items, o) == 0
  {
    if items != [] { NoItemsOf(items[..|items| - 1], o); }
  }

  lemma {:induction false} LinesCount(items: seq<ItemRow>, o: nat, lines: seq<Item>)
    ensures ItemCount(items + RowsOf(o, lines), o) == ItemCount(items, o) + |lines|
    ensures Total(items + RowsOf(o, lines), o) == Total(items, o) + Worth(lines)
  {
    if lines == [] {
      assert items + RowsOf(o, lines) == items;
    } else {
      var front, last := lines[..|lines| - 1], lines[|lines| - 1];
      LinesCount(items, o, front);
      WorthSnoc(front, last);
      assert lines == front + [last];
      var rows := items + RowsOf(o, front);
      assert items + RowsOf(o, lines) == rows + [ItemRow(o, last)];
      assert (rows + [ItemRow(o, last)])[..|rows|] == rows;
    }
  }

  /** A placed order is projected as what was ordered. */
  lemma PlacedProjects(w: Write, o: nat, e: nat, customer: nat, createdAt: int, lines: seq<Item>)
    requires Keyed(w) && customer in w.customers && o !in w.orders
    ensures Project(Placed(w, o, e, customer, createdAt, lines), o) ==
            Some(Summary(w.customers[customer].name, w.customers[customer].email,
                         |lines|, Worth(lines), "placed", createdAt))
  {
    hide ItemCount, Total, RowsOf, Worth;
    NoItemsOf(w.items, o);
    LinesCount(w.items, o, lines);
  }

  lemma PlacedElsewhereAll(w: Write, o: nat, e: nat, customer: nat, createdAt: int, lines: seq<Item>)
    ensures forall k: nat :: k != o ==> Project(Placed(w, o, e, customer, createdAt, lines), k) == Project(w, k)
  {
    hide Project, Placed;
    forall k: nat | k != o ensures Project(Placed(w, o, e, customer, createdAt, lines), k) == Project(w, k) {
      PlacedElsewhere(w, o, e, customer, createdAt, lines, k);
    }
  }

  lemma StatusProjects(w: Write, e: nat, o: nat, status: string)
    requires Keyed(w)
    ensures o in w.orders ==>
              && Project(w, o).Some?
              && Project(StatusSet(w, e, o, status), o) == Some(Project(w, o).value.(status := status))
    ensures forall k: nat :: k != o ==> Project(StatusSet(w, e, o, status), k) == Project(w, k)
  {
  }

  class Service {
    const customers: map<nat, Customer>
    var orders: map<nat, Order>
    var items: seq<ItemRow>
    var events: map<nat, Event>
    var read: map<nat, Summary>
    var orderSeq: nat
    var eventSeq: nat

    function Store(): Write
      reads this
    {
      Write(customers, orders, items, events)
    }

    /** What any run of these methods, and any death between their statements, leaves behind. */
    ghost predicate Valid()
      reads this
    {
      && Keyed(Store()) && Fresh(Store(), read, Ready([]))
      && (forall o: nat :: o in orders ==> o <= orderSeq)
      && (forall e: nat :: e in events ==> e <= eventSeq)
    }

    constructor (customers: map<nat, Customer>)
      ensures Valid() && this.customers == customers && orders == map[] && events == map[] && read == map[]
    {
      this.customers := customers;
      orders, items, events, read, orderSeq, eventSeq := map[], [], map[], map[], 0, 0;
    }

    method PlaceOrder(customer: nat, createdAt: int, lines: seq<Item>) returns (r: Option<nat>)
      requires Valid()
      modifies this`orders, this`items, this`events, this`orderSeq, this`eventSeq
      ensures Valid()
      ensures r.Some? <==> customer in customers
      ensures r.None? ==> Store() == old(Store())
      ensures r.Some? ==> r.value !in old(orders) && eventSeq !in old(events)
                          && Store() == Placed(old(Store()), r.value, eventSeq, customer, createdAt, lines)
      ensures r.Some? ==>
                && eventSeq in events && events[eventSeq] == Event(r.value, false)
                && Project(Store(), r.value) == Some(Summary(customers[customer].name, customers[customer].email,
                                                             |lines|, Worth(lines), "placed", createdAt))
                && forall k: nat :: k != r.value ==> Project(Store(), k) == old(Project(Store(), k))
    {
      hide Project, Keyed, Fresh, RowsOf, Worth;
      orderSeq := orderSeq + 1;
      if customer !in customers { return None; }
      orders := orders[orderSeq := Order(customer, "placed", createdAt)];
      var i := 0;
      assert lines[..0] == [] && RowsOf(orderSeq, []) == [] by { RowsAreOf(orderSeq, []); }
      while i < |lines|
        modifies this`items
        invariant i <= |lines| && items == old(items) + RowsOf(orderSeq, lines[..i])
      {
        RowsSnoc(orderSeq, lines, i);
        items := items + [ItemRow(orderSeq, lines[i])];
        i := i + 1;
      }
      assert lines[..i] == lines;
      eventSeq := eventSeq + 1;
      events := events[eventSeq := Event(orderSeq, false)];
      r := Some(orderSeq);
      PlaceFresh(old(Store()), read, orderSeq, eventSeq, customer, createdAt, lines);
      PlacedProjects(old(Store()), orderSeq, eventSeq, customer, createdAt, lines);
      PlacedElsewhereAll(old(Store()), orderSeq, eventSeq, customer, createdAt, lines);
    }

    method UpdateStatus(o: nat, status: string)
      requires Valid()
      modifies this`orders, this`events, this`eventSeq
      ensures Valid()
      ensures eventSeq !in old(events) && Store() == StatusSet(old(Store()), eventSeq, o, status)
      ensures eventSeq in events && events[eventSeq] == Event(o, false)
      ensures o in old(orders) ==>
                old(Project(Store(), o)).Some?
                && Project(Store(), o) == Some(old(Project(Store(), o)).value.(status := status))
      ensures forall k: nat :: k != o ==> Project(Store(), k) == old(Project(Store(), k))
    {
      hide Project, Keyed, Fresh;
      StatusProjects(Store(), eventSeq + 1, o, status);
      if o in orders {
        orders := orders[o := orders[o].(status := status)];
      }
      eventSeq := eventSeq + 1;
      events := events[eventSeq := Event(o, false)];
      StatusFresh(old(Store()), read, eventSeq, o, status);
    }

    /** One drain of the outbox. It ends in an exact read model if no unprocessed event refers to a missing order;
        otherwise it stops at the first that does, with everything before it done and marked, and so does every
        later drain until that order exists. */
    method ProjectAll() returns (processed: nat, ok: bool)
      requires Valid()
      modifies this`events, this`read
      ensures Valid()
      ensures ok <==> old(NoOrphan(Store()))
      ensures ok ==> read == FullProjection(Store()) && forall e: nat :: e in events ==> events[e].processed
      ensures var batch := old(Unprocessed(events, eventSeq));
              && processed <= |batch| && MarkedExactly(old(events), events, batch[..processed])
              && (ok <==> processed == |batch|)
              && (!ok ==> batch[processed] in old(events) && old(events)[batch[processed]].order !in orders)
      ensures !ok && processed == 0 ==> read == old(read) && events == old(events)
    {
      hide Keyed, Fresh, Project, Unprocessed;
      var batch := Unprocessed(events, eventSeq);
      UnprocessedKnown(events, eventSeq);
      processed, ok := 0, true;
      while processed < |batch|
        invariant processed <= |batch| && ok
        invariant Valid() && MarkedExactly(old(events), events, batch[..processed])
        invariant forall i :: 0 <= i < processed ==> events[batch[i]].order in orders
        invariant processed == 0 ==> read == old(read) && events == old(events)
      {
        var e := batch[processed];
        var row := Project(Store(), events[e].order);
        ProjectExists(Store(), events[e].order);
        if row.None? {
          ok := false;
          return;
        }
        ProjectedKeeps(Store(), read, e);
        MarkOneMore(old(events), events, batch, processed);
        read := read[events[e].order := row.value];
        events := events[e := events[e].(processed := true)];
        processed := processed + 1;
      }
      assert batch[..processed] == batch;
      FreshDrained(Store(), read);
    }
  }
}
