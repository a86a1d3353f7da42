/** Redundant columns kept by delta triggers: every order carries a copy of its customer's name and the count and
    total of its items. Item statements adjust the counts and totals by grouped deltas of the rows they touch;
    nothing is recomputed. Money is counted in whole units of the smallest coin. */
module Denormalization {
  import opened Basics

  datatype Key = Key(order: nat, product: nat)
  datatype Line = Line(qty: int, price: int)
  datatype Order = Order(customer: nat, name: string, count: int, total: int)

  type Items = map<Key, Line>

  datatype Shop = Shop(customers: map<nat, string>, products: map<nat, int>, orders: map<nat, Order>, items: Items)

  // ---------------------------------------------------------------- the source of truth

  function One(o: nat): (Key, Line) -> int {
    (k: Key, l: Line) => if k.order == o then 1 else 0
  }

  function Worth(o: nat): (Key, Line) -> int {
    (k: Key, l: Line) => if k.order == o then l.qty * l.price else 0
  }

  /** count(*) of the rows of order `o`. */
  ghost function Count(rows: Items, o: nat): int {
    Sum(rows, One(o))
  }

  /** sum(qty * unit_price) of the rows of order `o`. */
  ghost function Total(rows: Items, o: nat): int {
    Sum(rows, Worth(o))
  }

  /** The foreign keys and the CHECK. */
  ghost predicate Keyed(db: Shop) {
    && (forall o: nat :: o in db.orders ==> db.orders[o].customer in db.customers)
    && (forall k: Key :: k in db.items ==> k.order in db.orders && k.product in db.products && db.items[k].qty > 0)
  }

  /** How far the redundant columns of an order are off. */
  ghost function CountDrift(db: Shop, o: nat): int
    requires o in db.orders
  {
    db.orders[o].count - Count(db.items, o)
  }

  ghost function TotalDrift(db: Shop, o: nat): int
    requires o in db.orders
  {
    db.orders[o].total - Total(db.items, o)
  }

  predicate NameRight(db: Shop, o: nat) {
    o in db.orders && db.orders[o].customer in db.customers && db.orders[o].name == db.customers[db.orders[o].customer]
  }

  /** The redundant columns are what a recomputation gives. */
  ghost predicate Right(db: Shop, o: nat) {
    NameRight(db, o) && CountDrift(db, o) == 0 && TotalDrift(db, o) == 0
  }

  ghost predicate Consistent(db: Shop) {
    Keyed(db) && forall o: nat :: o in db.orders ==> Right(db, o)
  }

  /** The drift query: the orders whose columns disagree with the base tables. */
  ghost function Drifted(db: Shop): set<nat> {
    set o | o in db.orders && !Right(db, o)
  }

  // ---------------------------------------------------------------- statements

  datatype Op =
    | InsertOrder(o: nat, customer: nat)
    | DeleteOrder(o: nat)
    | ChangeCustomer(o: nat, customer: nat)
    | Rename(customer: nat, name: string)
    | InsertItems(rows: Items)
    | DeleteItems(keys: set<Key>)
    | UpdateItems(gone: set<Key>, came: Items)
    | AddItem(o: nat, product: nat, qty: int)

  /** order_items_recalc: subtract the grouped old rows, add the grouped new ones. */
  ghost function Adjusted(orders: map<nat, Order>, minus: Items, plus: Items): map<nat, Order> {
    map o | o in orders :: AdjustedOrder(orders[o], o, minus, plus)
  }

  ghost function AdjustedOrder(order: Order, o: nat, minus: Items, plus: Items): Order {
    order.(count := order.count + Count(plus, o) - Count(minus, o),
           total := order.total + Total(plus, o) - Total(minus, o))
  }

  function Renamed(orders: map<nat, Order>, customer: nat, name: string): map<nat, Order> {
    map o | o in orders :: if orders[o].customer == customer then orders[o].(name := name) else orders[o]
  }

  function Restrict(items: Items, keys: set<Key>): Items {
    map k | k in items && k in keys :: items[k]
  }

  /** Rows the constraints of order_items accept. */
  predicate Insertable(db: Shop, kept: Items, rows: Items) {
    forall k :: k in rows ==> k !in kept && k.order in db.orders && k.product in db.products && rows[k].qty > 0
  }

  function KeysOf(items: Items, o: nat): set<Key> {
    set k | k in items && k.order == o
  }

  /** A statement with its triggers; one that a constraint refuses changes nothing. */
  ghost function Next(db: Shop, op: Op): Shop {
    match op
    case InsertOrder(o, customer) =>
      if o in db.orders || customer !in db.customers then db
      else db.(orders := db.orders[o := Order(customer, db.customers[customer], 0, 0)])
    case DeleteOrder(o) =>
      // the cascade's own trigger adjusts whatever orders are left
      var gone := Restrict(db.items, KeysOf(db.items, o));
      db.(orders := Adjusted(db.orders - {o}, gone, map[]), items := db.items - gone.Keys)
    case ChangeCustomer(o, customer) =>
      if o !in db.orders || customer !in db.customers then db
      else db.(orders := db.orders[o := db.orders[o].(customer := customer, name := db.customers[customer])])
    case Rename(customer, name) =>
      if customer !in db.customers || db.customers[customer] == name then db
      else db.(customers := db.customers[customer := name], orders := Renamed(db.orders, customer, name))
    case InsertItems(rows) =>
      if !Insertable(db, db.items, rows) then db
      else db.(orders := Adjusted(db.orders, map[], rows), items := db.items + rows)
    case DeleteItems(keys) =>
      db.(orders := Adjusted(db.orders, Restrict(db.items, keys), map[]), items := db.items - keys)
    case UpdateItems(gone, came) =>
      if !Insertable(db, db.items - gone, came) then db
      else db.(orders := Adjusted(db.orders, Restrict(db.items, gone), came), items := (db.items - gone) + came)
    case AddItem(o, product, qty) =>
      // appLevelAddItem, with the insert trigger off
      if o !in db.orders || product !in db.products || Key(o, product) in db.items || qty <= 0 then db
      else
        var price := db.products[product];
        var order := db.orders[o];
        db.(items := db.items[Key(o, product) := Line(qty, price)],
            orders := db.orders[o := order.(count := order.count + 1, total := order.total + qty * price)])
  }

  ghost function Run(db: Shop, ops: seq<Op>): Shop {
    if ops == [] then db else Next(Run(db, ops[..|ops| - 1]), ops[|ops| - 1])
  }

  // ---------------------------------------------------------------- the sums behind the deltas

  /** Removing some rows and adding others, of different keys, moves a sum by the difference. */
  lemma SumReplaced(items: Items, gone: set<Key>, came: Items, f: (Key, Line) -> int)
    requires forall k :: k in came ==> k !in items - gone
    ensures Sum((items - gone) + came, f) == Sum(items, f) - Sum(Restrict(items, gone), f) + Sum(came, f)
  {
    SumUnion(items - gone, came, f);
    var out := Restrict(items, gone);
    SumUnion(items - gone, out, f);
    assert (items - gone) + out == items;
  }

  lemma NoRows(f: (Key, Line) -> int)
    ensures Sum<Key, Line>(map[], f) == 0
  {
  }

  /** The trigger's grouped deltas leave every order as far off as it was. */
  lemma DeltasConserve(db: Shop, gone: set<Key>, came: Items, orders: map<nat, Order>, o: nat)
    requires forall k :: k in came ==> k !in db.items - gone
    requires o in orders && o in db.orders
    requires orders[o] == AdjustedOrder(db.orders[o], o, Restrict(db.items, gone), came)
    ensures var db' := db.(orders := orders, items := (db.items - gone) + came);
            CountDrift(db', o) == CountDrift(db, o) && TotalDrift(db', o) == TotalDrift(db, o)
  {
    SumReplaced(db.items, gone, came, One(o));
    SumReplaced(db.items, gone, came, Worth(o));
  }

  /** The same drift, and the name as right as before. */
  ghost predicate AsBefore(db: Shop, db': Shop, o: nat) {
    && o in db.orders && o in db'.orders
    && CountDrift(db', o) == CountDrift(db, o) && TotalDrift(db', o) == TotalDrift(db, o)
    && (NameRight(db, o) ==> NameRight(db', o))
  }

  lemma InsertConserves(db: Shop, rows: Items, o: nat)
    requires o in db.orders
    ensures AsBefore(db, Next(db, InsertItems(rows)), o)
  {
    if Insertable(db, db.items, rows) {
      assert db.items - {} == db.items && Restrict(db.items, {}) == map[];
      DeltasConserve(db, {}, rows, Adjusted(db.orders, map[], rows), o);
    }
  }

  lemma DeleteConserves(db: Shop, keys: set<Key>, o: nat)
    requires o in db.orders
    ensures AsBefore(db, Next(db, DeleteItems(keys)), o)
  {
    assert (db.items - keys) + map[] == db.items - keys;
    DeltasConserve(db, keys, map[], Adjusted(db.orders, Restrict(db.items, keys), map[]), o);
  }

  lemma UpdateConserves(db: Shop, gone: set<Key>, came: Items, o: nat)
    requires o in db.orders
    ensures AsBefore(db, Next(db, UpdateItems(gone, came)), o)
  {
    if Insertable(db, db.items - gone, came) {
      DeltasConserve(db, gone, came, Adjusted(db.orders, Restrict(db.items, gone), came), o);
    }
  }

  lemma DeleteOrderConserves(db: Shop, dead: nat, o: nat)
    requires o in db.orders && o != dead
    ensures AsBefore(db, Next(db, DeleteOrder(dead)), o)
  {
    var keys := KeysOf(db.items, dead);
    var gone := Restrict(db.items, keys);
    assert gone.Keys == keys;
    assert (db.items - keys) + map[] == db.items - keys;
    DeltasConserve(db, keys, map[], Adjusted(db.orders - {dead}, gone, map[]), o);
  }

  lemma AddConserves(db: Shop, op: Op, o: nat)
    requires o in db.orders && op.AddItem?
    ensures AsBefore(db, Next(db, op), o)
  {
    if Next(db, op) != db {
      var k, l := Key(op.o, op.product), Line(op.qty, db.products[op.product]);
      assert db.items - {k} == db.items;
      SumUpdate(db.items, One(o), k, l);
      SumUpdate(db.items, Worth(o), k, l);
    }
  }

  /** Every statement leaves every order that it does not create or delete exactly as far off as it was: the
      triggers neither cause drift nor repair it. */
  lemma StepConserves(db: Shop, op: Op, o: nat)
    requires o in db.orders && o in Next(db, op).orders
    ensures AsBefore(db, Next(db, op), o)
  {
    hide AsBefore, CountDrift, TotalDrift, Insertable;
    match op {
      case InsertItems(rows) => InsertConserves(db, rows, o);
      case DeleteItems(keys) => DeleteConserves(db, keys, o);
      case UpdateItems(gone, came) => UpdateConserves(db, gone, came, o);
      case DeleteOrder(dead) => DeleteOrderConserves(db, dead, o);
      case AddItem(_, _, _) => AddConserves(db, op, o);
      case InsertOrder(_, _) => OrdersOnly(db, op, o);
      case ChangeCustomer(_, _) => OrdersOnly(db, op, o);
      case Rename(_, _) => OrdersOnly(db, op, o);
    }
  }

  lemma OrdersOnly(db: Shop, op: Op, o: nat)
    requires o in db.orders && (op.InsertOrder? || op.ChangeCustomer? || op.Rename?)
    ensures AsBefore(db, Next(db, op), o)
  {
    hide Sum;
  }

  // ---------------------------------------------------------------- whole runs

  lemma StepKeyed(db: Shop, op: Op)
    requires Keyed(db)
    ensures Keyed(Next(db, op))
  {
    hide Count, Total;
  }

  /** A new order starts right: it has no items. */
  lemma NewOrderRight(db: Shop, op: Op, o: nat)
    requires Keyed(db) && o !in db.orders && o in Next(db, op).orders
    ensures Right(Next(db, op), o)
  {
    SumZero(db.items, One(o));
    SumZero(db.items, Worth(o));
  }

  lemma StepConsistent(db: Shop, op: Op)
    requires Consistent(db)
    ensures Consistent(Next(db, op))
  {
    hide Next, CountDrift, TotalDrift, NameRight, Keyed;
    StepKeyed(db, op);
    forall o: nat | o in Next(db, op).orders ensures Right(Next(db, op), o) {
      if o in db.orders {
        StepConserves(db, op, o);
        assert Right(db, o);
      } else {
        NewOrderRight(db, op, o);
      }
    }
  }

  /** Delta triggers equal recomputation, after every sequence of statements. */
  lemma {:induction false} TriggersEqualRecompute(db: Shop, ops: seq<Op>)
    requires Consistent(db)
    ensures Consistent(Run(db, ops))
  {
    if ops != [] {
      hide Consistent, Next;
      TriggersEqualRecompute(db, ops[..|ops| - 1]);
      StepConsistent(Run(db, ops[..|ops| - 1]), ops[|ops| - 1]);
    }
  }

  // ---------------------------------------------------------------- bypassing the trigger, and repair

  /** An insert while the trigger is disabled. */
  function Bypassed(db: Shop, rows: Items): Shop {
    if !Insertable(db, db.items, rows) then db else db.(items := db.items + rows)
  }

  /** The reconcile statement: the inner join leaves out orders without items, and names. */
  ghost function Reconciled(db: Shop): Shop {
    db.(orders := map o | o in db.orders :: ReconciledOrder(db, o))
  }

  ghost function ReconciledOrder(db: Shop, o: nat): Order
    requires o in db.orders
  {
    if KeysOf(db.items, o) == {} then db.orders[o]
    else db.orders[o].(count := Count(db.items, o), total := Total(db.items, o))
  }

  lemma {:induction false} CountIsSize(rows: Items, o: nat)
    ensures Count(rows, o) == |KeysOf(rows, o)|
    decreases |rows|
  {
    if rows == map[] {
      assert KeysOf(rows, o) == {};
    } else {
      var k := Pick(rows);
      CountIsSize(rows - {k}, o);
      SumTake(rows, One(o), k);
      hide Sum;
      var rest := KeysOf(rows - {k}, o);
      assert KeysOf(rows, o) == if k.order == o then rest + {k} else rest;
    }
  }

  /** An order without rows counts and totals to nothing. */
  lemma NoItems(rows: Items, o: nat)
    requires KeysOf(rows, o) == {}
    ensures Count(rows, o) == 0 && Total(rows, o) == 0
  {
    forall k | k in rows ensures k.order != o { assert k.order == o ==> k in KeysOf(rows, o); }
    SumZero(rows, One(o));
    SumZero(rows, Worth(o));
  }

  ghost function OrdersIn(rows: Items): set<nat> {
    set k | k in rows :: k.order
  }

  lemma OrdersInAre(rows: Items, o: nat)
    ensures o in OrdersIn(rows) <==> KeysOf(rows, o) != {}
  {
    if KeysOf(rows, o) != {} {
      var k :| k in KeysOf(rows, o);
      assert k in rows && k.order == o;
    }
    if o in OrdersIn(rows) {
      var k :| k in rows && k.order == o;
      assert k in KeysOf(rows, o);
    }
  }

  lemma BypassedRight(db: Shop, rows: Items, o: nat)
    requires Right(db, o) && Insertable(db, db.items, rows)
    ensures Right(Bypassed(db, rows), o) <==> KeysOf(rows, o) == {}
  {
    SumUnion(db.items, rows, One(o));
    SumUnion(db.items, rows, Worth(o));
    CountIsSize(rows, o);
    if KeysOf(rows, o) == {} { NoItems(rows, o); }
  }

  /** The drift query after a bypassing insert names exactly the orders that got rows. */
  lemma BypassDrifts(db: Shop, rows: Items)
    requires Consistent(db) && Insertable(db, db.items, rows)
    ensures Drifted(Bypassed(db, rows)) == OrdersIn(rows)
  {
    hide Right, Keyed, OrdersIn, KeysOf;
    forall o: nat ensures o in Drifted(Bypassed(db, rows)) <==> o in OrdersIn(rows) {
      OrdersInAre(rows, o);
      if o in db.orders {
        assert Right(db, o);
        BypassedRight(db, rows, o);
      } else {
        NoSuchOrder(db, rows, o);
      }
    }
  }

  lemma NoSuchOrder(db: Shop, rows: Items, o: nat)
    requires Insertable(db, db.items, rows) && o !in db.orders
    ensures KeysOf(rows, o) == {}
  {
  }

  /** An order is right after the repair exactly when its name was, and it has items or was right anyway. */
  lemma RepairedExactly(db: Shop, o: nat)
    requires o in db.orders
    ensures Right(Reconciled(db), o) <==>
              NameRight(db, o) && (KeysOf(db.items, o) != {} || (db.orders[o].count == 0 && db.orders[o].total == 0))
  {
    if KeysOf(db.items, o) == {} { NoItems(db.items, o); }
  }

  lemma EmptyOrderStays(db: Shop, rows: Items, o: nat)
    requires Right(db, o)
    ensures KeysOf(Bypassed(db, rows).items, o) != {} || (db.orders[o].count == 0 && db.orders[o].total == 0)
  {
    if KeysOf(db.items, o) == {} {
      NoItems(db.items, o);
    } else {
      var k :| k in KeysOf(db.items, o);
      assert k in KeysOf(Bypassed(db, rows).items, o);
    }
  }

  lemma BypassKeyed(db: Shop, rows: Items)
    requires Keyed(db)
    ensures Keyed(Reconciled(Bypassed(db, rows)))
  {
    hide Count, Total;
  }

  /** Whatever the triggers missed on inserts, one reconciliation repairs. */
  lemma ReconcileHealsBypass(db: Shop, rows: Items)
    requires Consistent(db)
    ensures Consistent(Reconciled(Bypassed(db, rows)))
  {
    BypassKeyed(db, rows);
    hide Keyed, ReconciledOrder, KeysOf;
    forall o: nat | o in db.orders ensures Right(Reconciled(Bypassed(db, rows)), o) {
      assert Right(db, o);
      EmptyOrderStays(db, rows, o);
      RepairedExactly(Bypassed(db, rows), o);
    }
  }

  /** The repair misses an order that was emptied after a bypassing insert: the trigger took off a line that had
      never been counted, and the join no longer sees the order. */
  lemma EmptiedOrderStaysWrong(db: Shop, o: nat, p: nat, line: Line)
    requires Consistent(db) && o in db.orders && p in db.products && line.qty > 0 && KeysOf(db.items, o) == {}
    ensures var emptied := Next(Bypassed(db, map[Key(o, p) := line]), DeleteItems({Key(o, p)}));
            && emptied.items == db.items && emptied.orders[o].count == -1
            && !Right(Reconciled(emptied), o)
  {
    var k, rows := Key(o, p), map[Key(o, p) := line];
    assert Right(db, o);
    assert k !in db.items by { assert k in db.items ==> k in KeysOf(db.items, o); }
    var mid := Bypassed(db, rows);
    assert mid.items == db.items[k := line];
    var emptied := Next(mid, DeleteItems({k}));
    assert emptied.items == db.items;
    assert Restrict(mid.items, {k}) == rows;
    CountIsSize(rows, o);
    assert KeysOf(rows, o) == {k};
    NoItems(db.items, o);
    CountIsSize(map[], o);
    assert KeysOf(map[], o) == {};
    hide Sum;
    RepairedExactly(emptied, o);
  }

  /** A second reconciliation finds nothing to do. */
  lemma ReconcileTwice(db: Shop)
    ensures Reconciled(Reconciled(db)) == Reconciled(db)
  {
    hide Count, Total;
  }
}
