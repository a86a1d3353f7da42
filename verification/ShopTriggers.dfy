/** The shop database as its statements and triggers change it in place. */
module ShopTriggers {
  import opened Basics
  import opened Denormalization

  /** One group of the trigger's subquery. */
  datatype Delta = Delta(n: int, total: int)

  function DeltaFor(d: map<nat, Delta>, o: nat): Delta {
    if o in d then d[o] else Delta(0, 0)
  }

  function Signed(plus: bool, x: int): int {
    if plus then x else -x
  }

  /** GROUP BY order_id over a transition table, added to (or subtracted from) the groups so far. The rows come
      in any order. */
  method GroupInto(rows: Items, plus: bool, into: map<nat, Delta>) returns (d: map<nat, Delta>)
    ensures forall o: nat :: DeltaFor(d, o) == Delta(DeltaFor(into, o).n + Signed(plus, Count(rows, o)),
                                                     DeltaFor(into, o).total + Signed(plus, Total(rows, o)))
  {
    d := into;
    var left := rows;
    while left != map[]
      invariant forall o: nat ::
          && DeltaFor(d, o).n + Signed(plus, Count(left, o)) == DeltaFor(into, o).n + Signed(plus, Count(rows, o))
          && DeltaFor(d, o).total + Signed(plus, Total(left, o)) ==
               DeltaFor(into, o).total + Signed(plus, Total(rows, o))
      decreases |left|
    {
      var k :| k in left;
      var line := left[k];
      forall o: nat
        ensures Count(left, o) == Count(left - {k}, o) + if k.order == o then 1 else 0
        ensures Total(left, o) == Total(left - {k}, o) + if k.order == o then line.qty * line.price else 0
      {
        SumTake(left, One(o), k);
        SumTake(left, Worth(o), k);
      }
      hide Count, Total;
      var group := DeltaFor(d, k.order);
      d := d[k.order := Delta(group.n + Signed(plus, 1), group.total + Signed(plus, line.qty * line.price))];
      left := left - {k};
    }
    forall o: nat ensures Count(left, o) == 0 && Total(left, o) == 0 {
      NoRows(One(o));
      NoRows(Worth(o));
    }
  }

  /** SET item_count = o.item_count + d.n, total_amount = o.total_amount + d.total. */
  function Shifted(order: Order, d: Delta): Order {
    order.(count := order.count + d.n, total := order.total + d.total)
  }

  function ShiftedAll(orders: map<nat, Order>, d: map<nat, Delta>): map<nat, Order> {
    map o | o in orders :: Shifted(orders[o], DeltaFor(d, o))
  }

  lemma ShiftIsAdjustment(orders: map<nat, Order>, d: map<nat, Delta>, minus: Items, plus: Items)
    requires forall o: nat :: DeltaFor(d, o) ==
               Delta(Count(plus, o) - Count(minus, o), Total(plus, o) - Total(minus, o))
    ensures ShiftedAll(orders, d) == Adjusted(orders, minus, plus)
  {
    hide Count, Total;
    assert forall o: nat :: o in orders ==>
             Shifted(orders[o], DeltaFor(d, o)) == AdjustedOrder(orders[o], o, minus, plus);
  }

  /** The reconcile statement on one order: `t` is its group, if it has one. */
  function Repaired(order: Order, t: Delta): Order {
    if t.n == 0 then order else order.(count := t.n, total := t.total)
  }

  function RepairedAll(orders: map<nat, Order>, t: map<nat, Delta>): map<nat, Order> {
    map o | o in orders :: Repaired(orders[o], DeltaFor(t, o))
  }

  lemma RepairIsReconciliation(db: Shop, t: map<nat, Delta>)
    requires forall o: nat :: DeltaFor(t, o) == Delta(Count(db.items, o), Total(db.items, o))
    ensures RepairedAll(db.orders, t) == Reconciled(db).orders
  {
    hide Count, Total;
    forall o: nat | o in db.orders ensures Repaired(db.orders[o], DeltaFor(t, o)) == ReconciledOrder(db, o) {
      CountIsSize(db.items, o);
    }
  }

  /** The same orders, of the same customers under the same names. */
  ghost predicate SameOrders(before: map<nat, Order>, after: map<nat, Order>) {
    && after.Keys == before.Keys
    && forall o: nat :: o in after ==> after[o].customer == before[o].customer && after[o].name == before[o].name
  }

  lemma UnchangedSame(orders: map<nat, Order>)
    ensures SameOrders(orders, orders)
  {
  }

  lemma AdjustedSame(orders: map<nat, Order>, minus: Items, plus: Items)
    ensures SameOrders(orders, Adjusted(orders, minus, plus)) && Adjusted(orders, minus, plus).Keys == orders.Keys
  {
    hide Count, Total;
  }

  function Changed(before: map<nat, Order>, after: map<nat, Order>): set<nat> {
    set o | o in before && o in after && after[o] != before[o]
  }

  class Database {
    const products: map<nat, int>
    var customers: map<nat, string>
    var orders: map<nat, Order>
    var items: Items

    ghost function Value(): Shop
      reads this
    {
      Shop(customers, products, orders, items)
    }

    constructor (customers: map<nat, string>, products: map<nat, int>)
      ensures Value() == Shop(customers, products, map[], map[]) && Consistent(Value())
    {
      this.customers, this.products, orders, items := customers, products, map[], map[];
    }

    /** The trigger's UPDATE .. FROM: one grouped statement, whatever the number of rows. */
    method Recalc(minus: Items, plus: Items)
      modifies this`orders
      ensures orders == Adjusted(old(orders), minus, plus)
    {
      var d := GroupInto(plus, true, map[]);
      d := GroupInto(minus, false, d);
      hide Count, Total;
      ShiftIsAdjustment(orders, d, minus, plus);
      orders := ShiftedAll(orders, d);
    }

    method InsertItems(rows: Items) returns (ok: bool)
      modifies this`orders, this`items
      ensures ok <==> Insertable(old(Value()), old(items), rows)
      ensures ok <==> forall k :: k in rows ==>
                        k !in old(items) && k.order in old(orders) && k.product in products && rows[k].qty > 0
      ensures items == if ok then old(items) + rows else old(items)
      ensures SameOrders(old(orders), orders)
      ensures Value() == Next(old(Value()), Op.InsertItems(rows))
      ensures old(Consistent(Value())) ==> Consistent(Value())
    {
      hide Consistent, Count, Total, Adjusted, SameOrders;
      AdjustedSame(orders, map[], rows);
      UnchangedSame(orders);
      if Consistent(Value()) { StepConsistent(Value(), Op.InsertItems(rows)); }
      ok := forall k :: k in rows ==> k !in items && k.order in orders && k.product in products && rows[k].qty > 0;
      if ok {
        items := items + rows;
        Recalc(map[], rows);
      }
    }

    method DeleteItems(keys: set<Key>)
      modifies this`orders, this`items
      ensures items == old(items) - keys
      ensures SameOrders(old(orders), orders)
      ensures Value() == Next(old(Value()), Op.DeleteItems(keys))
      ensures old(Consistent(Value())) ==> Consistent(Value())
    {
      hide Consistent, Count, Total, Adjusted, SameOrders;
      AdjustedSame(orders, Restrict(items, keys), map[]);
      if Consistent(Value()) { StepConsistent(Value(), Op.DeleteItems(keys)); }
      var gone := Restrict(items, keys);
      items := items - keys;
      Recalc(gone, map[]);
    }

    /** One UPDATE of order_items, also of its key columns: lines may move between orders. */
    method UpdateItems(gone: set<Key>, came: Items) returns (ok: bool)
      modifies this`orders, this`items
      ensures ok <==> Insertable(old(Value()), old(items) - gone, came)
      ensures ok <==> forall k :: k in came ==>
                        && (k !in old(items) || k in gone)
                        && k.order in old(orders) && k.product in products && came[k].qty > 0
      ensures items == if ok then (old(items) - gone) + came else old(items)
      ensures SameOrders(old(orders), orders)
      ensures Value() == Next(old(Value()), Op.UpdateItems(gone, came))
      ensures old(Consistent(Value())) ==> Consistent(Value())
    {
      hide Consistent, Count, Total, Adjusted, SameOrders;
      AdjustedSame(orders, Restrict(items, gone), came);
      UnchangedSame(orders);
      if Consistent(Value()) { StepConsistent(Value(), Op.UpdateItems(gone, came)); }
      ok := forall k :: k in came ==>
          k !in items - gone && k.order in orders && k.product in products && came[k].qty > 0;
      if ok {
        var before := Restrict(items, gone);
        items := (items - gone) + came;
        Recalc(before, came);
      }
    }

    method DeleteOrder(o: nat)
      modifies this`orders, this`items
      ensures o !in orders && SameOrders(old(orders) - {o}, orders)
      ensures forall k :: k in items <==> k in old(items) && k.order != o
      ensures forall k :: k in items ==> items[k] == old(items)[k]
      ensures Value() == Next(old(Value()), Op.DeleteOrder(o))
      ensures old(Consistent(Value())) ==> Consistent(Value())
    {
      hide Consistent, Count, Total, Adjusted, SameOrders;
      AdjustedSame(orders - {o}, Restrict(items, KeysOf(items, o)), map[]);
      if Consistent(Value()) { StepConsistent(Value(), Op.DeleteOrder(o)); }
      orders := orders - {o};
      var gone := Restrict(items, KeysOf(items, o));
      items := items - gone.Keys;
      Recalc(gone, map[]);
    }

    method InsertOrder(o: nat, customer: nat) returns (ok: bool)
      requires o !in orders
      modifies this`orders
      ensures ok <==> customer in customers
      ensures orders == if ok then old(orders)[o := Order(customer, customers[customer], 0, 0)] else old(orders)
      ensures Value() == Next(old(Value()), Op.InsertOrder(o, customer))
      ensures old(Consistent(Value())) ==> Consistent(Value())
    {
      hide Consistent, Count, Total;
      if Consistent(Value()) { StepConsistent(Value(), Op.InsertOrder(o, customer)); }
      ok := customer in customers;
      if ok {
        orders := orders[o := Order(customer, customers[customer], 0, 0)];
      }
    }

    method ChangeCustomer(o: nat, customer: nat)
      modifies this`orders
      ensures orders == if o in old(orders) && customer in customers
                        then old(orders)[o := old(orders)[o].(customer := customer, name := customers[customer])]
                        else old(orders)
      ensures Value() == Next(old(Value()), Op.ChangeCustomer(o, customer))
      ensures old(Consistent(Value())) ==> Consistent(Value())
    {
      hide Consistent, Count, Total;
      if Consistent(Value()) { StepConsistent(Value(), Op.ChangeCustomer(o, customer)); }
      if o in orders && customer in customers {
        orders := orders[o := orders[o].(customer := customer, name := customers[customer])];
      }
    }

    method RenameCustomer(customer: nat, name: string)
      modifies this`customers, this`orders
      ensures customer in old(customers) ==> customers == old(customers)[customer := name]
      ensures customer !in old(customers) ==> customers == old(customers)
      ensures orders.Keys == old(orders).Keys
      ensures forall o :: o in orders ==>
                orders[o] == if customer in old(customers) && old(customers)[customer] != name
                                && old(orders)[o].customer == customer
                             then old(orders)[o].(name := name) else old(orders)[o]
      ensures Value() == Next(old(Value()), Op.Rename(customer, name))
      ensures old(Consistent(Value())) ==> Consistent(Value())
    {
      hide Consistent, Count, Total;
      if Consistent(Value()) { StepConsistent(Value(), Op.Rename(customer, name)); }
      if customer in customers && customers[customer] != name {
        customers := customers[customer := name];
        orders := Renamed(orders, customer, name);
      }
    }

    /** appLevelAddItem: the writer updates the copies itself, in the same transaction. */
    method AppLevelAddItem(o: nat, product: nat, qty: int) returns (ok: bool)
      modifies this`orders, this`items
      ensures ok <==> o in old(orders) && product in products && Key(o, product) !in old(items) && qty > 0
      ensures items == if ok then old(items)[Key(o, product) := Line(qty, products[product])] else old(items)
      ensures orders == if ok then old(orders)[o := old(orders)[o].(
                                count := old(orders)[o].count + 1,
                                total := old(orders)[o].total + qty * products[product])]
                        else old(orders)
      ensures Value() == Next(old(Value()), Op.AddItem(o, product, qty))
      ensures old(Consistent(Value())) ==> Consistent(Value())
    {
      hide Consistent, Count, Total;
      if Consistent(Value()) { StepConsistent(Value(), Op.AddItem(o, product, qty)); }
      if product !in products { return false; }
      var price := products[product];
      if Key(o, product) in items || o !in orders || qty <= 0 { return false; }
      items := items[Key(o, product) := Line(qty, price)];
      orders := orders[o := orders[o].(count := orders[o].count + 1, total := orders[o].total + qty * price)];
      ok := true;
    }

    /** UPDATE orders .. FROM (grouped items): how many rows it says it repaired is how many it changed. */
    method Reconcile() returns (repaired: nat)
      modifies this`orders
      ensures Value() == Reconciled(old(Value()))
      ensures repaired == |Changed(old(orders), orders)|
    {
      hide Count, Total;
      var t := GroupInto(items, true, map[]);
      RepairIsReconciliation(Value(), t);
      var after := RepairedAll(orders, t);
      repaired := |Changed(orders, after)|;
      orders := after;
    }
  }
}
