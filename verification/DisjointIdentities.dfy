/** Concurrent inserts on two primaries: every node draws ids from its own arithmetic sequence (START WITH NODE_ID
    INCREMENT BY 10), so a replicated insert can never meet a row of the same id. */
module DisjointIdentities {
  import L = LastWriterWins

  type Name = L.Name

  const INCREMENT := 10

  /** The k-th id of the node with this NODE_ID. */
  function Identity(nodeId: nat, k: nat): nat {
    nodeId + INCREMENT * k
  }

  /** Room for ten nodes: their sequences never meet, and no node repeats itself. */
  lemma IdentitiesDisjoint(m: nat, n: nat, j: nat, k: nat)
    requires 1 <= m <= INCREMENT && 1 <= n <= INCREMENT
    ensures Identity(m, j) == Identity(n, k) <==> m == n && j == k
    ensures Identity(n, 0) == n && Identity(n, k + 1) == Identity(n, k) + 10
  {
    if Identity(m, j) == Identity(n, k) {
      assert m - n == INCREMENT * (k - j);
      assert -INCREMENT < m - n < INCREMENT;
    }
  }

  function NodeId(n: Name): nat {
    if n.A? then 1 else 2
  }

  datatype Node = Node(orders: map<nat, string>, drawn: nat, inbox: seq<(nat, string)>)

  datatype State = State(a: Node, b: Node)

  datatype Step = Insert(n: Name, item: string) | Deliver(n: Name)

  const INIT := State(Node(map[], 0, []), Node(map[], 0, []))

  function At(s: State, n: Name): Node {
    if n.A? then s.a else s.b
  }

  function With(s: State, n: Name, node: Node): State {
    if n.A? then s.(a := node) else s.(b := node)
  }

  /** The arriving insert hits an id that is already there. */
  predicate Collides(s: State, step: Step) {
    step.Deliver? && At(s, step.n).inbox != [] && At(s, step.n).inbox[0].0 in At(s, step.n).orders
  }

  /** The next local id is taken: the insert fails. */
  predicate Taken(s: State, step: Step) {
    step.Insert? && Identity(NodeId(step.n), At(s, step.n).drawn) in At(s, step.n).orders
  }

  function Next(s: State, step: Step): State {
    match step
    case Insert(n, item) =>
      var node, peer := At(s, n), At(s, L.Peer(n));
      var id := Identity(NodeId(n), node.drawn);
      if Taken(s, step) then With(s, n, node.(drawn := node.drawn + 1))
      else With(With(s, n, node.(orders := node.orders[id := item], drawn := node.drawn + 1)),
                L.Peer(n), peer.(inbox := peer.inbox + [(id, item)]))
    case Deliver(n) =>
      var node := At(s, n);
      if node.inbox == [] || Collides(s, step) then s
      else With(s, n, node.(orders := node.orders[node.inbox[0].0 := node.inbox[0].1], inbox := node.inbox[1..]))
  }

  function Run(steps: seq<Step>): State {
    if steps == [] then INIT else Next(Run(steps[..|steps| - 1]), steps[|steps| - 1])
  }

  /** The items inserted on `n`, in order. */
  function Items(steps: seq<Step>, n: Name): seq<string> {
    if steps == [] then []
    else
      var last := steps[|steps| - 1];
      Items(steps[..|steps| - 1], n) + if last.Insert? && last.n == n then [last.item] else []
  }

  /** The table holds the first `k` items of node `n`, under their ids, and no other id of that node. */
  ghost predicate HoldsFirst(orders: map<nat, string>, n: Name, items: seq<string>, k: nat)
    requires k <= |items|
  {
    forall j: nat ::
      && (Identity(NodeId(n), j) in orders <==> j < k)
      && (j < k ==> orders[Identity(NodeId(n), j)] == items[j])
  }

  /** Every id in the table is one of the two nodes'. */
  ghost predicate OnlyTheirs(orders: map<nat, string>) {
    forall id: nat :: id in orders ==> id % INCREMENT == 1 || id % INCREMENT == 2
  }

  /** Node `n` holds all its own items and those of its peer that have arrived; the rest are queued in order. */
  ghost predicate InStep(node: Node, n: Name, own: seq<string>, other: seq<string>) {
    && node.drawn == |own|
    && |node.inbox| <= |other|
    && OnlyTheirs(node.orders)
    && HoldsFirst(node.orders, n, own, |own|)
    && HoldsFirst(node.orders, L.Peer(n), other, |other| - |node.inbox|)
    && (forall j: nat :: j < |node.inbox| ==>
          node.inbox[j] == (Identity(NodeId(L.Peer(n)), |other| - |node.inbox| + j), other[|other| - |node.inbox| + j]))
  }

  ghost predicate Inv(s: State, steps: seq<Step>) {
    forall n :: InStep(At(s, n), n, Items(steps, n), Items(steps, L.Peer(n)))
  }

  lemma HoldsOne(orders: map<nat, string>, n: Name, m: Name, items: seq<string>, k: nat, j: nat, item: string)
    requires k <= |items| && HoldsFirst(orders, n, items, k)
    requires n == m ==> j == k < |items| && items[k] == item
    ensures HoldsFirst(orders[Identity(NodeId(m), j) := item], n, items, if n == m then k + 1 else k)
  {
    forall i: nat ensures Identity(NodeId(n), i) == Identity(NodeId(m), j) <==> n == m && i == j {
      IdentitiesDisjoint(NodeId(n), NodeId(m), i, j);
    }
  }

  lemma HoldsLonger(orders: map<nat, string>, n: Name, items: seq<string>, k: nat, item: string)
    requires k <= |items| && HoldsFirst(orders, n, items, k)
    ensures HoldsFirst(orders, n, items + [item], k)
  {
  }

  lemma OwnInsert(node: Node, n: Name, own: seq<string>, other: seq<string>, item: string)
    requires InStep(node, n, own, other)
    ensures var id := Identity(NodeId(n), node.drawn);
            && id !in node.orders && node.drawn == |own|
            && InStep(node.(orders := node.orders[id := item], drawn := node.drawn + 1), n, own + [item], other)
  {
    HoldsLonger(node.orders, n, own, |own|, item);
    HoldsOne(node.orders, n, n, own + [item], |own|, |own|, item);
    HoldsOne(node.orders, L.Peer(n), n, other, |other| - |node.inbox|, |own|, item);
    hide HoldsFirst;
  }

  lemma PeerInsert(node: Node, n: Name, own: seq<string>, other: seq<string>, item: string)
    requires InStep(node, n, own, other)
    ensures InStep(node.(inbox := node.inbox + [(Identity(NodeId(L.Peer(n)), |other|), item)]), n, own, other + [item])
  {
    HoldsLonger(node.orders, L.Peer(n), other, |other| - |node.inbox|, item);
    hide HoldsFirst;
  }

  lemma Arrives(node: Node, n: Name, own: seq<string>, other: seq<string>)
    requires InStep(node, n, own, other) && node.inbox != []
    ensures node.inbox[0].0 !in node.orders
    ensures var node' := node.(orders := node.orders[node.inbox[0].0 := node.inbox[0].1], inbox := node.inbox[1..]);
            InStep(node', n, own, other)
  {
    var d := |other| - |node.inbox|;
    HoldsOne(node.orders, n, L.Peer(n), own, |own|, d, other[d]);
    HoldsOne(node.orders, L.Peer(n), L.Peer(n), other, d, d, other[d]);
    assert node.inbox[0] == (Identity(NodeId(L.Peer(n)), d), other[d]);
    assert node.inbox[0].0 !in node.orders;
    hide HoldsFirst;
  }

  lemma StepKeeps(s: State, steps: seq<Step>, step: Step)
    requires Inv(s, steps)
    ensures !Collides(s, step) && !Taken(s, step) && Inv(Next(s, step), steps + [step])
  {
    hide InStep;
    assert (steps + [step])[..|steps|] == steps;
    var n := step.n;
    var p := L.Peer(n);
    assert L.Peer(p) == n;
    assert InStep(At(s, n), n, Items(steps, n), Items(steps, p));
    assert InStep(At(s, p), p, Items(steps, p), Items(steps, n));
    if step.Insert? {
      OwnInsert(At(s, n), n, Items(steps, n), Items(steps, p), step.item);
      PeerInsert(At(s, p), p, Items(steps, p), Items(steps, n), step.item);
    } else if At(s, n).inbox != [] {
      Arrives(At(s, n), n, Items(steps, n), Items(steps, p));
    }
    var s', all := Next(s, step), steps + [step];
    assert Items(all, p) == Items(steps, p);
    assert Items(all, n) == if step.Insert? then Items(steps, n) + [step.item] else Items(steps, n);
    assert InStep(At(s', n), n, Items(all, n), Items(all, p)) && InStep(At(s', p), p, Items(all, p), Items(all, n));
    forall m: Name ensures InStep(At(s', m), m, Items(all, m), Items(all, L.Peer(m))) {
      assert m == n || m == p;
    }
  }

  lemma {:induction false} RunKeeps(steps: seq<Step>)
    ensures Inv(Run(steps), steps)
  {
    if steps != [] {
      hide Inv, Next;
      var front := steps[..|steps| - 1];
      RunKeeps(front);
      assert steps == front + [steps[|steps| - 1]];
      StepKeeps(Run(front), front, steps[|steps| - 1]);
    }
  }

  /** No insert, local or replicated, ever meets a row of the same id. */
  lemma NoInsertConflict(steps: seq<Step>, step: Step)
    ensures !Collides(Run(steps), step) && !Taken(Run(steps), step)
  {
    RunKeeps(steps);
    StepKeeps(Run(steps), steps, step);
  }

  lemma ItemsKept(steps: seq<Step>, n: Name, m: Name)
    requires Inv(Run(steps), steps) && At(Run(steps), n).inbox == []
    ensures HoldsFirst(At(Run(steps), n).orders, m, Items(steps, m), |Items(steps, m)|)
  {
    hide HoldsFirst;
    assert InStep(At(Run(steps), n), n, Items(steps, n), Items(steps, L.Peer(n)));
  }

  /** Once the queues are empty, both nodes hold every item inserted anywhere, and the same rows. */
  lemma InsertsConverge(steps: seq<Step>)
    ensures var s := Run(steps);
            s.a.inbox == [] && s.b.inbox == [] ==>
              && s.a.orders == s.b.orders
              && (forall n: Name :: HoldsFirst(s.a.orders, n, Items(steps, n), |Items(steps, n)|))
  {
    RunKeeps(steps);
    var s := Run(steps);
    if s.a.inbox == [] && s.b.inbox == [] {
      assert At(s, L.A) == s.a && At(s, L.B) == s.b;
      forall n: Name
        ensures HoldsFirst(s.a.orders, n, Items(steps, n), |Items(steps, n)|)
        ensures HoldsFirst(s.b.orders, n, Items(steps, n), |Items(steps, n)|)
      {
        ItemsKept(steps, L.A, n);
        ItemsKept(steps, L.B, n);
      }
      assert OnlyTheirs(s.a.orders) && OnlyTheirs(s.b.orders) by {
        assert InStep(At(s, L.A), L.A, Items(steps, L.A), Items(steps, L.Peer(L.A)));
        assert InStep(At(s, L.B), L.B, Items(steps, L.B), Items(steps, L.Peer(L.B)));
      }
      SameRows(s.a.orders, s.b.orders, steps);
    }
  }

  lemma SameRows(m: map<nat, string>, o: map<nat, string>, steps: seq<Step>)
    requires OnlyTheirs(m) && OnlyTheirs(o)
    requires forall n: Name :: HoldsFirst(m, n, Items(steps, n), |Items(steps, n)|)
    requires forall n: Name :: HoldsFirst(o, n, Items(steps, n), |Items(steps, n)|)
    ensures m == o
  {
    forall id: nat ensures id in m <==> id in o
      ensures id in m && id in o ==> m[id] == o[id]
    {
      if id in m || id in o {
        var n := if id % INCREMENT == 1 then L.A else L.B;
        var j := id / INCREMENT;
        assert id == Identity(NodeId(n), j);
        assert HoldsFirst(m, n, Items(steps, n), |Items(steps, n)|)
               && HoldsFirst(o, n, Items(steps, n), |Items(steps, n)|);
      }
    }
  }

  function Deliveries(n: Name, k: nat): seq<Step> {
    if k == 0 then [] else Deliveries(n, k - 1) + [Deliver(n)]
  }

  lemma {:induction false} QueueDrains(steps: seq<Step>, n: Name, k: nat)
    requires k <= |At(Run(steps), n).inbox|
    ensures var s, s' := Run(steps), Run(steps + Deliveries(n, k));
            At(s', n).inbox == At(s, n).inbox[k..] && At(s', L.Peer(n)) == At(s, L.Peer(n))
    ensures forall m :: Items(steps + Deliveries(n, k), m) == Items(steps, m)
  {
    if k == 0 {
      assert steps + Deliveries(n, k) == steps;
    } else {
      hide Taken, Collides;
      QueueDrains(steps, n, k - 1);
      var before := steps + Deliveries(n, k - 1);
      NoInsertConflict(before, Deliver(n));
      assert steps + Deliveries(n, k) == before + [Deliver(n)];
      assert (before + [Deliver(n)])[..|before|] == before;
    }
  }

  /** Delivering what is queued always makes the nodes the same: no item of the run is stuck or lost. */
  lemma InsertsHeal(steps: seq<Step>)
    ensures var onA := steps + Deliveries(L.A, |Run(steps).a.inbox|);
            var s := Run(onA + Deliveries(L.B, |Run(onA).b.inbox|));
            && s.a.inbox == [] && s.b.inbox == [] && s.a.orders == s.b.orders
            && (forall n: Name :: HoldsFirst(s.a.orders, n, Items(steps, n), |Items(steps, n)|))
  {
    hide HoldsFirst, Next;
    var onA := steps + Deliveries(L.A, |Run(steps).a.inbox|);
    QueueDrains(steps, L.A, |Run(steps).a.inbox|);
    assert At(Run(onA), L.A) == Run(onA).a && At(Run(steps), L.A) == Run(steps).a;
    var all := onA + Deliveries(L.B, |Run(onA).b.inbox|);
    QueueDrains(onA, L.B, |Run(onA).b.inbox|);
    assert At(Run(all), L.A) == Run(all).a && At(Run(all), L.B) == Run(all).b;
    assert At(Run(onA), L.B) == Run(onA).b && L.Peer(L.B) == L.A;
    InsertsConverge(all);
  }
}
