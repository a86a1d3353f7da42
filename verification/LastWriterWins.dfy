/** Two primaries that both update one account row and replicate to each other asynchronously. A local update is
    unguarded; a change that arrives from the peer passes the last-writer-wins guard. Only local changes are
    queued for the peer (origin = none), and a disabled subscription delivers nothing.
    Different account rows never meet, so `State` holds the one row. */
module LastWriterWins {

  /** Node names, in the order that text comparison gives "node_a" and "node_b". */
  datatype Name = A | B

  datatype Row = Row(balance: int, updatedAt: int, updatedBy: Name)

  function Peer(n: Name): Name {
    if n == A then B else A
  }

  /** (a.updated_at, a.updated_by) < (b.updated_at, b.updated_by). */
  predicate Older(a: Row, b: Row) {
    a.updatedAt < b.updatedAt || (a.updatedAt == b.updatedAt && a.updatedBy == A && b.updatedBy == B)
  }

  /** What the apply worker leaves of `held` when `change` arrives. */
  function Receive(guard: bool, held: Row, change: Row): Row {
    if guard && Older(change, held) then held else change
  }

  /** What is left when a whole queue has arrived. */
  function Drained(guard: bool, held: Row, queue: seq<Row>): Row
    decreases |queue|
  {
    if queue == [] then held else Drained(guard, Receive(guard, held, queue[0]), queue[1..])
  }

  // ---------------------------------------------------------------- the two nodes

  datatype Node = Node(row: Row, inbox: seq<Row>, enabled: bool)

  datatype State = State(a: Node, b: Node)

  datatype Step =
    | Write(n: Name, balance: int, at: int)
    | Deliver(n: Name)
    | Link(n: Name, enabled: bool)

  function At(s: State, n: Name): Node {
    if n == A then s.a else s.b
  }

  function With(s: State, n: Name, node: Node): State {
    if n == A then s.(a := node) else s.(b := node)
  }

  /** The row a local update writes. */
  function Written(step: Step): Row
    requires step.Write?
  {
    Row(step.balance, step.at, step.n)
  }

  function Next(guard: bool, s: State, step: Step): State {
    match step
    case Write(n, _, _) =>
      var peer := At(s, Peer(n));
      With(With(s, n, At(s, n).(row := Written(step))), Peer(n), peer.(inbox := peer.inbox + [Written(step)]))
    case Deliver(n) =>
      var node := At(s, n);
      if !node.enabled || node.inbox == [] then s
      else With(s, n, node.(row := Receive(guard, node.row, node.inbox[0]), inbox := node.inbox[1..]))
    case Link(n, enabled) => With(s, n, At(s, n).(enabled := enabled))
  }

  function Run(guard: bool, s: State, steps: seq<Step>): State {
    if steps == [] then s else Next(guard, Run(guard, s, steps[..|steps| - 1]), steps[|steps| - 1])
  }

  /** Nothing is under way. */
  predicate Quiet(s: State) {
    s.a.inbox == [] && s.b.inbox == []
  }

  // ---------------------------------------------------------------- draining a queue

  lemma {:induction false} DrainedSnoc(guard: bool, held: Row, queue: seq<Row>, w: Row)
    ensures Drained(guard, held, queue + [w]) == Receive(guard, Drained(guard, held, queue), w)
    decreases |queue|
  {
    if queue == [] {
      assert queue + [w] == [w] && [w][1..] == [];
      assert Drained(guard, Receive(guard, held, w), []) == Receive(guard, held, w);
    } else {
      assert (queue + [w])[1..] == queue[1..] + [w];
      DrainedSnoc(guard, Receive(guard, held, queue[0]), queue[1..], w);
    }
  }

  /** With the guard on, the row only moves up, and to the top of what arrives. */
  lemma {:induction false} DrainedIsTop(held: Row, queue: seq<Row>)
    ensures !Older(Drained(true, held, queue), held)
    ensures forall i :: 0 <= i < |queue| ==> !Older(Drained(true, held, queue), queue[i])
    ensures Drained(true, held, queue) == held || Drained(true, held, queue) in queue
    decreases |queue|
  {
    if queue != [] {
      DrainedIsTop(Receive(true, held, queue[0]), queue[1..]);
      assert forall i :: 1 <= i < |queue| ==> queue[i] == queue[1..][i - 1];
    }
  }

  /** A local write that is not behind the held row, and no tie with the queue, commutes with what is still to
      arrive: writing now and draining later is draining now and receiving the write last. */
  lemma {:induction false} WriteCommutes(held: Row, queue: seq<Row>, w: Row)
    requires !Older(w, held)
    requires forall i :: 0 <= i < |queue| ==> queue[i].updatedBy != w.updatedBy
    ensures Drained(true, w, queue) == Receive(true, Drained(true, held, queue), w)
    decreases |queue|
  {
    if queue != [] {
      var h, t := queue[0], queue[1..];
      assert forall i :: 0 <= i < |t| ==> t[i] == queue[i + 1];
      if Older(h, w) {
        WriteCommutes(Receive(true, held, h), t, w);
      } else {
        assert Receive(true, held, h) == h;
        DrainedIsTop(h, t);
      }
    }
  }

  /** Nothing that is to arrive reaches the held row. */
  ghost predicate AllOlder(queue: seq<Row>, held: Row) {
    forall i :: 0 <= i < |queue| ==> Older(queue[i], held)
  }

  lemma {:induction false} AllOlderDrops(held: Row, queue: seq<Row>)
    requires AllOlder(queue, held)
    ensures Drained(true, held, queue) == held
    decreases |queue|
  {
    if queue != [] {
      assert forall i :: 0 <= i < |queue[1..]| ==> queue[1..][i] == queue[i + 1];
      AllOlderDrops(held, queue[1..]);
    }
  }

  /** If something reaches the held row, then what is left does not depend on the held row or a lower one. */
  lemma {:induction false} OvertakenIsForgotten(held: Row, queue: seq<Row>, w: Row)
    requires Older(w, held) && !AllOlder(queue, held)
    ensures Drained(true, w, queue) == Drained(true, held, queue)
    decreases |queue|
  {
    var h, t := queue[0], queue[1..];
    if Older(h, held) {
      assert !AllOlder(t, held) by {
        var i :| 0 <= i < |queue| && !Older(queue[i], held);
        assert t[i - 1] == queue[i];
      }
      OvertakenIsForgotten(held, t, Receive(true, w, h));
    }
  }

  // ---------------------------------------------------------------- what every run keeps

  /** The row a node ends up with once its queue has drained. */
  function Future(s: State, n: Name): Row {
    Drained(true, At(s, n).row, At(s, n).inbox)
  }

  /** Queued changes were written by the peer. */
  ghost predicate FromPeer(s: State) {
    forall n, i: nat :: i < |At(s, n).inbox| ==> At(s, n).inbox[i].updatedBy == Peer(n)
  }

  ghost predicate Inv(s: State) {
    FromPeer(s) && Future(s, A) == Future(s, B)
  }

  /** What the code asks of a node's clock: a local write is not behind the row it overwrites. */
  predicate NotBehind(s: State, step: Step) {
    step.Write? ==> !Older(Written(step), At(s, step.n).row)
  }

  lemma StepFromPeer(s: State, step: Step)
    requires FromPeer(s)
    ensures FromPeer(Next(true, s, step))
  {
    var s' := Next(true, s, step);
    forall n, i: nat | i < |At(s', n).inbox| ensures At(s', n).inbox[i].updatedBy == Peer(n) {
      assert i < |At(s, n).inbox| ==> At(s, n).inbox[i].updatedBy == Peer(n);
      if step.Deliver? && i + 1 < |At(s, n).inbox| {
        assert At(s, n).inbox[i + 1].updatedBy == Peer(n);
      }
    }
  }

  /** A write changes the writer's future to its own row drained, and the peer's by one more arrival. */
  lemma WriteFutures(s: State, step: Step)
    requires step.Write?
    ensures var s' := Next(true, s, step);
            && Future(s', step.n) == Drained(true, Written(step), At(s, step.n).inbox)
            && Future(s', Peer(step.n)) == Receive(true, Future(s, Peer(step.n)), Written(step))
  {
    DrainedSnoc(true, At(s, Peer(step.n)).row, At(s, Peer(step.n)).inbox, Written(step));
  }

  /** Deliveries and partitions change nobody's future. */
  lemma OtherFutures(s: State, step: Step, n: Name)
    requires !step.Write?
    ensures Future(Next(true, s, step), n) == Future(s, n)
  {
  }

  /** Such a write leaves the nodes heading for the same row. */
  lemma InTimeAgrees(s: State, w: Step)
    requires Inv(s) && w.Write? && NotBehind(s, w)
    ensures Future(Next(true, s, w), A) == Future(Next(true, s, w), B)
  {
    WriteFutures(s, w);
    var node := At(s, w.n);
    assert forall i: nat :: i < |node.inbox| ==> node.inbox[i].updatedBy == Peer(w.n);
    WriteCommutes(node.row, node.inbox, Written(w));
  }

  /** The write is not behind, or the row it overwrites is about to be overtaken anyway. */
  ghost predicate Timely(s: State, step: Step) {
    step.Write? ==> NotBehind(s, step) || !AllOlder(At(s, step.n).inbox, At(s, step.n).row)
  }

  lemma WriteAgreesExactly(s: State, w: Step)
    requires Inv(s) && w.Write?
    ensures Future(Next(true, s, w), A) == Future(Next(true, s, w), B) <==> Timely(s, w)
  {
    var node, r := At(s, w.n), Written(w);
    WriteFutures(s, w);
    if NotBehind(s, w) {
      InTimeAgrees(s, w);
    } else {
      DrainedIsTop(node.row, node.inbox);
      if AllOlder(node.inbox, node.row) {
        AllOlderDrops(node.row, node.inbox);
        DrainedIsTop(r, node.inbox);
        assert Older(Drained(true, r, node.inbox), node.row);
      } else {
        OvertakenIsForgotten(node.row, node.inbox, r);
      }
    }
  }

  lemma StepExactly(s: State, step: Step)
    requires Inv(s)
    ensures Inv(Next(true, s, step)) <==> Timely(s, step)
  {
    hide Future, FromPeer;
    StepFromPeer(s, step);
    if step.Write? {
      WriteAgreesExactly(s, step);
    } else {
      OtherFutures(s, step, A);
      OtherFutures(s, step, B);
    }
  }

  ghost predicate AllTimely(s: State, steps: seq<Step>) {
    forall i: nat :: i < |steps| ==> Timely(Run(true, s, steps[..i]), steps[i])
  }

  lemma TimelySnoc(s: State, steps: seq<Step>)
    requires steps != []
    ensures var front := steps[..|steps| - 1];
            AllTimely(s, steps) <==> AllTimely(s, front) && Timely(Run(true, s, front), steps[|steps| - 1])
  {
    hide Run, Timely;
    var front := steps[..|steps| - 1];
    assert forall i: nat :: i < |front| ==> front[..i] == steps[..i] && front[i] == steps[i];
  }

  lemma {:induction false} RunKeeps(s: State, steps: seq<Step>)
    requires Inv(s) && AllTimely(s, steps)
    ensures Inv(Run(true, s, steps))
  {
    hide Inv, Next, Timely, AllTimely;
    if steps != [] {
      TimelySnoc(s, steps);
      RunKeeps(s, steps[..|steps| - 1]);
      StepExactly(Run(true, s, steps[..|steps| - 1]), steps[|steps| - 1]);
    }
  }

  // ---------------------------------------------------------------- every write counts

  /** `r` is the initial row or was written somewhere in the run. */
  ghost predicate Ever(s: State, steps: seq<Step>, r: Row) {
    r == s.a.row || exists i :: 0 <= i < |steps| && steps[i].Write? && r == Written(steps[i])
  }

  /** `r` is a greatest version among the initial row and everything written. */
  ghost predicate Greatest(s: State, steps: seq<Step>, r: Row) {
    && Ever(s, steps, r)
    && !Older(r, s.a.row)
    && (forall i :: 0 <= i < |steps| && steps[i].Write? ==> !Older(r, Written(steps[i])))
  }

  lemma GreatestSnoc(s: State, steps: seq<Step>, r: Row)
    requires steps != [] && Greatest(s, steps[..|steps| - 1], r)
    ensures var last := steps[|steps| - 1];
            Greatest(s, steps, if last.Write? then Receive(true, r, Written(last)) else r)
  {
    var front, last := steps[..|steps| - 1], steps[|steps| - 1];
    var r' := if last.Write? then Receive(true, r, Written(last)) else r;
    assert forall i :: 0 <= i < |front| ==> steps[i] == front[i];
    assert Ever(s, steps, r');
    forall i | 0 <= i < |steps| && steps[i].Write? ensures !Older(r', Written(steps[i])) {
      assert i < |front| ==> !Older(r, Written(front[i]));
    }
  }

  lemma {:induction false} FutureIsGreatest(s: State, steps: seq<Step>)
    requires Quiet(s) && s.a.row == s.b.row && AllTimely(s, steps)
    ensures Inv(Run(true, s, steps)) && Greatest(s, steps, Future(Run(true, s, steps), A))
  {
    RunKeeps(s, steps);
    if steps != [] {
      hide Inv, Next, Timely, AllTimely, Greatest, Receive;
      var front, last := steps[..|steps| - 1], steps[|steps| - 1];
      var before := Run(true, s, front);
      TimelySnoc(s, steps);
      FutureIsGreatest(s, front);
      GreatestSnoc(s, steps, Future(before, A));
      FutureStep(before, last);
    }
  }

  /** Even a write that is overtaken counts in the row both nodes are heading for. */
  lemma FutureStep(s: State, step: Step)
    requires Inv(s) && Timely(s, step)
    ensures Future(Next(true, s, step), A) ==
              if step.Write? then Receive(true, Future(s, A), Written(step)) else Future(s, A)
  {
    hide Timely, FromPeer;
    StepExactly(s, step);
    if step.Write? { WriteFutures(s, step); } else { OtherFutures(s, step, A); }
  }

  /** Convergence. With the guard on, any partitions and deliveries, and any number of writes each of which is not
      behind the row it overwrites, or overwrites a row that is about to be overtaken: whenever both queues are
      empty both nodes hold the same row, one of greatest version among all that was ever written. */
  lemma Converges(s: State, steps: seq<Step>)
    requires Quiet(s) && s.a.row == s.b.row && AllTimely(s, steps)
    ensures var after := Run(true, s, steps);
            Quiet(after) ==>
              after.a.row == after.b.row && Greatest(s, steps, after.a.row) && Latest(s, steps, after.a.row)
  {
    FutureIsGreatest(s, steps);
    if Quiet(Run(true, s, steps)) {
      GreatestIsLatest(s, steps, Run(true, s, steps).a.row);
    }
  }

  /** In plain numbers: `r` is the initial row or some write of the run, field by field; nothing in the run, nor the
      initial row, has a later time; and what has the same time and was written by B makes `r` B's. */
  ghost predicate Latest(s: State, steps: seq<Step>, r: Row) {
    && (r == s.a.row || exists i :: 0 <= i < |steps| && steps[i] == Write(r.updatedBy, r.balance, r.updatedAt))
    && r.updatedAt >= s.a.row.updatedAt
    && (r.updatedAt == s.a.row.updatedAt && s.a.row.updatedBy == B ==> r.updatedBy == B)
    && (forall i :: 0 <= i < |steps| && steps[i].Write? ==>
          && r.updatedAt >= steps[i].at
          && (r.updatedAt == steps[i].at && steps[i].n == B ==> r.updatedBy == B))
  }

  lemma GreatestIsLatest(s: State, steps: seq<Step>, r: Row)
    requires Greatest(s, steps, r)
    ensures Latest(s, steps, r)
  {
    if r != s.a.row {
      var i :| 0 <= i < |steps| && steps[i].Write? && r == Written(steps[i]);
      assert steps[i] == Write(r.updatedBy, r.balance, r.updatedAt);
    }
    forall i | 0 <= i < |steps| && steps[i].Write?
      ensures r.updatedAt >= steps[i].at && (r.updatedAt == steps[i].at && steps[i].n == B ==> r.updatedBy == B)
    {
      assert !Older(r, Written(steps[i]));
    }
  }

  // ---------------------------------------------------------------- exactly when

  ghost predicate WriteFree(steps: seq<Step>) {
    forall i :: 0 <= i < |steps| ==> !steps[i].Write?
  }

  lemma {:induction false} FuturesStay(s: State, steps: seq<Step>, n: Name)
    requires WriteFree(steps)
    ensures Future(Run(true, s, steps), n) == Future(s, n)
  {
    if steps != [] {
      hide Next, Future;
      FuturesStay(s, steps[..|steps| - 1], n);
      OtherFutures(Run(true, s, steps[..|steps| - 1]), steps[|steps| - 1], n);
    }
  }

  lemma {:induction false} RunConcat(s: State, steps: seq<Step>, more: seq<Step>)
    ensures Run(true, s, steps + more) == Run(true, Run(true, s, steps), more)
  {
    hide Next;
    if more == [] {
      assert steps + more == steps;
    } else {
      assert (steps + more)[..|steps + more| - 1] == steps + more[..|more| - 1];
      RunConcat(s, steps, more[..|more| - 1]);
    }
  }

  /** The link comes up and `k` changes arrive. */
  function Arrivals(n: Name, k: nat): seq<Step> {
    if k == 0 then [Link(n, true)] else Arrivals(n, k - 1) + [Deliver(n)]
  }

  lemma {:induction false} ArrivalsRun(s: State, n: Name, k: nat)
    requires k <= |At(s, n).inbox|
    ensures var s' := Run(true, s, Arrivals(n, k));
            At(s', n).enabled && At(s', n).inbox == At(s, n).inbox[k..] && At(s', Peer(n)) == At(s, Peer(n))
    ensures WriteFree(Arrivals(n, k))
  {
    if k == 0 {
      assert [Link(n, true)][..0] == [];
    } else {
      ArrivalsRun(s, n, k - 1);
      assert (Arrivals(n, k - 1) + [Deliver(n)])[..|Arrivals(n, k - 1)|] == Arrivals(n, k - 1);
    }
  }

  /** Every state can drain without a further write. */
  lemma CanDrain(s: State) returns (rest: seq<Step>)
    ensures WriteFree(rest) && Quiet(Run(true, s, rest))
  {
    var s1 := Run(true, s, Arrivals(A, |s.a.inbox|));
    ArrivalsRun(s, A, |s.a.inbox|);
    ArrivalsRun(s1, B, |s1.b.inbox|);
    rest := Arrivals(A, |s.a.inbox|) + Arrivals(B, |s1.b.inbox|);
    RunConcat(s, Arrivals(A, |s.a.inbox|), Arrivals(B, |s1.b.inbox|));
  }

  /** If nobody writes any more, then however and whenever the queues drain, both nodes hold the same row. */
  ghost predicate Heals(s: State) {
    forall rest :: WriteFree(rest) && Quiet(Run(true, s, rest)) ==> Run(true, s, rest).a.row == Run(true, s, rest).b.row
  }

  lemma HealsExactly(s: State)
    ensures Heals(s) <==> Future(s, A) == Future(s, B)
  {
    forall rest | WriteFree(rest) && Quiet(Run(true, s, rest))
      ensures Run(true, s, rest).a.row == Future(s, A) && Run(true, s, rest).b.row == Future(s, B)
    {
      FuturesStay(s, rest, A);
      FuturesStay(s, rest, B);
    }
    hide Run, Quiet, WriteFree;
    var rest := CanDrain(s);
  }

  /** At every point of the run, the nodes agree once drained. */
  ghost predicate AlwaysHeals(s: State, steps: seq<Step>) {
    forall k: nat :: k <= |steps| ==> Heals(Run(true, s, steps[..k]))
  }

  lemma AlwaysHealsSnoc(s: State, steps: seq<Step>)
    requires steps != []
    ensures AlwaysHeals(s, steps) <==> AlwaysHeals(s, steps[..|steps| - 1]) && Heals(Run(true, s, steps))
  {
    hide Run, Heals;
    var front := steps[..|steps| - 1];
    assert forall k: nat :: k <= |front| ==> front[..k] == steps[..k];
    assert steps[..|steps|] == steps;
  }

  /** The nodes agree at every point of a run, once drained, exactly if every write in it is not behind the row it
      overwrites, or overwrites a row that is about to be overtaken anyway. Local writes are unguarded, so nothing
      but the clocks sees to that. */
  lemma {:induction false} ConvergesExactly(s: State, steps: seq<Step>)
    requires Inv(s)
    ensures AlwaysHeals(s, steps) <==> AllTimely(s, steps)
  {
    hide Inv, Next, Timely, AllTimely, AlwaysHeals;
    if steps == [] {
      NoSteps(s);
    } else {
      var front, last := steps[..|steps| - 1], steps[|steps| - 1];
      AlwaysHealsSnoc(s, steps);
      TimelySnoc(s, steps);
      ConvergesExactly(s, front);
      if AllTimely(s, front) {
        RunKeeps(s, front);
        LastExactly(Run(true, s, front), last);
      }
    }
  }

  lemma LastExactly(s: State, step: Step)
    requires Inv(s)
    ensures Heals(Next(true, s, step)) <==> Timely(s, step)
  {
    StepFromPeer(s, step);
    StepExactly(s, step);
    hide Timely, FromPeer, Next, Future;
    HealsExactly(Next(true, s, step));
  }

  lemma NoSteps(s: State)
    requires Inv(s)
    ensures AlwaysHeals(s, []) && AllTimely(s, [])
  {
    HealsExactly(s);
    hide Heals;
    var none: seq<Step> := [];
    assert forall k: nat :: k <= |none| ==> none[..k] == [];
  }

  /** One more write after a timely run leaves the nodes equal, once drained, exactly when it is timely too. */
  lemma LateWriteExactly(s0: State, before: seq<Step>, w: Step, rest: seq<Step>)
    requires Quiet(s0) && s0.a.row == s0.b.row && AllTimely(s0, before) && w.Write? && WriteFree(rest)
    ensures var s := Run(true, s0, before);
            var after := Run(true, Next(true, s, w), rest);
            Quiet(after) ==>
              (after.a.row == after.b.row <==> NotBehind(s, w) || !AllOlder(At(s, w.n).inbox, At(s, w.n).row))
  {
    RunKeeps(s0, before);
    var s := Run(true, s0, before);
    WriteAgreesExactly(s, w);
    FuturesStay(Next(true, s, w), rest, A);
    FuturesStay(Next(true, s, w), rest, B);
  }

  /** It happens to any row that a slow clock overwrites: the peer keeps the old row, the writer its own. */
  lemma SlowClockDiverges(s: State, balance: int, at: int)
    requires Quiet(s) && s.a.row == s.b.row && s.b.enabled && Older(Row(balance, at, A), s.a.row)
    ensures var after := Run(true, s, [Write(A, balance, at), Deliver(B)]);
            Quiet(after) && after.a.row == Row(balance, at, A) && after.b.row == s.b.row && after.a.row != after.b.row
  {
    var w, d := Write(A, balance, at), Deliver(B);
    assert [w, d][..1] == [w] && [w][..0] == [];
    assert Run(true, s, [w]) == Next(true, s, w);
    assert [Row(balance, at, A)][1..] == [];
  }

  // ---------------------------------------------------------------- a partition with one write on each side

  /** Without the guard the two rows change places, so the nodes agree only if they wrote the same row, which
      they cannot; with it both keep the later write, even if both clocks are behind the row held before. */
  lemma PartitionOutcome(guard: bool, wa: Row, wb: Row)
    requires wa.updatedBy == A && wb.updatedBy == B
    ensures !guard ==> Drained(guard, wa, [wb]) == wb && Drained(guard, wb, [wa]) == wa
    ensures guard ==> Drained(guard, wa, [wb]) == Drained(guard, wb, [wa]) == if Older(wa, wb) then wb else wa
    ensures guard ==> Drained(guard, wa, [wb]) == if wa.updatedAt > wb.updatedAt then wa else wb
    ensures Drained(guard, wa, [wb]) == Drained(guard, wb, [wa]) <==> guard
  {
    DrainedSnoc(guard, wa, [], wb);
    DrainedSnoc(guard, wb, [], wa);
    assert [] + [wa] == [wa] && [] + [wb] == [wb];
  }

  /** A primary as the program drives it. */
  class Primary {
    const name: Name
    var row: Row
    var inbox: seq<Row>
    var streaming: bool
    var guard: bool

    constructor (name: Name, row: Row)
      ensures this.name == name && this.row == row && inbox == [] && streaming && !guard
    {
      this.name, this.row, inbox, streaming, guard := name, row, [], true, false;
    }

    /** An update on this node: the row changes at once, the peer's slot gets the change. */
    method Update(peer: Primary, balance: int, at: int)
      requires peer != this
      modifies this`row, peer`inbox
      ensures row == Row(balance, at, name) && peer.inbox == old(peer.inbox) + [row]
    {
      row := Row(balance, at, name);
      peer.inbox := peer.inbox + [row];
    }

    /** The apply worker, until it has caught up. */
    method CatchUp()
      requires streaming
      modifies this`row, this`inbox
      ensures inbox == [] && row == Drained(guard, old(row), old(inbox))
    {
      while inbox != []
        invariant Drained(guard, row, inbox) == Drained(guard, old(row), old(inbox))
        decreases |inbox|
      {
        if !guard || !Older(inbox[0], row) {
          row := inbox[0];
        }
        inbox := inbox[1..];
      }
    }
  }

  /** concurrentUpdates: cut the link, update on both sides, restore the link, wait until both have caught up. */
  method ConcurrentUpdates(a: Primary, b: Primary, balanceA: int, atA: int, balanceB: int, atB: int)
    requires a != b && a.name == A && b.name == B
    modifies a, b
    ensures a.guard == old(a.guard) && b.guard == old(b.guard) && a.streaming && b.streaming
    ensures a.inbox == [] && b.inbox == []
    ensures a.row == Drained(a.guard, Row(balanceA, atA, A), old(a.inbox) + [Row(balanceB, atB, B)])
    ensures b.row == Drained(b.guard, Row(balanceB, atB, B), old(b.inbox) + [Row(balanceA, atA, A)])
    ensures old(a.inbox) == old(b.inbox) == [] && a.guard == b.guard ==>
              (a.row == b.row <==> a.guard)
    ensures old(a.inbox) == old(b.inbox) == [] && a.guard && b.guard ==>
              a.row == b.row == if atA > atB then Row(balanceA, atA, A) else Row(balanceB, atB, B)
    ensures old(a.inbox) == old(b.inbox) == [] && !a.guard && !b.guard ==>
              a.row == Row(balanceB, atB, B) && b.row == Row(balanceA, atA, A)
  {
    a.streaming := false;
    b.streaming := false;
    a.Update(b, balanceA, atA);
    b.Update(a, balanceB, atB);
    a.streaming := true;
    b.streaming := true;
    a.CatchUp();
    b.CatchUp();
    PartitionOutcome(a.guard, Row(balanceA, atA, A), Row(balanceB, atB, B));
  }
}
