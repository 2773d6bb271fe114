// What every reachable state of the pool satisfies.

module PoolInvariant {
  import opened Prelude
  import opened Counting
  import opened WorkerPool

  // The index a worker is accountable for: the one in its hands, or the one it
  // was carrying when it returned.
  function Owner<R>(worker: Worker<R>): Option<nat> {
    match worker
    case Idle => None
    case Holding(i) => Some(i)
    case Running(i) => Some(i)
    case Executed(i, _) => Some(i)
    case Exited(dropped) => dropped
  }

  function Owners<R>(workers: seq<Worker<R>>): (o: seq<Option<nat>>)
    ensures |o| == |workers|
  {
    seq(|workers|, w requires 0 <= w < |workers| => Owner(workers[w]))
  }

  function Flying<R>(chan: seq<IndexedResult<R>>): (f: seq<nat>)
    ensures |f| == |chan|
  {
    seq(|chan|, k requires 0 <= k < |chan| => chan[k].index)
  }

  // How many items workers have taken off the target channel.
  function Dequeued<R>(s: State<R>): int {
    s.next - |s.targetChan|
  }

  // Where the dequeued indices are.
  datatype Places<R> = Places(
    dequeued: int, owners: seq<Option<nat>>, flying: seq<nat>, slots: seq<Option<R>>)

  function PlacesOf<R>(s: State<R>): Places<R> {
    Places(Dequeued(s), Owners(s.workers), Flying(s.resultChan), s.slots)
  }

  ghost predicate Owned(owners: seq<Option<nat>>, i: nat) {
    Some(i) in owners
  }

  ghost predicate InFlight(flying: seq<nat>, i: nat) {
    i in flying
  }

  ghost predicate Received<R>(slots: seq<Option<R>>, i: nat) {
    i < |slots| && slots[i].Some?
  }

  // No index is in two places: with two workers, twice in the result channel,
  // or received while still underway.
  ghost predicate Exclusive<R>(p: Places<R>) {
    && (forall i: nat :: Owned(p.owners, i) ==> i < p.dequeued && !InFlight(p.flying, i) && !Received(p.slots, i))
    && (forall v, w :: 0 <= v < w < |p.owners| && p.owners[v].Some? ==> p.owners[v] != p.owners[w])
    && (forall i: nat :: InFlight(p.flying, i) ==> i < p.dequeued && !Received(p.slots, i))
    && (forall j, k :: 0 <= j < k < |p.flying| ==> p.flying[j] != p.flying[k])
    && (forall i: nat :: Received(p.slots, i) ==> i < p.dequeued)
  }

  // No dequeued index is lost sight of.
  ghost predicate Covered<R>(p: Places<R>) {
    forall i: nat :: i < p.dequeued ==> Owned(p.owners, i) || InFlight(p.flying, i) || Received(p.slots, i)
  }

  ghost predicate Tally<R>(p: Places<R>) {
    Filled(p.owners) + |p.flying| + Filled(p.slots) == p.dequeued
  }

  // Whoever took the most recently dequeued index has taken nothing since.
  ghost predicate LastTaker<R>(p: Places<R>, w: nat) {
    w < |p.owners| && (p.owners[w].None? || p.owners[w] == Some(p.dequeued - 1))
  }

  ghost predicate Accounted<R>(p: Places<R>) {
    && Exclusive(p) && Covered(p) && Tally(p)
    && (p.dequeued > 0 ==> exists w :: LastTaker(p, w))
  }

  ghost predicate Shape<R>(c: Config<R>, s: State<R>) {
    && !s.panicked
    && |s.workers| == NumWorkers(c)
    && |s.slots| == c.n
    && s.next <= c.n
    && |s.targetChan| <= Capacity(c)
    && |s.resultChan| <= Capacity(c)
    && s.received == Filled(s.slots)
  }

  // Each channel is closed by its one closer and by nobody else.
  ghost predicate Lifecycle<R>(c: Config<R>, s: State<R>) {
    && s.targetClosed == s.producerDone
    && (s.producerDone ==> s.next == c.n || s.cancelled)
    && s.resultClosed == s.closerDone
    && (s.resultClosed ==> AllExited(s.workers))
    && (s.returned ==> s.resultClosed && s.resultChan == [])
    && (forall w :: 0 <= w < |s.workers| && s.workers[w].Exited? ==>
          if s.workers[w].dropped.Some? then s.cancelled else s.targetClosed && s.targetChan == [])
  }

  // The target channel holds one contiguous block of indices in order.
  ghost predicate Fifo<R>(s: State<R>) {
    && |s.targetChan| <= s.next
    && (forall k :: 0 <= k < |s.targetChan| ==> s.targetChan[k] == Dequeued(s) + k)
  }

  // Every result travels with the index it was computed for.
  ghost predicate Genuine<R>(c: Config<R>, s: State<R>) {
    && (forall w :: 0 <= w < |s.workers| && s.workers[w].Executed? ==>
          s.workers[w].result == c.outcome(s.workers[w].index))
    && (forall k :: 0 <= k < |s.resultChan| ==> s.resultChan[k].result == c.outcome(s.resultChan[k].index))
    && (forall i :: 0 <= i < |s.slots| && s.slots[i].Some? ==> s.slots[i].value == c.outcome(i))
  }

  ghost predicate Inv<R>(c: Config<R>, s: State<R>) {
    Shape(c, s) && Lifecycle(c, s) && Fifo(s) && Genuine(c, s) && Accounted(PlacesOf(s))
  }

  lemma InitInv<R>(c: Config<R>)
    requires Valid(c)
    ensures Inv(c, Init(c))
  {
    FilledEmpty(Init(c).slots);
    FilledEmpty(Owners(Init(c).workers));
  }

  // The three moves an index makes; each keeps the accounts.

  lemma TakeOwned(owners: seq<Option<nat>>, w: nat, i: nat, j: nat)
    requires w < |owners| && owners[w].None?
    ensures Owned(owners[w := Some(i)], j) <==> Owned(owners, j) || j == i
  {
    var after: seq<Option<nat>> := owners[w := Some(i)];
    assert after[w] == Some(i);
    if Owned(owners, j) {
      var v :| 0 <= v < |owners| && owners[v] == Some(j);
      assert after[v] == Some(j);
    }
  }

  lemma TakeExclusive<R>(p: Places<R>, w: nat, i: nat)
    requires Exclusive(p) && p.dequeued == i && w < |p.owners| && p.owners[w].None?
    ensures Exclusive(p.(dequeued := i + 1, owners := p.owners[w := Some(i)]))
  {
    hide Owned, InFlight, Received;
    var q := p.(dequeued := i + 1, owners := p.owners[w := Some(i)]);
    forall j: nat | Owned(q.owners, j)
      ensures j < q.dequeued && !InFlight(q.flying, j) && !Received(q.slots, j)
    {
      TakeOwned(p.owners, w, i, j);
    }
    forall v | 0 <= v < |p.owners| && p.owners[v].Some? ensures p.owners[v].value < i {
      OwnedAt(p.owners, v);
    }
    TakeDistinct(p.owners, w, i);
  }

  lemma OwnedAt(owners: seq<Option<nat>>, v: nat)
    requires v < |owners| && owners[v].Some?
    ensures Owned(owners, owners[v].value)
  {
  }

  lemma TakeDistinct(owners: seq<Option<nat>>, w: nat, i: nat)
    requires w < |owners|
    requires forall v :: 0 <= v < |owners| && owners[v].Some? ==> owners[v].value < i
    requires forall u, v :: 0 <= u < v < |owners| && owners[u].Some? ==> owners[u] != owners[v]
    ensures var after: seq<Option<nat>> := owners[w := Some(i)];
            forall u, v :: 0 <= u < v < |after| && after[u].Some? ==> after[u] != after[v]
  {
  }

  lemma TakeAccounted<R>(p: Places<R>, w: nat)
    requires Accounted(p) && p.dequeued >= 0 && w < |p.owners| && p.owners[w].None?
    ensures Accounted(p.(dequeued := p.dequeued + 1, owners := p.owners[w := Some(p.dequeued)]))
  {
    hide Exclusive, Owned, InFlight, Received;
    var i: nat := p.dequeued;
    var owners: seq<Option<nat>> := p.owners[w := Some(i)];
    var q := p.(dequeued := i + 1, owners := owners);
    FilledUpdate(p.owners, w, Some(i));
    forall j: nat ensures Owned(owners, j) <==> Owned(p.owners, j) || j == i {
      TakeOwned(p.owners, w, i, j);
    }
    TakeExclusive(p, w, i);
    assert LastTaker(q, w);
  }

  lemma DeliverAccounted<R>(p: Places<R>, w: nat)
    requires Accounted(p) && w < |p.owners| && p.owners[w].Some?
    ensures Accounted(p.(owners := p.owners[w := None], flying := p.flying + [p.owners[w].value]))
  {
    var i := p.owners[w].value;
    var owners, flying := p.owners[w := None], p.flying + [i];
    FilledUpdate(p.owners, w, None);
    assert Owned(p.owners, i);
    forall j: nat ensures Owned(owners, j) <==> Owned(p.owners, j) && j != i {
      if Owned(p.owners, j) && j != i {
        var v :| 0 <= v < |p.owners| && p.owners[v] == Some(j);
        assert owners[v] == Some(j);
      }
    }
    assert forall j: nat :: InFlight(flying, j) <==> InFlight(p.flying, j) || j == i;
    assert forall k :: 0 <= k < |p.flying| ==> InFlight(p.flying, p.flying[k]);
    assert LastTaker(p.(owners := owners, flying := flying), w);
  }

  lemma ReceiveAccounted<R>(p: Places<R>, r: R)
    requires Accounted(p) && p.flying != [] && p.flying[0] < |p.slots|
    ensures Accounted(p.(flying := p.flying[1..], slots := p.slots[p.flying[0] := Some(r)]))
  {
    var i := p.flying[0];
    var q := p.(flying := p.flying[1..], slots := p.slots[i := Some(r)]);
    assert InFlight(p.flying, i);
    FilledUpdate(p.slots, i, Some(r));
    assert forall j: nat :: InFlight(p.flying, j) <==> InFlight(q.flying, j) || j == i;
    assert forall j: nat :: Received(q.slots, j) <==> Received(p.slots, j) || j == i;
    if p.dequeued > 0 {
      var w :| LastTaker(p, w);
      assert LastTaker(q, w);
    }
  }

  lemma OwnersUpdate<R>(workers: seq<Worker<R>>, w: nat, worker: Worker<R>)
    requires w < |workers|
    ensures Owners(workers[w := worker]) == Owners(workers)[w := Owner(worker)]
  {
  }

  // A worker moves an index only by taking or delivering it.
  lemma WorkerPlaces<R>(c: Config<R>, s: State<R>, w: nat, act: WorkerAct)
    requires WorkerEnabled(c, s, w, act) && Shape(c, s) && Lifecycle(c, s) && Fifo(s)
    ensures var p, q := PlacesOf(s), PlacesOf(WorkerApply(c, s, w, act));
            match act
            case Take => q == p.(dequeued := p.dequeued + 1, owners := p.owners[w := Some(p.dequeued)])
            case Deliver => q == p.(owners := p.owners[w := None], flying := p.flying + [s.workers[w].index])
            case _ => q == p
  {
    OwnersUpdate(s.workers, w, WorkerApply(c, s, w, act).workers[w]);
  }

  lemma WorkerAccounted<R>(c: Config<R>, s: State<R>, w: nat, act: WorkerAct)
    requires Inv(c, s) && WorkerEnabled(c, s, w, act)
    ensures Accounted(PlacesOf(WorkerApply(c, s, w, act)))
  {
    WorkerPlaces(c, s, w, act);
    var p := PlacesOf(s);
    match act
    case Take => TakeAccounted(p, w);
    case Deliver => DeliverAccounted(p, w);
    case _ =>
  }

  lemma WorkerShape<R>(c: Config<R>, s: State<R>, w: nat, act: WorkerAct)
    requires Inv(c, s) && WorkerEnabled(c, s, w, act)
    ensures Shape(c, WorkerApply(c, s, w, act)) && Fifo(WorkerApply(c, s, w, act))
  {
  }

  lemma WorkerLifecycle<R>(c: Config<R>, s: State<R>, w: nat, act: WorkerAct)
    requires Inv(c, s) && WorkerEnabled(c, s, w, act)
    ensures Lifecycle(c, WorkerApply(c, s, w, act))
  {
  }

  lemma WorkerGenuine<R>(c: Config<R>, s: State<R>, w: nat, act: WorkerAct)
    requires Genuine(c, s) && WorkerEnabled(c, s, w, act)
    ensures Genuine(c, WorkerApply(c, s, w, act))
  {
  }

  lemma ProducerInv<R>(c: Config<R>, s: State<R>, act: ProducerAct)
    requires Inv(c, s) && ProducerEnabled(c, s, act)
    ensures Inv(c, ProducerApply(c, s, act))
  {
    assert PlacesOf(ProducerApply(c, s, act)) == PlacesOf(s);
  }

  // A result that arrives finds its slot unwritten.
  lemma CollectorInv<R>(c: Config<R>, s: State<R>, act: CollectorAct)
    requires Inv(c, s) && CollectorEnabled(s, act)
    ensures Inv(c, CollectorApply(s, act))
    ensures act.Receive? ==> s.resultChan[0].index < |s.slots| && s.slots[s.resultChan[0].index].None?
  {
    var p := PlacesOf(s);
    match act
    case Receive =>
      var item := s.resultChan[0];
      assert InFlight(p.flying, p.flying[0]);
      assert !Received(s.slots, item.index);
      ReceiveAccounted(p, item.result);
      assert Flying(s.resultChan[1..]) == Flying(s.resultChan)[1..];
      FilledUpdate(s.slots, item.index, Some(item.result));
      assert PlacesOf(CollectorApply(s, act))
          == p.(flying := p.flying[1..], slots := p.slots[p.flying[0] := Some(item.result)]);
    case Return => assert PlacesOf(CollectorApply(s, act)) == p;
  }

  lemma StepInv<R>(c: Config<R>, s: State<R>, e: Event)
    requires Valid(c) && Inv(c, s) && Enabled(c, s, e)
    ensures Inv(c, Apply(c, s, e))
  {
    match e
    case Cancel => assert PlacesOf(Apply(c, s, e)) == PlacesOf(s);
    case Produce(act) => ProducerInv(c, s, act);
    case Work(w, act) =>
      WorkerShape(c, s, w, act);
      WorkerLifecycle(c, s, w, act);
      WorkerGenuine(c, s, w, act);
      WorkerAccounted(c, s, w, act);
    case CloseResults => assert PlacesOf(Apply(c, s, e)) == PlacesOf(s);
    case Collect(act) => CollectorInv(c, s, act);
  }

  lemma {:induction false} RunInv<R>(c: Config<R>, s: State<R>, es: seq<Event>)
    requires Valid(c) && Inv(c, s) && IsRun(c, s, es)
    ensures Inv(c, After(c, s, es))
    decreases |es|
  {
    if es != [] {
      StepInv(c, s, es[0]);
      RunInv(c, Apply(c, s, es[0]), es[1..]);
    }
  }
}
