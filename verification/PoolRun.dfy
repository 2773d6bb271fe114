// RunDiagnostics as the goroutines execute it: channels, worker states, the
// `received` counter and the result slice are updated in place, one atomic
// step at a time, in whatever order the scheduler picks.

module PoolRun {
  import opened Prelude
  import opened WorkerPool
  import opened PoolInvariant
  import opened PoolTheorems

  class Pool<R> {
    const c: Config<R>
    var next: nat
    var producerDone: bool
    var targetChan: seq<nat>
    var targetClosed: bool
    const workers: array<Worker<R>>
    var resultChan: seq<IndexedResult<R>>
    var resultClosed: bool
    var closerDone: bool
    const results: array<Option<R>>
    var received: nat
    var returned: bool
    var cancelled: bool

    function View(): State<R>
      reads this, workers, results
    {
      State(next, producerDone, targetChan, targetClosed, workers[..],
            resultChan, resultClosed, closerDone,
            results[..], received, returned, cancelled, false)
    }

    constructor (c: Config<R>)
      requires Valid(c)
      ensures this.c == c && View() == Init(c)
      ensures fresh(workers) && fresh(results)
    {
      this.c := c;
      next, producerDone, targetChan, targetClosed := 0, false, [], false;
      workers := new Worker<R>[NumWorkers(c)](_ => Idle);
      resultChan, resultClosed, closerDone := [], false, false;
      results := new Option<R>[c.n](_ => None);
      received, returned, cancelled := 0, false, false;
      new;
      assert workers[..] == Init(c).workers;
      assert results[..] == Init(c).slots;
    }

    method ProducerStep(act: ProducerAct)
      requires Inv(c, View()) && ProducerEnabled(c, View(), act)
      modifies this
      ensures View() == ProducerApply(c, old(View()), act)
    {
      if act.Send? {
        targetChan := targetChan + [next];
        next := next + 1;
      } else {
        targetClosed := true;
        producerDone := true;
      }
    }

    method WorkerStep(w: nat, act: WorkerAct)
      requires Inv(c, View()) && WorkerEnabled(c, View(), w, act)
      modifies this, workers
      ensures View() == WorkerApply(c, old(View()), w, act)
    {
      var worker := workers[w];
      match act {
        case Take =>
          workers[w] := Holding(targetChan[0]);
          targetChan := targetChan[1..];
        case Quit =>
          workers[w] := Exited(None);
        case Begin =>
          workers[w] := Running(worker.index);
        case Complete =>
          workers[w] := Executed(worker.index, c.outcome(worker.index));
        case Deliver =>
          resultChan := resultChan + [IndexedResult(worker.index, worker.result)];
          workers[w] := Idle;
        case Abort =>
          workers[w] := Exited(Some(worker.index));
        case Drop =>
          workers[w] := Exited(Some(worker.index));
      }
    }

    method CloserStep()
      requires Inv(c, View()) && Enabled(c, View(), CloseResults)
      modifies this
      ensures View() == Apply(c, old(View()), CloseResults)
    {
      resultClosed := true;
      closerDone := true;
    }

    method CollectorStep(act: CollectorAct)
      requires Inv(c, View()) && CollectorEnabled(View(), act)
      modifies this, results
      ensures View() == CollectorApply(old(View()), act)
    {
      CollectorInv(c, View(), act);
      if act.Receive? {
        var item := resultChan[0];
        resultChan := resultChan[1..];
        results[item.index] := Some(item.result);
        received := received + 1;
      } else {
        returned := true;
      }
    }

    method Step(e: Event)
      requires Inv(c, View()) && Enabled(c, View(), e)
      modifies this, workers, results
      ensures View() == Apply(c, old(View()), e)
    {
      match e {
        case Cancel => cancelled := true;
        case Produce(act) => ProducerStep(act);
        case Work(w, act) => WorkerStep(w, act);
        case CloseResults => CloserStep();
        case Collect(act) => CollectorStep(act);
      }
    }
  }

  // A scheduler may pick any step the pool is able to take, including a
  // cancellation, and may remember how many steps were taken.
  ghost predicate Admissible<R(!new)>(c: Config<R>, schedule: (nat, State<R>) -> Event) {
    forall k: nat, s: State<R> :: Inv(c, s) && !s.returned ==> Enabled(c, s, schedule(k, s))
  }

  ghost function AnyStep<R>(c: Config<R>, s: State<R>): (e: Event)
    ensures Valid(c) && Inv(c, s) && !Final(s) ==> e != Cancel && Enabled(c, s, e)
  {
    if Valid(c) && Inv(c, s) && !Final(s) then
      InvProgress(c, s);
      var e :| e != Cancel && Enabled(c, s, e);
      e
    else Cancel
  }

  // There is such a scheduler, and one that never cancels.
  lemma SchedulerExists<R(!new)>(c: Config<R>)
    requires Valid(c)
    ensures exists schedule: (nat, State<R>) -> Event ::
              && Admissible(c, schedule)
              && forall k: nat, s: State<R> :: Inv(c, s) && !s.returned ==> schedule(k, s) != Cancel
  {
    var schedule: (nat, State<R>) -> Event := (k, s) => AnyStep(c, s);
    assert Admissible(c, schedule);
    assert forall k: nat, s: State<R> :: Inv(c, s) && !s.returned ==> schedule(k, s) != Cancel;
  }

  // Under every scheduler the call returns, and what it returns is the ordered
  // results unless the context was cancelled.
  method RunDiagnostics<R(!new)>(c: Config<R>, schedule: (nat, State<R>) -> Event)
    returns (results: seq<Option<R>>, cancelled: bool, ghost es: seq<Event>)
    requires Admissible(c, schedule)
    // The run behind it; there are as many slots as it received results, and each
    // holds its own result if that was among them.
    ensures c.n == 0 ==> results == [] && !cancelled
    ensures c.n > 0 ==> && IsRun(c, Init(c), es) && After(c, Init(c), es).returned
                        && cancelled == After(c, Init(c), es).cancelled
                        && |results| == Receives(es)
                        && forall i: nat :: i < |results| ==>
                             results[i] == if Collected(c, Init(c), es, i) then Some(c.outcome(i)) else None
    ensures !cancelled ==> results == Ordered(c, c.n)
    ensures NumWorkers(c) == 1 ==> results == Ordered(c, |results|)
    ensures |results| <= c.n && Holes(results) < NumWorkers(c)
    ensures forall i :: 0 <= i < |results| && results[i].Some? ==> results[i].value == c.outcome(i)
  {
    es := [];
    if c.n == 0 {
      return [], false, es;
    }
    var pool := new Pool(c);
    InitInv(c);
    var k := 0;
    while !pool.returned
      invariant pool.c == c && fresh(pool) && fresh(pool.workers) && fresh(pool.results)
      invariant IsRun(c, Init(c), es) && pool.View() == After(c, Init(c), es)
      invariant Inv(c, pool.View())
      decreases Measure(c, pool.View())
    {
      var e := schedule(k, pool.View());
      ghost var s := pool.View();
      StepInv(c, s, e);
      MeasureStep(c, s, e);
      RunAppend(c, Init(c), es, e);
      pool.Step(e);
      es := es + [e];
      k := k + 1;
    }
    ghost var s := pool.View();
    TrimCounting(c, es);
    Returned(c, es);
    if !pool.cancelled { CompleteRun(c, es); }
    if NumWorkers(c) == 1 { SingleWorkerPrefix(c, es); }
    results := pool.results[..];
    if pool.received < c.n {
      results := results[..pool.received];
    }
    cancelled := pool.cancelled;
  }
}
