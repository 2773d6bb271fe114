// How many holes are possible: for every configuration of N targets and W
// effective workers, exactly the numbers below W that are at most half of N.

module PoolWorstCase {
  import opened Prelude
  import opened Counting
  import opened WorkerPool
  import opened PoolTheorems

  ghost predicate Reachable<R>(c: Config<R>, s: State<R>) {
    exists es :: IsRun(c, Init(c), es) && After(c, Init(c), es) == s
  }

  lemma ReachStep<R>(c: Config<R>, s: State<R>, e: Event)
    requires Reachable(c, s) && Enabled(c, s, e)
    ensures Reachable(c, Apply(c, s, e))
  {
    var es :| IsRun(c, Init(c), es) && After(c, Init(c), es) == s;
    RunAppend(c, Init(c), es, e);
  }

  // h workers to stall, one more to overtake them, and an item for each of both.
  predicate Roomy<R>(c: Config<R>, h: nat) {
    Valid(c) && h < NumWorkers(c) && 2 * h <= c.n
  }

  // The first k workers each hold the item of their own number.
  function Stalled<R>(c: Config<R>, k: nat): State<R> {
    Init(c).(next := k,
             workers := seq(NumWorkers(c), w requires 0 <= w < NumWorkers(c) => if w < k then Holding(w) else Idle))
  }

  lemma {:induction false} ReachStalled<R>(c: Config<R>, h: nat, k: nat)
    requires Roomy(c, h) && k <= h
    ensures Reachable(c, Stalled(c, k))
  {
    if k == 0 {
      assert Stalled(c, 0).workers == Init(c).workers;
      assert IsRun(c, Init(c), []) && After(c, Init(c), []) == Stalled(c, 0);
    } else {
      ReachStalled(c, h, k - 1);
      var s := Stalled(c, k - 1);
      ReachStep(c, s, Produce(Send));
      var t := Apply(c, s, Produce(Send));
      ReachStep(c, t, Work(k - 1, Take));
      assert Apply(c, t, Work(k - 1, Take)).workers == Stalled(c, k).workers;
    }
  }

  // Worker h alone then carries j further items through to the slice.
  function Overtaken<R>(c: Config<R>, h: nat, j: nat): State<R> {
    Stalled(c, h).(
      next := h + j,
      slots := seq(c.n, i requires 0 <= i < c.n => if h <= i < h + j then Some(c.outcome(i)) else None),
      received := j)
  }

  // The item on its way: sent, taken, begun, completed.
  lemma OvertakeWork<R>(c: Config<R>, h: nat, j: nat)
    requires Roomy(c, h) && j < h && Reachable(c, Overtaken(c, h, j))
    ensures var s := Overtaken(c, h, j);
            Reachable(c, s.(next := h + j + 1, workers := s.workers[h := Executed(h + j, c.outcome(h + j))]))
  {
    var s0 := Overtaken(c, h, j);
    ReachStep(c, s0, Produce(Send));
    var s1 := Apply(c, s0, Produce(Send));
    ReachStep(c, s1, Work(h, Take));
    var s2 := Apply(c, s1, Work(h, Take));
    ReachStep(c, s2, Work(h, Begin));
    var s3 := Apply(c, s2, Work(h, Begin));
    ReachStep(c, s3, Work(h, Complete));
    assert Apply(c, s3, Work(h, Complete))
        == s0.(next := h + j + 1, workers := s0.workers[h := Executed(h + j, c.outcome(h + j))]);
  }

  // Delivered and received.
  lemma Overtake<R>(c: Config<R>, h: nat, j: nat)
    requires Roomy(c, h) && j < h && Reachable(c, Overtaken(c, h, j))
    ensures Reachable(c, Overtaken(c, h, j + 1))
  {
    OvertakeWork(c, h, j);
    var s := Overtaken(c, h, j);
    var s4 := s.(next := h + j + 1, workers := s.workers[h := Executed(h + j, c.outcome(h + j))]);
    ReachStep(c, s4, Work(h, Deliver));
    var s5 := Apply(c, s4, Work(h, Deliver));
    assert s5.workers == s.workers;
    ReachStep(c, s5, Collect(Receive));
    var s6 := Apply(c, s5, Collect(Receive));
    assert s6.slots == Overtaken(c, h, j + 1).slots;
    assert s6 == Overtaken(c, h, j + 1);
  }

  lemma {:induction false} ReachOvertaken<R>(c: Config<R>, h: nat, j: nat)
    requires Roomy(c, h) && j <= h
    ensures Reachable(c, Overtaken(c, h, j))
  {
    if j == 0 {
      ReachStalled(c, h, h);
      assert Overtaken(c, h, 0).slots == Init(c).slots;
    } else {
      ReachOvertaken(c, h, j - 1);
      Overtake(c, h, j - 1);
    }
  }

  // The context is cancelled, the producer is done, and the first k workers have
  // returned: the stalled ones empty-handed, the others with nothing left to do.
  function Ending<R>(c: Config<R>, h: nat, k: nat): State<R> {
    Overtaken(c, h, h).(
      producerDone := true, targetClosed := true, cancelled := true,
      workers := seq(NumWorkers(c), w requires 0 <= w < NumWorkers(c) =>
        if w < k then Exited(if w < h then Some(w) else None) else if w < h then Holding(w) else Idle))
  }

  lemma {:induction false} ReachEnding<R>(c: Config<R>, h: nat, k: nat)
    requires Roomy(c, h) && k <= NumWorkers(c)
    ensures Reachable(c, Ending(c, h, k))
  {
    if k == 0 {
      ReachOvertaken(c, h, h);
      var s0 := Overtaken(c, h, h);
      ReachStep(c, s0, Cancel);
      var s1 := Apply(c, s0, Cancel);
      var last := Produce(if 2 * h < c.n then Stop else Finish);
      ReachStep(c, s1, last);
      assert Apply(c, s1, last).workers == Ending(c, h, 0).workers;
    } else {
      ReachEnding(c, h, k - 1);
      var s := Ending(c, h, k - 1);
      var exit := Work(k - 1, if k - 1 < h then Abort else Quit);
      ReachStep(c, s, exit);
      assert Apply(c, s, exit).workers == Ending(c, h, k).workers;
    }
  }

  // Every kept slot is a hole: all of the h results received are cut off.
  lemma HolesAttained<R>(c: Config<R>, h: nat)
    requires Valid(c) && h < NumWorkers(c) && 2 * h <= c.n
    ensures exists es :: IsRun(c, Init(c), es)
              && var s := After(c, Init(c), es);
                 && s.returned && s.received == h
                 && Output(c, s) == seq(h, _ => None)
                 && Holes(Output(c, s)) == h
  {
    ReachEnding(c, h, NumWorkers(c));
    var s0 := Ending(c, h, NumWorkers(c));
    ReachStep(c, s0, CloseResults);
    var s1 := Apply(c, s0, CloseResults);
    ReachStep(c, s1, Collect(Return));
    var s := Apply(c, s1, Collect(Return));
    assert s.slots[..h] == seq(h, _ => None);
    assert Output(c, s) == seq(h, _ => None);
    FilledEmpty(Output(c, s));
    var es :| IsRun(c, Init(c), es) && After(c, Init(c), es) == s;
  }

  ghost predicate Returns<R>(c: Config<R>, es: seq<Event>) {
    IsRun(c, Init(c), es) && After(c, Init(c), es).returned
  }

  // The exact range of holes a configuration admits.
  lemma HolesPossible<R>(c: Config<R>, h: nat)
    requires Valid(c)
    ensures (exists es :: Returns(c, es) && Holes(Output(c, After(c, Init(c), es))) == h)
        <==> h < NumWorkers(c) && 2 * h <= c.n
    ensures h < NumWorkers(c) && 2 * h <= c.n <==> h == 0 || (h < c.workers && 2 * h <= c.n)
  {
    if h < NumWorkers(c) && 2 * h <= c.n {
      HolesAttained(c, h);
      var es :| IsRun(c, Init(c), es) && After(c, Init(c), es).returned
                && Holes(Output(c, After(c, Init(c), es))) == h;
      assert Returns(c, es);
    }
    forall es | Returns(c, es)
      ensures var out := Output(c, After(c, Init(c), es)); Holes(out) < NumWorkers(c) && 2 * Holes(out) <= c.n
    {
      TrimCounting(c, es);
    }
  }

  // Every run of a configuration returns the ordered results of a prefix exactly
  // when it has one effective worker.
  lemma TrimReliable<R>(c: Config<R>)
    requires Valid(c)
    ensures NumWorkers(c) == 1
        <==> forall es :: Returns(c, es) ==>
               var s := After(c, Init(c), es); Output(c, s) == Ordered(c, s.received)
    ensures NumWorkers(c) == 1 <==> c.workers <= 1 || c.n == 1
  {
    if NumWorkers(c) == 1 {
      forall es | Returns(c, es)
        ensures var s := After(c, Init(c), es); Output(c, s) == Ordered(c, s.received)
      {
        SingleWorkerPrefix(c, es);
      }
    } else {
      HolesAttained(c, 1);
      var es :| IsRun(c, Init(c), es) && After(c, Init(c), es).returned && After(c, Init(c), es).received == 1
                && Output(c, After(c, Init(c), es)) == seq(1, _ => None);
      assert Returns(c, es);
      assert Output(c, After(c, Init(c), es))[0].None? && Ordered(c, 1)[0].Some?;
    }
  }
}
