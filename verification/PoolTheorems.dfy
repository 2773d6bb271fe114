// What RunDiagnostics guarantees over whole runs, under every interleaving.

module PoolTheorems {
  import opened Prelude
  import opened Counting
  import opened WorkerPool
  import opened PoolInvariant

  lemma ReachableInv<R>(c: Config<R>, es: seq<Event>)
    requires Valid(c) && IsRun(c, Init(c), es)
    ensures Inv(c, After(c, Init(c), es))
  {
    InitInv(c);
    RunInv(c, Init(c), es);
  }

  // ---- Where every index is ----

  ghost predicate Carried<R>(s: State<R>, i: nat) {
    exists w :: 0 <= w < |s.workers| && !s.workers[w].Exited? && Owner(s.workers[w]) == Some(i)
  }

  ghost predicate Lost<R>(s: State<R>, i: nat) {
    exists w :: 0 <= w < |s.workers| && s.workers[w] == Exited(Some(i))
  }

  function DroppedBy<R>(workers: seq<Worker<R>>): (d: seq<Option<nat>>)
    ensures |d| == |workers|
  {
    seq(|workers|, w requires 0 <= w < |workers| =>
      if workers[w].Exited? then workers[w].dropped else None)
  }

  function One(b: bool): nat {
    if b then 1 else 0
  }

  lemma OwnerOfIndex<R>(s: State<R>, i: nat)
    requires Exclusive(PlacesOf(s))
    ensures Owned(Owners(s.workers), i) <==> Carried(s, i) || Lost(s, i)
    ensures !(Carried(s, i) && Lost(s, i))
  {
    var owners := Owners(s.workers);
    assert forall v, w :: 0 <= v < |owners| && 0 <= w < |owners| && owners[v] == owners[w] == Some(i) ==> v == w;
    assert forall w :: 0 <= w < |owners| && Owner(s.workers[w]) == Some(i) ==> owners[w] == Some(i);
  }

  // The places split the indices: each index is in exactly one of them.
  lemma CancellationAccounting<R>(c: Config<R>, es: seq<Event>, i: nat)
    requires Valid(c) && IsRun(c, Init(c), es) && i < c.n
    ensures var s := After(c, Init(c), es);
            && One(s.next <= i) + One(i in s.targetChan) + One(Carried(s, i))
               + One(InFlight(Flying(s.resultChan), i)) + One(Received(s.slots, i)) + One(Lost(s, i)) == 1
            && (Lost(s, i) ==> s.cancelled)
  {
    ReachableInv(c, es);
    var s := After(c, Init(c), es);
    OwnerOfIndex(s, i);
    if Dequeued(s) <= i < s.next {
      assert s.targetChan[i - Dequeued(s)] == i;
    }
  }

  // What has been dequeued has been received, except for what the returned
  // workers dropped; each of them dropped at most one index.
  lemma ReturnTally<R>(c: Config<R>, s: State<R>)
    requires Valid(c) && Inv(c, s) && s.returned
    ensures s.received + Filled(DroppedBy(s.workers)) == Dequeued(s)
    ensures Filled(DroppedBy(s.workers)) <= NumWorkers(c)
    ensures DroppedBy(s.workers) == Owners(s.workers)
  {
    assert DroppedBy(s.workers) == Owners(s.workers);
  }

  // ---- Channel discipline ----

  // No run panics: no channel is closed twice, nothing is sent on a closed
  // channel and no result falls outside the slice.
  lemma ChannelDiscipline<R>(c: Config<R>, es: seq<Event>)
    requires Valid(c) && IsRun(c, Init(c), es)
    ensures var s := After(c, Init(c), es);
            && !s.panicked
            && |s.targetChan| <= Capacity(c) && |s.resultChan| <= Capacity(c)
            && (s.returned ==> AllExited(s.workers) && s.resultClosed && s.resultChan == []
                               && (s.producerDone || s.cancelled))
  {
    ReachableInv(c, es);
    var s := After(c, Init(c), es);
    if s.returned {
      assert s.workers[0].Exited?;
    }
  }

  // ---- Progress and termination ----

  // The call has returned and no goroutine is left behind.
  predicate Final<R>(s: State<R>) {
    s.returned && s.producerDone
  }

  lemma LiveWorkerProgress<R>(c: Config<R>, s: State<R>, w: nat)
    requires Valid(c) && Inv(c, s) && w < |s.workers| && !s.workers[w].Exited?
    requires s.targetChan != [] || s.producerDone
    ensures exists e :: e != Cancel && Enabled(c, s, e)
  {
    match s.workers[w]
    case Idle => assert Enabled(c, s, Work(w, if s.targetChan == [] then Quit else Take));
    case Holding(_) => assert Enabled(c, s, Work(w, if s.cancelled then Abort else Begin));
    case Running(_) => assert Enabled(c, s, Work(w, Complete));
    case Executed(_, _) =>
      assert Enabled(c, s, if |s.resultChan| < Capacity(c) then Work(w, Deliver) else Collect(Receive));
  }

  lemma InvProgress<R>(c: Config<R>, s: State<R>)
    requires Valid(c) && Inv(c, s) && !Final(s)
    ensures exists e :: e != Cancel && Enabled(c, s, e)
  {
    if !s.producerDone && (s.next >= c.n || s.cancelled || |s.targetChan| < Capacity(c)) {
      assert Enabled(c, s, Produce(if s.next >= c.n then Finish else if s.cancelled then Stop else Send));
    } else if w: nat :| w < |s.workers| && !s.workers[w].Exited? {
      LiveWorkerProgress(c, s, w);
    } else {
      assert s.workers[0].Exited?;
      var next := Collect(if s.resultChan != [] then Receive else Return);
      assert Enabled(c, s, if !s.closerDone then CloseResults else next);
    }
  }

  // A pool that is not done can always move without waiting for a cancellation,
  // even with both channels full.
  lemma Progress<R>(c: Config<R>, es: seq<Event>)
    requires Valid(c) && IsRun(c, Init(c), es) && !Final(After(c, Init(c), es))
    ensures exists e :: e != Cancel && Enabled(c, After(c, Init(c), es), e)
  {
    ReachableInv(c, es);
    InvProgress(c, After(c, Init(c), es));
  }

  function WorkerWeight<R>(worker: Worker<R>): nat {
    match worker
    case Exited(_) => 0
    case Idle => 1
    case Executed(_, _) => 3
    case Running(_) => 4
    case Holding(_) => 5
  }

  function TotalWeight<R>(workers: seq<Worker<R>>): nat {
    if workers == [] then 0 else WorkerWeight(workers[0]) + TotalWeight(workers[1..])
  }

  lemma {:induction false} WeightUpdate<R>(workers: seq<Worker<R>>, w: nat, worker: Worker<R>)
    requires w < |workers|
    ensures TotalWeight(workers[w := worker]) + WorkerWeight(workers[w])
         == TotalWeight(workers) + WorkerWeight(worker)
  {
    if w == 0 {
      assert workers[0 := worker][1..] == workers[1..];
    } else {
      assert workers[w := worker][1..] == workers[1..][w - 1 := worker];
      WeightUpdate(workers[1..], w - 1, worker);
    }
  }

  lemma {:induction false} WeightOfUniform<R>(workers: seq<Worker<R>>, k: nat)
    requires forall w :: 0 <= w < |workers| ==> WorkerWeight(workers[w]) == k
    ensures TotalWeight(workers) == k * |workers|
  {
    if workers != [] {
      WeightOfUniform(workers[1..], k);
    }
  }

  // The steps still owed by every item, goroutine and the context.
  function Measure<R>(c: Config<R>, s: State<R>): int {
    6 * (c.n - s.next) + 5 * |s.targetChan| + TotalWeight(s.workers) + |s.resultChan|
    + One(!s.producerDone) + One(!s.closerDone) + One(!s.returned) + One(!s.cancelled)
  }

  // Worker w moved: it took a target, delivered a result, or did neither, and nothing
  // else that is measured changed.
  ghost predicate Moved<R>(s: State<R>, t: State<R>, w: nat, taken: nat, delivered: nat) {
    && w < |s.workers| == |t.workers| && t.workers == s.workers[w := t.workers[w]]
    && t.next == s.next && t.producerDone == s.producerDone && t.closerDone == s.closerDone
    && t.returned == s.returned && t.cancelled == s.cancelled
    && |t.targetChan| == |s.targetChan| - taken
    && |t.resultChan| == |s.resultChan| + delivered
  }

  lemma TakeMoves<R>(c: Config<R>, s: State<R>, w: nat)
    requires WorkerEnabled(c, s, w, Take)
    ensures Moved(s, WorkerApply(c, s, w, Take), w, 1, 0)
  {
    var worker: Worker<R> := Holding(s.targetChan[0]);
    assert WorkerApply(c, s, w, Take).workers == s.workers[w := worker];
  }

  lemma DeliverMoves<R>(c: Config<R>, s: State<R>, w: nat)
    requires WorkerEnabled(c, s, w, Deliver) && !WorkerApply(c, s, w, Deliver).panicked
    ensures Moved(s, WorkerApply(c, s, w, Deliver), w, 0, 1)
  {
    var worker: Worker<R> := Idle;
    assert WorkerApply(c, s, w, Deliver).workers == s.workers[w := worker];
  }

  lemma OtherMoves<R>(c: Config<R>, s: State<R>, w: nat, act: WorkerAct)
    requires WorkerEnabled(c, s, w, act) && !act.Take? && !act.Deliver?
    ensures Moved(s, WorkerApply(c, s, w, act), w, 0, 0)
  {
    var t := WorkerApply(c, s, w, act);
    match act
    case Quit =>
    case Abort =>
    case Begin =>
    case Complete =>
    case Drop =>
  }

  lemma WorkerMoves<R>(c: Config<R>, s: State<R>, w: nat, act: WorkerAct)
    requires WorkerEnabled(c, s, w, act) && !WorkerApply(c, s, w, act).panicked
    ensures Moved(s, WorkerApply(c, s, w, act), w, One(act.Take?), One(act.Deliver?))
  {
    hide WorkerApply, WorkerEnabled, Moved;
    match act
    case Take => TakeMoves(c, s, w);
    case Deliver => DeliverMoves(c, s, w);
    case _ => OtherMoves(c, s, w, act);
  }

  // What a worker step pays, counting the two channels and its own worker.
  lemma WorkerPays<R>(c: Config<R>, s: State<R>, w: nat, act: WorkerAct)
    requires WorkerEnabled(c, s, w, act) && !WorkerApply(c, s, w, act).panicked
    ensures w < |WorkerApply(c, s, w, act).workers|
    ensures var paid := WorkerWeight(s.workers[w]) - WorkerWeight(WorkerApply(c, s, w, act).workers[w])
                        + 5 * One(act.Take?) - One(act.Deliver?);
            paid >= 1 && (!s.cancelled ==> paid == 1)
  {
    var after := WorkerApply(c, s, w, act).workers[w];
    match act
    case Take => assert after.Holding?;
    case Quit => assert after.Exited?;
    case Abort => assert after.Exited?;
    case Begin => assert after.Running?;
    case Complete => assert after.Executed?;
    case Deliver => assert after.Idle?;
    case Drop => assert after.Exited?;
  }

  // Every step pays at least one unit; before a cancellation, exactly one.
  ghost predicate Pays<R>(c: Config<R>, s: State<R>, t: State<R>) {
    Measure(c, t) < Measure(c, s) && (!s.cancelled ==> Measure(c, t) == Measure(c, s) - 1)
  }

  lemma MovedPays<R>(c: Config<R>, s: State<R>, t: State<R>, w: nat, taken: nat, delivered: nat)
    requires Moved(s, t, w, taken, delivered)
    requires var paid := WorkerWeight(s.workers[w]) - WorkerWeight(t.workers[w]) + 5 * taken - delivered;
             paid >= 1 && (!s.cancelled ==> paid == 1)
    ensures Pays(c, s, t)
  {
    hide One, WorkerWeight, TotalWeight;
    WeightUpdate(s.workers, w, t.workers[w]);
  }

  lemma WorkerMeasure<R>(c: Config<R>, s: State<R>, w: nat, act: WorkerAct)
    requires WorkerEnabled(c, s, w, act) && !WorkerApply(c, s, w, act).panicked
    ensures Pays(c, s, WorkerApply(c, s, w, act))
  {
    hide One, WorkerApply, WorkerEnabled, WorkerWeight, Pays;
    WorkerMoves(c, s, w, act);
    WorkerPays(c, s, w, act);
    MovedPays(c, s, WorkerApply(c, s, w, act), w, One(act.Take?), One(act.Deliver?));
  }

  lemma ProducerMeasure<R>(c: Config<R>, s: State<R>, act: ProducerAct)
    requires ProducerEnabled(c, s, act) && !ProducerApply(c, s, act).panicked && s.next <= c.n
    ensures Pays(c, s, ProducerApply(c, s, act))
  {
    assert act.Send? ==> |ProducerApply(c, s, act).targetChan| == |s.targetChan| + 1;
  }

  lemma ReceivePays<R>(c: Config<R>, s: State<R>)
    requires CollectorEnabled(s, Receive) && !CollectorApply(s, Receive).panicked
    ensures Pays(c, s, CollectorApply(s, Receive))
  {
    hide TotalWeight, One;
    var t := CollectorApply(s, Receive);
    assert t.workers == s.workers && |t.resultChan| == |s.resultChan| - 1;
  }

  lemma CollectorMeasure<R>(c: Config<R>, s: State<R>, act: CollectorAct)
    requires CollectorEnabled(s, act) && !CollectorApply(s, act).panicked
    ensures Pays(c, s, CollectorApply(s, act))
  {
    hide TotalWeight;
    match act
    case Receive => ReceivePays(c, s);
    case Return =>
  }

  lemma MeasureStep<R>(c: Config<R>, s: State<R>, e: Event)
    requires Enabled(c, s, e) && !Apply(c, s, e).panicked && s.next <= c.n
    ensures Pays(c, s, Apply(c, s, e))
  {
    match e
    case Work(w, act) => WorkerMeasure(c, s, w, act);
    case Produce(act) => ProducerMeasure(c, s, act);
    case Collect(act) => CollectorMeasure(c, s, act);
    case _ =>
  }

  lemma {:induction false} MeasureRun<R>(c: Config<R>, s: State<R>, es: seq<Event>)
    requires Valid(c) && Inv(c, s) && IsRun(c, s, es)
    ensures |es| + Measure(c, After(c, s, es)) <= Measure(c, s)
    ensures s.cancelled ==> After(c, s, es).cancelled
    ensures !After(c, s, es).cancelled ==> |es| + Measure(c, After(c, s, es)) == Measure(c, s)
    decreases |es|
  {
    if es != [] {
      StepInv(c, s, es[0]);
      MeasureStep(c, s, es[0]);
      MeasureRun(c, Apply(c, s, es[0]), es[1..]);
    }
  }

  // Every run is finite: at most six steps per target, one per worker, and four.
  // A complete run that is never cancelled takes exactly one step less.
  lemma Termination<R>(c: Config<R>, es: seq<Event>)
    requires Valid(c) && IsRun(c, Init(c), es)
    ensures |es| <= 6 * c.n + NumWorkers(c) + 4
    ensures var s := After(c, Init(c), es);
            Final(s) && !s.cancelled ==> |es| == 6 * c.n + NumWorkers(c) + 3
  {
    ReachableInv(c, es);
    InitInv(c);
    MeasureRun(c, Init(c), es);
    WeightOfUniform(Init(c).workers, 1);
    var s := After(c, Init(c), es);
    assert Measure(c, s) >= 0;
    if Final(s) && !s.cancelled {
      WeightOfUniform(s.workers, 0);
      assert s.workers[0].Exited?;
    }
  }

  // ---- Executions ----

  // Index i has been taken, and no worker is about to begin it.
  ghost predicate Started<R>(s: State<R>, i: nat) {
    i < Dequeued(s) && forall w :: 0 <= w < |s.workers| ==> s.workers[w] != Holding(i)
  }

  lemma WorkerStarted<R>(c: Config<R>, s: State<R>, w: nat, act: WorkerAct, i: nat)
    requires Fifo(s) && WorkerEnabled(c, s, w, act) && Started(s, i)
    ensures Started(WorkerApply(c, s, w, act), i)
  {
    assert act.Take? ==> s.targetChan[0] == Dequeued(s);
  }

  lemma ProducerTakesNothing<R>(c: Config<R>, s: State<R>, act: ProducerAct)
    requires ProducerEnabled(c, s, act)
    ensures var t := ProducerApply(c, s, act); t.workers == s.workers && Dequeued(t) == Dequeued(s)
  {
    match act
    case Send =>
    case Stop =>
    case Finish =>
  }

  lemma ProducerStarted<R>(c: Config<R>, s: State<R>, act: ProducerAct, i: nat)
    requires ProducerEnabled(c, s, act) && Started(s, i)
    ensures Started(ProducerApply(c, s, act), i)
  {
    ProducerTakesNothing(c, s, act);
    hide ProducerApply, ProducerEnabled, Dequeued;
  }

  lemma StepStarted<R>(c: Config<R>, s: State<R>, e: Event, i: nat)
    requires Fifo(s) && Enabled(c, s, e) && Started(s, i)
    ensures Started(Apply(c, s, e), i)
  {
    hide WorkerApply, WorkerEnabled, ProducerApply, ProducerEnabled, Fifo;
    match e
    case Work(w, act) => WorkerStarted(c, s, w, act, i);
    case Produce(act) => ProducerStarted(c, s, act, i);
    case _ =>
      assert Apply(c, s, e).workers == s.workers && Dequeued(Apply(c, s, e)) == Dequeued(s);
  }

  lemma {:induction false} RunStarted<R>(c: Config<R>, s: State<R>, es: seq<Event>, i: nat)
    requires Valid(c) && Inv(c, s) && IsRun(c, s, es) && Started(s, i)
    ensures Started(After(c, s, es), i)
    decreases |es|
  {
    if es != [] {
      StepInv(c, s, es[0]);
      StepStarted(c, s, es[0], i);
      RunStarted(c, Apply(c, s, es[0]), es[1..], i);
    }
  }

  lemma BeginStarts<R>(c: Config<R>, s: State<R>, w: nat)
    requires Inv(c, s) && Enabled(c, s, Work(w, Begin))
    ensures Started(Apply(c, s, Work(w, Begin)), s.workers[w].index)
  {
    var i := s.workers[w].index;
    var owners := Owners(s.workers);
    assert owners[w] == Some(i) && Owned(owners, i);
    assert forall v :: 0 <= v < |owners| && v != w ==> owners[v] != owners[w];
    assert forall v :: 0 <= v < |owners| && s.workers[v] == Holding(i) ==> owners[v] == Some(i);
  }

  // No index is executed twice in a run, whatever lies between.
  lemma ExecutedOnce<R>(c: Config<R>, es: seq<Event>, w: nat, fs: seq<Event>, v: nat)
    requires Valid(c) && IsRun(c, Init(c), es) && Enabled(c, After(c, Init(c), es), Work(w, Begin))
    requires IsRun(c, Apply(c, After(c, Init(c), es), Work(w, Begin)), fs)
    requires Enabled(c, After(c, Apply(c, After(c, Init(c), es), Work(w, Begin)), fs), Work(v, Begin))
    ensures var s := After(c, Init(c), es);
            var t := After(c, Apply(c, s, Work(w, Begin)), fs);
            s.workers[w].index != t.workers[v].index && s.workers[w].index < c.n
  {
    ReachableInv(c, es);
    var s := After(c, Init(c), es);
    var i := s.workers[w].index;
    BeginStarts(c, s, w);
    StepInv(c, s, Work(w, Begin));
    RunStarted(c, Apply(c, s, Work(w, Begin)), fs, i);
    assert Owners(s.workers)[w] == Some(i) && Owned(Owners(s.workers), i);
  }

  // Once the context is cancelled nothing more is begun.
  lemma {:induction false} NoLateStart<R>(c: Config<R>, s: State<R>, es: seq<Event>, k: nat)
    requires s.cancelled && IsRun(c, s, es) && k < |es|
    ensures !(es[k].Work? && es[k].act.Begin?) && es[k] != Cancel
    decreases |es|
  {
    var t := Apply(c, s, es[0]);
    assert t.cancelled;
    if k > 0 {
      NoLateStart(c, t, es[1..], k - 1);
    }
  }

  // After a cancellation nobody waits for a channel: the producer can stop, a worker
  // that holds a target gives it up without executing it, and one with a result can
  // drop it; both remember what they lose.
  lemma CancelledExits<R>(c: Config<R>, es: seq<Event>, w: nat)
    requires Valid(c) && IsRun(c, Init(c), es) && After(c, Init(c), es).cancelled
    requires w < |After(c, Init(c), es).workers|
    ensures var s := After(c, Init(c), es);
            var worker := s.workers[w];
            && (!s.producerDone ==> Enabled(c, s, Produce(Stop)) || Enabled(c, s, Produce(Finish)))
            && (worker.Holding? ==> && Enabled(c, s, Work(w, Abort)) && !Enabled(c, s, Work(w, Begin))
                                    && Apply(c, s, Work(w, Abort)).workers[w] == Exited(Some(worker.index)))
            && (worker.Executed? ==> && Enabled(c, s, Work(w, Drop))
                                     && Apply(c, s, Work(w, Drop)).workers[w] == Exited(Some(worker.index)))
  {
    hide Inv;
    ReachableInv(c, es);
    InvCalm(c, After(c, Init(c), es));
  }

  // ---- What is received ----

  // The run takes the result of index i off the result channel.
  ghost predicate Collected<R>(c: Config<R>, s: State<R>, es: seq<Event>, i: nat)
    requires IsRun(c, s, es)
    decreases |es|
  {
    && es != []
    && (|| (es[0] == Collect(Receive) && s.resultChan[0].index == i)
        || Collected(c, Apply(c, s, es[0]), es[1..], i))
  }

  // How many results the run takes off it.
  function Receives(es: seq<Event>): nat {
    if es == [] then 0 else One(es[0] == Collect(Receive)) + Receives(es[1..])
  }

  lemma WorkerKeepsSlots<R>(c: Config<R>, s: State<R>, w: nat, act: WorkerAct)
    requires WorkerEnabled(c, s, w, act)
    ensures WorkerApply(c, s, w, act).slots == s.slots && WorkerApply(c, s, w, act).received == s.received
  {
    match act
    case Take =>
    case Quit =>
    case Abort =>
    case Begin =>
    case Complete =>
    case Deliver =>
    case Drop =>
  }

  lemma ProducerKeepsSlots<R>(c: Config<R>, s: State<R>, act: ProducerAct)
    requires ProducerEnabled(c, s, act)
    ensures ProducerApply(c, s, act).slots == s.slots && ProducerApply(c, s, act).received == s.received
  {
    match act
    case Send =>
    case Stop =>
    case Finish =>
  }

  lemma ReceiveFills<R>(s: State<R>, i: nat)
    requires s.resultChan != [] && !s.returned && !CollectorApply(s, Receive).panicked
    ensures var t := CollectorApply(s, Receive);
            && t.received == s.received + 1
            && (Received(t.slots, i) <==> Received(s.slots, i) || s.resultChan[0].index == i)
  {
  }

  lemma StepSlots<R>(c: Config<R>, s: State<R>, e: Event, i: nat)
    requires Enabled(c, s, e) && !Apply(c, s, e).panicked
    ensures var t := Apply(c, s, e);
            && t.received == s.received + One(e == Collect(Receive))
            && (Received(t.slots, i) <==>
                  Received(s.slots, i) || (e == Collect(Receive) && s.resultChan[0].index == i))
  {
    hide WorkerApply, WorkerEnabled, ProducerApply, ProducerEnabled, Received;
    match e
    case Produce(act) => ProducerKeepsSlots(c, s, act);
    case Work(w, act) => WorkerKeepsSlots(c, s, w, act);
    case Collect(act) =>
      if act.Receive? {
        ReceiveFills(s, i);
      }
    case _ =>
  }

  // A slot is filled exactly when the result of its index was received, and
  // `received` counts them.
  lemma {:induction false} SlotsCollected<R>(c: Config<R>, s: State<R>, es: seq<Event>, i: nat)
    requires Valid(c) && Inv(c, s) && IsRun(c, s, es)
    ensures var t := After(c, s, es);
            && t.received == s.received + Receives(es)
            && (Received(t.slots, i) <==> Received(s.slots, i) || Collected(c, s, es, i))
    decreases |es|
  {
    hide Enabled, Apply, Inv, Received;
    if es != [] {
      StepInv(c, s, es[0]);
      InvCalm(c, Apply(c, s, es[0]));
      StepSlots(c, s, es[0], i);
      SlotsCollected(c, Apply(c, s, es[0]), es[1..], i);
    }
  }

  lemma InvCalm<R>(c: Config<R>, s: State<R>)
    requires Inv(c, s)
    ensures !s.panicked
  {
  }

  // What a returned run hands back: as many slots as results were received, each
  // holding its own result if that was among them.
  lemma Returned<R>(c: Config<R>, es: seq<Event>)
    requires Valid(c) && IsRun(c, Init(c), es) && After(c, Init(c), es).returned
    ensures var out := Output(c, After(c, Init(c), es));
            && |out| == Receives(es) <= c.n
            && forall i: nat :: i < |out| ==>
                 out[i] == if Collected(c, Init(c), es, i) then Some(c.outcome(i)) else None
  {
    TrimCounting(c, es);
    InitInv(c);
    var out := Output(c, After(c, Init(c), es));
    SlotsCollected(c, Init(c), es, 0);
    forall i: nat | i < |out|
      ensures out[i] == if Collected(c, Init(c), es, i) then Some(c.outcome(i)) else None
    {
      SlotsCollected(c, Init(c), es, i);
      assert Received(After(c, Init(c), es).slots, i) <==> out[i].Some?;
    }
  }

  // ---- What is returned ----

  function Holes<R>(out: seq<Option<R>>): nat {
    |out| - Filled(out)
  }

  function Ordered<R>(c: Config<R>, k: nat): seq<Option<R>> {
    seq(k, i requires 0 <= i < k => Some(c.outcome(i)))
  }

  lemma NoneEmpty<R>(c: Config<R>, k: nat)
    ensures Holes(Ordered(c, k)) == 0
  {
    FilledFull(Ordered(c, k));
  }

  lemma NoHoles<R>(c: Config<R>, s: State<R>)
    requires Valid(c) && Inv(c, s) && s.returned
    ensures Holes(Output(c, s)) == 0 <==> Output(c, s) == Ordered(c, s.received)
  {
    FilledFull(Output(c, s));
    FilledFull(Ordered(c, s.received));
  }

  // A run that is never cancelled returns every result, in input order.
  lemma CompleteRun<R>(c: Config<R>, es: seq<Event>)
    requires Valid(c) && IsRun(c, Init(c), es)
    requires var s := After(c, Init(c), es); s.returned && !s.cancelled
    ensures Output(c, After(c, Init(c), es)) == Ordered(c, c.n)
  {
    ReachableInv(c, es);
    var s := After(c, Init(c), es);
    ReturnTally(c, s);
    FilledEmpty(DroppedBy(s.workers));
    assert s.workers[0].Exited?;
    assert s.received == c.n;
    NoHoles(c, s);
  }

  // Neither the worker count nor the completion order shows in the results.
  lemma ScheduleIndependence<R>(c: Config<R>, es: seq<Event>, d: Config<R>, fs: seq<Event>)
    requires Valid(c) && IsRun(c, Init(c), es)
    requires Valid(d) && IsRun(d, Init(d), fs)
    requires c.n == d.n && forall i: nat :: i < c.n ==> c.outcome(i) == d.outcome(i)
    requires var s := After(c, Init(c), es); s.returned && !s.cancelled
    requires var t := After(d, Init(d), fs); t.returned && !t.cancelled
    ensures Output(c, After(c, Init(c), es)) == Output(d, After(d, Init(d), fs))
  {
    CompleteRun(c, es);
    CompleteRun(d, fs);
  }

  // Cutting the slice at `received` keeps as many slots as results arrived, but
  // not necessarily their slots: each hole kept is matched by a result cut off.
  // Fewer holes than workers: the taker of the last dequeued index leaves none.
  lemma TrimCounting<R>(c: Config<R>, es: seq<Event>)
    requires Valid(c) && IsRun(c, Init(c), es) && After(c, Init(c), es).returned
    ensures var s := After(c, Init(c), es);
            var out := Output(c, s);
            && |out| == s.received <= c.n
            && (forall i :: 0 <= i < |out| && out[i].Some? ==> out[i].value == c.outcome(i))
            && Holes(out) == Filled(s.slots[s.received..])
            && Holes(out) < NumWorkers(c)
            && 2 * Holes(out) <= c.n
  {
    ReachableInv(c, es);
    var s := After(c, Init(c), es);
    ReturnTally(c, s);
    CutBound(PlacesOf(s), s.received);
    FilledSplit(s.slots, s.received);
  }

  lemma CutBound<R>(p: Places<R>, received: nat)
    requires Accounted(p) && p.flying == [] && received == Filled(p.slots)
             && p.owners != [] && p.dequeued <= |p.slots|
    ensures Filled(p.slots[received..]) < |p.owners|
  {
    var tail, lost := p.slots[received..], p.dequeued - received;
    if lost > 0 {
      FilledEmptyTail(p.slots, p.dequeued);
      FilledSplit(tail, lost);
      assert tail[lost..] == p.slots[p.dequeued..];
      LastLost(p, tail[..lost]);
    } else {
      FilledEmptyTail(p.slots, received);
    }
  }

  lemma LastLost<R>(p: Places<R>, cut: seq<Option<R>>)
    requires Accounted(p) && p.flying == []
    requires var received := Filled(p.slots);
             received < p.dequeued <= |p.slots| && cut == p.slots[received..p.dequeued]
    ensures Filled(cut) < |p.owners|
  {
    var w: nat :| LastTaker(p, w);
    if p.owners[w].None? {
      FilledFull(p.owners);
    } else {
      assert Owned(p.owners, p.dequeued - 1);
      assert !Received(p.slots, p.dequeued - 1);
      assert cut[|cut| - 1] == p.slots[p.dequeued - 1];
      FilledFull(cut);
    }
  }

  lemma FilledEmptyTail<A>(xs: seq<Option<A>>, k: nat)
    requires k <= |xs| && forall i: nat :: Received(xs, i) ==> i < k
    ensures Filled(xs[k..]) == 0
  {
    assert forall i: nat :: i < |xs| ==> (Received(xs, i) <==> xs[i].Some?);
    FilledEmpty(xs[k..]);
  }

  // The short slice is the ordered results of a prefix of the input exactly when
  // no index below the cut was dropped.
  lemma TrimExact<R>(c: Config<R>, es: seq<Event>)
    requires Valid(c) && IsRun(c, Init(c), es) && After(c, Init(c), es).returned
    ensures var s := After(c, Init(c), es);
            Output(c, s) == Ordered(c, s.received) <==> forall i: nat :: Lost(s, i) ==> s.received <= i
  {
    ReachableInv(c, es);
    TrimCounting(c, es);
    var s := After(c, Init(c), es);
    var out := Output(c, s);
    ReturnTally(c, s);
    forall i: nat | i < s.received
      ensures out[i].None? <==> Lost(s, i)
    {
      OwnerOfIndex(s, i);
      assert InFlight(Flying(s.resultChan), i) <==> false;
      assert Received(s.slots, i) <==> out[i].Some?;
      assert !Carried(s, i);
    }
    NoHoles(c, s);
    FilledFull(out);
  }

  // With one worker even a run cancelled at any point returns the ordered results
  // of a prefix of the input.
  lemma SingleWorkerPrefix<R>(c: Config<R>, es: seq<Event>)
    requires Valid(c) && IsRun(c, Init(c), es) && After(c, Init(c), es).returned
    requires NumWorkers(c) == 1
    ensures var s := After(c, Init(c), es); Output(c, s) == Ordered(c, s.received)
  {
    ReachableInv(c, es);
    TrimCounting(c, es);
    NoHoles(c, After(c, Init(c), es));
  }
}
