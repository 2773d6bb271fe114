// The worker pool of RunDiagnostics (runner.go) as a step system.
//
// Every goroutine contributes its atomic steps: the producer, the workers, the
// goroutine that waits for the workers, and the collecting caller.  A run is
// any sequence of enabled steps, so every interleaving is covered, and Cancel may
// occur between any two steps.

module WorkerPool {
  import opened Prelude

  // The largest buffer given to a channel.
  const MAX_CHANNEL_BUFFER := 10000

  // One call of RunDiagnostics on n targets.  An index is executed at most
  // once in a run, so outcome(i) stands for whatever ExecuteTarget returns for the i-th
  // target in this run.
  datatype Config<R> = Config(n: nat, outcome: nat -> R, workers: int)

  // An empty target list returns before any goroutine is started.
  predicate Valid<R>(c: Config<R>) {
    c.n > 0
  }

  function Capacity<R>(c: Config<R>): nat {
    if c.n > MAX_CHANNEL_BUFFER then MAX_CHANNEL_BUFFER else c.n
  }

  function NumWorkers<R>(c: Config<R>): nat {
    var w := if c.workers > c.n then c.n else c.workers;
    if w < 1 then 1 else w
  }

  // Where a worker stands: waiting on the target channel; between taking
  // an item and checking the context; inside ExecuteTarget; holding a finished
  // result; or returned, remembering the index it was carrying, if any.
  datatype Worker<R> =
    | Idle
    | Holding(index: nat)
    | Running(index: nat)
    | Executed(index: nat, result: R)
    | Exited(dropped: Option<nat>)

  datatype IndexedResult<R> = IndexedResult(index: nat, result: R)

  // A slot that was never written is None: Go's zero-valued TargetResult.
  datatype State<R> = State(
    next: nat, producerDone: bool,
    targetChan: seq<nat>, targetClosed: bool,
    workers: seq<Worker<R>>,
    resultChan: seq<IndexedResult<R>>, resultClosed: bool, closerDone: bool,
    slots: seq<Option<R>>, received: nat, returned: bool,
    cancelled: bool, panicked: bool)

  datatype ProducerAct = Send | Stop | Finish
  datatype WorkerAct = Take | Quit | Abort | Begin | Complete | Deliver | Drop
  datatype CollectorAct = Receive | Return

  // Which goroutine moves, and how.
  datatype Event =
    | Cancel
    | Produce(send: ProducerAct)
    | Work(w: nat, act: WorkerAct)
    | CloseResults
    | Collect(collect: CollectorAct)

  function Init<R>(c: Config<R>): State<R> {
    State(0, false, [], false,
          seq(NumWorkers(c), _ => Idle),
          [], false, false,
          seq(c.n, _ => None), 0, false,
          false, false)
  }

  predicate AllExited<R>(workers: seq<Worker<R>>) {
    forall w :: 0 <= w < |workers| ==> workers[w].Exited?
  }

  // The producer: a send can proceed when there is room, or when it is about to
  // panic; once the context is done, stopping competes with sending.
  predicate ProducerEnabled<R>(c: Config<R>, s: State<R>, act: ProducerAct) {
    && !s.producerDone
    && match act
       case Send => s.next < c.n && (|s.targetChan| < Capacity(c) || s.targetClosed)
       case Stop => s.next < c.n && s.cancelled
       case Finish => s.next >= c.n
  }

  function ProducerApply<R>(c: Config<R>, s: State<R>, act: ProducerAct): State<R> {
    if s.targetClosed then s.(panicked := true)
    else if act.Send? then s.(targetChan := s.targetChan + [s.next], next := s.next + 1)
    else s.(targetClosed := true, producerDone := true)
  }

  // A worker: it begins an item only if the context is not done when it looks,
  // while a finished result may be delivered or abandoned once it is.
  predicate WorkerEnabled<R>(c: Config<R>, s: State<R>, w: nat, act: WorkerAct) {
    && w < |s.workers|
    && match act
       case Take => s.workers[w].Idle? && s.targetChan != []
       case Quit => s.workers[w].Idle? && s.targetChan == [] && s.targetClosed
       case Abort => s.workers[w].Holding? && s.cancelled
       case Begin => s.workers[w].Holding? && !s.cancelled
       case Complete => s.workers[w].Running?
       case Deliver => s.workers[w].Executed? && (|s.resultChan| < Capacity(c) || s.resultClosed)
       case Drop => s.workers[w].Executed? && s.cancelled
  }

  function WorkerApply<R>(c: Config<R>, s: State<R>, w: nat, act: WorkerAct): State<R>
    requires WorkerEnabled(c, s, w, act)
  {
    var worker := s.workers[w];
    match act
    case Take => s.(workers := s.workers[w := Holding(s.targetChan[0])], targetChan := s.targetChan[1..])
    case Quit => s.(workers := s.workers[w := Exited(None)])
    case Abort => s.(workers := s.workers[w := Exited(Some(worker.index))])
    case Begin => s.(workers := s.workers[w := Running(worker.index)])
    case Complete => s.(workers := s.workers[w := Executed(worker.index, c.outcome(worker.index))])
    case Deliver =>
      if s.resultClosed then s.(panicked := true)
      else s.(workers := s.workers[w := Idle],
              resultChan := s.resultChan + [IndexedResult(worker.index, worker.result)])
    case Drop => s.(workers := s.workers[w := Exited(Some(worker.index))])
  }

  predicate CollectorEnabled<R>(s: State<R>, act: CollectorAct) {
    && !s.returned
    && match act
       case Receive => s.resultChan != []
       case Return => s.resultChan == [] && s.resultClosed
  }

  function CollectorApply<R>(s: State<R>, act: CollectorAct): State<R>
    requires CollectorEnabled(s, act)
  {
    match act
    case Receive =>
      var item := s.resultChan[0];
      if item.index < |s.slots| then
        s.(slots := s.slots[item.index := Some(item.result)], received := s.received + 1,
           resultChan := s.resultChan[1..])
      else s.(panicked := true)
    case Return => s.(returned := true)
  }

  predicate Enabled<R>(c: Config<R>, s: State<R>, e: Event) {
    && !s.panicked
    && match e
       case Cancel => !s.cancelled
       case Produce(act) => ProducerEnabled(c, s, act)
       case Work(w, act) => WorkerEnabled(c, s, w, act)
       case CloseResults => !s.closerDone && AllExited(s.workers)
       case Collect(act) => CollectorEnabled(s, act)
  }

  // Sending on or closing a closed channel, or an index out of range, panics.
  function Apply<R>(c: Config<R>, s: State<R>, e: Event): State<R>
    requires Enabled(c, s, e)
  {
    match e
    case Cancel => s.(cancelled := true)
    case Produce(act) => ProducerApply(c, s, act)
    case Work(w, act) => WorkerApply(c, s, w, act)
    case CloseResults =>
      if s.resultClosed then s.(panicked := true) else s.(resultClosed := true, closerDone := true)
    case Collect(act) => CollectorApply(s, act)
  }

  // The slice handed back: the first `received` slots when the run was cut short.
  function Output<R>(c: Config<R>, s: State<R>): seq<Option<R>> {
    if s.received < c.n && s.received <= |s.slots| then s.slots[..s.received] else s.slots
  }

  predicate IsRun<R>(c: Config<R>, s: State<R>, es: seq<Event>)
    decreases |es|
  {
    es == [] || (Enabled(c, s, es[0]) && IsRun(c, Apply(c, s, es[0]), es[1..]))
  }

  function After<R>(c: Config<R>, s: State<R>, es: seq<Event>): State<R>
    requires IsRun(c, s, es)
    decreases |es|
  {
    if es == [] then s else After(c, Apply(c, s, es[0]), es[1..])
  }

  lemma {:induction false} RunAppend<R>(c: Config<R>, s: State<R>, es: seq<Event>, e: Event)
    requires IsRun(c, s, es) && Enabled(c, After(c, s, es), e)
    ensures IsRun(c, s, es + [e]) && After(c, s, es + [e]) == Apply(c, After(c, s, es), e)
    decreases |es|
  {
    if es == [] {
      assert es + [e] == [e];
    } else {
      RunAppend(c, Apply(c, s, es[0]), es[1..], e);
      assert (es + [e])[0] == es[0] && (es + [e])[1..] == es[1..] + [e];
    }
  }
}
