// Exit-code resolution (cmd/tlstester/main.go), the consumer of the pool's results.

module ExitCode {
  import opened Prelude
  import opened WorkerPool
  import opened PoolTheorems
  import opened PoolRun
  import opened Targets
  import opened Pipeline

  const SUCCESS := 0
  const TARGET_FAILURE := 1
  const IO_ERROR := 3
  const PARTIAL_SUCCESS := 5
  const CANCELLED := 130

  // The test of the command line tool.
  predicate Failed(r: TargetResult) {
    !r.tcpConnected || !r.tlsHandshakeSuccess || r.error != ""
  }

  // A slot never written is Go's zero-valued TargetResult.
  function Materialize(slots: seq<Option<TargetResult>>): (results: seq<TargetResult>)
    ensures |results| == |slots|
  {
    seq(|slots|, i requires 0 <= i < |slots| =>
      if slots[i].Some? then slots[i].value else NewResult(Target("", 0, "", "")))
  }

  // The counting loop and the three-way choice after it.
  method Resolve(results: seq<TargetResult>, outputFailed: bool) returns (code: int)
    ensures outputFailed ==> code == IO_ERROR
    ensures !outputFailed ==>
              && (code == SUCCESS <==> forall i :: 0 <= i < |results| ==> !Failed(results[i]))
              && (code == TARGET_FAILURE <==> results != [] && forall i :: 0 <= i < |results| ==> Failed(results[i]))
              && code in {SUCCESS, TARGET_FAILURE, PARTIAL_SUCCESS}
  {
    var successCount, failureCount := 0, 0;
    for i := 0 to |results|
      invariant successCount >= 0 && failureCount >= 0 && successCount + failureCount == i
      invariant failureCount == 0 <==> forall k :: 0 <= k < i ==> !Failed(results[k])
      invariant successCount == 0 <==> forall k :: 0 <= k < i ==> Failed(results[k])
    {
      if !results[i].tcpConnected || !results[i].tlsHandshakeSuccess || results[i].error != "" {
        failureCount := failureCount + 1;
      } else {
        successCount := successCount + 1;
      }
    }
    if outputFailed {
      return IO_ERROR;
    }
    if failureCount == 0 {
      code := SUCCESS;
    } else if successCount == 0 {
      code := TARGET_FAILURE;
    } else {
      code := PARTIAL_SUCCESS;
    }
  }

  // From the pool's return to the process's exit: a cancelled context and a CSV
  // file that cannot be created are reported before any counting.
  method Conclude(slots: seq<Option<TargetResult>>, cancelled: bool, csvBlocked: bool, outputFailed: bool)
    returns (code: int)
    ensures code == CANCELLED <==> cancelled
    ensures code == IO_ERROR <==> !cancelled && (csvBlocked || outputFailed)
    ensures !cancelled && !csvBlocked && !outputFailed ==> code == Verdict(slots)
  {
    if cancelled {
      return CANCELLED;
    }
    if csvBlocked {
      return IO_ERROR;
    }
    code := Resolve(Materialize(slots), outputFailed);
    if !outputFailed {
      assert Materialize(slots) == [] <==> slots == [];
    }
  }

  // What the exit code says about the slots.
  function Verdict(slots: seq<Option<TargetResult>>): int {
    var results := Materialize(slots);
    if forall i :: 0 <= i < |results| ==> !Failed(results[i]) then SUCCESS
    else if forall i :: 0 <= i < |results| ==> Failed(results[i]) then TARGET_FAILURE
    else PARTIAL_SUCCESS
  }

  // For what ExecuteTarget returns the three-way test asks no more than the error.
  lemma FailedMeansError(r: TargetResult)
    requires Consistent(r)
    ensures Failed(r) <==> r.error != ""
  {
  }

  // The complete, ordered results: 0 exactly when every target is free of errors,
  // 1 exactly when there are targets and none is, and 5 otherwise.
  lemma OrderedVerdict(c: Config<TargetResult>)
    requires forall i: nat :: i < c.n ==> Consistent(c.outcome(i))
    ensures var code := Verdict(Ordered(c, c.n));
            && (code == SUCCESS <==> forall i: nat :: i < c.n ==> c.outcome(i).error == "")
            && (code == TARGET_FAILURE <==> c.n > 0 && forall i: nat :: i < c.n ==> c.outcome(i).error != "")
            && code in {SUCCESS, TARGET_FAILURE, PARTIAL_SUCCESS}
  {
    var results := Materialize(Ordered(c, c.n));
    assert |results| == c.n;
    forall i: nat | i < c.n ensures Failed(results[i]) <==> c.outcome(i).error != "" {
      FailedMeansError(c.outcome(i));
    }
    if c.n > 0 {
      assert Failed(results[0]) <==> c.outcome(0).error != "";
      VerdictCases(Ordered(c, c.n));
    }
  }

  lemma VerdictCases(slots: seq<Option<TargetResult>>)
    requires slots != []
    ensures var results := Materialize(slots);
            && (Verdict(slots) == SUCCESS <==> forall i: nat :: i < |results| ==> !Failed(results[i]))
            && (Verdict(slots) == TARGET_FAILURE <==> forall i: nat :: i < |results| ==> Failed(results[i]))
            && Verdict(slots) in {SUCCESS, TARGET_FAILURE, PARTIAL_SUCCESS}
  {
    var results := Materialize(slots);
    assert Failed(results[0]) || !Failed(results[0]);
  }

  // An uncancelled run exits 0 exactly when every input target is free of errors,
  // 1 exactly when none is, and 5 otherwise.
  lemma RunVerdict(c: Config<TargetResult>, es: seq<Event>)
    requires Valid(c) && IsRun(c, Init(c), es)
    requires forall i: nat :: i < c.n ==> Consistent(c.outcome(i))
    requires var s := After(c, Init(c), es); s.returned && !s.cancelled
    ensures var code := Verdict(Output(c, After(c, Init(c), es)));
            && (code == SUCCESS <==> forall i: nat :: i < c.n ==> c.outcome(i).error == "")
            && (code == TARGET_FAILURE <==> forall i: nat :: i < c.n ==> c.outcome(i).error != "")
            && code in {SUCCESS, TARGET_FAILURE, PARTIAL_SUCCESS}
  {
    hide Verdict, Consistent, After, IsRun;
    CompleteRun(c, es);
    OrderedVerdict(c);
  }

  // A slice with an empty slot in it comes of a cancelled run only.
  lemma HolesMeanCancelled(c: Config<TargetResult>, es: seq<Event>)
    requires Valid(c) && IsRun(c, Init(c), es) && After(c, Init(c), es).returned
    ensures var s := After(c, Init(c), es);
            Holes(Output(c, s)) > 0 ==> s.cancelled
  {
    var s := After(c, Init(c), es);
    if !s.cancelled {
      CompleteRun(c, es);
      NoneEmpty(c, c.n);
    }
  }

  // The run and the exit, for every schedule, with a signal possible up to the test
  // of the context.  A slice with empty slots ends in 130 and is never counted; what
  // is counted is complete.
  method RunAndExit(c: Config<TargetResult>, schedule: (nat, State<TargetResult>) -> Event,
                    lateSignal: bool, csvBlocked: bool, outputFailed: bool)
    returns (slots: seq<Option<TargetResult>>, code: int)
    requires Admissible(c, schedule)
    requires forall i: nat :: i < c.n ==> Consistent(c.outcome(i))
    ensures Holes(slots) > 0 || lateSignal ==> code == CANCELLED
    ensures code != CANCELLED ==> slots == Ordered(c, c.n)
    ensures code == IO_ERROR ==> csvBlocked || outputFailed
    ensures code !in {CANCELLED, IO_ERROR} ==>
              && (code == SUCCESS <==> forall i: nat :: i < c.n ==> c.outcome(i).error == "")
              && (code == TARGET_FAILURE <==> c.n > 0 && forall i: nat :: i < c.n ==> c.outcome(i).error != "")
              && code in {SUCCESS, TARGET_FAILURE, PARTIAL_SUCCESS}
  {
    hide Verdict, Consistent;
    var cancelled;
    ghost var es;
    slots, cancelled, es := RunDiagnostics(c, schedule);
    if !cancelled {
      NoneEmpty(c, c.n);
      OrderedVerdict(c);
    }
    code := Conclude(slots, cancelled || lateSignal, csvBlocked, outputFailed);
  }
}
