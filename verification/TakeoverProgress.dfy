/** What a takeover job gets to: a request or recovery pass that is neither cut off nor refused
    commits the job and finishes it, whatever the other passes do; a job fails only for a
    reason; and no job is ever stuck. */
module TakeoverProgress {
  import opened Base
  import opened TakeoverProtocol

  /** On the way to the commit. */
  predicate Preparatory(p: Point) {
    p == Listed(ServerPrepared) || p.SendsPrepare? || p.MarksPrepared? || p.Commits?
  }

  /** On the way from the commit to the end of the pass. */
  predicate Closing(p: Point) {
    p == Listed(RouterCommitted) || p == Listed(ServerCommitted) || p.Finalizes? || p.Closes?
  }

  /** Nothing stops task `t` in this step: it is not cut off, its prepare is answered well and its
      commit passes; and no other task fails the job. */
  predicate Smooth(j: Job, step: Step, t: nat)
    requires Enabled(j, step)
  {
    match step
    case Crash(u) => u != t
    case PrepareReply(u, ok, _) => u == t ==> ok
    case Commit(u, outcome) => u == t ==> outcome == Passes
    case FailPreparing(u) => u == t || Apply(j, step).status != Failed
    case FailOpen(u) => u == t || Apply(j, step).status != Failed
    case _ => true
  }

  /** A run in which nothing stops task `t`. */
  ghost predicate SmoothRun(j: Job, t: nat, steps: seq<Step>, d: Job)
    decreases |steps|
  {
    if |steps| == 0 then j == d
    else Enabled(j, steps[0]) && Smooth(j, steps[0], t) && SmoothRun(Apply(j, steps[0]), t, steps[1..], d)
  }

  lemma {:induction false} SmoothRunIsRun(j: Job, t: nat, steps: seq<Step>, d: Job)
    requires SmoothRun(j, t, steps, d)
    ensures Reaches(j, steps, d)
    decreases |steps|
  {
    if |steps| > 0 {
      hide Apply;
      SmoothRunIsRun(Apply(j, steps[0]), t, steps[1..], d);
    }
  }

  predicate OnTheWay(j: Job, t: nat) {
    && j.status != Failed && t in j.tasks
    && (Preparatory(j.tasks[t]) || (Closing(j.tasks[t]) && Committed(j.status)))
  }

  /** Another task's step leaves this one on its way. */
  lemma OtherStep(j: Job, t: nat, step: Step)
    requires Inv(j) && Enabled(j, step) && Smooth(j, step, t) && OnTheWay(j, t)
    requires t in Apply(j, step).tasks && Apply(j, step).tasks[t] == j.tasks[t]
    ensures OnTheWay(Apply(j, step), t)
  {
    StepMovesForward(j, step);
    hide Inv, Preparatory, Closing;
  }

  lemma PreparatoryStep(j: Job, t: nat, step: Step)
    requires Enabled(j, step) && Smooth(j, step, t) && j.status != Failed && t in j.tasks && Preparatory(j.tasks[t])
    requires t in Apply(j, step).tasks ==> Apply(j, step).tasks[t] != j.tasks[t]
    ensures OnTheWay(Apply(j, step), t)
  {
    hide RecoveryTiming, Rank;
  }

  lemma ClosingStep(j: Job, t: nat, step: Step)
    requires Enabled(j, step) && Smooth(j, step, t) && Committed(j.status) && t in j.tasks && Closing(j.tasks[t])
    requires t in Apply(j, step).tasks ==> Apply(j, step).tasks[t] != j.tasks[t]
    ensures OnTheWay(Apply(j, step), t) || (step.Close? && step.task == t)
  {
    hide RecoveryTiming, Rank;
  }

  lemma OwnStep(j: Job, t: nat, step: Step)
    requires Inv(j) && Enabled(j, step) && Smooth(j, step, t) && OnTheWay(j, t)
    requires t in Apply(j, step).tasks ==> Apply(j, step).tasks[t] != j.tasks[t]
    ensures OnTheWay(Apply(j, step), t) || (step.Close? && step.task == t)
  {
    hide Inv, Apply, Enabled, Preparatory, Closing;
    if Preparatory(j.tasks[t]) {
      PreparatoryStep(j, t, step);
    } else {
      ClosingStep(j, t, step);
    }
  }

  /** Wherever it happens, closing a pass with nothing left to clean up finishes the job. */
  lemma {:induction false} ClosedIsFinished(j: Job, t: nat, steps: seq<Step>, d: Job)
    requires Inv(j) && Reaches(j, steps, d) && Close(t, false) in steps
    ensures d.status == Finished
    decreases |steps|
  {
    var j1 := Apply(j, steps[0]);
    StepIsSafe(j, steps[0]);
    if steps[0] == Close(t, false) {
      assert PointOk(j, j.tasks[t]);
      assert j1.status == Finished;
      hide Inv, Apply, Enabled, PointOk;
      RunIsSafe(j1, steps[1..], d);
    } else {
      assert steps == [steps[0]] + steps[1..];
      hide Inv, Apply, Enabled, PointOk;
      ClosedIsFinished(j1, t, steps[1..], d);
    }
  }

  /** Progress. A task on its way that nothing stops either is still on its way, or has closed
      its pass and left the job committed; and once a pass closes with no cleanup pending the job
      is finished for good. */
  lemma {:induction false} UnstoppedTaskCloses(j: Job, t: nat, steps: seq<Step>, d: Job)
    requires Inv(j) && OnTheWay(j, t) && SmoothRun(j, t, steps, d)
    ensures OnTheWay(d, t) || (Committed(d.status) && exists pending :: Close(t, pending) in steps)
    ensures Close(t, false) in steps ==> d.status == Finished
    decreases |steps|
  {
    SmoothRunIsRun(j, t, steps, d);
    if Close(t, false) in steps {
      ClosedIsFinished(j, t, steps, d);
    }
    if |steps| > 0 {
      var step, j1 := steps[0], Apply(j, steps[0]);
      if t in j1.tasks && j1.tasks[t] == j.tasks[t] {
        OtherStep(j, t, step);
      } else {
        OwnStep(j, t, step);
      }
      StepIsSafe(j, step);
      if !OnTheWay(j1, t) {
        assert PointOk(j, j.tasks[t]);
        assert Committed(j1.status) && Close(t, step.cleanupPending) in steps;
        RunIsSafe(j1, steps[1..], d);
      } else {
        hide Inv, Apply, Enabled, OnTheWay;
        UnstoppedTaskCloses(j1, t, steps[1..], d);
        assert steps == [step] + steps[1..];
      }
    }
  }

  /** The target's poll is answered yes exactly while the job is committed. */
  lemma AuthorizedIffCommitted(j: Job)
    ensures Authorization(true) == Apply(j, Authorize).sent[|j.sent|] <==> Committed(j.status)
    ensures Authorization(false) == Apply(j, Authorize).sent[|j.sent|] <==> !Committed(j.status)
  {
  }

  /** The request itself is on its way from the start when it has a route, and so is every pass
      that lists the job with the prepare already answered. */
  lemma StartsOnTheWay(now: int, j: Job, t: nat)
    ensures OnTheWay(Begin(now, true), 0) && Inv(Begin(now, true))
    ensures Enabled(j, ListJobs(t)) && j.status != Preparing ==> OnTheWay(Apply(j, ListJobs(t)), t)
    ensures t !in j.tasks ==> (Enabled(j, ListJobs(t)) <==> j.status != Finished && j.status != Failed)
  {
  }

  // ---------------------------------------------------------------- messages

  /** Whether a task knows the target's route; a pass that lists a committed job does without. */
  function RouteOf(p: Point): Option<bool> {
    match p
    case SendsPrepare(_, _) => Some(true)
    case MarksPrepared(_) => Some(true)
    case Commits(b) => Some(b)
    case FailsIfPreparing(b) => Some(b)
    case FailsUncommitted(b) => Some(b)
    case Aborts(b) => Some(b)
    case Finalizes(b) => Some(b)
    case Closes(_) => None
    case Listed(_) => None
  }

  lemma {:induction false} RouteIsKept(j: Job, t: nat, steps: seq<Step>, d: Job)
    requires Reaches(j, steps, d) && ListJobs(t) !in steps
    requires t in j.tasks && !j.tasks[t].Listed? && t in d.tasks && RouteOf(d.tasks[t]).Some?
    ensures RouteOf(j.tasks[t]) == RouteOf(d.tasks[t])
    decreases |steps|
  {
    if |steps| > 0 {
      var j1 := Apply(j, steps[0]);
      if t in j1.tasks {
        assert RouteOf(j1.tasks[t]).Some? ==> RouteOf(j.tasks[t]) == RouteOf(j1.tasks[t]);
        RouteIsKept(j1, t, steps[1..], d);
      } else {
        GoneStaysGone(j1, t, steps[1..], d);
      }
    }
  }

  lemma {:induction false} GoneStaysGone(j: Job, t: nat, steps: seq<Step>, d: Job)
    requires Reaches(j, steps, d) && ListJobs(t) !in steps && t !in j.tasks
    ensures t !in d.tasks
    decreases |steps|
  {
    if |steps| > 0 {
      assert t !in Apply(j, steps[0]).tasks;
      GoneStaysGone(Apply(j, steps[0]), t, steps[1..], d);
    }
  }

  /** A pass tells the target exactly when it has a route. One that came to the job as prepared
      sends the commit when it finalizes; one that came to it as preparing after the deadline
      sends the abort after failing it; without a route neither is sent. */
  lemma PassSendsIffRouted(j: Job, t: nat, route: bool, steps: seq<Step>, d: Job, acknowledged: bool)
    requires Enabled(j, Recover(t, route)) && Reaches(Apply(j, Recover(t, route)), steps, d) && ListJobs(t) !in steps
    requires j.tasks[t].snapshot == ServerPrepared || j.tasks[t].snapshot == Preparing
    requires t in d.tasks
    ensures Enabled(d, Finalize(t, acknowledged)) ==>
              Apply(d, Finalize(t, acknowledged)).sent == d.sent + (if route then [SendCommit] else [])
    ensures Enabled(d, Abort(t)) ==> Apply(d, Abort(t)).sent == d.sent + (if route then [SendAbort] else [])
  {
    var j1 := Apply(j, Recover(t, route));
    if t in j1.tasks {
      if RouteOf(d.tasks[t]).Some? {
        assert RouteOf(j1.tasks[t]) == Some(route);
        RouteIsKept(j1, t, steps, d);
      }
    } else {
      GoneStaysGone(j1, t, steps, d);
    }
    hide Reaches;
  }

  /** A pass over a committed job sends nothing to the target. */
  lemma CommittedPassIsSilent(j: Job, t: nat, route: bool, steps: seq<Step>, d: Job, acknowledged: bool)
    requires Enabled(j, Recover(t, route)) && Reaches(Apply(j, Recover(t, route)), steps, d) && ListJobs(t) !in steps
    requires j.tasks[t].snapshot == RouterCommitted || j.tasks[t].snapshot == ServerCommitted
    ensures Enabled(d, Finalize(t, acknowledged)) ==> Apply(d, Finalize(t, acknowledged)).sent == d.sent
  {
    if t in d.tasks && d.tasks[t].Finalizes? {
      RouteIsKept(Apply(j, Recover(t, route)), t, steps, d);
    }
  }

  /** What closing a pass records: finished when nothing is left to clean up, and otherwise at
      least that the target acknowledged the commit, if it did. */
  lemma ClosingRecords(j: Job, t: nat, acknowledged: bool, steps: seq<Step>, d: Job, pending: bool)
    requires Inv(j) && Enabled(j, Finalize(t, acknowledged)) && Reaches(Apply(j, Finalize(t, acknowledged)), steps, d)
    requires ListJobs(t) !in steps && Enabled(d, Close(t, pending))
    ensures var s := Apply(d, Close(t, pending)).status;
            && (s == Finished <==> !pending || d.status == Finished)
            && (s == RouterCommitted || s == ServerCommitted || s == Finished)
            && (acknowledged && j.tasks[t].backend ==> s == ServerCommitted || s == Finished)
  {
    var j1 := Apply(j, Finalize(t, acknowledged));
    StepIsSafe(j, Finalize(t, acknowledged));
    RunIsSafe(j1, steps, d);
    ClosesIsKept(j1, t, steps, d);
    hide Reaches;
    assert PointOk(d, d.tasks[t]);
  }

  lemma {:induction false} ClosesIsKept(j: Job, t: nat, steps: seq<Step>, d: Job)
    requires Reaches(j, steps, d) && ListJobs(t) !in steps && t in j.tasks && j.tasks[t].Closes? && t in d.tasks
    ensures d.tasks[t] == j.tasks[t]
    decreases |steps|
  {
    if |steps| > 0 {
      var j1 := Apply(j, steps[0]);
      if t in j1.tasks {
        ClosesIsKept(j1, t, steps[1..], d);
      } else {
        GoneStaysGone(j1, t, steps[1..], d);
      }
    }
  }

  // ---------------------------------------------------------------- why a job fails

  /** A reason to fail: a prepare that was refused, or that the request could not deliver; a pass
      that comes to a job it listed as preparing when two minutes have passed since activation;
      or a commit that ends in a terminal error. */
  predicate Cause(j: Job, step: Step)
    requires Enabled(j, step)
  {
    match step
    case PrepareReply(t, ok, transport) => !ok && !(j.tasks[t].recovery && transport)
    case Recover(t, _) =>
      && j.tasks[t].snapshot == Preparing
      && j.now >= j.activateAt && j.now >= Min(j.activateAt + 120_000, I64_MAX)
    case Commit(_, outcome) => outcome == TerminalError && !Committed(j.status)
    case _ => false
  }

  predicate CauseIn(j: Job, steps: seq<Step>)
    decreases |steps|
  {
    |steps| > 0 && Enabled(j, steps[0]) && (Cause(j, steps[0]) || CauseIn(Apply(j, steps[0]), steps[1..]))
  }

  /** The job has not failed and nobody is about to fail it. */
  ghost predicate Untroubled(j: Job) {
    && j.status != Failed
    && forall t :: t in j.tasks ==>
         !j.tasks[t].FailsIfPreparing? && !j.tasks[t].FailsUncommitted? && !j.tasks[t].Aborts?
  }

  lemma UntroubledStep(j: Job, step: Step)
    requires Untroubled(j) && Enabled(j, step) && !Cause(j, step)
    ensures Untroubled(Apply(j, step))
  {
    var d := Apply(j, step);
    forall t | t in d.tasks
      ensures !d.tasks[t].FailsIfPreparing? && !d.tasks[t].FailsUncommitted? && !d.tasks[t].Aborts?
    {
      if t in j.tasks && d.tasks[t] == j.tasks[t] {
        hide Apply;
      }
    }
  }

  lemma {:induction false} UntroubledRun(j: Job, steps: seq<Step>, d: Job)
    requires Untroubled(j) && Reaches(j, steps, d) && !CauseIn(j, steps)
    ensures Untroubled(d)
    decreases |steps|
  {
    if |steps| > 0 {
      UntroubledStep(j, steps[0]);
      hide Untroubled, Apply;
      UntroubledRun(Apply(j, steps[0]), steps[1..], d);
    }
  }

  /** Cause of failure. A job fails, or its target is told to abort, only in a run in which the
      request had no route to the target, a prepare was refused, a pass came to it too late, or a
      commit ended in a terminal error. */
  lemma FailureHasCause(now: int, route: bool, steps: seq<Step>, d: Job)
    requires Reaches(Begin(now, route), steps, d)
    requires d.status == Failed || SendAbort in d.sent
    ensures !route || CauseIn(Begin(now, route), steps)
  {
    var j := Begin(now, route);
    if SendAbort in d.sent {
      RunIsSafe(j, steps, d);
      var i :| 0 <= i < |d.sent| && d.sent[i] == SendAbort;
      assert MessageOk(d, d.sent[i]);
    }
    if route && !CauseIn(j, steps) {
      UntroubledRun(j, steps, d);
    }
  }

  /** A cause takes effect: a pass that is about to fail the job and is not cut off fails it,
      unless another pass has committed it first. */
  lemma {:induction false} CauseTakesEffect(j: Job, t: nat, steps: seq<Step>, d: Job)
    requires Inv(j) && Reaches(j, steps, d) && Crash(t) !in steps
    requires (t in j.tasks && j.tasks[t].FailsUncommitted?) || j.status == Failed || Committed(j.status)
    ensures (t in d.tasks && d.tasks[t].FailsUncommitted?) || d.status == Failed || Committed(d.status)
    decreases |steps|
  {
    if |steps| > 0 {
      StepIsSafe(j, steps[0]);
      CauseTakesEffect(Apply(j, steps[0]), t, steps[1..], d);
    }
  }

  lemma TerminalErrorFails(j: Job, t: nat, steps: seq<Step>, d: Job)
    requires Inv(j) && Enabled(j, Commit(t, TerminalError)) && Crash(t) !in steps
    requires Reaches(Apply(j, Commit(t, TerminalError)), steps, d)
    ensures (t in d.tasks && d.tasks[t].FailsUncommitted?) || d.status == Failed || Committed(d.status)
  {
    StepIsSafe(j, Commit(t, TerminalError));
    CauseTakesEffect(Apply(j, Commit(t, TerminalError)), t, steps, d);
  }

  // ---------------------------------------------------------------- no dead end

  ghost predicate CanEnd(j: Job) {
    exists steps, d :: Reaches(j, steps, d) && (d.status == Finished || d.status == Failed)
  }

  lemma StepBack(j: Job, step: Step)
    requires Enabled(j, step) && CanEnd(Apply(j, step))
    ensures CanEnd(j)
  {
    var steps, d :| Reaches(Apply(j, step), steps, d) && (d.status == Finished || d.status == Failed);
    assert ([step] + steps)[1..] == steps;
    assert Reaches(j, [step] + steps, d);
  }

  lemma Ended(j: Job)
    requires j.status == Finished || j.status == Failed
    ensures CanEnd(j)
  {
    assert Reaches(j, [], j);
  }

  lemma CanClose(j: Job, t: nat)
    requires Committed(j.status) && t in j.tasks && j.tasks[t].Finalizes?
    ensures CanEnd(j)
  {
    var j1 := Apply(j, Finalize(t, false));
    var j2 := Apply(j1, Close(t, false));
    assert j2.status == Finished;
    hide Apply, CanEnd;
    Ended(j2);
    StepBack(j1, Close(t, false));
    StepBack(j, Finalize(t, false));
  }

  lemma CanFail(j: Job, t: nat)
    requires j.status == Preparing && t in j.tasks && j.tasks[t].FailsIfPreparing?
    ensures CanEnd(j)
  {
    Ended(Apply(j, FailPreparing(t)));
    StepBack(j, FailPreparing(t));
  }

  /** No dead end: whatever has happened, a new pass can take the job to its end. */
  lemma EveryJobCanEnd(j: Job)
    ensures CanEnd(j)
  {
    if j.status == Finished || j.status == Failed {
      Ended(j);
    } else {
      var t := UnusedTask(j.tasks.Keys);
      var j1 := Apply(j, ListJobs(t));
      var late := Max(j.now, Max(j.activateAt, Min(j.activateAt + RECOVERY_WINDOW, I64_MAX)));
      var j2 := Apply(j1, Tick(late));
      var j3 := Apply(j2, Recover(t, true));
      if j.status == Preparing {
        CanFail(j3, t);
      } else if j.status == ServerPrepared {
        CanClose(Apply(j3, Commit(t, Passes)), t);
        StepBack(j3, Commit(t, Passes));
      } else {
        CanClose(j3, t);
      }
      hide CanEnd;
      StepBack(j2, Recover(t, true));
      StepBack(j1, Tick(late));
      StepBack(j, ListJobs(t));
    }
  }
}
