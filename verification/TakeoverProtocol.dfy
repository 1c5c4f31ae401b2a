/** One subdomain takeover job: the request that runs it, any number of recovery passes
    working from stale listings, the target Client polling for authorization, and a crash
    of any of them at any point. Every store call is one atomic statement on the durable
    status; every message to the target is recorded. */
module TakeoverProtocol {
  import opened Base

  datatype Status = Preparing | ServerPrepared | RouterCommitted | ServerCommitted | Finished | Failed

  predicate Committed(s: Status) { s == RouterCommitted || s == ServerCommitted || s == Finished }

  /** What reaches the target Client. A prepare carries the time of the decision that led to
      it and the time it left: a recovery pass decides first and then waits for the locks. */
  datatype Message =
    | SendPrepare(recovery: bool, decidedAt: int, sentAt: int)
    | SendAbort
    | SendCommit
    | Authorization(granted: bool)

  /** The next thing a task will do; `backend` is whether it knows a target route. */
  datatype Point =
    | Listed(snapshot: Status)
    | SendsPrepare(recovery: bool, decidedAt: int)
    | MarksPrepared(recovery: bool)
    | Commits(backend: bool)
    | FailsIfPreparing(backend: bool)
    | FailsUncommitted(backend: bool)
    | Aborts(backend: bool)
    | Finalizes(backend: bool)
    | Closes(serverCommitted: bool)

  datatype Job = Job(
    status: Status, activateAt: int, now: int, tasks: map<nat, Point>, sent: seq<Message>)

  const RECOVERY_WINDOW: int := 120_000

  datatype Timing = NotDue | Retry | Expired

  /** `preparing_recovery_timing`, with i64 saturation. */
  function RecoveryTiming(activateAt: int, now: int): Timing {
    if now < activateAt then NotDue
    else if now >= Min(activateAt + RECOVERY_WINDOW, I64_MAX) then Expired
    else Retry
  }

  /** `begin_client_subdomain_takeover` followed by the route lookup of `execute`. */
  function Begin(now: int, route: bool): Job {
    Job(Preparing, Min(now + 10_000, I64_MAX), now,
        map[0 := if route then SendsPrepare(false, now) else FailsIfPreparing(false)], [])
  }

  datatype CommitOutcome = Passes | TerminalError | TransientError

  datatype Step =
    | Tick(now: int)
    | ListJobs(task: nat)
    | Recover(task: nat, route: bool)
    | PrepareReply(task: nat, ok: bool, transport: bool)
    | Mark(task: nat)
    | Commit(task: nat, outcome: CommitOutcome)
    | FailPreparing(task: nat)
    | FailOpen(task: nat)
    | Abort(task: nat)
    | Finalize(task: nat, acknowledged: bool)
    | Close(task: nat, cleanupPending: bool)
    | Authorize
    | Crash(task: nat)

  predicate At(j: Job, task: nat) { task in j.tasks }

  /** A recovery pass lists the jobs that are neither finished nor failed and comes to each of
      them later, with the status it read then. */
  predicate Enabled(j: Job, step: Step) {
    match step
    case Tick(now) => j.now <= now
    case ListJobs(t) => !At(j, t) && j.status in {Preparing, ServerPrepared, RouterCommitted, ServerCommitted}
    case Recover(t, _) => At(j, t) && j.tasks[t].Listed?
    case PrepareReply(t, _, _) => At(j, t) && j.tasks[t].SendsPrepare?
    case Mark(t) => At(j, t) && j.tasks[t].MarksPrepared?
    case Commit(t, _) => At(j, t) && j.tasks[t].Commits?
    case FailPreparing(t) => At(j, t) && j.tasks[t].FailsIfPreparing?
    case FailOpen(t) => At(j, t) && j.tasks[t].FailsUncommitted?
    case Abort(t) => At(j, t) && j.tasks[t].Aborts?
    case Finalize(t, _) => At(j, t) && j.tasks[t].Finalizes?
    case Close(t, _) => At(j, t) && j.tasks[t].Closes?
    case Authorize => true
    case Crash(t) => At(j, t)
  }

  function Rank(s: Status): nat {
    match s
    case Preparing => 0
    case ServerPrepared => 1
    case RouterCommitted => 2
    case ServerCommitted => 3
    case Finished => 4
    case Failed => 5
  }

  function Go(j: Job, t: nat, p: Point): Job { j.(tasks := j.tasks[t := p]) }
  function Set(j: Job, s: Status): Job { j.(status := s) }
  function Done(j: Job, t: nat): Job { j.(tasks := j.tasks - {t}) }

  function Apply(j: Job, step: Step): Job
    requires Enabled(j, step)
  {
    match step
    case Tick(now) => j.(now := now)
    case ListJobs(t) => Go(j, t, Listed(j.status))
    case Recover(t, route) =>
      (match j.tasks[t].snapshot
       case RouterCommitted => Go(j, t, Finalizes(false))
       case ServerCommitted => Go(j, t, Finalizes(false))
       case ServerPrepared => Go(j, t, Commits(route))
       case Preparing =>
         (match RecoveryTiming(j.activateAt, j.now)
          case NotDue => Done(j, t)
          case Expired => Go(j, t, FailsIfPreparing(route))
          case Retry => if route then Go(j, t, SendsPrepare(true, j.now)) else Done(j, t))
       case _ => Done(j, t))
    case PrepareReply(t, ok, transport) =>
      var p := j.tasks[t];
      var sent := j.(sent := j.sent + [SendPrepare(p.recovery, p.decidedAt, j.now)]);
      if ok then Go(sent, t, MarksPrepared(p.recovery))
      else if p.recovery && transport then Done(sent, t)
      else Go(sent, t, FailsIfPreparing(true))
    case Mark(t) =>
      if j.status == Preparing then Go(Set(j, ServerPrepared), t, Commits(true))
      else if j.status == Failed then Done(j, t)
      else Go(j, t, Commits(true))
    case Commit(t, outcome) =>
      var backend := j.tasks[t].backend;
      if Committed(j.status) then Go(j, t, Finalizes(backend))
      else if j.status == Failed then Go(j, t, FailsUncommitted(backend))
      else if outcome == Passes then Go(Set(j, RouterCommitted), t, Finalizes(backend))
      else if outcome == TerminalError then Go(j, t, FailsUncommitted(backend))
      else Done(j, t)
    case FailPreparing(t) =>
      var backend := j.tasks[t].backend;
      if j.status == Preparing then Go(Set(j, Failed), t, Aborts(backend)) else Done(j, t)
    case FailOpen(t) =>
      var backend := j.tasks[t].backend;
      if j.status == Preparing || j.status == ServerPrepared then Go(Set(j, Failed), t, Aborts(backend)) else Done(j, t)
    case Abort(t) =>
      if j.tasks[t].backend then Done(j.(sent := j.sent + [SendAbort]), t) else Done(j, t)
    case Finalize(t, acknowledged) =>
      if j.tasks[t].backend then Go(j.(sent := j.sent + [SendCommit]), t, Closes(acknowledged))
      else Go(j, t, Closes(false))
    case Close(t, cleanupPending) =>
      var server := j.tasks[t].serverCommitted;
      var status :=
        if !Committed(j.status) then j.status
        else if !cleanupPending then Finished
        else if j.status == Finished then Finished
        else if j.status == ServerCommitted || server then ServerCommitted
        else RouterCommitted;
      Done(Set(j, status), t)
    case Authorize => j.(sent := j.sent + [Authorization(Committed(j.status))])
    case Crash(t) => Done(j, t)
  }

  // ---------------------------------------------------------------- safety

  predicate MessageOk(j: Job, m: Message) {
    match m
    case SendAbort => j.status == Failed
    case SendCommit => Committed(j.status)
    case Authorization(granted) => granted ==> Committed(j.status)
    case SendPrepare(recovery, at, sentAt) =>
      at <= sentAt <= j.now && (recovery ==> RecoveryTiming(j.activateAt, at) == Retry)
  }

  predicate PointOk(j: Job, p: Point) {
    match p
    case Listed(s) => Forward(s, j.status)
    case Aborts(_) => j.status == Failed
    case Finalizes(_) => Committed(j.status)
    case Closes(_) => Committed(j.status)
    case SendsPrepare(recovery, at) => at <= j.now && (recovery ==> RecoveryTiming(j.activateAt, at) == Retry)
    case _ => true
  }

  ghost predicate Inv(j: Job) {
    && (forall i :: 0 <= i < |j.sent| ==> MessageOk(j, j.sent[i]))
    && (forall t :: t in j.tasks ==> PointOk(j, j.tasks[t]))
  }

  predicate Forward(s: Status, d: Status) {
    && (Committed(s) ==> Committed(d) && Rank(s) <= Rank(d))
    && (s == Failed ==> d == Failed)
    && (d == Preparing ==> s == Preparing)
  }

  lemma StepMovesForward(j: Job, step: Step)
    requires Inv(j) && Enabled(j, step)
    ensures Forward(j.status, Apply(j, step).status)
    ensures j.sent <= Apply(j, step).sent && Apply(j, step).activateAt == j.activateAt && j.now <= Apply(j, step).now
  {
    hide RecoveryTiming, MessageOk;
  }

  /** A task that did not move stays justified while the job moves forward. */
  lemma PointStays(j: Job, d: Job, p: Point)
    requires PointOk(j, p) && Forward(j.status, d.status) && d.activateAt == j.activateAt && j.now <= d.now
    ensures PointOk(d, p)
  {
  }

  lemma StepKeepsPoints(j: Job, step: Step, t: nat)
    requires Inv(j) && Enabled(j, step) && t in Apply(j, step).tasks
    ensures PointOk(Apply(j, step), Apply(j, step).tasks[t])
  {
    var d := Apply(j, step);
    StepMovesForward(j, step);
    if t in j.tasks && d.tasks[t] == j.tasks[t] {
      assert PointOk(j, j.tasks[t]);
      hide Apply, Enabled, PointOk, MessageOk, Forward;
      PointStays(j, d, d.tasks[t]);
    } else {
      if t in j.tasks { assert PointOk(j, j.tasks[t]); }
      hide Inv, MessageOk, Rank;
    }
  }

  lemma StepKeepsMessages(j: Job, step: Step, i: nat)
    requires Inv(j) && Enabled(j, step) && i < |Apply(j, step).sent|
    ensures MessageOk(Apply(j, step), Apply(j, step).sent[i])
  {
    StepMovesForward(j, step);
    if i < |j.sent| { assert MessageOk(j, j.sent[i]); }
    hide RecoveryTiming, Rank;
  }

  /** One step keeps every message justified by the durable status and never moves the
      status backwards. */
  lemma StepIsSafe(j: Job, step: Step)
    requires Inv(j) && Enabled(j, step)
    ensures Inv(Apply(j, step))
    ensures Forward(j.status, Apply(j, step).status)
    ensures j.sent <= Apply(j, step).sent && Apply(j, step).activateAt == j.activateAt
  {
    var d := Apply(j, step);
    StepMovesForward(j, step);
    forall t | t in d.tasks ensures PointOk(d, d.tasks[t]) { StepKeepsPoints(j, step, t); }
    forall i | 0 <= i < |d.sent| ensures MessageOk(d, d.sent[i]) { StepKeepsMessages(j, step, i); }
    hide Apply, PointOk, MessageOk, Forward;
  }

  ghost predicate Reaches(j: Job, steps: seq<Step>, d: Job)
    decreases |steps|
  {
    if |steps| == 0 then j == d
    else Enabled(j, steps[0]) && Reaches(Apply(j, steps[0]), steps[1..], d)
  }

  lemma {:induction false} RunIsSafe(j: Job, steps: seq<Step>, d: Job)
    requires Inv(j) && Reaches(j, steps, d)
    ensures Inv(d) && Forward(j.status, d.status) && j.sent <= d.sent && d.activateAt == j.activateAt
    decreases |steps|
  {
    if |steps| > 0 {
      StepIsSafe(j, steps[0]);
      hide Inv, Apply;
      RunIsSafe(Apply(j, steps[0]), steps[1..], d);
    }
  }

  /** Protocol safety for every interleaving and every crash: once an abort has been sent
      the job is and stays failed; once a commit has been sent or the target has been
      authorized the job is and stays committed; so no run ever does both. A recovery
      prepare was decided inside its retry window, and left no earlier than that. */
  lemma AbortAndCommitExclude(now: int, route: bool, steps: seq<Step>, j: Job, more: seq<Step>, d: Job)
    requires Reaches(Begin(now, route), steps, j) && Reaches(j, more, d)
    ensures SendAbort in j.sent ==>
              d.status == Failed && SendCommit !in d.sent && Authorization(true) !in d.sent
    ensures (SendCommit in j.sent || Authorization(true) in j.sent) ==> Committed(d.status) && SendAbort !in d.sent
    ensures Committed(j.status) ==> Committed(d.status) && Rank(j.status) <= Rank(d.status)
    ensures d.activateAt == Min(now + 10_000, I64_MAX)
    ensures forall at, sentAt :: SendPrepare(true, at, sentAt) in d.sent ==>
              d.activateAt <= at < d.activateAt + 120_000 && at <= sentAt
  {
    RunIsSafe(Begin(now, route), steps, j);
    RunIsSafe(j, more, d);
    hide Reaches;
    forall m | m in d.sent ensures MessageOk(d, m) {
      var i :| 0 <= i < |d.sent| && d.sent[i] == m;
    }
    forall m | m in j.sent ensures MessageOk(j, m) {
      var i :| 0 <= i < |j.sent| && j.sent[i] == m;
    }
  }

  // ---------------------------------------------------------------- late prepares

  /** The retry window is still ahead or open. */
  predicate MayRetry(j: Job) { Max(j.now, j.activateAt) < Min(j.activateAt + RECOVERY_WINDOW, I64_MAX) }

  /** A recovery pass can still decide to prepare: the window is not over, and a pass has the
      job listed as preparing or can list it so. */
  ghost predicate MayStart(j: Job) {
    MayRetry(j) && (j.status == Preparing || exists t :: t in j.tasks && j.tasks[t] == Listed(Preparing))
  }

  /** A task is about to send a prepare; with `any` unset, a recovery prepare. */
  ghost predicate PendingPrepare(j: Job, any: bool) {
    exists t :: t in j.tasks && j.tasks[t].SendsPrepare? && (any || j.tasks[t].recovery)
  }

  /** The run from `j` to `d` sent a prepare. */
  ghost predicate NewPrepare(j: Job, d: Job, any: bool) {
    exists i :: |j.sent| <= i < |d.sent| && d.sent[i].SendPrepare? && (any || d.sent[i].recovery)
  }

  /** Some continuation sends a prepare. */
  ghost predicate PrepareFollows(j: Job, any: bool) {
    exists steps, d :: Reaches(j, steps, d) && NewPrepare(j, d, any)
  }

  /** Without one, and with none to start, a step neither sends a prepare nor sets one up. */
  lemma QuietStep(j: Job, step: Step, any: bool)
    requires Enabled(j, step) && !MayStart(j) && !PendingPrepare(j, any)
    ensures var d := Apply(j, step);
            !MayStart(d) && !PendingPrepare(d, any) && !NewPrepare(j, d, any) && |j.sent| <= |d.sent|
  {
    var d := Apply(j, step);
    forall t | t in d.tasks && d.tasks[t].SendsPrepare? ensures !any && !d.tasks[t].recovery {
      assert t in j.tasks && j.tasks[t] == d.tasks[t];
    }
    if MayRetry(d) {
      forall t | t in d.tasks ensures d.tasks[t] != Listed(Preparing) {
        assert (t in j.tasks && j.tasks[t] == d.tasks[t]) || d.tasks[t] != Listed(Preparing);
      }
    }
  }

  lemma {:induction false} QuietRun(j: Job, steps: seq<Step>, d: Job, any: bool)
    requires Reaches(j, steps, d) && !MayStart(j) && !PendingPrepare(j, any)
    ensures !NewPrepare(j, d, any)
    decreases |steps|
  {
    if |steps| > 0 {
      var j1 := Apply(j, steps[0]);
      QuietStep(j, steps[0], any);
      SentGrows(j, steps[0]);
      hide PendingPrepare, MayStart, Apply;
      QuietRun(j1, steps[1..], d, any);
      SentKept(j1, steps[1..], d);
      assert forall i :: 0 <= i < |j1.sent| ==> d.sent[i] == j1.sent[i];
    }
  }

  lemma SentGrows(j: Job, step: Step)
    requires Enabled(j, step)
    ensures j.sent <= Apply(j, step).sent
  {
  }

  lemma {:induction false} SentKept(j: Job, steps: seq<Step>, d: Job)
    requires Reaches(j, steps, d)
    ensures j.sent <= d.sent
    decreases |steps|
  {
    if |steps| > 0 {
      SentGrows(j, steps[0]);
      hide Apply;
      SentKept(Apply(j, steps[0]), steps[1..], d);
    }
  }

  lemma {:induction false} UnusedTask(tasks: set<nat>) returns (t: nat)
    ensures t !in tasks && forall u :: u in tasks ==> u < t
    decreases |tasks|
  {
    if tasks == {} {
      t := 0;
    } else {
      var u :| u in tasks;
      var v := UnusedTask(tasks - {u});
      assert forall x :: x in tasks ==> x == u || x in tasks - {u};
      t := if u < v then v else u + 1;
    }
  }

  /** A waiting task only has to be let through. */
  lemma SendPending(j: Job, any: bool) returns (steps: seq<Step>, d: Job)
    requires PendingPrepare(j, any)
    ensures Reaches(j, steps, d) && NewPrepare(j, d, any)
  {
    var t :| t in j.tasks && j.tasks[t].SendsPrepare? && (any || j.tasks[t].recovery);
    var step := PrepareReply(t, false, true);
    steps, d := [step], Apply(j, step);
    assert steps[1..] == [] && Reaches(d, [], d);
    assert d.sent[|j.sent|] == SendPrepare(j.tasks[t].recovery, j.tasks[t].decidedAt, j.now);
  }

  /** A pass that has the job listed as preparing may decide and send while the window lasts. */
  lemma StartListed(j: Job, t: nat, any: bool) returns (steps: seq<Step>, d: Job)
    requires MayRetry(j) && t in j.tasks && j.tasks[t] == Listed(Preparing)
    ensures Reaches(j, steps, d) && NewPrepare(j, d, any)
  {
    var tick := Tick(Max(j.now, j.activateAt));
    var j1 := Apply(j, tick);
    var j2 := Apply(j1, Recover(t, true));
    assert j2.tasks[t] == SendsPrepare(true, j1.now) && j2.sent == j.sent;
    assert PendingPrepare(j2, false);
    var rest, e := SendPending(j2, false);
    steps, d := [tick, Recover(t, true)] + rest, e;
    assert steps[1..][1..] == rest && steps[1..][0] == Recover(t, true);
    assert Reaches(j1, steps[1..], d);
    var i :| |j2.sent| <= i < |d.sent| && d.sent[i].SendPrepare? && d.sent[i].recovery;
    assert |j.sent| <= i < |d.sent|;
  }

  /** A preparing job can be listed first. */
  lemma StartFresh(j: Job, any: bool) returns (steps: seq<Step>, d: Job)
    requires MayRetry(j) && j.status == Preparing
    ensures Reaches(j, steps, d) && NewPrepare(j, d, any)
  {
    var t := UnusedTask(j.tasks.Keys);
    var j1 := Apply(j, ListJobs(t));
    var rest, e := StartListed(j1, t, any);
    steps, d := [ListJobs(t)] + rest, e;
    assert steps[1..] == rest;
    assert j1.sent == j.sent;
  }

  /** When another prepare can still leave, whatever the job's status: exactly when a task
      already waits to send one, or a recovery pass can still decide to. */
  lemma AnotherPrepareIff(j: Job, any: bool)
    ensures PrepareFollows(j, any) <==> PendingPrepare(j, any) || MayStart(j)
  {
    if PendingPrepare(j, any) {
      var steps, d := SendPending(j, any);
    } else if MayStart(j) {
      if j.status == Preparing {
        var steps, d := StartFresh(j, any);
      } else {
        var t :| t in j.tasks && j.tasks[t] == Listed(Preparing);
        var steps, d := StartListed(j, t, any);
      }
    } else {
      hide MayStart, PendingPrepare, NewPrepare;
      forall steps, d | Reaches(j, steps, d) ensures !NewPrepare(j, d, any) {
        QuietRun(j, steps, d, any);
      }
    }
  }

  /** After an abort a prepare can still follow exactly when a task waits to send one, or a
      pass listed the job before it failed and the retry window is not over: no status is read
      again under the locks. The target is then prepared for a dead job, and by the safety
      lemma never authorized. */
  lemma PrepareAfterAbortIff(now: int, route: bool, past: seq<Step>, j: Job)
    requires Reaches(Begin(now, route), past, j) && SendAbort in j.sent
    ensures PrepareFollows(j, true) <==>
              || (exists t :: t in j.tasks && j.tasks[t].SendsPrepare?)
              || (&& (exists t :: t in j.tasks && j.tasks[t] == Listed(Preparing))
                  && Max(j.now, j.activateAt) < Min(j.activateAt + 120_000, I64_MAX))
    ensures j.status == Failed
  {
    AnotherPrepareIff(j, true);
    AbortAndCommitExclude(now, route, past, j, [], j);
  }

  /** Past the deadline a recovery prepare can still leave exactly when a pass decided to send
      it before and has been waiting for the locks since. */
  lemma LatePrepareIff(j: Job)
    requires j.now >= j.activateAt && j.now >= Min(j.activateAt + 120_000, I64_MAX)
    ensures PrepareFollows(j, false) <==>
              exists t :: t in j.tasks && j.tasks[t].SendsPrepare? && j.tasks[t].recovery
  {
    AnotherPrepareIff(j, false);
  }

  /** Past the deadline no run starts a prepare: whoever waits to send one was already waiting. */
  lemma {:induction false} NoPrepareStartsLate(j: Job, steps: seq<Step>, d: Job, t: nat)
    requires Reaches(j, steps, d) && j.now >= j.activateAt && j.now >= Min(j.activateAt + 120_000, I64_MAX)
    requires t in d.tasks && d.tasks[t].SendsPrepare?
    ensures t in j.tasks && j.tasks[t] == d.tasks[t]
    decreases |steps|
  {
    if |steps| > 0 {
      assert RecoveryTiming(Apply(j, steps[0]).activateAt, Apply(j, steps[0]).now) == Expired;
      NoPrepareStartsLate(Apply(j, steps[0]), steps[1..], d, t);
    }
  }

  /** Past the deadline a pass fails the job: one that comes to the job then and is not cut
      off either still has that statement to run, or has left the job no longer preparing. */
  lemma LatePassSettles(j: Job, t: nat, route: bool, steps: seq<Step>, d: Job)
    requires Inv(j) && Enabled(j, Recover(t, route))
    requires j.now >= j.activateAt && j.now >= Min(j.activateAt + 120_000, I64_MAX)
    requires Reaches(Apply(j, Recover(t, route)), steps, d) && Crash(t) !in steps
    ensures d.status != Preparing || (t in d.tasks && d.tasks[t] == FailsIfPreparing(route))
  {
    assert PointOk(j, j.tasks[t]);
    StepIsSafe(j, Recover(t, route));
    SettlesOnTheWay(Apply(j, Recover(t, route)), t, route, steps, d);
  }

  lemma {:induction false} SettlesOnTheWay(j: Job, t: nat, route: bool, steps: seq<Step>, d: Job)
    requires j.status != Preparing || (t in j.tasks && j.tasks[t] == FailsIfPreparing(route))
    requires Inv(j) && Reaches(j, steps, d) && Crash(t) !in steps
    ensures d.status != Preparing || (t in d.tasks && d.tasks[t] == FailsIfPreparing(route))
    decreases |steps|
  {
    if |steps| > 0 {
      StepIsSafe(j, steps[0]);
      SettlesOnTheWay(Apply(j, steps[0]), t, route, steps[1..], d);
    }
  }

  /** The late prepare: the request crashes, a pass decides just in time and then waits for
      the locks far past the deadline. */
  lemma PrepareCanLeaveLate() returns (steps: seq<Step>, j: Job)
    ensures Reaches(Begin(0, true), steps, j)
    ensures j.sent == [SendPrepare(true, 10_000, 1_000_000)] && RecoveryTiming(j.activateAt, 1_000_000) == Expired
  {
    var j1 := Apply(Begin(0, true), Crash(0));
    var j2 := Apply(j1, ListJobs(1));
    var j3 := Apply(j2, Tick(10_000));
    var j4 := Apply(j3, Recover(1, true));
    var j5 := Apply(j4, Tick(1_000_000));
    var j6 := Apply(j5, PrepareReply(1, false, true));
    var s6 := [PrepareReply(1, false, true)];
    var s5 := [Tick(1_000_000)] + s6;
    var s4 := [Recover(1, true)] + s5;
    var s3 := [Tick(10_000)] + s4;
    var s2 := [ListJobs(1)] + s3;
    steps, j := [Crash(0)] + s2, j6;
    assert s6[1..] == [] && s5[1..] == s6 && s4[1..] == s5 && s3[1..] == s4 && s2[1..] == s3 && steps[1..] == s2;
    assert Reaches(j6, [], j6) && Reaches(j5, s6, j6) && Reaches(j4, s5, j6);
    assert Reaches(j3, s4, j6) && Reaches(j2, s3, j6) && Reaches(j1, s2, j6);
  }

  /** One such run after an abort: a pass lists the job while it is preparing, the request
      fails it and aborts the target, and only then does the pass decide and send. */
  lemma PrepareCanFollowAbort() returns (steps: seq<Step>, j: Job)
    ensures Reaches(Begin(0, true), steps, j)
    ensures j.sent == [SendPrepare(false, 0, 0), SendAbort, SendPrepare(true, 10_000, 10_000)] && j.status == Failed
  {
    var start := [ListJobs(1), PrepareReply(0, false, false), FailPreparing(0), Abort(0)];
    var finish := [Tick(10_000), Recover(1, true), PrepareReply(1, false, true)];
    var middle := AbortedJob(start);
    var last := LatePrepare(middle, finish);
    ReachesConcat(Begin(0, true), start, middle, finish, last);
    steps, j := start + finish, last;
  }

  lemma AbortedJob(start: seq<Step>) returns (j: Job)
    requires start == [ListJobs(1), PrepareReply(0, false, false), FailPreparing(0), Abort(0)]
    ensures Reaches(Begin(0, true), start, j)
    ensures j == Job(Failed, 10_000, 0, map[1 := Listed(Preparing)], [SendPrepare(false, 0, 0), SendAbort])
  {
    var j1 := Apply(Begin(0, true), start[0]);
    var j2 := Apply(j1, start[1]);
    var j3 := Apply(j2, start[2]);
    j := Apply(j3, start[3]);
    assert start[1..][1..][1..][1..] == [];
    assert Reaches(j, [], j) && Reaches(j3, start[1..][1..][1..], j);
    assert Reaches(j2, start[1..][1..], j) && Reaches(j1, start[1..], j);
    assert j.tasks == map[1 := Listed(Preparing)];
  }

  lemma LatePrepare(j: Job, finish: seq<Step>) returns (d: Job)
    requires j == Job(Failed, 10_000, 0, map[1 := Listed(Preparing)], [SendPrepare(false, 0, 0), SendAbort])
    requires finish == [Tick(10_000), Recover(1, true), PrepareReply(1, false, true)]
    ensures Reaches(j, finish, d) && d.status == Failed && d.sent == j.sent + [SendPrepare(true, 10_000, 10_000)]
  {
    var j1 := Apply(j, finish[0]);
    var j2 := Apply(j1, finish[1]);
    d := Apply(j2, finish[2]);
    assert finish[1..][1..][1..] == [];
    assert Reaches(d, [], d) && Reaches(j2, finish[1..][1..], d) && Reaches(j1, finish[1..], d);
  }

  lemma {:induction false} ReachesConcat(a: Job, first: seq<Step>, b: Job, second: seq<Step>, c: Job)
    requires Reaches(a, first, b) && Reaches(b, second, c)
    ensures Reaches(a, first + second, c)
    decreases |first|
  {
    if |first| == 0 {
      assert first + second == second;
    } else {
      ReachesConcat(Apply(a, first[0]), first[1..], b, second, c);
      assert (first + second)[1..] == first[1..] + second;
    }
  }
}
