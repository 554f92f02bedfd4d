/**
 How the engine schedules its background job: one flag guards one job, and whoever leaves work behind
 while holding the mutex sees to it that a job is scheduled. Each step is what one thread does between
 taking and giving up the mutex.
 */
module Background {
  import opened Options

  /** A job inside BackgroundCall. `manual` is the request it works on, while it does; `taken` is history:
      whether the requester has taken that request back since the job began. */
  datatype Job = Job(flushing: bool, manual: Option<nat>, taken: bool)

  datatype State = State(
    scheduled: bool,            // background_compaction_scheduled_
    queued: nat,                // jobs handed to the environment that have not begun
    running: seq<Job>,
    imm: bool,                  // a memtable waits to be flushed
    manual: Option<nat>,        // manual_compaction_, by who asked for it
    needs: bool,                // versions_->NeedsCompaction()
    shutdown: bool, error: bool,
    waiting: set<nat>)          // threads waiting for background_work_finished_signal_

  const INIT := State(false, 0, [], false, None, false, false, false, {})

  function MaybeSchedule(s: State): State {
    if s.scheduled || s.shutdown || s.error || (!s.imm && s.manual.None? && !s.needs) then s
    else s.(scheduled := true, queued := s.queued + 1)
  }

  datatype Step =
    | SwitchMemTable
    | WaitForRoom(t: nat)
    | RequestManual(t: nat)
    | WaitForManual(t: nat)
    | CancelManual(t: nat)
    | ReadSample
    | Begin
    | Flushed(j: nat)
    | Compacted(j: nat, needs: bool)
    | ManualDone(j: nat)
    | RecordError
    | Finish(j: nat)
    | Shutdown

  ghost predicate Can(s: State, step: Step) {
    match step
    case SwitchMemTable => !s.error && !s.imm
    case WaitForRoom(t) => !s.error && (s.imm || s.needs) && t !in s.waiting
    case RequestManual(t) => !s.shutdown && !s.error && s.manual.None? && t !in s.waiting
    case WaitForManual(t) => !s.shutdown && !s.error && s.manual.Some? && t !in s.waiting
    case CancelManual(t) => s.manual == Some(t) && (s.shutdown || s.error) && t !in s.waiting
    case ReadSample => true
    case Begin => s.queued > 0
    case Flushed(j) => j < |s.running|
    case Compacted(j, _) => j < |s.running|
    case ManualDone(j) => j < |s.running| && s.running[j].manual.Some?
    case RecordError => true
    case Finish(j) => j < |s.running| && s.running[j].manual.None?
    case Shutdown => true
  }

  /** What a job finds to do: nothing when the database is shutting down or in error; a memtable to flush,
      and then a manual compaction is left for the next; else a manual compaction, if there is one. */
  function NewJob(s: State): Job {
    if s.shutdown || s.error then Job(false, None, false)
    else if s.imm then Job(true, None, false)
    else Job(false, s.manual, false)
  }

  /** The jobs that work on t's request learn nothing of its being taken back. */
  function TakenFrom(running: seq<Job>, t: nat): seq<Job> {
    seq(|running|, j requires 0 <= j < |running| =>
      if running[j].manual == Some(t) then running[j].(taken := true) else running[j])
  }

  ghost function Do(s: State, step: Step): State
    requires Can(s, step)
  {
    match step
    case SwitchMemTable => MaybeSchedule(s.(imm := true))
    case WaitForRoom(t) => s.(waiting := s.waiting + {t})
    case RequestManual(t) =>
      // the requester goes on to wait before it gives up the mutex
      MaybeSchedule(s.(manual := Some(t))).(waiting := s.waiting + {t})
    case WaitForManual(t) => s.(waiting := s.waiting + {t})
    case CancelManual(t) => s.(manual := None, running := TakenFrom(s.running, t))
    case ReadSample => MaybeSchedule(s.(needs := true))
    case Begin => s.(queued := s.queued - 1, running := s.running + [NewJob(s)])
    case Flushed(j) =>
      // a flush in the middle of a compaction wakes those who wait for room; one that is the whole job does not yet
      s.(imm := false, waiting := if s.running[j].flushing then s.waiting else {})
    case Compacted(_, needs) => s.(needs := needs)
    case ManualDone(j) => s.(manual := None, running := s.running[j := Job(false, None, false)])
    case RecordError => if s.error then s else s.(error := true, waiting := {})
    case Finish(j) =>
      MaybeSchedule(s.(running := s.running[..j] + s.running[j + 1..], scheduled := false)).(waiting := {})
    case Shutdown => s.(shutdown := true)
  }

  ghost predicate HasWork(s: State) { s.imm || s.manual.Some? || s.needs }

  /** A job and the request it works on: there, and the same, until it is taken back. */
  ghost predicate JobInv(s: State, j: nat)
    requires j < |s.running|
  {
    s.running[j].manual.Some? ==>
      if s.running[j].taken then s.manual.None? && (s.shutdown || s.error) else s.manual == s.running[j].manual
  }

  ghost predicate Inv(s: State) {
    && s.queued + |s.running| == (if s.scheduled then 1 else 0)
    && (HasWork(s) && !s.shutdown && !s.error ==> s.scheduled)
    && (s.waiting != {} ==> !s.error && (s.scheduled || s.shutdown))
    && (forall j :: 0 <= j < |s.running| ==> JobInv(s, j))
  }

  lemma MaybeScheduleKeeps(s: State)
    requires s.queued + |s.running| == (if s.scheduled then 1 else 0)
    requires s.waiting != {} ==> !s.error && (s.scheduled || s.shutdown || HasWork(s))
    requires forall j :: 0 <= j < |s.running| ==> JobInv(s, j)
    ensures Inv(MaybeSchedule(s))
  {
    forall j | 0 <= j < |s.running| ensures JobInv(MaybeSchedule(s), j) { assert JobInv(s, j); }
  }

  /** Steps that leave work behind. */
  lemma ScheduleKeeps(s: State, step: Step)
    requires Inv(s) && Can(s, step) && (step.SwitchMemTable? || step.RequestManual? || step.ReadSample?)
    ensures Inv(Do(s, step))
  {
    var s' := if step.SwitchMemTable? then s.(imm := true)
              else if step.RequestManual? then s.(manual := Some(step.t), waiting := s.waiting + {step.t})
              else s.(needs := true);
    forall j | 0 <= j < |s.running| ensures JobInv(s', j) { assert JobInv(s, j); }
    MaybeScheduleKeeps(s');
  }

  /** Steps of the job. */
  lemma JobKeeps(s: State, step: Step)
    requires Inv(s) && Can(s, step)
    requires step.Begin? || step.Flushed? || step.Compacted? || step.ManualDone?
    ensures Inv(Do(s, step))
  {
    var s' := Do(s, step);
    forall j | 0 <= j < |s'.running| ensures JobInv(s', j) {
      if j < |s.running| { assert JobInv(s, j); }
    }
  }

  lemma FinishKeeps(s: State, step: Step)
    requires Inv(s) && Can(s, step) && step.Finish?
    ensures Inv(Do(s, step))
  {
    var s' := s.(running := [], scheduled := false, waiting := {});
    assert s.running[..step.j] + s.running[step.j + 1..] == [];
    MaybeScheduleKeeps(s');
  }

  /** Steps that touch neither work nor job. */
  lemma RestKeeps(s: State, step: Step)
    requires Inv(s) && Can(s, step)
    requires step.WaitForRoom? || step.WaitForManual? || step.CancelManual? || step.RecordError? || step.Shutdown?
    ensures Inv(Do(s, step))
  {
    var s' := Do(s, step);
    forall j | 0 <= j < |s'.running| ensures JobInv(s', j) { assert JobInv(s, j); }
  }

  lemma StepKeeps(s: State, step: Step)
    requires Inv(s) && Can(s, step)
    ensures Inv(Do(s, step))
  {
    if step.SwitchMemTable? || step.RequestManual? || step.ReadSample? { ScheduleKeeps(s, step); }
    else if step.Begin? || step.Flushed? || step.Compacted? || step.ManualDone? { JobKeeps(s, step); }
    else if step.Finish? { FinishKeeps(s, step); }
    else { RestKeeps(s, step); }
  }

  ghost predicate IsRun(s: State, run: seq<Step>)
    decreases |run|
  {
    run == [] || (Can(s, run[0]) && IsRun(Do(s, run[0]), run[1..]))
  }

  ghost function After(s: State, run: seq<Step>): State
    requires IsRun(s, run)
    decreases |run|
  {
    if run == [] then s else After(Do(s, run[0]), run[1..])
  }

  lemma {:induction false} RunKeeps(s: State, run: seq<Step>)
    requires Inv(s) && IsRun(s, run)
    ensures Inv(After(s, run))
    decreases |run|
  {
    if run != [] {
      StepKeeps(s, run[0]);
      RunKeeps(Do(s, run[0]), run[1..]);
    }
  }

  /** Whenever the mutex is free: at most one job is queued or running, and it is the one that the flag
      stands for. */
  lemma AtMostOneJob(run: seq<Step>)
    requires IsRun(INIT, run)
    ensures var s := After(INIT, run);
            s.queued + |s.running| <= 1 && (s.scheduled <==> s.queued + |s.running| == 1)
  {
    RunKeeps(INIT, run);
  }

  /** Work without error or shutdown is never left without a job. */
  lemma WorkIsScheduled(run: seq<Step>)
    requires IsRun(INIT, run)
    ensures var s := After(INIT, run);
            (s.imm || s.manual.Some? || s.needs) && !s.shutdown && !s.error ==> s.scheduled
  {
    RunKeeps(INIT, run);
  }

  /** What is left for a job to do: to be done with its manual request, if it has one, and to finish. */
  ghost function LastSteps(job: Job): seq<Step> {
    if job.manual.Some? then [ManualDone(0)] + [Finish(0)] else [Finish(0)]
  }

  ghost function JobSteps(s: State): seq<Step>
    requires s.queued > 0 || s.running != []
  {
    if s.running == [] then [Begin] + LastSteps(NewJob(s)) else LastSteps(s.running[0])
  }

  lemma JobEnds(s: State)
    requires |s.running| == 1
    ensures IsRun(s, LastSteps(s.running[0])) && After(s, LastSteps(s.running[0])).waiting == {}
  {
    var job := s.running[0];
    if job.manual.Some? {
      var s' := Do(s, ManualDone(0));
      RunStep(s', Finish(0), []);
      RunStep(s, ManualDone(0), [Finish(0)]);
    } else {
      RunStep(s, Finish(0), []);
    }
  }

  /** Whoever waits is woken by the next steps of the job, of which there are at most three, and which it can
      take. Only at shutdown may a waiter be without a job. */
  lemma WaitersAreWoken(run: seq<Step>, t: nat)
    requires IsRun(INIT, run)
    requires var s := After(INIT, run); t in s.waiting && (s.scheduled || !s.shutdown)
    ensures var s := After(INIT, run);
            && (s.queued > 0 || s.running != []) && |JobSteps(s)| <= 3
            && IsRun(s, JobSteps(s)) && t !in After(s, JobSteps(s)).waiting
  {
    RunKeeps(INIT, run);
    var s := After(INIT, run);
    if s.running == [] {
      JobEnds(Do(s, Begin));
      RunStep(s, Begin, LastSteps(NewJob(s)));
    } else {
      JobEnds(s);
    }
  }

  /** t has taken its request back since the job in progress began. */
  ghost predicate TakenBackIn(run: seq<Step>, t: nat) {
    run != [] && run[|run| - 1] != Begin && (run[|run| - 1] == CancelManual(t) || TakenBackIn(run[..|run| - 1], t))
  }

  /** Only the requester's step sets `taken`, in the job that works on the request; a new job has it clear. */
  lemma TakenByTheRequester(s: State, step: Step)
    requires Inv(s) && Can(s, step) && |Do(s, step).running| == 1 && Do(s, step).running[0].manual.Some?
    ensures var job := Do(s, step).running[0];
            if step == Begin then !job.taken
            else |s.running| == 1 && s.running[0].manual == job.manual
                 && (job.taken <==> s.running[0].taken || step == CancelManual(job.manual.value))
  {
    if step.Begin? {
    } else if step.Finish? {
    } else {
      assert |s.running| == 1;
    }
  }

  lemma {:induction false} RunLast(s: State, run: seq<Step>)
    requires run != [] && IsRun(s, run)
    ensures var n := |run| - 1;
            && IsRun(s, run[..n]) && Can(After(s, run[..n]), run[n])
            && After(s, run) == Do(After(s, run[..n]), run[n])
    decreases |run|
  {
    var n := |run| - 1;
    if n == 0 {
      assert run[1..] == [] && run[..0] == [];
    } else {
      RunLast(Do(s, run[0]), run[1..]);
      assert run[1..][..n - 1] == run[..n][1..];
    }
  }

  lemma {:induction false} TakenIsHistory(run: seq<Step>)
    requires IsRun(INIT, run)
    requires var s := After(INIT, run); |s.running| == 1 && s.running[0].manual.Some?
    ensures var job := After(INIT, run).running[0]; job.taken <==> TakenBackIn(run, job.manual.value)
    decreases |run|
  {
    var n := |run| - 1;
    RunLast(INIT, run);
    RunKeeps(INIT, run[..n]);
    TakenByTheRequester(After(INIT, run[..n]), run[n]);
    if run[n] != Begin { TakenIsHistory(run[..n]); }
  }

  /** While a job works on t's request, the request it will look at in the end is that one, unless t has taken
      it back since the job began, and then there is none; which t can have done only after a shutdown or
      an error. */
  lemma ManualIsThere(run: seq<Step>, t: nat)
    requires IsRun(INIT, run)
    requires var s := After(INIT, run); |s.running| == 1 && s.running[0].manual == Some(t)
    ensures var s := After(INIT, run);
            && (s.manual == Some(t) <==> !TakenBackIn(run, t))
            && (TakenBackIn(run, t) ==> s.manual.None? && (s.shutdown || s.error))
  {
    RunKeeps(INIT, run);
    TakenIsHistory(run);
    assert JobInv(After(INIT, run), 0);
  }

  ghost predicate LooksAtNothing(s: State) {
    |s.running| == 1 && s.running[0].manual.Some? && s.manual.None?
  }

  /** A job that has just begun on thread 0's request. */
  const BEGUN := State(true, 0, [Job(false, Some(0), false)], false, Some(0), false, false, false, {0})

  lemma JobBegins(rest: seq<Step>)
    requires IsRun(BEGUN, rest)
    ensures IsRun(INIT, [RequestManual(0)] + ([Begin] + rest))
    ensures After(INIT, [RequestManual(0)] + ([Begin] + rest)) == After(BEGUN, rest)
  {
    var s := State(true, 1, [], false, Some(0), false, false, false, {0});
    assert Do(INIT, RequestManual(0)) == s && Do(s, Begin) == BEGUN;
    RunStep(s, Begin, rest);
    RunStep(INIT, RequestManual(0), [Begin] + rest);
  }

  lemma TakenBack(s: State)
    requires |s.running| == 1 && s.running[0].manual == Some(0) && Can(s, CancelManual(0))
    ensures IsRun(s, [CancelManual(0)]) && LooksAtNothing(After(s, [CancelManual(0)]))
  {
    RunStep(s, CancelManual(0), []);
    assert [CancelManual(0)] + [] == [CancelManual(0)];
  }

  /** It happens: a writer records an error while the job compacts, the requester wakes and takes the request
      back, and the job then looks at a request that is gone. */
  lemma ManualCanBeGone() returns (run: seq<Step>)
    ensures run == [RequestManual(0)] + ([Begin] + ([RecordError] + [CancelManual(0)]))
    ensures IsRun(INIT, run) && LooksAtNothing(After(INIT, run))
  {
    run := [RequestManual(0)] + ([Begin] + ([RecordError] + [CancelManual(0)]));
    TakenBack(Do(BEGUN, RecordError));
    RunStep(BEGUN, RecordError, [CancelManual(0)]);
    JobBegins([RecordError] + [CancelManual(0)]);
  }

  /** And at shutdown: the job flushes a memtable in the middle of its compaction, which wakes the requester. */
  lemma ManualCanBeGoneAtShutdown() returns (run: seq<Step>)
    ensures run ==
            [RequestManual(0)] + ([Begin] + ([SwitchMemTable] + ([Shutdown] + ([Flushed(0)] + [CancelManual(0)]))))
    ensures IsRun(INIT, run) && LooksAtNothing(After(INIT, run))
  {
    var switched, stopped := BEGUN.(imm := true), BEGUN.(imm := true, shutdown := true);
    assert Do(BEGUN, SwitchMemTable) == switched && Do(switched, Shutdown) == stopped;
    FlushedAtShutdown(stopped);
    RunStep(switched, Shutdown, [Flushed(0)] + [CancelManual(0)]);
    RunStep(BEGUN, SwitchMemTable, [Shutdown] + ([Flushed(0)] + [CancelManual(0)]));
    JobBegins([SwitchMemTable] + ([Shutdown] + ([Flushed(0)] + [CancelManual(0)])));
    run := [RequestManual(0)] + ([Begin] + ([SwitchMemTable] + ([Shutdown] + ([Flushed(0)] + [CancelManual(0)]))));
  }

  lemma FlushedAtShutdown(s: State)
    requires s == BEGUN.(imm := true, shutdown := true)
    ensures IsRun(s, [Flushed(0)] + [CancelManual(0)]) && LooksAtNothing(After(s, [Flushed(0)] + [CancelManual(0)]))
  {
    TakenBack(Do(s, Flushed(0)));
    RunStep(s, Flushed(0), [CancelManual(0)]);
  }

  lemma RunStep(s: State, step: Step, rest: seq<Step>)
    requires Can(s, step) && IsRun(Do(s, step), rest)
    ensures IsRun(s, [step] + rest) && After(s, [step] + rest) == After(Do(s, step), rest)
  {
    assert ([step] + rest)[1..] == rest;
  }

  // ----- work gets done -----

  /** How much there is to do. */
  function Work(s: State): nat {
    (if s.imm then 1 else 0) + (if s.manual.Some? then 1 else 0) + (if s.needs then 1 else 0)
  }

  /** Without error or shutdown, one job is running or queued exactly as long as there is work. */
  ghost predicate AtWork(s: State) {
    Inv(s) && !s.shutdown && !s.error && s.scheduled && s.running == []
  }

  /** One job, from its begin to its end. */
  ghost function JobFor(s: State): seq<Step> {
    if s.imm then [Begin] + ([Flushed(0)] + ([Finish(0)] + []))
    else if s.manual.Some? then [Begin] + ([ManualDone(0)] + ([Finish(0)] + []))
    else [Begin] + ([Compacted(0, false)] + ([Finish(0)] + []))
  }

  lemma JobDoesItsWork(s: State)
    requires AtWork(s)
    ensures IsRun(s, JobFor(s))
    ensures var s' := After(s, JobFor(s));
            && Inv(s') && !s'.shutdown && !s'.error && s'.running == [] && (s'.scheduled <==> Work(s') > 0)
            && Work(s') == if Work(s) == 0 then 0 else Work(s) - 1
  {
    var s1 := Do(s, Begin);
    var mid := if s.imm then Flushed(0) else if s.manual.Some? then ManualDone(0) else Compacted(0, false);
    var s2 := Do(s1, mid);
    var s3 := Do(s2, Finish(0));
    StepKeeps(s, Begin);
    StepKeeps(s1, mid);
    StepKeeps(s2, Finish(0));
    RunStep(s2, Finish(0), []);
    RunStep(s1, mid, [Finish(0)] + []);
    RunStep(s, Begin, [mid] + ([Finish(0)] + []));
  }

  lemma {:induction false} RunsJoin(s: State, a: seq<Step>, b: seq<Step>)
    requires IsRun(s, a) && IsRun(After(s, a), b)
    ensures IsRun(s, a + b) && After(s, a + b) == After(After(s, a), b)
    decreases |a|
  {
    if a == [] {
      assert a + b == b;
    } else {
      assert (a + b)[1..] == a[1..] + b;
      RunsJoin(Do(s, a[0]), a[1..], b);
    }
  }

  /** Without error, shutdown or new work, the jobs that follow one another do all the work there is, and then no job is
      left. */
  lemma {:induction false} WorkGetsDone(s: State) returns (run: seq<Step>)
    requires AtWork(s)
    ensures IsRun(s, run) && !HasWork(After(s, run)) && !After(s, run).scheduled
    decreases Work(s)
  {
    JobDoesItsWork(s);
    var s' := After(s, JobFor(s));
    if Work(s') == 0 {
      run := JobFor(s);
    } else {
      var rest := WorkGetsDone(s');
      RunsJoin(s, JobFor(s), rest);
      run := JobFor(s) + rest;
    }
  }
}
