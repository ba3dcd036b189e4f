/** A one-off runner that can start nothing again: it exits before anything else, or one of its jobs
    will never count as finished. Whatever such a runner has forgotten, it starts nothing twice. */
module BarredRunners {
  import opened TaskStatus
  import opened RunnerProtocol
  import opened AtMostOnce

  /** All jobs are finished and none is queued, so the runner ends before its next poll. With a job
      in the queue a tick can still start it first. */
  predicate ExitsFirst(oneOff: bool, p: Pool) {
    MustExit(oneOff, p) && p.queue == []
  }

  /** The job has ended, an answer has put an unfinished status over its own, and the server has
      released its task, so that no answer will mention it again. */
  predicate StuckJob(tasks: map<TaskId, Task>, p: Pool, id: TaskId) {
    && id in p.running && p.running[id].ended && !IsFinished(p.running[id].status)
    && id in tasks && tasks[id].place == Released
  }

  ghost predicate Stuck(oneOff: bool, tasks: map<TaskId, Task>, p: Pool) {
    oneOff && exists id :: StuckJob(tasks, p, id)
  }

  // ---------------------------------------------------------------- the invariant

  ghost predicate Done(w: Runner) {
    w.exited ||
    (w.phase.Sent? && ExitsFirst(true, w.pool) && forall id :: id in w.pool.running ==> w.pool.running[id].ended)
  }

  ghost predicate StuckAt(tasks: map<TaskId, Task>, w: Runner, job: TaskId) {
    && StuckJob(tasks, w.pool, job)
    && (w.phase.Receiving? ==> forall k :: 0 <= k < |w.phase.response.currentJobs| ==>
          w.phase.response.currentJobs[k].id != job)
  }

  /** Runner `r` has ended or is about to, or is stuck with `job`. */
  ghost predicate Barred(oneOff: bool, tasks: map<TaskId, Task>, w: Runner, job: TaskId) {
    oneOff && (Done(w) || StuckAt(tasks, w, job))
  }

  /** The full invariant for all runners but `r`. */
  ghost predicate OthersInv(s: System, r: RunnerId) {
    Base(s) && r in s.runners && forall q :: q in s.runners && q != r ==> RunnerInv(s.server.tasks, q, s.runners[q])
  }

  lemma DoneStep(tasks: map<TaskId, Task>, s: System, e: Event)
    requires Enabled(s, e) && !IsServerEvent(e) && !e.Join? && !e.DeliverPut? && !e.LosePut?
    requires s.oneOff && Done(s.runners[e.r]) && RunnerBase(tasks, e.r, s.runners[e.r])
    ensures Done(RunnerStep(s.oneOff, s.runners[e.r], e))
    ensures RunnerBase(tasks, e.r, RunnerStep(s.oneOff, s.runners[e.r], e))
  {
    var w := s.runners[e.r];
    var w' := RunnerStep(s.oneOff, w, e);
    match e
    case JobLog(r, id, record) =>
      assert id in w.pool.running ==> w'.pool.running.Keys == w.pool.running.Keys;
      assert id in w.pool.running ==> |w'.pool.running| == |w'.pool.running.Keys| == |w.pool.running.Keys|;
    case _ =>
  }

  lemma {:induction false} OthersNotOverwritten(running: map<TaskId, Job>, current: seq<JobState>, id: TaskId)
    requires forall k :: 0 <= k < |current| ==> current[k].id != id
    requires id in running
    ensures id in Overwrite(running, current) && Overwrite(running, current)[id] == running[id]
  {
    if current != [] {
      OthersNotOverwritten(running, current[..|current| - 1], id);
    }
  }

  lemma StuckReceive(tasks: map<TaskId, Task>, r: RunnerId, w: Runner, job: TaskId)
    requires StuckAt(tasks, w, job) && RunnerBase(tasks, r, w) && w.phase.Receiving?
    ensures var w' := RunnerStep(true, w, Receive(r)); RunnerBase(tasks, r, w') && StuckAt(tasks, w', job)
  {
    OverwriteKeeps(w.pool.running, w.phase.response.currentJobs);
    OthersNotOverwritten(w.pool.running, w.phase.response.currentJobs, job);
    var running := Overwrite(w.pool.running, w.phase.response.currentJobs);
    assert |running| > 0;
  }

  lemma StuckStep(s: System, e: Event, job: TaskId)
    requires Enabled(s, e) && !IsServerEvent(e) && !e.Join? && !e.DeliverPut? && !e.LosePut?
    requires s.oneOff && StuckAt(s.server.tasks, s.runners[e.r], job)
    requires RunnerBase(s.server.tasks, e.r, s.runners[e.r])
    ensures StuckAt(s.server.tasks, RunnerStep(s.oneOff, s.runners[e.r], e), job)
    ensures RunnerBase(s.server.tasks, e.r, RunnerStep(s.oneOff, s.runners[e.r], e))
  {
    var tasks, w := s.server.tasks, s.runners[e.r];
    match e
    case Tick(r) => TickKeepsBase(tasks, r, w, true);
    case StartPut(r, body) => ReportKeepsBase(tasks, r, w, body);
    case Receive(r) => StuckReceive(tasks, r, w, job);
    case _ =>
  }

  lemma BarredStep(s: System, e: Event, job: TaskId)
    requires Enabled(s, e) && !IsServerEvent(e) && !e.Join? && !e.DeliverPut? && !e.LosePut?
    requires Barred(s.oneOff, s.server.tasks, s.runners[e.r], job)
    requires RunnerBase(s.server.tasks, e.r, s.runners[e.r])
    ensures Barred(s.oneOff, s.server.tasks, RunnerStep(s.oneOff, s.runners[e.r], e), job)
    ensures Done(s.runners[e.r]) ==> Done(RunnerStep(s.oneOff, s.runners[e.r], e))
    ensures RunnerBase(s.server.tasks, e.r, RunnerStep(s.oneOff, s.runners[e.r], e))
  {
    if Done(s.runners[e.r]) {
      DoneStep(s.server.tasks, s, e);
    } else {
      StuckStep(s, e, job);
    }
  }

  lemma BarredAdvances(oneOff: bool, before: map<TaskId, Task>, after: map<TaskId, Task>, r: RunnerId, w: Runner,
                       job: TaskId)
    requires Barred(oneOff, before, w, job) && Advances(before, after) && RunnerBase(before, r, w) && r != UNASSIGNED
    ensures Barred(oneOff, after, w, job)
  {
    if StuckAt(before, w, job) {
      assert job in w.starts && Given(before, r, job);
    }
  }

  lemma OthersAdvance(s: System, sv: Server, r: RunnerId)
    requires OthersInv(s, r) && Advances(s.server.tasks, sv.tasks) && ServerInv(sv.tasks)
    ensures OthersInv(s.(server := sv), r)
  {
    forall q | q in s.runners ensures RunnerBase(sv.tasks, q, s.runners[q]) {
      BaseAdvances(s.server.tasks, sv.tasks, q, s.runners[q]);
    }
    forall q | q in s.runners && q != r ensures RunnerInv(sv.tasks, q, s.runners[q]) {
      RunnerInvAdvances(s.server.tasks, sv.tasks, q, s.runners[q]);
    }
  }

  lemma OthersReplace(s: System, r: RunnerId, q: RunnerId, w: Runner)
    requires OthersInv(s, r) && q != UNASSIGNED && RunnerBase(s.server.tasks, q, w)
    requires q != r ==> RunnerInv(s.server.tasks, q, w)
    ensures OthersInv(s.(runners := s.runners[q := w]), r)
  {
  }

  /** A delivery moves the server on and leaves its runner with the answer to come. */
  lemma DeliverKeepsOthersInv(s: System, r: RunnerId, q: RunnerId)
    requires OthersInv(s, r) && Enabled(s, DeliverPut(q))
    ensures OthersInv(Step(s, DeliverPut(q)), r)
    ensures Advances(s.server.tasks, Step(s, DeliverPut(q)).server.tasks)
  {
    var w, sv := s.runners[q], ApplyBody(s.server, q, s.runners[q].phase.body);
    assert RunnerBase(s.server.tasks, q, w);
    DeliverKeepsBase(s.server, q, w);
    if q != r {
      DeliverKeeps(s.server, q, w);
    }
    OthersAdvance(s, sv, r);
    OthersReplace(s.(server := sv), r, q, w.(phase := Sent));
  }

  lemma RunnerKeepsBarred(s: System, r: RunnerId, job: TaskId, e: Event)
    requires OthersInv(s, r) && Barred(s.oneOff, s.server.tasks, s.runners[r], job)
    requires Enabled(s, e) && !IsServerEvent(e) && !e.Join? && !e.DeliverPut? && !e.LosePut?
    ensures OthersInv(Step(s, e), r)
    ensures Barred(s.oneOff, s.server.tasks, Step(s, e).runners[r], job)
    ensures Done(s.runners[r]) ==> Done(Step(s, e).runners[r])
  {
    assert RunnerBase(s.server.tasks, e.r, s.runners[e.r]);
    if e.r == r {
      BarredStep(s, e, job);
    } else {
      RunnerStepKeeps(s, e);
    }
    OthersReplace(s, r, e.r, RunnerStep(s.oneOff, s.runners[e.r], e));
  }

  lemma StepKeepsBarred(s: System, r: RunnerId, job: TaskId, e: Event)
    requires OthersInv(s, r) && Barred(s.oneOff, s.server.tasks, s.runners[r], job)
    requires Enabled(s, e) && !e.LosePut?
    ensures OthersInv(Step(s, e), r)
    ensures Barred(s.oneOff, Step(s, e).server.tasks, Step(s, e).runners[r], job)
    ensures Done(s.runners[r]) ==> Done(Step(s, e).runners[r])
  {
    var tasks := s.server.tasks;
    assert RunnerBase(tasks, r, s.runners[r]);
    if IsServerEvent(e) {
      ServerStepAdvances(s, e);
      OthersAdvance(s, ServerStep(s.server, e), r);
      BarredAdvances(s.oneOff, tasks, ServerStep(s.server, e).tasks, r, s.runners[r], job);
    } else if e.Join? {
      OthersReplace(s, r, e.r, FRESH_RUNNER);
    } else if e.DeliverPut? {
      DeliverKeepsOthersInv(s, r, e.r);
      BarredAdvances(s.oneOff, tasks, Step(s, e).server.tasks, r, s.runners[r], job);
    } else {
      RunnerKeepsBarred(s, r, job, e);
    }
  }

  lemma {:induction false} RunKeepsBarred(s: System, r: RunnerId, job: TaskId, es: seq<Event>)
    requires OthersInv(s, r) && Barred(s.oneOff, s.server.tasks, s.runners[r], job)
    requires IsRun(s, es) && NoLoss(es)
    ensures OthersInv(Exec(s, es), r)
    ensures Barred(s.oneOff, Exec(s, es).server.tasks, Exec(s, es).runners[r], job)
    decreases |es|
  {
    if es != [] {
      StepKeepsBarred(s, r, job, es[0]);
      RunKeepsBarred(Step(s, es[0]), r, job, es[1..]);
    }
  }

  /** The jobs that the runner has started and those it has queued, in order. */
  function JobsOf(w: Runner): seq<TaskId> {
    w.starts + seq(|w.pool.queue|, i requires 0 <= i < |w.pool.queue| => w.pool.queue[i].id)
  }

  lemma TickTakesNothing(tasks: map<TaskId, Task>, r: RunnerId, w: Runner)
    requires RunnerBase(tasks, r, w)
    ensures JobsOf(RunnerStep(true, w, Tick(r))) == JobsOf(w)
  {
  }

  lemma SameJobs(w: Runner, w': Runner)
    requires w'.starts == w.starts && w'.pool.queue == w.pool.queue
    ensures JobsOf(w') == JobsOf(w)
  {
  }

  lemma BarredStepTakesNothing(s: System, e: Event, job: TaskId)
    requires Enabled(s, e) && !IsServerEvent(e) && !e.Join?
    requires Barred(s.oneOff, s.server.tasks, s.runners[e.r], job)
    requires RunnerBase(s.server.tasks, e.r, s.runners[e.r])
    ensures JobsOf(RunnerStep(s.oneOff, s.runners[e.r], e)) == JobsOf(s.runners[e.r])
  {
    var w := s.runners[e.r];
    if e.Tick? {
      TickTakesNothing(s.server.tasks, e.r, w);
    } else {
      if e.Receive? {
        OverwriteKeeps(w.pool.running, w.phase.response.currentJobs);
        assert job in Overwrite(w.pool.running, w.phase.response.currentJobs);
      }
      SameJobs(w, RunnerStep(s.oneOff, w, e));
    }
  }

  /** A barred runner takes no job any more: it only starts what it has queued. */
  lemma {:induction false} BarredTakesNothing(s: System, r: RunnerId, job: TaskId, es: seq<Event>)
    requires OthersInv(s, r) && Barred(s.oneOff, s.server.tasks, s.runners[r], job)
    requires IsRun(s, es) && NoLoss(es)
    ensures r in Exec(s, es).runners && JobsOf(Exec(s, es).runners[r]) == JobsOf(s.runners[r])
    decreases |es|
  {
    if es != [] {
      assert RunnerBase(s.server.tasks, r, s.runners[r]);
      if !IsServerEvent(es[0]) && !es[0].Join? && es[0].r == r {
        BarredStepTakesNothing(s, es[0], job);
      }
      StepKeepsBarred(s, r, job, es[0]);
      BarredTakesNothing(Step(s, es[0]), r, job, es[1..]);
    }
  }

  /** After any loss a barred runner starts no job a second time, and neither does any other. */
  lemma BarredStartsOnce(s: System, r: RunnerId, job: TaskId, es: seq<Event>)
    requires OthersInv(s, r) && Barred(s.oneOff, s.server.tasks, s.runners[r], job)
    requires IsRun(s, es) && NoLoss(es)
    ensures StartedAtMostOnce(Exec(s, es))
  {
    RunKeepsBarred(s, r, job, es);
    BaseStartsOnce(Exec(s, es));
  }

  /** The lost PUT leaves a runner that exits first, or is stuck, barred. */
  lemma LossBars(s: System, r: RunnerId) returns (job: TaskId)
    requires Inv(s) && Enabled(s, LosePut(r))
    requires ExitsFirst(s.oneOff, s.runners[r].pool) || Stuck(s.oneOff, s.server.tasks, s.runners[r].pool)
    ensures OthersInv(Step(s, LosePut(r)), r)
    ensures Barred(s.oneOff, s.server.tasks, s.runners[r].(phase := Sent), job)
    ensures ExitsFirst(s.oneOff, s.runners[r].pool) ==> Done(s.runners[r].(phase := Sent))
  {
    InvIsBase(s);
    var w := s.runners[r];
    assert RunnerBase(s.server.tasks, r, w);
    OthersReplace(s, r, r, w.(phase := Sent));
    if ExitsFirst(s.oneOff, w.pool) {
      assert forall id :: id in w.pool.running ==> w.pool.running[id].ended;
      job := 0;
    } else {
      job :| StuckJob(s.server.tasks, w.pool, job);
    }
  }
}
