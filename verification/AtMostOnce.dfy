/** At-most-once execution: over every interleaving of the runner protocol a job is started at
    most once in the whole fleet, as long as no lost PUT makes a runner forget a job that the
    server still offers; and such a loss is exactly what a second start needs. */
module AtMostOnce {
  import opened TaskStatus
  import opened RunnerProtocol

  // ---------------------------------------------------------------- the invariant

  /** Task `id` was handed to runner `r`. */
  predicate Given(tasks: map<TaskId, Task>, r: RunnerId, id: TaskId) {
    id in tasks && tasks[id].runner == r && tasks[id].begun
  }

  /** Task `id` will not be offered as a new job again. */
  predicate Settled(tasks: map<TaskId, Task>, id: TaskId) {
    id in tasks && (tasks[id].place == Released || tasks[id].status != Starting)
  }

  ghost predicate InBody(phase: Phase, id: TaskId) {
    phase.Sending? && exists k :: 0 <= k < |phase.body| && phase.body[k].id == id
  }

  ghost predicate ServerInv(tasks: map<TaskId, Task>) {
    forall id :: id in tasks && tasks[id].runner != UNASSIGNED ==>
      tasks[id].begun && (tasks[id].place == Listed || tasks[id].place == Released)
  }

  ghost predicate Distinct(ids: seq<TaskId>) {
    forall i, j :: 0 <= i < j < |ids| ==> ids[i] != ids[j]
  }

  /** The queued jobs are distinct, given to the runner, never started, and have no status. */
  ghost predicate QueueInv(tasks: map<TaskId, Task>, r: RunnerId, starts: seq<TaskId>, queue: seq<QueuedJob>) {
    && (forall i, j :: 0 <= i < j < |queue| ==> queue[i].id != queue[j].id)
    && (forall i :: 0 <= i < |queue| ==>
         Given(tasks, r, queue[i].id) && queue[i].id !in starts && queue[i].status == BLANK)
  }

  ghost predicate RunningInv(w: Runner) {
    forall id :: id in w.pool.running ==> id in w.starts && w.pool.running[id].status != Starting
  }

  /** A job that was started and is no longer running is settled at the server, or the PUT
      that will settle it is on its way. */
  ghost predicate ForgottenInv(tasks: map<TaskId, Task>, w: Runner) {
    forall id :: id in w.starts && id !in w.pool.running ==> Settled(tasks, id) || InBody(w.phase, id)
  }

  /** The new jobs of an answer are the runner's, and started ones among them are still running. */
  ghost predicate OffersInv(tasks: map<TaskId, Task>, r: RunnerId, w: Runner) {
    w.phase.Receiving? ==> forall k :: 0 <= k < |w.phase.response.newJobs| ==>
      var id := w.phase.response.newJobs[k];
      Given(tasks, r, id) && (id in w.starts ==> id in w.pool.running)
  }

  /** A finished status that a job has between a report and the next answer is its own last one. */
  ghost predicate PhaseInv(w: Runner) {
    && (w.phase.Sending? ==> forall k :: 0 <= k < |w.phase.body| ==>
          w.phase.body[k].status != Starting && w.phase.body[k].id in w.starts)
    && (w.phase.Receiving? ==> forall k :: 0 <= k < |w.phase.response.currentJobs| ==>
          w.phase.response.currentJobs[k].status != Starting)
    && (w.phase.Sending? || w.phase.Sent? ==> forall id :: id in w.pool.running ==>
          IsFinished(w.pool.running[id].status) ==> w.pool.running[id].ended)
  }

  /** What holds of a runner whatever PUTs are lost, until it starts a job again. */
  ghost predicate RunnerBase(tasks: map<TaskId, Task>, r: RunnerId, w: Runner) {
    && Distinct(w.starts)
    && (forall id :: id in w.starts ==> Given(tasks, r, id))
    && QueueInv(tasks, r, w.starts, w.pool.queue)
    && RunningInv(w)
    && PhaseInv(w)
  }

  ghost predicate RunnerInv(tasks: map<TaskId, Task>, r: RunnerId, w: Runner) {
    RunnerBase(tasks, r, w) && ForgottenInv(tasks, w) && OffersInv(tasks, r, w)
  }

  ghost predicate Base(s: System) {
    && ServerInv(s.server.tasks)
    && UNASSIGNED !in s.runners
    && forall r :: r in s.runners ==> RunnerBase(s.server.tasks, r, s.runners[r])
  }

  ghost predicate Inv(s: System) {
    && ServerInv(s.server.tasks)
    && UNASSIGNED !in s.runners
    && forall r :: r in s.runners ==> RunnerInv(s.server.tasks, r, s.runners[r])
  }

  lemma InvIsBase(s: System)
    requires Inv(s)
    ensures Base(s)
  {
    forall r | r in s.runners ensures RunnerBase(s.server.tasks, r, s.runners[r]) {
      assert RunnerInv(s.server.tasks, r, s.runners[r]);
    }
  }

  // ---------------------------------------------------------------- server steps

  /** What no step of the server undoes: an assignment, a release, and being settled. */
  ghost predicate Advances(before: map<TaskId, Task>, after: map<TaskId, Task>) {
    forall id :: id in before && before[id].runner != UNASSIGNED ==>
      && id in after
      && after[id].runner == before[id].runner
      && (before[id].begun ==> after[id].begun)
      && (before[id].place == Released ==> after[id].place == Released)
      && (Settled(before, id) ==> Settled(after, id))
  }

  lemma BaseAdvances(before: map<TaskId, Task>, after: map<TaskId, Task>, r: RunnerId, w: Runner)
    requires RunnerBase(before, r, w) && Advances(before, after) && r != UNASSIGNED
    ensures RunnerBase(after, r, w)
  {
    assert forall id :: Given(before, r, id) ==> Given(after, r, id);
  }

  lemma RunnerInvAdvances(before: map<TaskId, Task>, after: map<TaskId, Task>, r: RunnerId, w: Runner)
    requires RunnerInv(before, r, w) && Advances(before, after) && r != UNASSIGNED
    ensures RunnerInv(after, r, w)
  {
    BaseAdvances(before, after, r, w);
    assert forall id :: Given(before, r, id) ==> Given(after, r, id);
    forall id | id in w.starts && id !in w.pool.running
      ensures Settled(after, id) || InBody(w.phase, id)
    {
      assert Given(before, r, id);
    }
  }

  lemma InvAdvances(s: System, sv: Server)
    requires Inv(s) && Advances(s.server.tasks, sv.tasks) && ServerInv(sv.tasks)
    ensures Inv(s.(server := sv))
  {
    forall r | r in s.runners ensures RunnerInv(sv.tasks, r, s.runners[r]) {
      RunnerInvAdvances(s.server.tasks, sv.tasks, r, s.runners[r]);
    }
  }

  lemma ServerStepAdvances(s: System, e: Event)
    requires ServerInv(s.server.tasks) && UNASSIGNED !in s.runners && Enabled(s, e) && IsServerEvent(e)
    ensures Advances(s.server.tasks, ServerStep(s.server, e).tasks)
    ensures ServerInv(ServerStep(s.server, e).tasks)
  {
    var before, after := s.server.tasks, ServerStep(s.server, e).tasks;
    forall id | id in before && before[id].runner != UNASSIGNED && Settled(before, id)
      ensures Settled(after, id)
    {
      assert before[id].begun;
    }
  }

  lemma {:induction false} ApplyBodySettles(sv: Server, r: RunnerId, body: seq<Progress>)
    requires ServerInv(sv.tasks) && r != UNASSIGNED
    requires forall k :: 0 <= k < |body| ==> body[k].status != Starting && Given(sv.tasks, r, body[k].id)
    ensures Advances(sv.tasks, ApplyBody(sv, r, body).tasks)
    ensures ServerInv(ApplyBody(sv, r, body).tasks)
    ensures forall k :: 0 <= k < |body| ==> Settled(ApplyBody(sv, r, body).tasks, body[k].id)
  {
    if body != [] {
      var init := body[..|body| - 1];
      ApplyBodySettles(sv, r, init);
      var mid := ApplyBody(sv, r, init);
      var last := body[|body| - 1];
      assert Given(sv.tasks, r, last.id);
      var after := ApplyBody(sv, r, body).tasks;
      assert Settled(after, last.id);
      assert Advances(mid.tasks, after);
      forall k | 0 <= k < |body| ensures Settled(after, body[k].id) {
        if k < |body| - 1 {
          assert body[k] == init[k];
          assert Given(sv.tasks, r, body[k].id);
        }
      }
    }
  }

  // ---------------------------------------------------------------- runner steps

  lemma TickKeepsBase(tasks: map<TaskId, Task>, r: RunnerId, w: Runner, oneOff: bool)
    requires RunnerBase(tasks, r, w)
    ensures RunnerBase(tasks, r, RunnerStep(oneOff, w, Tick(r)))
    ensures forall id :: id in w.pool.running ==>
              id in RunnerStep(oneOff, w, Tick(r)).pool.running &&
                  RunnerStep(oneOff, w, Tick(r)).pool.running[id] == w.pool.running[id]
  {
    var w' := RunnerStep(oneOff, w, Tick(r));
    if w.pool.queue != [] && w.pool.queue[0].status != Error {
      var id := w.pool.queue[0].id;
      assert w'.starts == w.starts + [id];
      assert Given(tasks, r, id);
      forall i | 0 <= i < |w'.pool.queue| ensures w'.pool.queue[i].id !in w'.starts {
        assert w'.pool.queue[i] == w.pool.queue[i + 1];
      }
    }
  }

  lemma TickKeeps(tasks: map<TaskId, Task>, r: RunnerId, w: Runner, oneOff: bool)
    requires RunnerInv(tasks, r, w)
    ensures RunnerInv(tasks, r, RunnerStep(oneOff, w, Tick(r)))
  {
    TickKeepsBase(tasks, r, w, oneOff);
  }

  lemma {:induction false} OverwriteKeeps(running: map<TaskId, Job>, current: seq<JobState>)
    requires forall id :: id in running ==> running[id].status != Starting
    requires forall k :: 0 <= k < |current| ==> current[k].status != Starting
    ensures Overwrite(running, current).Keys == running.Keys
    ensures forall id :: id in running ==> Overwrite(running, current)[id].status != Starting
    ensures forall id :: id in running ==> Overwrite(running, current)[id].pending == running[id].pending
  {
    if current != [] {
      OverwriteKeeps(running, current[..|current| - 1]);
    }
  }

  lemma {:induction false} EnqueueKeeps(tasks: map<TaskId, Task>, r: RunnerId, starts: seq<TaskId>,
                                        queue: seq<QueuedJob>, running: map<TaskId, Job>, ids: seq<TaskId>)
    requires QueueInv(tasks, r, starts, queue)
    requires forall k :: 0 <= k < |ids| ==> Given(tasks, r, ids[k]) && (ids[k] in starts ==> ids[k] in running)
    ensures QueueInv(tasks, r, starts, Enqueue(queue, running, ids))
  {
    if ids != [] {
      EnqueueKeeps(tasks, r, starts, queue, running, ids[..|ids| - 1]);
    }
  }

  lemma ReceiveKeeps(tasks: map<TaskId, Task>, r: RunnerId, w: Runner, oneOff: bool)
    requires RunnerInv(tasks, r, w) && w.phase.Receiving?
    ensures RunnerInv(tasks, r, RunnerStep(oneOff, w, Receive(r)))
  {
    var resp := w.phase.response;
    var running := Overwrite(w.pool.running, resp.currentJobs);
    OverwriteKeeps(w.pool.running, resp.currentJobs);
    EnqueueKeeps(tasks, r, w.starts, w.pool.queue, running, resp.newJobs);
    var w' := RunnerStep(oneOff, w, Receive(r));
    assert w'.starts == w.starts && w'.phase == Idle && w'.pool.running == running;
    assert QueueInv(tasks, r, w.starts, w'.pool.queue);
    assert RunnerBase(tasks, r, w');
    assert ForgottenInv(tasks, w');
  }

  lemma ReportKeepsBase(tasks: map<TaskId, Task>, r: RunnerId, w: Runner, body: seq<Progress>)
    requires RunnerBase(tasks, r, w) && IsReport(body, w.pool.running)
    ensures RunnerBase(tasks, r, Report(w, body))
  {
  }

  lemma ReportKeeps(tasks: map<TaskId, Task>, r: RunnerId, w: Runner, body: seq<Progress>)
    requires RunnerInv(tasks, r, w) && w.phase.Idle? && IsReport(body, w.pool.running)
    ensures RunnerInv(tasks, r, Report(w, body))
  {
    ReportKeepsBase(tasks, r, w, body);
    var w' := Report(w, body);
    forall id | id in w'.starts && id !in w'.pool.running
      ensures Settled(tasks, id) || InBody(w'.phase, id)
    {
      if id in w.pool.running {
        assert exists i :: 0 <= i < |body| && body[i].id == id;
      }
    }
  }

  lemma DeliverKeepsBase(sv: Server, r: RunnerId, w: Runner)
    requires ServerInv(sv.tasks) && r != UNASSIGNED
    requires RunnerBase(sv.tasks, r, w) && w.phase.Sending?
    ensures Advances(sv.tasks, ApplyBody(sv, r, w.phase.body).tasks)
    ensures ServerInv(ApplyBody(sv, r, w.phase.body).tasks)
    ensures RunnerBase(ApplyBody(sv, r, w.phase.body).tasks, r, w.(phase := Sent))
  {
    ApplyBodySettles(sv, r, w.phase.body);
    BaseAdvances(sv.tasks, ApplyBody(sv, r, w.phase.body).tasks, r, w);
  }

  lemma DeliverKeeps(sv: Server, r: RunnerId, w: Runner)
    requires ServerInv(sv.tasks) && r != UNASSIGNED
    requires RunnerInv(sv.tasks, r, w) && w.phase.Sending?
    ensures RunnerInv(ApplyBody(sv, r, w.phase.body).tasks, r, w.(phase := Sent))
  {
    DeliverKeepsBase(sv, r, w);
    ApplyBodySettles(sv, r, w.phase.body);
    RunnerInvAdvances(sv.tasks, ApplyBody(sv, r, w.phase.body).tasks, r, w);
  }

  // ---------------------------------------------------------------- lost PUTs

  /** Losing this PUT makes the runner forget a job that the server still offers. */
  ghost predicate Harmful(tasks: map<TaskId, Task>, w: Runner) {
    && w.phase.Sending?
    && exists k :: 0 <= k < |w.phase.body| && w.phase.body[k].id !in w.pool.running &&
         !Settled(tasks, w.phase.body[k].id)
  }

  /** Every PUT is delivered, or lost without that harm. */
  ghost predicate HarmlessEvent(s: System, e: Event) {
    e.LosePut? && e.r in s.runners ==> !Harmful(s.server.tasks, s.runners[e.r])
  }

  ghost predicate HarmlessRun(s: System, es: seq<Event>)
    requires IsRun(s, es)
    decreases |es|
  {
    es == [] || (HarmlessEvent(s, es[0]) && HarmlessRun(Step(s, es[0]), es[1..]))
  }

  ghost predicate NoLoss(es: seq<Event>) {
    forall i :: 0 <= i < |es| ==> !es[i].LosePut?
  }

  lemma {:induction false} NoLossIsHarmless(s: System, es: seq<Event>)
    requires IsRun(s, es) && NoLoss(es)
    ensures HarmlessRun(s, es)
    decreases |es|
  {
    if es != [] {
      NoLossIsHarmless(Step(s, es[0]), es[1..]);
    }
  }

  lemma AnswerKeeps(tasks: map<TaskId, Task>, r: RunnerId, w: Runner, resp: Response)
    requires ServerInv(tasks) && r != UNASSIGNED
    requires RunnerInv(tasks, r, w) && w.phase.Sent? && IsResponse(resp, tasks, r)
    ensures RunnerInv(tasks, r, w.(phase := Receiving(resp)))
  {
    forall k | 0 <= k < |resp.newJobs|
      ensures Given(tasks, r, resp.newJobs[k])
      ensures resp.newJobs[k] in w.starts ==> resp.newJobs[k] in w.pool.running
    {
      assert Offered(tasks, r, resp.newJobs[k]);
    }
  }

  /** The runner's half of every harmless step. */
  lemma RunnerStepKeeps(s: System, e: Event)
    requires Enabled(s, e) && HarmlessEvent(s, e) && !IsServerEvent(e) && !e.Join? && !e.DeliverPut?
    requires ServerInv(s.server.tasks) && e.r != UNASSIGNED && RunnerInv(s.server.tasks, e.r, s.runners[e.r])
    ensures RunnerInv(s.server.tasks, e.r, RunnerStep(s.oneOff, s.runners[e.r], e))
  {
    var tasks, w := s.server.tasks, s.runners[e.r];
    match e
    case Tick(r) => TickKeeps(tasks, r, w, s.oneOff);
    case StartPut(r, body) => ReportKeeps(tasks, r, w, body);
    case Answer(r, resp) => AnswerKeeps(tasks, r, w, resp);
    case Receive(r) => ReceiveKeeps(tasks, r, w, s.oneOff);
    case _ =>
  }

  lemma StepKeepsInv(s: System, e: Event)
    requires Inv(s) && Enabled(s, e) && HarmlessEvent(s, e)
    ensures Inv(Step(s, e))
  {
    if IsServerEvent(e) {
      ServerStepAdvances(s, e);
      InvAdvances(s, ServerStep(s.server, e));
    } else if e.DeliverPut? {
      DeliverKeepsBase(s.server, e.r, s.runners[e.r]);
      DeliverKeeps(s.server, e.r, s.runners[e.r]);
      InvAdvances(s, ApplyBody(s.server, e.r, s.runners[e.r].phase.body));
    } else if !e.Join? {
      RunnerStepKeeps(s, e);
    }
  }

  lemma {:induction false} RunKeepsInv(s: System, es: seq<Event>)
    requires Inv(s) && IsRun(s, es) && HarmlessRun(s, es)
    ensures Inv(Exec(s, es))
    decreases |es|
  {
    if es != [] {
      StepKeepsInv(s, es[0]);
      RunKeepsInv(Step(s, es[0]), es[1..]);
    }
  }

  // ---------------------------------------------------------------- the theorems

  /** No runner starts a job twice and no two runners start the same job. */
  ghost predicate StartedAtMostOnce(s: System) {
    && (forall r :: r in s.runners ==> Distinct(s.runners[r].starts))
    && (forall r1, r2, id :: r1 in s.runners && r2 in s.runners && r1 != r2 && id in s.runners[r1].starts ==>
          id !in s.runners[r2].starts)
  }

  lemma BaseStartsOnce(s: System)
    requires Base(s)
    ensures StartedAtMostOnce(s)
  {
    forall r1, r2, id | r1 in s.runners && r2 in s.runners && r1 != r2 && id in s.runners[r1].starts
      ensures id !in s.runners[r2].starts
    {
      assert RunnerBase(s.server.tasks, r1, s.runners[r1]);
      assert RunnerBase(s.server.tasks, r2, s.runners[r2]);
      assert Given(s.server.tasks, r1, id);
    }
  }

  /** Over whole runs in which every lost PUT is harmless (in particular when none is lost). */
  lemma AtMostOnceExecution(oneOff: bool, es: seq<Event>)
    requires IsRun(Init(oneOff), es) && HarmlessRun(Init(oneOff), es)
    ensures StartedAtMostOnce(Exec(Init(oneOff), es))
  {
    RunKeepsInv(Init(oneOff), es);
    InvIsBase(Exec(Init(oneOff), es));
    BaseStartsOnce(Exec(Init(oneOff), es));
  }

  /** The queue holds distinct jobs, none of them running and none ever started. */
  lemma QueueIsDisjoint(oneOff: bool, es: seq<Event>, r: RunnerId)
    requires IsRun(Init(oneOff), es) && HarmlessRun(Init(oneOff), es)
    requires r in Exec(Init(oneOff), es).runners
    ensures var w := Exec(Init(oneOff), es).runners[r];
            && (forall i, j :: 0 <= i < j < |w.pool.queue| ==> w.pool.queue[i].id != w.pool.queue[j].id)
            && (forall i :: 0 <= i < |w.pool.queue| ==>
                 w.pool.queue[i].id !in w.starts && w.pool.queue[i].id !in w.pool.running)
  {
    RunKeepsInv(Init(oneOff), es);
    assert RunnerInv(Exec(Init(oneOff), es).server.tasks, r, Exec(Init(oneOff), es).runners[r]);
  }

  /** A job that was started and forgotten is never in the new jobs of a later answer. */
  lemma ForgottenIsNotOffered(oneOff: bool, es: seq<Event>, r: RunnerId, resp: Response, id: TaskId)
    requires IsRun(Init(oneOff), es) && HarmlessRun(Init(oneOff), es)
    requires Enabled(Exec(Init(oneOff), es), Answer(r, resp))
    requires id in Exec(Init(oneOff), es).runners[r].starts && id !in Exec(Init(oneOff), es).runners[r].pool.running
    ensures id !in resp.newJobs
  {
    var s := Exec(Init(oneOff), es);
    RunKeepsInv(Init(oneOff), es);
    assert RunnerInv(s.server.tasks, r, s.runners[r]);
    assert Settled(s.server.tasks, id) && !Offered(s.server.tasks, r, id);
  }
}
