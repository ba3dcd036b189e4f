/** The condition of at-most-once execution is exact: after a lost PUT has made a runner forget a
    job that the server still offers, some continuation without any further loss starts it again,
    unless the runner is barred. A one-off runner first clears its queue and its running jobs. */
module SecondStart {
  import opened Collections
  import opened TaskStatus
  import opened RunnerProtocol
  import opened AtMostOnce
  import opened BarredRunners
  import opened LogOrder

  // ---------------------------------------------------------------- reports and answers exist

  lemma ReportExists(running: map<TaskId, Job>) returns (body: seq<Progress>)
    ensures IsReport(body, running)
  {
    var ids := ListingExists(running.Keys);
    body := seq(|ids|, i requires 0 <= i < |ids| => Progress(ids[i], running[ids[i]].status, running[ids[i]].pending));
    forall id | id in running ensures exists i :: 0 <= i < |body| && body[i].id == id {
      var i :| 0 <= i < |ids| && ids[i] == id;
      assert body[i].id == id;
    }
  }

  lemma ResponseExists(tasks: map<TaskId, Task>, r: RunnerId) returns (resp: Response)
    ensures IsResponse(resp, tasks, r)
  {
    var mine := set id | id in tasks && tasks[id].place == Listed && tasks[id].runner == r &&
        tasks[id].status != Starting;
    var ids := ListingExists(mine);
    var current := seq(|ids|, i requires 0 <= i < |ids| => JobState(ids[i], tasks[ids[i]].status));
    var newJobs := ListingExists(set id | id in tasks && Offered(tasks, r, id));
    resp := Response(current, newJobs);
    forall id | id in tasks && tasks[id].place == Listed && tasks[id].runner == r && tasks[id].status != Starting
      ensures exists i :: 0 <= i < |resp.currentJobs| && resp.currentJobs[i].id == id
    {
      assert id in mine;
      var i :| 0 <= i < |ids| && ids[i] == id;
      assert resp.currentJobs[i].id == id;
    }
  }

  lemma {:induction false} EnqueueContains(queue: seq<QueuedJob>, running: map<TaskId, Job>, ids: seq<TaskId>,
      id: TaskId)
    requires id !in running && (id in ids || InQueue(queue, id))
    ensures InQueue(Enqueue(queue, running, ids), id)
  {
    if ids != [] {
      var init := ids[..|ids| - 1];
      var before := Enqueue(queue, running, init);
      if id in init || InQueue(queue, id) {
        EnqueueContains(queue, running, init, id);
        var i :| 0 <= i < |before| && before[i].id == id;
        assert Enqueue(queue, running, ids)[i].id == id;
      } else {
        assert id == ids[|ids| - 1];
        if !InQueue(before, id) {
          assert Enqueue(queue, running, ids)[|before|].id == id;
        }
      }
    }
  }

  lemma {:induction false} EnqueueBlank(queue: seq<QueuedJob>, running: map<TaskId, Job>, ids: seq<TaskId>)
    requires forall i :: 0 <= i < |queue| ==> queue[i].status == BLANK
    ensures forall i :: 0 <= i < |Enqueue(queue, running, ids)| ==> Enqueue(queue, running, ids)[i].status == BLANK
  {
    if ids != [] {
      EnqueueBlank(queue, running, ids[..|ids| - 1]);
    }
  }

  lemma {:induction false} OverwriteKeys(running: map<TaskId, Job>, current: seq<JobState>)
    ensures Overwrite(running, current).Keys == running.Keys
  {
    if current != [] {
      OverwriteKeys(running, current[..|current| - 1]);
    }
  }

  // ---------------------------------------------------------------- moves of one runner

  function With(s: System, r: RunnerId, w: Runner): System {
    s.(runners := s.runners[r := w])
  }

  predicate MovesRunner(e: Event) {
    !IsServerEvent(e) && !e.Join? && !e.DeliverPut?
  }

  lemma OneMove(s: System, e: Event)
    requires Enabled(s, e) && MovesRunner(e)
    ensures IsRun(s, [e]) && Exec(s, [e]) == With(s, e.r, RunnerStep(s.oneOff, s.runners[e.r], e))
  {
    RunCons(s, e, []);
    assert [e] + [] == [e];
  }

  lemma WithWith(s: System, r: RunnerId, a: Runner, b: Runner)
    ensures With(With(s, r, a), r, b) == With(s, r, b)
  {
    assert s.runners[r := a][r := b] == s.runners[r := b];
  }

  /** Two stretches in which only the runner moves. */
  lemma Compose(s: System, r: RunnerId, es: seq<Event>, a: Runner, later: seq<Event>, b: Runner)
    requires IsRun(s, es) && Exec(s, es) == With(s, r, a) && NoLoss(es)
    requires IsRun(With(s, r, a), later) && Exec(With(s, r, a), later) == With(With(s, r, a), r, b) && NoLoss(later)
    ensures IsRun(s, es + later) && Exec(s, es + later) == With(s, r, b) && NoLoss(es + later)
  {
    RunConcat(s, es, later);
    WithWith(s, r, a, b);
  }

  // ---------------------------------------------------------------- a runner that has forgotten a job

  /** Runner `r` started the job and no longer has it. */
  ghost predicate Missing(s: System, r: RunnerId, id: TaskId) {
    && Alive(s, r) && r != UNASSIGNED
    && ServerInv(s.server.tasks) && RunnerBase(s.server.tasks, r, s.runners[r])
    && id in s.runners[r].starts && id !in s.runners[r].pool.running
  }

  /** Nothing was done about the job meanwhile. */
  ghost predicate Untouched(s: System, t: System, r: RunnerId, id: TaskId)
    requires r in s.runners && r in t.runners
  {
    && t.oneOff == s.oneOff
    && s.runners[r].starts <= t.runners[r].starts && t.runners[r].logged == s.runners[r].logged
    && (id in s.server.tasks ==> id in t.server.tasks && t.server.tasks[id] == s.server.tasks[id])
    && Accepted(t.server, id, r) == Accepted(s.server, id, r)
  }

  /** The events lead from `s` to `t` while runner `r` is without the job. */
  ghost predicate Leads(s: System, es: seq<Event>, t: System, r: RunnerId, id: TaskId) {
    IsRun(s, es) && NoLoss(es) && Exec(s, es) == t && Missing(s, r, id) && Missing(t, r, id) && Untouched(s, t, r, id)
  }

  lemma Stay(s: System, r: RunnerId, id: TaskId)
    requires Missing(s, r, id)
    ensures Leads(s, [], s, r, id)
  {
  }

  lemma Then(s: System, es: seq<Event>, t: System, later: seq<Event>, u: System, r: RunnerId, id: TaskId)
    requires Leads(s, es, t, r, id) && Leads(t, later, u, r, id)
    ensures Leads(s, es + later, u, r, id)
  {
    RunConcat(s, es, later);
  }

  lemma Move(s: System, e: Event, id: TaskId)
    requires Enabled(s, e) && MovesRunner(e) && !e.LosePut? && !e.JobLog? && !e.Exit? && Missing(s, e.r, id)
    requires var w := RunnerStep(s.oneOff, s.runners[e.r], e);
             RunnerBase(s.server.tasks, e.r, w) && id !in w.pool.running
    ensures Leads(s, [e], With(s, e.r, RunnerStep(s.oneOff, s.runners[e.r], e)), e.r, id)
  {
    OneMove(s, e);
  }

  ghost predicate Unfinished(w: Runner) {
    exists job :: job in w.pool.running && !IsFinished(w.pool.running[job].status)
  }

  // ---------------------------------------------------------------- clearing a one-off runner

  lemma TickMoves(s: System, r: RunnerId, id: TaskId) returns (t: System)
    requires Missing(s, r, id) && s.runners[r].pool.queue != []
    ensures Leads(s, [Tick(r)], t, r, id) && t.server == s.server
    ensures var w, w' := s.runners[r], t.runners[r];
            && w'.phase == w.phase && w'.pool.queue == w.pool.queue[1..] && Unfinished(w')
            && (forall job :: job in w.pool.running ==>
                  job in w'.pool.running && w'.pool.running[job] == w.pool.running[job])
            && (forall job :: job in w'.pool.running && job !in w.pool.running ==> !w'.pool.running[job].ended)
  {
    var w, head := s.runners[r], s.runners[r].pool.queue[0].id;
    TickKeepsBase(s.server.tasks, r, w, s.oneOff);
    assert head != id;
    var w' := RunnerStep(s.oneOff, w, Tick(r));
    assert head in w'.pool.running && w'.pool.running[head].status == BLANK;
    Move(s, Tick(r), id);
    t := With(s, r, w');
  }

  /** Ticks start everything that is queued. */
  lemma {:induction false} DrainQueue(s: System, r: RunnerId, id: TaskId) returns (es: seq<Event>, t: System)
    requires Missing(s, r, id)
    ensures Leads(s, es, t, r, id) && t.server == s.server
    ensures var w, w' := s.runners[r], t.runners[r];
            && w'.phase == w.phase && w'.pool.queue == []
            && (w.pool.queue == [] ==> w' == w)
            && (w.pool.queue != [] ==> Unfinished(w'))
            && (forall job :: job in w.pool.running ==>
                  job in w'.pool.running && w'.pool.running[job] == w.pool.running[job])
            && (forall job :: job in w'.pool.running && job !in w.pool.running ==> !w'.pool.running[job].ended)
    decreases |s.runners[r].pool.queue|
  {
    if s.runners[r].pool.queue == [] {
      es, t := [], s;
      Stay(s, r, id);
    } else {
      var mid := TickMoves(s, r, id);
      var rest;
      rest, t := DrainQueue(mid, r, id);
      Then(s, [Tick(r)], mid, rest, t, r, id);
      es := [Tick(r)] + rest;
      var job :| job in mid.runners[r].pool.running && !IsFinished(mid.runners[r].pool.running[job].status);
      assert job in t.runners[r].pool.running;
    }
  }

  lemma StopOne(s: System, r: RunnerId, id: TaskId, job: TaskId) returns (t: System)
    requires Missing(s, r, id) && job != id && job in s.server.tasks
    ensures Leads(s, [SetStatus(job, Stopped)], t, r, id) && t.runners == s.runners
    ensures t.server.tasks == s.server.tasks[job := s.server.tasks[job].(status := Stopped)]
  {
    var e := SetStatus(job, Stopped);
    t := s.(server := ServerStep(s.server, e));
    RunCons(s, e, []);
    assert [e] + [] == [e];
    var before, after := s.server.tasks, t.server.tasks;
    assert Advances(before, after) && ServerInv(after);
    BaseAdvances(before, after, r, s.runners[r]);
    ServerStepAccepted(s.server, e, id, r);
  }

  /** Users stop jobs at the server. */
  lemma {:induction false} StopJobs(s: System, r: RunnerId, id: TaskId, todo: set<TaskId>)
      returns (es: seq<Event>, t: System)
    requires Missing(s, r, id) && id !in todo && forall job :: job in todo ==> job in s.server.tasks
    ensures Leads(s, es, t, r, id) && t.runners == s.runners
    ensures forall job :: job in todo ==>
              job in t.server.tasks && t.server.tasks[job] == s.server.tasks[job].(status := Stopped)
    ensures forall job :: job in s.server.tasks && job !in todo ==>
              job in t.server.tasks && t.server.tasks[job] == s.server.tasks[job]
    decreases |todo|
  {
    var job := Member(todo);
    if todo == {} {
      es, t := [], s;
      Stay(s, r, id);
    } else {
      var mid := StopOne(s, r, id, job);
      var rest;
      rest, t := StopJobs(mid, r, id, todo - {job});
      Then(s, [SetStatus(job, Stopped)], mid, rest, t, r, id);
      es := [SetStatus(job, Stopped)] + rest;
    }
  }

  lemma {:induction false} OverwriteTakes(running: map<TaskId, Job>, current: seq<JobState>, id: TaskId, status: Status)
    requires id in running && forall k :: 0 <= k < |current| && current[k].id == id ==> current[k].status == status
    ensures id in Overwrite(running, current)
    ensures var job := Overwrite(running, current)[id];
            job == running[id].(status := status) || (job == running[id] && forall k :: 0 <= k < |current| ==>
                current[k].id != id)
  {
    if current != [] {
      OverwriteTakes(running, current[..|current| - 1], id, status);
    }
  }

  /** What an answer makes of a running job whose task is stopped: it takes over the status unless
      the task is released. */
  ghost predicate TakesStop(tasks: map<TaskId, Task>, id: TaskId, before: Job, after: Job) {
    && after.ended == before.ended
    && (IsFinished(before.status) ==> IsFinished(after.status))
    && (id in tasks && tasks[id].place == Listed ==> after.status == Stopped)
  }

  lemma AnswerTakesStop(tasks: map<TaskId, Task>, r: RunnerId, resp: Response, running: map<TaskId, Job>, id: TaskId)
    requires IsResponse(resp, tasks, r) && id in running && id in tasks
    requires tasks[id].status == Stopped && tasks[id].runner == r
    ensures id in Overwrite(running, resp.currentJobs)
    ensures TakesStop(tasks, id, running[id], Overwrite(running, resp.currentJobs)[id])
  {
    OverwriteTakes(running, resp.currentJobs, id, Stopped);
  }

  lemma NonEmpty(running: map<TaskId, Job>, job: TaskId)
    requires job in running
    ensures |running| > 0
  {
  }

  lemma AllTakeStop(tasks: map<TaskId, Task>, r: RunnerId, w: Runner, resp: Response)
    requires RunnerBase(tasks, r, w) && IsResponse(resp, tasks, r)
    requires forall job :: job in w.pool.running ==> job in tasks && tasks[job].status == Stopped
    ensures Overwrite(w.pool.running, resp.currentJobs).Keys == w.pool.running.Keys
    ensures forall job :: job in w.pool.running ==>
              TakesStop(tasks, job, w.pool.running[job], Overwrite(w.pool.running, resp.currentJobs)[job])
  {
    OverwriteKeys(w.pool.running, resp.currentJobs);
    forall job | job in w.pool.running
      ensures TakesStop(tasks, job, w.pool.running[job], Overwrite(w.pool.running, resp.currentJobs)[job])
    {
      assert Given(tasks, r, job);
      AnswerTakesStop(tasks, r, resp, w.pool.running, job);
    }
  }

  /** A one-off runner that has jobs takes statuses and no new jobs from an answer. */
  lemma ReceiveMoves(s: System, r: RunnerId, id: TaskId) returns (t: System)
    requires Missing(s, r, id) && s.oneOff && s.runners[r].phase.Receiving? && s.runners[r].pool.running.Keys != {}
    ensures Leads(s, [Receive(r)], t, r, id) && t.server == s.server
    ensures t.runners[r].phase.Idle? && t.runners[r].pool.queue == s.runners[r].pool.queue
    ensures t.runners[r].pool.running ==
            Overwrite(s.runners[r].pool.running, s.runners[r].phase.response.currentJobs)
  {
    var w := s.runners[r];
    var w' := RunnerStep(true, w, Receive(r));
    OverwriteKeeps(w.pool.running, w.phase.response.currentJobs);
    var job := Member(w.pool.running.Keys);
    NonEmpty(Overwrite(w.pool.running, w.phase.response.currentJobs), job);
    Move(s, Receive(r), id);
    t := With(s, r, w');
  }

  lemma AnswerMoves(s: System, r: RunnerId, id: TaskId, resp: Response) returns (t: System)
    requires Missing(s, r, id) && Enabled(s, Answer(r, resp))
    ensures Leads(s, [Answer(r, resp)], t, r, id) && t.server == s.server
    ensures t.runners[r] == s.runners[r].(phase := Receiving(resp))
  {
    Move(s, Answer(r, resp), id);
    t := With(s, r, s.runners[r].(phase := Receiving(resp)));
  }

  /** The poll of a one-off runner that has jobs, all of which are stopped at the server. */
  lemma PollStops(s: System, r: RunnerId, id: TaskId) returns (es: seq<Event>, t: System)
    requires Missing(s, r, id) && s.oneOff && s.runners[r].phase.Sent? && Unfinished(s.runners[r])
    requires s.runners[r].pool.queue == []
    requires forall job :: job in s.runners[r].pool.running ==>
               job in s.server.tasks && s.server.tasks[job].status == Stopped
    ensures Leads(s, es, t, r, id) && t.server == s.server
    ensures var w, w' := s.runners[r], t.runners[r];
            && w'.phase.Idle? && w'.pool.queue == [] && w'.pool.running.Keys == w.pool.running.Keys
            && forall job :: job in w.pool.running ==>
                 TakesStop(s.server.tasks, job, w.pool.running[job], w'.pool.running[job])
  {
    var resp := ResponseExists(s.server.tasks, r);
    AllTakeStop(s.server.tasks, r, s.runners[r], resp);
    var mid := AnswerMoves(s, r, id, resp);
    t := ReceiveMoves(mid, r, id);
    es := [Answer(r, resp)] + [Receive(r)];
    Then(s, [Answer(r, resp)], mid, [Receive(r)], t, r, id);
  }

  /** The jobs that are still at work end. */
  lemma {:induction false} EndJobs(s: System, r: RunnerId, id: TaskId, todo: set<TaskId>)
      returns (es: seq<Event>, t: System)
    requires Missing(s, r, id) && s.runners[r].phase.Idle? && s.runners[r].pool.queue == []
    requires forall job :: job in s.runners[r].pool.running && !IsFinished(s.runners[r].pool.running[job].status) ==>
               job in todo && !s.runners[r].pool.running[job].ended
    ensures Leads(s, es, t, r, id) && t.server == s.server
    ensures t.runners[r].phase.Idle? && t.runners[r].pool.queue == [] && !Unfinished(t.runners[r])
    decreases |todo|
  {
    var w := s.runners[r];
    var job := Member(todo);
    if todo == {} {
      es, t := [], s;
      Stay(s, r, id);
    } else if job !in w.pool.running || IsFinished(w.pool.running[job].status) {
      es, t := EndJobs(s, r, id, todo - {job});
    } else {
      var e := JobEnd(r, job, Success);
      Move(s, e, id);
      var mid := With(s, r, RunnerStep(s.oneOff, w, e));
      var rest;
      rest, t := EndJobs(mid, r, id, todo - {job});
      Then(s, [e], mid, rest, t, r, id);
      es := [e] + rest;
    }
  }

  lemma NothingLeftRunning(running: map<TaskId, Job>)
    requires forall job :: job in running ==> IsFinished(running[job].status)
    ensures AfterReport(running).Keys == {} && |AfterReport(running)| == 0
  {
    var job := Member(AfterReport(running).Keys);
    assert |AfterReport(running)| == |AfterReport(running).Keys|;
  }

  lemma Delivered(s: System, r: RunnerId)
    requires Alive(s, r) && s.runners[r].phase.Sending?
    ensures IsRun(s, [DeliverPut(r)])
    ensures Exec(s, [DeliverPut(r)]) ==
            With(s, r, s.runners[r].(phase := Sent)).(server := ApplyBody(s.server, r, s.runners[r].phase.body))
  {
    RunCons(s, DeliverPut(r), []);
    assert [DeliverPut(r)] + [] == [DeliverPut(r)];
  }

  lemma {:induction false} OthersUntouched(sv: Server, r: RunnerId, body: seq<Progress>, id: TaskId)
    requires forall k :: 0 <= k < |body| ==> body[k].id != id
    ensures id in sv.tasks <==> id in ApplyBody(sv, r, body).tasks
    ensures id in sv.tasks ==> ApplyBody(sv, r, body).tasks[id] == sv.tasks[id]
    decreases |body|
  {
    if body != [] {
      OthersUntouched(sv, r, body[..|body| - 1], id);
    }
  }

  lemma DeliveryLeads(s: System, r: RunnerId, id: TaskId) returns (t: System)
    requires Missing(s, r, id) && s.runners[r].phase.Sending?
    requires forall k :: 0 <= k < |s.runners[r].phase.body| ==> s.runners[r].phase.body[k].id != id
    ensures Leads(s, [DeliverPut(r)], t, r, id) && t.runners[r] == s.runners[r].(phase := Sent)
  {
    var body := s.runners[r].phase.body;
    Delivered(s, r);
    t := Exec(s, [DeliverPut(r)]);
    DeliverKeepsBase(s.server, r, s.runners[r]);
    OthersUntouched(s.server, r, body, id);
    BodyAccepted(s.server, r, body, id, r);
    BodyRecordsNone(body, id);
  }

  /** All jobs are finished, so the next report clears them. */
  lemma ReportFinished(s: System, r: RunnerId, id: TaskId) returns (es: seq<Event>, t: System)
    requires Missing(s, r, id) && s.runners[r].phase.Idle? && !Unfinished(s.runners[r])
    ensures Leads(s, es, t, r, id)
    ensures var w := t.runners[r];
            w.phase.Sent? && w.pool.queue == s.runners[r].pool.queue && |w.pool.running| == 0
  {
    var w := s.runners[r];
    var body := ReportExists(w.pool.running);
    NothingLeftRunning(w.pool.running);
    ReportKeepsBase(s.server.tasks, r, w, body);
    Move(s, StartPut(r, body), id);
    var mid := With(s, r, Report(w, body));
    t := DeliveryLeads(mid, r, id);
    Then(s, [StartPut(r, body)], mid, [DeliverPut(r)], t, r, id);
    es := [StartPut(r, body)] + [DeliverPut(r)];
  }

  /** A one-off runner that has an unfinished job and is not stuck gets rid of all its jobs. */
  lemma ClearOut(s: System, r: RunnerId, id: TaskId) returns (es: seq<Event>, t: System)
    requires Missing(s, r, id) && s.oneOff && s.runners[r].phase.Sent? && s.runners[r].pool.queue == []
    requires Unfinished(s.runners[r]) && !Stuck(s.oneOff, s.server.tasks, s.runners[r].pool)
    ensures Leads(s, es, t, r, id)
    ensures var w := t.runners[r]; w.phase.Sent? && w.pool.queue == [] && |w.pool.running| == 0
  {
    var w := s.runners[r];
    forall job | job in w.pool.running ensures Given(s.server.tasks, r, job) {
    }
    var es1, s1 := StopJobs(s, r, id, w.pool.running.Keys);
    var es2, s2 := PollStops(s1, r, id);
    Then(s, es1, s1, es2, s2, r, id);
    forall job | job in s2.runners[r].pool.running && !IsFinished(s2.runners[r].pool.running[job].status)
      ensures !s2.runners[r].pool.running[job].ended
    {
      assert Given(s.server.tasks, r, job);
      assert TakesStop(s1.server.tasks, job, w.pool.running[job], s2.runners[r].pool.running[job]);
      assert !StuckJob(s.server.tasks, w.pool, job);
    }
    var es3, s3 := EndJobs(s2, r, id, w.pool.running.Keys);
    Then(s, es1 + es2, s2, es3, s3, r, id);
    var es4;
    es4, t := ReportFinished(s3, r, id);
    Then(s, es1 + es2 + es3, s3, es4, t, r, id);
    es := es1 + es2 + es3 + es4;
  }

  // ---------------------------------------------------------------- starting the job again

  /** An answer puts an offered job into the queue of a runner that takes new jobs. */
  lemma AnswerQueues(p: Pool, oneOff: bool, resp: Response, id: TaskId)
    requires id in resp.newJobs && id !in p.running
    requires forall i :: 0 <= i < |p.queue| ==> p.queue[i].status == BLANK
    requires oneOff ==> p.queue == [] && |p.running| == 0
    ensures InQueue(AfterResponse(oneOff, p, resp).queue, id)
    ensures forall i :: 0 <= i < |AfterResponse(oneOff, p, resp).queue| ==>
              AfterResponse(oneOff, p, resp).queue[i].status == BLANK
  {
    var running := Overwrite(p.running, resp.currentJobs);
    OverwriteKeys(p.running, resp.currentJobs);
    assert |running| == |running.Keys| == |p.running.Keys| == |p.running|;
    EnqueueContains(p.queue, running, resp.newJobs, id);
    EnqueueBlank(p.queue, running, resp.newJobs);
  }

  lemma AnswerStep(s: System, r: RunnerId, resp: Response)
    requires Enabled(s, Answer(r, resp))
    ensures IsRun(s, [Answer(r, resp)])
    ensures Exec(s, [Answer(r, resp)]) == With(s, r, s.runners[r].(phase := Receiving(resp)))
  {
    OneMove(s, Answer(r, resp));
  }

  lemma ReceiveStep(s: System, r: RunnerId, resp: Response)
    requires Alive(s, r) && s.runners[r].phase == Receiving(resp)
    ensures IsRun(s, [Receive(r)])
    ensures Exec(s, [Receive(r)]) ==
            With(s, r, s.runners[r].(pool := AfterResponse(s.oneOff, s.runners[r].pool, resp), phase := Idle))
  {
    OneMove(s, Receive(r));
  }

  lemma PollQueues(s: System, r: RunnerId, id: TaskId) returns (es: seq<Event>, w: Runner)
    requires Missing(s, r, id) && s.runners[r].phase.Sent? && Offered(s.server.tasks, r, id)
    requires s.oneOff ==> s.runners[r].pool.queue == [] && |s.runners[r].pool.running| == 0
    ensures IsRun(s, es) && NoLoss(es) && Exec(s, es) == With(s, r, w)
    ensures !w.exited && w.phase.Idle? && w.starts == s.runners[r].starts && w.logged == s.runners[r].logged
    ensures InQueue(w.pool.queue, id)
    ensures forall i :: 0 <= i < |w.pool.queue| ==> w.pool.queue[i].status == BLANK
  {
    var resp := ResponseExists(s.server.tasks, r);
    AnswerQueues(s.runners[r].pool, s.oneOff, resp, id);
    var mid := s.runners[r].(phase := Receiving(resp));
    w := mid.(pool := AfterResponse(s.oneOff, mid.pool, resp), phase := Idle);
    AnswerStep(s, r, resp);
    ReceiveStep(With(s, r, mid), r, resp);
    Compose(s, r, [Answer(r, resp)], mid, [Receive(r)], w);
    es := [Answer(r, resp)] + [Receive(r)];
  }

  /** `n + 1` ticks start the first `n + 1` queued jobs. */
  lemma {:induction false} TicksStart(s: System, r: RunnerId, n: nat) returns (es: seq<Event>, w: Runner)
    requires Alive(s, r) && s.runners[r].phase.Idle? && n < |s.runners[r].pool.queue|
    requires forall i :: 0 <= i <= n ==> s.runners[r].pool.queue[i].status == BLANK
    ensures IsRun(s, es) && NoLoss(es) && Exec(s, es) == With(s, r, w)
    ensures !w.exited && w.phase.Idle? && s.runners[r].starts < w.starts && w.logged == s.runners[r].logged
    ensures var id := s.runners[r].pool.queue[n].id;
            w.starts[|w.starts| - 1] == id && id in w.pool.running && w.pool.running[id].pending == []
    decreases n
  {
    var before := s.runners[r];
    var mid := RunnerStep(s.oneOff, before, Tick(r));
    OneMove(s, Tick(r));
    assert mid.starts == before.starts + [before.pool.queue[0].id];
    if n == 0 {
      es, w := [Tick(r)], mid;
    } else {
      assert forall i :: 0 <= i < |mid.pool.queue| ==> mid.pool.queue[i] == before.pool.queue[i + 1];
      var rest;
      rest, w := TicksStart(With(s, r, mid), r, n - 1);
      Compose(s, r, [Tick(r)], mid, rest, w);
      es := [Tick(r)] + rest;
    }
  }

  lemma StartOffered(s: System, r: RunnerId, id: TaskId) returns (es: seq<Event>, w: Runner)
    requires Missing(s, r, id) && s.runners[r].phase.Sent? && Offered(s.server.tasks, r, id)
    requires s.oneOff ==> s.runners[r].pool.queue == [] && |s.runners[r].pool.running| == 0
    ensures IsRun(s, es) && NoLoss(es) && Exec(s, es) == With(s, r, w)
    ensures !w.exited && w.phase.Idle? && s.runners[r].starts < w.starts && w.logged == s.runners[r].logged
    ensures w.starts[|w.starts| - 1] == id && id in w.pool.running && w.pool.running[id].pending == []
  {
    var polled, mid := PollQueues(s, r, id);
    var n :| 0 <= n < |mid.pool.queue| && mid.pool.queue[n].id == id;
    var ticks;
    ticks, w := TicksStart(With(s, r, mid), r, n);
    Compose(s, r, polled, mid, ticks, w);
    es := polled + ticks;
  }

  /** A runner that is not barred gets to where it takes new jobs. */
  lemma MakeRoom(s: System, r: RunnerId, id: TaskId) returns (es: seq<Event>, t: System)
    requires Missing(s, r, id) && s.runners[r].phase.Sent?
    requires !ExitsFirst(s.oneOff, s.runners[r].pool) && !Stuck(s.oneOff, s.server.tasks, s.runners[r].pool)
    ensures Leads(s, es, t, r, id) && t.runners[r].phase.Sent?
    ensures t.oneOff ==> t.runners[r].pool.queue == [] && |t.runners[r].pool.running| == 0
  {
    if !s.oneOff {
      es, t := [], s;
      Stay(s, r, id);
    } else {
      var drained, mid := DrainQueue(s, r, id);
      if |mid.runners[r].pool.running| == 0 {
        es, t := drained, mid;
      } else {
        forall job ensures !StuckJob(mid.server.tasks, mid.runners[r].pool, job) {
          assert !StuckJob(s.server.tasks, s.runners[r].pool, job);
        }
        var rest;
        rest, t := ClearOut(mid, r, id);
        Then(s, drained, mid, rest, t, r, id);
        es := drained + rest;
      }
    }
  }

  /** A forgotten job that the server still offers is started again, and nothing is logged or
      accepted for it meanwhile. */
  lemma RestartForgotten(s: System, r: RunnerId, id: TaskId) returns (es: seq<Event>)
    requires Missing(s, r, id) && s.runners[r].phase.Sent? && Offered(s.server.tasks, r, id)
    requires !ExitsFirst(s.oneOff, s.runners[r].pool) && !Stuck(s.oneOff, s.server.tasks, s.runners[r].pool)
    ensures IsRun(s, es) && NoLoss(es) && Alive(Exec(s, es), r)
    ensures Untouched(s, Exec(s, es), r, id)
    ensures var w := Exec(s, es).runners[r];
            && w.phase.Idle? && s.runners[r].starts < w.starts && w.starts[|w.starts| - 1] == id
            && id in w.pool.running && w.pool.running[id].pending == []
  {
    var cleared, mid := MakeRoom(s, r, id);
    var started, w := StartOffered(mid, r, id);
    RunConcat(s, cleared, started);
    StartUntouched(s, mid, r, id, w);
    es := cleared + started;
  }

  lemma StartUntouched(s: System, mid: System, r: RunnerId, id: TaskId, w: Runner)
    requires r in s.runners && r in mid.runners && Untouched(s, mid, r, id)
    requires mid.runners[r].starts < w.starts && w.logged == mid.runners[r].logged
    ensures Untouched(s, With(mid, r, w), r, id) && s.runners[r].starts < w.starts
  {
  }

  // ---------------------------------------------------------------- the condition is exact

  lemma HarmedJob(tasks: map<TaskId, Task>, r: RunnerId, w: Runner) returns (id: TaskId)
    requires ServerInv(tasks) && r != UNASSIGNED && RunnerBase(tasks, r, w) && Harmful(tasks, w)
    ensures Offered(tasks, r, id) && id in w.starts && id !in w.pool.running
    ensures RunnerBase(tasks, r, w.(phase := Sent))
  {
    var k :| 0 <= k < |w.phase.body| && w.phase.body[k].id !in w.pool.running && !Settled(tasks, w.phase.body[k].id);
    id := w.phase.body[k].id;
    assert Given(tasks, r, id);
  }

  /** The state after the loss, and the job it is about. */
  lemma HarmForgets(s: System, r: RunnerId) returns (id: TaskId)
    requires Inv(s) && Enabled(s, LosePut(r)) && Harmful(s.server.tasks, s.runners[r])
    ensures Offered(s.server.tasks, r, id)
    ensures Step(s, LosePut(r)) == With(s, r, s.runners[r].(phase := Sent)) && Missing(Step(s, LosePut(r)), r, id)
  {
    assert RunnerInv(s.server.tasks, r, s.runners[r]);
    id := HarmedJob(s.server.tasks, r, s.runners[r]);
  }

  lemma LastIsSecondStart(before: seq<TaskId>, after: seq<TaskId>, id: TaskId)
    requires before < after && id in before && after[|after| - 1] == id
    ensures !Distinct(after)
  {
    var i :| 0 <= i < |before| && before[i] == id;
    assert after[i] == after[|after| - 1] && i < |after| - 1;
  }

  /** Losing the PUT is harmful, and its runner will be able to take a job again. */
  ghost predicate Restarts(s: System, r: RunnerId)
    requires r in s.runners
  {
    && Harmful(s.server.tasks, s.runners[r])
    && !ExitsFirst(s.oneOff, s.runners[r].pool) && !Stuck(s.oneOff, s.server.tasks, s.runners[r].pool)
  }

  /** After such a loss the runner can start the job again, without further loss. */
  lemma HarmfulLossRestarts(s: System, r: RunnerId) returns (es: seq<Event>)
    requires Inv(s) && Enabled(s, LosePut(r)) && Restarts(s, r)
    ensures IsRun(Step(s, LosePut(r)), es) && NoLoss(es)
    ensures !StartedAtMostOnce(Exec(Step(s, LosePut(r)), es))
  {
    var id := HarmForgets(s, r);
    var s1 := Step(s, LosePut(r));
    es := RestartForgotten(s1, r, id);
    LastIsSecondStart(s1.runners[r].starts, Exec(s1, es).runners[r].starts, id);
  }

  lemma OtherLossesAreSafe(s: System, r: RunnerId, later: seq<Event>)
    requires Inv(s) && Enabled(s, LosePut(r)) && !Restarts(s, r)
    requires IsRun(Step(s, LosePut(r)), later) && NoLoss(later)
    ensures StartedAtMostOnce(Exec(Step(s, LosePut(r)), later))
  {
    var s1 := Step(s, LosePut(r));
    if Harmful(s.server.tasks, s.runners[r]) {
      var job := LossBars(s, r);
      BarredStartsOnce(s1, r, job, later);
    } else {
      StepKeepsInv(s, LosePut(r));
      NoLossIsHarmless(s1, later);
      RunKeepsInv(s1, later);
      InvIsBase(Exec(s1, later));
      BaseStartsOnce(Exec(s1, later));
    }
  }

  /** In every state reached without a harmful loss, losing the PUT in flight can lead to a second
      start if and only if some job it reports was forgotten and the server, not having heard of it,
      still has it as starting; and, if the runner is a one-off runner, neither does it exit before
      anything else nor is it stuck with a job. */
  lemma SecondStartIffHarmful(oneOff: bool, es: seq<Event>, r: RunnerId)
    requires IsRun(Init(oneOff), es) && HarmlessRun(Init(oneOff), es)
    requires Enabled(Exec(Init(oneOff), es), LosePut(r))
    ensures var s := Exec(Init(oneOff), es);
            Restarts(s, r) <==>
            exists later: seq<Event> {:trigger NoLoss(later)} :: NoLoss(later) && IsRun(Step(s, LosePut(r)), later) &&
              !StartedAtMostOnce(Exec(Step(s, LosePut(r)), later))
  {
    var s := Exec(Init(oneOff), es);
    RunKeepsInv(Init(oneOff), es);
    if Restarts(s, r) {
      var later := HarmfulLossRestarts(s, r);
    } else {
      forall later: seq<Event> | NoLoss(later) && IsRun(Step(s, LosePut(r)), later)
        ensures StartedAtMostOnce(Exec(Step(s, LosePut(r)), later))
      {
        OtherLossesAreSafe(s, r, later);
      }
    }
  }
}
