/** What becomes of a task's status at the server: what one PUT makes of it, and that a stopped task
    stays stopped over every run of the protocol. */
module ServerStatuses {
  import opened TaskStatus
  import opened RunnerProtocol
  import TaskRunners

  /** The statuses that a body reports for a task, in order. */
  function Reported(body: seq<Progress>, id: TaskId): seq<Status> {
    if body == [] then []
    else
      var last := body[|body| - 1];
      Reported(body[..|body| - 1], id) + (if last.id == id then [last.status] else [])
  }

  /** A queued or listed task takes over the reported statuses, one after the other, by the rule of
      its task runner; every other task stays as it was. */
  lemma {:induction false} BodyStatus(sv: Server, r: RunnerId, body: seq<Progress>, id: TaskId)
    ensures id in ApplyBody(sv, r, body).tasks <==> id in sv.tasks
    ensures id in sv.tasks ==>
              var t := sv.tasks[id];
              ApplyBody(sv, r, body).tasks[id] ==
                if t.place == Queued || t.place == Listed
                then t.(status := TaskRunners.Reports(t.status, Reported(body, id))) else t
    decreases |body|
  {
    if body != [] {
      var init, last := body[..|body| - 1], body[|body| - 1];
      BodyStatus(sv, r, init, id);
      var before := Reported(init, id);
      if last.id == id {
        assert (before + [last.status])[..|before|] == before;
      } else {
        assert before + [] == before;
      }
    }
  }

  /** What the server answers a runner: its listed tasks, those that are starting as new jobs and the
      others as current ones with their statuses. */
  lemma AnswerIsExact(resp: Response, tasks: map<TaskId, Task>, r: RunnerId, id: TaskId, status: Status)
    requires IsResponse(resp, tasks, r)
    ensures id in resp.newJobs <==>
            id in tasks && tasks[id].place == Listed && tasks[id].runner == r && tasks[id].status == Starting
    ensures JobState(id, status) in resp.currentJobs <==>
            id in tasks && tasks[id].place == Listed && tasks[id].runner == r && tasks[id].status == status &&
                status != Starting
  {
    assert id in resp.newJobs ==> Offered(tasks, r, id);
    if id in tasks && tasks[id].place == Listed && tasks[id].runner == r && tasks[id].status != Starting {
      var i :| 0 <= i < |resp.currentJobs| && resp.currentJobs[i].id == id;
      assert resp.currentJobs[i] == JobState(id, tasks[id].status);
    }
  }

  lemma StepKeepsStopped(s: System, e: Event, id: TaskId)
    requires Enabled(s, e) && id in s.server.tasks && s.server.tasks[id].status == Stopped
    ensures id in Step(s, e).server.tasks && Step(s, e).server.tasks[id].status == Stopped
  {
    if e.DeliverPut? {
      var body := s.runners[e.r].phase.body;
      BodyStatus(s.server, e.r, body, id);
      TaskRunners.ReportedStop(Stopped, Reported(body, id));
    }
  }

  /** Over every run: a task that is stopped at the server is so for ever, whatever runners report. */
  lemma {:induction false} StoppedStays(s: System, es: seq<Event>, id: TaskId)
    requires IsRun(s, es) && id in s.server.tasks && s.server.tasks[id].status == Stopped
    ensures id in Exec(s, es).server.tasks && Exec(s, es).server.tasks[id].status == Stopped
    decreases |es|
  {
    if es != [] {
      StepKeepsStopped(s, es[0], id);
      StoppedStays(Step(s, es[0]), es[1..], id);
    }
  }
}
