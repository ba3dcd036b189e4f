/** The runner's job pool as the object the runner mutates. Every method is proved against the
    operation of the protocol model that it carries out. */
module JobPools {
  import opened Collections
  import opened TaskStatus
  import opened RunnerProtocol

  /** `body` reports the jobs of `before` that are no longer to do, each once. */
  ghost predicate Reported(body: seq<Progress>, before: map<TaskId, Job>, todo: set<TaskId>) {
    && (forall i :: 0 <= i < |body| ==>
          body[i].id in before && body[i].id !in todo &&
          body[i] == Progress(body[i].id, before[body[i].id].status, before[body[i].id].pending))
    && (forall i, j :: 0 <= i < j < |body| ==> body[i].id != body[j].id)
    && (forall id :: id in before && id !in todo ==> exists i :: 0 <= i < |body| && body[i].id == id)
  }

  /** Jobs that are no longer to do are forgotten if finished and have nothing pending otherwise. */
  ghost predicate Reset(running: map<TaskId, Job>, before: map<TaskId, Job>, todo: set<TaskId>) {
    && (forall id :: id in running ==> id in before)
    && (forall id :: id in before ==> (id in running <==> id in todo || !IsFinished(before[id].status)))
    && (forall id :: id in running ==> running[id] == if id in todo then before[id] else before[id].(pending := []))
  }

  lemma ReportedMore(body: seq<Progress>, before: map<TaskId, Job>, todo: set<TaskId>, id: TaskId)
    requires Reported(body, before, todo) && id in todo && id in before
    ensures Reported(body + [Progress(id, before[id].status, before[id].pending)], before, todo - {id})
  {
    var more := body + [Progress(id, before[id].status, before[id].pending)];
    assert more[|body|].id == id;
    assert forall i :: 0 <= i < |body| ==> more[i] == body[i];
    forall other | other in before && other !in todo - {id} ensures exists i :: 0 <= i < |more| && more[i].id == other {
      if other != id {
        var i :| 0 <= i < |body| && body[i].id == other;
        assert more[i].id == other;
      }
    }
  }

  class JobPool {
    var queue: seq<QueuedJob>
    var runningJobs: map<TaskId, Job>
    const oneOff: bool

    ghost function Model(): Pool
      reads this
    {
      Pool(queue, runningJobs)
    }

    constructor (oneOff: bool)
      ensures Model() == FRESH_RUNNER.pool && this.oneOff == oneOff
    {
      queue, runningJobs := [], map[];
      this.oneOff := oneOff;
    }

    method ExistsInQueue(id: TaskId) returns (found: bool)
      ensures found <==> InQueue(queue, id)
    {
      for i := 0 to |queue|
        invariant !InQueue(queue[..i], id)
      {
        if queue[i].id == id {
          return true;
        }
        assert queue[..i + 1] == queue[..i] + [queue[i]];
      }
      assert queue[..|queue|] == queue;
      return false;
    }

    method HasRunningJobs() returns (found: bool)
      ensures found <==> exists id :: id in runningJobs && !IsFinished(runningJobs[id].status)
    {
      var todo := runningJobs.Keys;
      while todo != {}
        invariant todo <= runningJobs.Keys
        invariant forall id :: id in runningJobs && id !in todo ==> IsFinished(runningJobs[id].status)
        decreases |todo|
      {
        ghost var member := Member(todo);
        var id :| id in todo;
        if !IsFinished(runningJobs[id].status) {
          return true;
        }
        todo := todo - {id};
      }
      return false;
    }

    method LogRecord(id: TaskId, record: Record)
      requires id in runningJobs
      modifies this`runningJobs
      ensures runningJobs.Keys == old(runningJobs.Keys)
      ensures runningJobs[id] == old(runningJobs[id]).(pending := old(runningJobs[id].pending) + [record])
      ensures forall other :: other in runningJobs && other != id ==> runningJobs[other] == old(runningJobs)[other]
    {
      runningJobs := runningJobs[id := runningJobs[id].(pending := runningJobs[id].pending + [record])];
    }

    method QueueTick() returns (started: seq<TaskId>)
      modifies this`queue, this`runningJobs
      ensures (Model(), started) == Dequeue(old(Model()))
    {
      started := [];
      if |queue| == 0 {
        return;
      }
      var head := queue[0];
      if head.status == Error {
        queue := queue[1..];
        return;
      }
      runningJobs := runningJobs[head.id := Job(BLANK, [], false)];
      queue := queue[1..];
      started := [head.id];
    }

    method SendProgress() returns (body: seq<Progress>)
      modifies this`runningJobs
      ensures IsReport(body, old(runningJobs))
      ensures runningJobs == AfterReport(old(runningJobs))
    {
      ghost var before := runningJobs;
      var todo := runningJobs.Keys;
      body := [];
      while todo != {}
        invariant todo <= before.Keys
        invariant Reported(body, before, todo) && Reset(runningJobs, before, todo)
        decreases |todo|
      {
        ghost var member := Member(todo);
        var id :| id in todo;
        var job := runningJobs[id];
        ReportedMore(body, before, todo, id);
        body := body + [Progress(id, job.status, job.pending)];
        runningJobs := runningJobs[id := job.(pending := [])];
        if IsFinished(job.status) {
          runningJobs := runningJobs - {id};
        }
        todo := todo - {id};
      }
      SameMap(runningJobs, AfterReport(before));
    }

    method CheckNewJobs(response: Response)
      modifies this`queue, this`runningJobs
      ensures Model() == AfterResponse(oneOff, old(Model()), response)
    {
      ghost var before := runningJobs;
      var i := 0;
      while i < |response.currentJobs|
        invariant 0 <= i <= |response.currentJobs|
        invariant runningJobs == Overwrite(before, response.currentJobs[..i]) && queue == old(queue)
      {
        var state := response.currentJobs[i];
        assert response.currentJobs[..i + 1][..i] == response.currentJobs[..i];
        if state.id in runningJobs {
          runningJobs := runningJobs[state.id := runningJobs[state.id].(status := state.status)];
        }
        i := i + 1;
      }
      assert response.currentJobs[..i] == response.currentJobs;

      if oneOff && (|queue| > 0 || |runningJobs| > 0) {
        return;
      }

      i := 0;
      while i < |response.newJobs|
        invariant 0 <= i <= |response.newJobs|
        invariant queue == Enqueue(old(queue), runningJobs, response.newJobs[..i])
        invariant runningJobs == Overwrite(before, response.currentJobs)
      {
        var id := response.newJobs[i];
        assert response.newJobs[..i + 1][..i] == response.newJobs[..i];
        var queued := ExistsInQueue(id);
        if id !in runningJobs && !queued {
          queue := queue + [QueuedJob(id, BLANK)];
        }
        i := i + 1;
      }
      assert response.newJobs[..i] == response.newJobs;
    }
  }
}

/** The server's two handlers for runner requests. */
module RunnerApi {
  import opened Collections
  import opened TaskStatus
  import opened RunnerProtocol

  class TaskBoard {
    var tasks: map<TaskId, Task>
    var channel: seq<Line>
    var stored: seq<Line>

    ghost function Model(): Server
      reads this
    {
      Server(tasks, channel, stored)
    }

    method UpdateRunner(r: RunnerId, body: seq<Progress>)
      modifies this`tasks, this`channel
      ensures Model() == ApplyBody(old(Model()), r, body)
    {
      for i := 0 to |body|
        invariant Model() == ApplyBody(old(Model()), r, body[..i])
      {
        assert body[..i + 1][..i] == body[..i];
        if body[i].id in tasks && Visible(tasks[body[i].id]) {
          var t := tasks[body[i].id];
          channel := channel + Lines(body[i].id, r, body[i].records);
          tasks := tasks[body[i].id := t.(status := NextStatus(t.status, body[i].status))];
        }
      }
      assert body[..|body|] == body;
    }

    method GetRunner(r: RunnerId) returns (response: Response)
      ensures IsResponse(response, tasks, r)
    {
      var todo := tasks.Keys;
      var currentJobs: seq<JobState>, newJobs: seq<TaskId> := [], [];
      while todo != {}
        invariant todo <= tasks.Keys
        invariant forall i :: 0 <= i < |newJobs| ==> Offered(tasks, r, newJobs[i])
        invariant forall id :: Offered(tasks, r, id) && id !in todo ==> id in newJobs
        invariant forall i :: 0 <= i < |currentJobs| ==>
            var c := currentJobs[i];
            c.id in tasks && tasks[c.id].place == Listed && tasks[c.id].runner == r &&
            tasks[c.id].status == c.status && c.status != Starting
        invariant forall id ::
            (id in tasks && id !in todo && tasks[id].place == Listed && tasks[id].runner == r &&
                tasks[id].status != Starting) ==>
            exists i :: 0 <= i < |currentJobs| && currentJobs[i].id == id
        decreases |todo|
      {
        ghost var member := Member(todo);
        var id :| id in todo;
        var t := tasks[id];
        if t.place == Listed && t.runner == r {
          if t.status == Starting {
            newJobs := newJobs + [id];
          } else {
            ghost var sofar := currentJobs;
            currentJobs := currentJobs + [JobState(id, t.status)];
            assert currentJobs[|sofar|].id == id;
            assert forall i :: 0 <= i < |sofar| ==> currentJobs[i] == sofar[i];
          }
        }
        todo := todo - {id};
      }
      response := Response(currentJobs, newJobs);
    }
  }
}
