/** The life of a job at its runner: how it is queued, started, reported and forgotten. */
module RunnerHistories {
  import opened TaskStatus
  import opened RunnerProtocol
  import opened Collections

  // ---------------------------------------------------------------- reports

  /** A report leaves every unfinished job with its status and nothing pending, and takes exactly the
      finished ones off the running jobs. */
  lemma ReportKeepsUnfinished(w: Runner, body: seq<Progress>)
    ensures var before, after := w.pool.running, Report(w, body).pool.running;
            && (forall id :: id in after <==> id in before && before[id].status !in {Stopped, Success, Error})
            && (forall id :: id in after ==> after[id] == Job(before[id].status, [], before[id].ended))
  {
  }

  /** A report has an entry for a job exactly if the job is running, with its status and all it has
      pending. */
  lemma ReportIsExact(body: seq<Progress>, running: map<TaskId, Job>, p: Progress)
    requires IsReport(body, running)
    ensures p in body <==>
            p.id in running && p.status == running[p.id].status && p.records == running[p.id].pending
    ensures forall i, j :: 0 <= i < j < |body| ==> body[i].id != body[j].id
  {
    if p.id in running {
      var i :| 0 <= i < |body| && body[i].id == p.id;
      assert body[i] in body;
    }
  }

  /** The report carried the job with a finished status. */
  predicate Reports(e: Event, r: RunnerId, id: TaskId) {
    e.StartPut? && e.r == r && exists k :: 0 <= k < |e.body| && e.body[k].id == id && IsFinished(e.body[k].status)
  }

  lemma {:induction false} RunSnoc(s: System, es: seq<Event>, e: Event)
    requires IsRun(s, es + [e])
    ensures IsRun(s, es) && Enabled(Exec(s, es), e) && Exec(s, es + [e]) == Step(Exec(s, es), e)
    decreases |es|
  {
    if es == [] {
      assert es + [e] == [e];
    } else {
      assert (es + [e])[1..] == es[1..] + [e];
      RunSnoc(Step(s, es[0]), es[1..], e);
    }
  }

  /** One step takes a started job off the running jobs only by reporting it as finished. */
  lemma StepForgets(s: System, e: Event, r: RunnerId, id: TaskId)
    requires Enabled(s, e) && r in Step(s, e).runners
    requires id in Step(s, e).runners[r].starts && id !in Step(s, e).runners[r].pool.running
    ensures Reports(e, r, id) ||
            (r in s.runners && id in s.runners[r].starts && id !in s.runners[r].pool.running)
  {
    if !IsServerEvent(e) && e.r == r && !e.Join? {
      var w := s.runners[r];
      match e
      case StartPut(_, body) =>
        if id in w.pool.running {
          var k :| 0 <= k < |body| && body[k].id == id;
          assert IsFinished(w.pool.running[id].status);
        }
      case Receive(_) => OverwriteKeepsJobs(w.pool.running, w.phase.response.currentJobs);
      case _ =>
    }
  }

  lemma {:induction false} OverwriteKeepsJobs(running: map<TaskId, Job>, current: seq<JobState>)
    ensures forall id :: id in Overwrite(running, current) <==> id in running
  {
    if current != [] {
      OverwriteKeepsJobs(running, current[..|current| - 1]);
    }
  }

  lemma {:induction false} OnlyStatusChanges(running: map<TaskId, Job>, current: seq<JobState>, id: TaskId)
    requires id in running
    ensures id in Overwrite(running, current)
    ensures Overwrite(running, current)[id] == running[id].(status := Overwrite(running, current)[id].status)
  {
    if current != [] {
      OnlyStatusChanges(running, current[..|current| - 1], id);
    }
  }

  /** A running job takes over the last status that the answer has for it, at position `k`, and keeps
      everything else; with no status for it, it stays as it was. */
  lemma {:induction false} AnswerSetsStatus(running: map<TaskId, Job>, current: seq<JobState>, id: TaskId, k: int)
    requires id in running && -1 <= k < |current| && (k >= 0 ==> current[k].id == id)
    requires forall j :: k < j < |current| ==> current[j].id != id
    ensures id in Overwrite(running, current)
    ensures Overwrite(running, current)[id] ==
            if k < 0 then running[id] else running[id].(status := current[k].status)
  {
    if current != [] {
      var init := current[..|current| - 1];
      OnlyStatusChanges(running, init, id);
      if k < |current| - 1 {
        AnswerSetsStatus(running, init, id, k);
      }
    }
  }

  /** Over every run, with any losses: a job that was started and is no longer among the running jobs
      was carried by an earlier report of its runner, with a finished status. */
  lemma {:induction false} ForgottenWasReported(oneOff: bool, es: seq<Event>, r: RunnerId, id: TaskId)
    requires IsRun(Init(oneOff), es) && r in Exec(Init(oneOff), es).runners
    requires id in Exec(Init(oneOff), es).runners[r].starts && id !in Exec(Init(oneOff), es).runners[r].pool.running
    ensures exists i :: 0 <= i < |es| && Reports(es[i], r, id)
    decreases |es|
  {
    if es != [] {
      var init, e := es[..|es| - 1], es[|es| - 1];
      assert es == init + [e];
      RunSnoc(Init(oneOff), init, e);
      StepForgets(Exec(Init(oneOff), init), e, r, id);
      if !Reports(e, r, id) {
        ForgottenWasReported(oneOff, init, r, id);
        var i :| 0 <= i < |init| && Reports(init[i], r, id);
        assert es[i] == init[i];
      }
    }
  }

  // ---------------------------------------------------------------- the queue

  /** Positions in ascending order. */
  ghost predicate Ascends(picks: seq<nat>, limit: nat) {
    && (forall k :: 0 <= k < |picks| ==> picks[k] < limit)
    && (forall j, k :: 0 <= j < k < |picks| ==> picks[j] < picks[k])
  }

  /** The jobs of an answer that are neither running nor queued join the end of the queue, once and in
      the order of the answer. */
  lemma {:induction false} EnqueueAppends(queue: seq<QueuedJob>, running: map<TaskId, Job>, ids: seq<TaskId>)
      returns (picks: seq<nat>)
    ensures Ascends(picks, |ids|)
    ensures var after := Enqueue(queue, running, ids);
            && |after| == |queue| + |picks| && queue <= after
            && (forall k :: 0 <= k < |picks| ==> after[|queue| + k] == QueuedJob(ids[picks[k]], BLANK))
            && (forall id :: InQueue(after, id) <==> InQueue(queue, id) || (id in ids && id !in running))
    ensures forall k :: 0 <= k < |picks| ==> !InQueue(queue, ids[picks[k]]) && ids[picks[k]] !in running
    ensures forall j, k :: 0 <= j < k < |picks| ==> ids[picks[j]] != ids[picks[k]]
    decreases |ids|
  {
    if ids == [] {
      picks := [];
    } else {
      var init, id := ids[..|ids| - 1], ids[|ids| - 1];
      var before := Enqueue(queue, running, init);
      picks := EnqueueAppends(queue, running, init);
      assert ids == init + [id];
      if id !in running && !InQueue(before, id) {
        picks := MoreQueued(queue, before, running, init, id, picks);
      }
    }
  }

  /** The id joins the end of what was there. */
  lemma MoreQueued(queue: seq<QueuedJob>, before: seq<QueuedJob>, running: map<TaskId, Job>, init: seq<TaskId>,
                   id: TaskId, picks: seq<nat>) returns (more: seq<nat>)
    requires id !in running && !InQueue(before, id)
    requires Ascends(picks, |init|) && |before| == |queue| + |picks| && queue <= before
    requires forall k :: 0 <= k < |picks| ==> before[|queue| + k] == QueuedJob(init[picks[k]], BLANK)
    requires forall x :: InQueue(before, x) <==> InQueue(queue, x) || (x in init && x !in running)
    ensures more == picks + [|init|]
    ensures forall k :: 0 <= k < |picks| ==> init[picks[k]] != id
    ensures !InQueue(queue, id)
    ensures forall x :: InQueue(before + [QueuedJob(id, BLANK)], x) <==> InQueue(before, x) || x == id
  {
    more := picks + [|init|];
    forall k | 0 <= k < |picks| ensures init[picks[k]] != id {
      assert before[|queue| + k].id == init[picks[k]];
    }
    var after := before + [QueuedJob(id, BLANK)];
    assert after[|before|].id == id;
    forall x ensures InQueue(after, x) <==> InQueue(before, x) || x == id {
      if i :| 0 <= i < |before| && before[i].id == x {
        assert after[i].id == x;
      }
    }
  }

  /** Which jobs an answer adds to the queue: none for a one-off runner that has any job. */
  lemma AnswerAppends(oneOff: bool, p: Pool, resp: Response) returns (picks: seq<nat>)
    ensures Ascends(picks, |resp.newJobs|)
    ensures var after := AfterResponse(oneOff, p, resp).queue;
            && |after| == |p.queue| + |picks| && p.queue <= after
            && (forall k :: 0 <= k < |picks| ==> after[|p.queue| + k] == QueuedJob(resp.newJobs[picks[k]], BLANK))
            && (if oneOff && (p.queue != [] || |p.running| > 0) then after == p.queue
                else forall id :: InQueue(after, id) <==>
                       InQueue(p.queue, id) || (id in resp.newJobs && id !in p.running))
  {
    OverwriteKeepsJobs(p.running, resp.currentJobs);
    var running := Overwrite(p.running, resp.currentJobs);
    SameSize(p.running, running);
    if oneOff && (|p.queue| > 0 || |running| > 0) {
      picks := [];
    } else {
      picks := EnqueueAppends(p.queue, running, resp.newJobs);
    }
  }

  lemma SameSize(a: map<TaskId, Job>, b: map<TaskId, Job>)
    requires forall id :: id in a <==> id in b
    ensures |a| == |b|
  {
    SubsetByMembers(a.Keys, b.Keys);
    SubsetByMembers(b.Keys, a.Keys);
    SubsetSize(a.Keys, b.Keys);
    SubsetSize(b.Keys, a.Keys);
    assert |a| == |a.Keys| && |b| == |b.Keys|;
  }

  /** A tick takes the head of the queue: a failed job is dropped, any other is started with no status
      and nothing pending, and nothing else changes. */
  lemma TickTakesHead(p: Pool)
    requires p.queue != []
    ensures var (after, started) := Dequeue(p);
            var head := p.queue[0];
            && after.queue == p.queue[1..]
            && started == (if head.status == Error then [] else [head.id])
            && (forall id :: id in after.running <==> id in p.running || id in started)
            && (forall id :: id in after.running ==>
                  after.running[id] == if id in started then Job(Other(""), [], false) else p.running[id])
  {
  }

  /** The runner exits exactly if it is a one-off runner, has jobs, and all of them are finished. */
  lemma ExitsIff(oneOff: bool, p: Pool)
    ensures MustExit(oneOff, p) <==>
            && oneOff && (exists id :: id in p.running)
            && forall id :: id in p.running ==> p.running[id].status in {Stopped, Success, Error}
  {
    var job := Member(p.running.Keys);
    assert |p.running| == |p.running.Keys|;
  }
}
