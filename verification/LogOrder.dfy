/** Log order end to end: the records the server has accepted from a runner for a job are, in
    order and without duplicates, a prefix of the records the job logged there, as long as no
    lost PUT drops records of a job that goes on reporting or leads to a second start. */
module LogOrder {
  import opened RunnerProtocol
  import opened AtMostOnce

  // ---------------------------------------------------------------- reading the output

  /** The records of job `id` that came from runner `r`, in output order. */
  function RecordsOf(out: seq<Line>, id: TaskId, r: RunnerId): seq<Record> {
    if out == [] then []
    else
      var last := out[|out| - 1];
      RecordsOf(out[..|out| - 1], id, r) + (if last.task == id && last.origin == r then [last.record] else [])
  }

  lemma {:induction false} RecordsOfConcat(a: seq<Line>, b: seq<Line>, id: TaskId, r: RunnerId)
    ensures RecordsOf(a + b, id, r) == RecordsOf(a, id, r) + RecordsOf(b, id, r)
    decreases |b|
  {
    if b == [] {
      assert a + b == a;
    } else {
      var init := b[..|b| - 1];
      assert (a + b)[..|a + b| - 1] == a + init;
      RecordsOfConcat(a, init, id, r);
    }
  }

  lemma {:induction false} RecordsOfLines(task: TaskId, origin: RunnerId, records: seq<Record>, id: TaskId, r: RunnerId)
    ensures RecordsOf(Lines(task, origin, records), id, r) == if task == id && origin == r then records else []
    decreases |records|
  {
    if records != [] {
      var init := records[..|records| - 1];
      var lines := Lines(task, origin, records);
      assert lines[..|lines| - 1] == Lines(task, origin, init);
      RecordsOfLines(task, origin, init, id, r);
      assert init + [records[|records| - 1]] == records;
    }
  }

  /** The records a PUT body carries for job `id`. */
  function BodyRecords(body: seq<Progress>, id: TaskId): seq<Record> {
    if body == [] then []
    else
      var last := body[|body| - 1];
      BodyRecords(body[..|body| - 1], id) + (if last.id == id then last.records else [])
  }

  lemma {:induction false} BodyRecordsNone(body: seq<Progress>, id: TaskId)
    requires forall k :: 0 <= k < |body| ==> body[k].id != id
    ensures BodyRecords(body, id) == []
  {
    if body != [] {
      BodyRecordsNone(body[..|body| - 1], id);
    }
  }

  lemma {:induction false} BodyRecordsOne(body: seq<Progress>, k: int)
    requires 0 <= k < |body|
    requires forall i, j :: 0 <= i < j < |body| ==> body[i].id != body[j].id
    ensures BodyRecords(body, body[k].id) == body[k].records
  {
    var init := body[..|body| - 1];
    if k == |body| - 1 {
      BodyRecordsNone(init, body[k].id);
    } else {
      BodyRecordsOne(init, k);
    }
  }

  /** What of a body's records the server takes over for a task of a given place. */
  function Taken(sv: Server, id: TaskId, fromHere: bool, records: seq<Record>): seq<Record> {
    if fromHere && id in sv.tasks && Visible(sv.tasks[id]) then records else []
  }

  ghost predicate SamePlace(before: Server, after: Server, id: TaskId) {
    && after.stored == before.stored
    && (id in before.tasks <==> id in after.tasks)
    && (id in before.tasks ==> after.tasks[id].place == before.tasks[id].place)
  }

  lemma ApplyEntryRecords(sv: Server, r: RunnerId, p: Progress, id: TaskId, origin: RunnerId)
    ensures SamePlace(sv, ApplyEntry(sv, r, p), id)
    ensures RecordsOf(ApplyEntry(sv, r, p).channel, id, origin) ==
            RecordsOf(sv.channel, id, origin) + Taken(sv, id, origin == r, if p.id == id then p.records else [])
  {
    RecordsOfConcat(sv.channel, Lines(p.id, r, p.records), id, origin);
    RecordsOfLines(p.id, r, p.records, id, origin);
  }

  lemma {:induction false} ApplyBodyRecords(sv: Server, r: RunnerId, body: seq<Progress>, id: TaskId, origin: RunnerId)
    ensures SamePlace(sv, ApplyBody(sv, r, body), id)
    ensures RecordsOf(ApplyBody(sv, r, body).channel, id, origin) ==
            RecordsOf(sv.channel, id, origin) + Taken(sv, id, origin == r, BodyRecords(body, id))
    decreases |body|
  {
    if body != [] {
      var init, last := body[..|body| - 1], body[|body| - 1];
      ApplyBodyRecords(sv, r, init, id, origin);
      ApplyEntryRecords(ApplyBody(sv, r, init), r, last, id, origin);
      var first, more := BodyRecords(init, id), if last.id == id then last.records else [];
      assert Taken(sv, id, origin == r, first + more) == Taken(sv, id, origin == r, first) +
             Taken(sv, id, origin == r, more);
    }
  }

  // ---------------------------------------------------------------- the invariant

  function Accepted(sv: Server, id: TaskId, r: RunnerId): seq<Record> {
    RecordsOf(sv.stored + sv.channel, id, r)
  }

  function InFlight(w: Runner, id: TaskId): seq<Record> {
    if w.phase.Sending? then BodyRecords(w.phase.body, id) else []
  }

  predicate Live(sv: Server, id: TaskId) {
    id in sv.tasks && sv.tasks[id].place != Released
  }

  /** Records sent and pending make up what was logged; records accepted and in flight make
      up what was sent, while the job still reports and its task is not released. */
  ghost predicate LogOk(sv: Server, r: RunnerId, w: Runner, id: TaskId) {
    && At(w.sent, id) <= At(w.logged, id)
    && Accepted(sv, id, r) <= At(w.sent, id)
    && (id in w.pool.running ==> At(w.sent, id) + w.pool.running[id].pending == At(w.logged, id))
    && (Live(sv, id) && (id in w.pool.running || InBody(w.phase, id)) ==>
          Accepted(sv, id, r) + InFlight(w, id) == At(w.sent, id))
    && (id !in w.starts ==> Accepted(sv, id, r) == [] && At(w.sent, id) == [] && At(w.logged, id) == [])
  }

  /** Nothing is accepted from a runner that has not joined yet. */
  ghost predicate NoStrangers(s: System) {
    forall r, id :: r !in s.runners && r != UNASSIGNED ==> Accepted(s.server, id, r) == []
  }

  ghost predicate LogInv(s: System) {
    NoStrangers(s) && forall r, id :: r in s.runners ==> LogOk(s.server, r, s.runners[r], id)
  }

  // ---------------------------------------------------------------- server steps

  lemma AcceptedParts(sv: Server, id: TaskId, r: RunnerId)
    ensures Accepted(sv, id, r) == RecordsOf(sv.stored, id, r) + RecordsOf(sv.channel, id, r)
  {
    RecordsOfConcat(sv.stored, sv.channel, id, r);
  }

  lemma Associative(a: seq<Record>, b: seq<Record>, c: seq<Record>)
    ensures a + (b + c) == (a + b) + c
  {
  }

  lemma BodyAccepted(sv: Server, r: RunnerId, body: seq<Progress>, id: TaskId, origin: RunnerId)
    ensures Accepted(ApplyBody(sv, r, body), id, origin) ==
            Accepted(sv, id, origin) + Taken(sv, id, origin == r, BodyRecords(body, id))
    ensures SamePlace(sv, ApplyBody(sv, r, body), id)
  {
    ApplyBodyRecords(sv, r, body, id, origin);
    AcceptedParts(sv, id, origin);
    AcceptedParts(ApplyBody(sv, r, body), id, origin);
    Associative(RecordsOf(sv.stored, id, origin), RecordsOf(sv.channel, id, origin),
                Taken(sv, id, origin == r, BodyRecords(body, id)));
  }

  lemma ReportRecords(body: seq<Progress>, running: map<TaskId, Job>, id: TaskId)
    requires IsReport(body, running)
    ensures BodyRecords(body, id) == if id in running then running[id].pending else []
  {
    if id in running {
      var k :| 0 <= k < |body| && body[k].id == id;
      BodyRecordsOne(body, k);
    } else {
      BodyRecordsNone(body, id);
    }
  }

  lemma AcceptedAppend(sv: Server, lines: seq<Line>, id: TaskId, r: RunnerId)
    ensures Accepted(sv.(channel := sv.channel + lines), id, r) == Accepted(sv, id, r) + RecordsOf(lines, id, r)
  {
    assert sv.stored + (sv.channel + lines) == (sv.stored + sv.channel) + lines;
    RecordsOfConcat(sv.stored + sv.channel, lines, id, r);
  }

  lemma ServerStepAccepted(sv: Server, e: Event, id: TaskId, r: RunnerId)
    requires IsServerEvent(e) && r != UNASSIGNED
    ensures Accepted(ServerStep(sv, e), id, r) == Accepted(sv, id, r)
  {
    if e.ServerLog? {
      var lines := [Line(e.id, UNASSIGNED, e.record)];
      AcceptedAppend(sv, lines, id, r);
      assert lines[..0] == [];
    } else if e.StoreLine? && sv.channel != [] {
      assert (sv.stored + [sv.channel[0]]) + sv.channel[1..] == sv.stored + sv.channel;
    }
  }

  lemma ServerStepKeepsLog(s: System, e: Event, r: RunnerId, id: TaskId)
    requires Base(s) && Enabled(s, e) && IsServerEvent(e)
    requires r in s.runners && LogOk(s.server, r, s.runners[r], id)
    ensures LogOk(ServerStep(s.server, e), r, s.runners[r], id)
  {
    var w := s.runners[r];
    assert RunnerBase(s.server.tasks, r, w);
    ServerStepAccepted(s.server, e, id, r);
    if id in w.starts {
      assert Given(s.server.tasks, r, id);
      assert Live(ServerStep(s.server, e), id) ==> Live(s.server, id);
    }
  }

  // ---------------------------------------------------------------- runner steps

  lemma NotInBody(w: Runner, id: TaskId)
    requires PhaseInv(w) && id !in w.starts
    ensures InFlight(w, id) == [] && !InBody(w.phase, id)
  {
    if w.phase.Sending? {
      BodyRecordsNone(w.phase.body, id);
    }
  }

  lemma TickKeepsLog(sv: Server, r: RunnerId, w: Runner, id: TaskId, oneOff: bool)
    requires RunnerBase(sv.tasks, r, w) && LogOk(sv, r, w, id)
    ensures LogOk(sv, r, RunnerStep(oneOff, w, Tick(r)), id)
  {
    if id !in w.starts {
      NotInBody(w, id);
    }
  }

  lemma ReportedJob(w: Runner, body: seq<Progress>, id: TaskId)
    requires IsReport(body, w.pool.running)
    ensures var w', pending := Report(w, body), if id in w.pool.running then w.pool.running[id].pending else [];
            && At(w'.sent, id) == At(w.sent, id) + pending
            && InFlight(w', id) == pending
            && (id in w'.pool.running ==> id in w.pool.running && w'.pool.running[id].pending == [])
            && (InBody(w'.phase, id) ==> id in w.pool.running)
  {
    ReportRecords(body, w.pool.running, id);
    var w' := Report(w, body);
    if id !in w.pool.running {
      assert At(w.sent, id) + [] == At(w.sent, id);
    }
  }

  lemma ReportKeepsLog(sv: Server, r: RunnerId, w: Runner, body: seq<Progress>, id: TaskId)
    requires RunningInv(w) && LogOk(sv, r, w, id)
    requires w.phase.Idle? && IsReport(body, w.pool.running)
    ensures LogOk(sv, r, Report(w, body), id)
  {
    ReportedJob(w, body, id);
    var w' := Report(w, body);
    var accepted, sent, sent' := Accepted(sv, id, r), At(w.sent, id), At(w'.sent, id);
    assert w'.starts == w.starts && w'.logged == w.logged;
    if id in w.pool.running {
      assert sent' == At(w.logged, id) && sent <= sent';
      assert Live(sv, id) ==> accepted == accepted + InFlight(w, id) == sent;
      assert sent' + [] == sent';
    } else {
      assert sent' == sent;
    }
  }

  lemma {:induction false} OverwritePending(running: map<TaskId, Job>, current: seq<JobState>, id: TaskId)
    ensures id in Overwrite(running, current) <==> id in running
    ensures id in running ==> Overwrite(running, current)[id].pending == running[id].pending
  {
    if current != [] {
      OverwritePending(running, current[..|current| - 1], id);
    }
  }

  lemma ReceiveKeepsLog(sv: Server, r: RunnerId, w: Runner, id: TaskId, oneOff: bool)
    requires LogOk(sv, r, w, id) && w.phase.Receiving?
    ensures LogOk(sv, r, RunnerStep(oneOff, w, Receive(r)), id)
  {
    OverwritePending(w.pool.running, w.phase.response.currentJobs, id);
    var w' := RunnerStep(oneOff, w, Receive(r));
    assert w'.pool.running == Overwrite(w.pool.running, w.phase.response.currentJobs);
  }

  lemma DeliverKeepsLog(sv: Server, r: RunnerId, w: Runner, id: TaskId)
    requires ServerInv(sv.tasks) && r != UNASSIGNED
    requires RunnerBase(sv.tasks, r, w) && LogOk(sv, r, w, id) && w.phase.Sending?
    ensures LogOk(ApplyBody(sv, r, w.phase.body), r, w.(phase := Sent), id)
  {
    BodyAccepted(sv, r, w.phase.body, id, r);
    if id in w.starts {
      assert Given(sv.tasks, r, id);
      if !InBody(w.phase, id) {
        BodyRecordsNone(w.phase.body, id);
      }
    } else {
      NotInBody(w, id);
    }
  }

  lemma DeliverKeepsOthers(sv: Server, r: RunnerId, body: seq<Progress>, r2: RunnerId, id: TaskId)
    requires r2 != r
    ensures Accepted(ApplyBody(sv, r, body), id, r2) == Accepted(sv, id, r2)
    ensures Live(ApplyBody(sv, r, body), id) == Live(sv, id)
  {
    BodyAccepted(sv, r, body, id, r2);
  }

  // ---------------------------------------------------------------- lost PUTs

  /** Losing this PUT drops records of a job that will report again. */
  ghost predicate DropsRecords(sv: Server, w: Runner) {
    && w.phase.Sending?
    && exists k :: 0 <= k < |w.phase.body| && w.phase.body[k].id in w.pool.running && Live(sv, w.phase.body[k].id) &&
         BodyRecords(w.phase.body, w.phase.body[k].id) != []
  }

  ghost predicate OrderlyEvent(s: System, e: Event) {
    HarmlessEvent(s, e) && (e.LosePut? && e.r in s.runners ==> !DropsRecords(s.server, s.runners[e.r]))
  }

  ghost predicate OrderlyRun(s: System, es: seq<Event>)
    requires IsRun(s, es)
    decreases |es|
  {
    es == [] || (OrderlyEvent(s, es[0]) && OrderlyRun(Step(s, es[0]), es[1..]))
  }

  lemma LoseKeepsLog(sv: Server, r: RunnerId, w: Runner, id: TaskId)
    requires LogOk(sv, r, w, id) && w.phase.Sending? && !DropsRecords(sv, w)
    ensures LogOk(sv, r, w.(phase := Sent), id)
  {
    if id in w.pool.running && !InBody(w.phase, id) {
      BodyRecordsNone(w.phase.body, id);
    }
  }

  lemma JobLogKeepsLog(sv: Server, r: RunnerId, w: Runner, job: TaskId, record: Record, id: TaskId)
    requires LogOk(sv, r, w, id) && job in w.starts
    ensures LogOk(sv, r, Logging(w, job, record), id)
  {
    var w' := Logging(w, job, record);
    LoggedJob(w, job, record, id);
    if id == job && id in w.pool.running {
      Associative(At(w.sent, id), w.pool.running[id].pending, [record]);
    }
  }

  lemma LoggedJob(w: Runner, job: TaskId, record: Record, id: TaskId)
    ensures var w', more := Logging(w, job, record), if id == job then [record] else [];
            && w'.starts == w.starts && w'.sent == w.sent && w'.phase == w.phase
            && At(w'.logged, id) == At(w.logged, id) + more
            && w'.pool.running.Keys == w.pool.running.Keys
            && (id in w.pool.running ==> w'.pool.running[id].pending == w.pool.running[id].pending + more)
  {
    assert At(w.logged, id) + [] == At(w.logged, id);
    assert id in w.pool.running ==> w.pool.running[id].pending + [] == w.pool.running[id].pending;
    assert job in w.pool.running ==> w.pool.running.Keys + {job} == w.pool.running.Keys;
  }

  /** A step that leaves jobs, records and PUTs alone, or only sets a job's status. */
  lemma QuietStepKeepsLog(sv: Server, r: RunnerId, w: Runner, w': Runner, id: TaskId)
    requires LogOk(sv, r, w, id) && !w.phase.Sending? && !w'.phase.Sending?
    requires w'.starts == w.starts && w'.logged == w.logged && w'.sent == w.sent
    requires w'.pool.running.Keys == w.pool.running.Keys
    requires id in w.pool.running ==> w'.pool.running[id].pending == w.pool.running[id].pending
    ensures LogOk(sv, r, w', id)
  {
  }

  lemma RunnerStepKeepsLog(s: System, e: Event, id: TaskId)
    requires Enabled(s, e) && !IsServerEvent(e) && !e.Join? && !e.DeliverPut?
    requires RunnerBase(s.server.tasks, e.r, s.runners[e.r]) && LogOk(s.server, e.r, s.runners[e.r], id)
    requires e.LosePut? ==> !DropsRecords(s.server, s.runners[e.r])
    ensures LogOk(s.server, e.r, RunnerStep(s.oneOff, s.runners[e.r], e), id)
  {
    var w := s.runners[e.r];
    match e
    case Tick(r) => TickKeepsLog(s.server, r, w, id, s.oneOff);
    case StartPut(r, body) => ReportKeepsLog(s.server, r, w, body, id);
    case Receive(r) => ReceiveKeepsLog(s.server, r, w, id, s.oneOff);
    case LosePut(r) => LoseKeepsLog(s.server, r, w, id);
    case JobLog(r, job, record) => JobLogKeepsLog(s.server, r, w, job, record, id);
    case Answer(r, resp) => QuietStepKeepsLog(s.server, r, w, w.(phase := Receiving(resp)), id);
    case FailGet(r) => QuietStepKeepsLog(s.server, r, w, w.(phase := Idle), id);
    case _ =>
  }

  /** One runner's log of one job over any step that drops none of its records. */
  lemma StepKeepsLogOf(s: System, e: Event, r: RunnerId, id: TaskId)
    requires Base(s) && Enabled(s, e) && r in s.runners && LogOk(s.server, r, s.runners[r], id)
    requires e.LosePut? && e.r == r ==> !DropsRecords(s.server, s.runners[r])
    ensures r in Step(s, e).runners && LogOk(Step(s, e).server, r, Step(s, e).runners[r], id)
  {
    if IsServerEvent(e) {
      ServerStepKeepsLog(s, e, r, id);
    } else if r != e.r {
      if e.DeliverPut? {
        DeliverKeepsOthers(s.server, e.r, s.runners[e.r].phase.body, r, id);
      }
    } else {
      assert RunnerBase(s.server.tasks, r, s.runners[r]);
      if e.DeliverPut? {
        DeliverKeepsLog(s.server, r, s.runners[r], id);
      } else {
        RunnerStepKeepsLog(s, e, id);
      }
    }
  }

  lemma StepKeepsStrangers(s: System, e: Event)
    requires NoStrangers(s) && Enabled(s, e)
    ensures NoStrangers(Step(s, e))
    ensures e.Join? ==> forall id :: LogOk(Step(s, e).server, e.r, FRESH_RUNNER, id)
  {
    var s' := Step(s, e);
    forall r, id | r !in s'.runners && r != UNASSIGNED ensures Accepted(s'.server, id, r) == [] {
      assert Accepted(s.server, id, r) == [];
      if IsServerEvent(e) {
        ServerStepAccepted(s.server, e, id, r);
      } else if e.DeliverPut? {
        DeliverKeepsOthers(s.server, e.r, s.runners[e.r].phase.body, r, id);
      }
    }
    if e.Join? {
      forall id ensures LogOk(s.server, e.r, FRESH_RUNNER, id) {
        assert Accepted(s.server, id, e.r) == [];
      }
    }
  }

  lemma StepKeepsLog(s: System, e: Event)
    requires Base(s) && LogInv(s) && Enabled(s, e)
    requires e.LosePut? ==> !DropsRecords(s.server, s.runners[e.r])
    ensures LogInv(Step(s, e))
  {
    var s' := Step(s, e);
    StepKeepsStrangers(s, e);
    forall r, id | r in s'.runners ensures LogOk(s'.server, r, s'.runners[r], id) {
      if r in s.runners {
        assert LogOk(s.server, r, s.runners[r], id);
        StepKeepsLogOf(s, e, r, id);
      } else {
        assert LogOk(s'.server, e.r, FRESH_RUNNER, id);
      }
    }
  }

  lemma {:induction false} RunKeepsLog(s: System, es: seq<Event>)
    requires Inv(s) && LogInv(s) && IsRun(s, es) && OrderlyRun(s, es)
    ensures Inv(Exec(s, es)) && LogInv(Exec(s, es))
    decreases |es|
  {
    if es != [] {
      InvIsBase(s);
      StepKeepsInv(s, es[0]);
      StepKeepsLog(s, es[0]);
      RunKeepsLog(Step(s, es[0]), es[1..]);
    }
  }

  // ---------------------------------------------------------------- the theorems

  lemma PrefixOfConcat(a: seq<Line>, b: seq<Line>, id: TaskId, r: RunnerId)
    ensures RecordsOf(a, id, r) <= RecordsOf(a + b, id, r)
  {
    RecordsOfConcat(a, b, id, r);
  }

  /** What the output table holds of a job's records, and what the server has accepted of
      them, is at every point of every orderly run a prefix of what the job logged. */
  lemma StoredIsPrefixOfLogged(oneOff: bool, es: seq<Event>, r: RunnerId, id: TaskId)
    requires IsRun(Init(oneOff), es) && OrderlyRun(Init(oneOff), es)
    requires r in Exec(Init(oneOff), es).runners
    ensures var s := Exec(Init(oneOff), es);
            && RecordsOf(s.server.stored, id, r) <= Accepted(s.server, id, r)
            && Accepted(s.server, id, r) <= At(s.runners[r].logged, id)
  {
    var s := Exec(Init(oneOff), es);
    RunKeepsLog(Init(oneOff), es);
    assert LogOk(s.server, r, s.runners[r], id);
    PrefixOfConcat(s.server.stored, s.server.channel, id, r);
  }

  /** While a job is in the list of running jobs nothing it logged is lost: what was sent and
      what is pending are together what was logged, and all that was sent has been accepted
      or is in flight. */
  lemma NothingLostWhileRunning(oneOff: bool, es: seq<Event>, r: RunnerId, id: TaskId)
    requires IsRun(Init(oneOff), es) && OrderlyRun(Init(oneOff), es)
    requires r in Exec(Init(oneOff), es).runners && id in Exec(Init(oneOff), es).runners[r].pool.running
    ensures var s := Exec(Init(oneOff), es);
            var w := s.runners[r];
            && At(w.sent, id) + w.pool.running[id].pending == At(w.logged, id)
            && (Live(s.server, id) ==>
                 Accepted(s.server, id, r) + InFlight(w, id) + w.pool.running[id].pending == At(w.logged, id))
  {
    var s := Exec(Init(oneOff), es);
    RunKeepsLog(Init(oneOff), es);
    assert LogOk(s.server, r, s.runners[r], id);
  }
}
