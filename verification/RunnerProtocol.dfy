/** The polling protocol between the server and its remote runners, as a step system.

    A runner repeats PUT (progress), then GET (new and current jobs), one exchange at a time;
    beside it a dequeue loop starts jobs, and the jobs themselves log and report a status. The
    server side of a task changes status at any time. PUTs can be lost and GETs can fail. */
module RunnerProtocol {
  import opened TaskStatus

  type TaskId = int
  type RunnerId = int

  /** The zero value of a task's runner field. */
  const UNASSIGNED: RunnerId := 0

  // ---------------------------------------------------------------- server

  /** Where a task is: in the pool's queue, taken off it while its lock message travels, in
      the list of running tasks, or released again. */
  datatype Place = Queued | Transit | Listed | Released

  datatype Task = Task(place: Place, status: Status, begun: bool, runner: RunnerId)

  datatype Record = Record(time: int, message: string)

  /** A record on its way to, or in, the output table. `origin` is the runner it came from,
      or UNASSIGNED for the server's own messages. */
  datatype Line = Line(task: TaskId, origin: RunnerId, record: Record)

  datatype Server = Server(tasks: map<TaskId, Task>, channel: seq<Line>, stored: seq<Line>)

  /** The tasks the pool's `GetTask` finds. */
  predicate Visible(t: Task) {
    t.place == Queued || t.place == Listed
  }

  // ---------------------------------------------------------------- messages

  datatype Progress = Progress(id: TaskId, status: Status, records: seq<Record>)
  datatype JobState = JobState(id: TaskId, status: Status)
  datatype Response = Response(currentJobs: seq<JobState>, newJobs: seq<TaskId>)

  // ---------------------------------------------------------------- runner

  /** A running job; `ended` once its goroutine is over. */
  datatype Job = Job(status: Status, pending: seq<Record>, ended: bool)
  datatype QueuedJob = QueuedJob(id: TaskId, status: Status)

  /** What the runner's job pool holds. */
  datatype Pool = Pool(queue: seq<QueuedJob>, running: map<TaskId, Job>)

  /** The exchange in progress; the compare-and-swap guard admits one at a time. */
  datatype Phase = Idle | Sending(body: seq<Progress>) | Sent | Receiving(response: Response)

  /** A runner with its history: the jobs it started, in order, and per job the records
      logged and the records put into a PUT. */
  datatype Runner = Runner(
    pool: Pool,
    phase: Phase,
    exited: bool,
    starts: seq<TaskId>,
    logged: map<TaskId, seq<Record>>,
    sent: map<TaskId, seq<Record>>)

  function At(m: map<TaskId, seq<Record>>, id: TaskId): seq<Record> {
    if id in m then m[id] else []
  }

  // ---------------------------------------------------------------- runner-side operations

  /** One tick of the dequeue loop, and the job it starts, if any. */
  function Dequeue(p: Pool): (Pool, seq<TaskId>) {
    if p.queue == [] then (p, [])
    else
      var head := p.queue[0];
      if head.status == Error then (p.(queue := p.queue[1..]), [])
      else (Pool(p.queue[1..], p.running[head.id := Job(BLANK, [], false)]), [head.id])
  }

  /** `body` reports every running job once, in whatever order the map is ranged over. */
  ghost predicate IsReport(body: seq<Progress>, running: map<TaskId, Job>) {
    && (forall i, j :: 0 <= i < j < |body| ==> body[i].id != body[j].id)
    && (forall i :: 0 <= i < |body| ==>
          body[i].id in running && body[i] ==
              Progress(body[i].id, running[body[i].id].status, running[body[i].id].pending))
    && (forall id :: id in running ==> exists i :: 0 <= i < |body| && body[i].id == id)
  }

  /** The running jobs after a report: finished ones are forgotten, the others have no
      pending records. */
  function AfterReport(running: map<TaskId, Job>): map<TaskId, Job> {
    map id | id in running && !IsFinished(running[id].status) :: running[id].(pending := [])
  }

  /** Statuses of current jobs overwrite the runner's own. */
  function Overwrite(running: map<TaskId, Job>, currentJobs: seq<JobState>): map<TaskId, Job> {
    if currentJobs == [] then running
    else
      var before := Overwrite(running, currentJobs[..|currentJobs| - 1]);
      var last := currentJobs[|currentJobs| - 1];
      if last.id in before then before[last.id := before[last.id].(status := last.status)] else before
  }

  predicate InQueue(queue: seq<QueuedJob>, id: TaskId) {
    exists i :: 0 <= i < |queue| && queue[i].id == id
  }

  /** New jobs join the queue unless the runner already has them. */
  function Enqueue(queue: seq<QueuedJob>, running: map<TaskId, Job>, newJobs: seq<TaskId>): seq<QueuedJob> {
    if newJobs == [] then queue
    else
      var before := Enqueue(queue, running, newJobs[..|newJobs| - 1]);
      var id := newJobs[|newJobs| - 1];
      if id in running || InQueue(before, id) then before else before + [QueuedJob(id, BLANK)]
  }

  /** A one-off runner takes no new jobs while it has any. */
  function AfterResponse(oneOff: bool, p: Pool, r: Response): Pool {
    var running := Overwrite(p.running, r.currentJobs);
    if oneOff && (|p.queue| > 0 || |running| > 0) then p.(running := running)
    else Pool(Enqueue(p.queue, running, r.newJobs), running)
  }

  /** A one-off runner ends when it has jobs and all of them are finished. */
  predicate MustExit(oneOff: bool, p: Pool) {
    oneOff && |p.running| > 0 && forall id :: id in p.running ==> IsFinished(p.running[id].status)
  }

  // ---------------------------------------------------------------- server-side operations

  function Lines(id: TaskId, origin: RunnerId, records: seq<Record>): seq<Line> {
    seq(|records|, i requires 0 <= i < |records| => Line(id, origin, records[i]))
  }

  /** One entry of a PUT: the records go to the logger channel, then the status is set; an
      entry for a task the pool does not find is dropped. */
  function ApplyEntry(sv: Server, r: RunnerId, p: Progress): Server {
    if p.id in sv.tasks && Visible(sv.tasks[p.id]) then
      var t := sv.tasks[p.id];
      sv.(tasks := sv.tasks[p.id := t.(status := NextStatus(t.status, p.status))],
          channel := sv.channel + Lines(p.id, r, p.records))
    else sv
  }

  function ApplyBody(sv: Server, r: RunnerId, body: seq<Progress>): Server {
    if body == [] then sv
    else ApplyEntry(ApplyBody(sv, r, body[..|body| - 1]), r, body[|body| - 1])
  }

  predicate Offered(tasks: map<TaskId, Task>, r: RunnerId, id: TaskId) {
    id in tasks && tasks[id].place == Listed && tasks[id].runner == r && tasks[id].status == Starting
  }

  /** `resp` answers runner `r`: the starting jobs as new ones, the others as current ones. */
  ghost predicate IsResponse(resp: Response, tasks: map<TaskId, Task>, r: RunnerId) {
    && (forall i :: 0 <= i < |resp.newJobs| ==> Offered(tasks, r, resp.newJobs[i]))
    && (forall id :: Offered(tasks, r, id) ==> id in resp.newJobs)
    && (forall i :: 0 <= i < |resp.currentJobs| ==>
          var c := resp.currentJobs[i];
          c.id in tasks && tasks[c.id].place == Listed && tasks[c.id].runner == r &&
          tasks[c.id].status == c.status && c.status != Starting)
    && (forall id ::
          (id in tasks && tasks[id].place == Listed && tasks[id].runner == r && tasks[id].status != Starting) ==>
          exists i :: 0 <= i < |resp.currentJobs| && resp.currentJobs[i].id == id)
  }

  // ---------------------------------------------------------------- the system

  datatype System = System(server: Server, runners: map<RunnerId, Runner>, oneOff: bool)

  datatype Event =
    // the server's pool, its task runners and its logger
    | Register(id: TaskId)
    | Dispatch(id: TaskId)
    | Lock(id: TaskId)
    | Begin(id: TaskId)
    | Assign(id: TaskId, r: RunnerId)
    | SetStatus(id: TaskId, status: Status)
    | Release(id: TaskId)
    | ServerLog(id: TaskId, record: Record)
    | StoreLine
    // runner r
    | Join(r: RunnerId)
    | Tick(r: RunnerId)
    | JobStatus(r: RunnerId, id: TaskId, status: Status)
    | JobEnd(r: RunnerId, id: TaskId, status: Status)
    | JobLog(r: RunnerId, id: TaskId, record: Record)
    | StartPut(r: RunnerId, body: seq<Progress>)
    | DeliverPut(r: RunnerId)
    | LosePut(r: RunnerId)
    | Exit(r: RunnerId)
    | Answer(r: RunnerId, response: Response)
    | FailGet(r: RunnerId)
    | Receive(r: RunnerId)

  predicate Alive(s: System, r: RunnerId) {
    r in s.runners && !s.runners[r].exited
  }

  /** The job's goroutine has not ended. A job that the runner has forgotten reports to nobody, but
      output of any job that was started may still be logged. */
  predicate AtWork(s: System, r: RunnerId, id: TaskId) {
    Alive(s, r) && id in s.runners[r].pool.running && !s.runners[r].pool.running[id].ended
  }

  ghost predicate Enabled(s: System, e: Event) {
    var tasks := s.server.tasks;
    match e
    case Register(id) => id !in tasks
    case Dispatch(id) => id in tasks && tasks[id].place == Queued
    case Lock(id) => id in tasks && tasks[id].place == Transit
    case Begin(id) => id in tasks && (tasks[id].place == Transit || tasks[id].place == Listed) && !tasks[id].begun
    case Assign(id, r) =>
      id in tasks && tasks[id].place == Listed && tasks[id].begun && tasks[id].runner == UNASSIGNED && r in s.runners
    case SetStatus(id, status) => id in tasks && status != Starting
    case Release(id) => id in tasks && tasks[id].place == Listed
    case ServerLog(id, _) => id in tasks
    case StoreLine => s.server.channel != []
    case Join(r) => r !in s.runners && r != UNASSIGNED
    case Tick(r) => Alive(s, r)
    case JobStatus(r, id, status) => AtWork(s, r, id) && !IsFinished(status) && status != Starting
    case JobEnd(r, id, status) => AtWork(s, r, id) && IsFinished(status)
    case JobLog(r, id, _) => Alive(s, r) && id in s.runners[r].starts
    case StartPut(r, body) => Alive(s, r) && s.runners[r].phase.Idle? && IsReport(body, s.runners[r].pool.running)
    case DeliverPut(r) => Alive(s, r) && s.runners[r].phase.Sending?
    case LosePut(r) => Alive(s, r) && s.runners[r].phase.Sending?
    case Exit(r) => Alive(s, r) && s.runners[r].phase.Sent? && MustExit(s.oneOff, s.runners[r].pool)
    case Answer(r, resp) =>
      Alive(s, r) && s.runners[r].phase.Sent? && !MustExit(s.oneOff, s.runners[r].pool) && IsResponse(resp, tasks, r)
    case FailGet(r) =>
      Alive(s, r) && ((s.runners[r].phase.Sent? && !MustExit(s.oneOff, s.runners[r].pool)) ||
          s.runners[r].phase.Receiving?)
    case Receive(r) => Alive(s, r) && s.runners[r].phase.Receiving?
  }

  function WithTask(sv: Server, id: TaskId, t: Task): Server {
    sv.(tasks := sv.tasks[id := t])
  }

  function Report(w: Runner, body: seq<Progress>): Runner {
    w.(pool := w.pool.(running := AfterReport(w.pool.running)),
       phase := Sending(body),
       sent := map id | id in w.sent.Keys + w.pool.running.Keys ::
                 At(w.sent, id) + (if id in w.pool.running then w.pool.running[id].pending else []))
  }

  function WithJob(w: Runner, id: TaskId, job: Job): Runner {
    w.(pool := w.pool.(running := w.pool.running[id := job]))
  }

  /** The end of a job's goroutine: it sets a finished status unless there is one already. */
  function Ended(job: Job, status: Status): Job {
    job.(status := if IsFinished(job.status) then job.status else status, ended := true)
  }

  /** A record logged by a job goes to the job's pending records; a job the runner has
      forgotten writes to a record list nobody reads. */
  function Logging(w: Runner, id: TaskId, record: Record): Runner {
    var w' := w.(logged := w.logged[id := At(w.logged, id) + [record]]);
    if id in w.pool.running then
      var job := w.pool.running[id];
      WithJob(w', id, job.(pending := job.pending + [record]))
    else w'
  }

  function ServerStep(sv: Server, e: Event): Server {
    match e
    case Register(id) => WithTask(sv, id, Task(Queued, Waiting, false, UNASSIGNED))
    case Dispatch(id) => if id in sv.tasks then WithTask(sv, id, sv.tasks[id].(place := Transit)) else sv
    case Lock(id) => if id in sv.tasks then WithTask(sv, id, sv.tasks[id].(place := Listed)) else sv
    case Begin(id) =>
      if id in sv.tasks then
        var t := sv.tasks[id];
        var target := if t.status == Stopping then Stopped else Starting;
        WithTask(sv, id, t.(begun := true, status := NextStatus(t.status, target)))
      else sv
    case Assign(id, r) => if id in sv.tasks then WithTask(sv, id, sv.tasks[id].(runner := r)) else sv
    case SetStatus(id, status) =>
      if id in sv.tasks then WithTask(sv, id, sv.tasks[id].(status := NextStatus(sv.tasks[id].status, status))) else sv
    case Release(id) => if id in sv.tasks then WithTask(sv, id, sv.tasks[id].(place := Released)) else sv
    case ServerLog(id, record) => sv.(channel := sv.channel + [Line(id, UNASSIGNED, record)])
    case StoreLine =>
      if sv.channel != [] then sv.(stored := sv.stored + [sv.channel[0]], channel := sv.channel[1..]) else sv
    case _ => sv
  }

  /** What an event does to runner `w`, for the events that touch only that runner. */
  function RunnerStep(oneOff: bool, w: Runner, e: Event): Runner {
    match e
    case Tick(_) =>
      var (pool, started) := Dequeue(w.pool);
      w.(pool := pool, starts := w.starts + started)
    case JobStatus(_, id, status) =>
      if id in w.pool.running then WithJob(w, id, w.pool.running[id].(status := status)) else w
    case JobEnd(_, id, status) =>
      if id in w.pool.running then WithJob(w, id, Ended(w.pool.running[id], status)) else w
    case JobLog(_, id, record) => Logging(w, id, record)
    case StartPut(_, body) => Report(w, body)
    case DeliverPut(_) => w.(phase := Sent)
    case LosePut(_) => w.(phase := Sent)
    case Exit(_) => w.(exited := true)
    case Answer(_, resp) => w.(phase := Receiving(resp))
    case FailGet(_) => w.(phase := Idle)
    case Receive(_) =>
      if w.phase.Receiving? then w.(pool := AfterResponse(oneOff, w.pool, w.phase.response), phase := Idle) else w
    case _ => w
  }

  predicate IsServerEvent(e: Event) {
    e.Register? || e.Dispatch? || e.Lock? || e.Begin? || e.Assign? || e.SetStatus? || e.Release? || e.ServerLog? ||
        e.StoreLine?
  }

  const FRESH_RUNNER := Runner(Pool([], map[]), Idle, false, [], map[], map[])

  ghost function Step(s: System, e: Event): System
    requires Enabled(s, e)
  {
    if IsServerEvent(e) then s.(server := ServerStep(s.server, e))
    else if e.Join? then s.(runners := s.runners[e.r := FRESH_RUNNER])
    else
      var w := s.runners[e.r];
      s.(runners := s.runners[e.r := RunnerStep(s.oneOff, w, e)],
         server := if e.DeliverPut? then ApplyBody(s.server, e.r, w.phase.body) else s.server)
  }

  ghost predicate IsRun(s: System, es: seq<Event>)
    decreases |es|
  {
    es == [] || (Enabled(s, es[0]) && IsRun(Step(s, es[0]), es[1..]))
  }

  ghost function Exec(s: System, es: seq<Event>): System
    requires IsRun(s, es)
    decreases |es|
  {
    if es == [] then s else Exec(Step(s, es[0]), es[1..])
  }

  lemma RunCons(s: System, e: Event, rest: seq<Event>)
    requires Enabled(s, e) && IsRun(Step(s, e), rest)
    ensures IsRun(s, [e] + rest) && Exec(s, [e] + rest) == Exec(Step(s, e), rest)
  {
    assert ([e] + rest)[1..] == rest;
  }

  lemma {:induction false} RunConcat(s: System, a: seq<Event>, b: seq<Event>)
    requires IsRun(s, a) && IsRun(Exec(s, a), b)
    ensures IsRun(s, a + b) && Exec(s, a + b) == Exec(Exec(s, a), b)
    decreases |a|
  {
    if a == [] {
      assert a + b == b;
    } else {
      assert (a + b)[1..] == a[1..] + b;
      RunConcat(Step(s, a[0]), a[1..], b);
    }
  }

  function Init(oneOff: bool): System {
    System(Server(map[], [], []), map[], oneOff)
  }
}
