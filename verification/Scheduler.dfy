/** The server's task scheduler as a step system: a queue examined once per tick, two indexes
    of running tasks, and a locker that owns the indexes and is fed through a channel. Each
    select case and each locker message is one step; messages that the locker has not handled are
    in the mailbox. */
module Scheduler {
  import opened TaskStatus

  /** A queued or running task: its own template id, and the id of the template loaded for it. */
  datatype TaskRunner = TaskRunner(id: int, project: int, taskTemplate: int, template: int)

  /** The configured limits. A project without an entry is one whose lookup fails. */
  datatype Config = Config(maxParallel: int, projectCaps: map<int, int>)

  datatype Pool = Pool(queue: seq<TaskRunner>, active: map<int, map<int, TaskRunner>>, running: map<int, TaskRunner>)

  predicate Blocks(cfg: Config, p: Pool, t: TaskRunner) {
    || (cfg.maxParallel > 0 && |p.running| >= cfg.maxParallel)
    || (t.project in p.active && |p.active[t.project]| > 0 &&
          (|| (exists id :: id in p.active[t.project] && p.active[t.project][id].template == t.taskTemplate)
           || (t.project in cfg.projectCaps && cfg.projectCaps[t.project] > 0 &&
               |p.active[t.project]| >= cfg.projectCaps[t.project])))
  }

  function Bucket(p: Pool, project: int): map<int, TaskRunner> {
    if project in p.active then p.active[project] else map[]
  }

  /** The locker's answer to a lock message that is not refused. */
  function Insert(p: Pool, t: TaskRunner): Pool {
    p.(active := p.active[t.project := Bucket(p, t.project)[t.id := t]], running := p.running[t.id := t])
  }

  /** The locker's answer to an unlock message; an emptied bucket is deleted. */
  function Remove(p: Pool, t: TaskRunner): Pool {
    var left := Bucket(p, t.project) - {t.id};
    var active :=
      if t.id in Bucket(p, t.project) then
        if |left| == 0 then p.active - {t.project} else p.active[t.project := left]
      else p.active;
    p.(active := active, running := p.running - {t.id})
  }

  /** What a tick does with the head of the queue. */
  datatype Outcome = Nothing | Dropped(t: TaskRunner) | Rotated(t: TaskRunner) | Started(t: TaskRunner)

  function StatusOf(status: map<int, Status>, id: int): Status {
    if id in status then status[id] else Waiting
  }

  function Examine(cfg: Config, p: Pool, status: map<int, Status>): Outcome {
    if p.queue == [] then Nothing
    else if StatusOf(status, p.queue[0].id) == Error then Dropped(p.queue[0])
    else if Blocks(cfg, p, p.queue[0]) then Rotated(p.queue[0])
    else Started(p.queue[0])
  }

  function AfterTick(p: Pool, outcome: Outcome): Pool {
    if p.queue == [] then p
    else p.(queue := p.queue[1..] + (if outcome.Rotated? then [outcome.t] else []))
  }

  // ---------------------------------------------------------------- the system

  datatype Message = Lock(t: TaskRunner) | Unlock(t: TaskRunner)

  /** The pool, the messages on their way, the task statuses, and the history. */
  datatype State = State(
    pool: Pool,
    mailbox: seq<Message>,
    status: map<int, Status>,
    panicked: bool,
    registered: map<int, TaskRunner>,
    dropped: set<int>,
    finished: set<int>,
    released: set<int>)

  datatype Event =
    | Register(t: TaskRunner)
    | SetStatus(id: int, status: Status)
    | Tick
    | Handle
    | Finish(t: TaskRunner)

  predicate IsStarted(s: State, t: TaskRunner) {
    (s.mailbox != [] && s.mailbox[0] == Lock(t)) || (t.id in s.pool.running && s.pool.running[t.id] == t)
  }

  /** The channel to the locker has no buffer: the first message of the mailbox is being handled,
      and the others wait to be sent. The pool's loop is stuck while a lock message waits. */
  predicate LoopIsFree(s: State) {
    forall i :: 0 < i < |s.mailbox| ==> s.mailbox[i].Unlock?
  }

  /** A task is registered once, with the template it names; it finishes once, after its start. */
  predicate Enabled(s: State, e: Event) {
    && !s.panicked
    && match e
       case Register(t) => LoopIsFree(s) && t.id !in s.registered && t.template == t.taskTemplate
       case SetStatus(_, _) => true
       case Tick => LoopIsFree(s)
       case Handle => s.mailbox != []
       case Finish(t) => IsStarted(s, t) && t.id !in s.finished
  }

  function TickStep(cfg: Config, s: State): State {
    var outcome := Examine(cfg, s.pool, s.status);
    s.(pool := AfterTick(s.pool, outcome),
       mailbox := s.mailbox + (if outcome.Started? then [Lock(outcome.t)] else []),
       dropped := s.dropped + (if outcome.Dropped? then {outcome.t.id} else {}))
  }

  function HandleStep(cfg: Config, s: State): State
    requires s.mailbox != []
  {
    var t := s.mailbox[0].t;
    if s.mailbox[0].Lock? then
      if Blocks(cfg, s.pool, t) then s.(panicked := true)
      else s.(pool := Insert(s.pool, t), mailbox := s.mailbox[1..])
    else
      s.(pool := Remove(s.pool, t), mailbox := s.mailbox[1..],
         released := s.released + (if t.id in s.pool.running then {t.id} else {}))
  }

  function Step(cfg: Config, s: State, e: Event): State
    requires Enabled(s, e)
  {
    match e
    case Register(t) =>
      s.(pool := s.pool.(queue := s.pool.queue + [t]), registered := s.registered[t.id := t])
    case SetStatus(id, status) => s.(status := s.status[id := status])
    case Tick => TickStep(cfg, s)
    case Handle => HandleStep(cfg, s)
    case Finish(t) => s.(mailbox := s.mailbox + [Unlock(t)], finished := s.finished + {t.id})
  }

  predicate IsRun(cfg: Config, s: State, es: seq<Event>)
    decreases |es|
  {
    es == [] || (Enabled(s, es[0]) && IsRun(cfg, Step(cfg, s, es[0]), es[1..]))
  }

  function Exec(cfg: Config, s: State, es: seq<Event>): State
    requires IsRun(cfg, s, es)
    decreases |es|
  {
    if es == [] then s else Exec(cfg, Step(cfg, s, es[0]), es[1..])
  }

  const INIT := State(Pool([], map[], map[]), [], map[], false, map[], {}, {}, {})
}
