/** Safety of the scheduler over whole runs: the limits hold in every state, the two indexes
    agree, and no task is lost or in two places. */
module SchedulerSafety {
  import opened Collections
  import opened TaskStatus
  import opened Scheduler

  // ---------------------------------------------------------------- counting places

  function InQueue(q: seq<TaskRunner>, id: int): nat {
    if q == [] then 0 else (if q[0].id == id then 1 else 0) + InQueue(q[1..], id)
  }

  function InTransit(mailbox: seq<Message>, id: int): nat {
    if mailbox == [] then 0
    else (if mailbox[0].Lock? && mailbox[0].t.id == id then 1 else 0) + InTransit(mailbox[1..], id)
  }

  lemma {:induction false} InQueueConcat(a: seq<TaskRunner>, b: seq<TaskRunner>, id: int)
    ensures InQueue(a + b, id) == InQueue(a, id) + InQueue(b, id)
  {
    if a == [] {
      assert a + b == b;
    } else {
      assert (a + b)[1..] == a[1..] + b;
      InQueueConcat(a[1..], b, id);
    }
  }

  lemma {:induction false} InTransitConcat(a: seq<Message>, b: seq<Message>, id: int)
    ensures InTransit(a + b, id) == InTransit(a, id) + InTransit(b, id)
  {
    if a == [] {
      assert a + b == b;
    } else {
      assert (a + b)[1..] == a[1..] + b;
      InTransitConcat(a[1..], b, id);
    }
  }

  lemma {:induction false} InQueueMember(q: seq<TaskRunner>, i: int)
    requires 0 <= i < |q|
    ensures InQueue(q, q[i].id) >= 1
    ensures forall j :: 0 <= j < |q| && j != i && q[j].id == q[i].id ==> InQueue(q, q[i].id) >= 2
  {
    forall j | 0 <= j < |q| && j != i && q[j].id == q[i].id ensures InQueue(q, q[i].id) >= 2 {
      var lo, hi := if i < j then i else j, if i < j then j else i;
      assert q == q[..hi] + q[hi..] && q[..hi] == q[..lo] + q[lo..hi];
      InQueueConcat(q[..hi], q[hi..], q[i].id);
      InQueueConcat(q[..lo], q[lo..hi], q[i].id);
    }
    assert q == q[..i] + q[i..];
    InQueueConcat(q[..i], q[i..], q[i].id);
  }

  function One(b: bool): nat {
    if b then 1 else 0
  }

  /** In how many places a task is: queued, in transit to the locker, running, dropped as
      failed, or released. */
  function Places(s: State, id: int): nat {
    InQueue(s.pool.queue, id) + InTransit(s.mailbox, id) + One(id in s.pool.running) + One(id in s.dropped) +
        One(id in s.released)
  }

  ghost predicate Conserved(s: State) {
    forall id :: Places(s, id) == One(id in s.registered)
  }

  // ---------------------------------------------------------------- indexes and limits

  type Index = map<int, map<int, TaskRunner>>
  type Table = map<int, TaskRunner>

  predicate Known(registered: Table, t: TaskRunner) {
    t.id in registered && registered[t.id] == t
  }

  /** A task id always means the task registered under it, with the template it names. */
  ghost predicate Registry(registered: Table, queue: seq<TaskRunner>, mailbox: seq<Message>, running: Table) {
    && (forall id :: id in registered ==>
         registered[id].id == id && registered[id].template == registered[id].taskTemplate)
    && (forall i :: 0 <= i < |queue| ==> Known(registered, queue[i]))
    && (forall i :: 0 <= i < |mailbox| ==> Known(registered, mailbox[i].t))
    && (forall id :: id in running ==> running[id].id == id && Known(registered, running[id]))
  }

  ghost predicate InItsBucket(active: Index, running: Table) {
    forall id :: id in running ==>
      running[id].id == id && running[id].project in active && id in active[running[id].project] &&
      active[running[id].project][id] == running[id]
  }

  ghost predicate NoEmptyBucket(active: Index) {
    forall project :: project in active ==> |active[project]| > 0
  }

  ghost predicate BucketRuns(running: Table, project: int, bucket: Table) {
    forall id :: id in bucket ==> id in running && running[id] == bucket[id] && running[id].project == project
  }

  ghost predicate BucketsRun(active: Index, running: Table) {
    forall project :: project in active ==> BucketRuns(running, project, active[project])
  }

  /** The running tasks are the disjoint union of the project buckets, none of them empty. */
  ghost predicate IndexesAgree(active: Index, running: Table) {
    InItsBucket(active, running) && NoEmptyBucket(active) && BucketsRun(active, running)
  }

  ghost predicate WithinCaps(cfg: Config, active: Index, running: Table) {
    && (cfg.maxParallel > 0 ==> |running| <= cfg.maxParallel)
    && (forall project :: project in active && project in cfg.projectCaps && cfg.projectCaps[project] > 0 ==>
          |active[project]| <= cfg.projectCaps[project])
  }

  /** No two running tasks share project and template. */
  ghost predicate OnePerTemplate(running: Table) {
    forall a, b :: a in running && b in running && a != b ==>
      running[a].project != running[b].project || running[a].taskTemplate != running[b].taskTemplate
  }

  ghost predicate PoolSafe(cfg: Config, active: Index, running: Table) {
    IndexesAgree(active, running) && WithinCaps(cfg, active, running) && OnePerTemplate(running)
  }

  ghost predicate Safe(cfg: Config, s: State) {
    Registry(s.registered, s.pool.queue, s.mailbox, s.pool.running) && Conserved(s) &&
        PoolSafe(cfg, s.pool.active, s.pool.running)
  }

  lemma InsertKeepsIndexes(p: Pool, t: TaskRunner)
    requires IndexesAgree(p.active, p.running) && t.id !in p.running
    ensures IndexesAgree(Insert(p, t).active, Insert(p, t).running)
  {
    var p' := Insert(p, t);
    var bucket := Bucket(p, t.project);
    assert BucketRuns(p.running, t.project, bucket);
    assert t.id in p'.active[t.project];
    forall project | project in p'.active ensures BucketRuns(p'.running, project, p'.active[project]) {
      if project in p.active {
        assert BucketRuns(p.running, project, p.active[project]);
      }
    }
  }

  lemma InsertKeepsLimits(cfg: Config, p: Pool, t: TaskRunner)
    requires PoolSafe(cfg, p.active, p.running)
    requires t.id !in p.running && !Blocks(cfg, p, t)
    requires forall id :: id in p.running ==> p.running[id].template == p.running[id].taskTemplate
    ensures WithinCaps(cfg, Insert(p, t).active, Insert(p, t).running) && OnePerTemplate(Insert(p, t).running)
  {
    assert t.id !in Bucket(p, t.project);
    forall a | a in p.running && p.running[a].project == t.project ensures p.running[a].taskTemplate != t.taskTemplate {
      assert a in p.active[t.project] && p.active[t.project][a] == p.running[a];
    }
  }

  /** A task is blocked exactly if the limits or the template exclusion would not hold with it. */
  lemma BlocksIff(cfg: Config, p: Pool, t: TaskRunner)
    requires PoolSafe(cfg, p.active, p.running) && t.id !in p.running
    requires forall id :: id in p.running ==> p.running[id].template == p.running[id].taskTemplate
    ensures Blocks(cfg, p, t) <==>
            !(WithinCaps(cfg, Insert(p, t).active, Insert(p, t).running) && OnePerTemplate(Insert(p, t).running))
  {
    if Blocks(cfg, p, t) {
      BlockedDoesNotFit(cfg, p, t);
    } else {
      InsertKeepsLimits(cfg, p, t);
    }
  }

  lemma BlockedDoesNotFit(cfg: Config, p: Pool, t: TaskRunner)
    requires PoolSafe(cfg, p.active, p.running) && t.id !in p.running && Blocks(cfg, p, t)
    requires forall id :: id in p.running ==> p.running[id].template == p.running[id].taskTemplate
    ensures !(WithinCaps(cfg, Insert(p, t).active, Insert(p, t).running) && OnePerTemplate(Insert(p, t).running))
  {
    var p' := Insert(p, t);
    assert t.id !in Bucket(p, t.project);
    if t.project in p.active {
      assert BucketRuns(p.running, t.project, p.active[t.project]);
      if id :| id in p.active[t.project] && p.active[t.project][id].template == t.taskTemplate {
        assert p'.running[id] == p.running[id] && p'.running[t.id] == t;
      }
      assert |p'.active[t.project]| == |p.active[t.project]| + 1;
    }
    assert |p'.running| == |p.running| + 1;
  }

  lemma OthersStayInBuckets(active: Index, left: Index, running: Table, t: TaskRunner)
    requires InItsBucket(active, running) && t.id in running
    requires forall id :: id in running && id != t.id ==>
               running[id].project in left && id in left[running[id].project] &&
               left[running[id].project][id] == active[running[id].project][id]
    ensures InItsBucket(left, running - {t.id})
  {
  }

  lemma BucketsStillRun(active: Index, left: Index, running: Table, t: TaskRunner)
    requires BucketsRun(active, running)
    requires forall project :: project in left ==>
               project in active && t.id !in left[project] &&
               forall id :: id in left[project] ==> id in active[project] && left[project][id] == active[project][id]
    ensures BucketsRun(left, running - {t.id})
  {
    forall project | project in left ensures BucketRuns(running - {t.id}, project, left[project]) {
      assert BucketRuns(running, project, active[project]);
    }
  }

  lemma RemoveLastKeepsIndexes(active: Index, running: Table, t: TaskRunner)
    requires IndexesAgree(active, running) && t.id in running && running[t.id] == t
    requires |active[t.project] - {t.id}| == 0
    ensures IndexesAgree(active - {t.project}, running - {t.id})
  {
    var left := active - {t.project};
    OnlyKey(active[t.project], t.id);
    OthersStayInBuckets(active, left, running, t);
    forall project | project in left ensures t.id !in left[project] {
      assert BucketRuns(running, project, active[project]);
    }
    BucketsStillRun(active, left, running, t);
  }

  lemma RemoveOneKeepsIndexes(active: Index, running: Table, t: TaskRunner)
    requires IndexesAgree(active, running) && t.id in running && running[t.id] == t
    requires |active[t.project] - {t.id}| > 0
    ensures IndexesAgree(active[t.project := active[t.project] - {t.id}], running - {t.id})
  {
    var left := active[t.project := active[t.project] - {t.id}];
    OthersStayInBuckets(active, left, running, t);
    forall project | project in left ensures t.id !in left[project] {
      assert BucketRuns(running, project, active[project]);
    }
    BucketsStillRun(active, left, running, t);
  }

  lemma RemoveKeepsIndexes(p: Pool, t: TaskRunner)
    requires IndexesAgree(p.active, p.running) && t.id in p.running && p.running[t.id] == t
    ensures IndexesAgree(Remove(p, t).active, Remove(p, t).running)
  {
    if |p.active[t.project] - {t.id}| == 0 {
      RemoveLastKeepsIndexes(p.active, p.running, t);
    } else {
      RemoveOneKeepsIndexes(p.active, p.running, t);
    }
  }

  lemma RemoveAbsent(p: Pool, t: TaskRunner)
    requires IndexesAgree(p.active, p.running) && t.id !in p.running
    ensures Remove(p, t) == p
  {
    assert t.id !in Bucket(p, t.project);
    assert p.running - {t.id} == p.running;
  }

  lemma FewerKeepLimits(cfg: Config, active: Index, left: Index, running: Table, rest: Table)
    requires WithinCaps(cfg, active, running) && OnePerTemplate(running)
    requires rest.Keys <= running.Keys && forall id :: id in rest ==> rest[id] == running[id]
    requires forall project :: project in left ==> project in active && left[project].Keys <= active[project].Keys
    ensures WithinCaps(cfg, left, rest) && OnePerTemplate(rest)
  {
    SubsetSize(rest.Keys, running.Keys);
    forall project | project in left ensures |left[project]| <= |active[project]| {
      SubsetSize(left[project].Keys, active[project].Keys);
    }
  }

  lemma RemoveShrinks(p: Pool, t: TaskRunner)
    ensures var p' := Remove(p, t);
            && p'.running.Keys <= p.running.Keys && (forall id :: id in p'.running ==> p'.running[id] == p.running[id])
            && forall project :: project in p'.active ==>
                 project in p.active && p'.active[project].Keys <= p.active[project].Keys
  {
  }

  lemma RemoveKeepsLimits(cfg: Config, p: Pool, t: TaskRunner)
    requires WithinCaps(cfg, p.active, p.running) && OnePerTemplate(p.running)
    ensures WithinCaps(cfg, Remove(p, t).active, Remove(p, t).running) && OnePerTemplate(Remove(p, t).running)
  {
    RemoveShrinks(p, t);
    FewerKeepLimits(cfg, p.active, Remove(p, t).active, p.running, Remove(p, t).running);
  }

  // ---------------------------------------------------------------- steps

  lemma RegisterKeepsPlaces(cfg: Config, s: State, t: TaskRunner, id: int)
    requires Enabled(s, Register(t))
    requires Places(s, id) == One(id in s.registered)
    ensures Places(Step(cfg, s, Register(t)), id) == One(id in s.registered || id == t.id)
  {
    InQueueConcat(s.pool.queue, [t], id);
  }

  lemma RegisterKeepsRegistry(registered: Table, queue: seq<TaskRunner>, mailbox: seq<Message>, running: Table,
      t: TaskRunner)
    requires Registry(registered, queue, mailbox, running) && t.id !in registered && t.template == t.taskTemplate
    ensures Registry(registered[t.id := t], queue + [t], mailbox, running)
  {
    var after := registered[t.id := t];
    assert forall u: TaskRunner :: Known(registered, u) ==> Known(after, u);
  }

  lemma RegisterKeepsSafe(cfg: Config, s: State, t: TaskRunner)
    requires Safe(cfg, s) && Enabled(s, Register(t))
    ensures Safe(cfg, Step(cfg, s, Register(t)))
  {
    var s' := Step(cfg, s, Register(t));
    forall id ensures Places(s', id) == One(id in s'.registered) {
      RegisterKeepsPlaces(cfg, s, t, id);
    }
    RegisterKeepsRegistry(s.registered, s.pool.queue, s.mailbox, s.pool.running, t);
  }

  lemma TickKeepsPlaces(cfg: Config, s: State, id: int)
    requires s.pool.queue != [] && Places(s, id) <= 1
    ensures Places(TickStep(cfg, s), id) == Places(s, id)
  {
    var s' := TickStep(cfg, s);
    var head, tail := s.pool.queue[0], s.pool.queue[1..];
    var outcome := Examine(cfg, s.pool, s.status);
    if outcome.Rotated? {
      InQueueConcat(tail, [head], id);
      assert s'.pool.queue == tail + [head] && s'.mailbox == s.mailbox;
    } else {
      assert s'.pool.queue == tail;
      if outcome.Started? {
        InTransitConcat(s.mailbox, [Lock(head)], id);
        assert s'.mailbox == s.mailbox + [Lock(head)];
      } else {
        assert s'.mailbox == s.mailbox;
      }
    }
  }

  lemma TickKeepsRegistry(cfg: Config, s: State)
    requires s.pool.queue != [] && Registry(s.registered, s.pool.queue, s.mailbox, s.pool.running)
    ensures var s' := TickStep(cfg, s); Registry(s'.registered, s'.pool.queue, s'.mailbox, s'.pool.running)
  {
    assert Known(s.registered, s.pool.queue[0]);
  }

  lemma TickKeepsSafe(cfg: Config, s: State)
    requires Safe(cfg, s)
    ensures Safe(cfg, TickStep(cfg, s))
  {
    var s' := TickStep(cfg, s);
    if s.pool.queue != [] {
      forall id ensures Places(s', id) == One(id in s'.registered) {
        TickKeepsPlaces(cfg, s, id);
      }
      TickKeepsRegistry(cfg, s);
    } else {
      assert s'.mailbox == s.mailbox && s' == s;
    }
  }

  lemma HandleKeepsPlaces(cfg: Config, s: State, id: int)
    requires s.mailbox != [] && Places(s, id) <= 1
    ensures Places(HandleStep(cfg, s), id) == Places(s, id)
  {
  }

  lemma LockKeepsSafe(cfg: Config, s: State, t: TaskRunner)
    requires Safe(cfg, s) && s.mailbox != [] && s.mailbox[0] == Lock(t) && !Blocks(cfg, s.pool, t)
    ensures PoolSafe(cfg, Insert(s.pool, t).active, Insert(s.pool, t).running)
    ensures var s' := HandleStep(cfg, s); Registry(s'.registered, s'.pool.queue, s'.mailbox, s'.pool.running)
  {
    assert Known(s.registered, t);
    assert Places(s, t.id) == One(t.id in s.registered);
    assert t.id !in s.pool.running;
    forall id | id in s.pool.running ensures s.pool.running[id].template == s.pool.running[id].taskTemplate {
      assert Known(s.registered, s.pool.running[id]);
    }
    InsertKeepsIndexes(s.pool, t);
    InsertKeepsLimits(cfg, s.pool, t);
  }

  lemma UnlockKeepsSafe(cfg: Config, s: State, t: TaskRunner)
    requires Safe(cfg, s) && s.mailbox != [] && s.mailbox[0] == Unlock(t)
    ensures PoolSafe(cfg, Remove(s.pool, t).active, Remove(s.pool, t).running)
    ensures var s' := HandleStep(cfg, s); Registry(s'.registered, s'.pool.queue, s'.mailbox, s'.pool.running)
  {
    assert Known(s.registered, t);
    if t.id in s.pool.running {
      assert Known(s.registered, s.pool.running[t.id]);
      RemoveKeepsIndexes(s.pool, t);
      RemoveKeepsLimits(cfg, s.pool, t);
    } else {
      RemoveAbsent(s.pool, t);
    }
  }

  lemma HandleKeepsSafe(cfg: Config, s: State)
    requires Safe(cfg, s) && s.mailbox != []
    ensures Safe(cfg, HandleStep(cfg, s))
  {
    var s' := HandleStep(cfg, s);
    var t := s.mailbox[0].t;
    forall id ensures Places(s', id) == One(id in s'.registered) {
      assert Places(s, id) == One(id in s.registered);
      HandleKeepsPlaces(cfg, s, id);
    }
    if s.mailbox[0].Unlock? {
      UnlockKeepsSafe(cfg, s, t);
    } else if !Blocks(cfg, s.pool, t) {
      LockKeepsSafe(cfg, s, t);
    }
  }

  lemma FinishKeepsSafe(cfg: Config, s: State, t: TaskRunner)
    requires Safe(cfg, s) && Enabled(s, Finish(t))
    ensures Safe(cfg, Step(cfg, s, Finish(t)))
  {
    var s' := Step(cfg, s, Finish(t));
    forall id ensures Places(s', id) == One(id in s'.registered) {
      InTransitConcat(s.mailbox, [Unlock(t)], id);
      assert Places(s, id) == One(id in s.registered);
    }
  }

  lemma StepKeepsSafe(cfg: Config, s: State, e: Event)
    requires Safe(cfg, s) && Enabled(s, e)
    ensures Safe(cfg, Step(cfg, s, e))
  {
    match e
    case Register(t) => RegisterKeepsSafe(cfg, s, t);
    case SetStatus(id, status) =>
      var s' := Step(cfg, s, e);
      assert forall id :: Places(s', id) == Places(s, id);
    case Tick => TickKeepsSafe(cfg, s);
    case Handle => HandleKeepsSafe(cfg, s);
    case Finish(t) => FinishKeepsSafe(cfg, s, t);
  }

  lemma {:induction false} RunKeepsSafe(cfg: Config, s: State, es: seq<Event>)
    requires Safe(cfg, s) && IsRun(cfg, s, es)
    ensures Safe(cfg, Exec(cfg, s, es))
    decreases |es|
  {
    if es != [] {
      StepKeepsSafe(cfg, s, es[0]);
      RunKeepsSafe(cfg, Step(cfg, s, es[0]), es[1..]);
    }
  }

  /** Whatever the timing of ticks and locker, in every state of every run the global cap, the
      cap of every project that can be looked up, one task per template, and the agreement of
      the two indexes hold. */
  lemma LimitsHoldInEveryRun(cfg: Config, es: seq<Event>)
    requires IsRun(cfg, INIT, es)
    ensures var p := Exec(cfg, INIT, es).pool;
            && WithinCaps(cfg, p.active, p.running)
            && OnePerTemplate(p.running)
            && IndexesAgree(p.active, p.running)
  {
    RunKeepsSafe(cfg, INIT, es);
  }

  /** Every registered task, and no other, is in exactly one place. */
  lemma TasksAreConserved(cfg: Config, es: seq<Event>, id: int)
    requires IsRun(cfg, INIT, es)
    ensures Places(Exec(cfg, INIT, es), id) == One(id in Exec(cfg, INIT, es).registered)
  {
    RunKeepsSafe(cfg, INIT, es);
  }

  // ---------------------------------------------------------------- admission

  /** The limits and the template exclusion would hold with the task. */
  ghost predicate Fits(cfg: Config, p: Pool, t: TaskRunner) {
    WithinCaps(cfg, Insert(p, t).active, Insert(p, t).running) && OnePerTemplate(Insert(p, t).running)
  }

  lemma QueuedIsNotRunning(cfg: Config, s: State)
    requires Safe(cfg, s) && s.pool.queue != []
    ensures Blocks(cfg, s.pool, s.pool.queue[0]) <==> !Fits(cfg, s.pool, s.pool.queue[0])
  {
    var t := s.pool.queue[0];
    assert Places(s, t.id) == One(t.id in s.registered);
    forall id | id in s.pool.running ensures s.pool.running[id].template == s.pool.running[id].taskTemplate {
      assert Known(s.registered, s.pool.running[id]);
    }
    BlocksIff(cfg, s.pool, t);
  }

  /** The head of the queue is dropped if it has failed, gets its lock message sent if it fits, and
      otherwise goes to the end; the running tasks are the same. */
  ghost predicate TakesHead(cfg: Config, s: State, s': State)
    requires s.pool.queue != []
  {
    var t := s.pool.queue[0];
    var failed, fits := t.id in s.status && s.status[t.id] == Error, Fits(cfg, s.pool, t);
    && s'.pool.queue == s.pool.queue[1..] + (if !failed && !fits then [t] else [])
    && s'.mailbox == s.mailbox + (if !failed && fits then [Lock(t)] else [])
    && s'.dropped == s.dropped + (if failed then {t.id} else {})
    && s'.pool.running == s.pool.running && s'.pool.active == s.pool.active
  }

  lemma TickTakesHead(cfg: Config, s: State)
    requires s.pool.queue != []
    requires Blocks(cfg, s.pool, s.pool.queue[0]) <==> !Fits(cfg, s.pool, s.pool.queue[0])
    ensures TakesHead(cfg, s, TickStep(cfg, s))
  {
  }

  /** In every run a tick drops the task at the head of the queue if it has failed, sends its lock
      message if it fits, and otherwise moves it to the end; so a task that fits is never passed over. */
  lemma AdmissionIsExact(cfg: Config, es: seq<Event>)
    requires IsRun(cfg, INIT, es) && Enabled(Exec(cfg, INIT, es), Tick) && Exec(cfg, INIT, es).pool.queue != []
    ensures TakesHead(cfg, Exec(cfg, INIT, es), Step(cfg, Exec(cfg, INIT, es), Tick))
  {
    RunKeepsSafe(cfg, INIT, es);
    QueuedIsNotRunning(cfg, Exec(cfg, INIT, es));
    TickTakesHead(cfg, Exec(cfg, INIT, es));
  }

  // ---------------------------------------------------------------- bounded wait

  function Ticks(es: seq<Event>): nat {
    if es == [] then 0 else One(es[0].Tick?) + Ticks(es[1..])
  }

  /** The task at position `k` of the one queue is at position `k - n` of the other. */
  predicate MovedUp(from: seq<TaskRunner>, to: seq<TaskRunner>, k: nat, n: nat) {
    n <= k < |from| && k - n < |to| && to[k - n] == from[k]
  }

  lemma MovedUpTwice(a: seq<TaskRunner>, b: seq<TaskRunner>, c: seq<TaskRunner>, k: nat, m: nat, n: nat)
    requires MovedUp(a, b, k, m) && MovedUp(b, c, k - m, n)
    ensures MovedUp(a, c, k, m + n)
  {
  }

  /** Every tick moves a task one place forward; nothing else moves it. */
  lemma StepMoves(cfg: Config, s: State, e: Event, k: nat)
    requires Enabled(s, e) && One(e.Tick?) <= k < |s.pool.queue|
    ensures MovedUp(s.pool.queue, Step(cfg, s, e).pool.queue, k, One(e.Tick?))
  {
    match e
    case Tick => assert s.pool.queue[1..] <= AfterTick(s.pool, Examine(cfg, s.pool, s.status)).queue;
    case Register(t) => assert s.pool.queue <= Step(cfg, s, e).pool.queue;
    case Handle => assert HandleStep(cfg, s).pool.queue == s.pool.queue;
    case _ =>
  }

  lemma FirstStepMoves(cfg: Config, s: State, es: seq<Event>, k: nat) returns (s': State, rest: seq<Event>, n: nat)
    requires IsRun(cfg, s, es) && es != [] && Ticks(es) <= k < |s.pool.queue|
    ensures |rest| < |es| && IsRun(cfg, s', rest) && Exec(cfg, s, es) == Exec(cfg, s', rest)
    ensures MovedUp(s.pool.queue, s'.pool.queue, k, n) && Ticks(es) == n + Ticks(rest)
  {
    s', rest, n := Step(cfg, s, es[0]), es[1..], One(es[0].Tick?);
    StepMoves(cfg, s, es[0], k);
  }

  lemma {:induction false} Advances(cfg: Config, s: State, es: seq<Event>, t: State, k: nat)
    requires IsRun(cfg, s, es) && Exec(cfg, s, es) == t && Ticks(es) <= k < |s.pool.queue|
    ensures MovedUp(s.pool.queue, t.pool.queue, k, Ticks(es))
    decreases |es|
  {
    if es != [] {
      var s', rest, n := FirstStepMoves(cfg, s, es, k);
      Advances(cfg, s', rest, t, k - n);
      MovedUpTwice(s.pool.queue, s'.pool.queue, t.pool.queue, k, n, Ticks(rest));
    }
  }

  lemma {:induction false} ExecAppend(cfg: Config, s: State, es: seq<Event>, e: Event)
    requires IsRun(cfg, s, es + [e])
    ensures IsRun(cfg, s, es) && Enabled(Exec(cfg, s, es), e)
    ensures Exec(cfg, s, es + [e]) == Step(cfg, Exec(cfg, s, es), e)
    decreases |es|
  {
    if es == [] {
      assert es + [e] == [e];
    } else {
      assert (es + [e])[1..] == es[1..] + [e];
      ExecAppend(cfg, Step(cfg, s, es[0]), es[1..], e);
    }
  }

  /** What a tick does to the task at the head of the queue. */
  ghost predicate Examined(cfg: Config, before: State, after: State, t: TaskRunner)
    requires before.pool.queue != []
  {
    if StatusOf(before.status, t.id) == Error then
      t.id in after.dropped && InQueue(after.pool.queue, t.id) == 0 && after.mailbox == before.mailbox
    else if Blocks(cfg, before.pool, t) then
      after.pool.queue == before.pool.queue[1..] + [t] && after.mailbox == before.mailbox
    else
      after.mailbox == before.mailbox + [Lock(t)] && InQueue(after.pool.queue, t.id) == 0
  }

  lemma TickExamines(cfg: Config, s: State)
    requires s.pool.queue != [] && InQueue(s.pool.queue, s.pool.queue[0].id) == 1
    ensures Examined(cfg, s, TickStep(cfg, s), s.pool.queue[0])
  {
    var t := s.pool.queue[0];
    assert InQueue(s.pool.queue[1..], t.id) == 0;
    assert s.pool.queue[1..] + [] == s.pool.queue[1..];
    assert s.mailbox + [] == s.mailbox;
  }

  /** In a reachable queue a task's id stands in one place. */
  lemma OnceInQueue(s: State, i: nat, t: TaskRunner)
    requires Conserved(s) && i < |s.pool.queue| && s.pool.queue[i] == t
    ensures InQueue(s.pool.queue, t.id) == 1
    ensures s.pool.queue[0].id == t.id <==> i == 0
  {
    assert Places(s, t.id) <= 1;
    InQueueMember(s.pool.queue, i);
  }

  /** Task `t` is at the head exactly if it is its turn, and is examined then. */
  ghost predicate Turn(cfg: Config, before: State, after: State, t: TaskRunner, now: bool) {
    && before.pool.queue != []
    && (before.pool.queue[0].id == t.id <==> now)
    && (now ==> Examined(cfg, before, after, t))
  }

  lemma FrontIsExamined(cfg: Config, s: State, i: nat, t: TaskRunner)
    requires Conserved(s) && i < |s.pool.queue| && s.pool.queue[i] == t && Enabled(s, Tick)
    ensures Turn(cfg, s, TickStep(cfg, s), t, i == 0)
  {
    OnceInQueue(s, i, t);
    if i == 0 {
      TickExamines(cfg, s);
    }
  }

  lemma MovedToFront(cfg: Config, from: seq<TaskRunner>, s: State, k: nat, n: nat)
    requires Safe(cfg, s) && Enabled(s, Tick) && MovedUp(from, s.pool.queue, k, n)
    ensures Turn(cfg, s, TickStep(cfg, s), from[k], n == k)
  {
    FrontIsExamined(cfg, s, k - n, from[k]);
  }

  lemma {:induction false} WaitFrom(cfg: Config, s: State, es: seq<Event>, k: int)
    requires Safe(cfg, s) && IsRun(cfg, s, es + [Tick]) && Ticks(es) <= k < |s.pool.queue|
    ensures IsRun(cfg, s, es)
    ensures Turn(cfg, Exec(cfg, s, es), Exec(cfg, s, es + [Tick]), s.pool.queue[k], Ticks(es) == k)
  {
    ExecAppend(cfg, s, es, Tick);
    Advances(cfg, s, es, Exec(cfg, s, es), k);
    RunKeepsSafe(cfg, s, es);
    var before := Exec(cfg, s, es);
    MovedToFront(cfg, s.pool.queue, before, k, Ticks(es));
  }

  /** A task at position `k` of a reachable queue is examined by the `k + 1`-th following tick,
      whatever else happens meanwhile, and by none before it. That tick drops it if it has
      failed, sends its lock message if it is not blocked, and moves it to the end otherwise. */
  lemma {:induction false} BoundedWait(cfg: Config, past: seq<Event>, es: seq<Event>, k: int)
    requires IsRun(cfg, INIT, past)
    requires IsRun(cfg, Exec(cfg, INIT, past), es + [Tick])
    requires Ticks(es) <= k < |Exec(cfg, INIT, past).pool.queue|
    ensures IsRun(cfg, Exec(cfg, INIT, past), es)
    ensures var t := Exec(cfg, INIT, past).pool.queue[k];
            var before := Exec(cfg, Exec(cfg, INIT, past), es);
            && before.pool.queue != []
            && (before.pool.queue[0].id == t.id <==> Ticks(es) == k)
            && (Ticks(es) == k ==> Examined(cfg, before, Exec(cfg, Exec(cfg, INIT, past), es + [Tick]), t))
  {
    RunKeepsSafe(cfg, INIT, past);
    WaitFrom(cfg, Exec(cfg, INIT, past), es, k);
  }
}
