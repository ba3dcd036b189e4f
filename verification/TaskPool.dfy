/** The server's task pool as the object that its two goroutines mutate, proved against the
    operations of the scheduler model. */
module TaskPools {
  import opened Collections
  import opened Options
  import opened Scheduler
  import opened TaskStatus

  class TaskPool {
    var queue: seq<TaskRunner>
    var activeProj: map<int, map<int, TaskRunner>>
    var runningTasks: map<int, TaskRunner>
    const cfg: Config

    ghost function Model(): Pool
      reads this
    {
      Pool(queue, activeProj, runningTasks)
    }

    constructor (cfg: Config)
      ensures Model() == INIT.pool && this.cfg == cfg
    {
      queue, activeProj, runningTasks := [], map[], map[];
      this.cfg := cfg;
    }

    method BlocksTask(t: TaskRunner) returns (blocked: bool)
      ensures blocked <==> Blocks(cfg, Model(), t)
    {
      if cfg.maxParallel > 0 && |runningTasks| >= cfg.maxParallel {
        return true;
      }
      if t.project !in activeProj || |activeProj[t.project]| == 0 {
        return false;
      }
      var bucket := activeProj[t.project];
      var todo := bucket.Keys;
      while todo != {}
        invariant todo <= bucket.Keys
        invariant forall id :: id in bucket && id !in todo ==> bucket[id].template != t.taskTemplate
        decreases |todo|
      {
        ghost var member := Member(todo);
        var id :| id in todo;
        if bucket[id].template == t.taskTemplate {
          return true;
        }
        todo := todo - {id};
      }
      if t.project !in cfg.projectCaps {
        return false;
      }
      return cfg.projectCaps[t.project] > 0 && |bucket| >= cfg.projectCaps[t.project];
    }

    /** The queue is searched first, then the running tasks. */
    method GetTask(id: int) returns (task: Option<TaskRunner>)
      ensures task.Some? ==> task.value.id == id && (task.value in queue || task.value in runningTasks.Values)
      ensures task.None? ==> forall t :: t in queue ==> t.id != id
      ensures task.None? ==> forall k :: k in runningTasks ==> runningTasks[k].id != id
      ensures (exists t :: t in queue && t.id == id) ==> task.Some? && task.value in queue
    {
      for i := 0 to |queue|
        invariant forall j :: 0 <= j < i ==> queue[j].id != id
      {
        if queue[i].id == id {
          return Some(queue[i]);
        }
      }
      var todo := runningTasks.Keys;
      while todo != {}
        invariant todo <= runningTasks.Keys
        invariant forall k :: k in runningTasks && k !in todo ==> runningTasks[k].id != id
        decreases |todo|
      {
        ghost var member := Member(todo);
        var k :| k in todo;
        if runningTasks[k].id == id {
          return Some(runningTasks[k]);
        }
        todo := todo - {k};
      }
      return None;
    }

    /** A tick of the scheduler; a lock message for a started task is the caller's to send. */
    method QueueTick(status: map<int, Status>) returns (outcome: Outcome)
      modifies this`queue
      ensures outcome == Examine(cfg, old(Model()), status)
      ensures Model() == AfterTick(old(Model()), outcome)
    {
      if |queue| == 0 {
        return Nothing;
      }
      var t := queue[0];
      if StatusOf(status, t.id) == Error {
        queue := queue[1..];
        return Dropped(t);
      }
      var blocked := BlocksTask(t);
      if blocked {
        queue := queue[1..] + [t];
        return Rotated(t);
      }
      queue := queue[1..];
      return Started(t);
    }

    /** A lock message; the re-check that fails makes the original panic. */
    method LockTask(t: TaskRunner) returns (panicked: bool)
      modifies this`activeProj, this`runningTasks
      ensures panicked <==> Blocks(cfg, old(Model()), t)
      ensures Model() == if panicked then old(Model()) else Insert(old(Model()), t)
    {
      panicked := BlocksTask(t);
      if panicked {
        return;
      }
      var projTasks := map[];
      if t.project in activeProj {
        projTasks := activeProj[t.project];
      }
      activeProj := activeProj[t.project := projTasks[t.id := t]];
      runningTasks := runningTasks[t.id := t];
    }

    method UnlockTask(t: TaskRunner)
      modifies this`activeProj, this`runningTasks
      ensures Model() == Remove(old(Model()), t)
    {
      if t.project in activeProj && t.id in activeProj[t.project] {
        activeProj := activeProj[t.project := activeProj[t.project] - {t.id}];
        if |activeProj[t.project]| == 0 {
          activeProj := activeProj - {t.project};
          assert activeProj == old(activeProj) - {t.project};
        }
      }
      runningTasks := runningTasks - {t.id};
    }
  }
}
