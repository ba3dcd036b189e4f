/** When the locker's re-check can fail: exactly if some tick started a task that does not fit into
    the pool as it is once the locker has handled what lies before it, unlocks included. A tick
    taken with no lock message on its way always fits. */
module LockerPanic {
  import opened Collections
  import opened Options
  import opened Scheduler

  // ---------------------------------------------------------------- admission is monotone

  /** Pool `a` has no running task that `b` does not have. */
  ghost predicate Within(a: Pool, b: Pool) {
    && (forall id :: id in a.running ==> id in b.running)
    && (forall project :: project in a.active ==> project in b.active)
    && (forall project, id :: project in a.active && id in a.active[project] ==>
          project in b.active && id in b.active[project] && b.active[project][id] == a.active[project][id])
  }

  lemma BlocksMonotone(cfg: Config, a: Pool, b: Pool, t: TaskRunner)
    requires Within(a, b) && Blocks(cfg, a, t)
    ensures Blocks(cfg, b, t)
  {
    SubsetByMembers(a.running.Keys, b.running.Keys);
    SubsetSize(a.running.Keys, b.running.Keys);
    if t.project in a.active {
      SubsetByMembers(a.active[t.project].Keys, b.active[t.project].Keys);
      SubsetSize(a.active[t.project].Keys, b.active[t.project].Keys);
    }
  }

  lemma RemoveShrinks(p: Pool, t: TaskRunner)
    ensures Within(Remove(p, t), p)
  {
  }

  // ---------------------------------------------------------------- what the locker will do

  /** The pool once the locker has handled the mailbox, or none if it panics on the way. */
  function Drain(cfg: Config, p: Pool, mailbox: seq<Message>): Option<Pool>
    decreases |mailbox|
  {
    if mailbox == [] then Some(p)
    else
      var t := mailbox[0].t;
      if mailbox[0].Unlock? then Drain(cfg, Remove(p, t), mailbox[1..])
      else if Blocks(cfg, p, t) then None
      else Drain(cfg, Insert(p, t), mailbox[1..])
  }

  /** The queue plays no part in it. */
  function Indexes(p: Pool): Pool {
    p.(queue := [])
  }

  function Outlook(cfg: Config, s: State): Option<Pool> {
    if s.panicked then None else Drain(cfg, Indexes(s.pool), s.mailbox)
  }

  lemma {:induction false} DrainAppend(cfg: Config, p: Pool, mailbox: seq<Message>, m: Message)
    ensures Drain(cfg, p, mailbox + [m]) ==
            match Drain(cfg, p, mailbox) { case None => None case Some(q) => Drain(cfg, q, [m]) }
    decreases |mailbox|
  {
    if mailbox == [] {
      assert mailbox + [m] == [m];
    } else {
      var t := mailbox[0].t;
      assert (mailbox + [m])[1..] == mailbox[1..] + [m];
      if mailbox[0].Unlock? {
        DrainAppend(cfg, Remove(p, t), mailbox[1..], m);
      } else if !Blocks(cfg, p, t) {
        DrainAppend(cfg, Insert(p, t), mailbox[1..], m);
      }
    }
  }

  lemma IndexesOnly(cfg: Config, p: Pool, t: TaskRunner)
    ensures Blocks(cfg, Indexes(p), t) == Blocks(cfg, p, t)
    ensures Insert(Indexes(p), t) == Indexes(Insert(p, t))
    ensures Remove(Indexes(p), t) == Indexes(Remove(p, t))
  {
  }

  lemma {:induction false} UnlocksShrink(cfg: Config, p: Pool, mailbox: seq<Message>)
    requires forall i :: 0 <= i < |mailbox| ==> mailbox[i].Unlock?
    ensures Drain(cfg, p, mailbox).Some? && Within(Drain(cfg, p, mailbox).value, p)
    decreases |mailbox|
  {
    if mailbox != [] {
      RemoveShrinks(p, mailbox[0].t);
      UnlocksShrink(cfg, Remove(p, mailbox[0].t), mailbox[1..]);
    }
  }

  // ---------------------------------------------------------------- careful ticks

  /** A tick that starts a task does so only if the task fits once the locker has handled what is
      in its mailbox. */
  predicate Careful(cfg: Config, s: State, e: Event) {
    e.Tick? ==>
      var outcome := Examine(cfg, s.pool, s.status);
      outcome.Started? ==> Outlook(cfg, s).Some? && !Blocks(cfg, Outlook(cfg, s).value, outcome.t)
  }

  predicate CarefulRun(cfg: Config, s: State, es: seq<Event>)
    requires IsRun(cfg, s, es)
    decreases |es|
  {
    es == [] || (Careful(cfg, s, es[0]) && CarefulRun(cfg, Step(cfg, s, es[0]), es[1..]))
  }

  /** Every lock message is handled before the next tick. */
  predicate PromptRun(cfg: Config, s: State, es: seq<Event>)
    requires IsRun(cfg, s, es)
    decreases |es|
  {
    es == [] ||
    ((es[0].Tick? ==> forall i :: 0 <= i < |s.mailbox| ==> s.mailbox[i].Unlock?) &&
     PromptRun(cfg, Step(cfg, s, es[0]), es[1..]))
  }

  lemma PromptTickIsCareful(cfg: Config, s: State)
    requires Enabled(s, Tick) && forall i :: 0 <= i < |s.mailbox| ==> s.mailbox[i].Unlock?
    ensures Careful(cfg, s, Tick)
  {
    UnlocksShrink(cfg, Indexes(s.pool), s.mailbox);
    var outcome := Examine(cfg, s.pool, s.status);
    if outcome.Started? {
      IndexesOnly(cfg, s.pool, outcome.t);
      if Blocks(cfg, Outlook(cfg, s).value, outcome.t) {
        BlocksMonotone(cfg, Outlook(cfg, s).value, Indexes(s.pool), outcome.t);
      }
    }
  }

  lemma {:induction false} PromptIsCareful(cfg: Config, s: State, es: seq<Event>)
    requires IsRun(cfg, s, es) && PromptRun(cfg, s, es)
    ensures CarefulRun(cfg, s, es)
    decreases |es|
  {
    if es != [] {
      if es[0].Tick? {
        PromptTickIsCareful(cfg, s);
      }
      PromptIsCareful(cfg, Step(cfg, s, es[0]), es[1..]);
    }
  }

  // ---------------------------------------------------------------- every step

  lemma TickOutlook(cfg: Config, s: State)
    requires Enabled(s, Tick) && Outlook(cfg, s).Some?
    ensures Outlook(cfg, TickStep(cfg, s)).Some? <==> Careful(cfg, s, Tick)
  {
    var outcome, s' := Examine(cfg, s.pool, s.status), TickStep(cfg, s);
    assert Indexes(s'.pool) == Indexes(s.pool);
    if outcome.Started? {
      DrainAppend(cfg, Indexes(s.pool), s.mailbox, Lock(outcome.t));
    } else {
      assert s'.mailbox == s.mailbox;
    }
  }

  lemma HandleOutlook(cfg: Config, s: State)
    requires Enabled(s, Handle)
    ensures Outlook(cfg, HandleStep(cfg, s)) == Outlook(cfg, s)
  {
    IndexesOnly(cfg, s.pool, s.mailbox[0].t);
  }

  /** A step keeps the locker out of trouble exactly if it is careful, and nothing gets it out of
      trouble again. */
  lemma StepOutlook(cfg: Config, s: State, e: Event)
    requires Enabled(s, e)
    ensures Outlook(cfg, Step(cfg, s, e)).Some? <==> Outlook(cfg, s).Some? && Careful(cfg, s, e)
  {
    match e
    case Register(t) => assert Indexes(Step(cfg, s, e).pool) == Indexes(s.pool);
    case SetStatus(_, _) =>
    case Handle => HandleOutlook(cfg, s);
    case Finish(t) => DrainAppend(cfg, Indexes(s.pool), s.mailbox, Unlock(t));
    case Tick =>
      if Outlook(cfg, s).Some? {
        TickOutlook(cfg, s);
      } else {
        TickInTrouble(cfg, s);
      }
  }

  lemma TickInTrouble(cfg: Config, s: State)
    requires Enabled(s, Tick) && Outlook(cfg, s).None?
    ensures Outlook(cfg, TickStep(cfg, s)).None?
  {
    var outcome, s' := Examine(cfg, s.pool, s.status), TickStep(cfg, s);
    assert Indexes(s'.pool) == Indexes(s.pool);
    if outcome.Started? {
      DrainAppend(cfg, Indexes(s.pool), s.mailbox, Lock(outcome.t));
    } else {
      assert s'.mailbox == s.mailbox;
    }
  }

  lemma {:induction false} RunOutlook(cfg: Config, s: State, es: seq<Event>)
    requires IsRun(cfg, s, es)
    ensures Outlook(cfg, Exec(cfg, s, es)).Some? <==> Outlook(cfg, s).Some? && CarefulRun(cfg, s, es)
    decreases |es|
  {
    if es != [] {
      StepOutlook(cfg, s, es[0]);
      RunOutlook(cfg, Step(cfg, s, es[0]), es[1..]);
    }
  }

  // ---------------------------------------------------------------- the theorems

  /** `n` messages handled in a row. */
  function Handles(n: nat): seq<Event> {
    seq(n, _ => Handle)
  }

  /** The locker at work alone from here panics, if it has not already. */
  ghost predicate LockerPanics(cfg: Config, s: State) {
    s.panicked || exists n :: IsRun(cfg, s, Handles(n)) && Exec(cfg, s, Handles(n)).panicked
  }

  lemma {:induction false} NeverFromHandles(cfg: Config, s: State, n: nat)
    requires Outlook(cfg, s).Some? && IsRun(cfg, s, Handles(n))
    ensures !Exec(cfg, s, Handles(n)).panicked
    decreases n
  {
    if n > 0 {
      assert Handles(n)[1..] == Handles(n - 1);
      HandleOutlook(cfg, s);
      NeverFromHandles(cfg, HandleStep(cfg, s), n - 1);
    }
  }

  lemma {:induction false} PanicFromHandles(cfg: Config, s: State) returns (n: nat)
    requires Outlook(cfg, s).None? && !s.panicked
    ensures IsRun(cfg, s, Handles(n)) && Exec(cfg, s, Handles(n)).panicked
    decreases |s.mailbox|
  {
    var s1 := HandleStep(cfg, s);
    HandleOutlook(cfg, s);
    if s1.panicked {
      n := 1;
      RunCons(cfg, s, Handle, []);
      assert Handles(1) == [Handle] + [];
    } else {
      var m := PanicFromHandles(cfg, s1);
      n := m + 1;
      RunCons(cfg, s, Handle, Handles(m));
      assert Handles(n) == [Handle] + Handles(m);
    }
  }

  lemma OutlookIsLocker(cfg: Config, s: State)
    ensures LockerPanics(cfg, s) <==> Outlook(cfg, s).None?
  {
    if !s.panicked {
      if Outlook(cfg, s).None? {
        var n := PanicFromHandles(cfg, s);
      } else {
        forall n | IsRun(cfg, s, Handles(n)) ensures !Exec(cfg, s, Handles(n)).panicked {
          NeverFromHandles(cfg, s, n);
        }
      }
    }
  }

  /** For every run, whatever messages are on their way: the locker has panicked or will, working
      alone from here, if and only if some tick of the run was not careful. */
  lemma {:induction false} PanicIffCareless(cfg: Config, es: seq<Event>)
    requires IsRun(cfg, INIT, es)
    ensures LockerPanics(cfg, Exec(cfg, INIT, es)) <==> !CarefulRun(cfg, INIT, es)
  {
    RunOutlook(cfg, INIT, es);
    OutlookIsLocker(cfg, Exec(cfg, INIT, es));
  }

  lemma {:induction false} CarefulNeverPanics(cfg: Config, s: State, es: seq<Event>)
    requires Outlook(cfg, s).Some? && IsRun(cfg, s, es) && CarefulRun(cfg, s, es)
    ensures !Exec(cfg, s, es).panicked && Outlook(cfg, Exec(cfg, s, es)).Some?
  {
    RunOutlook(cfg, s, es);
  }

  /** With fixed limits, if every lock message is handled before the next tick the locker
      never panics, whichever tasks finish in between. */
  lemma {:induction false} PromptLockerNeverPanics(cfg: Config, es: seq<Event>)
    requires IsRun(cfg, INIT, es) && PromptRun(cfg, INIT, es)
    ensures !Exec(cfg, INIT, es).panicked
  {
    PromptIsCareful(cfg, INIT, es);
    CarefulNeverPanics(cfg, INIT, es);
  }

  /** Two tasks of one template and two ticks before the locker handles anything: the second
      tick passes its own check and the locker panics. */
  lemma SlowLockerPanics(cfg: Config)
    requires cfg.maxParallel == 0
    ensures var es := [Register(TaskRunner(1, 1, 1, 1)), Register(TaskRunner(2, 1, 1, 1)), Tick, Tick, Handle, Handle];
            IsRun(cfg, INIT, es) && Exec(cfg, INIT, es).panicked
  {
    var a, b := TaskRunner(1, 1, 1, 1), TaskRunner(2, 1, 1, 1);
    var s2 := INIT.(pool := Pool([a, b], map[], map[]), registered := map[1 := a, 2 := b]);
    var s4 := s2.(pool := Pool([], map[], map[]), mailbox := [Lock(a), Lock(b)]);
    var locks := [Handle] + ([Handle] + []);
    TwoLocks(cfg, s4, a, b);
    TwoTicks(cfg, s2, a, b);
    RunCons(cfg, Step(cfg, s2, Tick), Tick, locks);
    RunCons(cfg, s2, Tick, [Tick] + locks);
    TwoTasks(cfg, a, b, [Tick] + ([Tick] + locks));
    assert [Register(a)] + ([Register(b)] + ([Tick] + ([Tick] + locks))) ==
           [Register(a), Register(b), Tick, Tick, Handle, Handle];
  }

  lemma TwoTasks(cfg: Config, a: TaskRunner, b: TaskRunner, rest: seq<Event>)
    requires a == TaskRunner(1, 1, 1, 1) && b == TaskRunner(2, 1, 1, 1)
    requires IsRun(cfg, INIT.(pool := Pool([a, b], map[], map[]), registered := map[1 := a, 2 := b]), rest)
    ensures IsRun(cfg, INIT, [Register(a)] + ([Register(b)] + rest))
    ensures Exec(cfg, INIT, [Register(a)] + ([Register(b)] + rest)) ==
            Exec(cfg, INIT.(pool := Pool([a, b], map[], map[]), registered := map[1 := a, 2 := b]), rest)
  {
    var s1 := Step(cfg, INIT, Register(a));
    assert Step(cfg, s1, Register(b)) == INIT.(pool := Pool([a, b], map[], map[]), registered := map[1 := a, 2 := b]);
    RunCons(cfg, s1, Register(b), rest);
    RunCons(cfg, INIT, Register(a), [Register(b)] + rest);
  }

  /** Two lock messages for one project and template: the second is refused. */
  lemma TwoLocks(cfg: Config, s: State, a: TaskRunner, b: TaskRunner)
    requires !s.panicked && s.pool == Pool([], map[], map[]) && s.mailbox == [Lock(a), Lock(b)] && cfg.maxParallel == 0
    requires a.project == b.project && a.template == b.taskTemplate
    ensures IsRun(cfg, s, [Handle] + ([Handle] + [])) && Exec(cfg, s, [Handle] + ([Handle] + [])).panicked
  {
    assert !Blocks(cfg, s.pool, a);
    var s1 := Step(cfg, s, Handle);
    assert s1.mailbox == [Lock(b)] && s1.pool.active[b.project][a.id] == a;
    RunCons(cfg, s1, Handle, []);
    RunCons(cfg, s, Handle, [Handle] + []);
  }

  lemma TwoTicks(cfg: Config, s: State, a: TaskRunner, b: TaskRunner)
    requires !s.panicked && s.pool == Pool([a, b], map[], map[]) && s.mailbox == [] && s.status == map[] &&
             cfg.maxParallel == 0
    ensures Enabled(Step(cfg, s, Tick), Tick)
    ensures Step(cfg, Step(cfg, s, Tick), Tick) == s.(pool := Pool([], map[], map[]), mailbox := [Lock(a), Lock(b)])
  {
    var s1 := Step(cfg, s, Tick);
    assert s1 == s.(pool := Pool([b], map[], map[]), mailbox := [Lock(a)]);
    assert Step(cfg, s1, Tick).mailbox == [Lock(a)] + [Lock(b)];
  }

  lemma RunCons(cfg: Config, s: State, e: Event, rest: seq<Event>)
    requires Enabled(s, e) && IsRun(cfg, Step(cfg, s, e), rest)
    ensures IsRun(cfg, s, [e] + rest) && Exec(cfg, s, [e] + rest) == Exec(cfg, Step(cfg, s, e), rest)
  {
    assert ([e] + rest)[1..] == rest;
  }
}
