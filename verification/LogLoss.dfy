/** The condition of log order is exact: a lost PUT with records of a job that is still running, or
    one that leads to a second start, can put the accepted records out of step. */
module LogLoss {
  import opened TaskStatus
  import opened RunnerProtocol
  import opened AtMostOnce
  import opened BarredRunners
  import opened SecondStart
  import opened LogOrder

  // ---------------------------------------------------------------- the condition is exact

  /** Two records differ, so there is always one that differs from a given one. */
  function OtherThan(x: Record): (y: Record)
    ensures y != x
  {
    Record(x.time + 1, x.message)
  }

  lemma ReportAndDeliver(s: System, r: RunnerId, id: TaskId) returns (es: seq<Event>)
    requires Alive(s, r) && s.runners[r].phase.Idle? && id in s.runners[r].pool.running
    requires id in s.server.tasks && Visible(s.server.tasks[id])
    ensures IsRun(s, es) && NoLoss(es) && r in Exec(s, es).runners
    ensures Exec(s, es).runners[r].logged == s.runners[r].logged
    ensures Accepted(Exec(s, es).server, id, r) == Accepted(s.server, id, r) + s.runners[r].pool.running[id].pending
  {
    var body := ReportExists(s.runners[r].pool.running);
    OneMove(s, StartPut(r, body));
    Delivered(With(s, r, Report(s.runners[r], body)), r);
    RunConcat(s, [StartPut(r, body)], [DeliverPut(r)]);
    es := [StartPut(r, body)] + [DeliverPut(r)];
    ReportRecords(body, s.runners[r].pool.running, id);
    BodyAccepted(s.server, r, body, id, r);
  }

  /** A runner that is not in an exchange logs once more and delivers. */
  lemma LogAndDeliver(s: System, r: RunnerId, id: TaskId, record: Record) returns (es: seq<Event>)
    requires Alive(s, r) && s.runners[r].phase.Idle? && id in s.runners[r].pool.running && id in s.runners[r].starts
    requires id in s.server.tasks && Visible(s.server.tasks[id])
    ensures IsRun(s, es) && NoLoss(es) && r in Exec(s, es).runners
    ensures At(Exec(s, es).runners[r].logged, id) == At(s.runners[r].logged, id) + [record]
    ensures Accepted(Exec(s, es).server, id, r) ==
            Accepted(s.server, id, r) + (s.runners[r].pool.running[id].pending + [record])
  {
    OneMove(s, JobLog(r, id, record));
    var rest := ReportAndDeliver(With(s, r, Logging(s.runners[r], id, record)), r, id);
    RunConcat(s, [JobLog(r, id, record)], rest);
    es := [JobLog(r, id, record)] + rest;
  }

  lemma FailGetMoves(s: System, r: RunnerId)
    requires Alive(s, r) && s.runners[r].phase.Sent? && !MustExit(s.oneOff, s.runners[r].pool)
    ensures IsRun(s, [FailGet(r)]) && Exec(s, [FailGet(r)]) == With(s, r, s.runners[r].(phase := Idle))
  {
    OneMove(s, FailGet(r));
  }

  /** A tick starts a queued job, so the runner need not exit. */
  lemma TickBusies(s: System, r: RunnerId) returns (w: Runner)
    requires Alive(s, r) && RunnerBase(s.server.tasks, r, s.runners[r]) && s.runners[r].pool.queue != []
    ensures IsRun(s, [Tick(r)]) && Exec(s, [Tick(r)]) == With(s, r, w)
    ensures !w.exited && w.phase == s.runners[r].phase && w.logged == s.runners[r].logged
    ensures RunnerBase(s.server.tasks, r, w) && !MustExit(s.oneOff, w.pool)
    ensures forall id :: id in s.runners[r].pool.running ==>
              id in w.pool.running && w.pool.running[id] == s.runners[r].pool.running[id]
  {
    w := RunnerStep(s.oneOff, s.runners[r], Tick(r));
    TickKeepsBase(s.server.tasks, r, s.runners[r], s.oneOff);
    assert w.pool.running[s.runners[r].pool.queue[0].id].status == BLANK;
    OneMove(s, Tick(r));
  }

  /** A runner that does not exit first gives up the exchange. If only a queued job keeps it from
      exiting, a tick starts that one. */
  lemma GiveUp(s: System, r: RunnerId, id: TaskId) returns (es: seq<Event>, w: Runner)
    requires Alive(s, r) && RunnerBase(s.server.tasks, r, s.runners[r]) && s.runners[r].phase.Sent?
    requires id in s.runners[r].pool.running && !ExitsFirst(s.oneOff, s.runners[r].pool)
    ensures IsRun(s, es) && NoLoss(es) && Exec(s, es) == With(s, r, w)
    ensures !w.exited && w.phase.Idle? && id in w.starts && w.logged == s.runners[r].logged
    ensures id in w.pool.running && w.pool.running[id] == s.runners[r].pool.running[id]
  {
    if MustExit(s.oneOff, s.runners[r].pool) {
      var busy := TickBusies(s, r);
      w := busy.(phase := Idle);
      FailGetMoves(With(s, r, busy), r);
      Compose(s, r, [Tick(r)], busy, [FailGet(r)], w);
      es := [Tick(r)] + [FailGet(r)];
    } else {
      w := s.runners[r].(phase := Idle);
      FailGetMoves(s, r);
      es := [FailGet(r)];
    }
  }

  /** Losing the PUT and giving up the exchange leaves a running job with what it has pending. */
  lemma LoseAndGiveUp(s: System, r: RunnerId, id: TaskId) returns (es: seq<Event>, w: Runner)
    requires Enabled(s, LosePut(r)) && RunnerBase(s.server.tasks, r, s.runners[r])
    requires id in s.runners[r].pool.running && !ExitsFirst(s.oneOff, s.runners[r].pool)
    ensures IsRun(s, [LosePut(r)] + es) && NoLoss(es) && Exec(s, [LosePut(r)] + es) == With(s, r, w)
    ensures !w.exited && w.phase.Idle? && id in w.starts && w.logged == s.runners[r].logged
    ensures id in w.pool.running && w.pool.running[id] == s.runners[r].pool.running[id]
  {
    var sent := s.runners[r].(phase := Sent);
    OneMove(s, LosePut(r));
    es, w := GiveUp(With(s, r, sent), r, id);
    RunConcat(s, [LosePut(r)], es);
    WithWith(s, r, sent, w);
  }

  lemma OutOfStep(accepted: seq<Record>, lost: seq<Record>, pending: seq<Record>, record: Record)
    requires lost != [] && record != (lost + pending)[|pending|]
    ensures !(accepted + (pending + [record]) <= (accepted + (lost + pending)) + [record])
  {
    var at := |accepted| + |pending|;
    assert (accepted + (pending + [record]))[at] == record;
    assert ((accepted + (lost + pending)) + [record])[at] == (lost + pending)[|pending|];
  }

  lemma DroppedRecordsOf(s: System, r: RunnerId) returns (id: TaskId)
    requires Inv(s) && LogInv(s) && Alive(s, r) && DropsRecords(s.server, s.runners[r])
    ensures var w := s.runners[r];
            && RunnerBase(s.server.tasks, r, w) && id in w.pool.running
            && id in s.server.tasks && Visible(s.server.tasks[id])
            && BodyRecords(w.phase.body, id) != []
            && At(w.logged, id) == Accepted(s.server, id, r) +
                 (BodyRecords(w.phase.body, id) + w.pool.running[id].pending)
  {
    var w := s.runners[r];
    assert RunnerInv(s.server.tasks, r, w);
    var k :| 0 <= k < |w.phase.body| && w.phase.body[k].id in w.pool.running && Live(s.server, w.phase.body[k].id) &&
             BodyRecords(w.phase.body, w.phase.body[k].id) != [];
    id := w.phase.body[k].id;
    assert LogOk(s.server, r, w, id) && Given(s.server.tasks, r, id);
    var accepted, lost, pending := Accepted(s.server, id, r), BodyRecords(w.phase.body, id), w.pool.running[id].pending;
    assert (accepted + lost) + pending == accepted + (lost + pending);
  }

  lemma LogAfterLoss(s: System, r: RunnerId, id: TaskId, record: Record) returns (es: seq<Event>)
    requires Enabled(s, LosePut(r)) && RunnerBase(s.server.tasks, r, s.runners[r])
    requires id in s.runners[r].pool.running && !ExitsFirst(s.oneOff, s.runners[r].pool)
    requires id in s.server.tasks && Visible(s.server.tasks[id])
    ensures IsRun(s, [LosePut(r)] + es) && NoLoss(es) && r in Exec(s, [LosePut(r)] + es).runners
    ensures At(Exec(s, [LosePut(r)] + es).runners[r].logged, id) == At(s.runners[r].logged, id) + [record]
    ensures Accepted(Exec(s, [LosePut(r)] + es).server, id, r) ==
            Accepted(s.server, id, r) + (s.runners[r].pool.running[id].pending + [record])
  {
    var idle, w := LoseAndGiveUp(s, r, id);
    var mid := With(s, r, w);
    var rest := LogAndDeliver(mid, r, id, record);
    ThreeStretches(s, [LosePut(r)], idle, mid, rest);
    es := idle + rest;
  }

  lemma ThreeStretches(s: System, first: seq<Event>, more: seq<Event>, t: System, rest: seq<Event>)
    requires IsRun(s, first + more) && Exec(s, first + more) == t && IsRun(t, rest)
    ensures IsRun(s, first + (more + rest)) && Exec(s, first + (more + rest)) == Exec(t, rest)
  {
    RunConcat(s, first + more, rest);
    assert first + (more + rest) == (first + more) + rest;
  }

  /** After such a loss the next delivery can put the accepted records out of step, unless the
      runner exits first. */
  lemma DroppedRecordsBreakOrder(s: System, r: RunnerId) returns (es: seq<Event>, id: TaskId)
    requires Inv(s) && LogInv(s) && Enabled(s, LosePut(r)) && DropsRecords(s.server, s.runners[r])
    requires !ExitsFirst(s.oneOff, s.runners[r].pool)
    ensures IsRun(s, [LosePut(r)] + es) && NoLoss(es)
    ensures r in Exec(s, [LosePut(r)] + es).runners
    ensures !(Accepted(Exec(s, [LosePut(r)] + es).server, id, r) <= At(Exec(s, [LosePut(r)] + es).runners[r].logged,
            id))
  {
    id := DroppedRecordsOf(s, r);
    var w := s.runners[r];
    var lost, pending := BodyRecords(w.phase.body, id), w.pool.running[id].pending;
    var record := OtherThan((lost + pending)[|pending|]);
    es := LogAfterLoss(s, r, id, record);
    OutOfStep(Accepted(s.server, id, r), lost, pending, record);
  }

  lemma OutOfStepAfterRestart(accepted: seq<Record>, logged: seq<Record>, x: Record, y: Record)
    requires accepted <= logged && y != (logged + [x])[|accepted|]
    ensures !(accepted + [y] <= (logged + [x]) + [y])
  {
    assert (accepted + [y])[|accepted|] == y;
    assert ((logged + [x]) + [y])[|accepted|] == (logged + [x])[|accepted|];
  }

  /** The runner after the loss, once the forgotten job has logged one more record. */
  lemma LogForgotten(s: System, r: RunnerId, id: TaskId, x: Record) returns (t: System)
    requires Missing(s, r, id)
    ensures IsRun(s, [JobLog(r, id, x)]) && Exec(s, [JobLog(r, id, x)]) == t && t.server == s.server
    ensures Missing(t, r, id) && t.oneOff == s.oneOff
    ensures t.runners[r].pool == s.runners[r].pool && t.runners[r].phase == s.runners[r].phase
    ensures At(t.runners[r].logged, id) == At(s.runners[r].logged, id) + [x]
  {
    OneMove(s, JobLog(r, id, x));
    t := With(s, r, Logging(s.runners[r], id, x));
  }

  /** A forgotten job is started again, and only what it logs from then on reaches the server. */
  lemma RestartAndDeliver(s: System, r: RunnerId, id: TaskId, y: Record) returns (es: seq<Event>)
    requires Missing(s, r, id) && s.runners[r].phase.Sent? && Offered(s.server.tasks, r, id)
    requires !ExitsFirst(s.oneOff, s.runners[r].pool) && !Stuck(s.oneOff, s.server.tasks, s.runners[r].pool)
    ensures IsRun(s, es) && NoLoss(es) && r in Exec(s, es).runners
    ensures At(Exec(s, es).runners[r].logged, id) == At(s.runners[r].logged, id) + [y]
    ensures Accepted(Exec(s, es).server, id, r) == Accepted(s.server, id, r) + [y]
  {
    var restart := RestartForgotten(s, r, id);
    var w := Exec(s, restart).runners[r];
    assert w.starts[|w.starts| - 1] in w.starts;
    var rest := LogAndDeliver(Exec(s, restart), r, id, y);
    RunConcat(s, restart, rest);
    es := restart + rest;
    assert [] + [y] == [y];
  }

  lemma LogBetweenStarts(s: System, r: RunnerId, id: TaskId, x: Record, y: Record) returns (es: seq<Event>)
    requires Missing(s, r, id) && s.runners[r].phase.Sent? && Offered(s.server.tasks, r, id)
    requires !ExitsFirst(s.oneOff, s.runners[r].pool) && !Stuck(s.oneOff, s.server.tasks, s.runners[r].pool)
    ensures IsRun(s, es) && NoLoss(es) && r in Exec(s, es).runners
    ensures At(Exec(s, es).runners[r].logged, id) == (At(s.runners[r].logged, id) + [x]) + [y]
    ensures Accepted(Exec(s, es).server, id, r) == Accepted(s.server, id, r) + [y]
  {
    var mid := LogForgotten(s, r, id, x);
    var rest := RestartAndDeliver(mid, r, id, y);
    RunConcat(s, [JobLog(r, id, x)], rest);
    es := [JobLog(r, id, x)] + rest;
  }

  /** A loss that leads to a second start breaks the order too: what the job logs between its two
      starts never reaches the server. */
  lemma HarmfulLossBreaksOrder(s: System, r: RunnerId) returns (es: seq<Event>, id: TaskId)
    requires Inv(s) && LogInv(s) && Enabled(s, LosePut(r)) && Restarts(s, r)
    ensures IsRun(s, [LosePut(r)] + es) && NoLoss(es)
    ensures r in Exec(s, [LosePut(r)] + es).runners
    ensures !(Accepted(Exec(s, [LosePut(r)] + es).server, id, r) <= At(Exec(s, [LosePut(r)] + es).runners[r].logged,
            id))
  {
    id := HarmForgets(s, r);
    assert LogOk(s.server, r, s.runners[r], id);
    var accepted, logged := Accepted(s.server, id, r), At(s.runners[r].logged, id);
    var x := Record(0, "");
    var y := OtherThan((logged + [x])[|accepted|]);
    es := LogBetweenStarts(Step(s, LosePut(r)), r, id, x, y);
    RunCons(s, LosePut(r), es);
    OutOfStepAfterRestart(accepted, logged, x, y);
  }

  // ---------------------------------------------------------------- barred runners

  /** The runner has ended or is about to, what was accepted from it is a prefix of what it logged,
      and the logs of the others are in order. */
  ghost predicate DoneLog(s: System, r: RunnerId) {
    && NoStrangers(s) && s.oneOff && r in s.runners && Done(s.runners[r])
    && (forall q, id :: q in s.runners && q != r ==> LogOk(s.server, q, s.runners[q], id))
    && (forall id :: Accepted(s.server, id, r) <= At(s.runners[r].logged, id))
  }

  lemma DoneKeepsPrefix(s: System, r: RunnerId, e: Event, id: TaskId)
    requires Enabled(s, e) && r in s.runners && Done(s.runners[r]) && r != UNASSIGNED
    requires Accepted(s.server, id, r) <= At(s.runners[r].logged, id)
    ensures r in Step(s, e).runners && Accepted(Step(s, e).server, id, r) <= At(Step(s, e).runners[r].logged, id)
  {
    if IsServerEvent(e) {
      ServerStepAccepted(s.server, e, id, r);
    } else if e.DeliverPut? {
      DeliverKeepsOthers(s.server, e.r, s.runners[e.r].phase.body, r, id);
    } else if !e.Join? && e.r == r {
      LoggedGrows(s.runners[r], s.oneOff, e, id);
    }
  }

  lemma LoggedGrows(w: Runner, oneOff: bool, e: Event, id: TaskId)
    ensures At(w.logged, id) <= At(RunnerStep(oneOff, w, e).logged, id)
  {
  }

  lemma StepKeepsDoneLog(s: System, r: RunnerId, e: Event)
    requires Enabled(s, e) && !e.LosePut? && OthersInv(s, r) && DoneLog(s, r)
    ensures OthersInv(Step(s, e), r) && DoneLog(Step(s, e), r)
  {
    var s' := Step(s, e);
    StepKeepsBarred(s, r, 0, e);
    StepKeepsStrangers(s, e);
    forall id ensures Accepted(s'.server, id, r) <= At(s'.runners[r].logged, id) {
      DoneKeepsPrefix(s, r, e, id);
    }
    forall q, id | q in s'.runners && q != r ensures LogOk(s'.server, q, s'.runners[q], id) {
      if q in s.runners {
        assert LogOk(s.server, q, s.runners[q], id);
        StepKeepsLogOf(s, e, q, id);
      } else {
        assert LogOk(s'.server, e.r, FRESH_RUNNER, id);
      }
    }
  }

  lemma {:induction false} RunKeepsDoneLog(s: System, r: RunnerId, es: seq<Event>)
    requires OthersInv(s, r) && DoneLog(s, r) && IsRun(s, es) && NoLoss(es)
    ensures OthersInv(Exec(s, es), r) && DoneLog(Exec(s, es), r)
    decreases |es|
  {
    if es != [] {
      StepKeepsDoneLog(s, r, es[0]);
      RunKeepsDoneLog(Step(s, es[0]), r, es[1..]);
    }
  }

  lemma {:induction false} BarredKeepsLog(s: System, r: RunnerId, job: TaskId, es: seq<Event>)
    requires OthersInv(s, r) && Barred(s.oneOff, s.server.tasks, s.runners[r], job)
    requires LogInv(s) && IsRun(s, es) && NoLoss(es)
    ensures LogInv(Exec(s, es))
    decreases |es|
  {
    if es != [] {
      StepKeepsBarred(s, r, job, es[0]);
      StepKeepsLog(s, es[0]);
      BarredKeepsLog(Step(s, es[0]), r, job, es[1..]);
    }
  }

  lemma {:induction false} NoLossIsOrderly(s: System, es: seq<Event>)
    requires IsRun(s, es) && NoLoss(es)
    ensures OrderlyRun(s, es)
    decreases |es|
  {
    if es != [] {
      NoLossIsOrderly(Step(s, es[0]), es[1..]);
    }
  }

  /** All accepted records of all jobs are in step with what was logged. */
  ghost predicate InStep(s: System) {
    forall r, id :: r in s.runners ==> Accepted(s.server, id, r) <= At(s.runners[r].logged, id)
  }

  lemma LogInvInStep(s: System)
    requires LogInv(s)
    ensures InStep(s)
  {
    forall r, id | r in s.runners ensures Accepted(s.server, id, r) <= At(s.runners[r].logged, id) {
      assert LogOk(s.server, r, s.runners[r], id);
    }
  }

  lemma DoneInStep(s: System, r: RunnerId)
    requires DoneLog(s, r)
    ensures InStep(s)
  {
    forall q, id | q in s.runners ensures Accepted(s.server, id, q) <= At(s.runners[q].logged, id) {
      if q != r {
        assert LogOk(s.server, q, s.runners[q], id);
      }
    }
  }

  /** The loss can put records out of step: its runner goes on, and the lost PUT carries records of
      a job that is still running there and not yet released, or leads to a second start. */
  ghost predicate Misleads(s: System, r: RunnerId)
    requires r in s.runners
  {
    !ExitsFirst(s.oneOff, s.runners[r].pool) && (DropsRecords(s.server, s.runners[r]) || Restarts(s, r))
  }

  lemma LossKeepsDoneLog(s: System, r: RunnerId)
    requires LogInv(s) && Enabled(s, LosePut(r)) && s.oneOff && Done(s.runners[r].(phase := Sent))
    ensures DoneLog(Step(s, LosePut(r)), r)
  {
    StepKeepsStrangers(s, LosePut(r));
    var s' := Step(s, LosePut(r));
    forall id ensures Accepted(s'.server, id, r) <= At(s'.runners[r].logged, id) {
      assert LogOk(s.server, r, s.runners[r], id);
    }
    forall q, id | q in s'.runners && q != r ensures LogOk(s'.server, q, s'.runners[q], id) {
      assert LogOk(s.server, q, s.runners[q], id);
    }
  }

  lemma ExitingIsInStep(s: System, r: RunnerId, later: seq<Event>)
    requires Inv(s) && LogInv(s) && Enabled(s, LosePut(r)) && ExitsFirst(s.oneOff, s.runners[r].pool)
    requires IsRun(Step(s, LosePut(r)), later) && NoLoss(later)
    ensures InStep(Exec(Step(s, LosePut(r)), later))
  {
    var job := LossBars(s, r);
    LossKeepsDoneLog(s, r);
    RunKeepsDoneLog(Step(s, LosePut(r)), r, later);
    DoneInStep(Exec(Step(s, LosePut(r)), later), r);
  }

  lemma StuckIsInStep(s: System, r: RunnerId, later: seq<Event>)
    requires Inv(s) && LogInv(s) && Enabled(s, LosePut(r)) && !DropsRecords(s.server, s.runners[r])
    requires Stuck(s.oneOff, s.server.tasks, s.runners[r].pool)
    requires IsRun(Step(s, LosePut(r)), later) && NoLoss(later)
    ensures InStep(Exec(Step(s, LosePut(r)), later))
  {
    InvIsBase(s);
    StepKeepsLog(s, LosePut(r));
    var job := LossBars(s, r);
    BarredKeepsLog(Step(s, LosePut(r)), r, job, later);
    LogInvInStep(Exec(Step(s, LosePut(r)), later));
  }

  lemma OrderlyLossIsInStep(s: System, r: RunnerId, later: seq<Event>)
    requires Inv(s) && LogInv(s) && Enabled(s, LosePut(r))
    requires !DropsRecords(s.server, s.runners[r]) && !Harmful(s.server.tasks, s.runners[r])
    requires IsRun(Step(s, LosePut(r)), later) && NoLoss(later)
    ensures InStep(Exec(Step(s, LosePut(r)), later))
  {
    InvIsBase(s);
    StepKeepsInv(s, LosePut(r));
    StepKeepsLog(s, LosePut(r));
    NoLossIsOrderly(Step(s, LosePut(r)), later);
    RunKeepsLog(Step(s, LosePut(r)), later);
    LogInvInStep(Exec(Step(s, LosePut(r)), later));
  }

  lemma OtherLossesAreInStep(s: System, r: RunnerId, later: seq<Event>)
    requires Inv(s) && LogInv(s) && Enabled(s, LosePut(r)) && !Misleads(s, r)
    requires IsRun(s, [LosePut(r)] + later) && NoLoss(later)
    ensures InStep(Exec(s, [LosePut(r)] + later))
  {
    assert ([LosePut(r)] + later)[1..] == later;
    if ExitsFirst(s.oneOff, s.runners[r].pool) {
      ExitingIsInStep(s, r, later);
    } else if Harmful(s.server.tasks, s.runners[r]) {
      StuckIsInStep(s, r, later);
    } else {
      OrderlyLossIsInStep(s, r, later);
    }
  }

  lemma MisleadingLoss(s: System, r: RunnerId) returns (later: seq<Event>)
    requires Inv(s) && LogInv(s) && Enabled(s, LosePut(r)) && Misleads(s, r)
    ensures NoLoss(later) && IsRun(s, [LosePut(r)] + later) && !InStep(Exec(s, [LosePut(r)] + later))
  {
    var id;
    if DropsRecords(s.server, s.runners[r]) {
      later, id := DroppedRecordsBreakOrder(s, r);
    } else {
      later, id := HarmfulLossBreaksOrder(s, r);
    }
  }

  /** In every state reached in order, losing the PUT in flight can put accepted records out of step
      if and only if its runner does not exit before anything else, and the PUT carries records of a
      job that is in its running jobs and not yet released by the server, or the loss leads to a
      second start. */
  lemma OutOfStepIffRecordsDropped(oneOff: bool, es: seq<Event>, r: RunnerId)
    requires IsRun(Init(oneOff), es) && OrderlyRun(Init(oneOff), es)
    requires Enabled(Exec(Init(oneOff), es), LosePut(r))
    ensures var s := Exec(Init(oneOff), es);
            Misleads(s, r) <==>
            exists later: seq<Event> {:trigger NoLoss(later)} :: NoLoss(later) && IsRun(s, [LosePut(r)] + later) &&
              !InStep(Exec(s, [LosePut(r)] + later))
  {
    var s := Exec(Init(oneOff), es);
    RunKeepsLog(Init(oneOff), es);
    if Misleads(s, r) {
      var later := MisleadingLoss(s, r);
    } else {
      forall later: seq<Event> | NoLoss(later) && IsRun(s, [LosePut(r)] + later)
        ensures InStep(Exec(s, [LosePut(r)] + later))
      {
        OtherLossesAreInStep(s, r, later);
      }
    }
  }
}
