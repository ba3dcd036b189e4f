/** Stop requests in the life of a task: whether one takes effect depends on where the pool has the
    task at that moment, because a request that does not find the task runner sets the status of a
    copy read from the store. Every save succeeds here: one that fails ends the process. */
module StopRequests {
  import opened Options
  import opened TaskStatus
  import opened TaskRunners

  /** Where the pool has a task: created in the store and not registered yet, in the queue, taken off
      it while its lock message travels, in the list of running tasks, or out of the pool. */
  datatype Place = Created | Queued | Transit | Listed | Released

  /** How far its run is: it has not begun, it goes on, it has sent its unlock message and has yet to
      save the end time, or it is over. */
  datatype Phase = NotBegun | Going | Leaving | Over

  datatype State = State(place: Place, life: Life, phase: Phase)

  /** What happens to a task: it is rejected or registered; the pool moves it along, or drops it as
      failed; its run begins, leaves and ends; a status is set by its run, its job or a runner's PUT;
      users ask for it to be stopped. */
  datatype PoolEvent =
    | Reject
    | Register
    | Dispatch
    | Drop
    | Lock
    | Begin
    | Set(status: Status)
    | Leave
    | Finish
    | Release
    | Stop(force: bool)

  const INIT := State(Created, Life(Row(Waiting, false, false), Row(Waiting, false, false)), NotBegun)

  /** The places where the pool finds a task. */
  predicate InPool(p: Place) {
    p.Queued? || p.Listed?
  }

  /** Nothing holds the task's runner any more: it was rejected or dropped, or its run is over. */
  predicate Gone(s: State) {
    s.place.Released? && !s.phase.Leaving?
  }

  /** A found task runner takes the request itself; otherwise only the stored row does. */
  function StopTask(l: Life, found: bool, force: bool): Life {
    if found then SetStatus(l, if force then Stopped else Stopping, true)
    else l.(row := SetStatus(Life(l.row, l.row), Stopped, true).row)
  }

  predicate Enabled(s: State, e: PoolEvent) {
    match e
    case Reject => s.place.Created?
    case Register => s.place.Created?
    case Dispatch => s.place.Queued? && s.life.task.status != Error
    case Drop => s.place.Queued? && s.life.task.status == Error
    case Lock => s.place.Transit?
    case Begin => (s.place.Transit? || s.place.Listed?) && s.phase.NotBegun?
    case Set(_) => s.phase.Going? || InPool(s.place)
    case Leave => s.place.Listed? && s.phase.Going?
    case Finish => s.phase.Leaving?
    case Release => s.place.Listed? && (s.phase.Leaving? || s.phase.Over?)
    case Stop(_) => true
  }

  function Move(s: State, e: PoolEvent): State
    requires Enabled(s, e)
  {
    match e
    case Reject => s.(place := Released, life := SetStatus(s.life, Error, true))
    case Register => s.(place := Queued, life := Save(s.life, true))
    case Dispatch => s.(place := Transit)
    case Drop => s.(place := Released)
    case Lock => s.(place := Listed)
    case Begin =>
      s.(phase := Going,
         life := SetStatus(s.life, if s.life.task.status == Stopping then Stopped else Starting, true))
    case Set(status) => s.(life := SetStatus(s.life, status, true))
    case Leave => s.(phase := Leaving)
    case Finish => s.(phase := Over, life := Step(s.life, End(true)))
    case Release => s.(place := Released)
    case Stop(force) => s.(life := StopTask(s.life, InPool(s.place), force))
  }

  predicate IsRun(s: State, es: seq<PoolEvent>)
    decreases |es|, 0
  {
    es == [] || (IsRun(s, es[..|es| - 1]) && Enabled(After(s, es[..|es| - 1]), es[|es| - 1]))
  }

  function After(s: State, es: seq<PoolEvent>): State
    requires IsRun(s, es)
    decreases |es|, 1
  {
    if es == [] then s else Move(After(s, es[..|es| - 1]), es[|es| - 1])
  }

  lemma RunAppend(s: State, es: seq<PoolEvent>, e: PoolEvent)
    requires IsRun(s, es) && Enabled(After(s, es), e)
    ensures IsRun(s, es + [e]) && After(s, es + [e]) == Move(After(s, es), e)
  {
    assert (es + [e])[..|es|] == es;
  }

  // ---------------------------------------------------------------- where a task can be

  /** The row shows the task's status, or the mark of a request that missed it; and the run begins
      after the dispatch and leaves from the running list. */
  ghost predicate Sound(s: State) {
    && (s.life.row.status == s.life.task.status || s.life.row.status == Stopped)
    && (s.place.Created? ==> s.phase.NotBegun? && s.life.task.status == Waiting)
    && (s.place.Queued? ==> s.phase.NotBegun?)
    && (s.place.Transit? ==> s.phase.NotBegun? || s.phase.Going?)
    && (s.place.Released? ==> !s.phase.Going?)
    && (s.place.Released? && s.phase.NotBegun? ==> s.life.task.status == Error)
    && (s.life.task.end <==> s.phase.Over?)
  }

  lemma {:induction false} RunsAreSound(es: seq<PoolEvent>)
    requires IsRun(INIT, es)
    ensures Sound(After(INIT, es))
  {
    if es != [] {
      RunsAreSound(es[..|es| - 1]);
    }
  }

  /** A task leaves the pool without a run only if it has failed, and its end time is set exactly once its
      run is over. */
  lemma NoRunMeansFailed(es: seq<PoolEvent>)
    requires IsRun(INIT, es)
    ensures var s := After(INIT, es);
            && (s.place.Released? && s.phase.NotBegun? ==> s.life.task.status == Error)
            && (s.life.task.end <==> s.phase.Over?)
  {
    RunsAreSound(es);
  }

  // ---------------------------------------------------------------- a forced stop

  /** The stop is in force: the row shows it, and so does the task in memory while there is one. */
  predicate IsStopped(s: State) {
    s.life.row.status == Stopped && (Gone(s) || s.life.task.status == Stopped)
  }

  lemma {:induction false} StoppedStays(s: State, es: seq<PoolEvent>)
    requires IsStopped(s) && Sound(s) && IsRun(s, es)
    ensures IsStopped(After(s, es)) && Sound(After(s, es))
  {
    if es != [] {
      StoppedStays(s, es[..|es| - 1]);
    }
  }

  lemma Two(s: State, a: PoolEvent, b: PoolEvent)
    requires Enabled(s, a) && Enabled(Move(s, a), b)
    ensures IsRun(s, [a, b]) && After(s, [a, b]) == Move(Move(s, a), b)
  {
    RunAppend(s, [], a);
    assert [] + [a] == [a];
    RunAppend(s, [a], b);
    assert [a] + [b] == [a, b];
  }

  lemma {:induction false} RunConcat(s: State, es: seq<PoolEvent>, later: seq<PoolEvent>)
    requires IsRun(s, es) && IsRun(After(s, es), later)
    ensures IsRun(s, es + later) && After(s, es + later) == After(After(s, es), later)
  {
    if later == [] {
      assert es + later == es;
    } else {
      var init, last := later[..|later| - 1], later[|later| - 1];
      RunConcat(s, es, init);
      RunAppend(s, es + init, last);
      assert es + later == (es + init) + [last];
    }
  }

  /** The task is out of the pool for good with a row that does not show a stop. */
  ghost predicate Undone(s: State) {
    exists later :: IsRun(s, later) && Gone(After(s, later)) && After(s, later).life.row.status != Stopped
  }

  lemma UndoneBefore(s: State, e: PoolEvent)
    requires Enabled(s, e) && Undone(Move(s, e))
    ensures Undone(s)
  {
    var later :| IsRun(Move(s, e), later) && Gone(After(Move(s, e), later)) &&
        After(Move(s, e), later).life.row.status != Stopped;
    RunAppend(s, [], e);
    assert [] + [e] == [e];
    RunConcat(s, [e], later);
  }

  /** The end of a run saves the task over whatever the row holds. */
  lemma EndUndoes(s: State)
    requires s.phase.Leaving? && s.life.task.status != Stopped && (s.place.Listed? || s.place.Released?)
    ensures Undone(s)
  {
    if s.place.Listed? {
      Two(s, Finish, Release);
    } else {
      RunAppend(s, [], Finish);
      assert [] + [Finish] == [Finish];
    }
  }

  /** A task that is in the pool or on its way there, and not stopped in memory, can end otherwise. */
  lemma RunUndoes(s: State)
    requires s.place.Listed? && (s.phase.NotBegun? || s.phase.Going?) && s.life.task.status != Stopped
    ensures Undone(s)
  {
    if s.phase.NotBegun? {
      var failed := Move(s, Set(Error));
      EndUndoes(Move(Move(failed, Begin), Leave));
      UndoneBefore(Move(failed, Begin), Leave);
      UndoneBefore(failed, Begin);
      UndoneBefore(s, Set(Error));
    } else {
      EndUndoes(Move(s, Leave));
      UndoneBefore(s, Leave);
    }
  }

  lemma MissedStopIsUndone(s: State)
    requires Sound(s) && !InPool(s.place) && !Gone(s) && s.life.task.status != Stopped
    ensures Undone(s)
  {
    if s.place.Transit? {
      RunUndoes(Move(s, Lock));
      UndoneBefore(s, Lock);
    } else if s.place.Created? {
      var queued := Move(s, Register);
      RunUndoes(Move(Move(queued, Dispatch), Lock));
      UndoneBefore(Move(queued, Dispatch), Lock);
      UndoneBefore(queued, Dispatch);
      UndoneBefore(s, Register);
    } else {
      EndUndoes(s);
    }
  }

  /** The stop is in force and stays so in every later interleaving. */
  ghost predicate StaysStopped(s: State) {
    forall later :: IsRun(s, later) ==> IsStopped(After(s, later))
  }

  lemma StoppedForGood(s: State)
    requires Sound(s) && IsStopped(s)
    ensures StaysStopped(s) && !Undone(s)
  {
    forall later | IsRun(s, later) ensures IsStopped(After(s, later)) {
      StoppedStays(s, later);
    }
  }

  lemma UndoneIsNotStopped(s: State)
    requires Undone(s)
    ensures !StaysStopped(s)
  {
    var later :| IsRun(s, later) && Gone(After(s, later)) && After(s, later).life.row.status != Stopped;
    assert !IsStopped(After(s, later));
  }

  /** A forced stop, whenever it comes, is in force at once and in every later interleaving if and
      only if the pool finds the task, or the task is stopped already, or nothing will touch the row
      again: the task was rejected or dropped, or its run is over. Otherwise - before the task is
      registered, while its lock message travels, or between its release and the last save of its
      run - some continuation leaves the row for good without the stop. */
  lemma ForcedStopHoldsIff(es: seq<PoolEvent>)
    requires IsRun(INIT, es)
    ensures var s := After(INIT, es);
            var holds := InPool(s.place) || s.life.task.status == Stopped || Gone(s);
            (holds <==> StaysStopped(Move(s, Stop(true)))) && (!holds <==> Undone(Move(s, Stop(true))))
  {
    RunsAreSound(es);
    var s := After(INIT, es);
    if InPool(s.place) || s.life.task.status == Stopped || Gone(s) {
      StoppedForGood(Move(s, Stop(true)));
    } else {
      MissedStopIsUndone(Move(s, Stop(true)));
      UndoneIsNotStopped(Move(s, Stop(true)));
    }
  }

  // ---------------------------------------------------------------- a request that is missed

  /** The event writes the task in memory to the store. */
  predicate Saves(s: State, e: PoolEvent)
    requires Enabled(s, e)
  {
    match e
    case Register => true
    case Finish => true
    case Stop(force) => InPool(s.place) && Move(s, e).life.task.status != s.life.task.status
    case _ => Move(s, e).life.task.status != s.life.task.status
  }

  ghost predicate NoStops(es: seq<PoolEvent>) {
    forall i :: 0 <= i < |es| ==> !es[i].Stop?
  }

  /** The task as it was when it was last written to the store. */
  function LastSaved(s: State, es: seq<PoolEvent>): Option<Row>
    requires IsRun(s, es)
  {
    if es == [] then None
    else if Saves(After(s, es[..|es| - 1]), es[|es| - 1]) then Some(After(s, es).life.task)
    else LastSaved(s, es[..|es| - 1])
  }

  /** Between stop requests the row is the task as it was last saved. */
  lemma {:induction false} RowIsLastSaved(s: State, es: seq<PoolEvent>)
    requires IsRun(s, es) && NoStops(es)
    ensures After(s, es).life.row == match LastSaved(s, es) { case None => s.life.row case Some(task) => task }
  {
    if es != [] {
      RowIsLastSaved(s, es[..|es| - 1]);
    }
  }

  /** A request that misses the task runner marks the row as stopped and leaves the task alone; the
      mark survives exactly until the task is next saved in another status. */
  lemma MissedStopSurvivesIff(s: State, force: bool, later: seq<PoolEvent>)
    requires !InPool(s.place) && NoStops(later) && IsRun(Move(s, Stop(force)), later)
    ensures var after := Move(s, Stop(force));
            && after.life.task == s.life.task && after.life.row.status == Stopped
            && (After(after, later).life.row.status == Stopped <==>
                  LastSaved(after, later).None? || LastSaved(after, later).value.status == Stopped)
  {
    RowIsLastSaved(Move(s, Stop(force)), later);
  }

  /** A queued task that is dispatched, stopped by force and listed starts as if nothing had been
      asked. */
  lemma StopInTransitIsLost(s: State)
    requires s.place.Queued? && s.phase.NotBegun? && s.life.task.status == Waiting
    ensures var es := [Dispatch, Stop(true)] + [Lock, Begin];
            IsRun(s, es) && After(s, es).life.row.status == Starting && After(s, es).life.task.status == Starting
  {
    var missed := Move(Move(s, Dispatch), Stop(true));
    Two(s, Dispatch, Stop(true));
    Two(missed, Lock, Begin);
    RunConcat(s, [Dispatch, Stop(true)], [Lock, Begin]);
  }

  // ---------------------------------------------------------------- a whole run in the pool

  function Sets(reports: seq<Status>): seq<PoolEvent> {
    seq(|reports|, i requires 0 <= i < |reports| => Set(reports[i]))
  }

  lemma {:induction false} SetsReport(s: State, reports: seq<Status>)
    requires s.phase.Going?
    ensures IsRun(s, Sets(reports)) && After(s, Sets(reports)).phase.Going?
    ensures After(s, Sets(reports)).place == s.place
    ensures After(s, Sets(reports)).life.task.status == Reports(s.life.task.status, reports)
    decreases |reports|
  {
    if reports != [] {
      var init, last := reports[..|reports| - 1], reports[|reports| - 1];
      SetsReport(s, init);
      RunAppend(s, Sets(init), Set(last));
      assert Sets(reports) == Sets(init) + [Set(last)];
    }
  }

  /** The statuses that `run` sets once the job has returned. */
  function LastSets(reported: Status, ok: bool): seq<Status> {
    if !ok then [Error] else if reported == Running then [Success] else []
  }

  /** The events of a run that begins in the pool, reports and returns lead to the status that `AfterRun`
      gives; a task that was to be stopped reports nothing. */
  lemma RunInPool(s: State, reports: seq<Status>, ok: bool)
    requires Enabled(s, Begin)
    ensures var status := s.life.task.status;
            var all := reports + LastSets(Reports(NextStatus(status, Starting), reports), ok);
            var es := [Begin] + (if status == Stopping then [] else Sets(all));
            IsRun(s, es) && After(s, es).life.task.status == AfterRun(status, reports, ok)
  {
    RunAppend(s, [], Begin);
    assert [] + [Begin] == [Begin] && [Begin] + [] == [Begin];
    if s.life.task.status != Stopping {
      var first := NextStatus(s.life.task.status, Starting);
      var last := LastSets(Reports(first, reports), ok);
      SetsReport(Move(s, Begin), reports + last);
      RunConcat(s, [Begin], Sets(reports + last));
      ReportsConcat(first, reports, last);
      assert last != [] ==> last[..0] == [];
    }
  }

  // ---------------------------------------------------------------- a stop before the run

  /** A stop request for a queued task is found, and the run ends stopped whatever the job reports.
      But the task is still dispatched, and its job is executed exactly if the stop was forced or the
      task was stopped before: only a soft stop prevents the job. */
  lemma QueuedStopAndJob(s: State, force: bool, reports: seq<Status>, ok: bool)
    requires s.place.Queued?
    ensures var after := Move(s, Stop(force));
            && Enabled(after, Dispatch)
            && (ExecutesJob(after.life.task.status) <==> force || s.life.task.status == Stopped)
            && AfterRun(after.life.task.status, reports, ok) == Stopped
  {
    RunEnds(Move(s, Stop(force)).life.task.status, reports, ok);
  }
}
