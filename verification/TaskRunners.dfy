/** The status of one task: `SetStatus` driven from many places, the stored row, and what a whole
    `run` makes of it. */
module TaskRunners {
  import opened TaskStatus

  /** The row of the task in the store; times only as set or not set. */
  datatype Row = Row(status: Status, start: bool, end: bool)

  /** A task runner in memory with the row the store holds for it. */
  datatype Life = Life(task: Row, row: Row)

  /** A report of a status from anywhere - the scheduler, `run`, the job, a stop request, a
      runner's PUT - or the end of `run`. `saved` says whether the store takes the update. */
  datatype Event = Report(status: Status, saved: bool) | End(saved: bool)

  function Save(l: Life, saved: bool): Life {
    if saved then l.(row := l.task) else l
  }

  function SetStatus(l: Life, status: Status, saved: bool): Life {
    if NextStatus(l.task.status, status) == l.task.status then l
    else Save(l.(task := l.task.(status := status, start := l.task.start || status == Running)), saved)
  }

  function Step(l: Life, e: Event): Life {
    match e
    case Report(status, saved) => SetStatus(l, status, saved)
    case End(saved) => Save(l.(task := l.task.(end := true)), saved)
  }

  function Exec(l: Life, es: seq<Event>): Life {
    if es == [] then l else Step(Exec(l, es[..|es| - 1]), es[|es| - 1])
  }

  // ---------------------------------------------------------------- status runs

  lemma {:induction false} StoppedForEver(l: Life, es: seq<Event>)
    requires l.task.status == Stopped
    ensures Exec(l, es).task.status == Stopped
  {
    if es != [] {
      StoppedForEver(l, es[..|es| - 1]);
    }
  }

  /** Only stopped is absorbing: every other status can be left. */
  lemma OnlyStoppedAbsorbs(s: Status)
    ensures (forall next :: NextStatus(s, next) == s) <==> s == Stopped
  {
    assert s != Stopped ==> NextStatus(s, if s == Error then Success else Error) != s;
  }

  /** Event `i` takes the task into running. */
  predicate EntersRunning(l: Life, es: seq<Event>, i: int) {
    && 0 <= i < |es|
    && Exec(l, es[..i]).task.status != Running
    && Exec(l, es[..i + 1]).task.status == Running
  }

  lemma EntersRunningPrefix(l: Life, es: seq<Event>, i: int)
    requires 0 <= i < |es| - 1
    ensures EntersRunning(l, es[..|es| - 1], i) <==> EntersRunning(l, es, i)
  {
    var init := es[..|es| - 1];
    assert init[..i] == es[..i] && init[..i + 1] == es[..i + 1];
  }

  lemma EntersRunningLast(l: Life, es: seq<Event>)
    requires es != []
    ensures var init := es[..|es| - 1];
            && (EntersRunning(l, es, |es| - 1) <==>
                 Exec(l, init).task.status != Running && Exec(l, es).task.status == Running)
            && (Exec(l, es).task.start <==> Exec(l, init).task.start || EntersRunning(l, es, |es| - 1))
  {
    assert es[..|es| - 1 + 1] == es;
  }

  /** The start time is set exactly if it was before or the task entered running since. */
  lemma {:induction false} StartMeansRunning(l: Life, es: seq<Event>)
    ensures Exec(l, es).task.start <==> l.task.start || exists i :: EntersRunning(l, es, i)
  {
    if es != [] {
      var init := es[..|es| - 1];
      StartMeansRunning(l, init);
      EntersRunningLast(l, es);
      forall i | 0 <= i < |es| - 1 ensures EntersRunning(l, init, i) <==> EntersRunning(l, es, i) {
        EntersRunningPrefix(l, es, i);
      }
    }
  }

  /** While the store takes every update, the row equals the task in memory. */
  lemma {:induction false} RowFollowsTask(l: Life, es: seq<Event>)
    requires l.row == l.task && forall i :: 0 <= i < |es| ==> es[i].saved
    ensures Exec(l, es).row == Exec(l, es).task
  {
    if es != [] {
      RowFollowsTask(l, es[..|es| - 1]);
    }
  }

  /** Updates that the store does not take leave the row as it was. */
  lemma {:induction false} UnsavedKeepsRow(l: Life, es: seq<Event>)
    requires forall i :: 0 <= i < |es| ==> !es[i].saved
    ensures Exec(l, es).row == l.row
  {
    if es != [] {
      UnsavedKeepsRow(l, es[..|es| - 1]);
    }
  }

  /** The end time is set exactly if it was before or the run has ended since. */
  lemma {:induction false} EndMeansEnded(l: Life, es: seq<Event>)
    ensures Exec(l, es).task.end <==> l.task.end || exists i :: 0 <= i < |es| && es[i].End?
  {
    if es != [] {
      var init := es[..|es| - 1];
      EndMeansEnded(l, init);
      assert forall i :: 0 <= i < |init| ==> init[i] == es[i];
    }
  }

  // ---------------------------------------------------------------- a whole run

  function Reports(s: Status, reports: seq<Status>): Status {
    if reports == [] then s else NextStatus(Reports(s, reports[..|reports| - 1]), reports[|reports| - 1])
  }

  /** The status after `run`, where `reports` are the statuses set while the job was at work. */
  function AfterRun(s: Status, reports: seq<Status>, ok: bool): Status {
    if s == Stopping then Stopped
    else
      var reported := Reports(NextStatus(s, Starting), reports);
      if !ok then NextStatus(reported, Error)
      else if reported == Running then Success
      else reported
  }

  /** A task that is to be stopped when its run begins is not executed; any other is, a stopped one
      included. */
  predicate ExecutesJob(s: Status) {
    s != Stopping
  }

  lemma {:induction false} ReportedStop(s: Status, reports: seq<Status>)
    ensures s == Stopped || Stopped in reports <==> Reports(s, reports) == Stopped
  {
    if reports != [] {
      ReportedStop(s, reports[..|reports| - 1]);
      assert reports == reports[..|reports| - 1] + [reports[|reports| - 1]];
    }
  }

  /** Success and error are the final status exactly if they are the last report and no stop came. */
  lemma {:induction false} ReportedEnd(s: Status, reports: seq<Status>, final: Status)
    requires final == Error || final == Success
    ensures Reports(s, reports) == final <==>
            s != Stopped && Stopped !in reports && (if reports == [] then s else reports[|reports| - 1]) == final
  {
    ReportedStop(s, reports);
    if reports != [] {
      var init := reports[..|reports| - 1];
      ReportedStop(s, init);
      assert reports == init + [reports[|reports| - 1]];
    }
  }

  /** A run ends stopped exactly if the task was stopping or stopped at its start or was stopped
      during it. It ends failed exactly if no stop came and the job returned an error or reported one
      last. */
  lemma RunEnds(s: Status, reports: seq<Status>, ok: bool)
    ensures var stopped := s == Stopping || s == Stopped || Stopped in reports;
            && (AfterRun(s, reports, ok) == Stopped <==> stopped)
            && (AfterRun(s, reports, ok) == Error <==>
                  !stopped && (!ok || (reports != [] && reports[|reports| - 1] == Error)))
  {
    ReportedStop(NextStatus(s, Starting), reports);
    ReportedEnd(NextStatus(s, Starting), reports, Error);
  }

  lemma {:induction false} ReportsConcat(s: Status, a: seq<Status>, b: seq<Status>)
    ensures Reports(s, a + b) == Reports(Reports(s, a), b)
  {
    if b == [] {
      assert a + b == a;
    } else {
      assert (a + b)[..|a + b| - 1] == a + b[..|b| - 1];
      ReportsConcat(s, a, b[..|b| - 1]);
    }
  }

  /** The reports that some status refuses. */
  predicate IsWeak(s: Status) {
    s == Waiting || s == Running
  }

  lemma {:induction false} WeakReports(s: Status, weak: seq<Status>)
    requires s != Stopped && !IsWeak(s) && forall i :: 0 <= i < |weak| ==> IsWeak(weak[i])
    ensures Reports(s, weak) ==
            if weak == [] || s == Stopping then s else if Running in weak then Running else Waiting
  {
    if weak != [] {
      var init, last := weak[..|weak| - 1], weak[|weak| - 1];
      WeakReports(s, init);
      assert weak == init + [last];
    }
  }

  /** A run ends unfinished exactly if no stop came, the job returned without an error, and its last
      report other than waiting and running left the task stopping, or no report of running came
      after it and the last report of all is unfinished too. */
  lemma RunEndsUnfinished(s: Status, reports: seq<Status>, weak: seq<Status>, ok: bool)
    requires reports != [] ==> !IsWeak(reports[|reports| - 1])
    requires forall i :: 0 <= i < |weak| ==> IsWeak(weak[i])
    ensures var stopped := s == Stopping || s == Stopped || Stopped in reports;
            var strong := if reports == [] then Starting else reports[|reports| - 1];
            !IsFinished(AfterRun(s, reports + weak, ok)) <==>
            !stopped && ok && (strong == Stopping || (Running !in weak && (weak != [] || !IsFinished(strong))))
  {
    var first := NextStatus(s, Starting);
    ReportsConcat(first, reports, weak);
    ReportedStop(first, reports);
    ReportedStop(first, reports + weak);
    if s != Stopping && s != Stopped && Stopped !in reports {
      WeakReports(Reports(first, reports), weak);
    }
  }

  /** A soft stop that the job answers by returning without an error leaves the task stopping. */
  lemma SoftStopCanStick()
    ensures AfterRun(Waiting, [Running, Stopping], true) == Stopping
  {
    assert [Running, Stopping][..1] == [Running] && [Running][..0] == [];
    assert Reports(Starting, [Running]) == Running;
  }

  // ---------------------------------------------------------------- the task runner

  class TaskRunner {
    var status: Status
    var start: bool
    var end: bool
    var row: Row

    ghost function Model(): Life
      reads this
    {
      Life(Row(status, start, end), row)
    }

    constructor (row: Row)
      ensures Model() == Life(row, row)
    {
      status, start, end := row.status, row.start, row.end;
      this.row := row;
    }

    method SaveStatus(saved: bool)
      modifies this`row
      ensures Model() == Save(old(Model()), saved)
    {
      if saved {
        row := Row(status, start, end);
      }
    }

    method SetStatus(next: Status, saved: bool)
      modifies this
      ensures Model() == Step(old(Model()), Report(next, saved))
    {
      if next == status {
        return;
      }
      match status {
        case Running =>
          if next == Waiting {
            return;
          }
        case Stopping =>
          if next == Waiting || next == Running {
            return;
          }
        case Stopped =>
          return;
        case _ =>
      }
      status := next;
      if next == Running {
        start := true;
      }
      SaveStatus(saved);
    }

    /** `run` around an opaque job that reports `reports` and succeeds or not. A save that fails ends
        the process, so every save of a run that goes on succeeds. */
    method Run(reports: seq<Status>, ok: bool) returns (executed: bool)
      modifies this
      ensures status == AfterRun(old(status), reports, ok)
      ensures executed <==> old(status) != Stopping
      ensures end && row == Row(status, start, end)
    {
      if status == Stopping {
        SetStatus(Stopped, true);
        end := true;
        SaveStatus(true);
        return false;
      }
      SetStatus(Starting, true);
      executed := true;
      for i := 0 to |reports|
        invariant status == Reports(NextStatus(old(status), Starting), reports[..i])
      {
        assert reports[..i + 1][..i] == reports[..i];
        SetStatus(reports[i], true);
      }
      assert reports[..|reports|] == reports;
      if !ok {
        SetStatus(Error, true);
      } else if status == Running {
        SetStatus(Success, true);
      }
      end := true;
      SaveStatus(true);
    }
  }
}
