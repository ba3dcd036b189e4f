/** Choosing a remote runner for a task by the number of running tasks it already has. */
module RunnerAllocation {
  import opened Collections
  import opened Options

  datatype Runner = Runner(id: int, maxParallel: int)

  /** The runner of every listed task; zero until one is assigned. */
  type Assignment = map<int, int>

  function TasksOf(running: Assignment, r: int): set<int> {
    set t | t in running && running[t] == r
  }

  function Load(running: Assignment, r: int): nat {
    |TasksOf(running, r)|
  }

  /** `r` is the first runner of the list with spare capacity. */
  ghost predicate IsFirstSpare(runners: seq<Runner>, running: Assignment, r: Runner) {
    exists i :: 0 <= i < |runners| && runners[i] == r && Load(running, r.id) < r.maxParallel &&
                forall j :: 0 <= j < i ==> Load(running, runners[j].id) >= runners[j].maxParallel
  }

  /** Runner ids are distinct and not zero. */
  ghost predicate Wellformed(runners: seq<Runner>) {
    && (forall i :: 0 <= i < |runners| ==> runners[i].id != 0)
    && (forall i, j :: 0 <= i < j < |runners| ==> runners[i].id != runners[j].id)
  }

  ghost predicate WithinCapacity(runners: seq<Runner>, running: Assignment) {
    forall i :: 0 <= i < |runners| ==>
        Load(running, runners[i].id) == 0 || Load(running, runners[i].id) <= runners[i].maxParallel
  }

  // ---------------------------------------------------------------- loads

  lemma LoadAfterAssign(running: Assignment, t: int, r: int, q: int)
    requires t in running && running[t] != r
    ensures Load(running[t := r], q) ==
            (if q == r then Load(running, q) + 1 else if q == running[t] then Load(running, q) - 1
                else Load(running, q))
  {
    var after := running[t := r];
    if q == r {
      SameMembers(TasksOf(after, q), TasksOf(running, q) + {t});
    } else if q == running[t] {
      SameMembers(TasksOf(after, q), TasksOf(running, q) - {t});
    } else {
      SameMembers(TasksOf(after, q), TasksOf(running, q));
    }
  }

  lemma LoadAfterList(running: Assignment, t: int, q: int)
    requires t !in running && q != 0
    ensures Load(running[t := 0], q) == Load(running, q)
  {
    SameMembers(TasksOf(running[t := 0], q), TasksOf(running, q));
  }

  lemma LoadAfterUnlist(running: Assignment, t: int, q: int)
    ensures Load(running - {t}, q) <= Load(running, q)
  {
    SubsetByMembers(TasksOf(running - {t}, q), TasksOf(running, q));
    SubsetSize(TasksOf(running - {t}, q), TasksOf(running, q));
  }

  lemma SameMembers(a: set<int>, b: set<int>)
    requires forall x :: x in a <==> x in b
    ensures a == b
  {
    SubsetByMembers(a, b);
    SubsetByMembers(b, a);
  }

  // ---------------------------------------------------------------- runs

  /** Tasks are listed and unlisted; choosing a runner and assigning it are separate steps, with
      a call to the runner's webhook in between. */
  datatype Event = List(t: int) | Choose(t: int) | Assign(t: int) | Unlist(t: int)

  datatype State = State(running: Assignment, chosen: map<int, int>)

  ghost predicate Enabled(runners: seq<Runner>, s: State, e: Event) {
    match e
    case List(t) => t !in s.running && t !in s.chosen
    case Choose(t) =>
      t in s.running && s.running[t] == 0 && t !in s.chosen && exists r :: IsFirstSpare(runners, s.running, r)
    case Assign(t) => t in s.chosen && t in s.running
    case Unlist(t) => t in s.running && t !in s.chosen
  }

  ghost function FirstSpare(runners: seq<Runner>, running: Assignment): Runner
    requires exists r :: IsFirstSpare(runners, running, r)
  {
    var r :| IsFirstSpare(runners, running, r);
    r
  }

  ghost function Step(runners: seq<Runner>, s: State, e: Event): State
    requires Enabled(runners, s, e)
  {
    match e
    case List(t) => s.(running := s.running[t := 0])
    case Choose(t) => s.(chosen := s.chosen[t := FirstSpare(runners, s.running).id])
    case Assign(t) => State(s.running[t := s.chosen[t]], s.chosen - {t})
    case Unlist(t) => s.(running := s.running - {t})
  }

  ghost predicate IsRun(runners: seq<Runner>, s: State, es: seq<Event>)
    decreases |es|
  {
    es == [] || (Enabled(runners, s, es[0]) && IsRun(runners, Step(runners, s, es[0]), es[1..]))
  }

  ghost function Exec(runners: seq<Runner>, s: State, es: seq<Event>): State
    requires IsRun(runners, s, es)
    decreases |es|
  {
    if es == [] then s else Exec(runners, Step(runners, s, es[0]), es[1..])
  }

  /** Nothing but unlisting happens between a choice and the assignment that follows it. */
  predicate Serial(es: seq<Event>) {
    forall i :: 0 <= i < |es| && es[i].Choose? ==> i + 1 < |es| && es[i + 1] == Assign(es[i].t)
  }

  ghost predicate Clean(runners: seq<Runner>, s: State) {
    && WithinCapacity(runners, s.running)
    && (forall t :: t in s.chosen ==>
          && t in s.running && s.running[t] == 0 && s.chosen[t] != 0
          && exists i :: 0 <= i < |runners| && runners[i].id == s.chosen[t])
  }

  lemma ChosenIsSpare(runners: seq<Runner>, s: State, t: int)
    requires Wellformed(runners) && Enabled(runners, s, Choose(t))
    ensures exists i :: 0 <= i < |runners| && runners[i].id == Step(runners, s, Choose(t)).chosen[t] &&
                        Load(s.running, runners[i].id) < runners[i].maxParallel
  {
    var r := FirstSpare(runners, s.running);
    assert IsFirstSpare(runners, s.running, r);
  }

  /** An assignment keeps every runner within its capacity exactly if the chosen runner still
      has spare capacity when the assignment is made. */
  lemma AssignmentFitsIff(runners: seq<Runner>, s: State, t: int, i: int)
    requires Wellformed(runners) && Clean(runners, s) && t in s.chosen
    requires 0 <= i < |runners| && runners[i].id == s.chosen[t]
    ensures WithinCapacity(runners, s.running[t := s.chosen[t]]) <==>
            Load(s.running, runners[i].id) < runners[i].maxParallel
  {
    var after := s.running[t := s.chosen[t]];
    forall j | 0 <= j < |runners|
      ensures Load(after, runners[j].id) == Load(s.running, runners[j].id) + (if j == i then 1 else 0)
    {
      LoadAfterAssign(s.running, t, s.chosen[t], runners[j].id);
    }
  }

  lemma OtherStepsKeepClean(runners: seq<Runner>, s: State, e: Event)
    requires Wellformed(runners) && Clean(runners, s) && Enabled(runners, s, e) && !e.Assign?
    ensures Clean(runners, Step(runners, s, e))
  {
    match e
    case List(t) =>
      forall i | 0 <= i < |runners| ensures Load(s.running[t := 0], runners[i].id) == Load(s.running, runners[i].id) {
        LoadAfterList(s.running, t, runners[i].id);
      }
    case Unlist(t) =>
      forall i | 0 <= i < |runners| ensures Load(s.running - {t}, runners[i].id) <= Load(s.running, runners[i].id) {
        LoadAfterUnlist(s.running, t, runners[i].id);
      }
    case Choose(t) =>
      ChosenIsSpare(runners, s, t);
  }

  /** When choosing and assigning is one step, no runner ever has more tasks than it allows. */
  lemma {:induction false} SerialRunsStayWithinCapacity(runners: seq<Runner>, s: State, es: seq<Event>)
    requires Wellformed(runners) && Clean(runners, s) && s.chosen == map[] && IsRun(runners, s, es) && Serial(es)
    ensures WithinCapacity(runners, Exec(runners, s, es).running)
    decreases |es|
  {
    if es != [] {
      var e := es[0];
      assert forall i :: 0 <= i < |es| - 1 ==> es[1..][i] == es[i + 1];
      if e.Choose? {
        var t := e.t;
        var s1 := Step(runners, s, e);
        OtherStepsKeepClean(runners, s, e);
        ChosenIsSpare(runners, s, t);
        var i :| 0 <= i < |runners| && runners[i].id == s1.chosen[t] &&
            Load(s.running, runners[i].id) < runners[i].maxParallel;
        AssignmentFitsIff(runners, s1, t, i);
        assert es[1..][0] == Assign(t);
        var s2 := Step(runners, s1, Assign(t));
        assert s2.chosen == map[];
        var rest := es[1..][1..];
        assert forall k :: 0 <= k < |rest| ==> rest[k] == es[k + 2];
        SerialRunsStayWithinCapacity(runners, s2, rest);
      } else {
        OtherStepsKeepClean(runners, s, e);
        SerialRunsStayWithinCapacity(runners, Step(runners, s, e), es[1..]);
      }
    }
  }

  // ---------------------------------------------------------------- pending choices

  function PendingTasks(chosen: map<int, int>, r: int): set<int> {
    set t | t in chosen && chosen[t] == r
  }

  /** How many tasks have chosen a runner and are not yet assigned to it. */
  function Pending(s: State, r: int): nat {
    |PendingTasks(s.chosen, r)|
  }

  predicate OnlyAssigns(es: seq<Event>) {
    forall i :: 0 <= i < |es| ==> es[i].Assign?
  }

  lemma AssignKeepsTotal(runners: seq<Runner>, s: State, t: int, r: int)
    requires t in s.chosen && t in s.running && s.running[t] == 0 && s.chosen[t] != 0 && r != 0
    ensures var s' := Step(runners, s, Assign(t));
            Load(s'.running, r) + Pending(s', r) == Load(s.running, r) + Pending(s, r)
  {
    var left := s.chosen - {t};
    LoadAfterAssign(s.running, t, s.chosen[t], r);
    if s.chosen[t] == r {
      SameMembers(PendingTasks(left, r), PendingTasks(s.chosen, r) - {t});
    } else {
      SameMembers(PendingTasks(left, r), PendingTasks(s.chosen, r));
    }
  }

  /** Every task with a pending choice is listed and has no runner yet. */
  ghost predicate ChoicesPending(s: State) {
    forall t :: t in s.chosen ==> t in s.running && s.running[t] == 0 && s.chosen[t] != 0
  }

  lemma {:induction false} AssignsKeepTotal(runners: seq<Runner>, s: State, es: seq<Event>, r: int)
    requires ChoicesPending(s) && OnlyAssigns(es) && IsRun(runners, s, es) && r != 0
    ensures var s' := Exec(runners, s, es);
            Load(s'.running, r) + Pending(s', r) == Load(s.running, r) + Pending(s, r)
    decreases |es|
  {
    if es != [] {
      AssignKeepsTotal(runners, s, es[0].t, r);
      AssignsKeepTotal(runners, Step(runners, s, es[0]), es[1..], r);
    }
  }

  /** All pending assignments, one after the other. */
  lemma {:induction false} AssignAll(runners: seq<Runner>, s: State) returns (es: seq<Event>)
    requires ChoicesPending(s)
    ensures OnlyAssigns(es) && IsRun(runners, s, es) && Exec(runners, s, es).chosen.Keys == {}
    decreases |s.chosen|
  {
    var t := Member(s.chosen.Keys);
    if s.chosen.Keys == {} {
      es := [];
    } else {
      var s' := Step(runners, s, Assign(t));
      assert |s.chosen| == |s.chosen.Keys| && s'.chosen.Keys == s.chosen.Keys - {t} && |s'.chosen| == |s'.chosen.Keys|;
      var rest := AssignAll(runners, s');
      es := [Assign(t)] + rest;
      assert es[1..] == rest;
    }
  }

  /** The tasks a runner has together with those that have chosen it exceed its limit. */
  ghost predicate Overbooked(s: State, r: Runner) {
    Load(s.running, r.id) + Pending(s, r.id) > r.maxParallel && Load(s.running, r.id) + Pending(s, r.id) > 0
  }

  lemma NoneOfNone(chosen: map<int, int>, r: int)
    requires chosen.Keys == {}
    ensures |PendingTasks(chosen, r)| == 0
  {
    SameMembers(PendingTasks(chosen, r), {});
  }

  /** Some pending assignments, carried out one after the other, overload a runner. */
  ghost predicate CanOverload(runners: seq<Runner>, s: State) {
    exists es :: OnlyAssigns(es) && IsRun(runners, s, es) &&
                 !WithinCapacity(runners, Exec(runners, s, es).running)
  }

  /** From a state in which every runner is within its capacity, carrying out pending assignments
      can overload some runner if and only if some runner is overbooked. */
  lemma OverloadIffOverbooked(runners: seq<Runner>, s: State)
    requires Wellformed(runners) && Clean(runners, s)
    ensures CanOverload(runners, s) <==>
            exists i :: 0 <= i < |runners| && Overbooked(s, runners[i])
  {
    forall es | OnlyAssigns(es) && IsRun(runners, s, es) && !WithinCapacity(runners, Exec(runners, s, es).running)
      ensures exists i :: 0 <= i < |runners| && Overbooked(s, runners[i])
    {
      var after := Exec(runners, s, es);
      var i :| 0 <= i < |runners| && Load(after.running, runners[i].id) != 0 &&
               Load(after.running, runners[i].id) > runners[i].maxParallel;
      AssignsKeepTotal(runners, s, es, runners[i].id);
      assert Overbooked(s, runners[i]);
    }
    if i :| 0 <= i < |runners| && Overbooked(s, runners[i]) {
      var es := AssignAll(runners, s);
      AssignsKeepTotal(runners, s, es, runners[i].id);
      NoneOfNone(Exec(runners, s, es).chosen, runners[i].id);
      assert Load(Exec(runners, s, es).running, runners[i].id) > runners[i].maxParallel;
    }
  }

  // ---------------------------------------------------------------- two choices at once

  lemma RunCons(runners: seq<Runner>, s: State, e: Event, rest: seq<Event>)
    requires Enabled(runners, s, e) && IsRun(runners, Step(runners, s, e), rest)
    ensures IsRun(runners, s, [e] + rest) && Exec(runners, s, [e] + rest) == Exec(runners, Step(runners, s, e), rest)
  {
    assert ([e] + rest)[1..] == rest;
  }

  lemma OnlyRunnerIsChosen(r: Runner, s: State, t: int)
    requires t in s.running && s.running[t] == 0 && t !in s.chosen && Load(s.running, r.id) < r.maxParallel
    ensures Enabled([r], s, Choose(t)) && Step([r], s, Choose(t)) == s.(chosen := s.chosen[t := r.id])
  {
    assert [r][0] == r && IsFirstSpare([r], s.running, r);
    assert IsFirstSpare([r], s.running, FirstSpare([r], s.running));
  }

  lemma BothAssigned(r: Runner, s: State)
    requires r == Runner(9, 1) && s == State(map[1 := 0, 2 := 0], map[1 := 9, 2 := 9])
    ensures var es := [Assign(1)] + ([Assign(2)] + []);
            IsRun([r], s, es) && !WithinCapacity([r], Exec([r], s, es).running)
  {
    var s1 := Step([r], s, Assign(1));
    RunCons([r], s1, Assign(2), []);
    RunCons([r], s, Assign(1), [Assign(2)] + []);
    LoadAfterAssign(s.running, 1, 9, 9);
    LoadAfterAssign(s1.running, 2, 9, 9);
    assert [r][0].id == 9;
  }

  lemma BothChoose(r: Runner, s: State, rest: seq<Event>)
    requires r == Runner(9, 1) && s == State(map[1 := 0, 2 := 0], map[])
    requires IsRun([r], State(map[1 := 0, 2 := 0], map[1 := 9, 2 := 9]), rest)
    ensures IsRun([r], s, [Choose(1)] + ([Choose(2)] + rest))
    ensures Exec([r], s, [Choose(1)] + ([Choose(2)] + rest)) ==
            Exec([r], State(map[1 := 0, 2 := 0], map[1 := 9, 2 := 9]), rest)
  {
    SameMembers(TasksOf(s.running, 9), {});
    assert Load(s.running, 9) == 0;
    OnlyRunnerIsChosen(r, s, 1);
    var s1 := Step([r], s, Choose(1));
    OnlyRunnerIsChosen(r, s1, 2);
    assert Step([r], s1, Choose(2)) == State(map[1 := 0, 2 := 0], map[1 := 9, 2 := 9]);
    RunCons([r], s1, Choose(2), rest);
    RunCons([r], s, Choose(1), [Choose(2)] + rest);
  }

  /** From nothing: two tasks that choose before either is assigned overload a runner that allows
      one. */
  lemma ConcurrentChoicesOverload(s: State)
    requires s == State(map[], map[])
    ensures var es := [List(1)] + ([List(2)] + ([Choose(1)] + ([Choose(2)] + ([Assign(1)] + ([Assign(2)] + [])))));
            IsRun([Runner(9, 1)], s, es) && !WithinCapacity([Runner(9, 1)], Exec([Runner(9, 1)], s, es).running)
  {
    var r := Runner(9, 1);
    var s1 := Step([r], s, List(1));
    var s2 := State(map[1 := 0, 2 := 0], map[]);
    var assigns := [Assign(1)] + ([Assign(2)] + []);
    var chooses := [Choose(1)] + ([Choose(2)] + assigns);
    BothAssigned(r, State(map[1 := 0, 2 := 0], map[1 := 9, 2 := 9]));
    BothChoose(r, s2, assigns);
    assert Step([r], s1, List(2)) == s2;
    RunCons([r], s1, List(2), chooses);
    RunCons([r], s, List(1), [List(2)] + chooses);
  }

  // ---------------------------------------------------------------- the loops

  method NumberOfRunningTasks(running: Assignment, r: int) returns (n: nat)
    ensures n == Load(running, r)
  {
    n := 0;
    var todo := running.Keys;
    ghost var counted: set<int> := {};
    while todo != {}
      invariant todo <= running.Keys && n == |counted|
      invariant forall t :: t in counted <==> t in running && t !in todo && running[t] == r
      decreases |todo|
    {
      ghost var member := Member(todo);
      var t :| t in todo;
      todo := todo - {t};
      if running[t] == r {
        n := n + 1;
        counted := counted + {t};
      }
    }
    SameMembers(counted, TasksOf(running, r));
  }

  method ChooseRunner(runners: seq<Runner>, running: Assignment) returns (chosen: Option<Runner>)
    ensures chosen.Some? ==> IsFirstSpare(runners, running, chosen.value)
    ensures chosen.None? <==> forall i :: 0 <= i < |runners| ==> Load(running, runners[i].id) >= runners[i].maxParallel
  {
    for i := 0 to |runners|
      invariant forall j :: 0 <= j < i ==> Load(running, runners[j].id) >= runners[j].maxParallel
    {
      var n := NumberOfRunningTasks(running, runners[i].id);
      if n < runners[i].maxParallel {
        return Some(runners[i]);
      }
    }
    return None;
  }
}
