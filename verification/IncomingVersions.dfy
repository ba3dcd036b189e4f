/** The version a deploy task inherits: the walk from a task over its build tasks. */
module IncomingVersions {
  import opened Options

  datatype Task = Task(id: int, project: int, template: int, buildTask: Option<int>, version: Option<string>)

  /** The stored tasks in the order of creation, and which templates exist and are builds. */
  datatype Store = Store(tasks: seq<Task>, templates: map<(int, int), bool>)

  /** The position of the task with an id, if it belongs to the project. */
  function Find(tasks: seq<Task>, project: int, id: int): (r: Option<nat>)
    ensures r.Some? ==> r.value < |tasks| && tasks[r.value].id == id && tasks[r.value].project == project
  {
    if tasks == [] then None
    else
      var last := |tasks| - 1;
      if tasks[last].id == id then (if tasks[last].project == project then Some(last) else None)
      else Find(tasks[..last], project, id)
  }

  /** Under distinct ids the position found is that of the task with the id in the project. */
  lemma {:induction false} FindIsExact(tasks: seq<Task>, project: int, id: int, i: nat)
    requires forall j, k :: 0 <= j < k < |tasks| ==> tasks[j].id != tasks[k].id
    ensures Find(tasks, project, id) == Some(i) <==> i < |tasks| && tasks[i].id == id && tasks[i].project == project
    decreases |tasks|
  {
    if tasks != [] {
      FindIsExact(tasks[..|tasks| - 1], project, id, i);
    }
  }

  /** What one call does: it ends with a version or none, or goes on with the build task. */
  datatype Outcome = Ends(version: Option<string>) | GoesOn(at: nat)

  function Visit(s: Store, i: nat): (o: Outcome)
    requires i < |s.tasks|
    ensures o.GoesOn? ==> o.at < |s.tasks| && s.tasks[i].buildTask == Some(s.tasks[o.at].id)
  {
    var t := s.tasks[i];
    if t.buildTask.None? then Ends(None)
    else
      match Find(s.tasks, t.project, t.buildTask.value)
      case None => Ends(None)
      case Some(j) =>
        if (t.project, s.tasks[j].template) !in s.templates then Ends(None)
        else if s.templates[(t.project, s.tasks[j].template)] then Ends(s.tasks[j].version)
        else GoesOn(j)
  }

  /** No task names itself or a later one as its build task. */
  ghost predicate BuildsAreEarlier(tasks: seq<Task>) {
    forall i, j :: 0 <= i <= j < |tasks| ==> tasks[i].buildTask != Some(tasks[j].id)
  }

  /** The walk ends because the position decreases. */
  function GetIncomingVersion(s: Store, i: nat): Option<string>
    requires i < |s.tasks| && BuildsAreEarlier(s.tasks)
  {
    match Visit(s, i)
    case Ends(version) => version
    case GoesOn(j) => GetIncomingVersion(s, j)
  }

  // ---------------------------------------------------------------- the nearest build

  /** `path` follows build tasks from `path[0]` over templates that are not builds up to its
      last task, whose template is one. */
  ghost predicate LeadsToBuild(s: Store, path: seq<nat>) {
    && |path| >= 2
    && (forall k :: 0 <= k < |path| ==> path[k] < |s.tasks|)
    && (forall k :: 0 <= k < |path| - 1 ==> NextIs(s, path[k], path[k + 1]))
    && (forall k :: 0 < k < |path| - 1 ==> TemplateIs(s, path[k - 1], path[k], false))
    && TemplateIs(s, path[|path| - 2], path[|path| - 1], true)
  }

  ghost predicate NextIs(s: Store, i: nat, j: nat)
    requires i < |s.tasks| && j < |s.tasks|
  {
    s.tasks[i].buildTask.Some? && Find(s.tasks, s.tasks[i].project, s.tasks[i].buildTask.value) == Some(j)
  }

  ghost predicate TemplateIs(s: Store, i: nat, j: nat, build: bool)
    requires i < |s.tasks| && j < |s.tasks|
  {
    var key := (s.tasks[i].project, s.tasks[j].template);
    key in s.templates && s.templates[key] == build
  }

  /** If the walk reaches a build at all, its version is the answer. */
  lemma {:induction false} AnswerIsNearestBuild(s: Store, path: seq<nat>)
    requires BuildsAreEarlier(s.tasks) && LeadsToBuild(s, path)
    ensures GetIncomingVersion(s, path[0]) == s.tasks[path[|path| - 1]].version
    decreases |path|
  {
    assert NextIs(s, path[0], path[1]);
    if |path| > 2 {
      PathTail(s, path);
      AnswerIsNearestBuild(s, path[1..]);
    }
  }

  /** A version is only ever the version of such a build. */
  lemma {:induction false} AnswerComesFromBuild(s: Store, i: nat) returns (path: seq<nat>)
    requires i < |s.tasks| && BuildsAreEarlier(s.tasks) && GetIncomingVersion(s, i).Some?
    ensures LeadsToBuild(s, path) && path[0] == i
    decreases i
  {
    var t := s.tasks[i];
    var j := Find(s.tasks, t.project, t.buildTask.value).value;
    if Visit(s, i).Ends? {
      path := [i, j];
    } else {
      var rest := AnswerComesFromBuild(s, j);
      path := [i] + rest;
      PathCons(s, i, rest);
    }
  }

  lemma PathCons(s: Store, i: nat, rest: seq<nat>)
    requires LeadsToBuild(s, rest) && i < |s.tasks| && NextIs(s, i, rest[0]) && TemplateIs(s, i, rest[0], false)
    ensures LeadsToBuild(s, [i] + rest)
  {
    var path := [i] + rest;
    assert forall k :: 0 < k < |path| ==> path[k] == rest[k - 1];
    forall k | 0 <= k < |path| - 1 ensures NextIs(s, path[k], path[k + 1]) {
      if k > 0 {
        assert NextIs(s, rest[k - 1], rest[k]);
      }
    }
    forall k | 0 < k < |path| - 1 ensures TemplateIs(s, path[k - 1], path[k], false) {
      if k > 1 {
        assert TemplateIs(s, rest[k - 2], rest[k - 1], false);
      }
    }
  }

  /** The answer is the version of the nearest ancestor whose template is a build, and nil if
      the chain ends or breaks before one. */
  lemma IncomingVersionIsNearestBuild(s: Store, i: nat)
    requires i < |s.tasks| && BuildsAreEarlier(s.tasks)
    ensures forall path :: LeadsToBuild(s, path) && path[0] == i ==>
              GetIncomingVersion(s, i) == s.tasks[path[|path| - 1]].version
    ensures (forall path :: LeadsToBuild(s, path) ==> path[0] != i) ==> GetIncomingVersion(s, i) == None
  {
    forall path | LeadsToBuild(s, path) && path[0] == i
      ensures GetIncomingVersion(s, i) == s.tasks[path[|path| - 1]].version
    {
      AnswerIsNearestBuild(s, path);
    }
    if GetIncomingVersion(s, i).Some? {
      var path := AnswerComesFromBuild(s, i);
    }
  }

  // ---------------------------------------------------------------- where the condition comes from

  /** The tasks that a finished task's autorun templates create name that task. */
  function Autorun(tasks: seq<Task>, finished: Task, id: int, template: int): seq<Task> {
    tasks + [Task(id, finished.project, template, Some(finished.id), None)]
  }

  /** Every build task named so far exists. */
  ghost predicate BuildsExist(tasks: seq<Task>) {
    forall i :: 0 <= i < |tasks| && tasks[i].buildTask.Some? ==>
      exists j :: 0 <= j < i && tasks[i].buildTask == Some(tasks[j].id)
  }

  ghost predicate DistinctIds(tasks: seq<Task>) {
    forall i, j :: 0 <= i < j < |tasks| ==> tasks[i].id != tasks[j].id
  }

  lemma ExistingBuildsAreEarlier(tasks: seq<Task>)
    requires DistinctIds(tasks) && BuildsExist(tasks)
    ensures BuildsAreEarlier(tasks)
  {
  }

  /** Creating tasks through autorun, under fresh ids, keeps every walk finite. */
  lemma AutorunKeepsBuildsEarlier(tasks: seq<Task>, k: nat, id: int, template: int)
    requires k < |tasks| && DistinctIds(tasks) && BuildsExist(tasks)
    requires forall i :: 0 <= i < |tasks| ==> tasks[i].id != id
    ensures var after := Autorun(tasks, tasks[k], id, template);
            DistinctIds(after) && BuildsExist(after) && BuildsAreEarlier(after)
  {
    var after := Autorun(tasks, tasks[k], id, template);
    forall i | 0 <= i < |after| && after[i].buildTask.Some?
      ensures exists j :: 0 <= j < i && after[i].buildTask == Some(after[j].id)
    {
      if i < |tasks| {
        var j :| 0 <= j < i && tasks[i].buildTask == Some(tasks[j].id);
        assert after[j] == tasks[j];
      } else {
        assert after[k] == tasks[k];
      }
    }
    ExistingBuildsAreEarlier(after);
  }

  /** One attempt to add a task per autorun template; `ids` has no id where it fails. */
  function AutorunAll(tasks: seq<Task>, finished: Task, templates: seq<int>, ids: seq<Option<int>>): seq<Task>
    requires |ids| == |templates|
    decreases |templates|
  {
    if templates == [] then tasks
    else
      var n := |templates| - 1;
      var before := AutorunAll(tasks, finished, templates[..n], ids[..n]);
      match ids[n]
      case None => before
      case Some(id) => Autorun(before, finished, id, templates[n])
  }

  /** The loop goes on after a template whose task cannot be added. */
  method AddAutorunTasks(tasks: seq<Task>, finished: Task, templates: seq<int>, ids: seq<Option<int>>)
      returns (after: seq<Task>)
    requires |ids| == |templates|
    ensures after == AutorunAll(tasks, finished, templates, ids)
  {
    after := tasks;
    for i := 0 to |templates|
      invariant after == AutorunAll(tasks, finished, templates[..i], ids[..i])
    {
      assert templates[..i + 1][..i] == templates[..i] && ids[..i + 1][..i] == ids[..i];
      if ids[i].None? {
        continue;
      }
      after := Autorun(after, finished, ids[i].value, templates[i]);
    }
    assert templates[..|templates|] == templates && ids[..|ids|] == ids;
  }

  ghost predicate Fresh(tasks: seq<Task>, ids: seq<Option<int>>) {
    && (forall n, i :: 0 <= n < |ids| && 0 <= i < |tasks| ==> ids[n] != Some(tasks[i].id))
    && (forall m, n :: 0 <= m < n < |ids| && ids[m].Some? ==> ids[m] != ids[n])
  }

  /** The whole loop leaves every walk finite, and each task it created names the finished one. */
  lemma {:induction false} AutorunLoopKeepsBuildsEarlier(tasks: seq<Task>, k: nat, templates: seq<int>,
      ids: seq<Option<int>>)
    requires k < |tasks| && DistinctIds(tasks) && BuildsExist(tasks) && |ids| == |templates| && Fresh(tasks, ids)
    ensures var after := AutorunAll(tasks, tasks[k], templates, ids);
            && tasks <= after
            && DistinctIds(after) && BuildsExist(after) && BuildsAreEarlier(after)
            && (forall i :: |tasks| <= i < |after| ==>
                 after[i].buildTask == Some(tasks[k].id) && Some(after[i].id) in ids)
    decreases |templates|
  {
    if templates == [] {
      ExistingBuildsAreEarlier(tasks);
    } else {
      var n := |templates| - 1;
      AutorunLoopKeepsBuildsEarlier(tasks, k, templates[..n], ids[..n]);
      var before := AutorunAll(tasks, tasks[k], templates[..n], ids[..n]);
      assert before[k] == tasks[k];
      assert ids == ids[..n] + [ids[n]];
      if ids[n].Some? {
        forall i | 0 <= i < |before| ensures before[i].id != ids[n].value {
          if i < |tasks| {
            assert before[i] == tasks[i];
          } else {
            assert Some(before[i].id) in ids[..n];
          }
        }
        AutorunKeepsBuildsEarlier(before, k, ids[n].value, templates[n]);
      }
    }
  }

  /** Exactly the templates whose task could be added have one, in the order of the templates, in the
      finished task's project, with that task as its build task and without a version. */
  lemma {:induction false} AutorunCreates(tasks: seq<Task>, finished: Task, templates: seq<int>,
      ids: seq<Option<int>>) returns (picks: seq<nat>)
    requires |ids| == |templates|
    ensures Succeeding(ids, picks)
    ensures var after := AutorunAll(tasks, finished, templates, ids);
            && |after| == |tasks| + |picks| && tasks <= after
            && forall k :: 0 <= k < |picks| ==>
                 after[|tasks| + k] == AutorunTask(finished, ids[picks[k]].value, templates[picks[k]])
    decreases |templates|
  {
    if templates == [] {
      picks := [];
    } else {
      var n := |templates| - 1;
      var before := AutorunCreates(tasks, finished, templates[..n], ids[..n]);
      picks := before + (if ids[n].Some? then [n] else []);
      assert ids == ids[..n] + [ids[n]];
      SucceedingMore(ids[..n], before, ids[n]);
    }
  }

  /** The ascending positions at which there is an id. */
  ghost predicate Succeeding(ids: seq<Option<int>>, picks: seq<nat>) {
    && (forall k :: 0 <= k < |picks| ==> picks[k] < |ids| && ids[picks[k]].Some?)
    && (forall n: nat :: n < |ids| && ids[n].Some? ==> n in picks)
    && (forall j, k :: 0 <= j < k < |picks| ==> picks[j] < picks[k])
  }

  lemma SucceedingMore(ids: seq<Option<int>>, picks: seq<nat>, id: Option<int>)
    requires Succeeding(ids, picks)
    ensures Succeeding(ids + [id], picks + (if id.Some? then [|ids|] else []))
  {
    var more := picks + (if id.Some? then [|ids|] else []);
    forall n: nat | n < |ids + [id]| && (ids + [id])[n].Some? ensures n in more {
      if n < |ids| {
        assert ids[n].Some? && n in picks;
      }
    }
  }

  function AutorunTask(finished: Task, id: int, template: int): Task {
    Task(id, finished.project, template, Some(finished.id), None)
  }

  /** `n` calls of the recursion, starting at a task. */
  function Walk(s: Store, i: nat, n: nat): Outcome
    requires i < |s.tasks|
    decreases n
  {
    if n == 0 then GoesOn(i)
    else
      match Visit(s, i)
      case Ends(version) => Ends(version)
      case GoesOn(j) => Walk(s, j, n - 1)
  }

  lemma {:induction false} WalkEnds(s: Store, i: nat)
    requires i < |s.tasks| && BuildsAreEarlier(s.tasks)
    ensures Walk(s, i, i + 1) == Ends(GetIncomingVersion(s, i))
    decreases i
  {
    if Visit(s, i).GoesOn? {
      var j := Visit(s, i).at;
      WalkEnds(s, j);
      WalkMonotone(s, j, j + 1, i);
    }
  }

  lemma {:induction false} WalkMonotone(s: Store, i: nat, m: nat, n: nat)
    requires i < |s.tasks| && m <= n && Walk(s, i, m).Ends?
    ensures Walk(s, i, n) == Walk(s, i, m)
    decreases m
  {
    if m > 0 && Visit(s, i).GoesOn? {
      WalkMonotone(s, Visit(s, i).at, m - 1, n - 1);
    }
  }

  // ---------------------------------------------------------------- walks over any store

  lemma {:induction false} WalkNext(s: Store, i: nat, n: nat)
    requires i < |s.tasks|
    ensures Walk(s, i, n).GoesOn? ==> Walk(s, i, n).at < |s.tasks| && Walk(s, i, n + 1) == Visit(s, Walk(s, i, n).at)
    decreases n
  {
    if n > 0 && Visit(s, i).GoesOn? {
      WalkNext(s, Visit(s, i).at, n - 1);
    }
  }

  ghost predicate NeverEnds(s: Store, i: nat)
    requires i < |s.tasks|
  {
    forall n: nat :: Walk(s, i, n).GoesOn?
  }

  /** Every task of the set goes on to a task of the set. */
  ghost predicate Closed(s: Store, among: set<nat>) {
    forall j :: j in among ==> j < |s.tasks| && Visit(s, j).GoesOn? && Visit(s, j).at in among
  }

  ghost predicate Reached(s: Store, i: nat, j: nat)
    requires i < |s.tasks|
  {
    exists n: nat :: Walk(s, i, n) == GoesOn(j)
  }

  lemma {:induction false} ClosedGoesOn(s: Store, among: set<nat>, i: nat, n: nat)
    requires Closed(s, among) && i in among
    ensures Walk(s, i, n).GoesOn?
    decreases n
  {
    if n > 0 {
      ClosedGoesOn(s, among, Visit(s, i).at, n - 1);
    }
  }

  lemma ReachedIsClosed(s: Store, i: nat) returns (among: set<nat>)
    requires i < |s.tasks| && NeverEnds(s, i)
    ensures i in among && Closed(s, among)
  {
    among := set j: nat | j < |s.tasks| && Reached(s, i, j);
    assert Walk(s, i, 0) == GoesOn(i);
    forall j | j in among ensures Visit(s, j).GoesOn? && Visit(s, j).at in among {
      var n: nat :| Walk(s, i, n) == GoesOn(j);
      WalkNext(s, i, n);
      assert Walk(s, i, n + 1) == GoesOn(Visit(s, j).at);
    }
  }

  // ---------------------------------------------------------------- as many calls as tasks

  lemma {:induction false} WalkShorter(s: Store, i: nat, n: nat, m: nat)
    requires i < |s.tasks| && m <= n && Walk(s, i, n).GoesOn?
    ensures Walk(s, i, m).GoesOn?
    decreases m
  {
    if m > 0 {
      WalkShorter(s, Visit(s, i).at, n - 1, m - 1);
    }
  }

  /** Distinct numbers below `n` are at most `n`. */
  lemma {:induction false} DistinctBelow(f: seq<nat>, n: nat)
    requires forall k :: 0 <= k < |f| ==> f[k] < n
    requires forall a, b :: 0 <= a < b < |f| ==> f[a] != f[b]
    ensures |f| <= n
    decreases n
  {
    assert f != [] ==> f[0] < n;
    if f != [] {
      if k :| 0 <= k < |f| && f[k] == n - 1 {
        var rest := f[..k] + f[k + 1..];
        assert forall j :: 0 <= j < |rest| ==> rest[j] == f[if j < k then j else j + 1];
        DistinctBelow(rest, n - 1);
      } else {
        DistinctBelow(f, n - 1);
      }
    }
  }

  /** A walk that has not ended after as many calls as there are tasks comes back to a task. */
  lemma WalkComesBack(s: Store, i: nat) returns (a: nat, b: nat)
    requires i < |s.tasks| && Walk(s, i, |s.tasks|).GoesOn?
    ensures a < b <= |s.tasks| && Walk(s, i, a).GoesOn? && Walk(s, i, a) == Walk(s, i, b)
  {
    var n := |s.tasks|;
    forall k: nat | k <= n ensures Walk(s, i, k).GoesOn? && Walk(s, i, k).at < n {
      WalkShorter(s, i, n, k);
      WalkNext(s, i, k);
    }
    var f := seq(n + 1, k requires 0 <= k <= n => Walk(s, i, k).at);
    if forall c, d :: 0 <= c < d < |f| ==> f[c] != f[d] {
      DistinctBelow(f, n);
    }
    var c, d :| 0 <= c < d < |f| && f[c] == f[d];
    a, b := c, d;
  }

  lemma StillGoingNeverEnds(s: Store, i: nat)
    requires i < |s.tasks| && Walk(s, i, |s.tasks|).GoesOn?
    ensures NeverEnds(s, i)
  {
    var a, b := WalkComesBack(s, i);
    forall k: nat | k <= b ensures Walk(s, i, k).GoesOn? && Walk(s, i, k).at < |s.tasks| {
      WalkShorter(s, i, |s.tasks|, k);
      WalkNext(s, i, k);
    }
    var among := set k: nat | k < b :: Walk(s, i, k).at;
    forall j | j in among ensures j < |s.tasks| && Visit(s, j).GoesOn? && Visit(s, j).at in among {
      var k: nat :| k < b && Walk(s, i, k).at == j;
      var next := if k + 1 == b then a else k + 1;
      WalkNext(s, i, k);
      assert Walk(s, i, k) == GoesOn(j) && Walk(s, i, k + 1) == Visit(s, j);
      assert next < b && Walk(s, i, next) == Visit(s, j) && Walk(s, i, next).at in among;
    }
    assert Walk(s, i, 0).at in among;
    forall n: nat ensures Walk(s, i, n).GoesOn? {
      ClosedGoesOn(s, among, i, n);
    }
  }

  /** The recursion from a task never ends exactly if the task lies in a set of tasks each of which
      goes on to another of the set: it has a build task, whose template exists and is not a build.
      That is so exactly if it has not ended after as many calls as there are tasks. */
  lemma WalkNeverEndsIff(s: Store, i: nat)
    requires i < |s.tasks|
    ensures NeverEnds(s, i) <==> exists among: set<nat> :: i in among && Closed(s, among)
    ensures NeverEnds(s, i) <==> Walk(s, i, |s.tasks|).GoesOn?
  {
    if Walk(s, i, |s.tasks|).GoesOn? {
      StillGoingNeverEnds(s, i);
    }
    if NeverEnds(s, i) {
      var among := ReachedIsClosed(s, i);
    }
    forall among: set<nat>, n: nat | i in among && Closed(s, among) ensures Walk(s, i, n).GoesOn? {
      ClosedGoesOn(s, among, i, n);
    }
  }

  /** In any store a walk that meets a build ends with its version, */
  lemma {:induction false} PathEndsWalk(s: Store, path: seq<nat>)
    requires LeadsToBuild(s, path)
    ensures Walk(s, path[0], |path| - 1) == Ends(s.tasks[path[|path| - 1]].version)
    decreases |path|
  {
    assert NextIs(s, path[0], path[1]);
    if |path| > 2 {
      PathTail(s, path);
      PathEndsWalk(s, path[1..]);
    } else {
      assert Walk(s, path[0], 1) == Visit(s, path[0]);
    }
  }

  lemma PathTail(s: Store, path: seq<nat>)
    requires LeadsToBuild(s, path) && |path| > 2
    ensures LeadsToBuild(s, path[1..]) && TemplateIs(s, path[0], path[1], false)
  {
    var rest := path[1..];
    assert TemplateIs(s, path[0], path[1], false);
    forall k | 0 <= k < |rest| - 1 ensures NextIs(s, rest[k], rest[k + 1]) {
      assert NextIs(s, path[k + 1], path[k + 2]);
    }
    forall k | 0 < k < |rest| - 1 ensures TemplateIs(s, rest[k - 1], rest[k], false) {
      assert TemplateIs(s, path[k], path[k + 1], false);
    }
  }

  /** and a walk that ends with a version has met one. */
  lemma {:induction false} VersionHasPath(s: Store, i: nat, n: nat) returns (path: seq<nat>)
    requires i < |s.tasks| && Walk(s, i, n).Ends? && Walk(s, i, n).version.Some?
    ensures LeadsToBuild(s, path) && path[0] == i
    decreases n
  {
    var t := s.tasks[i];
    var j := Find(s.tasks, t.project, t.buildTask.value).value;
    if Visit(s, i).Ends? {
      path := [i, j];
    } else {
      var rest := VersionHasPath(s, j, n - 1);
      path := [i] + rest;
      PathCons(s, i, rest);
    }
  }

  /** For every store: however the recursion ends, its answer is the version of the nearest ancestor
      whose template is a build, and nil only if there is none or that build has no version. */
  lemma EndedWalkIsNearestBuild(s: Store, i: nat, n: nat)
    requires i < |s.tasks| && Walk(s, i, n).Ends?
    ensures forall path :: LeadsToBuild(s, path) && path[0] == i ==>
              Walk(s, i, n) == Ends(s.tasks[path[|path| - 1]].version)
    ensures (forall path :: LeadsToBuild(s, path) ==> path[0] != i) ==> Walk(s, i, n) == Ends(None)
  {
    forall path | LeadsToBuild(s, path) && path[0] == i
      ensures Walk(s, i, n) == Ends(s.tasks[path[|path| - 1]].version)
    {
      PathEndsWalk(s, path);
      if n <= |path| - 1 {
        WalkMonotone(s, i, n, |path| - 1);
      } else {
        WalkMonotone(s, i, |path| - 1, n);
      }
    }
    if Walk(s, i, n).version.Some? {
      var path := VersionHasPath(s, i, n);
    }
  }

  const CYCLE := Store([Task(1, 1, 1, Some(2), None), Task(2, 1, 1, Some(1), None)], map[(1, 1) := false])

  /** Two tasks that name each other: the recursion never ends. */
  lemma {:induction false} CycleNeverEnds(i: nat, n: nat)
    requires i < 2
    ensures Walk(CYCLE, i, n).GoesOn?
    decreases n
  {
    if n > 0 {
      var ts := CYCLE.tasks;
      assert ts[..1] == [ts[0]];
      assert Find(ts[..1], 1, 1) == Some(0);
      assert Find(ts, 1, 2) == Some(1) && Find(ts, 1, 1) == Some(0);
      CycleNeverEnds(1 - i, n - 1);
    }
  }
}
