/** The numbers that a build template's tasks get over any sequence of AddTask calls. */
module BuildNumbering {
  import opened Bolt
  import opened BoltKeys
  import opened BuildVersions
  import opened Decimal
  import opened Options

  datatype Template = Template(isBuild: bool, startVersion: Option<string>)
  datatype Task = Task(project: int, template: int, version: Option<string>)

  /** A call for a task of a template; `id` is the id that the caller gives it, or 0. */
  datatype Call = Call(project: int, template: int, id: int)

  type Templates = map<(int, int), Template>

  function Of(project: int, template: int): Task -> bool {
    (t: Task) => t.project == project && t.template == template
  }

  function Plain(): Task -> Option<Task> {
    (t: Task) => Some(t)
  }

  /** The tasks of a template as the store lists them, at most `count + 1` of them. */
  function TemplateTasks(b: Bucket<Task>, project: int, template: int, count: int): seq<Task> {
    Limit(Matches(Values(b.entries), Plain(), Of(project, template)), count)
  }

  /** The version of the task a call creates. `None` stands for a call that fails: the template
      is missing, or computing the version panics, a missing start version included. */
  function NewVersion(tpl: Template, builds: seq<Task>): Option<Option<string>> {
    if !tpl.isBuild then Some(None)
    else if builds == [] || builds[0].version.None? then Some(tpl.startVersion)
    else if tpl.startVersion.None? then None
    else
      match NextBuildVersion(tpl.startVersion.value, builds[0].version.value)
      case Version(text) => Some(Some(text))
      case _ => None
  }

  function NewTask(templates: Templates, b: Bucket<Task>, c: Call): Option<Task> {
    if (c.project, c.template) !in templates then None
    else
      match NewVersion(templates[(c.project, c.template)], TemplateTasks(b, c.project, c.template, 1))
      case None => None
      case Some(version) => Some(Task(c.project, c.template, version))
  }

  /** What a call creates, case by case: nothing without the template, no version for a template that is
      not a build, and the start version, if any, for a build that follows none with a version. */
  lemma NewTaskCases(templates: Templates, b: Bucket<Task>, c: Call)
    ensures var listed, key := TemplateTasks(b, c.project, c.template, 1), (c.project, c.template);
            var made := NewTask(templates, b, c);
            && (key !in templates ==> made == None)
            && (key in templates && !templates[key].isBuild ==> made == Some(Task(c.project, c.template, None)))
            && (key in templates && templates[key].isBuild && (listed == [] || listed[0].version == None) ==>
                  made == Some(Task(c.project, c.template, templates[key].startVersion)))
            && (key in templates && templates[key] == Template(true, None) && listed != [] ==>
                  (made == None <==> listed[0].version != None))
    ensures NewTask(templates, b, c).None? ==> AddTask(templates, b, c) == b
  {
  }

  function AddTask(templates: Templates, b: Bucket<Task>, c: Call): Bucket<Task> {
    match NewTask(templates, b, c)
    case None => b
    case Some(task) => CreateAs(b, true, c.id, task)
  }

  function AddTasks(templates: Templates, calls: seq<Call>): Bucket<Task> {
    if calls == [] then Bucket([], 0)
    else AddTask(templates, AddTasks(templates, calls[..|calls| - 1]), calls[|calls| - 1])
  }

  // ---------------------------------------------------------------- what has been created

  /** No caller chooses an id. */
  predicate NoIds(calls: seq<Call>) {
    forall i :: 0 <= i < |calls| ==> calls[i].id == 0
  }

  /** The tasks created by `calls`, oldest first. */
  function History(templates: Templates, calls: seq<Call>): (h: seq<Task>)
    requires NoIds(calls)
    ensures |h| <= |calls|
    ensures AddTasks(templates, calls) == CreateAll(true, h)
  {
    if calls == [] then []
    else
      var before := History(templates, calls[..|calls| - 1]);
      match NewTask(templates, CreateAll(true, before), calls[|calls| - 1])
      case None => before
      case Some(task) =>
        assert (before + [task])[..|before|] == before;
        before + [task]
  }

  /** The builds of a template, oldest first. */
  function Builds(h: seq<Task>, project: int, template: int): seq<Task> {
    Matches(h, Plain(), Of(project, template))
  }

  function Reverse<T>(s: seq<T>): seq<T> {
    seq(|s|, i requires 0 <= i < |s| => s[|s| - 1 - i])
  }

  lemma {:induction false} MatchesReverse(h: seq<Task>, project: int, template: int)
    ensures Matches(Reverse(h), Plain(), Of(project, template)) == Reverse(Builds(h, project, template))
  {
    if h != [] {
      var init, last := h[..|h| - 1], h[|h| - 1];
      var decode, filter := Plain(), Of(project, template);
      MatchesReverse(init, project, template);
      assert Reverse(h) == [last] + Reverse(init);
      MatchesConcat([last], Reverse(init), decode, filter);
      assert [last][..0] == [];
      var one := if filter(last) then [last] else [];
      assert Matches([last], decode, filter) == one;
      assert Builds(h, project, template) == Builds(init, project, template) + one;
      assert Reverse(Builds(init, project, template) + one) == one + Reverse(Builds(init, project, template));
    }
  }

  lemma ReversedByElements<T>(a: seq<T>, h: seq<T>)
    requires |a| == |h| && forall i :: 0 <= i < |h| ==> a[i] == h[|h| - 1 - i]
    ensures a == Reverse(h)
  {
  }

  lemma {:induction false} ListedReversed(h: seq<Task>)
    requires |h| <= MAX_ID
    ensures Values(CreateAll(true, h).entries) == Reverse(h)
  {
    InvertedValues(h);
    ReversedByElements(Values(CreateAll(true, h).entries), h);
  }

  /** The store's first task of a template is the newest. */
  lemma {:induction false} NewestBuildIsFirst(h: seq<Task>, project: int, template: int)
    requires |h| <= MAX_ID
    ensures var listed := TemplateTasks(CreateAll(true, h), project, template, 1);
            var builds := Builds(h, project, template);
            (listed == [] <==> builds == []) && (builds != [] ==> listed[0] == builds[|builds| - 1])
  {
    ListedReversed(h);
    MatchesReverse(h, project, template);
  }

  // ---------------------------------------------------------------- the numbering

  /** The version of the build number `k`, counted from zero. */
  function VersionNumber(startVersion: string, k: nat): string
    requires FindSplit(startVersion).Some?
  {
    var m := SplitOf(startVersion);
    if k == 0 then startVersion else m.prefix + Itoa(Parse(m.body) + k) + m.suffix
  }

  ghost predicate Numbered(builds: seq<Task>, startVersion: string)
    requires FindSplit(startVersion).Some?
  {
    forall k :: 0 <= k < |builds| ==> builds[k].version == Some(VersionNumber(startVersion, k))
  }

  /** The part of version `k` between prefix and suffix. */
  function Middle(startVersion: string, k: nat): string
    requires FindSplit(startVersion).Some?
  {
    var m := SplitOf(startVersion);
    if k == 0 then m.body else Itoa(Parse(m.body) + k)
  }

  lemma VersionFrame(startVersion: string, k: nat)
    requires FindSplit(startVersion).Some?
    ensures var m := SplitOf(startVersion);
            VersionNumber(startVersion, k) == m.prefix + Middle(startVersion, k) + m.suffix
  {
    SplitIsGreedy(startVersion);
  }

  lemma MiddleNumber(startVersion: string, k: nat)
    requires FindSplit(startVersion).Some? && Parse(SplitOf(startVersion).body) + k <= MAX_INT
    ensures Atoi(Middle(startVersion, k)) == Some(Parse(SplitOf(startVersion).body) + k)
  {
    DigitsAtoi(SplitOf(startVersion).body);
    AtoiPrint(Parse(SplitOf(startVersion).body) + k);
  }

  /** One more build continues the numbering. */
  lemma NextNumber(startVersion: string, k: nat)
    requires FindSplit(startVersion).Some? && Parse(SplitOf(startVersion).body) + k < MAX_INT
    ensures NextBuildVersion(startVersion, VersionNumber(startVersion, k)) ==
            Version(VersionNumber(startVersion, k + 1))
  {
    MiddleNumber(startVersion, k);
    StepTakesMaximum(startVersion, Parse(SplitOf(startVersion).body) + k, Middle(startVersion, k));
    VersionFrame(startVersion, k);
  }

  lemma VersionAfter(startVersion: string, builds: seq<Task>, next: string)
    requires builds != [] && builds[0].version.Some?
    requires NextBuildVersion(startVersion, builds[0].version.value) == Version(next)
    ensures NewVersion(Template(true, Some(startVersion)), builds) == Some(Some(next))
  {
  }

  lemma NextVersionOf(startVersion: string, builds: seq<Task>, listed: seq<Task>)
    requires FindSplit(startVersion).Some? && Parse(SplitOf(startVersion).body) + |builds| <= MAX_INT
    requires Numbered(builds, startVersion)
    requires (listed == [] <==> builds == []) && (builds != [] ==> listed[0] == builds[|builds| - 1])
    ensures NewVersion(Template(true, Some(startVersion)), listed) == Some(Some(VersionNumber(startVersion, |builds|)))
  {
    if builds != [] {
      var k := |builds| - 1;
      assert builds[k].version == Some(VersionNumber(startVersion, k));
      NextNumber(startVersion, k);
      VersionAfter(startVersion, listed, VersionNumber(startVersion, k + 1));
    }
  }

  /** The task that the next call for the template creates. */
  lemma {:induction false} NewBuildIsNext(templates: Templates, h: seq<Task>, project: int, template: int,
      startVersion: string)
    requires |h| <= MAX_ID
    requires (project, template) in templates && templates[(project, template)] == Template(true, Some(startVersion))
    requires FindSplit(startVersion).Some? &&
             Parse(SplitOf(startVersion).body) + |Builds(h, project, template)| <= MAX_INT
    requires Numbered(Builds(h, project, template), startVersion)
    ensures NewTask(templates, CreateAll(true, h), Call(project, template, 0)) ==
            Some(Task(project, template, Some(VersionNumber(startVersion, |Builds(h, project, template)|))))
  {
    NewestBuildIsFirst(h, project, template);
    NextVersionOf(startVersion, Builds(h, project, template), TemplateTasks(CreateAll(true, h), project, template, 1));
  }

  lemma BuildsAppend(h: seq<Task>, task: Task, project: int, template: int)
    ensures Builds(h + [task], project, template) ==
            Builds(h, project, template) + (if task.project == project && task.template == template then [task] else [])
  {
    assert (h + [task])[..|h|] == h;
  }

  lemma NumberedAppend(builds: seq<Task>, startVersion: string, task: Task)
    requires FindSplit(startVersion).Some? && Numbered(builds, startVersion)
    requires task.version == Some(VersionNumber(startVersion, |builds|))
    ensures Numbered(builds + [task], startVersion)
  {
  }

  lemma {:induction false} HistoryStep(templates: Templates, h: seq<Task>, c: Call, task: Task, project: int,
      template: int, startVersion: string)
    requires |h| <= MAX_ID && c.id == 0 && NewTask(templates, CreateAll(true, h), c) == Some(task)
    requires (project, template) in templates && templates[(project, template)] == Template(true, Some(startVersion))
    requires FindSplit(startVersion).Some? &&
             Parse(SplitOf(startVersion).body) + |Builds(h, project, template)| <= MAX_INT
    requires Numbered(Builds(h, project, template), startVersion)
    ensures |Builds(h + [task], project, template)| <= |Builds(h, project, template)| + 1
    ensures Numbered(Builds(h + [task], project, template), startVersion)
  {
    BuildsAppend(h, task, project, template);
    if task.project == project && task.template == template {
      assert c == Call(project, template, 0);
      NewBuildIsNext(templates, h, project, template, startVersion);
      NumberedAppend(Builds(h, project, template), startVersion, task);
    } else {
      assert Builds(h, project, template) + [] == Builds(h, project, template);
    }
  }

  lemma {:induction false} HistoryIsNumbered(templates: Templates, calls: seq<Call>, project: int, template: int,
      startVersion: string)
    requires |calls| <= MAX_ID && NoIds(calls)
    requires (project, template) in templates && templates[(project, template)] == Template(true, Some(startVersion))
    requires FindSplit(startVersion).Some? && Parse(SplitOf(startVersion).body) + |calls| <= MAX_INT
    ensures |Builds(History(templates, calls), project, template)| <= |calls|
    ensures Numbered(Builds(History(templates, calls), project, template), startVersion)
  {
    if calls != [] {
      var init, c := calls[..|calls| - 1], calls[|calls| - 1];
      var before := History(templates, init);
      HistoryIsNumbered(templates, init, project, template, startVersion);
      var made := NewTask(templates, CreateAll(true, before), c);
      if made.Some? {
        HistoryStep(templates, before, c, made.value, project, template, startVersion);
      }
    }
  }

  lemma Unframe(p: string, a: string, b: string, f: string)
    ensures p + a + f == p + b + f ==> a == b
  {
    var x, y := p + a + f, p + b + f;
    assert x[|p|..|x| - |f|] == a && y[|p|..|y| - |f|] == b;
  }

  lemma FrameInjective(startVersion: string, i: nat, j: nat)
    requires FindSplit(startVersion).Some? && i < j
    ensures VersionNumber(startVersion, i) != VersionNumber(startVersion, j)
  {
    var m := SplitOf(startVersion);
    VersionFrame(startVersion, i);
    VersionFrame(startVersion, j);
    Unframe(m.prefix, Middle(startVersion, i), Middle(startVersion, j), m.suffix);
    ParseItoa(Parse(m.body) + i);
    ParseItoa(Parse(m.body) + j);
  }

  /** Over any sequence of AddTask calls for any templates, no task deleted and no id chosen by a
      caller, build number `k` of a template has its start version for `k == 0` and the start number
      plus `k` in the start version's frame after that; so no two builds share a version. */
  lemma {:induction false} BuildsAreNumbered(templates: Templates, calls: seq<Call>, project: int, template: int,
      startVersion: string)
    requires |calls| <= MAX_ID && NoIds(calls)
    requires (project, template) in templates && templates[(project, template)] == Template(true, Some(startVersion))
    requires FindSplit(startVersion).Some? && Parse(SplitOf(startVersion).body) + |calls| <= MAX_INT
    ensures var builds := Builds(History(templates, calls), project, template);
            && Numbered(builds, startVersion)
            && forall i, j :: 0 <= i < j < |builds| ==> builds[i].version != builds[j].version
  {
    HistoryIsNumbered(templates, calls, project, template, startVersion);
    var builds := Builds(History(templates, calls), project, template);
    forall i, j | 0 <= i < j < |builds| ensures builds[i].version != builds[j].version {
      FrameInjective(startVersion, i, j);
    }
  }

  // ---------------------------------------------------------------- the service

  /** The part of the pool that creates tasks in the store. */
  class TaskService {
    var tasks: Bucket<Task>
    const templates: Templates

    constructor (templates: Templates)
      ensures tasks == AddTasks(templates, []) && this.templates == templates
    {
      tasks := Bucket([], 0);
      this.templates := templates;
    }

    method GetTemplateTasks(project: int, template: int, count: int) returns (listed: seq<Task>)
      ensures listed == TemplateTasks(tasks, project, template, count)
    {
      var ok;
      ok, listed := UnmarshalObjects(Values(tasks.entries), Plain(), 0, count, Of(project, template));
    }

    method Add(c: Call) returns (created: bool)
      modifies this`tasks
      ensures tasks == AddTask(templates, old(tasks), c)
      ensures created <==> NewTask(templates, old(tasks), c).Some?
    {
      if (c.project, c.template) !in templates {
        return false;
      }
      var tpl := templates[(c.project, c.template)];
      var version: Option<string> := None;
      if tpl.isBuild {
        var builds := GetTemplateTasks(c.project, c.template, 1);
        if |builds| == 0 || builds[0].version.None? {
          version := tpl.startVersion;
        } else if tpl.startVersion.None? {
          return false;
        } else {
          var next := NextBuildVersion(tpl.startVersion.value, builds[0].version.value);
          if !next.Version? {
            return false;
          }
          version := Some(next.text);
        }
      }
      tasks := CreateAs(tasks, true, c.id, Task(c.project, c.template, version));
      created := true;
    }
  }
}
