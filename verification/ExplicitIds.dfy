/** What an id chosen by the caller does to the build numbers of a template. The store lists tasks
    by key, so such an id decides which build the next version is computed from. */
module ExplicitIds {
  import opened Bolt
  import opened BoltKeys
  import opened BuildNumbering
  import opened BuildVersions
  import opened Decimal
  import opened Options

  /** A build template. */
  datatype Target = Target(project: int, template: int, startVersion: string)

  predicate IsOf(t: Target, task: Task) {
    task.project == t.project && task.template == t.template
  }

  ghost predicate Known(templates: Templates, t: Target) {
    && (t.project, t.template) in templates
    && templates[(t.project, t.template)] == Template(true, Some(t.startVersion))
    && FindSplit(t.startVersion).Some?
  }

  /** The tasks of the template in the order of the store. */
  function Listed(es: seq<Entry<Task>>, t: Target): seq<Task> {
    if es == [] then [] else (if IsOf(t, es[0].value) then [es[0].value] else []) + Listed(es[1..], t)
  }

  lemma {:induction false} ListedIsMatches(es: seq<Entry<Task>>, t: Target)
    ensures Matches(Values(es), Plain(), Of(t.project, t.template)) == Listed(es, t)
  {
    if es != [] {
      var decode, filter := Plain(), Of(t.project, t.template);
      ListedIsMatches(es[1..], t);
      assert Values(es) == [es[0].value] + Values(es[1..]);
      MatchesConcat([es[0].value], Values(es[1..]), decode, filter);
      assert [es[0].value][..0] == [];
      assert Matches([es[0].value], decode, filter) == if IsOf(t, es[0].value) then [es[0].value] else [];
    }
  }

  lemma ListedCons(e: Entry<Task>, es: seq<Entry<Task>>, t: Target)
    ensures Listed([e] + es, t) == (if IsOf(t, e.value) then [e.value] else []) + Listed(es, t)
  {
    assert ([e] + es)[1..] == es;
  }

  // ---------------------------------------------------------------- putting a task

  /** The key comes before those of all tasks of the template. */
  ghost predicate BeforeAll(key: string, es: seq<Entry<Task>>, t: Target) {
    forall i :: 0 <= i < |es| && IsOf(t, es[i].value) ==> Before(key, es[i].key)
  }

  lemma {:induction false} PutFront(es: seq<Entry<Task>>, key: string, task: Task, t: Target)
    requires IsOf(t, task) && BeforeAll(key, es, t)
    ensures Listed(Put(es, key, task), t) == [task] + Listed(es, t)
  {
    if es == [] || Before(key, es[0].key) {
      ListedCons(Entry(key, task), es, t);
    } else {
      assert !IsOf(t, es[0].value);
      assert BeforeAll(key, es[1..], t);
      if es[0].key == key {
        ListedCons(Entry(key, task), es[1..], t);
      } else {
        PutFront(es[1..], key, task, t);
        ListedCons(es[0], Put(es[1..], key, task), t);
      }
    }
  }

  lemma {:induction false} PutContains(es: seq<Entry<Task>>, key: string, task: Task, t: Target)
    requires IsOf(t, task)
    ensures task in Listed(Put(es, key, task), t)
  {
    if es != [] && !Before(key, es[0].key) && es[0].key != key {
      PutContains(es[1..], key, task, t);
      ListedCons(es[0], Put(es[1..], key, task), t);
    }
  }

  /** Where a task goes that does not come before all others: not to the front of a longer list. */
  lemma {:induction false} PutLate(es: seq<Entry<Task>>, key: string, task: Task, t: Target) returns (k: nat)
    requires Sorted(es) && IsOf(t, task) && !BeforeAll(key, es, t)
    ensures var after := Listed(Put(es, key, task), t);
            k < |after| && after[k] == task && (k > 0 || |after| == |Listed(es, t)|)
  {
    var late :| 0 <= late < |es| && IsOf(t, es[late].value) && !Before(key, es[late].key);
    if late > 0 && Before(key, es[0].key) {
      BeforeTransitive(key, es[0].key, es[late].key);
    }
    if es[0].key == key {
      ListedCons(Entry(key, task), es[1..], t);
      k := 0;
    } else {
      var rest := Put(es[1..], key, task);
      ListedCons(es[0], rest, t);
      if IsOf(t, es[0].value) {
        PutContains(es[1..], key, task, t);
        var j :| 0 <= j < |Listed(rest, t)| && Listed(rest, t)[j] == task;
        k := j + 1;
      } else {
        assert es[1..][late - 1] == es[late];
        k := PutLate(es[1..], key, task, t);
      }
    }
  }

  lemma {:induction false} PutElsewhere(es: seq<Entry<Task>>, key: string, task: Task, t: Target)
    requires !IsOf(t, task) && forall i :: 0 <= i < |es| && IsOf(t, es[i].value) ==> es[i].key != key
    ensures Listed(Put(es, key, task), t) == Listed(es, t)
  {
    if es == [] || Before(key, es[0].key) {
      ListedCons(Entry(key, task), es, t);
    } else if es[0].key == key {
      ListedCons(Entry(key, task), es[1..], t);
    } else {
      PutElsewhere(es[1..], key, task, t);
      ListedCons(es[0], Put(es[1..], key, task), t);
    }
  }

  /** A task of another template put over one of this template removes it: the newest if its key
      comes before all the others, and an older one otherwise. */
  lemma {:induction false} PutOver(es: seq<Entry<Task>>, key: string, task: Task, t: Target, i: nat)
    requires Sorted(es) && !IsOf(t, task) && i < |es| && IsOf(t, es[i].value) && es[i].key == key
    ensures IsNewest(es, i, t) ==> Listed(es, t) != [] && Listed(Put(es, key, task), t) == Listed(es, t)[1..]
    ensures !IsNewest(es, i, t) ==>
              var after := Listed(Put(es, key, task), t);
              |after| == |Listed(es, t)| - 1 && after != [] && after[0] == Listed(es, t)[0]
  {
    BeforeIrreflexive(key);
    if i == 0 {
      ListedCons(Entry(key, task), es[1..], t);
      assert IsNewest(es, 0, t);
    } else {
      assert Before(es[0].key, key);
      if Before(key, es[0].key) {
        BeforeTransitive(key, es[0].key, key);
      }
      var rest := Put(es[1..], key, task);
      assert Put(es, key, task) == [es[0]] + rest;
      ListedCons(es[0], rest, t);
      PutOver(es[1..], key, task, t, i - 1);
      if IsOf(t, es[0].value) {
        assert !IsNewest(es, i, t);
        PutOverShortens(es[1..], key, task, t, i - 1);
      } else {
        assert IsNewest(es, i, t) <==> IsNewest(es[1..], i - 1, t);
      }
    }
  }

  lemma PutOverShortens(es: seq<Entry<Task>>, key: string, task: Task, t: Target, i: nat)
    requires i < |es| && Listed(es, t) != []
    requires IsNewest(es, i, t) ==> Listed(Put(es, key, task), t) == Listed(es, t)[1..]
    requires !IsNewest(es, i, t) ==> |Listed(Put(es, key, task), t)| == |Listed(es, t)| - 1
    ensures |Listed(Put(es, key, task), t)| == |Listed(es, t)| - 1
  {
  }

  /** No task of the template stands before position `i`. */
  ghost predicate IsNewest(es: seq<Entry<Task>>, i: nat, t: Target) {
    forall j :: 0 <= j < i && j < |es| ==> !IsOf(t, es[j].value)
  }

  lemma {:induction false} PutMember(es: seq<Entry<Task>>, key: string, task: Task, i: nat)
    requires i < |Put(es, key, task)|
    ensures Put(es, key, task)[i] == Entry(key, task) || Put(es, key, task)[i] in es
  {
    if es != [] && !Before(key, es[0].key) && es[0].key != key && i > 0 {
      PutMember(es[1..], key, task, i - 1);
    }
  }

  /** Whatever ids the callers choose: every task created is of an existing template, and has a version
      only if that template is a build. */
  lemma {:induction false} OnlyBuildsHaveVersions(templates: Templates, calls: seq<Call>, i: nat)
    requires i < |AddTasks(templates, calls).entries|
    ensures var t := AddTasks(templates, calls).entries[i].value;
            (t.project, t.template) in templates &&
                (t.version.Some? ==> templates[(t.project, t.template)].isBuild)
    decreases |calls|
  {
    var init, c := calls[..|calls| - 1], calls[|calls| - 1];
    var b, made := AddTasks(templates, init), NewTask(templates, AddTasks(templates, init), c);
    NewTaskCases(templates, b, c);
    var j: nat := i;
    if made.Some? {
      var key := if c.id == 0 then NextKey(b) else Key(c.id);
      PutMember(b.entries, key, made.value, i);
      assert AddTasks(templates, calls).entries == Put(b.entries, key, made.value);
      if AddTasks(templates, calls).entries[i] != Entry(key, made.value) {
        j :| 0 <= j < |b.entries| && b.entries[j] == AddTasks(templates, calls).entries[i];
        OnlyBuildsHaveVersions(templates, init, j);
      }
    } else {
      OnlyBuildsHaveVersions(templates, init, i);
    }
  }

  lemma BeforeAllPut(k: string, es: seq<Entry<Task>>, key: string, task: Task, t: Target)
    requires BeforeAll(k, es, t) && (IsOf(t, task) ==> Before(k, key))
    ensures BeforeAll(k, Put(es, key, task), t)
  {
    forall i | 0 <= i < |Put(es, key, task)| && IsOf(t, Put(es, key, task)[i].value)
      ensures Before(k, Put(es, key, task)[i].key)
    {
      PutMember(es, key, task, i);
    }
  }

  lemma BeforeAllLower(low: string, k: string, es: seq<Entry<Task>>, t: Target)
    requires BeforeAll(k, es, t) && Before(low, k)
    ensures BeforeAll(low, es, t)
  {
    forall i | 0 <= i < |es| && IsOf(t, es[i].value) ensures Before(low, es[i].key) {
      BeforeTransitive(low, k, es[i].key);
    }
  }

  // ---------------------------------------------------------------- numbered listings

  /** The listing shows the builds numbered without a gap, the last one first. */
  ghost predicate NumberedListing(listed: seq<Task>, t: Target)
    requires FindSplit(t.startVersion).Some?
  {
    forall k :: 0 <= k < |listed| ==> listed[k].version == Some(VersionNumber(t.startVersion, |listed| - 1 - k))
  }

  function NextKey(b: Bucket<Task>): string {
    NthKey(true, b.sequence + 1)
  }

  /** The builds are numbered, and the key of the sequence's next task comes before them all. */
  ghost predicate Regular(b: Bucket<Task>, t: Target)
    requires FindSplit(t.startVersion).Some?
  {
    Sorted(b.entries) && BeforeAll(NextKey(b), b.entries, t) && NumberedListing(Listed(b.entries, t), t)
  }

  /** Neither the ids nor the version numbers run out within `n` more calls. */
  ghost predicate Room(b: Bucket<Task>, t: Target, n: nat)
    requires FindSplit(t.startVersion).Some?
  {
    && b.sequence + n + 2 <= MAX_ID
    && Parse(SplitOf(t.startVersion).body) + |Listed(b.entries, t)| + n + 1 <= MAX_INT
  }

  lemma NextKeyDescends(n: nat)
    requires n + 2 <= MAX_ID
    ensures Before(NthKey(true, n + 2), NthKey(true, n + 1))
  {
    KeyOrder(MAX_ID - (n + 2), MAX_ID - (n + 1));
  }

  predicate Calls(t: Target, c: Call) {
    c.project == t.project && c.template == t.template
  }

  lemma ReverseNumbered(listed: seq<Task>, t: Target)
    requires FindSplit(t.startVersion).Some? && NumberedListing(listed, t)
    ensures Numbered(Reverse(listed), t.startVersion)
  {
    forall k | 0 <= k < |listed| ensures Reverse(listed)[k].version == Some(VersionNumber(t.startVersion, k)) {
      assert Reverse(listed)[k] == listed[|listed| - 1 - k];
    }
  }

  lemma FirstListed(b: Bucket<Task>, t: Target)
    ensures var listed, few := Listed(b.entries, t), TemplateTasks(b, t.project, t.template, 1);
            (few == [] <==> listed == []) && (listed != [] ==> few[0] == listed[0])
  {
    ListedIsMatches(b.entries, t);
  }

  lemma NextVersion(b: Bucket<Task>, t: Target)
    requires FindSplit(t.startVersion).Some? && NumberedListing(Listed(b.entries, t), t) && Room(b, t, 0)
    ensures NewVersion(Template(true, Some(t.startVersion)), TemplateTasks(b, t.project, t.template, 1)) ==
            Some(Some(VersionNumber(t.startVersion, |Listed(b.entries, t)|)))
  {
    ReverseNumbered(Listed(b.entries, t), t);
    FirstListed(b, t);
    NextVersionOf(t.startVersion, Reverse(Listed(b.entries, t)), TemplateTasks(b, t.project, t.template, 1));
  }

  lemma NextTask(templates: Templates, b: Bucket<Task>, t: Target, c: Call)
    requires Known(templates, t) && NumberedListing(Listed(b.entries, t), t) && Room(b, t, 0) && Calls(t, c)
    ensures NewTask(templates, b, c) ==
            Some(Task(t.project, t.template, Some(VersionNumber(t.startVersion, |Listed(b.entries, t)|))))
  {
    NextVersion(b, t);
  }

  lemma PlainPut(es: seq<Entry<Task>>, key: string, task: Task, t: Target)
    requires FindSplit(t.startVersion).Some? && BeforeAll(key, es, t) && NumberedListing(Listed(es, t), t)
    requires IsOf(t, task) ==> task.version == Some(VersionNumber(t.startVersion, |Listed(es, t)|))
    ensures NumberedListing(Listed(Put(es, key, task), t), t)
    ensures |Listed(Put(es, key, task), t)| == |Listed(es, t)| + (if IsOf(t, task) then 1 else 0)
  {
    if IsOf(t, task) {
      PutFront(es, key, task, t);
      assert NumberedListing([task] + Listed(es, t), t);
    } else {
      forall i | 0 <= i < |es| && IsOf(t, es[i].value) ensures es[i].key != key {
        BeforeIrreflexive(key);
      }
      PutElsewhere(es, key, task, t);
    }
  }

  /** A call made through the sequence keeps the numbering, whatever template it is for. */
  lemma PlainCallKeeps(templates: Templates, b: Bucket<Task>, t: Target, c: Call)
    requires Known(templates, t) && Regular(b, t) && Room(b, t, 0) && c.id == 0
    ensures var after := AddTask(templates, b, c);
            && Regular(after, t) && after.sequence <= b.sequence + 1
            && |Listed(after.entries, t)| <= |Listed(b.entries, t)| + 1
            && (Calls(t, c) ==> |Listed(after.entries, t)| == |Listed(b.entries, t)| + 1)
  {
    if Calls(t, c) {
      NextTask(templates, b, t, c);
    }
    var made := NewTask(templates, b, c);
    if made.Some? {
      var es, key, task := b.entries, NextKey(b), made.value;
      PutSorted(es, key, task);
      NextKeyDescends(b.sequence);
      BeforeAllLower(NthKey(true, b.sequence + 2), key, es, t);
      BeforeAllPut(NthKey(true, b.sequence + 2), es, key, task, t);
      PlainPut(es, key, task, t);
    }
  }

  function AddAll(templates: Templates, b: Bucket<Task>, calls: seq<Call>): Bucket<Task>
    decreases |calls|
  {
    if calls == [] then b else AddAll(templates, AddTask(templates, b, calls[0]), calls[1..])
  }

  lemma {:induction false} PlainCallsKeep(templates: Templates, b: Bucket<Task>, t: Target, calls: seq<Call>)
    requires Known(templates, t) && Regular(b, t) && Room(b, t, |calls|) && NoIds(calls)
    ensures Regular(AddAll(templates, b, calls), t)
    decreases |calls|
  {
    if calls != [] {
      PlainCallKeeps(templates, b, t, calls[0]);
      PlainCallsKeep(templates, AddTask(templates, b, calls[0]), t, calls[1..]);
    }
  }

  // ---------------------------------------------------------------- ids that fit

  /** What a caller can check before giving a task an id: for a task of this template its key must
      lie between the next key of the sequence and those of all the template's tasks; for a task of
      another template it must not be that of one of this template's tasks, the newest excepted. */
  ghost predicate Fits(b: Bucket<Task>, t: Target, c: Call) {
    if c.id == 0 then true
    else if Calls(t, c) then Before(NextKey(b), Key(c.id)) && BeforeAll(Key(c.id), b.entries, t)
    else forall i :: 0 <= i < |b.entries| && IsOf(t, b.entries[i].value) && b.entries[i].key == Key(c.id) ==>
           IsNewest(b.entries, i, t)
  }

  lemma DropNewest(listed: seq<Task>, t: Target)
    requires FindSplit(t.startVersion).Some? && NumberedListing(listed, t) && listed != []
    ensures NumberedListing(listed[1..], t)
  {
  }

  lemma FittingCallKeeps(templates: Templates, b: Bucket<Task>, t: Target, c: Call)
    requires Known(templates, t) && Regular(b, t) && Room(b, t, 0) && Fits(b, t, c)
    ensures var after := AddTask(templates, b, c);
            && Regular(after, t) && after.sequence <= b.sequence + 1
            && |Listed(after.entries, t)| <= |Listed(b.entries, t)| + 1
  {
    if c.id == 0 {
      PlainCallKeeps(templates, b, t, c);
    } else {
      if Calls(t, c) {
        NextTask(templates, b, t, c);
      }
      var made := NewTask(templates, b, c);
      if made.Some? {
        PutSorted(b.entries, Key(c.id), made.value);
        BeforeAllPut(NextKey(b), b.entries, Key(c.id), made.value, t);
        FittingPut(b.entries, Key(c.id), made.value, t, Calls(t, c));
      }
    }
  }

  lemma FittingPut(es: seq<Entry<Task>>, key: string, task: Task, t: Target, own: bool)
    requires FindSplit(t.startVersion).Some? && Sorted(es) && NumberedListing(Listed(es, t), t)
    requires own ==> IsOf(t, task) && BeforeAll(key, es, t)
    requires own ==> task.version == Some(VersionNumber(t.startVersion, |Listed(es, t)|))
    requires !own ==> !IsOf(t, task)
    requires !own ==> forall i :: 0 <= i < |es| && IsOf(t, es[i].value) && es[i].key == key ==> IsNewest(es, i, t)
    ensures NumberedListing(Listed(Put(es, key, task), t), t)
    ensures |Listed(Put(es, key, task), t)| <= |Listed(es, t)| + 1
  {
    if own {
      PlainPut(es, key, task, t);
    } else if i :| 0 <= i < |es| && IsOf(t, es[i].value) && es[i].key == key {
      PutOverNewest(es, key, task, t, i);
    } else {
      PutElsewhere(es, key, task, t);
    }
  }

  lemma PutOverNewest(es: seq<Entry<Task>>, key: string, task: Task, t: Target, i: nat)
    requires FindSplit(t.startVersion).Some? && Sorted(es) && NumberedListing(Listed(es, t), t) && !IsOf(t, task)
    requires i < |es| && IsOf(t, es[i].value) && es[i].key == key && IsNewest(es, i, t)
    ensures NumberedListing(Listed(Put(es, key, task), t), t)
    ensures |Listed(Put(es, key, task), t)| <= |Listed(es, t)|
  {
    PutOver(es, key, task, t, i);
    DropNewest(Listed(es, t), t);
  }

  ghost predicate AllFit(templates: Templates, b: Bucket<Task>, t: Target, calls: seq<Call>)
    decreases |calls|
  {
    calls == [] || (Fits(b, t, calls[0]) && AllFit(templates, AddTask(templates, b, calls[0]), t, calls[1..]))
  }

  /** Whatever ids the callers choose, the builds stay numbered while every chosen id fits. */
  lemma {:induction false} FittingCallsKeep(templates: Templates, b: Bucket<Task>, t: Target, calls: seq<Call>)
    requires Known(templates, t) && Regular(b, t) && Room(b, t, |calls|) && AllFit(templates, b, t, calls)
    ensures Regular(AddAll(templates, b, calls), t)
    decreases |calls|
  {
    if calls != [] {
      FittingCallKeeps(templates, b, t, calls[0]);
      FittingCallsKeep(templates, AddTask(templates, b, calls[0]), t, calls[1..]);
    }
  }

  // ---------------------------------------------------------------- the condition is exact

  lemma VersionsDiffer(t: Target, i: nat, j: nat)
    requires FindSplit(t.startVersion).Some?
    ensures VersionNumber(t.startVersion, i) == VersionNumber(t.startVersion, j) ==> i == j
  {
    if i < j {
      FrameInjective(t.startVersion, i, j);
    } else if j < i {
      FrameInjective(t.startVersion, j, i);
    }
  }

  /** A build that does not go to the front spoils the listing at once. */
  lemma LatePutSpoils(es: seq<Entry<Task>>, key: string, task: Task, t: Target)
    requires FindSplit(t.startVersion).Some? && Sorted(es) && IsOf(t, task) && !BeforeAll(key, es, t)
    requires task.version == Some(VersionNumber(t.startVersion, |Listed(es, t)|))
    requires |Listed(Put(es, key, task), t)| <= |Listed(es, t)| + 1
    ensures !NumberedListing(Listed(Put(es, key, task), t), t)
  {
    var k := PutLate(es, key, task, t);
    var after := Listed(Put(es, key, task), t);
    VersionsDiffer(t, |after| - 1 - k, |Listed(es, t)|);
  }

  lemma {:induction false} PutAddsOne(es: seq<Entry<Task>>, key: string, task: Task, t: Target)
    ensures |Listed(Put(es, key, task), t)| <= |Listed(es, t)| + 1
  {
    if es == [] || Before(key, es[0].key) {
      ListedCons(Entry(key, task), es, t);
    } else if es[0].key == key {
      ListedCons(Entry(key, task), es[1..], t);
    } else {
      PutAddsOne(es[1..], key, task, t);
      ListedCons(es[0], Put(es[1..], key, task), t);
    }
  }

  /** A task of another template put over an older build spoils the listing at once. */
  lemma OverwriteSpoils(es: seq<Entry<Task>>, key: string, task: Task, t: Target, i: nat)
    requires FindSplit(t.startVersion).Some? && Sorted(es) && NumberedListing(Listed(es, t), t) && !IsOf(t, task)
    requires i < |es| && IsOf(t, es[i].value) && es[i].key == key && !IsNewest(es, i, t)
    ensures !NumberedListing(Listed(Put(es, key, task), t), t)
  {
    PutOver(es, key, task, t, i);
    VersionsDiffer(t, |Listed(es, t)| - 2, |Listed(es, t)| - 1);
  }

  /** A build whose id is below those the sequence has left goes to the front, but the next build
      of the sequence then goes behind it. */
  lemma LowIdSpoils(templates: Templates, b: Bucket<Task>, t: Target, c: Call)
    requires Known(templates, t) && Regular(b, t) && Room(b, t, 2) && Calls(t, c) && c.id != 0
    requires BeforeAll(Key(c.id), b.entries, t) && !Before(NextKey(b), Key(c.id))
    ensures var after := AddTask(templates, AddTask(templates, b, c), Call(t.project, t.template, 0));
            !NumberedListing(Listed(after.entries, t), t)
  {
    NextTask(templates, b, t, c);
    var task := NewTask(templates, b, c).value;
    PlainPut(b.entries, Key(c.id), task, t);
    PutSorted(b.entries, Key(c.id), task);
    InPut(b.entries, Key(c.id), task);
    NextBuildSpoils(templates, AddTask(templates, b, c), t, Key(c.id), task);
  }

  /** A build that is not behind the sequence's next key will have the next build behind it. */
  lemma NextBuildSpoils(templates: Templates, b: Bucket<Task>, t: Target, key: string, task: Task)
    requires Known(templates, t) && Room(b, t, 0) && Sorted(b.entries) && NumberedListing(Listed(b.entries, t), t)
    requires Entry(key, task) in b.entries && IsOf(t, task) && !Before(NextKey(b), key)
    ensures !NumberedListing(Listed(AddTask(templates, b, Call(t.project, t.template, 0)).entries, t), t)
  {
    var next := Call(t.project, t.template, 0);
    NextTask(templates, b, t, next);
    var made := NewTask(templates, b, next).value;
    PutAddsOne(b.entries, NextKey(b), made, t);
    LatePutSpoils(b.entries, NextKey(b), made, t);
  }

  lemma {:induction false} InPut(es: seq<Entry<Task>>, key: string, task: Task)
    ensures Entry(key, task) in Put(es, key, task)
  {
    if es != [] && !Before(key, es[0].key) && es[0].key != key {
      InPut(es[1..], key, task);
    }
  }

  /** The builds stay numbered through all later calls without chosen ids. */
  ghost predicate StaysNumbered(templates: Templates, b: Bucket<Task>, t: Target)
    requires FindSplit(t.startVersion).Some?
  {
    forall rest :: NoIds(rest) && Room(b, t, |rest|) ==>
        NumberedListing(Listed(AddAll(templates, b, rest).entries, t), t)
  }

  /** From every state in which the builds are numbered, a task with a chosen id leaves them
      numbered for all later calls if and only if its id fits. */
  lemma NumberingLastsIff(templates: Templates, b: Bucket<Task>, t: Target, c: Call)
    requires Known(templates, t) && Regular(b, t) && Room(b, t, 2) && c.id != 0 && NewTask(templates, b, c).Some?
    ensures Fits(b, t, c) <==> StaysNumbered(templates, AddTask(templates, b, c), t)
  {
    var b1, task := AddTask(templates, b, c), NewTask(templates, b, c).value;
    if Fits(b, t, c) {
      FittingCallKeeps(templates, b, t, c);
      forall rest | NoIds(rest) && Room(b1, t, |rest|)
          ensures NumberedListing(Listed(AddAll(templates, b1, rest).entries, t), t) {
        PlainCallsKeep(templates, b1, t, rest);
      }
    } else {
      PutAddsOne(b.entries, Key(c.id), task, t);
      MisfitSpoils(templates, b, t, c);
    }
  }

  lemma MisfitSpoils(templates: Templates, b: Bucket<Task>, t: Target, c: Call)
    requires Known(templates, t) && Regular(b, t) && Room(b, t, 2) && c.id != 0 && NewTask(templates, b, c).Some?
    requires !Fits(b, t, c)
    ensures !StaysNumbered(templates, AddTask(templates, b, c), t)
  {
    var b1, task := AddTask(templates, b, c), NewTask(templates, b, c).value;
    PutAddsOne(b.entries, Key(c.id), task, t);
    assert NoIds([]) && AddAll(templates, b1, []) == b1 && Room(b1, t, 0);
    if !Calls(t, c) {
      var i :| 0 <= i < |b.entries| && IsOf(t, b.entries[i].value) && b.entries[i].key == Key(c.id) &&
          !IsNewest(b.entries, i, t);
      OverwriteSpoils(b.entries, Key(c.id), task, t, i);
    } else if !BeforeAll(Key(c.id), b.entries, t) {
      NextTask(templates, b, t, c);
      LatePutSpoils(b.entries, Key(c.id), task, t);
    } else {
      var next := Call(t.project, t.template, 0);
      LowIdSpoils(templates, b, t, c);
      assert [next][1..] == [];
      assert NoIds([next]) && AddAll(templates, b1, [next]) == AddTask(templates, b1, next) && Room(b1, t, 1);
    }
  }

  // ---------------------------------------------------------------- the same version for ever

  lemma {:induction false} PutBehind(es: seq<Entry<Task>>, key: string, task: Task, i: nat)
    requires Sorted(es) && i < |es| && Before(es[i].key, key)
    ensures i < |Put(es, key, task)| && Put(es, key, task)[..i + 1] == es[..i + 1]
  {
    BeforeIrreflexive(key);
    if i > 0 {
      assert Before(es[0].key, es[i].key);
      BeforeTransitive(es[0].key, es[i].key, key);
    }
    if Before(key, es[0].key) {
      BeforeTransitive(key, es[0].key, key);
    }
    if i > 0 {
      PutBehind(es[1..], key, task, i - 1);
      assert es[..i + 1] == [es[0]] + es[1..][..i];
    }
  }

  lemma {:induction false} NewestIsListedFirst(es: seq<Entry<Task>>, t: Target, i: nat)
    requires i < |es| && IsOf(t, es[i].value) && IsNewest(es, i, t)
    ensures Listed(es, t) != [] && Listed(es, t)[0] == es[i].value
  {
    if i > 0 {
      assert !IsOf(t, es[0].value);
      NewestIsListedFirst(es[1..], t, i - 1);
    }
  }

  /** The next version is computed from the listed build number `m`. */
  lemma NextAfterListed(templates: Templates, b: Bucket<Task>, t: Target, c: Call, i: nat, m: nat)
    requires Known(templates, t) && Calls(t, c) && Parse(SplitOf(t.startVersion).body) + m < MAX_INT
    requires i < |b.entries| && IsOf(t, b.entries[i].value) && IsNewest(b.entries, i, t)
    requires b.entries[i].value.version == Some(VersionNumber(t.startVersion, m))
    ensures NewTask(templates, b, c) == Some(Task(t.project, t.template, Some(VersionNumber(t.startVersion, m + 1))))
  {
    ListedIsMatches(b.entries, t);
    NewestIsListedFirst(b.entries, t, i);
    NextNumber(t.startVersion, m);
    VersionAfter(t.startVersion, TemplateTasks(b, t.project, t.template, 1), VersionNumber(t.startVersion, m + 1));
  }

  /** The template's newest task stands at position `i` under `key` and is build number `m`. */
  ghost predicate NewestAt(b: Bucket<Task>, t: Target, i: nat, key: string, m: nat)
    requires FindSplit(t.startVersion).Some?
  {
    && Sorted(b.entries) && i < |b.entries| && IsOf(t, b.entries[i].value) && IsNewest(b.entries, i, t)
    && b.entries[i].key == key && b.entries[i].value.version == Some(VersionNumber(t.startVersion, m))
  }

  lemma PutKeepsNewest(b: Bucket<Task>, t: Target, i: nat, key: string, m: nat, at: string, task: Task, sequence: nat)
    requires FindSplit(t.startVersion).Some? && NewestAt(b, t, i, key, m) && Before(key, at)
    ensures NewestAt(Bucket(Put(b.entries, at, task), sequence), t, i, key, m)
  {
    var after := Put(b.entries, at, task);
    PutSorted(b.entries, at, task);
    PutBehind(b.entries, at, task, i);
    forall j | 0 <= j <= i ensures after[j] == b.entries[j] {
      assert after[..i + 1][j] == b.entries[..i + 1][j];
    }
  }

  /** The key lies before those of the sequence's tasks after number `from`, up to number `to`. */
  ghost predicate BeforeNext(key: string, from: nat, to: nat) {
    forall k: nat :: from < k <= to ==> Before(key, NthKey(true, k))
  }

  /** While the sequence's keys come after that of the newest build, every build gets the same
      version. */
  lemma {:induction false} VersionRepeats(templates: Templates, b: Bucket<Task>, t: Target, calls: seq<Call>,
                                          i: nat, key: string, m: nat)
    requires Known(templates, t) && Parse(SplitOf(t.startVersion).body) + m < MAX_INT
    requires NewestAt(b, t, i, key, m) && NoIds(calls) && BeforeNext(key, b.sequence, b.sequence + |calls|)
    ensures NewTask(templates, AddAll(templates, b, calls), Call(t.project, t.template, 0)) ==
            Some(Task(t.project, t.template, Some(VersionNumber(t.startVersion, m + 1))))
    decreases |calls|
  {
    if calls == [] {
      NextAfterListed(templates, b, t, Call(t.project, t.template, 0), i, m);
    } else {
      var made, b1 := NewTask(templates, b, calls[0]), AddTask(templates, b, calls[0]);
      if made.Some? {
        PutKeepsNewest(b, t, i, key, m, NextKey(b), made.value, b.sequence + 1);
      }
      VersionRepeats(templates, b1, t, calls[1..], i, key, m);
    }
  }

  lemma OneBeforeNext(n: nat)
    requires n + 2 <= MAX_ID
    ensures BeforeNext(Key(1), 0, n)
  {
    forall k: nat | 0 < k <= n ensures Before(Key(1), NthKey(true, k)) {
      KeyOrder(1, MAX_ID - k);
    }
  }

  lemma FirstTask(templates: Templates, b: Bucket<Task>, t: Target, c: Call)
    requires Known(templates, t) && Parse(SplitOf(t.startVersion).body) + 1 <= MAX_INT
    requires b.entries == [] && b.sequence == 0 && Calls(t, c) && c.id != 0
    ensures var after := AddTask(templates, b, c);
            NewestAt(after, t, 0, Key(c.id), 0) && after.sequence == 0
  {
    NextTask(templates, b, t, c);
    PutFront(b.entries, Key(c.id), NewTask(templates, b, c).value, t);
    PutSorted(b.entries, Key(c.id), NewTask(templates, b, c).value);
  }

  /** The first task of a build template given id 1: all later builds get one and the same version. */
  lemma IdOneRepeatsVersion(templates: Templates, b: Bucket<Task>, t: Target, calls: seq<Call>)
    requires Known(templates, t) && Parse(SplitOf(t.startVersion).body) + 1 <= MAX_INT
    requires b.entries == [] && b.sequence == 0 && NoIds(calls) && |calls| + 2 <= MAX_ID
    ensures var after := AddTask(templates, b, Call(t.project, t.template, 1));
            NewTask(templates, AddAll(templates, after, calls), Call(t.project, t.template, 0)) ==
            Some(Task(t.project, t.template, Some(VersionNumber(t.startVersion, 1))))
  {
    FirstTask(templates, b, t, Call(t.project, t.template, 1));
    OneBeforeNext(|calls|);
    VersionRepeats(templates, AddTask(templates, b, Call(t.project, t.template, 1)), t, calls, 0, Key(1), 0);
  }
}
