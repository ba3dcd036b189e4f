/** The migration driver over a store whose data transforms can fail between two writes. */
module Migrations {
  import opened Options

  datatype Version = Version(major: nat, minor: nat, patch: nat)

  const MIGRATIONS: seq<Version> := [
    Version(0, 0, 0), Version(1, 0, 0), Version(1, 2, 0), Version(1, 3, 0), Version(1, 4, 0), Version(1, 5, 0),
    Version(1, 6, 0), Version(1, 7, 0), Version(1, 8, 0), Version(1, 9, 0), Version(2, 2, 1), Version(2, 3, 0),
    Version(2, 3, 1), Version(2, 3, 2), Version(2, 4, 0), Version(2, 5, 0), Version(2, 5, 2), Version(2, 7, 1),
    Version(2, 7, 4), Version(2, 7, 6), Version(2, 7, 8), Version(2, 7, 9), Version(2, 7, 10), Version(2, 7, 12),
    Version(2, 7, 13), Version(2, 8, 0), Version(2, 8, 1), Version(2, 8, 7), Version(2, 8, 8), Version(2, 8, 20),
    Version(2, 8, 25), Version(2, 8, 26), Version(2, 8, 36), Version(2, 8, 38), Version(2, 8, 39), Version(2, 8, 40),
    Version(2, 8, 42), Version(2, 8, 51), Version(2, 8, 57), Version(2, 8, 58), Version(2, 8, 91), Version(2, 9, 6)
  ]

  datatype Kind = Repository | Template | User | Other

  datatype Ref = Ref(kind: Kind, project: int, id: int)

  datatype Field = GitUrl | GitBranch | Name | Alias | Admin | Role | Another(name: string)

  datatype Value = Null | Flag(on: bool) | Text(text: string)

  type Object = map<Field, Value>

  type Data = map<Ref, Object>

  /** The objects a version's transform rewrites; most versions have none in this store. */
  function KindOf(v: Version): Kind {
    if v == Version(2, 8, 26) then Repository
    else if v == Version(2, 8, 40) then Template
    else if v == Version(2, 8, 91) then User
    else Other
  }

  // ---------------------------------------------------------------- one object

  /** The pieces between the '#' characters. */
  function Split(s: string): (parts: seq<string>)
    ensures |parts| >= 1
    ensures |parts| > 1 <==> '#' in s
    ensures |parts| == 1 ==> parts[0] == s
    ensures forall i :: 0 <= i < |parts| ==> '#' !in parts[i]
  {
    if s == "" then [""]
    else
      var rest := Split(s[1..]);
      if s[0] == '#' then [""] + rest else [[s[0]] + rest[0]] + rest[1..]
  }

  /** The type assertion on the URL panics when it fails. */
  predicate CanConvert(kind: Kind, o: Object) {
    kind == Repository ==> GitUrl in o && o[GitUrl].Text?
  }

  function Convert(kind: Kind, o: Object): Object
    requires CanConvert(kind, o)
  {
    match kind
    case Repository =>
      var parts := Split(o[GitUrl].text);
      o[GitUrl := Text(parts[0])][GitBranch := Text(if |parts| > 1 then parts[1] else "master")]
    case Template => o[Name := if Alias in o then o[Alias] else Null] - {Alias}
    case User => o[Role := Text(if Admin in o && o[Admin] == Flag(true) then "owner" else "manager")] - {Admin}
    case Other => o
  }

  /** The first piece is what stands before the first '#'. */
  lemma {:induction false} SplitFirst(a: string, rest: string)
    requires '#' !in a
    ensures Split(a + "#" + rest) == [a] + Split(rest)
    decreases |a|
  {
    var s := a + "#" + rest;
    if a == "" {
      assert s[1..] == rest;
    } else {
      assert s[1..] == a[1..] + "#" + rest;
      SplitFirst(a[1..], rest);
      assert [a[0]] + a[1..] == a;
    }
  }

  /** The URL is cut at its first '#'; what follows it, up to the next '#' if there is one, becomes the
      branch, and without a '#' the branch is "master". No other field changes. */
  lemma ConvertedRepository(o: Object)
    requires CanConvert(Repository, o)
    ensures var url, after := o[GitUrl].text, Convert(Repository, o);
            && ('#' !in url ==> after == o[GitBranch := Text("master")])
            && (forall a, b: string :: url == a + "#" + b && '#' !in a && '#' !in b ==>
                  after == o[GitUrl := Text(a)][GitBranch := Text(b)])
            && (forall a, b, c: string :: url == a + "#" + (b + "#" + c) && '#' !in a && '#' !in b ==>
                  after == o[GitUrl := Text(a)][GitBranch := Text(b)])
  {
    var url, after := o[GitUrl].text, Convert(Repository, o);
    if '#' !in url {
      assert o[GitUrl := Text(url)] == o;
    }
    forall a, b: string | url == a + "#" + b && '#' !in a && '#' !in b
      ensures after == o[GitUrl := Text(a)][GitBranch := Text(b)]
    {
      SplitFirst(a, b);
    }
    forall a, b, c: string | url == a + "#" + (b + "#" + c) && '#' !in a && '#' !in b
      ensures after == o[GitUrl := Text(a)][GitBranch := Text(b)]
    {
      SplitFirst(a, b + "#" + c);
      SplitFirst(b, c);
    }
  }

  /** A template's name is what was its alias, and a user whose admin flag was on becomes an owner and
      any other a manager. The old field is gone and all others stay. */
  lemma ConvertedTemplateAndUser(o: Object, f: Field)
    ensures var t := Convert(Template, o);
            && (f in t <==> (f in o && f != Alias) || f == Name)
            && (f in t && f != Name ==> t[f] == o[f])
            && t[Name] == (if Alias in o then o[Alias] else Null)
    ensures var u := Convert(User, o);
            && (f in u <==> (f in o && f != Admin) || f == Role)
            && (f in u && f != Role ==> u[f] == o[f])
            && u[Role] == (if Admin in o && o[Admin] == Flag(true) then Text("owner") else Text("manager"))
    ensures Convert(Other, o) == o
  {
  }

  /** Which versions rewrite which objects. */
  lemma KindsOfVersions(v: Version)
    ensures KindOf(v) != Other <==> v in {Version(2, 8, 26), Version(2, 8, 40), Version(2, 8, 91)}
    ensures KindOf(Version(2, 8, 26)) == Repository
    ensures KindOf(Version(2, 8, 40)) == Template && KindOf(Version(2, 8, 91)) == User
  {
  }

  /** What a second conversion would not damage. */
  predicate Survives(kind: Kind, o: Object)
    requires CanConvert(kind, o)
  {
    match kind
    case Repository => var parts := Split(o[GitUrl].text); |parts| == 1 || parts[1] == "master"
    case Template => Alias in o ==> o[Alias] == Null
    case User => Admin in o ==> o[Admin] != Flag(true)
    case Other => true
  }

  /** The transforms are not idempotent: a second run resets the branch, the name or the role. */
  lemma ConvertTwice(kind: Kind, o: Object)
    requires CanConvert(kind, o)
    ensures CanConvert(kind, Convert(kind, o))
    ensures Convert(kind, Convert(kind, o)) == Convert(kind, o) <==> Survives(kind, o)
  {
    var once := Convert(kind, o);
    match kind
    case Repository =>
      assert '#' !in once[GitUrl].text;
      var twice := Convert(kind, once);
      assert twice[GitBranch] == Text("master");
      if Survives(kind, o) {
        assert twice == once;
      }
    case Template =>
      var twice := Convert(kind, once);
      assert twice[Name] == Null;
      if Survives(kind, o) {
        assert twice == once;
      }
    case User =>
      var twice := Convert(kind, once);
      assert twice[Role] == Text("manager");
      assert |"manager"| != |"owner"|;
      if Survives(kind, o) {
        assert twice == once;
      }
    case Other =>
  }

  // ---------------------------------------------------------------- one version

  datatype Result = Done | Failed | Panicked

  datatype State = State(recorded: set<Version>, data: Data)

  /** How one attempt goes: whether the record can be read, the order in which the objects come
      out of a Go map, how many writes succeed, and whether the version is then recorded. */
  datatype Attempt = Attempt(readable: bool, order: seq<Ref>, writes: nat, recorded: bool)

  ghost predicate Lists(order: seq<Ref>, keys: set<Ref>, kind: Kind) {
    && (forall r :: r in order <==> r in keys && r.kind == kind && kind != Other)
    && NoRepeats(order)
  }

  /** The conversion of one object, or none where it panics. */
  function Converter(kind: Kind): Object -> Option<Object> {
    o => if CanConvert(kind, o) then Some(Convert(kind, o)) else None
  }

  function Rewrite<K, V>(f: V -> Option<V>, data: map<K, V>, order: seq<K>, writes: nat): (out: (map<K, V>, Result))
    requires forall r :: r in order ==> r in data
    ensures out.0.Keys == data.Keys
    decreases |order|
  {
    if order == [] then (data, Done)
    else
      var r := order[0];
      var o := f(data[r]);
      if o.None? then (data, Panicked)
      else if writes == 0 then (data, Failed)
      else Rewrite(f, data[r := o.value], order[1..], writes - 1)
  }

  function Apply(v: Version, s: State, a: Attempt): (out: (State, Result))
    requires forall r :: r in a.order ==> r in s.data
    ensures out.0.data.Keys == s.data.Keys
  {
    var (data, result) := Rewrite(Converter(KindOf(v)), s.data, a.order, a.writes);
    if !result.Done? then (s.(data := data), result)
    else if !a.recorded then (s.(data := data), Failed)
    else (State(s.recorded + {v}, data), Done)
  }

  /** Exactly the objects in `done` are converted, each once. */
  ghost predicate Wrote<K, V>(f: V -> Option<V>, data: map<K, V>, done: seq<K>, after: map<K, V>) {
    && after.Keys == data.Keys
    && (forall r :: r in done ==> r in data && f(data[r]) == Some(after[r]))
    && (forall r :: r in data && r !in done ==> after[r] == data[r])
  }

  ghost predicate NoRepeats<K>(order: seq<K>) {
    forall i, j :: 0 <= i < j < |order| ==> order[i] != order[j]
  }

  /** The objects written before a stop are converted and no others. */
  lemma {:induction false} RewriteConverts<K, V>(f: V -> Option<V>, data: map<K, V>, order: seq<K>, writes: nat)
      returns (n: nat)
    requires forall r :: r in order ==> r in data
    requires NoRepeats(order)
    ensures n <= |order| && n <= writes
    ensures Rewrite(f, data, order, writes).1.Done? <==> n == |order|
    ensures Rewrite(f, data, order, writes).1.Failed? <==> n < |order| && n == writes && f(data[order[n]]).Some?
    ensures Rewrite(f, data, order, writes).1.Panicked? <==> n < |order| && f(data[order[n]]).None?
    ensures Wrote(f, data, order[..n], Rewrite(f, data, order, writes).0)
    decreases |order|
  {
    if order == [] || f(data[order[0]]).None? || writes == 0 {
      n := 0;
    } else {
      var next, rest := data[order[0] := f(data[order[0]]).value], order[1..];
      FirstOnce(order);
      var m := RewriteConverts(f, next, rest, writes - 1);
      n := m + 1;
      TakeOneMore(order, m);
      WroteMore(f, data, order[0], rest[..m], Rewrite(f, next, rest, writes - 1).0);
    }
  }

  lemma FirstOnce<K>(order: seq<K>)
    requires NoRepeats(order) && order != []
    ensures NoRepeats(order[1..]) && order[0] !in order[1..]
  {
  }

  lemma TakeOneMore<K>(order: seq<K>, m: nat)
    requires m < |order|
    ensures order[..m + 1] == [order[0]] + order[1..][..m]
    ensures forall r :: r in order[1..][..m] ==> r in order[1..]
  {
  }

  lemma WroteMore<K, V>(f: V -> Option<V>, data: map<K, V>, first: K, rest: seq<K>, after: map<K, V>)
    requires first in data && f(data[first]).Some? && first !in rest
    requires Wrote(f, data[first := f(data[first]).value], rest, after)
    ensures Wrote(f, data, [first] + rest, after)
  {
    var next := data[first := f(data[first]).value];
    var done := [first] + rest;
    forall r | r in done ensures r in data && f(data[r]) == Some(after[r]) {
      if r in rest {
        assert next[r] == data[r];
      }
    }
    forall r | r in data && r !in done ensures after[r] == data[r] {
      assert r !in rest;
    }
  }

  /** A transform that finishes converts every object of its kind, in whatever order. */
  lemma FinishedRewrite<V>(f: V -> Option<V>, kind: Kind, data: map<Ref, V>, order: seq<Ref>, writes: nat)
    requires Lists(order, data.Keys, kind)
    requires Rewrite(f, data, order, writes).1.Done?
    ensures ConvertedOnce(f, kind, data, Rewrite(f, data, order, writes).0)
  {
    var n := RewriteConverts(f, data, order, writes);
    assert order[..n] == order;
  }

  /** Every object of the kind converted once, and no other object changed. */
  ghost predicate ConvertedOnce<V>(f: V -> Option<V>, kind: Kind, data: map<Ref, V>, after: map<Ref, V>) {
    && after.Keys == data.Keys
    && (forall r :: r in data && r.kind == kind && kind != Other ==> f(data[r]) == Some(after[r]))
    && (forall r :: r in data && (r.kind != kind || kind == Other) ==> after[r] == data[r])
  }

  // ---------------------------------------------------------------- the driver

  ghost predicate ValidAttempts(versions: seq<Version>, keys: set<Ref>, attempts: seq<Attempt>) {
    |attempts| == |versions| && forall i :: 0 <= i < |versions| ==> Lists(attempts[i].order, keys, KindOf(versions[i]))
  }

  ghost function AfterMigrate(versions: seq<Version>, s: State, attempts: seq<Attempt>): (out: (State, Result))
    requires ValidAttempts(versions, s.data.Keys, attempts)
    ensures out.0.data.Keys == s.data.Keys
    decreases |versions|
  {
    if versions == [] then (s, Done)
    else if !attempts[0].readable then (s, Failed)
    else if versions[0] in s.recorded then AfterMigrate(versions[1..], s, attempts[1..])
    else
      var (after, result) := Apply(versions[0], s, attempts[0]);
      if result.Done? then AfterMigrate(versions[1..], after, attempts[1..]) else (after, result)
  }

  ghost predicate Distinct(versions: seq<Version>) {
    forall i, j :: 0 <= i < j < |versions| ==> versions[i] != versions[j]
  }

  ghost predicate RecordedIsPrefix(versions: seq<Version>, k: nat, recorded: set<Version>) {
    k <= |versions| && forall v :: v in recorded <==> v in versions[..k]
  }

  /** What a sequence of calls leaves, however each ends. */
  ghost function Calls(versions: seq<Version>, s: State, calls: seq<seq<Attempt>>): (out: State)
    requires forall c :: c in calls ==> ValidAttempts(versions, s.data.Keys, c)
    ensures out.data.Keys == s.data.Keys
    decreases |calls|
  {
    if calls == [] then s else Calls(versions, AfterMigrate(versions, s, calls[0]).0, calls[1..])
  }

  // ---------------------------------------------------------------- what is recorded

  /** `i` versions have been looked at and `k` are recorded. */
  lemma {:induction false} MigrateRecordsPrefix(versions: seq<Version>, i: nat, k: nat, s: State,
      attempts: seq<Attempt>)
      returns (later: nat)
    requires i <= k && RecordedIsPrefix(versions, k, s.recorded)
    requires ValidAttempts(versions[i..], s.data.Keys, attempts)
    ensures k <= later && RecordedIsPrefix(versions, later, AfterMigrate(versions[i..], s, attempts).0.recorded)
    ensures AfterMigrate(versions[i..], s, attempts).1.Done? ==> later == |versions|
    decreases |versions| - i
  {
    later := k;
    if i < |versions| && attempts[0].readable {
      assert versions[i..][1..] == versions[i + 1..];
      if versions[i] in s.recorded {
        if i == k {
          var j :| 0 <= j < k && versions[..k][j] == versions[i];
          var more := RecordAgain(versions, k, s.recorded, j);
          later := MigrateRecordsPrefix(versions, i + 1, more, s, attempts[1..]);
        } else {
          later := MigrateRecordsPrefix(versions, i + 1, k, s, attempts[1..]);
        }
      } else {
        NextIsUnrecorded(versions, i, k, s.recorded);
        ApplyRecordsNext(versions, k, s, attempts[0]);
        var (after, result) := Apply(versions[i], s, attempts[0]);
        if result.Done? {
          later := MigrateRecordsPrefix(versions, i + 1, k + 1, after, attempts[1..]);
        }
      }
    }
  }

  lemma NextIsUnrecorded(versions: seq<Version>, i: nat, k: nat, recorded: set<Version>)
    requires RecordedIsPrefix(versions, k, recorded) && i <= k && i < |versions| && versions[i] !in recorded
    ensures i == k
  {
    assert forall j :: 0 <= j < k ==> versions[j] in versions[..k];
  }

  lemma ApplyRecordsNext(versions: seq<Version>, k: nat, s: State, a: Attempt)
    requires RecordedIsPrefix(versions, k, s.recorded) && k < |versions|
    requires forall r :: r in a.order ==> r in s.data
    ensures var (after, result) := Apply(versions[k], s, a);
            RecordedIsPrefix(versions, if result.Done? then k + 1 else k, after.recorded)
  {
    assert versions[..k + 1] == versions[..k] + [versions[k]];
  }

  /** A version listed twice is recorded the first time. */
  lemma RecordAgain(versions: seq<Version>, k: nat, recorded: set<Version>, j: nat) returns (more: nat)
    requires RecordedIsPrefix(versions, k, recorded) && j < k < |versions| && versions[j] == versions[k]
    ensures more == k + 1 && RecordedIsPrefix(versions, more, recorded)
  {
    more := k + 1;
    assert versions[..k + 1] == versions[..k] + [versions[k]];
    assert versions[..k][j] == versions[k];
  }

  /** Whatever fails and however often the server is started, the recorded versions are a prefix
      of the list. */
  lemma {:induction false} RecordedIsAlwaysPrefix(versions: seq<Version>, k: nat, s: State, calls: seq<seq<Attempt>>)
      returns (later: nat)
    requires RecordedIsPrefix(versions, k, s.recorded)
    requires forall c :: c in calls ==> ValidAttempts(versions, s.data.Keys, c)
    ensures k <= later && RecordedIsPrefix(versions, later, Calls(versions, s, calls).recorded)
    decreases |calls|
  {
    later := k;
    if calls != [] {
      assert versions[0..] == versions;
      var m := MigrateRecordsPrefix(versions, 0, k, s, calls[0]);
      later := RecordedIsAlwaysPrefix(versions, m, AfterMigrate(versions, s, calls[0]).0, calls[1..]);
    }
  }

  /** After a call that succeeded, no later call changes anything. */
  lemma {:induction false} SuccessIsFinal(versions: seq<Version>, k: nat, s: State, first: seq<Attempt>,
      again: seq<Attempt>)
    requires RecordedIsPrefix(versions, k, s.recorded)
    requires ValidAttempts(versions, s.data.Keys, first) && ValidAttempts(versions, s.data.Keys, again)
    requires AfterMigrate(versions, s, first).1.Done?
    ensures AfterMigrate(versions, AfterMigrate(versions, s, first).0, again).0 == AfterMigrate(versions, s, first).0
    ensures AfterMigrate(versions, AfterMigrate(versions, s, first).0, again).1.Done? <==>
            forall i :: 0 <= i < |again| ==> again[i].readable
  {
    assert versions[0..] == versions;
    var later := MigrateRecordsPrefix(versions, 0, k, s, first);
    assert versions[..|versions|] == versions;
    AllRecorded(versions, AfterMigrate(versions, s, first).0, again);
  }

  lemma {:induction false} AllRecorded(versions: seq<Version>, s: State, attempts: seq<Attempt>)
    requires forall v :: v in versions ==> v in s.recorded
    requires ValidAttempts(versions, s.data.Keys, attempts)
    ensures AfterMigrate(versions, s, attempts).0 == s
    ensures AfterMigrate(versions, s, attempts).1.Done? <==> forall i :: 0 <= i < |attempts| ==> attempts[i].readable
    decreases |versions|
  {
    if versions != [] && attempts[0].readable {
      AllRecorded(versions[1..], s, attempts[1..]);
      assert forall i :: 0 < i < |attempts| ==> attempts[i] == attempts[1..][i - 1];
    }
  }

  // ---------------------------------------------------------------- what a record means

  /** The object is in the form that the version's transform leaves. */
  predicate Converted(kind: Kind, o: Object) {
    match kind
    case Repository => GitUrl in o && o[GitUrl].Text? && '#' !in o[GitUrl].text && GitBranch in o && o[GitBranch].Text?
    case Template => Name in o && Alias !in o
    case User => Admin !in o && Role in o && (o[Role] == Text("owner") || o[Role] == Text("manager"))
    case Other => true
  }

  lemma ConvertConverts(kind: Kind, o: Object)
    requires CanConvert(kind, o)
    ensures Converted(kind, Convert(kind, o))
  {
  }

  /** Where a version is recorded, every object it is about has been converted. */
  ghost predicate RecordsHold(s: State) {
    forall v, r :: v in s.recorded && r in s.data && r.kind == KindOf(v) ==> Converted(r.kind, s.data[r])
  }

  lemma {:induction false} RewriteDoneIff<K, V>(f: V -> Option<V>, data: map<K, V>, order: seq<K>, writes: nat)
    requires NoRepeats(order) && forall r :: r in order ==> r in data
    ensures Rewrite(f, data, order, writes).1.Done? <==>
            |order| <= writes && forall r :: r in order ==> f(data[r]).Some?
    decreases |order|
  {
    if order != [] && f(data[order[0]]).Some? && writes > 0 {
      FirstOnce(order);
      RewriteDoneIff(f, data[order[0] := f(data[order[0]]).value], order[1..], writes - 1);
      assert order == [order[0]] + order[1..];
    }
  }

  /** An attempt succeeds exactly if all its objects can be converted, all writes succeed, and so does the
      record; and exactly then the version is recorded, and no other ever. */
  lemma ApplyRecords(v: Version, s: State, a: Attempt)
    requires Lists(a.order, s.data.Keys, KindOf(v))
    ensures Apply(v, s, a).1.Done? <==>
            && a.recorded && |a.order| <= a.writes
            && forall r :: r in s.data && r.kind == KindOf(v) ==> CanConvert(r.kind, s.data[r])
    ensures forall w :: w in Apply(v, s, a).0.recorded <==> w in s.recorded || (w == v && Apply(v, s, a).1.Done?)
  {
    RewriteDoneIff(Converter(KindOf(v)), s.data, a.order, a.writes);
    assert forall r :: r in a.order ==> r in s.data && r.kind == KindOf(v);
  }

  lemma ApplyKeepsRecords(v: Version, s: State, a: Attempt)
    requires Lists(a.order, s.data.Keys, KindOf(v)) && RecordsHold(s)
    ensures RecordsHold(Apply(v, s, a).0)
  {
    var kind, s' := KindOf(v), Apply(v, s, a).0;
    var n := RewriteConverts(Converter(kind), s.data, a.order, a.writes);
    ApplyRecords(v, s, a);
    forall w, r | w in s'.recorded && r in s'.data && r.kind == KindOf(w) ensures Converted(r.kind, s'.data[r]) {
      if r in a.order[..n] {
        ConvertConverts(kind, s.data[r]);
      } else {
        assert s'.data[r] == s.data[r];
        assert Apply(v, s, a).1.Done? ==> a.order[..n] == a.order;
        assert w !in s.recorded ==> r in a.order || r.kind == Other;
      }
    }
  }

  lemma {:induction false} MigrateKeepsRecords(versions: seq<Version>, s: State, attempts: seq<Attempt>)
    requires ValidAttempts(versions, s.data.Keys, attempts) && RecordsHold(s)
    ensures RecordsHold(AfterMigrate(versions, s, attempts).0)
    decreases |versions|
  {
    if versions != [] && attempts[0].readable {
      if versions[0] in s.recorded {
        MigrateKeepsRecords(versions[1..], s, attempts[1..]);
      } else {
        ApplyKeepsRecords(versions[0], s, attempts[0]);
        MigrateKeepsRecords(versions[1..], Apply(versions[0], s, attempts[0]).0, attempts[1..]);
      }
    }
  }

  /** However calls end and however often they are made, a recorded version's objects are all converted;
      a transform that stopped part-way is not recorded. */
  lemma {:induction false} RecordedMeansConverted(versions: seq<Version>, s: State, calls: seq<seq<Attempt>>)
    requires RecordsHold(s) && forall c :: c in calls ==> ValidAttempts(versions, s.data.Keys, c)
    ensures RecordsHold(Calls(versions, s, calls))
    decreases |calls|
  {
    if calls != [] {
      MigrateKeepsRecords(versions, s, calls[0]);
      RecordedMeansConverted(versions, AfterMigrate(versions, s, calls[0]).0, calls[1..]);
    }
  }

  // ---------------------------------------------------------------- each transform once

  /** The transform of the kind is among the first `k` versions. */
  ghost predicate Due(versions: seq<Version>, k: nat, kind: Kind) {
    kind != Other && exists i :: 0 <= i < k && i < |versions| && KindOf(versions[i]) == kind
  }

  /** The first `k` versions are recorded, and the objects are converted once where the transform
      is among them and as they were otherwise. */
  ghost predicate Progress(versions: seq<Version>, k: nat, before: Data, s: State) {
    RecordedIsPrefix(versions, k, s.recorded) && Halfway(Converter, kind => Due(versions, k, kind), before, s.data)
  }

  /** Objects of the kinds reached are converted once, the others are as before. */
  ghost predicate Halfway<V>(f: Kind -> V -> Option<V>, reached: Kind -> bool, before: map<Ref, V>, now: map<Ref, V>) {
    && now.Keys == before.Keys
    && (forall r :: r in before && reached(r.kind) ==> f(r.kind)(before[r]) == Some(now[r]))
    && (forall r :: r in before && !reached(r.kind) ==> now[r] == before[r])
  }

  lemma ReachMore<V>(f: Kind -> V -> Option<V>, reached: Kind -> bool, more: Kind -> bool, kind: Kind,
                     before: map<Ref, V>, now: map<Ref, V>, after: map<Ref, V>)
    requires Halfway(f, reached, before, now) && ConvertedOnce(f(kind), kind, now, after)
    requires !reached(kind) && forall other :: more(other) <==> reached(other) || (other == kind && kind != Other)
    ensures Halfway(f, more, before, after)
  {
    forall r | r in before ensures more(r.kind) ==> f(r.kind)(before[r]) == Some(after[r]) {
      assert r in now;
    }
  }

  lemma DueMore(versions: seq<Version>, k: nat)
    requires Distinct(versions) && k < |versions|
    ensures !Due(versions, k, KindOf(versions[k]))
    ensures forall kind :: Due(versions, k + 1, kind) <==>
              Due(versions, k, kind) || (kind == KindOf(versions[k]) && KindOf(versions[k]) != Other)
  {
  }

  lemma ApplyMakesProgress(versions: seq<Version>, k: nat, before: Data, s: State, a: Attempt)
    requires Distinct(versions) && k < |versions| && Progress(versions, k, before, s)
    requires Lists(a.order, s.data.Keys, KindOf(versions[k])) && Apply(versions[k], s, a).1.Done?
    ensures Progress(versions, k + 1, before, Apply(versions[k], s, a).0)
  {
    var kind := KindOf(versions[k]);
    FinishedRewrite(Converter(kind), kind, s.data, a.order, a.writes);
    DueMore(versions, k);
    ReachMore(Converter, kind => Due(versions, k, kind), kind => Due(versions, k + 1, kind), kind,
              before, s.data, Apply(versions[k], s, a).0.data);
    assert versions[..k + 1] == versions[..k] + [versions[k]];
  }

  /** Every transform of the call either finishes and is recorded or writes nothing. */
  ghost predicate Whole(versions: seq<Version>, s: State, attempts: seq<Attempt>)
    requires ValidAttempts(versions, s.data.Keys, attempts)
    decreases |versions|
  {
    versions != [] && attempts[0].readable ==>
      if versions[0] in s.recorded then Whole(versions[1..], s, attempts[1..])
      else
        var (after, result) := Apply(versions[0], s, attempts[0]);
        if result.Done? then Whole(versions[1..], after, attempts[1..]) else after == s
  }

  /** In a list without repetitions the recorded versions are those before position `k`. */
  lemma RecordedBefore(versions: seq<Version>, i: nat, k: nat, recorded: set<Version>)
    requires Distinct(versions) && RecordedIsPrefix(versions, k, recorded) && i <= k && i < |versions|
    ensures versions[i] in recorded <==> i < k
  {
    assert forall j :: 0 <= j < k ==> versions[..k][j] == versions[j];
    assert i < k ==> versions[i] in versions[..k];
  }

  lemma {:induction false} MigrateMakesProgress(versions: seq<Version>, i: nat, k: nat, before: Data, s: State,
                                                attempts: seq<Attempt>) returns (later: nat)
    requires Distinct(versions) && i <= k && Progress(versions, k, before, s)
    requires ValidAttempts(versions[i..], s.data.Keys, attempts) && Whole(versions[i..], s, attempts)
    ensures k <= later && Progress(versions, later, before, AfterMigrate(versions[i..], s, attempts).0)
    ensures AfterMigrate(versions[i..], s, attempts).1.Done? ==> later == |versions|
    decreases |versions| - i
  {
    later := k;
    if i < |versions| && attempts[0].readable {
      assert versions[i..][1..] == versions[i + 1..];
      RecordedBefore(versions, i, k, s.recorded);
      if versions[i] in s.recorded {
        later := MigrateMakesProgress(versions, i + 1, k, before, s, attempts[1..]);
      } else {
        var (after, result) := Apply(versions[i], s, attempts[0]);
        if result.Done? {
          ApplyMakesProgress(versions, k, before, s, attempts[0]);
          later := MigrateMakesProgress(versions, i + 1, k + 1, before, after, attempts[1..]);
        }
      }
    }
  }

  ghost predicate AllWhole(versions: seq<Version>, s: State, calls: seq<seq<Attempt>>)
    requires forall c :: c in calls ==> ValidAttempts(versions, s.data.Keys, c)
    decreases |calls|
  {
    calls != [] ==>
      Whole(versions, s, calls[0]) && AllWhole(versions, AfterMigrate(versions, s, calls[0]).0, calls[1..])
  }

  lemma {:induction false} CallsMakeProgress(versions: seq<Version>, k: nat, before: Data, s: State,
      calls: seq<seq<Attempt>>)
      returns (later: nat)
    requires Distinct(versions) && Progress(versions, k, before, s)
    requires forall c :: c in calls ==> ValidAttempts(versions, s.data.Keys, c)
    requires AllWhole(versions, s, calls)
    ensures k <= later && Progress(versions, later, before, Calls(versions, s, calls))
    decreases |calls|
  {
    later := k;
    if calls != [] {
      assert versions[0..] == versions;
      var m := MigrateMakesProgress(versions, 0, k, before, s, calls[0]);
      later := CallsMakeProgress(versions, m, before, AfterMigrate(versions, s, calls[0]).0, calls[1..]);
    }
  }

  /** Over any number of calls in which no transform stops part-way, each object is converted at
      most once, and exactly once by the time a call has succeeded. */
  lemma {:induction false} EachTransformRunsOnce(versions: seq<Version>, before: Data, calls: seq<seq<Attempt>>,
      last: seq<Attempt>)
      returns (k: nat)
    requires Distinct(versions)
    requires forall c :: c in calls ==> ValidAttempts(versions, before.Keys, c)
    requires AllWhole(versions, State({}, before), calls)
    requires ValidAttempts(versions, before.Keys, last)
    requires Whole(versions, Calls(versions, State({}, before), calls), last)
    ensures Progress(versions, k, before, Calls(versions, State({}, before), calls))
    ensures AfterMigrate(versions, Calls(versions, State({}, before), calls), last).1.Done? ==>
              Progress(versions, |versions|, before,
                  AfterMigrate(versions, Calls(versions, State({}, before), calls), last).0)
  {
    assert Progress(versions, 0, before, State({}, before));
    k := CallsMakeProgress(versions, 0, before, State({}, before), calls);
    assert versions[0..] == versions;
    var later := MigrateMakesProgress(versions, 0, k, before, Calls(versions, State({}, before), calls), last);
  }

  // ---------------------------------------------------------------- a stop part-way

  /** Running a stopped transform again converts what was already written a second time. The
      outcome is the intended one exactly if every object written before the stop survives that. */
  lemma RetryIsHarmlessIff(v: Version, s: State, a: Attempt, b: Attempt)
    requires Lists(a.order, s.data.Keys, KindOf(v)) && Lists(b.order, s.data.Keys, KindOf(v))
    requires Apply(v, s, a).1.Failed? && Apply(v, Apply(v, s, a).0, b).1.Done?
    ensures var n := if a.writes < |a.order| then a.writes else |a.order|;
            (forall r :: r in a.order[..n] ==> CanConvert(KindOf(v), s.data[r])) &&
            (ConvertedOnce(Converter(KindOf(v)), KindOf(v), s.data, Apply(v, Apply(v, s, a).0, b).0.data) <==>
             forall r :: r in a.order[..n] ==> Survives(KindOf(v), s.data[r]))
  {
    var kind := KindOf(v);
    var n := RewriteConverts(Converter(kind), s.data, a.order, a.writes);
    var middle := Apply(v, s, a).0.data;
    var after := Apply(v, Apply(v, s, a).0, b).0.data;
    FinishedRewrite(Converter(kind), kind, middle, b.order, b.writes);
    Twice(Converter(kind), kind, s.data, a.order[..n], middle, after);
    ConvertedSurvive(kind, s.data, a.order[..n], middle);
  }

  lemma ConvertedSurvive(kind: Kind, before: map<Ref, Object>, done: seq<Ref>, middle: map<Ref, Object>)
    requires Wrote(Converter(kind), before, done, middle)
    ensures forall r :: r in done ==>
              && CanConvert(kind, before[r])
              && (Survives(kind, before[r]) <==> Converter(kind)(middle[r]) == Some(middle[r]))
  {
    forall r | r in done
      ensures CanConvert(kind, before[r]) &&
              (Survives(kind, before[r]) <==> Converter(kind)(middle[r]) == Some(middle[r]))
    {
      ConvertTwice(kind, before[r]);
    }
  }

  lemma Twice<V>(f: V -> Option<V>, kind: Kind, before: map<Ref, V>, done: seq<Ref>, middle: map<Ref, V>,
      after: map<Ref, V>)
    requires kind != Other || done == []
    requires forall r :: r in done ==> r.kind == kind
    requires Wrote(f, before, done, middle) && ConvertedOnce(f, kind, middle, after)
    ensures ConvertedOnce(f, kind, before, after) <==> forall r :: r in done ==> f(middle[r]) == Some(middle[r])
  {
    if ConvertedOnce(f, kind, before, after) {
      forall r | r in done ensures f(middle[r]) == Some(middle[r]) {
        assert f(before[r]) == Some(after[r]) && f(before[r]) == Some(middle[r]);
      }
    }
  }

  /** A repository whose URL carries a branch loses it when the server stops after writing it and
      is started again. */
  lemma RetryLosesBranch(s: State, r: Ref, a: Attempt, b: Attempt)
    requires var v := Version(2, 8, 26);
             && Lists(a.order, s.data.Keys, KindOf(v)) && Lists(b.order, s.data.Keys, KindOf(v))
             && Apply(v, s, a).1.Failed? && Apply(v, Apply(v, s, a).0, b).1.Done?
    requires a.order != [] && a.order[0] == r && a.writes > 0 && s.data[r] == map[GitUrl := Text("u#m")]
    ensures !ConvertedOnce(Converter(Repository), Repository, s.data,
            Apply(Version(2, 8, 26), Apply(Version(2, 8, 26), s, a).0, b).0.data)
  {
    RetryIsHarmlessIff(Version(2, 8, 26), s, a, b);
    SplitExample();
    var n := if a.writes < |a.order| then a.writes else |a.order|;
    assert a.order[..n][0] == r;
  }

  lemma SplitExample()
    ensures Split("u#m") == ["u", "m"]
    ensures CanConvert(Repository, map[GitUrl := Text("u#m")]) && !Survives(Repository, map[GitUrl := Text("u#m")])
  {
    assert "u#m"[1..] == "#m" && "#m"[1..] == "m" && "m"[1..] == "";
    assert Split("") == [""];
    assert ['m'] + Split("")[0] == "m";
    assert Split("m") == ["m"];
    assert Split("#m") == ["", "m"];
    assert ['u'] + "" == "u";
  }

  // ---------------------------------------------------------------- the list of the source

  predicate Older(a: Version, b: Version) {
    a.major < b.major || (a.major == b.major && (a.minor < b.minor || (a.minor == b.minor && a.patch < b.patch)))
  }

  lemma {:induction false} OlderChain(versions: seq<Version>, i: nat, j: nat)
    requires forall k :: 0 <= k < |versions| - 1 ==> Older(versions[k], versions[k + 1])
    requires i < j < |versions|
    ensures Older(versions[i], versions[j])
    decreases j - i
  {
    if i + 1 < j {
      OlderChain(versions, i + 1, j);
    }
  }

  /** The source's list is in ascending order, so no version is listed twice, and contains the
      three that rewrite objects. */
  lemma MigrationsAscend()
    ensures Distinct(MIGRATIONS)
    ensures forall kind: Kind :: Due(MIGRATIONS, |MIGRATIONS|, kind) <==> kind != Other
  {
    forall i, j | 0 <= i < j < |MIGRATIONS| ensures MIGRATIONS[i] != MIGRATIONS[j] {
      OlderChain(MIGRATIONS, i, j);
    }
    assert KindOf(MIGRATIONS[31]) == Repository;
    assert KindOf(MIGRATIONS[35]) == Template;
    assert KindOf(MIGRATIONS[40]) == User;
  }

  // ---------------------------------------------------------------- the loops

  method RewriteAll<K, V>(f: V -> Option<V>, data: map<K, V>, order: seq<K>, writes: nat)
      returns (after: map<K, V>, result: Result)
    requires forall r :: r in order ==> r in data
    ensures (after, result) == Rewrite(f, data, order, writes)
  {
    after := data;
    for i := 0 to |order|
      invariant i <= writes && after.Keys == data.Keys
      invariant Rewrite(f, after, order[i..], writes - i) == Rewrite(f, data, order, writes)
    {
      assert order[i..][0] == order[i] && order[i..][1..] == order[i + 1..];
      var converted := f(after[order[i]]);
      if converted.None? {
        return after, Panicked;
      }
      if i == writes {
        return after, Failed;
      }
      after := after[order[i] := converted.value];
    }
    result := Done;
  }

  class Database {
    var recorded: set<Version>
    var data: Data

    ghost function Value(): State
      reads this
    {
      State(recorded, data)
    }

    method ApplyMigration(v: Version, a: Attempt) returns (result: Result)
      requires forall r :: r in a.order ==> r in data
      modifies this
      ensures (Value(), result) == old(Apply(v, Value(), a))
    {
      var after, rewritten := RewriteAll(Converter(KindOf(v)), data, a.order, a.writes);
      data := after;
      if !rewritten.Done? {
        return rewritten;
      }
      if !a.recorded {
        return Failed;
      }
      recorded := recorded + {v};
      return Done;
    }

    method Migrate(versions: seq<Version>, attempts: seq<Attempt>) returns (result: Result)
      requires ValidAttempts(versions, data.Keys, attempts)
      modifies this
      ensures (Value(), result) == old(AfterMigrate(versions, Value(), attempts))
    {
      for i := 0 to |versions|
        invariant ValidAttempts(versions, data.Keys, attempts)
        invariant AfterMigrate(versions[i..], Value(), attempts[i..]) == old(AfterMigrate(versions, Value(), attempts))
      {
        assert versions[i..][1..] == versions[i + 1..] && attempts[i..][1..] == attempts[i + 1..];
        if !attempts[i].readable {
          return Failed;
        }
        if versions[i] !in recorded {
          var applied := ApplyMigration(versions[i], attempts[i]);
          if !applied.Done? {
            return applied;
          }
        }
      }
      return Done;
    }
  }
}
