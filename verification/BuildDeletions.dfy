/** What the deletion of a task does to the build numbers of a template: the next version is computed
    from the newest build that is left. */
module BuildDeletions {
  import opened Bolt
  import opened BoltKeys
  import opened BuildNumbering
  import opened BuildVersions
  import opened ExplicitIds
  import opened Options

  function RemoveTask(b: Bucket<Task>, key: string): Bucket<Task> {
    b.(entries := Delete(b.entries, key))
  }

  /** What can be checked before the deletion: the key is not that of one of the template's builds,
      the newest excepted. */
  ghost predicate Spares(es: seq<Entry<Task>>, key: string, t: Target) {
    forall i :: 0 <= i < |es| && IsOf(t, es[i].value) && es[i].key == key ==> IsNewest(es, i, t)
  }

  lemma {:induction false} DeleteMember(es: seq<Entry<Task>>, key: string, i: nat)
    requires i < |Delete(es, key)|
    ensures Delete(es, key)[i] in es
  {
    if es[0].key != key && i > 0 {
      DeleteMember(es[1..], key, i - 1);
    }
  }

  lemma {:induction false} DeleteSorted(es: seq<Entry<Task>>, key: string)
    requires Sorted(es)
    ensures Sorted(Delete(es, key))
    ensures Delete(es, key) != [] && es != [] && es[0].key != key ==> Delete(es, key)[0] == es[0]
  {
    if es != [] && es[0].key != key {
      DeleteSorted(es[1..], key);
      var rest := Delete(es[1..], key);
      if rest != [] {
        DeleteMember(es[1..], key, 0);
        assert rest[0] in es[1..];
      }
      SortedCons(es[0], rest);
    }
  }

  lemma {:induction false} DeleteElsewhere(es: seq<Entry<Task>>, key: string, t: Target)
    requires forall i :: 0 <= i < |es| && IsOf(t, es[i].value) ==> es[i].key != key
    ensures Listed(Delete(es, key), t) == Listed(es, t)
  {
    if es != [] && es[0].key != key {
      DeleteElsewhere(es[1..], key, t);
      ListedCons(es[0], Delete(es[1..], key), t);
    }
  }

  /** Deleting a build takes the first one off the listing if it is the newest, and one from behind
      the first otherwise. */
  lemma {:induction false} DeleteBuild(es: seq<Entry<Task>>, key: string, t: Target, i: nat)
    requires Sorted(es) && i < |es| && IsOf(t, es[i].value) && es[i].key == key
    ensures Listed(es, t) != [] && |Listed(Delete(es, key), t)| == |Listed(es, t)| - 1
    ensures IsNewest(es, i, t) ==> Listed(Delete(es, key), t) == Listed(es, t)[1..] && Listed(es, t)[0] == es[i].value
    ensures !IsNewest(es, i, t) ==>
              |Listed(es, t)| > 1 && Listed(Delete(es, key), t)[0] == Listed(es, t)[0]
  {
    BeforeIrreflexive(key);
    if i == 0 {
      assert IsNewest(es, 0, t);
    } else {
      assert Before(es[0].key, key);
      DeleteBuild(es[1..], key, t, i - 1);
      ListedCons(es[0], Delete(es[1..], key), t);
      if !IsOf(t, es[0].value) {
        assert IsNewest(es, i, t) <==> IsNewest(es[1..], i - 1, t);
      }
    }
  }

  lemma SparingKeepsRegular(b: Bucket<Task>, t: Target, key: string)
    requires FindSplit(t.startVersion).Some? && Regular(b, t) && Spares(b.entries, key, t)
    ensures Regular(RemoveTask(b, key), t)
    ensures |Listed(RemoveTask(b, key).entries, t)| <= |Listed(b.entries, t)|
  {
    var es := b.entries;
    DeleteSorted(es, key);
    forall i | 0 <= i < |Delete(es, key)| && IsOf(t, Delete(es, key)[i].value)
      ensures Before(NextKey(b), Delete(es, key)[i].key)
    {
      DeleteMember(es, key, i);
    }
    if i :| 0 <= i < |es| && IsOf(t, es[i].value) && es[i].key == key {
      DeleteBuild(es, key, t, i);
      DropNewest(Listed(es, t), t);
    } else {
      DeleteElsewhere(es, key, t);
    }
  }

  lemma SparingKeepsNumbers(templates: Templates, b: Bucket<Task>, t: Target, key: string)
    requires Known(templates, t) && Regular(b, t) && Room(b, t, 0) && Spares(b.entries, key, t)
    ensures StaysNumbered(templates, RemoveTask(b, key), t)
  {
    var after := RemoveTask(b, key);
    SparingKeepsRegular(b, t, key);
    forall rest | NoIds(rest) && Room(after, t, |rest|)
      ensures NumberedListing(Listed(AddAll(templates, after, rest).entries, t), t)
    {
      PlainCallsKeep(templates, after, t, rest);
    }
  }

  lemma OldBuildSpoils(es: seq<Entry<Task>>, t: Target, key: string)
    requires FindSplit(t.startVersion).Some? && Sorted(es) && NumberedListing(Listed(es, t), t)
    requires !Spares(es, key, t)
    ensures |Listed(Delete(es, key), t)| < |Listed(es, t)| && !NumberedListing(Listed(Delete(es, key), t), t)
  {
    var i :| 0 <= i < |es| && IsOf(t, es[i].value) && es[i].key == key && !IsNewest(es, i, t);
    DeleteBuild(es, key, t, i);
    VersionsDiffer(t, |Listed(es, t)| - 2, |Listed(es, t)| - 1);
  }

  lemma NumberedNow(templates: Templates, b: Bucket<Task>, t: Target)
    requires FindSplit(t.startVersion).Some? && Room(b, t, 0)
    ensures StaysNumbered(templates, b, t) ==> NumberedListing(Listed(b.entries, t), t)
  {
    assert NoIds([]) && AddAll(templates, b, []) == b;
  }

  /** From every state in which the builds are numbered, a deletion leaves them numbered for all
      later calls if and only if it spares all of the template's builds but the newest. */
  lemma DeletionKeepsNumbersIff(templates: Templates, b: Bucket<Task>, t: Target, key: string)
    requires Known(templates, t) && Regular(b, t) && Room(b, t, 0)
    ensures Spares(b.entries, key, t) <==> StaysNumbered(templates, RemoveTask(b, key), t)
  {
    if Spares(b.entries, key, t) {
      SparingKeepsNumbers(templates, b, t, key);
    } else {
      OldBuildSpoils(b.entries, t, key);
      NumberedNow(templates, RemoveTask(b, key), t);
    }
  }

  /** A task is added under a call's id or the sequence's, or deleted. */
  datatype Change = Added(c: Call) | Removed(key: string)

  function Changed(templates: Templates, b: Bucket<Task>, change: Change): Bucket<Task> {
    match change
    case Added(c) => AddTask(templates, b, c)
    case Removed(key) => RemoveTask(b, key)
  }

  function ChangedAll(templates: Templates, b: Bucket<Task>, changes: seq<Change>): Bucket<Task>
    decreases |changes|
  {
    if changes == [] then b else ChangedAll(templates, Changed(templates, b, changes[0]), changes[1..])
  }

  /** Every chosen id fits, and every deletion spares all builds but the newest. */
  ghost predicate AllKeep(templates: Templates, b: Bucket<Task>, t: Target, changes: seq<Change>)
    decreases |changes|
  {
    changes == [] ||
    (&& (match changes[0] case Added(c) => Fits(b, t, c) case Removed(key) => Spares(b.entries, key, t))
     && AllKeep(templates, Changed(templates, b, changes[0]), t, changes[1..]))
  }

  /** Over any interleaving of such calls and deletions the builds that are left stay numbered. */
  lemma {:induction false} ChangesKeepNumbers(templates: Templates, b: Bucket<Task>, t: Target, changes: seq<Change>)
    requires Known(templates, t) && Regular(b, t) && Room(b, t, |changes|) && AllKeep(templates, b, t, changes)
    ensures Regular(ChangedAll(templates, b, changes), t)
    decreases |changes|
  {
    if changes != [] {
      match changes[0] {
        case Added(c) => FittingCallKeeps(templates, b, t, c);
        case Removed(key) => SparingKeepsRegular(b, t, key);
      }
      ChangesKeepNumbers(templates, Changed(templates, b, changes[0]), t, changes[1..]);
    }
  }

  /** The version of a deleted newest build is given again to the next one. */
  lemma DeletedVersionIsGivenAgain(templates: Templates, b: Bucket<Task>, t: Target, c: Call, i: nat)
    requires Known(templates, t) && Regular(b, t) && Room(b, t, 0) && Calls(t, c)
    requires i < |b.entries| && IsOf(t, b.entries[i].value) && IsNewest(b.entries, i, t)
    ensures NewTask(templates, RemoveTask(b, b.entries[i].key), c) == Some(b.entries[i].value)
  {
    var key := b.entries[i].key;
    forall j | 0 <= j < |b.entries| && b.entries[j].key == key ensures j == i {
      BeforeIrreflexive(key);
    }
    SparingKeepsRegular(b, t, key);
    DeleteBuild(b.entries, key, t, i);
    NextTask(templates, RemoveTask(b, key), t, c);
  }
}
