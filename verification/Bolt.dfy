/** A bucket of the store: entries in key order and a sequence number, with the creation of
    objects under a fresh id, and the limited, filtered listing. */
module Bolt {
  import opened BoltKeys
  import opened Options

  datatype Entry<+V> = Entry(key: string, value: V)

  datatype Bucket<+V> = Bucket(entries: seq<Entry<V>>, sequence: nat)

  ghost predicate Sorted<V>(es: seq<Entry<V>>) {
    forall i, j :: 0 <= i < j < |es| ==> Before(es[i].key, es[j].key)
  }

  // ---------------------------------------------------------------- put, get, delete

  function Put<V>(es: seq<Entry<V>>, key: string, value: V): seq<Entry<V>> {
    if es == [] || Before(key, es[0].key) then [Entry(key, value)] + es
    else if es[0].key == key then [Entry(key, value)] + es[1..]
    else [es[0]] + Put(es[1..], key, value)
  }

  function Get<V>(es: seq<Entry<V>>, key: string): Option<V> {
    if es == [] then None
    else if es[0].key == key then Some(es[0].value)
    else Get(es[1..], key)
  }

  function Delete<V>(es: seq<Entry<V>>, key: string): seq<Entry<V>> {
    if es == [] then []
    else if es[0].key == key then es[1..]
    else [es[0]] + Delete(es[1..], key)
  }

  /** It is enough to compare a new first entry with the old one. */
  lemma SortedCons<V>(e: Entry<V>, es: seq<Entry<V>>)
    requires Sorted(es) && (es == [] || Before(e.key, es[0].key))
    ensures Sorted([e] + es)
  {
    forall j | 0 <= j < |es| ensures Before(e.key, es[j].key) {
      if j > 0 {
        BeforeTransitive(e.key, es[0].key, es[j].key);
      }
    }
  }

  lemma {:induction false} PutSorted<V>(es: seq<Entry<V>>, key: string, value: V)
    requires Sorted(es)
    ensures Sorted(Put(es, key, value))
    ensures Put(es, key, value) != [] &&
            Put(es, key, value)[0].key == (if es == [] || Before(key, es[0].key) then key else es[0].key)
  {
    if es == [] || Before(key, es[0].key) {
      SortedCons(Entry(key, value), es);
    } else if es[0].key == key {
      assert es[1..] == [] || Before(key, es[1..][0].key);
      SortedCons(Entry(key, value), es[1..]);
    } else {
      BeforeTotal(key, es[0].key);
      PutSorted(es[1..], key, value);
      SortedCons(es[0], Put(es[1..], key, value));
    }
  }

  lemma {:induction false} GetPut<V>(es: seq<Entry<V>>, key: string, value: V, k: string)
    requires Sorted(es)
    ensures Get(Put(es, key, value), k) == if k == key then Some(value) else Get(es, k)
  {
    if es != [] && !Before(key, es[0].key) && es[0].key != key {
      GetPut(es[1..], key, value, k);
    }
  }

  lemma {:induction false} GetAbsent<V>(es: seq<Entry<V>>, k: string)
    requires forall i :: 0 <= i < |es| ==> es[i].key != k
    ensures Get(es, k) == None
  {
    if es != [] {
      GetAbsent(es[1..], k);
    }
  }

  lemma {:induction false} GetDelete<V>(es: seq<Entry<V>>, key: string, k: string)
    requires Sorted(es)
    ensures Get(Delete(es, key), k) == if k == key then None else Get(es, k)
  {
    if es != [] {
      if es[0].key == key {
        forall i | 0 <= i < |es[1..]| ensures es[1..][i].key != key {
          assert Before(es[0].key, es[i + 1].key);
          BeforeIrreflexive(key);
        }
        GetAbsent(es[1..], key);
      } else {
        GetDelete(es[1..], key, k);
      }
    }
  }

  // ---------------------------------------------------------------- creation

  /** The key of the `n`-th object; inverted sequences count down from the largest id. */
  function NthKey(inverted: bool, n: nat): string {
    Key(if inverted then MAX_ID - n else n)
  }

  function Create<V>(b: Bucket<V>, inverted: bool, value: V): Bucket<V> {
    Bucket(Put(b.entries, NthKey(inverted, b.sequence + 1), value), b.sequence + 1)
  }

  /** An object whose id the caller has chosen takes no number from the sequence; id 0 is none. */
  function CreateAs<V>(b: Bucket<V>, inverted: bool, id: int, value: V): Bucket<V> {
    if id == 0 then Create(b, inverted, value) else b.(entries := Put(b.entries, Key(id), value))
  }

  function Values<V>(es: seq<Entry<V>>): seq<V> {
    seq(|es|, i requires 0 <= i < |es| => es[i].value)
  }

  function CreateAll<V>(inverted: bool, vs: seq<V>): (b: Bucket<V>)
    ensures b.sequence == |vs|
  {
    if vs == [] then Bucket([], 0)
    else Create(CreateAll(inverted, vs[..|vs| - 1]), inverted, vs[|vs| - 1])
  }

  /** The same entries, put one after the other under `key(1)`, `key(2)`, ... */
  function PutAll<V>(key: nat -> string, vs: seq<V>): seq<Entry<V>> {
    if vs == [] then []
    else Put(PutAll(key, vs[..|vs| - 1]), key(|vs|), vs[|vs| - 1])
  }

  function KeyOf(inverted: bool): nat -> string {
    (n: nat) => NthKey(inverted, n)
  }

  lemma {:induction false} CreateAllPuts<V>(inverted: bool, vs: seq<V>)
    ensures CreateAll(inverted, vs).entries == PutAll(KeyOf(inverted), vs)
  {
    if vs != [] {
      CreateAllPuts(inverted, vs[..|vs| - 1]);
      assert KeyOf(inverted)(|vs|) == NthKey(inverted, CreateAll(inverted, vs[..|vs| - 1]).sequence + 1);
    }
  }

  lemma {:induction false} PutLast<V>(es: seq<Entry<V>>, key: string, value: V)
    requires forall i :: 0 <= i < |es| ==> Before(es[i].key, key)
    ensures Put(es, key, value) == es + [Entry(key, value)]
  {
    if es != [] {
      assert Before(es[0].key, key);
      BeforeIrreflexive(key);
      if Before(key, es[0].key) {
        BeforeTransitive(key, es[0].key, key);
      }
      PutLast(es[1..], key, value);
    }
  }

  lemma PutFirst<V>(es: seq<Entry<V>>, key: string, value: V)
    requires es != [] ==> Before(key, es[0].key)
    ensures Put(es, key, value) == [Entry(key, value)] + es
  {
  }

  /** Later keys come first, up to the `count`-th. */
  ghost predicate Descends(key: nat -> string, count: nat) {
    forall m: nat, n: nat :: 0 < m < n <= count ==> Before(key(n), key(m))
  }

  lemma {:induction false} PutDescending<V>(key: nat -> string, vs: seq<V>)
    requires Descends(key, |vs|)
    ensures var es := PutAll(key, vs);
            |es| == |vs| && forall i :: 0 <= i < |vs| ==> es[i] == Entry(key(|vs| - i), vs[|vs| - 1 - i])
  {
    if vs != [] {
      var n, init := |vs|, vs[..|vs| - 1];
      PutDescending(key, init);
      var es := PutAll(key, init);
      assert es != [] ==> es[0].key == key(n - 1) && Before(key(n), key(n - 1));
      PutFirst(es, key(n), vs[n - 1]);
      assert PutAll(key, vs) == [Entry(key(n), vs[n - 1])] + es;
    }
  }

  lemma {:induction false} PutAscending<V>(key: nat -> string, vs: seq<V>)
    requires forall m: nat, n: nat :: 0 < m < n <= |vs| ==> Before(key(m), key(n))
    ensures var es := PutAll(key, vs);
            |es| == |vs| && forall i :: 0 <= i < |vs| ==> es[i] == Entry(key(i + 1), vs[i])
  {
    if vs != [] {
      PutAscending(key, vs[..|vs| - 1]);
      PutLast(PutAll(key, vs[..|vs| - 1]), key(|vs|), vs[|vs| - 1]);
    }
  }

  lemma InvertedKeysDescend(count: nat)
    requires count <= MAX_ID
    ensures Descends(KeyOf(true), count)
  {
    forall m: nat, n: nat | 0 < m < n <= count ensures Before(KeyOf(true)(n), KeyOf(true)(m)) {
      KeyOrder(MAX_ID - n, MAX_ID - m);
    }
  }

  lemma {:induction false} InvertedEntries<V>(vs: seq<V>)
    requires |vs| <= MAX_ID
    ensures var es := CreateAll(true, vs).entries;
            |es| == |vs| && forall i :: 0 <= i < |vs| ==> es[i] == Entry(KeyOf(true)(|vs| - i), vs[|vs| - 1 - i])
  {
    InvertedKeysDescend(|vs|);
    CreateAllPuts(true, vs);
    PutDescending(KeyOf(true), vs);
  }

  /** Objects of a bucket with an inverted sequence list newest first. */
  lemma {:induction false} InvertedListsNewestFirst<V>(vs: seq<V>)
    requires |vs| <= MAX_ID
    ensures var es := CreateAll(true, vs).entries;
            |es| == |vs| && forall i :: 0 <= i < |vs| ==> es[i] == Entry(Key(MAX_ID - (|vs| - i)), vs[|vs| - 1 - i])
  {
    InvertedEntries(vs);
  }

  lemma {:induction false} InvertedValues<V>(vs: seq<V>)
    requires |vs| <= MAX_ID
    ensures var values := Values(CreateAll(true, vs).entries);
            |values| == |vs| && forall i :: 0 <= i < |vs| ==> values[i] == vs[|vs| - 1 - i]
  {
    InvertedEntries(vs);
  }

  /** Objects of an ordinary bucket list in the order of creation. */
  lemma {:induction false} OrdinaryListsOldestFirst<V>(vs: seq<V>)
    requires |vs| < KEY_LIMIT
    ensures var es := CreateAll(false, vs).entries;
            |es| == |vs| && forall i :: 0 <= i < |vs| ==> es[i] == Entry(Key(i + 1), vs[i])
  {
    var key := KeyOf(false);
    forall m: nat, n: nat | 0 < m < n <= |vs| ensures Before(key(m), key(n)) {
      KeyOrder(m, n);
    }
    CreateAllPuts(false, vs);
    PutAscending(key, vs);
  }

  // ---------------------------------------------------------------- creations and deletions

  datatype Change<+V> = Created(value: V) | Deleted(key: string)

  /** An inverted bucket after creations and deletions in any order. */
  function Changed<V>(changes: seq<Change<V>>): (b: Bucket<V>)
    ensures b.sequence == |CreatedValues(changes)|
  {
    if changes == [] then Bucket([], 0)
    else
      var before := Changed(changes[..|changes| - 1]);
      match changes[|changes| - 1]
      case Created(value) => Create(before, true, value)
      case Deleted(key) => before.(entries := Delete(before.entries, key))
  }

  /** The values created, oldest first. */
  function CreatedValues<V>(changes: seq<Change<V>>): seq<V> {
    if changes == [] then []
    else
      var last := changes[|changes| - 1];
      CreatedValues(changes[..|changes| - 1]) + (if last.Created? then [last.value] else [])
  }

  /** Creation `n` happened and its key was not deleted since. */
  predicate Survives<V>(changes: seq<Change<V>>, n: nat) {
    changes != [] &&
    match changes[|changes| - 1]
    case Created(_) => n == |CreatedValues(changes)| || Survives(changes[..|changes| - 1], n)
    case Deleted(key) => key != NthKey(true, n) && Survives(changes[..|changes| - 1], n)
  }

  /** The entries are the creations with the given numbers, the latest first. */
  ghost predicate Lists<V>(es: seq<Entry<V>>, numbers: seq<nat>, key: nat -> string, values: seq<V>) {
    && |numbers| == |es|
    && (forall i, j :: 0 <= i < j < |numbers| ==> numbers[i] > numbers[j])
    && (forall i :: 0 <= i < |numbers| ==> 1 <= numbers[i] <= |values|)
    && (forall i :: 0 <= i < |es| ==> es[i] == Entry(key(numbers[i]), values[numbers[i] - 1]))
  }

  lemma CreateLists<V>(es: seq<Entry<V>>, numbers: seq<nat>, key: nat -> string, values: seq<V>, value: V)
    requires Lists(es, numbers, key, values) && Descends(key, |values| + 1)
    ensures Lists(Put(es, key(|values| + 1), value), [|values| + 1] + numbers, key, values + [value])
  {
    assert es != [] ==> Before(key(|values| + 1), key(numbers[0]));
    assert Put(es, key(|values| + 1), value) == [Entry(key(|values| + 1), value)] + es;
  }

  lemma ListsTail<V>(es: seq<Entry<V>>, numbers: seq<nat>, key: nat -> string, values: seq<V>)
    requires Lists(es, numbers, key, values) && es != []
    ensures Lists(es[1..], numbers[1..], key, values)
    ensures forall n :: n in numbers[1..] ==> 1 <= n < numbers[0]
  {
  }

  lemma ListsCons<V>(e: Entry<V>, n: nat, es: seq<Entry<V>>, numbers: seq<nat>, key: nat -> string, values: seq<V>)
    requires Lists(es, numbers, key, values) && 1 <= n <= |values| && e == Entry(key(n), values[n - 1])
    requires forall m :: m in numbers ==> m < n
    ensures Lists([e] + es, [n] + numbers, key, values)
  {
    assert forall i :: 0 <= i < |numbers| ==> numbers[i] in numbers;
  }

  lemma OtherKeys(key: nat -> string, count: nat, n: nat, numbers: seq<nat>)
    requires Descends(key, count) && n <= count && forall m :: m in numbers ==> 1 <= m < n
    ensures forall m :: m in numbers ==> key(m) != key(n)
  {
    forall m | m in numbers ensures key(m) != key(n) {
      assert Before(key(n), key(m));
      BeforeIrreflexive(key(n));
    }
  }

  lemma {:induction false} DeleteLists<V>(es: seq<Entry<V>>, numbers: seq<nat>, key: nat -> string, values: seq<V>,
      k: string)
      returns (left: seq<nat>)
    requires Lists(es, numbers, key, values) && Descends(key, |values|)
    ensures Lists(Delete(es, k), left, key, values)
    ensures forall n :: n in left <==> n in numbers && key(n) != k
    decreases |es|
  {
    if es == [] {
      left := [];
    } else {
      ListsTail(es, numbers, key, values);
      assert numbers == [numbers[0]] + numbers[1..];
      if es[0].key == k {
        left := numbers[1..];
        OtherKeys(key, |values|, numbers[0], left);
      } else {
        var rest := DeleteLists(es[1..], numbers[1..], key, values, k);
        ListsCons(es[0], numbers[0], Delete(es[1..], k), rest, key, values);
        left := [numbers[0]] + rest;
      }
    }
  }

  /** Whatever is created and deleted, in whatever order, the bucket holds exactly the creations
      whose key was not deleted since, and lists them newest first. */
  lemma {:induction false} NewestFirstAfterDeletes<V>(changes: seq<Change<V>>) returns (numbers: seq<nat>)
    requires |CreatedValues(changes)| <= MAX_ID
    ensures Lists(Changed(changes).entries, numbers, KeyOf(true), CreatedValues(changes))
    ensures forall n :: n in numbers <==> Survives(changes, n)
    decreases |changes|
  {
    if changes == [] {
      numbers := [];
    } else {
      var init := changes[..|changes| - 1];
      var before := NewestFirstAfterDeletes(init);
      var es, values, key := Changed(init).entries, CreatedValues(init), KeyOf(true);
      InvertedKeysDescend(|CreatedValues(changes)|);
      match changes[|changes| - 1]
      case Created(value) =>
        CreateLists(es, before, key, values, value);
        numbers := [|values| + 1] + before;
      case Deleted(k) =>
        numbers := DeleteLists(es, before, key, values, k);
        assert CreatedValues(changes) == values;
    }
  }

  lemma SortedWhenListed<V>(es: seq<Entry<V>>, numbers: seq<nat>, key: nat -> string, values: seq<V>)
    requires Lists(es, numbers, key, values) && Descends(key, |values|)
    ensures Sorted(es)
  {
  }

  lemma {:induction false} SortedAfterDeletes<V>(changes: seq<Change<V>>)
    requires |CreatedValues(changes)| <= MAX_ID
    ensures Sorted(Changed(changes).entries)
  {
    var numbers := NewestFirstAfterDeletes(changes);
    InvertedKeysDescend(|CreatedValues(changes)|);
    SortedWhenListed(Changed(changes).entries, numbers, KeyOf(true), CreatedValues(changes));
  }

  // ---------------------------------------------------------------- listing

  /** The objects of `raw` that can be decoded and pass the filter, in order. */
  function Matches<R, T>(raw: seq<R>, decode: R -> Option<T>, filter: T -> bool): seq<T> {
    if raw == [] then []
    else
      var last := decode(raw[|raw| - 1]);
      Matches(raw[..|raw| - 1], decode, filter) + (if last.Some? && filter(last.value) then [last.value] else [])
  }

  lemma {:induction false} MatchesConcat<R, T>(a: seq<R>, b: seq<R>, decode: R -> Option<T>, filter: T -> bool)
    ensures Matches(a + b, decode, filter) == Matches(a, decode, filter) + Matches(b, decode, filter)
    decreases |b|
  {
    if b == [] {
      assert a + b == a;
    } else {
      assert (a + b)[..|a + b| - 1] == a + b[..|b| - 1];
      MatchesConcat(a, b[..|b| - 1], decode, filter);
    }
  }

  /** The listing stops once it holds one object more than asked for, so a limited listing is
      a prefix of the unlimited one. */
  function Limit<T>(s: seq<T>, count: int): (r: seq<T>)
    ensures r <= s
    ensures |r| == if 0 < count && count + 1 < |s| then count + 1 else |s|
  {
    if count > 0 && |s| > count + 1 then s[..count + 1] else s
  }

  function Offset<R>(raw: seq<R>, offset: int): (r: seq<R>)
    ensures |r| == if offset <= 0 then |raw| else if offset <= |raw| then |raw| - offset else 0
    ensures r == raw[|raw| - |r|..]
  {
    if offset <= 0 then raw else if offset >= |raw| then [] else raw[offset..]
  }

  /** The listing meets no entry it cannot decode before it stops. */
  ghost predicate Succeeds<R, T>(raw: seq<R>, decode: R -> Option<T>, filter: T -> bool, count: int) {
    forall j :: 0 <= j < |raw| && decode(raw[j]).None? ==> count > 0 && |Matches(raw[..j], decode, filter)| > count
  }

  /** Once more than `count` objects are found, what follows does not matter. */
  lemma CutShort<R, T>(raw: seq<R>, k: nat, decode: R -> Option<T>, filter: T -> bool, count: int)
    requires 0 < k <= |raw| && count > 0 && |Matches(raw[..k], decode, filter)| == count + 1
    requires forall j :: 0 <= j < k ==> decode(raw[j]).Some?
    ensures Limit(Matches(raw, decode, filter), count) == Matches(raw[..k], decode, filter)
    ensures Succeeds(raw, decode, filter, count)
  {
    assert raw == raw[..k] + raw[k..];
    MatchesConcat(raw[..k], raw[k..], decode, filter);
    forall j | k <= j < |raw| ensures |Matches(raw[..j], decode, filter)| > count {
      assert raw[..j] == raw[..k] + raw[k..j];
      MatchesConcat(raw[..k], raw[k..j], decode, filter);
    }
  }

  lemma MatchesNext<R, T>(raw: seq<R>, k: nat, decode: R -> Option<T>, filter: T -> bool)
    requires k < |raw| && decode(raw[k]).Some?
    ensures Matches(raw[..k + 1], decode, filter) ==
            Matches(raw[..k], decode, filter) + (if filter(decode(raw[k]).value) then [decode(raw[k]).value] else [])
  {
    assert raw[..k + 1][..k] == raw[..k];
  }

  lemma Undecodable<R, T>(raw: seq<R>, k: nat, decode: R -> Option<T>, filter: T -> bool, count: int)
    requires k < |raw| && decode(raw[k]).None? && (count > 0 ==> |Matches(raw[..k], decode, filter)| <= count)
    ensures !Succeeds(raw, decode, filter, count)
  {
  }

  lemma AllDecodable<R, T>(raw: seq<R>, decode: R -> Option<T>, filter: T -> bool, count: int)
    requires forall j :: 0 <= j < |raw| ==> decode(raw[j]).Some?
    requires count > 0 ==> |Matches(raw[..|raw|], decode, filter)| <= count
    ensures Succeeds(raw, decode, filter, count)
    ensures Matches(raw[..|raw|], decode, filter) == Limit(Matches(raw, decode, filter), count)
  {
    assert raw[..|raw|] == raw;
  }

  /** The offset counts entries, before the filter; the count is of objects that pass it. */
  method UnmarshalObjects<R, T>(raw: seq<R>, decode: R -> Option<T>, offset: int, count: int, filter: T -> bool)
    returns (ok: bool, objects: seq<T>)
    ensures ok <==> Succeeds(Offset(raw, offset), decode, filter, count)
    ensures ok ==> objects == Limit(Matches(Offset(raw, offset), decode, filter), count)
  {
    ghost var tail := Offset(raw, offset);
    ghost var start := |raw| - |tail|;
    ghost var at := 0;
    objects := [];
    var i := 0;
    for k := 0 to |raw|
      invariant i == if offset <= 0 then 0 else if k < offset then k else offset
      invariant 0 <= at <= |tail| && (if k <= start then at == 0 else k == start + at)
      invariant objects == Matches(tail[..at], decode, filter)
      invariant count > 0 ==> |objects| <= count
      invariant forall j :: 0 <= j < at ==> decode(tail[j]).Some?
    {
      if offset > 0 && i < offset {
        i := i + 1;
        continue;
      }
      assert k == start + at && raw[k] == tail[at];
      var obj := decode(raw[k]);
      if obj.None? {
        Undecodable(tail, at, decode, filter, count);
        return false, objects;
      }
      MatchesNext(tail, at, decode, filter);
      at := at + 1;
      if filter(obj.value) {
        objects := objects + [obj.value];
        if count > 0 && |objects| > count {
          CutShort(tail, at, decode, filter, count);
          return true, objects;
        }
      }
    }
    assert at == |tail|;
    AllDecodable(tail, decode, filter, count);
    return true, objects;
  }
}
