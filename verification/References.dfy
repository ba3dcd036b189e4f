/** Deletion in the store: the in-use check, which looks at the first column of a type with the
    right suffix only, the cascade of a template's deletion, and what both do to references. */
module References {
  import opened Collections
  import opened Options

  datatype InventoryRow = InventoryRow(sshKey: Option<int>, becomeKey: Option<int>)
  datatype RepositoryRow = RepositoryRow(sshKey: int)
  datatype EnvironmentRow = EnvironmentRow
  datatype AccessKey = AccessKey
  datatype TemplateRow = TemplateRow(
    inventory: int,
    repository: int,
    environment: Option<int>,
    vaultKey: Option<int>,
    buildTemplate: Option<int>,
    view: Option<int>)
  datatype Schedule = Schedule(template: int)
  datatype Task = Task(project: int, template: int)

  /** The buckets of the store. Those of a project's own objects exist once one was created;
      tasks share one bucket, and the output of each task has its own. */
  datatype Store = Store(
    inventories: map<int, map<int, InventoryRow>>,
    repositories: map<int, map<int, RepositoryRow>>,
    environments: map<int, map<int, EnvironmentRow>>,
    keys: map<int, map<int, AccessKey>>,
    templates: map<int, map<int, TemplateRow>>,
    schedules: map<int, map<int, Schedule>>,
    tasks: map<int, Task>,
    outputs: map<int, seq<string>>)

  function Bucket<T>(buckets: map<int, map<int, T>>, project: int): map<int, T> {
    if project in buckets then buckets[project] else map[]
  }

  // ---------------------------------------------------------------- the in-use check

  /** The words of column tags; `vault_key_id` is [Vault, Key, Id]. */
  datatype Word = Id | Project | Inventory | Repository | Environment | Vault | Key | Build | Template | View
                | Ssh | Become

  /** A column tag with its value; a zero integer or a nil pointer is no value. */
  datatype Column = Column(tag: seq<Word>, value: Option<int>)

  function Plain(n: int): Option<int> {
    if n == 0 then None else Some(n)
  }

  /** The integer columns of each type, in the order of its fields. */
  function TemplateColumns(project: int, id: int, t: TemplateRow): seq<Column> {
    [ Column([Id], Plain(id)),
      Column([Project, Id], Plain(project)),
      Column([Inventory, Id], Plain(t.inventory)),
      Column([Repository, Id], Plain(t.repository)),
      Column([Environment, Id], t.environment),
      Column([Vault, Key, Id], t.vaultKey),
      Column([Build, Template, Id], t.buildTemplate),
      Column([View, Id], t.view) ]
  }

  function InventoryColumns(project: int, id: int, i: InventoryRow): seq<Column> {
    [ Column([Id], Plain(id)),
      Column([Project, Id], Plain(project)),
      Column([Ssh, Key, Id], i.sshKey),
      Column([Become, Key, Id], i.becomeKey) ]
  }

  function RepositoryColumns(project: int, id: int, r: RepositoryRow): seq<Column> {
    [ Column([Id], Plain(id)),
      Column([Project, Id], Plain(project)),
      Column([Ssh, Key, Id], Plain(r.sshKey)) ]
  }

  function EnvironmentColumns(project: int, id: int): seq<Column> {
    [ Column([Id], Plain(id)),
      Column([Project, Id], Plain(project)) ]
  }

  predicate EndsWith(s: seq<Word>, suffix: seq<Word>) {
    |suffix| <= |s| && s[|s| - |suffix|..] == suffix
  }

  /** The value of the first column whose tag has the suffix. */
  function FirstValue(columns: seq<Column>, suffix: seq<Word>): Option<int> {
    if columns == [] then None
    else if EndsWith(columns[0].tag, suffix) then columns[0].value
    else FirstValue(columns[1..], suffix)
  }

  predicate Refers(columns: seq<Column>, suffix: seq<Word>, id: int) {
    FirstValue(columns, suffix) == Some(id)
  }

  ghost predicate InUse(s: Store, project: int, suffix: seq<Word>, id: int) {
    || (exists k :: k in Bucket(s.templates, project) &&
          Refers(TemplateColumns(project, k, Bucket(s.templates, project)[k]), suffix, id))
    || (exists k :: k in Bucket(s.environments, project) && Refers(EnvironmentColumns(project, k), suffix, id))
    || (exists k :: k in Bucket(s.inventories, project) &&
          Refers(InventoryColumns(project, k, Bucket(s.inventories, project)[k]), suffix, id))
    || (exists k :: k in Bucket(s.repositories, project) &&
          Refers(RepositoryColumns(project, k, Bucket(s.repositories, project)[k]), suffix, id))
  }

  const INVENTORY_ID := [Inventory, Id]
  const REPOSITORY_ID := [Repository, Id]
  const ENVIRONMENT_ID := [Environment, Id]
  const KEY_ID := [Key, Id]
  const TEMPLATE_ID := [Template, Id]

  lemma EndsWithTwo(tag: seq<Word>, a: Word, b: Word)
    ensures EndsWith(tag, [a, b]) <==> |tag| >= 2 && tag[|tag| - 2] == a && tag[|tag| - 1] == b
  {
    if |tag| >= 2 {
      assert tag[|tag| - 2..] == [tag[|tag| - 2], tag[|tag| - 1]];
    }
  }

  lemma FirstOfTwo(columns: seq<Column>, a: Word, b: Word, k: nat)
    requires k < |columns|
    requires var tag := columns[k].tag; |tag| >= 2 && tag[|tag| - 2] == a && tag[|tag| - 1] == b
    requires forall j :: 0 <= j < k ==> var tag := columns[j].tag; |tag| < 2 || tag[|tag| - 2] != a
    ensures FirstValue(columns, [a, b]) == columns[k].value
  {
    forall j | 0 <= j <= k ensures EndsWith(columns[j].tag, [a, b]) <==> j == k {
      EndsWithTwo(columns[j].tag, a, b);
    }
    FirstAt(columns, [a, b], k);
  }

  /** The columns that the check consults, type by type: the first with the suffix, so that an
      inventory's become key is never one of them. */
  lemma TemplateObjectColumns(project: int, id: int, t: TemplateRow)
    ensures FirstValue(TemplateColumns(project, id, t), INVENTORY_ID) == Plain(t.inventory)
    ensures FirstValue(TemplateColumns(project, id, t), REPOSITORY_ID) == Plain(t.repository)
  {
    FirstOfTwo(TemplateColumns(project, id, t), Inventory, Id, 2);
    FirstOfTwo(TemplateColumns(project, id, t), Repository, Id, 3);
  }

  lemma TemplateEnvironmentColumn(project: int, id: int, t: TemplateRow)
    ensures FirstValue(TemplateColumns(project, id, t), ENVIRONMENT_ID) == t.environment
  {
    FirstOfTwo(TemplateColumns(project, id, t), Environment, Id, 4);
  }

  lemma TemplateKeyColumn(project: int, id: int, t: TemplateRow)
    ensures FirstValue(TemplateColumns(project, id, t), KEY_ID) == t.vaultKey
  {
    FirstOfTwo(TemplateColumns(project, id, t), Key, Id, 5);
  }

  lemma TemplateTemplateColumn(project: int, id: int, t: TemplateRow)
    ensures FirstValue(TemplateColumns(project, id, t), TEMPLATE_ID) == t.buildTemplate
  {
    FirstOfTwo(TemplateColumns(project, id, t), Template, Id, 6);
  }

  lemma OwnerKeyColumns(project: int, id: int, i: InventoryRow, r: RepositoryRow)
    ensures FirstValue(InventoryColumns(project, id, i), KEY_ID) == i.sshKey
    ensures FirstValue(RepositoryColumns(project, id, r), KEY_ID) == Plain(r.sshKey)
  {
    FirstOfTwo(InventoryColumns(project, id, i), Key, Id, 2);
    FirstOfTwo(RepositoryColumns(project, id, r), Key, Id, 2);
  }

  lemma {:induction false} FirstAt(columns: seq<Column>, suffix: seq<Word>, k: nat)
    requires k < |columns| && EndsWith(columns[k].tag, suffix)
    requires forall j :: 0 <= j < k ==> !EndsWith(columns[j].tag, suffix)
    ensures FirstValue(columns, suffix) == columns[k].value
  {
    if k > 0 {
      FirstAt(columns[1..], suffix, k - 1);
    }
  }

  lemma {:induction false} NoneWithSuffix(columns: seq<Column>, a: Word, b: Word)
    requires forall j :: 0 <= j < |columns| ==> var tag := columns[j].tag; |tag| < 2 || tag[|tag| - 2] != a
    ensures FirstValue(columns, [a, b]) == None
  {
    if columns != [] {
      EndsWithTwo(columns[0].tag, a, b);
      NoneWithSuffix(columns[1..], a, b);
    }
  }

  /** Exactly what makes an access key, and what makes a template, count as in use. */
  lemma KeyInUse(s: Store, project: int, id: int)
    ensures InUse(s, project, KEY_ID, id) <==>
            || (exists k :: k in Bucket(s.templates, project) && Bucket(s.templates, project)[k].vaultKey == Some(id))
            || (exists k :: k in Bucket(s.inventories, project) && Bucket(s.inventories, project)[k].sshKey == Some(id))
            || (exists k :: k in Bucket(s.repositories, project) &&
                  Plain(Bucket(s.repositories, project)[k].sshKey) == Some(id))
  {
    forall k | k in Bucket(s.templates, project)
      ensures Refers(TemplateColumns(project, k, Bucket(s.templates, project)[k]), KEY_ID, id) <==>
              Bucket(s.templates, project)[k].vaultKey == Some(id)
    {
      TemplateKeyColumn(project, k, Bucket(s.templates, project)[k]);
    }
    forall k | k in Bucket(s.inventories, project)
      ensures Refers(InventoryColumns(project, k, Bucket(s.inventories, project)[k]), KEY_ID, id) <==>
              Bucket(s.inventories, project)[k].sshKey == Some(id)
    {
      OwnerKeyColumns(project, k, Bucket(s.inventories, project)[k], RepositoryRow(0));
    }
    forall k | k in Bucket(s.repositories, project)
      ensures Refers(RepositoryColumns(project, k, Bucket(s.repositories, project)[k]), KEY_ID, id) <==>
              Plain(Bucket(s.repositories, project)[k].sshKey) == Some(id)
    {
      OwnerKeyColumns(project, k, InventoryRow(None, None), Bucket(s.repositories, project)[k]);
    }
    forall k | k in Bucket(s.environments, project) ensures !Refers(EnvironmentColumns(project, k), KEY_ID, id) {
      NoneWithSuffix(EnvironmentColumns(project, k), Key, Id);
    }
  }

  /** What makes an inventory, a repository or an environment count as in use: a template that names
      it. */
  lemma InventoryInUse(s: Store, project: int, id: int)
    ensures InUse(s, project, INVENTORY_ID, id) <==>
            exists k :: k in Bucket(s.templates, project) &&
                        Plain(Bucket(s.templates, project)[k].inventory) == Some(id)
  {
    forall k | k in Bucket(s.templates, project)
      ensures Refers(TemplateColumns(project, k, Bucket(s.templates, project)[k]), INVENTORY_ID, id) <==>
              Plain(Bucket(s.templates, project)[k].inventory) == Some(id)
    {
      TemplateObjectColumns(project, k, Bucket(s.templates, project)[k]);
    }
    OnlyTemplatesRefer(s, project, Inventory, id);
  }

  lemma RepositoryInUse(s: Store, project: int, id: int)
    ensures InUse(s, project, REPOSITORY_ID, id) <==>
            exists k :: k in Bucket(s.templates, project) &&
                        Plain(Bucket(s.templates, project)[k].repository) == Some(id)
  {
    forall k | k in Bucket(s.templates, project)
      ensures Refers(TemplateColumns(project, k, Bucket(s.templates, project)[k]), REPOSITORY_ID, id) <==>
              Plain(Bucket(s.templates, project)[k].repository) == Some(id)
    {
      TemplateObjectColumns(project, k, Bucket(s.templates, project)[k]);
    }
    OnlyTemplatesRefer(s, project, Repository, id);
  }

  lemma EnvironmentInUse(s: Store, project: int, id: int)
    ensures InUse(s, project, ENVIRONMENT_ID, id) <==>
            exists k :: k in Bucket(s.templates, project) && Bucket(s.templates, project)[k].environment == Some(id)
  {
    forall k | k in Bucket(s.templates, project)
      ensures Refers(TemplateColumns(project, k, Bucket(s.templates, project)[k]), ENVIRONMENT_ID, id) <==>
              Bucket(s.templates, project)[k].environment == Some(id)
    {
      TemplateEnvironmentColumn(project, k, Bucket(s.templates, project)[k]);
    }
    OnlyTemplatesRefer(s, project, Environment, id);
  }

  /** No inventory, repository or environment has a column for an object of these kinds. */
  lemma OnlyTemplatesRefer(s: Store, project: int, word: Word, id: int)
    requires word !in {Project, Ssh, Become, Key}
    ensures forall k :: k in Bucket(s.inventories, project) ==>
              !Refers(InventoryColumns(project, k, Bucket(s.inventories, project)[k]), [word, Id], id)
    ensures forall k :: k in Bucket(s.repositories, project) ==>
              !Refers(RepositoryColumns(project, k, Bucket(s.repositories, project)[k]), [word, Id], id)
    ensures forall k :: k in Bucket(s.environments, project) ==>
              !Refers(EnvironmentColumns(project, k), [word, Id], id)
  {
    forall k | k in Bucket(s.inventories, project)
      ensures !Refers(InventoryColumns(project, k, Bucket(s.inventories, project)[k]), [word, Id], id)
    {
      NoneWithSuffix(InventoryColumns(project, k, Bucket(s.inventories, project)[k]), word, Id);
    }
    forall k | k in Bucket(s.repositories, project)
      ensures !Refers(RepositoryColumns(project, k, Bucket(s.repositories, project)[k]), [word, Id], id)
    {
      NoneWithSuffix(RepositoryColumns(project, k, Bucket(s.repositories, project)[k]), word, Id);
    }
    forall k | k in Bucket(s.environments, project) ensures !Refers(EnvironmentColumns(project, k), [word, Id], id) {
      NoneWithSuffix(EnvironmentColumns(project, k), word, Id);
    }
  }

  lemma TemplateInUse(s: Store, project: int, id: int)
    ensures InUse(s, project, TEMPLATE_ID, id) <==>
            exists k :: k in Bucket(s.templates, project) && Bucket(s.templates, project)[k].buildTemplate == Some(id)
  {
    forall k | k in Bucket(s.templates, project)
      ensures Refers(TemplateColumns(project, k, Bucket(s.templates, project)[k]), TEMPLATE_ID, id) <==>
              Bucket(s.templates, project)[k].buildTemplate == Some(id)
    {
      TemplateTemplateColumn(project, k, Bucket(s.templates, project)[k]);
    }
    OnlyTemplatesRefer(s, project, Template, id);
  }

  // ---------------------------------------------------------------- deletion

  datatype Error = InvalidOperation | NotFound
  datatype Result = Done(store: Store) | Failed(error: Error)

  datatype Deletion =
    | DeleteInventory(project: int, id: int)
    | DeleteRepository(project: int, id: int)
    | DeleteEnvironment(project: int, id: int)
    | DeleteAccessKey(project: int, id: int)
    | DeleteTemplate(project: int, id: int)

  function SuffixOf(d: Deletion): seq<Word> {
    match d
    case DeleteInventory(_, _) => INVENTORY_ID
    case DeleteRepository(_, _) => REPOSITORY_ID
    case DeleteEnvironment(_, _) => ENVIRONMENT_ID
    case DeleteAccessKey(_, _) => KEY_ID
    case DeleteTemplate(_, _) => TEMPLATE_ID
  }

  predicate HasBucket(s: Store, d: Deletion) {
    match d
    case DeleteInventory(p, _) => p in s.inventories
    case DeleteRepository(p, _) => p in s.repositories
    case DeleteEnvironment(p, _) => p in s.environments
    case DeleteAccessKey(p, _) => p in s.keys
    case DeleteTemplate(p, _) => p in s.templates
  }

  function Without<T>(buckets: map<int, map<int, T>>, project: int, id: int): map<int, map<int, T>> {
    if project in buckets then buckets[project := buckets[project] - {id}] else buckets
  }

  predicate OfTemplate(t: Task, project: int, template: int) {
    t.project == project && t.template == template
  }

  function OtherSchedules(bucket: map<int, Schedule>, template: int): map<int, Schedule> {
    map id | id in bucket && bucket[id].template != template :: bucket[id]
  }

  /** A template goes with its tasks, their outputs and its schedules. */
  function WithoutTemplate(s: Store, project: int, template: int): Store {
    s.(templates := Without(s.templates, project, template),
       schedules :=
         if project in s.schedules then s.schedules[project := OtherSchedules(s.schedules[project], template)]
             else s.schedules,
       tasks := map id | id in s.tasks && !OfTemplate(s.tasks[id], project, template) :: s.tasks[id],
       outputs := map id | id in s.outputs && !(id in s.tasks && OfTemplate(s.tasks[id], project, template)) ::
           s.outputs[id])
  }

  function Removed(s: Store, d: Deletion): Store {
    match d
    case DeleteInventory(p, id) => s.(inventories := Without(s.inventories, p, id))
    case DeleteRepository(p, id) => s.(repositories := Without(s.repositories, p, id))
    case DeleteEnvironment(p, id) => s.(environments := Without(s.environments, p, id))
    case DeleteAccessKey(p, id) => s.(keys := Without(s.keys, p, id))
    case DeleteTemplate(p, id) => WithoutTemplate(s, p, id)
  }

  /** A deletion is refused while the object is in use, and fails where its bucket is missing;
      an object that is not there is deleted without complaint. */
  ghost function Apply(s: Store, d: Deletion): Result {
    if InUse(s, d.project, SuffixOf(d), d.id) then Failed(InvalidOperation)
    else if !HasBucket(s, d) then Failed(NotFound)
    else Done(Removed(s, d))
  }

  ghost function After(s: Store, d: Deletion): Store {
    if Apply(s, d).Done? then Apply(s, d).store else s
  }

  ghost function AfterAll(s: Store, ds: seq<Deletion>): Store {
    if ds == [] then s else After(AfterAll(s, ds[..|ds| - 1]), ds[|ds| - 1])
  }

  // ---------------------------------------------------------------- live references

  predicate Live<T>(buckets: map<int, map<int, T>>, project: int, ref: Option<int>) {
    ref.None? || ref.value == 0 || ref.value in Bucket(buckets, project)
  }

  predicate TemplateLive(s: Store, project: int, t: TemplateRow) {
    && Live(s.inventories, project, Plain(t.inventory))
    && Live(s.repositories, project, Plain(t.repository))
    && Live(s.environments, project, t.environment)
    && Live(s.keys, project, t.vaultKey)
    && Live(s.templates, project, t.buildTemplate)
  }

  /** Every protected reference is zero or names an object of its project. */
  ghost predicate ReferencesLive(s: Store) {
    && (forall p, k :: p in s.templates && k in s.templates[p] ==> TemplateLive(s, p, s.templates[p][k]))
    && (forall p, k :: p in s.inventories && k in s.inventories[p] ==> Live(s.keys, p, s.inventories[p][k].sshKey))
    && (forall p, k :: p in s.repositories && k in s.repositories[p] ==>
         Live(s.keys, p, Plain(s.repositories[p][k].sshKey)))
  }

  /** The reference the check does not protect. */
  ghost predicate BecomeKeysLive(s: Store) {
    forall p, k :: p in s.inventories && k in s.inventories[p] ==> Live(s.keys, p, s.inventories[p][k].becomeKey)
  }

  lemma LiveWithout<T>(buckets: map<int, map<int, T>>, p: int, ref: Option<int>, project: int, id: int)
    requires Live(buckets, p, ref) && (p == project ==> ref != Some(id))
    ensures Live(Without(buckets, project, id), p, ref)
  {
  }

  lemma NotReferred(s: Store, project: int, suffix: seq<Word>, id: int, k: int)
    requires !InUse(s, project, suffix, id) && k in Bucket(s.templates, project)
    ensures FirstValue(TemplateColumns(project, k, Bucket(s.templates, project)[k]), suffix) != Some(id)
  {
  }

  /** A template that does not refer to what is removed keeps its references. */
  lemma TemplateStaysLive(s: Store, d: Deletion, p: int, k: int)
    requires ReferencesLive(s) && Apply(s, d).Done? && p in s.templates && k in s.templates[p]
    ensures TemplateLive(Removed(s, d), p, s.templates[p][k])
  {
    var t := s.templates[p][k];
    assert TemplateLive(s, p, t);
    if p == d.project {
      NotReferred(s, p, SuffixOf(d), d.id, k);
    }
    match d
    case DeleteInventory(project, id) =>
      TemplateObjectColumns(p, k, t);
      LiveWithout(s.inventories, p, Plain(t.inventory), project, id);
    case DeleteRepository(project, id) =>
      TemplateObjectColumns(p, k, t);
      LiveWithout(s.repositories, p, Plain(t.repository), project, id);
    case DeleteEnvironment(project, id) =>
      TemplateEnvironmentColumn(p, k, t);
      LiveWithout(s.environments, p, t.environment, project, id);
    case DeleteAccessKey(project, id) =>
      TemplateKeyColumn(p, k, t);
      LiveWithout(s.keys, p, t.vaultKey, project, id);
    case DeleteTemplate(project, id) =>
      TemplateTemplateColumn(p, k, t);
      LiveWithout(s.templates, p, t.buildTemplate, project, id);
  }

  lemma OwnersStayLive(s: Store, d: Deletion)
    requires ReferencesLive(s) && Apply(s, d).Done?
    ensures forall p, k :: p in s.inventories && k in s.inventories[p] ==>
            Live(Removed(s, d).keys, p, s.inventories[p][k].sshKey)
    ensures forall p, k :: p in s.repositories && k in s.repositories[p] ==>
              Live(Removed(s, d).keys, p, Plain(s.repositories[p][k].sshKey))
  {
    if d.DeleteAccessKey? {
      KeyInUse(s, d.project, d.id);
      forall p, k | p in s.inventories && k in s.inventories[p]
        ensures Live(Removed(s, d).keys, p, s.inventories[p][k].sshKey)
      {
        assert Bucket(s.inventories, p)[k] == s.inventories[p][k];
        LiveWithout(s.keys, p, s.inventories[p][k].sshKey, d.project, d.id);
      }
      forall p, k | p in s.repositories && k in s.repositories[p]
        ensures Live(Removed(s, d).keys, p, Plain(s.repositories[p][k].sshKey))
      {
        assert Bucket(s.repositories, p)[k] == s.repositories[p][k];
        LiveWithout(s.keys, p, Plain(s.repositories[p][k].sshKey), d.project, d.id);
      }
    } else {
      assert Removed(s, d).keys == s.keys;
    }
  }

  lemma DeletionKeepsReferences(s: Store, d: Deletion)
    requires ReferencesLive(s)
    ensures ReferencesLive(After(s, d))
  {
    if Apply(s, d).Done? {
      var s' := Removed(s, d);
      OwnersStayLive(s, d);
      forall p, k | p in s'.templates && k in s'.templates[p] ensures TemplateLive(s', p, s'.templates[p][k]) {
        TemplateStaysLive(s, d, p, k);
      }
    }
  }

  /** Every sequence of deletions keeps the protected references live. */
  lemma {:induction false} DeletionsKeepReferences(s: Store, ds: seq<Deletion>)
    requires ReferencesLive(s)
    ensures ReferencesLive(AfterAll(s, ds))
  {
    if ds != [] {
      DeletionsKeepReferences(s, ds[..|ds| - 1]);
      DeletionKeepsReferences(AfterAll(s, ds[..|ds| - 1]), ds[|ds| - 1]);
    }
  }

  // ---------------------------------------------------------------- the unprotected reference

  /** Some inventory of the project becomes another user with this key. */
  ghost predicate BecomesWith(s: Store, project: int, id: int) {
    exists k :: k in Bucket(s.inventories, project) && Bucket(s.inventories, project)[k].becomeKey == Some(id)
  }

  /** A deletion that succeeds keeps the become keys live exactly when it is not of an access
      key that an inventory becomes another user with. */
  lemma BecomeKeysStayLiveIff(s: Store, d: Deletion)
    requires BecomeKeysLive(s) && Apply(s, d).Done?
    ensures BecomeKeysLive(Removed(s, d)) <==> !(d.DeleteAccessKey? && d.id != 0 && BecomesWith(s, d.project, d.id))
  {
    var s' := Removed(s, d);
    if d.DeleteAccessKey? && d.id != 0 && BecomesWith(s, d.project, d.id) {
      var k :| k in Bucket(s.inventories, d.project) && Bucket(s.inventories, d.project)[k].becomeKey == Some(d.id);
      assert !Live(s'.keys, d.project, s'.inventories[d.project][k].becomeKey);
    } else {
      forall p, k | p in s'.inventories && k in s'.inventories[p]
          ensures Live(s'.keys, p, s'.inventories[p][k].becomeKey) {
        assert Live(s.keys, p, s.inventories[p][k].becomeKey);
        if d.DeleteAccessKey? && p == d.project {
          assert d.id == 0 || Bucket(s.inventories, p)[k].becomeKey != Some(d.id);
        }
      }
    }
  }

  const ONE_INVENTORY := Store(
    map[1 := map[1 := InventoryRow(None, Some(7))]], map[], map[], map[1 := map[7 := AccessKey]], map[], map[], map[],
        map[])

  lemma OneInventoryIsLive()
    ensures ReferencesLive(ONE_INVENTORY) && BecomeKeysLive(ONE_INVENTORY) && BecomesWith(ONE_INVENTORY, 1, 7)
  {
    var s := ONE_INVENTORY;
    assert 1 in Bucket(s.inventories, 1) && Bucket(s.inventories, 1)[1].becomeKey == Some(7);
    assert Live(s.keys, 1, Some(7));
  }

  /** A store in which deleting a key leaves an inventory without its become key. */
  lemma {:induction false} BecomeKeyIsNotProtected()
    ensures ReferencesLive(ONE_INVENTORY) && BecomeKeysLive(ONE_INVENTORY)
    ensures Apply(ONE_INVENTORY, DeleteAccessKey(1, 7)).Done?
    ensures !BecomeKeysLive(After(ONE_INVENTORY, DeleteAccessKey(1, 7)))
  {
    OneInventoryIsLive();
    var s := ONE_INVENTORY;
    KeyInUse(s, 1, 7);
    assert Bucket(s.templates, 1) == map[] && Bucket(s.repositories, 1) == map[];
    assert Bucket(s.inventories, 1) == map[1 := InventoryRow(None, Some(7))];
    BecomeKeysStayLiveIff(ONE_INVENTORY, DeleteAccessKey(1, 7));
  }

  // ---------------------------------------------------------------- the cascade

  /** `after` holds the entries of `before` whose key and value are kept. */
  ghost predicate Keeps<T>(before: map<int, T>, after: map<int, T>, kept: (int, T) -> bool) {
    && (forall k :: k in after <==> k in before && kept(k, before[k]))
    && (forall k :: k in after ==> after[k] == before[k])
  }

  ghost predicate SameElsewhere<T>(before: map<int, map<int, T>>, after: map<int, map<int, T>>, project: int) {
    && (forall p :: p in after <==> p in before)
    && (forall p :: p != project ==> Bucket(after, p) == Bucket(before, p))
  }

  /** The bucket of the project holds all it did but the object, and no other bucket of the kind has
      changed. */
  ghost predicate OnlyWithout<T>(before: map<int, map<int, T>>, after: map<int, map<int, T>>, project: int, id: int) {
    && SameElsewhere(before, after, project)
    && Keeps(Bucket(before, project), Bucket(after, project), (k: int, t: T) => k != id)
  }

  lemma WithoutIsExact<T>(buckets: map<int, map<int, T>>, project: int, id: int)
    ensures OnlyWithout(buckets, Without(buckets, project, id), project, id)
  {
  }

  /** Deleting an inventory fails exactly while a template names it or the project has none; otherwise
      it removes that inventory and leaves everything else as it was. The same holds of repositories,
      environments and access keys, each with the columns that count. */
  lemma InventoryDeletionIsExact(s: Store, project: int, id: int)
    ensures var r, mine := Apply(s, DeleteInventory(project, id)), Bucket(s.templates, project);
            var named := id != 0 && exists k :: k in mine && mine[k].inventory == id;
            && (r == Failed(InvalidOperation) <==> named)
            && (r == Failed(NotFound) <==> !named && project !in s.inventories)
            && (r.Done? ==> OnlyWithout(s.inventories, r.store.inventories, project, id))
            && (r.Done? ==> r.store == s.(inventories := r.store.inventories))
  {
    InventoryInUse(s, project, id);
    WithoutIsExact(s.inventories, project, id);
  }

  lemma RepositoryDeletionIsExact(s: Store, project: int, id: int)
    ensures var r, mine := Apply(s, DeleteRepository(project, id)), Bucket(s.templates, project);
            var named := id != 0 && exists k :: k in mine && mine[k].repository == id;
            && (r == Failed(InvalidOperation) <==> named)
            && (r == Failed(NotFound) <==> !named && project !in s.repositories)
            && (r.Done? ==> OnlyWithout(s.repositories, r.store.repositories, project, id))
            && (r.Done? ==> r.store == s.(repositories := r.store.repositories))
  {
    RepositoryInUse(s, project, id);
    WithoutIsExact(s.repositories, project, id);
  }

  lemma EnvironmentDeletionIsExact(s: Store, project: int, id: int)
    ensures var r, mine := Apply(s, DeleteEnvironment(project, id)), Bucket(s.templates, project);
            var named := exists k :: k in mine && mine[k].environment == Some(id);
            && (r == Failed(InvalidOperation) <==> named)
            && (r == Failed(NotFound) <==> !named && project !in s.environments)
            && (r.Done? ==> OnlyWithout(s.environments, r.store.environments, project, id))
            && (r.Done? ==> r.store == s.(environments := r.store.environments))
  {
    EnvironmentInUse(s, project, id);
    WithoutIsExact(s.environments, project, id);
  }

  lemma AccessKeyDeletionIsExact(s: Store, project: int, id: int)
    ensures var r := Apply(s, DeleteAccessKey(project, id));
            var named :=
              || (exists k :: k in Bucket(s.templates, project) &&
                    Bucket(s.templates, project)[k].vaultKey == Some(id))
              || (exists k :: k in Bucket(s.inventories, project) &&
                    Bucket(s.inventories, project)[k].sshKey == Some(id))
              || (exists k :: k in Bucket(s.repositories, project) &&
                    id != 0 && Bucket(s.repositories, project)[k].sshKey == id);
            && (r == Failed(InvalidOperation) <==> named)
            && (r == Failed(NotFound) <==> !named && project !in s.keys)
            && (r.Done? ==> OnlyWithout(s.keys, r.store.keys, project, id) && r.store == s.(keys := r.store.keys))
  {
    KeyInUse(s, project, id);
    WithoutIsExact(s.keys, project, id);
  }

  lemma SchedulesExact(s: Store, project: int, template: int)
    ensures var after := WithoutTemplate(s, project, template).schedules;
            && SameElsewhere(s.schedules, after, project)
            && Keeps(Bucket(s.schedules, project), Bucket(after, project),
                 (k: int, x: Schedule) => x.template != template)
  {
  }

  lemma TasksExact(s: Store, project: int, template: int)
    ensures var after := WithoutTemplate(s, project, template);
            && Keeps(s.tasks, after.tasks, (k: int, t: Task) => t != Task(project, template))
            && Keeps(s.outputs, after.outputs, (k: int, lines: seq<string>) => k in s.tasks ==>
                 s.tasks[k] != Task(project, template))
  {
  }

  /** Deleting a template fails exactly while another template builds on it or the project has
      no templates; otherwise it removes that template, the tasks of that project and template
      with their outputs, and its schedules, and leaves everything else as it was. */
  lemma TemplateDeletionIsExact(s: Store, project: int, template: int)
    ensures var r := Apply(s, DeleteTemplate(project, template));
            var mine := Bucket(s.templates, project);
            var built := exists k :: k in mine && mine[k].buildTemplate == Some(template);
            && (r == Failed(InvalidOperation) <==> built)
            && (r == Failed(NotFound) <==> !built && project !in s.templates)
            && (r.Done? ==>
                  var s' := r.store;
                  && s'.inventories == s.inventories && s'.repositories == s.repositories
                  && s'.environments == s.environments && s'.keys == s.keys
                  && OnlyWithout(s.templates, s'.templates, project, template)
                  && SameElsewhere(s.schedules, s'.schedules, project)
                  && Keeps(Bucket(s.schedules, project), Bucket(s'.schedules, project),
                       (k: int, x: Schedule) => x.template != template)
                  && Keeps(s.tasks, s'.tasks, (k: int, t: Task) => t != Task(project, template))
                  && Keeps(s.outputs, s'.outputs,
                           (k: int, lines: seq<string>) => k in s.tasks ==> s.tasks[k] != Task(project, template)))
  {
    TemplateInUse(s, project, template);
    WithoutIsExact(s.templates, project, template);
    SchedulesExact(s, project, template);
    TasksExact(s, project, template);
  }

  // ---------------------------------------------------------------- the store

  class BoltStore {
    var data: Store

    /** Whether some object of the project refers to the given one. The lookups see the state
        before the transaction. */
    method IsInUse(project: int, suffix: seq<Word>, id: int) returns (inUse: bool)
      ensures inUse <==> InUse(data, project, suffix, id)
    {
      inUse := AnyRow(Bucket(data.templates, project), (k, t) => TemplateColumns(project, k, t), suffix, id);
      if !inUse {
        inUse := AnyRow(Bucket(data.environments, project), (k, e) => EnvironmentColumns(project, k), suffix, id);
      }
      if !inUse {
        inUse := AnyRow(Bucket(data.inventories, project), (k, i) => InventoryColumns(project, k, i), suffix, id);
      }
      if !inUse {
        inUse := AnyRow(Bucket(data.repositories, project), (k, r) => RepositoryColumns(project, k, r), suffix, id);
      }
    }

    /** Whether some object of a bucket refers to the given id. */
    method AnyRow<T>(bucket: map<int, T>, columns: (int, T) -> seq<Column>, suffix: seq<Word>, id: int)
        returns (found: bool)
      ensures found <==> exists k :: k in bucket && Refers(columns(k, bucket[k]), suffix, id)
    {
      var todo := bucket.Keys;
      while todo != {}
        invariant todo <= bucket.Keys
        invariant forall k :: k in bucket && k !in todo ==> !Refers(columns(k, bucket[k]), suffix, id)
        decreases |todo|
      {
        ghost var member := Member(todo);
        var k :| k in todo;
        if Refers(columns(k, bucket[k]), suffix, id) {
          return true;
        }
        todo := todo - {k};
      }
      return false;
    }

    method Remove(d: Deletion) returns (error: Option<Error>)
      requires !d.DeleteTemplate?
      modifies this
      ensures error == if Apply(old(data), d).Done? then None else Some(Apply(old(data), d).error)
      ensures data == After(old(data), d)
    {
      var inUse := IsInUse(d.project, SuffixOf(d), d.id);
      if inUse {
        return Some(InvalidOperation);
      }
      if !HasBucket(data, d) {
        return Some(NotFound);
      }
      data := Removed(data, d);
      return None;
    }

    /** The tasks of a template, one by one with their outputs. */
    method WithoutTasks(tx: Store, project: int, template: int) returns (after: Store)
      ensures var target := WithoutTemplate(tx, project, template);
              after == tx.(tasks := target.tasks, outputs := target.outputs)
    {
      var tasks, outputs := tx.tasks, tx.outputs;
      var todo := set id | id in tx.tasks && OfTemplate(tx.tasks[id], project, template);
      ghost var doomed := todo;
      while todo != {}
        invariant todo <= doomed
        invariant forall id :: id in tasks <==> id in tx.tasks && (id in doomed ==> id in todo)
        invariant forall id :: id in tasks ==> tasks[id] == tx.tasks[id]
        invariant forall id :: id in outputs <==> id in tx.outputs && (id in doomed ==> id in todo)
        invariant forall id :: id in outputs ==> outputs[id] == tx.outputs[id]
        decreases |todo|
      {
        ghost var member := Member(todo);
        var id :| id in todo;
        tasks := tasks - {id};
        outputs := outputs - {id};
        todo := todo - {id};
      }
      after := tx.(tasks := tasks, outputs := outputs);
      Doomed(tx, project, template, doomed);
      ghost var target := WithoutTemplate(tx, project, template);
      SameMap(tasks, target.tasks);
      SameMap(outputs, target.outputs);
    }

    static lemma Doomed(tx: Store, project: int, template: int, doomed: set<int>)
      requires doomed == set id | id in tx.tasks && OfTemplate(tx.tasks[id], project, template)
      ensures forall id :: id in doomed <==> id in tx.tasks && OfTemplate(tx.tasks[id], project, template)
      ensures var target := WithoutTemplate(tx, project, template);
              && (forall id :: id in target.tasks <==> id in tx.tasks && id !in doomed)
              && (forall id :: id in target.tasks ==> target.tasks[id] == tx.tasks[id])
              && (forall id :: id in target.outputs <==> id in tx.outputs && id !in doomed)
              && (forall id :: id in target.outputs ==> target.outputs[id] == tx.outputs[id])
    {
    }

    /** The schedules of a template, one by one. */
    method WithoutSchedules(tx: Store, project: int, template: int) returns (after: Store)
      ensures after == tx.(schedules := WithoutTemplate(tx, project, template).schedules)
    {
      after := tx;
      if project !in tx.schedules {
        return;
      }
      var bucket := tx.schedules[project];
      var todo := set id | id in bucket && bucket[id].template == template;
      ghost var doomed := todo;
      assert forall id :: id in bucket ==> (id in doomed <==> bucket[id].template == template);
      while todo != {}
        invariant todo <= doomed
        invariant forall id :: id in bucket <==> id in tx.schedules[project] && (id in doomed ==> id in todo)
        invariant forall id :: id in bucket ==> bucket[id] == tx.schedules[project][id]
        decreases |todo|
      {
        ghost var member := Member(todo);
        var id :| id in todo;
        bucket := bucket - {id};
        todo := todo - {id};
      }
      SameMap(bucket, OtherSchedules(tx.schedules[project], template));
      after := after.(schedules := tx.schedules[project := bucket]);
    }

    /** The cascade in one transaction, which is dropped on failure. */
    method RemoveTemplate(project: int, template: int) returns (error: Option<Error>)
      modifies this
      ensures error ==
              if Apply(old(data), DeleteTemplate(project, template)).Done? then None
              else Some(Apply(old(data), DeleteTemplate(project, template)).error)
      ensures data == After(old(data), DeleteTemplate(project, template))
    {
      var templates := Bucket(data.templates, project);
      var referred := AnyRow(templates, (k, t) => TemplateColumns(project, k, t), TEMPLATE_ID, template);
      if referred {
        assert exists k :: k in templates && Refers(TemplateColumns(project, k, templates[k]), TEMPLATE_ID, template);
        return Some(InvalidOperation);
      }
      var tx := WithoutTasks(data, project, template);
      tx := WithoutSchedules(tx, project, template);
      var inUse := IsInUse(project, TEMPLATE_ID, template);
      if inUse {
        return Some(InvalidOperation);
      }
      if project !in tx.templates {
        return Some(NotFound);
      }
      data := tx.(templates := Without(tx.templates, project, template));
      return None;
    }
  }
}
