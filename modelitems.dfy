/** The project nodes the importer builds: solutions, projects, filters,
    files and targets, kept in one arena where a node refers to its parent
    by index. A node's children are the later nodes whose parent it is, in
    creation order. A project holds its configuration store; a solution
    holds the table binding each solution configuration to project
    configurations. */
module ModelItems {
  import opened Wrappers
  import opened Text
  import opened Paths
  import opened ProjectConfig

  // ---------------------------------------------------------------------
  // Configuration store of a project

  /** Configurations filed under `name|arch`, and the key of the current one
      ("" while none is chosen). */
  datatype ConfigStore = ConfigStore(configurations: map<string, Config>, current: string)

  const EmptyStore: ConfigStore := ConfigStore(map[], "")

  /** Every key holds a '|' (it was made by `ConfigKey`), and the current key
      is either unset or filed. */
  predicate StoreValid(st: ConfigStore)
  {
    (forall k :: k in st.configurations ==> '|' in k)
    && (st.current == "" || st.current in st.configurations)
  }

  /** Files `c` under its key, replacing what was there; the first key ever
      added becomes the current one. */
  function WithConfiguration(st: ConfigStore, c: Config): ConfigStore
  {
    var key := ConfigKey(c);
    ConfigStore(st.configurations[key := c], if st.current == "" then key else st.current)
  }

  /** Selection of a current configuration by key: it succeeds exactly when
      the key is filed. */
  function SelectConfiguration(st: ConfigStore, key: string): (r: (bool, ConfigStore))
  {
    if key in st.configurations then (true, st.(current := key)) else (false, st)
  }

  /** The configuration filed under the current key, or the default record
      when there is none. */
  function CurrentConfig(st: ConfigStore): Config
  {
    if st.current in st.configurations then st.configurations[st.current] else DefaultConfig
  }

  lemma EmptyStoreValid()
    ensures StoreValid(EmptyStore) && CurrentConfig(EmptyStore) == DefaultConfig
  {
  }

  /** Adding a configuration keeps the store valid, files it under its key,
      leaves every other key alone and makes the current key set. */
  lemma WithConfigurationValid(st: ConfigStore, c: Config)
    requires StoreValid(st)
    ensures var r := WithConfiguration(st, c);
      StoreValid(r) && r.current != ""
      && r.configurations[ConfigKey(c)] == c
      && (forall k :: k != ConfigKey(c) ==> (k in r.configurations <==> k in st.configurations))
      && (st.current != "" ==> r.current == st.current)
  {
  }

  /** Selection succeeds iff the key is filed; on success the selected
      record becomes the current configuration, on failure nothing changes.
      Either way the store stays valid. */
  lemma SelectConfigurationSpec(st: ConfigStore, key: string)
    requires StoreValid(st)
    ensures var (ok, r) := SelectConfiguration(st, key);
      StoreValid(r)
      && (ok <==> key in st.configurations)
      && (ok ==> r.current == key && CurrentConfig(r) == st.configurations[key]
                 && r.configurations == st.configurations)
      && (!ok ==> r == st)
  {
  }

  /** In a valid store without a current key the current configuration is
      the default record. */
  lemma CurrentConfigUnset(st: ConfigStore)
    requires StoreValid(st) && st.current == ""
    ensures CurrentConfig(st) == DefaultConfig
  {
    assert '|' !in st.current;
  }

  /** The configurations added in order, as a project file lists them. */
  function WithConfigurations(st: ConfigStore, cs: seq<Config>): ConfigStore
    decreases |cs|
  {
    if cs == [] then st else WithConfiguration(WithConfigurations(st, cs[..|cs| - 1]), cs[|cs| - 1])
  }

  /** The last of `cs` filed under `key`, if any. */
  function LastWithKey(cs: seq<Config>, key: string): Option<Config>
    decreases |cs|
  {
    if cs == [] then None
    else if ConfigKey(cs[|cs| - 1]) == key then Some(cs[|cs| - 1])
    else LastWithKey(cs[..|cs| - 1], key)
  }

  /** After a series of additions each key holds the last configuration
      added under it, and keys nobody added keep their old record. */
  lemma {:induction false} WithConfigurationsFiles(st: ConfigStore, cs: seq<Config>, key: string)
    ensures var r := WithConfigurations(st, cs);
      (key in r.configurations <==> key in st.configurations || LastWithKey(cs, key).Some?)
      && (LastWithKey(cs, key).Some? ==> r.configurations[key] == LastWithKey(cs, key).value)
      && (LastWithKey(cs, key).None? && key in st.configurations ==> r.configurations[key] == st.configurations[key])
    decreases |cs|
  {
    if cs != [] {
      WithConfigurationsFiles(st, cs[..|cs| - 1], key);
    }
  }

  /** Once a current key is set, further additions never change it. */
  lemma {:induction false} WithConfigurationsKeepCurrent(st: ConfigStore, cs: seq<Config>)
    requires st.current != ""
    ensures WithConfigurations(st, cs).current == st.current
    decreases |cs|
  {
    if cs != [] {
      WithConfigurationsKeepCurrent(st, cs[..|cs| - 1]);
    }
  }

  lemma {:induction false} WithConfigurationsValid(st: ConfigStore, cs: seq<Config>)
    requires StoreValid(st)
    ensures StoreValid(WithConfigurations(st, cs))
    decreases |cs|
  {
    if cs != [] {
      WithConfigurationsValid(st, cs[..|cs| - 1]);
      WithConfigurationValid(WithConfigurations(st, cs[..|cs| - 1]), cs[|cs| - 1]);
    }
  }

  /** The first configuration a project lists decides the current key, and
      the current record is the LAST one listed under that key. */
  lemma {:induction false} FirstConfigurationStaysCurrent(cs: seq<Config>)
    requires |cs| >= 1
    ensures WithConfigurations(EmptyStore, cs).current == ConfigKey(cs[0])
    ensures LastWithKey(cs, ConfigKey(cs[0])).Some?
    ensures CurrentConfig(WithConfigurations(EmptyStore, cs)) == LastWithKey(cs, ConfigKey(cs[0])).value
    decreases |cs|
  {
    var key := ConfigKey(cs[0]);
    var first := WithConfigurations(EmptyStore, cs[..1]);
    assert cs[..1][..0] == [] && cs[..1][0] == cs[0];
    assert WithConfigurations(EmptyStore, []) == EmptyStore;
    assert first == WithConfiguration(EmptyStore, cs[0]);
    WithConfigurationsSplit(EmptyStore, cs[..1], cs[1..]);
    assert cs[..1] + cs[1..] == cs;
    WithConfigurationsKeepCurrent(first, cs[1..]);
    LastWithKeyFound(cs, 0);
    WithConfigurationsFiles(EmptyStore, cs, key);
  }

  lemma {:induction false} WithConfigurationsSplit(st: ConfigStore, a: seq<Config>, b: seq<Config>)
    ensures WithConfigurations(st, a + b) == WithConfigurations(WithConfigurations(st, a), b)
    decreases |b|
  {
    if b == [] {
      assert a + b == a;
    } else {
      assert (a + b)[..|a + b| - 1] == a + b[..|b| - 1];
      assert (a + b)[|a + b| - 1] == b[|b| - 1];
      WithConfigurationsSplit(st, a, b[..|b| - 1]);
    }
  }

  /** A key that some configuration has is found by `LastWithKey`. */
  lemma {:induction false} LastWithKeyFound(cs: seq<Config>, i: nat)
    requires i < |cs|
    ensures LastWithKey(cs, ConfigKey(cs[i])).Some?
    decreases |cs|
  {
    if i < |cs| - 1 && ConfigKey(cs[|cs| - 1]) != ConfigKey(cs[i]) {
      LastWithKeyFound(cs[..|cs| - 1], i);
    }
  }

  // ---------------------------------------------------------------------
  // Nodes

  type ItemId = nat

  /** A project's uuid, as the text it was read from ("" for the null uuid). */
  type Uuid = string

  datatype ItemKind =
    | SolutionItem(configMap: map<string, map<Uuid, string>>)
    | ProjectItem(store: ConfigStore, uuid: Uuid)
    | FilterItem
    | FileItem
    | TargetItem
    | ExecutableTargetItem
    | LibraryTargetItem

  datatype Item = Item(kind: ItemKind, text: string, path: Path, parent: Option<ItemId>)

  datatype RenameStatus = RenameOk | ExistingItemSameName | ProjectManagerRenameFailed | InvalidNewName

  /** Every parent was created before its child. */
  predicate WellFormed(items: seq<Item>)
  {
    forall i :: 0 <= i < |items| && items[i].parent.Some? ==> items[i].parent.value < i
  }

  predicate IsProject(items: seq<Item>, i: ItemId)
  {
    i < |items| && items[i].kind.ProjectItem?
  }

  predicate IsSolution(items: seq<Item>, i: ItemId)
  {
    i < |items| && items[i].kind.SolutionItem?
  }

  predicate IsChild(items: seq<Item>, j: ItemId, id: ItemId)
  {
    j < |items| && items[j].parent == Some(id)
  }

  /** The children of `id` among the nodes from index `from` on, in creation
      order. */
  function ChildrenFrom(items: seq<Item>, id: ItemId, from: nat): (cs: seq<ItemId>)
    ensures forall k :: 0 <= k < |cs| ==> from <= cs[k] && IsChild(items, cs[k], id)
    ensures forall k, l :: 0 <= k < l < |cs| ==> cs[k] < cs[l]
    ensures forall j :: from <= j && IsChild(items, j, id) ==> j in cs
    decreases |items| - from
  {
    if from >= |items| then []
    else if items[from].parent == Some(id) then [from] + ChildrenFrom(items, id, from + 1)
    else ChildrenFrom(items, id, from + 1)
  }

  /** The children of a node, in creation order. */
  function Children(items: seq<Item>, id: ItemId): (cs: seq<ItemId>)
    requires WellFormed(items)
    ensures forall k :: 0 <= k < |cs| ==> id < cs[k] && IsChild(items, cs[k], id)
    ensures forall k, l :: 0 <= k < l < |cs| ==> cs[k] < cs[l]
    ensures forall j :: IsChild(items, j, id) <==> j in cs
  {
    ChildrenFrom(items, id, id + 1)
  }

  /** Whether node `j` holds a project with uuid `u`. */
  predicate ProjectWithUuid(items: seq<Item>, j: ItemId, u: Uuid)
  {
    j < |items| && items[j].kind.ProjectItem? && items[j].kind.uuid == u
  }

  function FirstProjectWithUuid(items: seq<Item>, cs: seq<ItemId>, u: Uuid): (r: Option<ItemId>)
    ensures r.Some? ==> r.value in cs && ProjectWithUuid(items, r.value, u)
    ensures r.Some? ==> forall k :: 0 <= k < |cs| && cs[k] != r.value && ProjectWithUuid(items, cs[k], u)
                                    ==> exists l :: 0 <= l < k && cs[l] == r.value
    ensures r.None? ==> forall k :: 0 <= k < |cs| ==> !ProjectWithUuid(items, cs[k], u)
  {
    if cs == [] then None
    else if ProjectWithUuid(items, cs[0], u) then Some(cs[0])
    else
      var r := FirstProjectWithUuid(items, cs[1..], u);
      if r.Some? then
        assert forall k :: 1 <= k < |cs| ==> cs[k] == cs[1..][k - 1];
        r
      else r
  }

  /** The child project of a solution that has uuid `u`: the earliest such
      child; only direct children are searched. */
  function FindProjectByUuid(items: seq<Item>, sol: ItemId, u: Uuid): (r: Option<ItemId>)
    requires WellFormed(items)
    ensures r.Some? ==> IsChild(items, r.value, sol) && ProjectWithUuid(items, r.value, u)
    ensures r.Some? ==> forall j :: IsChild(items, j, sol) && ProjectWithUuid(items, j, u) ==> r.value <= j
    ensures r.None? ==> forall j :: IsChild(items, j, sol) ==> !ProjectWithUuid(items, j, u)
  {
    var cs := Children(items, sol);
    var r := FirstProjectWithUuid(items, cs, u);
    if r.Some? then
      FirstIsLeast(items, cs, u, r.value);
      r
    else r
  }

  /** In an increasing list, the first project with uuid `u` is the
      smallest such entry. */
  lemma FirstIsLeast(items: seq<Item>, cs: seq<ItemId>, u: Uuid, first: ItemId)
    requires forall k, l :: 0 <= k < l < |cs| ==> cs[k] < cs[l]
    requires forall k :: 0 <= k < |cs| && cs[k] != first && ProjectWithUuid(items, cs[k], u) ==> exists l :: 0 <= l < k && cs[l] == first
    ensures forall j :: j in cs && ProjectWithUuid(items, j, u) ==> first <= j
  {
    forall j | j in cs && ProjectWithUuid(items, j, u)
      ensures first <= j
    {
      var k :| 0 <= k < |cs| && cs[k] == j;
      if j != first {
        var l :| 0 <= l < k && cs[l] == first;
      }
    }
  }

  /** Two node lists that agree on parents, on which nodes are projects and
      on project uuids. The search for a project by uuid cannot tell them
      apart. */
  predicate SameShape(a: seq<Item>, b: seq<Item>)
  {
    |a| == |b|
    && forall j :: 0 <= j < |a| ==>
         a[j].parent == b[j].parent
         && a[j].kind.ProjectItem? == b[j].kind.ProjectItem?
         && (a[j].kind.ProjectItem? ==> a[j].kind.uuid == b[j].kind.uuid)
  }

  lemma SameShapeFind(a: seq<Item>, b: seq<Item>, sol: ItemId, u: Uuid)
    requires WellFormed(a) && SameShape(a, b)
    ensures WellFormed(b) && FindProjectByUuid(a, sol, u) == FindProjectByUuid(b, sol, u)
  {
    assert forall j :: IsChild(a, j, sol) <==> IsChild(b, j, sol);
    assert forall j :: ProjectWithUuid(a, j, u) <==> ProjectWithUuid(b, j, u);
    var ra := FindProjectByUuid(a, sol, u);
    var rb := FindProjectByUuid(b, sol, u);
    if ra.Some? && rb.Some? {
      assert ra.value <= rb.value && rb.value <= ra.value;
    }
  }

  /** The node list after a solution selects configuration `name`: each
      bound uuid's project (the earliest child of the solution with that
      uuid) selects the bound configuration; every other node is as
      before. */
  function SolutionSelected(items: seq<Item>, sol: ItemId, binding: map<Uuid, string>, j: ItemId): Item
    requires WellFormed(items) && j < |items|
  {
    var it := items[j];
    if it.kind.ProjectItem? && it.kind.uuid in binding
       && FindProjectByUuid(items, sol, it.kind.uuid) == Some(j)
    then it.(kind := it.kind.(store := SelectConfiguration(it.kind.store, binding[it.kind.uuid]).1))
    else it
  }

  /** The table after a lookup of `name`: the lookup files an empty binding
      for a name the table does not know. */
  function BindingInserted(configMap: map<string, map<Uuid, string>>, name: string): map<string, map<Uuid, string>>
  {
    if name in configMap then configMap else configMap[name := map[]]
  }

  /** Ancestors: `a` is reached from `j` by following parents at least once. */
  predicate IsDescendant(items: seq<Item>, j: ItemId, a: ItemId)
    requires WellFormed(items)
    decreases j
  {
    j < |items| && items[j].parent.Some?
    && (items[j].parent.value == a || IsDescendant(items, items[j].parent.value, a))
  }

  /** The first project among a node and its ancestors. */
  function NearestProject(items: seq<Item>, j: ItemId): (r: Option<ItemId>)
    requires WellFormed(items) && j < |items|
    ensures r.Some? ==> IsProject(items, r.value) && (r.value == j || IsDescendant(items, j, r.value))
    ensures r.None? ==> !IsProject(items, j)
    decreases j
  {
    if items[j].kind.ProjectItem? then Some(j)
    else if items[j].parent.None? then None
    else NearestProject(items, items[j].parent.value)
  }

  /** No project lies strictly between a node and its nearest project, and
      a node with no nearest project has no project ancestor at all. */
  lemma {:induction false} NearestProjectIsNearest(items: seq<Item>, j: ItemId, a: ItemId)
    requires WellFormed(items) && j < |items| && IsDescendant(items, j, a) && IsProject(items, a)
    ensures NearestProject(items, j).Some?
    ensures NearestProject(items, j).value == a || IsDescendant(items, NearestProject(items, j).value, a)
    decreases j
  {
    if !items[j].kind.ProjectItem? {
      var p := items[j].parent.value;
      if p != a {
        NearestProjectIsNearest(items, p, a);
      }
    }
  }

  /** Loop state of a solution's selection: the nodes agree in shape with
      `start`, and every node is either untouched (its uuid is still to be
      processed) or already as the selection leaves it. */
  predicate SelectedExcept(start: seq<Item>, items: seq<Item>, sol: ItemId, binding: map<Uuid, string>, keys: set<Uuid>)
    requires WellFormed(start)
  {
    SameShape(start, items)
    && forall j :: 0 <= j < |items| ==>
         items[j] == if start[j].kind.ProjectItem? && start[j].kind.uuid in keys then start[j]
                     else SolutionSelected(start, sol, binding, j)
  }

  lemma SelectedStep(start: seq<Item>, before: seq<Item>, after: seq<Item>, sol: ItemId,
                     binding: map<Uuid, string>, keys: set<Uuid>, u: Uuid)
    requires WellFormed(start) && u in keys && keys <= binding.Keys
    requires SelectedExcept(start, before, sol, binding, keys)
    requires var f := FindProjectByUuid(start, sol, u);
      (f.None? ==> after == before)
      && (f.Some? ==> after == before[f.value := before[f.value].(kind := before[f.value].kind.(store := SelectConfiguration(before[f.value].kind.store, binding[u]).1))])
    ensures SelectedExcept(start, after, sol, binding, keys - {u})
  {
    var f := FindProjectByUuid(start, sol, u);
    forall j | 0 <= j < |after|
      ensures after[j] == if start[j].kind.ProjectItem? && start[j].kind.uuid in keys - {u} then start[j]
                          else SolutionSelected(start, sol, binding, j)
    {
      if f.Some? && j == f.value {
        assert before[j] == start[j];
      }
    }
  }

  /** A new project node for the project file at `path`: named after the
      file without its extension, with no configurations and the null
      uuid. */
  function ProjectNode(path: Path, parent: Option<ItemId>): Item
  {
    Item(ProjectItem(EmptyStore, ""), SectionUpToLast(LastSegment(path), '.'), path, parent)
  }

  // ---------------------------------------------------------------------
  // The node arena

  class ProjectTree {
    var items: seq<Item>

    predicate Valid()
      reads this
    {
      WellFormed(items)
    }

    constructor ()
      ensures items == [] && Valid()
    {
      items := [];
    }

    /** Appends a node under `parent`; it becomes the parent's last child. */
    method Add(kind: ItemKind, text: string, path: Path, parent: Option<ItemId>) returns (id: ItemId)
      requires Valid() && (parent.Some? ==> parent.value < |items|)
      modifies this
      ensures id == |old(items)| && items == old(items) + [Item(kind, text, path, parent)]
      ensures Valid()
    {
      id := |items|;
      items := items + [Item(kind, text, path, parent)];
    }

    /** Appends a new project node for the project file at `path`. */
    method NewProject(path: Path, parent: Option<ItemId>) returns (id: ItemId)
      requires Valid() && (parent.Some? ==> parent.value < |items|)
      modifies this
      ensures id == |old(items)|
      ensures items == old(items) + [ProjectNode(path, parent)]
      ensures Valid()
    {
      id := Add(ProjectItem(EmptyStore, ""), SectionUpToLast(LastSegment(path), '.'), path, parent);
    }

    /** A solution node for the solution file at `path`, named after the
        file, with an empty binding table. */
    method NewSolution(path: Path, parent: Option<ItemId>) returns (id: ItemId)
      requires Valid() && (parent.Some? ==> parent.value < |items|)
      modifies this
      ensures id == |old(items)|
      ensures items == old(items) + [Item(SolutionItem(map[]), LastSegment(path), path, parent)]
      ensures Valid()
    {
      id := Add(SolutionItem(map[]), LastSegment(path), path, parent);
    }

    /** Records `c` in the project's store (`addConfiguration`). */
    method AddConfiguration(id: ItemId, c: Config)
      requires Valid() && IsProject(items, id)
      modifies this
      ensures items == old(items)[id := old(items)[id].(kind := old(items)[id].kind.(store := WithConfiguration(old(items)[id].kind.store, c)))]
      ensures Valid()
    {
      var it := items[id];
      items := items[id := it.(kind := it.kind.(store := WithConfiguration(it.kind.store, c)))];
    }

    /** Makes `key` the project's current configuration if it is filed
        (`setCurrentConfiguration`); reports whether it was. */
    method SetCurrentConfiguration(id: ItemId, key: string) returns (ok: bool)
      requires Valid() && IsProject(items, id)
      modifies this
      ensures ok <==> key in old(items)[id].kind.store.configurations
      ensures ok ==> items == old(items)[id := old(items)[id].(kind := old(items)[id].kind.(store := old(items)[id].kind.store.(current := key)))]
      ensures !ok ==> items == old(items)
      ensures Valid()
    {
      var it := items[id];
      if key in it.kind.store.configurations {
        items := items[id := it.(kind := it.kind.(store := it.kind.store.(current := key)))];
        ok := true;
      } else {
        ok := false;
      }
    }

    /** The project's current configuration (`getCurrentConfig`). */
    function CurrentConfigOf(id: ItemId): Config
      requires IsProject(items, id)
      reads this
    {
      CurrentConfig(items[id].kind.store)
    }

    method SetUuid(id: ItemId, u: Uuid)
      requires Valid() && IsProject(items, id)
      modifies this
      ensures items == old(items)[id := old(items)[id].(kind := old(items)[id].kind.(uuid := u))]
      ensures UuidOf(id) == u
      ensures Valid()
    {
      var it := items[id];
      items := items[id := it.(kind := it.kind.(uuid := u))];
    }

    function UuidOf(id: ItemId): Uuid
      requires IsProject(items, id)
      reads this
    {
      items[id].kind.uuid
    }

    /** Renaming: a filter always refuses and stays as it is. Projects and
        solutions defer to the host framework, whose verdict is
        `frameworkStatus`; the text changes when that verdict is success. */
    method Rename(id: ItemId, newName: string, frameworkStatus: RenameStatus) returns (status: RenameStatus)
      requires Valid() && id < |items|
      requires items[id].kind.FilterItem? || items[id].kind.ProjectItem? || items[id].kind.SolutionItem?
      modifies this
      ensures old(items)[id].kind.FilterItem? ==> status == ProjectManagerRenameFailed && items == old(items)
      ensures !old(items)[id].kind.FilterItem? ==> status == frameworkStatus
      ensures !old(items)[id].kind.FilterItem? && status == RenameOk ==> items == old(items)[id := old(items)[id].(text := newName)]
      ensures !old(items)[id].kind.FilterItem? && status != RenameOk ==> items == old(items)
      ensures Valid()
    {
      if items[id].kind.FilterItem? {
        status := ProjectManagerRenameFailed;
      } else {
        status := frameworkStatus;
        if status == RenameOk {
          items := items[id := items[id].(text := newName)];
        }
      }
    }

    /** Binds project `u` to configuration `projectCfg` under the solution
        configuration `mainCfg` (`addProjectConfig`); every other binding
        stays as it was. */
    method AddProjectConfig(id: ItemId, mainCfg: string, u: Uuid, projectCfg: string)
      requires Valid() && IsSolution(items, id)
      modifies this
      ensures var m := old(items)[id].kind.configMap;
        var inner := if mainCfg in m then m[mainCfg] else map[];
        items == old(items)[id := old(items)[id].(kind := SolutionItem(m[mainCfg := inner[u := projectCfg]]))]
      ensures Valid()
    {
      var m := items[id].kind.configMap;
      var inner := if mainCfg in m then m[mainCfg] else map[];
      items := items[id := items[id].(kind := SolutionItem(m[mainCfg := inner[u := projectCfg]]))];
    }

    /** Selects solution configuration `name`: for each project uuid bound
        under it, the first child project of the solution with that uuid
        selects the bound project configuration (`setCurrentConfig`). */
    method SetCurrentConfig(sol: ItemId, name: string)
      requires Valid() && IsSolution(items, sol)
      modifies this
      ensures Valid() && |items| == |old(items)|
      ensures var m := old(items)[sol].kind.configMap;
        var binding := if name in m then m[name] else map[];
        var inserted := old(items)[sol := old(items)[sol].(kind := SolutionItem(BindingInserted(m, name)))];
        forall j :: 0 <= j < |items| ==> items[j] == SolutionSelected(inserted, sol, binding, j)
    {
      var m := items[sol].kind.configMap;
      var binding := if name in m then m[name] else map[];
      items := items[sol := items[sol].(kind := SolutionItem(BindingInserted(m, name)))];
      ghost var start := items;
      var keys := binding.Keys;
      while keys != {}
        invariant keys <= binding.Keys
        invariant WellFormed(start) && IsSolution(start, sol) && Valid()
        invariant SelectedExcept(start, items, sol, binding, keys)
        decreases keys
      {
        var u :| u in keys;
        SameShapeFind(start, items, sol, u);
        ghost var before := items;
        var found := FindProjectByUuid(items, sol, u);
        if found.Some? {
          var ok := SetCurrentConfiguration(found.value, binding[u]);
        }
        SelectedStep(start, before, items, sol, binding, keys, u);
        keys := keys - {u};
      }
    }
  }
}
