/** The project manager's per-node queries: the preprocessor defines and the
    include directories that apply to a node. Both come from the current
    configuration of the nearest project among the node and its ancestors. */
module Manager {
  import opened Wrappers
  import opened Paths
  import opened ProjectConfig
  import opened ModelItems
  import opened Replacer

  /** The defines of a node: none for no node, the nearest project's
      current configuration's defines otherwise, none without a project. */
  function DefinesOf(items: seq<Item>, item: Option<ItemId>): map<string, string>
    requires ValidContext(items, item)
  {
    if item.None? then map[]
    else
      var n := NearestProject(items, item.value);
      if n.None? then map[] else CurrentConfig(items[n.value].kind.store).preprocessorDefines
  }

  /** `defines`: walks from the node up through its parents and answers
      from the first project met. */
  method Defines(tree: ProjectTree, item: Option<ItemId>) returns (defines: map<string, string>)
    requires tree.Valid() && ValidContext(tree.items, item)
    ensures defines == DefinesOf(tree.items, item)
  {
    if item.None? {
      return map[];
    }
    var p := item;
    while p.Some?
      invariant p.Some? ==> p.value < |tree.items| && NearestProject(tree.items, p.value) == NearestProject(tree.items, item.value)
      invariant p.None? ==> NearestProject(tree.items, item.value).None?
      decreases if p.Some? then p.value + 1 else 0
    {
      var node := tree.items[p.value];
      if node.kind.ProjectItem? {
        return CurrentConfig(node.kind.store).preprocessorDefines;
      }
      p := node.parent;
    }
    return map[];
  }

  /** The project a node's settings come from is the enclosing project
      closest to it: a node that is not a project takes the defines of a
      project ancestor with no other project in between. */
  lemma DefinesFromEnclosingProject(items: seq<Item>, j: ItemId, a: ItemId)
    requires WellFormed(items) && j < |items| && !IsProject(items, j)
    requires IsProject(items, a) && IsDescendant(items, j, a)
    requires forall b :: IsDescendant(items, j, b) && IsDescendant(items, b, a) ==> !IsProject(items, b)
    ensures DefinesOf(items, Some(j)) == CurrentConfig(items[a].kind.store).preprocessorDefines
  {
    NearestProjectIsNearest(items, j, a);
  }

  /** A node outside every project has no defines. */
  lemma {:induction false} NoProjectNoDefines(items: seq<Item>, j: ItemId)
    requires WellFormed(items) && j < |items|
    requires !IsProject(items, j) && forall a :: IsDescendant(items, j, a) ==> !IsProject(items, a)
    ensures DefinesOf(items, Some(j)) == map[]
  {
  }

  /** The include directories an expanded entry list contributes, in order:
      each entry taken relative to the project's directory (an entry that
      starts with '/' from the root); an entry that gives no valid path is
      dropped. An empty entry, which an absent attribute or a trailing ';'
      leaves, resolves to the project's directory itself. */
  function IncludeEntries(dir: Path, xs: seq<string>): (r: seq<Path>)
    ensures |r| <= |xs|
  {
    if xs == [] then [] else Kept(dir, xs[0]) + IncludeEntries(dir, xs[1..])
  }

  /** What one entry contributes: its directory, or nothing. */
  function Kept(dir: Path, x: string): seq<Path>
  {
    if Resolve(dir, x).Path? then [Resolve(dir, x)] else []
  }

  /** Every kept include directory is a valid path resolved from one of the
      entries. */
  lemma {:induction false} IncludeEntriesSound(dir: Path, xs: seq<string>)
    ensures forall p :: p in IncludeEntries(dir, xs) ==> p.Path? && exists s :: s in xs && p == Resolve(dir, s)
    decreases |xs|
  {
    if xs != [] {
      IncludeEntriesSound(dir, xs[1..]);
      forall p | p in IncludeEntries(dir, xs)
        ensures p.Path? && exists s :: s in xs && p == Resolve(dir, s)
      {
        if p in Kept(dir, xs[0]) {
          assert xs[0] in xs;
        } else {
          assert p in IncludeEntries(dir, xs[1..]);
          var s :| s in xs[1..] && p == Resolve(dir, s);
          assert s in xs;
        }
      }
    }
  }

  /** Entries contribute independently of each other, in list order. */
  lemma {:induction false} IncludeEntriesAppend(dir: Path, a: seq<string>, b: seq<string>)
    ensures IncludeEntries(dir, a + b) == IncludeEntries(dir, a) + IncludeEntries(dir, b)
    decreases |a|
  {
    if a != [] {
      assert (a + b)[0] == a[0] && (a + b)[1..] == a[1..] + b;
      IncludeEntriesAppend(dir, a[1..], b);
      var h := Kept(dir, a[0]);
      assert IncludeEntries(dir, a + b) == h + (IncludeEntries(dir, a[1..]) + IncludeEntries(dir, b));
    } else {
      assert a + b == b;
    }
  }

  /** One more entry: what it contributes comes after the earlier ones. */
  lemma IncludeEntriesSnoc(dir: Path, xs: seq<string>, k: nat)
    requires k < |xs|
    ensures IncludeEntries(dir, xs[..k + 1])
         == IncludeEntries(dir, xs[..k]) + Kept(dir, xs[k])
  {
    var before, x := xs[..k], xs[k];
    assert xs[..k + 1] == before + [x];
    assert IncludeEntries(dir, before + [x]) == IncludeEntries(dir, before) + IncludeEntries(dir, [x]) by {
      IncludeEntriesAppend(dir, before, [x]);
    }
    assert IncludeEntries(dir, [x]) == Kept(dir, x) by {
      assert [x][1..] == [];
      assert Kept(dir, x) + [] == Kept(dir, x);
    }
  }

  /** Under a valid project directory every entry is kept. */
  lemma {:induction false} IncludeEntriesKeepAll(dir: Path, xs: seq<string>)
    requires dir.Path?
    ensures IncludeEntries(dir, xs) == seq(|xs|, k requires 0 <= k < |xs| => Resolve(dir, xs[k]))
    decreases |xs|
  {
    if xs != [] {
      var tail := xs[1..];
      var rest := seq(|tail|, k requires 0 <= k < |tail| => Resolve(dir, tail[k]));
      assert IncludeEntries(dir, tail) == rest by {
        assert forall k :: 0 <= k < |tail| ==> tail[k] == xs[k + 1];
        IncludeEntriesKeepAll(dir, tail);
      }
      assert Kept(dir, xs[0]) == [Resolve(dir, xs[0])];
      assert IncludeEntries(dir, xs) == [Resolve(dir, xs[0])] + rest;
    }
  }

  /** An empty entry contributes the project's directory itself. */
  lemma EmptyEntryIsProjectDir(dir: Path)
    requires dir.Path?
    ensures IncludeEntries(dir, [""]) == [dir]
  {
    ResolveEmpty(dir);
    assert [""][1..] == [];
  }

  /** `includeDirectories`: none for no node; otherwise the configured
      directories, followed by the expanded include entries of the nearest
      project, taken relative to its directory. An expansion that does not
      end within `fuel` steps gives no answer. */
  function IncludesOf(items: seq<Item>, item: Option<ItemId>, configured: seq<Path>, fuel: nat): Option<seq<Path>>
    requires ValidContext(items, item)
  {
    if item.None? then Some([])
    else
      var n := NearestProject(items, item.value);
      if n.None? then Some(configured)
      else
        var proj := items[n.value];
        var xs := ExpandAll(items, CurrentConfig(proj.kind.store).additionalIncludeDirectories, n, fuel);
        if xs.None? then None else Some(configured + IncludeEntries(Parent(proj.path), xs.value))
  }

  lemma KeptAfter(dirs: seq<Path>, before: seq<Path>, kept: seq<Path>)
    ensures dirs + before + kept == dirs + (before + kept)
  {
  }

  /** The loop over the expanded entries: each valid one is appended. */
  method AppendIncludes(dirs: seq<Path>, dir: Path, xs: seq<string>) returns (r: seq<Path>)
    ensures r == dirs + IncludeEntries(dir, xs)
  {
    r := dirs;
    var k := 0;
    while k < |xs|
      invariant 0 <= k <= |xs|
      invariant r == dirs + IncludeEntries(dir, xs[..k])
    {
      IncludeEntriesSnoc(dir, xs, k);
      KeptAfter(dirs, IncludeEntries(dir, xs[..k]), Kept(dir, xs[k]));
      var url := Resolve(dir, xs[k]);
      if url.Path? {
        r := r + [url];
      }
      k := k + 1;
    }
    assert xs[..k] == xs;
  }

  method IncludeDirectories(tree: ProjectTree, item: Option<ItemId>, configured: seq<Path>, fuel: nat)
    returns (result: Option<seq<Path>>)
    requires tree.Valid() && ValidContext(tree.items, item)
    ensures result == IncludesOf(tree.items, item, configured, fuel)
  {
    if item.None? {
      return Some([]);
    }
    var dirs := configured;
    var p := item;
    while p.Some?
      invariant p.Some? ==> p.value < |tree.items| && NearestProject(tree.items, p.value) == NearestProject(tree.items, item.value)
      invariant p.None? ==> NearestProject(tree.items, item.value).None?
      decreases if p.Some? then p.value + 1 else 0
    {
      var node := tree.items[p.value];
      if node.kind.ProjectItem? {
        var projectPath := Parent(node.path);
        var includes := CurrentConfig(node.kind.store).additionalIncludeDirectories;
        var replacer := new VariableReplacer();
        var expanded := replacer.ReplaceList(tree.items, includes, p, fuel);
        if expanded.None? {
          return None;
        }
        dirs := AppendIncludes(dirs, projectPath, expanded.value);
        return Some(dirs);
      }
      p := node.parent;
    }
    return Some(dirs);
  }

  /** The include directories come from the same project as the defines:
      for a node inside a project, the answer is the configured list
      followed by entries of that project alone. */
  lemma IncludesFromEnclosingProject(items: seq<Item>, j: ItemId, a: ItemId, configured: seq<Path>, fuel: nat)
    requires WellFormed(items) && j < |items| && !IsProject(items, j)
    requires IsProject(items, a) && IsDescendant(items, j, a)
    requires forall b :: IsDescendant(items, j, b) && IsDescendant(items, b, a) ==> !IsProject(items, b)
    ensures var xs := ExpandAll(items, CurrentConfig(items[a].kind.store).additionalIncludeDirectories, Some(a), fuel);
      IncludesOf(items, Some(j), configured, fuel)
      == if xs.None? then None else Some(configured + IncludeEntries(Parent(items[a].path), xs.value))
  {
    NearestProjectIsNearest(items, j, a);
  }
}
