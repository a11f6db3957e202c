/** Building a project's nodes from its project file.

    A `.vcproj` file lists its sources in a `Files` element, where `File`
    elements name files and `Filter` elements group them, nested to any
    depth; its `Configurations` element lists the build configurations. A
    `.vcxproj` project is read from its companion `.filters` file, whose
    item groups declare flat filters and the sources that belong to them.

    Cancellation is a flag another thread may raise at any time. The model
    takes it as an oracle: the flag reads false for the first `at.value`
    polls and true from then on (never, when `at` is `None`). */
module ProjectParser {
  import opened Wrappers
  import opened Text
  import opened Xml
  import opened Paths
  import opened ProjectConfig
  import opened ModelItems

  // ---------------------------------------------------------------------
  // Cancellation

  /** Whether the flag reads true at poll number `polls`. */
  predicate CanceledAt(at: Option<nat>, polls: nat)
  {
    at.Some? && at.value <= polls
  }

  class CancelFlag {
    const at: Option<nat>
    var polls: nat

    constructor (at: Option<nat>)
      ensures this.at == at && polls == 0
    {
      this.at := at;
      polls := 0;
    }

    /** Reads the flag (`isCanceled()`); every read counts as one poll. */
    method Poll() returns (canceled: bool)
      modifies this
      ensures canceled == CanceledAt(at, old(polls)) && polls == old(polls) + 1
    {
      canceled := CanceledAt(at, polls);
      polls := polls + 1;
    }
  }

  /** Opening a file: only a local file can be opened, and only one the file
      system holds; `files` maps each such path to its parsed content. */
  function Open<T>(files: map<Path, T>, p: Path): (r: Option<T>)
    ensures r.Some? <==> IsLocalFile(p) && p in files
    ensures r.Some? ==> r.value == files[p]
  {
    if IsLocalFile(p) && p in files then Some(files[p]) else None
  }

  // ---------------------------------------------------------------------
  // Searching for a filter (`findItem`)

  predicate IsFilterNamed(items: seq<Item>, j: ItemId, name: string)
  {
    j < |items| && items[j].kind.FilterItem? && items[j].text == name
  }

  /** The first node of `cs` that is a filter named `name`. */
  function FirstFilterNamed(items: seq<Item>, cs: seq<ItemId>, name: string): (r: Option<ItemId>)
    ensures r.Some? ==> r.value in cs && IsFilterNamed(items, r.value, name)
    ensures r.Some? ==> forall k :: 0 <= k < |cs| && cs[k] != r.value && IsFilterNamed(items, cs[k], name)
                                    ==> exists l :: 0 <= l < k && cs[l] == r.value
    ensures r.None? ==> forall k :: 0 <= k < |cs| ==> !IsFilterNamed(items, cs[k], name)
  {
    if cs == [] then None
    else if IsFilterNamed(items, cs[0], name) then Some(cs[0])
    else
      var r := FirstFilterNamed(items, cs[1..], name);
      assert forall k :: 1 <= k < |cs| ==> cs[k] == cs[1..][k - 1];
      r
  }

  lemma {:induction false} DescendantOfChild(items: seq<Item>, j: ItemId, c: ItemId, a: ItemId)
    requires WellFormed(items) && IsDescendant(items, j, c) && IsChild(items, c, a)
    ensures IsDescendant(items, j, a)
    decreases j
  {
    var p := items[j].parent.value;
    if p != c {
      DescendantOfChild(items, p, c, a);
    }
  }

  /** A node below `a` that is not a child of `a` lies below one of its
      children. */
  lemma {:induction false} DescendantVia(items: seq<Item>, j: ItemId, a: ItemId) returns (c: ItemId)
    requires WellFormed(items) && IsDescendant(items, j, a) && items[j].parent != Some(a)
    ensures IsChild(items, c, a) && IsDescendant(items, j, c)
    decreases j
  {
    var p := items[j].parent.value;
    if items[p].parent == Some(a) {
      c := p;
    } else {
      c := DescendantVia(items, p, a);
    }
  }

  /** The search for the filter named `name` below `root`: the children of a
      node are all tried, in order, before the search descends into the
      first of them. */
  function FindFilter(items: seq<Item>, root: ItemId, name: string): (r: Option<ItemId>)
    requires WellFormed(items) && root < |items|
    ensures r.Some? ==> IsFilterNamed(items, r.value, name) && IsDescendant(items, r.value, root)
    ensures forall j :: IsChild(items, j, root) && IsFilterNamed(items, j, name)
                        ==> r.Some? && IsChild(items, r.value, root) && r.value <= j
    decreases |items| - root, 1
  {
    var cs := Children(items, root);
    var direct := FirstFilterNamed(items, cs, name);
    if direct.Some? then
      assert forall j :: IsChild(items, j, root) && IsFilterNamed(items, j, name) && j != direct.value
               ==> exists k, l :: 0 <= l < k < |cs| && cs[k] == j && cs[l] == direct.value;
      direct
    else FindInChildren(items, root, cs, name)
  }

  /** The search continued into each of `cs`, children of `root`, in turn. */
  function FindInChildren(items: seq<Item>, root: ItemId, cs: seq<ItemId>, name: string): (r: Option<ItemId>)
    requires WellFormed(items) && root < |items|
    requires forall k :: 0 <= k < |cs| ==> root < cs[k] < |items| && IsChild(items, cs[k], root)
    ensures r.Some? ==> IsFilterNamed(items, r.value, name) && IsDescendant(items, r.value, root)
    ensures r.None? ==> forall k :: 0 <= k < |cs| ==> FindFilter(items, cs[k], name).None?
    decreases |items| - root, 0, |cs|
  {
    if cs == [] then None
    else
      var r := FindFilter(items, cs[0], name);
      if r.Some? then
        DescendantOfChild(items, r.value, cs[0], root);
        r
      else
        var rest := FindInChildren(items, root, cs[1..], name);
        assert forall k :: 1 <= k < |cs| ==> cs[k] == cs[1..][k - 1];
        rest
  }

  /** The children are searched in order: when the search below child `k`
      is the first to succeed, its result is the result. */
  lemma {:induction false} FindInChildrenFirst(items: seq<Item>, root: ItemId, cs: seq<ItemId>, name: string, k: nat)
    requires WellFormed(items) && root < |items|
    requires forall k :: 0 <= k < |cs| ==> root < cs[k] < |items| && IsChild(items, cs[k], root)
    requires k < |cs| && FindFilter(items, cs[k], name).Some?
    requires forall l :: 0 <= l < k ==> FindFilter(items, cs[l], name).None?
    ensures FindInChildren(items, root, cs, name) == FindFilter(items, cs[k], name)
    decreases k
  {
    if k == 0 {
      FindInChildrenStep(items, root, cs, name);
    } else {
      var tail := FindInChildrenSkip(items, root, cs, name);
      assert tail[k - 1] == cs[k];
      assert forall l :: 0 <= l < k - 1 ==> FindFilter(items, tail[l], name).None? by {
        assert forall l :: 0 <= l < k - 1 ==> tail[l] == cs[l + 1];
      }
      FindInChildrenFirst(items, root, tail, name, k - 1);
    }
  }

  /** Passing over a first child whose search fails: the search goes on with
      the remaining children, which are children of `root` too. */
  lemma FindInChildrenSkip(items: seq<Item>, root: ItemId, cs: seq<ItemId>, name: string) returns (tail: seq<ItemId>)
    requires WellFormed(items) && root < |items| && cs != []
    requires forall k :: 0 <= k < |cs| ==> root < cs[k] < |items| && IsChild(items, cs[k], root)
    requires FindFilter(items, cs[0], name).None?
    ensures tail == cs[1..]
    ensures forall l :: 0 <= l < |tail| ==> root < tail[l] < |items| && IsChild(items, tail[l], root)
    ensures FindInChildren(items, root, cs, name) == FindInChildren(items, root, tail, name)
  {
    tail := cs[1..];
    assert forall l :: 0 <= l < |tail| ==> tail[l] == cs[l + 1];
    FindInChildrenStep(items, root, cs, name);
  }

  /** One child of the search: its result if it finds something, else the
      search goes on with the next children. */
  lemma FindInChildrenStep(items: seq<Item>, root: ItemId, cs: seq<ItemId>, name: string)
    requires WellFormed(items) && root < |items| && cs != []
    requires forall k :: 0 <= k < |cs| ==> root < cs[k] < |items| && IsChild(items, cs[k], root)
    ensures var r := FindFilter(items, cs[0], name);
      FindInChildren(items, root, cs, name) == if r.Some? then r else FindInChildren(items, root, cs[1..], name)
  {
  }

  /** The search fails only when no node below `root` is a filter with that
      name. */
  lemma {:induction false} FindFilterNone(items: seq<Item>, root: ItemId, name: string, j: ItemId)
    requires WellFormed(items) && root < |items|
    requires FindFilter(items, root, name).None? && IsDescendant(items, j, root)
    ensures !IsFilterNamed(items, j, name)
    decreases |items| - root
  {
    var cs := Children(items, root);
    if items[j].parent == Some(root) {
      assert j in cs;
    } else {
      var c := DescendantVia(items, j, root);
      assert c in cs;
      FindFilterNone(items, c, name, j);
    }
  }

  // ---------------------------------------------------------------------
  // The file list of a `.vcproj` (`parseFileList`)

  /** The state after reading part of a project file: the nodes, the number
      of cancellation polls made, and whether a read stopped because the
      flag was seen raised. */
  datatype Walk = Walk(items: seq<Item>, polls: nat, stopped: bool)

  /** A `File` element's path: its `RelativePath`, with every '\' turned
      into '/', taken relative to the project file's directory. */
  function FilePath(dir: Path, e: Element): Path
  {
    Resolve(dir, ReplaceChar(Attr(e, "RelativePath"), '\\', '/'))
  }

  /** A file node is named after the last segment of its path. */
  function FileNode(path: Path, parent: ItemId): Item
  {
    Item(FileItem, LastSegment(path), path, Some(parent))
  }

  /** A filter node has a name and no path. */
  function FilterNode(name: string, parent: ItemId): Item
  {
    Item(FilterItem, name, Invalid, Some(parent))
  }

  /** Node `j` of `r` is a file or filter node under `parent`, or under a
      filter node from `start` on that comes before it. */
  predicate AppendedNode(r: seq<Item>, j: nat, parent: ItemId, start: nat)
    requires j < |r|
  {
    (r[j].kind.FileItem? || r[j].kind.FilterItem?)
    && r[j].parent.Some?
    && (r[j].parent.value == parent
        || (start <= r[j].parent.value < j && r[r[j].parent.value].kind.FilterItem?))
  }

  /** File and filter nodes appended under `parent`, or under a filter
      node appended before them; the nodes before them are kept. */
  predicate AppendedBelow(items: seq<Item>, r: seq<Item>, parent: ItemId)
  {
    |items| <= |r| && r[..|items|] == items
    && forall j :: |items| <= j < |r| ==> AppendedNode(r, j, parent, |items|)
  }

  /** `r` keeps every node of `items` other than `proj`, and may have
      more after them. */
  predicate KeepsOthers(items: seq<Item>, r: seq<Item>, proj: ItemId)
  {
    |items| <= |r| && forall i :: 0 <= i < |items| && i != proj ==> r[i] == items[i]
  }

  lemma KeepsOthersChain(items: seq<Item>, b: seq<Item>, c: seq<Item>, proj: ItemId)
    requires KeepsOthers(items, b, proj) && KeepsOthers(b, c, proj)
    ensures KeepsOthers(items, c, proj)
  {
  }

  lemma AppendedChain(items: seq<Item>, b: seq<Item>, c: seq<Item>, parent: ItemId)
    requires AppendedBelow(items, b, parent) && AppendedBelow(b, c, parent)
    ensures AppendedBelow(items, c, parent)
  {
    assert c[..|items|] == c[..|b|][..|items|];
    forall j | |items| <= j < |c|
      ensures AppendedNode(c, j, parent, |items|)
    {
      if j < |b| {
        assert AppendedNode(b, j, parent, |items|);
        assert c[j] == c[..|b|][j];
        if c[j].parent.value != parent {
          var p := c[j].parent.value;
          assert c[p] == c[..|b|][p];
        }
      } else {
        assert AppendedNode(c, j, parent, |b|);
      }
    }
  }

  lemma AppendedOne(items: seq<Item>, it: Item, c: seq<Item>, parent: ItemId, below: ItemId)
    requires (it.kind.FileItem? || it.kind.FilterItem?) && it.parent == Some(parent)
    requires below == parent || (below == |items| && it.kind.FilterItem?)
    requires AppendedBelow(items + [it], c, below)
    ensures AppendedBelow(items, c, parent)
  {
    assert c[..|items|] == c[..|items| + 1][..|items|];
    assert c[|items|] == c[..|items| + 1][|items|] == it;
    forall j | |items| < j < |c|
      ensures AppendedNode(c, j, parent, |items|)
    {
      assert AppendedNode(c, j, below, |items| + 1);
    }
  }

  lemma AppendedBelowWellFormed(items: seq<Item>, r: seq<Item>, parent: ItemId)
    requires WellFormed(items) && parent < |items| && AppendedBelow(items, r, parent)
    ensures WellFormed(r)
  {
    forall i | 0 <= i < |r| && r[i].parent.Some?
      ensures r[i].parent.value < i
    {
      if i < |items| {
        assert r[i] == items[i];
      } else {
        assert AppendedNode(r, i, parent, |items|);
      }
    }
  }

  /** The walk over the elements `es` of a file list into node `parent`.
      Before each element the flag is polled, and the walk returns when it
      is raised. A `File` element (in any letter case) becomes a file node;
      a `Filter` element becomes a filter node whose contents are walked
      into it; other elements are passed over. */
  function WalkF(items: seq<Item>, parent: ItemId, es: seq<Element>, dir: Path, at: Option<nat>, polls: nat): (r: Walk)
    requires parent < |items|
    ensures AppendedBelow(items, r.items, parent) && r.polls >= polls
    ensures r.stopped ==> r.polls >= 1 && CanceledAt(at, r.polls - 1)
    ensures at.None? ==> !r.stopped
    decreases es
  {
    if es == [] then Walk(items, polls, false)
    else if CanceledAt(at, polls) then Walk(items, polls + 1, true)
    else if EqualsIgnoreCase(es[0].name, "File") then
      var node := FileNode(FilePath(dir, es[0]), parent);
      var r := WalkF(items + [node], parent, es[1..], dir, at, polls + 1);
      AppendedOne(items, node, r.items, parent, parent);
      r
    else if EqualsIgnoreCase(es[0].name, "Filter") then
      var node := FilterNode(Attr(es[0], "Name"), parent);
      var inner := WalkF(items + [node], |items|, es[0].children, dir, at, polls + 1);
      AppendedOne(items, node, inner.items, parent, |items|);
      var rest := WalkF(inner.items, parent, es[1..], dir, at, inner.polls);
      AppendedChain(items, inner.items, rest.items, parent);
      Walk(rest.items, rest.polls, inner.stopped || rest.stopped)
    else WalkF(items, parent, es[1..], dir, at, polls + 1)
  }

  /** Reads a file list into node `parent` (`parseFileList`); reports
      whether it stopped on a raised flag. */
  method ParseFileList(tree: ProjectTree, flag: CancelFlag, parent: ItemId, es: seq<Element>, dir: Path)
    returns (stopped: bool)
    requires tree.Valid() && parent < |tree.items|
    modifies tree, flag
    ensures Walk(tree.items, flag.polls, stopped) == WalkF(old(tree.items), parent, es, dir, flag.at, old(flag.polls))
    ensures tree.Valid()
    decreases es, 1
  {
    ghost var whole := WalkF(tree.items, parent, es, dir, flag.at, flag.polls);
    stopped := false;
    var i := 0;
    while i < |es|
      invariant 0 <= i <= |es| && tree.Valid() && parent < |tree.items|
      invariant Resumed(WalkF(tree.items, parent, es[i..], dir, flag.at, flag.polls), stopped) == whole
    {
      var canceled, s := ReadNext(tree, flag, parent, es, i, dir);
      if canceled {
        stopped := true;
        return;
      }
      stopped := stopped || s;
      i := i + 1;
    }
    assert es[i..] == [];
  }

  /** One turn of the loop in `parseFileList`: reads the flag, and unless it
      is raised reads element `i`. The walk from `i` on is that turn
      followed by the walk from `i + 1` on. */
  method ReadNext(tree: ProjectTree, flag: CancelFlag, parent: ItemId, es: seq<Element>, i: nat, dir: Path)
    returns (canceled: bool, stopped: bool)
    requires tree.Valid() && parent < |tree.items| && i < |es|
    modifies tree, flag
    ensures tree.Valid() && parent < |tree.items|
    ensures canceled ==> (tree.items == old(tree.items)
      && WalkF(old(tree.items), parent, es[i..], dir, flag.at, old(flag.polls)) == Walk(tree.items, flag.polls, true))
    ensures !canceled ==> (WalkF(old(tree.items), parent, es[i..], dir, flag.at, old(flag.polls))
      == Resumed(WalkF(tree.items, parent, es[i + 1..], dir, flag.at, flag.polls), stopped))
    decreases es, 0
  {
    var e := es[i];
    assert es[i..][0] == e && es[i..][1..] == es[i + 1..];
    ghost var before, polls := tree.items, flag.polls;
    canceled := flag.Poll();
    if canceled {
      stopped := true;
      return;
    }
    stopped := ReadFileListElement(tree, flag, parent, e, dir);
    assert tree.items == ElementF(before, parent, e, dir, flag.at, polls + 1).items;
    WalkElementStep(before, parent, es[i..], dir, flag.at, polls);
  }

  /** A walk, marked stopped also when an earlier part of it stopped. */
  function Resumed(r: Walk, stopped: bool): Walk
  {
    Walk(r.items, r.polls, stopped || r.stopped)
  }

  /** What reading one element of a file list does once the flag has been
      read lowered: a `File` element appends its file node, a `Filter`
      element appends its filter node and walks its contents into it, and
      any other element is passed over. */
  function ElementF(items: seq<Item>, parent: ItemId, e: Element, dir: Path, at: Option<nat>, polls: nat): (r: Walk)
    requires parent < |items|
    ensures AppendedBelow(items, r.items, parent) && r.polls >= polls
    decreases e
  {
    if EqualsIgnoreCase(e.name, "File") then
      var node := FileNode(FilePath(dir, e), parent);
      AppendedOne(items, node, items + [node], parent, parent);
      Walk(items + [node], polls, false)
    else if EqualsIgnoreCase(e.name, "Filter") then
      var node := FilterNode(Attr(e, "Name"), parent);
      var inner := WalkF(items + [node], |items|, e.children, dir, at, polls);
      AppendedOne(items, node, inner.items, parent, |items|);
      inner
    else Walk(items, polls, false)
  }

  /** An element the walk reaches unflagged has the effect of `ElementF`,
      and the walk goes on with the rest. */
  lemma WalkElementStep(items: seq<Item>, parent: ItemId, es: seq<Element>, dir: Path, at: Option<nat>, polls: nat)
    requires parent < |items| && es != [] && !CanceledAt(at, polls)
    ensures var m := ElementF(items, parent, es[0], dir, at, polls + 1);
      var rest := WalkF(m.items, parent, es[1..], dir, at, m.polls);
      WalkF(items, parent, es, dir, at, polls) == Walk(rest.items, rest.polls, m.stopped || rest.stopped)
  {
    var m := ElementF(items, parent, es[0], dir, at, polls + 1);
    if !EqualsIgnoreCase(es[0].name, "File") && EqualsIgnoreCase(es[0].name, "Filter") {
      WalkFilterStep(items, parent, es, dir, at, polls);
    }
  }

  /** Reads one element of a file list (the body of the loop in
      `parseFileList`, after the flag was read lowered). */
  method ReadFileListElement(tree: ProjectTree, flag: CancelFlag, parent: ItemId, e: Element, dir: Path)
    returns (stopped: bool)
    requires tree.Valid() && parent < |tree.items|
    modifies tree, flag
    ensures Walk(tree.items, flag.polls, stopped) == ElementF(old(tree.items), parent, e, dir, flag.at, old(flag.polls))
    ensures tree.Valid()
    decreases e
  {
    stopped := false;
    if EqualsIgnoreCase(e.name, "File") {
      var path := FilePath(dir, e);
      var id := tree.Add(FileItem, LastSegment(path), path, Some(parent));
    } else if EqualsIgnoreCase(e.name, "Filter") {
      var filter := tree.Add(FilterItem, Attr(e, "Name"), Invalid, Some(parent));
      stopped := ParseFileList(tree, flag, filter, e.children, dir);
    }
  }

  /** A `File` element the walk reaches unflagged appends its file node,
      then walks the rest. */
  lemma WalkFileStep(items: seq<Item>, parent: ItemId, es: seq<Element>, dir: Path, at: Option<nat>, polls: nat)
    requires parent < |items| && es != [] && !CanceledAt(at, polls) && EqualsIgnoreCase(es[0].name, "File")
    ensures WalkF(items, parent, es, dir, at, polls)
      == WalkF(items + [FileNode(FilePath(dir, es[0]), parent)], parent, es[1..], dir, at, polls + 1)
  {
  }

  // ---------------------------------------------------------------------
  // What a file list yields

  /** The kind and name of each node, in order. */
  function Labels(s: seq<Item>): (ls: seq<(ItemKind, string)>)
    ensures |ls| == |s|
  {
    if s == [] then [] else [(s[0].kind, s[0].text)] + Labels(s[1..])
  }

  /** The nodes a file list yields when nothing interrupts it, in document
      order, for a walk into `parent` whose first node gets id `base`: a file
      node per `File` element, under `parent` and at the element's path; a
      filter node per `Filter` element, under `parent`, followed right away
      by the nodes of the filter's contents, which hang under that filter. */
  function FileListNodes(es: seq<Element>, dir: Path, parent: ItemId, base: nat): seq<Item>
    decreases es
  {
    if es == [] then []
    else if EqualsIgnoreCase(es[0].name, "File") then
      [FileNode(FilePath(dir, es[0]), parent)] + FileListNodes(es[1..], dir, parent, base + 1)
    else if EqualsIgnoreCase(es[0].name, "Filter") then
      var inner := FileListNodes(es[0].children, dir, base, base + 1);
      [FilterNode(Attr(es[0], "Name"), parent)] + inner + FileListNodes(es[1..], dir, parent, base + 1 + |inner|)
    else FileListNodes(es[1..], dir, parent, base)
  }

  /** The nodes a walk appended. */
  function Added(items: seq<Item>, r: Walk): seq<Item>
    requires |items| <= |r.items|
  {
    r.items[|items|..]
  }

  /** Without cancellation the walk appends exactly the nodes of the file
      list, in document order, each with its name, path and parent. */
  lemma {:induction false} WalkListing(items: seq<Item>, parent: ItemId, es: seq<Element>, dir: Path, polls: nat)
    requires parent < |items|
    ensures Added(items, WalkF(items, parent, es, dir, None, polls)) == FileListNodes(es, dir, parent, |items|)
    decreases es, 1
  {
    if es == [] {
      assert Added(items, WalkF(items, parent, es, dir, None, polls)) == [];
    } else if EqualsIgnoreCase(es[0].name, "File") {
      var node := FileNode(FilePath(dir, es[0]), parent);
      assert Added(items + [node], WalkF(items + [node], parent, es[1..], dir, None, polls + 1))
        == FileListNodes(es[1..], dir, parent, |items| + 1) by {
        WalkListing(items + [node], parent, es[1..], dir, polls + 1);
      }
      ListingFileStep(items, parent, es, dir, polls);
    } else if EqualsIgnoreCase(es[0].name, "Filter") {
      WalkListingFilter(items, parent, es, dir, polls);
    } else {
      WalkListing(items, parent, es[1..], dir, polls + 1);
    }
  }

  /** The `Filter` case of the above. */
  lemma {:induction false} WalkListingFilter(items: seq<Item>, parent: ItemId, es: seq<Element>, dir: Path, polls: nat)
    requires parent < |items| && es != [] && !EqualsIgnoreCase(es[0].name, "File") && EqualsIgnoreCase(es[0].name, "Filter")
    ensures Added(items, WalkF(items, parent, es, dir, None, polls)) == FileListNodes(es, dir, parent, |items|)
    decreases es, 0
  {
    var node := FilterNode(Attr(es[0], "Name"), parent);
    var inner := WalkF(items + [node], |items|, es[0].children, dir, None, polls + 1);
    var rest := WalkF(inner.items, parent, es[1..], dir, None, inner.polls);
    var innerNodes := FileListNodes(es[0].children, dir, |items|, |items| + 1);
    var restNodes := FileListNodes(es[1..], dir, parent, |inner.items|);
    assert Added(items + [node], inner) == innerNodes by {
      WalkListing(items + [node], |items|, es[0].children, dir, polls + 1);
    }
    assert Added(items, WalkF(items, parent, es, dir, None, polls)) == [node] + innerNodes + restNodes by {
      assert Added(inner.items, rest) == restNodes by {
        WalkListing(inner.items, parent, es[1..], dir, inner.polls);
      }
      ListingFilterStep(items, parent, es, dir, polls);
    }
    assert FileListNodes(es, dir, parent, |items|) == [node] + innerNodes + restNodes by {
      assert |inner.items| == |items| + 1 + |innerNodes|;
      FileListFilterStep(es, dir, parent, |items|);
    }
  }

  /** The `Filter` case of `FileListNodes`. */
  lemma FileListFilterStep(es: seq<Element>, dir: Path, parent: ItemId, base: nat)
    requires es != [] && !EqualsIgnoreCase(es[0].name, "File") && EqualsIgnoreCase(es[0].name, "Filter")
    ensures var inner := FileListNodes(es[0].children, dir, base, base + 1);
      FileListNodes(es, dir, parent, base)
      == [FilterNode(Attr(es[0], "Name"), parent)] + inner + FileListNodes(es[1..], dir, parent, base + 1 + |inner|)
  {
  }

  lemma ListingFileStep(items: seq<Item>, parent: ItemId, es: seq<Element>, dir: Path, polls: nat)
    requires parent < |items| && es != [] && EqualsIgnoreCase(es[0].name, "File")
    ensures var node := FileNode(FilePath(dir, es[0]), parent);
      Added(items, WalkF(items, parent, es, dir, None, polls))
      == [node] + Added(items + [node], WalkF(items + [node], parent, es[1..], dir, None, polls + 1))
  {
    var node := FileNode(FilePath(dir, es[0]), parent);
    var r := WalkF(items + [node], parent, es[1..], dir, None, polls + 1);
    assert WalkF(items, parent, es, dir, None, polls) == r by {
      WalkFileStep(items, parent, es, dir, None, polls);
    }
    assert r.items[|items|] == node by {
      assert r.items[..|items| + 1] == items + [node];
      assert r.items[|items|] == r.items[..|items| + 1][|items|];
    }
    assert r.items[|items|..] == [r.items[|items|]] + r.items[|items| + 1..];
  }

  lemma ListingFilterStep(items: seq<Item>, parent: ItemId, es: seq<Element>, dir: Path, polls: nat)
    requires parent < |items| && es != [] && !EqualsIgnoreCase(es[0].name, "File") && EqualsIgnoreCase(es[0].name, "Filter")
    ensures var node := FilterNode(Attr(es[0], "Name"), parent);
      var inner := WalkF(items + [node], |items|, es[0].children, dir, None, polls + 1);
      var rest := WalkF(inner.items, parent, es[1..], dir, None, inner.polls);
      Added(items, WalkF(items, parent, es, dir, None, polls))
      == [node] + Added(items + [node], inner) + Added(inner.items, rest)
  {
    var node := FilterNode(Attr(es[0], "Name"), parent);
    var inner := WalkF(items + [node], |items|, es[0].children, dir, None, polls + 1);
    var rest := WalkF(inner.items, parent, es[1..], dir, None, inner.polls);
    assert WalkF(items, parent, es, dir, None, polls).items == rest.items;
    ChainSlices(items, node, inner.items, rest.items);
  }

  /** A walk's own node, then what its nested walk appended, then what the
      following walk appended. */
  lemma ChainSlices(a: seq<Item>, node: Item, b: seq<Item>, c: seq<Item>)
    requires |a| + 1 <= |b| <= |c| && b[..|a| + 1] == a + [node] && c[..|b|] == b
    ensures c[|a|..] == [node] + b[|a| + 1..] + c[|b|..]
  {
    var lhs := c[|a|..];
    var rhs := [node] + b[|a| + 1..] + c[|b|..];
    assert |lhs| == |rhs|;
    forall j | 0 <= j < |lhs|
      ensures lhs[j] == rhs[j]
    {
      if j == 0 {
        assert c[|a|] == b[|a|] == (a + [node])[|a|];
      } else if |a| + j < |b| {
        assert c[|a| + j] == c[..|b|][|a| + j];
      }
    }
  }

  /** A `Filter` element the walk reaches unflagged appends its filter,
      walks its children under it, then walks the rest. */
  lemma WalkFilterStep(items: seq<Item>, parent: ItemId, es: seq<Element>, dir: Path, at: Option<nat>, polls: nat)
    requires parent < |items| && es != [] && !CanceledAt(at, polls)
    requires !EqualsIgnoreCase(es[0].name, "File") && EqualsIgnoreCase(es[0].name, "Filter")
    ensures var node := FilterNode(Attr(es[0], "Name"), parent);
      var inner := WalkF(items + [node], |items|, es[0].children, dir, at, polls + 1);
      var rest := WalkF(inner.items, parent, es[1..], dir, at, inner.polls);
      WalkF(items, parent, es, dir, at, polls) == Walk(rest.items, rest.polls, inner.stopped || rest.stopped)
  {
  }

  /** Cancellation only cuts the walk short: a walk that saw the flag
      raised has appended a prefix of what the uninterrupted walk appends,
      and one that did not is the uninterrupted walk. */
  lemma {:induction false} CancelOnlyTruncates(items: seq<Item>, parent: ItemId, es: seq<Element>, dir: Path, n: nat, polls: nat)
    requires parent < |items|
    ensures var a := WalkF(items, parent, es, dir, Some(n), polls);
      var b := WalkF(items, parent, es, dir, None, polls);
      (!a.stopped ==> a.items == b.items && a.polls == b.polls)
      && (a.stopped ==> a.items <= b.items)
    decreases es, 1
  {
    if es == [] || CanceledAt(Some(n), polls) {
    } else if EqualsIgnoreCase(es[0].name, "File") {
      CancelOnlyTruncates(items + [FileNode(FilePath(dir, es[0]), parent)], parent, es[1..], dir, n, polls + 1);
    } else if EqualsIgnoreCase(es[0].name, "Filter") {
      CancelFilterTruncates(items, parent, es, dir, n, polls);
    } else {
      CancelOnlyTruncates(items, parent, es[1..], dir, n, polls + 1);
    }
  }

  /** The `Filter` case of the above. */
  lemma {:induction false} CancelFilterTruncates(items: seq<Item>, parent: ItemId, es: seq<Element>, dir: Path, n: nat, polls: nat)
    requires parent < |items| && es != [] && !CanceledAt(Some(n), polls)
    requires !EqualsIgnoreCase(es[0].name, "File") && EqualsIgnoreCase(es[0].name, "Filter")
    ensures var a := WalkF(items, parent, es, dir, Some(n), polls);
      var b := WalkF(items, parent, es, dir, None, polls);
      (!a.stopped ==> a.items == b.items && a.polls == b.polls)
      && (a.stopped ==> a.items <= b.items)
    decreases es, 0
  {
    var a := WalkF(items, parent, es, dir, Some(n), polls);
    var b := WalkF(items, parent, es, dir, None, polls);
    var node := FilterNode(Attr(es[0], "Name"), parent);
    var ia := WalkF(items + [node], |items|, es[0].children, dir, Some(n), polls + 1);
    var ib := WalkF(items + [node], |items|, es[0].children, dir, None, polls + 1);
    WalkFilterStep(items, parent, es, dir, Some(n), polls);
    WalkFilterStep(items, parent, es, dir, None, polls);
    CancelOnlyTruncates(items + [node], |items|, es[0].children, dir, n, polls + 1);
    if !ia.stopped {
      CancelOnlyTruncates(ia.items, parent, es[1..], dir, n, ia.polls);
    } else {
      assert CanceledAt(Some(n), ia.polls);
      assert a.items == ia.items;
      var rb := WalkF(ib.items, parent, es[1..], dir, None, ib.polls);
      assert b.items == rb.items && ib.items <= rb.items;
    }
  }

  // ---------------------------------------------------------------------
  // Targets

  /** The targets a project gets for its configuration type. The case for
      an unknown or generic project falls through into the application
      case, so such a project gets a plain target and an executable one. */
  function TargetKinds(t: TargetType): (ks: seq<ItemKind>)
    ensures |ks| == (if t == Unknown || t == Generic then 2 else 1)
    ensures ks[|ks| - 1] == (if t == DynamicLibrary || t == StaticLibrary then LibraryTargetItem else ExecutableTargetItem)
    ensures (TargetItem in ks) <==> t == Unknown || t == Generic
  {
    match t
    case Unknown => [TargetItem, ExecutableTargetItem]
    case Generic => [TargetItem, ExecutableTargetItem]
    case Application => [ExecutableTargetItem]
    case DynamicLibrary => [LibraryTargetItem]
    case StaticLibrary => [LibraryTargetItem]
  }

  /** Target nodes of the given kinds, each named `name`, under `proj`. */
  function TargetNodes(ks: seq<ItemKind>, name: string, proj: ItemId): (r: seq<Item>)
    ensures |r| == |ks|
  {
    seq(|ks|, k requires 0 <= k < |ks| => Item(ks[k], name, Invalid, Some(proj)))
  }

  /** Appends the targets of a project of type `t`. */
  method AddTargets(tree: ProjectTree, proj: ItemId, name: string, t: TargetType)
    requires tree.Valid() && proj < |tree.items|
    modifies tree
    ensures tree.items == old(tree.items) + TargetNodes(TargetKinds(t), name, proj)
    ensures tree.Valid()
  {
    if t == Unknown || t == Generic {
      var target := tree.Add(TargetItem, name, Invalid, Some(proj));
    }
    if t == DynamicLibrary || t == StaticLibrary {
      var library := tree.Add(LibraryTargetItem, name, Invalid, Some(proj));
    } else {
      var executable := tree.Add(ExecutableTargetItem, name, Invalid, Some(proj));
    }
    assert TargetNodes(TargetKinds(t), name, proj) == seq(|TargetKinds(t)|, k requires 0 <= k < |TargetKinds(t)| => Item(TargetKinds(t)[k], name, Invalid, Some(proj)));
  }

  // ---------------------------------------------------------------------
  // The `VisualStudioProject` element

  /** The `Configuration` children of a `Configurations` element, decoded,
      in document order. */
  function ConfigsOf(ccs: seq<Element>): seq<Config>
    decreases |ccs|
  {
    if ccs == [] then []
    else ConfigsOf(ccs[..|ccs| - 1]) + (if ccs[|ccs| - 1].name == "Configuration" then [ConfigOf(ccs[|ccs| - 1])] else [])
  }

  /** The nodes after project `proj` has added the configurations `cs`. */
  function WithConfigs(items: seq<Item>, proj: ItemId, cs: seq<Config>): (r: seq<Item>)
    requires IsProject(items, proj)
    ensures |r| == |items| && IsProject(r, proj) && (WellFormed(items) ==> WellFormed(r))
    ensures KeepsOthers(items, r, proj)
  {
    items[proj := items[proj].(kind := items[proj].kind.(store := WithConfigurations(items[proj].kind.store, cs)))]
  }

  /** The body of the project element: each `Files` child (in any letter
      case) is walked into the project, each `Configurations` child adds its
      configurations; reading ends once a walk has stopped on cancellation.
      Other children are passed over. */
  function BodyF(items: seq<Item>, proj: ItemId, cs: seq<Element>, dir: Path, at: Option<nat>, polls: nat): (r: Walk)
    requires WellFormed(items) && IsProject(items, proj)
    ensures WellFormed(r.items) && IsProject(r.items, proj) && KeepsOthers(items, r.items, proj)
    decreases |cs|
  {
    if cs == [] then Walk(items, polls, false)
    else if EqualsIgnoreCase(cs[0].name, "Files") then
      var w := WalkF(items, proj, cs[0].children, dir, at, polls);
      AppendedBelowWellFormed(items, w.items, proj);
      assert w.items[proj] == w.items[..|items|][proj];
      assert KeepsOthers(items, w.items, proj) by {
        forall i | 0 <= i < |items| && i != proj
          ensures w.items[i] == items[i]
        {
          assert w.items[i] == w.items[..|items|][i];
        }
      }
      if w.stopped then w
      else
        var rest := BodyF(w.items, proj, cs[1..], dir, at, w.polls);
        assert KeepsOthers(items, rest.items, proj) by { KeepsOthersChain(items, w.items, rest.items, proj); }
        rest
    else if cs[0].name == "Configurations" then
      var c := WithConfigs(items, proj, ConfigsOf(cs[0].children));
      var rest := BodyF(c, proj, cs[1..], dir, at, polls);
      assert KeepsOthers(items, rest.items, proj) by { KeepsOthersChain(items, c, rest.items, proj); }
      rest
    else BodyF(items, proj, cs[1..], dir, at, polls)
  }

  /** The project renamed after `Name` when the host accepts the new name,
      with its uuid set from `ProjectGUID`. */
  function Header(items: seq<Item>, proj: ItemId, e: Element, renameStatus: RenameStatus): (r: seq<Item>)
    requires IsProject(items, proj)
    ensures |r| == |items| && IsProject(r, proj) && (WellFormed(items) ==> WellFormed(r))
    ensures KeepsOthers(items, r, proj)
  {
    var named := if renameStatus == RenameOk then items[proj := items[proj].(text := Attr(e, "Name"))] else items;
    named[proj := named[proj].(kind := named[proj].kind.(uuid := Attr(e, "ProjectGUID")))]
  }

  /** Reading a `VisualStudioProject` element into project `proj`: the
      header, the body, then the targets chosen by the current
      configuration, named after the `Name` attribute. */
  function ProjectF(items: seq<Item>, proj: ItemId, e: Element, dir: Path, at: Option<nat>, polls: nat,
                    renameStatus: RenameStatus): (r: Walk)
    requires WellFormed(items) && IsProject(items, proj)
    ensures WellFormed(r.items) && IsProject(r.items, proj) && KeepsOthers(items, r.items, proj)
  {
    var h := Header(items, proj, e, renameStatus);
    var b := BodyF(h, proj, e.children, dir, at, polls);
    var t := CurrentConfig(b.items[proj].kind.store).configurationType;
    var r := b.items + TargetNodes(TargetKinds(t), Attr(e, "Name"), proj);
    assert r[proj] == b.items[proj];
    assert KeepsOthers(items, r, proj) by {
      KeepsOthersChain(items, h, b.items, proj);
      assert KeepsOthers(b.items, r, proj);
      KeepsOthersChain(items, b.items, r, proj);
    }
    Walk(r, b.polls, b.stopped)
  }

  lemma WithConfigsSnoc(items: seq<Item>, proj: ItemId, cs: seq<Config>, c: Config)
    requires IsProject(items, proj)
    ensures var w := WithConfigs(items, proj, cs);
      WithConfigs(items, proj, cs + [c]) == w[proj := w[proj].(kind := w[proj].kind.(store := WithConfiguration(w[proj].kind.store, c)))]
  {
    assert (cs + [c])[..|cs|] == cs;
  }

  lemma ConfigsOfSnoc(ccs: seq<Element>, k: nat)
    requires k < |ccs|
    ensures ConfigsOf(ccs[..k + 1]) == ConfigsOf(ccs[..k]) + (if ccs[k].name == "Configuration" then [ConfigOf(ccs[k])] else [])
  {
    assert ccs[..k + 1][..k] == ccs[..k] && ccs[..k + 1][k] == ccs[k];
  }

  /** Reads the `Configuration` children of a `Configurations` element into
      project `proj`, in document order. */
  method ParseConfigurations(tree: ProjectTree, proj: ItemId, ccs: seq<Element>)
    requires tree.Valid() && IsProject(tree.items, proj)
    modifies tree
    ensures tree.items == WithConfigs(old(tree.items), proj, ConfigsOf(ccs)) && tree.Valid()
  {
    ghost var start := tree.items;
    var k := 0;
    while k < |ccs|
      invariant 0 <= k <= |ccs| && tree.Valid() && IsProject(tree.items, proj)
      invariant tree.items == WithConfigs(start, proj, ConfigsOf(ccs[..k]))
    {
      ParseConfigurationAt(tree, proj, start, ccs, k);
      k := k + 1;
    }
    assert ccs[..|ccs|] == ccs;
  }

  /** One element of a `Configurations` list: a `Configuration` is parsed
      and added to the project, anything else is passed over. */
  method ParseConfigurationAt(tree: ProjectTree, proj: ItemId, ghost start: seq<Item>, ccs: seq<Element>, k: nat)
    requires tree.Valid() && IsProject(start, proj) && k < |ccs|
    requires tree.items == WithConfigs(start, proj, ConfigsOf(ccs[..k]))
    modifies tree
    ensures tree.items == WithConfigs(start, proj, ConfigsOf(ccs[..k + 1])) && tree.Valid()
  {
    ConfigurationsStep(start, proj, ccs, k);
    if ccs[k].name == "Configuration" {
      var cfg := ParseConfig(ccs[k]);
      tree.AddConfiguration(proj, cfg);
    }
  }

  /** One more element of a `Configurations` list: a `Configuration` adds
      its configuration to the project, anything else changes nothing. */
  lemma ConfigurationsStep(items: seq<Item>, proj: ItemId, ccs: seq<Element>, k: nat)
    requires IsProject(items, proj) && k < |ccs|
    ensures var w := WithConfigs(items, proj, ConfigsOf(ccs[..k]));
      WithConfigs(items, proj, ConfigsOf(ccs[..k + 1]))
      == if ccs[k].name == "Configuration"
         then w[proj := w[proj].(kind := w[proj].kind.(store := WithConfiguration(w[proj].kind.store, ConfigOf(ccs[k]))))]
         else w
  {
    ConfigsOfSnoc(ccs, k);
    if ccs[k].name == "Configuration" {
      WithConfigsSnoc(items, proj, ConfigsOf(ccs[..k]), ConfigOf(ccs[k]));
    } else {
      assert ConfigsOf(ccs[..k]) + [] == ConfigsOf(ccs[..k]);
    }
  }

  /** Reads a `VisualStudioProject` element into project `proj`
      (`parseVisualStudioProject`); reports whether a file list stopped on
      cancellation. */
  method ParseVisualStudioProject(tree: ProjectTree, flag: CancelFlag, proj: ItemId, e: Element, dir: Path,
                                  renameStatus: RenameStatus) returns (stopped: bool)
    requires tree.Valid() && IsProject(tree.items, proj)
    modifies tree, flag
    ensures Walk(tree.items, flag.polls, stopped) == ProjectF(old(tree.items), proj, e, dir, flag.at, old(flag.polls), renameStatus)
    ensures tree.Valid()
  {
    var projectName := Attr(e, "Name");
    var status := tree.Rename(proj, projectName, renameStatus);
    tree.SetUuid(proj, Attr(e, "ProjectGUID"));
    assert tree.items == Header(old(tree.items), proj, e, renameStatus);
    stopped := ParseBody(tree, flag, proj, e.children, dir);
    var config := tree.CurrentConfigOf(proj);
    AddTargets(tree, proj, projectName, config.configurationType);
  }

  /** The children of a `VisualStudioProject` element, until a file list
      stops on cancellation. */
  method ParseBody(tree: ProjectTree, flag: CancelFlag, proj: ItemId, cs: seq<Element>, dir: Path)
    returns (stopped: bool)
    requires tree.Valid() && IsProject(tree.items, proj)
    modifies tree, flag
    ensures Walk(tree.items, flag.polls, stopped) == BodyF(old(tree.items), proj, cs, dir, flag.at, old(flag.polls))
    ensures tree.Valid() && IsProject(tree.items, proj)
  {
    ghost var body := BodyF(tree.items, proj, cs, dir, flag.at, flag.polls);
    stopped := false;
    var i := 0;
    while i < |cs| && !stopped
      invariant 0 <= i <= |cs| && tree.Valid() && IsProject(tree.items, proj)
      invariant stopped ==> Walk(tree.items, flag.polls, true) == body
      invariant !stopped ==> BodyF(tree.items, proj, cs[i..], dir, flag.at, flag.polls) == body
    {
      var c := cs[i];
      assert cs[i..][0] == c && cs[i..][1..] == cs[i + 1..];
      if EqualsIgnoreCase(c.name, "Files") {
        ghost var before := tree.items;
        stopped := ParseFileList(tree, flag, proj, c.children, dir);
        assert tree.items[proj] == tree.items[..|before|][proj];
      } else if c.name == "Configurations" {
        ParseConfigurations(tree, proj, c.children);
      }
      i := i + 1;
    }
    if !stopped {
      assert cs[i..] == [];
    }
  }

  /** Reading the top-level elements of a `.vcproj` into project `proj`:
      each `VisualStudioProject` element (in any letter case) is read, the
      others are passed over. */
  function RootsF(items: seq<Item>, proj: ItemId, roots: seq<Element>, dir: Path, at: Option<nat>, polls: nat,
                  renameStatus: RenameStatus): (r: Walk)
    requires WellFormed(items) && IsProject(items, proj)
    ensures WellFormed(r.items) && IsProject(r.items, proj) && KeepsOthers(items, r.items, proj)
    decreases |roots|
  {
    if roots == [] then Walk(items, polls, false)
    else
      var w := if EqualsIgnoreCase(roots[0].name, "VisualStudioProject")
               then ProjectF(items, proj, roots[0], dir, at, polls, renameStatus)
               else Walk(items, polls, false);
      var rest := RootsF(w.items, proj, roots[1..], dir, at, w.polls, renameStatus);
      assert KeepsOthers(items, rest.items, proj) by { KeepsOthersChain(items, w.items, rest.items, proj); }
      Walk(rest.items, rest.polls, w.stopped || rest.stopped)
  }

  /** What the `.vcproj` reader makes of `roots`: a new project node for
      the file after `items`, then its top-level elements read into it. */
  function VcProjF(items: seq<Item>, projectPath: Path, roots: seq<Element>, at: Option<nat>, polls: nat,
                   renameStatus: RenameStatus): (r: Walk)
    requires WellFormed(items)
    ensures WellFormed(r.items) && IsProject(r.items, |items|) && |items| < |r.items|
  {
    var start := items + [ProjectNode(projectPath, None)];
    assert WellFormed(start) by {
      forall i | 0 <= i < |start| && start[i].parent.Some?
        ensures start[i].parent.value < i
      {
        assert i < |items| && start[i] == items[i];
      }
    }
    RootsF(start, |items|, roots, Parent(projectPath), at, polls, renameStatus)
  }

  /** The `.vcproj` reader (`MsvcVcProjParser::parse`): a new project node
      for the file, then its top-level elements. It always yields the
      project. */
  method ParseVcProj(tree: ProjectTree, flag: CancelFlag, projectPath: Path, roots: seq<Element>,
                     renameStatus: RenameStatus) returns (proj: ItemId)
    requires tree.Valid()
    modifies tree, flag
    ensures proj == |old(tree.items)|
    ensures var r := VcProjF(old(tree.items), projectPath, roots, flag.at, old(flag.polls), renameStatus);
      tree.items == r.items && flag.polls == r.polls
    ensures tree.Valid() && IsProject(tree.items, proj)
  {
    proj := tree.NewProject(projectPath, None);
    ParseRoots(tree, flag, proj, roots, Parent(projectPath), renameStatus);
  }

  /** The top-level elements of a `.vcproj`, read into project `proj`. */
  method ParseRoots(tree: ProjectTree, flag: CancelFlag, proj: ItemId, roots: seq<Element>, dir: Path,
                    renameStatus: RenameStatus)
    requires tree.Valid() && IsProject(tree.items, proj)
    modifies tree, flag
    ensures var r := RootsF(old(tree.items), proj, roots, dir, flag.at, old(flag.polls), renameStatus);
      tree.items == r.items && flag.polls == r.polls
    ensures tree.Valid() && IsProject(tree.items, proj)
  {
    ghost var whole := RootsF(tree.items, proj, roots, dir, flag.at, flag.polls, renameStatus);
    var i := 0;
    while i < |roots|
      invariant 0 <= i <= |roots| && tree.Valid() && IsProject(tree.items, proj)
      invariant var r := RootsF(tree.items, proj, roots[i..], dir, flag.at, flag.polls, renameStatus);
        r.items == whole.items && r.polls == whole.polls
    {
      assert roots[i..][0] == roots[i] && roots[i..][1..] == roots[i + 1..];
      if EqualsIgnoreCase(roots[i].name, "VisualStudioProject") {
        var stopped := ParseVisualStudioProject(tree, flag, proj, roots[i], dir, renameStatus);
      }
      i := i + 1;
    }
  }

  // ---------------------------------------------------------------------
  // Properties of the project reader

  /** The configurations the body adds, in document order. */
  function AllConfigs(cs: seq<Element>): seq<Config>
    decreases |cs|
  {
    if cs == [] then []
    else (if cs[0].name == "Configurations" then ConfigsOf(cs[0].children) else []) + AllConfigs(cs[1..])
  }

  /** Without cancellation the body leaves the project node as it was except
      that every configuration of every `Configurations` child has been
      added to its store, in document order. */
  lemma {:induction false} BodyConfigurations(items: seq<Item>, proj: ItemId, cs: seq<Element>, dir: Path, polls: nat)
    requires WellFormed(items) && IsProject(items, proj)
    ensures BodyF(items, proj, cs, dir, None, polls).items[proj]
            == items[proj].(kind := items[proj].kind.(store := WithConfigurations(items[proj].kind.store, AllConfigs(cs))))
    decreases |cs|
  {
    var st := items[proj].kind.store;
    if cs == [] {
    } else if EqualsIgnoreCase(cs[0].name, "Files") {
      var w := WalkF(items, proj, cs[0].children, dir, None, polls);
      AppendedBelowWellFormed(items, w.items, proj);
      assert w.items[proj] == w.items[..|items|][proj];
      assert cs[0].name != "Configurations";
      assert AllConfigs(cs) == AllConfigs(cs[1..]);
      assert !w.stopped;
      assert BodyF(items, proj, cs, dir, None, polls) == BodyF(w.items, proj, cs[1..], dir, None, w.polls);
      BodyConfigurations(w.items, proj, cs[1..], dir, w.polls);
    } else if cs[0].name == "Configurations" {
      var cfgs := ConfigsOf(cs[0].children);
      BodyConfigurations(WithConfigs(items, proj, cfgs), proj, cs[1..], dir, polls);
      WithConfigurationsSplit(st, cfgs, AllConfigs(cs[1..]));
    } else {
      assert AllConfigs(cs) == AllConfigs(cs[1..]);
      BodyConfigurations(items, proj, cs[1..], dir, polls);
    }
  }

  /** The type that decides a new project's targets: that of the record
      filed under the first configuration's key (the last one listed under
      it), or `Unknown` when the project lists no configuration. */
  function DecidingType(cs: seq<Config>): TargetType
  {
    if cs == [] then Unknown
    else
      var last := LastWithKey(cs, ConfigKey(cs[0]));
      if last.Some? then last.value.configurationType else Unknown
  }

  /** A freshly created project read without cancellation: its uuid comes
      from `ProjectGUID`, its name from `Name` when the host accepts the
      rename, and its last nodes are the targets for the deciding type. */
  lemma ProjectOutcome(items: seq<Item>, proj: ItemId, e: Element, dir: Path, polls: nat, renameStatus: RenameStatus)
    requires WellFormed(items) && IsProject(items, proj) && items[proj].kind.store == EmptyStore
    ensures var r := ProjectF(items, proj, e, dir, None, polls, renameStatus).items;
      var ks := TargetKinds(DecidingType(AllConfigs(e.children)));
      r[proj].kind.uuid == Attr(e, "ProjectGUID")
      && r[proj].text == (if renameStatus == RenameOk then Attr(e, "Name") else items[proj].text)
      && |r| >= |ks| && r[|r| - |ks|..] == TargetNodes(ks, Attr(e, "Name"), proj)
  {
    var h := Header(items, proj, e, renameStatus);
    BodyConfigurations(h, proj, e.children, dir, polls);
    var b := BodyF(h, proj, e.children, dir, None, polls);
    var cs := AllConfigs(e.children);
    if cs == [] {
      assert WithConfigurations(EmptyStore, cs) == EmptyStore;
      EmptyStoreValid();
    } else {
      FirstConfigurationStaysCurrent(cs);
    }
    var ks := TargetKinds(DecidingType(cs));
    var r := b.items + TargetNodes(ks, Attr(e, "Name"), proj);
    assert r[|r| - |ks|..] == TargetNodes(ks, Attr(e, "Name"), proj);
  }

  // ---------------------------------------------------------------------
  // The `.filters` file of a `.vcxproj`

  /** The companion file: the project file's name with ".filters" added. */
  function FiltersPath(p: Path): (q: Path)
    ensures q.Path? ==> Parent(q) == Parent(p) && LastSegment(q) == LastSegment(p) + ".filters"
    ensures IsLocalFile(q) <==> IsLocalFile(p)
  {
    WithLastSegment(p, LastSegment(p) + ".filters")
  }

  /** The item elements that declare source files. */
  predicate IsSourceItem(name: string)
  {
    name == "ClInclude" || name == "ClCompile" || name == "ResourceCompile" || name == "Text"
  }

  /** A filter node below the project. */
  predicate FilterBelow(items: seq<Item>, j: ItemId, proj: ItemId)
    requires WellFormed(items)
  {
    j < |items| && items[j].kind.FilterItem? && IsDescendant(items, j, proj)
  }

  /** A nested element that names a filter the search finds. */
  predicate Found(items: seq<Item>, proj: ItemId, c: Element)
    requires WellFormed(items) && proj < |items|
  {
    c.name == "Filter" && FindFilter(items, proj, c.text).Some?
  }

  /** The node a source item goes under: starting from `cur`, each nested
      `Filter` element whose text names a filter the search finds moves it
      to that filter. */
  function FileParentF(items: seq<Item>, proj: ItemId, cs: seq<Element>, cur: ItemId): (p: ItemId)
    requires WellFormed(items) && proj < |items|
    requires cur == proj || FilterBelow(items, cur, proj)
    ensures p == proj || FilterBelow(items, p, proj)
    decreases |cs|
  {
    if cs == [] then cur
    else FileParentF(items, proj, cs[1..], if Found(items, proj, cs[0]) then FindFilter(items, proj, cs[0].text).value else cur)
  }

  /** When no nested filter is found the item stays where it started. */
  lemma {:induction false} NoneFoundStays(items: seq<Item>, proj: ItemId, cs: seq<Element>, cur: ItemId)
    requires WellFormed(items) && proj < |items|
    requires cur == proj || FilterBelow(items, cur, proj)
    requires forall l :: 0 <= l < |cs| ==> !Found(items, proj, cs[l])
    ensures FileParentF(items, proj, cs, cur) == cur
    decreases |cs|
  {
    if cs != [] {
      assert !Found(items, proj, cs[0]);
      assert forall l :: 0 <= l < |cs[1..]| ==> cs[1..][l] == cs[l + 1];
      NoneFoundStays(items, proj, cs[1..], cur);
    }
  }

  /** The last nested filter that is found wins. */
  lemma {:induction false} LastFoundWins(items: seq<Item>, proj: ItemId, cs: seq<Element>, cur: ItemId, k: nat)
    requires WellFormed(items) && proj < |items|
    requires cur == proj || FilterBelow(items, cur, proj)
    requires k < |cs| && Found(items, proj, cs[k])
    requires forall l :: k < l < |cs| ==> !Found(items, proj, cs[l])
    ensures FileParentF(items, proj, cs, cur) == FindFilter(items, proj, cs[k].text).value
    decreases |cs|
  {
    var next := if Found(items, proj, cs[0]) then FindFilter(items, proj, cs[0].text).value else cur;
    assert FileParentF(items, proj, cs, cur) == FileParentF(items, proj, cs[1..], next);
    var tail := cs[1..];
    if k == 0 {
      assert forall l :: 0 <= l < |tail| ==> !Found(items, proj, tail[l]) by {
        assert forall l :: 0 <= l < |tail| ==> tail[l] == cs[l + 1];
      }
      NoneFoundStays(items, proj, tail, next);
    } else {
      assert tail[k - 1] == cs[k];
      assert forall l :: k - 1 < l < |tail| ==> !Found(items, proj, tail[l]) by {
        assert forall l :: k - 1 < l < |tail| ==> tail[l] == cs[l + 1];
      }
      LastFoundWins(items, proj, tail, next, k - 1);
    }
  }

  /** The source file an item declares: its `Include` attribute with every
      '\' turned into '/', relative to the project file's directory. */
  function IncludePath(dir: Path, e: Element): Path
  {
    Resolve(dir, ReplaceChar(Attr(e, "Include"), '\\', '/'))
  }

  /** Nodes an item group appended: filters directly under the project, and
      files under the project or under a filter made before them. */
  predicate GroupAppended(items: seq<Item>, r: seq<Item>, proj: ItemId)
  {
    |items| <= |r| && r[..|items|] == items
    && forall j :: |items| <= j < |r| ==>
         (r[j].kind.FilterItem? && r[j].parent == Some(proj))
         || (r[j].kind.FileItem? && r[j].parent.Some? && r[j].parent.value < j
             && (r[j].parent.value == proj || r[r[j].parent.value].kind.FilterItem?))
  }

  lemma GroupChain(items: seq<Item>, b: seq<Item>, c: seq<Item>, proj: ItemId)
    requires GroupAppended(items, b, proj) && GroupAppended(b, c, proj)
    ensures GroupAppended(items, c, proj)
  {
    assert c[..|items|] == c[..|b|][..|items|];
    forall j | |items| <= j < |b| && c[j].parent.Some? && c[j].parent.value < j
      ensures c[c[j].parent.value] == b[b[j].parent.value]
    {
      assert c[j] == c[..|b|][j];
      assert c[c[j].parent.value] == c[..|b|][c[j].parent.value];
    }
  }

  /** The node an item-group element appends under project `proj`, if any. */
  function GroupNode(items: seq<Item>, proj: ItemId, e: Element, dir: Path): (r: Option<Item>)
    requires WellFormed(items) && proj < |items|
    ensures r.Some? ==> GroupAppended(items, items + [r.value], proj) && WellFormed(items + [r.value])
  {
    if e.name == "Filter" then Some(FilterNode(Attr(e, "Include"), proj))
    else if IsSourceItem(e.name) then
      var p := FileParentF(items, proj, e.children, proj);
      Some(FileNode(IncludePath(dir, e), p))
    else None
  }

  /** An item group read into project `proj` (`parseItemGroup`), element by
      element in document order. */
  function ItemGroupF(items: seq<Item>, proj: ItemId, es: seq<Element>, dir: Path): (r: seq<Item>)
    requires WellFormed(items) && proj < |items|
    ensures WellFormed(r) && GroupAppended(items, r, proj)
    decreases |es|
  {
    if es == [] then items
    else
      var n := GroupNode(items, proj, es[0], dir);
      var next := if n.Some? then items + [n.value] else items;
      var r := ItemGroupF(next, proj, es[1..], dir);
      GroupChain(items, next, r, proj);
      r
  }

  /** The kinds and names an item group yields, in document order: a filter
      per `Filter` element, a file per source item. */
  function GroupListing(es: seq<Element>, dir: Path): seq<(ItemKind, string)>
    decreases |es|
  {
    if es == [] then []
    else if es[0].name == "Filter" then [(FilterItem, Attr(es[0], "Include"))] + GroupListing(es[1..], dir)
    else if IsSourceItem(es[0].name) then [(FileItem, LastSegment(IncludePath(dir, es[0])))] + GroupListing(es[1..], dir)
    else GroupListing(es[1..], dir)
  }

  lemma {:induction false} ItemGroupListing(items: seq<Item>, proj: ItemId, es: seq<Element>, dir: Path)
    requires WellFormed(items) && proj < |items|
    ensures Labels(ItemGroupF(items, proj, es, dir)[|items|..]) == GroupListing(es, dir)
    decreases |es|
  {
    if es == [] {
      assert ItemGroupF(items, proj, es, dir)[|items|..] == [];
    } else {
      var n := GroupNode(items, proj, es[0], dir);
      var next := if n.Some? then items + [n.value] else items;
      var r := ItemGroupF(next, proj, es[1..], dir);
      var tail := GroupListing(es[1..], dir);
      assert ItemGroupF(items, proj, es, dir) == r by {
        ItemGroupStep(items, proj, es, dir);
      }
      assert Labels(r[|next|..]) == tail by {
        ItemGroupListing(next, proj, es[1..], dir);
      }
      assert GroupListing(es, dir) == (if n.Some? then [(n.value.kind, n.value.text)] else []) + tail by {
        GroupListingStep(items, proj, es, dir);
      }
      if n.Some? {
        ListingCons(items, n.value, r);
      } else {
        assert [] + tail == tail;
      }
    }
  }

  lemma ListingCons(items: seq<Item>, x: Item, r: seq<Item>)
    requires |items| + 1 <= |r| && r[..|items| + 1] == items + [x]
    ensures Labels(r[|items|..]) == [(x.kind, x.text)] + Labels(r[|items| + 1..])
  {
    assert r[|items|..] == [x] + r[|items| + 1..];
    assert ([x] + r[|items| + 1..])[1..] == r[|items| + 1..];
  }

  /** The first element of an item group lists the label of the node it
      appends, if any. */
  lemma GroupListingStep(items: seq<Item>, proj: ItemId, es: seq<Element>, dir: Path)
    requires WellFormed(items) && proj < |items| && es != []
    ensures var n := GroupNode(items, proj, es[0], dir);
      GroupListing(es, dir) == (if n.Some? then [(n.value.kind, n.value.text)] else []) + GroupListing(es[1..], dir)
  {
    if GroupNode(items, proj, es[0], dir).None? {
      assert [] + GroupListing(es[1..], dir) == GroupListing(es[1..], dir);
    }
  }

  /** The children of a filter file's `Project` element: each `ItemGroup`
      is read; nothing else is. */
  function ProjectGroupsF(items: seq<Item>, proj: ItemId, cs: seq<Element>, dir: Path): (r: seq<Item>)
    requires WellFormed(items) && proj < |items|
    ensures WellFormed(r) && GroupAppended(items, r, proj)
    decreases |cs|
  {
    if cs == [] then items
    else
      var next := if cs[0].name == "ItemGroup" then ItemGroupF(items, proj, cs[0].children, dir) else items;
      var r := ProjectGroupsF(next, proj, cs[1..], dir);
      GroupChain(items, next, r, proj);
      r
  }

  /** A filter file read into project `proj` (`parseFilterFile`): the
      children of each top-level `Project` element. */
  function FilterFileF(items: seq<Item>, proj: ItemId, roots: seq<Element>, dir: Path): (r: seq<Item>)
    requires WellFormed(items) && proj < |items|
    ensures WellFormed(r) && GroupAppended(items, r, proj)
    decreases |roots|
  {
    if roots == [] then items
    else
      var next := if roots[0].name == "Project" then ProjectGroupsF(items, proj, roots[0].children, dir) else items;
      var r := FilterFileF(next, proj, roots[1..], dir);
      GroupChain(items, next, r, proj);
      r
  }

  /** The first element of an item group appends its node, if any, and the
      rest is read after it. */
  lemma ItemGroupStep(items: seq<Item>, proj: ItemId, es: seq<Element>, dir: Path)
    requires WellFormed(items) && proj < |items| && es != []
    ensures var n := GroupNode(items, proj, es[0], dir);
      ItemGroupF(items, proj, es, dir) == ItemGroupF(if n.Some? then items + [n.value] else items, proj, es[1..], dir)
  {
  }

  /** The search over a source item's children for the filter it belongs
      to (inside `parseItemGroup`). */
  method FileParent(items: seq<Item>, proj: ItemId, cs: seq<Element>) returns (parent: ItemId)
    requires WellFormed(items) && proj < |items|
    ensures parent == FileParentF(items, proj, cs, proj)
  {
    parent := proj;
    var k := 0;
    while k < |cs|
      invariant 0 <= k <= |cs|
      invariant parent == proj || FilterBelow(items, parent, proj)
      invariant FileParentF(items, proj, cs[k..], parent) == FileParentF(items, proj, cs, proj)
    {
      var c := cs[k];
      assert cs[k..][0] == c && cs[k..][1..] == cs[k + 1..];
      if c.name == "Filter" {
        var found := FindFilter(items, proj, c.text);
        if found.Some? {
          parent := found.value;
        }
      }
      k := k + 1;
    }
    assert cs[k..] == [];
  }

  /** Reads an item group into project `proj` (`parseItemGroup`). */
  method ParseItemGroup(tree: ProjectTree, proj: ItemId, es: seq<Element>, dir: Path)
    requires tree.Valid() && proj < |tree.items|
    modifies tree
    ensures tree.items == ItemGroupF(old(tree.items), proj, es, dir) && tree.Valid()
  {
    var i := 0;
    while i < |es|
      invariant 0 <= i <= |es| && tree.Valid() && proj < |tree.items|
      invariant ItemGroupF(tree.items, proj, es[i..], dir) == ItemGroupF(old(tree.items), proj, es, dir)
    {
      assert es[i..][0] == es[i] && es[i..][1..] == es[i + 1..];
      ItemGroupStep(tree.items, proj, es[i..], dir);
      ParseGroupElement(tree, proj, es[i], dir);
      i := i + 1;
    }
  }

  /** One element of an item group: a `Filter` adds a filter under the
      project, a source item adds a file under the filter its children name,
      anything else is passed over. */
  method ParseGroupElement(tree: ProjectTree, proj: ItemId, e: Element, dir: Path)
    requires tree.Valid() && proj < |tree.items|
    modifies tree
    ensures var n := GroupNode(old(tree.items), proj, e, dir);
      tree.items == (if n.Some? then old(tree.items) + [n.value] else old(tree.items))
    ensures tree.Valid()
  {
    if e.name == "Filter" {
      var filter := tree.Add(FilterItem, Attr(e, "Include"), Invalid, Some(proj));
    } else if IsSourceItem(e.name) {
      var parent := FileParent(tree.items, proj, e.children);
      var path := IncludePath(dir, e);
      var file := tree.Add(FileItem, LastSegment(path), path, Some(parent));
    }
  }

  /** Reads the children of a filter file's `Project` element. */
  method ParseProjectGroups(tree: ProjectTree, proj: ItemId, cs: seq<Element>, dir: Path)
    requires tree.Valid() && proj < |tree.items|
    modifies tree
    ensures tree.items == ProjectGroupsF(old(tree.items), proj, cs, dir) && tree.Valid()
  {
    var k := 0;
    while k < |cs|
      invariant 0 <= k <= |cs| && tree.Valid() && proj < |tree.items|
      invariant ProjectGroupsF(tree.items, proj, cs[k..], dir) == ProjectGroupsF(old(tree.items), proj, cs, dir)
    {
      var c := cs[k];
      assert cs[k..][0] == c && cs[k..][1..] == cs[k + 1..];
      if c.name == "ItemGroup" {
        ParseItemGroup(tree, proj, c.children, dir);
      }
      k := k + 1;
    }
  }

  /** Reads a filter file into project `proj` (`parseFilterFile`). */
  method ParseFilterFile(tree: ProjectTree, proj: ItemId, roots: seq<Element>, dir: Path)
    requires tree.Valid() && proj < |tree.items|
    modifies tree
    ensures tree.items == FilterFileF(old(tree.items), proj, roots, dir) && tree.Valid()
  {
    var i := 0;
    while i < |roots|
      invariant 0 <= i <= |roots| && tree.Valid() && proj < |tree.items|
      invariant FilterFileF(tree.items, proj, roots[i..], dir) == FilterFileF(old(tree.items), proj, roots, dir)
    {
      var root := roots[i];
      assert roots[i..][0] == root && roots[i..][1..] == roots[i + 1..];
      if root.name == "Project" {
        ParseProjectGroups(tree, proj, root.children, dir);
      }
      i := i + 1;
    }
  }

  /** What the `.vcxproj` reader makes of the filter file `content`: a new
      project node for the file after `items`, then the filter file read
      into it. */
  function VcxProjF(items: seq<Item>, projectPath: Path, content: seq<Element>): (r: seq<Item>)
    requires WellFormed(items)
    ensures WellFormed(r) && IsProject(r, |items|) && |items| < |r|
  {
    var start := items + [ProjectNode(projectPath, None)];
    assert WellFormed(start) by {
      forall i | 0 <= i < |start| && start[i].parent.Some?
        ensures start[i].parent.value < i
      {
        assert i < |items| && start[i] == items[i];
      }
    }
    var r := FilterFileF(start, |items|, content, Parent(projectPath));
    assert r[|items|] == r[..|start|][|items|] == start[|items|];
    r
  }

  /** The `.vcxproj` reader (`MsvcVcxProjParser::parse`): the project file
      itself is not read, only its filter file. When the filter file cannot
      be opened there is no project, and no node is left behind. */
  method ParseVcxProj(tree: ProjectTree, projectPath: Path, files: map<Path, seq<Element>>) returns (proj: Option<ItemId>)
    requires tree.Valid()
    modifies tree
    ensures proj.None? <==> Open(files, FiltersPath(projectPath)).None?
    ensures proj.None? ==> tree.items == old(tree.items)
    ensures proj.Some? ==> (proj.value == |old(tree.items)|
      && tree.items == VcxProjF(old(tree.items), projectPath, Open(files, FiltersPath(projectPath)).value))
    ensures tree.Valid()
  {
    var filterFileName := FiltersPath(projectPath);
    var content := Open(files, filterFileName);
    if content.None? {
      return None;
    }
    var id := tree.NewProject(projectPath, None);
    ghost var created := tree.items;
    ParseFilterFile(tree, id, content.value, Parent(projectPath));
    assert tree.items[id] == tree.items[..|created|][id] == created[id];
    return Some(id);
  }

  // ---------------------------------------------------------------------
  // Running a parser

  datatype ProjectFormat = VcProjFormat | VcxProjFormat

  /** What a parser reports: canceled with no result, or the project. */
  datatype Outcome = Canceled | Finished(project: ItemId)

  /** A parser run (`MsvcProjectParser::run`): a project file that is not
      local or cannot be opened, and a `.vcxproj` without its filter file,
      end canceled with the nodes unchanged. Otherwise the project gets a
      file node for the project file itself, after everything else. */
  method Run(tree: ProjectTree, flag: CancelFlag, format: ProjectFormat, projectPath: Path,
             files: map<Path, seq<Element>>, renameStatus: RenameStatus) returns (outcome: Outcome)
    requires tree.Valid()
    modifies tree, flag
    ensures outcome.Canceled? <==> Open(files, projectPath).None?
                                   || (format == VcxProjFormat && Open(files, FiltersPath(projectPath)).None?)
    ensures outcome.Canceled? ==> tree.items == old(tree.items)
    ensures outcome.Finished? ==> (outcome.project == |old(tree.items)|
      && IsProject(tree.items, outcome.project)
      && tree.items[|tree.items| - 1] == FileNode(projectPath, outcome.project))
    ensures outcome.Finished? && format == VcProjFormat ==>
      tree.items == VcProjF(old(tree.items), projectPath, Open(files, projectPath).value, flag.at, old(flag.polls),
                            renameStatus).items + [FileNode(projectPath, outcome.project)]
    ensures outcome.Finished? && format == VcxProjFormat ==>
      tree.items == VcxProjF(old(tree.items), projectPath, Open(files, FiltersPath(projectPath)).value)
                    + [FileNode(projectPath, outcome.project)]
    ensures tree.Valid()
  {
    var content := Open(files, projectPath);
    if content.None? {
      return Canceled;
    }
    if format == VcProjFormat {
      var id := ParseVcProj(tree, flag, projectPath, content.value, renameStatus);
      ghost var parsed := tree.items;
      var file := tree.Add(FileItem, LastSegment(projectPath), projectPath, Some(id));
      assert tree.items[id] == parsed[id];
      outcome := Finished(id);
    } else {
      var result := ParseVcxProj(tree, projectPath, files);
      if result.None? {
        return Canceled;
      }
      ghost var parsed := tree.items;
      var file := tree.Add(FileItem, LastSegment(projectPath), projectPath, Some(result.value));
      assert tree.items[result.value] == parsed[result.value];
      outcome := Finished(result.value);
    }
  }
}
