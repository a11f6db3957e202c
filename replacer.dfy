/** Expansion of `$(Name)` macros in configuration values against a node of
    the project tree.

    The expansion is defined by mutually recursive functions that thread the
    five re-entrancy guards and carry a fuel bound: the source's expansion
    need not terminate (a template that refers to its own key twice recurses
    forever), so a result of `None` stands for "still expanding when the fuel
    ran out". The class `VariableReplacer` keeps the guards as fields and its
    methods are proved to compute exactly these functions. */
module Replacer {
  import opened Wrappers
  import opened Text
  import opened Paths
  import opened ProjectConfig
  import opened ModelItems

  // ---------------------------------------------------------------------
  // Tokens

  /** Length of the run of ASCII letters and digits starting at `i`. */
  function AlnumRun(s: string, i: nat): (n: nat)
    requires i <= |s|
    ensures i + n <= |s|
    ensures forall k :: i <= k < i + n ==> IsAsciiAlnum(s[k])
    ensures i + n < |s| ==> !IsAsciiAlnum(s[i + n])
    decreases |s| - i
  {
    if i == |s| || !IsAsciiAlnum(s[i]) then 0 else 1 + AlnumRun(s, i + 1)
  }

  /** A token `$(` letters-and-digits `)` starts at `p`. The run is maximal
      and must be followed by ')', so this is exactly where the pattern
      `\$\(([a-zA-Z0-9]+)\)` can match. */
  predicate TokenAt(s: string, p: nat)
  {
    p + 1 < |s| && s[p] == '$' && s[p + 1] == '('
    && AlnumRun(s, p + 2) >= 1 && p + 2 + AlnumRun(s, p + 2) < |s|
    && s[p + 2 + AlnumRun(s, p + 2)] == ')'
  }

  predicate NoToken(s: string)
  {
    forall p :: 0 <= p < |s| ==> !TokenAt(s, p)
  }

  /** A token: where it starts, where it ends (exclusive) and its name. */
  datatype Token = Token(start: nat, end: nat, name: string)

  /** The token that starts at `p`. */
  function TokenOf(s: string, p: nat): Token
    requires TokenAt(s, p)
  {
    var n := AlnumRun(s, p + 2);
    Token(p, p + 3 + n, s[p + 2..p + 2 + n])
  }

  /** The leftmost token at or after `p`. */
  function TokenFrom(s: string, p: nat): (t: Option<Token>)
    requires p <= |s|
    ensures t.Some? ==> p <= t.value.start && TokenAt(s, t.value.start) && t.value == TokenOf(s, t.value.start)
    ensures t.Some? ==> forall q :: p <= q < t.value.start ==> !TokenAt(s, q)
    ensures t.None? ==> forall q :: p <= q < |s| ==> !TokenAt(s, q)
    decreases |s| - p
  {
    if p == |s| then None
    else if TokenAt(s, p) then Some(TokenOf(s, p))
    else TokenFrom(s, p + 1)
  }

  /** The text of a token is "$(", its name and ")". */
  lemma TokenText(s: string, p: nat)
    requires TokenAt(s, p)
    ensures var n := AlnumRun(s, p + 2);
      s[p..p + 3 + n] == "$(" + s[p + 2..p + 2 + n] + ")"
  {
    var n := AlnumRun(s, p + 2);
    var name := s[p + 2..p + 2 + n];
    var tok := "$(" + name + ")";
    assert |tok| == n + 3;
    forall k | 0 <= k < n + 3
      ensures s[p..p + 3 + n][k] == tok[k]
    {
      if k >= 2 && k < n + 2 {
        assert tok[k] == name[k - 2];
      }
    }
  }

  /** The leftmost token of `s`; `None` exactly when `s` holds no token. */
  function FirstToken(s: string): (t: Option<Token>)
    ensures t.Some? ==> t.value.start < t.value.end <= |s|
  {
    TokenFrom(s, 0)
  }

  /** The first token is a token, and no token starts before it. */
  lemma FirstTokenLeftmost(s: string)
    requires FirstToken(s).Some?
    ensures TokenAt(s, FirstToken(s).value.start)
    ensures forall q :: 0 <= q < FirstToken(s).value.start ==> !TokenAt(s, q)
  {
  }

  /** The text of the first token is "$(", its name, then ")", and the
      name is a non-empty run of ASCII letters and digits. */
  lemma FirstTokenText(s: string)
    requires FirstToken(s).Some?
    ensures var t := FirstToken(s).value;
      s[t.start..t.end] == "$(" + t.name + ")"
      && |t.name| >= 1
      && (forall k :: 0 <= k < |t.name| ==> IsAsciiAlnum(t.name[k]))
  {
    var t := FirstToken(s).value;
    var a := t.start;
    var n := AlnumRun(s, a + 2);
    TokenText(s, a);
    assert t.end == a + 3 + n && t.name == s[a + 2..a + 2 + n];
    assert forall k :: 0 <= k < n ==> t.name[k] == s[a + 2 + k];
  }

  /** `FirstToken` finds nothing exactly when there is nothing to find. */
  lemma FirstTokenNone(s: string)
    ensures FirstToken(s).None? <==> NoToken(s)
  {
    var t := TokenFrom(s, 0);
    if t.Some? {
      assert TokenAt(s, t.value.start);
    }
  }

  // ---------------------------------------------------------------------
  // Guards

  datatype GuardKey = DirGuard | PathGuard | NameGuard | FileNameGuard | ExtGuard

  /** The five re-entrancy guards of the `Target*` keys. */
  datatype Guards = Guards(dir: bool, path: bool, name: bool, fileName: bool, ext: bool)

  const NoGuards: Guards := Guards(false, false, false, false, false)

  function Get(g: Guards, k: GuardKey): bool
  {
    match k
    case DirGuard => g.dir
    case PathGuard => g.path
    case NameGuard => g.name
    case FileNameGuard => g.fileName
    case ExtGuard => g.ext
  }

  function Set(g: Guards, k: GuardKey, v: bool): (r: Guards)
    ensures Get(r, k) == v
    ensures forall k' :: k' != k ==> Get(r, k') == Get(g, k')
  {
    Guards(if k == DirGuard then v else g.dir, if k == PathGuard then v else g.path,
      if k == NameGuard then v else g.name, if k == FileNameGuard then v else g.fileName,
      if k == ExtGuard then v else g.ext)
  }

  /** Guards only ever get cleared: each one in `after` is down, or was
      already up in `before`. */
  predicate Cleared(after: Guards, before: Guards)
  {
    (after.dir ==> before.dir) && (after.path ==> before.path) && (after.name ==> before.name)
    && (after.fileName ==> before.fileName) && (after.ext ==> before.ext)
  }

  /** An expansion result (`None` when the fuel ran out) and the guards it
      leaves behind. */
  datatype Res = Res(value: Option<string>, guards: Guards)

  // ---------------------------------------------------------------------
  // Keys

  /** Keys every node answers from its own path and text. */
  function GenericValue(items: seq<Item>, key: string, i: ItemId): Option<string>
    requires i < |items|
  {
    var it := items[i];
    if key == "InputDir" then Some(LocalFile(Parent(it.path)) + "\\")
    else if key == "InputPath" then Some(LocalFile(it.path))
    else if key == "InputName" then Some(it.text)
    else if key == "InputFileName" then Some(LastSegment(it.path))
    else if key == "InputExt" then Some("." + SectionLastTwo(LastSegment(it.path), '.'))
    else if key == "ParentName" then Some(if it.parent.Some? && it.parent.value < |items| then items[it.parent.value].text else "")
    else None
  }

  /** Project keys that are generic keys asked of the project node itself. */
  function ProjectAlias(key: string): Option<string>
  {
    if key == "ProjectDir" then Some("InputDir")
    else if key == "ProjectPath" then Some("InputPath")
    else if key == "ProjectName" then Some("InputName")
    else if key == "ProjectFileName" then Some("InputFileName")
    else if key == "ProjectExt" then Some("InputExt")
    else None
  }

  /** Solution keys that are generic keys asked of the solution node itself;
      "ProjectFileName" becomes "SolutionFileName", which no node answers. */
  function SolutionAlias(key: string): Option<string>
  {
    if key == "SolutionDir" then Some("InputDir")
    else if key == "SolutionPath" then Some("InputPath")
    else if key == "SolutionName" then Some("InputName")
    else if key == "ProjectFileName" then Some("SolutionFileName")
    else if key == "SolutionExt" then Some("InputExt")
    else None
  }

  /** The guard of a `Target*` key. */
  function TargetGuard(key: string): Option<GuardKey>
  {
    if key == "TargetDir" then Some(DirGuard)
    else if key == "TargetPath" then Some(PathGuard)
    else if key == "TargetName" then Some(NameGuard)
    else if key == "TargetFileName" then Some(FileNameGuard)
    else if key == "TargetExt" then Some(ExtGuard)
    else None
  }

  predicate ValidContext(items: seq<Item>, item: Option<ItemId>)
  {
    WellFormed(items) && (item.Some? ==> item.value < |items|)
  }

  /** The parent of node `i`, which is a valid context again. */
  function ParentOf(items: seq<Item>, i: ItemId): (p: Option<ItemId>)
    requires WellFormed(items) && i < |items|
    ensures ValidContext(items, p) && (p.Some? ==> p.value < i)
  {
    items[i].parent
  }

  // ---------------------------------------------------------------------
  // The expansion

  /** `replace`: substitutes the leftmost token, then scans the new string
      again from the start, until no token is left. */
  function ReplaceF(items: seq<Item>, g: Guards, s: string, item: Option<ItemId>, fuel: nat): (r: Res)
    requires ValidContext(items, item)
    ensures r.value.Some? ==> NoToken(r.value.value)
    ensures Cleared(r.guards, g)
    decreases fuel, 1
  {
    if fuel == 0 then Res(None, g) else RoundF(items, g, s, item, fuel)
  }

  /** One round of the loop in `replace`: no token left gives the string;
      otherwise the leftmost token's replacement goes in and the expansion
      goes on with one unit of fuel less. */
  function RoundF(items: seq<Item>, g: Guards, s: string, item: Option<ItemId>, fuel: nat): (r: Res)
    requires ValidContext(items, item) && fuel > 0
    ensures r.value.Some? ==> NoToken(r.value.value)
    ensures Cleared(r.guards, g)
    decreases fuel, 0
  {
    var t := FirstToken(s);
    if t.None? then
      FirstTokenNone(s);
      Res(Some(s), g)
    else
      var rep := GetReplacementF(items, g, t.value.name, item, fuel - 1);
      if rep.value.None? then Res(None, rep.guards)
      else ReplaceF(items, rep.guards, s[..t.value.start] + rep.value.value + s[t.value.end..], item, fuel - 1)
  }

  /** One round of `replace`: the leftmost token's replacement goes in its
      place, and the expansion goes on from the new string. */
  lemma ReplaceOneToken(items: seq<Item>, g: Guards, s: string, item: Option<ItemId>, fuel: nat, t: Token, rep: Res)
    requires ValidContext(items, item) && fuel > 0 && FirstToken(s) == Some(t)
    requires GetReplacementF(items, g, t.name, item, fuel - 1) == rep && rep.value.Some?
    ensures t.start <= t.end <= |s|
    ensures ReplaceF(items, g, s, item, fuel)
         == ReplaceF(items, rep.guards, s[..t.start] + rep.value.value + s[t.end..], item, fuel - 1)
  {
  }

  /** `replace` gives up when the leftmost token has no replacement. */
  lemma ReplaceStops(items: seq<Item>, g: Guards, s: string, item: Option<ItemId>, fuel: nat, t: Token, rep: Res)
    requires ValidContext(items, item) && fuel > 0 && FirstToken(s) == Some(t)
    requires GetReplacementF(items, g, t.name, item, fuel - 1) == rep && rep.value.None?
    ensures ReplaceF(items, g, s, item, fuel) == Res(None, rep.guards)
  {
  }

  /** `getReplacement`: "" without a node; otherwise the lookup for the
      node's kind. */
  function GetReplacementF(items: seq<Item>, g: Guards, key: string, item: Option<ItemId>, fuel: nat): (r: Res)
    requires ValidContext(items, item)
    ensures fuel > 0 && item.None? ==> r == Res(Some(""), g)
    ensures Cleared(r.guards, g)
    decreases fuel, 0
  {
    if fuel == 0 then Res(None, g)
    else if item.None? then Res(Some(""), g)
    else
      var i := item.value;
      match items[i].kind
      case ProjectItem(_, _) => VisitProjectF(items, g, key, i, fuel - 1)
      case SolutionItem(_) => VisitSolutionF(items, g, key, i, fuel - 1)
      case _ => VisitGenericF(items, g, key, i, fuel - 1)
  }

  /** The lookup any node supports; other keys go to the parent. */
  function VisitGenericF(items: seq<Item>, g: Guards, key: string, i: ItemId, fuel: nat): (r: Res)
    requires ValidContext(items, Some(i))
    ensures fuel > 0 && GenericValue(items, key, i).Some? ==> r == Res(GenericValue(items, key, i), g)
    ensures Cleared(r.guards, g)
    decreases fuel, 0
  {
    if fuel == 0 then Res(None, g)
    else if GenericValue(items, key, i).Some? then Res(GenericValue(items, key, i), g)
    else GetReplacementF(items, g, key, ParentOf(items, i), fuel - 1)
  }

  /** A `Target*` key other than `TargetPath`: the guard's earlier state
      decides whether to expand `template` at all (a nested lookup of the
      same key gives ""), and the guard is down afterwards. */
  function TargetF(items: seq<Item>, g: Guards, k: GuardKey, template: string, i: ItemId, fuel: nat): (r: Res)
    requires ValidContext(items, Some(i))
    ensures Get(g, k) ==> r == Res(Some(""), Set(g, k, false))
    ensures !Get(r.guards, k)
    ensures Cleared(r.guards, g)
    decreases fuel, 2
  {
    if Get(g, k) then Res(Some(""), Set(g, k, false))
    else
      var r := ReplaceF(items, Set(g, k, true), template, Some(i), fuel);
      Res(r.value, Set(r.guards, k, false))
  }


  /** `TargetPath`: the expansion of `TargetDir` followed by the expansion of
      the output file, under the path guard. */
  function TargetPathF(items: seq<Item>, g: Guards, i: ItemId, fuel: nat): (r: Res)
    requires ValidContext(items, Some(i)) && items[i].kind.ProjectItem?
    ensures g.path ==> r == Res(Some(""), g.(path := false))
    ensures !r.guards.path
    ensures Cleared(r.guards, g)
    decreases fuel, 2
  {
    var cfg := CurrentConfig(items[i].kind.store);
    if g.path then Res(Some(""), g.(path := false))
    else
      var a := VisitProjectF(items, g.(path := true), "TargetDir", i, fuel);
      if a.value.None? then Res(None, a.guards.(path := false))
      else
        var b := ReplaceF(items, a.guards, cfg.outputFile, Some(i), fuel);
        Res(if b.value.Some? then Some(a.value.value + b.value.value) else None, b.guards.(path := false))
  }

  /** `TargetPath` from what its two parts expand to. */
  lemma TargetPathOf(items: seq<Item>, g: Guards, i: ItemId, fuel: nat, a: Res, b: Res)
    requires ValidContext(items, Some(i)) && items[i].kind.ProjectItem? && !g.path
    requires VisitProjectF(items, Set(g, PathGuard, true), "TargetDir", i, fuel) == a
    requires a.value.Some? ==> ReplaceF(items, a.guards, CurrentConfig(items[i].kind.store).outputFile, Some(i), fuel) == b
    ensures a.value.None? ==> TargetPathF(items, g, i, fuel) == Res(None, Set(a.guards, PathGuard, false))
    ensures a.value.Some? ==>
      TargetPathF(items, g, i, fuel) == Res(if b.value.Some? then Some(a.value.value + b.value.value) else None, Set(b.guards, PathGuard, false))
  {
    assert Set(g, PathGuard, true) == g.(path := true);
    assert Set(a.guards, PathGuard, false) == a.guards.(path := false);
    assert Set(b.guards, PathGuard, false) == b.guards.(path := false);
  }

  /** The `Target*` keys of a project node, each expanded from the current
      configuration under its own guard. */
  function ProjectTargetF(items: seq<Item>, g: Guards, key: string, i: ItemId, fuel: nat): (r: Res)
    requires ValidContext(items, Some(i)) && items[i].kind.ProjectItem? && TargetGuard(key).Some?
    ensures Cleared(r.guards, g)
    decreases fuel, 3
  {
    var cfg := CurrentConfig(items[i].kind.store);
    if key == "TargetDir" then TargetF(items, g, DirGuard, cfg.outputDirectory + "\\", i, fuel)
    else if key == "TargetPath" then TargetPathF(items, g, i, fuel)
    else if key == "TargetName" then
      var r := TargetF(items, g, NameGuard, cfg.outputFile, i, fuel);
      if g.name || r.value.None? then r else Res(Some(SectionUpToLast(r.value.value, '.')), r.guards)
    else if key == "TargetFileName" then TargetF(items, g, FileNameGuard, cfg.outputFile, i, fuel)
    else
      var r := TargetF(items, g, ExtGuard, cfg.outputFile, i, fuel);
      if g.ext || r.value.None? then r else Res(Some(SectionLastTwo(r.value.value, '.')), r.guards)
  }

  /** The lookup of a project node. */
  function VisitProjectF(items: seq<Item>, g: Guards, key: string, i: ItemId, fuel: nat): (r: Res)
    requires ValidContext(items, Some(i)) && items[i].kind.ProjectItem?
    ensures Cleared(r.guards, g)
    decreases fuel, 0
  {
    var cfg := CurrentConfig(items[i].kind.store);
    if fuel == 0 then Res(None, g)
    else if ProjectAlias(key).Some? then VisitGenericF(items, g, ProjectAlias(key).value, i, fuel - 1)
    else if TargetGuard(key).Some? then ProjectTargetF(items, g, key, i, fuel - 1)
    else GetReplacementF(items, g, key, ParentOf(items, i), fuel - 1)
  }

  /** The lookup of a solution node. */
  function VisitSolutionF(items: seq<Item>, g: Guards, key: string, i: ItemId, fuel: nat): (r: Res)
    requires ValidContext(items, Some(i))
    ensures Cleared(r.guards, g)
    decreases fuel, 0
  {
    if fuel == 0 then Res(None, g)
    else if SolutionAlias(key).Some? then VisitGenericF(items, g, SolutionAlias(key).value, i, fuel - 1)
    else GetReplacementF(items, g, key, ParentOf(items, i), fuel - 1)
  }

  // ---------------------------------------------------------------------
  // Lists

  /** Every element expanded against `item` with fresh guards; `None` when
      some element does not finish within the fuel. */
  function ExpandAll(items: seq<Item>, xs: seq<string>, item: Option<ItemId>, fuel: nat): (r: Option<seq<string>>)
    requires ValidContext(items, item)
    ensures r.Some? ==>
      |r.value| == |xs| && forall k :: 0 <= k < |xs| ==> ReplaceF(items, NoGuards, xs[k], item, fuel).value == Some(r.value[k])
    ensures r.None? ==> exists k :: 0 <= k < |xs| && ReplaceF(items, NoGuards, xs[k], item, fuel).value.None?
  {
    if xs == [] then Some([])
    else
      var head := ReplaceF(items, NoGuards, xs[0], item, fuel).value;
      var tail := ExpandAll(items, xs[1..], item, fuel);
      if head.None? then None
      else if tail.None? then
        assert forall k :: 1 <= k < |xs| ==> xs[k] == xs[1..][k - 1];
        None
      else
        assert forall k :: 1 <= k < |xs| ==> xs[k] == xs[1..][k - 1];
        Some([head.value] + tail.value)
  }

  lemma ExpandAllFails(items: seq<Item>, xs: seq<string>, item: Option<ItemId>, fuel: nat, k: nat)
    requires ValidContext(items, item) && k < |xs| && ReplaceF(items, NoGuards, xs[k], item, fuel).value.None?
    ensures ExpandAll(items, xs, item, fuel).None?
  {
  }

  lemma ExpandAllOf(items: seq<Item>, xs: seq<string>, item: Option<ItemId>, fuel: nat, ys: seq<string>)
    requires ValidContext(items, item) && |ys| == |xs|
    requires forall j :: 0 <= j < |xs| ==> ReplaceF(items, NoGuards, xs[j], item, fuel).value == Some(ys[j])
    ensures ExpandAll(items, xs, item, fuel) == Some(ys)
  {
    var e := ExpandAll(items, xs, item, fuel);
    if e.Some? {
      assert e.value == ys;
    }
  }

  /** One more entry expanded: the expansions so far and this one. */
  lemma ExpandedSnoc(items: seq<Item>, xs: seq<string>, item: Option<ItemId>, fuel: nat, ys: seq<string>, y: string)
    requires ValidContext(items, item) && |ys| < |xs|
    requires forall j :: 0 <= j < |ys| ==> ReplaceF(items, NoGuards, xs[j], item, fuel).value == Some(ys[j])
    requires ReplaceF(items, NoGuards, xs[|ys|], item, fuel).value == Some(y)
    ensures forall j :: 0 <= j < |ys| + 1 ==> ReplaceF(items, NoGuards, xs[j], item, fuel).value == Some((ys + [y])[j])
  {
    forall j | 0 <= j < |ys| + 1
      ensures ReplaceF(items, NoGuards, xs[j], item, fuel).value == Some((ys + [y])[j])
    {
      if j < |ys| {
        assert (ys + [y])[j] == ys[j];
      }
    }
  }

  // ---------------------------------------------------------------------
  // The replacer object

  class VariableReplacer {
    var replaceTargetDirGuard: bool
    var replaceTargetPathGuard: bool
    var replaceTargetNameGuard: bool
    var replaceTargetFileNameGuard: bool
    var replaceTargetExtGuard: bool

    function State(): Guards
      reads this
    {
      Guards(replaceTargetDirGuard, replaceTargetPathGuard, replaceTargetNameGuard,
             replaceTargetFileNameGuard, replaceTargetExtGuard)
    }

    /** A new replacer has every guard down. */
    constructor ()
      ensures State() == NoGuards
    {
      replaceTargetDirGuard := false;
      replaceTargetPathGuard := false;
      replaceTargetNameGuard := false;
      replaceTargetFileNameGuard := false;
      replaceTargetExtGuard := false;
    }

    method SetGuard(k: GuardKey, v: bool)
      modifies this
      ensures State() == Set(old(State()), k, v)
    {
      match k
      case DirGuard => replaceTargetDirGuard := v;
      case PathGuard => replaceTargetPathGuard := v;
      case NameGuard => replaceTargetNameGuard := v;
      case FileNameGuard => replaceTargetFileNameGuard := v;
      case ExtGuard => replaceTargetExtGuard := v;
    }

    /** Entering a guarded section (the checker's constructor): reports the
        guard's earlier state as `stop` and raises the guard. */
    method Enter(k: GuardKey) returns (stop: bool)
      modifies this
      ensures stop == Get(old(State()), k)
      ensures State() == Set(old(State()), k, true)
    {
      stop := Get(State(), k);
      SetGuard(k, true);
    }

    /** Leaving a guarded section (the checker's destructor): lowers the
        guard, whatever it was before entering. */
    method Leave(k: GuardKey)
      modifies this
      ensures State() == Set(old(State()), k, false)
    {
      SetGuard(k, false);
    }

    method Replace(items: seq<Item>, s: string, item: Option<ItemId>, fuel: nat) returns (r: Option<string>)
      requires ValidContext(items, item)
      modifies this
      ensures Res(r, State()) == ReplaceF(items, old(State()), s, item, fuel)
      decreases fuel, 0
    {
      if fuel == 0 {
        return None;
      }
      ghost var whole := ReplaceF(items, State(), s, item, fuel);
      var cur := s;
      var f := fuel;
      while true
        invariant 0 < f <= fuel
        invariant ReplaceF(items, State(), cur, item, f) == whole
        decreases f
      {
        var t := FirstToken(cur);
        if t.None? {
          return Some(cur);
        }
        ghost var before := State();
        ghost var wanted := GetReplacementF(items, before, t.value.name, item, f - 1);
        var rep := GetReplacement(items, t.value.name, item, f - 1);
        assert Res(rep, State()) == wanted;
        if rep.None? {
          assert whole == Res(None, State()) by {
            ReplaceStops(items, before, cur, item, f, t.value, wanted);
          }
          return None;
        }
        var next := cur[..t.value.start] + rep.value + cur[t.value.end..];
        assert ReplaceF(items, State(), next, item, f - 1) == whole by {
          ReplaceOneToken(items, before, cur, item, f, t.value, wanted);
        }
        cur := next;
        f := f - 1;
        if f == 0 {
          return None;
        }
      }
    }

    method GetReplacement(items: seq<Item>, key: string, item: Option<ItemId>, fuel: nat) returns (r: Option<string>)
      requires ValidContext(items, item)
      modifies this
      ensures Res(r, State()) == GetReplacementF(items, old(State()), key, item, fuel)
      decreases fuel, 0
    {
      if fuel == 0 {
        return None;
      }
      if item.None? {
        return Some("");
      }
      var i := item.value;
      match items[i].kind
      case ProjectItem(_, _) => r := VisitProject(items, key, i, fuel - 1);
      case SolutionItem(_) => r := VisitSolution(items, key, i, fuel - 1);
      case _ => r := VisitGeneric(items, key, i, fuel - 1);
    }

    method VisitGeneric(items: seq<Item>, key: string, i: ItemId, fuel: nat) returns (r: Option<string>)
      requires ValidContext(items, Some(i))
      modifies this
      ensures Res(r, State()) == VisitGenericF(items, old(State()), key, i, fuel)
      decreases fuel, 0
    {
      if fuel == 0 {
        return None;
      }
      var v := GenericValue(items, key, i);
      if v.Some? {
        return v;
      }
      r := GetReplacement(items, key, ParentOf(items, i), fuel - 1);
    }

    /** A guarded `Target*` expansion of `template`. */
    method Target(items: seq<Item>, k: GuardKey, template: string, i: ItemId, fuel: nat) returns (r: Option<string>)
      requires ValidContext(items, Some(i))
      modifies this
      ensures Res(r, State()) == TargetF(items, old(State()), k, template, i, fuel)
      decreases fuel, 1
    {
      var stop := Enter(k);
      if stop {
        r := Some("");
      } else {
        r := Replace(items, template, Some(i), fuel);
      }
      Leave(k);
    }

    method TargetPath(items: seq<Item>, i: ItemId, fuel: nat) returns (r: Option<string>)
      requires ValidContext(items, Some(i)) && items[i].kind.ProjectItem?
      modifies this
      ensures Res(r, State()) == TargetPathF(items, old(State()), i, fuel)
      decreases fuel, 1
    {
      var cfg := CurrentConfig(items[i].kind.store);
      ghost var g := State();
      var stop := Enter(PathGuard);
      if stop {
        r := Some("");
      } else {
        var a := VisitProject(items, "TargetDir", i, fuel);
        ghost var ra := Res(a, State());
        if a.None? {
          r := None;
          TargetPathOf(items, g, i, fuel, ra, ra);
        } else {
          var b := Replace(items, cfg.outputFile, Some(i), fuel);
          r := if b.Some? then Some(a.value + b.value) else None;
          TargetPathOf(items, g, i, fuel, ra, Res(b, State()));
        }
      }
      Leave(PathGuard);
    }

    method ProjectTarget(items: seq<Item>, key: string, i: ItemId, fuel: nat) returns (r: Option<string>)
      requires ValidContext(items, Some(i)) && items[i].kind.ProjectItem? && TargetGuard(key).Some?
      modifies this
      ensures Res(r, State()) == ProjectTargetF(items, old(State()), key, i, fuel)
      decreases fuel, 2
    {
      var cfg := CurrentConfig(items[i].kind.store);
      if key == "TargetDir" {
        r := Target(items, DirGuard, cfg.outputDirectory + "\\", i, fuel);
      } else if key == "TargetPath" {
        r := TargetPath(items, i, fuel);
      } else if key == "TargetName" {
        var wasUp := replaceTargetNameGuard;
        r := Target(items, NameGuard, cfg.outputFile, i, fuel);
        if !wasUp && r.Some? {
          r := Some(SectionUpToLast(r.value, '.'));
        }
      } else if key == "TargetFileName" {
        r := Target(items, FileNameGuard, cfg.outputFile, i, fuel);
      } else {
        var wasUp := replaceTargetExtGuard;
        r := Target(items, ExtGuard, cfg.outputFile, i, fuel);
        if !wasUp && r.Some? {
          r := Some(SectionLastTwo(r.value, '.'));
        }
      }
    }

    method VisitProject(items: seq<Item>, key: string, i: ItemId, fuel: nat) returns (r: Option<string>)
      requires ValidContext(items, Some(i)) && items[i].kind.ProjectItem?
      modifies this
      ensures Res(r, State()) == VisitProjectF(items, old(State()), key, i, fuel)
      decreases fuel, 0
    {
      if fuel == 0 {
        return None;
      }
      var alias := ProjectAlias(key);
      if alias.Some? {
        r := VisitGeneric(items, alias.value, i, fuel - 1);
      } else if TargetGuard(key).Some? {
        r := ProjectTarget(items, key, i, fuel - 1);
      } else {
        r := GetReplacement(items, key, ParentOf(items, i), fuel - 1);
      }
    }

    method VisitSolution(items: seq<Item>, key: string, i: ItemId, fuel: nat) returns (r: Option<string>)
      requires ValidContext(items, Some(i))
      modifies this
      ensures Res(r, State()) == VisitSolutionF(items, old(State()), key, i, fuel)
      decreases fuel, 0
    {
      if fuel == 0 {
        return None;
      }
      var alias := SolutionAlias(key);
      if alias.Some? {
        r := VisitGeneric(items, alias.value, i, fuel - 1);
      } else {
        r := GetReplacement(items, key, ParentOf(items, i), fuel - 1);
      }
    }

    /** The list form of `Replace`: every element expanded in turn with the
        same replacer. Since a replacer with every guard down has every guard
        down again after an expansion, each element is expanded exactly as a
        fresh replacer would. */
    method ReplaceList(items: seq<Item>, xs: seq<string>, item: Option<ItemId>, fuel: nat) returns (r: Option<seq<string>>)
      requires ValidContext(items, item) && State() == NoGuards
      modifies this
      ensures State() == NoGuards
      ensures r == ExpandAll(items, xs, item, fuel)
    {
      var ys: seq<string> := [];
      var k := 0;
      while k < |xs|
        invariant 0 <= k <= |xs| && State() == NoGuards && |ys| == k
        invariant forall j :: 0 <= j < k ==> ReplaceF(items, NoGuards, xs[j], item, fuel).value == Some(ys[j])
      {
        var x := Replace(items, xs[k], item, fuel);
        assert Cleared(State(), NoGuards);
        if x.None? {
          ExpandAllFails(items, xs, item, fuel, k);
          return None;
        }
        ExpandedSnoc(items, xs, item, fuel, ys, x.value);
        ys := ys + [x.value];
        k := k + 1;
      }
      ExpandAllOf(items, xs, item, fuel, ys);
      r := Some(ys);
    }
  }
}
