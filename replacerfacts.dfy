/** What the expansion of `$(Name)` macros gives for the keys and templates
    that matter: keys nobody answers, forwarding to the parent, the project
    and solution keys, and the `Target*` keys whose output file refers to
    themselves. */
module ReplacerFacts {
  import opened Wrappers
  import opened Text
  import opened Paths
  import opened ProjectConfig
  import opened ModelItems
  import opened Replacer

  /** Number of nodes from `item` up to the root of its tree. */
  function Depth(items: seq<Item>, item: Option<ItemId>): nat
    requires ValidContext(items, item)
    decreases if item.Some? then item.value + 1 else 0
  {
    if item.None? then 0 else 1 + Depth(items, ParentOf(items, item.value))
  }

  predicate GenericKey(key: string) {
    key == "InputDir" || key == "InputPath" || key == "InputName"
    || key == "InputFileName" || key == "InputExt" || key == "ParentName"
  }

  /** A key that no kind of node answers, such as "OutDir". */
  predicate Unanswered(key: string) {
    !GenericKey(key) && ProjectAlias(key).None? && SolutionAlias(key).None? && TargetGuard(key).None?
  }

  /** A key no node answers is passed up to the root and comes back as ""
      (or the fuel runs out first); the guards are untouched. Two steps of
      fuel per node are enough. */
  lemma {:induction false} UnansweredKeyIsEmpty(items: seq<Item>, g: Guards, key: string, item: Option<ItemId>, fuel: nat)
    requires ValidContext(items, item) && Unanswered(key)
    ensures GetReplacementF(items, g, key, item, fuel).guards == g
    ensures GetReplacementF(items, g, key, item, fuel).value.Some? ==> GetReplacementF(items, g, key, item, fuel).value.value == ""
    ensures fuel > 2 * Depth(items, item) ==> GetReplacementF(items, g, key, item, fuel).value == Some("")
    decreases fuel
  {
    if fuel >= 2 && item.Some? {
      UnansweredKeyIsEmpty(items, g, key, ParentOf(items, item.value), fuel - 2);
    }
  }

  /** A node forwards a key it does not answer itself to its parent. */
  lemma ForwardsToParent(items: seq<Item>, g: Guards, key: string, i: ItemId, fuel: nat)
    requires ValidContext(items, Some(i)) && !GenericKey(key)
    requires items[i].kind.ProjectItem? ==> ProjectAlias(key).None? && TargetGuard(key).None?
    requires items[i].kind.SolutionItem? ==> SolutionAlias(key).None?
    ensures GetReplacementF(items, g, key, Some(i), fuel + 2) == GetReplacementF(items, g, key, ParentOf(items, i), fuel)
  {
  }

  /** The project keys are the node's own text and location. */
  lemma ProjectKeys(items: seq<Item>, g: Guards, i: ItemId, fuel: nat)
    requires ValidContext(items, Some(i)) && items[i].kind.ProjectItem? && fuel >= 3
    ensures GetReplacementF(items, g, "ProjectName", Some(i), fuel) == Res(Some(items[i].text), g)
    ensures GetReplacementF(items, g, "ProjectDir", Some(i), fuel) == Res(Some(LocalFile(Parent(items[i].path)) + "\\"), g)
    ensures GetReplacementF(items, g, "ProjectPath", Some(i), fuel) == Res(Some(LocalFile(items[i].path)), g)
    ensures GetReplacementF(items, g, "ProjectFileName", Some(i), fuel) == Res(Some(LastSegment(items[i].path)), g)
  {
  }

  /** The solution keys are the node's own text and location; asked of a
      solution, "ProjectFileName" turns into "SolutionFileName", which the
      solution does not answer and its ancestors cannot either. */
  lemma SolutionKeys(items: seq<Item>, g: Guards, i: ItemId, fuel: nat)
    requires ValidContext(items, Some(i)) && items[i].kind.SolutionItem? && fuel >= 3
    ensures GetReplacementF(items, g, "SolutionName", Some(i), fuel) == Res(Some(items[i].text), g)
    ensures GetReplacementF(items, g, "SolutionDir", Some(i), fuel) == Res(Some(LocalFile(Parent(items[i].path)) + "\\"), g)
    ensures GetReplacementF(items, g, "ProjectFileName", Some(i), fuel).value.Some? ==>
              GetReplacementF(items, g, "ProjectFileName", Some(i), fuel).value.value == ""
    ensures fuel > 2 * Depth(items, Some(i)) + 1 ==> GetReplacementF(items, g, "ProjectFileName", Some(i), fuel).value == Some("")
  {
    assert GetReplacementF(items, g, "ProjectFileName", Some(i), fuel)
        == VisitGenericF(items, g, "SolutionFileName", i, fuel - 2)
        == GetReplacementF(items, g, "SolutionFileName", ParentOf(items, i), fuel - 3);
    UnansweredKeyIsEmpty(items, g, "SolutionFileName", ParentOf(items, i), fuel - 3);
  }

  // ---------------------------------------------------------------------
  // Tokens in concrete templates

  lemma {:induction false} AlnumRunOf(s: string, i: nat, n: nat)
    requires i + n < |s| && !IsAsciiAlnum(s[i + n])
    requires forall k :: i <= k < i + n ==> IsAsciiAlnum(s[k])
    ensures AlnumRun(s, i) == n
    decreases n
  {
    if n > 0 {
      AlnumRunOf(s, i + 1, n - 1);
    }
  }

  predicate AlnumName(name: string) {
    |name| >= 1 && forall k :: 0 <= k < |name| ==> IsAsciiAlnum(name[k])
  }

  /** The leftmost token at or after `q` is the one at `a` when there is
      none in between. */
  lemma TokenFromSkip(s: string, q: nat, a: nat)
    requires q <= a && TokenAt(s, a)
    requires forall k :: q <= k < a ==> !TokenAt(s, k)
    ensures TokenFrom(s, q) == Some(TokenOf(s, a))
  {
    var t := TokenFrom(s, q);
    assert t.Some?;
    assert t.value.start == a;
  }

  lemma AlnumRunAcross(u: string, name: string, w: string)
    requires forall k :: 0 <= k < |name| ==> IsAsciiAlnum(name[k])
    requires |w| > 0 && !IsAsciiAlnum(w[0])
    ensures AlnumRun(u + name + w, |u|) == |name|
  {
    var s := u + name + w;
    forall k | |u| <= k < |u| + |name|
      ensures IsAsciiAlnum(s[k])
    {
      assert s[k] == name[k - |u|];
    }
    assert s[|u| + |name|] == w[0];
    AlnumRunOf(s, |u|, |name|);
  }

  /** Where the parts of a joined token text lie. */
  lemma JoinLayout(p: string, name: string, rest: string)
    ensures var s := p + "$(" + name + ")" + rest;
      s == (p + "$(") + name + (")" + rest)
      && |s| == |p| + |name| + 3 + |rest|
      && s[|p|] == '$' && s[|p| + 1] == '(' && s[|p| + 2 + |name|] == ')'
      && s[|p| + 2..|p| + 2 + |name|] == name
  {
    var s := p + "$(" + name + ")" + rest;
    assert s == (p + "$(") + name + (")" + rest);
    assert s[|p| + 2..|p| + 2 + |name|] == name;
  }

  lemma TokenAtJoin(p: string, name: string, rest: string)
    requires AlnumName(name)
    ensures var s := p + "$(" + name + ")" + rest;
      TokenAt(s, |p|) && AlnumRun(s, |p| + 2) == |name| && s[|p| + 2..|p| + 2 + |name|] == name
  {
    JoinLayout(p, name, rest);
    AlnumRunAcross(p + "$(", name, ")" + rest);
  }

  lemma NoTokenInPrefix(p: string, s: string)
    requires '$' !in p && |p| <= |s|
    requires forall q :: 0 <= q < |p| ==> s[q] == p[q]
    ensures forall q :: 0 <= q < |p| ==> !TokenAt(s, q)
  {
    forall q | 0 <= q < |p|
      ensures !TokenAt(s, q)
    {
      assert s[q] == p[q];
    }
  }

  lemma FirstTokenFromStart(s: string)
    ensures FirstToken(s) == TokenFrom(s, 0)
  {
  }

  /** After a prefix without '$', the first token is the one that follows. */
  lemma TokenAfter(p: string, name: string, rest: string)
    requires '$' !in p && AlnumName(name)
    ensures FirstToken(p + "$(" + name + ")" + rest) == Some(Token(|p|, |p| + |name| + 3, name))
  {
    var s := p + "$(" + name + ")" + rest;
    TokenAtJoin(p, name, rest);
    NoTokenInPrefix(p, s);
    FirstTokenAt(s, |p|, name);
  }

  /** A token at `a` with none before it is the first token. */
  lemma FirstTokenAt(s: string, a: nat, name: string)
    requires TokenAt(s, a) && AlnumRun(s, a + 2) == |name| && s[a + 2..a + 2 + |name|] == name
    requires forall q :: 0 <= q < a ==> !TokenAt(s, q)
    ensures FirstToken(s) == Some(Token(a, a + 3 + |name|, name))
  {
    TokenFromSkip(s, 0, a);
    FirstTokenFromStart(s);
  }

  /** A string without '$' holds no token. */
  lemma NoDollarNoToken(s: string)
    requires '$' !in s
    ensures NoToken(s)
  {
  }

  lemma {:induction false} AlnumRunAppend(s: string, c: char, i: nat)
    requires i <= |s| && !IsAsciiAlnum(c)
    ensures AlnumRun(s + [c], i) == AlnumRun(s, i)
    decreases |s| - i
  {
    if i < |s| && IsAsciiAlnum(s[i]) {
      AlnumRunAppend(s, c, i + 1);
    }
  }

  /** Appending the directory separator '\' never completes a token. */
  lemma NoTokenAppendSeparator(s: string)
    requires NoToken(s)
    ensures NoToken(s + "\\")
  {
    var t := s + "\\";
    forall p | 0 <= p < |t|
      ensures !TokenAt(t, p)
    {
      if p + 2 <= |s| {
        AlnumRunAppend(s, '\\', p + 2);
        assert TokenAt(t, p) ==> TokenAt(s, p);
      }
    }
  }

  // ---------------------------------------------------------------------
  // Output files that refer to themselves

  lemma TargetFileNameIsName()
    ensures AlnumName("TargetFileName") && AlnumName("TargetPath") && AlnumName("OutDir") && AlnumName("ProjectName")
  {
  }

  /** One round of `replace` on a template whose first token is `name`. */
  lemma ReplaceStep(items: seq<Item>, g: Guards, p: string, name: string, rest: string, item: Option<ItemId>, fuel: nat,
                    rep: Res)
    requires ValidContext(items, item) && '$' !in p && AlnumName(name) && fuel > 0
    requires GetReplacementF(items, g, name, item, fuel - 1) == rep && rep.value.Some?
    ensures ReplaceF(items, g, p + "$(" + name + ")" + rest, item, fuel)
         == ReplaceF(items, rep.guards, p + rep.value.value + rest, item, fuel - 1)
  {
    var s := p + "$(" + name + ")" + rest;
    TokenAfter(p, name, rest);
    assert s[..|p|] == p && s[|p| + |name| + 3..] == rest;
  }

  /** `replace` leaves a string without tokens as it is. */
  lemma ReplaceDone(items: seq<Item>, g: Guards, s: string, item: Option<ItemId>, fuel: nat)
    requires ValidContext(items, item) && NoToken(s) && fuel > 0
    ensures ReplaceF(items, g, s, item, fuel) == Res(Some(s), g)
  {
    FirstTokenNone(s);
  }

  /** Looking up a `Target*` key at a project node. */
  lemma ProjectTargetStep(items: seq<Item>, g: Guards, key: string, i: ItemId, fuel: nat)
    requires ValidContext(items, Some(i)) && items[i].kind.ProjectItem? && TargetGuard(key).Some? && fuel >= 2
    ensures GetReplacementF(items, g, key, Some(i), fuel) == ProjectTargetF(items, g, key, i, fuel - 2)
  {
  }

  lemma VisitProjectTarget(items: seq<Item>, g: Guards, key: string, i: ItemId, fuel: nat)
    requires ValidContext(items, Some(i)) && items[i].kind.ProjectItem? && fuel > 0 && TargetGuard(key).Some?
    ensures VisitProjectF(items, g, key, i, fuel) == ProjectTargetF(items, g, key, i, fuel - 1)
  {
  }

  lemma DirTarget(items: seq<Item>, g: Guards, i: ItemId, fuel: nat)
    requires ValidContext(items, Some(i)) && items[i].kind.ProjectItem?
    ensures ProjectTargetF(items, g, "TargetDir", i, fuel)
         == TargetF(items, g, DirGuard, CurrentConfig(items[i].kind.store).outputDirectory + "\\", i, fuel)
  {
  }

  lemma PathTarget(items: seq<Item>, g: Guards, i: ItemId, fuel: nat)
    requires ValidContext(items, Some(i)) && items[i].kind.ProjectItem?
    ensures ProjectTargetF(items, g, "TargetPath", i, fuel) == TargetPathF(items, g, i, fuel)
  {
  }

  lemma FileNameTarget(items: seq<Item>, g: Guards, i: ItemId, fuel: nat)
    requires ValidContext(items, Some(i)) && items[i].kind.ProjectItem?
    ensures ProjectTargetF(items, g, "TargetFileName", i, fuel)
         == TargetF(items, g, FileNameGuard, CurrentConfig(items[i].kind.store).outputFile, i, fuel)
  {
  }

  lemma GetReplacementProject(items: seq<Item>, g: Guards, key: string, i: ItemId, fuel: nat)
    requires ValidContext(items, Some(i)) && items[i].kind.ProjectItem? && fuel > 0
    ensures GetReplacementF(items, g, key, Some(i), fuel) == VisitProjectF(items, g, key, i, fuel - 1)
  {
  }

  lemma TargetExpands(items: seq<Item>, g: Guards, k: GuardKey, template: string, i: ItemId, fuel: nat)
    requires ValidContext(items, Some(i)) && !Get(g, k)
    ensures var r := ReplaceF(items, Set(g, k, true), template, Some(i), fuel);
      TargetF(items, g, k, template, i, fuel) == Res(r.value, Set(r.guards, k, false))
  {
  }

  /** `replace` gives up when the first token's lookup does. */
  lemma ReplaceStepNone(items: seq<Item>, g: Guards, s: string, p: string, name: string, rest: string, item: Option<ItemId>, fuel: nat)
    requires ValidContext(items, item) && '$' !in p && AlnumName(name) && fuel > 0
    requires s == p + "$(" + name + ")" + rest
    requires GetReplacementF(items, g, name, item, fuel - 1).value.None?
    ensures ReplaceF(items, g, s, item, fuel).value.None?
  {
    TokenAfter(p, name, rest);
  }

  /** An output file of "$(TargetFileName)" expands to "" as the project's
      `TargetFileName`: the nested lookup finds its guard up. */
  lemma SelfReferentialFileName(items: seq<Item>, g: Guards, i: ItemId, fuel: nat)
    requires ValidContext(items, Some(i)) && items[i].kind.ProjectItem?
    requires CurrentConfig(items[i].kind.store).outputFile == "$(TargetFileName)"
    requires !g.fileName && fuel >= 4
    ensures VisitProjectF(items, g, "TargetFileName", i, fuel) == Res(Some(""), g)
  {
    var k := "TargetFileName";
    var t := CurrentConfig(items[i].kind.store).outputFile;
    var g1 := Set(g, FileNameGuard, true);
    var r := ReplaceF(items, g1, t, Some(i), fuel - 1);
    assert r == Res(Some(""), g) by {
      NestedFileName(items, g1, i, fuel - 1);
      assert Set(g1, FileNameGuard, false) == g;
    }
    assert TargetF(items, g, FileNameGuard, t, i, fuel - 1) == Res(Some(""), g) by {
      TargetExpands(items, g, FileNameGuard, t, i, fuel - 1);
      assert Set(g, FileNameGuard, false) == g;
    }
    assert ProjectTargetF(items, g, k, i, fuel - 1) == Res(Some(""), g) by {
      FileNameTarget(items, g, i, fuel - 1);
    }
    VisitProjectTarget(items, g, k, i, fuel);
  }

  /** Inside the expansion of `TargetFileName`, "$(TargetFileName)" finds
      its guard up, expands to "" and lowers the guard. */
  lemma NestedFileName(items: seq<Item>, g: Guards, i: ItemId, fuel: nat)
    requires ValidContext(items, Some(i)) && items[i].kind.ProjectItem?
    requires g.fileName && fuel >= 3
    ensures ReplaceF(items, g, "$(TargetFileName)", Some(i), fuel) == Res(Some(""), Set(g, FileNameGuard, false))
  {
    var k := "TargetFileName";
    TargetFileNameIsName();
    ProjectTargetStep(items, g, k, i, fuel - 1);
    FileNameTarget(items, g, i, fuel - 3);
    assert "" + "$(" + k + ")" + "" == "$(TargetFileName)";
    ReplaceStep(items, g, "", k, "", Some(i), fuel, Res(Some(""), Set(g, FileNameGuard, false)));
    assert "" + "" + "" == "";
    ReplaceDone(items, Set(g, FileNameGuard, false), "", Some(i), fuel - 1);
  }

  /** With an output directory free of tokens, `TargetDir` is that
      directory and a backslash. */
  lemma PlainTargetDir(items: seq<Item>, g: Guards, i: ItemId, fuel: nat)
    requires ValidContext(items, Some(i)) && items[i].kind.ProjectItem?
    requires NoToken(CurrentConfig(items[i].kind.store).outputDirectory)
    requires !g.dir && fuel >= 2
    ensures VisitProjectF(items, g, "TargetDir", i, fuel)
         == Res(Some(CurrentConfig(items[i].kind.store).outputDirectory + "\\"), g)
  {
    var cfg := CurrentConfig(items[i].kind.store);
    var dir := cfg.outputDirectory + "\\";
    VisitProjectTarget(items, g, "TargetDir", i, fuel);
    DirTarget(items, g, i, fuel - 1);
    TargetExpands(items, g, DirGuard, dir, i, fuel - 1);
    NoTokenAppendSeparator(cfg.outputDirectory);
    ReplaceDone(items, Set(g, DirGuard, true), dir, Some(i), fuel - 1);
    assert Set(Set(g, DirGuard, true), DirGuard, false) == g;
  }

  /** Inside `TargetPath`, an output file of "$(TargetPath)" expands to "". */
  lemma NestedTargetPath(items: seq<Item>, g: Guards, i: ItemId, fuel: nat)
    requires ValidContext(items, Some(i)) && items[i].kind.ProjectItem?
    requires CurrentConfig(items[i].kind.store).outputFile == "$(TargetPath)"
    requires g.path && fuel >= 3
    ensures ReplaceF(items, g, "$(TargetPath)", Some(i), fuel) == Res(Some(""), g.(path := false))
  {
    var k := "TargetPath";
    TargetFileNameIsName();
    ProjectTargetStep(items, g, k, i, fuel - 1);
    PathTarget(items, g, i, fuel - 3);
    assert "" + "$(" + k + ")" + "" == "$(TargetPath)";
    ReplaceStep(items, g, "", k, "", Some(i), fuel, Res(Some(""), g.(path := false)));
    assert "" + "" + "" == "";
    ReplaceDone(items, g.(path := false), "", Some(i), fuel - 1);
  }

  /** An output file of "$(TargetPath)" gives the output directory and a
      backslash as the project's `TargetPath`: the nested lookup of
      `TargetPath` finds its guard up and adds "". */
  lemma SelfReferentialTargetPath(items: seq<Item>, g: Guards, i: ItemId, fuel: nat)
    requires ValidContext(items, Some(i)) && items[i].kind.ProjectItem?
    requires CurrentConfig(items[i].kind.store).outputFile == "$(TargetPath)"
    requires NoToken(CurrentConfig(items[i].kind.store).outputDirectory)
    requires !g.path && !g.dir && fuel >= 4
    ensures VisitProjectF(items, g, "TargetPath", i, fuel)
         == Res(Some(CurrentConfig(items[i].kind.store).outputDirectory + "\\"), g)
  {
    SelfReferentialTargetPathF(items, g, i, fuel - 1);
    VisitTargetPath(items, g, i, fuel);
  }

  lemma VisitTargetPath(items: seq<Item>, g: Guards, i: ItemId, fuel: nat)
    requires ValidContext(items, Some(i)) && items[i].kind.ProjectItem? && fuel > 0
    ensures VisitProjectF(items, g, "TargetPath", i, fuel) == TargetPathF(items, g, i, fuel - 1)
  {
    VisitProjectTarget(items, g, "TargetPath", i, fuel);
    PathTarget(items, g, i, fuel - 1);
  }

  lemma SelfReferentialTargetPathF(items: seq<Item>, g: Guards, i: ItemId, fuel: nat)
    requires ValidContext(items, Some(i)) && items[i].kind.ProjectItem?
    requires CurrentConfig(items[i].kind.store).outputFile == "$(TargetPath)"
    requires NoToken(CurrentConfig(items[i].kind.store).outputDirectory)
    requires !g.path && !g.dir && fuel >= 3
    ensures TargetPathF(items, g, i, fuel) == Res(Some(CurrentConfig(items[i].kind.store).outputDirectory + "\\"), g)
  {
    var cfg := CurrentConfig(items[i].kind.store);
    var g1 := Set(g, PathGuard, true);
    var a := Res(Some(cfg.outputDirectory + "\\"), g1);
    PlainTargetDir(items, g1, i, fuel);
    NestedTargetPath(items, g1, i, fuel);
    assert g1.(path := false) == g == Set(g, PathGuard, false);
    TargetPathOf(items, g, i, fuel, a, Res(Some(""), g));
    assert cfg.outputDirectory + "\\" + "" == cfg.outputDirectory + "\\";
  }


  /** While a `Target*` key is being expanded at a project (its guard is
      up), a nested lookup of the same key gives "" and lowers the guard. */
  lemma NestedLookupIsEmpty(items: seq<Item>, g: Guards, key: string, i: ItemId, fuel: nat)
    requires ValidContext(items, Some(i)) && items[i].kind.ProjectItem?
    requires TargetGuard(key).Some? && Get(g, TargetGuard(key).value) && fuel >= 2
    ensures VisitProjectF(items, g, key, i, fuel) == Res(Some(""), Set(g, TargetGuard(key).value, false))
  {
    VisitProjectTarget(items, g, key, i, fuel);
  }

  /** `TargetName` is the expanded output file up to its last '.'. */
  lemma TargetNameOfOutputFile(items: seq<Item>, g: Guards, i: ItemId, fuel: nat)
    requires ValidContext(items, Some(i)) && items[i].kind.ProjectItem? && !g.name && fuel >= 1
    ensures var r := ReplaceF(items, Set(g, NameGuard, true), CurrentConfig(items[i].kind.store).outputFile, Some(i), fuel - 1);
      VisitProjectF(items, g, "TargetName", i, fuel).value
        == if r.value.Some? then Some(SectionUpToLast(r.value.value, '.')) else None
  {
    VisitProjectTarget(items, g, "TargetName", i, fuel);
    TargetExpands(items, g, NameGuard, CurrentConfig(items[i].kind.store).outputFile, i, fuel - 1);
  }

  /** `TargetExt` is the last two '.'-separated fields of the expanded output
      file. */
  lemma TargetExtOfOutputFile(items: seq<Item>, g: Guards, i: ItemId, fuel: nat)
    requires ValidContext(items, Some(i)) && items[i].kind.ProjectItem? && !g.ext && fuel >= 1
    ensures var r := ReplaceF(items, Set(g, ExtGuard, true), CurrentConfig(items[i].kind.store).outputFile, Some(i), fuel - 1);
      VisitProjectF(items, g, "TargetExt", i, fuel).value
        == if r.value.Some? then Some(SectionLastTwo(r.value.value, '.')) else None
  {
    VisitProjectTarget(items, g, "TargetExt", i, fuel);
    TargetExpands(items, g, ExtGuard, CurrentConfig(items[i].kind.store).outputFile, i, fuel - 1);
  }

  /** "\\$(ProjectName)" and an extension expand to a backslash, the
      project's name and the extension. */
  lemma ProjectNameStep(items: seq<Item>, g: Guards, i: ItemId, ext: string, fuel: nat)
    requires ValidContext(items, Some(i)) && items[i].kind.ProjectItem? && '$' !in items[i].text
    requires '$' !in ext && fuel >= 4
    ensures ReplaceF(items, g, "\\$(ProjectName)" + ext, Some(i), fuel)
         == Res(Some("\\" + items[i].text + ext), g)
  {
    var p, name := "\\", "ProjectName";
    TargetFileNameIsName();
    assert "\\$(ProjectName)" == p + "$(" + name + ")";
    ProjectKeys(items, g, i, fuel - 1);
    ReplaceStep(items, g, p, name, ext, Some(i), fuel, Res(Some(items[i].text), g));
    var out := p + items[i].text + ext;
    assert ReplaceF(items, g, p + "$(" + name + ")" + ext, Some(i), fuel) == ReplaceF(items, g, out, Some(i), fuel - 1);
    assert '$' !in out;
    NoDollarNoToken(out);
    ReplaceDone(items, g, out, Some(i), fuel - 1);
  }

  /** The default output file "$(OutDir)\\$(ProjectName)" plus extension
      expands to a backslash, the project's name and the extension: no node
      answers "OutDir". */
  lemma DefaultOutputFileExpansion(items: seq<Item>, g: Guards, i: ItemId, t: TargetType, fuel: nat)
    requires ValidContext(items, Some(i)) && items[i].kind.ProjectItem? && '$' !in items[i].text
    requires fuel >= 5 && fuel > 2 * Depth(items, Some(i)) + 1
    ensures ReplaceF(items, g, DefaultOutputFile(t), Some(i), fuel)
         == Res(Some("\\" + items[i].text + DefaultOutputExtension(t)), g)
  {
    DefaultOutputFileShape(t);
    DefaultTemplateExpansion(items, g, i, DefaultOutputExtension(t), fuel);
  }

  /** The default output template with any dollar-free extension. */
  lemma DefaultTemplateExpansion(items: seq<Item>, g: Guards, i: ItemId, ext: string, fuel: nat)
    requires ValidContext(items, Some(i)) && items[i].kind.ProjectItem? && '$' !in items[i].text
    requires '$' !in ext && fuel >= 5 && fuel > 2 * Depth(items, Some(i)) + 1
    ensures ReplaceF(items, g, "" + "$(" + "OutDir" + ")" + ("\\$(ProjectName)" + ext), Some(i), fuel)
         == Res(Some("\\" + items[i].text + ext), g)
  {
    var rest := "\\$(ProjectName)" + ext;
    assert ReplaceF(items, g, "" + "$(" + "OutDir" + ")" + rest, Some(i), fuel) == ReplaceF(items, g, rest, Some(i), fuel - 1) by {
      OutDirStep(items, g, i, rest, fuel);
    }
    assert ReplaceF(items, g, rest, Some(i), fuel - 1) == Res(Some("\\" + items[i].text + ext), g) by {
      ProjectNameStep(items, g, i, ext, fuel - 1);
    }
  }

  /** A leading `OutDir` token expands to nothing and leaves the rest. */
  lemma OutDirStep(items: seq<Item>, g: Guards, i: ItemId, rest: string, fuel: nat)
    requires ValidContext(items, Some(i)) && fuel > 2 * Depth(items, Some(i)) + 1
    ensures ReplaceF(items, g, "" + "$(" + "OutDir" + ")" + rest, Some(i), fuel) == ReplaceF(items, g, rest, Some(i), fuel - 1)
  {
    TargetFileNameIsName();
    UnansweredKeyIsEmpty(items, g, "OutDir", Some(i), fuel - 1);
    ReplaceStep(items, g, "", "OutDir", rest, Some(i), fuel, Res(Some(""), g));
    assert "" + "" + rest == rest;
  }

  /** The default output file is the `OutDir` token, then the rest. */
  lemma DefaultOutputFileShape(t: TargetType)
    ensures '$' !in DefaultOutputExtension(t)
    ensures DefaultOutputFile(t) == "" + "$(" + "OutDir" + ")" + ("\\$(ProjectName)" + DefaultOutputExtension(t))
  {
    var e := DefaultOutputExtension(t);
    assert e == ".exe" || e == ".dll" || e == ".lib" || e == "";
    assert "" + "$(" + "OutDir" + ")" == "$(OutDir)";
    assert "$(OutDir)\\$(ProjectName)" == "$(OutDir)" + "\\$(ProjectName)";
    assert ("$(OutDir)" + "\\$(ProjectName)") + e == "$(OutDir)" + ("\\$(ProjectName)" + e);
  }
}
