/** One build configuration of a project (a `Configuration` element of a
    legacy project file) and its decoding from the element's attributes and
    its `Tool` children. */
module ProjectConfig {
  import opened Text
  import opened Xml
  import opened Wrappers

  datatype TargetType = Unknown | Application | DynamicLibrary | StaticLibrary | Generic

  datatype CharacterSet = CharSetNotSet | CharSetUnicode | CharSetMBCS

  datatype RuntimeLibrary = MultiThreaded | MultiThreadedDebug | MultiThreadedDll | MultiThreadedDebugDll

  datatype SubSystem = SubSystemNotSet | SubSystemConsole | SubSystemWindows | SubSystemNative

  /** Numbering of the enumerators, as declared. Each one decodes back to
      itself. */
  function TargetTypeCode(t: TargetType): (n: int)
    ensures 0 <= n <= 4
    ensures DecodeTargetType(n) == t
  {
    match t
    case Unknown => 0
    case Application => 1
    case DynamicLibrary => 2
    case StaticLibrary => 3
    case Generic => 4
  }

  function CharacterSetCode(c: CharacterSet): (n: int)
    ensures 0 <= n <= 2
    ensures DecodeCharacterSet(n) == c
  {
    match c
    case CharSetNotSet => 0
    case CharSetUnicode => 1
    case CharSetMBCS => 2
  }

  function RuntimeLibraryCode(l: RuntimeLibrary): (n: int)
    ensures 0 <= n <= 3
    ensures DecodeRuntimeLibrary(n) == l
  {
    match l
    case MultiThreaded => 0
    case MultiThreadedDebug => 1
    case MultiThreadedDll => 2
    case MultiThreadedDebugDll => 3
  }

  function SubSystemCode(s: SubSystem): (n: int)
    ensures 0 <= n <= 3
    ensures DecodeSubSystem(n) == s
  {
    match s
    case SubSystemNotSet => 0
    case SubSystemConsole => 1
    case SubSystemWindows => 2
    case SubSystemNative => 3
  }

  /** Codes 1..4 name a target type; every other code is `Unknown`. */
  function DecodeTargetType(n: int): (t: TargetType)
    ensures !(1 <= n <= 4) ==> t == Unknown
  {
    if n == 1 then Application
    else if n == 2 then DynamicLibrary
    else if n == 3 then StaticLibrary
    else if n == 4 then Generic
    else Unknown
  }

  /** Codes 1..2 name a character set; every other code is "not set". */
  function DecodeCharacterSet(n: int): (c: CharacterSet)
    ensures !(1 <= n <= 2) ==> c == CharSetNotSet
  {
    if n == 1 then CharSetUnicode
    else if n == 2 then CharSetMBCS
    else CharSetNotSet
  }

  /** Codes 0..3 name a runtime library; every other code is `MultiThreaded`. */
  function DecodeRuntimeLibrary(n: int): (l: RuntimeLibrary)
    ensures !(0 <= n <= 3) ==> l == MultiThreaded
  {
    if n == 1 then MultiThreadedDebug
    else if n == 2 then MultiThreadedDll
    else if n == 3 then MultiThreadedDebugDll
    else MultiThreaded
  }

  /** Codes 1..3 name a subsystem; every other code is "not set". */
  function DecodeSubSystem(n: int): (s: SubSystem)
    ensures !(1 <= n <= 3) ==> s == SubSystemNotSet
  {
    if n == 1 then SubSystemConsole
    else if n == 2 then SubSystemWindows
    else if n == 3 then SubSystemNative
    else SubSystemNotSet
  }

  /** Every code in range names the enumerator numbered with it. */
  lemma {:induction false} CodesDecodeBack(n: int)
    ensures 1 <= n <= 4 ==> TargetTypeCode(DecodeTargetType(n)) == n
    ensures 1 <= n <= 2 ==> CharacterSetCode(DecodeCharacterSet(n)) == n
    ensures 0 <= n <= 3 ==> RuntimeLibraryCode(DecodeRuntimeLibrary(n)) == n
    ensures 1 <= n <= 3 ==> SubSystemCode(DecodeSubSystem(n)) == n
  {
  }

  datatype Config = Config(
    // general
    configurationName: string,
    targetArchitecture: string,
    outputDirectory: string,
    configurationType: TargetType,
    characterSet: CharacterSet,
    wholeProgramOptimization: bool,
    // compiler tool
    optimizationLevel: int,
    intrinsicInstructions: bool,
    additionalIncludeDirectories: seq<string>,
    preprocessorDefines: map<string, string>,
    rtLibrary: RuntimeLibrary,
    usepch: bool,
    warningLevel: int,
    // linker tool
    linkIncremental: bool,
    subSystem: SubSystem,
    outputFile: string)

  /** The value-initialised record: every enumeration at code 0, every flag
      false, every number 0, every string and collection empty. */
  const DefaultConfig: Config := Config("", "", "", Unknown, CharSetNotSet, false,
                                        0, false, [], map[], MultiThreaded, false, 0,
                                        false, SubSystemNotSet, "")

  lemma DefaultConfigIsZero()
    ensures TargetTypeCode(DefaultConfig.configurationType) == 0
    ensures CharacterSetCode(DefaultConfig.characterSet) == 0
    ensures RuntimeLibraryCode(DefaultConfig.rtLibrary) == 0
    ensures SubSystemCode(DefaultConfig.subSystem) == 0
    ensures DefaultConfig.outputFile == "" && DefaultConfig.preprocessorDefines == map[]
  {
  }

  /** The key a project files a configuration under: name, '|', architecture. */
  function ConfigKey(c: Config): (k: string)
    ensures '|' in k
  {
    var k := c.configurationName + "|" + c.targetArchitecture;
    assert k[|c.configurationName|] == '|';
    k
  }

  /** Extension of the default output file for a target type. */
  function DefaultOutputExtension(t: TargetType): (ext: string)
    ensures ext == "" <==> t == Unknown || t == Generic
    ensures t == Application ==> ext == ".exe"
    ensures t == DynamicLibrary ==> ext == ".dll"
    ensures t == StaticLibrary ==> ext == ".lib"
  {
    match t
    case Application => ".exe"
    case DynamicLibrary => ".dll"
    case StaticLibrary => ".lib"
    case _ => ""
  }

  /** Output-file template used when the linker tool names none. */
  function DefaultOutputFile(t: TargetType): string
  {
    "$(OutDir)\\$(ProjectName)" + DefaultOutputExtension(t)
  }

  /** Name and architecture of a `Name` attribute: the first and second
      '|'-separated pieces; the second is "" when there is no '|', and any
      further pieces are dropped. */
  function NameAndArch(s: string): (r: (string, string))
    ensures '|' !in r.0 && '|' !in r.1
    ensures '|' !in s ==> r == (s, "")
    ensures '|' in s ==> r.0 + "|" + r.1 <= s
    ensures '|' in s && |s| > |r.0 + "|" + r.1| ==> s[|r.0 + "|" + r.1|] == '|'
  {
    var f := Split(s, '|');
    SplitFirstTwo(s, '|');
    (Piece(f, 0), Piece(f, 1))
  }

  /** The first piece of a split is a prefix of the string; it is the whole
      string when there is one piece, and a separator follows it otherwise. */
  lemma SplitHead(s: string, sep: char)
    ensures var f := Split(s, sep);
      f[0] <= s && (|f| == 1 ==> f[0] == s)
      && (|f| >= 2 ==> |f[0]| < |s| && s[|f[0]|] == sep && f[1..] == Split(s[|f[0]| + 1..], sep))
  {
  }

  lemma PrefixThrough(a: string, sep: char, t: string, n: nat)
    requires n <= |t|
    ensures a + [sep] + t[..n] <= a + [sep] + t
  {
    assert (a + [sep] + t)[..|a| + 1 + n] == a + [sep] + t[..n];
  }

  /** The first two pieces of a split, with the separator between them, are
      a prefix of the string, followed by the separator when more follows. */
  lemma SplitFirstTwo(s: string, sep: char)
    ensures var f := Split(s, sep);
      |f| >= 2 ==> f[0] + [sep] + f[1] <= s
                   && (|s| > |f[0] + [sep] + f[1]| ==> s[|f[0] + [sep] + f[1]|] == sep)
  {
    var f := Split(s, sep);
    if |f| >= 2 {
      var a := f[0];
      assert |a| < |s| && s[|a|] == sep && f[1..] == Split(s[|a| + 1..], sep) && a <= s by {
        SplitHead(s, sep);
      }
      var t := s[|a| + 1..];
      var g := Split(t, sep);
      var b := g[0];
      assert b <= t && (|g| == 1 ==> b == t) && (|g| >= 2 ==> t[|b|] == sep) by {
        SplitHead(t, sep);
      }
      assert f[1] == b by {
        assert f[1..][0] == f[1];
      }
      assert s == a + [sep] + t;
      PrefixThrough(a, sep, t, |b|);
      if |s| > |a| + 1 + |b| {
        assert s[|a| + 1 + |b|] == t[|b|];
      }
    }
  }

  // ---------------------------------------------------------------------
  // Preprocessor definitions

  /** Name and value of one `NAME=VALUE` piece: the first and second
      '='-separated pieces; the value is "" when there is no '='. */
  function DefineName(p: string): string { Piece(Split(p, '='), 0) }
  function DefineValue(p: string): string { Piece(Split(p, '='), 1) }

  /** The definitions inserted one by one, in order, into `m`. */
  function InsertDefines(m: map<string, string>, pieces: seq<string>): map<string, string>
    decreases |pieces|
  {
    if pieces == [] then m
    else InsertDefines(m[DefineName(pieces[0]) := DefineValue(pieces[0])], pieces[1..])
  }

  /** Value of the LAST piece named `k`, if any: an independent reading of
      what the insertion loop leaves behind. */
  function LastDefinition(pieces: seq<string>, k: string): Option<string>
  {
    if pieces == [] then None
    else if DefineName(pieces[|pieces| - 1]) == k then Some(DefineValue(pieces[|pieces| - 1]))
    else LastDefinition(pieces[..|pieces| - 1], k)
  }

  lemma {:induction false} InsertDefinesSnoc(m: map<string, string>, pieces: seq<string>, p: string)
    ensures InsertDefines(m, pieces + [p]) == InsertDefines(m, pieces)[DefineName(p) := DefineValue(p)]
    decreases |pieces|
  {
    if pieces != [] {
      assert (pieces + [p])[1..] == pieces[1..] + [p];
      InsertDefinesSnoc(m[DefineName(pieces[0]) := DefineValue(pieces[0])], pieces[1..], p);
    }
  }

  /** Later duplicates overwrite earlier ones: after the insertions, a name
      holds the value of its last definition, and a name no piece defines
      keeps the value it had. */
  lemma {:induction false} DefinesLastWins(m: map<string, string>, pieces: seq<string>, k: string)
    ensures k in InsertDefines(m, pieces) <==> k in m || LastDefinition(pieces, k).Some?
    ensures LastDefinition(pieces, k).Some? ==> InsertDefines(m, pieces)[k] == LastDefinition(pieces, k).value
    ensures LastDefinition(pieces, k).None? && k in m ==> InsertDefines(m, pieces)[k] == m[k]
  {
    if pieces != [] {
      var n := |pieces| - 1;
      assert pieces == pieces[..n] + [pieces[n]];
      InsertDefinesSnoc(m, pieces[..n], pieces[n]);
      DefinesLastWins(m, pieces[..n], k);
    }
  }

  // ---------------------------------------------------------------------
  // The three attribute groups

  /** Attributes of the `Configuration` element itself. */
  function WithGeneric(result: Config, e: Element): Config
  {
    var na := NameAndArch(Attr(e, "Name"));
    result.(configurationName := na.0,
            targetArchitecture := na.1,
            configurationType := DecodeTargetType(ToInt(Attr(e, "ConfigurationType"))),
            outputDirectory := Attr(e, "OutputDirectory"),
            characterSet := DecodeCharacterSet(ToInt(Attr(e, "CharacterSet"))),
            wholeProgramOptimization := ToInt(Attr(e, "WholeProgramOptimization")) != 0)
  }

  /** Attributes of a `VCCLCompilerTool` tool. The definitions are added to
      those already present; the include directories replace them. */
  function WithCompilerTool(result: Config, tool: Element): Config
  {
    result.(optimizationLevel := ToInt(Attr(tool, "Optimization")),
            intrinsicInstructions := EqualsIgnoreCase(Attr(tool, "EnableIntrinsicFunctions"), "true"),
            preprocessorDefines := InsertDefines(result.preprocessorDefines,
                                                 Split(Attr(tool, "PreprocessorDefinitions"), ';')),
            additionalIncludeDirectories := Split(Attr(tool, "AdditionalIncludeDirectories"), ';'),
            rtLibrary := DecodeRuntimeLibrary(ToInt(Attr(tool, "RuntimeLibrary"))),
            usepch := ToInt(Attr(tool, "UsePrecompiledHeader")) != 0,
            warningLevel := ToInt(Attr(tool, "WarningLevel")))
  }

  /** Attributes of a `VCLinkerTool` tool. Without an `OutputFile` attribute
      the output file is the default template for the target type already
      decoded. */
  function WithLinkerTool(result: Config, tool: Element): Config
  {
    result.(linkIncremental := ToInt(Attr(tool, "LinkIncremental")) != 0,
            subSystem := DecodeSubSystem(ToInt(Attr(tool, "SubSystem"))),
            outputFile := if HasAttr(tool, "OutputFile") then Attr(tool, "OutputFile")
                          else DefaultOutputFile(result.configurationType))
  }

  /** Effect of one child of a `Configuration` element. */
  function WithChild(result: Config, child: Element): Config
  {
    if child.name != "Tool" then result
    else if Attr(child, "Name") == "VCCLCompilerTool" then WithCompilerTool(result, child)
    else if Attr(child, "Name") == "VCLinkerTool" then WithLinkerTool(result, child)
    else result
  }

  function WithChildren(result: Config, children: seq<Element>): Config
    decreases |children|
  {
    if children == [] then result else WithChildren(WithChild(result, children[0]), children[1..])
  }

  /** The record a `Configuration` element decodes to. */
  function ConfigOf(e: Element): Config
  {
    WithChildren(WithGeneric(DefaultConfig, e), e.children)
  }

  predicate IsTool(child: Element, toolName: string)
  {
    child.name == "Tool" && Attr(child, "Name") == toolName
  }

  // ---------------------------------------------------------------------
  // The imperative decoders

  /** Inserts the `NAME=VALUE` pieces one at a time; a later piece with the
      same name overwrites an earlier one. */
  method AddDefines(m: map<string, string>, pieces: seq<string>) returns (defines: map<string, string>)
    ensures defines == InsertDefines(m, pieces)
  {
    defines := m;
    var i := 0;
    while i < |pieces|
      invariant 0 <= i <= |pieces|
      invariant InsertDefines(defines, pieces[i..]) == InsertDefines(m, pieces)
    {
      var nameAndValue := Split(pieces[i], '=');
      defines := defines[Piece(nameAndValue, 0) := Piece(nameAndValue, 1)];
      assert pieces[i..][1..] == pieces[i + 1..];
      i := i + 1;
    }
  }

  /** Decodes a compiler tool into `result`. */
  method ParseConfigCompilerTool(result: Config, tool: Element) returns (r: Config)
    ensures r == WithCompilerTool(result, tool)
  {
    var defines := AddDefines(result.preprocessorDefines, Split(Attr(tool, "PreprocessorDefinitions"), ';'));
    var runtimeLibrary := ToInt(Attr(tool, "RuntimeLibrary"));
    r := result.(optimizationLevel := ToInt(Attr(tool, "Optimization")),
                 intrinsicInstructions := EqualsIgnoreCase(Attr(tool, "EnableIntrinsicFunctions"), "true"),
                 preprocessorDefines := defines,
                 additionalIncludeDirectories := Split(Attr(tool, "AdditionalIncludeDirectories"), ';'),
                 rtLibrary := if 0 <= runtimeLibrary < 4 then DecodeRuntimeLibrary(runtimeLibrary) else MultiThreaded,
                 usepch := ToInt(Attr(tool, "UsePrecompiledHeader")) != 0,
                 warningLevel := ToInt(Attr(tool, "WarningLevel")));
  }

  /** Decodes a `Configuration` element: its own attributes first, then each
      child in document order, where only tools named `VCCLCompilerTool` and
      `VCLinkerTool` have an effect. */
  method ParseConfig(e: Element) returns (r: Config)
    ensures r == ConfigOf(e)
  {
    r := WithGeneric(DefaultConfig, e);
    var i := 0;
    while i < |e.children|
      invariant 0 <= i <= |e.children|
      invariant WithChildren(r, e.children[i..]) == ConfigOf(e)
    {
      var child := e.children[i];
      assert e.children[i..][1..] == e.children[i + 1..];
      i := i + 1;
      if child.name != "Tool" {
        continue;
      }
      var toolName := Attr(child, "Name");
      if toolName == "VCCLCompilerTool" {
        r := ParseConfigCompilerTool(r, child);
      } else if toolName == "VCLinkerTool" {
        r := WithLinkerTool(r, child);
      }
    }
  }

  // ---------------------------------------------------------------------
  // Properties of the decoding

  /** Tools never touch the fields decoded from the element's own attributes. */
  lemma {:induction false} ChildrenKeepGeneric(result: Config, children: seq<Element>)
    ensures SameGeneric(WithChildren(result, children), result)
    decreases |children|
  {
    if children != [] {
      ChildKeepsGeneric(result, children[0]);
      ChildrenKeepGeneric(WithChild(result, children[0]), children[1..]);
    }
  }

  lemma ChildKeepsGeneric(result: Config, c: Element)
    ensures SameGeneric(WithChild(result, c), result)
  {
    if c.name == "Tool" && Attr(c, "Name") == "VCCLCompilerTool" {
      CompilerKeepsGeneric(result, c);
    } else if c.name == "Tool" && Attr(c, "Name") == "VCLinkerTool" {
      LinkerKeepsGeneric(result, c);
    }
  }

  lemma CompilerKeepsGeneric(result: Config, tool: Element)
    ensures SameGeneric(WithCompilerTool(result, tool), result)
  {
  }

  lemma LinkerKeepsGeneric(result: Config, tool: Element)
    ensures SameGeneric(WithLinkerTool(result, tool), result)
  {
  }

  /** The fields decoded from a `Configuration` element's own attributes
      agree. */
  predicate SameGeneric(r: Config, result: Config)
  {
    r.configurationName == result.configurationName
    && r.targetArchitecture == result.targetArchitecture
    && r.configurationType == result.configurationType
    && r.outputDirectory == result.outputDirectory
    && r.characterSet == result.characterSet
    && r.wholeProgramOptimization == result.wholeProgramOptimization
  }

  /** The general fields of a decoded configuration come from the element's
      own attributes: the name is split at '|', out-of-range codes (including
      text that is not a number) fall back to their defaults. */
  lemma ConfigOfGeneral(e: Element)
    ensures var c := ConfigOf(e);
      (c.configurationName, c.targetArchitecture) == NameAndArch(Attr(e, "Name"))
      && c.configurationType == DecodeTargetType(ToInt(Attr(e, "ConfigurationType")))
      && c.outputDirectory == Attr(e, "OutputDirectory")
      && c.characterSet == DecodeCharacterSet(ToInt(Attr(e, "CharacterSet")))
      && c.wholeProgramOptimization == (ToInt(Attr(e, "WholeProgramOptimization")) != 0)
  {
    ChildrenKeepGeneric(WithGeneric(DefaultConfig, e), e.children);
  }

  /** The key of a decoded configuration is its `Name` attribute when that
      holds exactly one '|', and the name followed by "|" when it holds none. */
  lemma ConfigOfKey(e: Element)
    ensures '|' !in Attr(e, "Name") ==> ConfigKey(ConfigOf(e)) == Attr(e, "Name") + "|"
    ensures |Split(Attr(e, "Name"), '|')| == 2 ==> ConfigKey(ConfigOf(e)) == Attr(e, "Name")
  {
    var s := Attr(e, "Name");
    ConfigOfGeneral(e);
    var f := Split(s, '|');
    if |f| == 2 {
      assert Join(f[1..], '|') == f[1];
    }
  }

  /** The last linker tool among the children, if any. */
  function LastTool(children: seq<Element>, toolName: string): Option<Element>
  {
    if children == [] then None
    else if IsTool(children[|children| - 1], toolName) then Some(children[|children| - 1])
    else LastTool(children[..|children| - 1], toolName)
  }

  lemma {:induction false} WithChildrenSnoc(result: Config, children: seq<Element>, c: Element)
    ensures WithChildren(result, children + [c]) == WithChild(WithChildren(result, children), c)
    decreases |children|
  {
    if children != [] {
      assert (children + [c])[1..] == children[1..] + [c];
      WithChildrenSnoc(WithChild(result, children[0]), children[1..], c);
    }
  }

  /** Output file a linker tool sets for a configuration of type `t`. */
  function LinkerOutputFile(tool: Element, t: TargetType): string
  {
    if HasAttr(tool, "OutputFile") then Attr(tool, "OutputFile") else DefaultOutputFile(t)
  }

  lemma WithChildOutputFile(result: Config, c: Element)
    ensures WithChild(result, c).configurationType == result.configurationType
    ensures WithChild(result, c).outputFile
            == if IsTool(c, "VCLinkerTool") then LinkerOutputFile(c, result.configurationType) else result.outputFile
  {
    if c.name == "Tool" && Attr(c, "Name") == "VCCLCompilerTool" {
      CompilerKeepsGeneric(result, c);
      assert WithCompilerTool(result, c).outputFile == result.outputFile;
    } else if c.name == "Tool" && Attr(c, "Name") == "VCLinkerTool" {
      LinkerKeepsGeneric(result, c);
    }
  }

  /** The output file is set by the last linker tool: its `OutputFile`
      attribute verbatim, or the default template for the configuration's
      target type; without a linker tool it keeps its previous value. */
  lemma {:induction false} OutputFileFromLastLinker(result: Config, children: seq<Element>)
    ensures WithChildren(result, children).outputFile
            == match LastTool(children, "VCLinkerTool")
               case None => result.outputFile
               case Some(t) => LinkerOutputFile(t, result.configurationType)
    decreases |children|
  {
    if children != [] {
      var n := |children| - 1;
      assert children == children[..n] + [children[n]];
      WithChildrenSnoc(result, children[..n], children[n]);
      OutputFileFromLastLinker(result, children[..n]);
      ChildrenKeepGeneric(result, children[..n]);
      WithChildOutputFile(WithChildren(result, children[..n]), children[n]);
    }
  }

  /** A configuration without a linker tool has an empty output file; with
      one that names no output file it gets `$(OutDir)\$(ProjectName)` and
      the extension of its target type. */
  lemma ConfigOfOutputFile(e: Element)
    ensures LastTool(e.children, "VCLinkerTool").None? ==> ConfigOf(e).outputFile == ""
    ensures LastTool(e.children, "VCLinkerTool").Some? && !HasAttr(LastTool(e.children, "VCLinkerTool").value, "OutputFile")
            ==> ConfigOf(e).outputFile == DefaultOutputFile(ConfigOf(e).configurationType)
  {
    OutputFileFromLastLinker(WithGeneric(DefaultConfig, e), e.children);
    ChildrenKeepGeneric(WithGeneric(DefaultConfig, e), e.children);
  }

  /** Only tools named `VCCLCompilerTool` or `VCLinkerTool` affect the record:
      dropping every other child changes nothing. */
  function RelevantChildren(children: seq<Element>): (r: seq<Element>)
    ensures forall k :: 0 <= k < |r| ==> IsTool(r[k], "VCCLCompilerTool") || IsTool(r[k], "VCLinkerTool")
  {
    if children == [] then []
    else if IsTool(children[0], "VCCLCompilerTool") || IsTool(children[0], "VCLinkerTool")
    then [children[0]] + RelevantChildren(children[1..])
    else RelevantChildren(children[1..])
  }

  lemma {:induction false} OnlyKnownToolsMatter(result: Config, children: seq<Element>)
    ensures WithChildren(result, children) == WithChildren(result, RelevantChildren(children))
    decreases |children|
  {
    if children != [] {
      OnlyKnownToolsMatter(WithChild(result, children[0]), children[1..]);
      var rest := RelevantChildren(children[1..]);
      if IsTool(children[0], "VCCLCompilerTool") || IsTool(children[0], "VCLinkerTool") {
        assert ([children[0]] + rest)[1..] == rest;
      }
    }
  }

  /** Without any tool the record keeps the defaults for every tool field. */
  lemma NoToolsNoToolFields(e: Element)
    requires RelevantChildren(e.children) == []
    ensures ConfigOf(e).outputFile == "" && ConfigOf(e).preprocessorDefines == map[]
    ensures ConfigOf(e).additionalIncludeDirectories == [] && !ConfigOf(e).linkIncremental
  {
    OnlyKnownToolsMatter(WithGeneric(DefaultConfig, e), e.children);
  }
}
