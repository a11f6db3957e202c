# MSVC project importer — a verified model

This project models the platform-independent core of the KDevelop plugin
that imports Microsoft Visual Studio solutions (`.sln`) and projects
(`.vcproj`, `.vcxproj`) into the IDE's project tree. The model covers five
parts:

- **The node tree** (`modelitems.dfy`). Solutions, projects, filters, files
  and targets live in one arena, and each node refers to its parent by
  index. A project keeps its build configurations under `name|arch` keys
  and a current key. A solution keeps a table that binds each solution
  configuration to a configuration of each project, by uuid.
- **Configuration decoding** (`projectconfig.dfy`). A `Configuration`
  element becomes a typed record. Out-of-range codes fall back to their
  defaults. `|`, `;` and `=` split names, definitions and include lists.
  When the linker names no output file, a default template is used.
- **Macro expansion** (`replacer.dfy`, `replacerfacts.dfy`). `$(Name)`
  tokens are rewritten leftmost first against a node. The lookup depends
  on the node's kind, unknown keys are forwarded to the parent, and five
  re-entrancy guards cover the `Target*` keys.
- **Project readers** (`projectparser.dfy`). The `.vcproj` reader walks
  `Files`/`Filter`/`File` elements and can be cancelled between elements.
  It then adds the project's targets; the switch for `Unknown`/`Generic`
  falls through. The `.vcxproj` reader reads only the companion `.filters`
  file.
- **Import jobs and the manager's queries** (`importjob.dfy`,
  `manager.dfy`).
  - The solution job is a line loop. It matches `Project(...)` lines
    against a hand-written pattern matcher and skips one global-section
    shape.
  - The solution job completes under the `m_finished` / no-subjobs rule.
  - A project job reads its `.vcproj` under a kill flag.
  - `defines` and `includeDirectories` walk up to the nearest project.

Supporting modules:

- `text.dfy`: string operations (split/join, trimming, decimal conversion, `section`).
- `paths.dfy`: paths as segment lists, and resolution of relative paths.
- `xml.dfy`: XML as an element tree.
- `wrappers.dfy`: `Option`.

Imperative code is modelled as imperative Dafny:

- `ProjectTree` is a class whose methods append or update nodes.
- `VariableReplacer` is a class with the five guard fields.
- `CancelFlag`, `ProjectImportJob` and `SolutionImportJob` are classes.
- The readers and line loops are `while` loops.

Each such method is proved equal to a specification function (for example
`tree.items == WalkF(old(tree.items), …)`). The properties the code
promises are then proved about those functions.

Where the code's behaviour is surprising, the model follows the code:

- For an `outputFile` of `$(TargetPath)`, `TargetPath` gives the output
  directory followed by `\`, not "".
- A project followed by a `ProjectSection` line is not dispatched.
- Only the `GlobalSection(ProjectConfigurationPlatforms) = postSolution`
  section is skipped, and nothing inside it is interpreted.
- `section('.', -2, -1)` yields the last two dot-separated fields, so
  `InputExt` of `main.cpp` is `.main.cpp`.

## Model

| member | source | states |
|---|---|---|
| Text.Split | msvcprojectconfig.cpp:48 | splitting on a separator gives at least one piece; no piece holds the separator; joining the pieces gives the string back; there is exactly one piece iff the separator does not occur |
| Text.SplitJoin | msvcprojectconfig.cpp:81-90 | splitting pieces that were joined with a separator they do not contain gives the same pieces back |
| Text.ReplaceChar | msvcprojectparser.cpp:115 | character replacement keeps the length, turns every `from` into `to`, changes nothing else, and leaves no `from` behind |
| Text.Trimmed | msvcimportjob.cpp:241 | the trimmed line is a slice of the line between a whitespace-only head and tail, and neither starts nor ends with whitespace; whitespace is ASCII 9..13, NEL and the Unicode space, line and paragraph separators |
| Text.ToInt | msvcprojectconfig.cpp:55 | decimal conversion, which skips surrounding whitespace (the same set as trimming), always yields a 32-bit value |
| Text.ToIntDecimal | msvcprojectconfig.cpp:55 | the rendering of any non-negative 32-bit value converts back to that value |
| Text.ToIntNonNumeric | msvcprojectconfig.cpp:55 | text holding a character other than a digit, a sign or whitespace converts to 0 |
| Text.SectionUpToLastSplits | msvcmodelitems.cpp:273 | `section(sep, 0, -2)` is everything before the last separator: putting back the separator and the last field gives the string, and without a separator it is "" |
| Text.SectionLastTwoWhole | msvcmodelitems.cpp:291 | `section(sep, -2, -1)` of a string with at most one separator is the whole string |
| Paths.LocalFile | msvcmodelitems.cpp:197-201 | a local path's file name is absolute and starts with '/'; any other path has the empty file name |
| Paths.Parent | msvcprojectparser.cpp:117 | the parent of a valid path is valid, on the same side (local or not), and one segment shorter unless it is the root |
| Paths.WithLastSegment | msvcprojectparser.cpp:196-197 | replacing the last segment keeps validity, locality and the parent directory, and the new last segment is the given name |
| Paths.ResolvePlain | msvcprojectparser.cpp:117 | a relative path of plain segments resolves to the base directory extended by those segments; a single segment lies directly in the base directory |
| Paths.ResolveEmpty | msvcimportjob.cpp:215 | resolving the empty relative path gives the base directory |
| ProjectConfig.TargetTypeCode | msvcprojectconfig.h:31-38 | target types are numbered 0..4 as declared, and each number decodes back to its enumerator |
| ProjectConfig.CharacterSetCode | msvcprojectconfig.h:40-45 | character sets are numbered 0..2 as declared and decode back |
| ProjectConfig.RuntimeLibraryCode | msvcprojectconfig.h:47-53 | runtime libraries are numbered 0..3 as declared and decode back |
| ProjectConfig.SubSystemCode | msvcprojectconfig.h:55-61 | subsystems are numbered 0..3 as declared and decode back |
| ProjectConfig.DecodeTargetType | msvcprojectconfig.cpp:55-59 | a `ConfigurationType` outside 1..4, including non-numeric text read as 0, is `Unknown` |
| ProjectConfig.DecodeCharacterSet | msvcprojectconfig.cpp:63-67 | a `CharacterSet` outside 1..2 is "not set" |
| ProjectConfig.DecodeRuntimeLibrary | msvcprojectconfig.cpp:92-95 | a `RuntimeLibrary` outside 0..3 is `MultiThreaded` |
| ProjectConfig.DecodeSubSystem | msvcprojectconfig.cpp:105-109 | a `SubSystem` outside 1..3 is "not set" |
| ProjectConfig.CodesDecodeBack | msvcprojectconfig.cpp:55-59 | every in-range code decodes to the enumerator with that number (the inverse of the numbering) |
| ProjectConfig.DefaultConfigIsZero | msvcprojectconfig.cpp:122 | the value-initialised record has every enumeration at code 0, an empty output file and no definitions |
| ProjectConfig.ConfigKey | msvcmodelitems.cpp:89 | a configuration's key always holds the vertical bar between name and architecture |
| ProjectConfig.DefaultOutputExtension | msvcprojectconfig.cpp:29-44 | the extension is `.exe`, `.dll` or `.lib` for application, dynamic and static library, and "" exactly for unknown and generic targets |
| ProjectConfig.NameAndArch | msvcprojectconfig.cpp:48-53 | name and architecture are the first two fields between vertical bars: neither holds a bar; without a bar the architecture is ""; otherwise name, bar, architecture is a prefix of the attribute, followed by a bar or the end |
| ProjectConfig.InsertDefinesSnoc | msvcprojectconfig.cpp:83-87 | inserting one more definition sets its name (before '=') to its value (after '=', or "") on top of the earlier ones |
| ProjectConfig.DefinesLastWins | msvcprojectconfig.cpp:81-87 | after the insertions a name is defined iff it was already or some piece defines it, and its value comes from the last piece that defines it |
| ProjectConfig.AddDefines | msvcprojectconfig.cpp:83-87 | the definition loop inserts the pieces in order |
| ProjectConfig.ParseConfigCompilerTool | msvcprojectconfig.cpp:72-99 | the compiler tool's attributes are decoded into the record; definitions are added, include directories are replaced by the ';' list |
| ProjectConfig.ParseConfig | msvcprojectconfig.cpp:118-146 | a `Configuration` element decodes its own attributes first, then each `Tool` child in order |
| ProjectConfig.ChildrenKeepGeneric | msvcprojectconfig.cpp:124-143 | tool children never change the fields read from the `Configuration` element itself |
| ProjectConfig.ConfigOfGeneral | msvcprojectconfig.cpp:46-70 | the general fields come from the element's attributes: name split at the vertical bar, codes decoded with their fallbacks, flag set iff its integer is nonzero |
| ProjectConfig.ConfigOfKey | msvcprojectconfig.cpp:48-53 | the key of a decoded configuration is its `Name` when that holds one vertical bar, and `Name` followed by a bar when it holds none |
| ProjectConfig.OutputFileFromLastLinker | msvcprojectconfig.cpp:111-113 | the output file is set by the last linker tool: its `OutputFile` attribute verbatim, or else the default template for the target type |
| ProjectConfig.ConfigOfOutputFile | msvcprojectconfig.cpp:111-113 | without a linker tool the output file stays ""; a linker tool without `OutputFile` gives `$(OutDir)\$(ProjectName)` plus the type's extension |
| ProjectConfig.OnlyKnownToolsMatter | msvcprojectconfig.cpp:126-143 | only `Tool` children named `VCCLCompilerTool` or `VCLinkerTool` affect the record |
| ProjectConfig.NoToolsNoToolFields | msvcprojectconfig.cpp:122-145 | without either tool the tool fields keep their defaults: no output file, definitions or include directories, no incremental linking |
| ModelItems.EmptyStoreValid | msvcmodelitems.cpp:108-111 | a project without configurations answers the default record |
| ModelItems.WithConfigurationValid | msvcmodelitems.cpp:87-96 | `addConfiguration` files the record under the key of name, vertical bar, architecture, replacing that key's entry, leaves the other keys alone, and sets the current key only if none was set |
| ModelItems.SelectConfigurationSpec | msvcmodelitems.cpp:98-106 | selection succeeds iff the key is filed; on success the key becomes current and its record is the current configuration, on failure nothing changes |
| ModelItems.CurrentConfigUnset | msvcmodelitems.cpp:108-111 | with no current key the current configuration is the default record |
| ModelItems.WithConfigurationsFiles | msvcmodelitems.cpp:87-96 | after a series of additions each key holds the last record added under it, and other keys keep their old records |
| ModelItems.WithConfigurationsKeepCurrent | msvcmodelitems.cpp:92-95 | once a current key is set, further additions never change it |
| ModelItems.WithConfigurationsValid | msvcmodelitems.cpp:87-96 | additions keep every key holding a vertical bar and the current key unset or filed |
| ModelItems.FirstConfigurationStaysCurrent | msvcmodelitems.cpp:87-96 | the first configuration a project lists decides the current key, and the current record is the last one listed under that key |
| ModelItems.Children | msvcprojectparser.cpp:35 | a node's children are exactly the nodes whose parent it is, in creation order |
| ModelItems.FindProjectByUuid | msvcmodelitems.cpp:144-155 | the search returns a direct child project of the solution with that uuid, the earliest one; it returns none iff no direct child project has it |
| ModelItems.NearestProject | msvcmanager.cpp:169-175 | the nearest project is the node itself or an ancestor; there is none only if the node is no project |
| ModelItems.NearestProjectIsNearest | msvcmanager.cpp:169-175 | when a project ancestor exists, the nearest project exists and lies at or below it, so no project sits between a node and its nearest project |
| ModelItems.ProjectTree.Add | msvcprojectparser.cpp:119 | a new node is appended as its parent's last child; the tree stays well formed |
| ModelItems.ProjectTree.NewProject | msvcmodelitems.cpp:68-74 | a new project node is named after its file without the extension, with no configurations and the null uuid |
| ModelItems.ProjectTree.NewSolution | msvcmodelitems.cpp:113-118 | a new solution node has an empty binding table |
| ModelItems.ProjectTree.AddConfiguration | msvcmodelitems.cpp:87-96 | only that project's store changes, by `addConfiguration` |
| ModelItems.ProjectTree.SetCurrentConfiguration | msvcmodelitems.cpp:98-106 | returns true iff the key is filed; then only that project's current key changes, otherwise nothing changes |
| ModelItems.ProjectTree.SetUuid | msvcmodelitems.h:78-83 | after `setUuid(u)` the project's uuid reads `u`; nothing else changes |
| ModelItems.ProjectTree.Rename | msvcmodelitems.h:42-45 | a filter always refuses with `ProjectManagerRenameFailed` and is unchanged; a project or solution takes the framework's answer and changes its name only on success |
| ModelItems.ProjectTree.AddProjectConfig | msvcmodelitems.h:107-112 | sets `binding[main][uuid] = cfg` and leaves every other binding as it was |
| ModelItems.ProjectTree.SetCurrentConfig | msvcmodelitems.cpp:131-155 | for every uuid bound under the name, the earliest direct child project with that uuid selects the bound configuration; no other node changes; an unknown name gets an empty binding |
| Replacer.AlnumRun | msvcmodelitems.cpp:159 | the run of `[a-zA-Z0-9]` characters is maximal |
| Replacer.TokenFrom | msvcmodelitems.cpp:159-163 | finds the leftmost `$(` alnum+ `)` token at or after a position, or reports that there is none |
| Replacer.FirstToken | msvcmodelitems.cpp:163-165 | the token found lies within the string |
| Replacer.FirstTokenLeftmost | msvcmodelitems.cpp:163-165 | the token found is a token, and no token starts before it |
| Replacer.FirstTokenText | msvcmodelitems.cpp:163-165 | the token found reads "$(", its name, ")", with a non-empty name of ASCII letters and digits |
| Replacer.FirstTokenNone | msvcmodelitems.cpp:163 | the scan finds nothing exactly when the string holds no token |
| Replacer.TokenText | msvcmodelitems.cpp:165-168 | a token's text is `$(`, its name and `)` |
| Replacer.Set | msvcmodelitems.h:156-160 | setting one guard changes that guard and no other |
| Replacer.ReplaceF | msvcmodelitems.cpp:157-172 | a finished expansion holds no token; guards are only ever cleared |
| Replacer.RoundF | msvcmodelitems.cpp:163-169 | one pass of the loop: with no token left the text is final, otherwise the leftmost token is replaced and expansion goes on; the result holds no token and guards are only ever cleared |
| Replacer.GetReplacementF | msvcmodelitems.cpp:174-191 | without a node any key gives "" |
| Replacer.VisitGenericF | msvcmodelitems.cpp:193-223 | a key every node answers is answered from the node's own path and name |
| Replacer.TargetF | msvcmodelitems.cpp:266-292 | a `Target*` key whose guard is already up gives "" and lowers the guard; the guard is always down afterwards |
| Replacer.TargetPathF | msvcmodelitems.cpp:256-265 | `TargetPath` re-entered gives "" and lowers its guard |
| Replacer.ParentOf | msvcmodelitems.cpp:222 | a node's parent is an earlier node or none |
| Replacer.ExpandAll | msvcmodelitems.h:124-129 | the list form gives a list of the same length whose element i is the expansion of element i; it fails only if some element's expansion does |
| Replacer.ExpandAllOf | msvcmodelitems.h:124-129 | when every element expands, the list expansion is exactly those expansions |
| Replacer.ExpandAllFails | msvcmodelitems.h:124-129 | one element whose expansion does not end makes the list expansion fail |
| Replacer.VariableReplacer.constructor | msvcmodelitems.h:156-160 | all five guards start down |
| Replacer.VariableReplacer.SetGuard | msvcmodelitems.h:156-160 | writes one guard field |
| Replacer.VariableReplacer.Enter | msvcmodelitems.h:140-145 | entering a checker reports the guard's earlier value as `stop` and raises the guard |
| Replacer.VariableReplacer.Leave | msvcmodelitems.h:147 | leaving a checker lowers the guard unconditionally, even for a nested checker |
| Replacer.VariableReplacer.Replace | msvcmodelitems.cpp:157-172 | the rewrite loop computes `ReplaceF`, both its result and the guards it leaves |
| Replacer.VariableReplacer.GetReplacement | msvcmodelitems.cpp:174-191 | dispatch on the node's kind computes `GetReplacementF` |
| Replacer.VariableReplacer.VisitGeneric | msvcmodelitems.cpp:193-223 | computes `VisitGenericF` |
| Replacer.VariableReplacer.Target | msvcmodelitems.cpp:266-292 | a guarded `Target*` expansion computes `TargetF` |
| Replacer.VariableReplacer.TargetPath | msvcmodelitems.cpp:256-265 | computes `TargetPathF` |
| Replacer.VariableReplacer.ProjectTarget | msvcmodelitems.cpp:247-292 | computes `ProjectTargetF` |
| Replacer.VariableReplacer.VisitProject | msvcmodelitems.cpp:225-296 | computes `VisitProjectF` |
| Replacer.VariableReplacer.VisitSolution | msvcmodelitems.cpp:298-323 | computes `VisitSolutionF` |
| Replacer.VariableReplacer.ReplaceList | msvcmodelitems.h:124-129 | the list loop computes `ExpandAll` and leaves every guard down |
| ReplacerFacts.UnansweredKeyIsEmpty | msvcmodelitems.cpp:176-177 | a key no kind of node answers, such as `OutDir`, is passed up to the root and comes back as "" with the guards unchanged |
| ReplacerFacts.ForwardsToParent | msvcmodelitems.cpp:222 | a key a node does not answer itself is answered by its parent |
| ReplacerFacts.ProjectKeys | msvcmodelitems.cpp:227-246 | `ProjectName/Dir/Path/FileName` are the generic lookups on the project node itself |
| ReplacerFacts.SolutionKeys | msvcmodelitems.cpp:300-319 | `SolutionName/Dir` are the generic lookups on the solution node; `ProjectFileName` asked of a solution is the unanswered `SolutionFileName`, which gives "" |
| ReplacerFacts.NoDollarNoToken | msvcmodelitems.cpp:159 | a string without '$' holds no token |
| ReplacerFacts.TokenAfter | msvcmodelitems.cpp:163-165 | after a prefix without '$' the first token is the one that follows |
| ReplacerFacts.ReplaceStep | msvcmodelitems.cpp:163-168 | one round substitutes the leftmost token by its lookup and rescans from the start |
| ReplacerFacts.ReplaceDone | msvcmodelitems.cpp:163 | a string without tokens is returned unchanged |
| ReplacerFacts.ReplaceStepNone | msvcmodelitems.cpp:163-168 | the expansion fails when the first token's lookup does |
| ReplacerFacts.GetReplacementProject | msvcmodelitems.cpp:179-182 | a project node's lookups go to the project visit |
| ReplacerFacts.SelfReferentialFileName | msvcmodelitems.cpp:275-283 | an output file of exactly `$(TargetFileName)` gives a `TargetFileName` of "" |
| ReplacerFacts.PlainTargetDir | msvcmodelitems.cpp:247-255 | `TargetDir` is the output directory followed by '\' when the directory holds no token |
| ReplacerFacts.NestedTargetPath | msvcmodelitems.cpp:256-261 | inside `TargetPath`, a nested `$(TargetPath)` expands to "" |
| ReplacerFacts.SelfReferentialTargetPath | msvcmodelitems.cpp:256-265 | an output file of `$(TargetPath)` gives `TargetPath` = output directory + '\' |
| ReplacerFacts.NestedLookupIsEmpty | msvcmodelitems.cpp:247-292 | while a `Target*` key is being resolved on a project, a nested lookup of the same key gives "" |
| ReplacerFacts.TargetNameOfOutputFile | msvcmodelitems.cpp:266-274 | `TargetName` is the expanded output file up to its last '.' |
| ReplacerFacts.TargetExtOfOutputFile | msvcmodelitems.cpp:284-292 | `TargetExt` is the last two '.' fields of the expanded output file |
| ReplacerFacts.DefaultOutputFileExpansion | msvcprojectconfig.cpp:111-113 | the default output file `$(OutDir)\$(ProjectName)` + extension expands to '\', the project's name and the extension |
| ProjectParser.CancelFlag.constructor | msvcimportjob.cpp:44 | a flag starts with no read made |
| ProjectParser.CancelFlag.Poll | msvcprojectparser.cpp:110 | each read of the flag counts one poll; it reads raised from the kill point on |
| ProjectParser.Open | msvcprojectparser.cpp:55-70 | a file opens iff it is local and exists, and yields its contents |
| ProjectParser.FirstFilterNamed | msvcprojectparser.cpp:37-40 | the first child that is a filter with the name, or none iff no child is |
| ProjectParser.FindFilter | msvcprojectparser.cpp:33-49 | the search finds a filter with the name below the root; a direct child filter with the name is preferred over any deeper one |
| ProjectParser.FindInChildren | msvcprojectparser.cpp:42-46 | what is found is a filter with that name below the root; nothing is found only when every child's search fails |
| ProjectParser.FindInChildrenFirst | msvcprojectparser.cpp:42-46 | the children are searched in order: the result is that of the first child whose search succeeds, so a search that succeeds for some child always finds something |
| ProjectParser.FindFilterNone | msvcprojectparser.cpp:48 | the search fails only when no node below the root is a filter with that name |
| ProjectParser.WalkF | msvcprojectparser.cpp:106-132 | a file-list walk keeps the nodes before it and appends only file and filter nodes, each under the parent or under a filter node it appended earlier; it stops only after reading the flag raised, and never without a kill |
| ProjectParser.ParseFileList | msvcprojectparser.cpp:106-132 | the reader loop computes `WalkF`: same nodes, same number of flag reads, same stop |
| ProjectParser.WalkListing | msvcprojectparser.cpp:106-132 | without a kill the walk appends exactly the nodes of the file list in document order, each with its name, path and parent: a file node per `File`, under the walk's parent, at its `RelativePath` with '\' turned into '/' resolved against the project directory and named after its last segment; a filter node per `Filter`, under the walk's parent, followed right away by the nodes of its contents, which hang under that filter |
| ProjectParser.CancelOnlyTruncates | msvcprojectparser.cpp:108-111 | a killed walk appends a prefix of what the uninterrupted walk appends |
| ProjectParser.TargetKinds | msvcprojectparser.cpp:168-188 | `Unknown`/`Generic` give a generic target and an executable target (the case falls through); libraries give one library target; every other type one executable target |
| ProjectParser.TargetNodes | msvcprojectparser.cpp:173-186 | one target node per kind |
| ProjectParser.AddTargets | msvcprojectparser.cpp:168-188 | the target nodes are appended under the project, named after it |
| ProjectParser.WithConfigs | msvcprojectparser.cpp:150-160 | adding configurations keeps the number of nodes, the project, well-formedness and every node other than the project unchanged |
| ProjectParser.BodyF | msvcprojectparser.cpp:142-166 | reading the project body keeps the tree well formed, leaves every earlier node other than the project unchanged and only appends |
| ProjectParser.Header | msvcprojectparser.cpp:136-140 | renaming and setting the uuid keep the number of nodes, the project and every node other than the project unchanged |
| ProjectParser.ProjectF | msvcprojectparser.cpp:134-189 | reading a project element keeps the tree well formed, leaves every earlier node other than the project unchanged and only appends |
| ProjectParser.ParseConfigurations | msvcprojectparser.cpp:148-161 | the `Configuration` children are added to the project in document order |
| ProjectParser.ParseVisualStudioProject | msvcprojectparser.cpp:134-189 | the reader computes `ProjectF`: rename and uuid, then the body, then the targets of the current configuration |
| ProjectParser.RootsF | msvcprojectparser.cpp:95-101 | reading the top-level elements keeps the tree well formed, leaves every earlier node other than the project unchanged and only appends |
| ProjectParser.ParseVcProj | msvcprojectparser.cpp:91-104 | a new project node is created and every `VisualStudioProject` root (in any letter case) is read into it |
| ProjectParser.BodyConfigurations | msvcprojectparser.cpp:142-166 | without a kill, the body changes the project node only by adding every listed configuration in order |
| ProjectParser.ProjectOutcome | msvcprojectparser.cpp:136-188 | a new project read without a kill gets its uuid from `ProjectGUID`, its name from `Name` when the host accepts it, and ends with the targets for the type of the record filed under the first configuration's key |
| ProjectParser.FiltersPath | msvcprojectparser.cpp:196-197 | the filter file sits beside the project file, its name is the project file's name + `.filters`, and it is local iff the project file is |
| ProjectParser.FileParentF | msvcprojectparser.cpp:259-287 | a source item goes under the project or under a filter below it |
| ProjectParser.NoneFoundStays | msvcprojectparser.cpp:276-281 | with no nested filter found the item stays under the project |
| ProjectParser.LastFoundWins | msvcprojectparser.cpp:262-287 | when several nested `Filter`s are found, the last one found decides the item's parent |
| ProjectParser.GroupNode | msvcprojectparser.cpp:244-291 | an item-group element appends at most one node: a filter under the project, or a file under the project or one of its filters |
| ProjectParser.ItemGroupF | msvcprojectparser.cpp:240-298 | an item group appends only filters under the project and files under the project or its filters |
| ProjectParser.ItemGroupListing | msvcprojectparser.cpp:244-291 | an item group appends exactly its `Filter` and source items, in document order, as filters and files |
| ProjectParser.ProjectGroupsF | msvcprojectparser.cpp:225-231 | reading the `ItemGroup`s keeps the same shape of additions |
| ProjectParser.FilterFileF | msvcprojectparser.cpp:219-238 | reading a filter file keeps the same shape of additions |
| ProjectParser.ParseItemGroup | msvcprojectparser.cpp:240-298 | the reader loop computes `ItemGroupF` |
| ProjectParser.ParseProjectGroups | msvcprojectparser.cpp:225-231 | the reader loop computes `ProjectGroupsF` |
| ProjectParser.ParseFilterFile | msvcprojectparser.cpp:219-238 | the reader loop computes `FilterFileF` |
| ProjectParser.ParseVcxProj | msvcprojectparser.cpp:191-217 | without an openable local filter file there is no project and no node is left behind; otherwise a new project is read from its filter file alone |
| ProjectParser.Run | msvcprojectparser.cpp:53-89 | a non-local or unopenable project file, or a `.vcxproj` without its filter file, ends canceled with the tree unchanged; otherwise the project is read and a file node for the project file comes last |
| ImportJob.Span | msvcimportjob.cpp:247-256 | a run of a character class is maximal |
| ImportJob.MatchPieces | msvcimportjob.cpp:244-257 | a match yields one captured string per group of the pattern |
| ImportJob.ProjectLineMatches | msvcimportjob.cpp:244-274 | a well-formed `Project("{G}") = "N", "P", "{G}"` line matches with groups G, N, P, G, and dispatches P with '\' turned into '/' |
| ImportJob.NoBraceNoMatch | msvcimportjob.cpp:244-259 | a line without '{' never matches |
| ImportJob.OpensTrimmed | msvcimportjob.cpp:241 | for a tag that ends in a non-space, testing the text after the leading whitespace equals testing the trimmed line |
| ImportJob.TagsOpenTrimmed | msvcimportjob.cpp:241-278 | the loop's three tag tests agree with testing the trimmed line |
| ImportJob.SectionEnd | msvcimportjob.cpp:278-281 | skipping a global section moves forward and stays within the file |
| ImportJob.DispatchSource | msvcimportjob.cpp:241-274 | every dispatched path comes from a `Project` line followed by an `EndProject` line, in file order, and equals that line's dispatch |
| ImportJob.ScanLines | msvcimportjob.cpp:222-287 | the line loop dispatches exactly `ScanFrom(lines, 0)` |
| ImportJob.FinalLineNeverInterpreted | msvcimportjob.cpp:233 | changing the last line changes nothing unless that line follows a `Project` line and the change flips whether it starts with `EndProject` |
| ImportJob.SectionSkipped | msvcimportjob.cpp:276-282 | everything in the global section up to its `EndGlobalSection` is ignored, `Project` lines included |
| ImportJob.ProjectWithoutEndSkipped | msvcimportjob.cpp:261-264 | a project whose next line does not start with `EndProject` is not dispatched, and that next line is consumed unread |
| ImportJob.UnmatchedProjectDispatchesEmpty | msvcimportjob.cpp:259-274 | a `Project` line that does not match is still dispatched, with the empty path, because the guard tests `isValid()` |
| ImportJob.BraceFreeProjectDispatchesEmpty | msvcimportjob.cpp:259-274 | in particular a `Project` line without '{' is dispatched with the empty path |
| ImportJob.KilledBodyAddsNoNodes | msvcimportjob.cpp:105-108 | a project body read by a killed job adds no node |
| ImportJob.KilledProjectAddsOnlyTargets | msvcimportjob.cpp:131-186 | a killed project job appends at most two nodes, all of them targets |
| ImportJob.ProjectImportJob.constructor | msvcimportjob.cpp:40-45 | a new job is not canceled and has no error |
| ImportJob.ProjectImportJob.DoKill | msvcimportjob.cpp:61-72 | killing raises the flag, records error 1 and reports success |
| ImportJob.ProjectImportJob.Run | msvcimportjob.cpp:79-100 | an unopenable file changes nothing; otherwise each `VisualStudioProject` root is read into the job's node, under the kill flag, and a file node for the project file is added last |
| ImportJob.ProjectNodes | msvcimportjob.cpp:212-216 | one project node per dispatched path |
| ImportJob.SolutionImportJob.constructor | msvcimportjob.cpp:188-193 | a new job is not finished, has no subjobs, nothing queued and nothing reported |
| ImportJob.SolutionImportJob.Run | msvcimportjob.cpp:222-287 | an unopenable solution never becomes finished; otherwise the dispatched paths are queued in file order and the job is marked finished |
| ImportJob.SolutionImportJob.AddProject | msvcimportjob.cpp:212-220 | a delivered path appends one project node under the solution, at the solution directory joined with the path, and one fresh subjob for it |
| ImportJob.SolutionImportJob.Deliver | msvcimportjob.cpp:271-274 | the queued dispatches are delivered in order: for each path, a project node under the solution and a fresh, uncanceled subjob that reads that path into that node; the earlier subjobs stay |
| ImportJob.SolutionImportJob.Reconsider | msvcimportjob.cpp:289-296 | the result is reported when the run has finished and no subjob remains, and then the finished mark is cleared, so it is reported at most once |
| ImportJob.SolutionImportJob.SlotResult | msvcimportjob.cpp:206-210 | an ended subjob is removed, then completion is checked |
| Manager.Defines | msvcmanager.cpp:160-178 | the parent walk returns the current configuration's definitions of the nearest project, and none for no node or no project |
| Manager.DefinesFromEnclosingProject | msvcmanager.cpp:169-175 | a node inside a project takes the definitions of the project ancestor with no other project in between |
| Manager.IncludeEntries | msvcmanager.cpp:138-152 | there are no more kept include directories than entries |
| Manager.IncludeEntriesSound | msvcmanager.cpp:143-147 | each kept include directory is a valid path resolved from one of the entries |
| Manager.IncludeEntriesAppend | msvcmanager.cpp:138-152 | entries contribute independently, in list order |
| Manager.IncludeEntriesKeepAll | msvcmanager.cpp:143-147 | under a valid project directory every entry is kept, resolved against that directory |
| Manager.EmptyEntryIsProjectDir | msvcmanager.cpp:139-147 | an empty entry, as an absent attribute or a trailing ';' leaves, contributes the project directory itself |
| Manager.AppendIncludes | msvcmanager.cpp:138-152 | the loop appends the kept entries to the list |
| Manager.IncludeDirectories | msvcmanager.cpp:103-158 | the parent walk computes `IncludesOf`: the configured directories, then the expanded include entries of the nearest project only |
| Manager.IncludesFromEnclosingProject | msvcmanager.cpp:129-154 | for a node inside a project the include directories come from that project alone, expanded with it as context and resolved against its directory |

## Left out

- Reading from files, the XML stream reader, regular expressions, `QUrl`
  and `QUuid` are not modelled as such. A file is an entry of a map from
  path to contents, and an XML document is an element tree. The two fixed
  patterns are hand-written matchers. A path is a list of segments, and a
  uuid is its text.
- Reader-cursor effects are not modelled. An element the readers neither
  handle nor skip is treated as skipped, as at msvcprojectparser.cpp:123-131
  and 227-230.
- The early return of `parseFileList` after a cancellation leaves the
  reader in the middle of the list; the enclosing loops then go on reading
  it. The model instead stops the rest of the project body once a walk has
  stopped, and still adds the targets.
- Threads, `QFutureWatcher`, the composite-job plumbing and the queued
  `invokeMethod` are modelled sequentially:
  - a dispatch is appended to the `queued` list, and `Deliver` hands the
    list to `AddProject`;
  - cancellation is an oracle that reads false for a fixed number of flag
    reads and true from then on;
  - a kill that arrives after `start()` but before the thread pool picks
    up the job cancels the future, so `run()` never executes and no node
    is added; `ProjectImportJob.Run` always runs, so this case is not
    modelled;
  - what the promise does with a result after a cancellation is not
    modelled.
- The KConfig-stored MSVC and Windows SDK include paths
  (msvcmanager.cpp:112-127) are not modelled. They are the `configured`
  parameter of `Manager.IncludeDirectories`.
- Manager.IncludeDirectories: `QUrl::fromUserInput` heuristics are replaced
  by resolving the entry against the project directory. An empty entry
  becomes the relative empty URL there, and resolving it gives the project
  directory, which the model keeps too.
- Replacer.ReplaceF: the expansion carries a fuel bound and returns no
  answer when the fuel runs out. A template with two self-references can
  recurse without bound, because a nested re-entrancy checker clears the
  guard of the outer one. Only the single re-entry behaviour is proved.
- Replacer.TargetPathF: the two operands of the `+` at
  msvcmodelitems.cpp:263-264 are evaluated left to right, the output
  directory first. C++ leaves that order unspecified, and both operands
  share the re-entrancy guards, so when the output directory or the output
  file refers back to a `Target*` key a compiler that evaluates right to
  left can give a different result. The model fixes one order.
- ImportJob.MatchPieces: groups 1 and 4 of the project-line pattern
  (the two guids) are captured without their braces. The code never uses
  them.
- Sorting of nodes (`lessThan`) depends on the host framework's item
  types and is not modelled.
- `builtUrl` of an executable target is not modelled. It needs the host's
  notion of an absolute URL.
- The header's declarations that disagree with the bodies in
  `msvcprojectparser.h` are not modelled; the `.cpp` bodies are.
- `MsvcImportJob::parseVcProj` and `parseFileList` duplicate the parser's
  code. The project job reuses `ParseRoots` (and through it
  `ParseVisualStudioProject`) with the job's flag rather than modelling
  the copy twice.
- The builder, the `devenv` job, toolchain probing, the preferences pages,
  `import` and the plugin factory are process, filesystem or UI code and are
  not part of this model.
- Unicode normalisation and case folding beyond ASCII letters are not
  modelled.
