/** The import jobs.

    A solution job reads the solution file line by line. A `Project(...)`
    line is matched against a fixed pattern; when the line right after it
    starts with `EndProject`, the project's relative path is dispatched to
    the main thread, which creates a project node under the solution and
    starts a project job for it. The solution job completes once its own
    reading has finished and no project job remains.

    A project job reads a `.vcproj` into the project node it was given,
    exactly as the `.vcproj` reader does; killing the job raises its
    cancellation flag. */
module ImportJob {
  import opened Wrappers
  import opened Text
  import opened Xml
  import opened Paths
  import opened ProjectConfig
  import opened ModelItems
  import opened ProjectParser

  predicate StartsWith(s: string, prefix: string)
  {
    |prefix| <= |s| && s[..|prefix|] == prefix
  }

  // ---------------------------------------------------------------------
  // The project-line pattern
  //
  //   Project("{G}") = "N", "P", "{G}"
  //
  // where each G is a run of [A-F0-9-], N a run of [A-Za-z0-9_], P a run of
  // [A-Za-z0-9_\./], and spaces may surround '=' and the commas. The
  // pattern is not anchored: the leftmost position where it matches wins.
  // No run class holds the character that follows the run, so a match at a
  // position is decided without backtracking, as below.

  datatype CharClass = GuidChars | NameChars | PathChars | Spaces

  predicate InClass(cls: CharClass, c: char)
  {
    match cls
    case GuidChars => 'A' <= c <= 'F' || '0' <= c <= '9' || c == '-'
    case NameChars => 'A' <= c <= 'Z' || 'a' <= c <= 'z' || '0' <= c <= '9' || c == '_'
    case PathChars => 'A' <= c <= 'Z' || 'a' <= c <= 'z' || '0' <= c <= '9' || c == '_' || c == '\\' || c == '.' || c == '/'
    case Spaces => c == ' ' || c == '\t' || c == '\n' || c == '\r' || c == '\U{B}' || c == '\U{C}'
  }

  predicate AllIn(cls: CharClass, s: string)
  {
    forall k :: 0 <= k < |s| ==> InClass(cls, s[k])
  }

  /** Length of the run of `cls` characters that `t` starts with. */
  function Span(t: string, cls: CharClass): (n: nat)
    ensures n <= |t| && AllIn(cls, t[..n])
    ensures n < |t| ==> !InClass(cls, t[n])
  {
    if t == [] || !InClass(cls, t[0]) then 0
    else
      var n := 1 + Span(t[1..], cls);
      assert forall k :: 1 <= k < n ==> t[..n][k] == t[1..][..n - 1][k - 1];
      n
  }

  /** One piece of a pattern: a literal, a run of a class that may be empty
      (`cls*`), one that may not (`cls+`), or a non-empty run that is
      captured (`(cls+)`). */
  datatype Piece = Literal(lit: string) | Many(cls: CharClass) | OneOrMore(cls: CharClass) | Capture(cls: CharClass)

  /** A pattern: pieces one after the other. */
  datatype Pattern = End | Then(piece: Piece, rest: Pattern)

  function CaptureCount(pat: Pattern): nat
  {
    match pat
    case End => 0
    case Then(p, rest) => (if p.Capture? then 1 else 0) + CaptureCount(rest)
  }

  /** The pattern matched at the start of `t`, every run as long as it
      goes; yields the captured runs in order. */
  function MatchPieces(t: string, pat: Pattern): (r: Option<seq<string>>)
    ensures r.Some? ==> |r.value| == CaptureCount(pat)
  {
    match pat
    case End => Some([])
    case Then(Literal(lit), rest) => if StartsWith(t, lit) then MatchPieces(t[|lit|..], rest) else None
    case Then(Many(cls), rest) => MatchPieces(t[Span(t, cls)..], rest)
    case Then(OneOrMore(cls), rest) => if Span(t, cls) > 0 then MatchPieces(t[Span(t, cls)..], rest) else None
    case Then(Capture(cls), rest) =>
      if Span(t, cls) == 0 then None
      else
        var r := MatchPieces(t[Span(t, cls)..], rest);
        if r.Some? then Some([t[..Span(t, cls)]] + r.value) else None
  }

  /** The project-line pattern, in three parts. Its four groups capture the
      project type's guid, the name, the relative path and the project's
      guid; the guids are captured here without their braces. */
  const PathPart: Pattern :=
    Then(Literal("\""), Then(Capture(PathChars), Then(Literal("\""), Then(Many(Spaces), Then(Literal(","), Then(Many(Spaces),
    Then(Literal("\"{"), Then(Capture(GuidChars), Then(Literal("}\""), Then(Many(Spaces), End))))))))))

  const NamePart: Pattern :=
    Then(Literal("\""), Then(Capture(NameChars), Then(Literal("\""), Then(Many(Spaces), Then(Literal(","), Then(Many(Spaces),
    PathPart))))))

  const ProjectPattern: Pattern :=
    Then(Literal("Project(\"{"), Then(Capture(GuidChars), Then(Literal("}\")"), Then(Many(Spaces), Then(Literal("="), Then(Many(Spaces),
    NamePart))))))

  /** The leftmost match at or after position `p`. */
  function FirstMatch(s: string, p: nat): (r: Option<seq<string>>)
    decreases |s| - p
  {
    if p > |s| then None
    else if MatchPieces(s[p..], ProjectPattern).Some? then MatchPieces(s[p..], ProjectPattern)
    else FirstMatch(s, p + 1)
  }

  function MatchProject(line: string): Option<seq<string>>
  {
    FirstMatch(line, 0)
  }

  /** Group `n` of a match, counted from 1; "" when nothing matched. */
  function Captured(m: Option<seq<string>>, n: nat): string
  {
    if m.Some? && 1 <= n <= |m.value| then m.value[n - 1] else ""
  }

  /** The path a project line dispatches: group 3 with every '\' turned
      into '/'. The line is dispatched whether or not the pattern matched,
      and group 3 of a failed match is empty. */
  function Dispatched(line: string): string
  {
    ReplaceChar(Captured(MatchProject(line), 3), '\\', '/')
  }

  // The pattern, proved on the lines it is meant for.

  lemma {:induction false} SpanAcross(x: string, w: string, cls: CharClass)
    requires AllIn(cls, x) && (w == [] || !InClass(cls, w[0]))
    ensures Span(x + w, cls) == |x|
    decreases |x|
  {
    if x != [] {
      assert (x + w)[1..] == x[1..] + w;
      SpanAcross(x[1..], w, cls);
    } else {
      assert x + w == w;
    }
  }

  lemma StepLiteral(lit: string, w: string, pat: Pattern)
    requires pat.Then? && pat.piece == Literal(lit)
    ensures MatchPieces(lit + w, pat) == MatchPieces(w, pat.rest)
  {
    assert (lit + w)[..|lit|] == lit && (lit + w)[|lit|..] == w;
  }

  lemma StepMany(x: string, w: string, pat: Pattern)
    requires pat.Then? && pat.piece.Many? && AllIn(pat.piece.cls, x) && (w == [] || !InClass(pat.piece.cls, w[0]))
    ensures MatchPieces(x + w, pat) == MatchPieces(w, pat.rest)
  {
    SpanAcross(x, w, pat.piece.cls);
    assert (x + w)[|x|..] == w;
  }

  lemma StepCapture(x: string, w: string, pat: Pattern)
    requires pat.Then? && pat.piece.Capture? && x != [] && AllIn(pat.piece.cls, x)
    requires w == [] || !InClass(pat.piece.cls, w[0])
    ensures var r := MatchPieces(w, pat.rest);
      MatchPieces(x + w, pat) == if r.Some? then Some([x] + r.value) else None
  {
    SpanAcross(x, w, pat.piece.cls);
    assert (x + w)[|x|..] == w && (x + w)[..|x|] == x;
  }

  /** A project line as a solution file writes it, followed by anything. */
  function ProjectLineText(g1: string, name: string, path: string, g2: string, rest: string): string
  {
    "Project(\"{" + (g1 + ("}\")" + (" " + ("=" + (" " + NameText(name, path, g2, rest))))))
  }

  function NameText(name: string, path: string, g2: string, rest: string): string
  {
    "\"" + (name + ("\"" + ("," + (" " + PathText(path, g2, rest)))))
  }

  function PathText(path: string, g2: string, rest: string): string
  {
    "\"" + (path + ("\"" + ("," + (" " + ("\"{" + (g2 + ("}\"" + rest)))))))
  }

  /** `"x"` for a quoted capture. */
  lemma StepQuoted(x: string, w: string, pat: Pattern)
    requires pat.Then? && pat.piece == Literal("\"")
    requires pat.rest.Then? && pat.rest.piece.Capture? && x != [] && AllIn(pat.rest.piece.cls, x)
    requires !InClass(pat.rest.piece.cls, '"')
    requires pat.rest.rest.Then? && pat.rest.rest.piece == Literal("\"")
    ensures var r := MatchPieces(w, pat.rest.rest.rest);
      MatchPieces("\"" + (x + ("\"" + w)), pat) == if r.Some? then Some([x] + r.value) else None
  {
    StepLiteral("\"", x + ("\"" + w), pat);
    StepCapture(x, "\"" + w, pat.rest);
    StepLiteral("\"", w, pat.rest.rest);
  }

  /** `, ` between two quoted fields. */
  lemma StepComma(t: string, pat: Pattern)
    requires pat.Then? && pat.piece == Many(Spaces)
    requires pat.rest.Then? && pat.rest.piece == Literal(",")
    requires pat.rest.rest.Then? && pat.rest.rest.piece == Many(Spaces)
    requires t != [] && t[0] == '"'
    ensures MatchPieces("," + (" " + t), pat) == MatchPieces(t, pat.rest.rest.rest)
  {
    StepMany("", "," + (" " + t), pat);
    assert "" + ("," + (" " + t)) == "," + (" " + t);
    StepLiteral(",", " " + t, pat.rest);
    StepMany(" ", t, pat.rest.rest);
  }

  /** `"{g}"` closing a line, followed by anything. */
  lemma StepGuidEnd(g: string, rest: string, pat: Pattern)
    requires pat == Then(Literal("\"{"), Then(Capture(GuidChars), Then(Literal("}\""), Then(Many(Spaces), End))))
    requires g != [] && AllIn(GuidChars, g)
    ensures MatchPieces("\"{" + (g + ("}\"" + rest)), pat) == Some([g])
  {
    StepLiteral("\"{", g + ("}\"" + rest), pat);
    StepCapture(g, "}\"" + rest, pat.rest);
    StepLiteral("}\"", rest, pat.rest.rest);
    assert MatchPieces(rest, pat.rest.rest.rest) == Some([]);
    assert [g] + [] == [g];
  }

  lemma MatchPathPart(path: string, g2: string, rest: string)
    requires path != [] && AllIn(PathChars, path) && g2 != [] && AllIn(GuidChars, g2)
    ensures MatchPieces(PathText(path, g2, rest), PathPart) == Some([path, g2])
  {
    var end := "\"{" + (g2 + ("}\"" + rest));
    var P3 := PathPart.rest.rest.rest;
    StepGuidEnd(g2, rest, P3.rest.rest.rest);
    StepComma(end, P3);
    StepQuoted(path, "," + (" " + end), PathPart);
    assert [path] + [g2] == [path, g2];
  }

  lemma MatchNamePart(name: string, path: string, g2: string, rest: string)
    requires name != [] && AllIn(NameChars, name)
    requires path != [] && AllIn(PathChars, path) && g2 != [] && AllIn(GuidChars, g2)
    ensures MatchPieces(NameText(name, path, g2, rest), NamePart) == Some([name, path, g2])
  {
    var t := PathText(path, g2, rest);
    MatchPathPart(path, g2, rest);
    StepComma(t, NamePart.rest.rest.rest);
    StepQuoted(name, "," + (" " + t), NamePart);
    assert [name] + [path, g2] == [name, path, g2];
  }

  /** `Project("{g}") = ` opening a line. */
  lemma MatchHead(g1: string, t: string)
    requires g1 != [] && AllIn(GuidChars, g1) && t != [] && t[0] == '"'
    ensures var r := MatchPieces(t, NamePart);
      MatchPieces("Project(\"{" + (g1 + ("}\")" + (" " + ("=" + (" " + t))))), ProjectPattern)
      == if r.Some? then Some([g1] + r.value) else None
  {
    var P := ProjectPattern;
    StepLiteral("Project(\"{", g1 + ("}\")" + (" " + ("=" + (" " + t)))), P);
    StepCapture(g1, "}\")" + (" " + ("=" + (" " + t))), P.rest);
    StepLiteral("}\")", " " + ("=" + (" " + t)), P.rest.rest);
    StepMany(" ", "=" + (" " + t), P.rest.rest.rest);
    StepLiteral("=", " " + t, P.rest.rest.rest.rest);
    StepMany(" ", t, P.rest.rest.rest.rest.rest);
  }

  /** A well-formed project line yields its four groups, and dispatches its
      path. */
  lemma ProjectLineMatches(g1: string, name: string, path: string, g2: string, rest: string)
    requires g1 != [] && AllIn(GuidChars, g1) && g2 != [] && AllIn(GuidChars, g2)
    requires name != [] && AllIn(NameChars, name) && path != [] && AllIn(PathChars, path)
    ensures MatchProject(ProjectLineText(g1, name, path, g2, rest)) == Some([g1, name, path, g2])
    ensures Dispatched(ProjectLineText(g1, name, path, g2, rest)) == ReplaceChar(path, '\\', '/')
  {
    var t := NameText(name, path, g2, rest);
    MatchNamePart(name, path, g2, rest);
    MatchHead(g1, t);
    assert [g1] + [name, path, g2] == [g1, name, path, g2];
    var s := ProjectLineText(g1, name, path, g2, rest);
    assert s[0..] == s;
  }

  /** A line without '{' never matches, so a project line whose guid lacks
      its braces dispatches the empty path. */
  lemma {:induction false} NoBraceNoMatch(line: string, p: nat)
    requires forall k :: p <= k < |line| ==> line[k] != '{'
    ensures FirstMatch(line, p).None?
    decreases |line| - p
  {
    if p <= |line| {
      NoBraceHere(line[p..]);
      NoBraceNoMatch(line, p + 1);
    }
  }

  lemma NoBraceHere(t: string)
    requires '{' !in t
    ensures MatchPieces(t, ProjectPattern).None?
  {
    var lit := "Project(\"{";
    assert ProjectPattern.piece == Literal(lit);
    if StartsWith(t, lit) {
      OpeningBrace(t);
      assert false;
    }
  }

  /** A step of `NoBraceHere`: a line that opens like a project line holds
      a '{'. */
  lemma OpeningBrace(t: string)
    requires StartsWith(t, "Project(\"{")
    ensures '{' in t
  {
    assert t[..10][9] == '{';
    assert t[9] == '{';
  }

  // ---------------------------------------------------------------------
  // The solution's line loop

  /** Whether `line`, once trimmed, starts with `tag`: after the leading
      whitespace comes `tag`. For a tag that does not end in whitespace this
      is the same as testing the trimmed line (`OpensTrimmed`). */
  predicate Opens(line: string, tag: string)
  {
    StartsWith(line[LeadingSpace(line)..], tag)
  }

  lemma OpensTrimmed(line: string, tag: string)
    requires tag != [] && !IsSpace(tag[|tag| - 1])
    ensures Opens(line, tag) <==> StartsWith(Trimmed(line), tag)
  {
    var i := LeadingSpace(line);
    var j := EndWithoutSpace(line);
    if i < j {
      assert Trimmed(line) == line[i..j];
      if Opens(line, tag) {
        assert line[i + |tag| - 1] == tag[|tag| - 1];
        assert line[i..j][..|tag|] == line[i..][..|tag|];
      }
      if StartsWith(Trimmed(line), tag) {
        assert line[i..j][..|tag|] == line[i..][..|tag|];
      }
    }
  }

  /** The tags the line loop looks for all end in a letter. */
  lemma TagsOpenTrimmed(line: string)
    ensures Opens(line, ProjectStartTag) <==> StartsWith(Trimmed(line), ProjectStartTag)
    ensures Opens(line, GlobalSectionStart) <==> StartsWith(Trimmed(line), GlobalSectionStart)
    ensures Opens(line, GlobalSectionEnd) <==> StartsWith(Trimmed(line), GlobalSectionEnd)
  {
    OpensTrimmed(line, ProjectStartTag);
    OpensTrimmed(line, GlobalSectionStart);
    OpensTrimmed(line, GlobalSectionEnd);
  }

  const ProjectStartTag := "Project"
  const ProjectEndTag := "EndProject"
  const GlobalSectionStart := "GlobalSection(ProjectConfigurationPlatforms) = postSolution"
  const GlobalSectionEnd := "EndGlobalSection"

  /** Where reading resumes after a global section whose first inner line
      is line `k`: after the first line whose trimmed text starts with
      `EndGlobalSection`, or at the end of the file. The file's last line is
      consumed without being looked at, because reading it reaches the
      end. */
  function SectionEnd(lines: seq<string>, k: nat): (j: nat)
    requires k <= |lines|
    ensures k <= j <= |lines| && (k < |lines| ==> k < j)
    decreases |lines| - k
  {
    if k + 1 >= |lines| then |lines|
    else if Opens(lines[k], GlobalSectionEnd) then k + 1
    else SectionEnd(lines, k + 1)
  }

  /** The paths dispatched from line `i` on. `lines` are what successive
      reads of the file return. A line is looked at only when reading it
      does not reach the end of the file. A line whose trimmed text starts
      with `Project` takes the next line with it and dispatches when that
      line starts with `EndProject`; the start of the one global section of
      interest skips that section; every other line is passed over. */
  function ScanFrom(lines: seq<string>, i: nat): (paths: seq<string>)
    requires i <= |lines|
    decreases |lines| - i
  {
    if i + 1 >= |lines| then []
    else if Opens(lines[i], ProjectStartTag) then
      var rest := ScanFrom(lines, i + 2);
      if StartsWith(lines[i + 1], ProjectEndTag) then [Dispatched(lines[i])] + rest else rest
    else if Opens(lines[i], GlobalSectionStart) then ScanFrom(lines, SectionEnd(lines, i + 1))
    else ScanFrom(lines, i + 1)
  }

  /** Line `k` opens a project and the line after it ends one. */
  predicate ProjectPair(lines: seq<string>, k: nat)
  {
    k + 1 < |lines| && Opens(lines[k], ProjectStartTag) && StartsWith(lines[k + 1], ProjectEndTag)
  }

  /** Each dispatched path comes from a `Project` line followed by an
      `EndProject` line, in file order. */
  lemma {:induction false} DispatchSource(lines: seq<string>, i: nat, n: nat) returns (k: nat)
    requires i <= |lines| && n < |ScanFrom(lines, i)|
    ensures i <= k && ProjectPair(lines, k)
    ensures ScanFrom(lines, i)[n] == Dispatched(lines[k])
    decreases |lines| - i
  {
    assert i + 1 < |lines|;
    if Opens(lines[i], ProjectStartTag) {
      ScanProjectStep(lines, i);
      if StartsWith(lines[i + 1], ProjectEndTag) && n == 0 {
        k := i;
      } else if StartsWith(lines[i + 1], ProjectEndTag) {
        k := DispatchSource(lines, i + 2, n - 1);
        assert ScanFrom(lines, i)[n] == ScanFrom(lines, i + 2)[n - 1];
      } else {
        assert ScanFrom(lines, i) == [] + ScanFrom(lines, i + 2);
        k := DispatchSource(lines, i + 2, n);
      }
    } else if Opens(lines[i], GlobalSectionStart) {
      ScanSectionStep(lines, i);
      k := DispatchSource(lines, SectionEnd(lines, i + 1), n);
    } else {
      ScanOtherStep(lines, i);
      k := DispatchSource(lines, i + 1, n);
    }
  }

  /** The line loop of the solution job (`MsvcImportSolutionJob::run`),
      over the successive results of reading the file. A read at the end of
      the file returns "". */
  method ScanLines(lines: seq<string>) returns (dispatched: seq<string>)
    ensures dispatched == ScanFrom(lines, 0)
  {
    dispatched := [];
    var pos := 0;
    while true
      invariant pos <= |lines|
      invariant dispatched + ScanFrom(lines, pos) == ScanFrom(lines, 0)
      decreases |lines| - pos
    {
      ghost var start := pos;
      var line := if pos < |lines| then lines[pos] else "";
      pos := if pos < |lines| then pos + 1 else pos;
      if pos >= |lines| {
        assert ScanFrom(lines, start) == [];
        assert dispatched + [] == dispatched;
        break;
      }
      if Opens(line, ProjectStartTag) {
        ScanProjectStep(lines, start);
        var result := MatchProject(line);
        var nextLine := lines[pos];
        pos := pos + 1;
        if !StartsWith(nextLine, ProjectEndTag) {
          assert [] + ScanFrom(lines, pos) == ScanFrom(lines, pos);
          continue;
        }
        var projectPath := Captured(result, 3);
        ConcatAssoc(dispatched, [Dispatched(line)], ScanFrom(lines, pos));
        dispatched := dispatched + [ReplaceChar(projectPath, '\\', '/')];
      } else if Opens(line, GlobalSectionStart) {
        ScanSectionStep(lines, start);
        ghost var target := SectionEnd(lines, pos);
        while true
          invariant start < pos <= |lines| && SectionEnd(lines, pos) == target
          decreases |lines| - pos
        {
          line := if pos < |lines| then lines[pos] else "";
          pos := if pos < |lines| then pos + 1 else pos;
          if pos >= |lines| || Opens(line, GlobalSectionEnd) {
            break;
          }
        }
      } else {
        ScanOtherStep(lines, start);
      }
    }
  }

  lemma ScanProjectStep(lines: seq<string>, i: nat)
    requires i + 1 < |lines| && Opens(lines[i], ProjectStartTag)
    ensures ScanFrom(lines, i)
         == (if StartsWith(lines[i + 1], ProjectEndTag) then [Dispatched(lines[i])] else []) + ScanFrom(lines, i + 2)
  {
  }

  lemma ScanSectionStep(lines: seq<string>, i: nat)
    requires i + 1 < |lines| && !Opens(lines[i], ProjectStartTag) && Opens(lines[i], GlobalSectionStart)
    ensures ScanFrom(lines, i) == ScanFrom(lines, SectionEnd(lines, i + 1))
  {
  }

  lemma ScanOtherStep(lines: seq<string>, i: nat)
    requires i + 1 < |lines| && !Opens(lines[i], ProjectStartTag) && !Opens(lines[i], GlobalSectionStart)
    ensures ScanFrom(lines, i) == ScanFrom(lines, i + 1)
  {
  }

  /** Lines other than the final one are looked at in their own right; the
      final line matters only as the line after a `Project` line, and then
      only through whether it starts with `EndProject`. */
  lemma {:induction false} FinalLineNeverInterpreted(lines: seq<string>, x: string, y: string, i: nat)
    requires i <= |lines| + 1
    requires StartsWith(x, ProjectEndTag) <==> StartsWith(y, ProjectEndTag)
    ensures ScanFrom(lines + [x], i) == ScanFrom(lines + [y], i)
    decreases |lines| + 1 - i
  {
    var lx := lines + [x];
    var ly := lines + [y];
    if i + 1 < |lx| {
      assert lx[i] == ly[i] == lines[i];
      if Opens(lines[i], ProjectStartTag) {
        FinalLineNeverInterpreted(lines, x, y, i + 2);
        if i + 1 < |lines| {
          assert lx[i + 1] == ly[i + 1];
        }
      } else if Opens(lines[i], GlobalSectionStart) {
        SectionEndIgnoresFinalLine(lines, x, y, i + 1);
        FinalLineNeverInterpreted(lines, x, y, SectionEnd(lx, i + 1));
      } else {
        FinalLineNeverInterpreted(lines, x, y, i + 1);
      }
    }
  }

  lemma {:induction false} SectionEndIgnoresFinalLine(lines: seq<string>, x: string, y: string, k: nat)
    requires k <= |lines| + 1
    ensures SectionEnd(lines + [x], k) == SectionEnd(lines + [y], k)
    decreases |lines| + 1 - k
  {
    if k + 1 < |lines| + 1 {
      assert (lines + [x])[k] == (lines + [y])[k];
      SectionEndIgnoresFinalLine(lines, x, y, k + 1);
    }
  }

  /** Everything inside the global section, up to and including its
      `EndGlobalSection` line, is ignored, `Project` lines included. */
  lemma SectionSkipped(lines: seq<string>, i: nat, j: nat)
    requires i < j < |lines| && Opens(lines[i], GlobalSectionStart)
    requires !Opens(lines[i], ProjectStartTag)
    requires Opens(lines[j], GlobalSectionEnd)
    requires forall k :: i < k < j ==> !Opens(lines[k], GlobalSectionEnd)
    ensures ScanFrom(lines, i) == ScanFrom(lines, j + 1)
  {
    SectionEndAt(lines, i + 1, j);
  }

  lemma {:induction false} SectionEndAt(lines: seq<string>, k: nat, j: nat)
    requires k <= j < |lines| && Opens(lines[j], GlobalSectionEnd)
    requires forall l :: k <= l < j ==> !Opens(lines[l], GlobalSectionEnd)
    ensures SectionEnd(lines, k) == j + 1
    decreases j - k
  {
    if k < j {
      SectionEndAt(lines, k + 1, j);
    }
  }

  /** A project whose next line is not `EndProject` (for one with a
      `ProjectSection`, say) is not dispatched, and that next line is not
      looked at in its own right. */
  lemma ProjectWithoutEndSkipped(lines: seq<string>, i: nat)
    requires i + 1 < |lines| && Opens(lines[i], ProjectStartTag)
    requires !StartsWith(lines[i + 1], ProjectEndTag)
    ensures ScanFrom(lines, i) == ScanFrom(lines, i + 2)
  {
  }

  /** A `Project` line that does not match the pattern is still dispatched
      when `EndProject` follows, with the empty path. */
  lemma UnmatchedProjectDispatchesEmpty(lines: seq<string>, i: nat)
    requires i + 1 < |lines| && Opens(lines[i], ProjectStartTag) && StartsWith(lines[i + 1], ProjectEndTag)
    requires MatchProject(lines[i]).None?
    ensures ScanFrom(lines, i) == [""] + ScanFrom(lines, i + 2)
  {
  }

  /** In particular a `Project` line without '{' is dispatched with the
      empty path. */
  lemma BraceFreeProjectDispatchesEmpty(lines: seq<string>, i: nat)
    requires i + 1 < |lines| && Opens(lines[i], ProjectStartTag) && StartsWith(lines[i + 1], ProjectEndTag)
    requires '{' !in lines[i]
    ensures ScanFrom(lines, i) == [""] + ScanFrom(lines, i + 2)
  {
    NoBraceNoMatch(lines[i], 0);
    UnmatchedProjectDispatchesEmpty(lines, i);
  }

  // ---------------------------------------------------------------------
  // Project jobs

  /** Without file lists the body adds no node, and a killed job's walks
      add none: the flag reads raised from the first poll. */
  lemma {:induction false} KilledBodyAddsNoNodes(items: seq<Item>, proj: ItemId, cs: seq<Element>, dir: Path, polls: nat)
    requires WellFormed(items) && IsProject(items, proj)
    ensures |BodyF(items, proj, cs, dir, Some(0), polls).items| == |items|
    decreases |cs|
  {
    if cs != [] {
      if EqualsIgnoreCase(cs[0].name, "Files") {
        var w := WalkF(items, proj, cs[0].children, dir, Some(0), polls);
        assert w.items == items;
        if !w.stopped {
          KilledBodyAddsNoNodes(items, proj, cs[1..], dir, w.polls);
        }
      } else if cs[0].name == "Configurations" {
        KilledBodyAddsNoNodes(WithConfigs(items, proj, ConfigsOf(cs[0].children)), proj, cs[1..], dir, polls);
      } else {
        KilledBodyAddsNoNodes(items, proj, cs[1..], dir, polls);
      }
    }
  }

  /** A project read by a killed job gets no file or filter node: only its
      targets are appended. */
  lemma KilledProjectAddsOnlyTargets(items: seq<Item>, proj: ItemId, e: Element, dir: Path, polls: nat, renameStatus: RenameStatus)
    requires WellFormed(items) && IsProject(items, proj)
    ensures var r := ProjectF(items, proj, e, dir, Some(0), polls, renameStatus).items;
      |items| <= |r| <= |items| + 2
      && forall j :: |items| <= j < |r| ==> r[j].kind in {TargetItem, ExecutableTargetItem, LibraryTargetItem}
  {
    var h := Header(items, proj, e, renameStatus);
    KilledBodyAddsNoNodes(h, proj, e.children, dir, polls);
  }

  class ProjectImportJob {
    const dom: ItemId
    const file: Path
    var canceled: bool
    var error: int

    constructor (dom: ItemId, file: Path)
      ensures this.dom == dom && this.file == file && !canceled && error == 0
    {
      this.dom := dom;
      this.file := file;
      canceled := false;
      error := 0;
    }

    /** Killing the job (`doKill`): raises the flag and records error 1. */
    method DoKill() returns (killed: bool)
      modifies this
      ensures canceled && error == 1 && killed
    {
      canceled := true;
      error := 1;
      killed := true;
    }

    /** The job's reading (`MsvcImportJob::run`): an unopenable project
      file leaves everything as it was. Otherwise the file's top-level
      elements are read into the job's project node, and a file node for
      the project file is added. `killAt` is the number of flag reads after
      which a kill arrives while the job runs; a job killed before `start()`
      reads the flag raised from the start. */
    method Run(tree: ProjectTree, killAt: Option<nat>, files: map<Path, seq<Element>>, renameStatus: RenameStatus)
      requires tree.Valid() && IsProject(tree.items, dom)
      modifies tree
      ensures Open(files, file).None? ==> tree.items == old(tree.items)
      ensures Open(files, file).Some? ==>
        tree.items == RootsF(old(tree.items), dom, files[file], Parent(file),
                             if canceled then Some(0) else killAt, 0, renameStatus).items + [FileNode(file, dom)]
      ensures tree.Valid()
    {
      var content := Open(files, file);
      if content.None? {
        return;
      }
      var flag := new CancelFlag(if canceled then Some(0) else killAt);
      ParseRoots(tree, flag, dom, content.value, Parent(file), renameStatus);
      var fileNode := tree.Add(FileItem, LastSegment(file), file, Some(dom));
    }
  }

  // ---------------------------------------------------------------------
  // The solution job

  /** The project nodes the dispatched paths become, under solution `sol`. */
  function ProjectNodes(dir: Path, paths: seq<string>, sol: ItemId): (r: seq<Item>)
    ensures |r| == |paths|
  {
    seq(|paths|, k requires 0 <= k < |paths| => ProjectNode(Resolve(dir, paths[k]), Some(sol)))
  }

  /** The project jobs spawned for `paths`, in order: job `i` reads
      `paths[i]`, taken relative to `dir`, into node `first + i`. */
  predicate Spawned(jobs: seq<ProjectImportJob>, dir: Path, paths: seq<string>, first: nat)
  {
    |jobs| == |paths|
    && forall i :: 0 <= i < |jobs| ==> jobs[i].file == Resolve(dir, paths[i]) && jobs[i].dom == first + i
  }

  /** One more delivered path adds its job at the end. */
  lemma SpawnedSnoc(jobs: seq<ProjectImportJob>, dir: Path, paths: seq<string>, first: nat, k: nat, job: ProjectImportJob)
    requires k < |paths| && Spawned(jobs, dir, paths[..k], first)
    requires job.file == Resolve(dir, paths[k]) && job.dom == first + k
    ensures Spawned(jobs + [job], dir, paths[..k + 1], first)
  {
    forall i | 0 <= i < k + 1
      ensures (jobs + [job])[i].file == Resolve(dir, paths[..k + 1][i]) && (jobs + [job])[i].dom == first + i
    {
      if i < k {
        assert (jobs + [job])[i] == jobs[i] && paths[..k + 1][i] == paths[..k][i];
      }
    }
  }

  /** One more delivered path adds its node at the end. */
  lemma ProjectNodesSnoc(dir: Path, paths: seq<string>, k: nat, sol: ItemId)
    requires k < |paths|
    ensures ProjectNodes(dir, paths[..k + 1], sol) == ProjectNodes(dir, paths[..k], sol) + [ProjectNode(Resolve(dir, paths[k]), Some(sol))]
  {
    var a := ProjectNodes(dir, paths[..k + 1], sol);
    var b := ProjectNodes(dir, paths[..k], sol) + [ProjectNode(Resolve(dir, paths[k]), Some(sol))];
    assert |a| == |b|;
    forall j | 0 <= j < k + 1
      ensures a[j] == b[j]
    {
      ProjectNodeAt(dir, paths[..k + 1], sol, j);
      if j < k {
        ProjectNodeAt(dir, paths[..k], sol, j);
      }
    }
  }

  lemma ProjectNodeAt(dir: Path, paths: seq<string>, sol: ItemId, j: nat)
    requires j < |paths|
    ensures ProjectNodes(dir, paths, sol)[j] == ProjectNode(Resolve(dir, paths[j]), Some(sol))
  {
  }

  lemma ConcatAssoc<T>(a: seq<T>, b: seq<T>, c: seq<T>)
    ensures (a + b) + c == a + (b + c)
  {
  }

  class SolutionImportJob {
    const dom: ItemId
    const solutionPath: Path
    var finished: bool
    var subjobs: seq<ProjectImportJob>
    /** Paths dispatched to the main thread and not yet delivered. */
    var queued: seq<string>
    /** How many times the job has reported its result. */
    var emitted: nat
    var started: bool

    /** The result is reported at most once: before the run nothing is
        reported, and reporting uses up the finished mark. */
    predicate Valid()
      reads this
    {
      emitted + (if finished then 1 else 0) <= (if started then 1 else 0)
    }

    constructor (dom: ItemId, solutionPath: Path)
      ensures this.dom == dom && this.solutionPath == solutionPath
      ensures !finished && subjobs == [] && queued == [] && emitted == 0 && !started && Valid()
    {
      this.dom := dom;
      this.solutionPath := solutionPath;
      finished := false;
      subjobs := [];
      queued := [];
      emitted := 0;
      started := false;
    }

    /** The job's reading: a solution file that cannot be opened ends the
        run without marking the job finished; otherwise every dispatched
        path is queued, then the job is marked finished. */
    method Run(files: map<Path, seq<string>>)
      requires Valid() && !started
      modifies this
      ensures started && Valid() && emitted == old(emitted) && subjobs == old(subjobs)
      ensures Open(files, solutionPath).None? ==> !finished && queued == old(queued)
      ensures Open(files, solutionPath).Some? ==> finished && queued == old(queued) + ScanFrom(files[solutionPath], 0)
    {
      started := true;
      var content := Open(files, solutionPath);
      if content.None? {
        return;
      }
      var dispatched := ScanLines(content.value);
      queued := queued + dispatched;
      finished := true;
    }

    /** A dispatched path delivered (`addProject`): a project node under the
        solution for the path taken relative to the solution's directory,
        and a project job for it. */
    method AddProject(tree: ProjectTree, relativePath: string) returns (job: ProjectImportJob)
      requires tree.Valid() && dom < |tree.items|
      modifies tree, this
      ensures tree.items == old(tree.items) + [ProjectNode(Resolve(Parent(solutionPath), relativePath), Some(dom))]
      ensures fresh(job) && job.dom == |old(tree.items)| && job.file == Resolve(Parent(solutionPath), relativePath)
      ensures !job.canceled
      ensures subjobs == old(subjobs) + [job]
      ensures finished == old(finished) && queued == old(queued) && emitted == old(emitted) && started == old(started)
      ensures tree.Valid()
    {
      var path := Resolve(Parent(solutionPath), relativePath);
      var id := tree.NewProject(path, Some(dom));
      job := new ProjectImportJob(id, path);
      subjobs := subjobs + [job];
    }

    /** The main thread delivers the queued dispatches in order: for each
        path, a project node under the solution and a new project job that
        reads that path into that node. */
    method Deliver(tree: ProjectTree)
      requires tree.Valid() && dom < |tree.items| && Valid()
      modifies tree, this
      ensures tree.items == old(tree.items) + ProjectNodes(Parent(solutionPath), old(queued), dom)
      ensures |subjobs| == |old(subjobs)| + |old(queued)| && queued == []
      ensures subjobs[..|old(subjobs)|] == old(subjobs)
      ensures Spawned(subjobs[|old(subjobs)|..], Parent(solutionPath), old(queued), |old(tree.items)|)
      ensures forall i :: |old(subjobs)| <= i < |subjobs| ==> fresh(subjobs[i]) && !subjobs[i].canceled
      ensures finished == old(finished) && emitted == old(emitted) && started == old(started)
      ensures tree.Valid() && Valid()
    {
      var paths := queued;
      ghost var spawned: seq<ProjectImportJob> := [];
      var k := 0;
      while k < |paths|
        invariant 0 <= k <= |paths| && tree.Valid() && dom < |tree.items| && Valid()
        invariant tree.items == old(tree.items) + ProjectNodes(Parent(solutionPath), paths[..k], dom)
        invariant subjobs == old(subjobs) + spawned
        invariant Spawned(spawned, Parent(solutionPath), paths[..k], |old(tree.items)|)
        invariant forall i :: 0 <= i < |spawned| ==> fresh(spawned[i]) && !spawned[i].canceled
        invariant finished == old(finished) && emitted == old(emitted) && started == old(started)
      {
        var job := DeliverNext(tree, paths, k, old(tree.items), old(subjobs), spawned);
        spawned := spawned + [job];
        k := k + 1;
      }
      assert paths[..k] == paths;
      assert subjobs[..|old(subjobs)|] == old(subjobs) && subjobs[|old(subjobs)|..] == spawned;
      queued := [];
    }

    /** One delivered path of `Deliver`: its node and its job follow the
        ones already delivered. */
    method DeliverNext(tree: ProjectTree, paths: seq<string>, k: nat, ghost start: seq<Item>,
                       ghost before: seq<ProjectImportJob>, ghost spawned: seq<ProjectImportJob>)
      returns (job: ProjectImportJob)
      requires k < |paths| && tree.Valid() && dom < |tree.items| && Valid()
      requires tree.items == start + ProjectNodes(Parent(solutionPath), paths[..k], dom)
      requires subjobs == before + spawned && Spawned(spawned, Parent(solutionPath), paths[..k], |start|)
      modifies tree, this
      ensures tree.items == start + ProjectNodes(Parent(solutionPath), paths[..k + 1], dom)
      ensures subjobs == before + (spawned + [job])
      ensures Spawned(spawned + [job], Parent(solutionPath), paths[..k + 1], |start|)
      ensures fresh(job) && !job.canceled
      ensures finished == old(finished) && emitted == old(emitted) && started == old(started)
      ensures tree.Valid() && dom < |tree.items| && Valid()
    {
      job := AddProject(tree, paths[k]);
      SpawnedSnoc(spawned, Parent(solutionPath), paths, |start|, k, job);
      ProjectNodesSnoc(Parent(solutionPath), paths, k, dom);
      ConcatAssoc(start, ProjectNodes(Parent(solutionPath), paths[..k], dom),
        [ProjectNode(Resolve(Parent(solutionPath), paths[k]), Some(dom))]);
    }

    /** Completion check (`reconsider`): the result is reported when the
        run has finished and no project job remains, and the finished mark
        is cleared so that it is never reported again. */
    method Reconsider()
      requires Valid()
      modifies this
      ensures old(finished) && subjobs == [] ==> !finished && emitted == old(emitted) + 1
      ensures !(old(finished) && subjobs == []) ==> finished == old(finished) && emitted == old(emitted)
      ensures subjobs == old(subjobs) && queued == old(queued) && started == old(started)
      ensures Valid() && emitted <= 1
    {
      if finished && subjobs == [] {
        finished := false;
        emitted := emitted + 1;
      }
    }

    /** A project job has ended (`slotResult`): it is removed, then
        completion is checked. */
    method SlotResult(k: nat)
      requires Valid() && k < |subjobs|
      modifies this
      ensures subjobs == old(subjobs)[..k] + old(subjobs)[k + 1..]
      ensures old(finished) && subjobs == [] ==> !finished && emitted == old(emitted) + 1
      ensures !(old(finished) && subjobs == []) ==> finished == old(finished) && emitted == old(emitted)
      ensures Valid() && emitted <= 1
    {
      subjobs := subjobs[..k] + subjobs[k + 1..];
      Reconsider();
    }
  }
}
