/** Paths of project nodes, as segment lists. A path is either invalid (the
    path of a filter or target node) or a sequence of segments below the root
    of a local or a remote location. */
module Paths {
  import opened Text

  datatype Path = Invalid | Path(local: bool, segments: seq<string>)

  predicate IsLocalFile(p: Path) {
    p.Path? && p.local
  }

  /** The local file name: "/" followed by the segments joined with '/'; a
      path that is not a valid local path has none (""). */
  function LocalFile(p: Path): (f: string)
    ensures IsLocalFile(p) ==> |f| >= 1 && f[0] == '/'
    ensures !IsLocalFile(p) ==> f == ""
  {
    if IsLocalFile(p) then "/" + Join(p.segments, '/') else ""
  }

  /** The last segment, or "" for an invalid path or the root. */
  function LastSegment(p: Path): string
  {
    if p.Invalid? || p.segments == [] then "" else p.segments[|p.segments| - 1]
  }

  /** The enclosing directory; the root and an invalid path are their own
      parents. */
  function Parent(p: Path): (q: Path)
    ensures q.Invalid? <==> p.Invalid?
    ensures q.Path? ==> q.local == p.local && q.segments <= p.segments
    ensures q.Path? && p.segments != [] ==> |q.segments| == |p.segments| - 1
  {
    if p.Invalid? || p.segments == [] then p else p.(segments := p.segments[..|p.segments| - 1])
  }

  /** The same path with its last segment replaced. */
  function WithLastSegment(p: Path, name: string): (q: Path)
    ensures q.Invalid? <==> p.Invalid?
    ensures q.Path? ==> q.local == p.local && LastSegment(q) == name && Parent(q) == Parent(p)
  {
    if p.Invalid? then p
    else if p.segments == [] then p.(segments := [name])
    else p.(segments := p.segments[..|p.segments| - 1] + [name])
  }

  /** One step of resolving a relative path: empty and "." pieces are
      dropped, ".." climbs one level (staying at the root), anything else
      descends. */
  function Step(segs: seq<string>, piece: string): seq<string>
  {
    if piece == "" || piece == "." then segs
    else if piece == ".." then (if segs == [] then segs else segs[..|segs| - 1])
    else segs + [piece]
  }

  function Steps(segs: seq<string>, pieces: seq<string>): seq<string>
    decreases |pieces|
  {
    if pieces == [] then segs else Steps(Step(segs, pieces[0]), pieces[1..])
  }

  /** A path relative to a directory: the pieces of `rel` between '/' are
      applied to `base` in order; a leading '/' starts again from the root.
      An invalid base gives an invalid path. */
  function Resolve(base: Path, rel: string): Path
  {
    if base.Invalid? then Invalid
    else
      var start := if |rel| > 0 && rel[0] == '/' then [] else base.segments;
      base.(segments := Steps(start, Split(rel, '/')))
  }

  /** A piece that is neither empty nor "." nor "..". */
  predicate PlainPiece(piece: string) {
    piece != "" && piece != "." && piece != ".."
  }

  lemma {:induction false} StepsPlain(segs: seq<string>, pieces: seq<string>)
    requires forall k :: 0 <= k < |pieces| ==> PlainPiece(pieces[k])
    ensures Steps(segs, pieces) == segs + pieces
    decreases |pieces|
  {
    if pieces != [] {
      StepsPlain(segs + [pieces[0]], pieces[1..]);
      assert segs + [pieces[0]] + pieces[1..] == segs + pieces;
    }
  }

  /** A relative path made of plain pieces descends from the base one
      segment per piece; a single plain piece names a child of the base. */
  lemma ResolvePlain(base: Path, rel: string)
    requires base.Path? && (|rel| == 0 || rel[0] != '/')
    requires forall k :: 0 <= k < |Split(rel, '/')| ==> PlainPiece(Split(rel, '/')[k])
    ensures Resolve(base, rel) == base.(segments := base.segments + Split(rel, '/'))
    ensures |Split(rel, '/')| == 1 ==> Parent(Resolve(base, rel)) == base && LastSegment(Resolve(base, rel)) == rel
  {
    StepsPlain(base.segments, Split(rel, '/'));
    var r := base.segments + Split(rel, '/');
    if |Split(rel, '/')| == 1 {
      assert r[..|r| - 1] == base.segments;
    }
  }

  /** Resolving the empty relative path gives the base itself. */
  lemma ResolveEmpty(base: Path)
    ensures Resolve(base, "") == base
  {
    assert Split("", '/') == [""];
    assert [""][1..] == [];
    if base.Path? {
      assert Steps(base.segments, [""]) == Steps(base.segments, []);
    }
  }
}
