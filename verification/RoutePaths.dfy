/** Path handling of the route engine: normalisation and splitting into segments. */
module RoutePaths {

  /** `s.split('/')`: the pieces between slashes, empty pieces included. */
  function Pieces(s: string): (r: seq<string>)
    ensures |r| > 0
  {
    if s == "" then [""]
    else if s[0] == '/' then [""] + Pieces(s[1..])
    else var r := Pieces(s[1..]); [[s[0]] + r[0]] + r[1..]
  }

  /** `.filter(segment => segment.length > 0)` */
  function NonEmpty(pieces: seq<string>): seq<string> {
    if pieces == [] then []
    else if pieces[0] == "" then NonEmpty(pieces[1..])
    else [pieces[0]] + NonEmpty(pieces[1..])
  }

  function NormalizePath(path: string): string {
    if path == "" then "/"
    else
      var rooted := if path[0] == '/' then path else "/" + path;
      if |rooted| > 1 && rooted[|rooted| - 1] == '/' then rooted[..|rooted| - 1] else rooted
  }

  function SplitPath(path: string): seq<string> {
    if path == "/" then [] else NonEmpty(Pieces(path))
  }

  function Segments(path: string): seq<string> {
    SplitPath(NormalizePath(path))
  }

  /** `segments.join('/')` */
  function Join(segs: seq<string>): string {
    if segs == [] then ""
    else if |segs| == 1 then segs[0]
    else segs[0] + "/" + Join(segs[1..])
  }

  predicate ProperSegment(seg: string) {
    seg != "" && '/' !in seg
  }

  lemma {:induction false} PiecesConcat(a: string, b: string)
    ensures Pieces(a + "/" + b) == Pieces(a) + Pieces(b)
  {
    if a == "" {
      assert a + "/" + b == "/" + b;
    } else {
      assert (a + "/" + b)[1..] == a[1..] + "/" + b;
      PiecesConcat(a[1..], b);
    }
  }

  lemma {:induction false} NonEmptyConcat(a: seq<string>, b: seq<string>)
    ensures NonEmpty(a + b) == NonEmpty(a) + NonEmpty(b)
  {
    if a == [] {
      assert a + b == b;
    } else {
      assert (a + b)[1..] == a[1..] + b;
      NonEmptyConcat(a[1..], b);
    }
  }

  lemma LeadingSlash(path: string)
    ensures NonEmpty(Pieces("/" + path)) == NonEmpty(Pieces(path))
  {
    assert ("/" + path)[1..] == path;
    assert ([""] + Pieces(path))[1..] == Pieces(path);
  }

  lemma TrailingSlash(path: string)
    ensures NonEmpty(Pieces(path + "/")) == NonEmpty(Pieces(path))
  {
    hide Pieces;
    assert path + "/" == path + "/" + "";
    PiecesConcat(path, "");
    NonEmptyConcat(Pieces(path), Pieces(""));
    NoPieces();
  }

  lemma NoPieces()
    ensures NonEmpty(Pieces("")) == [] == NonEmpty(Pieces("/"))
  {
    LeadingSlash("");
  }

  lemma SplitIsNonEmptyPieces(path: string)
    ensures SplitPath(path) == NonEmpty(Pieces(path))
  {
    hide Pieces, NonEmpty;
    NoPieces();
  }

  lemma NormalizedPieces(path: string)
    ensures NonEmpty(Pieces(NormalizePath(path))) == NonEmpty(Pieces(path))
  {
    hide Pieces, NonEmpty;
    NoPieces();
    LeadingSlash(path);
    var rooted := if path != "" && path[0] == '/' then path else "/" + path;
    if |rooted| > 1 && rooted[|rooted| - 1] == '/' {
      TrailingSlash(rooted[..|rooted| - 1]);
      assert rooted == rooted[..|rooted| - 1] + "/";
    }
  }

  /** The normalisation step never changes which segments a path has. */
  lemma SegmentsIgnoreNormalization(path: string)
    ensures Segments(path) == NonEmpty(Pieces(path))
  {
    hide SplitPath, Pieces, NonEmpty, NormalizePath;
    SplitIsNonEmptyPieces(NormalizePath(path));
    NormalizedPieces(path);
  }

  /** Appending a sub-path to a base path appends its segments, whatever slashes either side carries. */
  lemma SegmentsOfSubPath(base: string, sub: string)
    ensures Segments(base + "/" + sub) == Segments(base) + Segments(sub)
  {
    SegmentsIgnoreNormalization(base + "/" + sub);
    SegmentsIgnoreNormalization(base);
    SegmentsIgnoreNormalization(sub);
    PiecesConcat(base, sub);
    NonEmptyConcat(Pieces(base), Pieces(sub));
  }

  lemma {:induction false} PiecesHaveNoSlash(s: string)
    ensures forall p :: p in Pieces(s) ==> '/' !in p
  {
    if s != "" {
      PiecesHaveNoSlash(s[1..]);
    }
  }

  lemma {:induction false} NonEmptyMembers(pieces: seq<string>)
    ensures forall p :: p in NonEmpty(pieces) <==> p in pieces && p != ""
  {
    if pieces != [] {
      NonEmptyMembers(pieces[1..]);
    }
  }

  /** Every segment the engine works on is non-empty and slash-free. */
  lemma SegmentsAreProper(path: string)
    ensures forall seg :: seg in Segments(path) ==> ProperSegment(seg)
  {
    SegmentsIgnoreNormalization(path);
    PiecesHaveNoSlash(path);
    NonEmptyMembers(Pieces(path));
  }

  lemma {:induction false} PiecesOfProper(seg: string)
    requires '/' !in seg
    ensures Pieces(seg) == [seg]
  {
    if seg != "" {
      PiecesOfProper(seg[1..]);
      assert seg == [seg[0]] + seg[1..];
    }
  }

  lemma SegmentsOfProper(seg: string)
    requires ProperSegment(seg)
    ensures Segments(seg) == [seg]
  {
    SegmentsIgnoreNormalization(seg);
    PiecesOfProper(seg);
  }

  lemma SegmentsOfNothing()
    ensures Segments("") == []
  {
  }

  /** Splitting is the inverse of joining proper segments with slashes. */
  lemma {:induction false} JoinThenSplit(segs: seq<string>)
    requires forall seg :: seg in segs ==> ProperSegment(seg)
    ensures Segments(Join(segs)) == segs
  {
    hide Segments;
    if segs == [] {
      SegmentsOfNothing();
    } else {
      assert segs[0] in segs && ProperSegment(segs[0]);
      SegmentsOfProper(segs[0]);
      if |segs| > 1 {
        SegmentsOfSubPath(segs[0], Join(segs[1..]));
        JoinThenSplit(segs[1..]);
        assert segs == [segs[0]] + segs[1..];
      } else {
        assert segs == [segs[0]];
      }
    }
  }
}
