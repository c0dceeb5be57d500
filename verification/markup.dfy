/** String building blocks of the rendered page: concatenation of template
    pieces, occurrence of a substring at an offset, and the media sections
    built by joining one tag per source, together with a parser that reads
    such a section back. */
module Markup {
  import opened Results

  /** `"".join(ps)`: the pieces one after the other. */
  function Concat(ps: seq<string>): (r: string)
    decreases |ps|
  {
    if ps == [] then "" else ps[0] + Concat(ps[1..])
  }

  /** Concatenation splits at any piece boundary. */
  lemma {:induction false} ConcatSplit(ps: seq<string>, k: nat)
    requires k <= |ps|
    ensures Concat(ps) == Concat(ps[..k]) + Concat(ps[k..])
    decreases k
  {
    if k > 0 {
      ConcatSplit(ps[1..], k - 1);
      assert ps[1..][..k - 1] == ps[..k][1..];
      assert ps[1..][k - 1..] == ps[k..];
    } else {
      assert ps[..0] == [];
      assert ps[0..] == ps;
    }
  }

  /** `s` occurs in `h` starting at offset `i`. */
  predicate At(h: string, i: int, s: string)
  {
    0 <= i && i + |s| <= |h| && h[i..i + |s|] == s
  }

  /** The middle part of a three-part string occurs right after the first part. */
  lemma AtMiddle(a: string, b: string, c: string)
    ensures At(a + b + c, |a|, b)
  {
    assert (a + b + c)[|a|..|a| + |b|] == b;
  }

  /** Where piece `k` starts in `Concat(ps)`. */
  function Offset(ps: seq<string>, k: nat): nat
    requires k <= |ps|
  {
    |Concat(ps[..k])|
  }

  /** The pieces before `k`, from `k` up to `m`, and from `m` on, make up the
      whole; the offset of `m` lies the length of the middle part after `k`. */
  lemma ConcatRange(ps: seq<string>, k: nat, m: nat)
    requires k <= m <= |ps|
    ensures Concat(ps) == Concat(ps[..k]) + Concat(ps[k..m]) + Concat(ps[m..])
    ensures Offset(ps, m) == Offset(ps, k) + |Concat(ps[k..m])|
  {
    ConcatSplit(ps, k);
    ConcatSplit(ps[k..], m - k);
    assert ps[k..][..m - k] == ps[k..m];
    assert ps[k..][m - k..] == ps[m..];
    ConcatSplit(ps[..m], k);
    assert ps[..m][..k] == ps[..k];
    assert ps[..m][k..] == ps[k..m];
  }

  /** The pieces `k` up to (not including) `m`, joined, occur at the offset of piece `k`. */
  lemma PiecesAt(ps: seq<string>, k: nat, m: nat)
    requires k <= m <= |ps|
    ensures At(Concat(ps), Offset(ps, k), Concat(ps[k..m]))
  {
    ConcatRange(ps, k, m);
    AtMiddle(Concat(ps[..k]), Concat(ps[k..m]), Concat(ps[m..]));
  }

  /** Peels the first piece off a window of pieces. */
  lemma ConcatStep(ps: seq<string>, k: nat, m: nat)
    requires k < m <= |ps|
    ensures Concat(ps[k..m]) == ps[k] + Concat(ps[k + 1..m])
  {
    assert ps[k..m][1..] == ps[k + 1..m];
  }

  /** An empty window joins to the empty text. */
  lemma ConcatEmpty(ps: seq<string>, k: nat)
    requires k <= |ps|
    ensures Concat(ps[k..k]) == ""
  {
    assert ps[k..k] == [];
  }

  /** A later piece starts strictly after a non-empty earlier one. */
  lemma OffsetAdvances(ps: seq<string>, k: nat, m: nat)
    requires k < m <= |ps| && |ps[k]| > 0
    ensures Offset(ps, k) < Offset(ps, m)
  {
    ConcatRange(ps, k, m);
    ConcatStep(ps, k, m);
  }

  /** A single piece stands at its offset, and the next piece follows right after it. */
  lemma At1(ps: seq<string>, k: nat)
    requires k + 1 <= |ps|
    ensures At(Concat(ps), Offset(ps, k), ps[k])
    ensures Offset(ps, k + 1) == Offset(ps, k) + |ps[k]|
  {
    ConcatStep(ps, k, k + 1);
    ConcatEmpty(ps, k + 1);
    assert Concat(ps[k..k + 1]) == ps[k];
    PiecesAt(ps, k, k + 1);
    ConcatRange(ps, k, k + 1);
  }

  lemma Concat3(ps: seq<string>, k: nat)
    requires k + 3 <= |ps|
    ensures Concat(ps[k..k + 3]) == ps[k] + ps[k + 1] + ps[k + 2]
  {
    ConcatStep(ps, k, k + 3);
    ConcatStep(ps, k + 1, k + 3);
    ConcatStep(ps, k + 2, k + 3);
    ConcatEmpty(ps, k + 3);
  }

  /** Three consecutive pieces, joined, stand at the offset of the first. */
  lemma At3(ps: seq<string>, k: nat)
    requires k + 3 <= |ps|
    ensures At(Concat(ps), Offset(ps, k), ps[k] + ps[k + 1] + ps[k + 2])
  {
    PiecesAt(ps, k, k + 3);
    Concat3(ps, k);
  }

  lemma Concat5(ps: seq<string>, k: nat)
    requires k + 5 <= |ps|
    ensures Concat(ps[k..k + 5]) == ps[k] + ps[k + 1] + ps[k + 2] + ps[k + 3] + ps[k + 4]
  {
    ConcatStep(ps, k, k + 5);
    ConcatStep(ps, k + 1, k + 5);
    Concat3(ps, k + 2);
  }

  /** Five consecutive pieces, joined, stand at the offset of the first. */
  lemma At5(ps: seq<string>, k: nat)
    requires k + 5 <= |ps|
    ensures At(Concat(ps), Offset(ps, k), ps[k] + ps[k + 1] + ps[k + 2] + ps[k + 3] + ps[k + 4])
  {
    PiecesAt(ps, k, k + 5);
    Concat5(ps, k);
  }

  /** One media tag: the opening text, the source, the closing text. */
  function Tag(open: string, src: string, close: string): string
  {
    open + src + close
  }

  /** A media section: one tag per source, in the order of the sources. */
  function Section(open: string, srcs: seq<string>, close: string): string
    decreases |srcs|
  {
    if srcs == [] then "" else Tag(open, srcs[0], close) + Section(open, srcs[1..], close)
  }

  /** The first position of `c` in `s`, if any. */
  function IndexOf(s: string, c: char): (r: Option<nat>)
    ensures r.Some? ==> r.value < |s| && s[r.value] == c && c !in s[..r.value]
    ensures r.None? ==> c !in s
    decreases |s|
  {
    if s == [] then None
    else if s[0] == c then Some(0)
    else match IndexOf(s[1..], c)
      case None => None
      case Some(k) => Some(k + 1)
  }

  /** Reads a section back into its sources: each tag must start with `open`,
      its source runs up to the first character of `close`, and `close` must
      follow. Anything else is rejected. */
  function ParseSection(s: string, open: string, close: string): (r: Option<seq<string>>)
    requires |open| > 0 && |close| > 0
    decreases |s|
  {
    if s == [] then Some([])
    else if !(open <= s) then None
    else
      var rest := s[|open|..];
      match IndexOf(rest, close[0])
      case None => None
      case Some(k) =>
        var after := rest[k..];
        if !(close <= after) then None
        else match ParseSection(after[|close|..], open, close)
          case None => None
          case Some(srcs) => Some([rest[..k]] + srcs)
  }

  /** The first closing character after a source free of it is the one
      that ends the source. */
  lemma IndexAfterSource(src: string, t: string, c: char)
    requires c !in src && t != [] && t[0] == c
    ensures IndexOf(src + t, c) == Some(|src|)
  {
    var s := src + t;
    assert s[|src|] == c;
    var idx := IndexOf(s, c);
    assert idx.Some?;
    assert s[..|src|] == src;
    assert forall j :: 0 <= j < |src| ==> s[j] == src[j];
  }

  /** One tag of a section parses to its source, followed by what the rest
      of the section parses to. */
  lemma ParseTag(open: string, src: string, close: string, tail: string)
    requires |open| > 0 && |close| > 0
    requires close[0] !in src
    ensures var r := ParseSection(tail, open, close);
      ParseSection(open + (src + close + tail), open, close)
        == if r.Some? then Some([src] + r.value) else None
  {
    var s := open + (src + close + tail);
    assert open <= s;
    var rest := s[|open|..];
    assert rest == src + (close + tail);
    IndexAfterSource(src, close + tail, close[0]);
    assert rest[..|src|] == src;
    var after := rest[|src|..];
    assert after == close + tail;
    assert close <= after;
    assert after[|close|..] == tail;
  }

  /** A section determines its sources: as long as no source contains the
      first character of the closing text, parsing the section yields exactly
      the sources, one per tag and in order. */
  lemma {:induction false} ParseSectionRoundTrip(open: string, srcs: seq<string>, close: string)
    requires |open| > 0 && |close| > 0
    requires forall i :: 0 <= i < |srcs| ==> close[0] !in srcs[i]
    ensures ParseSection(Section(open, srcs, close), open, close) == Some(srcs)
    decreases |srcs|
  {
    if srcs != [] {
      var tail := Section(open, srcs[1..], close);
      assert Section(open, srcs, close) == open + (srcs[0] + close + tail);
      assert close[0] !in srcs[0];
      ParseTag(open, srcs[0], close, tail);
      ParseSectionRoundTrip(open, srcs[1..], close);
      assert [srcs[0]] + srcs[1..] == srcs;
    }
  }
}
