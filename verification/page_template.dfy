/** The page template as the program writes it, an f-string: fixed text
    with slots. The page the pieces join to is exactly this template
    formatted with the document's slots. */
module PageTemplate {
  import opened Markup
  import opened Document

  /** The pieces from `k` on, one after the other, counted by index. */
  function ConcatFrom(ps: seq<string>, k: nat): string
    requires k <= |ps|
    decreases |ps| - k
  {
    if k == |ps| then "" else ps[k] + ConcatFrom(ps, k + 1)
  }

  /** Counting by index joins the same pieces as taking suffixes. */
  lemma {:induction false} ConcatFromSuffix(ps: seq<string>, k: nat)
    requires k <= |ps|
    ensures ConcatFrom(ps, k) == Concat(ps[k..])
    decreases |ps| - k
  {
    if k < |ps| {
      ConcatFromSuffix(ps, k + 1);
      assert ps[k..][1..] == ps[k + 1..];
    } else {
      assert ps[k..] == [];
    }
  }

  /** An f-string: the fixed segments from `k` on, with one slot value
      between each two neighbouring segments. */
  function FormatFrom(fixed: seq<string>, slots: seq<string>, k: nat): string
    requires |fixed| == |slots| + 1 && k <= |slots|
    decreases |slots| - k
  {
    if k == |slots| then fixed[k] else fixed[k] + (slots[k] + FormatFrom(fixed, slots, k + 1))
  }

  /** The whole f-string `fixed[0] {slots[0]} fixed[1] ... fixed[n]`. */
  function Format(fixed: seq<string>, slots: seq<string>): string
    requires |fixed| == |slots| + 1
  {
    FormatFrom(fixed, slots, 0)
  }

  /** The fixed text of the page template, the eight segments around its
      seven slots, in the order the template prints them. */
  const Template: seq<string> := [
    Head + TitleOpen,
    TitleClose + Style + TitleDivOpen,
    DivClose + Indent + AuthorDivOpen,
    TimeLabel,
    DivClose + Indent + ContentDivOpen,
    DivClose + Indent + ImagesDivOpen,
    MediaDivClose + Indent + VideosDivOpen,
    MediaDivClose + Tail ]

  /** What the template's slots are filled with: the title twice, author,
      time, content, and the joined image and video tags. */
  function Slots(d: Document): (r: seq<string>)
    ensures |r| == |Template| - 1
  {
    [d.title, d.title, d.author, d.publishTime, d.content, ImagesHtml(d.images), VideosHtml(d.videos)]
  }

  /** The page text is the template formatted as an f-string: its eight
      fixed segments with the title, the title again, the author, the time,
      the content, the image tags and the video tags in between. */
  lemma HtmlIsTemplate(d: Document)
    ensures Html(d) == Format(Template, Slots(d))
  {
    ConcatFromSuffix(Pieces(d), 0);
    assert Pieces(d)[0..] == Pieces(d);
    PiecesJoin(Head, TitleOpen, d.title, TitleClose, Style, TitleDivOpen, DivClose,
      Indent, AuthorDivOpen, d.author, TimeLabel, d.publishTime, ContentDivOpen, d.content,
      ImagesDivOpen, ImagesHtml(d.images), MediaDivClose, VideosDivOpen, VideosHtml(d.videos), Tail);
    TemplateJoin(Head, TitleOpen, d.title, TitleClose, Style, TitleDivOpen, DivClose,
      Indent, AuthorDivOpen, d.author, TimeLabel, d.publishTime, ContentDivOpen, d.content,
      ImagesDivOpen, ImagesHtml(d.images), MediaDivClose, VideosDivOpen, VideosHtml(d.videos), Tail);
  }

  /** The page's pieces, for any texts in their places, join to the texts
      in order. */
  lemma PiecesJoin(
      head: string, titleOpen: string, title: string, titleClose: string, style: string,
      titleDivOpen: string, divClose: string, indent: string, authorDivOpen: string, author: string,
      timeLabel: string, time: string, contentDivOpen: string, content: string, imagesDivOpen: string,
      images: string, mediaDivClose: string, videosDivOpen: string, videos: string, tail: string)
    ensures ConcatFrom(
        [ head, titleOpen, title, titleClose, style, titleDivOpen,
        title, divClose, indent, authorDivOpen, author, timeLabel,
        time, divClose, indent, contentDivOpen, content, divClose,
        indent, imagesDivOpen, images, mediaDivClose, indent, videosDivOpen,
        videos, mediaDivClose, tail ], 0)
      == head + (titleOpen + (title + (titleClose + (style + (titleDivOpen + (title + (divClose + (indent + (authorDivOpen + (author + (timeLabel + (time + (divClose + (indent + (contentDivOpen + (content + (divClose + (indent + (imagesDivOpen + (images + (mediaDivClose + (indent + (videosDivOpen + (videos + (mediaDivClose + (tail + ""))))))))))))))))))))))))))
  {
    var ps := [ head, titleOpen, title, titleClose, style, titleDivOpen,
        title, divClose, indent, authorDivOpen, author, timeLabel,
        time, divClose, indent, contentDivOpen, content, divClose,
        indent, imagesDivOpen, images, mediaDivClose, indent, videosDivOpen,
        videos, mediaDivClose, tail ];
    assert ConcatFrom(ps, 26) == tail + ConcatFrom(ps, 27);
    assert ConcatFrom(ps, 25) == mediaDivClose + ConcatFrom(ps, 26);
    assert ConcatFrom(ps, 24) == videos + ConcatFrom(ps, 25);
    assert ConcatFrom(ps, 23) == videosDivOpen + ConcatFrom(ps, 24);
    assert ConcatFrom(ps, 22) == indent + ConcatFrom(ps, 23);
    assert ConcatFrom(ps, 21) == mediaDivClose + ConcatFrom(ps, 22);
    assert ConcatFrom(ps, 20) == images + ConcatFrom(ps, 21);
    assert ConcatFrom(ps, 19) == imagesDivOpen + ConcatFrom(ps, 20);
    assert ConcatFrom(ps, 18) == indent + ConcatFrom(ps, 19);
    assert ConcatFrom(ps, 17) == divClose + ConcatFrom(ps, 18);
    assert ConcatFrom(ps, 16) == content + ConcatFrom(ps, 17);
    assert ConcatFrom(ps, 15) == contentDivOpen + ConcatFrom(ps, 16);
    assert ConcatFrom(ps, 14) == indent + ConcatFrom(ps, 15);
    assert ConcatFrom(ps, 13) == divClose + ConcatFrom(ps, 14);
    assert ConcatFrom(ps, 12) == time + ConcatFrom(ps, 13);
    assert ConcatFrom(ps, 11) == timeLabel + ConcatFrom(ps, 12);
    assert ConcatFrom(ps, 10) == author + ConcatFrom(ps, 11);
    assert ConcatFrom(ps, 9) == authorDivOpen + ConcatFrom(ps, 10);
    assert ConcatFrom(ps, 8) == indent + ConcatFrom(ps, 9);
    assert ConcatFrom(ps, 7) == divClose + ConcatFrom(ps, 8);
    assert ConcatFrom(ps, 6) == title + ConcatFrom(ps, 7);
    assert ConcatFrom(ps, 5) == titleDivOpen + ConcatFrom(ps, 6);
    assert ConcatFrom(ps, 4) == style + ConcatFrom(ps, 5);
    assert ConcatFrom(ps, 3) == titleClose + ConcatFrom(ps, 4);
    assert ConcatFrom(ps, 2) == title + ConcatFrom(ps, 3);
    assert ConcatFrom(ps, 1) == titleOpen + ConcatFrom(ps, 2);
    assert ConcatFrom(ps, 0) == head + ConcatFrom(ps, 1);
  }

  /** The template formatted with the slots, for any texts in their places,
      gives the same texts in the same order as the pieces. */
  lemma TemplateJoin(
      head: string, titleOpen: string, title: string, titleClose: string, style: string,
      titleDivOpen: string, divClose: string, indent: string, authorDivOpen: string, author: string,
      timeLabel: string, time: string, contentDivOpen: string, content: string, imagesDivOpen: string,
      images: string, mediaDivClose: string, videosDivOpen: string, videos: string, tail: string)
    ensures FormatFrom(
        [head + titleOpen, titleClose + style + titleDivOpen, divClose + indent + authorDivOpen, timeLabel,
         divClose + indent + contentDivOpen, divClose + indent + imagesDivOpen, mediaDivClose + indent + videosDivOpen, mediaDivClose + tail],
        [title, title, author, time, content, images, videos], 0)
      == head + (titleOpen + (title + (titleClose + (style + (titleDivOpen + (title + (divClose + (indent + (authorDivOpen + (author + (timeLabel + (time + (divClose + (indent + (contentDivOpen + (content + (divClose + (indent + (imagesDivOpen + (images + (mediaDivClose + (indent + (videosDivOpen + (videos + (mediaDivClose + (tail + ""))))))))))))))))))))))))))
  {
    var t := [head + titleOpen, titleClose + style + titleDivOpen, divClose + indent + authorDivOpen, timeLabel,
         divClose + indent + contentDivOpen, divClose + indent + imagesDivOpen, mediaDivClose + indent + videosDivOpen, mediaDivClose + tail];
    var s := [title, title, author, time, content, images, videos];
    assert FormatFrom(t, s, 7) == mediaDivClose + (tail + "");
    assert FormatFrom(t, s, 6) == mediaDivClose + (indent + (videosDivOpen + (videos + FormatFrom(t, s, 7))));
    assert FormatFrom(t, s, 5) == divClose + (indent + (imagesDivOpen + (images + FormatFrom(t, s, 6))));
    assert FormatFrom(t, s, 4) == divClose + (indent + (contentDivOpen + (content + FormatFrom(t, s, 5))));
    assert FormatFrom(t, s, 3) == timeLabel + (time + FormatFrom(t, s, 4));
    assert FormatFrom(t, s, 2) == divClose + (indent + (authorDivOpen + (author + FormatFrom(t, s, 3))));
    assert FormatFrom(t, s, 1) == titleClose + (style + (titleDivOpen + (title + FormatFrom(t, s, 2))));
    assert FormatFrom(t, s, 0) == head + (titleOpen + (title + FormatFrom(t, s, 1)));
  }
}
