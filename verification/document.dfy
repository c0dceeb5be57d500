/** The rendered page: a structured document filled from a note, and its
    flattening into the page text, piece by piece, in template order. */
module Document {
  import opened Note
  import opened Markup

  datatype ImgTag = ImgTag(src: string)
  datatype VideoTag = VideoTag(src: string)

  /** The slots of the page template. The title slot is printed twice. */
  datatype Document = Document(
    title: string,
    author: string,
    publishTime: string,
    content: string,
    images: seq<ImgTag>,
    videos: seq<VideoTag>)

  /** What a media entry without a `url` key prints: Python formats the
      missing value `None` as this text. */
  const AbsentUrlText: string := "None"

  /** The `src` attribute printed for a media entry. */
  function Src(m: Media): string
  {
    m.url.GetOr(AbsentUrlText)
  }

  /** One image tag per image entry, in list order. */
  function ImgTags(ms: seq<Media>): (r: seq<ImgTag>)
    ensures |r| == |ms|
    ensures forall i :: 0 <= i < |ms| ==> r[i].src == Src(ms[i])
    decreases |ms|
  {
    if ms == [] then [] else [ImgTag(Src(ms[0]))] + ImgTags(ms[1..])
  }

  /** One video tag per video entry, in list order. */
  function VideoTags(ms: seq<Media>): (r: seq<VideoTag>)
    ensures |r| == |ms|
    ensures forall i :: 0 <= i < |ms| ==> r[i].src == Src(ms[i])
    decreases |ms|
  {
    if ms == [] then [] else [VideoTag(Src(ms[0]))] + VideoTags(ms[1..])
  }

  /** Fills the template slots from a note; an absent key yields its placeholder. */
  function Render(note: NoteData): (d: Document)
    ensures note.title.None? ==> d.title == NoTitle
    ensures note.title.Some? ==> d.title == note.title.value
    ensures note.content.None? ==> d.content == NoContent
    ensures note.content.Some? ==> d.content == note.content.value
    ensures note.time.None? ==> d.publishTime == UnknownTime
    ensures note.time.Some? ==> d.publishTime == note.time.value
    ensures (note.user.None? || note.user.value.nickname.None?) ==> d.author == UnknownAuthor
    ensures (note.user.Some? && note.user.value.nickname.Some?) ==> d.author == note.user.value.nickname.value
    ensures note.imageList.None? ==> d.images == []
    ensures note.imageList.Some? ==> |d.images| == |note.imageList.value|
    ensures note.imageList.Some? ==>
      forall i :: 0 <= i < |d.images| ==> d.images[i].src == Src(note.imageList.value[i])
    ensures note.videoList.None? ==> d.videos == []
    ensures note.videoList.Some? ==> |d.videos| == |note.videoList.value|
    ensures note.videoList.Some? ==>
      forall i :: 0 <= i < |d.videos| ==> d.videos[i].src == Src(note.videoList.value[i])
  {
    var f := Extract(note);
    Document(f.title, f.author, f.publishTime, f.content, ImgTags(f.images), VideoTags(f.videos))
  }

  const ImgOpen: string := "<img src=\""
  const ImgClose: string := "\" />"
  const VideoOpen: string := "<video src=\""
  const VideoClose: string := "\" controls></video>"

  function ImgSrcs(tags: seq<ImgTag>): seq<string>
  {
    seq(|tags|, i requires 0 <= i < |tags| => tags[i].src)
  }

  function VideoSrcs(tags: seq<VideoTag>): seq<string>
  {
    seq(|tags|, i requires 0 <= i < |tags| => tags[i].src)
  }

  /** The text inside the images `div`: the image tags joined with nothing between them. */
  function ImagesHtml(tags: seq<ImgTag>): string
  {
    Section(ImgOpen, ImgSrcs(tags), ImgClose)
  }

  /** The text inside the videos `div`. */
  function VideosHtml(tags: seq<VideoTag>): string
  {
    Section(VideoOpen, VideoSrcs(tags), VideoClose)
  }

  // Fixed template text. Leading newlines and indentation are those of the
  // triple-quoted template, CSS braces already un-doubled.
  const Head: string :=
    "\n    <!DOCTYPE html>\n    <html lang=\"zh-CN\">\n    <head>\n"
    + "        <meta charset=\"UTF-8\">\n"
    + "        <meta name=\"viewport\" content=\"width=device-width, initial-scale=1.0\">\n        "
  const Style: string :=
    "\n        <style>\n"
    + "            body { font-family: Arial, sans-serif; margin: 20px; }\n"
    + "            .note { border: 1px solid #ddd; padding: 20px; border-radius: 8px; }\n"
    + "            .title { font-size: 24px; font-weight: bold; margin-bottom: 10px; }\n"
    + "            .author { color: #666; margin-bottom: 10px; }\n"
    + "            .content { margin-bottom: 20px; }\n"
    + "            .images img { max-width: 100%; height: auto; margin-bottom: 10px; }\n"
    + "            .videos video { max-width: 100%; height: auto; margin-bottom: 10px; }\n"
    + "        </style>\n    </head>\n    <body>\n        <div class=\"note\">\n            "
  const Indent: string := "\n            "
  const TitleOpen: string := "<title>"
  const TitleClose: string := "</title>"
  const TitleDivOpen: string := "<div class=\"title\">"
  const DivClose: string := "</div>"
  const AuthorDivOpen: string := "<div class=\"author\">作者: "
  const TimeLabel: string := " | 发布时间: "
  const ContentDivOpen: string := "<div class=\"content\">"
  const ImagesDivOpen: string := "<div class=\"images\">\n                "
  const VideosDivOpen: string := "<div class=\"videos\">\n                "
  const MediaDivClose: string := "\n            </div>"
  const Tail: string := "\n        </div>\n    </body>\n    </html>\n    "

  /** The page as a sequence of pieces: fixed template text and slot values
      alternately, in the order the page prints them. */
  function Pieces(d: Document): (ps: seq<string>)
    ensures |ps| == 27
  {
    [ Head,
      TitleOpen, d.title, TitleClose,                                  // 1..3
      Style,
      TitleDivOpen, d.title, DivClose,                                 // 5..7
      Indent,
      AuthorDivOpen, d.author, TimeLabel, d.publishTime, DivClose,     // 9..13
      Indent,
      ContentDivOpen, d.content, DivClose,                             // 15..17
      Indent,
      ImagesDivOpen, ImagesHtml(d.images), MediaDivClose,              // 19..21
      Indent,
      VideosDivOpen, VideosHtml(d.videos), MediaDivClose,              // 23..25
      Tail ]
  }

  /** The page text, joined from its pieces. */
  function Html(d: Document): string
  {
    Concat(Pieces(d))
  }

  /** Where piece `k` of the page starts. */
  function Pos(d: Document, k: nat): nat
    requires k <= 27
  {
    Offset(Pieces(d), k)
  }

  /** The `<title>` element of the head holds the title slot. */
  lemma TitleElement(d: Document)
    ensures At(Html(d), Pos(d, 1), TitleOpen + d.title + TitleClose)
  {
    var ps := Pieces(d);
    assert ps[1] == TitleOpen && ps[2] == d.title && ps[3] == TitleClose;
    At3(ps, 1);
  }

  /** The title `div` of the body holds the same title slot again. */
  lemma TitleDiv(d: Document)
    ensures At(Html(d), Pos(d, 5), TitleDivOpen + d.title + DivClose)
  {
    var ps := Pieces(d);
    assert ps[5] == TitleDivOpen && ps[6] == d.title && ps[7] == DivClose;
    At3(ps, 5);
  }

  /** The author line shows the author slot, then the publication time slot. */
  lemma AuthorLine(d: Document)
    ensures At(Html(d), Pos(d, 9), AuthorDivOpen + d.author + TimeLabel + d.publishTime + DivClose)
  {
    var ps := Pieces(d);
    assert ps[9] == AuthorDivOpen && ps[10] == d.author && ps[11] == TimeLabel;
    assert ps[12] == d.publishTime && ps[13] == DivClose;
    At5(ps, 9);
  }

  /** The content `div` holds the content slot. */
  lemma ContentDiv(d: Document)
    ensures At(Html(d), Pos(d, 15), ContentDivOpen + d.content + DivClose)
  {
    var ps := Pieces(d);
    assert ps[15] == ContentDivOpen && ps[16] == d.content && ps[17] == DivClose;
    At3(ps, 15);
  }

  /** The images `div` holds the joined image tags. */
  lemma ImagesDiv(d: Document)
    ensures At(Html(d), Pos(d, 19), ImagesDivOpen + ImagesHtml(d.images) + MediaDivClose)
  {
    var ps := Pieces(d);
    assert ps[19] == ImagesDivOpen && ps[20] == ImagesHtml(d.images) && ps[21] == MediaDivClose;
    At3(ps, 19);
  }

  /** Exactly the joined image tags lie between the opening and the closing
      text of the images `div`. */
  lemma ImagesRegion(d: Document)
    ensures At(Html(d), Pos(d, 20), ImagesHtml(d.images))
    ensures Pos(d, 21) == Pos(d, 20) + |ImagesHtml(d.images)|
  {
    var ps := Pieces(d);
    assert ps[20] == ImagesHtml(d.images);
    At1(ps, 20);
  }

  /** The videos `div` holds the joined video tags. */
  lemma VideosDiv(d: Document)
    ensures At(Html(d), Pos(d, 23), VideosDivOpen + VideosHtml(d.videos) + MediaDivClose)
  {
    var ps := Pieces(d);
    assert ps[23] == VideosDivOpen && ps[24] == VideosHtml(d.videos) && ps[25] == MediaDivClose;
    At3(ps, 23);
  }

  /** Exactly the joined video tags lie between the opening and the closing
      text of the videos `div`. */
  lemma VideosRegion(d: Document)
    ensures At(Html(d), Pos(d, 24), VideosHtml(d.videos))
    ensures Pos(d, 25) == Pos(d, 24) + |VideosHtml(d.videos)|
  {
    var ps := Pieces(d);
    assert ps[24] == VideosHtml(d.videos);
    At1(ps, 24);
  }

  /** The page prints its parts in a fixed order: the head title, then in the
      body the title, author line, content, images and videos. */
  lemma PartsInOrder(d: Document)
    ensures Pos(d, 1) < Pos(d, 5) < Pos(d, 9) < Pos(d, 15) < Pos(d, 19) < Pos(d, 23)
  {
    var ps := Pieces(d);
    assert ps[1] == TitleOpen && ps[5] == TitleDivOpen && ps[9] == AuthorDivOpen;
    assert ps[15] == ContentDivOpen && ps[19] == ImagesDivOpen;
    OffsetAdvances(ps, 1, 5);
    OffsetAdvances(ps, 5, 9);
    OffsetAdvances(ps, 9, 15);
    OffsetAdvances(ps, 15, 19);
    OffsetAdvances(ps, 19, 23);
  }
}
