/** What a saved page shows for a note, and how repeated saves behave. */
module RenderProperties {
  import opened Note
  import opened Markup
  import opened Document
  import opened Paths
  import opened RenderPost

  /** The title text the page shows: the `title` value verbatim, or the
      placeholder when the key is absent. */
  function ShownTitle(note: NoteData): string
  {
    if note.title.Some? then note.title.value else NoTitle
  }

  /** The author the page shows: the nickname when `user` and its
      `nickname` are both present, the placeholder otherwise. */
  function ShownAuthor(note: NoteData): string
  {
    if note.user.Some? && note.user.value.nickname.Some? then note.user.value.nickname.value else UnknownAuthor
  }

  /** The publication time the page shows. */
  function ShownTime(note: NoteData): string
  {
    if note.time.Some? then note.time.value else UnknownTime
  }

  /** The content the page shows. */
  function ShownContent(note: NoteData): string
  {
    if note.content.Some? then note.content.value else NoContent
  }

  /** The title, or its placeholder, fills both the `<title>` element of the
      head and the title `div` of the body. */
  lemma TitleShownTwice(note: NoteData)
    ensures var d := Render(note);
      && At(Html(d), Pos(d, 1), TitleOpen + ShownTitle(note) + TitleClose)
      && At(Html(d), Pos(d, 5), TitleDivOpen + ShownTitle(note) + DivClose)
  {
    TitleElement(Render(note));
    TitleDiv(Render(note));
  }

  /** The author line shows the nickname when `user` and its `nickname` are
      both present and the author placeholder otherwise, then the `time`
      value or the time placeholder. */
  lemma AuthorLineShown(note: NoteData)
    ensures var d := Render(note);
      At(Html(d), Pos(d, 9), AuthorDivOpen + ShownAuthor(note) + TimeLabel + ShownTime(note) + DivClose)
  {
    AuthorLine(Render(note));
  }

  /** The content `div` shows the `content` value, or the content placeholder. */
  lemma ContentShown(note: NoteData)
    ensures var d := Render(note);
      At(Html(d), Pos(d, 15), ContentDivOpen + ShownContent(note) + DivClose)
  {
    ContentDiv(Render(note));
  }

  /** The images `div` of the page holds one image tag per `image_list`
      entry, in list order, each with that entry's source: reading the region
      back yields exactly the sources. An absent `image_list` leaves the
      region empty. (Reading back needs sources free of double quotes, which
      would otherwise end the attribute early.) */
  lemma ImagesShown(note: NoteData)
    requires forall m :: m in Extract(note).images ==> '"' !in Src(m)
    ensures var d := Render(note);
      var region := ImagesHtml(d.images);
      var ms := Extract(note).images;
      var parsed := ParseSection(region, ImgOpen, ImgClose);
      && At(Html(d), Pos(d, 20), region)
      && Pos(d, 21) == Pos(d, 20) + |region|
      && parsed.Some?
      && |parsed.value| == |ms|
      && (forall i :: 0 <= i < |ms| ==> parsed.value[i] == Src(ms[i]))
      && (note.imageList.None? ==> region == "")
  {
    var d := Render(note);
    var ms := Extract(note).images;
    ImagesRegion(d);
    var srcs := ImgSrcs(d.images);
    assert forall i :: 0 <= i < |srcs| ==> srcs[i] == Src(ms[i]);
    assert forall i :: 0 <= i < |srcs| ==> ImgClose[0] !in srcs[i] by {
      forall i | 0 <= i < |srcs|
        ensures ImgClose[0] !in srcs[i]
      {
        assert ms[i] in ms;
      }
    }
    ParseSectionRoundTrip(ImgOpen, srcs, ImgClose);
  }

  /** The videos `div` of the page holds one video tag per `video_list`
      entry, in list order; an absent `video_list` leaves it empty. */
  lemma VideosShown(note: NoteData)
    requires forall m :: m in Extract(note).videos ==> '"' !in Src(m)
    ensures var d := Render(note);
      var region := VideosHtml(d.videos);
      var ms := Extract(note).videos;
      var parsed := ParseSection(region, VideoOpen, VideoClose);
      && At(Html(d), Pos(d, 24), region)
      && Pos(d, 25) == Pos(d, 24) + |region|
      && parsed.Some?
      && |parsed.value| == |ms|
      && (forall i :: 0 <= i < |ms| ==> parsed.value[i] == Src(ms[i]))
      && (note.videoList.None? ==> region == "")
  {
    var d := Render(note);
    var ms := Extract(note).videos;
    VideosRegion(d);
    var srcs := VideoSrcs(d.videos);
    assert forall i :: 0 <= i < |srcs| ==> srcs[i] == Src(ms[i]);
    assert forall i :: 0 <= i < |srcs| ==> VideoClose[0] !in srcs[i] by {
      forall i | 0 <= i < |srcs|
        ensures VideoClose[0] !in srcs[i]
      {
        assert ms[i] in ms;
      }
    }
    ParseSectionRoundTrip(VideoOpen, srcs, VideoClose);
  }

  /** A separator-free note id gives a separator-free file name. */
  lemma FileNameWithoutSep(note: NoteData)
    requires Sep !in Extract(note).noteId
    ensures Sep !in FileName(note)
  {
    var name, id := FileName(note), Extract(note).noteId;
    forall i | 0 <= i < |name|
      ensures name[i] != Sep
    {
      if i < |id| {
        assert name[i] == id[i];
      } else {
        assert name[i] == HtmlSuffix[i - |id|];
      }
    }
  }

  /** The last component of the page path is the file name built from the
      note id: `<note_id>.html`, or `unknown.html` without a `note_id`. */
  lemma BasenameIsFileName(note: NoteData, outputDir: string)
    requires Sep !in Extract(note).noteId
    ensures Basename(NotePath(note, outputDir)) == FileName(note)
  {
    var name := FileName(note);
    assert NotePath(note, outputDir) == Join(outputDir, name);
    FileNameWithoutSep(note);
    BasenameOfJoin(outputDir, name);
  }

  /** A separator-free note id puts the file directly in the output
      directory, whatever trailing separators that directory is given with. */
  lemma FileInOutputDir(note: NoteData, outputDir: string)
    requires Sep !in Extract(note).noteId
    ensures Dirname(NotePath(note, outputDir)) == NormalDir(outputDir)
  {
    assert NotePath(note, outputDir) == Join(outputDir, FileName(note));
    FileNameWithoutSep(note);
    DirnameOfJoin(outputDir, FileName(note));
  }

  /** Creating the output directory provides the page's parent directory, so
      for a separator-free note id the call succeeds exactly when the
      directory can be created and the page path is neither a directory nor
      refused nor failing on write. */
  lemma ParentDirectoryCreated(fs: FileSystem, note: NoteData, outputDir: string)
    requires Sep !in Extract(note).noteId
    ensures CreateDirs(fs, outputDir).Ok? ==> Dirname(NotePath(note, outputDir)) in CreateDirs(fs, outputDir).value.dirs
    ensures RenderNoteToHtml(fs, note, outputDir).result.Ok? <==>
      && CreateDirs(fs, outputDir).Ok?
      && NotePath(note, outputDir) !in fs.dirs + {NormalDir(outputDir)}
      && NotePath(note, outputDir) !in fs.refused
      && NotePath(note, outputDir) !in fs.failsAfter
  {
    FileInOutputDir(note, outputDir);
  }

  /** With the default output directory, a relative note id is saved as
      `data/html/<note_id>.html`. */
  lemma DefaultLocation(note: NoteData)
    requires !(|Extract(note).noteId| > 0 && Extract(note).noteId[0] == Sep)
    ensures NotePath(note, DefaultOutputDir) == "data/html/" + Extract(note).noteId + HtmlSuffix
  {
    var name := FileName(note);
    assert name[0] != Sep;
  }

  /** A `note_id` starting with a separator is an absolute path: the output
      directory is dropped and the page goes to `<note_id>.html` itself. */
  lemma AbsoluteIdEscapesOutputDir(note: NoteData, outputDir: string)
    requires note.noteId.Some? && |note.noteId.value| > 0 && note.noteId.value[0] == Sep
    ensures NotePath(note, outputDir) == note.noteId.value + HtmlSuffix
  {
    var name := FileName(note);
    assert name[0] == Sep;
  }

  /** Missing optional keys never make the call fail: two notes with the same
      note id succeed or fail alike, with the same error. */
  lemma FailureIndependentOfOptionalKeys(fs: FileSystem, a: NoteData, b: NoteData, outputDir: string)
    requires a.noteId == b.noteId
    ensures RenderNoteToHtml(fs, a, outputDir).result == RenderNoteToHtml(fs, b, outputDir).result
  {
    var path := NotePath(a, outputDir);
    assert path == NotePath(b, outputDir);
    assert RenderNoteToHtml(fs, a, outputDir) == Save(fs, outputDir, path, Html(Render(a)));
    assert RenderNoteToHtml(fs, b, outputDir) == Save(fs, outputDir, path, Html(Render(b)));
    SaveOutcomeIgnoresPage(fs, outputDir, path, Html(Render(a)), Html(Render(b)));
  }

  /** The page is written with overwrite semantics: rendering the same note
      again changes nothing further, whether the first render succeeded or
      failed. */
  lemma RenderIdempotent(fs: FileSystem, note: NoteData, outputDir: string)
    ensures var once := RenderNoteToHtml(fs, note, outputDir);
      RenderNoteToHtml(once.fs, note, outputDir) == once
  {
    var path, page := NotePath(note, outputDir), Html(Render(note));
    var once := RenderNoteToHtml(fs, note, outputDir);
    assert once == Save(fs, outputDir, path, page);
    assert RenderNoteToHtml(once.fs, note, outputDir) == Save(once.fs, outputDir, path, page);
    SaveAgain(fs, outputDir, path, page);
  }

  /** The last render of a note id wins: whatever an earlier render of a note
      with the same id wrote or left half-written, a later render leaves the file system exactly
      as a render of the later note alone would. */
  lemma LastRenderWins(fs: FileSystem, first: NoteData, second: NoteData, outputDir: string)
    requires first.noteId == second.noteId
    ensures var one := RenderNoteToHtml(fs, first, outputDir);
      RenderNoteToHtml(one.fs, second, outputDir) == RenderNoteToHtml(fs, second, outputDir)
  {
    var path := NotePath(first, outputDir);
    assert path == NotePath(second, outputDir);
    var p1, p2 := Html(Render(first)), Html(Render(second));
    var one := RenderNoteToHtml(fs, first, outputDir);
    assert one == Save(fs, outputDir, path, p1);
    assert RenderNoteToHtml(one.fs, second, outputDir) == Save(one.fs, outputDir, path, p2);
    assert RenderNoteToHtml(fs, second, outputDir) == Save(fs, outputDir, path, p2);
    SaveTwice(fs, outputDir, path, p1, p2);
  }
}
