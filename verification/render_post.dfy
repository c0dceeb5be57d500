/** `render_note_to_html`: render a note to a self-contained HTML page and
    save it as `<output_dir>/<note_id>.html`, returning that path. The file
    system is a value; where the operating system refuses an operation is
    part of that value. */
module RenderPost {
  import opened Results
  import opened Note
  import opened Document
  import opened Paths

  const HtmlSuffix: string := ".html"
  const DefaultOutputDir: string := "data/html"

  /** The name of the page file: the `note_id` value followed by `.html`,
      or `unknown.html` for a note without a `note_id`. */
  function FileName(note: NoteData): (r: string)
    ensures note.noteId.Some? ==> r == note.noteId.value + ".html"
    ensures note.noteId.None? ==> r == "unknown.html"
  {
    Extract(note).noteId + HtmlSuffix
  }

  /** The path the page is written to and returned: the file name joined
      onto the output directory. */
  function NotePath(note: NoteData, outputDir: string): (r: string)
    ensures note.noteId.Some? ==> r == Join(outputDir, note.noteId.value + ".html")
    ensures note.noteId.None? ==> r == Join(outputDir, "unknown.html")
  {
    Join(outputDir, FileName(note))
  }

  datatype IoOp = MakeDirs | Open | Write
  datatype IoErrorKind = FileNotFound | FileExists | IsADirectory | Refused | WriteFailed
  datatype IoError = IoError(op: IoOp, kind: IoErrorKind, path: string)

  /** Directories (named as `os.path.dirname` names them), files with their
      text, the paths at which the operating system refuses to create
      anything (permissions, read-only media), and the paths at which a
      write fails once the file is open (full disk, device error), with the
      number of characters that reach the file before it does. */
  datatype FileSystem = FileSystem(
    dirs: set<string>,
    files: map<string, string>,
    refused: set<string>,
    failsAfter: map<string, nat>)

  /** `os.makedirs(dir, exist_ok=True)`: succeeds on an existing directory;
      fails on the empty path, on a path that is a file, and where the system
      refuses; otherwise creates the directory. Trailing separators do not
      change which directory is meant. */
  function CreateDirs(fs: FileSystem, dir: string): (r: Result<FileSystem, IoError>)
    ensures r.Ok? <==> dir != "" && (NormalDir(dir) in fs.dirs || (NormalDir(dir) !in fs.files && NormalDir(dir) !in fs.refused))
    ensures r.Ok? ==> r.value == fs.(dirs := fs.dirs + {NormalDir(dir)})
    ensures r.Err? ==> r.error.op == MakeDirs && r.error.path == dir
  {
    var d := NormalDir(dir);
    if dir == "" then Err(IoError(MakeDirs, FileNotFound, dir))
    else if d in fs.dirs then Ok(fs)
    else if d in fs.files then Err(IoError(MakeDirs, FileExists, dir))
    else if d in fs.refused then Err(IoError(MakeDirs, Refused, dir))
    else Ok(fs.(dirs := fs.dirs + {d}))
  }

  /** The file system after a call, and the returned path or the raised error. */
  datatype Saved = Saved(fs: FileSystem, result: Result<string, IoError>)

  /** Whether `open(path, "w")` succeeds: the parent directory exists, and
      the path is neither a directory nor refused. */
  predicate CanOpen(fs: FileSystem, path: string)
  {
    (Dirname(path) == "" || Dirname(path) in fs.dirs) && path !in fs.dirs && path !in fs.refused
  }

  /** `open(path, "w")` followed by `write(text)`. Opening fails without any
      effect when the parent directory is missing, on a directory, and where
      the system refuses. Once open, the file is emptied; the write then
      either leaves exactly `text` in it or fails with only a prefix of
      `text` written. No other file changes. */
  function WriteFile(fs: FileSystem, path: string, text: string): (out: Saved)
    ensures out.result.Ok? <==> CanOpen(fs, path) && path !in fs.failsAfter
    ensures out.result.Ok? ==> out.result.value == path
    ensures out.result.Ok? ==> path in out.fs.files && out.fs.files[path] == text
    ensures out.result.Err? ==> out.result.error.path == path && out.result.error.op != MakeDirs
    ensures out.result.Err? && out.result.error.op == Open ==> !CanOpen(fs, path) && out.fs == fs
    ensures out.result.Err? && out.result.error.op == Write ==>
      CanOpen(fs, path) && path in out.fs.files && out.fs.files[path] <= text
    ensures out.fs.dirs == fs.dirs && out.fs.refused == fs.refused && out.fs.failsAfter == fs.failsAfter
    ensures forall p :: p in fs.files && p != path ==> p in out.fs.files && out.fs.files[p] == fs.files[p]
    ensures forall p :: p in out.fs.files ==> p in fs.files || p == path
  {
    if Dirname(path) != "" && Dirname(path) !in fs.dirs then Saved(fs, Err(IoError(Open, FileNotFound, path)))
    else if path in fs.dirs then Saved(fs, Err(IoError(Open, IsADirectory, path)))
    else if path in fs.refused then Saved(fs, Err(IoError(Open, Refused, path)))
    else if path in fs.failsAfter then
      var n := if fs.failsAfter[path] < |text| then fs.failsAfter[path] else |text|;
      Saved(fs.(files := fs.files[path := text[..n]]), Err(IoError(Write, WriteFailed, path)))
    else Saved(fs.(files := fs.files[path := text]), Ok(path))
  }

  /** Create `outputDir`, then write `page` at `path`: succeeds exactly when
      both steps do; a failure to create the directory changes nothing, a
      failure to open changes no file, and a failed write leaves a prefix of
      `page` at `path`. */
  function Save(fs: FileSystem, outputDir: string, path: string, page: string): (out: Saved)
    ensures out.result.Ok? <==>
      && CreateDirs(fs, outputDir).Ok?
      && CanOpen(fs.(dirs := fs.dirs + {NormalDir(outputDir)}), path)
      && path !in fs.failsAfter
    ensures out.result.Ok? ==> out.result.value == path
    ensures out.result.Ok? ==> out.fs.files == fs.files[path := page]
    ensures out.result.Ok? ==> NormalDir(outputDir) in out.fs.dirs
    ensures out.result.Err? && out.result.error.op == MakeDirs ==> out.fs == fs
    ensures out.result.Err? && out.result.error.op != MakeDirs ==> out.result.error.path == path
    ensures out.result.Err? && out.result.error.op != Write ==> out.fs.files == fs.files
    ensures out.result.Err? && out.result.error.op == Write ==>
      && path in out.fs.files
      && out.fs.files[path] <= page
      && (forall p :: p in fs.files && p != path ==> p in out.fs.files && out.fs.files[p] == fs.files[p])
  {
    match CreateDirs(fs, outputDir)
    case Err(e) => Saved(fs, Err(e))
    case Ok(fs1) =>
      var out := WriteFile(fs1, path, page);
      assert out.result.Ok? ==> out.fs.files == fs.files[path := page];
      out
  }

  /** Whether a save succeeds, and with which error it fails, does not depend
      on the text being saved. */
  lemma SaveOutcomeIgnoresPage(fs: FileSystem, outputDir: string, path: string, a: string, b: string)
    ensures Save(fs, outputDir, path, a).result == Save(fs, outputDir, path, b).result
  {
  }

  /** `render_note_to_html(note, output_dir)`. It fails only through the file
      system: on success the returned path is the written path and that file
      holds the rendered page; a failure before the file is opened changes no
      file; a failure while writing leaves a prefix of the page in it. */
  function RenderNoteToHtml(fs: FileSystem, note: NoteData, outputDir: string): (out: Saved)
    ensures out.result.Ok? <==>
      && CreateDirs(fs, outputDir).Ok?
      && CanOpen(fs.(dirs := fs.dirs + {NormalDir(outputDir)}), NotePath(note, outputDir))
      && NotePath(note, outputDir) !in fs.failsAfter
    ensures out.result.Ok? ==> out.result.value == NotePath(note, outputDir)
    ensures out.result.Ok? ==> out.fs.files == fs.files[NotePath(note, outputDir) := Html(Render(note))]
    ensures out.result.Ok? ==> NormalDir(outputDir) in out.fs.dirs
    ensures out.result.Err? && out.result.error.op == MakeDirs ==> out.fs == fs
    ensures out.result.Err? && out.result.error.op != MakeDirs ==> out.result.error.path == NotePath(note, outputDir)
    ensures out.result.Err? && out.result.error.op != Write ==> out.fs.files == fs.files
    ensures out.result.Err? && out.result.error.op == Write ==>
      && NotePath(note, outputDir) in out.fs.files
      && out.fs.files[NotePath(note, outputDir)] <= Html(Render(note))
      && (forall p :: p in fs.files && p != NotePath(note, outputDir) ==> p in out.fs.files && out.fs.files[p] == fs.files[p])
  {
    var path, page := NotePath(note, outputDir), Html(Render(note));
    Save(fs, outputDir, path, page)
  }

  /** Writing the same text twice leaves what writing it once does, whether
      the write succeeded, could not open the file, or failed part-way. */
  lemma WriteFileAgain(fs: FileSystem, path: string, text: string)
    ensures var once := WriteFile(fs, path, text); WriteFile(once.fs, path, text) == once
    ensures var fs1 := WriteFile(fs, path, text).fs;
      WriteFile(fs, path, text).result.Ok? ==> WriteFile(fs1, path, text) == Saved(fs1, Ok(path))
  {
    var once := WriteFile(fs, path, text);
    if CanOpen(fs, path) {
      var written := once.fs.files[path];
      assert once.fs == fs.(files := fs.files[path := written]);
      assert once.fs.files[path := written] == once.fs.files;
    }
  }

  /** A second write to the same path replaces whatever the first one left
      there, including a prefix left by a failed write. */
  lemma WriteFileTwice(fs: FileSystem, path: string, first: string, second: string)
    ensures WriteFile(WriteFile(fs, path, first).fs, path, second) == WriteFile(fs, path, second)
  {
    if CanOpen(fs, path) {
      var written := WriteFile(fs, path, first).fs.files[path];
      var again := WriteFile(fs, path, second).fs.files[path];
      assert fs.files[path := written][path := again] == fs.files[path := again];
    }
  }

  /** Saving the same page again leaves what saving it once does, whatever
      the first save's outcome. */
  lemma SaveAgain(fs: FileSystem, outputDir: string, path: string, page: string)
    ensures var once := Save(fs, outputDir, path, page); Save(once.fs, outputDir, path, page) == once
  {
    var once := Save(fs, outputDir, path, page);
    if CreateDirs(fs, outputDir).Ok? {
      var fs1 := CreateDirs(fs, outputDir).value;
      assert once == WriteFile(fs1, path, page);
      assert CreateDirs(once.fs, outputDir) == Ok(once.fs);
      WriteFileAgain(fs1, path, page);
    }
  }

  /** Saving another page at the same path leaves what saving that page
      alone would, whatever the first save's outcome. */
  lemma SaveTwice(fs: FileSystem, outputDir: string, path: string, first: string, second: string)
    ensures Save(Save(fs, outputDir, path, first).fs, outputDir, path, second) == Save(fs, outputDir, path, second)
  {
    if CreateDirs(fs, outputDir).Ok? {
      var fs1 := CreateDirs(fs, outputDir).value;
      var one := WriteFile(fs1, path, first);
      assert Save(fs, outputDir, path, first) == one;
      assert CreateDirs(one.fs, outputDir) == Ok(one.fs);
      WriteFileTwice(fs1, path, first, second);
    }
  }
}
