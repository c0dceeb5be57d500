# render_note_to_html, modelled in Dafny

This project models the note-to-HTML renderer of a social-media crawler's
storage tools, `render_note_to_html` in `tools/render_post.py`. The function
takes a crawled note, which is an untyped record, and an output directory.
It does three things:

- It extracts seven fields. Each absent key gets a fixed placeholder:
  `unknown`, `无标题` (no title), `无内容` (no content), an empty list, `未知作者`
  (unknown author) or `未知时间` (unknown time).
- It fills those fields into a fixed HTML template, with one `<img>` or
  `<video>` tag per media entry, in list order.
- It creates the output directory, writes the page to
  `<output_dir>/<note_id>.html`, and returns that path.

The model is functional and is split into these modules:

- `Results`: `Option` distinguishes a present key from an absent one; `Result` carries a value or an I/O error.
- `Note`: the input record `NoteData`, in which every key is an `Option`. `user` is an optional record whose `nickname` is optional too, and each media entry has an optional `url`. The module also holds the placeholder constants and `Extract`.
- `Markup`: concatenation of pieces and "text `s` occurs at offset `i`". It also holds media sections, meaning tags joined with nothing between them, and `ParseSection`, a reader that recovers a section's sources.
- `Document`: the structured page. It has a title slot, which is printed twice, the author and time slots, the content slot, and `seq<ImgTag>` and `seq<VideoTag>`. `Html` flattens it piece by piece into the exact template text, including its whitespace and the CSS with its doubled braces resolved.
- `PageTemplate`: the template as the program writes it, an f-string of eight fixed segments with seven slots, and the proof that the pieces join to exactly that template filled in.
- `Paths`: POSIX `os.path.join`, `basename` and `dirname`.
- `RenderPost`: the file system as a value, `os.makedirs(..., exist_ok=True)`, the overwriting write (which fails if the parent directory is missing, and can fail after the file has been emptied), `Save` (create the directory, then write), and `RenderNoteToHtml` itself.
- `RenderProperties`: what the saved page shows for a note, how the file is named, and how repeated renders behave.

Behaviour worth noting:

- A placeholder replaces only an absent key, never a present empty value.
- A media entry without a `url` prints `None`, because that is how Python formats the missing value.
- `os.makedirs("")` raises, so an empty output directory always fails.
- A `note_id` that starts with `/` makes `os.path.join` drop the output directory.
- `open(path, "w")` empties the file before anything is written, so a write that fails part-way leaves only a prefix of the page.

## Model

| member | source | states |
|---|---|---|
| Note.Extract | tools/render_post.py:17-24 | each of the seven fields is the key's value when the key is present, even if the value is empty, and its fixed placeholder exactly when the key is absent |
| Note.Author | tools/render_post.py:23 | the author is the nickname only when both `user` and its `nickname` are present; a missing `user` or a `user` without `nickname` gives `未知作者` |
| Document.ImgTags | tools/render_post.py:50 | one image tag per image entry, same count and same order, each `src` being that entry's url (or `None` when the url key is absent) |
| Document.VideoTags | tools/render_post.py:53 | one video tag per video entry, same count and same order, each `src` being that entry's url |
| Document.Render | tools/render_post.py:18-24 | the page slots follow the placeholder policy: title, content, time and author are the given values or placeholders, and an absent media list gives no tags |
| Markup.ParseSectionRoundTrip | tools/render_post.py:50-53 | a joined media section determines its sources: reading it back gives exactly one source per tag, in order, when no source contains a double quote |
| Document.TitleElement | tools/render_post.py:33 | the head's `<title>` element holds the title slot |
| Document.TitleDiv | tools/render_post.py:46 | the body's title `div` holds the same title slot |
| Document.AuthorLine | tools/render_post.py:47 | the author `div` reads `作者: <author> | 发布时间: <time>` |
| Document.ContentDiv | tools/render_post.py:48 | the content `div` holds the content slot |
| Document.ImagesDiv | tools/render_post.py:49-51 | the images `div` holds the joined image tags |
| Document.ImagesRegion | tools/render_post.py:50 | nothing but the joined image tags lies between the opening and the closing text of the images `div` |
| Document.VideosDiv | tools/render_post.py:52-54 | the videos `div` holds the joined video tags |
| Document.VideosRegion | tools/render_post.py:53 | nothing but the joined video tags lies between the opening and the closing text of the videos `div` |
| PageTemplate.HtmlIsTemplate | tools/render_post.py:27-58 | the page text is the template's eight fixed segments, with the doubled CSS braces resolved, and between them, in this order, the title, the title again, the author, the publication time, the content, the joined image tags and the joined video tags |
| Document.PartsInOrder | tools/render_post.py:33-54 | the page's parts appear in a fixed order: head title, then body title, author line, content, images and videos |
| RenderPost.FileName | tools/render_post.py:18-61 | the page file is named after the `note_id` value followed by `.html`, or `unknown.html` when the key is absent |
| RenderPost.NotePath | tools/render_post.py:18-61 | the page path is `os.path.join(output_dir, <note_id>.html)`, with `unknown` standing in for an absent `note_id` |
| Paths.Join | tools/render_post.py:61 | the joined path ends with the file name; it starts with the directory unless the file name is absolute, and an absolute file name replaces the directory |
| Paths.BasenameOfJoin | tools/render_post.py:61 | the final component of the joined path is the separator-free file name that was joined |
| Paths.DirnameOfJoin | tools/render_post.py:61 | the directory of a path joined from any directory and a separator-free name is that directory, trailing separators dropped |
| RenderPost.CreateDirs | tools/render_post.py:15 | creating the output directory succeeds exactly when the path is non-empty and is an existing directory or a new, permitted path that is not a file; on success only that directory (trailing separators dropped) is added |
| RenderPost.WriteFile | tools/render_post.py:62-63 | writing succeeds exactly when the parent directory exists, the path is neither a directory nor refused, and the write does not fail; then the file holds exactly the text. A failed open changes nothing; a failed write leaves a prefix of the text. No other file changes in any case |
| RenderPost.WriteFileAgain | tools/render_post.py:62-63 | writing the same text a second time leaves exactly what the first write left, whatever its outcome; after a success the second write changes nothing |
| RenderPost.WriteFileTwice | tools/render_post.py:62-63 | a second write to a path gives what that write alone would; whatever the first write left there, including a prefix from a failed write, is replaced entirely |
| RenderPost.Save | tools/render_post.py:15-63 | creating the directory and then writing succeeds exactly when both steps do; a failed directory creation changes nothing, a failed open changes no file, and a failed write leaves a prefix of the page at the path |
| RenderPost.SaveOutcomeIgnoresPage | tools/render_post.py:15-63 | whether saving succeeds, and with which error it fails, does not depend on the page text |
| RenderPost.SaveAgain | tools/render_post.py:15-63 | saving the same page a second time leaves exactly what the first save left, whether that save succeeded or failed |
| RenderPost.SaveTwice | tools/render_post.py:15-63 | whatever the first save's outcome, saving another page at the same path gives what saving that page alone would |
| RenderPost.RenderNoteToHtml | tools/render_post.py:5-65 | the call succeeds exactly when the directory can be created, the page path can be opened once it exists, and the write does not fail. On success it returns the written path, and that file holds the rendered page. A failure before the file is opened changes no file; a failed write leaves a prefix of the page in it |
| RenderProperties.TitleShownTwice | tools/render_post.py:19-46 | the title, or `无标题` when the key is absent, fills both the `<title>` element and the title `div`, verbatim |
| RenderProperties.AuthorLineShown | tools/render_post.py:23-47 | the author line shows the nickname or `未知作者`, then the time or `未知时间` |
| RenderProperties.ContentShown | tools/render_post.py:20-48 | the content `div` shows the content or `无内容` |
| RenderProperties.ImagesShown | tools/render_post.py:21-50 | the images region of the page reads back to exactly the entries' sources, one per entry and in order; an absent `image_list` leaves it empty |
| RenderProperties.VideosShown | tools/render_post.py:22-53 | the videos region of the page reads back to exactly the entries' sources, one per entry and in order; an absent `video_list` leaves it empty |
| RenderProperties.BasenameIsFileName | tools/render_post.py:18-61 | for an id without `/`, the last component of the page path is the file name: `<note_id>.html`, or `unknown.html` when the note id is absent |
| RenderProperties.FileInOutputDir | tools/render_post.py:61 | a note id without `/` puts the file directly in the output directory, also when that directory is given with a trailing `/` |
| RenderProperties.ParentDirectoryCreated | tools/render_post.py:15-62 | for a note id without `/`, creating the output directory provides the page's parent directory, so the call succeeds exactly when the directory can be created and the page path is neither a directory nor refused nor failing on write |
| RenderProperties.DefaultLocation | tools/render_post.py:5 | with the default output directory, a note whose id does not start with `/` is saved as `data/html/<note_id>.html` |
| RenderProperties.AbsoluteIdEscapesOutputDir | tools/render_post.py:61 | a note id starting with `/` drops the output directory from the path |
| RenderProperties.FailureIndependentOfOptionalKeys | tools/render_post.py:15-63 | missing optional keys never cause a failure: two notes with the same note id succeed or fail alike, with the same error |
| RenderProperties.RenderIdempotent | tools/render_post.py:62-63 | rendering the same note again leaves the file system and the result as the first render left them, whether that render succeeded or failed |
| RenderProperties.LastRenderWins | tools/render_post.py:61-63 | whatever an earlier render of a note with the same id left, a later render yields exactly what rendering that later note alone would |

## Left out

- The platform: `os.path` is modelled as POSIX's, and text-mode writing as doing no newline translation. On Windows the separator is `\` and each newline is written as `\r\n`, so the written file would not equal the page text there.
- Asynchrony: the function is declared `async` but awaits nothing, so it is modelled as an ordinary function.
- The operating system: the file system is a value.
  - A missing parent directory is modelled through the set of directories.
  - Other refusals, such as permissions or read-only media, form one fixed `refused` set of paths.
  - Write-time failures, such as a full disk or a device error, are a fixed map from path to the number of characters written before the failure. A page that only fails because it is long is therefore not distinguished.
  - `os.makedirs` is modelled as creating the directory itself; its intermediate directories are not tracked.
  - Paths are compared as text. Only trailing separators of a directory are normalised, not `.`, `..` or doubled separators.
- Present values that are not strings, lists or records: Python would print `None` for a present `None` title and would crash on a `user` that is not a dictionary. The model's input types exclude these values.
- UTF-8 encoding of the written text: the page is modelled as a sequence of Unicode scalar values, so an encoding error on a lone surrogate cannot arise.
- RenderProperties.ImagesShown: reading the section back assumes the sources contain no double quote. A quote inside an unescaped url would end the attribute early, so the tag count could not be recovered from the text.
- RenderProperties.VideosShown: makes the same no-double-quote assumption as ImagesShown, for the same reason.
- RenderProperties.BasenameIsFileName: only covers note ids without `/`. An id containing `/` places the page in a subdirectory; AbsoluteIdEscapesOutputDir covers an id that starts with `/`.
- The CSV, database, JSON and Markdown storage backends, the CSV run counter, the database upsert and the locked JSON accumulation are not part of this model, because their source is not among the modelled files.
