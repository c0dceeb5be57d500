/** The input of the renderer: a crawled note record, in which every key may
    be absent, and the extraction step that replaces each absent key by its
    fixed placeholder. */
module Note {
  import opened Results

  /** One entry of `image_list` or `video_list`; only its `url` key is read. */
  datatype Media = Media(url: Option<string>)

  /** The `user` record; only its `nickname` key is read. */
  datatype User = User(nickname: Option<string>)

  /** The record handed to the renderer. `None` means the key is absent;
      `Some` carries the value exactly as stored, empty strings included. */
  datatype NoteData = NoteData(
    noteId: Option<string>,
    title: Option<string>,
    content: Option<string>,
    imageList: Option<seq<Media>>,
    videoList: Option<seq<Media>>,
    user: Option<User>,
    time: Option<string>)

  const UnknownId: string := "unknown"
  const NoTitle: string := "无标题"
  const NoContent: string := "无内容"
  const UnknownAuthor: string := "未知作者"
  const UnknownTime: string := "未知时间"

  /** The seven values the template is filled with, every one of them defined. */
  datatype Fields = Fields(
    noteId: string,
    title: string,
    content: string,
    images: seq<Media>,
    videos: seq<Media>,
    author: string,
    publishTime: string)

  /** The author shown for a note: the user's nickname when both the `user`
      key and its `nickname` key are present, otherwise the placeholder. */
  function Author(user: Option<User>): (r: string)
    ensures (user.Some? && user.value.nickname.Some?) ==> r == user.value.nickname.value
    ensures (user.None? || user.value.nickname.None?) ==> r == UnknownAuthor
  {
    match user
    case None => UnknownAuthor
    case Some(u) => u.nickname.GetOr(UnknownAuthor)
  }

  /** Field extraction with placeholder defaults. A placeholder replaces a key
      only when the key is absent; a present value, even an empty one, is
      used unchanged. */
  function Extract(note: NoteData): (f: Fields)
    ensures note.noteId.Some? ==> f.noteId == note.noteId.value
    ensures note.noteId.None? ==> f.noteId == UnknownId
    ensures note.title.Some? ==> f.title == note.title.value
    ensures note.title.None? ==> f.title == NoTitle
    ensures note.content.Some? ==> f.content == note.content.value
    ensures note.content.None? ==> f.content == NoContent
    ensures note.imageList.Some? ==> f.images == note.imageList.value
    ensures note.imageList.None? ==> f.images == []
    ensures note.videoList.Some? ==> f.videos == note.videoList.value
    ensures note.videoList.None? ==> f.videos == []
    ensures f.author == Author(note.user)
    ensures note.time.Some? ==> f.publishTime == note.time.value
    ensures note.time.None? ==> f.publishTime == UnknownTime
  {
    Fields(
      note.noteId.GetOr(UnknownId),
      note.title.GetOr(NoTitle),
      note.content.GetOr(NoContent),
      note.imageList.GetOr([]),
      note.videoList.GetOr([]),
      Author(note.user),
      note.time.GetOr(UnknownTime))
  }
}
