/** `/api/notes`: listing every note and creating one. */
module NotesRoute {
  import opened Json
  import opened Http
  import opened Seqs
  import opened Records

  /** `GET`: every stored note, newest first. There is no pinned-first
      ordering here, and no `try`: a failing query escapes the handler. */
  function Get(notes: seq<Note>, storeOk: bool): (r: Reply<seq<Note>>)
    ensures !storeOk ==> r == Reply(SERVER_ERROR, Unhandled)
    ensures storeOk ==> r.status == OK && r.payload.Data?
    ensures storeOk ==> multiset(r.payload.value) == multiset(notes)
    ensures storeOk ==> forall i, j :: 0 <= i < j < |r.payload.value| ==>
      r.payload.value[i].createdAt >= r.payload.value[j].createdAt
  {
    if !storeOk then Reply(SERVER_ERROR, Unhandled)
    else
      var listed := SortDesc(notes, NoteNewestKey);
      assert forall i, j :: 0 <= i < j < |listed| ==> KeyGe(NoteNewestKey(listed[i]), NoteNewestKey(listed[j]));
      Reply(OK, Data(listed))
  }

  /** An older pinned note is listed after a newer unpinned one. */
  lemma PinnedNotListedFirst(older: Note, newer: Note)
    requires older.pinned && !newer.pinned && older.createdAt < newer.createdAt
    ensures Get([older, newer], true).payload.value == [newer, older]
  {
    assert [older, newer][1..] == [newer];
    assert SortDesc([newer], NoteNewestKey) == [newer];
  }

  /** `POST` rejects the body unless both `title` and `content` are
      truthy; a null or absent body reads as `{}`. */
  predicate MissingTitleOrContent(body: Value)
  {
    !Truthy(Field(body, "title")) || !Truthy(Field(body, "content"))
  }

  /** The store accepts only strings for the two columns it is given. */
  predicate StorableNote(body: Value)
  {
    Field(body, "title").Str? && Field(body, "content").Str?
  }

  /** The note `POST` creates: only title and content come from the body;
      pinned, tags and folder take the column defaults. */
  function NewNote(id: int, title: string, content: string, now: int): (n: Note)
    ensures n.id == id && n.title == title && n.content == content
    ensures !n.pinned && n.tags == "" && n.folderId.None?
    ensures n.createdAt == now && n.updatedAt == now
  {
    Note(id, title, content, false, "", Wrappers.None, now, now)
  }
}
