/** The notes and folders tables the route handlers talk to, held in
    memory: one sequence per table and the table's next auto-increment id.
    The `POST` handlers of `/api/notes` and `/api/folders` are its methods,
    since they insert; the `GET` handlers are functions of the tables'
    contents (`NotesRoute.Get`, `FoldersRoute.Get`). The tombstone table is
    only ever read here, so it is a plain sequence given to
    `HistoryRoute.Get`. */
module Db {
  import opened Json
  import opened Http
  import opened Records
  import NotesRoute
  import FoldersRoute

  class Store {
    var notes: seq<Note>
    var folders: seq<Folder>
    var nextNoteId: int
    var nextFolderId: int

    /** Ids are distinct and below the next id to hand out, and, as the
        foreign key on a note's folder guarantees, no note refers to a
        folder id not yet handed out. */
    ghost predicate Valid()
      reads this
    {
      (forall i :: 0 <= i < |notes| ==> notes[i].id < nextNoteId)
      && (forall i, j :: 0 <= i < j < |notes| ==> notes[i].id != notes[j].id)
      && (forall i :: 0 <= i < |folders| ==> folders[i].id < nextFolderId)
      && (forall i, j :: 0 <= i < j < |folders| ==> folders[i].id != folders[j].id)
      && (forall i :: 0 <= i < |notes| ==> notes[i].folderId.None? || notes[i].folderId.value < nextFolderId)
    }

    /** A store holding the given tables. */
    constructor (notes0: seq<Note>, folders0: seq<Folder>, nextNote: int, nextFolder: int)
      requires forall i :: 0 <= i < |notes0| ==> notes0[i].id < nextNote
      requires forall i, j :: 0 <= i < j < |notes0| ==> notes0[i].id != notes0[j].id
      requires forall i :: 0 <= i < |folders0| ==> folders0[i].id < nextFolder
      requires forall i, j :: 0 <= i < j < |folders0| ==> folders0[i].id != folders0[j].id
      requires forall i :: 0 <= i < |notes0| ==> notes0[i].folderId.None? || notes0[i].folderId.value < nextFolder
      ensures Valid()
      ensures notes == notes0 && folders == folders0
      ensures nextNoteId == nextNote && nextFolderId == nextFolder
    {
      notes, folders := notes0, folders0;
      nextNoteId, nextFolderId := nextNote, nextFolder;
    }

    /** `POST /api/notes` at time `now`. A body that is not JSON, a failing
        insert, or a truthy title or content the store cannot take as a
        string escapes the handler (no `try`). */
    method PostNote(request: Request, now: int, storeOk: bool) returns (reply: Reply<Note>)
      requires Valid()
      modifies this`notes, this`nextNoteId
      ensures Valid()
      ensures request.Malformed? ==> reply == Reply(SERVER_ERROR, Unhandled)
      ensures request.Parsed? && NotesRoute.MissingTitleOrContent(request.body) ==>
        reply == Reply(BAD_REQUEST, Error("Missing title or content"))
      ensures (request.Parsed? && !NotesRoute.MissingTitleOrContent(request.body) &&
        !(NotesRoute.StorableNote(request.body) && storeOk)) ==>
        reply == Reply(SERVER_ERROR, Unhandled)
      ensures reply.status == CREATED <==>
        request.Parsed? && !NotesRoute.MissingTitleOrContent(request.body) && NotesRoute.StorableNote(request.body) && storeOk
      ensures reply.status == CREATED ==>
        var created := NotesRoute.NewNote(old(nextNoteId), Field(request.body, "title").s, Field(request.body, "content").s, now);
        reply.payload == Data(created) && notes == old(notes) + [created] && nextNoteId == old(nextNoteId) + 1
      ensures reply.status != CREATED ==>
        reply.status in {BAD_REQUEST, SERVER_ERROR} && notes == old(notes) && nextNoteId == old(nextNoteId)
    {
      if request.Malformed? {
        return Reply(SERVER_ERROR, Unhandled);
      }
      var title := Field(request.body, "title");
      var content := Field(request.body, "content");
      if !Truthy(title) || !Truthy(content) {
        return Reply(BAD_REQUEST, Error("Missing title or content"));
      }
      if !storeOk || !title.Str? || !content.Str? {
        return Reply(SERVER_ERROR, Unhandled);
      }
      var note := NotesRoute.NewNote(nextNoteId, title.s, content.s, now);
      notes := notes + [note];
      nextNoteId := nextNoteId + 1;
      return Reply(CREATED, Data(note));
    }

    /** `POST /api/folders` at time `now`. Every failure after validation,
        a body that is not JSON included, is caught and reported as 500. */
    method PostFolder(request: Request, now: int, storeOk: bool) returns (reply: Reply<FoldersRoute.FolderListing>)
      requires Valid()
      modifies this`folders, this`nextFolderId
      ensures Valid()
      ensures request.Malformed? ==> reply == Reply(SERVER_ERROR, Error("Failed to create folder"))
      ensures request.Parsed? && FoldersRoute.NameMissing(request.body) ==>
        reply == Reply(BAD_REQUEST, Error("Missing folder name"))
      ensures (request.Parsed? && !FoldersRoute.NameMissing(request.body) &&
        !(FoldersRoute.StorableFolder(request.body) && storeOk)) ==>
        reply == Reply(SERVER_ERROR, Error("Failed to create folder"))
      ensures reply.status == CREATED <==>
        request.Parsed? && !FoldersRoute.NameMissing(request.body) && FoldersRoute.StorableFolder(request.body) && storeOk
      ensures reply.status == CREATED ==>
        var created := Folder(old(nextFolderId), Field(request.body, "name").s, FoldersRoute.ColorOf(request.body).s, now, now);
        reply.payload == Data(FoldersRoute.FolderListing(created, []))
        && folders == old(folders) + [created] && nextFolderId == old(nextFolderId) + 1
      ensures reply.status == CREATED ==>
        reply.payload.value.notes == FoldersRoute.NotesInFolder(notes, reply.payload.value.folder.id)
      ensures reply.status != CREATED ==>
        reply.status in {BAD_REQUEST, SERVER_ERROR} && folders == old(folders) && nextFolderId == old(nextFolderId)
    {
      if request.Malformed? {
        return Reply(SERVER_ERROR, Error("Failed to create folder"));
      }
      var name := Field(request.body, "name");
      var color := FoldersRoute.ColorOf(request.body);
      if !Truthy(name) {
        return Reply(BAD_REQUEST, Error("Missing folder name"));
      }
      if !storeOk || !name.Str? || !color.Str? {
        return Reply(SERVER_ERROR, Error("Failed to create folder"));
      }
      var folder := Folder(nextFolderId, name.s, color.s, now, now);
      folders := folders + [folder];
      nextFolderId := nextFolderId + 1;
      return Reply(CREATED, Data(FoldersRoute.FolderListing(folder, [])));
    }
  }
}
