/** The stored records. Timestamps are integers (milliseconds since the
    epoch); ids are the store's auto-incremented integers. */
module Records {
  import opened Wrappers
  import opened Seqs

  datatype Note = Note(
    id: int,
    title: string,
    content: string,
    pinned: bool,
    tags: string,
    folderId: Option<int>,
    createdAt: int,
    updatedAt: int)

  datatype Folder = Folder(
    id: int,
    name: string,
    color: string,
    createdAt: int,
    updatedAt: int)

  /** A tombstone: the content fields of a deleted note, the id it had,
      and when it was deleted and stops being restorable. */
  datatype DeletedNote = DeletedNote(
    id: int,
    originalId: int,
    title: string,
    content: string,
    pinned: bool,
    tags: string,
    folderId: Option<int>,
    deletedAt: int,
    expiresAt: int)

  /** `orderBy: { createdAt: "desc" }` on notes. */
  function NoteNewestKey(n: Note): Key
  {
    Key(n.createdAt, 0)
  }

  /** `orderBy: [{ pinned: "desc" }, { createdAt: "desc" }]`: true sorts
      above false. */
  function NotePinnedNewestKey(n: Note): Key
  {
    Key(if n.pinned then 1 else 0, n.createdAt)
  }

  /** `orderBy: { createdAt: "desc" }` on folders. */
  function FolderNewestKey(f: Folder): Key
  {
    Key(f.createdAt, 0)
  }

  /** `orderBy: { deletedAt: "desc" }` on tombstones. */
  function DeletedNewestKey(d: DeletedNote): Key
  {
    Key(d.deletedAt, 0)
  }

  /** The folder with id `id`, if there is one. */
  function FolderById(folders: seq<Folder>, id: int): Option<Folder>
  {
    FindFirst(folders, (f: Folder) => f.id == id)
  }
}
