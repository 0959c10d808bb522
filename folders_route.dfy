/** `/api/folders`: listing folders with their notes, and creating one. */
module FoldersRoute {
  import opened Wrappers
  import opened Json
  import opened Http
  import opened Seqs
  import opened Records
  import opened Text

  const DEFAULT_COLOR: string := "#3B82F6"

  /** A folder as `GET` returns it: the record with its notes included. */
  datatype FolderListing = FolderListing(folder: Folder, notes: seq<Note>)

  /** The folders of a listing, in listing order. */
  function FoldersOf(ls: seq<FolderListing>): (fs: seq<Folder>)
    ensures |fs| == |ls| && forall i :: 0 <= i < |ls| ==> fs[i] == ls[i].folder
  {
    seq(|ls|, i requires 0 <= i < |ls| => ls[i].folder)
  }

  /** The notes included with folder `id`: exactly those whose folderId is
      `id`, pinned first, then newest first. */
  function NotesInFolder(notes: seq<Note>, id: int): (r: seq<Note>)
    ensures forall n :: multiset(r)[n] == if n.folderId == Some(id) then multiset(notes)[n] else 0
    ensures forall i :: 0 <= i < |r| ==> r[i].folderId == Some(id)
    ensures forall i, j :: 0 <= i < j < |r| ==>
      (r[i].pinned && !r[j].pinned) || (r[i].pinned == r[j].pinned && r[i].createdAt >= r[j].createdAt)
  {
    var members := Filter(notes, (n: Note) => n.folderId == Some(id));
    var r := SortDesc(members, NotePinnedNewestKey);
    forall i | 0 <= i < |r| ensures r[i].folderId == Some(id) {
      assert r[i] in multiset(members);
    }
    forall i, j | 0 <= i < j < |r|
      ensures (r[i].pinned && !r[j].pinned) || (r[i].pinned == r[j].pinned && r[i].createdAt >= r[j].createdAt)
    {
      assert KeyGe(NotePinnedNewestKey(r[i]), NotePinnedNewestKey(r[j]));
    }
    r
  }

  /** Each folder of `fs`, in order, with its notes. */
  function Attach(fs: seq<Folder>, notes: seq<Note>): (r: seq<FolderListing>)
    ensures FoldersOf(r) == fs
    ensures forall i :: 0 <= i < |r| ==> r[i].notes == NotesInFolder(notes, r[i].folder.id)
  {
    seq(|fs|, i requires 0 <= i < |fs| => FolderListing(fs[i], NotesInFolder(notes, fs[i].id)))
  }

  /** Every folder, newest first, each with its notes. */
  function Listing(folders: seq<Folder>, notes: seq<Note>): (r: seq<FolderListing>)
    ensures multiset(FoldersOf(r)) == multiset(folders)
    ensures forall i, j :: 0 <= i < j < |r| ==> r[i].folder.createdAt >= r[j].folder.createdAt
    ensures forall i :: 0 <= i < |r| ==> r[i].notes == NotesInFolder(notes, r[i].folder.id)
  {
    var sorted := SortDesc(folders, FolderNewestKey);
    var r := Attach(sorted, notes);
    forall i, j | 0 <= i < j < |r| ensures r[i].folder.createdAt >= r[j].folder.createdAt {
      assert r[i].folder == sorted[i] && r[j].folder == sorted[j];
      assert KeyGe(FolderNewestKey(sorted[i]), FolderNewestKey(sorted[j]));
    }
    r
  }

  /** `GET`: the listing, or a 500 with an error body when the query fails. */
  function Get(folders: seq<Folder>, notes: seq<Note>, storeOk: bool): (r: Reply<seq<FolderListing>>)
    ensures !storeOk ==> r == Reply(SERVER_ERROR, Error("Failed to fetch folders"))
    ensures storeOk ==> r.status == OK && r.payload.Data? && r.payload.value == Listing(folders, notes)
  {
    if storeOk then Reply(OK, Data(Listing(folders, notes)))
    else Reply(SERVER_ERROR, Error("Failed to fetch folders"))
  }

  /** `POST` rejects the body unless `name` is truthy. Names are not
      trimmed, so a whitespace-only name passes. */
  predicate NameMissing(body: Value)
  {
    !Truthy(Field(body, "name"))
  }

  /** `const { color = "#3B82F6" } = body ?? {}`: the default replaces
      only an absent color; `null`, `""` and other values are kept. */
  function ColorOf(body: Value): (c: Value)
    ensures Field(body, "color") == Undefined ==> c == Str(DEFAULT_COLOR)
    ensures Field(body, "color") != Undefined ==> c == Field(body, "color")
  {
    var given := Field(body, "color");
    if given == Undefined then Str(DEFAULT_COLOR) else given
  }

  /** The store accepts only strings for a folder's name and color. */
  predicate StorableFolder(body: Value)
  {
    Field(body, "name").Str? && ColorOf(body).Str?
  }

  /** A non-empty name made only of whitespace passes validation and is
      stored as given: the server does not trim. */
  lemma BlankNameAccepted(name: string)
    requires name != "" && IsBlank(name)
    ensures !NameMissing(Obj(map["name" := Str(name)]))
    ensures StorableFolder(Obj(map["name" := Str(name)]))
  {
  }
}
