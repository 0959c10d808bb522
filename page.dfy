/** The client page's own logic: which note is selected, which notes the
    sidebar shows for a folder filter and a search query, the editor
    state's transitions, and the request bodies the page builds. */
module Page {
  import opened Wrappers
  import opened Json
  import opened Text
  import opened Seqs
  import opened Records
  import FoldersRoute

  /** `selectedId`: `null`, `"new"` or a note id. */
  datatype Selection = NoSelection | Creating | Editing(id: int)

  /** `selectedFolder`: `null` (all notes), `"uncategorized"` or a folder id. */
  datatype FolderFilter = AllNotes | Uncategorized | InFolder(id: int)

  /** Some note in `notes` has id `id`. */
  predicate HasId(notes: seq<Note>, id: int)
  {
    exists k :: 0 <= k < |notes| && notes[k].id == id
  }

  /** `n` is the first note in `notes` with id `id`. */
  predicate FirstWithId(notes: seq<Note>, id: int, n: Note)
  {
    exists k :: 0 <= k < |notes| && notes[k] == n && n.id == id && forall j :: 0 <= j < k ==> notes[j].id != id
  }

  /** `notes.find((n) => n.id === id)`. */
  function FindNote(notes: seq<Note>, id: int): (r: Option<Note>)
    ensures r.None? <==> !HasId(notes, id)
    ensures r.Some? ==> FirstWithId(notes, id, r.value)
  {
    FindFirst(notes, (n: Note) => n.id == id)
  }

  /** `selectedNote`: nothing while no note or a new note is being
      edited; otherwise the first note with the selected id, if any. */
  function SelectedNote(notes: seq<Note>, selected: Selection): (r: Option<Note>)
    ensures !selected.Editing? ==> r.None?
    ensures selected.Editing? ==> (r.None? <==> !HasId(notes, selected.id))
    ensures selected.Editing? && r.Some? ==> FirstWithId(notes, selected.id, r.value)
  {
    match selected
    case NoSelection => None
    case Creating => None
    case Editing(id) => FindNote(notes, id)
  }

  /** `!note.folderId`: no folder, or folder id 0. */
  predicate Unfiled(n: Note)
  {
    n.folderId == None || n.folderId == Some(0)
  }

  /** Whether the folder filter keeps `n`. A filter by folder id 0 is
      falsy in the source and keeps everything. */
  predicate InFilter(filter: FolderFilter, n: Note)
  {
    match filter
    case AllNotes => true
    case Uncategorized => Unfiled(n)
    case InFolder(id) => id == 0 || n.folderId == Some(id)
  }

  /** The folder stage of `filteredNotes`. */
  function ByFolder(notes: seq<Note>, filter: FolderFilter): (r: seq<Note>)
    ensures forall n :: multiset(r)[n] == if InFilter(filter, n) then multiset(notes)[n] else 0
    ensures filter == AllNotes ==> r == notes
    ensures IsSubsequence(r, notes)
  {
    match filter
    case AllNotes => SubsequenceRefl(notes); notes
    case Uncategorized => Filter(notes, Unfiled)
    case InFolder(id) =>
      if id != 0 then Filter(notes, (n: Note) => n.folderId == Some(id))
      else SubsequenceRefl(notes); notes
  }

  /** The search test: the lowercased query, NOT trimmed, occurs in the
      lowercased title, content or tags. */
  predicate MatchesQuery(n: Note, query: string)
  {
    var q := Lower(query);
    Includes(Lower(n.title), q) || Includes(Lower(n.content), q) || Includes(Lower(n.tags), q)
  }

  /** Whether the sidebar shows `n`, stated in one step: the folder filter
      keeps it, and the query is blank or matches it. */
  predicate Shown(filter: FolderFilter, query: string, n: Note)
  {
    InFilter(filter, n) && (IsBlank(query) || MatchesQuery(n, query))
  }

  /** `filteredNotes`: the folder stage, then the search stage when
      `query.trim()` is not empty. */
  function FilteredNotes(notes: seq<Note>, filter: FolderFilter, query: string): (r: seq<Note>)
    ensures forall n :: multiset(r)[n] == if Shown(filter, query, n) then multiset(notes)[n] else 0
    ensures IsSubsequence(r, notes)
    ensures IsBlank(query) ==> r == ByFolder(notes, filter)
  {
    var byFolder := ByFolder(notes, filter);
    TrimEmptyIffBlank(query);
    if Trim(query) != "" then
      var r := Filter(byFolder, (n: Note) => MatchesQuery(n, query));
      SubsequenceTrans(r, byFolder, notes);
      r
    else byFolder
  }

  /** Padding the query defeats the search: the untrimmed `" x"` does not
      occur in a note whose fields are all `"x"`. */
  lemma PaddedQueryMisses(n: Note)
    requires n.title == "x" && n.content == "x" && n.tags == "x"
    ensures FilteredNotes([n], AllNotes, " x") == []
  {
    var query := " x";
    assert !IsWhitespace(query[1]);
    assert Lower(query) == query;
    assert Lower("x") == "x";
    assert !(query <= "x");
    assert !Includes("x", query) by {
      assert "x"[1..] == "";
    }
    assert !Shown(AllNotes, query, n);
    var r := FilteredNotes([n], AllNotes, query);
    assert multiset(r) == multiset{};
  }

  /** The body of the update request `togglePin(id)` sends: the found
      note's fields with `pinned` negated; nothing for an unknown id. */
  datatype NoteFields = NoteFields(title: string, content: string, pinned: bool, tags: string, folderId: Option<int>)

  function TogglePinBody(notes: seq<Note>, id: int): (r: Option<NoteFields>)
    ensures r.None? <==> !HasId(notes, id)
    ensures r.Some? ==> exists n :: (FirstWithId(notes, id, n) &&
      r.value == NoteFields(n.title, n.content, !n.pinned, n.tags, n.folderId))
  {
    match FindNote(notes, id)
    case None => None
    case Some(n) => Some(NoteFields(n.title, n.content, !n.pinned, n.tags, n.folderId))
  }

  /** The body `createFolder` posts: nothing when the name is blank,
      otherwise the trimmed name, which the server always accepts. */
  function CreateFolderBody(newFolderName: string): (r: Option<Value>)
    ensures r.None? <==> IsBlank(newFolderName)
    ensures r.Some? ==> r.value == Obj(map["name" := Str(Trim(newFolderName))])
    ensures r.Some? ==> !FoldersRoute.NameMissing(r.value) && FoldersRoute.StorableFolder(r.value)
  {
    TrimEmptyIffBlank(newFolderName);
    if Trim(newFolderName) == "" then None
    else Some(Obj(map["name" := Str(Trim(newFolderName))]))
  }

  /** The page's state: one field per `useState` hook except the folder
      list and the flags that only drive rendering (`loading`, `saving`,
      `showCreateFolder`), which are left out. */
  class Editor {
    var notes: seq<Note>
    var selectedId: Selection
    var selectedFolder: FolderFilter
    var title: string
    var content: string
    var pinned: bool
    var tags: string
    var folderId: Option<int>
    var searchQuery: string
    var newFolderName: string

    /** The initial state. */
    constructor ()
      ensures notes == [] && selectedId == NoSelection && selectedFolder == AllNotes
      ensures title == "" && content == "" && !pinned && tags == "" && folderId == None
      ensures searchQuery == "" && newFolderName == ""
    {
      notes, selectedId, selectedFolder := [], NoSelection, AllNotes;
      title, content, pinned, tags, folderId := "", "", false, "", None;
      searchQuery, newFolderName := "", "";
    }

    /** `setNotes(data)` once a listing arrives. */
    method ReceiveNotes(listed: seq<Note>)
      modifies this`notes
      ensures notes == listed
    {
      notes := listed;
    }

    /** The sidebar's folder buttons. */
    method ChooseFolder(filter: FolderFilter)
      modifies this`selectedFolder
      ensures selectedFolder == filter
    {
      selectedFolder := filter;
    }

    /** The search box and its clear button. */
    method SetSearchQuery(query: string)
      modifies this`searchQuery
      ensures searchQuery == query
    {
      searchQuery := query;
    }

    /** `startCreate`: select a new note with empty fields, filed in the
        folder under the current filter (none for "uncategorized" or all
        notes). */
    method StartCreate()
      modifies this`selectedId, this`title, this`content, this`pinned, this`tags, this`folderId
      ensures selectedId == Creating
      ensures title == "" && content == "" && !pinned && tags == ""
      ensures selectedFolder.InFolder? ==> folderId == Some(selectedFolder.id)
      ensures !selectedFolder.InFolder? ==> folderId == None
    {
      selectedId := Creating;
      title := "";
      content := "";
      pinned := false;
      tags := "";
      folderId := if selectedFolder.InFolder? then Some(selectedFolder.id) else None;
    }

    /** `selectExisting(id)`: select `id` whatever it is; load the editor
        from the first note with that id, or leave the editor as it is
        when there is none. */
    method SelectExisting(id: int)
      modifies this`selectedId, this`title, this`content, this`pinned, this`tags, this`folderId
      ensures selectedId == Editing(id)
      ensures HasId(notes, id) ==> exists n :: (FirstWithId(notes, id, n) &&
        title == n.title && content == n.content && pinned == n.pinned && tags == n.tags && folderId == n.folderId)
      ensures !HasId(notes, id) ==>
        title == old(title) && content == old(content) && pinned == old(pinned) && tags == old(tags) && folderId == old(folderId)
    {
      selectedId := Editing(id);
      var found := FindNote(notes, id);
      if found.Some? {
        var n := found.value;
        title := n.title;
        content := n.content;
        pinned := n.pinned;
        tags := n.tags;
        folderId := n.folderId;
      }
    }

    /** After `saveNote`'s request: deselect and clear the editor. */
    method FinishSave()
      modifies this`selectedId, this`title, this`content, this`pinned, this`tags, this`folderId
      ensures selectedId == NoSelection
      ensures title == "" && content == "" && !pinned && tags == "" && folderId == None
    {
      selectedId := NoSelection;
      title := "";
      content := "";
      pinned := false;
      tags := "";
      folderId := None;
    }

    /** After `deleteNote(id)`'s requests: if `id` was selected when the
        handler started (`atCall`, the value its closure captured), deselect
        and clear title and content; pinned, tags and folder stay. The
        selection made while the requests were pending does not matter. */
    method FinishDeleteNote(id: int, atCall: Selection)
      modifies this`selectedId, this`title, this`content
      ensures atCall == Editing(id) ==> selectedId == NoSelection && title == "" && content == ""
      ensures atCall != Editing(id) ==>
        selectedId == old(selectedId) && title == old(title) && content == old(content)
    {
      if atCall == Editing(id) {
        selectedId := NoSelection;
        title := "";
        content := "";
      }
    }

    /** After `deleteFolder(id)`'s requests: if the filter was on that
        folder when the handler started (`atCall`), fall back to all notes;
        otherwise keep the current filter. */
    method FinishDeleteFolder(id: int, atCall: FolderFilter)
      modifies this`selectedFolder
      ensures atCall == InFolder(id) ==> selectedFolder == AllNotes
      ensures atCall != InFolder(id) ==> selectedFolder == old(selectedFolder)
    {
      if atCall == InFolder(id) {
        selectedFolder := AllNotes;
      }
    }

    /** After `createFolder`'s request: clear the name box. */
    method FinishCreateFolder()
      modifies this`newFolderName
      ensures newFolderName == ""
    {
      newFolderName := "";
    }
  }
}
