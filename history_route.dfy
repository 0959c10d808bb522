/** `/api/history`: listing the tombstones that can still be restored.
    Expiry is lazy: expired tombstones stay stored and are only left out
    of the listing. */
module HistoryRoute {
  import opened Wrappers
  import opened Http
  import opened Seqs
  import opened Records

  /** A tombstone as `GET` returns it, with its folder included. */
  datatype DeletedListing = DeletedListing(note: DeletedNote, folder: Option<Folder>)

  /** The tombstones whose `expiresAt` is strictly after `now`, most
      recently deleted first. */
  function Unexpired(deleted: seq<DeletedNote>, now: int): (r: seq<DeletedNote>)
    ensures forall d :: multiset(r)[d] == if d.expiresAt > now then multiset(deleted)[d] else 0
    ensures forall i :: 0 <= i < |r| ==> r[i].expiresAt > now
    ensures forall i, j :: 0 <= i < j < |r| ==> r[i].deletedAt >= r[j].deletedAt
  {
    var live := Filter(deleted, (d: DeletedNote) => d.expiresAt > now);
    var r := SortDesc(live, DeletedNewestKey);
    forall i | 0 <= i < |r| ensures r[i].expiresAt > now {
      assert r[i] in multiset(live);
    }
    forall i, j | 0 <= i < j < |r| ensures r[i].deletedAt >= r[j].deletedAt {
      assert KeyGe(DeletedNewestKey(r[i]), DeletedNewestKey(r[j]));
    }
    r
  }

  /** The folder a tombstone refers to (`include: { folder: true }`). */
  function FolderOf(folders: seq<Folder>, d: DeletedNote): (f: Option<Folder>)
    ensures f.Some? ==> f.value in folders && d.folderId == Some(f.value.id)
    ensures f.None? ==> d.folderId.None? || forall g :: g in folders ==> g.id != d.folderId.value
  {
    match d.folderId
    case None => None
    case Some(id) => FolderById(folders, id)
  }

  /** `GET` at time `now`: the unexpired tombstones with their folders, or
      a 500 with an error body and no list when the query fails. */
  function Get(deleted: seq<DeletedNote>, folders: seq<Folder>, now: int, storeOk: bool): (r: Reply<seq<DeletedListing>>)
    ensures !storeOk ==> r == Reply(SERVER_ERROR, Error("Failed to fetch deleted notes"))
    ensures storeOk ==> r.status == OK && r.payload.Data?
    ensures storeOk ==> |r.payload.value| == |Unexpired(deleted, now)|
    ensures storeOk ==> forall i :: 0 <= i < |r.payload.value| ==>
      r.payload.value[i].note == Unexpired(deleted, now)[i] &&
      r.payload.value[i].folder == FolderOf(folders, r.payload.value[i].note)
  {
    if !storeOk then Reply(SERVER_ERROR, Error("Failed to fetch deleted notes"))
    else
      var live := Unexpired(deleted, now);
      Reply(OK, Data(seq(|live|, i requires 0 <= i < |live| => DeletedListing(live[i], FolderOf(folders, live[i])))))
  }

  /** A tombstone whose `expiresAt` equals `now` is not listed, though it
      is still stored. */
  lemma ExpiringNowNotListed(deleted: seq<DeletedNote>, d: DeletedNote, now: int)
    requires d in deleted && d.expiresAt == now
    ensures d !in Unexpired(deleted, now)
  {
    assert multiset(Unexpired(deleted, now))[d] == 0;
  }
}
