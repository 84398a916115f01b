/** The Android `uploaded_files` table (UploadedFileEntity) and its Room DAO. */
module UploadedFileDao {
  import opened Wrappers
  import opened Seqs
  import opened SqlLike
  import RoomTable

  /** One locally remembered upload; `hash` is the server's delete key. */
  datatype UploadedFileEntity = UploadedFileEntity(
    id: int,
    fileId: int,
    filename: string,
    size: int,
    width: Option<int>,
    height: Option<int>,
    url: string,
    page: Option<string>,
    hash: string,
    deleteUrl: Option<string>,
    createdAt: int)

  function IdOf(e: UploadedFileEntity): int { e.id }

  function CreatedAt(e: UploadedFileEntity): int { e.createdAt }

  /** The WHERE clause of `search`: filename or url contains the query. */
  predicate MatchesSearch(e: UploadedFileEntity, q: string)
  {
    LikeContains(e.filename, q) || LikeContains(e.url, q)
  }

  function SearchFilter(q: string): UploadedFileEntity -> bool
  {
    (e: UploadedFileEntity) => MatchesSearch(e, q)
  }

  function HashDiffers(hash: string): UploadedFileEntity -> bool
  {
    (e: UploadedFileEntity) => e.hash != hash
  }

  /** `getAll`: every row, newest first. */
  function Listing(rows: seq<UploadedFileEntity>): (r: seq<UploadedFileEntity>)
    ensures multiset(r) == multiset(rows)
    ensures SortedDesc(r, CreatedAt)
  {
    SortDesc(rows, CreatedAt)
  }

  /** `search`: the matching rows, newest first. */
  function SearchListing(rows: seq<UploadedFileEntity>, q: string): (r: seq<UploadedFileEntity>)
    ensures SortedDesc(r, CreatedAt)
    ensures multiset(r) == multiset(Filter(rows, SearchFilter(q)))
  {
    SortDesc(Filter(rows, SearchFilter(q)), CreatedAt)
  }

  /** A search shows exactly the rows of the full listing that match, in the same order. */
  lemma SearchIsFilteredListing(rows: seq<UploadedFileEntity>, q: string)
    ensures SearchListing(rows, q) == Filter(Listing(rows), SearchFilter(q))
  {
    FilterSortDescCommute(rows, SearchFilter(q), CreatedAt);
  }

  /** A row is listed by a search exactly when it is stored and matches the query. */
  lemma SearchListingMembers(rows: seq<UploadedFileEntity>, q: string)
    ensures forall e :: e in SearchListing(rows, q) ==> e in rows && MatchesSearch(e, q)
    ensures forall i :: 0 <= i < |rows| ==> (rows[i] in SearchListing(rows, q) <==> MatchesSearch(rows[i], q))
  {
    var found := Filter(rows, SearchFilter(q));
    FilterMembers(rows, SearchFilter(q));
    assert forall e :: e in SearchListing(rows, q) <==> e in multiset(found);
  }

  class UploadedFileDao {
    var rows: seq<UploadedFileEntity>
    var lastRowId: int

    ghost predicate Valid()
      reads this
    {
      RoomTable.Valid(rows, IdOf, lastRowId)
    }

    constructor ()
      ensures Valid() && rows == [] && lastRowId == 0
    {
      rows := [];
      lastRowId := 0;
    }

    function GetAll(): (r: seq<UploadedFileEntity>)
      reads this
      ensures multiset(r) == multiset(rows)
      ensures SortedDesc(r, CreatedAt)
    {
      Listing(rows)
    }

    function Search(q: string): (r: seq<UploadedFileEntity>)
      reads this
      ensures SortedDesc(r, CreatedAt)
      ensures multiset(r) == multiset(Filter(rows, SearchFilter(q)))
    {
      SearchListing(rows, q)
    }

    /** `insert` with REPLACE; returns the row id of the stored row. */
    method Insert(file: UploadedFileEntity) returns (rowId: int)
      requires Valid()
      modifies this
      ensures Valid()
      ensures rowId == RoomTable.AssignedRowId(file.id, old(lastRowId))
      ensures rows == RoomTable.Replace(old(rows), file.(id := rowId), IdOf)
      ensures lastRowId == if rowId > old(lastRowId) then rowId else old(lastRowId)
    {
      rowId := RoomTable.AssignedRowId(file.id, lastRowId);
      RoomTable.ReplaceKeepsValid(rows, file.(id := rowId), IdOf, lastRowId);
      rows := RoomTable.Replace(rows, file.(id := rowId), IdOf);
      if rowId > lastRowId {
        lastRowId := rowId;
      }
    }

    /** `deleteByHash(hash)`: removes every row with that hash. */
    method DeleteByHash(hash: string)
      requires Valid()
      modifies this
      ensures Valid() && lastRowId == old(lastRowId)
      ensures rows == Filter(old(rows), HashDiffers(hash))
    {
      RoomTable.FilterKeepsValid(rows, HashDiffers(hash), IdOf, lastRowId);
      rows := Filter(rows, HashDiffers(hash));
    }

    /** `deleteAll`: empties the table; the AUTOINCREMENT counter is kept. */
    method DeleteAll()
      requires Valid()
      modifies this
      ensures Valid() && rows == [] && lastRowId == old(lastRowId)
    {
      rows := [];
    }
  }
}
