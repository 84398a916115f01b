/** The Android `text_shares` table (TextShareEntity) and its Room DAO. */
module TextShareDao {
  import opened Wrappers
  import opened Seqs
  import opened SqlLike
  import RoomTable

  /** One locally remembered text share; `textType` is the API's raw value (`plain_text` by default). */
  datatype TextShareEntity = TextShareEntity(
    id: int,
    domain: string,
    slug: string,
    shortUrl: string,
    title: string,
    content: string,
    textType: string,
    customSlug: Option<string>,
    createdAt: int)

  function IdOf(e: TextShareEntity): int { e.id }

  function CreatedAt(e: TextShareEntity): int { e.createdAt }

  /** The WHERE clause of `search`: title, content or slug contains the query. */
  predicate MatchesSearch(e: TextShareEntity, q: string)
  {
    LikeContains(e.title, q) || LikeContains(e.content, q) || LikeContains(e.slug, q)
  }

  function SearchFilter(q: string): TextShareEntity -> bool
  {
    (e: TextShareEntity) => MatchesSearch(e, q)
  }

  function NotShare(domain: string, slug: string): TextShareEntity -> bool
  {
    (e: TextShareEntity) => !(e.domain == domain && e.slug == slug)
  }

  /** `getAll`: every row, newest first. */
  function Listing(rows: seq<TextShareEntity>): (r: seq<TextShareEntity>)
    ensures multiset(r) == multiset(rows)
    ensures SortedDesc(r, CreatedAt)
  {
    SortDesc(rows, CreatedAt)
  }

  /** `search`: the matching rows, newest first. */
  function SearchListing(rows: seq<TextShareEntity>, q: string): (r: seq<TextShareEntity>)
    ensures SortedDesc(r, CreatedAt)
    ensures multiset(r) == multiset(Filter(rows, SearchFilter(q)))
  {
    SortDesc(Filter(rows, SearchFilter(q)), CreatedAt)
  }

  /** A search shows exactly the rows of the full listing that match, in the same order. */
  lemma SearchIsFilteredListing(rows: seq<TextShareEntity>, q: string)
    ensures SearchListing(rows, q) == Filter(Listing(rows), SearchFilter(q))
  {
    FilterSortDescCommute(rows, SearchFilter(q), CreatedAt);
  }

  /** A row is listed by a search exactly when it is stored and matches the query. */
  lemma SearchListingMembers(rows: seq<TextShareEntity>, q: string)
    ensures forall e :: e in SearchListing(rows, q) ==> e in rows && MatchesSearch(e, q)
    ensures forall i :: 0 <= i < |rows| ==> (rows[i] in SearchListing(rows, q) <==> MatchesSearch(rows[i], q))
  {
    var found := Filter(rows, SearchFilter(q));
    FilterMembers(rows, SearchFilter(q));
    assert forall e :: e in SearchListing(rows, q) <==> e in multiset(found);
  }

  /** The row after `UPDATE … SET content, title WHERE domain AND slug`. */
  function UpdatedRow(e: TextShareEntity, domain: string, slug: string, content: string, title: string): (r: TextShareEntity)
    ensures r.id == e.id && r.createdAt == e.createdAt
  {
    if e.domain == domain && e.slug == slug then e.(content := content, title := title) else e
  }

  class TextShareDao {
    var rows: seq<TextShareEntity>
    var lastRowId: int

    ghost predicate Valid()
      reads this
    {
      RoomTable.Valid(rows, IdOf, lastRowId)
    }

    constructor ()
      ensures Valid() && rows == [] && lastRowId == 0
    {
      rows := [];
      lastRowId := 0;
    }

    function GetAll(): (r: seq<TextShareEntity>)
      reads this
      ensures multiset(r) == multiset(rows)
      ensures SortedDesc(r, CreatedAt)
    {
      Listing(rows)
    }

    function Search(q: string): (r: seq<TextShareEntity>)
      reads this
      ensures SortedDesc(r, CreatedAt)
      ensures multiset(r) == multiset(Filter(rows, SearchFilter(q)))
    {
      SearchListing(rows, q)
    }

    /** `insert` with REPLACE; returns the row id of the stored row. */
    method Insert(textShare: TextShareEntity) returns (rowId: int)
      requires Valid()
      modifies this
      ensures Valid()
      ensures rowId == RoomTable.AssignedRowId(textShare.id, old(lastRowId))
      ensures rows == RoomTable.Replace(old(rows), textShare.(id := rowId), IdOf)
      ensures lastRowId == if rowId > old(lastRowId) then rowId else old(lastRowId)
    {
      rowId := RoomTable.AssignedRowId(textShare.id, lastRowId);
      RoomTable.ReplaceKeepsValid(rows, textShare.(id := rowId), IdOf, lastRowId);
      rows := RoomTable.Replace(rows, textShare.(id := rowId), IdOf);
      if rowId > lastRowId {
        lastRowId := rowId;
      }
    }

    /** `delete(domain, slug)`: removes every row with that domain and slug. */
    method Delete(domain: string, slug: string)
      requires Valid()
      modifies this
      ensures Valid() && lastRowId == old(lastRowId)
      ensures rows == Filter(old(rows), NotShare(domain, slug))
    {
      RoomTable.FilterKeepsValid(rows, NotShare(domain, slug), IdOf, lastRowId);
      rows := Filter(rows, NotShare(domain, slug));
    }

    /** `update(domain, slug, content, title)`: rewrites those two columns of the matching rows. */
    method Update(domain: string, slug: string, content: string, title: string)
      requires Valid()
      modifies this
      ensures Valid() && lastRowId == old(lastRowId)
      ensures |rows| == |old(rows)|
      ensures forall i :: 0 <= i < |rows| ==> rows[i] == UpdatedRow(old(rows)[i], domain, slug, content, title)
    {
      rows := seq(|rows|, i requires 0 <= i < |rows| reads this => UpdatedRow(rows[i], domain, slug, content, title));
    }

    /** `deleteAll`: empties the table; the AUTOINCREMENT counter is kept. */
    method DeleteAll()
      requires Valid()
      modifies this
      ensures Valid() && rows == [] && lastRowId == old(lastRowId)
    {
      rows := [];
    }
  }
}
