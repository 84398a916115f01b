/** The Android `short_links` table (ShortLinkEntity) and its Room DAO. */
module ShortLinkDao {
  import opened Wrappers
  import opened Seqs
  import opened SqlLike
  import RoomTable

  /** One locally remembered short link; `createdAt` is milliseconds since the epoch. */
  datatype ShortLinkEntity = ShortLinkEntity(
    id: int,
    domain: string,
    slug: string,
    shortUrl: string,
    targetUrl: string,
    title: Option<string>,
    customSlug: Option<string>,
    createdAt: int)

  function IdOf(e: ShortLinkEntity): int { e.id }

  function CreatedAt(e: ShortLinkEntity): int { e.createdAt }

  /** A nullable column compared with LIKE: NULL never matches. */
  predicate NullableLikeContains(column: Option<string>, q: string)
  {
    column.Some? && LikeContains(column.value, q)
  }

  /** The WHERE clause of `search`: domain, slug, target_url or title contains the query. */
  predicate MatchesSearch(e: ShortLinkEntity, q: string)
  {
    LikeContains(e.domain, q) || LikeContains(e.slug, q)
    || LikeContains(e.targetUrl, q) || NullableLikeContains(e.title, q)
  }

  function SearchFilter(q: string): ShortLinkEntity -> bool
  {
    (e: ShortLinkEntity) => MatchesSearch(e, q)
  }

  function NotLink(domain: string, slug: string): ShortLinkEntity -> bool
  {
    (e: ShortLinkEntity) => !(e.domain == domain && e.slug == slug)
  }

  /** `getAll`: every row, newest first. */
  function Listing(rows: seq<ShortLinkEntity>): (r: seq<ShortLinkEntity>)
    ensures multiset(r) == multiset(rows)
    ensures SortedDesc(r, CreatedAt)
  {
    SortDesc(rows, CreatedAt)
  }

  /** `search`: the matching rows, newest first. */
  function SearchListing(rows: seq<ShortLinkEntity>, q: string): (r: seq<ShortLinkEntity>)
    ensures SortedDesc(r, CreatedAt)
    ensures multiset(r) == multiset(Filter(rows, SearchFilter(q)))
  {
    SortDesc(Filter(rows, SearchFilter(q)), CreatedAt)
  }

  /** A search shows exactly the rows of the full listing that match, in the same order. */
  lemma SearchIsFilteredListing(rows: seq<ShortLinkEntity>, q: string)
    ensures SearchListing(rows, q) == Filter(Listing(rows), SearchFilter(q))
  {
    FilterSortDescCommute(rows, SearchFilter(q), CreatedAt);
  }

  /** A row is listed by a search exactly when it is stored and matches the query. */
  lemma SearchListingMembers(rows: seq<ShortLinkEntity>, q: string)
    ensures forall e :: e in SearchListing(rows, q) ==> e in rows && MatchesSearch(e, q)
    ensures forall i :: 0 <= i < |rows| ==> (rows[i] in SearchListing(rows, q) <==> MatchesSearch(rows[i], q))
  {
    var found := Filter(rows, SearchFilter(q));
    FilterMembers(rows, SearchFilter(q));
    assert forall e :: e in SearchListing(rows, q) <==> e in multiset(found);
  }

  /** The row after `UPDATE … SET target_url, title WHERE domain AND slug`. */
  function UpdatedRow(e: ShortLinkEntity, domain: string, slug: string, targetUrl: string, title: Option<string>): (r: ShortLinkEntity)
    ensures r.id == e.id && r.createdAt == e.createdAt
  {
    if e.domain == domain && e.slug == slug then e.(targetUrl := targetUrl, title := title) else e
  }

  class ShortLinkDao {
    var rows: seq<ShortLinkEntity>
    var lastRowId: int

    ghost predicate Valid()
      reads this
    {
      RoomTable.Valid(rows, IdOf, lastRowId)
    }

    constructor ()
      ensures Valid() && rows == [] && lastRowId == 0
    {
      rows := [];
      lastRowId := 0;
    }

    function GetAll(): (r: seq<ShortLinkEntity>)
      reads this
      ensures multiset(r) == multiset(rows)
      ensures SortedDesc(r, CreatedAt)
    {
      Listing(rows)
    }

    function Search(q: string): (r: seq<ShortLinkEntity>)
      reads this
      ensures SortedDesc(r, CreatedAt)
      ensures multiset(r) == multiset(Filter(rows, SearchFilter(q)))
    {
      SearchListing(rows, q)
    }

    /** `insert` with REPLACE; returns the row id of the stored row. */
    method Insert(link: ShortLinkEntity) returns (rowId: int)
      requires Valid()
      modifies this
      ensures Valid()
      ensures rowId == RoomTable.AssignedRowId(link.id, old(lastRowId))
      ensures rows == RoomTable.Replace(old(rows), link.(id := rowId), IdOf)
      ensures lastRowId == if rowId > old(lastRowId) then rowId else old(lastRowId)
    {
      rowId := RoomTable.AssignedRowId(link.id, lastRowId);
      RoomTable.ReplaceKeepsValid(rows, link.(id := rowId), IdOf, lastRowId);
      rows := RoomTable.Replace(rows, link.(id := rowId), IdOf);
      if rowId > lastRowId {
        lastRowId := rowId;
      }
    }

    /** `delete(domain, slug)`: removes every row with that domain and slug. */
    method Delete(domain: string, slug: string)
      requires Valid()
      modifies this
      ensures Valid() && lastRowId == old(lastRowId)
      ensures rows == Filter(old(rows), NotLink(domain, slug))
    {
      RoomTable.FilterKeepsValid(rows, NotLink(domain, slug), IdOf, lastRowId);
      rows := Filter(rows, NotLink(domain, slug));
    }

    /** `update(domain, slug, targetUrl, title)`: rewrites those two columns of the matching rows. */
    method Update(domain: string, slug: string, targetUrl: string, title: Option<string>)
      requires Valid()
      modifies this
      ensures Valid() && lastRowId == old(lastRowId)
      ensures |rows| == |old(rows)|
      ensures forall i :: 0 <= i < |rows| ==> rows[i] == UpdatedRow(old(rows)[i], domain, slug, targetUrl, title)
    {
      rows := seq(|rows|, i requires 0 <= i < |rows| reads this => UpdatedRow(rows[i], domain, slug, targetUrl, title));
    }

    /** `deleteAll`: empties the table; the AUTOINCREMENT counter is kept. */
    method DeleteAll()
      requires Valid()
      modifies this
      ensures Valid() && rows == [] && lastRowId == old(lastRowId)
    {
      rows := [];
    }
  }
}
