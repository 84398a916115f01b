/**
 * The Android ShortLinkViewModel: search, paging, selection and batch delete
 * over the local short-link history, and the create/update/delete/stats
 * actions. Each coroutine runs to completion before the next action, and
 * every repository call's outcome is a parameter.
 */
module AndroidShortLinkViewModel {
  import opened Wrappers
  import opened Text
  import opened Seqs
  import opened AndroidApi
  import opened ShortLinkDao
  import opened ShortLinkRepository
  import ListState
  import Pagination

  /** The periods `loadStats` asks for, in order. */
  const StatPeriods: seq<string> := ["daily", "monthly", "totally"]

  /** Every field of the ViewModel, for stating what an action leaves alone. */
  datatype Fields = Fields(
    searchQuery: string,
    currentPage: int,
    selectionMode: bool,
    selectedIds: set<int>,
    batchDeleteProgress: Option<(int, int)>,
    domains: seq<string>,
    isLoading: bool,
    createResult: Option<Result<string>>,
    stats: map<string, int>)

  /** No optional text field is blank and the tag list, when present, is not empty. */
  predicate Normalized(r: CreateShortUrlRequest)
  {
    && (r.customSlug.Some? ==> !IsBlank(r.customSlug.value))
    && (r.title.Some? ==> !IsBlank(r.title.value))
    && (r.password.Some? ==> !IsBlank(r.password.value))
    && (r.expirationRedirectUrl.Some? ==> !IsBlank(r.expirationRedirectUrl.value))
    && (r.tagIds.Some? ==> r.tagIds.value != [])
  }

  /**
   * The request `createShortUrl` sends: blank optional text becomes null, an
   * empty tag list becomes null, and everything else is passed on.
   */
  function NewShortUrlRequest(
    targetUrl: string, domain: string, customSlug: Option<string>, title: Option<string>,
    password: Option<string>, expireAt: Option<int>, expirationRedirectUrl: Option<string>,
    tagIds: Option<seq<int>>): (r: CreateShortUrlRequest)
    ensures Normalized(r)
    ensures r.targetUrl == targetUrl && r.domain == domain && r.expireAt == expireAt
    ensures customSlug.Some? && !IsBlank(customSlug.value) ==> r.customSlug == customSlug
    ensures title.Some? && !IsBlank(title.value) ==> r.title == title
    ensures password.Some? && !IsBlank(password.value) ==> r.password == password
    ensures expirationRedirectUrl.Some? && !IsBlank(expirationRedirectUrl.value) ==> r.expirationRedirectUrl == expirationRedirectUrl
    ensures tagIds.Some? && tagIds.value != [] ==> r.tagIds == tagIds
  {
    CreateShortUrlRequest(targetUrl, domain, OptionalNullIfBlank(customSlug), OptionalNullIfBlank(title),
                          OptionalNullIfBlank(password), expireAt, OptionalNullIfBlank(expirationRedirectUrl),
                          NullIfEmpty(tagIds))
  }

  /** A request that is already normalised is sent unchanged. */
  lemma NormalizingIsIdempotent(r: CreateShortUrlRequest)
    requires Normalized(r)
    ensures NewShortUrlRequest(r.targetUrl, r.domain, r.customSlug, r.title, r.password, r.expireAt,
                               r.expirationRedirectUrl, r.tagIds) == r
  {
  }

  /** The short URL `createResult` shows for a created link. */
  function ShortUrlOf(response: CreateShortUrlResponse): string { response.shortUrl }

  /** The (domain, slug) keys of a list of links, in order. */
  function LinkKeys(items: seq<ShortLinkEntity>): (r: seq<(string, string)>)
    ensures |r| == |items|
    ensures forall i :: 0 <= i < |items| ==> r[i] == (items[i].domain, items[i].slug)
  {
    seq(|items|, i requires 0 <= i < |items| => (items[i].domain, items[i].slug))
  }

  function LinkKeyDiffers(key: (string, string)): ShortLinkEntity -> bool
  {
    NotLink(key.0, key.1)
  }

  /** The rows left are the stored rows matching no link whose delete the server accepted. */
  lemma AcceptedLinksDeleted(rows: seq<ShortLinkEntity>, items: seq<ShortLinkEntity>, calls: seq<Call<()>>)
    requires |calls| == |items|
    ensures forall e :: e in ListState.BatchDeleted(rows, LinkKeys(items), AcceptedFlags(calls), LinkKeyDiffers) <==>
      e in rows && forall i :: 0 <= i < |items| && Accepted(calls[i]) ==> !(e.domain == items[i].domain && e.slug == items[i].slug)
  {
    ListState.BatchDeletedMembers(rows, LinkKeys(items), AcceptedFlags(calls), LinkKeyDiffers);
  }

  /**
   * The visit counts after the fetches for the first `n` periods: each
   * delivered count overwrites its period's entry.
   */
  function Recorded(stats: map<string, int>, calls: seq<Call<VisitStatResponse>>, n: nat): map<string, int>
    requires n <= |calls| && n <= |StatPeriods|
    decreases n
  {
    if n == 0 then stats
    else
      var before := Recorded(stats, calls, n - 1);
      if Delivered(calls[n - 1]) then before[StatPeriods[n - 1] := calls[n - 1].response.data.value.visitCount]
      else before
  }

  /** After `n` fetches, a period has an entry when it had one or one of its fetches was delivered. */
  lemma {:induction false} RecordedKeys(stats: map<string, int>, calls: seq<Call<VisitStatResponse>>, n: nat)
    requires n <= |calls| && n <= |StatPeriods|
    ensures forall p :: p in Recorded(stats, calls, n) <==>
      p in stats || exists i :: 0 <= i < n && StatPeriods[i] == p && Delivered(calls[i])
    decreases n
  {
    if n > 0 {
      RecordedKeys(stats, calls, n - 1);
    }
  }

  /** A delivered period holds the count its fetch returned. */
  lemma {:induction false} RecordedDelivered(stats: map<string, int>, calls: seq<Call<VisitStatResponse>>, n: nat)
    requires n <= |calls| && n <= |StatPeriods|
    ensures forall i :: 0 <= i < n && Delivered(calls[i]) ==>
      StatPeriods[i] in Recorded(stats, calls, n) &&
      Recorded(stats, calls, n)[StatPeriods[i]] == calls[i].response.data.value.visitCount
    decreases n
  {
    if n > 0 {
      RecordedDelivered(stats, calls, n - 1);
      assert forall j :: 0 <= j < n - 1 ==> StatPeriods[j] != StatPeriods[n - 1];
    }
  }

  /** A stored period none of whose fetches was delivered keeps its count. */
  lemma {:induction false} RecordedKept(stats: map<string, int>, calls: seq<Call<VisitStatResponse>>, n: nat)
    requires n <= |calls| && n <= |StatPeriods|
    ensures forall p ::
      (p in stats && forall i :: 0 <= i < n && StatPeriods[i] == p ==> !Delivered(calls[i]))
      ==> p in Recorded(stats, calls, n) && Recorded(stats, calls, n)[p] == stats[p]
    decreases n
  {
    if n > 0 {
      RecordedKept(stats, calls, n - 1);
    }
  }

  class ShortLinkViewModel {
    const repository: ShortLinkRepository
    var searchQuery: string
    var currentPage: int
    var selectionMode: bool
    var selectedIds: set<int>
    var batchDeleteProgress: Option<(int, int)>
    var domains: seq<string>
    var isLoading: bool
    var createResult: Option<Result<string>>
    var stats: map<string, int>

    ghost function State(): Fields
      reads this
    {
      Fields(searchQuery, currentPage, selectionMode, selectedIds, batchDeleteProgress, domains,
             isLoading, createResult, stats)
    }

    constructor (repository: ShortLinkRepository)
      ensures this.repository == repository
      ensures State() == Fields("", 1, false, {}, None, [], false, None, map[])
    {
      this.repository := repository;
      searchQuery := "";
      currentPage := 1;
      selectionMode := false;
      selectedIds := {};
      batchDeleteProgress := None;
      domains := [];
      isLoading := false;
      createResult := None;
      stats := map[];
    }

    /**
     * `allLinks`: the whole history for a blank query, the rows matching the
     * query otherwise, newest first either way.
     */
    function AllLinks(): (r: seq<ShortLinkEntity>)
      reads this, repository.dao
      ensures SortedDesc(r, CreatedAt)
      ensures IsBlank(searchQuery) ==> multiset(r) == multiset(repository.dao.rows)
      ensures !IsBlank(searchQuery) ==> multiset(r) == multiset(Filter(repository.dao.rows, SearchFilter(searchQuery)))
    {
      if IsBlank(searchQuery) then repository.dao.GetAll() else repository.dao.Search(searchQuery)
    }

    /** `totalPages`: at least one page, and just enough pages of 50 for every listed link. */
    function TotalPages(): (r: nat)
      reads this, repository.dao
      ensures r >= 1 && |AllLinks()| <= r * Pagination.PageSize
      ensures r == 1 || (r - 1) * Pagination.PageSize < |AllLinks()|
    {
      Pagination.TotalPages(|AllLinks()|)
    }

    /**
     * `links`: the current page of the listing. Kotlin's `drop` rejects a
     * negative count, so a page below 1 is excluded.
     */
    function Links(): (r: seq<ShortLinkEntity>)
      requires currentPage >= 1
      reads this, repository.dao
      ensures r == Pagination.Page(AllLinks(), currentPage)
      ensures |r| <= Pagination.PageSize
    {
      ListState.DropTakeIsPage(AllLinks(), currentPage);
      ListState.DropTake(AllLinks(), currentPage)
    }

    /** `toggleSelectionMode`: flips the mode and clears the selection when the mode goes off. */
    method ToggleSelectionMode()
      modifies this
      ensures selectionMode == !old(selectionMode)
      ensures !selectionMode ==> selectedIds == {}
      ensures State() == old(State()).(selectionMode := !old(selectionMode),
                                       selectedIds := if old(selectionMode) then {} else old(selectedIds))
    {
      selectionMode := !selectionMode;
      if !selectionMode {
        selectedIds := {};
      }
    }

    /** `exitSelectionMode`: mode off, nothing selected. */
    method ExitSelectionMode()
      modifies this
      ensures State() == old(State()).(selectionMode := false, selectedIds := {})
    {
      selectionMode := false;
      selectedIds := {};
    }

    /** `toggleSelection`: removes `id` if selected, adds it otherwise. */
    method ToggleSelection(id: int)
      modifies this
      ensures id in selectedIds <==> id !in old(selectedIds)
      ensures forall x :: x != id ==> (x in selectedIds <==> x in old(selectedIds))
      ensures State() == old(State()).(selectedIds := ListState.Toggled(old(selectedIds), id))
    {
      selectedIds := ListState.Toggled(selectedIds, id);
    }

    /** `selectAll`: selects exactly the ids on the current page. */
    method SelectAll()
      requires currentPage >= 1
      modifies this
      ensures selectedIds == set e | e in old(Links()) :: e.id
      ensures State() == old(State()).(selectedIds := selectedIds)
    {
      selectedIds := set e | e in Links() :: e.id;
    }

    /** `deselectAll`: nothing selected. */
    method DeselectAll()
      modifies this
      ensures State() == old(State()).(selectedIds := {})
    {
      selectedIds := {};
    }

    /**
     * `batchDelete`: deletes the links one after the other, the i-th with the
     * outcome `calls[i]`, publishing `(0, n)` and then `(i + 1, n)` after
     * each; then clears the progress and leaves selection mode. `published`
     * is the sequence of progress values, `requested` the (domain, slug)
     * pairs sent, in order.
     */
    method BatchDelete(items: seq<ShortLinkEntity>, calls: seq<Call<()>>)
      returns (published: seq<(int, int)>, requested: seq<(string, string)>)
      requires |calls| == |items|
      requires repository.dao.Valid()
      modifies this, repository.dao
      ensures repository.dao.Valid()
      ensures published == ListState.ProgressTrace(|items|)
      ensures requested == LinkKeys(items)
      ensures repository.dao.rows ==
        ListState.BatchDeleted(old(repository.dao.rows), requested, AcceptedFlags(calls), LinkKeyDiffers)
      ensures forall e :: e in repository.dao.rows <==>
        e in old(repository.dao.rows) &&
        forall i :: 0 <= i < |items| && Accepted(calls[i]) ==> !(e.domain == items[i].domain && e.slug == items[i].slug)
      ensures State() == old(State()).(batchDeleteProgress := None, selectionMode := false, selectedIds := {})
    {
      ghost var rows0 := repository.dao.rows;
      published, requested := DeleteInOrder(items, calls);
      batchDeleteProgress := None;
      ExitSelectionMode();
      AcceptedLinksDeleted(rows0, items, calls);
    }

    /** The loop of `batchDelete`: each delete in order, publishing the progress after it. */
    method DeleteInOrder(items: seq<ShortLinkEntity>, calls: seq<Call<()>>)
      returns (published: seq<(int, int)>, requested: seq<(string, string)>)
      requires |calls| == |items|
      requires repository.dao.Valid()
      modifies this, repository.dao
      ensures repository.dao.Valid()
      ensures published == ListState.ProgressTrace(|items|)
      ensures requested == LinkKeys(items)
      ensures repository.dao.rows ==
        ListState.BatchDeleted(old(repository.dao.rows), requested, AcceptedFlags(calls), LinkKeyDiffers)
      ensures State() == old(State()).(batchDeleteProgress := Some((|items|, |items|)))
    {
      var total := |items|;
      var flags := AcceptedFlags(calls);
      var keys := LinkKeys(items);
      ghost var rows0 := repository.dao.rows;
      batchDeleteProgress := Some((0, total));
      published := [(0, total)];
      requested := [];
      var i := 0;
      while i < total
        invariant 0 <= i <= total
        invariant repository.dao.Valid()
        invariant published == ListState.ProgressTrace(total)[..i + 1]
        invariant requested == keys[..i]
        invariant repository.dao.rows == ListState.BatchDeleted(rows0, keys[..i], flags[..i], LinkKeyDiffers)
        invariant State() == old(State()).(batchDeleteProgress := Some((i, total)))
      {
        DeleteStep(items, calls, i, rows0);
        ListState.PrefixStep(keys, i);
        requested := requested + [keys[i]];
        ListState.ProgressTraceStep(total, i);
        published := published + [(i + 1, total)];
        i := i + 1;
      }
      assert keys[..total] == keys && flags[..total] == flags;
    }

    /** One step of the loop: deletes the `i`-th item and publishes `(i + 1, n)`. */
    method DeleteStep(items: seq<ShortLinkEntity>, calls: seq<Call<()>>, i: nat, ghost rows0: seq<ShortLinkEntity>)
      requires |calls| == |items| && i < |items|
      requires repository.dao.Valid()
      requires repository.dao.rows == ListState.BatchDeleted(rows0, LinkKeys(items)[..i], AcceptedFlags(calls)[..i], LinkKeyDiffers)
      modifies this, repository.dao
      ensures repository.dao.Valid()
      ensures repository.dao.rows == ListState.BatchDeleted(rows0, LinkKeys(items)[..i + 1], AcceptedFlags(calls)[..i + 1], LinkKeyDiffers)
      ensures State() == old(State()).(batchDeleteProgress := Some((i + 1, |items|)))
    {
      var _ := repository.DeleteShortUrl(items[i].domain, items[i].slug, calls[i]);
      ListState.BatchDeletedStep(rows0, LinkKeys(items), AcceptedFlags(calls), LinkKeyDiffers, i);
      batchDeleteProgress := Some((i + 1, |items|));
    }

    /** `setSearchQuery`: stores the query and goes back to page 1. */
    method SetSearchQuery(query: string)
      modifies this
      ensures State() == old(State()).(searchQuery := query, currentPage := 1)
    {
      searchQuery := query;
      currentPage := 1;
    }

    /** `setPage`: stores the page as given, without clamping. */
    method SetPage(page: int)
      modifies this
      ensures State() == old(State()).(currentPage := page)
    {
      currentPage := page;
    }

    /** `loadDomains`: a successful fetch replaces the domain list; a failed one changes nothing. */
    method LoadDomains(call: Call<DomainsResponse>)
      modifies this
      ensures Delivered(call) ==> State() == old(State()).(domains := call.response.data.value.domains)
      ensures !Delivered(call) ==> State() == old(State())
    {
      var result := GetDomains(call);
      if result.Success? {
        domains := result.data;
      }
    }

    /**
     * `createShortUrl`: sends the normalised request; `createResult` then
     * holds the new short URL or the repository's error, the history gains
     * the link only on success, and `isLoading` is false again.
     */
    method CreateShortUrl(
      targetUrl: string, domain: string, customSlug: Option<string>, title: Option<string>,
      password: Option<string>, expireAt: Option<int>, expirationRedirectUrl: Option<string>,
      tagIds: Option<seq<int>>, call: Call<CreateShortUrlResponse>, now: int)
      returns (sent: CreateShortUrlRequest)
      requires repository.dao.Valid()
      modifies this, repository.dao
      ensures repository.dao.Valid()
      ensures sent == NewShortUrlRequest(targetUrl, domain, customSlug, title, password, expireAt,
                                         expirationRedirectUrl, tagIds)
      ensures Delivered(call) ==>
        && createResult == Some(Success(call.response.data.value.shortUrl))
        && repository.dao.rows == old(repository.dao.rows) +
             [CreatedEntity(sent, call.response.data.value, now).(id := old(repository.dao.lastRowId) + 1)]
      ensures !Delivered(call) ==>
        && createResult == Some(FailureOf(call, "Failed to create short URL"))
        && repository.dao.rows == old(repository.dao.rows)
      ensures State() == old(State()).(isLoading := false, createResult := createResult)
    {
      isLoading := true;
      sent := NewShortUrlRequest(targetUrl, domain, customSlug, title, password, expireAt,
                                 expirationRedirectUrl, tagIds);
      var result := repository.CreateShortUrl(sent, call, now);
      createResult := Reported(result, ShortUrlOf);
      isLoading := false;
    }

    /** `updateShortUrl`: the history rows of (domain, slug) change only when the server accepted. */
    method UpdateShortUrl(domain: string, slug: string, targetUrl: string, title: string, call: Call<()>)
      requires repository.dao.Valid()
      modifies this, repository.dao
      ensures repository.dao.Valid()
      ensures Accepted(call) ==>
        && |repository.dao.rows| == |old(repository.dao.rows)|
        && forall i :: 0 <= i < |repository.dao.rows| ==>
             repository.dao.rows[i] == UpdatedRow(old(repository.dao.rows)[i], domain, slug, targetUrl, Some(title))
      ensures !Accepted(call) ==> repository.dao.rows == old(repository.dao.rows)
      ensures State() == old(State()).(isLoading := false)
    {
      isLoading := true;
      var _ := repository.UpdateShortUrl(UpdateShortUrlRequest(domain, slug, targetUrl, title), call);
      isLoading := false;
    }

    /** `deleteShortUrl`: the link leaves the history only when the server accepted. */
    method DeleteShortUrl(domain: string, slug: string, call: Call<()>)
      requires repository.dao.Valid()
      modifies repository.dao
      ensures repository.dao.Valid()
      ensures Accepted(call) ==> repository.dao.rows == Filter(old(repository.dao.rows), NotLink(domain, slug))
      ensures !Accepted(call) ==> repository.dao.rows == old(repository.dao.rows)
    {
      var _ := repository.DeleteShortUrl(domain, slug, call);
    }

    /**
     * `loadStats`: fetches the daily, monthly and total visit counts of
     * (domain, slug), `calls[i]` being the outcome for `StatPeriods[i]`; a
     * period's count is recorded only when its fetch succeeded, and every
     * other entry of `stats` is kept.
     */
    method LoadStats(domain: string, slug: string, calls: seq<Call<VisitStatResponse>>)
      requires |calls| == |StatPeriods|
      modifies this
      ensures stats == Recorded(old(stats), calls, |StatPeriods|)
      ensures forall p :: p in stats <==>
        p in old(stats) || exists i :: 0 <= i < |StatPeriods| && StatPeriods[i] == p && Delivered(calls[i])
      ensures forall i :: 0 <= i < |StatPeriods| && Delivered(calls[i]) ==>
        StatPeriods[i] in stats && stats[StatPeriods[i]] == calls[i].response.data.value.visitCount
      ensures forall p ::
        (p in old(stats) && forall i :: 0 <= i < |StatPeriods| && StatPeriods[i] == p ==> !Delivered(calls[i]))
        ==> stats[p] == old(stats)[p]
      ensures State() == old(State()).(stats := stats)
    {
      var i := 0;
      while i < |StatPeriods|
        invariant 0 <= i <= |StatPeriods|
        invariant stats == Recorded(old(stats), calls, i)
        invariant State() == old(State()).(stats := stats)
      {
        var result := GetVisitStat(calls[i]);
        if result.Success? {
          stats := stats[StatPeriods[i] := result.data.visitCount];
        }
        i := i + 1;
      }
      RecordedKeys(old(stats), calls, |StatPeriods|);
      RecordedDelivered(old(stats), calls, |StatPeriods|);
      RecordedKept(old(stats), calls, |StatPeriods|);
    }

    /** `clearCreateResult`. */
    method ClearCreateResult()
      modifies this
      ensures State() == old(State()).(createResult := None)
    {
      createResult := None;
    }
  }
}
