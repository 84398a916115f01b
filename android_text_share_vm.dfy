/**
 * The Android TextShareViewModel: search, paging, selection and batch delete
 * over the local text-share history, and the create/update/delete actions. Each coroutine runs to completion before the next action, and
 * every repository call's outcome is a parameter.
 */
module AndroidTextShareViewModel {
  import opened Wrappers
  import opened Text
  import opened Seqs
  import opened AndroidApi
  import opened TextShareDao
  import opened TextShareRepository
  import ListState
  import Pagination

  /** Every field of the ViewModel, for stating what an action leaves alone. */
  datatype Fields = Fields(
    searchQuery: string,
    currentPage: int,
    selectionMode: bool,
    selectedIds: set<int>,
    batchDeleteProgress: Option<(int, int)>,
    domains: seq<string>,
    isLoading: bool,
    createResult: Option<Result<string>>)

  /** The title is not blank, no optional text field is blank, and the tag list, when present, is not empty. */
  predicate Normalized(r: CreateTextRequest)
  {
    && !IsBlank(r.title)
    && (r.customSlug.Some? ==> !IsBlank(r.customSlug.value))
    && (r.password.Some? ==> !IsBlank(r.password.value))
    && (r.tagIds.Some? ==> r.tagIds.value != [])
  }

  /** The title sent for a blank one. */
  const DefaultTitle := "Untitled"

  /**
   * The request `createTextShare` sends: a blank title becomes "Untitled",
   * a blank slug or password becomes null, an empty tag list becomes null;
   * content, domain, text type and expiry are passed on as given.
   */
  function NewTextRequest(
    content: string, title: string, domain: Option<string>, customSlug: Option<string>,
    textType: Option<string>, password: Option<string>, expireAt: Option<int>,
    tagIds: Option<seq<int>>): (r: CreateTextRequest)
    ensures Normalized(r)
    ensures r.content == content && r.domain == domain && r.textType == textType && r.expireAt == expireAt
    ensures IsBlank(title) ==> r.title == DefaultTitle
    ensures !IsBlank(title) ==> r.title == title
    ensures customSlug.Some? && !IsBlank(customSlug.value) ==> r.customSlug == customSlug
    ensures password.Some? && !IsBlank(password.value) ==> r.password == password
    ensures tagIds.Some? && tagIds.value != [] ==> r.tagIds == tagIds
  {
    assert !IsBlank(DefaultTitle) by { assert !IsWhitespace(DefaultTitle[0]); }
    CreateTextRequest(content, IfBlank(title, DefaultTitle), domain, OptionalNullIfBlank(customSlug), textType,
                      OptionalNullIfBlank(password), expireAt, NullIfEmpty(tagIds))
  }

  /** A request that is already normalised is sent unchanged. */
  lemma NormalizingIsIdempotent(r: CreateTextRequest)
    requires Normalized(r)
    ensures NewTextRequest(r.content, r.title, r.domain, r.customSlug, r.textType, r.password, r.expireAt, r.tagIds) == r
  {
  }

  /** The short URL `createResult` shows for a created share. */
  function ShortUrlOf(response: CreateTextResponse): string { response.shortUrl }

  /** The (domain, slug) keys of a list of shares, in order. */
  function ShareKeys(items: seq<TextShareEntity>): (r: seq<(string, string)>)
    ensures |r| == |items|
    ensures forall i :: 0 <= i < |items| ==> r[i] == (items[i].domain, items[i].slug)
  {
    seq(|items|, i requires 0 <= i < |items| => (items[i].domain, items[i].slug))
  }

  function ShareKeyDiffers(key: (string, string)): TextShareEntity -> bool
  {
    NotShare(key.0, key.1)
  }

  /** The rows left are the stored rows matching no share whose delete the server accepted. */
  lemma AcceptedSharesDeleted(rows: seq<TextShareEntity>, items: seq<TextShareEntity>, calls: seq<Call<()>>)
    requires |calls| == |items|
    ensures forall e :: e in ListState.BatchDeleted(rows, ShareKeys(items), AcceptedFlags(calls), ShareKeyDiffers) <==>
      e in rows && forall i :: 0 <= i < |items| && Accepted(calls[i]) ==> !(e.domain == items[i].domain && e.slug == items[i].slug)
  {
    ListState.BatchDeletedMembers(rows, ShareKeys(items), AcceptedFlags(calls), ShareKeyDiffers);
  }

  class TextShareViewModel {
    const repository: TextShareRepository
    var searchQuery: string
    var currentPage: int
    var selectionMode: bool
    var selectedIds: set<int>
    var batchDeleteProgress: Option<(int, int)>
    var domains: seq<string>
    var isLoading: bool
    var createResult: Option<Result<string>>

    ghost function State(): Fields
      reads this
    {
      Fields(searchQuery, currentPage, selectionMode, selectedIds, batchDeleteProgress, domains,
             isLoading, createResult)
    }

    constructor (repository: TextShareRepository)
      ensures this.repository == repository
      ensures State() == Fields("", 1, false, {}, None, [], false, None)
    {
      this.repository := repository;
      searchQuery := "";
      currentPage := 1;
      selectionMode := false;
      selectedIds := {};
      batchDeleteProgress := None;
      domains := [];
      isLoading := false;
      createResult := None;
    }

    /**
     * `allTextShares`: the whole history for a blank query, the rows matching the
     * query otherwise, newest first either way.
     */
    function AllTextShares(): (r: seq<TextShareEntity>)
      reads this, repository.dao
      ensures SortedDesc(r, CreatedAt)
      ensures IsBlank(searchQuery) ==> multiset(r) == multiset(repository.dao.rows)
      ensures !IsBlank(searchQuery) ==> multiset(r) == multiset(Filter(repository.dao.rows, SearchFilter(searchQuery)))
    {
      if IsBlank(searchQuery) then repository.dao.GetAll() else repository.dao.Search(searchQuery)
    }

    /** `totalPages`: at least one page, and just enough pages of 50 for every listed share. */
    function TotalPages(): (r: nat)
      reads this, repository.dao
      ensures r >= 1 && |AllTextShares()| <= r * Pagination.PageSize
      ensures r == 1 || (r - 1) * Pagination.PageSize < |AllTextShares()|
    {
      Pagination.TotalPages(|AllTextShares()|)
    }

    /**
     * `textShares`: the current page of the listing. Kotlin's `drop` rejects a
     * negative count, so a page below 1 is excluded.
     */
    function TextShares(): (r: seq<TextShareEntity>)
      requires currentPage >= 1
      reads this, repository.dao
      ensures r == Pagination.Page(AllTextShares(), currentPage)
      ensures |r| <= Pagination.PageSize
    {
      ListState.DropTakeIsPage(AllTextShares(), currentPage);
      ListState.DropTake(AllTextShares(), currentPage)
    }

    /** `toggleSelectionMode`: flips the mode and clears the selection when the mode goes off. */
    method ToggleSelectionMode()
      modifies this
      ensures selectionMode == !old(selectionMode)
      ensures !selectionMode ==> selectedIds == {}
      ensures State() == old(State()).(selectionMode := !old(selectionMode),
                                       selectedIds := if old(selectionMode) then {} else old(selectedIds))
    {
      selectionMode := !selectionMode;
      if !selectionMode {
        selectedIds := {};
      }
    }

    /** `exitSelectionMode`: mode off, nothing selected. */
    method ExitSelectionMode()
      modifies this
      ensures State() == old(State()).(selectionMode := false, selectedIds := {})
    {
      selectionMode := false;
      selectedIds := {};
    }

    /** `toggleSelection`: removes `id` if selected, adds it otherwise. */
    method ToggleSelection(id: int)
      modifies this
      ensures id in selectedIds <==> id !in old(selectedIds)
      ensures forall x :: x != id ==> (x in selectedIds <==> x in old(selectedIds))
      ensures State() == old(State()).(selectedIds := ListState.Toggled(old(selectedIds), id))
    {
      selectedIds := ListState.Toggled(selectedIds, id);
    }

    /** `selectAll`: selects exactly the ids on the current page. */
    method SelectAll()
      requires currentPage >= 1
      modifies this
      ensures selectedIds == set e | e in old(TextShares()) :: e.id
      ensures State() == old(State()).(selectedIds := selectedIds)
    {
      selectedIds := set e | e in TextShares() :: e.id;
    }

    /** `deselectAll`: nothing selected. */
    method DeselectAll()
      modifies this
      ensures State() == old(State()).(selectedIds := {})
    {
      selectedIds := {};
    }

    /**
     * `batchDelete`: deletes the shares one after the other, the i-th with the
     * outcome `calls[i]`, publishing `(0, n)` and then `(i + 1, n)` after
     * each; then clears the progress and leaves selection mode. `published`
     * is the sequence of progress values, `requested` the (domain, slug)
     * pairs sent, in order.
     */
    method BatchDelete(items: seq<TextShareEntity>, calls: seq<Call<()>>)
      returns (published: seq<(int, int)>, requested: seq<(string, string)>)
      requires |calls| == |items|
      requires repository.dao.Valid()
      modifies this, repository.dao
      ensures repository.dao.Valid()
      ensures published == ListState.ProgressTrace(|items|)
      ensures requested == ShareKeys(items)
      ensures repository.dao.rows ==
        ListState.BatchDeleted(old(repository.dao.rows), requested, AcceptedFlags(calls), ShareKeyDiffers)
      ensures forall e :: e in repository.dao.rows <==>
        e in old(repository.dao.rows) &&
        forall i :: 0 <= i < |items| && Accepted(calls[i]) ==> !(e.domain == items[i].domain && e.slug == items[i].slug)
      ensures State() == old(State()).(batchDeleteProgress := None, selectionMode := false, selectedIds := {})
    {
      ghost var rows0 := repository.dao.rows;
      published, requested := DeleteInOrder(items, calls);
      batchDeleteProgress := None;
      ExitSelectionMode();
      AcceptedSharesDeleted(rows0, items, calls);
    }

    /** The loop of `batchDelete`: each delete in order, publishing the progress after it. */
    method DeleteInOrder(items: seq<TextShareEntity>, calls: seq<Call<()>>)
      returns (published: seq<(int, int)>, requested: seq<(string, string)>)
      requires |calls| == |items|
      requires repository.dao.Valid()
      modifies this, repository.dao
      ensures repository.dao.Valid()
      ensures published == ListState.ProgressTrace(|items|)
      ensures requested == ShareKeys(items)
      ensures repository.dao.rows ==
        ListState.BatchDeleted(old(repository.dao.rows), requested, AcceptedFlags(calls), ShareKeyDiffers)
      ensures State() == old(State()).(batchDeleteProgress := Some((|items|, |items|)))
    {
      var total := |items|;
      var flags := AcceptedFlags(calls);
      var keys := ShareKeys(items);
      ghost var rows0 := repository.dao.rows;
      batchDeleteProgress := Some((0, total));
      published := [(0, total)];
      requested := [];
      var i := 0;
      while i < total
        invariant 0 <= i <= total
        invariant repository.dao.Valid()
        invariant published == ListState.ProgressTrace(total)[..i + 1]
        invariant requested == keys[..i]
        invariant repository.dao.rows == ListState.BatchDeleted(rows0, keys[..i], flags[..i], ShareKeyDiffers)
        invariant State() == old(State()).(batchDeleteProgress := Some((i, total)))
      {
        DeleteStep(items, calls, i, rows0);
        ListState.PrefixStep(keys, i);
        requested := requested + [keys[i]];
        ListState.ProgressTraceStep(total, i);
        published := published + [(i + 1, total)];
        i := i + 1;
      }
      assert keys[..total] == keys && flags[..total] == flags;
    }

    /** One step of the loop: deletes the `i`-th item and publishes `(i + 1, n)`. */
    method DeleteStep(items: seq<TextShareEntity>, calls: seq<Call<()>>, i: nat, ghost rows0: seq<TextShareEntity>)
      requires |calls| == |items| && i < |items|
      requires repository.dao.Valid()
      requires repository.dao.rows == ListState.BatchDeleted(rows0, ShareKeys(items)[..i], AcceptedFlags(calls)[..i], ShareKeyDiffers)
      modifies this, repository.dao
      ensures repository.dao.Valid()
      ensures repository.dao.rows == ListState.BatchDeleted(rows0, ShareKeys(items)[..i + 1], AcceptedFlags(calls)[..i + 1], ShareKeyDiffers)
      ensures State() == old(State()).(batchDeleteProgress := Some((i + 1, |items|)))
    {
      var _ := repository.DeleteTextShare(items[i].domain, items[i].slug, calls[i]);
      ListState.BatchDeletedStep(rows0, ShareKeys(items), AcceptedFlags(calls), ShareKeyDiffers, i);
      batchDeleteProgress := Some((i + 1, |items|));
    }

    /** `setSearchQuery`: stores the query and goes back to page 1. */
    method SetSearchQuery(query: string)
      modifies this
      ensures State() == old(State()).(searchQuery := query, currentPage := 1)
    {
      searchQuery := query;
      currentPage := 1;
    }

    /** `setPage`: stores the page as given, without clamping. */
    method SetPage(page: int)
      modifies this
      ensures State() == old(State()).(currentPage := page)
    {
      currentPage := page;
    }

    /** `loadDomains`: a successful fetch replaces the domain list; a failed one changes nothing. */
    method LoadDomains(call: Call<DomainsResponse>)
      modifies this
      ensures Delivered(call) ==> State() == old(State()).(domains := call.response.data.value.domains)
      ensures !Delivered(call) ==> State() == old(State())
    {
      var result := GetTextDomains(call);
      if result.Success? {
        domains := result.data;
      }
    }

    /**
     * `createTextShare`: sends the normalised request; `createResult` then
     * holds the new short URL or the repository's error, the history gains
     * the share only on success, and `isLoading` is false again.
     */
    method CreateTextShare(
      content: string, title: string, domain: Option<string>, customSlug: Option<string>,
      textType: Option<string>, password: Option<string>, expireAt: Option<int>,
      tagIds: Option<seq<int>>, call: Call<CreateTextResponse>, now: int)
      returns (sent: CreateTextRequest)
      requires repository.dao.Valid()
      modifies this, repository.dao
      ensures repository.dao.Valid()
      ensures sent == NewTextRequest(content, title, domain, customSlug, textType, password, expireAt, tagIds)
      ensures Delivered(call) ==>
        && createResult == Some(Success(call.response.data.value.shortUrl))
        && repository.dao.rows == old(repository.dao.rows) +
             [CreatedEntity(sent, call.response.data.value, now).(id := old(repository.dao.lastRowId) + 1)]
      ensures !Delivered(call) ==>
        && createResult == Some(FailureOf(call, "Failed to create text share"))
        && repository.dao.rows == old(repository.dao.rows)
      ensures State() == old(State()).(isLoading := false, createResult := createResult)
    {
      isLoading := true;
      sent := NewTextRequest(content, title, domain, customSlug, textType, password, expireAt, tagIds);
      var result := repository.CreateTextShare(sent, call, now);
      createResult := Reported(result, ShortUrlOf);
      isLoading := false;
    }

    /** `updateTextShare`: the history rows of (domain, slug) change only when the server accepted. */
    method UpdateTextShare(domain: string, slug: string, content: string, title: string, call: Call<()>)
      requires repository.dao.Valid()
      modifies this, repository.dao
      ensures repository.dao.Valid()
      ensures Accepted(call) ==>
        && |repository.dao.rows| == |old(repository.dao.rows)|
        && forall i :: 0 <= i < |repository.dao.rows| ==>
             repository.dao.rows[i] == UpdatedRow(old(repository.dao.rows)[i], domain, slug, content, title)
      ensures !Accepted(call) ==> repository.dao.rows == old(repository.dao.rows)
      ensures State() == old(State()).(isLoading := false)
    {
      isLoading := true;
      var _ := repository.UpdateTextShare(UpdateTextRequest(domain, slug, content, title), call);
      isLoading := false;
    }

    /** `deleteTextShare`: the share leaves the history only when the server accepted. */
    method DeleteTextShare(domain: string, slug: string, call: Call<()>)
      requires repository.dao.Valid()
      modifies repository.dao
      ensures repository.dao.Valid()
      ensures Accepted(call) ==> repository.dao.rows == Filter(old(repository.dao.rows), NotShare(domain, slug))
      ensures !Accepted(call) ==> repository.dao.rows == old(repository.dao.rows)
    {
      var _ := repository.DeleteTextShare(domain, slug, call);
    }

    /** `clearCreateResult`. */
    method ClearCreateResult()
      modifies this
      ensures State() == old(State()).(createResult := None)
    {
      createResult := None;
    }
  }
}
