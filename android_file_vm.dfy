/**
 * The Android FileViewModel: paging, selection and batch delete over the
 * local upload history, the upload action and its published state. Each
 * coroutine runs to completion before the next action, and every
 * repository call's outcome is a parameter.
 */
module AndroidFileViewModel {
  import opened Wrappers
  import opened Seqs
  import opened AndroidApi
  import opened UploadedFileDao
  import opened FileRepository
  import opened Utf8
  import ListState
  import Pagination
  import AndroidLinkDisplayType

  /** The display-type preference shown until the stored one arrives. */
  const InitialLinkDisplayType := "DIRECT_LINK"

  /** The placeholder preference names the direct-link form. */
  lemma InitialLinkDisplayTypeIsDirectLink()
    ensures AndroidLinkDisplayType.FromString(InitialLinkDisplayType) == AndroidLinkDisplayType.DirectLink
  {
    AndroidLinkDisplayType.FromStringName(AndroidLinkDisplayType.DirectLink);
  }

  /** Every field of the ViewModel, for stating what an action leaves alone. */
  datatype Fields = Fields(
    fileLinkDisplayType: string,
    currentPage: int,
    selectionMode: bool,
    selectedIds: set<int>,
    batchDeleteProgress: Option<(int, int)>,
    domains: seq<string>,
    isUploading: bool,
    uploadResult: Option<Result<string>>)

  /** The URL `uploadResult` shows for an uploaded file. */
  function UrlOf(response: UploadFileResponse): string { response.url }

  /** The delete keys of a list of files, in order. */
  function Hashes(items: seq<UploadedFileEntity>): (r: seq<string>)
    ensures |r| == |items|
    ensures forall i :: 0 <= i < |items| ==> r[i] == items[i].hash
  {
    seq(|items|, i requires 0 <= i < |items| => items[i].hash)
  }

  /** A file delete always takes effect locally. */
  function AllDone(n: nat): (r: seq<bool>)
    ensures |r| == n && forall i :: 0 <= i < n ==> r[i]
  {
    seq(n, i => true)
  }

  /** With every delete taking effect, the rows left are the stored rows carrying none of the hashes. */
  lemma HashesDeleted(rows: seq<UploadedFileEntity>, items: seq<UploadedFileEntity>)
    ensures forall e :: e in ListState.BatchDeleted(rows, Hashes(items), AllDone(|items|), HashDiffers) <==>
      e in rows && forall i :: 0 <= i < |items| ==> e.hash != items[i].hash
  {
    ListState.BatchDeletedMembers(rows, Hashes(items), AllDone(|items|), HashDiffers);
  }

  class FileViewModel {
    const repository: FileRepository
    var fileLinkDisplayType: string
    var currentPage: int
    var selectionMode: bool
    var selectedIds: set<int>
    var batchDeleteProgress: Option<(int, int)>
    var domains: seq<string>
    var isUploading: bool
    var uploadResult: Option<Result<string>>

    ghost function State(): Fields
      reads this
    {
      Fields(fileLinkDisplayType, currentPage, selectionMode, selectedIds, batchDeleteProgress, domains,
             isUploading, uploadResult)
    }

    constructor (repository: FileRepository)
      ensures this.repository == repository
      ensures State() == Fields(InitialLinkDisplayType, 1, false, {}, None, [], false, None)
    {
      this.repository := repository;
      fileLinkDisplayType := InitialLinkDisplayType;
      currentPage := 1;
      selectionMode := false;
      selectedIds := {};
      batchDeleteProgress := None;
      domains := [];
      isUploading := false;
      uploadResult := None;
    }

    /** `allFiles`: the whole upload history, newest first. */
    function AllFiles(): (r: seq<UploadedFileEntity>)
      reads repository.dao
      ensures SortedDesc(r, CreatedAt)
      ensures multiset(r) == multiset(repository.dao.rows)
    {
      repository.dao.GetAll()
    }

    /** `totalPages`: at least one page, and just enough pages of 50 for every file. */
    function TotalPages(): (r: nat)
      reads repository.dao
      ensures r >= 1 && |AllFiles()| <= r * Pagination.PageSize
      ensures r == 1 || (r - 1) * Pagination.PageSize < |AllFiles()|
    {
      Pagination.TotalPages(|AllFiles()|)
    }

    /** `files`: the current page of the history; a page below 1 is excluded as for `drop`. */
    function Files(): (r: seq<UploadedFileEntity>)
      requires currentPage >= 1
      reads this, repository.dao
      ensures r == Pagination.Page(AllFiles(), currentPage)
      ensures |r| <= Pagination.PageSize
    {
      ListState.DropTakeIsPage(AllFiles(), currentPage);
      ListState.DropTake(AllFiles(), currentPage)
    }

    /** `toggleSelectionMode`: flips the mode and clears the selection when the mode goes off. */
    method ToggleSelectionMode()
      modifies this
      ensures selectionMode == !old(selectionMode)
      ensures !selectionMode ==> selectedIds == {}
      ensures State() == old(State()).(selectionMode := !old(selectionMode),
                                       selectedIds := if old(selectionMode) then {} else old(selectedIds))
    {
      selectionMode := !selectionMode;
      if !selectionMode {
        selectedIds := {};
      }
    }

    /** `exitSelectionMode`: mode off, nothing selected. */
    method ExitSelectionMode()
      modifies this
      ensures State() == old(State()).(selectionMode := false, selectedIds := {})
    {
      selectionMode := false;
      selectedIds := {};
    }

    /** `toggleSelection`: removes `id` if selected, adds it otherwise, and nothing else changes. */
    method ToggleSelection(id: int)
      modifies this
      ensures id in selectedIds <==> id !in old(selectedIds)
      ensures forall x :: x != id ==> (x in selectedIds <==> x in old(selectedIds))
      ensures State() == old(State()).(selectedIds := ListState.Toggled(old(selectedIds), id))
    {
      selectedIds := ListState.Toggled(selectedIds, id);
    }

    /** `selectAll`: selects exactly the ids on the current page. */
    method SelectAll()
      requires currentPage >= 1
      modifies this
      ensures selectedIds == set e | e in old(Files()) :: e.id
      ensures State() == old(State()).(selectedIds := selectedIds)
    {
      selectedIds := set e | e in Files() :: e.id;
    }

    /** `deselectAll`: nothing selected. */
    method DeselectAll()
      modifies this
      ensures State() == old(State()).(selectedIds := {})
    {
      selectedIds := {};
    }

    /**
     * `batchDelete`: deletes the files one after the other by hash, the i-th
     * with the outcome `calls[i]`, publishing `(0, n)` and then `(i + 1, n)`;
     * then clears the progress and leaves selection mode. Every delete
     * removes the local rows whatever the server answered, so afterwards
     * no row with any of the hashes is left and every other row is.
     */
    method BatchDelete(items: seq<UploadedFileEntity>, calls: seq<Call<()>>)
      returns (published: seq<(int, int)>, requested: seq<string>)
      requires |calls| == |items|
      requires repository.dao.Valid()
      modifies this, repository.dao
      ensures repository.dao.Valid()
      ensures published == ListState.ProgressTrace(|items|)
      ensures requested == Hashes(items)
      ensures repository.dao.rows ==
        ListState.BatchDeleted(old(repository.dao.rows), requested, AllDone(|items|), HashDiffers)
      ensures forall e :: e in repository.dao.rows <==>
        e in old(repository.dao.rows) && forall i :: 0 <= i < |items| ==> e.hash != items[i].hash
      ensures State() == old(State()).(batchDeleteProgress := None, selectionMode := false, selectedIds := {})
    {
      ghost var rows0 := repository.dao.rows;
      published, requested := DeleteInOrder(items, calls);
      batchDeleteProgress := None;
      ExitSelectionMode();
      HashesDeleted(rows0, items);
    }

    /** The loop of `batchDelete`: each delete in order, publishing the progress after it. */
    method DeleteInOrder(items: seq<UploadedFileEntity>, calls: seq<Call<()>>)
      returns (published: seq<(int, int)>, requested: seq<string>)
      requires |calls| == |items|
      requires repository.dao.Valid()
      modifies this, repository.dao
      ensures repository.dao.Valid()
      ensures published == ListState.ProgressTrace(|items|)
      ensures requested == Hashes(items)
      ensures repository.dao.rows ==
        ListState.BatchDeleted(old(repository.dao.rows), requested, AllDone(|items|), HashDiffers)
      ensures State() == old(State()).(batchDeleteProgress := Some((|items|, |items|)))
    {
      var total := |items|;
      var flags := AllDone(total);
      var keys := Hashes(items);
      ghost var rows0 := repository.dao.rows;
      batchDeleteProgress := Some((0, total));
      published := [(0, total)];
      requested := [];
      var i := 0;
      while i < total
        invariant 0 <= i <= total
        invariant repository.dao.Valid()
        invariant published == ListState.ProgressTrace(total)[..i + 1]
        invariant requested == keys[..i]
        invariant repository.dao.rows == ListState.BatchDeleted(rows0, keys[..i], flags[..i], HashDiffers)
        invariant State() == old(State()).(batchDeleteProgress := Some((i, total)))
      {
        DeleteStep(items, calls, i, rows0);
        ListState.PrefixStep(keys, i);
        requested := requested + [keys[i]];
        ListState.ProgressTraceStep(total, i);
        published := published + [(i + 1, total)];
        i := i + 1;
      }
      assert keys[..total] == keys && flags[..total] == flags;
    }

    /** One step of the loop: deletes the `i`-th item and publishes `(i + 1, n)`. */
    method DeleteStep(items: seq<UploadedFileEntity>, calls: seq<Call<()>>, i: nat, ghost rows0: seq<UploadedFileEntity>)
      requires |calls| == |items| && i < |items|
      requires repository.dao.Valid()
      requires repository.dao.rows == ListState.BatchDeleted(rows0, Hashes(items)[..i], AllDone(|items|)[..i], HashDiffers)
      modifies this, repository.dao
      ensures repository.dao.Valid()
      ensures repository.dao.rows == ListState.BatchDeleted(rows0, Hashes(items)[..i + 1], AllDone(|items|)[..i + 1], HashDiffers)
      ensures State() == old(State()).(batchDeleteProgress := Some((i + 1, |items|)))
    {
      var _ := repository.DeleteFile(items[i].hash, calls[i]);
      ListState.BatchDeletedStep(rows0, Hashes(items), AllDone(|items|), HashDiffers, i);
      batchDeleteProgress := Some((i + 1, |items|));
    }

    /** `setPage`: stores the page as given, without clamping. */
    method SetPage(page: int)
      modifies this
      ensures State() == old(State()).(currentPage := page)
    {
      currentPage := page;
    }

    /** `loadDomains`: a successful fetch replaces the domain list; a failed one changes nothing. */
    method LoadDomains(call: Call<DomainsResponse>)
      modifies this
      ensures Delivered(call) ==> State() == old(State()).(domains := call.response.data.value.domains)
      ensures !Delivered(call) ==> State() == old(State())
    {
      var result := GetFileDomains(call);
      if result.Success? {
        domains := result.data;
      }
    }

    /**
     * `uploadFile`: `uploadResult` then holds the uploaded file's URL or the
     * repository's error (including "Cannot read file" when the content
     * could not be opened), the history gains the file only on success,
     * and `isUploading` is false again. The repository's progress ends at 1
     * on success, at 0 when nothing was sent, and at the callback's last
     * value when the server rejected the upload.
     */
    method UploadFile(mimeType: Option<string>, displayName: Option<string>, content: Option<seq<byte>>,
                      progressAfterSend: real, call: Call<UploadFileResponse>, now: int)
      requires repository.dao.Valid()
      modifies this, repository, repository.dao
      ensures repository.dao.Valid()
      ensures content.Some? && Delivered(call) ==>
        && uploadResult == Some(Success(call.response.data.value.url))
        && repository.dao.rows == old(repository.dao.rows) +
             [UploadedEntity(call.response.data.value, now).(id := old(repository.dao.lastRowId) + 1)]
        && repository.uploadProgress == 1.0
      ensures content.None? ==>
        && uploadResult == Some(Error(None, "Cannot read file"))
        && repository.dao.rows == old(repository.dao.rows) && repository.dao.lastRowId == old(repository.dao.lastRowId)
        && repository.uploadProgress == 0.0
      ensures content.Some? && !Delivered(call) ==>
        && uploadResult == Some(FailureOf(call, "Failed to upload file"))
        && repository.dao.rows == old(repository.dao.rows) && repository.dao.lastRowId == old(repository.dao.lastRowId)
        && repository.uploadProgress == (if call.Threw? then 0.0 else progressAfterSend)
      ensures State() == old(State()).(isUploading := false, uploadResult := uploadResult)
    {
      isUploading := true;
      var result, _ := repository.UploadFile(mimeType, displayName, content, progressAfterSend, call, now);
      uploadResult := Reported(result, UrlOf);
      isUploading := false;
    }

    /** `deleteFile`: the rows with that hash leave the history whatever the server answered. */
    method DeleteFile(hash: string, call: Call<()>)
      requires repository.dao.Valid()
      modifies repository.dao
      ensures repository.dao.Valid()
      ensures repository.dao.rows == Filter(old(repository.dao.rows), HashDiffers(hash))
    {
      var _ := repository.DeleteFile(hash, call);
    }

    /** `clearUploadResult`. */
    method ClearUploadResult()
      modifies this
      ensures State() == old(State()).(uploadResult := None)
    {
      uploadResult := None;
    }
  }
}
