/**
 * The Android FileRepository: file upload and deletion, with the local
 * upload history and the upload-progress value it publishes. The content
 * resolver's answers (MIME type, display name, the file's bytes) and the
 * value the progress callback last wrote are parameters.
 */
module FileRepository {
  import opened Wrappers
  import opened AndroidApi
  import opened UploadedFileDao
  import opened Utf8
  import RoomTable

  datatype UploadFileResponse = UploadFileResponse(
    fileId: int,
    filename: string,
    storename: Option<string>,
    size: int,
    width: Option<int>,
    height: Option<int>,
    url: string,
    page: Option<string>,
    path: Option<string>,
    hash: string,
    delete: Option<string>,
    uploadStatus: Option<int>)

  /** The multipart part the upload posts: form field "file", a file name, a media type and the bytes. */
  datatype FilePart = FilePart(name: string, filename: string, mimeType: string, content: seq<byte>)

  const DefaultMimeType := "application/octet-stream"
  const DefaultFileName := "file"

  /** `getFileDomains`: the server's domain list when it answered 200 with data. */
  function GetFileDomains(call: Call<DomainsResponse>): (r: Result<seq<string>>)
    ensures r.Success? <==> Delivered(call)
    ensures r.Success? ==> r.data == call.response.data.value.domains
    ensures r.Error? ==> r == FailureOf(call, "Failed to get file domains")
    ensures !r.Loading?
  {
    if Delivered(call) then Success(call.response.data.value.domains)
    else FailureOf(call, "Failed to get file domains")
  }

  /** The part posted for a file: the resolver's MIME type and name, or their fallbacks. */
  function UploadPart(mimeType: Option<string>, displayName: Option<string>, content: seq<byte>): (p: FilePart)
    ensures p.name == "file" && p.content == content
    ensures p.filename == (if displayName.Some? then displayName.value else DefaultFileName)
    ensures p.mimeType == (if mimeType.Some? then mimeType.value else DefaultMimeType)
  {
    FilePart("file", displayName.GetOr(DefaultFileName), mimeType.GetOr(DefaultMimeType), content)
  }

  /** The history row recorded for an upload: every field from the server's reply. */
  function UploadedEntity(response: UploadFileResponse, now: int): (e: UploadedFileEntity)
    ensures e.id == 0 && e.createdAt == now
    ensures e.fileId == response.fileId && e.filename == response.filename && e.size == response.size
    ensures e.width == response.width && e.height == response.height
    ensures e.url == response.url && e.page == response.page
    ensures e.hash == response.hash && e.deleteUrl == response.delete
  {
    UploadedFileEntity(0, response.fileId, response.filename, response.size, response.width, response.height,
                       response.url, response.page, response.hash, response.delete, now)
  }

  class FileRepository {
    const dao: UploadedFileDao
    var uploadProgress: real

    constructor (dao: UploadedFileDao)
      ensures this.dao == dao && uploadProgress == 0.0
    {
      this.dao := dao;
      uploadProgress := 0.0;
    }

    /**
     * `uploadFile`. Progress is reset to 0 first. A file that cannot be
     * opened (`content` is None) fails with "Cannot read file" and nothing is
     * sent. Otherwise one part is sent; a 200 reply with data is recorded in
     * the history and sets progress to 1; a thrown call resets progress to 0;
     * any other reply leaves the progress the callback last wrote.
     */
    method UploadFile(mimeType: Option<string>, displayName: Option<string>, content: Option<seq<byte>>,
                      progressAfterSend: real, call: Call<UploadFileResponse>, now: int)
      returns (r: Result<UploadFileResponse>, sent: Option<FilePart>)
      requires dao.Valid()
      modifies this, dao
      ensures dao.Valid()
      ensures content.None? ==>
        && r == Error(None, "Cannot read file") && sent.None? && uploadProgress == 0.0
        && dao.rows == old(dao.rows) && dao.lastRowId == old(dao.lastRowId)
      ensures content.Some? ==> sent == Some(UploadPart(mimeType, displayName, content.value))
      ensures r.Success? <==> content.Some? && Delivered(call)
      ensures content.Some? && Delivered(call) ==>
        && r.data == call.response.data.value
        && dao.rows == old(dao.rows) + [UploadedEntity(r.data, now).(id := old(dao.lastRowId) + 1)]
        && uploadProgress == 1.0
      ensures content.Some? && !Delivered(call) ==>
        && r == FailureOf(call, "Failed to upload file")
        && dao.rows == old(dao.rows) && dao.lastRowId == old(dao.lastRowId)
        && uploadProgress == (if call.Threw? then 0.0 else progressAfterSend)
    {
      uploadProgress := 0.0;
      if content.None? {
        return Error(None, "Cannot read file"), None;
      }
      sent := Some(UploadPart(mimeType, displayName, content.value));
      if call.Threw? {
        uploadProgress := 0.0;
        r := FailureOf(call, "Failed to upload file");
        return;
      }
      uploadProgress := progressAfterSend;
      if Delivered(call) {
        var response := call.response.data.value;
        var entity := UploadedEntity(response, now);
        RoomTable.ReplaceFreshAppends(dao.rows, entity.(id := dao.lastRowId + 1), IdOf, dao.lastRowId);
        var _ := dao.Insert(entity);
        uploadProgress := 1.0;
        r := Success(response);
      } else {
        r := FailureOf(call, "Failed to upload file");
      }
    }

    /**
     * `deleteFile`: the history rows with that hash are removed and the call
     * reports success whatever the server answered, even when the call threw.
     */
    method DeleteFile(hash: string, call: Call<()>) returns (r: Result<()>)
      requires dao.Valid()
      modifies dao
      ensures dao.Valid() && dao.lastRowId == old(dao.lastRowId)
      ensures r == Success(())
      ensures dao.rows == Seqs.Filter(old(dao.rows), HashDiffers(hash))
    {
      match call {
        case Replied(response) =>
          if response.code == 200 || response.code == 0 {
            dao.DeleteByHash(hash);
            r := Success(());
          } else {
            dao.DeleteByHash(hash);
            r := Success(());
          }
        case Threw(_) =>
          dao.DeleteByHash(hash);
          r := Success(());
      }
    }

    /** `clearLocalHistory`: empties the history table. */
    method ClearLocalHistory()
      requires dao.Valid()
      modifies dao
      ensures dao.Valid() && dao.rows == [] && dao.lastRowId == old(dao.lastRowId)
    {
      dao.DeleteAll();
    }
  }
}
