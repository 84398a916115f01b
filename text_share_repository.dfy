/**
 * The Android TextShareRepository: the text-sharing calls of the API, with
 * the local history table updated after every call the server accepted.
 */
module TextShareRepository {
  import opened Wrappers
  import opened AndroidApi
  import opened TextShareDao
  import RoomTable

  datatype CreateTextRequest = CreateTextRequest(
    content: string,
    title: string,
    domain: Option<string>,
    customSlug: Option<string>,
    textType: Option<string>,
    password: Option<string>,
    expireAt: Option<int>,
    tagIds: Option<seq<int>>)

  datatype CreateTextResponse = CreateTextResponse(shortUrl: string, slug: string, customSlug: Option<string>)

  datatype UpdateTextRequest = UpdateTextRequest(domain: string, slug: string, content: string, title: string)

  /** The domain recorded when the request named none. */
  const DefaultTextDomain := "fs.to"

  /** `getTextDomains`: the server's domain list when it answered 200 with data. */
  function GetTextDomains(call: Call<DomainsResponse>): (r: Result<seq<string>>)
    ensures r.Success? <==> Delivered(call)
    ensures r.Success? ==> r.data == call.response.data.value.domains
    ensures r.Error? ==> r == FailureOf(call, "Failed to get text domains")
    ensures !r.Loading?
  {
    if Delivered(call) then Success(call.response.data.value.domains)
    else FailureOf(call, "Failed to get text domains")
  }

  /**
   * The history row recorded for a created share: a missing domain is
   * recorded as "fs.to" and a missing text type as "plain_text".
   */
  function CreatedEntity(request: CreateTextRequest, response: CreateTextResponse, now: int): (e: TextShareEntity)
    ensures e.id == 0 && e.createdAt == now
    ensures e.domain == (if request.domain.Some? then request.domain.value else DefaultTextDomain)
    ensures e.textType == (if request.textType.Some? then request.textType.value else "plain_text")
    ensures e.title == request.title && e.content == request.content
    ensures e.slug == response.slug && e.shortUrl == response.shortUrl && e.customSlug == response.customSlug
  {
    TextShareEntity(0, request.domain.GetOr(DefaultTextDomain), response.slug, response.shortUrl,
                    request.title, request.content, request.textType.GetOr("plain_text"),
                    response.customSlug, now)
  }

  class TextShareRepository {
    const dao: TextShareDao

    constructor (dao: TextShareDao)
      ensures this.dao == dao
    {
      this.dao := dao;
    }

    /** `createTextShare`: a 200 reply with data appends the share to the history under a fresh id. */
    method CreateTextShare(request: CreateTextRequest, call: Call<CreateTextResponse>, now: int)
      returns (r: Result<CreateTextResponse>)
      requires dao.Valid()
      modifies dao
      ensures dao.Valid()
      ensures r.Success? <==> Delivered(call)
      ensures Delivered(call) ==>
        && r.data == call.response.data.value
        && dao.rows == old(dao.rows) + [CreatedEntity(request, r.data, now).(id := old(dao.lastRowId) + 1)]
        && dao.lastRowId == old(dao.lastRowId) + 1
      ensures !Delivered(call) ==>
        r == FailureOf(call, "Failed to create text share") && dao.rows == old(dao.rows) && dao.lastRowId == old(dao.lastRowId)
    {
      if Delivered(call) {
        var response := call.response.data.value;
        var entity := CreatedEntity(request, response, now);
        RoomTable.ReplaceFreshAppends(dao.rows, entity.(id := dao.lastRowId + 1), IdOf, dao.lastRowId);
        var _ := dao.Insert(entity);
        r := Success(response);
      } else {
        r := FailureOf(call, "Failed to create text share");
      }
    }

    /** `updateTextShare`: a 200 reply rewrites content and title of the matching history rows. */
    method UpdateTextShare(request: UpdateTextRequest, call: Call<()>) returns (r: Result<()>)
      requires dao.Valid()
      modifies dao
      ensures dao.Valid() && dao.lastRowId == old(dao.lastRowId)
      ensures r.Success? <==> Accepted(call)
      ensures Accepted(call) ==> |dao.rows| == |old(dao.rows)| && forall i :: 0 <= i < |dao.rows| ==>
        dao.rows[i] == UpdatedRow(old(dao.rows)[i], request.domain, request.slug, request.content, request.title)
      ensures !Accepted(call) ==> r == FailureOf(call, "Failed to update text share") && dao.rows == old(dao.rows)
    {
      if Accepted(call) {
        dao.Update(request.domain, request.slug, request.content, request.title);
        r := Success(());
      } else {
        r := FailureOf(call, "Failed to update text share");
      }
    }

    /** `deleteTextShare`: a 200 reply removes the share from the history. */
    method DeleteTextShare(domain: string, slug: string, call: Call<()>) returns (r: Result<()>)
      requires dao.Valid()
      modifies dao
      ensures dao.Valid() && dao.lastRowId == old(dao.lastRowId)
      ensures r.Success? <==> Accepted(call)
      ensures Accepted(call) ==> dao.rows == Seqs.Filter(old(dao.rows), NotShare(domain, slug))
      ensures !Accepted(call) ==> r == FailureOf(call, "Failed to delete text share") && dao.rows == old(dao.rows)
    {
      if Accepted(call) {
        dao.Delete(domain, slug);
        r := Success(());
      } else {
        r := FailureOf(call, "Failed to delete text share");
      }
    }

    /** `clearLocalHistory`: empties the history table. */
    method ClearLocalHistory()
      requires dao.Valid()
      modifies dao
      ensures dao.Valid() && dao.rows == [] && dao.lastRowId == old(dao.lastRowId)
    {
      dao.DeleteAll();
    }
  }
}
