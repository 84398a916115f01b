/**
 * The Android ShortLinkRepository: the short-URL calls of the API, with
 * the local history table updated after every call the server accepted.
 * The call's outcome is a parameter; the clock is the parameter `now`.
 */
module ShortLinkRepository {
  import opened Wrappers
  import opened AndroidApi
  import opened ShortLinkDao
  import RoomTable

  datatype CreateShortUrlRequest = CreateShortUrlRequest(
    targetUrl: string,
    domain: string,
    customSlug: Option<string>,
    title: Option<string>,
    password: Option<string>,
    expireAt: Option<int>,
    expirationRedirectUrl: Option<string>,
    tagIds: Option<seq<int>>)

  datatype CreateShortUrlResponse = CreateShortUrlResponse(shortUrl: string, slug: string, customSlug: Option<string>)

  datatype UpdateShortUrlRequest = UpdateShortUrlRequest(domain: string, slug: string, targetUrl: string, title: string)

  datatype VisitStatResponse = VisitStatResponse(visitCount: int)

  /** `getDomains`: the server's domain list when it answered 200 with data, its error otherwise. */
  function GetDomains(call: Call<DomainsResponse>): (r: Result<seq<string>>)
    ensures r.Success? <==> Delivered(call)
    ensures r.Success? ==> r.data == call.response.data.value.domains
    ensures r.Error? ==> r == FailureOf(call, "Failed to get domains")
    ensures !r.Loading?
  {
    if Delivered(call) then Success(call.response.data.value.domains)
    else FailureOf(call, "Failed to get domains")
  }

  /** `getVisitStat`: the visit count when the server answered 200 with data. */
  function GetVisitStat(call: Call<VisitStatResponse>): (r: Result<VisitStatResponse>)
    ensures r.Success? <==> Delivered(call)
    ensures r.Success? ==> r.data == call.response.data.value
    ensures r.Error? ==> r == FailureOf(call, "Failed to get stats")
    ensures !r.Loading?
  {
    if Delivered(call) then Success(call.response.data.value)
    else FailureOf(call, "Failed to get stats")
  }

  /** The history row recorded for a created link: domain, target and title from the request, the rest from the reply. */
  function CreatedEntity(request: CreateShortUrlRequest, response: CreateShortUrlResponse, now: int): (e: ShortLinkEntity)
    ensures e.id == 0 && e.createdAt == now
    ensures e.domain == request.domain && e.targetUrl == request.targetUrl && e.title == request.title
    ensures e.slug == response.slug && e.shortUrl == response.shortUrl && e.customSlug == response.customSlug
  {
    ShortLinkEntity(0, request.domain, response.slug, response.shortUrl, request.targetUrl,
                    request.title, response.customSlug, now)
  }

  class ShortLinkRepository {
    const dao: ShortLinkDao

    constructor (dao: ShortLinkDao)
      ensures this.dao == dao
    {
      this.dao := dao;
    }

    /**
     * `createShortUrl`: on a 200 reply with data the new link is appended to
     * the history under a fresh id and the reply is returned; otherwise the
     * history is untouched and the error is returned.
     */
    method CreateShortUrl(request: CreateShortUrlRequest, call: Call<CreateShortUrlResponse>, now: int)
      returns (r: Result<CreateShortUrlResponse>)
      requires dao.Valid()
      modifies dao
      ensures dao.Valid()
      ensures r.Success? <==> Delivered(call)
      ensures Delivered(call) ==>
        && r.data == call.response.data.value
        && dao.rows == old(dao.rows) + [CreatedEntity(request, r.data, now).(id := old(dao.lastRowId) + 1)]
        && dao.lastRowId == old(dao.lastRowId) + 1
      ensures !Delivered(call) ==>
        r == FailureOf(call, "Failed to create short URL") && dao.rows == old(dao.rows) && dao.lastRowId == old(dao.lastRowId)
    {
      if Delivered(call) {
        var response := call.response.data.value;
        var entity := CreatedEntity(request, response, now);
        RoomTable.ReplaceFreshAppends(dao.rows, entity.(id := dao.lastRowId + 1), IdOf, dao.lastRowId);
        var _ := dao.Insert(entity);
        r := Success(response);
      } else {
        r := FailureOf(call, "Failed to create short URL");
      }
    }

    /** `updateShortUrl`: a 200 reply rewrites target and title of the matching history rows. */
    method UpdateShortUrl(request: UpdateShortUrlRequest, call: Call<()>) returns (r: Result<()>)
      requires dao.Valid()
      modifies dao
      ensures dao.Valid() && dao.lastRowId == old(dao.lastRowId)
      ensures r.Success? <==> Accepted(call)
      ensures Accepted(call) ==> |dao.rows| == |old(dao.rows)| && forall i :: 0 <= i < |dao.rows| ==>
        dao.rows[i] == UpdatedRow(old(dao.rows)[i], request.domain, request.slug, request.targetUrl, Some(request.title))
      ensures !Accepted(call) ==> r == FailureOf(call, "Failed to update short URL") && dao.rows == old(dao.rows)
    {
      if Accepted(call) {
        dao.Update(request.domain, request.slug, request.targetUrl, Some(request.title));
        r := Success(());
      } else {
        r := FailureOf(call, "Failed to update short URL");
      }
    }

    /** `deleteShortUrl`: a 200 reply removes the link from the history. */
    method DeleteShortUrl(domain: string, slug: string, call: Call<()>) returns (r: Result<()>)
      requires dao.Valid()
      modifies dao
      ensures dao.Valid() && dao.lastRowId == old(dao.lastRowId)
      ensures r.Success? <==> Accepted(call)
      ensures Accepted(call) ==> dao.rows == Seqs.Filter(old(dao.rows), NotLink(domain, slug))
      ensures !Accepted(call) ==> r == FailureOf(call, "Failed to delete short URL") && dao.rows == old(dao.rows)
    {
      if Accepted(call) {
        dao.Delete(domain, slug);
        r := Success(());
      } else {
        r := FailureOf(call, "Failed to delete short URL");
      }
    }

    /** `clearLocalHistory`: empties the history table. */
    method ClearLocalHistory()
      requires dao.Valid()
      modifies dao
      ensures dao.Valid() && dao.rows == [] && dao.lastRowId == old(dao.lastRowId)
    {
      dao.DeleteAll();
    }
  }
}
