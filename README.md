# s.ee clients — a Dafny model of the core

This project models the core logic of the two clients of the s.ee service
(URL shortening, text sharing and file hosting): the Android app (Kotlin)
and the macOS app (Swift). It covers:

- **Link formatting.** The nine link display types, file classification
  by extension, and the BBCode, HTML and Markdown templates. Each platform
  is modelled as it is written, with lemmas stating where Android and macOS
  differ (`AndroidLinkFormatter`, `AndroidLinkDisplayType`,
  `SwiftLinkFormatter`, `FileUploadView`, `LinkPlatforms`).
- **Lists.** Paging, selection, search and batch delete in the three
  Android list ViewModels, the macOS list views and `Pagination`, and the
  tag selector's toggle with its optional cap.
- **Forms and requests.** The request building, validation, `populateForm`
  and `resetForm` of the macOS ViewModels and the create/update/delete
  paths of the Android ViewModels and repositories.
- **Protocol pieces.** The macOS `APIClient` endpoint table, reply
  classification and multipart/form-data body (RFC 7578, with the boundary
  delimiters of section 5.1.1 of RFC 2046); the Android base-URL
  interceptor's path rewrite; the thumbnail cache key, URL and cache
  discipline.
- **Local cache.** The Room DAOs as tables of rows with AUTOINCREMENT ids,
  the SQL `LIKE` search and ordering by creation time, and the rules by
  which each repository writes that cache from a server reply.
- **Settings.** The onboarding and settings key-validation state machines
  over the preference store and the secure key store.

Two behaviours of the source stand out in the model:

- The Android base-URL interceptor reads the request's `pathSegments`,
  which OkHttp has already percent-decoded, joins them with `/` and hands
  the result back through `encodedPath`, which takes it as encoded text.
  An escape is therefore decoded twice. A `deleteFile` hash holding `/`
  is sent as `%2F`, and the rewrite turns that one segment into two
  (`BaseUrlInterceptor.EscapedSlashSplits`); a segment `%2541` arrives
  as `A` (`BaseUrlInterceptor.EscapedPercentDecodedAgain`).
- The Android settings key validation saves the key before it asks the
  server, and its clean-up for a rejected key runs only when no key is
  stored. That branch cannot run, so a rejected key stays stored
  (`AndroidSettingsViewModel.SettingsViewModel.ValidateApiKey`).

Network replies, database and keychain contents, the clock and Foundation's
URL check are parameters of the operations. Objects whose fields the source
updates (DAOs, ViewModels, stores, the thumbnail cache, SwiftData records)
are classes; everything computed is a function.

## Model

| member | source | states |
|---|---|---|
| RoomTable.AssignedRowId | android/app/src/main/java/s/how/see/data/local/db/dao/ShortLinkDao.kt:19-20 | an inserted row with id 0 gets one past the largest id ever handed out (AUTOINCREMENT); any other id is kept |
| RoomTable.FilterKeepsUnique | android/app/src/main/java/s/how/see/data/local/db/dao/ShortLinkDao.kt:22-23 | deleting rows never makes two rows share an id |
| RoomTable.FilterKeepsValid | android/app/src/main/java/s/how/see/data/local/db/dao/ShortLinkDao.kt:22-23 | deleting rows keeps the table invariant (unique ids, none above the id counter) |
| RoomTable.ReplaceKeepsValid | android/app/src/main/java/s/how/see/data/local/db/dao/ShortLinkDao.kt:19-20 | after INSERT OR REPLACE the new row is the only one with its id, every other row is kept, and the invariant holds with the counter advanced |
| RoomTable.ReplaceFreshAppends | android/app/src/main/java/s/how/see/data/local/db/dao/ShortLinkDao.kt:19-20 | a row whose id is above every stored id replaces nothing and is appended |
| SqlLike.PercentMatchesAll | android/app/src/main/java/s/how/see/data/local/db/dao/ShortLinkDao.kt:16 | the LIKE pattern `%` matches every string |
| SqlLike.LeadingPercent | android/app/src/main/java/s/how/see/data/local/db/dao/ShortLinkDao.kt:16 | a leading `%` lets the rest of the pattern match at any position |
| SqlLike.LiteralThenPercent | android/app/src/main/java/s/how/see/data/local/db/dao/ShortLinkDao.kt:16 | a wildcard-free literal followed by `%` matches exactly the strings it starts, ignoring ASCII case |
| SqlLike.LikeAtImpliesContains | android/app/src/main/java/s/how/see/data/local/db/dao/ShortLinkDao.kt:16 | a match of `q%` at some position means the column contains the query, ignoring case |
| SqlLike.ContainsImpliesLikeAt | android/app/src/main/java/s/how/see/data/local/db/dao/ShortLinkDao.kt:16 | a column that contains the query has a position where `q%` matches |
| SqlLike.LikeContainsIsSubstring | android/app/src/main/java/s/how/see/data/local/db/dao/ShortLinkDao.kt:16 | for a query without `%` or `_`, `column LIKE '%' \|\| q \|\| '%'` holds exactly when the column contains the query, ignoring ASCII case |
| ShortLinkDao.Listing | android/app/src/main/java/s/how/see/data/local/db/dao/ShortLinkDao.kt:13-14 | `getAll` lists every stored row (the same multiset) newest first |
| ShortLinkDao.SearchListing | android/app/src/main/java/s/how/see/data/local/db/dao/ShortLinkDao.kt:16-17 | `search` lists exactly the matching rows (as a multiset) newest first |
| ShortLinkDao.SearchIsFilteredListing | android/app/src/main/java/s/how/see/data/local/db/dao/ShortLinkDao.kt:16-17 | a search shows the rows of the full listing that match, in the listing's order |
| ShortLinkDao.SearchListingMembers | android/app/src/main/java/s/how/see/data/local/db/dao/ShortLinkDao.kt:16-17 | a stored row is in the search result exactly when it matches the query, and nothing else is |
| ShortLinkDao.ShortLinkDao.constructor | android/app/src/main/java/s/how/see/data/local/db/dao/ShortLinkDao.kt:10-11 | a new table is empty and valid |
| ShortLinkDao.ShortLinkDao.GetAll | android/app/src/main/java/s/how/see/data/local/db/dao/ShortLinkDao.kt:13-14 | the rows of the table, as the same multiset, newest first |
| ShortLinkDao.ShortLinkDao.Search | android/app/src/main/java/s/how/see/data/local/db/dao/ShortLinkDao.kt:16-17 | the rows matching the query, newest first |
| ShortLinkDao.ShortLinkDao.Insert | android/app/src/main/java/s/how/see/data/local/db/dao/ShortLinkDao.kt:19-20 | INSERT OR REPLACE: returns the assigned row id, replaces any row with that id, advances the counter, keeps the invariant |
| ShortLinkDao.UpdatedRow | android/app/src/main/java/s/how/see/data/local/db/dao/ShortLinkDao.kt:25-26 | the update rewrites target URL and title of the row with that domain and slug and never changes its id or creation time |
| ShortLinkDao.ShortLinkDao.Delete | android/app/src/main/java/s/how/see/data/local/db/dao/ShortLinkDao.kt:22-23 | removes exactly the rows with that domain and slug; the id counter is kept |
| ShortLinkDao.ShortLinkDao.Update | android/app/src/main/java/s/how/see/data/local/db/dao/ShortLinkDao.kt:25-26 | every row becomes its `UpdatedRow`; the row count and the invariant are kept |
| ShortLinkDao.ShortLinkDao.DeleteAll | android/app/src/main/java/s/how/see/data/local/db/dao/ShortLinkDao.kt:28-29 | empties the table; the AUTOINCREMENT counter is kept |
| TextShareDao.Listing | android/app/src/main/java/s/how/see/data/local/db/dao/TextShareDao.kt:13-14 | `getAll` lists every stored row (the same multiset) newest first |
| TextShareDao.SearchListing | android/app/src/main/java/s/how/see/data/local/db/dao/TextShareDao.kt:16-17 | `search` lists exactly the matching rows (as a multiset) newest first |
| TextShareDao.SearchIsFilteredListing | android/app/src/main/java/s/how/see/data/local/db/dao/TextShareDao.kt:16-17 | a search shows the rows of the full listing that match, in the listing's order |
| TextShareDao.SearchListingMembers | android/app/src/main/java/s/how/see/data/local/db/dao/TextShareDao.kt:16-17 | a stored row is in the search result exactly when it matches the query, and nothing else is |
| TextShareDao.TextShareDao.constructor | android/app/src/main/java/s/how/see/data/local/db/dao/TextShareDao.kt:10-11 | a new table is empty and valid |
| TextShareDao.TextShareDao.GetAll | android/app/src/main/java/s/how/see/data/local/db/dao/TextShareDao.kt:13-14 | the rows of the table, as the same multiset, newest first |
| TextShareDao.TextShareDao.Search | android/app/src/main/java/s/how/see/data/local/db/dao/TextShareDao.kt:16-17 | the rows matching the query, newest first |
| TextShareDao.TextShareDao.Insert | android/app/src/main/java/s/how/see/data/local/db/dao/TextShareDao.kt:19-20 | INSERT OR REPLACE: returns the assigned row id, replaces any row with that id, advances the counter, keeps the invariant |
| TextShareDao.UpdatedRow | android/app/src/main/java/s/how/see/data/local/db/dao/TextShareDao.kt:25-26 | the update rewrites content and title of the row with that domain and slug and never changes its id or creation time |
| TextShareDao.TextShareDao.Delete | android/app/src/main/java/s/how/see/data/local/db/dao/TextShareDao.kt:22-23 | removes exactly the rows with that domain and slug; the id counter is kept |
| TextShareDao.TextShareDao.Update | android/app/src/main/java/s/how/see/data/local/db/dao/TextShareDao.kt:25-26 | every row becomes its `UpdatedRow`; the row count and the invariant are kept |
| TextShareDao.TextShareDao.DeleteAll | android/app/src/main/java/s/how/see/data/local/db/dao/TextShareDao.kt:28-29 | empties the table; the AUTOINCREMENT counter is kept |
| UploadedFileDao.Listing | android/app/src/main/java/s/how/see/data/local/db/dao/UploadedFileDao.kt:13-14 | `getAll` lists every stored row (the same multiset) newest first |
| UploadedFileDao.SearchListing | android/app/src/main/java/s/how/see/data/local/db/dao/UploadedFileDao.kt:16-17 | `search` lists exactly the matching rows (as a multiset) newest first |
| UploadedFileDao.SearchIsFilteredListing | android/app/src/main/java/s/how/see/data/local/db/dao/UploadedFileDao.kt:16-17 | a search shows the rows of the full listing that match, in the listing's order |
| UploadedFileDao.SearchListingMembers | android/app/src/main/java/s/how/see/data/local/db/dao/UploadedFileDao.kt:16-17 | a stored row is in the search result exactly when it matches the query, and nothing else is |
| UploadedFileDao.UploadedFileDao.constructor | android/app/src/main/java/s/how/see/data/local/db/dao/UploadedFileDao.kt:10-11 | a new table is empty and valid |
| UploadedFileDao.UploadedFileDao.GetAll | android/app/src/main/java/s/how/see/data/local/db/dao/UploadedFileDao.kt:13-14 | the rows of the table, as the same multiset, newest first |
| UploadedFileDao.UploadedFileDao.Search | android/app/src/main/java/s/how/see/data/local/db/dao/UploadedFileDao.kt:16-17 | the rows matching the query, newest first |
| UploadedFileDao.UploadedFileDao.Insert | android/app/src/main/java/s/how/see/data/local/db/dao/UploadedFileDao.kt:19-20 | INSERT OR REPLACE: returns the assigned row id, replaces any row with that id, advances the counter, keeps the invariant |
| UploadedFileDao.UploadedFileDao.DeleteByHash | android/app/src/main/java/s/how/see/data/local/db/dao/UploadedFileDao.kt:22-23 | removes exactly the rows with that hash; the id counter is kept |
| UploadedFileDao.UploadedFileDao.DeleteAll | android/app/src/main/java/s/how/see/data/local/db/dao/UploadedFileDao.kt:25-26 | empties the table; the AUTOINCREMENT counter is kept |
| AndroidApi.FailureOf | android/app/src/main/java/s/how/see/data/repository/ShortLinkRepository.kt:32-37 | a failed call becomes `Result.Error`: the server's code with its message or the operation's fallback text, or, for a thrown call, no code and the exception's message or "Network error" |
| AndroidApi.Reported | android/app/src/main/java/s/how/see/ui/shortlinks/ShortLinkViewModel.kt:159-163 | a ViewModel publishes a success mapped to the value it shows, an error with the same code and message, and nothing for `Loading` |
| AndroidApi.AcceptedFlags | android/app/src/main/java/s/how/see/data/repository/ShortLinkRepository.kt:79-92 | one flag per call of a batch, true exactly when the server answered 200 |
| ShortLinkRepository.GetDomains | android/app/src/main/java/s/how/see/data/repository/ShortLinkRepository.kt:27-38 | success exactly on a 200 reply with data, carrying its domain list; otherwise the error with fallback "Failed to get domains"; never `Loading` |
| ShortLinkRepository.GetVisitStat | android/app/src/main/java/s/how/see/data/repository/ShortLinkRepository.kt:94-106 | success exactly on a 200 reply with data; otherwise the error with fallback "Failed to get stats" |
| ShortLinkRepository.CreatedEntity | android/app/src/main/java/s/how/see/data/repository/ShortLinkRepository.kt:45-54 | the history row takes domain, target and title from the request and slug, short URL and custom slug from the reply, with a fresh id |
| ShortLinkRepository.ShortLinkRepository.constructor | android/app/src/main/java/s/how/see/data/repository/ShortLinkRepository.kt:19-22 | the repository works on the given DAO |
| ShortLinkRepository.ShortLinkRepository.CreateShortUrl | android/app/src/main/java/s/how/see/data/repository/ShortLinkRepository.kt:40-62 | success exactly on a 200 reply with data, which inserts `CreatedEntity` into the history and returns the reply; otherwise the history is unchanged and the failure is returned |
| ShortLinkRepository.ShortLinkRepository.UpdateShortUrl | android/app/src/main/java/s/how/see/data/repository/ShortLinkRepository.kt:64-77 | success exactly on a 200 reply, which rewrites target and title of the matching rows; otherwise the history is unchanged and "Failed to update short URL" is the fallback |
| ShortLinkRepository.ShortLinkRepository.DeleteShortUrl | android/app/src/main/java/s/how/see/data/repository/ShortLinkRepository.kt:79-92 | success exactly on a 200 reply, which removes the link's rows; otherwise the history is unchanged and "Failed to delete short URL" is the fallback |
| ShortLinkRepository.ShortLinkRepository.ClearLocalHistory | android/app/src/main/java/s/how/see/data/repository/ShortLinkRepository.kt:108 | the history becomes empty |
| TextShareRepository.GetTextDomains | android/app/src/main/java/s/how/see/data/repository/TextShareRepository.kt:26-37 | success exactly on a 200 reply with data; otherwise the error with fallback "Failed to get text domains" |
| TextShareRepository.CreatedEntity | android/app/src/main/java/s/how/see/data/repository/TextShareRepository.kt:44-54 | the history row records a missing domain as "fs.to" and a missing text type as "plain_text"; title and content from the request, slug and URLs from the reply |
| TextShareRepository.TextShareRepository.constructor | android/app/src/main/java/s/how/see/data/repository/TextShareRepository.kt:18-21 | the repository works on the given DAO |
| TextShareRepository.TextShareRepository.CreateTextShare | android/app/src/main/java/s/how/see/data/repository/TextShareRepository.kt:39-62 | success exactly on a 200 reply with data, which inserts `CreatedEntity`; otherwise the history is unchanged |
| TextShareRepository.TextShareRepository.UpdateTextShare | android/app/src/main/java/s/how/see/data/repository/TextShareRepository.kt:64-77 | success exactly on a 200 reply, which rewrites content and title of the matching rows; otherwise the history is unchanged |
| TextShareRepository.TextShareRepository.DeleteTextShare | android/app/src/main/java/s/how/see/data/repository/TextShareRepository.kt:79-92 | success exactly on a 200 reply, which removes the share's rows; otherwise the history is unchanged |
| TextShareRepository.TextShareRepository.ClearLocalHistory | android/app/src/main/java/s/how/see/data/repository/TextShareRepository.kt:94 | the history becomes empty |
| FileRepository.GetFileDomains | android/app/src/main/java/s/how/see/data/repository/FileRepository.kt:37-48 | success exactly on a 200 reply with data; otherwise the error with fallback "Failed to get file domains" |
| FileRepository.UploadPart | android/app/src/main/java/s/how/see/data/repository/FileRepository.kt:53-68 | the multipart part is named "file" and carries the bytes, the display name or "file", and the MIME type or "application/octet-stream" |
| FileRepository.UploadedEntity | android/app/src/main/java/s/how/see/data/repository/FileRepository.kt:72-84 | the history row copies every field of the reply, the delete URL included, with a fresh id |
| FileRepository.FileRepository.constructor | android/app/src/main/java/s/how/see/data/repository/FileRepository.kt:25-31 | the repository works on the given DAO with progress 0 |
| FileRepository.FileRepository.UploadFile | android/app/src/main/java/s/how/see/data/repository/FileRepository.kt:50-94 | a file that cannot be opened fails with "Cannot read file" and sends nothing; otherwise the part is sent, and success exactly on a 200 reply with data, which records the upload and sets progress to 1; a thrown call resets progress to 0 |
| FileRepository.FileRepository.DeleteFile | android/app/src/main/java/s/how/see/data/repository/FileRepository.kt:96-112 | the rows with that hash are removed and the result is success whatever the server answered or whether the call threw |
| FileRepository.FileRepository.ClearLocalHistory | android/app/src/main/java/s/how/see/data/repository/FileRepository.kt:124 | the history becomes empty |
| BaseUrlInterceptor.PercentDecode | android/app/src/main/java/s/how/see/data/remote/DynamicBaseUrlInterceptor.kt:29 | OkHttp's segment decoding: never longer than its input, and an escape `%XY` at the front becomes the character with code 0xXY |
| BaseUrlInterceptor.DecodeWithoutEscape | android/app/src/main/java/s/how/see/data/remote/DynamicBaseUrlInterceptor.kt:29 | a segment without any `%XY` escape decodes to itself |
| BaseUrlInterceptor.EncodedSegments | android/app/src/main/java/s/how/see/data/remote/DynamicBaseUrlInterceptor.kt:29 | the encoded path splits into at least one segment, none holding `/` |
| BaseUrlInterceptor.PathSegments | android/app/src/main/java/s/how/see/data/remote/DynamicBaseUrlInterceptor.kt:29 | `pathSegments` has one decoded segment per encoded segment, at least one |
| BaseUrlInterceptor.PlainPathSegments | android/app/src/main/java/s/how/see/data/remote/DynamicBaseUrlInterceptor.kt:29 | a path without `%` decodes to its encoded segments, so no segment holds `/` or `%` |
| BaseUrlInterceptor.NonEmptySegments | android/app/src/main/java/s/how/see/data/remote/DynamicBaseUrlInterceptor.kt:26-29 | the filter keeps exactly the non-empty segments |
| BaseUrlInterceptor.PlaceholderSegments | android/app/src/main/java/s/how/see/data/remote/DynamicBaseUrlInterceptor.kt:25-26 | the placeholder base has exactly the segments `api`, `v1` |
| BaseUrlInterceptor.RelativeSegments | android/app/src/main/java/s/how/see/data/remote/DynamicBaseUrlInterceptor.kt:32-38 | a request that starts with the placeholder segments loses exactly that prefix; any other keeps all its segments |
| BaseUrlInterceptor.Intercept | android/app/src/main/java/s/how/see/data/remote/DynamicBaseUrlInterceptor.kt:17-60 | a stored base that does not parse leaves the request unchanged; otherwise scheme, host and port come from the base, the encoded path becomes the joined decoded segments, and the query is kept |
| BaseUrlInterceptor.AllSegmentsFrom | android/app/src/main/java/s/how/see/data/remote/DynamicBaseUrlInterceptor.kt:32-42 | every segment of the rewritten path is non-empty and is a decoded segment of the base or of the request |
| BaseUrlInterceptor.AllSegmentsClean | android/app/src/main/java/s/how/see/data/remote/DynamicBaseUrlInterceptor.kt:41-42 | every rewritten segment is non-empty, and none holds `/` or `%` when neither path has a `%` |
| BaseUrlInterceptor.NewPathReadsBack | android/app/src/main/java/s/how/see/data/remote/DynamicBaseUrlInterceptor.kt:51-52 | the new path starts with `/`, is `/` alone when there is no segment, and reads back as exactly the combined segments when none holds `/` or an escape |
| BaseUrlInterceptor.PlainRequestReadsBack | android/app/src/main/java/s/how/see/data/remote/DynamicBaseUrlInterceptor.kt:41-52 | when neither path has a `%`, the rewritten path reads back as exactly the combined segments |
| BaseUrlInterceptor.PlaceholderKeepsApiPaths | android/app/src/main/java/s/how/see/data/remote/DynamicBaseUrlInterceptor.kt:32-42 | with the placeholder stored as base, a request under `api/v1` keeps its decoded segments up to empty ones, and one without `%` reads back with them after the rewrite |
| BaseUrlInterceptor.PlaceholderPrefixesOtherPaths | android/app/src/main/java/s/how/see/data/remote/DynamicBaseUrlInterceptor.kt:32-42 | with the placeholder stored as base, a request outside `api/v1` gets `api/v1` put in front, and one without `%` reads back that way after the rewrite |
| BaseUrlInterceptor.EscapedSlashSplits | android/app/src/main/java/s/how/see/data/remote/DynamicBaseUrlInterceptor.kt:29-52 | a request under `api/v1` whose last segment is sent as `head%2Ftail` (as `deleteFile` sends the hash `head/tail`) has that one segment decoded to `head/tail`, and the rewritten path reads back with `head` and `tail` as two segments |
| BaseUrlInterceptor.EscapedPercentDecodedAgain | android/app/src/main/java/s/how/see/data/remote/DynamicBaseUrlInterceptor.kt:29-52 | a request segment `%2541` decodes to `%41`, which the rewritten path reads back as `A` |
| AndroidShortLinkViewModel.NewShortUrlRequest | android/app/src/main/java/s/how/see/ui/shortlinks/ShortLinkViewModel.kt:151-157 | blank slug, title, password and redirect URL are sent as null, an empty tag list as null, and every other value as given |
| AndroidShortLinkViewModel.NormalizingIsIdempotent | android/app/src/main/java/s/how/see/ui/shortlinks/ShortLinkViewModel.kt:151-157 | a request that is already normalised is sent unchanged |
| AndroidShortLinkViewModel.LinkKeys | android/app/src/main/java/s/how/see/ui/shortlinks/ShortLinkViewModel.kt:95-96 | the (domain, slug) pairs a batch delete sends, one per link in order |
| AndroidShortLinkViewModel.ShortLinkViewModel.constructor | android/app/src/main/java/s/how/see/ui/shortlinks/ShortLinkViewModel.kt:29-63 | the ViewModel starts with an empty query, page 1, selection mode off, nothing selected, no progress, no domains, not loading and no create result |
| AndroidShortLinkViewModel.ShortLinkViewModel.AllLinks | android/app/src/main/java/s/how/see/ui/shortlinks/ShortLinkViewModel.kt:38-41 | a blank query lists the whole history, any other query exactly the matching rows, newest first either way |
| AndroidShortLinkViewModel.ShortLinkViewModel.TotalPages | android/app/src/main/java/s/how/see/ui/shortlinks/ShortLinkViewModel.kt:46-48 | at least one page, and just enough pages of 50 for every listed link |
| AndroidShortLinkViewModel.ShortLinkViewModel.Links | android/app/src/main/java/s/how/see/ui/shortlinks/ShortLinkViewModel.kt:50-53 | the current page of the listing, at most 50 entries (`Pagination.Page`) |
| AndroidShortLinkViewModel.ShortLinkViewModel.ToggleSelectionMode | android/app/src/main/java/s/how/see/ui/shortlinks/ShortLinkViewModel.kt:65-68 | flips selection mode and clears the selection when the mode goes off; nothing else changes |
| AndroidShortLinkViewModel.ShortLinkViewModel.ExitSelectionMode | android/app/src/main/java/s/how/see/ui/shortlinks/ShortLinkViewModel.kt:70-73 | mode off and nothing selected; nothing else changes |
| AndroidShortLinkViewModel.ShortLinkViewModel.ToggleSelection | android/app/src/main/java/s/how/see/ui/shortlinks/ShortLinkViewModel.kt:75-81 | the id is selected afterwards exactly when it was not before; every other id keeps its state |
| AndroidShortLinkViewModel.ShortLinkViewModel.SelectAll | android/app/src/main/java/s/how/see/ui/shortlinks/ShortLinkViewModel.kt:83-85 | the selection becomes exactly the ids on the current page |
| AndroidShortLinkViewModel.ShortLinkViewModel.DeselectAll | android/app/src/main/java/s/how/see/ui/shortlinks/ShortLinkViewModel.kt:87-89 | nothing selected; nothing else changes |
| AndroidShortLinkViewModel.ShortLinkViewModel.BatchDelete | android/app/src/main/java/s/how/see/ui/shortlinks/ShortLinkViewModel.kt:91-103 | the links are deleted in order, one request each; progress goes (0, n), (1, n) … (n, n) and is then cleared; the history loses exactly the entries whose delete was accepted; selection mode is left |
| AndroidShortLinkViewModel.AcceptedLinksDeleted | android/app/src/main/java/s/how/see/ui/shortlinks/ShortLinkViewModel.kt:91-103 | after a batch delete a row is left exactly when it was there before and no accepted delete named its domain and slug |
| AndroidShortLinkViewModel.ShortLinkViewModel.DeleteInOrder | android/app/src/main/java/s/how/see/ui/shortlinks/ShortLinkViewModel.kt:95-99 | the loop sends one delete per link in list order, publishes (1, n) … (n, n), and leaves the history with the accepted deletes applied in that order |
| AndroidShortLinkViewModel.ShortLinkViewModel.DeleteStep | android/app/src/main/java/s/how/see/ui/shortlinks/ShortLinkViewModel.kt:96-97 | one iteration: the index-th delete is applied to the history when accepted and progress becomes (index + 1, n); nothing else changes |
| AndroidShortLinkViewModel.ShortLinkViewModel.SetSearchQuery | android/app/src/main/java/s/how/see/ui/shortlinks/ShortLinkViewModel.kt:120-123 | stores the query and goes back to page 1 |
| AndroidShortLinkViewModel.ShortLinkViewModel.SetPage | android/app/src/main/java/s/how/see/ui/shortlinks/ShortLinkViewModel.kt:125 | stores the page as given, without clamping |
| AndroidShortLinkViewModel.ShortLinkViewModel.LoadDomains | android/app/src/main/java/s/how/see/ui/shortlinks/ShortLinkViewModel.kt:127-134 | a 200 reply with data replaces the domain list; any other outcome changes nothing |
| AndroidShortLinkViewModel.ShortLinkViewModel.CreateShortUrl | android/app/src/main/java/s/how/see/ui/shortlinks/ShortLinkViewModel.kt:145-166 | sends `NewShortUrlRequest`; `createResult` holds the short URL on success or the repository's error otherwise; the history gains the link only on success; loading ends false |
| AndroidShortLinkViewModel.ShortLinkViewModel.UpdateShortUrl | android/app/src/main/java/s/how/see/ui/shortlinks/ShortLinkViewModel.kt:168-176 | the matching history rows are rewritten only when the server accepted; loading ends false |
| AndroidShortLinkViewModel.ShortLinkViewModel.DeleteShortUrl | android/app/src/main/java/s/how/see/ui/shortlinks/ShortLinkViewModel.kt:178-180 | the link leaves the history only when the server accepted |
| AndroidShortLinkViewModel.ShortLinkViewModel.LoadStats | android/app/src/main/java/s/how/see/ui/shortlinks/ShortLinkViewModel.kt:182-193 | for "daily", "monthly" and "totally" in turn, a successful fetch records that period's count; failed periods and every other entry keep their values |
| AndroidShortLinkViewModel.RecordedKeys | android/app/src/main/java/s/how/see/ui/shortlinks/ShortLinkViewModel.kt:184-191 | after the periods so far, the counts map holds a period exactly when it held it before or that period's fetch succeeded |
| AndroidShortLinkViewModel.RecordedDelivered | android/app/src/main/java/s/how/see/ui/shortlinks/ShortLinkViewModel.kt:184-191 | a period whose fetch succeeded holds the fetched count |
| AndroidShortLinkViewModel.RecordedKept | android/app/src/main/java/s/how/see/ui/shortlinks/ShortLinkViewModel.kt:184-191 | a period whose fetch failed, and every key that is no period, keeps its earlier count |
| AndroidShortLinkViewModel.ShortLinkViewModel.ClearCreateResult | android/app/src/main/java/s/how/see/ui/shortlinks/ShortLinkViewModel.kt:195 | the create result is cleared; nothing else changes |
| AndroidTextShareViewModel.NewTextRequest | android/app/src/main/java/s/how/see/ui/textsharing/TextShareViewModel.kt:148-155 | a blank title becomes "Untitled", a blank slug or password null, an empty tag list null; content, domain, text type and expiry are passed on |
| AndroidTextShareViewModel.NormalizingIsIdempotent | android/app/src/main/java/s/how/see/ui/textsharing/TextShareViewModel.kt:148-155 | a request that is already normalised is sent unchanged |
| AndroidTextShareViewModel.ShareKeys | android/app/src/main/java/s/how/see/ui/textsharing/TextShareViewModel.kt:95-96 | the (domain, slug) pairs a batch delete sends, one per share in order |
| AndroidTextShareViewModel.TextShareViewModel.constructor | android/app/src/main/java/s/how/see/ui/textsharing/TextShareViewModel.kt:29-63 | the ViewModel starts with an empty query, page 1, selection mode off, nothing selected, no progress, no domains, not loading and no create result |
| AndroidTextShareViewModel.TextShareViewModel.AllTextShares | android/app/src/main/java/s/how/see/ui/textsharing/TextShareViewModel.kt:38-41 | a blank query lists the whole history, any other query exactly the matching rows, newest first either way |
| AndroidTextShareViewModel.TextShareViewModel.TotalPages | android/app/src/main/java/s/how/see/ui/textsharing/TextShareViewModel.kt:46-48 | at least one page, and just enough pages of 50 for every listed text share |
| AndroidTextShareViewModel.TextShareViewModel.TextShares | android/app/src/main/java/s/how/see/ui/textsharing/TextShareViewModel.kt:50-53 | the current page of the listing, at most 50 entries (`Pagination.Page`) |
| AndroidTextShareViewModel.TextShareViewModel.ToggleSelectionMode | android/app/src/main/java/s/how/see/ui/textsharing/TextShareViewModel.kt:65-68 | flips selection mode and clears the selection when the mode goes off; nothing else changes |
| AndroidTextShareViewModel.TextShareViewModel.ExitSelectionMode | android/app/src/main/java/s/how/see/ui/textsharing/TextShareViewModel.kt:70-73 | mode off and nothing selected; nothing else changes |
| AndroidTextShareViewModel.TextShareViewModel.ToggleSelection | android/app/src/main/java/s/how/see/ui/textsharing/TextShareViewModel.kt:75-81 | the id is selected afterwards exactly when it was not before; every other id keeps its state |
| AndroidTextShareViewModel.TextShareViewModel.SelectAll | android/app/src/main/java/s/how/see/ui/textsharing/TextShareViewModel.kt:83-85 | the selection becomes exactly the ids on the current page |
| AndroidTextShareViewModel.TextShareViewModel.DeselectAll | android/app/src/main/java/s/how/see/ui/textsharing/TextShareViewModel.kt:87-89 | nothing selected; nothing else changes |
| AndroidTextShareViewModel.TextShareViewModel.BatchDelete | android/app/src/main/java/s/how/see/ui/textsharing/TextShareViewModel.kt:91-103 | the text shares are deleted in order, one request each; progress goes (0, n), (1, n) … (n, n) and is then cleared; the history loses exactly the entries whose delete was accepted; selection mode is left |
| AndroidTextShareViewModel.AcceptedSharesDeleted | android/app/src/main/java/s/how/see/ui/textsharing/TextShareViewModel.kt:91-103 | after a batch delete a row is left exactly when it was there before and no accepted delete named its domain and slug |
| AndroidTextShareViewModel.TextShareViewModel.DeleteInOrder | android/app/src/main/java/s/how/see/ui/textsharing/TextShareViewModel.kt:95-99 | the loop sends one delete per share in list order, publishes (1, n) … (n, n), and leaves the history with the accepted deletes applied in that order |
| AndroidTextShareViewModel.TextShareViewModel.DeleteStep | android/app/src/main/java/s/how/see/ui/textsharing/TextShareViewModel.kt:96-97 | one iteration: the index-th delete is applied to the history when accepted and progress becomes (index + 1, n); nothing else changes |
| AndroidTextShareViewModel.TextShareViewModel.SetSearchQuery | android/app/src/main/java/s/how/see/ui/textsharing/TextShareViewModel.kt:117-120 | stores the query and goes back to page 1 |
| AndroidTextShareViewModel.TextShareViewModel.SetPage | android/app/src/main/java/s/how/see/ui/textsharing/TextShareViewModel.kt:122 | stores the page as given, without clamping |
| AndroidTextShareViewModel.TextShareViewModel.LoadDomains | android/app/src/main/java/s/how/see/ui/textsharing/TextShareViewModel.kt:124-131 | a 200 reply with data replaces the domain list; any other outcome changes nothing |
| AndroidTextShareViewModel.TextShareViewModel.CreateTextShare | android/app/src/main/java/s/how/see/ui/textsharing/TextShareViewModel.kt:142-164 | sends `NewTextRequest`; `createResult` holds the short URL on success or the repository's error; the history gains the share only on success; loading ends false |
| AndroidTextShareViewModel.TextShareViewModel.UpdateTextShare | android/app/src/main/java/s/how/see/ui/textsharing/TextShareViewModel.kt:166-174 | the matching history rows are rewritten only when the server accepted; loading ends false |
| AndroidTextShareViewModel.TextShareViewModel.DeleteTextShare | android/app/src/main/java/s/how/see/ui/textsharing/TextShareViewModel.kt:176-178 | the share leaves the history only when the server accepted |
| AndroidTextShareViewModel.TextShareViewModel.ClearCreateResult | android/app/src/main/java/s/how/see/ui/textsharing/TextShareViewModel.kt:180 | the create result is cleared; nothing else changes |
| AndroidFileViewModel.InitialLinkDisplayTypeIsDirectLink | android/app/src/main/java/s/how/see/ui/files/FileViewModel.kt:30-31 | the display type shown before the preference is read, "DIRECT_LINK", parses to the direct-link form |
| AndroidFileViewModel.Hashes | android/app/src/main/java/s/how/see/ui/files/FileViewModel.kt:88-89 | the hashes a batch delete sends, one per file in order |
| AndroidFileViewModel.AllDone | android/app/src/main/java/s/how/see/data/repository/FileRepository.kt:96-112 | a file delete always counts as done locally: n flags, all true |
| AndroidFileViewModel.FileViewModel.constructor | android/app/src/main/java/s/how/see/ui/files/FileViewModel.kt:25-56 | starts on page 1 with the placeholder display type, selection mode off, nothing selected, no progress, no domains, not uploading and no upload result |
| AndroidFileViewModel.FileViewModel.AllFiles | android/app/src/main/java/s/how/see/ui/files/FileViewModel.kt:33-34 | the whole upload history (the same multiset) newest first |
| AndroidFileViewModel.FileViewModel.TotalPages | android/app/src/main/java/s/how/see/ui/files/FileViewModel.kt:39-41 | at least one page, and just enough pages of 50 for every file |
| AndroidFileViewModel.FileViewModel.Files | android/app/src/main/java/s/how/see/ui/files/FileViewModel.kt:43-46 | the current page of the history, at most 50 files (`Pagination.Page`) |
| AndroidFileViewModel.FileViewModel.ToggleSelectionMode | android/app/src/main/java/s/how/see/ui/files/FileViewModel.kt:58-61 | flips selection mode and clears the selection when the mode goes off |
| AndroidFileViewModel.FileViewModel.ExitSelectionMode | android/app/src/main/java/s/how/see/ui/files/FileViewModel.kt:63-66 | mode off and nothing selected |
| AndroidFileViewModel.FileViewModel.ToggleSelection | android/app/src/main/java/s/how/see/ui/files/FileViewModel.kt:68-74 | the id is selected afterwards exactly when it was not before; every other id keeps its state |
| AndroidFileViewModel.FileViewModel.SelectAll | android/app/src/main/java/s/how/see/ui/files/FileViewModel.kt:76-78 | the selection becomes exactly the ids on the current page |
| AndroidFileViewModel.FileViewModel.DeselectAll | android/app/src/main/java/s/how/see/ui/files/FileViewModel.kt:80-82 | nothing selected |
| AndroidFileViewModel.FileViewModel.BatchDelete | android/app/src/main/java/s/how/see/ui/files/FileViewModel.kt:84-96 | the files are deleted in order by hash; progress goes (0, n) … (n, n) and is cleared; afterwards no row with any of those hashes is left and every other row is, whatever the server answered; selection mode is left |
| AndroidFileViewModel.HashesDeleted | android/app/src/main/java/s/how/see/ui/files/FileViewModel.kt:84-96 | after a batch delete a row is left exactly when it was there before and its hash is none of the deleted files' hashes |
| AndroidFileViewModel.FileViewModel.DeleteInOrder | android/app/src/main/java/s/how/see/ui/files/FileViewModel.kt:88-92 | the loop sends one delete per file in list order, publishes (1, n) … (n, n), and leaves the history without each file's hash in turn |
| AndroidFileViewModel.FileViewModel.DeleteStep | android/app/src/main/java/s/how/see/ui/files/FileViewModel.kt:89-90 | one iteration: the rows with the index-th hash leave the history and progress becomes (index + 1, n); nothing else changes |
| AndroidFileViewModel.FileViewModel.SetPage | android/app/src/main/java/s/how/see/ui/files/FileViewModel.kt:109 | stores the page as given, without clamping |
| AndroidFileViewModel.FileViewModel.LoadDomains | android/app/src/main/java/s/how/see/ui/files/FileViewModel.kt:111-118 | a 200 reply with data replaces the domain list; any other outcome changes nothing |
| AndroidFileViewModel.FileViewModel.UploadFile | android/app/src/main/java/s/how/see/ui/files/FileViewModel.kt:120-131 | `uploadResult` holds the file's URL on success or the repository's error (including "Cannot read file"); the history gains the file only on success; the repository's progress ends at 1 on success, 0 when the file cannot be read or the call threw, and at the last value the callback wrote on a rejected reply; on failure the row counter is unchanged; uploading ends false |
| AndroidFileViewModel.FileViewModel.DeleteFile | android/app/src/main/java/s/how/see/ui/files/FileViewModel.kt:133-135 | the rows with that hash leave the history whatever the server answered |
| AndroidFileViewModel.FileViewModel.ClearUploadResult | android/app/src/main/java/s/how/see/ui/files/FileViewModel.kt:137 | the upload result is cleared; nothing else changes |
| Pagination.TotalPages | macos/SEE/Views/Components/PaginationView.swift:35-37 | at least one page, enough pages of 50 for every item, and no page more than needed |
| Pagination.Page | macos/SEE/Views/Components/PaginationView.swift:39-44 | the page holds the items from `(page - 1) * 50` on, at most 50 of them and as many as remain, in order; a start past the end gives no items |
| Pagination.PagesFrom | macos/SEE/Views/Components/PaginationView.swift:39-44 | the pages from a given one to the last, joined, are exactly the items from that page's start |
| Pagination.PagesCoverItems | macos/SEE/Views/Components/PaginationView.swift:35-44 | pages 1 to `totalPages`, joined, give back exactly the item list |
| Pagination.ItemPage | macos/SEE/Views/Components/PaginationView.swift:35-44 | item i is on page `i / 50 + 1`, which exists, at position `i % 50` |
| Pagination.ButtonsStayInRange | macos/SEE/Views/Components/PaginationView.swift:9-24 | from a page in range, an enabled previous or next button leads to a page in range, and with one page neither is shown enabled |
| ListState.Toggled | android/app/src/main/java/s/how/see/ui/shortlinks/ShortLinkViewModel.kt:75-81 | the id is in the new selection exactly when it was not in the old one; every other id is unchanged |
| ListState.ToggledTwice | android/app/src/main/java/s/how/see/ui/shortlinks/ShortLinkViewModel.kt:75-81 | toggling the same id twice restores the selection |
| ListState.DropTake | android/app/src/main/java/s/how/see/ui/shortlinks/ShortLinkViewModel.kt:50-53 | `drop((page - 1) * 50).take(50)` holds at most 50 items |
| ListState.DropTakeIsPage | android/app/src/main/java/s/how/see/ui/shortlinks/ShortLinkViewModel.kt:50-53 | the Android drop/take page is the same items as the macOS `Pagination.page` slice |
| ListState.ProgressTrace | android/app/src/main/java/s/how/see/ui/shortlinks/ShortLinkViewModel.kt:91-103 | a batch of n items publishes n + 1 progress pairs, the k-th being (k, n) |
| ListState.BatchDeletedMembers | android/app/src/main/java/s/how/see/ui/shortlinks/ShortLinkViewModel.kt:91-103 | after a batch delete a row survives exactly when it was stored and no delete that took effect had its key |
| ListState.BatchDeletedNothing | android/app/src/main/java/s/how/see/ui/shortlinks/ShortLinkViewModel.kt:91-103 | a batch in which no delete took effect leaves the rows as they were |
| MacListViews.MatchingLinks | macos/SEE/Views/ShortLinks/ShortLinkListView.swift:16-22 | the links kept by the lower-cased query are never more than the stored ones |
| MacListViews.FilteredLinks | macos/SEE/Views/ShortLinks/ShortLinkListView.swift:14-23 | an empty search lists every stored link, in stored order |
| MacListViews.MatchingLinksMembers | macos/SEE/Views/ShortLinks/ShortLinkListView.swift:17-22 | a link is kept exactly when it is stored and its slug, target, title or domain contains the query, ignoring case |
| MacListViews.MatchingLinksAppend | macos/SEE/Views/ShortLinks/ShortLinkListView.swift:17-22 | the filter keeps the list's order: filtering a concatenation is the concatenation of the filtered parts |
| MacListViews.FilteredLinksMembers | macos/SEE/Views/ShortLinks/ShortLinkListView.swift:14-23 | with a search, a link is listed exactly when it is stored and matches the lower-cased search text |
| MacListViews.MatchingShares | macos/SEE/Views/TextSharing/TextShareListView.swift:16-21 | the shares kept by the lower-cased query are never more than the stored ones |
| MacListViews.FilteredShares | macos/SEE/Views/TextSharing/TextShareListView.swift:14-22 | an empty search lists every stored share, in stored order |
| MacListViews.MatchingSharesMembers | macos/SEE/Views/TextSharing/TextShareListView.swift:16-21 | a share is kept exactly when it is stored and its title, content or slug contains the query, ignoring case |
| MacListViews.MatchingSharesAppend | macos/SEE/Views/TextSharing/TextShareListView.swift:16-21 | the share filter keeps the list's order |
| MacListViews.FilteredSharesMembers | macos/SEE/Views/TextSharing/TextShareListView.swift:14-22 | with a search, a share is listed exactly when it is stored and matches the lower-cased search text |
| MacListViews.DomainIsNotSearched | macos/SEE/Views/TextSharing/TextShareListView.swift:16-21 | a share whose domain alone contains the query is not found |
| MacListViews.BadgeText | macos/SEE/Views/TextSharing/TextShareListView.swift:103-109 | the badge is one of "Code", "Markdown" or "Text" |
| MacListViews.BadgeTextOfTypes | macos/SEE/Views/TextSharing/TextShareListView.swift:103-109 | source code reads "Code", markdown "Markdown", plain text and any unknown type "Text" |
| MacListViews.ListState.constructor | macos/SEE/Views/ShortLinks/ShortLinkListView.swift:9-12 | a list opens with an empty search on page 1 |
| MacListViews.ListState.SetSearchText | macos/SEE/Views/ShortLinks/ShortLinkListView.swift:57 | the search text is stored, and a changed search goes back to page 1 |
| MacListViews.ListState.ChangePage | macos/SEE/Views/ShortLinks/ShortLinkListView.swift:49-51 | the page control's choice becomes the current page; the search is kept |
| MacListViews.ListState.LinkTotalPages | macos/SEE/Views/ShortLinks/ShortLinkListView.swift:25 | the filtered links need at least one page |
| MacListViews.ListState.PagedLinks | macos/SEE/Views/ShortLinks/ShortLinkListView.swift:26 | the shown page is `Pagination.Page` of the filtered links: up to 50 links from the page's start, in order, as many as remain, and none past the end |
| MacListViews.ListState.ShareTotalPages | macos/SEE/Views/TextSharing/TextShareListView.swift:24 | the filtered shares need at least one page |
| MacListViews.ListState.PagedShares | macos/SEE/Views/TextSharing/TextShareListView.swift:25 | the shown page is `Pagination.Page` of the filtered shares: up to 50 shares from the page's start, in order, as many as remain, and none past the end |
| MacListViews.NewSearchShowsFirstMatches | macos/SEE/Views/ShortLinks/ShortLinkListView.swift:25-57 | after a search change the first page is shown and holds the first matches |
| MacListViews.OnePageHidesControls | macos/SEE/Views/ShortLinks/ShortLinkListView.swift:25-54 | with at most one page of matches there is no page control and the first page holds them all |
| MacModels.TextTypeRoundTrip | macos/SEE/Models/APIModels.swift:193-198 | every text type's raw value parses back to it, and exactly "plain_text", "source_code" and "markdown" parse |
| MacModels.ShortLink.constructor | macos/SEE/Models/ShortLink.swift:17-39 | the initializer stores each argument in the field of the same name |
| MacModels.TextShare.constructor | macos/SEE/Models/TextShare.swift:18-42 | the initializer stores each argument in the field of the same name |
| MacModels.ModelContext.constructor | macos/SEE/Views/ShortLinks/ShortLinkListView.swift:5-6 | a new context stores no links and no shares |
| MacModels.ModelContext.InsertLink | macos/SEE/ViewModels/ShortLinkViewModel.swift:91 | inserting appends the link and leaves the shares alone |
| MacModels.ModelContext.DeleteLink | macos/SEE/ViewModels/ShortLinkViewModel.swift:139 | the stored links become the old ones without that link object, every other link kept in its stored order; shares unchanged |
| MacModels.ModelContext.InsertShare | macos/SEE/ViewModels/TextShareViewModel.swift:85 | inserting appends the share and leaves the links alone |
| MacModels.ModelContext.DeleteShare | macos/SEE/ViewModels/TextShareViewModel.swift:134 | the stored shares become the old ones without that share object, every other share kept in its stored order; links unchanged |
| TagSelector.ToggleRemovesEveryOccurrence | macos/SEE/Views/Components/TagSelector.swift:38-39 | a tap on a selected tag removes every occurrence of it, keeps every other id, and shortens the list |
| TagSelector.FilterDropsOne | macos/SEE/Views/Components/TagSelector.swift:39 | a removal that drops some element makes the list strictly shorter |
| TagSelector.ToggleAppends | macos/SEE/Views/Components/TagSelector.swift:40-44 | a tap on an unselected tag appends it when there is no cap or room under it, and otherwise changes nothing |
| TagSelector.ToggleKeepsCap | macos/SEE/Views/Components/TagSelector.swift:37-46 | a selection within the cap stays within it |
| TagSelector.FilterKeepsNoDuplicates | macos/SEE/Views/Components/TagSelector.swift:39 | removing ids from a duplicate-free list leaves it duplicate-free |
| TagSelector.ToggleKeepsNoDuplicates | macos/SEE/Views/Components/TagSelector.swift:37-46 | a duplicate-free selection stays duplicate-free |
| TagSelector.ToggleTwice | macos/SEE/Views/Components/TagSelector.swift:37-46 | two taps on an unselected tag, when it was added, give back the original list |
| TagSelector.Caption | macos/SEE/Views/Components/TagSelector.swift:29-33 | a caption is shown exactly when there is a cap |
| TagSelector.CaptionShowsCount | macos/SEE/Views/Components/TagSelector.swift:30 | the caption starts with the selected count, which reads back from its digits, followed by `/` |
| TagSelector.Picker.constructor | macos/SEE/Views/Components/TagSelector.swift:3-6 | the picker holds the bound selection and the cap it was given |
| TagSelector.Picker.SelectionCaption | macos/SEE/Views/Components/TagSelector.swift:29-33 | the caption for the current selection, present exactly when there is a cap |
| TagSelector.Picker.Toggle | macos/SEE/Views/Components/TagSelector.swift:37-46 | the bound list becomes the toggled list, and the cap and the absence of duplicates are kept |
| ThumbnailService.ThumbnailQuery | macos/SEE/Services/ThumbnailService.swift:16-26 | the CDN query is url, w, h, fit=cover, a=attention in that order, with w and h reading back as the requested size |
| ThumbnailService.StepBelow63 | macos/SEE/Services/ThumbnailService.swift:33 | one hash step on a 56-bit masked value never reaches 2^63 |
| ThumbnailService.WrappingStepIsExact | macos/SEE/Services/ThumbnailService.swift:33 | so the wrapping `&*` and `&+` of the step agree with exact arithmetic |
| ThumbnailService.CacheKey | macos/SEE/Services/ThumbnailService.swift:28-36 | the loop over the UTF-8 bytes of `"url_WxH"`, with 64-bit wrap-around written out, computes the key `CacheKeyOf` |
| ThumbnailService.Mix | macos/SEE/Services/ThumbnailService.swift:33 | the wrapping multiply-and-add on 64-bit words equals the exact step reduced modulo 2^64 and stays below 2^64 |
| ThumbnailService.HashBelow63 | macos/SEE/Services/ThumbnailService.swift:31-34 | the hash stays below 2^63 over any byte string |
| ThumbnailService.HexLength | macos/SEE/Services/ThumbnailService.swift:35 | a number below 16^k takes at most k hex digits |
| ThumbnailService.CacheKeyIsHexOfHash | macos/SEE/Services/ThumbnailService.swift:28-36 | the key is a lower-case hex numeral of at most 16 digits, safe as a file name, that reads back as the hash of the request |
| ThumbnailService.ThumbnailCache.constructor | macos/SEE/Services/ThumbnailService.swift:8-14 | a new service has an empty memory cache and an empty thumbnail directory |
| ThumbnailService.ThumbnailCache.LoadThumbnail | macos/SEE/Services/ThumbnailService.swift:42-85 | a memory hit is returned unchanged; a disk file that decodes is returned and remembered; otherwise a usable CDN reply is written to disk and, when it decodes, returned and remembered; nothing else enters either cache |
| ThumbnailService.ThumbnailCache.ClearCache | macos/SEE/Services/ThumbnailService.swift:102-106 | the memory cache is emptied and the directory recreated empty |
| UploadedFileModel.NewUploadedFile | macos/SEE/Models/UploadedFile.swift:19-45 | every argument lands in the field of the same name, and `createdAt` defaults to the current time |
| UploadedFileModel.IsImageIgnoresCase | macos/SEE/Models/UploadedFile.swift:47-50 | the image check ignores ASCII case of the file name |
| UploadedFileModel.IsImageIsFormatterImage | macos/SEE/Models/UploadedFile.swift:47-50 | every file `isImage` accepts is an image to the link formatter too |
| UploadedFileModel.IsImageNarrowerThanFormatter | macos/SEE/Models/UploadedFile.swift:47-50 | avif, ico and tiff files are images to the link formatter but not to `isImage` |
| UploadedFileModel.NotListedImage | macos/SEE/Models/UploadedFile.swift:49 | avif, ico and tiff are missing from the eight `isImage` extensions and present in the formatter's image list |
| FileUploadView.FromRawValue | macos/SEE/Views/Files/FileUploadView.swift:8-17 | a parsed display type has exactly the given raw value |
| FileUploadView.AllCasesRoundTrip | macos/SEE/Views/Files/FileUploadView.swift:8-19 | every case is in `allCases` and its raw value parses back to it |
| FileUploadView.FromRawValueNone | macos/SEE/Views/Files/FileUploadView.swift:8-17 | a string that is no case's raw value parses to nothing |
| FileUploadView.RawValuesDistinct | macos/SEE/Views/Files/FileUploadView.swift:8-17 | different cases have different raw values |
| FileUploadView.InitialLinkDisplayType | macos/SEE/Views/Files/FileUploadView.swift:54-61 | the saved preference when it names a case, the share page when nothing is saved or the value is unknown |
| FileUploadView.InitialLinkDisplayTypeRestores | macos/SEE/Views/Files/FileUploadView.swift:54-61 | a preference saved from a display type restores that type |
| FileUploadView.ClickableShowsBareLink | macos/SEE/Views/Files/FileUploadView.swift:367-369 | the two clickable forms show the bare direct URL or share page |
| FileUploadView.WithLinkOnDirectPage | macos/SEE/Views/Files/FileUploadView.swift:29-38 | for a file whose share page is its direct URL, the with-link forms equal the direct-link forms |
| FileUploadView.MarkdownEmbedsImages | macos/SEE/Views/Files/FileUploadView.swift:39-40 | markdown for a file is an image embed exactly when the formatter calls the file an image, and a plain link otherwise |
| FileUploadView.FormattedAll | macos/SEE/Views/Files/FileUploadView.swift:508-510 | one rendering per file, in the order of the files |
| FileUploadView.BatchTextLines | macos/SEE/Views/Files/FileUploadView.swift:508-510 | when no rendering spans lines, the batch text splits back into exactly one line per file, in order |
| FileUploadView.NoXInNumber | macos/SEE/Views/Files/FileUploadView.swift:358 | a rendered integer holds no `x` |
| FileUploadView.DimensionsRoundTrip | macos/SEE/Views/Files/FileUploadView.swift:358 | the `WxH` part splits at `x` into two numerals that parse back to the width and height |
| FileUploadView.SizeInfo | macos/SEE/Views/Files/FileUploadView.swift:355-361 | the formatted size, then ` · WxH` exactly when both width and height are known |
| FileUploadView.SelectedFiles | macos/SEE/Views/Files/FileUploadView.swift:70-72 | the selected files are the listed files whose id is selected, no others |
| FileUploadView.SelectedFilesKeepOrder | macos/SEE/Views/Files/FileUploadView.swift:70-72 | the selection keeps the list's order |
| FileUploadView.FileUploadScreen.constructor | macos/SEE/Views/Files/FileUploadView.swift:51-61 | the screen starts with nothing selected, on page 1, with the initial display type |
| FileUploadView.FileUploadScreen.FileTotalPages | macos/SEE/Views/Files/FileUploadView.swift:67 | at least one page, enough for every file |
| FileUploadView.FileUploadScreen.PagedFiles | macos/SEE/Views/Files/FileUploadView.swift:68 | the current page is `Pagination.Page` of the files: up to 50 files from the page's start, in order, as many as remain, and none past the end |
| FileUploadView.FileUploadScreen.TapCircle | macos/SEE/Views/Files/FileUploadView.swift:96-101 | a tap removes a selected id and inserts an unselected one; page and display type are kept |
| FileUploadView.FileUploadScreen.ChangePage | macos/SEE/Views/Files/FileUploadView.swift:111-113 | the page control's choice becomes the current page; selection and display type are kept |
| AndroidLinkFormatter.Extension | android/app/src/main/java/s/how/see/util/LinkFormatter.kt:57 | the extension after the last `.`, lower-cased, holds no `.` |
| AndroidLinkFormatter.ExtensionSetsDisjoint | android/app/src/main/java/s/how/see/util/LinkFormatter.kt:46-54 | the image, audio and video extension sets are pairwise disjoint |
| AndroidLinkFormatter.FileTypeIsMembership | android/app/src/main/java/s/how/see/util/LinkFormatter.kt:56-64 | each file type holds for precisely the names whose extension is in its set, and other for the rest |
| AndroidLinkFormatter.NoExtensionIsOther | android/app/src/main/java/s/how/see/util/LinkFormatter.kt:57 | a name without a `.`, or ending in one, has the empty extension and is other |
| AndroidLinkFormatter.FileTypeIgnoresCase | android/app/src/main/java/s/how/see/util/LinkFormatter.kt:57 | classification ignores ASCII case |
| AndroidLinkFormatter.WithLinkOnDirectUrl | android/app/src/main/java/s/how/see/util/LinkFormatter.kt:75-112 | with the share page equal to the direct URL, each with-link form is its direct-link form |
| AndroidLinkFormatter.BBCodeShapes | android/app/src/main/java/s/how/see/util/LinkFormatter.kt:67-88 | audio and video are the bare tag in all three BBCode forms; images are wrapped in a `[url=…]` link in the linked forms; other files are a `[url=…]` link around the name |
| AndroidLinkFormatter.AnchoredMedia | android/app/src/main/java/s/how/see/util/LinkFormatter.kt:99-112 | the linked HTML forms of a media file are the plain tag inside an anchor |
| AndroidLinkFormatter.HtmlShapes | android/app/src/main/java/s/how/see/util/LinkFormatter.kt:91-112 | the image tag self-closes with ` />`; both linked forms wrap every media tag in an anchor and for other files only change the anchor's target |
| AndroidLinkFormatter.MarkdownShapes | android/app/src/main/java/s/how/see/util/LinkFormatter.kt:115-118 | markdown starts with `!` exactly for images and is the plain link otherwise |
| AndroidLinkDisplayType.Ordinal | android/app/src/main/java/s/how/see/util/LinkFormatter.kt:5-14 | every display type sits at its own place among the entries |
| AndroidLinkDisplayType.EntriesAreEveryCaseOnce | android/app/src/main/java/s/how/see/util/LinkFormatter.kt:5-14 | the entries are the nine display types, each once |
| AndroidLinkDisplayType.FindByName | android/app/src/main/java/s/how/see/util/LinkFormatter.kt:37 | a found entry is in the list and has that name; nothing is found exactly when no entry has it |
| AndroidLinkDisplayType.FromStringName | android/app/src/main/java/s/how/see/util/LinkFormatter.kt:36-38 | every display type is read back from its stored name |
| AndroidLinkDisplayType.FromStringOther | android/app/src/main/java/s/how/see/util/LinkFormatter.kt:36-38 | a string that is no constant's name falls back to `DIRECT_LINK` |
| AndroidLinkDisplayType.LabelIsNoName | android/app/src/main/java/s/how/see/util/LinkFormatter.kt:5-14 | no label other than "HTML" is spelled like a constant's name |
| AndroidLinkDisplayType.FromStringLabel | android/app/src/main/java/s/how/see/util/LinkFormatter.kt:5-38 | a label read as a stored value gives HTML for "HTML" and `DIRECT_LINK` for every other label |
| AndroidLinkDisplayType.FormattedBareLinks | android/app/src/main/java/s/how/see/util/LinkFormatter.kt:16-24 | the direct form is the URL; the share-page form is the page, or the URL when there is none |
| AndroidLinkDisplayType.NoPageLinksDirect | android/app/src/main/java/s/how/see/util/LinkFormatter.kt:18-30 | without a share page every page-linked form equals its direct-link form |
| AndroidLinkDisplayType.FormattedShowsUrl | android/app/src/main/java/s/how/see/util/LinkFormatter.kt:16-33 | the direct URL appears in every form except the share page and the page-linked forms of non-media files |
| AndroidLinkDisplayType.HtmlShowsUrl | android/app/src/main/java/s/how/see/util/LinkFormatter.kt:91-96 | every plain HTML form contains the direct URL |
| AndroidLinkDisplayType.BBCodeShowsUrl | android/app/src/main/java/s/how/see/util/LinkFormatter.kt:67-72 | every plain BBCode form contains the direct URL |
| AndroidLinkDisplayType.BBCodeWithLinkShowsUrl | android/app/src/main/java/s/how/see/util/LinkFormatter.kt:75-88 | the page-linked BBCode form of a media file contains the direct URL, and the direct-link form always does |
| AndroidLinkDisplayType.HtmlWithLinkShowsUrl | android/app/src/main/java/s/how/see/util/LinkFormatter.kt:99-112 | the page-linked HTML form of a media file contains the direct URL, and the direct-link form always does |
| SwiftLinkFormatter.Extension | macos/SEE/Utilities/LinkFormatter.swift:12 | the path extension, lower-cased, holds no `.` |
| SwiftLinkFormatter.ExtensionListsDisjoint | macos/SEE/Utilities/LinkFormatter.swift:13-20 | the image, audio and video lists are pairwise disjoint |
| SwiftLinkFormatter.CategoryIsMembership | macos/SEE/Utilities/LinkFormatter.swift:11-23 | each category holds for precisely the names whose extension is in its list, and other for the rest |
| SwiftLinkFormatter.NoExtensionIsOther | macos/SEE/Utilities/LinkFormatter.swift:11-23 | a name without any `.` has no extension and is other |
| SwiftLinkFormatter.CategoryIgnoresCase | macos/SEE/Utilities/LinkFormatter.swift:12 | the category ignores ASCII case |
| SwiftLinkFormatter.WithLinkOnDirectUrl | macos/SEE/Utilities/LinkFormatter.swift:42-111 | with the page URL equal to the direct URL, each with-link form is its direct-link form |
| SwiftLinkFormatter.WrappedImage | macos/SEE/Utilities/LinkFormatter.swift:42-53 | the linked BBCode image is the plain image tag inside a `[url=…]` link |
| SwiftLinkFormatter.BBCodeShapes | macos/SEE/Utilities/LinkFormatter.swift:28-67 | audio and video are bare tags in all three BBCode forms; images are wrapped in the linked forms; other files link the name to the page URL in the with-link form and to the direct URL otherwise |
| SwiftLinkFormatter.AnchoredImage | macos/SEE/Utilities/LinkFormatter.swift:86-97 | the linked HTML image is the plain image tag inside a new-tab anchor |
| SwiftLinkFormatter.HtmlShapes | macos/SEE/Utilities/LinkFormatter.swift:72-111 | the image tag carries `alt` and `title` without a closing slash; the linked forms leave audio and video bare and put images and other files in a new-tab anchor |
| SwiftLinkFormatter.MarkdownShapes | macos/SEE/Utilities/LinkFormatter.swift:116-123 | markdown starts with `!` exactly for images and is the plain link otherwise |
| LinkPlatforms.SameExtension | macos/SEE/Utilities/LinkFormatter.swift:12 | both platforms read the same lower-cased extension from a plain `stem.ext` name |
| LinkPlatforms.ExtensionListsAgree | macos/SEE/Utilities/LinkFormatter.swift:13-20 | the extension lists agree except that only Android lists `3gp`, as a video |
| LinkPlatforms.ThreeGpListed | android/app/src/main/java/s/how/see/util/LinkFormatter.kt:52-54 | `3gp` is in Android's video set and in no macOS list |
| LinkPlatforms.ThreeGpDiffers | macos/SEE/Utilities/LinkFormatter.swift:19-22 | a `.3gp` file is a video on Android and an other file on macOS |
| LinkPlatforms.ClassifiersAgree | macos/SEE/Utilities/LinkFormatter.swift:11-23 | apart from `3gp`, the two classifiers agree on every plain `stem.ext` name |
| LinkPlatforms.SameBBCodeAndMarkdown | macos/SEE/Utilities/LinkFormatter.swift:28-123 | for the same category the BBCode and Markdown templates of both platforms are identical |
| LinkPlatforms.ImageTagDiffers | macos/SEE/Utilities/LinkFormatter.swift:75 | the macOS image tag adds a `title` and drops the closing slash, so it is longer by 7 plus the name's length |
| LinkPlatforms.LinkedMediaDiffers | macos/SEE/Utilities/LinkFormatter.swift:90-107 | in the linked HTML forms Android wraps audio and video in an anchor while macOS leaves the same tag bare |
| LinkPlatforms.LabelsAreRawValues | macos/SEE/Views/Files/FileUploadView.swift:8-17 | Android's labels are the macOS raw values |
| LinkPlatforms.FallbacksDiffer | macos/SEE/Views/Files/FileUploadView.swift:54-61 | with nothing usable stored Android shows the direct link and macOS the share page; an Android name is a macOS raw value only for "HTML" |
| LinkPlatforms.NameIsNoRawValue | macos/SEE/Views/Files/FileUploadView.swift:8-18 | every Android display-type name other than "HTML" parses to no macOS display type |
| ApiClient.DescriptionCarriesMessage | macos/SEE/Services/APIClient.swift:25-45 | a bad-request or network error shows its own message, an unexpected status its server message when there is one, a decoding error keeps the decoder's message after its prefix, and every other error has a non-empty description |
| ApiClient.EndpointTablesAgree | macos/SEE/Services/APIClient.swift:80-117 | an endpoint has a JSON body exactly when its method is not GET and it is not the multipart upload; query items go only with GET and are domain, slug and period in that order |
| ApiClient.BodyIsTheRequest | macos/SEE/Services/APIClient.swift:94-104 | the JSON body of a create, update or delete endpoint is the very request the endpoint was built from |
| ApiClient.SharedPathsDifferInMethod | macos/SEE/Services/APIClient.swift:65-92 | two endpoints sharing the "shorten" or "text" path and the same method are the same operation, so the method alone tells create, update and delete apart |
| ApiClient.DeletePathNamesHash | macos/SEE/Services/APIClient.swift:74 | the file-delete path is the fixed prefix "file/delete/" followed by the file's hash unchanged |
| ApiClient.HandleResponseAccepts | macos/SEE/Services/APIClient.swift:310-339 | a reply is accepted exactly when it is HTTP, its status is not 401 and its body decodes to an envelope coded 200, whatever the HTTP status otherwise is; the envelope is returned unchanged |
| ApiClient.HandleResponseUnauthorized | macos/SEE/Services/APIClient.swift:315-317 | a 401, whether the HTTP status or the envelope's code, always yields the unauthorized error |
| ApiClient.HandleResponseErrors | macos/SEE/Services/APIClient.swift:322-333 | envelope code 400 yields a bad request with the server's message or "Bad request", 500 a server error, and any other non-200 code an unexpected status carrying the code and message |
| ApiClient.NoBodyAccepts | macos/SEE/Services/APIClient.swift:193-243 | a body-less request succeeds exactly when the status is not 401 and either the envelope decodes with code 200 or it does not decode and the HTTP status is below 400 |
| ApiClient.ClassificationsDiffer | macos/SEE/Services/APIClient.swift:229-242 | the two reply checks disagree: envelope codes 400 and 500 are a bad request or server error for a decoding request but an unexpected status for a body-less one, and an undecodable body under a status below 400 fails one and satisfies the other |
| ApiClient.ApiKey | macos/SEE/Services/APIClient.swift:150-155 | the key is returned exactly when one is stored and it is not empty; otherwise the error is "no API key" |
| ApiClient.Prepared | macos/SEE/Services/APIClient.swift:159-184 | the built request has the endpoint's path, query items, method and body, the key as its first (Authorization) header, and a JSON content type exactly when there is a body |
| ApiClient.Send | macos/SEE/Services/APIClient.swift:159-188 | an unparsable base URL, then a missing key, stop the request before anything is sent; otherwise the prepared request is sent, a transport failure becomes a network error with its message, and a reply is classified by handleResponse |
| ApiClient.ValidatedDomains | macos/SEE/Services/APIClient.swift:295-298 | key validation returns exactly when the domains request does: the domain list of the reply, or an empty list when the reply carries no data; an error is passed on unchanged |
| ApiClient.UploadOutcome | macos/SEE/Services/APIClient.swift:286-290 | an upload returns the uploaded file exactly when the accepted envelope carries one; an envelope without data is a decoding error "Missing response data" and an earlier error is passed on |
| ApiClient.MultipartBody | macos/SEE/Services/APIClient.swift:262-279 | the body built by appending to a buffer step by step is the multipart form: file part, domain part when a domain is given, close delimiter |
| ApiClient.AppendFilePart | macos/SEE/Services/APIClient.swift:265-269 | appending delimiter, disposition, content type, the file's bytes and CRLF extends the buffer by exactly the file part |
| ApiClient.AppendDomainPart | macos/SEE/Services/APIClient.swift:271-277 | appending delimiter, disposition, the domain and CRLF extends the buffer by exactly the domain part |
| ApiClient.MultipartFraming | macos/SEE/Services/APIClient.swift:265-279 | the multipart body opens with the boundary delimiter line and ends with the close delimiter line |
| ApiClient.MultipartCarriesFile | macos/SEE/Services/APIClient.swift:265-269 | the file's bytes appear unchanged right after the file part's delimiter and headers |
| ApiClient.MultipartDomainPart | macos/SEE/Services/APIClient.swift:271-277 | the domain part is present exactly when a domain is given, holds the domain's bytes after its delimiter and headers, and is the only difference it makes to the body |
| MacShortLinkViewModel.CreateRequest | macos/SEE/ViewModels/ShortLinkViewModel.swift:64-75 | the create request carries the form's target and domain, each optional text field only when it is not empty, the tags only when some are chosen, and an expiry exactly when expiry is enabled and a date is set |
| MacShortLinkViewModel.BuildRequest | macos/SEE/ViewModels/ShortLinkViewModel.swift:64-75 | the request built field by field, each optional field set only when the form fills it, is the create request the form describes |
| MacShortLinkViewModel.Reset | macos/SEE/ViewModels/ShortLinkViewModel.swift:179-188 | resetting empties every form field but keeps the chosen domain |
| MacShortLinkViewModel.ResetFormSendsBareRequest | macos/SEE/ViewModels/ShortLinkViewModel.swift:179-188 | a create request from a reset form has an empty target, the kept domain and no optional field |
| MacShortLinkViewModel.Populated | macos/SEE/ViewModels/ShortLinkViewModel.swift:169-177 | editing fills the form from the link: expiry is enabled exactly when the link has one, a missing slug reads as empty, and the password and redirect fields are left as they were |
| MacShortLinkViewModel.PopulatedFormRecreatesLink | macos/SEE/ViewModels/ShortLinkViewModel.swift:169-177 | a create request made from a form filled from a link carries the link's target, domain, expiry and tags, and its slug and title when they are not empty |
| MacShortLinkViewModel.VisitCount | macos/SEE/ViewModels/ShortLinkViewModel.swift:148-167 | a visit-stat reply yields a count exactly when it carries data, and then the reply's count |
| MacShortLinkViewModel.StatRequests | macos/SEE/ViewModels/ShortLinkViewModel.swift:148-162 | loadStats asks for the daily, monthly and "totally" counts of the same domain and slug, in that order |
| MacShortLinkViewModel.ShortLinkViewModel.constructor | macos/SEE/ViewModels/ShortLinkViewModel.swift:8-28 | a new ViewModel is idle, with no messages, no domains, an empty form and no visit counts |
| MacShortLinkViewModel.ShortLinkViewModel.LoadDomains | macos/SEE/ViewModels/ShortLinkViewModel.swift:30-40 | a failed fetch shows its error and changes nothing else; a reply replaces the domain list (empty when it has no data); the domain choice changes only when it was empty and the list is not, and then to the saved default or else the first domain |
| MacShortLinkViewModel.ShortLinkViewModel.ResetForm | macos/SEE/ViewModels/ShortLinkViewModel.swift:179-188 | the form becomes the reset form and nothing else changes |
| MacShortLinkViewModel.ShortLinkViewModel.PopulateForm | macos/SEE/ViewModels/ShortLinkViewModel.swift:169-177 | the form becomes the form filled from the link and nothing else changes |
| MacShortLinkViewModel.ShortLinkViewModel.CreateShortLink | macos/SEE/ViewModels/ShortLinkViewModel.swift:51-102 | an empty target, then an invalid one, is refused with its message and nothing is sent; otherwise the form's create request is sent; success exactly when the reply carries data, and then one new link recording the form and reply is appended to the store, the success message set and the form reset; a thrown error is shown and the store is unchanged |
| MacShortLinkViewModel.ShortLinkViewModel.StoreCreated | macos/SEE/ViewModels/ShortLinkViewModel.swift:79-95 | the store gains exactly one new link at its end recording the form and the reply, the success message is set and the form reset |
| MacShortLinkViewModel.ShortLinkViewModel.UpdateShortLink | macos/SEE/ViewModels/ShortLinkViewModel.swift:104-130 | an empty or invalid target is refused and nothing is sent; otherwise the update names the link's domain and slug with the form's target and title, and only a reply that did not throw writes target and title into the link; no other field of the link changes |
| MacShortLinkViewModel.ShortLinkViewModel.ApplyUpdate | macos/SEE/ViewModels/ShortLinkViewModel.swift:110-129 | success exactly when the reply did not throw; then the link takes the form's target and title and the success message is set, otherwise the link is untouched and the error's description is shown; loading ends false; the link's other fields never change |
| MacShortLinkViewModel.ShortLinkViewModel.DeleteShortLink | macos/SEE/ViewModels/ShortLinkViewModel.swift:132-146 | the delete request names the link's domain and slug; on success the stored links become the old ones without that link, the rest in stored order, and the success message is set; on failure the store is unchanged and the error shown |
| MacShortLinkViewModel.ShortLinkViewModel.LoadStats | macos/SEE/ViewModels/ShortLinkViewModel.swift:148-167 | the three counts are requested in order and each reply sets its count; the first thrown error is shown and stops the later requests, so exactly the requests before it and it are sent |
| MacTextShareViewModel.EffectiveTitle | macos/SEE/ViewModels/TextShareViewModel.swift:55 | the title sent is never empty: the form's title when it has one, else "Untitled" |
| MacTextShareViewModel.CreateRequest | macos/SEE/ViewModels/TextShareViewModel.swift:55-68 | the create request carries the content, the effective title, the text type's raw value always, the domain, slug and password only when not empty, the tags only when some are chosen, and an expiry exactly when enabled and set |
| MacTextShareViewModel.BuildRequest | macos/SEE/ViewModels/TextShareViewModel.swift:55-68 | the request built field by field is the create request the form describes |
| MacTextShareViewModel.Reset | macos/SEE/ViewModels/TextShareViewModel.swift:154-163 | resetting empties every form field, sets plain text and keeps the chosen domain |
| MacTextShareViewModel.ResetFormSendsBareRequest | macos/SEE/ViewModels/TextShareViewModel.swift:154-163 | a create request from a reset form is empty plain text titled "Untitled" with only the kept domain |
| MacTextShareViewModel.Populated | macos/SEE/ViewModels/TextShareViewModel.swift:143-152 | editing fills the form from the share; a stored text type that does not parse reads as plain text, expiry is enabled exactly when the share has one, and the password is left as it was |
| MacTextShareViewModel.PopulatedFormKeepsTextType | macos/SEE/ViewModels/TextShareViewModel.swift:143-152 | saving an edited share again sends its own text type when that parses and "plain_text" otherwise, with its content |
| MacTextShareViewModel.RecordedShareDomain | macos/SEE/ViewModels/TextShareViewModel.swift:73-88 | a share created without a domain is stored under "fs.to", the domain the request leaves to the server, and otherwise under the requested domain; its stored type parses back to the form's type |
| MacTextShareViewModel.TextShareViewModel.constructor | macos/SEE/ViewModels/TextShareViewModel.swift:8-23 | a new ViewModel is idle, with no messages, no domains and an empty form |
| MacTextShareViewModel.TextShareViewModel.LoadDomains | macos/SEE/ViewModels/TextShareViewModel.swift:25-35 | a failed fetch shows its error; a reply replaces the domain list; the domain choice changes only when it was empty and the list is not, to the saved default or else the first domain |
| MacTextShareViewModel.TextShareViewModel.ResetForm | macos/SEE/ViewModels/TextShareViewModel.swift:154-163 | the form becomes the reset form and nothing else changes |
| MacTextShareViewModel.TextShareViewModel.PopulateForm | macos/SEE/ViewModels/TextShareViewModel.swift:143-152 | the form becomes the form filled from the share and nothing else changes |
| MacTextShareViewModel.TextShareViewModel.CreateTextShare | macos/SEE/ViewModels/TextShareViewModel.swift:46-96 | empty content is refused with its message and nothing is sent; otherwise the form's create request is sent; success exactly when the reply carries data, and then one new share recording the form and reply is appended, the success message set and the form reset; otherwise the store is unchanged |
| MacTextShareViewModel.TextShareViewModel.StoreCreated | macos/SEE/ViewModels/TextShareViewModel.swift:73-88 | the store gains exactly one new share at its end recording the form and the reply, the success message is set and the form reset |
| MacTextShareViewModel.TextShareViewModel.UpdateTextShare | macos/SEE/ViewModels/TextShareViewModel.swift:98-125 | empty content is refused and nothing is sent; otherwise the update names the share with the form's content and effective title, and only a reply that did not throw writes them into the share; no other field of the share changes |
| MacTextShareViewModel.TextShareViewModel.ApplyUpdate | macos/SEE/ViewModels/TextShareViewModel.swift:104-124 | success exactly when the reply did not throw; then the share takes the form's content and the effective title and the success message is set, otherwise the share is untouched and the error's description is shown; loading ends false; the share's other fields never change |
| MacTextShareViewModel.TextShareViewModel.DeleteTextShare | macos/SEE/ViewModels/TextShareViewModel.swift:127-141 | the delete request names the share's domain and slug; on success the stored shares become the old ones without that share, the rest in stored order; on failure the store is unchanged and the error shown |
| AndroidPreferences.StoredPrefs.BaseUrl | android/app/src/main/java/s/how/see/data/local/preferences/AppPreferences.kt:22-24 | the base URL reads as the stored one, or "https://s.ee/api/v1/" when none was written |
| AndroidPreferences.StoredPrefs.ThemeMode | android/app/src/main/java/s/how/see/data/local/preferences/AppPreferences.kt:38-40 | the theme mode reads as the stored one, or "system" when none was written |
| AndroidPreferences.StoredPrefs.DynamicColor | android/app/src/main/java/s/how/see/data/local/preferences/AppPreferences.kt:42-44 | dynamic colour reads as the stored flag, or on when none was written |
| AndroidPreferences.StoredPrefs.FileLinkDisplayType | android/app/src/main/java/s/how/see/data/local/preferences/AppPreferences.kt:46-48 | the file-link display type reads as the stored one, or "DIRECT_LINK" when none was written |
| AndroidPreferences.EmptyStoreReadsDefaults | android/app/src/main/java/s/how/see/data/local/preferences/AppPreferences.kt:22-48 | a store nothing was written to reads as the four defaults and has no default domain of any kind |
| AndroidPreferences.WrittenKeysReadBack | android/app/src/main/java/s/how/see/data/local/preferences/AppPreferences.kt:50-76 | after a setter writes a key, reading that key gives back the written value whatever was stored before |
| AndroidPreferences.AppPreferences.constructor | android/app/src/main/java/s/how/see/data/local/preferences/AppPreferences.kt:19-21 | a new store holds no key |
| AndroidPreferences.AppPreferences.SetBaseUrl | android/app/src/main/java/s/how/see/data/local/preferences/AppPreferences.kt:50-52 | only the base URL key changes, to the given URL |
| AndroidPreferences.AppPreferences.SetDefaultLinkDomain | android/app/src/main/java/s/how/see/data/local/preferences/AppPreferences.kt:54-56 | only the default link domain changes, to the given domain |
| AndroidPreferences.AppPreferences.SetDefaultTextDomain | android/app/src/main/java/s/how/see/data/local/preferences/AppPreferences.kt:58-60 | only the default text domain changes, to the given domain |
| AndroidPreferences.AppPreferences.SetDefaultFileDomain | android/app/src/main/java/s/how/see/data/local/preferences/AppPreferences.kt:62-64 | only the default file domain changes, to the given domain |
| AndroidPreferences.AppPreferences.SetThemeMode | android/app/src/main/java/s/how/see/data/local/preferences/AppPreferences.kt:66-68 | only the theme mode changes, to the given mode |
| AndroidPreferences.AppPreferences.SetDynamicColor | android/app/src/main/java/s/how/see/data/local/preferences/AppPreferences.kt:70-72 | only the dynamic-colour flag changes, to the given value |
| AndroidPreferences.AppPreferences.SetFileLinkDisplayType | android/app/src/main/java/s/how/see/data/local/preferences/AppPreferences.kt:74-76 | only the file-link display type changes, to the given type |
| AndroidPreferences.SecureStorage.constructor | android/app/src/main/java/s/how/see/data/local/preferences/SecureStorage.kt:12-21 | a new secure store holds no API key |
| AndroidPreferences.SecureStorage.SaveApiKey | android/app/src/main/java/s/how/see/data/local/preferences/SecureStorage.kt:25-27 | the given key is stored and the store reports that it has a key |
| AndroidPreferences.SecureStorage.ClearApiKey | android/app/src/main/java/s/how/see/data/local/preferences/SecureStorage.kt:29-31 | the key is removed and the store reports that it has none |
| AndroidOnboardingViewModel.Overwritten | android/app/src/main/java/s/how/see/ui/onboarding/OnboardingViewModel.kt:43-71 | onboarding's write changes a default domain only when the list was fetched and is not empty, and then to its first domain |
| AndroidOnboardingViewModel.OnboardingViewModel.constructor | android/app/src/main/java/s/how/see/ui/onboarding/OnboardingViewModel.kt:28 | onboarding starts in the idle state |
| AndroidOnboardingViewModel.OnboardingViewModel.VerifyAndContinue | android/app/src/main/java/s/how/see/ui/onboarding/OnboardingViewModel.kt:33-80 | the states published start with Validating; the base URL is saved either way; when the link domains arrive the states are Validating, Verified, Success, the key stays stored and each default domain is overwritten with the first domain of its list, a failed text or file request leaving its default; when they do not, the key is removed, the state is Error with the repository's message and only the base URL changed |
| AndroidOnboardingViewModel.OnboardingViewModel.StoreDefaults | android/app/src/main/java/s/how/see/ui/onboarding/OnboardingViewModel.kt:46-66 | each default domain becomes the first domain of its list when that list arrived non-empty and otherwise keeps its value; no other preference changes |
| AndroidSettingsViewModel.Shown | android/app/src/main/java/s/how/see/ui/settings/SettingsViewModel.kt:31-50 | once the preferences are read, the screen shows each stored value or its default, and the stored default domains |
| AndroidSettingsViewModel.InitialValuesAreStoreDefaults | android/app/src/main/java/s/how/see/ui/settings/SettingsViewModel.kt:31-50 | the values the screen holds before the preferences are read are exactly what an untouched store reads as |
| AndroidSettingsViewModel.FilledIfUnset | android/app/src/main/java/s/how/see/ui/settings/SettingsViewModel.kt:98-100 | a default domain already set is kept; a new one is only ever taken from a successfully fetched list |
| AndroidSettingsViewModel.FillingKeepsChosenDefaults | android/app/src/main/java/s/how/see/ui/settings/SettingsViewModel.kt:93-127 | settings never replaces a chosen default, fills an unset one as onboarding would, a second load leaves a filled default as it is, and where a different default was chosen settings and onboarding disagree |
| AndroidSettingsViewModel.Refreshed | android/app/src/main/java/s/how/see/ui/settings/SettingsViewModel.kt:95-102 | a domain list is replaced by the fetched list exactly when the request succeeded, and otherwise kept |
| AndroidSettingsViewModel.SettingsViewModel.constructor | android/app/src/main/java/s/how/see/ui/settings/SettingsViewModel.kt:29-62 | the screen starts idle with no domain lists, and knows a key exists exactly when one is stored |
| AndroidSettingsViewModel.SettingsViewModel.GetApiKey | android/app/src/main/java/s/how/see/ui/settings/SettingsViewModel.kt:64 | the stored key, or the empty text when none is stored |
| AndroidSettingsViewModel.SettingsViewModel.SaveApiKey | android/app/src/main/java/s/how/see/ui/settings/SettingsViewModel.kt:66-69 | the key is stored, the screen records that a key exists, and nothing else changes |
| AndroidSettingsViewModel.SettingsViewModel.LoadDomains | android/app/src/main/java/s/how/see/ui/settings/SettingsViewModel.kt:93-127 | each of the three lists is refreshed from its own request, each default domain is filled from its list only when unset, and no other preference changes |
| AndroidSettingsViewModel.SettingsViewModel.ValidateApiKey | android/app/src/main/java/s/how/see/ui/settings/SettingsViewModel.kt:71-91 | the key is saved and stays stored, even when it is rejected, because the clean-up branch for a missing key cannot run; the states published are Validating then Valid, with a known key and all three lists and defaults reloaded, when the domains request succeeds, or Validating then Invalid with the repository's message and nothing else changed when it fails |
| AndroidSettingsViewModel.SettingsViewModel.ClearHistory | android/app/src/main/java/s/how/see/ui/settings/SettingsViewModel.kt:157-163 | the short-link, text-share and uploaded-file histories are all left empty and valid |

## Left out

- Compose and SwiftUI screens, navigation and layout (including `FlowLayout` geometry), apart from the computed properties modelled above.
- Tags (`loadTags`, the tags screens) and usage (`getUsage`, storage-size formatting): their screens and ViewModels are not part of this model. Only the `getTags`/`getUsage` endpoint table entries are modelled.
- The network transport (URLSession, Retrofit, OkHttp `chain.proceed`, `AuthInterceptor`): each call's reply is a parameter, either an outcome or a (code, message, data) triple.
- JSON encoding and decoding: a reply is given as already decoded or undecodable.
- Coroutines and `async` run sequentially. The three launches in the Android settings `loadDomains` run in order. The delay between batch deletions is dropped.
- Upload progress: the fractional progress values, the progress callback's intermediate values and the throttling delegate (floating point and a lock). Only the final progress state is modelled.
- Dates: `timeIntervalSince1970` conversions, relative date formatting and file-size formatting. A creation time is an integer parameter and a formatted size is a given string.
- The clipboard, WebP and image conversion, and the pasteboard.
- Persistence: the DataStore, the encrypted shared preferences and the Keychain. They are modelled as stores of optional values with the source's defaults. A disk-cache write in the thumbnail service is taken to succeed.
- Foundation's `isValidURL` and `URL` parsing are given functions or flags. `NSString.pathExtension` is approximated as the text after the last `.` of the last `/` component, with no extension for a dot-file or a trailing dot.
- Case folding is ASCII only: Kotlin `lowercase`, Swift `lowercased` and SQLite `LIKE` fold non-ASCII letters too.
- Room leaves the order of rows with equal `createdAt` unspecified. The model keeps them in stored order.
- The SwiftData `@Query` sort is not modelled. Records are kept in insertion order and the list views take that order as given.
- The Android `stateIn(WhileSubscribed)` flows can hold a stale value or their initial one. The settings `loadDomains` reads the stored preference itself. In the list ViewModels, `allLinks`, `links` and `totalPages` (ShortLinkViewModel.kt), their text-share and file counterparts, and the file ViewModel's `linkDisplayType` are recomputed from the current DAO rows, page and query. So `selectAll`, which reads `links.value`, is modelled as selecting the current page of the current rows, not a value the flow last emitted.
- The macOS ViewModels' form fields are grouped into one `Form` value. Each method still states the whole new form.
- `thumbnailURL`: only its query items are modelled; the URL assembly and the case where `URLComponents` cannot build the URL are not.
- `CachedThumbnailView` calls a thumbnail method the service does not have, so only the service is modelled.
- The Android settings setters (`setBaseUrl`, `setThemeMode` and the rest) only forward to the preference store. They are modelled by the `AppPreferences` setters.
- Pagination.Page: requires a page of at least 1. Swift traps on the slice and Kotlin's `drop` throws on a negative count, so no result is modelled there.
- ListState.DropTake: requires a page of at least 1, for the same reason.
- AndroidShortLinkViewModel.ShortLinkViewModel.Links: requires the current page to be at least 1, for the same reason; so do `SelectAll` and the text-share and file counterparts (`AndroidTextShareViewModel.TextShareViewModel.TextShares`, `AndroidFileViewModel.FileViewModel.Files`).
- MacListViews.ListState.PagedLinks: requires the current page to be at least 1, and so do `MacListViews.ListState.PagedShares` and `FileUploadView.FileUploadScreen.PagedFiles`.
- BaseUrlInterceptor.PathSegments: an escape `%XY` decodes to the one character with code 0xXY. OkHttp decodes escaped bytes at or above 0x80 as UTF-8; the model treats each byte as its own character there.
- BaseUrlInterceptor.Intercept: OkHttp's canonicalisation of a path handed to `encodedPath` is not modelled. That covers re-escaping a space, `?`, `#` or a lone `%`, treating `\` as a separator, and resolving `.` and `..` segments. The new encoded path is the joined segments as given.
- BaseUrlInterceptor.PlaceholderKeepsApiPaths: the read-back after the rewrite is proved only for request paths without `%`. With an escaped `/` or `%` the rewritten path differs from the request (see `BaseUrlInterceptor.EscapedSlashSplits` and `BaseUrlInterceptor.EscapedPercentDecodedAgain`).
- BaseUrlInterceptor.PlaceholderPrefixesOtherPaths: the read-back is proved only for request paths without `%`, for the same reason.
