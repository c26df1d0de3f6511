# Social: document cache resolver and actor cache

This project models two caches of the Social app, which federates with other
ActivityPub servers.

**The document cache resolver** is `DocumentService`. A remote document, such as an image or an attachment, is stored as a row. The row carries:

- the source URL;
- a local copy key (`""` while the document is not cached, `"avatar"` for the live avatar endpoint);
- a MIME type;
- an integer error code: 0 for none, `ERROR_SIZE` = 1, `ERROR_MIMETYPE` = 2;
- the time a running fetch started (`caching`).

`cacheRemoteDocument` is a small state machine over one row:

1. A stored error throws "does not exist".
2. A local copy is served as it is.
3. A fetch started less than `CACHING_TIMEOUT` (5) minutes ago is not repeated.
4. Otherwise the row is marked as caching and the remote fetch runs. Its outcome is recorded through `endCaching`: either the local copy and the MIME type, or error 2 or error 1. Any other content failure records nothing.

Three operations build on it:

- `getFromCache` opens the local copy the resolver returns.
- `manageCacheDocuments` sweeps the documents that are not cached. It skips avatar rows, ignores each item's exception, and counts the items that resolved.
- `cacheLocalAvatarByUsername` reconciles a local user's avatar. If the live avatar version is newer than the actor's cached one, it replaces the document rows of the avatar URL with one avatar row and bumps the actor's version. Otherwise it returns the id of the row already cached for the URL, or `""`.

**The actor cache table** is `CacheActorsRequest`. It supports:

- inserting an actor; the icon id is the attached icon object's id when there is one, and the bare icon-id field otherwise;
- point lookups by id, by account, and by preferred username restricted to local actors, each failing with "does not exist" when no row matches;
- a substring search over accounts;
- the list of remote actors older than `CACHE_TTL` (60·24 minutes), which are due for a refresh;
- deleting by id.

How these are modelled:

- **Classes.** Both services are classes. Their tables are `seq` fields that the methods reassign.
- **Specification functions.** Each method is proved against a function of its inputs and the old state:
  - `Resolve` and `Attempt` for `cacheRemoteDocument`;
  - `Maintain` for the sweep;
  - `Reconcile` for the avatar;
  - `Lookup`, `Select` and `Without` for the actor table.

  The source's promises are lemmas about those functions.
- **Call log.** `DocumentService` keeps a log of the calls it makes on the document table and on the remote fetch. The log records `getById`, `initCaching`, `saveRemoteFileToCache` and `endCaching`, so properties such as "no fetch" and "initCaching before the fetch" can be stated.
- **Parameters.** The remote fetch is a parameter `remote` that maps a URL to one of five outcomes:
  - `Saved(localCopy, mime)`;
  - `MimeTypeRefused(mime)`;
  - `SizeRefused`;
  - `ContentFailure`;
  - `PermissionDenied`, which is a `NotPermittedException` and propagates.

  The clock is the parameter `now`, in seconds. The file store is the parameter `open`.

Modules:

- `Results`: `Option` and `Result`.
- `Entities`: `Document`, `Person` and the details codec.
- `CacheDocuments`: the queries the resolver runs on the document table.
- `DocumentServices`: the resolver.
- `CacheActors`: the actor table.

## Model

| member | source | states |
|---|---|---|
| Entities.DecodeEncode | lib/Db/CacheActorsRequest.php:86 | decoding the encoded details gives back the details |
| CacheActors.FirstMatch | lib/Db/CacheActorsRequest.php:118-126 | the row the cursor's first fetch yields: it matches the query, no earlier row matches, and there is none iff no row matches |
| CacheActors.Lookup | lib/Db/CacheActorsRequest.php:113-127 | a point lookup fails with CacheActorDoesNotExist iff no row matches, and otherwise returns the parse of a matching row |
| CacheActors.Without | lib/Db/CacheActorsRequest.php:230-235 | the rows left after a delete by id are exactly the old rows with another id, and there are no more of them |
| CacheActors.ToRow | lib/Db/CacheActorsRequest.php:66-99 | the row save builds: icon_id is the attached icon's id when gotIcon() holds and the bare icon id otherwise; local is "1" iff the actor is local and "0" iff not; the details decode back to the actor's details; creation is the current time |
| CacheActors.Parse | lib/Db/CacheActorsRequest.php:126 | the parse of a row: local iff the local column is "1"; no icon object, an empty user id and avatar version 0, as the parser assumption under "Left out" says; a row with a well-formed local flag is exactly the row save writes for its parse |
| CacheActors.ContainsIsSubstring | lib/Db/CacheActorsRequest.php:190 | the search predicate assumed for searchInAccount holds iff the search string is a slice of the account at some offset |
| CacheActors.MatchesParsed | lib/Db/CacheActorsRequest.php:113-222 | the WHERE clause of each request, read on the parsed actor: the same id; the same account; local and the same preferred username; an account containing the search; and, for the refresh list, remote and at least CACHE_TTL minutes old |
| CacheActors.Select | lib/Db/CacheActorsRequest.php:188-222 | the results a cursor loop collects: never more than one per row |
| CacheActors.ParseToRow | lib/Db/CacheActorsRequest.php:66-102 | parsing a saved row gives back every persisted field, including the resolved icon id |
| CacheActors.SelectSnoc | lib/Db/CacheActorsRequest.php:196-198 | one more row from the cursor adds its parse after the earlier results exactly when it matches |
| CacheActors.SelectMembers | lib/Db/CacheActorsRequest.php:188-202 | a person is in a selection iff it is the parse of a row that matches the query |
| CacheActors.SelectLength | lib/Db/CacheActorsRequest.php:188-202 | a selection is empty (a list, not an error) iff no row matches |
| CacheActors.RemoteActorsToUpdateAreStale | lib/Db/CacheActorsRequest.php:209-222 | every actor on the refresh list is remote and was created at least CACHE_TTL minutes before now |
| CacheActors.LocalLookupIsLocal | lib/Db/CacheActorsRequest.php:164-180 | a successful local lookup returns a local actor with the requested preferred username |
| CacheActors.AppendUnique | lib/Db/CacheActorsRequest.php:66-102 | inserting a row with a new id keeps the ids of the table unique |
| CacheActors.WithoutUnique | lib/Db/CacheActorsRequest.php:230-235 | deleting rows keeps the ids of the table unique |
| CacheActors.WithoutKeepsOthers | lib/Db/CacheActorsRequest.php:230-235 | after deleting one id, the lookup of every other id returns what it returned before |
| CacheActors.DeletedIsGone | lib/Db/CacheActorsRequest.php:230-235 | after deleting an id, the lookup of that id fails with CacheActorDoesNotExist |
| CacheActors.SaveThenGetFromId | lib/Db/CacheActorsRequest.php:66-127 | inserting an actor with a new id and then looking the id up succeeds and returns every persisted field of the actor |
| CacheActors.CacheActorsRequest.constructor | lib/Db/CacheActorsRequest.php:54-58 | the request works on the table as it stands, whatever rows it holds, provided they are keyed by id |
| CacheActors.CacheActorsRequest.Save | lib/Db/CacheActorsRequest.php:66-102 | the insert succeeds iff no row has the actor's id; on success the table gains exactly the built row, and the lookup of the id returns the persisted fields; otherwise it fails with DuplicateActorId and the table is unchanged; the ids stay unique |
| CacheActors.CacheActorsRequest.FetchOne | lib/Db/CacheActorsRequest.php:118-126 | the first row the cursor yields, parsed, or CacheActorDoesNotExist, as Lookup defines |
| CacheActors.CacheActorsRequest.FetchAll | lib/Db/CacheActorsRequest.php:195-201 | the loop over the cursor collects the parses of the matching rows, in table order, as Select defines |
| CacheActors.CacheActorsRequest.GetFromId | lib/Db/CacheActorsRequest.php:113-127 | fails iff no row has the id; otherwise it returns the parse of the row with that id, which is the only one |
| CacheActors.CacheActorsRequest.GetFromAccount | lib/Db/CacheActorsRequest.php:138-153 | fails iff no row has the account; otherwise it returns the parse of a row with that account |
| CacheActors.CacheActorsRequest.GetFromLocalAccount | lib/Db/CacheActorsRequest.php:164-180 | fails iff no local row has the preferred username; otherwise it returns a local actor with that username, parsed from a matching row |
| CacheActors.CacheActorsRequest.SearchAccounts | lib/Db/CacheActorsRequest.php:188-202 | returns, in cursor order, exactly the parses of the rows whose account contains the search string, with at most one result per row |
| CacheActors.CacheActorsRequest.GetRemoteActorsToUpdate | lib/Db/CacheActorsRequest.php:209-222 | returns only remote actors that are at least CACHE_TTL minutes old, and every such row |
| CacheActors.CacheActorsRequest.DeleteFromId | lib/Db/CacheActorsRequest.php:230-235 | removes every row with the id, keeps every other row in order, and keeps the ids unique |
| CacheDocuments.FindById | lib/Service/DocumentService.php:112 | the row getById finds has the id and is in the table; there is none iff no row has the id |
| CacheDocuments.FindBySource | lib/Service/DocumentService.php:221-224 | the row getBySource finds has the URL and is in the table; there is none iff no row has the URL |
| CacheDocuments.DeleteByUrl | lib/Service/DocumentService.php:214 | the table after deleteByUrl holds exactly the rows with another source URL |
| CacheDocuments.StartCaching | lib/Service/DocumentService.php:126 | initCaching, as assumed under "Left out": no row is added or removed |
| CacheDocuments.StartCachingPointwise | lib/Service/DocumentService.php:126 | initCaching sets the fetch start of the rows with the id to now and leaves every other row as it was |
| CacheDocuments.Ended | lib/Service/DocumentService.php:132-141 | the row endCaching writes carries the document's local copy, MIME type and error, has no fetch running, and keeps every other column of the stored row |
| CacheDocuments.EndCaching | lib/Service/DocumentService.php:132-141 | endCaching, as assumed under "Left out": no row is added or removed |
| CacheDocuments.EndCachingPointwise | lib/Service/DocumentService.php:132-141 | endCaching writes the outcome into the rows with the document's id and leaves every other row as it was |
| CacheDocuments.FindAfterStart | lib/Service/DocumentService.php:126 | after initCaching, the lookup by id finds the same row with the fetch start set to now |
| CacheDocuments.FindAfterEnd | lib/Service/DocumentService.php:132-141 | after endCaching, the lookup by id finds the row carrying the document's local copy, MIME type and error, with no fetch running |
| CacheDocuments.ReplaceBySource | lib/Service/DocumentService.php:214-215 | after deleting the rows of a URL and saving the new icon, the lookup by source finds the new icon |
| DocumentServices.UpdateActor | lib/Service/DocumentService.php:218 | the actors table after update has the same length; the rows with the actor's id are replaced by the actor and all others are kept |
| DocumentServices.Resolve | lib/Service/DocumentService.php:111-146 | the resolution of one document: a missing row throws "does not exist" after the lookup, with nothing changed; a returned document has the requested id and no stored error; the table keeps the number of its rows |
| DocumentServices.Attempt | lib/Service/DocumentService.php:125-145 | the try block: it returns iff the fetch saved the file, and then returns the document with the fetched MIME type and local copy and the same id and error; it throws NotPermitted iff the store refused permission; the table keeps the number of its rows |
| DocumentServices.Maintain | lib/Service/DocumentService.php:170-188 | the whole sweep: it counts at most one success per item, and the table keeps the number of its rows |
| DocumentServices.Reconcile | lib/Service/DocumentService.php:198-228 | the avatar reconciliation: the actor keeps its id and ends with the larger of its cached version and the current version; the actors table keeps its rows |
| DocumentServices.AvatarImage | lib/Service/DocumentService.php:207-212 | the Image saved for a local avatar: the given unique id, the avatar URL and the cloud address, media type "", local copy "avatar", no error |
| DocumentServices.AttemptFrame | lib/Service/DocumentService.php:125-145 | endCaching in the try block leaves every row of another id as it was |
| DocumentServices.ResolveFrame | lib/Service/DocumentService.php:111-146 | resolving one id leaves every row of another id as it was |
| DocumentServices.MaintainFrame | lib/Service/DocumentService.php:170-188 | the sweep leaves every row whose id is not one of its non-avatar items as it was |
| DocumentServices.AttemptCalls | lib/Service/DocumentService.php:128-143 | the try block fetches the URL as its first call, at most endCaching follows, and it fetches exactly once |
| DocumentServices.ResolveLooksUpOnce | lib/Service/DocumentService.php:111-146 | every resolution looks the id up exactly once, as its first call |
| DocumentServices.AtMostOneFetch | lib/Service/DocumentService.php:112-129 | a resolution fetches at most once; it fetches iff the row exists, has no error, has no local copy and no fetch started within the timeout; when it fetches, initCaching comes right before the fetch |
| DocumentServices.StoredErrorThrows | lib/Service/DocumentService.php:112-115 | a stored error throws "does not exist" after the lookup, with no fetch and no change to the table |
| DocumentServices.CacheHitIsServedAsIs | lib/Service/DocumentService.php:117-119 | a row with a local copy is returned as it is, with no initCaching, fetch or endCaching and no change |
| DocumentServices.FetchInFlightIsNotRepeated | lib/Service/DocumentService.php:121-123 | a row whose fetch started after now - CACHING_TIMEOUT*60 is returned as it is, with no fetch and no change |
| DocumentServices.StoredCopyIsServed | lib/Service/DocumentService.php:125-134 | on a successful fetch the calls are getById, initCaching, fetch, endCaching; the document returned has the fetched MIME type and local copy; endCaching has stored them; when the stored copy is not empty, every later resolution serves that row without fetching |
| DocumentServices.RefusedFetchIsFinal | lib/Service/DocumentService.php:135-145 | a MIME violation stores error 2 with the reported MIME type, and a size violation stores error 1. Either way endCaching runs last and the call throws. Every later resolution then throws at once, with no fetch and no change |
| DocumentServices.TransientFailureIsRetried | lib/Service/DocumentService.php:142-145 | any other content failure throws, calls no endCaching, records no error and leaves the fetch start at now. Before the timeout passes, later resolutions fetch nothing; the first one after it fetches again |
| DocumentServices.SweepSkips | lib/Service/DocumentService.php:175-177 | an avatar item is passed over: the sweep state advances without a resolution |
| DocumentServices.SweepResolves | lib/Service/DocumentService.php:179-184 | a non-avatar item is resolved, counted only when it does not throw, and the sweep continues whatever it threw |
| DocumentServices.SweepCountIsBounded | lib/Service/DocumentService.php:170-188 | the sweep's count is at most the number of non-avatar items |
| DocumentServices.SweepVisitsEveryItem | lib/Service/DocumentService.php:174-185 | the sweep looks up every non-avatar item, in order, whatever earlier items threw, and never an avatar item |
| DocumentServices.ReconcileIsIdempotent | lib/Service/DocumentService.php:198-228 | reconciling again with the same current version gives exactly the same outcome: the same icon id (or "" again), the same tables and the same actor |
| DocumentServices.ReconcileOutcome | lib/Service/DocumentService.php:203-227 | a newer version returns the new icon id and sets the actor's version, writing the actor back to the actors table. The rows of the avatar URL become the one avatar row; every other row is kept and no other row appears. Otherwise nothing changes: when a row is cached for the URL, the id returned is that of such a row, and "" when there is none. The version never decreases |
| DocumentServices.DocumentService.constructor | lib/Service/DocumentService.php:88-100 | the service starts over the given tables with no calls made |
| DocumentServices.DocumentService.CacheRemoteDocument | lib/Service/DocumentService.php:111-146 | the result, the document table and the calls are those of Resolve on the old table; the actors table is unchanged |
| DocumentServices.DocumentService.TryFetch | lib/Service/DocumentService.php:125-145 | the result, the document table and the calls of the fetch and its outcome are those of Attempt; the actors table is unchanged |
| DocumentServices.DocumentService.GetFromCache | lib/Service/DocumentService.php:159-163 | resolves as cacheRemoteDocument does; rethrows its exception; otherwise returns the content of the local copy, or fails when the store has no such file |
| DocumentServices.DocumentService.ManageCacheDocuments | lib/Service/DocumentService.php:170-188 | the count, the document table and the calls are those of the Maintain sweep; the count is at most the number of non-avatar items; the ids looked up are exactly the non-avatar items, in order; rows of other ids are left as they were |
| DocumentServices.DocumentService.CacheLocalAvatarByUsername | lib/Service/DocumentService.php:198-228 | tables, actor and returned id follow Reconcile. For a newer version: the avatar rows are deleted and then one avatar row is saved, the actor's version is set and written back, and the new icon id is returned. Otherwise nothing changes and getBySource's id, or "", is returned. The version never decreases and no document call is logged |

## Left out

- The `$public` flag of `cacheRemoteDocument` and `getFromCache`. It only filters the lookup inside `CacheDocumentsRequest`, which is not part of this model.
- `CacheDocumentsRequest` is not part of this model. These behaviours are assumed:
  - `CACHING_TIMEOUT` is 5 minutes;
  - `getById` throws "does not exist" for a missing id;
  - `initCaching` stores the current time in `caching`;
  - `endCaching` writes the local copy, the MIME type and the error, and clears `caching` to 0;
  - `deleteByUrl` and `save` delete and insert rows;
  - `getBySource` returns the first row with the URL.
- `getNotCachedDocuments`: its filter is not part of this model, so the sweep takes the list as the parameter `update`.
- `ActorsRequest.update` is not part of this model. It is taken to replace the rows with the actor's id by the actor.
- A transient content failure: a `CacheContentException` that is neither the MIME nor the size exception. The code calls no `endCaching` then, so the caching marker stays set until the timeout passes. The model follows the code.
- The remote fetch (`saveRemoteFileToCache`) is a parameter that gives the outcome for each URL. The file store (`getContentFromCache`) is a parameter that gives the content for each local copy key; its exceptions are one error value.
- The clock: `time()` and `DateTime('now')` are the parameter `now`. One sweep uses one `now` for all its items.
- URL generation, `generateUniqueId`, `getCloudAddress` and the user's avatar version from the configuration are parameters of `CacheLocalAvatarByUsername`. `SocialAppConfigException` and `UrlCloudException` are not modelled.
- `Image` is modelled as a `Document`; its media type is `""`.
- The JSON encoding of details is an abstract encoder and decoder pair that round-trips.
- The query-builder helpers are not part of this model. These behaviours are assumed:
  - `limitToIdString`, `limitToAccount` and `limitToPreferredUsername` are exact, case-sensitive equality on their column;
  - `limitToLocal` keeps the rows whose `local` column is `'1'` (local) or `'0'` (remote);
  - `searchInAccount` is a case-sensitive substring match;
  - `limitToCreation` keeps rows created at least `CACHE_TTL` minutes before now;
  - `parseCacheActorsSelectSql` parses every stored column and attaches no icon object (the joined icon document and details are not modelled), with an empty user id and avatar version 0.
- The database's uniqueness constraint is modelled only on the actor id. The exception the database raises out of `save` for a repeated id is the error `DuplicateActorId`, and the table is then unchanged.
- Concurrent requests racing on the caching timestamp are not modelled; the model is sequential.
