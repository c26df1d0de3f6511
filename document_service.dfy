/**
 * The document service: resolves a cached document (serving the local copy,
 * guarding a fetch in flight, or fetching and validating the remote file),
 * opens a resolved document, sweeps the documents not yet cached, and keeps
 * the cached document of a local avatar in step with the avatar's version.
 *
 * The remote fetch, the file store, the clock, URL generation and unique id
 * generation are parameters.
 */
module DocumentServices {
  import opened Results
  import opened Entities
  import CacheDocuments

  /** Error codes recorded on a document whose fetch was refused. */
  const ERROR_SIZE: int := 1
  const ERROR_MIMETYPE: int := 2

  /** The local copy of a document that always proxies the live avatar. */
  const AVATAR: string := "avatar"

  /** What the remote fetch of a document's URL does. */
  datatype FetchOutcome =
    | Saved(localCopy: string, mime: string)  // stored under `localCopy`, of type `mime`
    | MimeTypeRefused(mime: string)           // CacheContentMimeTypeException, type `mime`
    | SizeRefused                             // CacheContentSizeException
    | ContentFailure                          // any other CacheContentException
    | PermissionDenied                        // NotPermittedException from the file store

  datatype DocumentError = CacheDocumentDoesNotExist | NotPermitted | CacheContentUnavailable

  /** The calls the service makes on the document table and on the remote fetch. */
  datatype Call =
    | GetById(id: string)
    | InitCaching(id: string, at: int)
    | SaveRemoteFileToCache(url: string)
    | EndCaching(doc: Document)

  /** One resolution: its result, the document table after it, and the calls it made. */
  datatype Resolution = Resolution(result: Result<Document, DocumentError>, documents: seq<Document>, calls: seq<Call>)

  /** The resolution of document `id` at time `now` when the remote fetch behaves as `remote`. */
  function Resolve(documents: seq<Document>, id: string, now: int, remote: string -> FetchOutcome): (r: Resolution)
    ensures CacheDocuments.FindById(documents, id).None? ==>
              r == Resolution(Failure(CacheDocumentDoesNotExist), documents, [GetById(id)])
    ensures r.result.Success? ==> r.result.value.id == id && r.result.value.error <= 0
    ensures |r.documents| == |documents|
  {
    var lookup := [GetById(id)];
    match CacheDocuments.FindById(documents, id)
    case None => Resolution(Failure(CacheDocumentDoesNotExist), documents, lookup)
    case Some(d) =>
      if d.error > 0 then Resolution(Failure(CacheDocumentDoesNotExist), documents, lookup)
      else if d.localCopy != "" then Resolution(Success(d), documents, lookup)
      else if d.caching > now - CacheDocuments.CACHING_TIMEOUT * 60 then Resolution(Success(d), documents, lookup)
      else
        var attempt := Attempt(CacheDocuments.StartCaching(documents, d.id, now), d, remote(d.url));
        Resolution(attempt.result, attempt.documents, lookup + [InitCaching(d.id, now)] + attempt.calls)
  }

  /**
   * The fetch of document `d` once initCaching has marked it in `started`,
   * when the remote fetch of its URL does `out`: the outcome recorded through
   * endCaching, or nothing, and what the call returns or throws.
   */
  function Attempt(started: seq<Document>, d: Document, out: FetchOutcome): (a: Resolution)
    ensures a.result.Success? <==> out.Saved?
    ensures a.result.Failure? ==> (a.result.error == NotPermitted <==> out.PermissionDenied?)
    ensures a.result.Success? ==> a.result.value.id == d.id && a.result.value.error == d.error
    ensures a.result.Success? ==> a.result.value.mimeType == out.mime && a.result.value.localCopy == out.localCopy
    ensures |a.documents| == |started|
  {
    var fetch := [SaveRemoteFileToCache(d.url)];
    match out
    case Saved(localCopy, mime) =>
      var done := d.(mimeType := mime, localCopy := localCopy);
      Resolution(Success(done), CacheDocuments.EndCaching(started, done), fetch + [EndCaching(done)])
    case MimeTypeRefused(mime) =>
      var failed := d.(mimeType := mime, error := ERROR_MIMETYPE);
      Resolution(Failure(CacheDocumentDoesNotExist), CacheDocuments.EndCaching(started, failed), fetch + [EndCaching(failed)])
    case SizeRefused =>
      var failed := d.(error := ERROR_SIZE);
      Resolution(Failure(CacheDocumentDoesNotExist), CacheDocuments.EndCaching(started, failed), fetch + [EndCaching(failed)])
    case ContentFailure =>
      Resolution(Failure(CacheDocumentDoesNotExist), started, fetch)
    case PermissionDenied =>
      Resolution(Failure(NotPermitted), started, fetch)
  }

  /** The ids looked up, in order, by a sequence of calls. */
  function LookedUp(calls: seq<Call>): seq<string>
  {
    if calls == [] then []
    else (if calls[0].GetById? then [calls[0].id] else []) + LookedUp(calls[1..])
  }

  /** The number of remote fetches in a sequence of calls. */
  function Fetches(calls: seq<Call>): nat
  {
    if calls == [] then 0
    else (if calls[0].SaveRemoteFileToCache? then 1 else 0) + Fetches(calls[1..])
  }

  /** The ids of the items the sweep processes: every item that is not the live avatar. */
  function NonAvatarIds(update: seq<Document>): seq<string>
  {
    if update == [] then []
    else (if update[0].localCopy == AVATAR then [] else [update[0].id]) + NonAvatarIds(update[1..])
  }

  /** A sweep: how many items resolved without an exception, the table after it, and its calls. */
  datatype SweepOutcome = SweepOutcome(count: nat, documents: seq<Document>, calls: seq<Call>)

  /** The maintenance sweep over `update`, resolving each non-avatar item in turn. */
  function Maintain(documents: seq<Document>, update: seq<Document>, now: int, remote: string -> FetchOutcome): (r: SweepOutcome)
    ensures r.count <= |update|
    ensures |r.documents| == |documents|
    decreases |update|
  {
    if update == [] then SweepOutcome(0, documents, [])
    else if update[0].localCopy == AVATAR then Maintain(documents, update[1..], now, remote)
    else
      var step := Resolve(documents, update[0].id, now, remote);
      var rest := Maintain(step.documents, update[1..], now, remote);
      SweepOutcome(rest.count + (if step.result.Success? then 1 else 0), rest.documents, step.calls + rest.calls)
  }

  /** The document row saved for a local avatar: it always proxies the live avatar. */
  function AvatarImage(id: string, url: string, cloudAddress: string): (r: Document)
    ensures r.id == id && r.url == url && r.urlCloud == cloudAddress
    ensures r.mediaType == "" && r.localCopy == AVATAR && r.error == 0
  {
    Document(id, url, cloudAddress, "", "", AVATAR, 0, 0)
  }

  /** ActorsRequest.update: the actor rows with the actor's id take its new state. */
  function UpdateActor(actors: seq<Person>, actor: Person): (r: seq<Person>)
    ensures |r| == |actors|
    ensures forall k :: 0 <= k < |actors| ==> r[k] == if actors[k].id == actor.id then actor else actors[k]
  {
    if actors == [] then []
    else [if actors[0].id == actor.id then actor else actors[0]] + UpdateActor(actors[1..], actor)
  }

  /** One avatar reconciliation: the icon id returned, both tables after it, and the actor after it. */
  datatype Reconciliation = Reconciliation(iconId: string, documents: seq<Document>, actors: seq<Person>, actor: Person)

  /**
   * The avatar reconciliation of `actor`, whose avatar lives at `url`, when the
   * avatar's current version is `versionCurrent`; `cloudAddress` and `uniqueId`
   * are what the configuration and the id generator supply.
   */
  function Reconcile(documents: seq<Document>, actors: seq<Person>, actor: Person, url: string,
                     versionCurrent: int, cloudAddress: string, uniqueId: string): (r: Reconciliation)
    ensures r.actor.avatarVersion >= actor.avatarVersion && r.actor.avatarVersion >= versionCurrent
    ensures r.actor.avatarVersion == actor.avatarVersion || r.actor.avatarVersion == versionCurrent
    ensures r.actor.id == actor.id && |r.actors| == |actors|
  {
    if versionCurrent > actor.avatarVersion then
      var icon := AvatarImage(uniqueId, url, cloudAddress);
      var bumped := actor.(avatarVersion := versionCurrent);
      Reconciliation(icon.id, CacheDocuments.DeleteByUrl(documents, url) + [icon], UpdateActor(actors, bumped), bumped)
    else
      match CacheDocuments.FindBySource(documents, url)
      case None => Reconciliation("", documents, actors, actor)
      case Some(icon) => Reconciliation(icon.id, documents, actors, actor)
  }

  lemma {:induction false} LookedUpAppend(a: seq<Call>, b: seq<Call>)
    ensures LookedUp(a + b) == LookedUp(a) + LookedUp(b)
  {
    if a != [] {
      assert (a + b)[0] == a[0];
      assert (a + b)[1..] == a[1..] + b;
      LookedUpAppend(a[1..], b);
    } else {
      assert a + b == b;
    }
  }

  lemma {:induction false} FetchesAppend(a: seq<Call>, b: seq<Call>)
    ensures Fetches(a + b) == Fetches(a) + Fetches(b)
  {
    if a != [] {
      assert (a + b)[0] == a[0];
      assert (a + b)[1..] == a[1..] + b;
      FetchesAppend(a[1..], b);
    } else {
      assert a + b == b;
    }
  }

  /** An attempt fetches once, as its first call, and looks nothing up. */
  lemma AttemptCalls(started: seq<Document>, d: Document, out: FetchOutcome)
    ensures var a := Attempt(started, d, out);
            && 1 <= |a.calls| <= 2 && a.calls[0] == SaveRemoteFileToCache(d.url)
            && Fetches(a.calls) == 1 && LookedUp(a.calls) == []
  {
    var a := Attempt(started, d, out);
    assert a.calls[0] == SaveRemoteFileToCache(d.url);
    if |a.calls| == 2 {
      var tail := a.calls[1..];
      assert tail[0].EndCaching? && tail[1..] == [];
      assert Fetches(tail) == 0 && LookedUp(tail) == [];
    } else {
      assert a.calls[1..] == [];
    }
  }

  /** A resolution looks `id` up exactly once, as its first call. */
  lemma ResolveLooksUpOnce(documents: seq<Document>, id: string, now: int, remote: string -> FetchOutcome)
    ensures LookedUp(Resolve(documents, id, now, remote).calls) == [id]
    ensures Resolve(documents, id, now, remote).calls[0] == GetById(id)
  {
    var res := Resolve(documents, id, now, remote);
    assert LookedUp([GetById(id)]) == [id];
    if |res.calls| > 1 {
      var d := CacheDocuments.FindById(documents, id).value;
      var a := Attempt(CacheDocuments.StartCaching(documents, d.id, now), d, remote(d.url));
      AttemptCalls(CacheDocuments.StartCaching(documents, d.id, now), d, remote(d.url));
      assert [InitCaching(d.id, now)][1..] == [];
      LookedUpAppend([GetById(id)], [InitCaching(d.id, now)]);
      LookedUpAppend([GetById(id)] + [InitCaching(d.id, now)], a.calls);
    }
  }

  /**
   * A resolution fetches at most once, and it fetches exactly when the row
   * exists, records no error, has no local copy and no fetch started within
   * CACHING_TIMEOUT minutes; initCaching is the call right before the fetch.
   */
  lemma AtMostOneFetch(documents: seq<Document>, id: string, now: int, remote: string -> FetchOutcome)
    ensures var res := Resolve(documents, id, now, remote);
            Fetches(res.calls) <= 1
    ensures var res := Resolve(documents, id, now, remote);
            Fetches(res.calls) == 1 <==>
              && CacheDocuments.FindById(documents, id).Some?
              && CacheDocuments.FindById(documents, id).value.error <= 0
              && CacheDocuments.FindById(documents, id).value.localCopy == ""
              && CacheDocuments.FindById(documents, id).value.caching <= now - CacheDocuments.CACHING_TIMEOUT * 60
    ensures var res := Resolve(documents, id, now, remote);
            Fetches(res.calls) == 1 ==> |res.calls| >= 3 && res.calls[1] == InitCaching(id, now) && res.calls[2].SaveRemoteFileToCache?
  {
    var res := Resolve(documents, id, now, remote);
    assert Fetches([GetById(id)]) == 0;
    if |res.calls| > 1 {
      var d := CacheDocuments.FindById(documents, id).value;
      var a := Attempt(CacheDocuments.StartCaching(documents, d.id, now), d, remote(d.url));
      AttemptCalls(CacheDocuments.StartCaching(documents, d.id, now), d, remote(d.url));
      var before := [GetById(id), InitCaching(d.id, now)];
      assert before[1..][1..] == [];
      assert Fetches(before) == 0;
      assert res.calls == before + a.calls;
      FetchesAppend(before, a.calls);
    }
  }

  /** The try block writes only the rows of the fetched document. */
  lemma AttemptFrame(started: seq<Document>, d: Document, out: FetchOutcome)
    ensures forall k :: 0 <= k < |started| && started[k].id != d.id ==>
              Attempt(started, d, out).documents[k] == started[k]
  {
    match out
    case Saved(localCopy, mime) =>
      CacheDocuments.EndCachingPointwise(started, d.(mimeType := mime, localCopy := localCopy));
    case MimeTypeRefused(mime) =>
      CacheDocuments.EndCachingPointwise(started, d.(mimeType := mime, error := ERROR_MIMETYPE));
    case SizeRefused =>
      CacheDocuments.EndCachingPointwise(started, d.(error := ERROR_SIZE));
    case ContentFailure =>
    case PermissionDenied =>
  }

  /** Resolving `id` leaves every row of another id as it was. */
  lemma ResolveFrame(documents: seq<Document>, id: string, now: int, remote: string -> FetchOutcome)
    ensures forall k :: 0 <= k < |documents| && documents[k].id != id ==>
              Resolve(documents, id, now, remote).documents[k] == documents[k]
  {
    var found := CacheDocuments.FindById(documents, id);
    if found.Some? {
      var d := found.value;
      CacheDocuments.StartCachingPointwise(documents, d.id, now);
      AttemptFrame(CacheDocuments.StartCaching(documents, d.id, now), d, remote(d.url));
    }
  }

  /** The sweep leaves every row whose id is not one of the items it resolves as it was. */
  lemma {:induction false} MaintainFrame(documents: seq<Document>, update: seq<Document>, now: int, remote: string -> FetchOutcome)
    ensures forall k :: 0 <= k < |documents| && documents[k].id !in NonAvatarIds(update) ==>
              Maintain(documents, update, now, remote).documents[k] == documents[k]
    decreases |update|
  {
    if update != [] {
      if update[0].localCopy == AVATAR {
        MaintainFrame(documents, update[1..], now, remote);
      } else {
        var step := Resolve(documents, update[0].id, now, remote);
        ResolveFrame(documents, update[0].id, now, remote);
        MaintainFrame(step.documents, update[1..], now, remote);
        forall k | 0 <= k < |documents| && documents[k].id !in NonAvatarIds(update)
          ensures Maintain(documents, update, now, remote).documents[k] == documents[k]
        {
          assert documents[k].id != update[0].id && documents[k].id !in NonAvatarIds(update[1..]);
          assert step.documents[k] == documents[k];
        }
      }
    }
  }

  /** A stored error makes every resolution throw at once, without a fetch or a change. */
  lemma StoredErrorThrows(documents: seq<Document>, id: string, now: int, remote: string -> FetchOutcome)
    requires CacheDocuments.FindById(documents, id).Some?
    requires CacheDocuments.FindById(documents, id).value.error > 0
    ensures Resolve(documents, id, now, remote) == Resolution(Failure(CacheDocumentDoesNotExist), documents, [GetById(id)])
  {
  }

  /** A document with a local copy (and no stored error) is served as it is, without a fetch. */
  lemma CacheHitIsServedAsIs(documents: seq<Document>, id: string, now: int, remote: string -> FetchOutcome)
    requires CacheDocuments.FindById(documents, id).Some?
    requires CacheDocuments.FindById(documents, id).value.error <= 0
    requires CacheDocuments.FindById(documents, id).value.localCopy != ""
    ensures Resolve(documents, id, now, remote) ==
            Resolution(Success(CacheDocuments.FindById(documents, id).value), documents, [GetById(id)])
  {
  }

  /** A fetch started less than CACHING_TIMEOUT minutes ago is not started again. */
  lemma FetchInFlightIsNotRepeated(documents: seq<Document>, id: string, now: int, remote: string -> FetchOutcome)
    requires CacheDocuments.FindById(documents, id).Some?
    requires CacheDocuments.FindById(documents, id).value.error <= 0
    requires CacheDocuments.FindById(documents, id).value.localCopy == ""
    requires CacheDocuments.FindById(documents, id).value.caching > now - CacheDocuments.CACHING_TIMEOUT * 60
    ensures Resolve(documents, id, now, remote) ==
            Resolution(Success(CacheDocuments.FindById(documents, id).value), documents, [GetById(id)])
  {
  }

  /** The document an attempt works on: the row exists and passed every guard at time `now`. */
  ghost predicate Attempted(documents: seq<Document>, id: string, now: int)
  {
    && CacheDocuments.FindById(documents, id).Some?
    && CacheDocuments.FindById(documents, id).value.error <= 0
    && CacheDocuments.FindById(documents, id).value.localCopy == ""
    && CacheDocuments.FindById(documents, id).value.caching <= now - CacheDocuments.CACHING_TIMEOUT * 60
  }

  /**
   * A successful fetch returns the document with the fetched type and local
   * copy, and endCaching has stored them; from then on, when the copy is
   * not empty, every resolution serves it without fetching again.
   */
  lemma {:induction false} StoredCopyIsServed(documents: seq<Document>, id: string, now: int, remote: string -> FetchOutcome,
                                              now2: int, remote2: string -> FetchOutcome)
    requires Attempted(documents, id, now)
    requires remote(CacheDocuments.FindById(documents, id).value.url).Saved?
    ensures var d := CacheDocuments.FindById(documents, id).value;
            var out := remote(d.url);
            var first := Resolve(documents, id, now, remote);
            && first.result == Success(d.(mimeType := out.mime, localCopy := out.localCopy))
            && first.calls == [GetById(id), InitCaching(id, now), SaveRemoteFileToCache(d.url), EndCaching(first.result.value)]
            && CacheDocuments.FindById(first.documents, id) == Some(first.result.value.(caching := 0))
            && (out.localCopy != "" ==>
                  Resolve(first.documents, id, now2, remote2) ==
                  Resolution(Success(first.result.value.(caching := 0)), first.documents, [GetById(id)]))
  {
    var d := CacheDocuments.FindById(documents, id).value;
    var out := remote(d.url);
    var done := d.(mimeType := out.mime, localCopy := out.localCopy);
    CacheDocuments.FindAfterStart(documents, id, now);
    CacheDocuments.FindAfterEnd(CacheDocuments.StartCaching(documents, id, now), done);
  }

  /**
   * A refused fetch (MIME type or size) records error 2 or 1 through
   * endCaching and throws; from then on every resolution throws at once,
   * without a fetch and without a change.
   */
  lemma {:induction false} RefusedFetchIsFinal(documents: seq<Document>, id: string, now: int, remote: string -> FetchOutcome,
                                               now2: int, remote2: string -> FetchOutcome)
    requires Attempted(documents, id, now)
    requires remote(CacheDocuments.FindById(documents, id).value.url).MimeTypeRefused?
          || remote(CacheDocuments.FindById(documents, id).value.url).SizeRefused?
    ensures var d := CacheDocuments.FindById(documents, id).value;
            var out := remote(d.url);
            var first := Resolve(documents, id, now, remote);
            && first.result == Failure(CacheDocumentDoesNotExist)
            && |first.calls| == 4 && first.calls[3].EndCaching?
            && CacheDocuments.FindById(first.documents, id).Some?
            && CacheDocuments.FindById(first.documents, id).value.error ==
               (if out.MimeTypeRefused? then ERROR_MIMETYPE else ERROR_SIZE)
            && (out.MimeTypeRefused? ==> CacheDocuments.FindById(first.documents, id).value.mimeType == out.mime)
            && CacheDocuments.FindById(first.documents, id).value.caching == 0
            && Resolve(first.documents, id, now2, remote2) ==
               Resolution(Failure(CacheDocumentDoesNotExist), first.documents, [GetById(id)])
  {
    var d := CacheDocuments.FindById(documents, id).value;
    var out := remote(d.url);
    var failed := if out.MimeTypeRefused? then d.(mimeType := out.mime, error := ERROR_MIMETYPE) else d.(error := ERROR_SIZE);
    CacheDocuments.FindAfterStart(documents, id, now);
    CacheDocuments.FindAfterEnd(CacheDocuments.StartCaching(documents, id, now), failed);
  }

  /**
   * Any other content failure records nothing and leaves the fetch marked as
   * started at `now`: resolutions before the timeout has passed serve the row
   * without fetching, and the first one after it fetches again.
   */
  lemma {:induction false} TransientFailureIsRetried(documents: seq<Document>, id: string, now: int, remote: string -> FetchOutcome,
                                                     now2: int, remote2: string -> FetchOutcome)
    requires Attempted(documents, id, now)
    requires remote(CacheDocuments.FindById(documents, id).value.url).ContentFailure?
    ensures var d := CacheDocuments.FindById(documents, id).value;
            var first := Resolve(documents, id, now, remote);
            && first.result == Failure(CacheDocumentDoesNotExist)
            && first.calls == [GetById(id), InitCaching(id, now), SaveRemoteFileToCache(d.url)]
            && CacheDocuments.FindById(first.documents, id) == Some(d.(caching := now))
            && (now2 < now + CacheDocuments.CACHING_TIMEOUT * 60 ==>
                  Resolve(first.documents, id, now2, remote2) ==
                  Resolution(Success(d.(caching := now)), first.documents, [GetById(id)]))
            && (now2 >= now + CacheDocuments.CACHING_TIMEOUT * 60 ==>
                  Fetches(Resolve(first.documents, id, now2, remote2).calls) == 1)
  {
    var d := CacheDocuments.FindById(documents, id).value;
    CacheDocuments.FindAfterStart(documents, id, now);
    var first := Resolve(documents, id, now, remote);
    AtMostOneFetch(first.documents, id, now2, remote2);
  }

  /**
   * The sweep has processed `update[..i]`: what it has counted, the table and
   * the calls so far, completed by a sweep of `update[i..]`, give the whole sweep.
   */
  ghost predicate SweepProgress(update: seq<Document>, i: nat, count: nat, documents: seq<Document>, calls: seq<Call>,
                                now: int, remote: string -> FetchOutcome, callsStart: seq<Call>, total: SweepOutcome)
  {
    && i <= |update|
    && var rest := Maintain(documents, update[i..], now, remote);
    && count + rest.count == total.count
    && rest.documents == total.documents
    && calls + rest.calls == callsStart + total.calls
  }

  /** The sweep passes over an avatar item. */
  lemma SweepSkips(update: seq<Document>, i: nat, count: nat, documents: seq<Document>, calls: seq<Call>,
                   now: int, remote: string -> FetchOutcome, callsStart: seq<Call>, total: SweepOutcome)
    requires i < |update| && update[i].localCopy == AVATAR
    requires SweepProgress(update, i, count, documents, calls, now, remote, callsStart, total)
    ensures SweepProgress(update, i + 1, count, documents, calls, now, remote, callsStart, total)
  {
    assert update[i..][1..] == update[i + 1..];
  }

  /** The sweep resolves a non-avatar item and counts it when it resolved. */
  lemma SweepResolves(update: seq<Document>, i: nat, count: nat, documents: seq<Document>, calls: seq<Call>,
                      now: int, remote: string -> FetchOutcome, callsStart: seq<Call>, total: SweepOutcome)
    requires i < |update| && update[i].localCopy != AVATAR
    requires SweepProgress(update, i, count, documents, calls, now, remote, callsStart, total)
    ensures var step := Resolve(documents, update[i].id, now, remote);
            SweepProgress(update, i + 1, count + (if step.result.Success? then 1 else 0), step.documents,
                          calls + step.calls, now, remote, callsStart, total)
  {
    assert update[i..][0] == update[i];
    assert update[i..][1..] == update[i + 1..];
    var step := Resolve(documents, update[i].id, now, remote);
    var rest := Maintain(step.documents, update[i + 1..], now, remote);
    assert calls + step.calls + rest.calls == calls + (step.calls + rest.calls);
  }

  /** The sweep counts at most one success per non-avatar item. */
  lemma {:induction false} SweepCountIsBounded(documents: seq<Document>, update: seq<Document>, now: int, remote: string -> FetchOutcome)
    ensures Maintain(documents, update, now, remote).count <= |NonAvatarIds(update)|
    decreases |update|
  {
    if update != [] {
      if update[0].localCopy == AVATAR {
        SweepCountIsBounded(documents, update[1..], now, remote);
      } else {
        SweepCountIsBounded(Resolve(documents, update[0].id, now, remote).documents, update[1..], now, remote);
      }
    }
  }

  /**
   * The sweep looks up every non-avatar item, in order, whatever earlier items
   * threw, and never looks up an avatar item.
   */
  lemma {:induction false} SweepVisitsEveryItem(documents: seq<Document>, update: seq<Document>, now: int, remote: string -> FetchOutcome)
    ensures LookedUp(Maintain(documents, update, now, remote).calls) == NonAvatarIds(update)
    decreases |update|
  {
    if update != [] {
      if update[0].localCopy == AVATAR {
        SweepVisitsEveryItem(documents, update[1..], now, remote);
      } else {
        var step := Resolve(documents, update[0].id, now, remote);
        SweepVisitsEveryItem(step.documents, update[1..], now, remote);
        ResolveLooksUpOnce(documents, update[0].id, now, remote);
        LookedUpAppend(step.calls, Maintain(step.documents, update[1..], now, remote).calls);
      }
    }
  }

  /**
   * Reconciling the avatar a second time with the same current version
   * returns the same icon id, or "" again, and changes nothing.
   */
  lemma ReconcileIsIdempotent(documents: seq<Document>, actors: seq<Person>, actor: Person, url: string,
                              versionCurrent: int, cloudAddress: string, uniqueId: string, uniqueId2: string)
    ensures var first := Reconcile(documents, actors, actor, url, versionCurrent, cloudAddress, uniqueId);
            var second := Reconcile(first.documents, first.actors, first.actor, url, versionCurrent, cloudAddress, uniqueId2);
            second == first
  {
    if versionCurrent > actor.avatarVersion {
      CacheDocuments.ReplaceBySource(documents, AvatarImage(uniqueId, url, cloudAddress));
    }
  }

  /**
   * A newer avatar version replaces every cached row of the avatar URL by a
   * single avatar row, keeps every other row and adds none, and writes the
   * actor back with the new version; otherwise nothing changes and the id of
   * a row cached for the URL is returned, or "" when there is none.
   * The actor's version never decreases.
   */
  lemma ReconcileOutcome(documents: seq<Document>, actors: seq<Person>, actor: Person, url: string,
                         versionCurrent: int, cloudAddress: string, uniqueId: string)
    ensures var r := Reconcile(documents, actors, actor, url, versionCurrent, cloudAddress, uniqueId);
            r.actor.avatarVersion >= actor.avatarVersion
            && r.actor.avatarVersion >= versionCurrent
    ensures var r := Reconcile(documents, actors, actor, url, versionCurrent, cloudAddress, uniqueId);
            versionCurrent > actor.avatarVersion ==>
              && r.iconId == uniqueId
              && r.actor.avatarVersion == versionCurrent
              && r.actor == actor.(avatarVersion := versionCurrent)
              && r.actors == UpdateActor(actors, r.actor)
              && CacheDocuments.FindBySource(r.documents, url) == Some(AvatarImage(uniqueId, url, cloudAddress))
              && (forall d :: d in r.documents && d.url == url ==> d == AvatarImage(uniqueId, url, cloudAddress))
              && (forall d :: d in documents && d.url != url ==> d in r.documents)
              && (forall d :: d in r.documents ==>
                    (d in documents && d.url != url) || d == AvatarImage(uniqueId, url, cloudAddress))
    ensures var r := Reconcile(documents, actors, actor, url, versionCurrent, cloudAddress, uniqueId);
            versionCurrent <= actor.avatarVersion ==>
              && r.documents == documents && r.actors == actors && r.actor == actor
              && (r.iconId != "" ==> exists d :: d in documents && d.url == url && d.id == r.iconId)
              && ((exists d :: d in documents && d.url == url) ==>
                    exists d :: d in documents && d.url == url && d.id == r.iconId)
              && ((forall d :: d in documents ==> d.url != url) ==> r.iconId == "")
  {
    if versionCurrent > actor.avatarVersion {
      CacheDocuments.ReplaceBySource(documents, AvatarImage(uniqueId, url, cloudAddress));
    }
  }

  /**
   * The service and the tables it uses: the cached documents table, the
   * actors table, and the calls it has made on the document table and on the
   * remote fetch, in order.
   */
  class DocumentService {
    var documents: seq<Document>
    var actors: seq<Person>
    var calls: seq<Call>

    constructor (documents: seq<Document>, actors: seq<Person>)
      ensures this.documents == documents && this.actors == actors && calls == []
    {
      this.documents := documents;
      this.actors := actors;
      calls := [];
    }

    /** cacheRemoteDocument: resolves document `id` at time `now` against the remote `remote`. */
    method CacheRemoteDocument(id: string, now: int, remote: string -> FetchOutcome)
      returns (r: Result<Document, DocumentError>)
      modifies this
      ensures r == Resolve(old(documents), id, now, remote).result
      ensures documents == Resolve(old(documents), id, now, remote).documents
      ensures calls == old(calls) + Resolve(old(documents), id, now, remote).calls
      ensures actors == old(actors)
    {
      calls := calls + [GetById(id)];
      var found := CacheDocuments.FindById(documents, id);
      if found.None? {
        return Failure(CacheDocumentDoesNotExist);
      }
      var document := found.value;
      if document.error > 0 {
        return Failure(CacheDocumentDoesNotExist);
      }
      if document.localCopy != "" {
        return Success(document);
      }
      if document.caching > now - CacheDocuments.CACHING_TIMEOUT * 60 {
        return Success(document);
      }

      documents := CacheDocuments.StartCaching(documents, document.id, now);
      calls := calls + [InitCaching(document.id, now)];
      r := TryFetch(document, remote);
    }

    /**
     * The try block of cacheRemoteDocument: fetches the URL of `document`,
     * stores the outcome through endCaching and returns or throws.
     */
    method TryFetch(document: Document, remote: string -> FetchOutcome) returns (r: Result<Document, DocumentError>)
      modifies this
      ensures r == Attempt(old(documents), document, remote(document.url)).result
      ensures documents == Attempt(old(documents), document, remote(document.url)).documents
      ensures calls == old(calls) + Attempt(old(documents), document, remote(document.url)).calls
      ensures actors == old(actors)
    {
      var mime := "";
      calls := calls + [SaveRemoteFileToCache(document.url)];
      var document := document;
      match remote(document.url) {
        case Saved(localCopy, fetchedMime) =>
          mime := fetchedMime;
          document := document.(mimeType := mime, localCopy := localCopy);
          documents := CacheDocuments.EndCaching(documents, document);
          calls := calls + [EndCaching(document)];
          return Success(document);
        case MimeTypeRefused(fetchedMime) =>
          mime := fetchedMime;
          document := document.(mimeType := mime, error := ERROR_MIMETYPE);
          documents := CacheDocuments.EndCaching(documents, document);
          calls := calls + [EndCaching(document)];
        case SizeRefused =>
          document := document.(error := ERROR_SIZE);
          documents := CacheDocuments.EndCaching(documents, document);
          calls := calls + [EndCaching(document)];
        case ContentFailure =>
        case PermissionDenied =>
          return Failure(NotPermitted);
      }
      r := Failure(CacheDocumentDoesNotExist);
    }

    /**
     * getFromCache: resolves the document, then opens its local copy in the
     * file store `open` (None: the store has no such file).
     */
    method GetFromCache(id: string, now: int, remote: string -> FetchOutcome, open: string -> Option<seq<bv8>>)
      returns (r: Result<seq<bv8>, DocumentError>)
      modifies this
      ensures var res := Resolve(old(documents), id, now, remote);
              && documents == res.documents && calls == old(calls) + res.calls && actors == old(actors)
              && (res.result.Failure? ==> r == Failure(res.result.error))
              && (res.result.Success? && open(res.result.value.localCopy).Some? ==>
                    r == Success(open(res.result.value.localCopy).value))
              && (res.result.Success? && open(res.result.value.localCopy).None? ==>
                    r == Failure(CacheContentUnavailable))
    {
      var document := CacheRemoteDocument(id, now, remote);
      if document.Failure? {
        return Failure(document.error);
      }
      var content := open(document.value.localCopy);
      if content.None? {
        return Failure(CacheContentUnavailable);
      }
      r := Success(content.value);
    }

    /**
     * manageCacheDocuments: resolves every item of `update` (the documents the
     * table reports as not cached) but the avatar ones, ignores what each one
     * throws, and counts the ones that resolved.
     */
    method ManageCacheDocuments(update: seq<Document>, now: int, remote: string -> FetchOutcome)
      returns (count: nat)
      modifies this
      ensures count == Maintain(old(documents), update, now, remote).count
      ensures documents == Maintain(old(documents), update, now, remote).documents
      ensures calls == old(calls) + Maintain(old(documents), update, now, remote).calls
      ensures actors == old(actors)
      ensures count <= |NonAvatarIds(update)|
      ensures LookedUp(calls) == LookedUp(old(calls)) + NonAvatarIds(update)
      ensures forall k :: 0 <= k < |old(documents)| && old(documents)[k].id !in NonAvatarIds(update) ==>
                documents[k] == old(documents)[k]
    {
      ghost var total := Maintain(documents, update, now, remote);
      count := 0;
      var i := 0;
      while i < |update|
        invariant i <= |update|
        invariant SweepProgress(update, i, count, documents, calls, now, remote, old(calls), total)
        invariant actors == old(actors)
      {
        var item := update[i];
        if item.localCopy == AVATAR {
          SweepSkips(update, i, count, documents, calls, now, remote, old(calls), total);
          i := i + 1;
          continue;
        }
        ghost var documentsBefore, callsBefore := documents, calls;
        var r := CacheRemoteDocument(item.id, now, remote);
        SweepResolves(update, i, count, documentsBefore, callsBefore, now, remote, old(calls), total);
        if r.Success? {
          count := count + 1;
        }
        i := i + 1;
      }
      assert update[i..] == [];
      SweepCountIsBounded(old(documents), update, now, remote);
      SweepVisitsEveryItem(old(documents), update, now, remote);
      LookedUpAppend(old(calls), total.calls);
      MaintainFrame(old(documents), update, now, remote);
    }

    /**
     * cacheLocalAvatarByUsername: `avatarUrl` gives the avatar URL of a user,
     * `versionCurrent` is the user's current avatar version, `cloudAddress` and
     * `uniqueId` are what the configuration and the id generator supply.
     * Returns the icon id and the actor as the call leaves it.
     */
    method CacheLocalAvatarByUsername(actor: Person, avatarUrl: string -> string, versionCurrent: int,
                                      cloudAddress: string, uniqueId: string)
      returns (iconId: string, actor': Person)
      modifies this
      ensures var rec := Reconcile(old(documents), old(actors), actor, avatarUrl(actor.userId),
                                   versionCurrent, cloudAddress, uniqueId);
              iconId == rec.iconId && documents == rec.documents && actors == rec.actors && actor' == rec.actor
      ensures versionCurrent > actor.avatarVersion ==>
                && documents == CacheDocuments.DeleteByUrl(old(documents), avatarUrl(actor.userId))
                                + [AvatarImage(uniqueId, avatarUrl(actor.userId), cloudAddress)]
                && actor' == actor.(avatarVersion := versionCurrent)
                && actors == UpdateActor(old(actors), actor')
                && iconId == uniqueId
      ensures versionCurrent <= actor.avatarVersion ==>
                && documents == old(documents) && actors == old(actors) && actor' == actor
                && iconId == (match CacheDocuments.FindBySource(documents, avatarUrl(actor.userId))
                              case None => "" case Some(icon) => icon.id)
      ensures actor'.avatarVersion >= actor.avatarVersion
      ensures calls == old(calls)
    {
      var url := avatarUrl(actor.userId);
      var versionCached := actor.avatarVersion;
      actor' := actor;
      if versionCurrent > versionCached {
        var icon := AvatarImage(uniqueId, url, cloudAddress);
        documents := CacheDocuments.DeleteByUrl(documents, icon.url);
        documents := documents + [icon];
        actor' := actor'.(avatarVersion := versionCurrent);
        actors := UpdateActor(actors, actor');
        iconId := icon.id;
      } else {
        var icon := CacheDocuments.FindBySource(documents, url);
        if icon.None? {
          return "", actor';
        }
        iconId := icon.value.id;
      }
    }
  }
}
