/**
 * The ActivityPub entities the two caches store: a remote document (an image
 * or attachment) and an actor (a person or service).
 */
module Entities {
  import opened Results

  /** Free-form profile details of an actor. */
  type Details = map<string, string>

  /** The serialised form of `Details` kept in the `details` column. */
  datatype EncodedDetails = Json(fields: Details)

  /** The JSON encoder used when an actor row is written. */
  function EncodeDetails(d: Details): EncodedDetails
  {
    Json(d)
  }

  /** The JSON decoder used when an actor row is parsed. */
  function DecodeDetails(e: EncodedDetails): Details
  {
    e.fields
  }

  lemma DecodeEncode(d: Details)
    ensures DecodeDetails(EncodeDetails(d)) == d
  {
  }

  /**
   * A cached document. `localCopy` is the storage key of the local copy
   * ("" while not cached, "avatar" for the live avatar endpoint), `error` the
   * recorded failure (0: none), `caching` the time the running fetch started.
   */
  datatype Document = Document(
    id: string,
    url: string,
    urlCloud: string,
    mediaType: string,
    mimeType: string,
    localCopy: string,
    error: int,
    caching: int)

  /**
   * An actor. `icon` is an icon document object attached in memory, `iconId`
   * the bare icon id field; `userId` and `avatarVersion` are used for local
   * actors only.
   */
  datatype Person = Person(
    id: string,
    account: string,
    actorType: string,
    local: bool,
    following: string,
    followers: string,
    inbox: string,
    sharedInbox: string,
    outbox: string,
    featured: string,
    url: string,
    preferredUsername: string,
    name: string,
    summary: string,
    publicKey: string,
    source: string,
    details: Details,
    icon: Option<Document>,
    iconId: string,
    creation: int,
    userId: string,
    avatarVersion: int)
  {
    predicate GotIcon()
    {
      icon.Some?
    }
  }
}
