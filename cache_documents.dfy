/**
 * The table of cached documents, as the document service uses it: lookup by
 * id and by source URL, marking a fetch as started and as ended, deleting by
 * source URL and inserting a row. The request class that runs these queries
 * is not part of this model; the table is a sequence of rows in cursor order.
 */
module CacheDocuments {
  import opened Results
  import opened Entities

  /** Minutes after which a started fetch is presumed dead and may be retried. */
  const CACHING_TIMEOUT: int := 5

  /** The first row with id `id`, if any. */
  function FindById(rows: seq<Document>, id: string): (r: Option<Document>)
    ensures r.Some? ==> r.value in rows && r.value.id == id
    ensures r.None? <==> forall d :: d in rows ==> d.id != id
  {
    if rows == [] then None
    else if rows[0].id == id then Some(rows[0])
    else FindById(rows[1..], id)
  }

  /** The first row whose source URL is `url`, if any. */
  function FindBySource(rows: seq<Document>, url: string): (r: Option<Document>)
    ensures r.Some? ==> r.value in rows && r.value.url == url
    ensures r.None? <==> forall d :: d in rows ==> d.url != url
  {
    if rows == [] then None
    else if rows[0].url == url then Some(rows[0])
    else FindBySource(rows[1..], url)
  }

  /** Applies `upd` to every row whose id is `id`. */
  function UpdateById(rows: seq<Document>, id: string, upd: Document -> Document): (r: seq<Document>)
    ensures |r| == |rows|
  {
    if rows == [] then []
    else [if rows[0].id == id then upd(rows[0]) else rows[0]] + UpdateById(rows[1..], id, upd)
  }

  /** initCaching: the rows of the document record `now` as the start of a fetch. */
  function StartCaching(rows: seq<Document>, id: string, now: int): (r: seq<Document>)
    ensures |r| == |rows|
  {
    UpdateById(rows, id, (d: Document) => d.(caching := now))
  }

  /** The row endCaching writes from the in-memory document: its outcome, and no fetch running. */
  function Ended(row: Document, doc: Document): (r: Document)
    ensures r.localCopy == doc.localCopy && r.mimeType == doc.mimeType && r.error == doc.error
    ensures r.caching == 0
    ensures r.(localCopy := row.localCopy, mimeType := row.mimeType, error := row.error, caching := row.caching) == row
  {
    row.(localCopy := doc.localCopy, mimeType := doc.mimeType, error := doc.error, caching := 0)
  }

  /** endCaching: the rows of the document take the outcome of the fetch. */
  function EndCaching(rows: seq<Document>, doc: Document): (r: seq<Document>)
    ensures |r| == |rows|
  {
    UpdateById(rows, doc.id, (row: Document) => Ended(row, doc))
  }

  /** deleteByUrl: the table without the rows whose source URL is `url`. */
  function DeleteByUrl(rows: seq<Document>, url: string): (r: seq<Document>)
    ensures forall d :: d in r <==> d in rows && d.url != url
  {
    if rows == [] then []
    else if rows[0].url == url then DeleteByUrl(rows[1..], url)
    else [rows[0]] + DeleteByUrl(rows[1..], url)
  }

  /** An update by id changes the rows with that id, in place, and no other row. */
  lemma {:induction false} UpdateByIdPointwise(rows: seq<Document>, id: string, upd: Document -> Document)
    ensures forall k :: 0 <= k < |rows| ==>
              UpdateById(rows, id, upd)[k] == if rows[k].id == id then upd(rows[k]) else rows[k]
  {
    if rows != [] {
      UpdateByIdPointwise(rows[1..], id, upd);
      var r := UpdateById(rows, id, upd);
      forall k | 1 <= k < |rows| ensures r[k] == UpdateById(rows[1..], id, upd)[k - 1] && rows[k] == rows[1..][k - 1] {
      }
    }
  }

  /** initCaching sets the fetch start of the rows with the id to `now` and leaves every other row as it was. */
  lemma StartCachingPointwise(rows: seq<Document>, id: string, now: int)
    ensures forall k :: 0 <= k < |rows| ==>
              StartCaching(rows, id, now)[k] == if rows[k].id == id then rows[k].(caching := now) else rows[k]
  {
    UpdateByIdPointwise(rows, id, (d: Document) => d.(caching := now));
  }

  /** endCaching writes the outcome into the rows with the document's id and leaves every other row as it was. */
  lemma EndCachingPointwise(rows: seq<Document>, doc: Document)
    ensures forall k :: 0 <= k < |rows| ==>
              EndCaching(rows, doc)[k] == if rows[k].id == doc.id then Ended(rows[k], doc) else rows[k]
  {
    UpdateByIdPointwise(rows, doc.id, (row: Document) => Ended(row, doc));
  }

  /**
   * An update that keeps the id finds, after the update, the updated version
   * of the row found before it.
   */
  lemma {:induction false} FindAfterUpdate(rows: seq<Document>, id: string, upd: Document -> Document)
    requires forall d :: upd(d).id == d.id
    ensures FindById(UpdateById(rows, id, upd), id) ==
            match FindById(rows, id) case None => None case Some(d) => Some(upd(d))
  {
    if rows != [] {
      var r := UpdateById(rows, id, upd);
      assert r[1..] == UpdateById(rows[1..], id, upd);
      if rows[0].id != id {
        FindAfterUpdate(rows[1..], id, upd);
      }
    }
  }

  /** After initCaching, the lookup by id yields the row with the new start time. */
  lemma FindAfterStart(rows: seq<Document>, id: string, now: int)
    ensures FindById(StartCaching(rows, id, now), id) ==
            match FindById(rows, id) case None => None case Some(d) => Some(d.(caching := now))
  {
    FindAfterUpdate(rows, id, (d: Document) => d.(caching := now));
  }

  /** After endCaching, the lookup by id yields the row carrying the document's outcome. */
  lemma FindAfterEnd(rows: seq<Document>, doc: Document)
    ensures FindById(EndCaching(rows, doc), doc.id) ==
            match FindById(rows, doc.id) case None => None case Some(d) => Some(Ended(d, doc))
  {
    FindAfterUpdate(rows, doc.id, (row: Document) => Ended(row, doc));
  }

  /**
   * Deleting the rows of a URL and then inserting one row for it makes that
   * row the one every later lookup by source finds.
   */
  lemma {:induction false} ReplaceBySource(rows: seq<Document>, icon: Document)
    ensures FindBySource(DeleteByUrl(rows, icon.url) + [icon], icon.url) == Some(icon)
  {
    if rows != [] {
      ReplaceBySource(rows[1..], icon);
      if rows[0].url != icon.url {
        assert ([rows[0]] + DeleteByUrl(rows[1..], icon.url) + [icon])[1..]
            == DeleteByUrl(rows[1..], icon.url) + [icon];
      }
    }
  }
}
