/**
 * The table of cached actors and the requests run against it: insert,
 * point lookups by id, account and local preferred username, a search over
 * accounts, the list of remote actors due for a refresh, and delete by id.
 */
module CacheActors {
  import opened Results
  import opened Entities

  /** Age, in minutes, after which a cached remote actor is refreshed (one day). */
  const CACHE_TTL: int := 60 * 24

  /** One row of the cached actors table, as `save` writes it. */
  datatype ActorRow = ActorRow(
    id: string,
    account: string,
    actorType: string,
    local: string,
    following: string,
    followers: string,
    inbox: string,
    sharedInbox: string,
    outbox: string,
    featured: string,
    url: string,
    preferredUsername: string,
    name: string,
    summary: string,
    publicKey: string,
    source: string,
    details: EncodedDetails,
    creation: int,
    iconId: string)

  /**
   * CacheActorDoesNotExist: a lookup found no row. DuplicateActorId: the
   * database refused an insert that repeats a cached actor id.
   */
  datatype ActorError = CacheActorDoesNotExist | DuplicateActorId

  /** The icon id an actor row receives: an attached icon object wins over the bare field. */
  function IconIdOf(a: Person): string
  {
    if a.GotIcon() then a.icon.value.id else a.iconId
  }

  /**
   * The row `save` builds from an actor at time `now` (seconds): the icon id
   * resolved from the attached icon when there is one, the local flag as "1"
   * or "0", the details encoded, and the creation time.
   */
  function ToRow(a: Person, now: int): (r: ActorRow)
    ensures a.GotIcon() ==> r.iconId == a.icon.value.id
    ensures !a.GotIcon() ==> r.iconId == a.iconId
    ensures r.local == "1" <==> a.local
    ensures r.local == "0" <==> !a.local
    ensures DecodeDetails(r.details) == a.details
    ensures r.creation == now
  {
    DecodeEncode(a.details);
    ActorRow(a.id, a.account, a.actorType, if a.local then "1" else "0",
             a.following, a.followers, a.inbox, a.sharedInbox, a.outbox,
             a.featured, a.url, a.preferredUsername, a.name, a.summary,
             a.publicKey, a.source, EncodeDetails(a.details), now, IconIdOf(a))
  }

  /**
   * The actor a selected row is parsed into. The icon document joined to the
   * row is not part of this model, so no icon object is attached, and the
   * user id and avatar version are not columns of this table. A row with a
   * well-formed local flag is what `save` would write for its parse.
   */
  function Parse(row: ActorRow): (p: Person)
    ensures p.local <==> row.local == "1"
    ensures p.icon.None? && p.userId == "" && p.avatarVersion == 0
    ensures row.local == "1" || row.local == "0" ==> ToRow(p, row.creation) == row
  {
    Person(row.id, row.account, row.actorType, row.local == "1",
           row.following, row.followers, row.inbox, row.sharedInbox, row.outbox,
           row.featured, row.url, row.preferredUsername, row.name, row.summary,
           row.publicKey, row.source, DecodeDetails(row.details), None,
           row.iconId, row.creation, "", 0)
  }

  /** True iff `t` occurs as a contiguous part of `s`. */
  predicate Contains(s: string, t: string)
    decreases |s|
  {
    t <= s || (|s| > 0 && Contains(s[1..], t))
  }

  /** `t` is the slice of `s` that starts at offset `i`. */
  predicate OccursAt(s: string, t: string, i: int)
  {
    0 <= i <= |s| - |t| && s[i..i + |t|] == t
  }

  /** `Contains` is the substring relation: `t` occurs in `s` at some offset. */
  lemma {:induction false} ContainsIsSubstring(s: string, t: string)
    ensures Contains(s, t) <==> exists i :: OccursAt(s, t, i)
    decreases |s|
  {
    if t <= s {
      assert OccursAt(s, t, 0);
    } else if |s| > 0 {
      ContainsIsSubstring(s[1..], t);
      if Contains(s[1..], t) {
        var i :| OccursAt(s[1..], t, i);
        assert s[i + 1..i + 1 + |t|] == s[1..][i..i + |t|];
        assert OccursAt(s, t, i + 1);
      }
      if exists i :: OccursAt(s, t, i) {
        var i :| OccursAt(s, t, i);
        if i == 0 {
          assert false;
        }
        assert s[1..][i - 1..i - 1 + |t|] == s[i..i + |t|];
        assert OccursAt(s[1..], t, i - 1);
      }
    }
  }

  /** The WHERE clauses the requests of this table put on a select. */
  datatype Query =
    | ById(id: string)
    | ByAccount(account: string)
    | ByLocalUsername(username: string)
    | InAccount(search: string)
    | RemoteToUpdate(now: int)

  predicate Matches(row: ActorRow, q: Query)
  {
    match q
    case ById(id) => row.id == id
    case ByAccount(account) => row.account == account
    case ByLocalUsername(username) => row.preferredUsername == username && row.local == "1"
    case InAccount(search) => Contains(row.account, search)
    case RemoteToUpdate(now) => row.local == "0" && row.creation <= now - CACHE_TTL * 60
  }

  /** Each WHERE clause, read on the actor the row parses into. */
  lemma MatchesParsed(row: ActorRow, q: Query)
    ensures q.ById? ==> (Matches(row, q) <==> Parse(row).id == q.id)
    ensures q.ByAccount? ==> (Matches(row, q) <==> Parse(row).account == q.account)
    ensures q.ByLocalUsername? ==>
              (Matches(row, q) <==> Parse(row).local && Parse(row).preferredUsername == q.username)
    ensures q.InAccount? ==> (Matches(row, q) <==> Contains(Parse(row).account, q.search))
    ensures q.RemoteToUpdate? && Matches(row, q) ==>
              !Parse(row).local && Parse(row).creation <= q.now - CACHE_TTL * 60
  {
  }

  /** The index of the first row a cursor over query `q` yields, if any. */
  function FirstMatch(rows: seq<ActorRow>, q: Query): (k: Option<nat>)
    ensures k.Some? ==> k.value < |rows| && Matches(rows[k.value], q)
    ensures k.Some? ==> forall j :: 0 <= j < k.value ==> !Matches(rows[j], q)
    ensures k.None? <==> forall j :: 0 <= j < |rows| ==> !Matches(rows[j], q)
  {
    if rows == [] then None
    else if Matches(rows[0], q) then Some(0)
    else match FirstMatch(rows[1..], q)
      case None => None
      case Some(k) => Some(k + 1)
  }

  /** A point lookup: the first matching row, parsed, or CacheActorDoesNotExist. */
  function Lookup(rows: seq<ActorRow>, q: Query): (r: Result<Person, ActorError>)
    ensures r.Failure? <==> forall j :: 0 <= j < |rows| ==> !Matches(rows[j], q)
    ensures r.Success? ==> exists k :: 0 <= k < |rows| && Matches(rows[k], q) && r.value == Parse(rows[k])
  {
    match FirstMatch(rows, q)
    case None => Failure(CacheActorDoesNotExist)
    case Some(k) => Success(Parse(rows[k]))
  }

  /** Every row a cursor over query `q` yields, parsed, in table order. */
  function Select(rows: seq<ActorRow>, q: Query): (r: seq<Person>)
    ensures |r| <= |rows|
  {
    if rows == [] then []
    else (if Matches(rows[0], q) then [Parse(rows[0])] else []) + Select(rows[1..], q)
  }

  /** The table without the rows whose id is `id`. */
  function Without(rows: seq<ActorRow>, id: string): (r: seq<ActorRow>)
    ensures forall x :: x in r <==> x in rows && x.id != id
    ensures |r| <= |rows|
  {
    if rows == [] then []
    else if rows[0].id == id then Without(rows[1..], id)
    else [rows[0]] + Without(rows[1..], id)
  }

  /** No two rows of the table share an id. */
  ghost predicate UniqueIds(rows: seq<ActorRow>)
  {
    forall i, j :: 0 <= i < j < |rows| ==> rows[i].id != rows[j].id
  }

  /** A person carries the fields `save` persisted for actor `a` at time `now`. */
  ghost predicate Persists(p: Person, a: Person, now: int)
  {
    && p.id == a.id && p.account == a.account && p.actorType == a.actorType
    && p.local == a.local && p.following == a.following && p.followers == a.followers
    && p.inbox == a.inbox && p.sharedInbox == a.sharedInbox && p.outbox == a.outbox
    && p.featured == a.featured && p.url == a.url
    && p.preferredUsername == a.preferredUsername && p.name == a.name
    && p.summary == a.summary && p.publicKey == a.publicKey && p.source == a.source
    && p.details == a.details && p.creation == now && p.iconId == IconIdOf(a)
  }

  /** Parsing a stored row gives back every field that was persisted. */
  lemma ParseToRow(a: Person, now: int)
    ensures Persists(Parse(ToRow(a, now)), a, now)
  {
    DecodeEncode(a.details);
  }

  /** A cursor over one more row yields that row's parse, if it matches, after the rest. */
  lemma {:induction false} SelectSnoc(rows: seq<ActorRow>, x: ActorRow, q: Query)
    ensures Select(rows + [x], q) == Select(rows, q) + (if Matches(x, q) then [Parse(x)] else [])
  {
    if rows == [] {
      assert [] + [x] == [x];
      assert [x][1..] == [];
    } else {
      assert (rows + [x])[0] == rows[0];
      assert (rows + [x])[1..] == rows[1..] + [x];
      SelectSnoc(rows[1..], x, q);
    }
  }

  /** A person is in `Select(rows, q)` iff it is the parse of a row that matches `q`. */
  lemma {:induction false} SelectMembers(rows: seq<ActorRow>, q: Query, p: Person)
    ensures p in Select(rows, q) <==>
            exists k :: 0 <= k < |rows| && Matches(rows[k], q) && p == Parse(rows[k])
  {
    if rows != [] {
      SelectMembers(rows[1..], q, p);
      if p in Select(rows[1..], q) {
        var k :| 0 <= k < |rows[1..]| && Matches(rows[1..][k], q) && p == Parse(rows[1..][k]);
        assert rows[k + 1] == rows[1..][k];
      }
      if exists k :: 0 <= k < |rows| && Matches(rows[k], q) && p == Parse(rows[k]) {
        var k :| 0 <= k < |rows| && Matches(rows[k], q) && p == Parse(rows[k]);
        if k > 0 {
          assert rows[1..][k - 1] == rows[k];
        }
      }
    }
  }

  /** A selection is empty, a list and not an error, exactly when no row matches. */
  lemma {:induction false} SelectLength(rows: seq<ActorRow>, q: Query)
    ensures (forall j :: 0 <= j < |rows| ==> !Matches(rows[j], q)) <==> Select(rows, q) == []
  {
    if rows != [] {
      SelectLength(rows[1..], q);
      if forall j :: 0 <= j < |rows[1..]| ==> !Matches(rows[1..][j], q) {
        forall j | 0 <= j < |rows| ensures !Matches(rows[j], q) || (j == 0 && Matches(rows[0], q)) {
          if j > 0 { assert rows[j] == rows[1..][j - 1]; }
        }
      } else {
        var j :| 0 <= j < |rows[1..]| && Matches(rows[1..][j], q);
        assert rows[j + 1] == rows[1..][j];
      }
    }
  }

  /** The refresh list holds only remote actors at least CACHE_TTL minutes old. */
  lemma RemoteActorsToUpdateAreStale(rows: seq<ActorRow>, now: int, p: Person)
    requires p in Select(rows, RemoteToUpdate(now))
    ensures !p.local
    ensures p.creation <= now - CACHE_TTL * 60
  {
    SelectMembers(rows, RemoteToUpdate(now), p);
  }

  /** A local lookup only returns a local actor with that preferred username. */
  lemma LocalLookupIsLocal(rows: seq<ActorRow>, username: string)
    requires Lookup(rows, ByLocalUsername(username)).Success?
    ensures Lookup(rows, ByLocalUsername(username)).value.local
    ensures Lookup(rows, ByLocalUsername(username)).value.preferredUsername == username
  {
  }

  /** Appending a row whose id is new keeps the ids unique. */
  lemma AppendUnique(rows: seq<ActorRow>, row: ActorRow)
    requires UniqueIds(rows)
    requires forall j :: 0 <= j < |rows| ==> rows[j].id != row.id
    ensures UniqueIds(rows + [row])
  {
  }

  lemma UniqueTail(rows: seq<ActorRow>)
    requires rows != [] && UniqueIds(rows)
    ensures UniqueIds(rows[1..])
  {
    forall i, j | 0 <= i < j < |rows[1..]| ensures rows[1..][i].id != rows[1..][j].id {
      assert rows[1..][i] == rows[i + 1] && rows[1..][j] == rows[j + 1];
    }
  }

  lemma UniqueCons(x: ActorRow, rest: seq<ActorRow>)
    requires UniqueIds(rest)
    requires forall y :: y in rest ==> y.id != x.id
    ensures UniqueIds([x] + rest)
  {
    var r := [x] + rest;
    forall i, j | 0 <= i < j < |r| ensures r[i].id != r[j].id {
      assert r[j] == rest[j - 1] && r[j] in rest;
      if i > 0 {
        assert r[i] == rest[i - 1];
      }
    }
  }

  /** Removing rows keeps the ids unique. */
  lemma {:induction false} WithoutUnique(rows: seq<ActorRow>, id: string)
    requires UniqueIds(rows)
    ensures UniqueIds(Without(rows, id))
  {
    if rows != [] {
      UniqueTail(rows);
      WithoutUnique(rows[1..], id);
      if rows[0].id != id {
        forall y | y in Without(rows[1..], id) ensures y.id != rows[0].id {
          var k :| 0 <= k < |rows[1..]| && rows[1..][k] == y;
          assert rows[k + 1] == y;
        }
        UniqueCons(rows[0], Without(rows[1..], id));
      }
    }
  }

  /** A lookup passes over a first row that does not match. */
  lemma LookupSkips(x: ActorRow, rest: seq<ActorRow>, q: Query)
    requires !Matches(x, q)
    ensures Lookup([x] + rest, q) == Lookup(rest, q)
  {
    assert ([x] + rest)[1..] == rest;
  }

  /** Deleting one id leaves the lookup of every other id unchanged. */
  lemma {:induction false} WithoutKeepsOthers(rows: seq<ActorRow>, id: string, other: string)
    requires other != id
    ensures Lookup(Without(rows, id), ById(other)) == Lookup(rows, ById(other))
  {
    if rows != [] {
      assert rows == [rows[0]] + rows[1..];
      if rows[0].id != other {
        WithoutKeepsOthers(rows[1..], id, other);
        LookupSkips(rows[0], rows[1..], ById(other));
        if rows[0].id != id {
          LookupSkips(rows[0], Without(rows[1..], id), ById(other));
        }
      }
    }
  }

  /** Deleting an id leaves no row with it: a later lookup of that id fails. */
  lemma DeletedIsGone(rows: seq<ActorRow>, id: string)
    ensures Lookup(Without(rows, id), ById(id)) == Failure(CacheActorDoesNotExist)
  {
    var r := Without(rows, id);
    forall j | 0 <= j < |r| ensures r[j].id != id {
      assert r[j] in r;
    }
  }

  /**
   * Round trip: inserting an actor whose id is not yet in the table and then
   * looking that id up returns the fields that were persisted.
   */
  lemma SaveThenGetFromId(rows: seq<ActorRow>, a: Person, now: int)
    requires forall j :: 0 <= j < |rows| ==> rows[j].id != a.id
    ensures Lookup(rows + [ToRow(a, now)], ById(a.id)).Success?
    ensures Persists(Lookup(rows + [ToRow(a, now)], ById(a.id)).value, a, now)
  {
    var t := rows + [ToRow(a, now)];
    assert t[|rows|] == ToRow(a, now);
    assert FirstMatch(t, ById(a.id)) == Some(|rows|);
    ParseToRow(a, now);
  }

  /** The cached actors table: a sequence of rows in cursor order. */
  class CacheActorsRequest {
    var rows: seq<ActorRow>

    /** The table is keyed by the actor id. */
    ghost predicate Valid()
      reads this
    {
      UniqueIds(rows)
    }

    /** A request over the table as it stands, keyed by the actor id. */
    constructor (rows: seq<ActorRow>)
      requires UniqueIds(rows)
      ensures Valid() && this.rows == rows
    {
      this.rows := rows;
    }

    /**
     * Inserts the row built from `actor` at time `now`. The id is the table's
     * key: an insert that repeats an existing id is refused by the database
     * (DuplicateActorId) and the table is unchanged.
     */
    method Save(actor: Person, now: int) returns (r: Result<(), ActorError>)
      requires Valid()
      modifies this
      ensures Valid()
      ensures r.Success? <==> forall j :: 0 <= j < |old(rows)| ==> old(rows)[j].id != actor.id
      ensures r.Failure? ==> r.error == DuplicateActorId && rows == old(rows)
      ensures r.Success? ==> rows == old(rows) + [ToRow(actor, now)]
      ensures r.Success? ==> Lookup(rows, ById(actor.id)).Success?
      ensures r.Success? ==> Persists(Lookup(rows, ById(actor.id)).value, actor, now)
    {
      var existing := FirstMatch(rows, ById(actor.id));
      if existing.Some? {
        return Failure(DuplicateActorId);
      }
      var row := ToRow(actor, now);
      AppendUnique(rows, row);
      SaveThenGetFromId(rows, actor, now);
      rows := rows + [row];
      r := Success(());
    }

    /** The first row a cursor yields for `q`, parsed; CacheActorDoesNotExist when there is none. */
    method FetchOne(q: Query) returns (r: Result<Person, ActorError>)
      ensures r == Lookup(rows, q)
    {
      var data := FirstMatch(rows, q);
      if data.None? {
        return Failure(CacheActorDoesNotExist);
      }
      r := Success(Parse(rows[data.value]));
    }

    /** Every row a cursor yields for `q`, parsed, in cursor order. */
    method FetchAll(q: Query) returns (persons: seq<Person>)
      ensures persons == Select(rows, q)
    {
      var table := rows;
      persons := [];
      var i := 0;
      while i < |table|
        invariant 0 <= i <= |table|
        invariant persons == Select(table[..i], q)
      {
        SelectSnoc(table[..i], table[i], q);
        assert table[..i + 1] == table[..i] + [table[i]];
        if Matches(table[i], q) {
          persons := persons + [Parse(table[i])];
        }
        i := i + 1;
      }
      assert table[..i] == table;
    }

    method GetFromId(id: string) returns (r: Result<Person, ActorError>)
      requires Valid()
      ensures r.Failure? <==> forall j :: 0 <= j < |rows| ==> rows[j].id != id
      ensures r.Success? ==> exists k :: 0 <= k < |rows| && rows[k].id == id && r.value == Parse(rows[k])
      ensures r.Success? ==> forall k :: 0 <= k < |rows| && rows[k].id == id ==> r.value == Parse(rows[k])
    {
      r := FetchOne(ById(id));
    }

    method GetFromAccount(account: string) returns (r: Result<Person, ActorError>)
      ensures r.Failure? <==> forall j :: 0 <= j < |rows| ==> rows[j].account != account
      ensures r.Success? ==> exists k :: 0 <= k < |rows| && rows[k].account == account && r.value == Parse(rows[k])
      ensures r.Success? ==> r.value.account == account
    {
      r := FetchOne(ByAccount(account));
    }

    method GetFromLocalAccount(account: string) returns (r: Result<Person, ActorError>)
      ensures r.Failure? <==>
              forall j :: 0 <= j < |rows| ==> !(rows[j].preferredUsername == account && rows[j].local == "1")
      ensures r.Success? ==>
              exists k :: 0 <= k < |rows| && rows[k].preferredUsername == account && rows[k].local == "1"
                          && r.value == Parse(rows[k])
      ensures r.Success? ==> r.value.local && r.value.preferredUsername == account
    {
      r := FetchOne(ByLocalUsername(account));
    }

    method SearchAccounts(search: string) returns (accounts: seq<Person>)
      ensures accounts == Select(rows, InAccount(search))
      ensures forall p :: p in accounts <==>
                exists k :: 0 <= k < |rows| && Contains(rows[k].account, search) && p == Parse(rows[k])
      ensures |accounts| <= |rows|
    {
      accounts := FetchAll(InAccount(search));
      SelectLength(rows, InAccount(search));
      forall p ensures p in accounts <==>
                exists k :: 0 <= k < |rows| && Contains(rows[k].account, search) && p == Parse(rows[k])
      {
        SelectMembers(rows, InAccount(search), p);
      }
    }

    /** The remote actors whose cached copy is at least CACHE_TTL minutes old at time `now`. */
    method GetRemoteActorsToUpdate(now: int) returns (update: seq<Person>)
      ensures update == Select(rows, RemoteToUpdate(now))
      ensures forall p :: p in update ==> !p.local && p.creation <= now - CACHE_TTL * 60
      ensures forall k :: 0 <= k < |rows| && rows[k].local == "0" && rows[k].creation <= now - CACHE_TTL * 60
                ==> Parse(rows[k]) in update
    {
      update := FetchAll(RemoteToUpdate(now));
      forall p | p in update ensures !p.local && p.creation <= now - CACHE_TTL * 60 {
        RemoteActorsToUpdateAreStale(rows, now, p);
      }
      forall k | 0 <= k < |rows| && rows[k].local == "0" && rows[k].creation <= now - CACHE_TTL * 60
        ensures Parse(rows[k]) in update
      {
        SelectMembers(rows, RemoteToUpdate(now), Parse(rows[k]));
      }
    }

    /** Removes every row with id `id`; every other row stays, in order. */
    method DeleteFromId(id: string)
      requires Valid()
      modifies this
      ensures Valid()
      ensures rows == Without(old(rows), id)
      ensures forall x :: x in rows <==> x in old(rows) && x.id != id
    {
      WithoutUnique(rows, id);
      rows := Without(rows, id);
    }
  }
}
