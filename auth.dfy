/**
 * The token store of the relay backend (backend/src/auth.rs): the table
 * of registered endpoint ids with their tokens and issue times, the
 * request guard that picks the presented token out of a request, the
 * authorization decision, and registration with id padding.
 *
 * The SQLite table is a map from id to row; the primary key on `id`
 * is the map's key uniqueness.
 */
module Auth {
  import opened Http

  /** One row of the `auth` table: token ("" = public) and issue time in seconds since the custom epoch. */
  datatype Row = Row(token: string, ts: int)

  type Table = map<string, Row>

  /** The registration record as it is serialised to and from JSON. */
  datatype Auth = Auth(id: string, token: string)

  /** The two places a request may carry a token: the first `X-Auth` header and the `token` query value. */
  datatype TokenSources = TokenSources(header: Option<string>, query: Option<string>)

  // ---------------------------------------------------------------
  // Token selection (AuthService::get_token and ::from_request)
  // ---------------------------------------------------------------

  /**
   * The presented token: the header wins; the query value is looked at
   * only when the guard allows queries and the header is absent.
   */
  function GetToken(allowQuery: bool, req: TokenSources): (t: Option<string>)
    ensures req.header.Some? ==> t == req.header
    ensures req.header.None? && allowQuery ==> t == req.query
    ensures t.Some? ==> t == req.header || (allowQuery && t == req.query)
    ensures t.None? <==> req.header.None? && (!allowQuery || req.query.None?)
  {
    if allowQuery then
      if req.header.Some? then req.header
      else if req.query.Some? then req.query
      else None
    else req.header
  }

  /**
   * The token guard: without a database connection it forwards 500;
   * otherwise it always succeeds, with "" standing for "no token".
   */
  function PresentedToken(allowQuery: bool, connected: bool, req: TokenSources): (r: Outcome<string>)
    ensures !connected <==> r == Forward(InternalServerError)
    ensures connected ==> r.Success?
    ensures connected && r.value != "" ==> GetToken(allowQuery, req) == Some(r.value)
    ensures connected && GetToken(allowQuery, req).None? ==> r == Success("")
    ensures connected && GetToken(allowQuery, req).Some? ==> r == Success(GetToken(allowQuery, req).value)
  {
    if !connected then Forward(InternalServerError)
    else
      match GetToken(allowQuery, req)
      case Some(t) => Success(t)
      case None => Success("")
  }

  // ---------------------------------------------------------------
  // The authorization decision (AuthService::check / ::check_bool)
  // ---------------------------------------------------------------

  /**
   * Unknown id: NotFound. Stored token empty: public, anything passes.
   * Otherwise only the exact stored token passes, else Unauthorized.
   */
  function Check(table: Table, id: string, presented: string): (r: Result<()>)
    ensures id !in table <==> r == Err(NotFound)
    ensures id in table && table[id].token == "" ==> r == Ok(())
    ensures id in table && table[id].token != "" ==> (r == Ok(()) <==> presented == table[id].token)
    ensures r.Err? ==> r.status == NotFound || r.status == Unauthorized
  {
    if id in table then
      var stored := table[id].token;
      if stored == "" || stored == presented then Ok(()) else Err(Unauthorized)
    else Err(NotFound)
  }

  /** True exactly when the id is registered and its token is empty or equal to the presented one. */
  function CheckBool(table: Table, id: string, presented: string): (b: bool)
    ensures b <==> id in table && (table[id].token == "" || table[id].token == presented)
  {
    Check(table, id, presented).Ok?
  }

  // ---------------------------------------------------------------
  // Registration (NewAuthService::save / ::save_random)
  // ---------------------------------------------------------------

  /** Ids are at least this many bytes long. */
  const MinIdLength: nat := 8
  /** Length of a default `nanoid!()`. */
  const NanoidLength: nat := 21
  /** The characters `nanoid!` draws from: letters, digits, `_` and `-`. */
  predicate NanoidChar(c: char) {
    ('a' <= c <= 'z') || ('A' <= c <= 'Z') || ('0' <= c <= '9') || c == '_' || c == '-'
  }

  predicate IsNanoid(s: string) {
    forall c :: c in s ==> NanoidChar(c)
  }

  /** Bytes in the UTF-8 encoding of one character. */
  function Utf8Width(c: char): nat {
    if c as int < 0x80 then 1
    else if c as int < 0x800 then 2
    else if c as int < 0x10000 then 3
    else 4
  }

  /** Rust's `String::len`: the length in UTF-8 bytes, not in characters. */
  function Utf8Len(s: string): nat {
    if s == [] then 0 else Utf8Len(s[..|s| - 1]) + Utf8Width(s[|s| - 1])
  }

  lemma {:induction false} Utf8LenAppend(a: string, b: string)
    ensures Utf8Len(a + b) == Utf8Len(a) + Utf8Len(b)
  {
    if b == [] {
      assert a + b == a;
    } else {
      assert (a + b)[..|a + b| - 1] == a + b[..|b| - 1];
      assert (a + b)[|a + b| - 1] == b[|b| - 1];
      Utf8LenAppend(a, b[..|b| - 1]);
    }
  }

  /** A string of ASCII characters is as many bytes long as it has characters. */
  lemma {:induction false} AsciiLen(s: string)
    requires forall i :: 0 <= i < |s| ==> s[i] as int < 0x80
    ensures Utf8Len(s) == |s|
  {
    if s != [] {
      AsciiLen(s[..|s| - 1]);
    }
  }

  lemma NanoidIsAscii(s: string)
    requires IsNanoid(s)
    ensures Utf8Len(s) == |s|
  {
    assert forall i :: 0 <= i < |s| ==> s[i] in s;
    AsciiLen(s);
  }

  /**
   * The id `save` stores: an id shorter than 8 bytes gets `8 - len`
   * random characters appended; a longer one is kept as it is.
   */
  function PaddedId(id: string, random: string): (r: string)
    requires Utf8Len(id) < MinIdLength ==> |random| == MinIdLength - Utf8Len(id) && IsNanoid(random)
    ensures Utf8Len(r) >= MinIdLength
    ensures Utf8Len(id) < MinIdLength ==> Utf8Len(r) == MinIdLength
    ensures |r| >= |id| && r[..|id|] == id
    ensures Utf8Len(id) >= MinIdLength ==> r == id
  {
    if Utf8Len(id) < MinIdLength then
      Utf8LenAppend(id, random);
      NanoidIsAscii(random);
      assert (id + random)[..|id|] == id;
      id + random
    else id
  }

  /** An all-ASCII id shorter than 8 characters is padded to exactly 8 characters. */
  lemma AsciiIdPaddedToEight(id: string, random: string)
    requires forall i :: 0 <= i < |id| ==> id[i] as int < 0x80
    requires |id| < MinIdLength && |random| == MinIdLength - |id| && IsNanoid(random)
    ensures Utf8Len(id) == |id|
    ensures |PaddedId(id, random)| == MinIdLength
  {
    AsciiLen(id);
  }

  /**
   * Padding counts bytes, not characters: "ééé" is three characters in six
   * bytes, so two random characters bring it to 8 bytes in 5 characters.
   */
  lemma MultiByteIdPaddedShort()
    ensures Utf8Len("ééé") == 6
    ensures Utf8Len(PaddedId("ééé", "ab")) == MinIdLength
    ensures |PaddedId("ééé", "ab")| == 5
  {
    assert "ééé"[..2] == "éé" && "éé"[..1] == "é" && "é"[..0] == "";
    assert forall c :: c in "ab" ==> NanoidChar(c);
  }

  /** Deserialising a registration body: a missing token becomes "". */
  function FromJson(id: string, token: Option<string>): Auth {
    Auth(id, if token.Some? then token.value else "")
  }

  // ---------------------------------------------------------------
  // Time
  // ---------------------------------------------------------------

  const NanosPerSecond: nat := 1_000_000_000

  /** chrono's `Duration::num_seconds`: whole seconds, truncated toward zero. */
  function NumSeconds(nanos: int): (s: int)
    ensures nanos >= 0 ==> 0 <= s && s * NanosPerSecond <= nanos < (s + 1) * NanosPerSecond
    ensures nanos < 0 ==> s <= 0 && (s - 1) * NanosPerSecond < nanos <= s * NanosPerSecond
  {
    if nanos >= 0 then nanos / NanosPerSecond else -((-nanos) / NanosPerSecond)
  }

  /**
   * custom_timestamp of auth.rs: the negated number of seconds from now
   * back to the epoch, i.e. the seconds elapsed since the custom epoch.
   * Instants are nanoseconds on one clock.
   */
  function CustomTimestamp(now: int, epoch: int): (ts: int)
    ensures ts == NumSeconds(now - epoch)
    ensures epoch <= now ==> 0 <= ts && ts * NanosPerSecond <= now - epoch < (ts + 1) * NanosPerSecond
  {
    -NumSeconds(epoch - now)
  }

  // ---------------------------------------------------------------
  // The table itself
  // ---------------------------------------------------------------

  /** The `auth` table, recreated empty at start-up (DROP and CREATE in db_setup_internal). */
  class AuthDb {
    var rows: Table

    constructor ()
      ensures rows == map[]
    {
      rows := map[];
    }

    /**
     * Register `auth`: pad a short id with `random`, then INSERT OR FAIL.
     * A taken id fails with Unauthorized and adds nothing; otherwise
     * exactly one row (id, token, now - epoch) is added.
     */
    method Save(auth: Auth, random: string, now: int, epoch: int) returns (r: Result<Auth>)
      requires Utf8Len(auth.id) < MinIdLength ==> |random| == MinIdLength - Utf8Len(auth.id) && IsNanoid(random)
      modifies this
      ensures var id := PaddedId(auth.id, random);
        && (id in old(rows) ==> r == Err(Unauthorized) && rows == old(rows))
        && (id !in old(rows) ==> r == Ok(Auth(id, auth.token)) && rows == old(rows)[id := Row(auth.token, CustomTimestamp(now, epoch))])
    {
      var id := auth.id;
      if Utf8Len(id) < MinIdLength {
        id := id + random;
      }
      if id in rows {
        return Err(Unauthorized);
      }
      rows := rows[id := Row(auth.token, CustomTimestamp(now, epoch))];
      r := Ok(Auth(id, auth.token));
    }

    /** Register a random id and token, both default-length nanoids. */
    method SaveRandom(rndId: string, rndToken: string, now: int, epoch: int) returns (r: Result<Auth>)
      requires |rndId| == NanoidLength && IsNanoid(rndId) && |rndToken| == NanoidLength && IsNanoid(rndToken)
      modifies this
      ensures rndId in old(rows) ==> r == Err(Unauthorized) && rows == old(rows)
      ensures rndId !in old(rows) ==> r == Ok(Auth(rndId, rndToken)) && rows == old(rows)[rndId := Row(rndToken, CustomTimestamp(now, epoch))]
    {
      NanoidIsAscii(rndId);
      r := Save(Auth(rndId, rndToken), "", now, epoch);
    }
  }

  /** After a registration whose body had no token, every presented token is accepted for that id. */
  lemma TokenlessRegistrationIsPublic(table: Table, id: string, now: int, epoch: int, presented: string)
    ensures var a := FromJson(id, None);
      Check(table[a.id := Row(a.token, CustomTimestamp(now, epoch))], a.id, presented) == Ok(())
  {
  }

  /**
   * Registering the same id of at least 8 bytes twice: the second attempt
   * is refused and the table keeps the first row.
   */
  method RegisterTwice(db: AuthDb, auth: Auth, random: string, now: int, epoch: int) returns (first: Result<Auth>, second: Result<Auth>)
    requires Utf8Len(auth.id) >= MinIdLength
    requires auth.id !in db.rows
    modifies db
    ensures first == Ok(auth) && second == Err(Unauthorized)
    ensures db.rows == old(db.rows)[auth.id := Row(auth.token, CustomTimestamp(now, epoch))]
  {
    first := db.Save(auth, random, now, epoch);
    second := db.Save(auth, random, now + 1, epoch);
  }

  /**
   * Registering the same id of fewer than 8 bytes twice: each `save`
   * draws its own padding, so both attempts succeed under two different
   * stored ids and the table gains two rows.
   */
  method RegisterShortTwice(db: AuthDb, auth: Auth, random1: string, random2: string, now: int, epoch: int)
    returns (first: Result<Auth>, second: Result<Auth>)
    requires Utf8Len(auth.id) < MinIdLength
    requires |random1| == MinIdLength - Utf8Len(auth.id) && IsNanoid(random1)
    requires |random2| == MinIdLength - Utf8Len(auth.id) && IsNanoid(random2)
    requires random1 != random2
    requires auth.id + random1 !in db.rows && auth.id + random2 !in db.rows
    modifies db
    ensures auth.id + random1 != auth.id + random2
    ensures first == Ok(Auth(auth.id + random1, auth.token))
    ensures second == Ok(Auth(auth.id + random2, auth.token))
    ensures db.rows == old(db.rows)[auth.id + random1 := Row(auth.token, CustomTimestamp(now, epoch))]
                                   [auth.id + random2 := Row(auth.token, CustomTimestamp(now + 1, epoch))]
  {
    assert (auth.id + random1)[|auth.id|..] == random1;
    assert (auth.id + random2)[|auth.id|..] == random2;
    first := db.Save(auth, random1, now, epoch);
    second := db.Save(auth, random2, now + 1, epoch);
  }
}
