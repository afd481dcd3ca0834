/**
 * The token-keyed guard of backend/src/auth_db.rs: a table of (id, token)
 * where both columns are unique, a guard that finds the row holding the
 * presented token, and the `NewAuth` guard that inserts a random pair.
 */
module AuthGuard {
  import opened Http
  import Auth

  /** The `auth` table of this variant: id to token, no issue time. */
  type Table = map<string, string>

  /** The UNIQUE constraint on `token`: no two ids share a token. */
  predicate TokensUnique(t: Table) {
    forall a, b :: a in t && b in t && t[a] == t[b] ==> a == b
  }

  /** The guard value: the row the presented token belongs to. */
  datatype AuthGuardDb = AuthGuardDb(id: string, token: string)

  /** The value `NewAuth` hands to its route. */
  datatype NewAuth = NewAuth(id: string, token: string)

  /** `id_matches`: the guard stands for exactly one id, its own. */
  function IdMatches(g: AuthGuardDb, id: string): bool {
    g.id == id
  }

  /** `token`: the token the guard was built from. */
  function Token(g: AuthGuardDb): string {
    g.token
  }

  /** The id whose token is `token`, if any; unique by the UNIQUE constraint. */
  function Owner(t: Table, token: string): (o: Option<string>)
    requires TokensUnique(t)
    ensures o.Some? ==> o.value in t && t[o.value] == token
    ensures o.None? ==> forall id :: id in t ==> t[id] != token
  {
    if exists id :: id in t && t[id] == token then
      var id :| id in t && t[id] == token; Some(id)
    else None
  }

  /**
   * AuthGuardDb::from_request: the token comes from the `X-Auth` header,
   * else from the `token` query value (the header-then-query chain of
   * Auth.GetToken with queries allowed). No token, no database connection
   * (`db` is None) or no row holding the token all forward Unauthorized.
   */
  function FromRequest(req: Auth.TokenSources, db: Option<Table>): (r: Outcome<AuthGuardDb>)
    requires db.Some? ==> TokensUnique(db.value)
    ensures r.Forward? ==> r.status == Unauthorized
    ensures Auth.GetToken(true, req).None? ==> r.Forward?
    ensures db.None? ==> r.Forward?
    ensures r.Success? <==> Auth.GetToken(true, req).Some? && db.Some?
                            && exists id :: id in db.value && db.value[id] == Auth.GetToken(true, req).value
    ensures r.Success? ==> Some(r.value.token) == Auth.GetToken(true, req)
                           && r.value.id in db.value && db.value[r.value.id] == r.value.token
  {
    match Auth.GetToken(true, req)
    case None => Forward(Unauthorized)
    case Some(token) =>
      if db.None? then Forward(Unauthorized)
      else
        match Owner(db.value, token)
        case Some(id) => Success(AuthGuardDb(id, token))
        case None => Forward(Unauthorized)
  }

  /**
   * A successful guard identifies exactly one id: `id_matches` holds for
   * the id registered with the presented token and for no other, and
   * `token()` is that token.
   */
  lemma GuardIdentifies(req: Auth.TokenSources, t: Table, g: AuthGuardDb, id: string)
    requires TokensUnique(t)
    requires FromRequest(req, Some(t)) == Success(g)
    ensures Some(Token(g)) == Auth.GetToken(true, req)
    ensures IdMatches(g, id) <==> id in t && t[id] == Token(g)
  {
  }

  /** The `auth` table of this variant, with its UNIQUE constraint on tokens. */
  class AuthTable {
    var rows: Table

    ghost predicate Valid()
      reads this
    {
      TokensUnique(rows)
    }

    constructor ()
      ensures Valid() && rows == map[]
    {
      rows := map[];
    }

    /** db_setup_internal: create the table if needed and delete every row. */
    method Setup()
      modifies this
      ensures Valid() && rows == map[]
    {
      rows := map[];
    }

    /**
     * NewAuth::from_request: INSERT OR FAIL a fresh random pair. The insert
     * fails when the id or the token is already present, and that
     * forwards 500. Without a database connection nothing is inserted and
     * the guard still succeeds with the pair it never stored.
     */
    method NewAuthFromRequest(rndId: string, rndToken: string, connected: bool) returns (r: Outcome<NewAuth>)
      requires Valid()
      modifies this
      ensures Valid()
      ensures !connected ==> r == Success(NewAuth(rndId, rndToken)) && rows == old(rows)
      ensures connected && (rndId in old(rows) || rndToken in old(rows).Values) ==>
                r == Forward(InternalServerError) && rows == old(rows)
      ensures connected && rndId !in old(rows) && rndToken !in old(rows).Values ==>
                r == Success(NewAuth(rndId, rndToken)) && rows == old(rows)[rndId := rndToken]
    {
      if connected {
        if rndId in rows || rndToken in rows.Values {
          return Forward(InternalServerError);
        }
        rows := rows[rndId := rndToken];
      }
      r := Success(NewAuth(rndId, rndToken));
    }
  }
}
