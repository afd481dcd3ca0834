/**
 * The strict token check of backend/src/auth_service.rs, over the
 * (id, token) table of auth_db.rs. Its token guard is the same as the
 * one in auth.rs (Auth.GetToken and Auth.PresentedToken); what differs
 * is the decision: there is no public mode, an empty stored token
 * matches only an empty presented token.
 */
module StrictAuth {
  import opened Http
  import Auth
  import AuthGuard

  /** NotFound for an unknown id; otherwise Ok exactly on equality, else Unauthorized. */
  function Check(table: AuthGuard.Table, id: string, presented: string): (r: Result<()>)
    ensures id !in table <==> r == Err(NotFound)
    ensures id in table ==> (r == Ok(()) <==> table[id] == presented)
    ensures id in table && r.Err? ==> r.status == Unauthorized
  {
    if id in table then
      if table[id] == presented then Ok(()) else Err(Unauthorized)
    else Err(NotFound)
  }

  /** True exactly when the id is registered with precisely the presented token. */
  function CheckBool(table: AuthGuard.Table, id: string, presented: string): (b: bool)
    ensures b <==> id in table && table[id] == presented
  {
    Check(table, id, presented).Ok?
  }

  /** The two tables hold the same ids with the same tokens. */
  predicate SameTokens(strict: AuthGuard.Table, lenient: Auth.Table) {
    && strict.Keys == lenient.Keys
    && forall id :: id in strict ==> strict[id] == lenient[id].token
  }

  /**
   * Over the same tokens, the strict check passes only where the check of
   * auth.rs passes, and the two disagree exactly on a public id (empty
   * stored token) presented with a non-empty token.
   */
  lemma StrictRefinesPublicMode(strict: AuthGuard.Table, lenient: Auth.Table, id: string, presented: string)
    requires SameTokens(strict, lenient)
    ensures Check(strict, id, presented).Ok? ==> Auth.Check(lenient, id, presented).Ok?
    ensures Check(strict, id, presented) != Auth.Check(lenient, id, presented) <==>
              id in strict && strict[id] == "" && presented != ""
  {
    if id in strict {
      assert id in lenient;
    } else {
      assert id !in lenient;
    }
  }
}
