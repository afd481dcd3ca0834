/**
 * The expiry sweep of backend/server/src/cleanup.rs: an administrative
 * route guarded by a per-process secret that finds every token issued
 * before `now - max_age`, evicts the sessions subscribed to those ids with
 * a `TokenExpired` notice, and deletes the expired rows.
 */
module Cleanup {
  import opened Http
  import Auth
  import opened Registry
  import Server

  /**
   * ConfigurationAuth::from_request: no `X-Auth` header forwards
   * Unauthorized, a header other than the cleanup secret forwards
   * Forbidden, the exact secret passes.
   */
  function ConfigurationAuth(header: Option<string>, secret: string): (r: Outcome<()>)
    ensures header.None? <==> r == Forward(Unauthorized)
    ensures header.Some? && header.value != secret <==> r == Forward(Forbidden)
    ensures r.Success? <==> header == Some(secret)
  {
    match header
    case None => Forward(Unauthorized)
    case Some(token) => if token != secret then Forward(Forbidden) else Success(())
  }

  /**
   * The sweep's clock reading: shared::custom_timestamp, the whole
   * seconds from the custom epoch to now, truncated toward zero; the same
   * number auth.rs stamps on a row registered at that instant.
   */
  function SweepTimestamp(now: int, epoch: int): (ts: int)
    ensures ts == Auth.CustomTimestamp(now, epoch)
  {
    Auth.NumSeconds(now - epoch)
  }

  /** The bound of the sweep: `custom_timestamp(epoch) - max_age`. */
  function Cutoff(now: int, epoch: int, maxAge: int): (c: int)
    ensures c + maxAge == Auth.CustomTimestamp(now, epoch)
  {
    SweepTimestamp(now, epoch) - maxAge
  }

  /** `SELECT id, token FROM auth WHERE ts < ?`: the ids issued strictly before the cutoff. */
  function Expired(table: Auth.Table, cutoff: int): set<string> {
    set id | id in table && table[id].ts < cutoff
  }

  /**
   * A later cutoff (a later sweep, or a smaller maximum age) expires every
   * id an earlier one did, and every id it adds is stamped between the two.
   */
  lemma LaterCutoffExpiresMore(table: Auth.Table, early: int, late: int)
    requires early <= late
    ensures Expired(table, early) <= Expired(table, late)
    ensures forall id :: id in Expired(table, late) - Expired(table, early) ==> early <= table[id].ts < late
  {
  }

  /** The table after `DELETE FROM auth WHERE ts < ?`: every row at or after the cutoff, unchanged. */
  function Purged(table: Auth.Table, cutoff: int): (t: Auth.Table)
    ensures t.Keys == table.Keys - Expired(table, cutoff)
    ensures forall id :: id in t ==> t[id] == table[id] && t[id].ts >= cutoff
  {
    map id | id in table && table[id].ts >= cutoff :: table[id]
  }

  /** Once the delete has run, sweeping again with the same cutoff finds nothing and deletes nothing. */
  lemma PurgeLeavesNothingExpired(table: Auth.Table, cutoff: int)
    ensures Expired(Purged(table, cutoff), cutoff) == {}
    ensures Purged(Purged(table, cutoff), cutoff) == Purged(table, cutoff)
  {
  }

  /** A row stamped exactly at the cutoff is neither expired nor deleted. */
  lemma CutoffIsStrict(table: Auth.Table, id: string, cutoff: int)
    requires id in table && table[id].ts == cutoff
    ensures id !in Expired(table, cutoff)
    ensures id in Purged(table, cutoff) && Purged(table, cutoff)[id] == table[id]
  {
  }

  /** `x - k` seconds, counted in nanoseconds, is `k` whole seconds fewer. */
  lemma {:induction false} SecondsShift(x: int, k: nat)
    requires x >= k * Auth.NanosPerSecond
    ensures Auth.NumSeconds(x - k * Auth.NanosPerSecond) == Auth.NumSeconds(x) - k
  {
    var n := Auth.NanosPerSecond;
    var q, r := x / n, x % n;
    assert x == q * n + r;
    assert x - k * n == (q - k) * n + r;
    assert 0 <= r < n;
    assert (x - k * n) / n == q - k;
  }

  /**
   * With a maximum age of 60 seconds, a token issued 61 seconds before the
   * sweep is expired, while one issued 60 or 59 seconds before it is not.
   */
  lemma SixtySecondExample(now: int, epoch: int)
    requires now - epoch >= 61 * Auth.NanosPerSecond
    ensures var cutoff := Cutoff(now, epoch, 60);
      && Auth.CustomTimestamp(now - 61 * Auth.NanosPerSecond, epoch) < cutoff
      && Auth.CustomTimestamp(now - 60 * Auth.NanosPerSecond, epoch) == cutoff
      && Auth.CustomTimestamp(now - 59 * Auth.NanosPerSecond, epoch) > cutoff
  {
    SecondsShift(now - epoch, 61);
    SecondsShift(now - epoch, 60);
    SecondsShift(now - epoch, 59);
    assert now - 61 * Auth.NanosPerSecond - epoch == (now - epoch) - 61 * Auth.NanosPerSecond;
    assert now - 60 * Auth.NanosPerSecond - epoch == (now - epoch) - 60 * Auth.NanosPerSecond;
    assert now - 59 * Auth.NanosPerSecond - epoch == (now - epoch) - 59 * Auth.NanosPerSecond;
  }

  /** A token registered at the instant of a sweep with a non-negative maximum age survives it. */
  lemma FreshTokenSurvives(table: Auth.Table, id: string, token: string, now: int, epoch: int, maxAge: int)
    requires maxAge >= 0
    ensures var t := table[id := Auth.Row(token, Auth.CustomTimestamp(now, epoch))];
      id !in Expired(t, Cutoff(now, epoch, maxAge))
  {
  }

  /**
   * `cleanup_tokens`, behind its guard. A failing guard returns its status
   * and changes nothing; a failing expiry query returns 500 and changes
   * nothing. Otherwise every expired id loses its whole registry entry and
   * each of its senders still open gets one `TokenExpired` (a failed send
   * closes it), entries of other ids are untouched, and the expired rows
   * are deleted; a failing delete is only logged, the answer is 202 either way.
   */
  method CleanupTokens(header: Option<string>, secret: string, db: Auth.AuthDb,
                       reg: Registry<Server.WsMessage>, now: int, epoch: int, maxAge: int,
                       queryOk: bool, deleteOk: bool, failing: set<Sender<Server.WsMessage>>)
    returns (status: Status)
    requires reg.Valid()
    modifies db, reg, reg.AllSenders()
    ensures reg.Valid()
    ensures ConfigurationAuth(header, secret).Forward? ==>
              && status == ConfigurationAuth(header, secret).status
              && reg.entries == old(reg.entries) && db.rows == old(db.rows)
              && forall s :: s in old(reg.AllSenders()) ==> unchanged(s)
    ensures ConfigurationAuth(header, secret).Success? && !queryOk ==>
              && status == InternalServerError
              && reg.entries == old(reg.entries) && db.rows == old(db.rows)
              && forall s :: s in old(reg.AllSenders()) ==> unchanged(s)
    ensures ConfigurationAuth(header, secret).Success? && queryOk ==>
              var expired := Expired(old(db.rows), Cutoff(now, epoch, maxAge));
              && status == Accepted
              && reg.entries == old(reg.entries) - expired
              && (forall id, s :: id in old(reg.entries) && id in expired && s in old(reg.entries[id]) ==>
                    Delivered(s, Server.TokenExpired, failing, true))
              && (forall id, s :: id in old(reg.entries) && id !in expired && s in old(reg.entries[id]) ==>
                    unchanged(s))
              && db.rows == (if deleteOk then Purged(old(db.rows), Cutoff(now, epoch, maxAge)) else old(db.rows))
  {
    var guard := ConfigurationAuth(header, secret);
    if guard.Forward? {
      return guard.status;
    }
    if !queryOk {
      return InternalServerError;
    }
    var cutoff := Cutoff(now, epoch, maxAge);
    var expired := Expired(db.rows, cutoff);
    var todo := expired;
    while todo != {}
      invariant reg.Valid()
      invariant todo <= expired
      invariant db.rows == old(db.rows)
      invariant reg.entries == old(reg.entries) - (expired - todo)
      invariant forall id, s :: id in old(reg.entries) && id in expired - todo && s in old(reg.entries[id]) ==>
                  Delivered(s, Server.TokenExpired, failing, true)
      invariant forall id, s :: id in old(reg.entries) && id !in expired - todo && s in old(reg.entries[id]) ==>
                  unchanged(s)
      decreases todo
    {
      var id :| id in todo;
      assert reg.Members(id) <= old(reg.AllSenders());
      reg.Evict(id, Server.TokenExpired, failing);
      todo := todo - {id};
    }
    if deleteOk {
      db.rows := Purged(db.rows, cutoff);
    }
    status := Accepted;
  }
}
