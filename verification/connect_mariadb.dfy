/**
 * database/mariadb/connectMariadb.mjs: `connectMariadb()`, a bounded retry
 * loop around `mysql.createConnection(...)` followed by `connection.ping()`.
 * The server's behaviour is the oracle `tryConnect`: attempt `i` (counting
 * from 0) yields a connection when both calls succeed and `None` when either
 * throws.
 */
module ConnectMariadb {
  import opened Wrappers

  const MaxRetries: nat := 5

  /**
   * Returns the connection of the first successful attempt, or `None` after
   * `MaxRetries` failures. `attempts` counts the attempts made and `delays`
   * the 5000 ms waits, which fall only between two failed attempts.
   */
  method Connect<C>(tryConnect: nat -> Option<C>) returns (connection: Option<C>, attempts: nat, delays: nat)
    ensures 1 <= attempts <= MaxRetries
    ensures delays == attempts - 1
    ensures forall i :: 0 <= i < attempts - 1 ==> tryConnect(i).None?
    ensures connection.Some? ==> connection == tryConnect(attempts - 1)
    ensures connection.None? <==> forall i :: 0 <= i < MaxRetries ==> tryConnect(i).None?
    ensures connection.None? ==> attempts == MaxRetries
  {
    var attempt: nat := 0;
    delays := 0;
    while attempt < MaxRetries
      invariant attempt < MaxRetries
      invariant delays == attempt
      invariant forall i :: 0 <= i < attempt ==> tryConnect(i).None?
      decreases MaxRetries - attempt
    {
      var result := tryConnect(attempt);
      if result.Some? {
        return result, attempt + 1, delays;
      }
      attempt := attempt + 1;
      if attempt >= MaxRetries {
        return None, attempt, delays;
      }
      delays := delays + 1;
    }
    assert false;
  }
}
