/**
 * The second, private copy of the resolver, used only by TransactionController itself;
 * it has no arm for "SNAPSHOT".
 */
module TransactionController {
  import opened Wrappers
  import opened SystemData
  import IsolationLevelHelper

  /**
   * Exact, case-sensitive match of `level` against the four SQL-92 names; anything
   * else, "SNAPSHOT" and `null` included, silently becomes ReadCommitted.
   */
  function GetIsolationLevel(level: Option<string>): (r: IsolationLevel)
    ensures IsSql92(r) && r != Snapshot && r != Unspecified && r != Chaos
    ensures r == ReadCommitted || level == Keyword(r)
  {
    match level
    case Some("READ UNCOMMITTED") => ReadUncommitted
    case Some("READ COMMITTED") => ReadCommitted
    case Some("REPEATABLE READ") => RepeatableRead
    case Some("SERIALIZABLE") => Serializable
    case _ => ReadCommitted
  }

  /** The four recognised names, spelled out. */
  lemma RecognisedNames()
    ensures GetIsolationLevel(Some("READ UNCOMMITTED")) == ReadUncommitted
    ensures GetIsolationLevel(Some("READ COMMITTED")) == ReadCommitted
    ensures GetIsolationLevel(Some("REPEATABLE READ")) == RepeatableRead
    ensures GetIsolationLevel(Some("SERIALIZABLE")) == Serializable
  {
  }

  /** Resolving the name of a SQL-92 level gives that level back. */
  lemma Sql92KeywordResolves(l: IsolationLevel)
    requires IsSql92(l)
    ensures GetIsolationLevel(Keyword(l)) == l
  {
  }

  /** Every input that is not one of the four SQL-92 names, `null` included, falls back to ReadCommitted. */
  lemma UnrecognisedFallsBack(level: Option<string>)
    requires !IsSql92Keyword(level)
    ensures GetIsolationLevel(level) == ReadCommitted
  {
  }

  /** "SNAPSHOT" is not recognised by this copy. */
  lemma SnapshotFallsBack()
    ensures GetIsolationLevel(Keyword(Snapshot)) == ReadCommitted
  {
  }

  /** The levels this copy can produce are exactly the four SQL-92 ones. */
  lemma Range(l: IsolationLevel)
    ensures (exists level :: GetIsolationLevel(level) == l) <==> IsSql92(l)
  {
    if IsSql92(l) {
      Sql92KeywordResolves(l);
    }
  }

  /**
   * This copy is the shared helper with Snapshot downgraded to ReadCommitted, so the
   * two disagree on "SNAPSHOT" and on no other input.
   */
  lemma AgreesWithHelper(level: Option<string>)
    ensures GetIsolationLevel(level) ==
      (if IsolationLevelHelper.GetIsolationLevel(level) == Snapshot then ReadCommitted
       else IsolationLevelHelper.GetIsolationLevel(level))
    ensures GetIsolationLevel(level) != IsolationLevelHelper.GetIsolationLevel(level) <==> level == Some("SNAPSHOT")
  {
  }
}
