/**
 * The enumeration System.Data.IsolationLevel of .NET, with every member it declares,
 * and the SQL spelling of each level that the resolvers accept.
 */
module SystemData {
  import opened Wrappers
  import opened AsciiText

  datatype IsolationLevel =
    | Unspecified
    | Chaos
    | ReadUncommitted
    | ReadCommitted
    | RepeatableRead
    | Serializable
    | Snapshot

  /** The four levels that ISO/IEC 9075:1992 (SQL-92), section 4.28, defines; Snapshot is a SQL Server extension. */
  predicate IsSql92(l: IsolationLevel) {
    l == ReadUncommitted || l == ReadCommitted || l == RepeatableRead || l == Serializable
  }

  /** The five levels that a SQL Server transaction can be opened at by name. */
  predicate IsNamed(l: IsolationLevel) {
    IsSql92(l) || l == Snapshot
  }

  /**
   * The name of a level as SQL Server spells it after SET TRANSACTION ISOLATION LEVEL:
   * capital letters and single blanks, with a letter at each end. Unspecified and Chaos have none.
   */
  function Keyword(l: IsolationLevel): (r: Option<string>)
    ensures r.Some? <==> IsNamed(l)
    ensures r.Some? ==> |r.value| > 0 && IsUpper(r.value[0]) && IsUpper(r.value[|r.value| - 1])
    ensures r.Some? ==> forall i :: 0 <= i < |r.value| ==> IsUpper(r.value[i]) || r.value[i] == ' '
  {
    match l
    case ReadUncommitted => Some("READ UNCOMMITTED")
    case ReadCommitted => Some("READ COMMITTED")
    case RepeatableRead => Some("REPEATABLE READ")
    case Serializable => Some("SERIALIZABLE")
    case Snapshot => Some("SNAPSHOT")
    case Unspecified => None
    case Chaos => None
  }

  /** No two levels share a name. */
  lemma KeywordInjective(a: IsolationLevel, b: IsolationLevel)
    requires IsNamed(a) && Keyword(a) == Keyword(b)
    ensures a == b
  {
  }

  /** The five names even differ in length. */
  lemma KeywordLengthInjective(a: IsolationLevel, b: IsolationLevel)
    requires IsNamed(a) && IsNamed(b) && |Keyword(a).value| == |Keyword(b).value|
    ensures a == b
  {
  }

  /** `name` is the keyword of one of the five named levels. */
  predicate IsKeyword(name: Option<string>) {
    exists l :: IsNamed(l) && Keyword(l) == name
  }

  /** `name` is the keyword of one of the four SQL-92 levels. */
  predicate IsSql92Keyword(name: Option<string>) {
    exists l :: IsSql92(l) && Keyword(l) == name
  }
}
