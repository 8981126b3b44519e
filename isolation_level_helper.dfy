/**
 * The shared resolver from a client-supplied isolation-level name to a
 * System.Data.IsolationLevel, used by the five anomaly controllers.
 */
module IsolationLevelHelper {
  import opened Wrappers
  import opened AsciiText
  import opened SystemData

  /**
   * Exact, case-sensitive match of `level` against the five SQL Server names; anything
   * else, `null` included, silently becomes ReadCommitted. Never fails.
   */
  function GetIsolationLevel(level: Option<string>): (r: IsolationLevel)
    ensures IsNamed(r) && r != Unspecified && r != Chaos
    ensures r == ReadCommitted || level == Keyword(r)
  {
    match level
    case Some("READ UNCOMMITTED") => ReadUncommitted
    case Some("READ COMMITTED") => ReadCommitted
    case Some("REPEATABLE READ") => RepeatableRead
    case Some("SNAPSHOT") => Snapshot
    case Some("SERIALIZABLE") => Serializable
    case _ => ReadCommitted
  }

  /** The five recognised names, spelled out. */
  lemma RecognisedNames()
    ensures GetIsolationLevel(Some("READ UNCOMMITTED")) == ReadUncommitted
    ensures GetIsolationLevel(Some("READ COMMITTED")) == ReadCommitted
    ensures GetIsolationLevel(Some("REPEATABLE READ")) == RepeatableRead
    ensures GetIsolationLevel(Some("SNAPSHOT")) == Snapshot
    ensures GetIsolationLevel(Some("SERIALIZABLE")) == Serializable
  {
  }

  /** Resolving a level's own name gives that level back: the resolver inverts Keyword. */
  lemma KeywordResolves(l: IsolationLevel)
    requires IsNamed(l)
    ensures GetIsolationLevel(Keyword(l)) == l
  {
  }

  /** Every input that is not one of the five names, `null` included, falls back to ReadCommitted. */
  lemma UnrecognisedFallsBack(level: Option<string>)
    requires !IsKeyword(level)
    ensures GetIsolationLevel(level) == ReadCommitted
  {
  }

  /** Each level other than ReadCommitted is produced by its own name and by no other input. */
  lemma SoleInput(level: Option<string>, l: IsolationLevel)
    requires IsNamed(l) && l != ReadCommitted
    ensures GetIsolationLevel(level) == l <==> level == Keyword(l)
  {
  }

  /** ReadCommitted is produced by "READ COMMITTED" and by exactly the unrecognised inputs. */
  lemma ReadCommittedInputs(level: Option<string>)
    ensures GetIsolationLevel(level) == ReadCommitted <==> level == Some("READ COMMITTED") || !IsKeyword(level)
  {
  }

  /** The levels the resolver can produce are exactly the five named ones. */
  lemma Range(l: IsolationLevel)
    ensures (exists level :: GetIsolationLevel(level) == l) <==> IsNamed(l)
  {
    if IsNamed(l) {
      KeywordResolves(l);
    }
  }

  /** A name that matches a recognised one only when letter case is ignored is not recognised. */
  lemma CaseVariantFallsBack(s: string, l: IsolationLevel)
    requires IsNamed(l) && EqualsIgnoringCase(s, Keyword(l).value) && s != Keyword(l).value
    ensures GetIsolationLevel(Some(s)) == ReadCommitted
  {
    // Case folding keeps the length, and only l's own name has that length.
    assert |s| == |Keyword(l).value| by {
      assert |ToLower(s)| == |ToLower(Keyword(l).value)|;
    }
    forall m | IsNamed(m)
      ensures Keyword(m) != Some(s)
    {
      if |Keyword(m).value| == |s| {
        KeywordLengthInjective(m, l);
      }
    }
    UnrecognisedFallsBack(Some(s));
  }

  /** "snapshot" meets the premise of CaseVariantFallsBack, which therefore sends it to ReadCommitted. */
  lemma SnapshotCaseVariant()
    ensures EqualsIgnoringCase("snapshot", "SNAPSHOT") && "snapshot" != "SNAPSHOT"
    ensures GetIsolationLevel(Some("snapshot")) == ReadCommitted
  {
    // Both spellings fold to "snapshot", checked character by character.
    FoldsTo("SNAPSHOT", "snapshot");
    FoldsTo("snapshot", "snapshot");
    CaseVariantFallsBack("snapshot", Snapshot);
  }

  /** A recognised name written in lower case, such as "serializable", is not recognised. */
  lemma LowerCaseNameFallsBack(l: IsolationLevel)
    requires IsNamed(l)
    ensures GetIsolationLevel(Some(ToLower(Keyword(l).value))) == ReadCommitted
  {
    var name := Keyword(l).value;
    var folded := ToLower(name);
    // The name starts with a capital letter, so its folded form starts with a small one.
    assert IsUpper(name[0]) && folded[0] == LowerChar(name[0]);
    ForeignCharacterFallsBack(folded, 0);
  }

  /** A name holding any character other than a capital letter or a space is not recognised. */
  lemma ForeignCharacterFallsBack(s: string, i: nat)
    requires i < |s| && !IsUpper(s[i]) && s[i] != ' '
    ensures GetIsolationLevel(Some(s)) == ReadCommitted
  {
  }

  /** A name with a leading or trailing blank is not recognised: input is not trimmed. */
  lemma PaddedFallsBack(s: string)
    requires |s| > 0 && (IsBlank(s[0]) || IsBlank(s[|s| - 1]))
    ensures GetIsolationLevel(Some(s)) == ReadCommitted
  {
  }
}
