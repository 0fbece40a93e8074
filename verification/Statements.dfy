/**
 The three places that decide whether a statement reads or writes: the replication log's
 filter, the executor's dispatch and the permission a statement needs; and the screening
 that a request handler makes before it logs or runs anything.
 */
module Statements {
  import opened Text
  import opened Wrappers

  /** The replication filter: is this statement written to the log? */
  predicate IsWriteQuery(query: string) {
    var upper := ToUpper(TrimSpace(query));
    && !HasPrefix(upper, "SELECT")
    && !HasPrefix(upper, "PRAGMA")
    && !HasPrefix(upper, "EXPLAIN")
  }

  datatype Dispatch = ToQuery | ToExec

  /** The executor's dispatch; `q` has been trimmed already. */
  function DispatchOf(q: string): Dispatch {
    var upper := ToUpper(q);
    if HasPrefix(upper, "SELECT") || HasPrefix(upper, "PRAGMA") || HasPrefix(upper, "EXPLAIN")
    then ToQuery
    else ToExec
  }

  datatype QueryType =
    | TypeSelect | TypeInsert | TypeUpdate | TypeDelete | TypeCreate
    | TypeDrop | TypeAlter | TypePragma | TypeExplain | TypeOther

  function IdentifyType(query: string): QueryType {
    TypeOfUpper(ToUpper(TrimSpace(query)))
  }

  function TypeOfUpper(upper: string): QueryType {
    if HasPrefix(upper, "SELECT") then TypeSelect
    else if HasPrefix(upper, "INSERT") then TypeInsert
    else if HasPrefix(upper, "UPDATE") then TypeUpdate
    else if HasPrefix(upper, "DELETE") then TypeDelete
    else if HasPrefix(upper, "CREATE") then TypeCreate
    else if HasPrefix(upper, "DROP") then TypeDrop
    else if HasPrefix(upper, "ALTER") then TypeAlter
    else if HasPrefix(upper, "PRAGMA") then TypePragma
    else if HasPrefix(upper, "EXPLAIN") then TypeExplain
    else TypeOther
  }

  datatype Permission = PermQuery | PermWrite | PermCreate | PermAlter | PermDrop | PermDelete

  function RequiredPermission(qt: QueryType): Option<Permission> {
    match qt
    case TypeSelect | TypePragma | TypeExplain => Some(PermQuery)
    case TypeInsert | TypeUpdate => Some(PermWrite)
    case TypeCreate => Some(PermCreate)
    case TypeAlter => Some(PermAlter)
    case TypeDrop => Some(PermDrop)
    case TypeDelete => Some(PermDelete)
    case TypeOther => None
  }

  predicate ReadKeyword(upper: string) {
    HasPrefix(upper, "SELECT") || HasPrefix(upper, "PRAGMA") || HasPrefix(upper, "EXPLAIN")
  }

  /** No write keyword hides a read keyword that is tested later. */
  lemma ReadKeywordTypes(upper: string)
    ensures ReadKeyword(upper) <==> TypeOfUpper(upper) in {TypeSelect, TypePragma, TypeExplain}
  {
    if HasPrefix(upper, "SELECT") {
    } else if HasPrefix(upper, "PRAGMA") {
      assert upper[0] == 'P';
    } else if HasPrefix(upper, "EXPLAIN") {
      assert upper[0] == 'E';
    }
  }

  /**
   The three classifiers agree on every string: a statement is logged exactly when the
   executor sends its trimmed text to exec, and exactly when the permission it needs is not
   the one for reading.
   */
  lemma ClassifiersAgree(query: string)
    ensures IsWriteQuery(query) <==> DispatchOf(TrimSpace(query)) == ToExec
    ensures IsWriteQuery(query) <==> RequiredPermission(IdentifyType(query)) != Some(PermQuery)
  {
    ReadKeywordTypes(ToUpper(TrimSpace(query)));
  }

  /** Outer white space does not change the classification, so logging either form is the same. */
  lemma ClassificationIgnoresOuterSpace(query: string)
    ensures IsWriteQuery(TrimSpace(query)) <==> IsWriteQuery(query)
    ensures IdentifyType(TrimSpace(query)) == IdentifyType(query)
    ensures Blank(query) ==> IsWriteQuery(query)
  {
    TrimIdempotent(query);
  }

  /** Patterns that are refused outright; the warning-level patterns have no effect. */
  const BLOCKED_PATTERNS: seq<string> := [
    "DROP DATABASE", "DROP TABLE", "DELETE FROM SQLITE_MASTER", "ATTACH DATABASE", "DETACH DATABASE"
  ]

  predicate IsDangerous(query: string) {
    var upper := ToUpper(TrimSpace(query));
    exists i :: 0 <= i < |BLOCKED_PATTERNS| && Contains(upper, BLOCKED_PATTERNS[i])
  }

  // What the classification and the screening mean, said of the text.

  /** A read is what starts with one of the three words, in any mixture of cases, after white space. */
  lemma ReadIff(text: string)
    ensures !IsWriteQuery(text) <==>
      var t := TrimSpace(text); StartsFold(t, "SELECT") || StartsFold(t, "PRAGMA") || StartsFold(t, "EXPLAIN")
  {
    PrefixFolds(TrimSpace(text), "SELECT");
    PrefixFolds(TrimSpace(text), "PRAGMA");
    PrefixFolds(TrimSpace(text), "EXPLAIN");
  }

  predicate Occurs(pattern: string, s: string) {
    exists k :: 0 <= k <= |s| && pattern <= s[k..]
  }

  /** One of the blocked patterns occurs somewhere in the upper-case text. */
  predicate NamesBlocked(text: string) {
    var upper := ToUpper(TrimSpace(text));
    || Occurs("DROP DATABASE", upper) || Occurs("DROP TABLE", upper) || Occurs("DELETE FROM SQLITE_MASTER", upper)
    || Occurs("ATTACH DATABASE", upper) || Occurs("DETACH DATABASE", upper)
  }

  lemma AnyOccurs(patterns: seq<string>, s: string)
    ensures (exists i :: 0 <= i < |patterns| && Contains(s, patterns[i]))
       <==> exists i :: 0 <= i < |patterns| && Occurs(patterns[i], s)
  {
    forall i | 0 <= i < |patterns| ensures Contains(s, patterns[i]) <==> Occurs(patterns[i], s) {
      ContainsMeansOccurs(s, patterns[i]);
    }
  }

  lemma OneOfFive(s: string, a: string, b: string, c: string, d: string, e: string)
    ensures var patterns := [a, b, c, d, e];
            (exists i :: 0 <= i < |patterns| && Occurs(patterns[i], s))
            <==> Occurs(a, s) || Occurs(b, s) || Occurs(c, s) || Occurs(d, s) || Occurs(e, s)
  {
    var patterns := [a, b, c, d, e];
    assert patterns[0] == a && patterns[1] == b && patterns[2] == c && patterns[3] == d && patterns[4] == e;
  }

  lemma DangerousIff(query: string)
    ensures IsDangerous(query) <==> NamesBlocked(query)
  {
    var upper := ToUpper(TrimSpace(query));
    AnyOccurs(BLOCKED_PATTERNS, upper);
    OneOfFive(upper, "DROP DATABASE", "DROP TABLE", "DELETE FROM SQLITE_MASTER", "ATTACH DATABASE", "DETACH DATABASE");
  }

  /** The text starts with this word, after white space and in upper case. */
  predicate Starts(text: string, word: string) {
    HasPrefix(ToUpper(TrimSpace(text)), word)
  }

  /** The text starts with a word whose permission is not among those granted. */
  predicate Lacks(text: string, granted: set<Permission>) {
    || (Starts(text, "SELECT") && PermQuery !in granted)
    || (Starts(text, "PRAGMA") && PermQuery !in granted)
    || (Starts(text, "EXPLAIN") && PermQuery !in granted)
    || (Starts(text, "INSERT") && PermWrite !in granted)
    || (Starts(text, "UPDATE") && PermWrite !in granted)
    || (Starts(text, "DELETE") && PermDelete !in granted)
    || (Starts(text, "CREATE") && PermCreate !in granted)
    || (Starts(text, "DROP") && PermDrop !in granted)
    || (Starts(text, "ALTER") && PermAlter !in granted)
  }

  /** No two of the words can start the same text, so the order in which they are tested does not matter. */
  lemma LacksIff(text: string, granted: set<Permission>)
    ensures Lacks(text, granted) <==>
      var need := RequiredPermission(IdentifyType(text)); need.Some? && need.value !in granted
  {
    var upper := ToUpper(TrimSpace(text));
    if upper != "" && |upper| > 1 {
      TypeByLetter(upper, upper[0], upper[1]);
    }
  }

  /** The first two letters leave at most one word. */
  lemma TypeByLetter(upper: string, a: char, b: char)
    requires |upper| > 1 && upper[0] == a && upper[1] == b
    ensures HasPrefix(upper, "SELECT") ==> a == 'S'
    ensures HasPrefix(upper, "INSERT") ==> a == 'I'
    ensures HasPrefix(upper, "UPDATE") ==> a == 'U'
    ensures HasPrefix(upper, "DELETE") ==> a == 'D' && b == 'E'
    ensures HasPrefix(upper, "CREATE") ==> a == 'C'
    ensures HasPrefix(upper, "DROP") ==> a == 'D' && b == 'R'
    ensures HasPrefix(upper, "ALTER") ==> a == 'A'
    ensures HasPrefix(upper, "PRAGMA") ==> a == 'P'
    ensures HasPrefix(upper, "EXPLAIN") ==> a == 'E'
  {
  }

  /** A caller is refused a text that names something blocked or needs more than the role grants; `None` is no user at all. */
  predicate Refused(text: string, granted: Option<set<Permission>>) {
    NamesBlocked(text) || (granted.Some? && Lacks(text, granted.value))
  }

  lemma RefusedIgnoresOuterSpace(text: string, granted: Option<set<Permission>>)
    ensures Refused(TrimSpace(text), granted) <==> Refused(text, granted)
  {
    TrimIdempotent(text);
  }

  predicate StartsNone(text: string) {
    && !Starts(text, "SELECT") && !Starts(text, "PRAGMA") && !Starts(text, "EXPLAIN")
    && !Starts(text, "INSERT") && !Starts(text, "UPDATE") && !Starts(text, "DELETE")
    && !Starts(text, "CREATE") && !Starts(text, "DROP") && !Starts(text, "ALTER")
  }

  /** What a role that may only query gets through: reads, and texts that start with none of the words. */
  lemma QueryRoleAdmits(text: string)
    ensures !Refused(text, Some({PermQuery})) <==> !NamesBlocked(text) && (!IsWriteQuery(text) || StartsNone(text))
  {
    LacksIff(text, {PermQuery});
    ClassifiersAgree(text);
    var upper := ToUpper(TrimSpace(text));
    if |upper| > 1 {
      TypeByLetter(upper, upper[0], upper[1]);
    }
  }

  lemma UpperStays(s: string)
    requires forall i :: 0 <= i < |s| ==> UpperChar(s[i]) == s[i]
    ensures ToUpper(s) == s
  {
  }

  const REPLACE := "REPLACE INTO T VALUES (1)"

  lemma ReplaceIsPlain()
    ensures TrimSpace(REPLACE) == REPLACE && ToUpper(REPLACE) == REPLACE
  {
    assert "" + REPLACE + "" == REPLACE;
    TrimUnique("", REPLACE, "");
    UpperStays(REPLACE);
  }

  lemma OccursAt(pattern: string, s: string, k: nat)
    requires |pattern| >= 2 && k <= |s| && pattern <= s[k..]
    ensures k < |s| - 1 && s[k] == pattern[0] && s[k + 1] == pattern[1]
  {
    assert s[k..][0] == pattern[0] && s[k..][1] == pattern[1];
  }

  /** A pattern does not occur where its first two letters do not meet. */
  lemma NotThere(pattern: string, s: string)
    requires |pattern| >= 2
    requires forall k :: 0 <= k < |s| - 1 && s[k] == pattern[0] ==> s[k + 1] != pattern[1]
    ensures !Occurs(pattern, s)
  {
    if Occurs(pattern, s) {
      var k :| 0 <= k <= |s| && pattern <= s[k..];
      OccursAt(pattern, s, k);
    }
  }

  lemma NothingBlocked(text: string)
    requires var upper := ToUpper(TrimSpace(text));
             forall k :: 0 <= k < |upper| - 1 ==>
               upper[k] != 'D' && (upper[k] == 'A' ==> upper[k + 1] != 'T')
    ensures !NamesBlocked(text)
  {
    var upper := ToUpper(TrimSpace(text));
    NotThere("DROP DATABASE", upper);
    NotThere("DROP TABLE", upper);
    NotThere("DELETE FROM SQLITE_MASTER", upper);
    NotThere("DETACH DATABASE", upper);
    NotThere("ATTACH DATABASE", upper);
  }

  lemma StartsOther(text: string)
    requires var upper := ToUpper(TrimSpace(text)); upper != "" && upper[0] == 'R'
    ensures StartsNone(text) && IsWriteQuery(text)
  {
  }

  lemma ReplaceLetters(k: nat)
    requires k < |REPLACE| - 1
    ensures REPLACE[k] != 'D' && (REPLACE[k] == 'A' ==> REPLACE[k + 1] != 'T')
  {
  }

  /** The second case exists: a REPLACE is a write, and every role gets it through. */
  lemma ReplaceIsAdmitted(granted: set<Permission>, text: string)
    requires text == REPLACE
    ensures IsWriteQuery(text) && !Refused(text, Some(granted))
  {
    ReplaceIsPlain();
    StartsOther(text);
    var upper := ToUpper(TrimSpace(text));
    forall k: nat | k < |upper| - 1 ensures upper[k] != 'D' && (upper[k] == 'A' ==> upper[k + 1] != 'T') {
      ReplaceLetters(k);
    }
    NothingBlocked(text);
  }
}
