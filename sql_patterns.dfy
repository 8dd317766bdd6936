/**
 * The regular expressions and value formatting of the safe query compiler.
 * Each pattern is matched by a left-to-right scanner over indices of the
 * text, and the scanner is proved to accept exactly the strings that the
 * regular expression describes (written as a decomposition of the string
 * into its parts). Filter values are quoted so that an SQL lexer reads them
 * back unchanged.
 */
module SqlPatterns {
  import opened Common
  import opened Text

  const AggregateFunctions: seq<string> := ["SUM", "COUNT", "AVG", "MAX", "MIN"]

  /** `[a-zA-Z0-9_\*]` */
  predicate IsArgChar(c: char) {
    IsWordChar(c) || c == '*'
  }

  /** `[a-zA-Z0-9_\*]+` */
  predicate IsAggregateArg(s: string) {
    |s| > 0 && forall i :: 0 <= i < |s| ==> IsArgChar(s[i])
  }

  /** `\s*` */
  predicate AllSpaces(s: string) {
    forall i :: 0 <= i < |s| ==> IsRegexSpace(s[i])
  }

  // ---------------------------------------------------------------------------
  // Scanning by index
  // ---------------------------------------------------------------------------

  /** The end of the run of regex whitespace starting at `i` (greedy `\s*`). */
  function SpaceEnd(s: string, i: nat): (j: nat)
    requires i <= |s|
    ensures i <= j <= |s|
    ensures forall k :: i <= k < j ==> IsRegexSpace(s[k])
    ensures j < |s| ==> !IsRegexSpace(s[j])
    decreases |s| - i
  {
    if i == |s| || !IsRegexSpace(s[i]) then i else SpaceEnd(s, i + 1)
  }

  /** The end of the run of word characters starting at `i`. */
  function WordEnd(s: string, i: nat): (j: nat)
    requires i <= |s|
    ensures i <= j <= |s|
    ensures forall k :: i <= k < j ==> IsWordChar(s[k])
    ensures j < |s| ==> !IsWordChar(s[j])
    decreases |s| - i
  {
    if i == |s| || !IsWordChar(s[i]) then i else WordEnd(s, i + 1)
  }

  /** The end of the run of aggregate-argument characters starting at `i`. */
  function ArgEnd(s: string, i: nat): (j: nat)
    requires i <= |s|
    ensures i <= j <= |s|
    ensures forall k :: i <= k < j ==> IsArgChar(s[k])
    ensures j < |s| ==> !IsArgChar(s[j])
    decreases |s| - i
  {
    if i == |s| || !IsArgChar(s[i]) then i else ArgEnd(s, i + 1)
  }

  /** A run of whitespace from `i` to `j` that stops at `j` ends exactly there. */
  lemma {:induction false} SpaceEndIs(s: string, i: nat, j: nat)
    requires i <= j <= |s|
    requires forall k :: i <= k < j ==> IsRegexSpace(s[k])
    requires j == |s| || !IsRegexSpace(s[j])
    ensures SpaceEnd(s, i) == j
    decreases j - i
  {
    if i < j {
      SpaceEndIs(s, i + 1, j);
    }
  }

  lemma {:induction false} WordEndIs(s: string, i: nat, j: nat)
    requires i <= j <= |s|
    requires forall k :: i <= k < j ==> IsWordChar(s[k])
    requires j == |s| || !IsWordChar(s[j])
    ensures WordEnd(s, i) == j
    decreases j - i
  {
    if i < j {
      WordEndIs(s, i + 1, j);
    }
  }

  lemma {:induction false} ArgEndIs(s: string, i: nat, j: nat)
    requires i <= j <= |s|
    requires forall k :: i <= k < j ==> IsArgChar(s[k])
    requires j == |s| || !IsArgChar(s[j])
    ensures ArgEnd(s, i) == j
    decreases j - i
  {
    if i < j {
      ArgEndIs(s, i + 1, j);
    }
  }

  // ---------------------------------------------------------------------------
  // The alias `(\s+as\s+[a-zA-Z0-9_]+)?$`
  // ---------------------------------------------------------------------------

  /** Scanner for the optional alias on the text from index `i`. */
  predicate MatchAliasTail(s: string, i: nat)
    requires i <= |s|
  {
    i == |s| ||
    (var j := SpaceEnd(s, i);
     i < j && j + 2 <= |s| && s[j] == 'a' && s[j + 1] == 's' &&
     var k := SpaceEnd(s, j + 2);
     j + 2 < k < |s| && WordEnd(s, k) == |s|)
  }

  /** The optional alias as the regular expression describes it. */
  ghost predicate AliasTailShape(t: string) {
    t == [] ||
    exists w1, w2, alias :: t == w1 + "as" + w2 + alias &&
      |w1| > 0 && AllSpaces(w1) && |w2| > 0 && AllSpaces(w2) && IsWord(alias)
  }

  lemma MatchAliasTailIff(s: string, i: nat)
    requires i <= |s|
    ensures MatchAliasTail(s, i) <==> AliasTailShape(s[i..])
  {
    if MatchAliasTail(s, i) && i < |s| {
      var j := SpaceEnd(s, i);
      var k := SpaceEnd(s, j + 2);
      AliasPiecesJoin(s, i, j, k);
    }
    if AliasTailShape(s[i..]) && i < |s| {
      var w1, w2, alias :| s[i..] == w1 + "as" + w2 + alias &&
        |w1| > 0 && AllSpaces(w1) && |w2| > 0 && AllSpaces(w2) && IsWord(alias);
      AliasScans(s, i, w1, w2, alias);
    }
  }

  /** The scanner for a whole text holding only the optional alias. */
  predicate MatchAlias(t: string) {
    MatchAliasTail(t, 0)
  }

  lemma MatchAliasIff(t: string)
    ensures MatchAlias(t) <==> AliasTailShape(t)
  {
    MatchAliasTailIff(t, 0);
    assert t[0..] == t;
  }

  lemma AliasPiecesJoin(s: string, i: nat, j: nat, k: nat)
    requires i < j && j + 2 < k < |s|
    requires forall m :: i <= m < j ==> IsRegexSpace(s[m])
    requires forall m :: j + 2 <= m < k ==> IsRegexSpace(s[m])
    requires s[j] == 'a' && s[j + 1] == 's' && WordEnd(s, k) == |s|
    ensures AliasTailShape(s[i..])
  {
    var w1, w2, alias := s[i..j], s[j + 2..k], s[k..];
    assert s[j..j + 2] == "as";
    assert s[i..] == w1 + "as" + w2 + alias;
    assert AllSpaces(w1);
    assert AllSpaces(w2);
    assert IsWord(alias);
  }

  lemma AliasScans(s: string, i: nat, w1: string, w2: string, alias: string)
    requires i <= |s| && s[i..] == w1 + "as" + w2 + alias
    requires |w1| > 0 && AllSpaces(w1) && |w2| > 0 && AllSpaces(w2) && IsWord(alias)
    ensures MatchAliasTail(s, i)
  {
    var j := i + |w1|;
    var k := j + 2 + |w2|;
    assert forall m :: i <= m < j ==> s[m] == s[i..][m - i] == w1[m - i];
    assert s[j] == s[i..][|w1|] == 'a';
    assert s[j + 1] == s[i..][|w1| + 1] == 's';
    assert forall m :: j + 2 <= m < k ==> s[m] == s[i..][m - i] == w2[m - j - 2];
    assert forall m :: k <= m < |s| ==> s[m] == s[i..][m - i] == alias[m - k];
    SpaceEndIs(s, i, j);
    SpaceEndIs(s, j + 2, k);
    WordEndIs(s, k, |s|);
  }

  // ---------------------------------------------------------------------------
  // Aggregate columns `^(SUM|COUNT|AVG|MAX|MIN)\([a-zA-Z0-9_\*]+\)(\s+as\s+[a-zA-Z0-9_]+)?$`
  // ---------------------------------------------------------------------------

  /** Scanner for the argument, the closing parenthesis and the alias from index `i`. */
  predicate MatchArgAndTail(s: string, i: nat)
    requires i <= |s|
  {
    var k := ArgEnd(s, i);
    i < k < |s| && s[k] == ')' && MatchAlias(s[k + 1..])
  }

  /** Scanner for an aggregate column. */
  predicate MatchAggregate(col: string) {
    exists f :: f in AggregateFunctions && StartsWith(col, f + "(") && MatchArgAndTail(col, |f| + 1)
  }

  /** The aggregate column as the regular expression describes it. */
  ghost predicate AggregateShape(col: string) {
    exists f, arg, tail :: f in AggregateFunctions && col == f + "(" + arg + ")" + tail &&
      IsAggregateArg(arg) && AliasTailShape(tail)
  }

  /** An aggregate column holds a function name of three or more letters and two parentheses. */
  lemma ShortIsNotAggregate(col: string)
    requires |col| < 5
    ensures !AggregateShape(col)
  {
    forall f, arg, tail | f in AggregateFunctions
      ensures col != f + "(" + arg + ")" + tail
    {
      assert |f| >= 3;
    }
  }

  lemma MatchAggregateIff(col: string)
    ensures MatchAggregate(col) <==> AggregateShape(col)
  {
    if MatchAggregate(col) {
      var f :| f in AggregateFunctions && StartsWith(col, f + "(") && MatchArgAndTail(col, |f| + 1);
      AggregatePiecesJoin(col, f);
    }
    if AggregateShape(col) {
      var f, arg, tail :| f in AggregateFunctions && col == f + "(" + arg + ")" + tail &&
        IsAggregateArg(arg) && AliasTailShape(tail);
      AggregateScans(col, f, arg, tail);
    }
  }

  lemma AggregatePiecesJoin(col: string, f: string)
    requires f in AggregateFunctions && StartsWith(col, f + "(") && MatchArgAndTail(col, |f| + 1)
    ensures AggregateShape(col)
  {
    var k := ArgEnd(col, |f| + 1);
    MatchAliasIff(col[k + 1..]);
    ArgTailPieces(col, f, k);
  }

  /** A column cut at the argument's end `k` is an aggregate call of `f`. */
  lemma ArgTailPieces(col: string, f: string, k: nat)
    requires f in AggregateFunctions && |f| + 1 < k < |col| && col[..|f| + 1] == f + "("
    requires forall m :: |f| + 1 <= m < k ==> IsArgChar(col[m])
    requires col[k] == ')' && AliasTailShape(col[k + 1..])
    ensures AggregateShape(col)
  {
    AggregateJoin(col, f, k);
    var arg, tail := col[|f| + 1..k], col[k + 1..];
    assert f in AggregateFunctions && col == f + "(" + arg + ")" + tail &&
      IsAggregateArg(arg) && AliasTailShape(tail);
  }

  /** The pieces of a column cut at `|f| + 1` and `k` join back to the column. */
  lemma AggregateJoin(col: string, f: string, k: nat)
    requires |f| + 1 < k < |col| && col[..|f| + 1] == f + "("
    requires forall m :: |f| + 1 <= m < k ==> IsArgChar(col[m])
    requires col[k] == ')'
    ensures col == f + "(" + col[|f| + 1..k] + ")" + col[k + 1..]
    ensures IsAggregateArg(col[|f| + 1..k])
  {
    var a := |f| + 1;
    assert col[k..k + 1] == ")";
    assert col == col[..a] + col[a..k] + col[k..k + 1] + col[k + 1..];
  }

  lemma AggregateScans(col: string, f: string, arg: string, tail: string)
    requires col == f + "(" + arg + ")" + tail
    requires IsAggregateArg(arg) && AliasTailShape(tail)
    ensures StartsWith(col, f + "(") && MatchArgAndTail(col, |f| + 1)
  {
    AggregateCut(col, f, arg, tail);
    MatchAliasIff(tail);
    ScansFromCut(col, f, arg, tail);
  }

  /** The scanner accepts a column whose argument and alias sit at the given places. */
  lemma ScansFromCut(col: string, f: string, arg: string, tail: string)
    requires |f| + 1 + |arg| < |col| && col[|f| + 1 + |arg|] == ')' && |arg| > 0
    requires col[|f| + |arg| + 2..] == tail && MatchAlias(tail)
    requires forall m :: |f| + 1 <= m < |f| + 1 + |arg| ==> IsArgChar(col[m])
    ensures MatchArgAndTail(col, |f| + 1)
  {
    ArgTailScans(col, |f| + 1, |f| + 1 + |arg|);
  }

  /** Where the pieces of `f(arg)tail` sit in the column. */
  lemma AggregateCut(col: string, f: string, arg: string, tail: string)
    requires col == f + "(" + arg + ")" + tail && IsAggregateArg(arg)
    ensures StartsWith(col, f + "(")
    ensures |f| + 1 + |arg| < |col| && col[|f| + 1 + |arg|] == ')'
    ensures col[|f| + |arg| + 2..] == tail
    ensures forall m :: |f| + 1 <= m < |f| + 1 + |arg| ==> IsArgChar(col[m])
  {
    var a := |f| + 1;
    assert col[..a] == f + "(";
    forall m | a <= m < a + |arg| ensures IsArgChar(col[m]) {
      assert col[m] == arg[m - a];
    }
    assert col[|f| + |arg| + 2..] == tail;
  }

  /** The scanner accepts an argument run from `a` to `k`, a `)` and an alias. */
  lemma ArgTailScans(s: string, a: nat, k: nat)
    requires a < k < |s|
    requires s[k] == ')'
    requires MatchAlias(s[k + 1..])
    requires forall m :: a <= m < k ==> IsArgChar(s[m])
    ensures MatchArgAndTail(s, a)
  {
    ArgEndIs(s, a, k);
  }

  /**
   * `sanitizeColumn`: a bare identifier or an aggregate call (with an
   * optional lower-case `as` alias) is kept verbatim, anything else becomes
   * the harmless constant `1`.
   */
  function SanitizeColumn(col: string): (r: string)
    ensures IsWord(col) || AggregateShape(col) ==> r == col
    ensures !(IsWord(col) || AggregateShape(col)) ==> r == "1"
  {
    MatchAggregateIff(col);
    if IsWord(col) || MatchAggregate(col) then col else "1"
  }

  // ---------------------------------------------------------------------------
  // ORDER BY items `^[a-zA-Z0-9_]+(\s+(ASC|DESC))?$`
  // ---------------------------------------------------------------------------

  /** Scanner for an ORDER BY item. */
  predicate MatchOrderItem(s: string) {
    var n := WordEnd(s, 0);
    0 < n &&
    (n == |s| || (var m := SpaceEnd(s, n); n < m && (s[m..] == "ASC" || s[m..] == "DESC")))
  }

  /** The ORDER BY item as the regular expression describes it. */
  ghost predicate OrderItemShape(s: string) {
    IsWord(s) ||
    exists col, ws, dir :: s == col + ws + dir && IsWord(col) && |ws| > 0 && AllSpaces(ws) &&
      (dir == "ASC" || dir == "DESC")
  }

  lemma MatchOrderItemIff(s: string)
    ensures MatchOrderItem(s) <==> OrderItemShape(s)
  {
    var n := WordEnd(s, 0);
    if MatchOrderItem(s) {
      if n == |s| {
        assert IsWord(s);
      } else {
        OrderPiecesJoin(s, n, SpaceEnd(s, n));
      }
    }
    if OrderItemShape(s) {
      if IsWord(s) {
        WordEndIs(s, 0, |s|);
      } else {
        var col, ws, dir :| s == col + ws + dir && IsWord(col) && |ws| > 0 && AllSpaces(ws) &&
          (dir == "ASC" || dir == "DESC");
        OrderItemScans(s, col, ws, dir);
      }
    }
  }

  lemma OrderPiecesJoin(s: string, n: nat, m: nat)
    requires 0 < n < m <= |s|
    requires forall k :: 0 <= k < n ==> IsWordChar(s[k])
    requires forall k :: n <= k < m ==> IsRegexSpace(s[k])
    requires s[m..] == "ASC" || s[m..] == "DESC"
    ensures OrderItemShape(s)
  {
    assert s == s[..n] + s[n..m] + s[m..];
    assert IsWord(s[..n]);
    assert AllSpaces(s[n..m]);
  }

  lemma OrderItemScans(s: string, col: string, ws: string, dir: string)
    requires s == col + ws + dir && IsWord(col) && |ws| > 0 && AllSpaces(ws)
    requires dir == "ASC" || dir == "DESC"
    ensures MatchOrderItem(s)
  {
    var n := |col|;
    var m := n + |ws|;
    assert forall k :: 0 <= k < n ==> s[k] == col[k];
    assert forall k :: n <= k < m ==> s[k] == ws[k - n];
    assert s[m..] == dir;
    assert s[m] == dir[0];
    WordEndIs(s, 0, n);
    SpaceEndIs(s, n, m);
  }

  // ---------------------------------------------------------------------------
  // Values
  // ---------------------------------------------------------------------------

  /** `s.replace("'", "''")` */
  function Escape(s: string): string {
    ReplaceAll(s, "'", "''")
  }

  /**
   * How an SQL lexer reads the body of a string literal after its opening
   * quote: `''` stands for one quote and a lone `'` closes the literal.
   * Yields the literal's text and what follows the closing quote.
   */
  function ReadLiteral(t: string): Option<(string, string)>
    decreases |t|
  {
    if t == [] then None
    else if t[0] == '\'' then
      if |t| >= 2 && t[1] == '\'' then
        match ReadLiteral(t[2..])
        case None => None
        case Some(p) => Some(("'" + p.0, p.1))
      else Some(("", t[1..]))
    else
      match ReadLiteral(t[1..])
      case None => None
      case Some(p) => Some(([t[0]] + p.0, p.1))
  }

  /**
   * A doubled-quote escaped text followed by a closing quote reads back as
   * exactly the original text, and the literal ends at that quote.
   */
  lemma {:induction false} EscapeReadsBack(s: string, rest: string)
    requires rest == [] || rest[0] != '\''
    ensures ReadLiteral(Escape(s) + "'" + rest) == Some((s, rest))
  {
    if s == [] {
      assert Escape(s) == "";
      assert Escape(s) + "'" + rest == "'" + rest;
      assert ("'" + rest)[1..] == rest;
    } else {
      EscapeReadsBack(s[1..], rest);
      if s[0] == '\'' {
        ReadDoubledQuote(s, rest);
      } else {
        ReadPlainChar(s, rest);
      }
    }
  }

  /** A leading quote is escaped as `''`, which the lexer reads as one quote. */
  lemma ReadDoubledQuote(s: string, rest: string)
    requires s != [] && s[0] == '\''
    requires ReadLiteral(Escape(s[1..]) + "'" + rest) == Some((s[1..], rest))
    ensures ReadLiteral(Escape(s) + "'" + rest) == Some((s, rest))
  {
    assert s[..1] == "'";
    assert Escape(s) == "''" + Escape(s[1..]);
    var t := Escape(s) + "'" + rest;
    assert t[2..] == Escape(s[1..]) + "'" + rest;
    assert "'" + s[1..] == s;
  }

  /** Any other leading character is copied, and the lexer reads it as itself. */
  lemma ReadPlainChar(s: string, rest: string)
    requires s != [] && s[0] != '\''
    requires ReadLiteral(Escape(s[1..]) + "'" + rest) == Some((s[1..], rest))
    ensures ReadLiteral(Escape(s) + "'" + rest) == Some((s, rest))
  {
    assert s[..1] != "'";
    assert Escape(s) == [s[0]] + Escape(s[1..]);
    var t := Escape(s) + "'" + rest;
    assert t[1..] == Escape(s[1..]) + "'" + rest;
    assert [s[0]] + s[1..] == s;
  }

  /** The date-function prefixes that may be emitted without quotes. */
  predicate IsTimeExpression(upper: string) {
    StartsWith(upper, "CURDATE()") || StartsWith(upper, "NOW()") ||
    StartsWith(upper, "CURRENT_DATE") || StartsWith(upper, "CURRENT_TIMESTAMP") ||
    StartsWith(upper, "DATE_SUB") || StartsWith(upper, "DATE_ADD") ||
    (Contains(upper, "INTERVAL") && (StartsWith(upper, "CURDATE") || StartsWith(upper, "NOW")))
  }

  /** `[a-zA-Z0-9_()+\-\s]` */
  predicate IsExpressionChar(c: char) {
    IsWordChar(c) || c == '(' || c == ')' || c == '+' || c == '-' || IsRegexSpace(c)
  }

  /** `^[a-zA-Z0-9_()+\-\s]+$` */
  predicate IsSafeExpression(s: string) {
    |s| > 0 && forall i :: 0 <= i < |s| ==> IsExpressionChar(s[i])
  }

  /**
   * A text that `formatValue` emits without quotes: its upper-cased, trimmed
   * form starts with a whitelisted date function and it uses only the safe
   * characters.
   */
  predicate IsUnquotedExpression(s: string) {
    IsTimeExpression(Trim(JavaTrim, Upper(s))) && IsSafeExpression(s)
  }

  /** `'` + the escaped text + `'` */
  function Quote(s: string): string {
    "'" + Escape(s) + "'"
  }

  /** A quoted text is one SQL literal whose value is the original text. */
  lemma QuoteReadsBack(s: string)
    ensures |Quote(s)| >= 2 && Quote(s)[0] == '\''
    ensures ReadLiteral(Quote(s)[1..]) == Some((s, ""))
  {
    EscapeReadsBack(s, "");
    assert Quote(s)[1..] == Escape(s) + "'" + "";
  }

  /** `formatValue` for the text of a non-numeric value. */
  function FormatText(s: string): string
  {
    if IsUnquotedExpression(s) then s else Quote(s)
  }

  /**
   * A text is emitted unquoted only when it is a whitelisted date
   * expression, and then it holds no quote; every other text becomes a
   * quoted literal that reads back as exactly the original text.
   */
  lemma FormatTextSafe(s: string)
    ensures IsUnquotedExpression(s) ==> FormatText(s) == s && '\'' !in FormatText(s)
    ensures !IsUnquotedExpression(s) ==>
              |FormatText(s)| >= 2 && FormatText(s)[0] == '\'' && ReadLiteral(FormatText(s)[1..]) == Some((s, ""))
  {
    if !IsUnquotedExpression(s) {
      QuoteReadsBack(s);
    } else {
      SafeHasNoQuote(s);
    }
  }

  lemma SafeHasNoQuote(s: string)
    requires IsSafeExpression(s)
    ensures '\'' !in s
  {
    forall i | 0 <= i < |s| ensures s[i] != '\'' {
      assert IsExpressionChar(s[i]);
    }
  }

  /** `formatValue`: `NULL`, the decimal text of a number, or `FormatText` of the text. */
  function FormatValue(v: Value): (r: string)
    ensures v == Null ==> r == "NULL"
    ensures v.Num? ==> r == IntToString(v.n)
    ensures v.Str? ==> r == FormatText(v.s)
    ensures v.Other? ==> r == FormatText(v.repr)
  {
    match v
    case Null => "NULL"
    case Num(n) => IntToString(n)
    case Str(s) => FormatText(s)
    case Other(repr) => FormatText(repr)
  }
}
