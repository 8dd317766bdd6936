/**
 * Where each piece of a compiled query is read: a lexer for MySQL's
 * comments and single-quoted literals. `formatValue` emits a date
 * expression without quotes when it uses only the safe characters, and
 * those include `-`: a value ending in `--` opens a comment that swallows
 * the rest of the query, the row-level `branch` condition and the LIMIT
 * among it. The corrected formatter quotes such a value too; a query it
 * formats is read as code from end to end, the scope's condition included.
 */
module SqlLexer {
  import opened Common
  import opened Text
  import opened SqlPatterns
  import opened SafeQueryBuilder

  // ---------------------------------------------------------------------------
  // The lexer
  // ---------------------------------------------------------------------------

  /**
   * The lexer's state. `--`, `#` and a `/` followed by `*` open a comment, a quote opens a
   * literal, and inside a literal `''` stands for one quote. The lexer lets
   * a comment run to the end of the text and takes every `--` for one
   * (MySQL also wants a blank after it), so a text in which it finds no
   * comment holds none for MySQL either.
   */
  datatype LexState =
    | Code          // reading SQL
    | Dash          // after a `-` of code
    | Slash         // after a `/` of code
    | InLiteral     // inside a quoted literal
    | LiteralQuote  // after a quote in a literal: its end, unless another quote follows
    | Comment       // inside a comment

  /** A character read as code. */
  function CodeStep(c: char): LexState {
    if c == '\'' then InLiteral
    else if c == '-' then Dash
    else if c == '/' then Slash
    else if c == '#' then Comment
    else Code
  }

  function Step(st: LexState, c: char): LexState {
    match st
    case Code => CodeStep(c)
    case Dash => if c == '-' then Comment else CodeStep(c)
    case Slash => if c == '*' then Comment else CodeStep(c)
    case InLiteral => if c == '\'' then LiteralQuote else InLiteral
    case LiteralQuote => if c == '\'' then InLiteral else CodeStep(c)
    case Comment => Comment
  }

  /** The state after reading `s` from state `st`. */
  function Lex(st: LexState, s: string): LexState
    decreases |s|
  {
    if s == [] then st else Lex(Step(st, s[0]), s[1..])
  }

  /** The lexer is reading code: it is neither inside a literal nor inside a comment. */
  predicate InCode(st: LexState) {
    st == Code || st == Dash || st == Slash || st == LiteralQuote
  }

  /** Reading two texts one after the other is reading their concatenation. */
  lemma {:induction false} LexAppend(st: LexState, a: string, b: string)
    ensures Lex(st, a + b) == Lex(Lex(st, a), b)
    decreases |a|
  {
    if a == [] {
      assert a + b == b;
    } else {
      assert (a + b)[0] == a[0] && (a + b)[1..] == a[1..] + b;
      LexAppend(Step(st, a[0]), a[1..], b);
    }
  }

  /** Once a comment is open, everything after it is comment. */
  lemma {:induction false} CommentRunsToTheEnd(s: string)
    ensures Lex(Comment, s) == Comment
    decreases |s|
  {
    if s != [] {
      CommentRunsToTheEnd(s[1..]);
    }
  }

  // ---------------------------------------------------------------------------
  // Plain text: identifiers, keywords, digits and blanks
  // ---------------------------------------------------------------------------

  /** A character that opens neither a literal nor a comment, nor starts `--` or a `/` before `*`. */
  predicate IsPlainChar(c: char) {
    c != '\'' && c != '-' && c != '/' && c != '#'
  }

  predicate IsPlain(s: string) {
    forall c :: c in s ==> IsPlainChar(c)
  }

  lemma PlainConcat(a: string, b: string)
    requires IsPlain(a) && IsPlain(b)
    ensures IsPlain(a + b)
  {
  }

  lemma PlainTail(s: string)
    requires IsPlain(s) && s != []
    ensures IsPlainChar(s[0]) && IsPlain(s[1..])
  {
    assert s[0] in s;
    assert forall c :: c in s[1..] ==> c in s;
  }

  /** Plain text read as code leaves the lexer reading code. */
  lemma {:induction false} PlainStaysCode(s: string)
    requires IsPlain(s)
    ensures Lex(Code, s) == Code
    decreases |s|
  {
    if s != [] {
      PlainTail(s);
      PlainStaysCode(s[1..]);
    }
  }

  /** A plain text that starts with a blank closes a pending `-`, `/` or literal: code follows. */
  lemma PlainAfterBlank(st: LexState, s: string)
    requires InCode(st) && IsPlain(s) && |s| > 0 && s[0] == ' '
    ensures Lex(st, s) == Code
  {
    assert Step(st, s[0]) == Code;
    PlainTail(s);
    PlainStaysCode(s[1..]);
  }

  lemma WordIsPlain(w: string)
    requires IsWord(w)
    ensures IsPlain(w)
  {
    forall c | c in w
      ensures IsPlainChar(c)
    {
      var i :| 0 <= i < |w| && w[i] == c;
      assert IsWordChar(w[i]);
    }
  }

  lemma DigitsArePlain(d: string)
    requires AllDigits(d)
    ensures IsPlain(d)
  {
    forall c | c in d
      ensures IsPlainChar(c)
    {
      var i :| 0 <= i < |d| && d[i] == c;
      assert IsDigit(d[i]);
    }
  }

  lemma SpacesArePlain(w: string)
    requires AllSpaces(w)
    ensures IsPlain(w)
  {
    forall c | c in w
      ensures IsPlainChar(c)
    {
      var i :| 0 <= i < |w| && w[i] == c;
      assert IsRegexSpace(w[i]);
    }
  }

  /** Parts that are plain, joined by a plain separator, are plain. */
  lemma {:induction false} JoinPlain(parts: seq<string>, sep: string)
    requires IsPlain(sep)
    requires forall i :: 0 <= i < |parts| ==> IsPlain(parts[i])
    ensures IsPlain(Join(parts, sep))
    decreases |parts|
  {
    if |parts| > 1 {
      JoinPlain(parts[1..], sep);
      PlainConcat(parts[0], sep);
      PlainConcat(parts[0] + sep, Join(parts[1..], sep));
    }
  }

  // ---------------------------------------------------------------------------
  // The clauses around the conditions are plain
  // ---------------------------------------------------------------------------

  /** A sanitised column is an identifier, an aggregate with an optional alias, or `1`. */
  lemma SanitizedColumnIsPlain(col: string)
    ensures IsPlain(SanitizeColumn(col))
  {
    if IsWord(col) {
      WordIsPlain(col);
    } else if AggregateShape(col) {
      var f, arg, tail :| f in AggregateFunctions && col == f + "(" + arg + ")" + tail &&
        IsAggregateArg(arg) && AliasTailShape(tail);
      AggregateIsPlain(f, arg, tail);
    } else {
      assert SanitizeColumn(col) == "1";
    }
  }

  lemma AggregateIsPlain(f: string, arg: string, tail: string)
    requires f in AggregateFunctions && IsAggregateArg(arg) && AliasTailShape(tail)
    ensures IsPlain(f + "(" + arg + ")" + tail)
  {
    assert IsPlain(f);
    assert IsPlain(arg) by {
      forall c | c in arg ensures IsPlainChar(c) {
        var i :| 0 <= i < |arg| && arg[i] == c;
        assert IsArgChar(arg[i]);
      }
    }
    AliasIsPlain(tail);
    assert IsPlain("(") && IsPlain(")");
  }

  lemma AliasIsPlain(tail: string)
    requires AliasTailShape(tail)
    ensures IsPlain(tail)
  {
    if tail != [] {
      var w1, w2, alias :| tail == w1 + "as" + w2 + alias &&
        |w1| > 0 && AllSpaces(w1) && |w2| > 0 && AllSpaces(w2) && IsWord(alias);
      SpacesArePlain(w1);
      SpacesArePlain(w2);
      WordIsPlain(alias);
      assert IsPlain("as");
    }
  }

  lemma SelectFromIsPlain(req: QueryRequest)
    requires IsValidName(req.table)
    ensures IsPlain(SelectFrom(req))
  {
    var list := ColumnList(req.columns);
    assert IsPlain(list) by {
      if req.columns.Some? && req.columns.value != [] {
        var items := ProjectedItems(req.columns.value);
        forall i | 0 <= i < |items| ensures IsPlain(items[i]) {
          SanitizedColumnIsPlain(req.columns.value[i]);
        }
        JoinPlain(items, ", ");
      }
    }
    WordIsPlain(req.table.value);
    PlainConcat("SELECT ", list);
    PlainConcat("SELECT " + list, " FROM ");
    PlainConcat("SELECT " + list + " FROM ", req.table.value);
  }

  lemma OrderItemIsPlain(s: string)
    requires MatchOrderItem(s)
    ensures IsPlain(s)
  {
    MatchOrderItemIff(s);
    OrderShapeIsPlain(s);
  }

  lemma OrderShapeIsPlain(s: string)
    requires OrderItemShape(s)
    ensures IsPlain(s)
  {
    if IsWord(s) {
      WordIsPlain(s);
    } else {
      var col, ws, dir :| s == col + ws + dir && IsWord(col) && |ws| > 0 && AllSpaces(ws) &&
        (dir == "ASC" || dir == "DESC");
      WordIsPlain(col);
      SpacesArePlain(ws);
      DirectionIsPlain(dir);
      PlainConcat(col, ws);
      PlainConcat(col + ws, dir);
    }
  }

  lemma DirectionIsPlain(dir: string)
    requires dir == "ASC" || dir == "DESC"
    ensures IsPlain(dir)
  {
    if dir == "ASC" {
      assert IsPlain("ASC");
    } else {
      assert IsPlain("DESC");
    }
  }

  /** A clause that is empty or a plain text starting with a blank. */
  predicate IsPlainClause(t: string) {
    IsPlain(t) && (t == [] || t[0] == ' ')
  }

  lemma GroupByIsPlain(groups: Option<seq<string>>)
    ensures IsPlainClause(GroupByClause(groups))
  {
    if GroupByClause(groups) != "" {
      var kept := FilterSeq(IsWord, groups.value);
      forall i | 0 <= i < |kept| ensures IsPlain(kept[i]) { WordIsPlain(kept[i]); }
      JoinPlain(kept, ", ");
      assert IsPlain(" GROUP BY ") && IsPlain(", ");
    }
  }

  lemma OrderByIsPlain(orders: Option<seq<string>>)
    ensures IsPlainClause(OrderByClause(orders))
  {
    if OrderByClause(orders) != "" {
      var kept := FilterSeq(MatchOrderItem, orders.value);
      forall i | 0 <= i < |kept| ensures IsPlain(kept[i]) { OrderItemIsPlain(kept[i]); }
      JoinPlain(kept, ", ");
      assert IsPlain(" ORDER BY ") && IsPlain(", ");
    }
  }

  lemma LimitIsPlain(limit: Option<int>)
    ensures IsPlainClause(LimitClause(limit)) && LimitClause(limit) != []
  {
    DigitsArePlain(NatToString(LimitValue(limit)));
    assert IsPlain(" LIMIT ");
  }

  /**
   * What follows the conditions, GROUP BY, ORDER BY and LIMIT, is plain and
   * starts with a blank.
   */
  lemma ClosingClausesArePlain(req: QueryRequest)
    ensures var t := GroupByClause(req.groupBy) + OrderByClause(req.orderBy) + LimitClause(req.limit);
      IsPlain(t) && |t| > 0 && t[0] == ' '
  {
    var g := GroupByClause(req.groupBy);
    var o := OrderByClause(req.orderBy);
    var l := LimitClause(req.limit);
    GroupByIsPlain(req.groupBy);
    OrderByIsPlain(req.orderBy);
    LimitIsPlain(req.limit);
    PlainClauses(g, o, l);
  }

  lemma PlainClauses(g: string, o: string, l: string)
    requires IsPlainClause(g) && IsPlainClause(o) && IsPlainClause(l) && l != []
    ensures IsPlain(g + o + l) && |g + o + l| > 0 && (g + o + l)[0] == ' '
  {
    if g != "" {
      assert (g + o + l)[0] == g[0];
    } else if o != "" {
      assert g + o + l == o + l;
    } else {
      assert g + o + l == l;
    }
  }

  // ---------------------------------------------------------------------------
  // Values
  // ---------------------------------------------------------------------------

  /** Escaped text stays inside the literal: every quote in it is doubled. */
  lemma {:induction false} EscapedStaysInLiteral(s: string)
    ensures Lex(InLiteral, Escape(s)) == InLiteral
    decreases |s|
  {
    if s == [] {
      assert Escape(s) == "";
    } else {
      EscapedStaysInLiteral(s[1..]);
      if s[0] == '\'' {
        assert s[..1] == "'";
        assert Escape(s) == "''" + Escape(s[1..]);
        LexAppend(InLiteral, "''", Escape(s[1..]));
      } else {
        assert s[..1] != "'";
        assert Escape(s) == [s[0]] + Escape(s[1..]);
        LexAppend(InLiteral, [s[0]], Escape(s[1..]));
      }
    }
  }

  /** A quoted text, read as code, is one literal, closed at its last quote. */
  lemma QuotedLiteralCloses(s: string)
    ensures Lex(Code, Quote(s)) == LiteralQuote
  {
    LexAppend(Code, "'" + Escape(s), "'");
    LexAppend(Code, "'", Escape(s));
    EscapedStaysInLiteral(s);
  }

  /** Text without a quote stays inside the literal it is written in. */
  lemma {:induction false} UnquotedStaysInLiteral(s: string)
    requires '\'' !in s
    ensures Lex(InLiteral, s) == InLiteral
    decreases |s|
  {
    if s != [] {
      assert s[0] in s;
      assert forall c :: c in s[1..] ==> c in s;
      UnquotedStaysInLiteral(s[1..]);
    }
  }

  /** A decimal number is plain but for a leading minus, which the first digit closes. */
  lemma NumberStaysCode(n: int)
    ensures Lex(Code, IntToString(n)) == Code
  {
    var d := NatToString(if n < 0 then -n else n);
    DigitsArePlain(d);
    if n < 0 {
      LexAppend(Code, "-", d);
      assert Lex(Code, "-") == Dash;
      assert Step(Dash, d[0]) == Code;
      PlainTail(d);
      PlainStaysCode(d[1..]);
    } else {
      PlainStaysCode(d);
    }
  }

  /** `s.contains("--")`: some `-` is followed by another. */
  lemma DoubleDash(s: string)
    ensures Contains(s, "--") <==> exists i :: 0 <= i < |s| - 1 && s[i] == '-' && s[i + 1] == '-'
  {
    if Contains(s, "--") {
      var i :| 0 <= i <= |s| - 2 && OccursAt(s, "--", i);
      assert s[i..i + 2][0] == s[i] && s[i..i + 2][1] == s[i + 1];
    }
    if exists i :: 0 <= i < |s| - 1 && s[i] == '-' && s[i + 1] == '-' {
      var i :| 0 <= i < |s| - 1 && s[i] == '-' && s[i + 1] == '-';
      assert s[i..i + 2] == "--";
      assert OccursAt(s, "--", i);
    }
  }

  /**
   * The date-function characters minus `--`: letters, digits, `_`, blanks,
   * parentheses, `+` and single `-`s keep the lexer reading code.
   */
  lemma {:induction false} ExpressionStaysCode(st: LexState, s: string)
    requires st == Code || st == Dash
    requires forall i :: 0 <= i < |s| ==> IsExpressionChar(s[i])
    requires forall i :: 0 <= i < |s| - 1 ==> !(s[i] == '-' && s[i + 1] == '-')
    requires st == Dash && s != [] ==> s[0] != '-'
    ensures Lex(st, s) == Code || Lex(st, s) == Dash
    decreases |s|
  {
    if s != [] {
      assert IsExpressionChar(s[0]);
      var next := Step(st, s[0]);
      assert next == (if s[0] == '-' then Dash else Code);
      var t := s[1..];
      assert forall i :: 0 <= i < |t| ==> t[i] == s[i + 1];
      assert next == Dash && t != [] ==> t[0] != '-' by {
        if next == Dash && t != [] {
          assert s[0] == '-';
        }
      }
      ExpressionStaysCode(next, t);
    }
  }

  /** An expression `formatValue` may emit unquoted, with no `--` in it. */
  predicate IsCommentFreeExpression(s: string) {
    IsUnquotedExpression(s) && !Contains(s, "--")
  }

  /** The corrected `formatValue` for text: an expression holding `--` is quoted like any other text. */
  function SafeFormatText(s: string): string {
    if IsCommentFreeExpression(s) then s else Quote(s)
  }

  /** The corrected `formatValue`. */
  function SafeFormatValue(v: Value): string {
    match v
    case Null => "NULL"
    case Num(n) => IntToString(n)
    case Str(s) => SafeFormatText(s)
    case Other(repr) => SafeFormatText(repr)
  }

  /** A value that `formatValue` emits unquoted although it holds `--`. */
  predicate OpensComment(v: Value) {
    (v.Str? && IsUnquotedExpression(v.s) && Contains(v.s, "--")) ||
    (v.Other? && IsUnquotedExpression(v.repr) && Contains(v.repr, "--"))
  }

  /** The correction changes the text of exactly the values that open a comment. */
  lemma CorrectionOnlyQuotesComments(v: Value)
    ensures SafeFormatValue(v) == FormatValue(v) <==> !OpensComment(v)
  {
    if OpensComment(v) {
      var t := if v.Str? then v.s else v.repr;
      SafeHasNoQuote(t);
      assert FormatValue(v) == t && SafeFormatValue(v) == Quote(t);
      assert Quote(t)[0] == '\'';
      assert t != [] && t[0] != '\'' by { assert t[0] in t; }
    }
  }

  /** Every value the corrected formatter writes leaves the lexer reading code. */
  lemma SafeValueInCode(v: Value)
    ensures InCode(Lex(Code, SafeFormatValue(v)))
  {
    match v
    case Null =>
      assert IsPlain("NULL");
      PlainStaysCode("NULL");
    case Num(n) =>
      NumberStaysCode(n);
    case Str(s) =>
      SafeTextInCode(s);
    case Other(repr) =>
      SafeTextInCode(repr);
  }

  lemma SafeTextInCode(s: string)
    ensures InCode(Lex(Code, SafeFormatText(s)))
  {
    if IsCommentFreeExpression(s) {
      DoubleDash(s);
      ExpressionStaysCode(Code, s);
    } else {
      QuotedLiteralCloses(s);
    }
  }

  // ---------------------------------------------------------------------------
  // Conditions and the corrected compiler
  // ---------------------------------------------------------------------------

  /** The whitelisted operators are plain. */
  lemma OperatorIsPlain(op: string)
    requires IsValidOperator(op)
    ensures IsPlain(op)
  {
  }

  /** A filter rendered with the corrected formatter. */
  function SafeRenderFilter(f: Filter): string
    requires Kept(f)
  {
    f.column.value + " " + Upper(f.operator.value) + " " + SafeFormatValue(f.value)
  }

  /** `col OP value`, with the corrected value, leaves the lexer reading code. */
  lemma SafeConditionInCode(f: Filter)
    requires Kept(f)
    ensures InCode(Lex(Code, SafeRenderFilter(f)))
  {
    var col, op := f.column.value, Upper(f.operator.value);
    WordIsPlain(col);
    OperatorIsPlain(op);
    PlainConcat(col, " ");
    PlainConcat(col + " ", op);
    PlainConcat(col + " " + op, " ");
    PlainStaysCode(col + " " + op + " ");
    LexAppend(Code, col + " " + op + " ", SafeFormatValue(f.value));
    SafeValueInCode(f.value);
  }

  /** The surviving filters rendered with the corrected formatter, in order. */
  function SafeConditions(fs: seq<Filter>): seq<string>
  {
    if fs == [] then []
    else (if Kept(fs[0]) then [SafeRenderFilter(fs[0])] else []) + SafeConditions(fs[1..])
  }

  /** Where no value opens a comment, the corrected conditions are the original ones. */
  lemma {:induction false} SafeConditionsAgree(fs: seq<Filter>)
    requires forall i :: 0 <= i < |fs| ==> !OpensComment(fs[i].value)
    ensures SafeConditions(fs) == KeptConditions(fs)
    decreases |fs|
  {
    if fs != [] {
      CorrectionOnlyQuotesComments(fs[0].value);
      assert forall i :: 0 <= i < |fs[1..]| ==> fs[1..][i] == fs[i + 1];
      SafeConditionsAgree(fs[1..]);
    }
  }

  /**
   * `buildSql` with the corrected formatter: it throws as `buildSql` does and
   * differs only in the text of the values.
   */
  function CorrectedCompile(req: QueryRequest, scope: Option<string>): Result<string, BuildError>
  {
    if !IsValidName(req.table) then Failure(InvalidTable)
    else
      match UserConditions(FiltersOf(req))
      case Failure(e) => Failure(e)
      case Success(_) => Success(Assemble(req, SafeConditions(FiltersOf(req)) + ScopeConditions(scope)))
  }

  /** The correction changes no query whose values do not open a comment. */
  lemma CorrectedCompileAgrees(req: QueryRequest, scope: Option<string>)
    requires forall i :: 0 <= i < |FiltersOf(req)| ==> !OpensComment(FiltersOf(req)[i].value)
    ensures CorrectedCompile(req, scope) == Compile(req, scope)
  {
    UserConditionsSpec(FiltersOf(req));
    SafeConditionsAgree(FiltersOf(req));
  }

  /** Conditions that each leave the lexer reading code, joined by AND, do too. */
  lemma {:induction false} JoinedConditionsInCode(conds: seq<string>)
    requires |conds| > 0
    requires forall i :: 0 <= i < |conds| ==> InCode(Lex(Code, conds[i]))
    ensures InCode(Lex(Code, Join(conds, " AND ")))
    decreases |conds|
  {
    if |conds| > 1 {
      var rest := Join(conds[1..], " AND ");
      assert forall i :: 0 <= i < |conds[1..]| ==> conds[1..][i] == conds[i + 1];
      JoinedConditionsInCode(conds[1..]);
      LexAppend(Code, conds[0] + " AND ", rest);
      LexAppend(Code, conds[0], " AND ");
      assert IsPlain(" AND ");
      PlainAfterBlank(Lex(Code, conds[0]), " AND ");
    }
  }

  lemma {:induction false} SafeConditionsInCode(fs: seq<Filter>)
    ensures forall i :: 0 <= i < |SafeConditions(fs)| ==> InCode(Lex(Code, SafeConditions(fs)[i]))
    decreases |fs|
  {
    if fs != [] {
      SafeConditionsInCode(fs[1..]);
      if Kept(fs[0]) {
        SafeConditionInCode(fs[0]);
      }
    }
  }

  /** The scope's condition, for a scope without a quote, is code ending after one closed literal. */
  lemma ScopeConditionInCode(scope: string)
    requires '\'' !in scope
    ensures Lex(Code, "branch = '" + scope + "'") == LiteralQuote
  {
    BranchOpensLiteral();
    LexAppend(Code, "branch = '", scope);
    UnquotedStaysInLiteral(scope);
    LexAppend(Code, "branch = '" + scope, "'");
  }

  /** The scope's condition up to its literal opens the literal. */
  lemma BranchOpensLiteral()
    ensures Lex(Code, "branch = '") == InLiteral
  {
    var lead := "branch = ";
    BranchIsPlain(lead);
    PlainStaysCode(lead);
    assert "branch = '" == lead + "'";
    LexAppend(Code, lead, "'");
  }

  lemma BranchIsPlain(lead: string)
    requires lead == "branch = "
    ensures IsPlain(lead)
  {
  }

  /** The lexer reads a WHERE clause of such conditions as code. */
  lemma WhereInCode(conds: seq<string>)
    requires forall i :: 0 <= i < |conds| ==> InCode(Lex(Code, conds[i]))
    ensures InCode(Lex(Code, WhereClause(conds)))
  {
    if conds != [] {
      JoinedConditionsInCode(conds);
      assert IsPlain(" WHERE ");
      PlainStaysCode(" WHERE ");
      LexAppend(Code, " WHERE ", Join(conds, " AND "));
    }
  }

  /**
   * With the corrected formatter, and a scope without a quote, the whole
   * query is read as code: no comment opens anywhere and every literal is
   * closed. The scope's `branch` condition starts where the lexer reads
   * plain code, so it is a condition of the query and not text in a
   * comment or a literal.
   */
  lemma CorrectedQueryIsCode(req: QueryRequest, scope: Option<string>)
    requires CorrectedCompile(req, scope).Success?
    requires scope.Some? ==> '\'' !in scope.value
    ensures Lex(Code, CorrectedCompile(req, scope).value) == Code
    ensures ScopeApplies(scope) ==>
      exists head, tail :: CorrectedCompile(req, scope).value == head + ("branch = '" + scope.value + "'") + tail &&
                           Lex(Code, head) == Code
  {
    var user := SafeConditions(FiltersOf(req));
    var conds := user + ScopeConditions(scope);
    var select := SelectFrom(req);
    var closing := GroupByClause(req.groupBy) + OrderByClause(req.orderBy) + LimitClause(req.limit);
    CorrectedParts(req, scope);
    SafeConditionsInCode(FiltersOf(req));
    ScopedConditionsInCode(user, scope);
    SelectFromIsPlain(req);
    ClosingClausesArePlain(req);
    PartsInCode(select, conds, closing);
    if ScopeApplies(scope) {
      PlainStaysCode(select);
      ScopeStartsInCode(select, user, scope.value, closing);
    }
  }

  /** The corrected query, clause by clause. */
  lemma CorrectedParts(req: QueryRequest, scope: Option<string>)
    requires CorrectedCompile(req, scope).Success?
    ensures CorrectedCompile(req, scope).value ==
      SelectFrom(req) + WhereClause(SafeConditions(FiltersOf(req)) + ScopeConditions(scope)) +
      (GroupByClause(req.groupBy) + OrderByClause(req.orderBy) + LimitClause(req.limit))
  {
    Regroup(SelectFrom(req), WhereClause(SafeConditions(FiltersOf(req)) + ScopeConditions(scope)),
            GroupByClause(req.groupBy), OrderByClause(req.orderBy), LimitClause(req.limit));
  }

  /** The user's conditions and the scope's each leave the lexer reading code. */
  lemma ScopedConditionsInCode(user: seq<string>, scope: Option<string>)
    requires forall i :: 0 <= i < |user| ==> InCode(Lex(Code, user[i]))
    requires scope.Some? ==> '\'' !in scope.value
    ensures forall i :: 0 <= i < |user + ScopeConditions(scope)| ==> InCode(Lex(Code, (user + ScopeConditions(scope))[i]))
  {
    var conds := user + ScopeConditions(scope);
    if ScopeApplies(scope) {
      ScopeConditionInCode(scope.value);
    }
    forall i | 0 <= i < |conds| ensures InCode(Lex(Code, conds[i])) {
      if i >= |user| {
        assert conds[i] == ScopeConditions(scope)[i - |user|];
      } else {
        assert conds[i] == user[i];
      }
    }
  }

  /** A plain head, a WHERE clause of conditions in code, and a plain tail starting with a blank. */
  lemma PartsInCode(select: string, conds: seq<string>, closing: string)
    requires IsPlain(select)
    requires forall i :: 0 <= i < |conds| ==> InCode(Lex(Code, conds[i]))
    requires IsPlain(closing) && |closing| > 0 && closing[0] == ' '
    ensures Lex(Code, select + WhereClause(conds) + closing) == Code
  {
    PlainStaysCode(select);
    WhereInCode(conds);
    LexAppend(Code, select, WhereClause(conds));
    LexAppend(Code, select + WhereClause(conds), closing);
    PlainAfterBlank(Lex(Code, WhereClause(conds)), closing);
  }

  /** The WHERE clause up to the scope's condition. */
  function ScopeLead(user: seq<string>): string {
    if user == [] then " WHERE " else " WHERE " + Join(user, " AND ") + " AND "
  }

  /** The WHERE clause of the user's conditions and the scope's splits before the latter. */
  lemma WhereSplitsAtScope(user: seq<string>, cond: string)
    ensures WhereClause(user + [cond]) == ScopeLead(user) + cond
  {
    if user == [] {
      assert user + [cond] == [cond];
    } else {
      JoinSnoc(user, cond, " AND ");
    }
  }

  /** The lexer leaves the WHERE clause's text before the scope's condition in plain code. */
  lemma ScopeLeadInCode(user: seq<string>)
    requires forall i :: 0 <= i < |user| ==> InCode(Lex(Code, user[i]))
    ensures Lex(Code, ScopeLead(user)) == Code
  {
    assert IsPlain(" WHERE ");
    PlainStaysCode(" WHERE ");
    if user != [] {
      var w := " WHERE " + Join(user, " AND ");
      JoinedConditionsInCode(user);
      LexAppend(Code, " WHERE ", Join(user, " AND "));
      LexAppend(Code, w, " AND ");
      assert IsPlain(" AND ");
      PlainAfterBlank(Lex(Code, w), " AND ");
    }
  }

  /** The text before the scope's condition ends in plain code. */
  lemma ScopeStartsInCode(select: string, user: seq<string>, scope: string, closing: string)
    requires Lex(Code, select) == Code
    requires forall i :: 0 <= i < |user| ==> InCode(Lex(Code, user[i]))
    ensures var cond := "branch = '" + scope + "'";
      exists head :: select + WhereClause(user + [cond]) + closing == head + cond + closing &&
                     Lex(Code, head) == Code
  {
    var cond := "branch = '" + scope + "'";
    var head := LastConditionStartsInCode(select, user, cond, closing);
  }

  /** The text before the last condition of a WHERE clause ends in plain code. */
  lemma LastConditionStartsInCode(select: string, user: seq<string>, cond: string, closing: string)
    returns (head: string)
    requires Lex(Code, select) == Code
    requires forall i :: 0 <= i < |user| ==> InCode(Lex(Code, user[i]))
    ensures select + WhereClause(user + [cond]) + closing == head + cond + closing && Lex(Code, head) == Code
  {
    var lead := ScopeLead(user);
    WhereSplitsAtScope(user, cond);
    ScopeLeadInCode(user);
    LexAppend(Code, select, lead);
    head := select + lead;
    SeqAssoc(select, lead, cond);
  }

  // ---------------------------------------------------------------------------
  // The counterexample
  // ---------------------------------------------------------------------------

  /**
   * As written, the filter value `NOW() --` is a whitelisted date expression
   * in safe characters, so it is emitted unquoted; the `--` after it opens a
   * comment, and the scope's `branch` condition and the LIMIT that follow
   * are comment. The corrected formatter quotes the value, and that query is
   * read as code to its end.
   */
  lemma CommentHidesScope(v: string)
    requires v == "NOW() --"
    ensures var req := QueryRequest(Some("deposit"), None, Some([Filter(Some("d"), Some(">"), Str(v))]), None, None, None);
      var head := "SELECT * FROM deposit" + " WHERE " + "d > " + v;
      Compile(req, Some("B")) == Success(head + " AND " + "branch = 'B'" + " LIMIT 100") &&
      Lex(Code, head) == Comment &&
      Lex(Code, CorrectedCompile(req, Some("B")).value) == Code
  {
    var req := QueryRequest(Some("deposit"), None, Some([Filter(Some("d"), Some(">"), Str(v))]), None, None, None);
    NowDashCompiles(v, req);
    SelectFromIsPlain(req);
    DashesOpenComment(SelectFrom(req), v);
    CorrectedQueryIsCode(req, Some("B"));
  }

  /** The query `buildSql` writes for the filter `d > NOW() --` and the scope `B`. */
  lemma NowDashCompiles(v: string, req: QueryRequest)
    requires v == "NOW() --"
    requires req == QueryRequest(Some("deposit"), None, Some([Filter(Some("d"), Some(">"), Str(v))]), None, None, None)
    ensures Compile(req, Some("B")) == Success(SelectFrom(req) + " WHERE " + "d > " + v + " AND " + "branch = 'B'" + " LIMIT 100")
    ensures SelectFrom(req) == "SELECT * FROM deposit"
    ensures CorrectedCompile(req, Some("B")).Success?
  {
    var f := Filter(Some("d"), Some(">"), Str(v));
    NowDashIsKept(v, f);
    SelectAllFromDeposit(req);
    OneFilterScopedB(req, f);
    SeqAssoc(SelectFrom(req) + " WHERE ", "d > ", v);
  }

  lemma SelectAllFromDeposit(req: QueryRequest)
    requires req.table == Some("deposit") && req.columns.None?
    ensures IsValidName(req.table) && SelectFrom(req) == "SELECT * FROM deposit"
  {
    assert IsWord("deposit");
    assert "SELECT " + "*" + " FROM " + "deposit" == "SELECT * FROM deposit";
  }

  /** A request with one surviving filter and no other clause, for the scope `B`. */
  lemma OneFilterScopedB(req: QueryRequest, f: Filter)
    requires IsValidName(req.table) && FiltersOf(req) == [f] && Kept(f)
    requires req.groupBy.None? && req.orderBy.None? && req.limit.None?
    ensures Compile(req, Some("B")) == Success(SelectFrom(req) + " WHERE " + RenderFilter(f) + " AND " + "branch = 'B'" + " LIMIT 100")
    ensures CorrectedCompile(req, Some("B")).Success?
  {
    var rf := RenderFilter(f);
    SingleFilter(f);
    ScopeBApplies("B");
    assert Compile(req, Some("B")) == Success(Assemble(req, [rf] + ["branch = 'B'"]));
    assert [rf] + ["branch = 'B'"] == [rf, "branch = 'B'"];
    AssembleScopedB(req, rf);
  }

  /** The query of one condition and the scope `B`, with no other clause. */
  lemma AssembleScopedB(req: QueryRequest, cond: string)
    requires IsValidName(req.table) && req.groupBy.None? && req.orderBy.None? && req.limit.None?
    ensures Assemble(req, [cond, "branch = 'B'"]) ==
            SelectFrom(req) + " WHERE " + cond + " AND " + "branch = 'B'" + " LIMIT 100"
  {
    var conds := [cond, "branch = 'B'"];
    TwoConditions(cond, "branch = 'B'");
    NoClosingClauses();
    var select := SelectFrom(req);
    assert Assemble(req, conds) ==
      select + WhereClause(conds) + (GroupByClause(None) + OrderByClause(None) + LimitClause(None));
    Regroup(select, " WHERE ", cond, " AND ", "branch = 'B'");
  }

  /** One filter that survives the whitelists is the one condition. */
  lemma SingleFilter(f: Filter)
    requires Kept(f)
    ensures UserConditions([f]) == Success([RenderFilter(f)])
  {
    var fs := [f];
    assert fs[..|fs| - 1] == [] && fs[|fs| - 1] == f;
    var empty: seq<string> := [];
    assert UserConditions(fs[..|fs| - 1]) == Success(empty);
    assert empty + [RenderFilter(f)] == [RenderFilter(f)];
    assert UserConditions(fs) == Success(empty + [RenderFilter(f)]);
  }

  /** The filter `d > NOW() --` survives the whitelists and renders unchanged. */
  lemma NowDashIsKept(v: string, f: Filter)
    requires v == "NOW() --" && f == Filter(Some("d"), Some(">"), Str(v))
    ensures Kept(f) && RenderFilter(f) == "d > " + v
  {
    NowDashIsUnquoted(v);
    assert IsWord("d");
    assert Upper(">") == ">";
    assert IsValidOperator(">") by {
      assert Operators[2] == ">";
    }
  }

  lemma TwoConditions(a: string, b: string)
    ensures WhereClause([a, b]) == " WHERE " + a + " AND " + b
  {
    assert [a, b][1..] == [b];
  }

  lemma NoClosingClauses()
    ensures GroupByClause(None) + OrderByClause(None) + LimitClause(None) == " LIMIT 100"
  {
    assert " LIMIT " + "100" == " LIMIT 100";
  }

  /** `NOW() --` passes both tests of `formatValue`. */
  lemma NowDashIsUnquoted(v: string)
    requires v == "NOW() --"
    ensures IsUnquotedExpression(v) && FormatText(v) == v
  {
    assert Upper(v) == v;
    assert TrimStart(JavaTrim, v) == v;
    assert TrimEnd(JavaTrim, v) == v;
    assert v[..5] == "NOW()";
    assert IsSafeExpression(v);
  }

  /** The scope `B` adds its condition. */
  lemma ScopeBApplies(scope: string)
    requires scope == "B"
    ensures ScopeConditions(Some(scope)) == ["branch = 'B'"]
  {
    assert HasText(scope) by { assert !IsJavaWhitespace(scope[0]); }
    assert !EqualsIgnoreCase("ALL", scope) by { assert |Upper("ALL")| != |Upper(scope)|; }
    assert "branch = '" + scope + "'" == "branch = 'B'";
  }

  /** The query text up to the value's `--` ends in a comment. */
  lemma DashesOpenComment(select: string, v: string)
    requires IsPlain(select) && v == "NOW() --"
    ensures Lex(Code, select + " WHERE " + "d > " + v) == Comment
  {
    var lead := " WHERE " + "d > ";
    var now := "NOW() ";
    assert IsPlain(" WHERE ") && IsPlain("d > ") && IsPlain(now);
    PlainConcat(" WHERE ", "d > ");
    PlainConcat(select, lead);
    PlainConcat(select + lead, now);
    PlainStaysCode(select + lead + now);
    assert v == now + "--";
    assert select + " WHERE " + "d > " + v == (select + lead + now) + "--";
    LexAppend(Code, select + lead + now, "--");
  }
}
