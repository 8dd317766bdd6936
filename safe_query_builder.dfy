/**
 * The safe query compiler: it turns a structured query proposed by the
 * language model (table, columns, filters, grouping, ordering, limit) and
 * the caller's data scope into one SQL string. Identifiers and operators are
 * checked against whitelists, values are quoted, a row-level `branch`
 * condition is injected and the row count is capped at 100.
 */
module SafeQueryBuilder {
  import opened Common
  import opened Text
  import opened SqlPatterns

  /** One condition of the request; every field may be JSON `null`. */
  datatype Filter = Filter(column: Option<string>, operator: Option<string>, value: Value)

  /** The structured query as deserialised from the model's JSON. */
  datatype QueryRequest = QueryRequest(
    table: Option<string>,
    columns: Option<seq<string>>,
    filters: Option<seq<Filter>>,
    groupBy: Option<seq<string>>,
    orderBy: Option<seq<string>>,
    limit: Option<int>)

  /** Why compilation throws: `IllegalArgumentException` or `NullPointerException`. */
  datatype BuildError = InvalidTable | NullOperator

  // ---------------------------------------------------------------------------
  // Whitelists
  // ---------------------------------------------------------------------------

  /** `isValidName`: not null and `^[a-zA-Z0-9_]+$`. */
  predicate IsValidName(name: Option<string>) {
    name.Some? && IsWord(name.value)
  }

  const Operators: seq<string> := ["=", "!=", ">", "<", ">=", "<=", "LIKE", "IN"]

  predicate IsValidOperator(op: string) {
    op in Operators
  }

  // ---------------------------------------------------------------------------
  // Conditions
  // ---------------------------------------------------------------------------

  /** A filter that survives both whitelists. */
  predicate Kept(f: Filter) {
    IsValidName(f.column) && f.operator.Some? && IsValidOperator(Upper(f.operator.value))
  }

  /** A filter that makes the compiler throw: valid column, null operator. */
  predicate Throws(f: Filter) {
    IsValidName(f.column) && f.operator.None?
  }

  function RenderFilter(f: Filter): string
    requires Kept(f)
  {
    f.column.value + " " + Upper(f.operator.value) + " " + FormatValue(f.value)
  }

  /**
   * The loop over the filters, one filter at a time from the left: skipped,
   * rendered, or the first throwing filter aborts.
   */
  function UserConditions(fs: seq<Filter>): Result<seq<string>, BuildError>
  {
    if fs == [] then Success([])
    else
      match UserConditions(fs[..|fs| - 1])
      case Failure(e) => Failure(e)
      case Success(cs) =>
        var f := fs[|fs| - 1];
        if !IsValidName(f.column) then Success(cs)
        else if f.operator.None? then Failure(NullOperator)
        else if !IsValidOperator(Upper(f.operator.value)) then Success(cs)
        else Success(cs + [RenderFilter(f)])
  }

  /** The condition one filter contributes: its rendering if it survives, else nothing. */
  function KeptOne(f: Filter): seq<string> {
    if Kept(f) then [RenderFilter(f)] else []
  }

  /** Reference definition: render the surviving filters, in order (filter then map). */
  function KeptConditions(fs: seq<Filter>): seq<string>
  {
    if fs == [] then [] else KeptOne(fs[0]) + KeptConditions(fs[1..])
  }

  lemma {:induction false} KeptConditionsSnoc(fs: seq<Filter>, f: Filter)
    ensures KeptConditions(fs + [f]) == KeptConditions(fs) + KeptOne(f)
  {
    if fs == [] {
      assert [f][1..] == [];
      assert KeptConditions([f]) == KeptOne(f) + KeptConditions([]);
    } else {
      var g := fs + [f];
      assert g[0] == fs[0] && g[1..] == fs[1..] + [f];
      assert KeptConditions(g) == KeptOne(fs[0]) + KeptConditions(fs[1..] + [f]);
      KeptConditionsSnoc(fs[1..], f);
      SeqAssoc(KeptOne(fs[0]), KeptConditions(fs[1..]), KeptOne(f));
    }
  }

  /**
   * The filter loop throws exactly when some filter has a valid column and
   * a null operator; otherwise it yields the surviving filters rendered as
   * `col OP value`, in input order.
   */
  lemma {:induction false} UserConditionsSpec(fs: seq<Filter>)
    ensures UserConditions(fs).Failure? <==> exists i :: 0 <= i < |fs| && Throws(fs[i])
    ensures UserConditions(fs).Failure? ==> UserConditions(fs).error == NullOperator
    ensures UserConditions(fs).Success? ==> UserConditions(fs).value == KeptConditions(fs)
  {
    if fs != [] {
      var init, f := fs[..|fs| - 1], fs[|fs| - 1];
      UserConditionsSpec(init);
      assert fs == init + [f];
      KeptConditionsSnoc(init, f);
      assert forall i :: 0 <= i < |init| ==> init[i] == fs[i];
      if UserConditions(init).Failure? {
        var i :| 0 <= i < |init| && Throws(init[i]);
        assert Throws(fs[i]);
      } else if Throws(f) {
        assert Throws(fs[|fs| - 1]);
      } else if Kept(f) {
        assert UserConditions(fs) == Success(KeptConditions(init) + [RenderFilter(f)]);
      } else {
        assert KeptConditions(init) + KeptOne(f) == KeptConditions(init);
        assert UserConditions(fs) == Success(KeptConditions(init));
      }
    }
  }

  /** Once a prefix of the filters throws, the whole loop throws the same way. */
  lemma {:induction false} ThrowPersists(fs: seq<Filter>, n: nat)
    requires n <= |fs|
    requires UserConditions(fs[..n]).Failure?
    ensures UserConditions(fs) == UserConditions(fs[..n])
    decreases |fs| - n
  {
    if n < |fs| {
      assert fs[..|fs| - 1][..n] == fs[..n];
      ThrowPersists(fs[..|fs| - 1], n);
    } else {
      assert fs[..n] == fs;
    }
  }

  /** The row-level security condition is added for a scope with text other than `ALL`. */
  predicate ScopeApplies(scope: Option<string>) {
    scope.Some? && HasText(scope.value) && !EqualsIgnoreCase("ALL", scope.value)
  }

  /** The injected condition; the scope text is inserted without escaping. */
  function ScopeConditions(scope: Option<string>): (cs: seq<string>)
    ensures |cs| <= 1
    ensures cs != [] <==> ScopeApplies(scope)
  {
    if ScopeApplies(scope) then ["branch = '" + scope.value + "'"] else []
  }

  // ---------------------------------------------------------------------------
  // Clauses
  // ---------------------------------------------------------------------------

  /** The items of the SELECT list: one per requested column, each sanitised. */
  function ProjectedItems(cols: seq<string>): (items: seq<string>)
    ensures |items| == |cols|
    ensures forall i :: 0 <= i < |cols| ==> items[i] == SanitizeColumn(cols[i])
  {
    Map(SanitizeColumn, cols)
  }

  function ColumnList(cols: Option<seq<string>>): (r: string)
    ensures cols.None? || cols.value == [] ==> r == "*"
    ensures cols.Some? && cols.value != [] ==> r == Join(ProjectedItems(cols.value), ", ")
  {
    if cols.None? || cols.value == [] then "*" else Join(ProjectedItems(cols.value), ", ")
  }

  function WhereClause(conds: seq<string>): (r: string)
    ensures r == "" <==> conds == []
  {
    if conds == [] then "" else " WHERE " + Join(conds, " AND ")
  }

  /** GROUP BY keeps the valid identifiers and is omitted when none survives. */
  function GroupByClause(groups: Option<seq<string>>): (r: string)
  {
    if groups.None? || groups.value == [] then ""
    else
      var joined := Join(FilterSeq(IsWord, groups.value), ", ");
      if joined == "" then "" else " GROUP BY " + joined
  }

  /** ORDER BY keeps the `ident [ASC|DESC]` items and is omitted when none survives. */
  function OrderByClause(orders: Option<seq<string>>): (r: string)
  {
    if orders.None? || orders.value == [] then ""
    else
      var joined := Join(FilterSeq(MatchOrderItem, orders.value), ", ");
      if joined == "" then "" else " ORDER BY " + joined
  }

  /** The forced limit: the requested positive limit capped at 100, otherwise 100. */
  function LimitValue(limit: Option<int>): (n: nat)
    ensures 1 <= n <= 100
    ensures limit.None? || limit.value <= 0 ==> n == 100
    ensures limit.Some? && 0 < limit.value <= 100 ==> n == limit.value
    ensures limit.Some? && limit.value >= 100 ==> n == 100
  {
    if limit.Some? && limit.value > 0 then (if limit.value < 100 then limit.value else 100) else 100
  }

  function FiltersOf(req: QueryRequest): seq<Filter> {
    if req.filters.None? then [] else req.filters.value
  }

  /** `SELECT <columns> FROM <table>` */
  function SelectFrom(req: QueryRequest): string
    requires IsValidName(req.table)
  {
    "SELECT " + ColumnList(req.columns) + " FROM " + req.table.value
  }

  function LimitClause(limit: Option<int>): string {
    " LIMIT " + NatToString(LimitValue(limit))
  }

  /** The query text, clause after clause, for the final list of conditions. */
  function Assemble(req: QueryRequest, conds: seq<string>): string
    requires IsValidName(req.table)
  {
    SelectFrom(req) + WhereClause(conds) + GroupByClause(req.groupBy) + OrderByClause(req.orderBy) +
    LimitClause(req.limit)
  }

  /** What `buildSql` returns or throws for a request and a data scope. */
  function Compile(req: QueryRequest, scope: Option<string>): Result<string, BuildError>
  {
    if !IsValidName(req.table) then Failure(InvalidTable)
    else
      match UserConditions(FiltersOf(req))
      case Failure(e) => Failure(e)
      case Success(user) => Success(Assemble(req, user + ScopeConditions(scope)))
  }

  /** `buildSql`, building the text step by step as the source does. */
  method BuildSql(req: QueryRequest, scope: Option<string>) returns (r: Result<string, BuildError>)
    ensures r == Compile(req, scope)
  {
    if !IsValidName(req.table) {
      return Failure(InvalidTable);
    }
    var sql := "SELECT ";
    sql := sql + ColumnList(req.columns);
    sql := sql + " FROM " + req.table.value;

    var user := RenderConditions(FiltersOf(req));
    if user.Failure? {
      return Failure(user.error);
    }
    var conditions := user.value;
    if ScopeApplies(scope) {
      conditions := conditions + ["branch = '" + scope.value + "'"];
    }
    assert conditions == user.value + ScopeConditions(scope);
    if conditions != [] {
      sql := sql + (" WHERE " + Join(conditions, " AND "));
    }
    assert sql == SelectFrom(req) + WhereClause(conditions);
    sql := sql + GroupByClause(req.groupBy);
    sql := sql + OrderByClause(req.orderBy);
    sql := sql + (" LIMIT " + NatToString(LimitValue(req.limit)));
    assert sql == Assemble(req, conditions);
    return Success(sql);
  }

  /** The loop of `buildSql` over the filters, stopping at the first null operator. */
  method RenderConditions(fs: seq<Filter>) returns (r: Result<seq<string>, BuildError>)
    ensures r == UserConditions(fs)
  {
    var conditions: seq<string> := [];
    var i := 0;
    while i < |fs|
      invariant 0 <= i <= |fs|
      invariant UserConditions(fs[..i]) == Success(conditions)
    {
      var f := fs[i];
      assert fs[..i + 1][..i] == fs[..i] && fs[..i + 1][i] == f;
      if IsValidName(f.column) {
        if f.operator.None? {
          ThrowPersists(fs, i + 1);
          return Failure(NullOperator);
        }
        var op := Upper(f.operator.value);
        if IsValidOperator(op) {
          conditions := conditions + [f.column.value + " " + op + " " + FormatValue(f.value)];
        }
      }
      i := i + 1;
    }
    assert fs[..|fs|] == fs;
    return Success(conditions);
  }

  // ---------------------------------------------------------------------------
  // Properties of the compiler
  // ---------------------------------------------------------------------------

  /**
   * Compilation fails exactly for an invalid table name (reported first) or
   * a filter with a valid column and a null operator.
   */
  lemma CompileFails(req: QueryRequest, scope: Option<string>)
    ensures Compile(req, scope).Failure? <==>
              !IsValidName(req.table) || exists i :: 0 <= i < |FiltersOf(req)| && Throws(FiltersOf(req)[i])
    ensures Compile(req, scope) == Failure(InvalidTable) <==> !IsValidName(req.table)
  {
    UserConditionsSpec(FiltersOf(req));
  }

  /**
   * A compiled query starts with `SELECT `, names its table after ` FROM `,
   * and ends with ` LIMIT n` for the clamped limit `n` in 1..100.
   */
  lemma CompileShape(req: QueryRequest, scope: Option<string>)
    requires Compile(req, scope).Success?
    ensures var sql := Compile(req, scope).value;
      StartsWith(sql, "SELECT ") &&
      Contains(sql, " FROM " + req.table.value) &&
      EndsWith(sql, " LIMIT " + NatToString(LimitValue(req.limit))) &&
      1 <= LimitValue(req.limit) <= 100
  {
    var conds := UserConditions(FiltersOf(req)).value + ScopeConditions(scope);
    var head := SelectFrom(req);
    var rest := WhereClause(conds) + GroupByClause(req.groupBy) + OrderByClause(req.orderBy);
    var lim := LimitClause(req.limit);
    SelectFromShape(req);
    AssembleSplit(req, conds);
    StartsWithAppend(head, "SELECT ", rest + lim);
    ContainsAppend(head, " FROM " + req.table.value, rest + lim);
    assert EndsWith(lim, lim);
    EndsWithPrepend(head + rest, lim, lim);
  }

  lemma SelectFromShape(req: QueryRequest)
    requires IsValidName(req.table)
    ensures StartsWith(SelectFrom(req), "SELECT ")
    ensures Contains(SelectFrom(req), " FROM " + req.table.value)
  {
    var a := "SELECT " + ColumnList(req.columns);
    assert SelectFrom(req) == a + (" FROM " + req.table.value) + "";
    ContainsPiece(a, " FROM " + req.table.value, "");
    assert SelectFrom(req)[..7] == "SELECT ";
  }

  lemma AssembleSplit(req: QueryRequest, conds: seq<string>)
    requires IsValidName(req.table)
    ensures Assemble(req, conds) ==
            SelectFrom(req) + (WhereClause(conds) + GroupByClause(req.groupBy) + OrderByClause(req.orderBy) + LimitClause(req.limit))
    ensures Assemble(req, conds) ==
            (SelectFrom(req) + (WhereClause(conds) + GroupByClause(req.groupBy) + OrderByClause(req.orderBy))) + LimitClause(req.limit)
  {
    Regroup(SelectFrom(req), WhereClause(conds), GroupByClause(req.groupBy), OrderByClause(req.orderBy), LimitClause(req.limit));
  }

  /**
   * The WHERE clause lists the surviving user filters in input order and
   * then, when the scope applies, the single `branch = '<scope>'` condition
   * with the scope text unescaped; it is absent iff there is no condition.
   */
  lemma CompileConditions(req: QueryRequest, scope: Option<string>)
    requires Compile(req, scope).Success?
    ensures Compile(req, scope).value == Assemble(req, KeptConditions(FiltersOf(req)) + ScopeConditions(scope))
    ensures WhereClause(KeptConditions(FiltersOf(req)) + ScopeConditions(scope)) == "" <==>
              KeptConditions(FiltersOf(req)) == [] && !ScopeApplies(scope)
    ensures ScopeApplies(scope) ==>
              EndsWith(WhereClause(KeptConditions(FiltersOf(req)) + ScopeConditions(scope)),
                       "branch = '" + scope.value + "'")
  {
    UserConditionsSpec(FiltersOf(req));
    ScopedWhere(KeptConditions(FiltersOf(req)), scope);
  }

  /** The WHERE clause of some user conditions and the scope's condition. */
  lemma ScopedWhere(user: seq<string>, scope: Option<string>)
    ensures WhereClause(user + ScopeConditions(scope)) == "" <==> user == [] && !ScopeApplies(scope)
    ensures ScopeApplies(scope) ==> EndsWith(WhereClause(user + ScopeConditions(scope)), "branch = '" + scope.value + "'")
  {
    var conds := user + ScopeConditions(scope);
    if ScopeApplies(scope) {
      JoinEndsWithLast(conds, " AND ");
      var j := Join(conds, " AND ");
      var c := "branch = '" + scope.value + "'";
      assert conds[|conds| - 1] == c;
      assert (" WHERE " + j)[|" WHERE " + j| - |c|..] == j[|j| - |c|..];
    }
  }

  /** A request with no filter, grouping or ordering, under a scope that adds nothing: SELECT, FROM and LIMIT. */
  lemma BareQuery(req: QueryRequest, scope: Option<string>)
    requires IsValidName(req.table) && FiltersOf(req) == [] && req.groupBy.None? && req.orderBy.None?
    requires ScopeConditions(scope) == []
    ensures Compile(req, scope) == Success(SelectFrom(req) + LimitClause(req.limit))
  {
    var head := SelectFrom(req);
    assert UserConditions(FiltersOf(req)) == Success([]);
    assert [] + ScopeConditions(scope) == [];
    assert head + "" + "" + "" == head;
    assert Assemble(req, []) == head + LimitClause(req.limit);
  }

  lemma NoScopeCondition(scope: Option<string>)
    requires scope.None? || EqualsIgnoreCase("ALL", scope.value) || !HasText(scope.value)
    ensures ScopeConditions(scope) == []
  {
  }

  /**
   * The scope text is inserted as is: when it holds a quote, the SQL lexer
   * ends the `branch` literal at that quote, so the text after it is read
   * as SQL rather than as part of the value.
   */
  lemma {:induction false} ScopeQuoteEndsLiteral(a: string, b: string)
    requires '\'' !in a && |b| > 0 && b[0] != '\''
    ensures ReadLiteral(a + "'" + b + "'") == Some((a, b + "'"))
  {
    if a == [] {
      var t := a + "'" + b + "'";
      assert t == "'" + (b + "'");
      assert t[1] == b[0];
      assert t[1..] == b + "'";
    } else {
      ScopeQuoteEndsLiteral(a[1..], b);
      assert (a + "'" + b + "'")[1..] == a[1..] + "'" + b + "'";
      assert [a[0]] + a[1..] == a;
    }
  }

  /** For example, the scope `x'--` yields a condition whose literal is just `x`. */
  lemma ScopeIsNotEscaped()
    ensures ScopeConditions(Some("x'--")) == ["branch = 'x'--'"]
    ensures ReadLiteral("x'--'") == Some(("x", "--'"))
  {
    var scope := "x'--";
    assert HasText(scope) by { assert !IsJavaWhitespace(scope[0]); }
    assert !EqualsIgnoreCase("ALL", scope) by { assert |Upper("ALL")| != |Upper(scope)|; }
    assert ScopeApplies(Some(scope));
    assert "branch = '" + scope + "'" == "branch = 'x'--'";
    ScopeQuoteEndsLiteral("x", "--");
    assert "x" + "'" + "--" + "'" == "x'--'";
  }

  /**
   * GROUP BY appears iff some entry is a valid identifier, and then lists
   * exactly the valid identifiers.
   */
  lemma GroupByKeepsIdentifiers(groups: Option<seq<string>>)
    ensures GroupByClause(groups) != "" <==>
              groups.Some? && exists i :: 0 <= i < |groups.value| && IsWord(groups.value[i])
    ensures GroupByClause(groups) != "" ==>
              GroupByClause(groups) == " GROUP BY " + Join(FilterSeq(IsWord, groups.value), ", ")
  {
    if groups.Some? && groups.value != [] {
      var kept := FilterSeq(IsWord, groups.value);
      if kept != [] {
        assert IsWord(kept[0]);
        JoinNonEmpty(kept, ", ");
      }
    }
  }

  /**
   * ORDER BY appears iff some entry matches `ident [ASC|DESC]`, and then
   * lists exactly the matching entries.
   */
  lemma OrderByKeepsItems(orders: Option<seq<string>>)
    ensures OrderByClause(orders) != "" <==>
              orders.Some? && exists i :: 0 <= i < |orders.value| && OrderItemShape(orders.value[i])
    ensures OrderByClause(orders) != "" ==>
              OrderByClause(orders) == " ORDER BY " + Join(FilterSeq(MatchOrderItem, orders.value), ", ")
  {
    if orders.Some? {
      forall i | 0 <= i < |orders.value|
        ensures MatchOrderItem(orders.value[i]) <==> OrderItemShape(orders.value[i])
      {
        MatchOrderItemIff(orders.value[i]);
      }
      if orders.value != [] {
        var kept := FilterSeq(MatchOrderItem, orders.value);
        if kept != [] {
          assert MatchOrderItem(kept[0]);
          JoinNonEmpty(kept, ", ");
        }
      }
    }
  }
}
