/**
 * The post-processing of `analyzeData`: choosing a chart or a table for a
 * query result, stripping markdown code fences from the model's reply,
 * masking the result rows, and the bounded loop that executes the compiled
 * query and asks the model to repair it after a failure.
 */
module HiAgent {
  import opened Common
  import opened Text
  import opened SafeQueryBuilder
  import opened DataMasking
  import opened RepairLoop

  // ---------------------------------------------------------------------------
  // Axis selection (`determineVisualization`)
  // ---------------------------------------------------------------------------

  /** A key that reads like a label: its lower-cased form mentions name, date or time. */
  predicate LooksLikeLabel(key: string) {
    var k := Lower(key);
    Contains(k, "name") || Contains(k, "date") || Contains(k, "time")
  }

  /** An x-axis that calls for a line chart. */
  predicate IsTimeAxis(key: string) {
    var k := Lower(key);
    Contains(k, "date") || Contains(k, "time") || Contains(k, "month") || Contains(k, "year") || Contains(k, "day")
  }

  predicate IsNumericEntry(e: (string, Value)) {
    e.1.Num?
  }

  predicate IsTextEntry(e: (string, Value)) {
    !e.1.Num?
  }

  predicate IsLabelEntry(e: (string, Value)) {
    !e.1.Num? && LooksLikeLabel(e.0)
  }

  /** One step of the scan over the entries of the first row. */
  function AxisStep(x: Option<string>, ys: seq<string>, e: (string, Value)): (Option<string>, seq<string>) {
    if e.1.Num? then (x, ys + [e.0])
    else if x.None? then (Some(e.0), ys)
    else if LooksLikeLabel(e.0) && !LooksLikeLabel(x.value) then (Some(e.0), ys)
    else (x, ys)
  }

  /** The x-key and the y-keys after scanning the entries of `row` from the left. */
  function Axes(row: Row): (Option<string>, seq<string>) {
    if row == [] then (None, [])
    else
      var a := Axes(row[..|row| - 1]);
      AxisStep(a.0, a.1, row[|row| - 1])
  }

  /** The key of the first entry satisfying `p`. */
  function FirstKey(row: Row, p: ((string, Value)) -> bool): (k: Option<string>)
    ensures k.None? <==> forall i :: 0 <= i < |row| ==> !p(row[i])
    ensures k.Some? ==> exists i :: 0 <= i < |row| && p(row[i]) && row[i].0 == k.value
  {
    if row == [] then None
    else if p(row[0]) then Some(row[0].0)
    else
      var k := FirstKey(row[1..], p);
      assert forall i :: 1 <= i < |row| ==> row[i] == row[1..][i - 1];
      k
  }

  lemma {:induction false} FirstKeySnoc(row: Row, p: ((string, Value)) -> bool, e: (string, Value))
    ensures FirstKey(row + [e], p) ==
            if FirstKey(row, p).Some? then FirstKey(row, p) else if p(e) then Some(e.0) else None
  {
    if row == [] {
      assert [e][1..] == [];
    } else {
      assert (row + [e])[0] == row[0];
      assert (row + [e])[1..] == row[1..] + [e];
      FirstKeySnoc(row[1..], p, e);
    }
  }

  /** Reference definition of the y-keys: the keys of the numeric entries, in order. */
  function NumericKeys(row: Row): seq<string> {
    Keys(FilterSeq(IsNumericEntry, row))
  }

  /**
   * Reference definition of the x-key: the first non-numeric key that looks
   * like a label, or else the first non-numeric key.
   */
  function LabelKey(row: Row): Option<string> {
    match FirstKey(row, IsLabelEntry)
    case Some(k) => Some(k)
    case None => FirstKey(row, IsTextEntry)
  }

  lemma KeysAppend(a: Row, b: Row)
    ensures Keys(a + b) == Keys(a) + Keys(b)
  {
  }

  /** The scan collects every numeric key as a y-key, in order. */
  lemma {:induction false} AxesNumericKeys(row: Row)
    ensures Axes(row).1 == NumericKeys(row)
  {
    if row != [] {
      var init, e := row[..|row| - 1], row[|row| - 1];
      assert row == init + [e];
      var a := Axes(init);
      var last := if IsNumericEntry(e) then [e] else [];
      assert Axes(row) == AxisStep(a.0, a.1, e);
      AxisStepKeys(a.0, a.1, e);
      AxesNumericKeys(init);
      FilterSeqSnoc(IsNumericEntry, init, e);
      KeysAppend(FilterSeq(IsNumericEntry, init), last);
    }
  }

  /** One step of the scan adds the entry's key to the y-keys exactly when it is numeric. */
  lemma AxisStepKeys(x: Option<string>, ys: seq<string>, e: (string, Value))
    ensures AxisStep(x, ys, e).1 == ys + Keys(if IsNumericEntry(e) then [e] else [])
  {
    if !e.1.Num? {
      assert Keys([]) == [];
    }
  }

  /**
   * The scan keeps as x-key the first label-like non-numeric key, or else
   * the first non-numeric key.
   */
  lemma {:induction false} AxesLabelKey(row: Row)
    ensures Axes(row).0 == LabelKey(row)
  {
    if row != [] {
      var init, e := row[..|row| - 1], row[|row| - 1];
      assert row == init + [e];
      AxesLabelKey(init);
      FirstKeySnoc(init, IsLabelEntry, e);
      FirstKeySnoc(init, IsTextEntry, e);
      var x := Axes(init).0;
      if !e.1.Num? && x.Some? {
        if FirstKey(init, IsLabelEntry).None? {
          assert FirstKey(init, IsTextEntry) == x;
          assert !LooksLikeLabel(x.value);
        } else {
          assert LooksLikeLabel(x.value);
        }
      }
    }
  }

  // ---------------------------------------------------------------------------
  // Chart or table
  // ---------------------------------------------------------------------------

  /** `yAxisKey` for a single series, `yAxisKeys` otherwise. */
  datatype YAxis = OneKey(key: string) | KeyList(keys: seq<string>)

  datatype Visualization =
    | Chart(xAxisKey: string, yAxis: YAxis, chartType: string, series: seq<Row>)
    | Table(headers: seq<string>, rows: seq<seq<Value>>)

  function YKeysOf(y: YAxis): seq<string> {
    match y
    case OneKey(k) => [k]
    case KeyList(ks) => ks
  }

  function ChartType(x: string): string {
    if IsTimeAxis(x) then "line" else "bar"
  }

  /** A row's values for the given headers (`row.get(header)`). */
  function Project(row: Row, headers: seq<string>): (vs: seq<Value>)
    ensures |vs| == |headers|
    ensures forall j :: 0 <= j < |headers| ==> vs[j] == Lookup(row, headers[j])
  {
    seq(|headers|, j requires 0 <= j < |headers| => Lookup(row, headers[j]))
  }

  function TableOf(data: seq<Row>): Visualization
    requires data != []
  {
    var headers := Keys(data[0]);
    Table(headers, seq(|data|, i requires 0 <= i < |data| => Project(data[i], headers)))
  }

  /** What `determineVisualization` returns for a query result. */
  function Visualize(data: seq<Row>): Option<Visualization> {
    if data == [] then None
    else
      var a := Axes(data[0]);
      var x, ys := a.0, a.1;
      if ys == [] || (x.None? && |ys| == 1) then Some(TableOf(data))
      else
        var xKey := if x.Some? then x.value else ys[0];
        var yKeys := if x.Some? then ys else ys[1..];
        Some(Chart(xKey, if |yKeys| == 1 then OneKey(yKeys[0]) else KeyList(yKeys), ChartType(xKey), data))
  }

  /** The loop over the first row's entries in `determineVisualization`. */
  method ScanAxes(firstRow: Row) returns (xKey: Option<string>, yKeys: seq<string>)
    ensures (xKey, yKeys) == Axes(firstRow)
  {
    xKey, yKeys := None, [];
    var i := 0;
    while i < |firstRow|
      invariant 0 <= i <= |firstRow|
      invariant (xKey, yKeys) == Axes(firstRow[..i])
    {
      var key, value := firstRow[i].0, firstRow[i].1;
      if value.Num? {
        yKeys := yKeys + [key];
      } else if xKey.None? {
        xKey := Some(key);
      } else if LooksLikeLabel(key) && !LooksLikeLabel(xKey.value) {
        xKey := Some(key);
      }
      assert firstRow[..i + 1][..i] == firstRow[..i];
      i := i + 1;
    }
    assert firstRow[..|firstRow|] == firstRow;
  }

  /** The values of one row under the table's headers (`row.get(header)` for each header). */
  method ProjectRow(row: Row, headers: seq<string>) returns (rowData: seq<Value>)
    ensures rowData == Project(row, headers)
  {
    rowData := [];
    var h := 0;
    while h < |headers|
      invariant 0 <= h <= |headers|
      invariant |rowData| == h
      invariant forall j :: 0 <= j < h ==> rowData[j] == Lookup(row, headers[j])
    {
      rowData := rowData + [Lookup(row, headers[h])];
      h := h + 1;
    }
  }

  /** The table fallback of `determineVisualization`: headers from the first row, one list of values per row. */
  method BuildTable(data: seq<Row>) returns (t: Visualization)
    requires data != []
    ensures t == TableOf(data)
  {
    var headers := Keys(data[0]);
    var rows: seq<seq<Value>> := [];
    var r := 0;
    while r < |data|
      invariant 0 <= r <= |data|
      invariant |rows| == r
      invariant forall k :: 0 <= k < r ==> rows[k] == Project(data[k], headers)
    {
      var rowData := ProjectRow(data[r], headers);
      rows := rows + [rowData];
      r := r + 1;
    }
    t := Table(headers, rows);
  }

  /** `determineVisualization`: `null` for an empty result, else a chart or the table fallback. */
  method DetermineVisualization(data: seq<Row>) returns (v: Option<Visualization>)
    ensures v == Visualize(data)
  {
    if data == [] {
      return None;
    }
    var xKey, yKeys := ScanAxes(data[0]);
    if yKeys != [] {
      if xKey.None? && |yKeys| > 1 {
        xKey := Some(yKeys[0]);
        yKeys := yKeys[1..];
      }
      if xKey.Some? {
        var y := if |yKeys| == 1 then OneKey(yKeys[0]) else KeyList(yKeys);
        return Some(Chart(xKey.value, y, ChartType(xKey.value), data));
      }
    }
    var t := BuildTable(data);
    return Some(t);
  }

  /**
   * A non-empty result gets a chart exactly when its first row has a
   * numeric column and either a non-numeric column or a second numeric
   * column. The x-axis is then the label key, or the first numeric key when
   * every column is numeric; the y-keys are the other numeric keys in order;
   * the chart is a line chart exactly for a time-like x-axis; the series is
   * the whole result.
   */
  lemma ChartChoice(data: seq<Row>)
    requires data != []
    ensures var nums := NumericKeys(data[0]); var lx := LabelKey(data[0]);
      Visualize(data).Some? &&
      (Visualize(data).value.Chart? <==> nums != [] && (lx.Some? || |nums| > 1)) &&
      (Visualize(data).value.Chart? ==>
        var c := Visualize(data).value;
        c.series == data &&
        (c.chartType == "line" <==> IsTimeAxis(c.xAxisKey)) &&
        (c.chartType == "line" || c.chartType == "bar") &&
        (c.yAxis.OneKey? <==> |YKeysOf(c.yAxis)| == 1) &&
        (lx.Some? ==> c.xAxisKey == lx.value && YKeysOf(c.yAxis) == nums) &&
        (lx.None? ==> c.xAxisKey == nums[0] && YKeysOf(c.yAxis) == nums[1..]))
  {
    AxesNumericKeys(data[0]);
    AxesLabelKey(data[0]);
  }

  /**
   * The table fallback has the first row's keys as headers and one row per
   * result row, holding that row's values for the headers in order.
   */
  lemma TableShape(data: seq<Row>)
    requires data != [] && Visualize(data).value.Table?
    ensures var t := Visualize(data).value;
      t.headers == Keys(data[0]) && |t.rows| == |data| &&
      forall i, j :: 0 <= i < |data| && 0 <= j < |t.headers| ==> t.rows[i][j] == Lookup(data[i], t.headers[j])
  {
  }

  // ---------------------------------------------------------------------------
  // Code fences in the model's reply
  // ---------------------------------------------------------------------------

  const Fence: string := "```"

  /** Cut the text before its first fence, if any. */
  function CutAtFence(s: string): (r: string)
    ensures r <= s && !Contains(r, Fence)
    ensures !Contains(s, Fence) ==> r == s
  {
    if Contains(s, Fence) then
      PrefixBeforeFirstIsFree(s, Fence);
      s[..IndexOf(s, Fence)]
    else s
  }

  /**
   * The cleaning of the model's reply: trim; skip past the first ```` ```json ````
   * (or else the first ```` ``` ````) and cut at the next fence; trim again.
   */
  function CleanFences(reply: string): string {
    var t := Trim(JavaTrim, reply);
    var u := if Contains(t, "```json") then CutAtFence(t[IndexOf(t, "```json") + 7..])
             else if Contains(t, Fence) then CutAtFence(t[IndexOf(t, Fence) + 3..])
             else t;
    Trim(JavaTrim, u)
  }

  /** A trimmed text has no fence when the text has none. */
  lemma TrimKeepsNoFence(s: string)
    requires !Contains(s, Fence)
    ensures !Contains(Trim(JavaTrim, s), Fence)
  {
    var i, j :| 0 <= i <= j <= |s| && Trim(JavaTrim, s) == s[i..j];
    SliceKeepsAbsence(s, Fence, i, j);
  }

  /** The cleaned reply never contains a fence. */
  lemma CleanFencesRemovesFences(reply: string)
    ensures !Contains(CleanFences(reply), Fence)
  {
    var t := Trim(JavaTrim, reply);
    var u := if Contains(t, "```json") then CutAtFence(t[IndexOf(t, "```json") + 7..])
             else if Contains(t, Fence) then CutAtFence(t[IndexOf(t, Fence) + 3..])
             else t;
    assert CleanFences(reply) == Trim(JavaTrim, u);
    assert !Contains(u, Fence);
    TrimKeepsNoFence(u);
  }

  /** A reply without fences is only trimmed. */
  lemma CleanFencesPlain(reply: string)
    requires !Contains(reply, Fence)
    ensures CleanFences(reply) == Trim(JavaTrim, reply)
  {
    var t := Trim(JavaTrim, reply);
    TrimKeepsNoFence(reply);
    if Contains(t, "```json") {
      ContainsPrefixOf(t, "```json", Fence);
    }
    TrimIdempotent(JavaTrim, reply);
  }

  // ---------------------------------------------------------------------------
  // Masking the result
  // ---------------------------------------------------------------------------

  /** `smartMask` applied to every entry of a row, keys unchanged. */
  function MaskRow(row: Row): (m: Row)
    ensures Keys(m) == Keys(row)
    ensures forall j :: 0 <= j < |row| ==> m[j].1 == SmartMask(row[j].0, row[j].1)
  {
    seq(|row|, j requires 0 <= j < |row| => (row[j].0, SmartMask(row[j].0, row[j].1)))
  }

  /**
   * The masked result: as many rows as the result, each with the same keys,
   * and every value is `smartMask` of its key and original value.
   */
  function MaskAll(data: seq<Row>): (masked: seq<Row>)
    ensures |masked| == |data|
    ensures forall i :: 0 <= i < |data| ==> |masked[i]| == |data[i]| && Keys(masked[i]) == Keys(data[i])
    ensures forall i, j :: 0 <= i < |data| && 0 <= j < |data[i]| ==>
              masked[i][j].1 == SmartMask(data[i][j].0, data[i][j].1)
  {
    seq(|data|, i requires 0 <= i < |data| => MaskRow(data[i]))
  }

  /** The masking loop, row by row and entry by entry. */
  method MaskRows(data: seq<Row>) returns (masked: seq<Row>)
    ensures masked == MaskAll(data)
  {
    masked := [];
    var i := 0;
    while i < |data|
      invariant 0 <= i <= |data|
      invariant |masked| == i
      invariant forall k :: 0 <= k < i ==> masked[k] == MaskRow(data[k])
    {
      var row := data[i];
      var maskedRow: Row := [];
      var j := 0;
      while j < |row|
        invariant 0 <= j <= |row|
        invariant maskedRow == MaskRow(row[..j])
      {
        maskedRow := maskedRow + [(row[j].0, SmartMask(row[j].0, row[j].1))];
        assert row[..j + 1][..j] == row[..j];
        j := j + 1;
      }
      assert row[..|row|] == row;
      masked := masked + [maskedRow];
      i := i + 1;
    }
  }

  // ---------------------------------------------------------------------------
  // From the model's reply to an executed query
  // ---------------------------------------------------------------------------

  /** Why a reply of the model does not give a query to run. */
  datatype PrepareError =
    | CannotAnswer                // the first reply carries the error marker
    | CannotRepair                // a repair reply carries the error marker
    | Unparsable                  // the JSON reply does not deserialise
    | Rejected(cause: BuildError) // `buildSql` throws

  /** The JSON deserialiser: a request, or `None` when the text does not parse. */
  type Parser = string -> Option<QueryRequest>

  /** The reply names an error and a null table. */
  predicate HasErrorMarker(json: string) {
    Contains(json, "\"error\"") && Contains(json, "\"table\": null")
  }

  /**
   * From a reply of the model to an executable query: strip the fences,
   * refuse a reply with the error marker, deserialise, and compile with the
   * caller's scope.
   */
  function Prepare(parse: Parser, reply: string, scope: Option<string>, marker: PrepareError)
    : (r: Result<(QueryRequest, string), PrepareError>)
    ensures r.Success? ==> Compile(r.value.0, scope) == Success(r.value.1)
    ensures HasErrorMarker(CleanFences(reply)) ==> r == Failure(marker)
  {
    var json := CleanFences(reply);
    if HasErrorMarker(json) then Failure(marker)
    else match parse(json)
      case None => Failure(Unparsable)
      case Some(req) =>
        match Compile(req, scope)
        case Failure(e) => Failure(Rejected(e))
        case Success(sql) => Success((req, sql))
  }

  /** `Prepare` as the loop sees it: only the compiled query, or why there is none. */
  function Preparation(parse: Parser, scope: Option<string>, marker: PrepareError): Preparer<PrepareError> {
    reply =>
      match Prepare(parse, reply, scope, marker)
      case Failure(e) => Failure(e)
      case Success(prepared) => Success(prepared.1)
  }

  /** The query is `buildSql` of some request with the scope. */
  ghost predicate Scoped(sql: string, scope: Option<string>) {
    exists req :: Compile(req, scope) == Success(sql)
  }

  /** Every query a reply is prepared into is `buildSql` of its request with the scope. */
  lemma PreparedIsScoped(parse: Parser, scope: Option<string>, marker: PrepareError, sql: string)
    requires Prepared(Preparation(parse, scope, marker), sql)
    ensures Scoped(sql, scope)
  {
    var reply :| Preparation(parse, scope, marker)(reply) == Success(sql);
    var prepared := Prepare(parse, reply, scope, marker);
    assert prepared.Success? && prepared.value.1 == sql;
    assert Compile(prepared.value.0, scope) == Success(sql);
  }

  /** The query part of `analyzeData` for the model's first reply. */
  function RunQuery(db: Database, model: RepairModel, parse: Parser, schema: string, query: string,
                    scope: Option<string>, reply: string): Trace<PrepareError>
  {
    Begin(db, model, Preparation(parse, scope, CannotRepair), schema, query,
          Preparation(parse, scope, CannotAnswer)(reply))
  }

  /** The query part of `analyzeData`: prepare the first reply, then run the loop. */
  method AnalyzeQuery(db: Database, model: RepairModel, parse: Parser, schema: string, query: string,
                      scope: Option<string>, reply: string)
    returns (outcome: Result<(string, seq<Row>), AnalysisError<PrepareError>>)
    ensures outcome == RunQuery(db, model, parse, schema, query, scope, reply).outcome
  {
    var first := Prepare(parse, reply, scope, CannotAnswer);
    if first.Failure? {
      return Failure(Unprepared(first.error));
    }
    outcome := ExecuteWithRepair(db, model, Preparation(parse, scope, CannotRepair), schema, query, first.value.1);
  }

  /**
   * Every query that runs is `buildSql` of some request with the caller's
   * scope, and nothing runs when the first reply cannot be prepared.
   */
  lemma RunQueryScoped(db: Database, model: RepairModel, parse: Parser, schema: string, query: string,
                       scope: Option<string>, reply: string)
    ensures var t := RunQuery(db, model, parse, schema, query, scope, reply);
      (Prepare(parse, reply, scope, CannotAnswer).Failure? <==> t.executed == []) &&
      forall i :: 0 <= i < |t.executed| ==> Scoped(t.executed[i], scope)
  {
    var first := Preparation(parse, scope, CannotAnswer)(reply);
    var repair := Preparation(parse, scope, CannotRepair);
    var t := RunQuery(db, model, parse, schema, query, scope, reply);
    BeginSpec(db, model, repair, schema, query, first);
    forall i | 0 <= i < |t.executed|
      ensures Scoped(t.executed[i], scope)
    {
      if i == 0 {
        PreparedIsScoped(parse, scope, CannotAnswer, t.executed[0]);
      } else {
        PreparedIsScoped(parse, scope, CannotRepair, t.executed[i]);
      }
    }
  }

  // ---------------------------------------------------------------------------
  // The whole analysis
  // ---------------------------------------------------------------------------

  /** Rows of the masked result the analysis prompt shows the model (`limit(20)`). */
  const SummaryRows: nat := 20

  /** What `analyzeData` returns on success: the SQL, the masked data, the prompt's rows and the visualisation. */
  datatype Analysis = Analysis(sql: string, data: seq<Row>, summary: seq<Row>, visualization: Option<Visualization>)

  /** `analyzeData` from the model's first reply on. */
  function AnalyzeData(db: Database, model: RepairModel, parse: Parser, schema: string, query: string,
                       scope: Option<string>, reply: string): Result<Analysis, AnalysisError<PrepareError>>
  {
    match RunQuery(db, model, parse, schema, query, scope, reply).outcome
    case Failure(e) => Failure(e)
    case Success(run) =>
      var masked := MaskAll(run.1);
      Success(Analysis(run.0, masked, Take(masked, SummaryRows), Visualize(masked)))
  }

  /** `analyzeData`: run the query part, mask the rows, keep 20 for the prompt, choose the visualisation. */
  method Analyze(db: Database, model: RepairModel, parse: Parser, schema: string, query: string,
                 scope: Option<string>, reply: string)
    returns (r: Result<Analysis, AnalysisError<PrepareError>>)
    ensures r == AnalyzeData(db, model, parse, schema, query, scope, reply)
  {
    var outcome := AnalyzeQuery(db, model, parse, schema, query, scope, reply);
    if outcome.Failure? {
      return Failure(outcome.error);
    }
    var masked := MaskRows(outcome.value.1);
    var visualization := DetermineVisualization(masked);
    r := Success(Analysis(outcome.value.0, masked, Take(masked, SummaryRows), visualization));
  }

  /**
   * A successful analysis returns the query that ran last, which is
   * `buildSql` of some request with the caller's scope; the rows of its
   * result with every value masked for its column, so that no unmasked
   * value leaves; at most the first 20 of those rows for the prompt, all
   * of them when there are no more; and the visualisation of the masked
   * rows. A failed run fails the analysis with the same error.
   */
  lemma AnalyzeDataSpec(db: Database, model: RepairModel, parse: Parser, schema: string, query: string,
                        scope: Option<string>, reply: string)
    ensures var t := RunQuery(db, model, parse, schema, query, scope, reply);
      var a := AnalyzeData(db, model, parse, schema, query, scope, reply);
      (t.outcome.Failure? ==> a == Failure(t.outcome.error)) &&
      (t.outcome.Success? ==>
        a.Success? && t.executed != [] && a.value.sql == t.executed[|t.executed| - 1] && Scoped(a.value.sql, scope))
    ensures var t := RunQuery(db, model, parse, schema, query, scope, reply);
      var a := AnalyzeData(db, model, parse, schema, query, scope, reply);
      t.outcome.Success? ==>
        var rows := t.outcome.value.1;
        |a.value.data| == |rows| &&
        (forall i :: 0 <= i < |rows| ==> |a.value.data[i]| == |rows[i]|) &&
        (forall i, j :: 0 <= i < |rows| && 0 <= j < |rows[i]| ==>
           a.value.data[i][j] == (rows[i][j].0, SmartMask(rows[i][j].0, rows[i][j].1))) &&
        a.value.summary <= a.value.data &&
        |a.value.summary| == (if |rows| < SummaryRows then |rows| else SummaryRows) &&
        a.value.visualization == Visualize(a.value.data)
  {
    var t := RunQuery(db, model, parse, schema, query, scope, reply);
    BeginSpec(db, model, Preparation(parse, scope, CannotRepair), schema, query,
              Preparation(parse, scope, CannotAnswer)(reply));
    RunQueryScoped(db, model, parse, schema, query, scope, reply);
  }
}
