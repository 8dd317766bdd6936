// Model of the CSV upload of the earlier DataManagementService: the header
// fallback, per-column type inference over the sampled rows (three boolean
// arrays that only ever turn false), column-name sanitisation, the CREATE
// TABLE and INSERT statements, the argument rows and the stored row count;
// and the SELECT/LIMIT guard of `executeQuery`. The CSV reader, the UUID and
// the JDBC template are parameters or left out.

module DataUpload {
  import opened Common
  import opened Text

  // ---------------------------------------------------------------------------
  // Cell shapes
  // ---------------------------------------------------------------------------

  /** A cell that `trim().isEmpty()` finds blank. */
  predicate Blank(cell: string) {
    Trim(JavaTrim, cell) == ""
  }

  /** `replaceAll("^\"|\"$", "")`: one leading and one trailing quote removed. */
  function Unquote(t: string): (r: string)
    ensures |r| <= |t|
  {
    var a := if |t| > 0 && t[0] == '"' then 1 else 0;
    var b := if |t| > a && t[|t| - 1] == '"' then |t| - 1 else |t|;
    t[a..b]
  }

  /** A cell as it is tested and inserted: trimmed, then unquoted. */
  function Clean(cell: string): string {
    Unquote(Trim(JavaTrim, cell))
  }

  /** The digits of a numeral after an optional minus sign. */
  function Magnitude(v: string): string {
    if |v| > 0 && v[0] == '-' then v[1..] else v
  }

  datatype Kind = IntKind | DoubleKind | DateKind

  /**
   * The three patterns of the inference: `^-?\d+$`, `^-?\d*\.?\d+$` and
   * `^\d{4}-\d{2}-\d{2}$`.
   */
  predicate Fits(kind: Kind, v: string) {
    match kind
    case IntKind => var m := Magnitude(v); m != [] && AllDigits(m)
    case DoubleKind =>
      var m := Magnitude(v);
      var dot := IndexOf(m, ".");
      if dot < 0 then m != [] && AllDigits(m)
      else AllDigits(m[..dot]) && dot + 1 < |m| && AllDigits(m[dot + 1..])
    case DateKind =>
      |v| == 10 && v[4] == '-' && v[7] == '-' &&
      forall i :: 0 <= i < 10 && i != 4 && i != 7 ==> IsDigit(v[i])
  }

  /** A double is digits, at most one point, and a minus sign only in front. */
  lemma DoubleChars(v: string)
    requires Fits(DoubleKind, v)
    ensures forall i :: 0 <= i < |v| ==> IsDigit(v[i]) || v[i] == '.' || (i == 0 && v[i] == '-')
  {
    var m := Magnitude(v);
    var off := |v| - |m|;
    assert forall i :: 0 <= i < |m| ==> v[off + i] == m[i];
    var dot := IndexOf(m, ".");
    if dot >= 0 {
      assert m[dot..dot + 1][0] == '.';
      assert forall i :: 0 <= i < dot ==> m[i] == m[..dot][i];
      assert forall i :: dot < i < |m| ==> m[i] == m[dot + 1..][i - dot - 1];
    }
  }

  /** Every integer is a double, and no double is a date. */
  lemma PatternsNest(v: string)
    ensures Fits(IntKind, v) ==> Fits(DoubleKind, v)
    ensures Fits(DoubleKind, v) ==> !Fits(DateKind, v)
  {
    var m := Magnitude(v);
    if Fits(IntKind, v) && Contains(m, ".") {
      var i :| 0 <= i <= |m| - 1 && OccursAt(m, ".", i);
      assert m[i..i + 1][0] == m[i];
    }
    if Fits(DoubleKind, v) {
      DoubleChars(v);
    }
  }

  // ---------------------------------------------------------------------------
  // Type inference
  // ---------------------------------------------------------------------------

  /** The number of rows sampled. */
  function Sample(rows: seq<seq<string>>): nat {
    if |rows| < 1000 then |rows| else 1000
  }

  /**
   * The flag of column `j` after `n` sampled rows: it stays true as long as
   * every non-blank cell of the column, cleaned, fits the pattern; rows
   * too short for the column are passed over.
   */
  function Flag(rows: seq<seq<string>>, j: nat, kind: Kind, n: nat): bool
    requires n <= |rows|
  {
    if n == 0 then true else Flag(rows, j, kind, n - 1) && CellKeeps(kind, rows[n - 1], j)
  }

  /** Cell `j` of a row leaves the flag alone: missing, blank, or fitting once cleaned. */
  predicate CellKeeps(kind: Kind, row: seq<string>, j: nat) {
    j >= |row| || Blank(row[j]) || Fits(kind, Clean(row[j]))
  }

  /** A flag never turns true again: a flag that holds after `n` rows held after every earlier row. */
  lemma {:induction false} FlagOnlyFalls(rows: seq<seq<string>>, j: nat, kind: Kind, m: nat, n: nat)
    requires m <= n <= |rows|
    requires Flag(rows, j, kind, n)
    ensures Flag(rows, j, kind, m)
    decreases n
  {
    if m < n {
      FlagOnlyFalls(rows, j, kind, m, n - 1);
    }
  }

  /** A column whose sampled cells are all blank or missing keeps every flag. */
  lemma {:induction false} BlankColumnKeepsFlags(rows: seq<seq<string>>, j: nat, kind: Kind, n: nat)
    requires n <= |rows|
    requires forall i :: 0 <= i < n && j < |rows[i]| ==> Blank(rows[i][j])
    ensures Flag(rows, j, kind, n)
  {
    if n > 0 {
      BlankColumnKeepsFlags(rows, j, kind, n - 1);
    }
  }

  /** The inference loop over the first `min(rows, 1000)` rows, flipping flags in three arrays. */
  method InferFlags(colCount: nat, rows: seq<seq<string>>) returns (isInt: array<bool>, isDouble: array<bool>, isDate: array<bool>)
    ensures isInt.Length == colCount && isDouble.Length == colCount && isDate.Length == colCount
    ensures forall j :: 0 <= j < colCount ==> isInt[j] == Flag(rows, j, IntKind, Sample(rows))
    ensures forall j :: 0 <= j < colCount ==> isDouble[j] == Flag(rows, j, DoubleKind, Sample(rows))
    ensures forall j :: 0 <= j < colCount ==> isDate[j] == Flag(rows, j, DateKind, Sample(rows))
  {
    isInt := new bool[colCount](_ => true);
    isDouble := new bool[colCount](_ => true);
    isDate := new bool[colCount](_ => true);
    var sampleLimit := Sample(rows);
    var i := 0;
    while i < sampleLimit
      invariant 0 <= i <= sampleLimit
      invariant forall j :: 0 <= j < colCount ==> isInt[j] == Flag(rows, j, IntKind, i)
      invariant forall j :: 0 <= j < colCount ==> isDouble[j] == Flag(rows, j, DoubleKind, i)
      invariant forall j :: 0 <= j < colCount ==> isDate[j] == Flag(rows, j, DateKind, i)
    {
      SampleRow(isInt, isDouble, isDate, rows, i);
      i := i + 1;
    }
  }

  /** One sampled row: each non-blank cell, cleaned, can turn its column's flags off. */
  method SampleRow(isInt: array<bool>, isDouble: array<bool>, isDate: array<bool>, rows: seq<seq<string>>, i: nat)
    requires i < |rows|
    requires isInt.Length == isDouble.Length == isDate.Length
    requires isInt != isDouble && isInt != isDate && isDouble != isDate
    requires forall j :: 0 <= j < isInt.Length ==> isInt[j] == Flag(rows, j, IntKind, i)
    requires forall j :: 0 <= j < isInt.Length ==> isDouble[j] == Flag(rows, j, DoubleKind, i)
    requires forall j :: 0 <= j < isInt.Length ==> isDate[j] == Flag(rows, j, DateKind, i)
    modifies isInt, isDouble, isDate
    ensures forall j :: 0 <= j < isInt.Length ==> isInt[j] == Flag(rows, j, IntKind, i + 1)
    ensures forall j :: 0 <= j < isInt.Length ==> isDouble[j] == Flag(rows, j, DoubleKind, i + 1)
    ensures forall j :: 0 <= j < isInt.Length ==> isDate[j] == Flag(rows, j, DateKind, i + 1)
  {
    var rowData := rows[i];
    var colCount := isInt.Length;
    var j := 0;
    while j < colCount && j < |rowData|
      invariant 0 <= j <= colCount && j <= |rowData|
      invariant forall k :: 0 <= k < j ==> isInt[k] == Flag(rows, k, IntKind, i + 1)
      invariant forall k :: j <= k < colCount ==> isInt[k] == Flag(rows, k, IntKind, i)
      invariant forall k :: 0 <= k < j ==> isDouble[k] == Flag(rows, k, DoubleKind, i + 1)
      invariant forall k :: j <= k < colCount ==> isDouble[k] == Flag(rows, k, DoubleKind, i)
      invariant forall k :: 0 <= k < j ==> isDate[k] == Flag(rows, k, DateKind, i + 1)
      invariant forall k :: j <= k < colCount ==> isDate[k] == Flag(rows, k, DateKind, i)
    {
      SampleCell(isInt, isDouble, isDate, rows, i, j);
      j := j + 1;
    }
  }

  /** One cell: a blank cell is skipped; otherwise the cleaned text is tested against the three patterns. */
  method SampleCell(isInt: array<bool>, isDouble: array<bool>, isDate: array<bool>, rows: seq<seq<string>>, i: nat, j: nat)
    requires i < |rows| && j < |rows[i]| && j < isInt.Length == isDouble.Length == isDate.Length
    requires isInt != isDouble && isInt != isDate && isDouble != isDate
    requires isInt[j] == Flag(rows, j, IntKind, i)
    requires isDouble[j] == Flag(rows, j, DoubleKind, i)
    requires isDate[j] == Flag(rows, j, DateKind, i)
    modifies isInt, isDouble, isDate
    ensures isInt[j] == Flag(rows, j, IntKind, i + 1)
    ensures isDouble[j] == Flag(rows, j, DoubleKind, i + 1)
    ensures isDate[j] == Flag(rows, j, DateKind, i + 1)
    ensures forall k :: 0 <= k < isInt.Length && k != j ==> isInt[k] == old(isInt[k])
    ensures forall k :: 0 <= k < isInt.Length && k != j ==> isDouble[k] == old(isDouble[k])
    ensures forall k :: 0 <= k < isInt.Length && k != j ==> isDate[k] == old(isDate[k])
  {
    var val := rows[i][j];
    if Trim(JavaTrim, val) != "" {
      val := Unquote(Trim(JavaTrim, val));
      Narrow(isInt, j, IntKind, val, rows, i);
      Narrow(isDouble, j, DoubleKind, val, rows, i);
      Narrow(isDate, j, DateKind, val, rows, i);
    }
  }

  /** `if (flags[j] && !val.matches(pattern)) flags[j] = false` for the cleaned cell `val`. */
  method Narrow(flags: array<bool>, j: nat, kind: Kind, val: string, ghost rows: seq<seq<string>>, ghost i: nat)
    requires i < |rows| && j < |rows[i]| && j < flags.Length
    requires !Blank(rows[i][j]) && val == Clean(rows[i][j])
    requires flags[j] == Flag(rows, j, kind, i)
    modifies flags
    ensures flags[j] == Flag(rows, j, kind, i + 1)
    ensures forall k :: 0 <= k < flags.Length && k != j ==> flags[k] == old(flags[k])
  {
    if flags[j] && !Fits(kind, val) {
      flags[j] := false;
    }
  }

  /** The column type: INT before DOUBLE before DATE, else `VARCHAR(1000)`. */
  function ColumnType(isInt: bool, isDouble: bool, isDate: bool): string {
    if isInt then "INT" else if isDouble then "DOUBLE" else if isDate then "DATE" else "VARCHAR(1000)"
  }

  /** The inferred SQL type of column `j`. */
  function InferredType(rows: seq<seq<string>>, j: nat): string {
    var n := Sample(rows);
    ColumnType(Flag(rows, j, IntKind, n), Flag(rows, j, DoubleKind, n), Flag(rows, j, DateKind, n))
  }

  /**
   * A column is INT iff every sampled non-blank cell is an integer, so a
   * column with nothing but blanks is INT; a sampled cell that fits no
   * pattern makes it VARCHAR.
   */
  lemma TypePriority(rows: seq<seq<string>>, j: nat)
    ensures InferredType(rows, j) == "INT" <==> Flag(rows, j, IntKind, Sample(rows))
    ensures InferredType(rows, j) == "INT" <==> forall i :: 0 <= i < Sample(rows) ==> CellKeeps(IntKind, rows[i], j)
    ensures (forall i :: 0 <= i < Sample(rows) && j < |rows[i]| ==> Blank(rows[i][j])) ==> InferredType(rows, j) == "INT"
    ensures (exists i :: 0 <= i < Sample(rows) && j < |rows[i]| && !Blank(rows[i][j]) &&
              !Fits(IntKind, Clean(rows[i][j])) && !Fits(DoubleKind, Clean(rows[i][j])) && !Fits(DateKind, Clean(rows[i][j])))
            ==> InferredType(rows, j) == "VARCHAR(1000)"
  {
    FlagIsEveryCell(rows, j, IntKind, Sample(rows));
    if forall i :: 0 <= i < Sample(rows) && j < |rows[i]| ==> Blank(rows[i][j]) {
      BlankColumnKeepsFlags(rows, j, IntKind, Sample(rows));
    }
    if exists i :: 0 <= i < Sample(rows) && j < |rows[i]| && !Blank(rows[i][j]) &&
         !Fits(IntKind, Clean(rows[i][j])) && !Fits(DoubleKind, Clean(rows[i][j])) && !Fits(DateKind, Clean(rows[i][j])) {
      var i :| 0 <= i < Sample(rows) && j < |rows[i]| && !Blank(rows[i][j]) &&
         !Fits(IntKind, Clean(rows[i][j])) && !Fits(DoubleKind, Clean(rows[i][j])) && !Fits(DateKind, Clean(rows[i][j]));
      assert !CellKeeps(IntKind, rows[i], j) && !CellKeeps(DoubleKind, rows[i], j) && !CellKeeps(DateKind, rows[i], j);
      FlagFailsAt(rows, j, IntKind, i, Sample(rows));
      FlagFailsAt(rows, j, DoubleKind, i, Sample(rows));
      FlagFailsAt(rows, j, DateKind, i, Sample(rows));
    }
  }

  /** The flag after `n` rows holds iff each of the first `n` rows keeps it. */
  lemma {:induction false} FlagIsEveryCell(rows: seq<seq<string>>, j: nat, kind: Kind, n: nat)
    requires n <= |rows|
    ensures Flag(rows, j, kind, n) <==> forall i :: 0 <= i < n ==> CellKeeps(kind, rows[i], j)
    decreases n
  {
    if n > 0 {
      FlagIsEveryCell(rows, j, kind, n - 1);
    }
  }

  /** One sampled cell that does not fit turns the flag off for good. */
  lemma {:induction false} FlagFailsAt(rows: seq<seq<string>>, j: nat, kind: Kind, i: nat, n: nat)
    requires i < n <= |rows| && !CellKeeps(kind, rows[i], j)
    ensures !Flag(rows, j, kind, n)
    decreases n
  {
    if i < n - 1 {
      FlagFailsAt(rows, j, kind, i, n - 1);
    }
  }

  // ---------------------------------------------------------------------------
  // Column names
  // ---------------------------------------------------------------------------

  /** `replaceAll("[^a-zA-Z0-9_]", "_")`, then `col_` in front of a leading digit. */
  function SafeColumnName(header: string): (name: string)
    ensures forall i :: 0 <= i < |name| ==> IsWordChar(name[i])
    ensures |name| == |header| + (if |header| > 0 && IsDigit(header[0]) then 4 else 0)
    ensures |header| > 0 && IsDigit(header[0]) ==> name == "col_" + Map(WordOrUnderscore, header)
    ensures !(|header| > 0 && IsDigit(header[0])) ==> name == Map(WordOrUnderscore, header)
  {
    var s := Map(WordOrUnderscore, header);
    if |s| > 0 && IsDigit(s[0]) then "col_" + s else s
  }

  function WordOrUnderscore(c: char): (d: char)
    ensures IsWordChar(d)
    ensures IsWordChar(c) ==> d == c
  {
    if IsWordChar(c) then c else '_'
  }

  /** A sanitised name is its own sanitisation; a header that is already a name and no numeral is kept. */
  lemma SafeColumnNameIdempotent(header: string)
    ensures SafeColumnName(SafeColumnName(header)) == SafeColumnName(header)
    ensures IsWord(header) && !IsDigit(header[0]) ==> SafeColumnName(header) == header
  {
    var name := SafeColumnName(header);
    assert Map(WordOrUnderscore, name) == name;
    if |header| > 0 && IsDigit(header[0]) {
      assert name[0] == 'c';
    }
    if IsWord(header) && !IsDigit(header[0]) {
      assert Map(WordOrUnderscore, header) == header;
    }
  }

  // ---------------------------------------------------------------------------
  // Statements and argument rows
  // ---------------------------------------------------------------------------

  /** A column as stored in the metadata: its SQL name, the original header and the type without length. */
  datatype DataColumn = DataColumn(columnName: string, displayName: string, dataType: string)

  /** `dataType.split("\\(")[0]`: the type up to its first parenthesis. */
  function BareType(t: string): (r: string)
    ensures '(' !in r && r <= t
  {
    var k := IndexOf(t, "(");
    if k < 0 then
      assert '(' !in t by {
        if '(' in t {
          var i :| 0 <= i < |t| && t[i] == '(';
          assert OccursAt(t, "(", i);
        }
      }
      t
    else
      assert '(' !in t[..k] by {
        if '(' in t[..k] {
          var i :| 0 <= i < k && t[i] == '(';
          assert OccursAt(t, "(", i);
        }
      }
      t[..k]
  }

  /** The metadata of column `j`. */
  function Column(headers: seq<string>, rows: seq<seq<string>>, j: nat): DataColumn
    requires j < |headers|
  {
    DataColumn(SafeColumnName(headers[j]), headers[j], BareType(InferredType(rows, j)))
  }

  /** The definition of column `j` in the CREATE TABLE statement: name, a space, the full type. */
  function Definition(headers: seq<string>, rows: seq<seq<string>>, j: nat): string
    requires j < |headers|
  {
    SafeColumnName(headers[j]) + " " + InferredType(rows, j)
  }

  /** The columns of the first `n` headers. */
  function Columns(headers: seq<string>, rows: seq<seq<string>>, n: nat): (cs: seq<DataColumn>)
    requires n <= |headers|
    ensures |cs| == n
  {
    if n == 0 then [] else Columns(headers, rows, n - 1) + [Column(headers, rows, n - 1)]
  }

  /** The definitions of the first `n` headers. */
  function Definitions(headers: seq<string>, rows: seq<seq<string>>, n: nat): (ds: seq<string>)
    requires n <= |headers|
    ensures |ds| == n
  {
    if n == 0 then [] else Definitions(headers, rows, n - 1) + [Definition(headers, rows, n - 1)]
  }

  /** The CREATE TABLE statement: the identity key, then every column, comma-separated. */
  function CreateTableSql(table: string, definitions: seq<string>): string {
    "CREATE TABLE " + table + " (" + Join(["id IDENTITY PRIMARY KEY"] + definitions, ", ") + ")"
  }

  /** Build the CREATE TABLE statement as the loop does, then cut the last ", ". */
  method BuildCreateTableSql(table: string, definitions: seq<string>) returns (sql: string)
    ensures sql == CreateTableSql(table, definitions)
  {
    var head := "CREATE TABLE " + table + " (";
    var sb := head + "id IDENTITY PRIMARY KEY, ";
    var i := 0;
    while i < |definitions|
      invariant 0 <= i <= |definitions|
      invariant sb == head + Terminated(["id IDENTITY PRIMARY KEY"] + definitions[..i], ", ")
    {
      var items := ["id IDENTITY PRIMARY KEY"] + definitions[..i];
      assert ["id IDENTITY PRIMARY KEY"] + definitions[..i + 1] == items + [definitions[i]];
      assert (items + [definitions[i]])[..|items|] == items;
      sb := sb + definitions[i] + ", ";
      i := i + 1;
    }
    var all := ["id IDENTITY PRIMARY KEY"] + definitions;
    assert definitions[..i] == definitions;
    TerminatedIsJoin(all, ", ");
    sb := sb[..|sb| - 2];
    assert sb == head + Join(all, ", ");
    sql := sb + ")";
  }

  /** The INSERT statement over the sanitised names, one `?` per column. */
  function InsertSql(table: string, columns: seq<DataColumn>): string {
    "INSERT INTO " + table + " (" + Join(Map((c: DataColumn) => c.columnName, columns), ", ") + ") VALUES (" +
    Join(Map((c: DataColumn) => "?", columns), ", ") + ")"
  }

  /** The argument of one cell: null when blank, else the cleaned text. */
  function Argument(cell: string): Option<string> {
    if Blank(cell) then None else Some(Clean(cell))
  }

  /** The arguments of one row. */
  function RowArguments(row: seq<string>): (args: seq<Option<string>>)
    ensures |args| == |row|
  {
    if row == [] then [] else RowArguments(row[..|row| - 1]) + [Argument(row[|row| - 1])]
  }

  /** The argument rows: one per row with exactly one field per column, in order. */
  function Batch(rows: seq<seq<string>>, colCount: nat): seq<seq<Option<string>>> {
    if rows == [] then []
    else
      var last := rows[|rows| - 1];
      Batch(rows[..|rows| - 1], colCount) + (if |last| == colCount then [RowArguments(last)] else [])
  }

  /** The inner loop: each cell of a row, null when blank, else cleaned. */
  method CellArgs(rowData: seq<string>) returns (args: seq<Option<string>>)
    ensures args == RowArguments(rowData)
  {
    args := [];
    var j := 0;
    while j < |rowData|
      invariant 0 <= j <= |rowData|
      invariant args == RowArguments(rowData[..j])
    {
      var val := rowData[j];
      assert rowData[..j + 1][..j] == rowData[..j];
      if Trim(JavaTrim, val) == "" {
        args := args + [None];
      } else {
        args := args + [Some(Unquote(Trim(JavaTrim, val)))];
      }
      j := j + 1;
    }
    assert rowData[..j] == rowData;
  }

  /** The argument rows built by the insertion loop. */
  method BatchArgs(rows: seq<seq<string>>, colCount: nat) returns (batch: seq<seq<Option<string>>>)
    ensures batch == Batch(rows, colCount)
  {
    batch := [];
    var i := 0;
    while i < |rows|
      invariant 0 <= i <= |rows|
      invariant batch == Batch(rows[..i], colCount)
    {
      assert rows[..i + 1][..i] == rows[..i];
      var rowData := rows[i];
      if |rowData| == colCount {
        var args := CellArgs(rowData);
        batch := batch + [args];
      }
      i := i + 1;
    }
    assert rows[..i] == rows;
  }

  /** Rows of another width are left out, so the batch is never longer than the data. */
  lemma {:induction false} BatchNoLonger(rows: seq<seq<string>>, colCount: nat)
    ensures |Batch(rows, colCount)| <= |rows|
  {
    if rows != [] {
      BatchNoLonger(rows[..|rows| - 1], colCount);
    }
  }

  /** Every row has `colCount` cells. */
  predicate AllOfWidth(rows: seq<seq<string>>, colCount: nat) {
    forall i :: 0 <= i < |rows| ==> |rows[i]| == colCount
  }

  /** The batch is as long as the data exactly when every row has the right width. */
  lemma {:induction false} BatchFull(rows: seq<seq<string>>, colCount: nat)
    ensures |Batch(rows, colCount)| == |rows| <==> AllOfWidth(rows, colCount)
  {
    if rows != [] {
      var init := rows[..|rows| - 1];
      var last := rows[|rows| - 1];
      BatchFull(init, colCount);
      BatchNoLonger(init, colCount);
      assert |Batch(rows, colCount)| == |Batch(init, colCount)| + (if |last| == colCount then 1 else 0);
      if AllOfWidth(rows, colCount) {
        assert forall i :: 0 <= i < |init| ==> init[i] == rows[i];
      } else if |last| == colCount {
        var i :| 0 <= i < |rows| && |rows[i]| != colCount;
        assert init[i] == rows[i];
      }
    }
  }

  /** Every argument row is the arguments of a data row of the right width. */
  lemma {:induction false} BatchMembers(rows: seq<seq<string>>, colCount: nat, m: nat)
    requires m < |Batch(rows, colCount)|
    ensures exists i :: 0 <= i < |rows| && |rows[i]| == colCount && Batch(rows, colCount)[m] == RowArguments(rows[i])
  {
    var init := rows[..|rows| - 1];
    if m < |Batch(init, colCount)| {
      BatchMembers(init, colCount, m);
      var i :| 0 <= i < |init| && |init[i]| == colCount && Batch(init, colCount)[m] == RowArguments(init[i]);
      assert init[i] == rows[i];
    } else {
      assert Batch(rows, colCount)[m] == RowArguments(rows[|rows| - 1]);
    }
  }

  /** Cell `k` of a row's arguments is null exactly when the cell is blank, else the cleaned text. */
  lemma {:induction false} RowArgumentAt(row: seq<string>, k: nat)
    requires k < |row|
    ensures RowArguments(row)[k] == Argument(row[k])
    ensures RowArguments(row)[k] == None <==> Blank(row[k])
  {
    if k < |row| - 1 {
      RowArgumentAt(row[..|row| - 1], k);
    }
  }

  // ---------------------------------------------------------------------------
  // uploadData
  // ---------------------------------------------------------------------------

  datatype UploadError = EmptyFile

  /** The table record saved after the upload. */
  datatype DataTable = DataTable(tableName: string, displayName: string, rowCount: nat, columns: seq<DataColumn>)

  /** What the upload does: the two statements, the argument rows and the saved record. */
  datatype Upload = Upload(createSql: string, insertSql: string, batch: seq<seq<Option<string>>>, table: DataTable)

  /**
   * The header and data rows: the parsed header when there is one,
   * otherwise the first row, which is then removed from the data.
   */
  function HeaderAndData(header: Option<seq<string>>, rows: seq<seq<string>>): (hd: (seq<string>, seq<seq<string>>))
    requires rows != []
    ensures header.Some? && header.value != [] ==> hd == (header.value, rows)
    ensures !(header.Some? && header.value != []) ==> hd.0 == rows[0] && hd.1 == rows[1..]
  {
    if header.Some? && header.value != [] then (header.value, rows) else (rows[0], rows[1..])
  }

  /** `uploadData` for a parsed file, with `user_data_<uuid>` as the physical table. */
  function UploadSpec(header: Option<seq<string>>, rows: seq<seq<string>>, tableName: string, uuid: string)
    : Result<Upload, UploadError>
  {
    if rows == [] then Failure(EmptyFile)
    else
      var (headers, data) := HeaderAndData(header, rows);
      var physical := "user_data_" + uuid;
      var columns := Columns(headers, data, |headers|);
      Success(Upload(
        CreateTableSql(physical, Definitions(headers, data, |headers|)),
        InsertSql(physical, columns),
        Batch(data, |headers|),
        DataTable(physical, tableName, |data|, columns)))
  }

  /** The upload: read the header, infer types into arrays, build both statements and the arguments. */
  method UploadData(header: Option<seq<string>>, rows: seq<seq<string>>, tableName: string, uuid: string)
    returns (r: Result<Upload, UploadError>)
    ensures r == UploadSpec(header, rows, tableName, uuid)
  {
    if rows == [] {
      return Failure(EmptyFile);
    }
    var headers := if header.Some? then header.value else [];
    var data := rows;
    if headers == [] {
      headers := rows[0];
      data := rows[1..];
    }
    var colCount := |headers|;
    var isInt, isDouble, isDate := InferFlags(colCount, data);
    var physical := "user_data_" + uuid;
    var columns: seq<DataColumn> := [];
    var definitions: seq<string> := [];
    var i := 0;
    while i < colCount
      invariant 0 <= i <= colCount
      invariant columns == Columns(headers, data, i)
      invariant definitions == Definitions(headers, data, i)
    {
      var safeColumnName := SafeColumnName(headers[i]);
      var dataType := ColumnType(isInt[i], isDouble[i], isDate[i]);
      assert dataType == InferredType(data, i);
      definitions := definitions + [safeColumnName + " " + dataType];
      columns := columns + [DataColumn(safeColumnName, headers[i], BareType(dataType))];
      assert definitions == Definitions(headers, data, i) + [Definition(headers, data, i)];
      assert columns == Columns(headers, data, i) + [Column(headers, data, i)];
      i := i + 1;
    }
    assert HeaderAndData(header, rows) == (headers, data);
    var createSql := BuildCreateTableSql(physical, definitions);
    var batch := BatchArgs(data, |columns|);
    r := Success(Upload(createSql, InsertSql(physical, columns), batch, DataTable(physical, tableName, |data|, columns)));
  }

  /**
   * The stored row count is the number of data rows, rows of the wrong
   * width included; it exceeds the inserted rows exactly when some row has
   * the wrong width.
   */
  lemma RowCountIncludesSkipped(header: Option<seq<string>>, rows: seq<seq<string>>, tableName: string, uuid: string)
    requires rows != []
    ensures var u := UploadSpec(header, rows, tableName, uuid).value;
      var (headers, data) := HeaderAndData(header, rows);
      u.table.rowCount == |data| && |u.batch| <= u.table.rowCount &&
      (|u.batch| == u.table.rowCount <==> AllOfWidth(data, |headers|))
  {
    var (headers, data) := HeaderAndData(header, rows);
    BatchNoLonger(data, |headers|);
    BatchFull(data, |headers|);
  }

  // ---------------------------------------------------------------------------
  // executeQuery
  // ---------------------------------------------------------------------------

  datatype GuardError = NotSelect

  const Limit: string := "LIMIT"

  /** The clause appended to an unbounded query, " LIMIT 100". */
  const LimitClause: string := " " + Limit + " 100"

  /**
   * `executeQuery`'s guard: the trimmed, upper-cased text must start with
   * SELECT or WITH; ` LIMIT 100` is appended to the original text unless
   * the upper-cased text already contains LIMIT.
   */
  function GuardQuery(sql: string): (r: Result<string, GuardError>)
    ensures r.Failure? <==> !StartsWith(Upper(Trim(JavaTrim, sql)), "SELECT") && !StartsWith(Upper(Trim(JavaTrim, sql)), "WITH")
    ensures r.Success? ==> r.value == (if Contains(Upper(Trim(JavaTrim, sql)), Limit) then sql else sql + LimitClause)
  {
    var trimmed := Upper(Trim(JavaTrim, sql));
    if !StartsWith(trimmed, "SELECT") && !StartsWith(trimmed, "WITH") then Failure(NotSelect)
    else if Contains(trimmed, Limit) then Success(sql)
    else Success(sql + LimitClause)
  }

  /** Upper-casing keeps an occurrence. */
  lemma UpperContains(s: string, p: string)
    requires Contains(s, p)
    ensures Contains(Upper(s), Upper(p))
  {
    var i :| 0 <= i <= |s| - |p| && OccursAt(s, p, i);
    forall k | 0 <= k < |p|
      ensures Upper(s)[i..i + |p|][k] == Upper(p)[k]
    {
      assert s[i..i + |p|][k] == p[k];
    }
    assert Upper(s)[i..i + |p|] == Upper(p);
    assert OccursAt(Upper(s), Upper(p), i);
  }

  /** What a slice contains, upper-cased, the whole text contains upper-cased. */
  lemma SliceOccurrence(s: string, a: nat, b: nat, p: string)
    requires a <= b <= |s| && Contains(Upper(s[a..b]), p)
    ensures Contains(Upper(s), p)
  {
    var t := s[a..b];
    assert s[a..a + |t|] == t;
    assert OccursAt(s, t, a);
    UpperContains(s, t);
    ContainsTrans(Upper(s), Upper(t), p);
  }

  /** What the trimmed text contains, the whole text contains. */
  lemma TrimmedOccurrence(sql: string, p: string)
    requires Contains(Upper(Trim(JavaTrim, sql)), p)
    ensures Contains(Upper(sql), p)
  {
    var a, b :| 0 <= a <= b <= |sql| && Trim(JavaTrim, sql) == sql[a..b];
    SliceOccurrence(sql, a, b, p);
  }

  /** The appended clause mentions LIMIT in upper case. */
  lemma ClauseHasLimit(sql: string)
    ensures Contains(Upper(sql + LimitClause), Limit)
  {
    assert Upper(Limit) == Limit by {
      forall k | 0 <= k < |Limit|
        ensures UpperChar(Limit[k]) == Limit[k]
      {
      }
    }
    ContainsPiece(sql + " ", Limit, " 100");
    assert sql + LimitClause == sql + " " + Limit + " 100";
    UpperContains(sql + LimitClause, Limit);
  }

  /** Every statement that passes the guard mentions LIMIT, in any case. */
  lemma GuardedQueryHasLimit(sql: string)
    requires GuardQuery(sql).Success?
    ensures Contains(Upper(GuardQuery(sql).value), Limit)
  {
    if Contains(Upper(Trim(JavaTrim, sql)), Limit) {
      TrimmedOccurrence(sql, Limit);
    } else {
      ClauseHasLimit(sql);
    }
  }
}
