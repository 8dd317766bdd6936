// Model of the schema and data ingestion helpers of DataManagementService:
// the mapping from declared column types to SQL types, the guessed column
// role, the INSERT statement and its argument rows, field lookup in a
// parsed row, the domain filter on the table catalogue, the CSV records,
// the table name of an uploaded file and the per-column ALTER dispatch.
// The JDBC template and the file readers are parameters.

module DataManagement {
  import opened Common
  import opened Text

  // ---------------------------------------------------------------------------
  // Column types and roles
  // ---------------------------------------------------------------------------

  /**
   * `mapDataType`: the SQL type of a declared column type, read upper-cased;
   * a text type takes the given length or 255, unknown types become
   * `VARCHAR(255)`.
   */
  function MapDataType(dataType: string, length: Option<int>): (r: string)
    ensures Upper(dataType) == "VARCHAR" || Upper(dataType) == "STRING" ==>
      r == "VARCHAR(" + IntToString(if length.Some? then length.value else 255) + ")"
    ensures Upper(dataType) == "INT" || Upper(dataType) == "INTEGER" ==> r == "INT"
    ensures Upper(dataType) == "DOUBLE" || Upper(dataType) == "FLOAT" || Upper(dataType) == "DECIMAL" ==> r == "DOUBLE"
    ensures Upper(dataType) == "DATE" ==> r == "DATE"
    ensures Upper(dataType) == "DATETIME" ==> r == "TIMESTAMP"
    ensures !(Upper(dataType) in KnownTypes) ==> r == "VARCHAR(255)"
  {
    var t := Upper(dataType);
    if t == "VARCHAR" || t == "STRING" then "VARCHAR(" + IntToString(if length.Some? then length.value else 255) + ")"
    else if t == "INT" || t == "INTEGER" then "INT"
    else if t == "DOUBLE" || t == "FLOAT" || t == "DECIMAL" then "DOUBLE"
    else if t == "DATE" then "DATE"
    else if t == "DATETIME" then "TIMESTAMP"
    else "VARCHAR(255)"
  }

  /** The upper-cased type names `mapDataType` recognises. */
  const KnownTypes: set<string> := {"VARCHAR", "STRING", "INT", "INTEGER", "DOUBLE", "FLOAT", "DECIMAL", "DATE", "DATETIME"}

  /** Every declared type maps to one of five SQL types; only text types carry a length. */
  lemma MappedTypeIsSql(dataType: string, length: Option<int>)
    ensures var r := MapDataType(dataType, length);
      r == "INT" || r == "DOUBLE" || r == "DATE" || r == "TIMESTAMP" ||
      (StartsWith(r, "VARCHAR(") && EndsWith(r, ")"))
  {
    var r := MapDataType(dataType, length);
    if !(r == "INT" || r == "DOUBLE" || r == "DATE" || r == "TIMESTAMP") {
      var n := IntToString(if length.Some? then length.value else 255);
      if Upper(dataType) == "VARCHAR" || Upper(dataType) == "STRING" {
        assert r == "VARCHAR(" + n + ")";
      } else {
        assert r == "VARCHAR(" + "255" + ")";
      }
      StartsWithAppend("VARCHAR(" + IntToString(if length.Some? then length.value else 255), "VARCHAR(", ")");
    }
  }

  /** The role of a column in the semantic layer. */
  datatype ColumnRole = Metric | Time | Dimension

  /**
   * `guessRole`: METRIC for INT and DOUBLE, TIME for DATE and DATETIME,
   * ignoring case; everything else, a missing type included, is a
   * DIMENSION.
   */
  function GuessRole(dataType: Option<string>): (r: ColumnRole)
    ensures r == Metric <==> dataType.Some? && (Upper(dataType.value) == "INT" || Upper(dataType.value) == "DOUBLE")
    ensures r == Time <==> dataType.Some? && (Upper(dataType.value) == "DATE" || Upper(dataType.value) == "DATETIME")
  {
    if dataType.None? then Dimension
    else if EqualsIgnoreCase("INT", dataType.value) || EqualsIgnoreCase("DOUBLE", dataType.value) then Metric
    else if EqualsIgnoreCase("DATE", dataType.value) || EqualsIgnoreCase("DATETIME", dataType.value) then Time
    else Dimension
  }

  /**
   * The role does not follow the SQL type: INTEGER, FLOAT and DECIMAL
   * columns are stored as numbers but guessed as dimensions.
   */
  lemma NumericAliasesAreDimensions(dataType: string, length: Option<int>)
    requires Upper(dataType) == "INTEGER" || Upper(dataType) == "FLOAT" || Upper(dataType) == "DECIMAL"
    ensures MapDataType(dataType, length) == "INT" || MapDataType(dataType, length) == "DOUBLE"
    ensures GuessRole(Some(dataType)) == Dimension
  {
  }

  // ---------------------------------------------------------------------------
  // buildInsertSql
  // ---------------------------------------------------------------------------

  /** `n` placeholders separated by commas: "?,?,...,?". */
  function Placeholders(n: nat): (p: string)
    ensures |p| == if n == 0 then 0 else 2 * n - 1
    ensures forall i :: 0 <= i < |p| ==> p[i] == (if i % 2 == 0 then '?' else ',')
  {
    if n == 0 then "" else if n == 1 then "?" else Placeholders(n - 1) + ",?"
  }

  /** The number of occurrences of `c` in `s`. */
  function Occurrences(s: string, c: char): nat {
    if s == [] then 0 else Occurrences(s[..|s| - 1], c) + (if s[|s| - 1] == c then 1 else 0)
  }

  /** There are exactly `n` placeholders. */
  lemma {:induction false} PlaceholderCount(n: nat)
    ensures Occurrences(Placeholders(n), '?') == n
  {
    if n > 1 {
      PlaceholderCount(n - 1);
      var p := Placeholders(n);
      var q := Placeholders(n - 1);
      assert p[..|p| - 1] == q + ",";
      assert (q + ",")[..|q|] == q;
    } else if n == 1 {
      assert Placeholders(1)[..0] == "";
    }
  }

  /**
   * The statement `buildInsertSql` writes. With no header the two
   * `setLength` calls cut the opening parentheses instead of a comma.
   */
  function InsertSql(table: string, headers: seq<string>): string {
    if headers == [] then "INSERT INTO " + table + " ) VALUES )"
    else "INSERT INTO " + table + " (" + Join(headers, ",") + ") VALUES (" + Placeholders(|headers|) + ")"
  }

  /** `k` copies of "?," are the placeholders plus one comma. */
  function Repeated(s: string, k: nat): string {
    if k == 0 then "" else Repeated(s, k - 1) + s
  }

  lemma {:induction false} RepeatedIsPlaceholders(k: nat)
    requires k > 0
    ensures Repeated("?,", k) == Placeholders(k) + ","
  {
    if k > 1 {
      RepeatedIsPlaceholders(k - 1);
      assert Placeholders(k - 1) + "," + "?," == Placeholders(k - 1) + ",?" + ",";
    }
  }

  /** `buildInsertSql`: the header loop, a cut comma, the placeholder loop, a cut comma. */
  method BuildInsertSql(table: string, headers: seq<string>) returns (sql: string)
    ensures sql == InsertSql(table, headers)
  {
    var head := "INSERT INTO " + table + " (";
    var sb := head;
    var i := 0;
    while i < |headers|
      invariant 0 <= i <= |headers|
      invariant sb == head + Terminated(headers[..i], ",")
    {
      assert headers[..i + 1][..i] == headers[..i];
      sb := sb + headers[i] + ",";
      i := i + 1;
    }
    assert headers[..i] == headers;
    sb := sb[..|sb| - 1];
    var middle := sb + ") VALUES (";
    sb := middle;
    var k := 0;
    while k < |headers|
      invariant 0 <= k <= |headers|
      invariant sb == middle + Repeated("?,", k)
    {
      sb := sb + "?,";
      k := k + 1;
    }
    sb := sb[..|sb| - 1];
    sql := sb + ")";
    if headers == [] {
      assert middle == "INSERT INTO " + table + " " + ") VALUES (";
    } else {
      TerminatedIsJoin(headers, ",");
      RepeatedIsPlaceholders(|headers|);
      assert middle == "INSERT INTO " + table + " (" + Join(headers, ",") + ") VALUES (";
    }
  }

  /**
   * The INSERT statement names the headers in order, the column list
   * splitting back into them, and has exactly one placeholder per header.
   */
  lemma InsertMatchesHeaders(table: string, headers: seq<string>)
    requires headers != [] && forall k :: 0 <= k < |headers| ==> ',' !in headers[k]
    ensures var columns := Join(headers, ",");
      InsertSql(table, headers) == "INSERT INTO " + table + " (" + columns + ") VALUES (" + Placeholders(|headers|) + ")" &&
      Split(columns, ',') == headers &&
      Occurrences(Placeholders(|headers|), '?') == |headers|
  {
    SplitJoin(headers, ',');
    PlaceholderCount(|headers|);
  }

  // ---------------------------------------------------------------------------
  // getString / getInteger
  // ---------------------------------------------------------------------------

  /** `toString` on a present entry whose value is `null` throws. */
  datatype FieldError = NullField(key: string)

  /** `value.toString()` for a non-null value (numbers are integral here). */
  function ValueText(v: Value): string
    requires !v.Null?
  {
    match v
    case Num(n) => IntToString(n)
    case Str(s) => s
    case Other(r) => r
  }

  /** The text of the entry `key`, which the row contains. */
  function FieldText(row: Row, key: string): Result<Option<string>, FieldError> {
    var v := Lookup(row, key);
    if v.Null? then Failure(NullField(key)) else Success(Some(ValueText(v)))
  }

  /** `getString`: the text of the first key, in argument order, that the row contains, else null. */
  function GetString(row: Row, keys: seq<string>): (r: Result<Option<string>, FieldError>)
    ensures r == Success(None) <==> forall k :: 0 <= k < |keys| ==> keys[k] !in Keys(row)
    decreases |keys|
  {
    if keys == [] then Success(None)
    else if keys[0] in Keys(row) then FieldText(row, keys[0])
    else GetString(row, keys[1..])
  }

  /** The first key present decides: later keys are never consulted. */
  lemma {:induction false} GetStringFirstPresent(row: Row, keys: seq<string>, i: nat)
    requires i < |keys| && keys[i] in Keys(row)
    requires forall j :: 0 <= j < i ==> keys[j] !in Keys(row)
    ensures GetString(row, keys) == FieldText(row, keys[i])
    decreases i
  {
    if i > 0 {
      GetStringFirstPresent(row, keys[1..], i - 1);
    }
  }

  const IntMin: int := -0x8000_0000
  const IntMax: int := 0x7FFF_FFFF

  /** A sign-free split of a numeral: whether it is negative, and its digits. */
  function Unsigned(s: string): (bool, string) {
    if |s| > 0 && (s[0] == '-' || s[0] == '+') then (s[0] == '-', s[1..]) else (false, s)
  }

  /** `Integer.parseInt` over ASCII digits: an optional sign and decimal digits within 32 bits, else it throws. */
  function ParseInt(s: string): (r: Option<int>)
    ensures r.Some? ==> IntMin <= r.value <= IntMax
  {
    var (negative, digits) := Unsigned(s);
    if digits == [] || !AllDigits(digits) then None
    else
      var d: int := DigitsValue(digits);
      var v := if negative then -d else d;
      if IntMin <= v <= IntMax then Some(v) else None
  }

  /** `Integer.parseInt(Integer.toString(n)) == n`. */
  lemma ParseIntRoundTrip(n: int)
    requires IntMin <= n <= IntMax
    ensures ParseInt(IntToString(n)) == Some(n)
  {
    if n < 0 {
      var d := NatToString(-n);
      NatToStringRoundTrip(-n);
      assert ("-" + d)[1..] == d;
      assert Unsigned(IntToString(n)) == (true, d);
    } else {
      var d := NatToString(n);
      NatToStringRoundTrip(n);
      assert d[0] != '-' && d[0] != '+' by { assert IsDigit(d[0]); }
      assert Unsigned(IntToString(n)) == (false, d);
    }
  }

  /** The `(int)` cast of a double: values beyond 32 bits saturate. */
  function Saturate(v: int): (r: int)
    ensures IntMin <= r <= IntMax
    ensures IntMin <= v <= IntMax ==> r == v
  {
    if v < IntMin then IntMin else if v > IntMax then IntMax else v
  }

  /**
   * `(int) Double.parseDouble(s)` for plain decimals: the trimmed text is an
   * optional sign, digits, one point and digits, with at least one digit;
   * the fraction is dropped (towards zero). Other text throws.
   */
  function ParseTruncated(s: string): Option<int> {
    var t := Trim(JavaTrim, s);
    var (negative, body) := Unsigned(t);
    var dot := IndexOf(body, ".");
    if dot < 0 then None
    else
      var whole := body[..dot];
      var fraction := body[dot + 1..];
      if !AllDigits(whole) || !AllDigits(fraction) || |whole| + |fraction| == 0 then None
      else
        var w: int := DigitsValue(whole);
        Some(Saturate(if negative then -w else w))
  }

  /** `whole.fraction` truncates to `whole`. */
  lemma DecimalTruncates(whole: string, fraction: string)
    requires whole != [] && AllDigits(whole) && AllDigits(fraction)
    ensures ParseTruncated(whole + "." + fraction) == Some(Saturate(DigitsValue(whole)))
  {
    var s := whole + "." + fraction;
    assert IsDigit(s[0]) && s[|s| - 1] == (if fraction == [] then '.' else fraction[|fraction| - 1]);
    DotAfterDigits(whole, fraction);
    assert s[..|whole|] == whole && s[|whole| + 1..] == fraction;
    UnsignedDecimal(s, |whole|);
  }

  /** `parse` on text with nothing to trim, no sign and digits around its first point. */
  lemma UnsignedDecimal(s: string, dot: nat)
    requires dot > 0 && IndexOf(s, ".") == dot && IsDigit(s[0]) && !IsTrimmed(JavaTrim, s[|s| - 1])
    requires AllDigits(s[..dot]) && AllDigits(s[dot + 1..])
    ensures ParseTruncated(s) == Some(Saturate(DigitsValue(s[..dot])))
  {
    assert TrimStart(JavaTrim, s) == s;
    assert TrimEnd(JavaTrim, s) == s;
    assert Unsigned(s) == (false, s);
  }

  /** The first point of a decimal comes right after its digits. */
  lemma DotAfterDigits(whole: string, fraction: string)
    requires AllDigits(whole)
    ensures IndexOf(whole + "." + fraction, ".") == |whole|
  {
    var s := whole + "." + fraction;
    assert OccursAt(s, ".", |whole|);
    forall j | 0 <= j < |whole|
      ensures !OccursAt(s, ".", j)
    {
      assert s[j..j + 1][0] == whole[j];
    }
  }


  /** `getInteger`: `getString`, then a truncating parse when the text has a point; unparsable text gives null. */
  function GetInteger(row: Row, keys: seq<string>): (r: Result<Option<int>, FieldError>)
    ensures GetString(row, keys).Failure? <==> r.Failure?
    ensures GetString(row, keys) == Success(None) ==> r == Success(None)
    ensures r.Success? && r.value.Some? ==> IntMin <= r.value.value <= IntMax
  {
    match GetString(row, keys)
    case Failure(e) => Failure(e)
    case Success(None) => Success(None)
    case Success(Some(text)) => Success(if '.' in text then ParseTruncated(text) else ParseInt(text))
  }

  /** Text `Integer.parseInt` reads: digits, or a sign followed by digits. */
  predicate SignedDigits(t: string) {
    t != [] && (AllDigits(t) || ((t[0] == '-' || t[0] == '+') && |t| > 1 && AllDigits(t[1..])))
  }

  /** A sign and digits read as their value when it fits in 32 bits, and throw when it does not. */
  lemma ParseIntSigned(sign: string, digits: string)
    requires sign == "" || sign == "-" || sign == "+"
    requires digits != [] && AllDigits(digits)
    ensures var d: int := DigitsValue(digits); var v := if sign == "-" then -d else d;
      ParseInt(sign + digits) == if IntMin <= v <= IntMax then Some(v) else None
  {
    if sign == "" {
      assert sign + digits == digits;
      assert IsDigit(digits[0]);
      assert Unsigned(digits) == (false, digits);
    } else {
      assert (sign + digits)[1..] == digits;
      assert Unsigned(sign + digits) == (sign == "-", digits);
    }
  }

  /** Text that is not a sign and digits throws in `Integer.parseInt`. */
  lemma ParseIntRejects(t: string)
    requires !SignedDigits(t)
    ensures ParseInt(t).None?
  {
    var (negative, digits) := Unsigned(t);
    assert digits == [] || !AllDigits(digits);
  }

  /** A decimal `whole.fraction` in the row reads as its whole part, saturated to 32 bits. */
  lemma GetIntegerTruncates(row: Row, keys: seq<string>, whole: string, fraction: string)
    requires GetString(row, keys) == Success(Some(whole + "." + fraction))
    requires whole != [] && AllDigits(whole) && AllDigits(fraction)
    ensures GetInteger(row, keys) == Success(Some(Saturate(DigitsValue(whole))))
  {
    var t := whole + "." + fraction;
    assert t[|whole|] == '.';
    assert GetInteger(row, keys) == Success(ParseTruncated(t));
    DecimalTruncates(whole, fraction);
  }

  /** The decimal text of a 32-bit integer in the row reads back as that integer. */
  lemma GetIntegerReadsInt(row: Row, keys: seq<string>, n: int)
    requires GetString(row, keys) == Success(Some(IntToString(n)))
    requires IntMin <= n <= IntMax
    ensures GetInteger(row, keys) == Success(Some(n))
  {
    var t := IntToString(n);
    var d := NatToString(if n < 0 then -n else n);
    assert t == d || t == "-" + d;
    assert '.' !in t by {
      forall k | 0 <= k < |t|
        ensures t[k] != '.'
      {
        if t != d {
          assert k == 0 || t[k] == d[k - 1];
        }
      }
    }
    ParseIntRoundTrip(n);
  }

  /** Text without a point that is not a sign and digits gives null. */
  lemma GetIntegerRejects(row: Row, keys: seq<string>, t: string)
    requires GetString(row, keys) == Success(Some(t))
    requires '.' !in t && !SignedDigits(t)
    ensures GetInteger(row, keys) == Success(None)
  {
    ParseIntRejects(t);
  }

  // ---------------------------------------------------------------------------
  // getUserTablesByDomain
  // ---------------------------------------------------------------------------

  /** A registered table: its name and business domain. */
  datatype DataTable = DataTable(tableName: string, displayName: Option<string>, domain: Option<string>, rowCount: int)

  /** No domain, an empty one or `dashboard` (any case) asks for every table. */
  predicate AllDomains(domain: Option<string>) {
    domain.None? || domain.value == "" || EqualsIgnoreCase("dashboard", domain.value)
  }

  predicate InDomain(domain: string, t: DataTable) {
    t.domain.Some? && EqualsIgnoreCase(domain, t.domain.value)
  }

  /** `getUserTablesByDomain` over the catalogue `tables` (the user id is not used). */
  function TablesByDomain(tables: seq<DataTable>, domain: Option<string>): (r: seq<DataTable>)
    ensures AllDomains(domain) ==> r == tables
    ensures !AllDomains(domain) ==> forall t :: t in r <==> t in tables && InDomain(domain.value, t)
    ensures !AllDomains(domain) ==>
      forall t :: multiset(r)[t] == if InDomain(domain.value, t) then multiset(tables)[t] else 0
  {
    if AllDomains(domain) then tables
    else
      FilterSeqCounts(t => InDomain(domain.value, t), tables);
      FilterSeq(t => InDomain(domain.value, t), tables)
  }

  /**
   * The tables of a domain keep the catalogue's order: the answer for two
   * catalogues one after the other is the two answers one after the other.
   */
  lemma TablesByDomainKeepsOrder(front: seq<DataTable>, back: seq<DataTable>, domain: Option<string>)
    ensures TablesByDomain(front + back, domain) == TablesByDomain(front, domain) + TablesByDomain(back, domain)
  {
    if !AllDomains(domain) {
      FilterSeqAppend(t => InDomain(domain.value, t), front, back);
    }
  }

  /** Asking again for the same domain returns the same tables, in the same order. */
  lemma TablesByDomainIdempotent(tables: seq<DataTable>, domain: Option<string>)
    ensures TablesByDomain(TablesByDomain(tables, domain), domain) == TablesByDomain(tables, domain)
  {
    if !AllDomains(domain) {
      FilterSeqIdempotent(t => InDomain(domain.value, t), tables);
    }
  }

  // ---------------------------------------------------------------------------
  // parseDataFile, CSV branch
  // ---------------------------------------------------------------------------

  /** `HashMap.put`: replace the entry with key `k`, or add one at the end. */
  function Put(row: Row, k: string, v: Value): (r: Row)
    ensures |r| == if k in Keys(row) then |row| else |row| + 1
    decreases |row|
  {
    if row == [] then [(k, v)]
    else if row[0].0 == k then [(k, v)] + row[1..]
    else
      assert Keys(row) == [row[0].0] + Keys(row[1..]);
      [row[0]] + Put(row[1..], k, v)
  }

  /** After `put`, the key maps to the new value and every other key keeps its value. */
  lemma {:induction false} PutLookup(row: Row, k: string, v: Value, j: string)
    ensures Lookup(Put(row, k, v), j) == if j == k then v else Lookup(row, j)
    decreases |row|
  {
    if row != [] {
      var r := Put(row, k, v);
      if row[0].0 == k {
        assert r[1..] == row[1..];
      } else {
        PutLookup(row[1..], k, v, j);
        assert r[1..] == Put(row[1..], k, v);
      }
    }
  }

  /** The keys of a row with one more entry in front. */
  lemma KeysCons(x: (string, Value), rest: Row)
    ensures Keys([x] + rest) == [x.0] + Keys(rest)
  {
  }

  /** `put` of a new key appends it to the keys; of a present key keeps them. */
  lemma {:induction false} PutKeys(row: Row, k: string, v: Value)
    ensures Keys(Put(row, k, v)) == if k in Keys(row) then Keys(row) else Keys(row) + [k]
    decreases |row|
  {
    if row != [] {
      KeysCons(row[0], row[1..]);
      assert [row[0]] + row[1..] == row;
      if row[0].0 != k {
        PutKeys(row[1..], k, v);
        KeysCons(row[0], Put(row[1..], k, v));
      } else {
        KeysCons((k, v), row[1..]);
      }
    }
  }

  /** The map of one CSV row: header `j` to cell `j`, for `j` below both lengths. */
  function Record(headers: seq<string>, cells: seq<string>, n: nat): (r: Row)
    requires n <= |headers| && n <= |cells|
  {
    if n == 0 then [] else Put(Record(headers, cells, n - 1), headers[n - 1], Str(cells[n - 1]))
  }

  function Width(headers: seq<string>, cells: seq<string>): nat {
    if |headers| < |cells| then |headers| else |cells|
  }

  /** `put` of a key not yet present appends it to the keys. */
  lemma PutFreshKey(row: Row, k: string, v: Value, ks: seq<string>)
    requires Keys(row) == ks && k !in ks
    ensures Keys(Put(row, k, v)) == ks + [k]
  {
    PutKeys(row, k, v);
  }

  /** In a list without repeats an element does not occur before its own place. */
  lemma LastIsFresh<T>(s: seq<T>, n: nat)
    requires 0 < n <= |s|
    requires forall a, b :: 0 <= a < b < |s| ==> s[a] != s[b]
    ensures s[n - 1] !in s[..n - 1]
  {
    forall i | 0 <= i < n - 1
      ensures s[i] != s[n - 1]
    {
    }
  }

  /** With distinct headers a record has one entry per paired header, in header order. */
  lemma {:induction false} RecordKeys(headers: seq<string>, cells: seq<string>, n: nat)
    requires n <= |headers| && n <= |cells|
    requires forall a, b :: 0 <= a < b < |headers| ==> headers[a] != headers[b]
    ensures Keys(Record(headers, cells, n)) == headers[..n]
  {
    if n > 0 {
      var prev, h := Record(headers, cells, n - 1), headers[n - 1];
      assert Keys(prev) == headers[..n - 1] by { RecordKeys(headers, cells, n - 1); }
      assert h !in headers[..n - 1] by { LastIsFresh(headers, n); }
      PutFreshKey(prev, h, Str(cells[n - 1]), headers[..n - 1]);
      TakeSnoc(headers, n);
    }
  }

  /** With distinct headers each paired header holds its own cell. */
  lemma {:induction false} RecordLookup(headers: seq<string>, cells: seq<string>, n: nat, j: nat)
    requires j < n <= |headers| && n <= |cells|
    requires forall a, b :: 0 <= a < b < |headers| ==> headers[a] != headers[b]
    ensures Lookup(Record(headers, cells, n), headers[j]) == Str(cells[j])
  {
    var prev, h := Record(headers, cells, n - 1), headers[n - 1];
    assert Record(headers, cells, n) == Put(prev, h, Str(cells[n - 1]));
    PutLookup(prev, h, Str(cells[n - 1]), headers[j]);
    if j < n - 1 {
      assert headers[j] != h;
      assert Lookup(prev, headers[j]) == Str(cells[j]) by { RecordLookup(headers, cells, n - 1, j); }
    }
  }

  /** Build one record as the inner loop does. */
  method BuildRecord(headers: seq<string>, cells: seq<string>) returns (map0: Row)
    ensures map0 == Record(headers, cells, Width(headers, cells))
  {
    map0 := [];
    var j := 0;
    // `j < headers.size() && j < row.size()`, as one bound
    var width := if |headers| < |cells| then |headers| else |cells|;
    while j < width
      invariant j <= width
      invariant map0 == Record(headers, cells, j)
    {
      map0 := Put(map0, headers[j], Str(cells[j]));
      j := j + 1;
    }
  }

  /** The header of the data: the reader's header, else the first row, else none. */
  function HeaderOf(header: Option<seq<string>>, rows: seq<seq<string>>): Option<seq<string>> {
    if header.Some? then header else if rows != [] then Some(rows[0]) else None
  }

  /** The first row is skipped iff it equals the header. */
  function FirstDataRow(headers: seq<string>, rows: seq<seq<string>>): nat {
    if rows != [] && rows[0] == headers then 1 else 0
  }

  /** The records of a CSV file: one per data row, in order. */
  function CsvRecords(header: Option<seq<string>>, rows: seq<seq<string>>): (r: seq<Row>)
    ensures HeaderOf(header, rows).None? ==> r == []
    ensures HeaderOf(header, rows).Some? ==>
      var hs := HeaderOf(header, rows).value;
      var start := FirstDataRow(hs, rows);
      |r| == |rows| - start &&
      forall i :: 0 <= i < |r| ==> r[i] == Record(hs, rows[start + i], Width(hs, rows[start + i]))
  {
    match HeaderOf(header, rows)
    case None => []
    case Some(hs) =>
      var start := FirstDataRow(hs, rows);
      seq(|rows| - start, i requires 0 <= i < |rows| - start => Record(hs, rows[start + i], Width(hs, rows[start + i])))
  }

  /** Without a reader header the first row becomes the header and is never returned as data. */
  lemma FirstRowIsHeader(rows: seq<seq<string>>)
    requires rows != []
    ensures |CsvRecords(None, rows)| == |rows| - 1
  {
  }

  /** The CSV branch of `parseDataFile`. */
  method ParseCsv(header: Option<seq<string>>, rows: seq<seq<string>>) returns (result: seq<Row>)
    ensures result == CsvRecords(header, rows)
  {
    var headers := header;
    if headers.None? && rows != [] {
      headers := Some(rows[0]);
    }
    result := [];
    if headers.Some? {
      var hs := headers.value;
      var start := 0;
      if rows != [] && rows[0] == hs {
        start := 1;
      }
      var i := start;
      while i < |rows|
        invariant start <= i <= |rows|
        invariant |result| == i - start
        invariant forall k :: 0 <= k < |result| ==> result[k] == Record(hs, rows[start + k], Width(hs, rows[start + k]))
      {
        var record := BuildRecord(hs, rows[i]);
        result := result + [record];
        i := i + 1;
      }
    }
  }

  // ---------------------------------------------------------------------------
  // importData
  // ---------------------------------------------------------------------------

  /** The index of the last `c` in `s`, or -1. */
  function LastIndexOf(s: string, c: char): (r: int)
    ensures -1 <= r < |s|
    ensures r >= 0 ==> s[r] == c
    ensures forall i :: r < i < |s| ==> s[i] != c
  {
    if s == [] then -1
    else if s[|s| - 1] == c then |s| - 1
    else LastIndexOf(s[..|s| - 1], c)
  }

  datatype ImportError = NoExtension(fileName: string) | TableMissing(table: string) | BadField(FieldError)

  /** The target table: the file name up to its last point; without a point `substring` throws. */
  function TableNameOf(fileName: string): (r: Result<string, ImportError>)
    ensures r.Success? <==> '.' in fileName
    ensures r.Success? ==> r.value <= fileName
  {
    var dot := LastIndexOf(fileName, '.');
    if dot < 0 then Failure(NoExtension(fileName)) else Success(fileName[..dot])
  }

  /** The name of `base.ext` is `base` when the extension has no point. */
  lemma TableNameOfBase(base: string, ext: string)
    requires '.' !in ext
    ensures TableNameOf(base + "." + ext) == Success(base)
  {
    var s := base + "." + ext;
    assert s[|base|] == '.';
    assert forall i :: |base| < i < |s| ==> s[i] == ext[i - |base| - 1];
    assert LastIndexOf(s, '.') == |base|;
    assert s[..|base|] == base;
  }

  /** A cell as inserted: a string that trims to nothing becomes null. */
  function Cell(v: Value): (c: Value)
    ensures c == Null <==> v == Null || (v.Str? && Trim(JavaTrim, v.s) == "")
    ensures c != Null ==> c == v
  {
    if v.Str? && Trim(JavaTrim, v.s) == "" then Null else v
  }

  /** The arguments of one row: its cells in header order (absent keys are null). */
  function RowArgs(row: Row, headers: seq<string>): (args: seq<Value>)
    ensures |args| == |headers|
    ensures forall j :: 0 <= j < |headers| ==> args[j] == Cell(Lookup(row, headers[j]))
  {
    seq(|headers|, j requires 0 <= j < |headers| => Cell(Lookup(row, headers[j])))
  }

  /** The arguments of one row, built by the inner loop of `importData`. */
  method RowArgsOf(row: Row, headers: seq<string>) returns (args: seq<Value>)
    ensures args == RowArgs(row, headers)
  {
    args := [];
    var j := 0;
    while j < |headers|
      invariant 0 <= j <= |headers|
      invariant |args| == j
      invariant forall m :: 0 <= m < j ==> args[m] == Cell(Lookup(row, headers[m]))
    {
      var v := Lookup(row, headers[j]);
      if v.Str? && Trim(JavaTrim, v.s) == "" {
        v := Null;
      }
      assert v == Cell(Lookup(row, headers[j]));
      args := args + [v];
      j := j + 1;
    }
  }

  /** The argument rows of the batch insert, built by the nested loop of `importData`. */
  method BatchArgs(rows: seq<Row>, headers: seq<string>) returns (batch: seq<seq<Value>>)
    ensures |batch| == |rows|
    ensures forall i :: 0 <= i < |rows| ==> batch[i] == RowArgs(rows[i], headers)
  {
    batch := [];
    var i := 0;
    while i < |rows|
      invariant 0 <= i <= |rows|
      invariant |batch| == i
      invariant forall k :: 0 <= k < i ==> batch[k] == RowArgs(rows[k], headers)
    {
      var args := RowArgsOf(rows[i], headers);
      batch := batch + [args];
      i := i + 1;
    }
  }


  /** What `importData` does to the database. */
  datatype Import =
    | EmptyFile                                                               // "文件为空"
    | Insert(table: string, truncate: bool, sql: string, batch: seq<seq<Value>>, rows: nat)

  /**
   * `importData` for a parsed file: the table must exist; an empty file
   * inserts nothing; otherwise "overwrite" (any case) truncates first and
   * every row is inserted with the first row's keys as the header.
   */
  function PlanImport(fileName: string, known: set<string>, rows: seq<Row>, mode: Option<string>)
    : (r: Result<Import, ImportError>)
    ensures TableNameOf(fileName).Failure? ==> r.Failure?
    ensures r.Success? ==> TableNameOf(fileName).Success? && TableNameOf(fileName).value in known
    ensures r.Success? && rows == [] ==> r.value == EmptyFile
    ensures r.Success? && rows != [] ==>
      var hs := Keys(rows[0]);
      r.value.Insert? && r.value.table == TableNameOf(fileName).value &&
      r.value.truncate == (mode.Some? && EqualsIgnoreCase("overwrite", mode.value)) &&
      r.value.sql == InsertSql(r.value.table, hs) && r.value.rows == |rows| &&
      |r.value.batch| == |rows| && forall i :: 0 <= i < |rows| ==> r.value.batch[i] == RowArgs(rows[i], hs)
  {
    match TableNameOf(fileName)
    case Failure(e) => Failure(e)
    case Success(table) =>
      if table !in known then Failure(TableMissing(table))
      else if rows == [] then Success(EmptyFile)
      else
        var hs := Keys(rows[0]);
        Success(Insert(table, mode.Some? && EqualsIgnoreCase("overwrite", mode.value), InsertSql(table, hs),
                       seq(|rows|, i requires 0 <= i < |rows| => RowArgs(rows[i], hs)), |rows|))
  }

  /** Every inserted row has one argument per header, and no blank string reaches the database. */
  lemma ImportArgsFollowHeaders(fileName: string, known: set<string>, rows: seq<Row>, mode: Option<string>)
    requires PlanImport(fileName, known, rows, mode).Success? && rows != []
    ensures var plan := PlanImport(fileName, known, rows, mode).value;
      forall i, j :: 0 <= i < |plan.batch| && 0 <= j < |plan.batch[i]| ==>
        |plan.batch[i]| == |rows[0]| &&
        plan.batch[i][j] == Cell(Lookup(rows[i], rows[0][j].0)) &&
        !(plan.batch[i][j].Str? && Trim(JavaTrim, plan.batch[i][j].s) == "")
  {
  }

  // ---------------------------------------------------------------------------
  // alterTable
  // ---------------------------------------------------------------------------

  /** One row of a schema file. */
  datatype SchemaDefinition = SchemaDefinition(
    tableNameEn: Option<string>,
    tableNameCn: Option<string>,
    columnNameEn: Option<string>,
    columnNameCn: Option<string>,
    dataType: Option<string>,
    length: Option<int>,
    isSensitive: Option<string>,
    opType: Option<string>)

  datatype AlterOp = AddColumn | ModifyColumn | DropColumn

  const AddLabel: string := "\U{65B0}\U{589E}"
  const ModifyLabel: string := "\U{4FEE}\U{6539}"
  const DropLabel: string := "\U{5220}\U{9664}"

  /** `op` spells an operation: its Chinese `name` exactly, or its English name in any case. */
  predicate Spells(op: string, name: string, english: string) {
    op == name || EqualsIgnoreCase(english, op)
  }

  /**
   * The operation of a schema row. The tests run in the order add, modify,
   * delete, so a text that spells two of them is the earlier one; a missing
   * or unknown text has no operation.
   */
  function OpOf(op: Option<string>): (r: Option<AlterOp>)
    ensures r == Some(AddColumn) <==> op.Some? && Spells(op.value, AddLabel, "add")
    ensures r == Some(ModifyColumn) <==>
      op.Some? && !Spells(op.value, AddLabel, "add") && Spells(op.value, ModifyLabel, "modify")
    ensures r == Some(DropColumn) <==>
      op.Some? && !Spells(op.value, AddLabel, "add") && !Spells(op.value, ModifyLabel, "modify") &&
      Spells(op.value, DropLabel, "delete")
    ensures r.None? <==>
      op.None? ||
      (!Spells(op.value, AddLabel, "add") && !Spells(op.value, ModifyLabel, "modify") &&
       !Spells(op.value, DropLabel, "delete"))
  {
    if op.None? then None
    else if op.value == AddLabel || EqualsIgnoreCase("add", op.value) then Some(AddColumn)
    else if op.value == ModifyLabel || EqualsIgnoreCase("modify", op.value) then Some(ModifyColumn)
    else if op.value == DropLabel || EqualsIgnoreCase("delete", op.value) then Some(DropColumn)
    else None
  }

  /** String concatenation of a possibly-null reference. */
  function Shown(s: Option<string>): string {
    if s.Some? then s.value else "null"
  }

  /** The statement of an operation; a missing data type makes `mapDataType` throw. */
  function AlterSql(table: string, op: AlterOp, def: SchemaDefinition): (r: Option<string>)
    ensures r.None? <==> op != DropColumn && def.dataType.None?
  {
    var column := Shown(def.columnNameEn);
    match op
    case AddColumn =>
      if def.dataType.None? then None
      else Some("ALTER TABLE " + table + " ADD COLUMN " + column + " " + MapDataType(def.dataType.value, def.length))
    case ModifyColumn =>
      if def.dataType.None? then None
      else Some("ALTER TABLE " + table + " ALTER COLUMN " + column + " " + MapDataType(def.dataType.value, def.length))
    case DropColumn => Some("ALTER TABLE " + table + " DROP COLUMN " + column)
  }

  /** The column metadata kept for a table. */
  datatype ColumnMeta = ColumnMeta(displayName: Option<string>, dataType: Option<string>, role: ColumnRole)

  type Columns = map<Option<string>, ColumnMeta>

  /** `jdbcTemplate.execute`: `None` on success, the exception message on failure. */
  type Exec = string -> Option<string>

  function Label(op: AlterOp): string {
    match op
    case AddColumn => AddLabel
    case ModifyColumn => ModifyLabel
    case DropColumn => DropLabel
  }

  /** The log line of a completed operation, "<op>列: <column>". */
  function Done(op: AlterOp, column: string): string {
    Label(op) + "\U{5217}: " + column
  }

  /** The log line of a failed operation, "<op>列失败 <column>: <message>". */
  function Failed(op: AlterOp, column: string, message: string): string {
    Label(op) + "\U{5217}\U{5931}\U{8D25} " + column + ": " + message
  }

  /**
   * One schema row against the column metadata: the log line it adds (none
   * for an unknown operation) and the metadata afterwards. A failure, from
   * the statement or from a missing type (message `npe`), is logged and
   * changes nothing. A lookup by a null column name finds nothing.
   */
  function AlterStep(table: string, def: SchemaDefinition, exec: Exec, npe: string, columns: Columns)
    : (Option<string>, Columns)
  {
    var column := Shown(def.columnNameEn);
    match OpOf(def.opType)
    case None => (None, columns)
    case Some(op) =>
      match AlterSql(table, op, def)
      case None => (Some(Failed(op, column, npe)), columns)
      case Some(sql) =>
        match exec(sql)
        case Some(message) => (Some(Failed(op, column, message)), columns)
        case None =>
          var key := def.columnNameEn;
          var updated :=
            match op
            case AddColumn => columns[key := ColumnMeta(def.columnNameCn, def.dataType, GuessRole(def.dataType))]
            case ModifyColumn =>
              if key.Some? && key in columns then columns[key := columns[key].(displayName := def.columnNameCn, dataType := def.dataType)]
              else columns
            case DropColumn => if key.Some? then columns - {key} else columns;
          (Some(Done(op, column)), updated)
  }

  /** `alterTable` over the rows of a schema file: the log lines in order and the final metadata. */
  function AlterAll(table: string, defs: seq<SchemaDefinition>, exec: Exec, npe: string, columns: Columns)
    : (seq<string>, Columns)
    decreases |defs|
  {
    if defs == [] then ([], columns)
    else
      var (logs, cs) := AlterAll(table, defs[..|defs| - 1], exec, npe, columns);
      var (line, cs') := AlterStep(table, defs[|defs| - 1], exec, npe, cs);
      (if line.Some? then logs + [line.value] else logs, cs')
  }

  /** The number of rows with a recognised operation. */
  function Recognised(defs: seq<SchemaDefinition>): nat {
    if defs == [] then 0
    else Recognised(defs[..|defs| - 1]) + (if OpOf(defs[|defs| - 1].opType).Some? then 1 else 0)
  }

  /**
   * Nothing aborts the loop: every row with a recognised operation logs
   * exactly one line, success or failure, and the others log nothing.
   */
  lemma {:induction false} OneLinePerOperation(table: string, defs: seq<SchemaDefinition>, exec: Exec, npe: string, columns: Columns)
    ensures |AlterAll(table, defs, exec, npe, columns).0| == Recognised(defs)
    decreases |defs|
  {
    if defs != [] {
      OneLinePerOperation(table, defs[..|defs| - 1], exec, npe, columns);
    }
  }

  /** A failed statement leaves the metadata as it was and logs the failure. */
  lemma FailureIsLogged(table: string, def: SchemaDefinition, exec: Exec, npe: string, columns: Columns, op: AlterOp)
    requires OpOf(def.opType) == Some(op)
    requires AlterSql(table, op, def).None? || exec(AlterSql(table, op, def).value).Some?
    ensures var (line, cs) := AlterStep(table, def, exec, npe, columns);
      cs == columns && line.Some? &&
      StartsWith(line.value, Label(op) + "\U{5217}\U{5931}\U{8D25} " + Shown(def.columnNameEn) + ": ")
  {
    var prefix := Label(op) + "\U{5217}\U{5931}\U{8D25} " + Shown(def.columnNameEn) + ": ";
    var message := if AlterSql(table, op, def).None? then npe else exec(AlterSql(table, op, def).value).value;
    StartsWithAppend(prefix, prefix, message);
    assert prefix + message == Failed(op, Shown(def.columnNameEn), message);
  }

  /** The metadata tracking of the operations: an added column is recorded with its guessed role; a dropped one is gone. */
  lemma SuccessUpdatesMetadata(table: string, def: SchemaDefinition, exec: Exec, npe: string, columns: Columns, op: AlterOp)
    requires OpOf(def.opType) == Some(op) && AlterSql(table, op, def).Some? && exec(AlterSql(table, op, def).value).None?
    ensures var (line, cs) := AlterStep(table, def, exec, npe, columns);
      line == Some(Done(op, Shown(def.columnNameEn))) &&
      (op == AddColumn ==> def.columnNameEn in cs && cs[def.columnNameEn].role == GuessRole(def.dataType)) &&
      (op == DropColumn && def.columnNameEn.Some? ==> def.columnNameEn !in cs) &&
      (op == ModifyColumn ==> cs.Keys == columns.Keys)
  {
  }

  /** The catalogue of column metadata of one table, updated in place. */
  class ColumnCatalog {
    var columns: Columns

    constructor(initial: Columns)
      ensures columns == initial
    {
      columns := initial;
    }

    /** `alterTable`: each schema row in turn; returns the log lines it adds. */
    method AlterTable(table: string, defs: seq<SchemaDefinition>, exec: Exec, npe: string) returns (logs: seq<string>)
      modifies this
      ensures (logs, columns) == AlterAll(table, defs, exec, npe, old(columns))
    {
      logs := [];
      var i := 0;
      while i < |defs|
        invariant 0 <= i <= |defs|
        invariant (logs, columns) == AlterAll(table, defs[..i], exec, npe, old(columns))
      {
        assert defs[..i + 1][..i] == defs[..i];
        var (line, cs) := AlterStep(table, defs[i], exec, npe, columns);
        if line.Some? {
          logs := logs + [line.value];
        }
        columns := cs;
        i := i + 1;
      }
      assert defs[..i] == defs;
    }
  }
}
