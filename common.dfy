/**
 * Shared vocabulary of the model: optional values (Java `null`), results of
 * operations that can throw, the tag of a cell value returned by JDBC or
 * produced by a JSON parser, and a result row as an ordered list of
 * (column, value) pairs.
 */
module Common {

  /** A Java reference that may be `null`. */
  datatype Option<+T> = None | Some(value: T)

  /** The outcome of a Java call that either returns a value or throws. */
  datatype Result<+T, +E> = Success(value: T) | Failure(error: E)

  /**
   * The runtime class of a value as far as the core cares: `null`, an
   * instance of `java.lang.Number`, a `java.lang.String`, or anything else
   * (booleans, dates, nested JSON). Numbers are kept as integers: only the
   * tag and the decimal text of an integral value matter to the core.
   */
  datatype Value = Null | Num(n: int) | Str(s: string) | Other(repr: string)

  /** A result row: the entries of a `Map<String, Object>` in iteration order. */
  type Row = seq<(string, Value)>

  /** The keys of a row, in order. */
  function Keys(row: Row): (ks: seq<string>)
    ensures |ks| == |row|
    ensures forall i :: 0 <= i < |row| ==> ks[i] == row[i].0
  {
    seq(|row|, i requires 0 <= i < |row| => row[i].0)
  }

  /** `Map.get`: the value of the first entry with key `k`, or `null` when absent. */
  function Lookup(row: Row, k: string): (v: Value)
    ensures (forall i :: 0 <= i < |row| ==> row[i].0 != k) ==> v == Null
    ensures (exists i :: 0 <= i < |row| && row[i].0 == k) ==>
              exists i :: 0 <= i < |row| && row[i].0 == k && v == row[i].1
  {
    if row == [] then Null
    else if row[0].0 == k then row[0].1
    else Lookup(row[1..], k)
  }

  /** The first `n` elements of `s` (Java `stream().limit(n)`). */
  function Take<T>(s: seq<T>, n: nat): (r: seq<T>)
    ensures |r| == if |s| < n then |s| else n
    ensures r <= s
  {
    if |s| <= n then s else s[..n]
  }
}
