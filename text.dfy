/**
 * The string operations of the Java and TypeScript runtimes that the core
 * relies on, written out over `seq<char>`: character classes of the regular
 * expressions used, `trim`, ASCII case mapping, `startsWith`/`contains`/
 * `indexOf`, literal `replace`, `split` and `join`, and integer to decimal
 * text. Each is stated with what it promises so that the modules built on
 * top can reason about their strings.
 */
module Text {

  // ---------------------------------------------------------------------------
  // Character classes
  // ---------------------------------------------------------------------------

  /** `\d` in a Java regular expression (ASCII digits only by default). */
  predicate IsDigit(c: char) { '0' <= c <= '9' }

  predicate IsAsciiLetter(c: char) { 'a' <= c <= 'z' || 'A' <= c <= 'Z' }

  /** `[a-zA-Z0-9_]` */
  predicate IsWordChar(c: char) { IsDigit(c) || IsAsciiLetter(c) || c == '_' }

  /** `^[a-zA-Z0-9_]+$` */
  predicate IsWord(s: string) {
    |s| > 0 && forall i :: 0 <= i < |s| ==> IsWordChar(s[i])
  }

  predicate AllDigits(s: string) {
    forall i :: 0 <= i < |s| ==> IsDigit(s[i])
  }

  /** `\s` in a Java regular expression: `[ \t\n\x0B\f\r]`. */
  predicate IsRegexSpace(c: char) {
    c == ' ' || c == '\t' || c == '\n' || c == '\U{B}' || c == '\U{C}' || c == '\r'
  }

  /**
   * `Character.isWhitespace`: the regex spaces, the separators
   * U+001C..U+001F, and the Unicode space, line and paragraph separators
   * except the non-breaking ones (U+00A0, U+2007, U+202F).
   */
  predicate IsJavaWhitespace(c: char) {
    IsRegexSpace(c) || '\U{1C}' <= c <= '\U{1F}' ||
    c == '\U{1680}' || ('\U{2000}' <= c <= '\U{200A}' && c != '\U{2007}') ||
    c == '\U{2028}' || c == '\U{2029}' || c == '\U{205F}' || c == '\U{3000}'
  }

  /** Spring's `StringUtils.hasText`: some character is not whitespace. */
  predicate HasText(s: string) {
    exists i :: 0 <= i < |s| && !IsJavaWhitespace(s[i])
  }

  // ---------------------------------------------------------------------------
  // trim
  // ---------------------------------------------------------------------------

  /** Which runtime's `trim` is meant. */
  datatype TrimKind = JavaTrim | JsTrim

  /**
   * Java's `String.trim` removes every character up to U+0020; JavaScript's
   * removes the WhiteSpace and LineTerminator code points of ECMA-262.
   */
  predicate IsTrimmed(kind: TrimKind, c: char) {
    match kind
    case JavaTrim => c <= ' '
    case JsTrim =>
      c == '\t' || c == '\n' || c == '\U{B}' || c == '\U{C}' || c == '\r' || c == ' ' ||
      c == '\U{A0}' || c == '\U{1680}' || '\U{2000}' <= c <= '\U{200A}' || c == '\U{2028}' ||
      c == '\U{2029}' || c == '\U{202F}' || c == '\U{205F}' || c == '\U{3000}' || c == '\U{FEFF}'
  }

  function TrimStart(kind: TrimKind, s: string): (r: string)
    ensures |r| <= |s| && r == s[|s| - |r|..]
    ensures forall i :: 0 <= i < |s| - |r| ==> IsTrimmed(kind, s[i])
    ensures r == [] || !IsTrimmed(kind, r[0])
  {
    if s == [] || !IsTrimmed(kind, s[0]) then s else TrimStart(kind, s[1..])
  }

  function TrimEnd(kind: TrimKind, s: string): (r: string)
    ensures |r| <= |s| && r == s[..|r|]
    ensures forall i :: |r| <= i < |s| ==> IsTrimmed(kind, s[i])
    ensures r == [] || !IsTrimmed(kind, r[|r| - 1])
  {
    if s == [] || !IsTrimmed(kind, s[|s| - 1]) then s else TrimEnd(kind, s[..|s| - 1])
  }

  /** `trim()`: a substring of `s` that neither starts nor ends with a trimmed character. */
  function Trim(kind: TrimKind, s: string): (r: string)
    ensures exists i, j :: 0 <= i <= j <= |s| && r == s[i..j]
    ensures r == [] || (!IsTrimmed(kind, r[0]) && !IsTrimmed(kind, r[|r| - 1]))
  {
    var t := TrimStart(kind, s);
    var r := TrimEnd(kind, t);
    assert r == s[|s| - |t|..|s| - |t| + |r|];
    r
  }

  /** Trimming a trimmed string changes nothing. */
  lemma TrimIdempotent(kind: TrimKind, s: string)
    ensures Trim(kind, Trim(kind, s)) == Trim(kind, s)
  {
    var r := Trim(kind, s);
    assert TrimStart(kind, r) == r;
    assert TrimEnd(kind, r) == r;
  }

  /** Trimmed characters in front of a string are all removed by `trim`. */
  lemma {:induction false} TrimSkipsPrefix(kind: TrimKind, pre: string, s: string)
    requires forall i :: 0 <= i < |pre| ==> IsTrimmed(kind, pre[i])
    ensures TrimStart(kind, pre + s) == TrimStart(kind, s)
  {
    if pre == [] {
      assert pre + s == s;
    } else {
      assert (pre + s)[0] == pre[0];
      assert (pre + s)[1..] == pre[1..] + s;
      TrimSkipsPrefix(kind, pre[1..], s);
    }
  }

  // ---------------------------------------------------------------------------
  // ASCII case mapping (`toUpperCase`, `toLowerCase`, `equalsIgnoreCase`)
  // ---------------------------------------------------------------------------

  function UpperChar(c: char): (u: char)
    ensures 'a' <= c <= 'z' ==> 'A' <= u <= 'Z'
    ensures !('a' <= c <= 'z') ==> u == c
  {
    if 'a' <= c <= 'z' then (c as int - 32) as char else c
  }

  function LowerChar(c: char): (l: char)
    ensures 'A' <= c <= 'Z' ==> 'a' <= l <= 'z'
    ensures !('A' <= c <= 'Z') ==> l == c
  {
    if 'A' <= c <= 'Z' then (c as int + 32) as char else c
  }

  function Upper(s: string): (r: string)
    ensures |r| == |s|
    ensures forall i :: 0 <= i < |s| ==> r[i] == UpperChar(s[i])
  {
    seq(|s|, i requires 0 <= i < |s| => UpperChar(s[i]))
  }

  function Lower(s: string): (r: string)
    ensures |r| == |s|
    ensures forall i :: 0 <= i < |s| ==> r[i] == LowerChar(s[i])
  {
    seq(|s|, i requires 0 <= i < |s| => LowerChar(s[i]))
  }

  /** `a.equalsIgnoreCase(b)` for ASCII text. */
  predicate EqualsIgnoreCase(a: string, b: string) {
    Upper(a) == Upper(b)
  }

  // ---------------------------------------------------------------------------
  // Searching
  // ---------------------------------------------------------------------------

  /** `p` occurs in `s` starting at index `i`. */
  predicate OccursAt(s: string, p: string, i: int) {
    0 <= i && i + |p| <= |s| && s[i..i + |p|] == p
  }

  /** `s.contains(p)` */
  predicate Contains(s: string, p: string) {
    exists i :: 0 <= i <= |s| - |p| && OccursAt(s, p, i)
  }

  /** `s.startsWith(p)` */
  predicate StartsWith(s: string, p: string) {
    |p| <= |s| && s[..|p|] == p
  }

  /** `s.endsWith(p)` */
  predicate EndsWith(s: string, p: string) {
    |p| <= |s| && s[|s| - |p|..] == p
  }

  /** `s.indexOf(p, from)`: the first occurrence at or after `from`, or -1. */
  function IndexOfFrom(s: string, p: string, from: nat): (r: int)
    ensures r == -1 || (from <= r && OccursAt(s, p, r))
    ensures r == -1 ==> forall j :: from <= j ==> !OccursAt(s, p, j)
    ensures r != -1 ==> forall j :: from <= j < r ==> !OccursAt(s, p, j)
    decreases |s| - from
  {
    if from + |p| > |s| then -1
    else if s[from..from + |p|] == p then from
    else IndexOfFrom(s, p, from + 1)
  }

  /** `s.indexOf(p)` */
  function IndexOf(s: string, p: string): (r: int)
    ensures r == -1 <==> !Contains(s, p)
    ensures r != -1 ==> OccursAt(s, p, r) && forall j :: 0 <= j < r ==> !OccursAt(s, p, j)
  {
    IndexOfFrom(s, p, 0)
  }

  /** Text cut off before the first occurrence of `p` holds no occurrence of `p`. */
  lemma PrefixBeforeFirstIsFree(s: string, p: string)
    requires |p| > 0 && Contains(s, p)
    ensures !Contains(s[..IndexOf(s, p)], p)
  {
    var k := IndexOf(s, p);
    forall j | 0 <= j <= k - |p|
      ensures !OccursAt(s[..k], p, j)
    {
      assert s[..k][j..j + |p|] == s[j..j + |p|];
      assert !OccursAt(s, p, j);
    }
  }

  /** A substring of a string free of `p` is free of `p`. */
  lemma SliceKeepsAbsence(s: string, p: string, i: int, j: int)
    requires 0 <= i <= j <= |s|
    requires !Contains(s, p)
    ensures !Contains(s[i..j], p)
  {
    forall k | 0 <= k <= (j - i) - |p|
      ensures !OccursAt(s[i..j], p, k)
    {
      var a, b := s[i..j][k..k + |p|], s[i + k..i + k + |p|];
      forall m | 0 <= m < |p|
        ensures a[m] == b[m]
      {
        assert a[m] == s[i + k + m];
      }
      assert a == b;
      assert !OccursAt(s, p, i + k);
    }
  }

  /** A string contains each of its pieces. */
  lemma ContainsPiece(a: string, b: string, c: string)
    ensures Contains(a + b + c, b)
  {
    assert (a + b + c)[|a|..|a| + |b|] == b;
    assert OccursAt(a + b + c, b, |a|);
  }

  /** Appending text keeps a prefix. */
  lemma StartsWithAppend(s: string, p: string, t: string)
    requires StartsWith(s, p)
    ensures StartsWith(s + t, p)
  {
    assert (s + t)[..|p|] == s[..|p|];
  }

  /** Prepending text keeps a suffix. */
  lemma EndsWithPrepend(s: string, p: string, t: string)
    requires EndsWith(t, p)
    ensures EndsWith(s + t, p)
  {
    assert (s + t)[|s + t| - |p|..] == t[|t| - |p|..];
  }

  /** Appending text keeps an occurrence. */
  lemma ContainsAppend(s: string, p: string, t: string)
    requires Contains(s, p)
    ensures Contains(s + t, p)
  {
    var i :| 0 <= i <= |s| - |p| && OccursAt(s, p, i);
    assert (s + t)[i..i + |p|] == s[i..i + |p|];
    assert OccursAt(s + t, p, i);
  }

  /** A text that contains `p` contains every prefix of `p`. */
  lemma ContainsPrefixOf(s: string, p: string, q: string)
    requires Contains(s, p) && q <= p
    ensures Contains(s, q)
  {
    var i :| 0 <= i <= |s| - |p| && OccursAt(s, p, i);
    assert s[i..i + |q|] == p[..|q|];
    assert OccursAt(s, q, i);
  }

  /** An occurrence inside an occurrence is an occurrence. */
  lemma ContainsTrans(s: string, t: string, p: string)
    requires Contains(s, t) && Contains(t, p)
    ensures Contains(s, p)
  {
    var i :| 0 <= i <= |s| - |t| && OccursAt(s, t, i);
    var j :| 0 <= j <= |t| - |p| && OccursAt(t, p, j);
    forall k | 0 <= k < |p|
      ensures s[i + j + k] == p[k]
    {
      assert s[i..i + |t|][j + k] == t[j + k];
      assert t[j..j + |p|][k] == p[k];
    }
    assert s[i + j..i + j + |p|] == p;
    assert OccursAt(s, p, i + j);
  }

  // ---------------------------------------------------------------------------
  // Literal replacement (`String.replace`, `replaceAll` with a pattern that has
  // no regex metacharacters)
  // ---------------------------------------------------------------------------

  /**
   * Replace every occurrence of `p`, scanning from the left and never
   * overlapping, by `rep`.
   */
  function ReplaceAll(s: string, p: string, rep: string): (r: string)
    requires |p| > 0
    ensures !Contains(s, p) ==> r == s
    decreases |s|
  {
    if |s| < |p| then s
    else if s[..|p|] == p then
      assert OccursAt(s, p, 0);
      rep + ReplaceAll(s[|p|..], p, rep)
    else
      var rest := ReplaceAll(s[1..], p, rep);
      assert !Contains(s, p) ==> !Contains(s[1..], p) by {
        if !Contains(s, p) {
          SliceKeepsAbsence(s, p, 1, |s|);
          assert s[1..|s|] == s[1..];
        }
      }
      [s[0]] + rest
  }

  /** Removal of `p` keeps the first character when `s` does not start with `p`. */
  lemma RemoveAllKeepsHead(s: string, p: string)
    requires |p| > 0 && |s| > 0 && !StartsWith(s, p)
    ensures ReplaceAll(s, p, "") == [s[0]] + ReplaceAll(s[1..], p, "")
  {
  }

  /** Concatenation is associative (stated for when literals make the solver slow to see it). */
  lemma AppendAssoc(a: string, b: string, c: string)
    ensures a + b + c == a + (b + c)
  {
  }

  /** Five pieces joined in order, grouped two other ways. */
  lemma Regroup(a: string, b: string, c: string, d: string, e: string)
    ensures a + b + c + d + e == a + (b + c + d + e)
    ensures a + b + c + d + e == (a + (b + c + d)) + e
  {
  }

  /** Removing one character distributes over concatenation. */
  lemma {:induction false} RemoveCharAppend(a: string, b: string, x: char)
    ensures ReplaceAll(a + b, [x], "") == ReplaceAll(a, [x], "") + ReplaceAll(b, [x], "")
    decreases |a|
  {
    if a != [] {
      assert (a + b)[..1] == a[..1] && (a + b)[1..] == a[1..] + b;
      RemoveCharAppend(a[1..], b, x);
    } else {
      assert a + b == b;
    }
  }

  /** `p` is one character repeated. */
  predicate IsRun(p: string) {
    |p| > 0 && forall i :: 0 <= i < |p| ==> p[i] == p[0]
  }

  /** `t` starts with `n` copies of `c`. */
  predicate StartsWithCopies(t: string, c: char, n: nat) {
    n <= |t| && forall i :: 0 <= i < n ==> t[i] == c
  }

  /**
   * When `t` has a character other than the run's among its first `n < |p|`
   * characters, the removal of `p` from `t` does not start with `n` copies
   * of the run's character.
   */
  lemma {:induction false} RemovalKeepsBreak(t: string, p: string, n: nat, j: nat)
    requires IsRun(p) && n < |p|
    requires j < n && j < |t| && t[j] != p[0]
    ensures !StartsWithCopies(ReplaceAll(t, p, ""), p[0], n)
    decreases n
  {
    if |p| <= |t| {
      assert t[..|p|][j] != p[j];
    }
    var r := ReplaceAll(t, p, "");
    var r' := ReplaceAll(t[1..], p, "");
    RemoveAllKeepsHead(t, p);
    assert r == [t[0]] + r';
    if j == 0 {
      assert r[0] != p[0];
    } else {
      RemovalKeepsBreak(t[1..], p, n - 1, j - 1);
      if n <= |r| {
        var i :| 0 <= i < n - 1 && r'[i] != p[0];
        assert r[i + 1] != p[0];
      }
    }
  }

  /**
   * Removing every occurrence of a run (such as the fence "```") leaves no
   * occurrence of it.
   */
  lemma {:induction false} RemoveAllLeavesNone(s: string, p: string)
    requires IsRun(p)
    ensures !Contains(ReplaceAll(s, p, ""), p)
    decreases |s|
  {
    var r := ReplaceAll(s, p, "");
    if |s| < |p| {
      assert r == s;
    } else if s[..|p|] == p {
      RemoveAllLeavesNone(s[|p|..], p);
      assert r == ReplaceAll(s[|p|..], p, "");
    } else {
      var rest := ReplaceAll(s[1..], p, "");
      RemoveAllLeavesNone(s[1..], p);
      assert r == [s[0]] + rest;
      forall k | 0 <= k <= |r| - |p|
        ensures !OccursAt(r, p, k)
      {
        if k > 0 {
          assert r[k..k + |p|] == rest[k - 1..k - 1 + |p|];
          assert !OccursAt(rest, p, k - 1);
        } else {
          var j := FirstBreak(s, p);
          if j > 0 {
            RemovalKeepsBreak(s[1..], p, |p| - 1, j - 1);
          }
          HeadBlocked(s[0], rest, p);
        }
      }
    }
  }

  /**
   * A character followed by `rest` does not start with the run `p` when the
   * character differs from the run's, or `rest` does not start with `|p| - 1`
   * copies of it.
   */
  lemma HeadBlocked(c: char, rest: string, p: string)
    requires IsRun(p)
    requires c != p[0] || !StartsWithCopies(rest, p[0], |p| - 1)
    ensures !OccursAt([c] + rest, p, 0)
  {
    var t := [c] + rest;
    if OccursAt(t, p, 0) {
      assert t[..|p|] == p;
      assert t[0] == c;
      forall i | 0 <= i < |p| - 1
        ensures rest[i] == p[0]
      {
        assert t[..|p|][i + 1] == rest[i];
      }
    }
  }

  /** An index among the first `|p|` characters of `s` that breaks the run `p`. */
  lemma FirstBreak(s: string, p: string) returns (j: nat)
    requires IsRun(p) && |s| >= |p| && s[..|p|] != p
    ensures j < |p| && s[j] != p[0]
  {
    j :| 0 <= j < |p| && s[..|p|][j] != p[j];
  }

  // ---------------------------------------------------------------------------
  // split / join
  // ---------------------------------------------------------------------------

  /** `String.join(sep, parts)` / `parts.join(sep)` */
  function Join(parts: seq<string>, sep: string): (r: string)
    ensures parts == [] ==> r == ""
    ensures |parts| == 1 ==> r == parts[0]
  {
    if parts == [] then ""
    else if |parts| == 1 then parts[0]
    else parts[0] + sep + Join(parts[1..], sep)
  }

  /**
   * JavaScript `s.split(c)` for a one-character separator: every piece,
   * including empty ones. Joining the pieces with `c` gives `s` back.
   */
  function Split(s: string, c: char): (parts: seq<string>)
    ensures |parts| >= 1
    ensures forall k :: 0 <= k < |parts| ==> c !in parts[k]
    ensures Join(parts, [c]) == s
  {
    if s == [] then [""]
    else
      var rest := Split(s[1..], c);
      if s[0] == c then
        assert [c] + Join(rest, [c]) == s;
        [""] + rest
      else
        var parts := [[s[0]] + rest[0]] + rest[1..];
        JoinHead(rest, s[0], [c]);
        parts
  }

  lemma JoinHead(parts: seq<string>, x: char, sep: string)
    requires |parts| >= 1
    ensures Join([[x] + parts[0]] + parts[1..], sep) == [x] + Join(parts, sep)
  {
    var q := [[x] + parts[0]] + parts[1..];
    assert q[1..] == parts[1..];
  }

  /** Pieces without the separator, joined, split back into themselves. */
  lemma {:induction false} SplitJoin(parts: seq<string>, c: char)
    requires |parts| >= 1
    requires forall k :: 0 <= k < |parts| ==> c !in parts[k]
    ensures Split(Join(parts, [c]), c) == parts
    decreases parts
  {
    if |parts| == 1 {
      SplitNoSep(parts[0], c);
    } else {
      SplitJoin(parts[1..], c);
      SplitPrefix(parts[0], Join(parts[1..], [c]), c);
    }
  }

  lemma {:induction false} SplitNoSep(s: string, c: char)
    requires c !in s
    ensures Split(s, c) == [s]
  {
    if s != [] {
      assert c !in s[1..];
      SplitNoSep(s[1..], c);
    }
  }

  lemma {:induction false} SplitPrefix(a: string, b: string, c: char)
    requires c !in a
    ensures Split(a + [c] + b, c) == [a] + Split(b, c)
  {
    if a == [] {
      assert (a + [c] + b)[1..] == b;
    } else {
      var w := a + [c] + b;
      assert w[0] == a[0] && w[0] != c;
      assert w[1..] == a[1..] + [c] + b;
      assert c !in a[1..];
      SplitPrefix(a[1..], b, c);
      var rest := Split(w[1..], c);
      assert rest == [a[1..]] + Split(b, c);
      assert Split(w, c) == [[a[0]] + rest[0]] + rest[1..];
      assert [a[0]] + a[1..] == a;
    }
  }

  /** Drop empty strings at the end of a list. */
  function DropTrailingEmpty(parts: seq<string>): (r: seq<string>)
    ensures r <= parts
    ensures r == [] || r[|r| - 1] != ""
    ensures forall k :: |r| <= k < |parts| ==> parts[k] == ""
  {
    if parts == [] || parts[|parts| - 1] != "" then parts
    else DropTrailingEmpty(parts[..|parts| - 1])
  }

  /**
   * Java `s.split(c)` for a one-character separator: when the separator
   * occurs, trailing empty strings are removed; when it does not, the
   * result is `[s]`, even for the empty string.
   */
  function JavaSplit(s: string, c: char): (parts: seq<string>)
    ensures c !in s ==> parts == [s]
    ensures forall k :: 0 <= k < |parts| ==> c !in parts[k]
  {
    var all := Split(s, c);
    if c !in s then
      SplitNoSep(s, c);
      all
    else DropTrailingEmpty(all)
  }

  /** Filtering a list with one more element at the end. */
  lemma FilterSeqSnoc<T>(p: T -> bool, s: seq<T>, x: T)
    ensures FilterSeq(p, s + [x]) == FilterSeq(p, s) + (if p(x) then [x] else [])
  {
    FilterSeqAppend(p, s, [x]);
    assert [x][1..] == [];
    assert FilterSeq(p, [x]) == (if p(x) then [x] else []) + FilterSeq(p, []);
  }

  /** Filtering distributes over concatenation, so the kept elements stay in order. */
  lemma {:induction false} FilterSeqAppend<T>(p: T -> bool, a: seq<T>, b: seq<T>)
    ensures FilterSeq(p, a + b) == FilterSeq(p, a) + FilterSeq(p, b)
    decreases |a|
  {
    if a == [] {
      assert a + b == b;
    } else {
      var x, rest := a[0], a[1..];
      assert a == [x] + rest;
      assert a + b == [x] + (rest + b);
      FilterSeqCons(p, x, rest);
      FilterSeqCons(p, x, rest + b);
      FilterSeqAppend(p, rest, b);
      SeqAssoc(if p(x) then [x] else [], FilterSeq(p, rest), FilterSeq(p, b));
    }
  }

  lemma SeqAssoc<T>(a: seq<T>, b: seq<T>, c: seq<T>)
    ensures a + (b + c) == (a + b) + c
  {
  }

  /** A prefix one longer is the shorter prefix and the next element. */
  lemma TakeSnoc<T>(s: seq<T>, n: nat)
    requires 0 < n <= |s|
    ensures s[..n - 1] + [s[n - 1]] == s[..n]
  {
  }

  /** Filtering a list with one more element at the front. */
  lemma FilterSeqCons<T>(p: T -> bool, x: T, s: seq<T>)
    ensures FilterSeq(p, [x] + s) == (if p(x) then [x] else []) + FilterSeq(p, s)
  {
    assert ([x] + s)[0] == x && ([x] + s)[1..] == s;
  }

  /** Filtering keeps every copy of a passing element and no copy of any other. */
  lemma {:induction false} FilterSeqCounts<T>(p: T -> bool, s: seq<T>)
    ensures forall x :: multiset(FilterSeq(p, s))[x] == if p(x) then multiset(s)[x] else 0
    decreases |s|
  {
    if s != [] {
      FilterSeqCounts(p, s[1..]);
      assert s == [s[0]] + s[1..];
      assert multiset(s) == multiset([s[0]]) + multiset(s[1..]);
    }
  }

  /** Filtering twice with the same test keeps what filtering once keeps. */
  lemma {:induction false} FilterSeqIdempotent<T>(p: T -> bool, s: seq<T>)
    ensures FilterSeq(p, FilterSeq(p, s)) == FilterSeq(p, s)
    decreases |s|
  {
    if s != [] {
      FilterSeqIdempotent(p, s[1..]);
      var head := if p(s[0]) then [s[0]] else [];
      FilterSeqAppend(p, head, FilterSeq(p, s[1..]));
      if p(s[0]) {
        assert [s[0]][1..] == [];
        assert FilterSeq(p, head) == [s[0]] + FilterSeq(p, []);
      }
    }
  }

  /** A list all of whose elements pass the test is its own filter. */
  lemma {:induction false} FilterSeqAll<T>(p: T -> bool, s: seq<T>)
    requires forall i :: 0 <= i < |s| ==> p(s[i])
    ensures FilterSeq(p, s) == s
    decreases |s|
  {
    if s != [] {
      FilterSeqAll(p, s[1..]);
      assert [s[0]] + s[1..] == s;
    }
  }

  /** Apply `f` to every element (`stream().map(f)`). */
  function Map<A, B>(f: A -> B, s: seq<A>): (r: seq<B>)
    ensures |r| == |s|
    ensures forall i :: 0 <= i < |s| ==> r[i] == f(s[i])
  {
    seq(|s|, i requires 0 <= i < |s| => f(s[i]))
  }

  /** Keep the elements satisfying `p`, in order (`stream().filter(p)`). */
  function FilterSeq<T>(p: T -> bool, s: seq<T>): (r: seq<T>)
    ensures |r| <= |s|
    ensures forall i :: 0 <= i < |r| ==> p(r[i]) && r[i] in s
    ensures forall i :: 0 <= i < |s| && p(s[i]) ==> s[i] in r
    ensures r == [] <==> forall i :: 0 <= i < |s| ==> !p(s[i])
  {
    if s == [] then []
    else (if p(s[0]) then [s[0]] else []) + FilterSeq(p, s[1..])
  }

  /** Joining a non-empty list whose first element is non-empty gives a non-empty string. */
  lemma JoinNonEmpty(parts: seq<string>, sep: string)
    requires |parts| > 0 && parts[0] != ""
    ensures Join(parts, sep) != ""
  {
    if |parts| > 1 {
      assert Join(parts, sep)[0] == parts[0][0];
    }
  }

  /** The last element of a joined list is a suffix of the joined text. */
  lemma {:induction false} JoinEndsWithLast(parts: seq<string>, sep: string)
    requires |parts| > 0
    ensures EndsWith(Join(parts, sep), parts[|parts| - 1])
  {
    if |parts| > 1 {
      JoinEndsWithLast(parts[1..], sep);
      var j := Join(parts[1..], sep);
      var x := parts[|parts| - 1];
      assert parts[1..][|parts[1..]| - 1] == x;
      assert Join(parts, sep) == parts[0] + sep + j;
      assert (parts[0] + sep + j)[|parts[0] + sep + j| - |x|..] == j[|j| - |x|..];
    }
  }

  /** Joining `xs + [x]` appends the separator and `x`. */
  lemma {:induction false} JoinSnoc(xs: seq<string>, x: string, sep: string)
    requires |xs| > 0
    ensures Join(xs + [x], sep) == Join(xs, sep) + sep + x
  {
    if |xs| == 1 {
      assert (xs + [x])[1..] == [x];
    } else {
      assert (xs + [x])[1..] == xs[1..] + [x];
      JoinSnoc(xs[1..], x, sep);
    }
  }

  /** Every part followed by the separator, as a loop appending `part + sep` writes it. */
  function Terminated(parts: seq<string>, sep: string): string {
    if parts == [] then "" else Terminated(parts[..|parts| - 1], sep) + parts[|parts| - 1] + sep
  }

  /** A separator-terminated list is the joined list plus one separator. */
  lemma {:induction false} TerminatedIsJoin(parts: seq<string>, sep: string)
    requires parts != []
    ensures Terminated(parts, sep) == Join(parts, sep) + sep
    decreases |parts|
  {
    if |parts| > 1 {
      var init := parts[..|parts| - 1];
      var last := parts[|parts| - 1];
      TerminatedIsJoin(init, sep);
      JoinSnoc(init, last, sep);
      assert init + [last] == parts;
      assert Terminated(parts, sep) == Join(init, sep) + sep + last + sep;
    } else {
      assert parts[..0] == [];
    }
  }

  // ---------------------------------------------------------------------------
  // Decimal text of integers (`Integer.toString`, `StringBuilder.append(int)`)
  // ---------------------------------------------------------------------------

  function DigitChar(d: nat): (c: char)
    requires d < 10
    ensures IsDigit(c)
  {
    ('0' as int + d) as char
  }

  function NatToString(n: nat): (s: string)
    ensures |s| >= 1 && AllDigits(s)
    ensures n < 10 ==> |s| == 1
    ensures 10 <= n < 100 ==> |s| == 2
    ensures n == 100 ==> s == "100"
  {
    if n < 10 then [DigitChar(n)] else NatToString(n / 10) + [DigitChar(n % 10)]
  }

  /** The value of a string of decimal digits. */
  function DigitsValue(s: string): nat
    requires AllDigits(s)
  {
    if s == [] then 0 else 10 * DigitsValue(s[..|s| - 1]) + (s[|s| - 1] as int - '0' as int)
  }

  /** Reading the decimal text of `n` gives `n` back. */
  lemma {:induction false} NatToStringRoundTrip(n: nat)
    ensures DigitsValue(NatToString(n)) == n
  {
    if n >= 10 {
      NatToStringRoundTrip(n / 10);
      var s := NatToString(n);
      assert s[..|s| - 1] == NatToString(n / 10);
    }
  }

  /** `Integer.toString(i)`: a minus sign for negative values, then the digits. */
  function IntToString(i: int): (s: string)
    ensures i >= 0 ==> s == NatToString(i)
    ensures i < 0 ==> s == "-" + NatToString(-i)
  {
    if i < 0 then "-" + NatToString(-i) else NatToString(i)
  }
}
