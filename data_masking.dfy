/**
 * Masking of personal data in query results. Four maskers hide the middle
 * of a name, a phone number, an identity card number and a bank card
 * number; `SmartMask` picks one of them from the column name.
 */
module DataMasking {
  import opened Common
  import opened Text

  /** `"*".repeat(n)` */
  function Stars(n: nat): (r: string)
    ensures |r| == n
    ensures forall i :: 0 <= i < n ==> r[i] == '*'
  {
    seq(n, i => '*')
  }

  // ---------------------------------------------------------------------------
  // The four maskers
  // ---------------------------------------------------------------------------

  /** `maskName`: blank text is kept, anything else becomes its first character and `**`. */
  function MaskName(name: string): (r: string)
    ensures !HasText(name) ==> r == name
    ensures HasText(name) ==> |r| == 3 && r[0] == name[0] && r[1] == '*' && r[2] == '*'
  {
    if !HasText(name) then name else name[..1] + "**"
  }

  /** `maskIdCard`: from 15 characters on, all but the first 3 and last 4 become `*`. */
  function MaskIdCard(id: string): (r: string)
    ensures |r| == |id|
    ensures !HasText(id) || |id| < 15 ==> r == id
    ensures HasText(id) && |id| >= 15 ==>
              r[..3] == id[..3] && r[|id| - 4..] == id[|id| - 4..] &&
              forall i :: 3 <= i < |id| - 4 ==> r[i] == '*'
  {
    if !HasText(id) || |id| < 15 then id
    else id[..3] + Stars(|id| - 7) + id[|id| - 4..]
  }

  /** `maskBankCard`: from 10 characters on, all but the first 4 and last 4 become `*`. */
  function MaskBankCard(card: string): (r: string)
    ensures |r| == |card|
    ensures !HasText(card) || |card| < 10 ==> r == card
    ensures HasText(card) && |card| >= 10 ==>
              r[..4] == card[..4] && r[|card| - 4..] == card[|card| - 4..] &&
              forall i :: 4 <= i < |card| - 4 ==> r[i] == '*'
  {
    if !HasText(card) || |card| < 10 then card
    else card[..4] + Stars(|card| - 8) + card[|card| - 4..]
  }

  /**
   * `replaceAll("(\d{3})\d{4}(\d{4})", "$1****$2")`: scanning from the left,
   * every run of eleven ASCII digits keeps its first three and last four
   * digits and has the four in between replaced by `*`; the scan resumes
   * after the run.
   */
  function MaskDigitRuns(s: string): (r: string)
    ensures |r| == |s|
    ensures forall i :: 0 <= i < |s| ==> r[i] == s[i] || (r[i] == '*' && IsDigit(s[i]))
  {
    if |s| >= 11 && AllDigits(s[..11]) then
      var rest := MaskDigitRuns(s[11..]);
      assert forall i :: 11 <= i < |s| ==> s[i] == s[11..][i - 11];
      s[..3] + "****" + s[7..11] + rest
    else if s == [] then []
    else
      var rest := MaskDigitRuns(s[1..]);
      assert forall i :: 1 <= i < |s| ==> s[i] == s[1..][i - 1];
      [s[0]] + rest
  }

  /** `maskPhone`: text shorter than 11 characters or blank is kept. */
  function MaskPhone(phone: string): (r: string)
    ensures |r| == |phone|
    ensures !HasText(phone) || |phone| < 11 ==> r == phone
    ensures HasText(phone) && |phone| >= 11 ==> r == MaskDigitRuns(phone)
    ensures forall i :: 0 <= i < |phone| ==> r[i] == phone[i] || (r[i] == '*' && IsDigit(phone[i]))
  {
    if !HasText(phone) || |phone| < 11 then phone else MaskDigitRuns(phone)
  }

  // ---------------------------------------------------------------------------
  // Column-driven masking
  // ---------------------------------------------------------------------------

  const NameKeys: seq<string> := ["name", "\U{59D3}\U{540D}"]
  const PhoneKeys: seq<string> := ["phone", "mobile", "tel", "\U{624B}\U{673A}"]
  const IdCardKeys: seq<string> := ["id_card", "sfz", "\U{8BC1}\U{4EF6}"]
  const BankCardKeys: seq<string> := ["card_no", "acct", "account", "\U{8D26}\U{53F7}"]

  /** Which masker a column gets. */
  datatype MaskRule = NameRule | PhoneRule | IdCardRule | BankCardRule | KeepRule

  /** The (lower-cased) column name contains one of the keywords. */
  predicate MentionsAny(col: string, keys: seq<string>) {
    exists k :: k in keys && Contains(col, k)
  }

  /** The rules are tried on the lower-cased name in a fixed order; the first that matches wins. */
  function RuleFor(column: string): MaskRule {
    var col := Lower(column);
    if MentionsAny(col, NameKeys) then NameRule
    else if MentionsAny(col, PhoneKeys) then PhoneRule
    else if MentionsAny(col, IdCardKeys) then IdCardRule
    else if MentionsAny(col, BankCardKeys) then BankCardRule
    else KeepRule
  }

  function ApplyRule(rule: MaskRule, s: string): string {
    match rule
    case NameRule => MaskName(s)
    case PhoneRule => MaskPhone(s)
    case IdCardRule => MaskIdCard(s)
    case BankCardRule => MaskBankCard(s)
    case KeepRule => s
  }

  /** `smartMask`: `null` stays `null`, non-text values are returned as they are. */
  function SmartMask(column: string, v: Value): (r: Value)
    ensures v == Null ==> r == Null
    ensures !v.Str? ==> r == v
    ensures v.Str? ==> r.Str? && r.s == ApplyRule(RuleFor(column), v.s)
  {
    match v
    case Str(s) => Str(ApplyRule(RuleFor(column), s))
    case _ => v
  }

  // ---------------------------------------------------------------------------
  // Properties
  // ---------------------------------------------------------------------------

  /** Masking a name twice gives the same text as masking it once. */
  lemma MaskNameIdempotent(name: string)
    ensures MaskName(MaskName(name)) == MaskName(name)
  {
    if HasText(name) {
      var r := MaskName(name);
      assert !IsJavaWhitespace(r[1]);
      assert r[..1] + "**" == r;
    }
  }

  /** Masking an identity card number twice gives the same text as masking it once. */
  lemma MaskIdCardIdempotent(id: string)
    ensures MaskIdCard(MaskIdCard(id)) == MaskIdCard(id)
  {
    if HasText(id) && |id| >= 15 {
      var r := MaskIdCard(id);
      assert !IsJavaWhitespace(r[3]);
      var n := |r|;
      assert r[..3] + Stars(n - 7) + r[n - 4..] == r;
    }
  }

  /** Masking a bank card number twice gives the same text as masking it once. */
  lemma MaskBankCardIdempotent(card: string)
    ensures MaskBankCard(MaskBankCard(card)) == MaskBankCard(card)
  {
    if HasText(card) && |card| >= 10 {
      var r := MaskBankCard(card);
      assert !IsJavaWhitespace(r[4]);
      var n := |r|;
      assert r[..4] + Stars(n - 8) + r[n - 4..] == r;
    }
  }

  /**
   * No match of the pattern spans a non-digit, so the masking of a text
   * splits at every non-digit character: each side is masked on its own.
   */
  lemma {:induction false} MaskSplitsAtNonDigit(p: string, c: char, q: string)
    requires !IsDigit(c)
    ensures MaskDigitRuns(p + [c] + q) == MaskDigitRuns(p) + [c] + MaskDigitRuns(q)
    decreases |p|
  {
    if |p| >= 11 && AllDigits(p[..11]) {
      MaskSplitsAtNonDigit(p[11..], c, q);
      MaskSplitsAfterBlock(p, c, q);
    } else if p == [] {
      MaskSplitsAtStart(c, q);
      assert p + [c] + q == [c] + q;
    } else {
      MaskSplitsAtNonDigit(p[1..], c, q);
      MaskSplitsAfterChar(p, c, q);
    }
  }

  /** The split step when the text opens with eleven digits: they are masked as a block. */
  lemma MaskSplitsAfterBlock(p: string, c: char, q: string)
    requires !IsDigit(c) && |p| >= 11 && AllDigits(p[..11])
    requires MaskDigitRuns(p[11..] + [c] + q) == MaskDigitRuns(p[11..]) + [c] + MaskDigitRuns(q)
    ensures MaskDigitRuns(p + [c] + q) == MaskDigitRuns(p) + [c] + MaskDigitRuns(q)
  {
    var block := p[..3] + "****" + p[7..11];
    var rest := MaskDigitRuns(p[11..]);
    var tail := [c] + MaskDigitRuns(q);
    SeqAssoc(rest, [c], MaskDigitRuns(q));
    assert MaskDigitRuns(p + [c] + q) == block + (rest + tail) by {
      SplitAt(p, c, q, 11);
    }
    assert MaskDigitRuns(p) == block + rest;
    SeqAssoc(block, rest, tail);
    SeqAssoc(MaskDigitRuns(p), [c], MaskDigitRuns(q));
  }

  /** Cutting `p + [c] + q` within `p` cuts `p`. */
  lemma SplitAt<T>(p: seq<T>, c: T, q: seq<T>, k: nat)
    requires 0 < k <= |p|
    ensures (p + [c] + q)[0] == p[0]
    ensures (p + [c] + q)[..k] == p[..k] && (p + [c] + q)[k..] == p[k..] + [c] + q
  {
  }

  /** The split step at the non-digit itself: it is kept and the scan goes on after it. */
  lemma MaskSplitsAtStart(c: char, q: string)
    requires !IsDigit(c)
    ensures MaskDigitRuns([c] + q) == [c] + MaskDigitRuns(q)
  {
    var s := [c] + q;
    assert s[1..] == q;
    assert |s| >= 11 ==> !AllDigits(s[..11]) by {
      if |s| >= 11 { assert s[..11][0] == c; }
    }
  }

  /** The split step when the text does not open with eleven digits: its first character is kept. */
  lemma MaskSplitsAfterChar(p: string, c: char, q: string)
    requires !IsDigit(c) && p != [] && !(|p| >= 11 && AllDigits(p[..11]))
    requires MaskDigitRuns(p[1..] + [c] + q) == MaskDigitRuns(p[1..]) + [c] + MaskDigitRuns(q)
    ensures MaskDigitRuns(p + [c] + q) == MaskDigitRuns(p) + [c] + MaskDigitRuns(q)
  {
    var rest := MaskDigitRuns(p[1..]);
    var tail := [c] + MaskDigitRuns(q);
    SeqAssoc(rest, [c], MaskDigitRuns(q));
    assert MaskDigitRuns(p + [c] + q) == [p[0]] + (rest + tail) by {
      var s := p + [c] + q;
      assert |s| >= 11 ==> !AllDigits(s[..11]) by {
        if |s| >= 11 {
          if |p| >= 11 {
            SplitAt(p, c, q, 11);
          } else {
            assert s[..11][|p|] == c;
          }
        }
      }
      SplitAt(p, c, q, 1);
    }
    assert MaskDigitRuns(p) == [p[0]] + rest;
    SeqAssoc([p[0]], rest, tail);
    SeqAssoc(MaskDigitRuns(p), [c], MaskDigitRuns(q));
  }

  /**
   * On a run of digits the pattern matches the run's consecutive blocks of
   * eleven: in each block the fourth to seventh digits become `*`; the
   * digits after the last whole block are kept.
   */
  lemma {:induction false} DigitRunMasked(d: string)
    requires AllDigits(d)
    ensures forall i :: 0 <= i < |d| ==>
      MaskDigitRuns(d)[i] == if i < |d| - |d| % 11 && 3 <= i % 11 < 7 then '*' else d[i]
    decreases |d|
  {
    var r := MaskDigitRuns(d);
    if |d| >= 11 {
      assert AllDigits(d[..11]);
      var rest := d[11..];
      DigitRunMasked(rest);
      assert r == d[..3] + "****" + d[7..11] + MaskDigitRuns(rest);
      assert |rest| - |rest| % 11 == |d| - |d| % 11 - 11;
      forall i | 11 <= i < |d|
        ensures r[i] == if i < |d| - |d| % 11 && 3 <= i % 11 < 7 then '*' else d[i]
      {
        assert r[i] == MaskDigitRuns(rest)[i - 11] && rest[i - 11] == d[i];
        assert (i - 11) % 11 == i % 11;
      }
    } else if d != [] {
      assert |d| % 11 == |d|;
      DigitRunUnchanged(d);
    }
  }

  /** A digit run shorter than eleven holds no match. */
  lemma {:induction false} DigitRunUnchanged(d: string)
    requires |d| < 11
    ensures MaskDigitRuns(d) == d
    decreases |d|
  {
    if d != [] {
      DigitRunUnchanged(d[1..]);
      assert [d[0]] + d[1..] == d;
    }
  }

  /**
   * A phone number inside a text, an eleven-digit run between two
   * non-digits, keeps its first three and last four digits; the text on
   * either side is masked on its own.
   */
  lemma MaskPhoneInText(p: string, a: char, d: string, b: char, q: string)
    requires |d| == 11 && AllDigits(d) && !IsDigit(a) && !IsDigit(b)
    ensures MaskPhone(p + [a] + d + [b] + q) ==
            MaskDigitRuns(p) + [a] + (d[..3] + "****" + d[7..]) + [b] + MaskDigitRuns(q)
  {
    var s := p + [a] + d + [b] + q;
    assert s[|p| + 1] == d[0];
    assert HasText(s) by { assert !IsJavaWhitespace(s[|p| + 1]); }
    PhoneRunMasked(p, a, d, b, q);
  }

  /** The digit masking of a text holding an eleven-digit run between two non-digits. */
  lemma PhoneRunMasked(p: string, a: char, d: string, b: char, q: string)
    requires |d| == 11 && AllDigits(d) && !IsDigit(a) && !IsDigit(b)
    ensures MaskDigitRuns(p + [a] + d + [b] + q) ==
            MaskDigitRuns(p) + [a] + (d[..3] + "****" + d[7..]) + [b] + MaskDigitRuns(q)
  {
    var tail := d + [b] + q;
    assert p + [a] + d + [b] + q == p + [a] + tail;
    MaskSplitsAtNonDigit(p, a, tail);
    MaskSplitsAtNonDigit(d, b, q);
    ElevenDigitsMasked(d);
  }

  /** Eleven digits are one match. */
  lemma ElevenDigitsMasked(d: string)
    requires |d| == 11 && AllDigits(d)
    ensures MaskDigitRuns(d) == d[..3] + "****" + d[7..]
  {
    assert d[..11] == d && d[11..] == [];
  }

  /** An eleven-digit number keeps its first three and last four digits. */
  lemma MaskPhoneElevenDigits(phone: string)
    requires |phone| == 11 && AllDigits(phone)
    ensures MaskPhone(phone) == phone[..3] + "****" + phone[7..]
  {
    assert !IsJavaWhitespace(phone[0]);
    ElevenDigitsMasked(phone);
  }

  lemma MaskPhoneExample(phone: string)
    requires phone == "13812345678"
    ensures MaskPhone(phone) == "138****5678"
  {
    assert AllDigits(phone);
    MaskPhoneElevenDigits(phone);
    assert phone[..3] == "138" && phone[7..] == "5678";
  }

  /** The first rule that matches wins: an `account_name` column is masked as a name. */
  lemma AccountNameIsName()
    ensures RuleFor("account_name") == NameRule
  {
    var col := Lower("account_name");
    assert col[8..12] == "name";
    assert OccursAt(col, "name", 8);
    assert "name" in NameKeys && Contains(col, "name");
  }
}
