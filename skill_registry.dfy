/**
 * The skill registry: every `skills/<code>/SKILL.md` resource is read, its
 * YAML front matter is split off and parsed line by line into a skill
 * definition, and the definition is registered under the directory name.
 * The registry lists its skills sorted by code and looks them up by code.
 */
module SkillRegistry {
  import opened Common
  import opened Text

  // ---------------------------------------------------------------------------
  // Skill definitions
  // ---------------------------------------------------------------------------

  /**
   * A `SkillDefinition`; `None` is a field left `null`. The `schema` object
   * is held as the JSON text Jackson writes for it.
   */
  datatype SkillDefinition = SkillDefinition(
    code: Option<string>,
    name: Option<string>,
    description: Option<string>,
    triggerKeywords: Option<seq<string>>,
    version: Option<string>,
    author: Option<string>,
    instruction: Option<string>,
    basePath: Option<string>,
    schema: Option<string>)

  /** Why reading a skill file throws: a value that is a lone quote character. */
  datatype ParseError = LoneQuote(line: string)

  /**
   * What SnakeYAML yields for the front matter, when it yields a map: the
   * string entries `name`, `description`, `version` and `author` (absent
   * ones `None`), `trigger_keywords` when it is a list, and the `schema`
   * entry as the JSON text Jackson writes for it (`None` when absent or null).
   */
  datatype YamlFront = YamlFront(
    name: Option<string>,
    description: Option<string>,
    version: Option<string>,
    author: Option<string>,
    keywords: Option<seq<string>>,
    schema: Option<string>)

  /** SnakeYAML's `load`: the front matter as a map, or `None` when loading or reading it throws. */
  type YamlLoader = string -> Option<YamlFront>

  // ---------------------------------------------------------------------------
  // The line parser
  // ---------------------------------------------------------------------------

  /** A line of the front matter the parser passes over: blank once trimmed, or a `#` comment. */
  predicate Ignored(line: string) {
    var t := Trim(JavaTrim, line);
    t == "" || StartsWith(t, "#")
  }

  /** The value wrapped in one pair of matching double or single quotes. */
  predicate Quoted(value: string) {
    (StartsWith(value, "\"") && EndsWith(value, "\"")) || (StartsWith(value, "'") && EndsWith(value, "'"))
  }

  /**
   * One pair of surrounding quotes removed; a value that is a single quote
   * character both starts and ends with it, and cutting it throws.
   */
  function Unquote(value: string): (r: Option<string>)
    ensures !Quoted(value) ==> r == Some(value)
    ensures Quoted(value) && |value| >= 2 ==> r == Some(value[1..|value| - 1])
    ensures r.None? <==> Quoted(value) && |value| < 2
  {
    if Quoted(value) then
      if |value| < 2 then None else Some(value[1..|value| - 1])
    else Some(value)
  }

  /** Every piece trimmed (`map(String::trim)`). */
  function TrimAll(parts: seq<string>): (r: seq<string>)
    ensures |r| == |parts|
    ensures forall i :: 0 <= i < |parts| ==> r[i] == Trim(JavaTrim, parts[i])
  {
    seq(|parts|, i requires 0 <= i < |parts| => Trim(JavaTrim, parts[i]))
  }

  /** `[a, b]`: the text between the brackets split at commas, each piece trimmed. */
  function InlineList(value: string): (r: Option<seq<string>>)
    ensures r.Some? <==> StartsWith(value, "[") && EndsWith(value, "]")
  {
    if StartsWith(value, "[") && EndsWith(value, "]") then
      assert value[0] == '[' && value[|value| - 1] == ']';
      Some(TrimAll(JavaSplit(value[1..|value| - 1], ',')))
    else None
  }

  /** The `switch (key)`: the four text fields are set, `trigger_keywords` only from an inline list. */
  function Assign(def: SkillDefinition, key: string, value: string): SkillDefinition {
    match key
    case "name" => def.(name := Some(value))
    case "description" => def.(description := Some(value))
    case "version" => def.(version := Some(value))
    case "author" => def.(author := Some(value))
    case "trigger_keywords" =>
      (match InlineList(value)
       case Some(keywords) => def.(triggerKeywords := Some(keywords))
       case None => def)
    case _ => def
  }

  /**
   * One line of the front matter: ignored lines and lines without a colon
   * after the first character leave the definition as it is; otherwise the
   * trimmed text before the first colon is the key and the trimmed,
   * unquoted text after it the value.
   */
  function ApplyLine(def: SkillDefinition, raw: string): Result<SkillDefinition, ParseError> {
    var line := Trim(JavaTrim, raw);
    if line == "" || StartsWith(line, "#") then Success(def)
    else
      var colon := IndexOf(line, ":");
      if colon > 0 then
        match Unquote(Trim(JavaTrim, line[colon + 1..]))
        case None => Failure(LoneQuote(line))
        case Some(value) => Success(Assign(def, Trim(JavaTrim, line[..colon]), value))
      else Success(def)
  }

  /** The lines applied in order; the first that throws ends the parse. */
  function ApplyLines(def: SkillDefinition, lines: seq<string>): Result<SkillDefinition, ParseError>
  {
    if lines == [] then Success(def)
    else
      match ApplyLines(def, lines[..|lines| - 1])
      case Failure(e) => Failure(e)
      case Success(d) => ApplyLine(d, lines[|lines| - 1])
  }

  /**
   * What SnakeYAML's map overrides: the four text fields (`version` defaults
   * to `1.0`), a keyword list, and the schema (the line parser never sets
   * one, so an absent key and a null value both leave it null).
   */
  function Override(def: SkillDefinition, front: Option<YamlFront>): (r: SkillDefinition)
    ensures front.None? ==> r == def
    ensures front.Some? ==> r.name == front.value.name && r.description == front.value.description &&
                            r.author == front.value.author &&
                            r.version == (if front.value.version.Some? then front.value.version else Some("1.0"))
    ensures front.Some? ==> r.schema == front.value.schema
    ensures r.instruction == def.instruction && r.code == def.code && r.basePath == def.basePath
  {
    match front
    case None => def
    case Some(y) =>
      var d := def.(name := y.name, description := y.description, author := y.author,
                    version := if y.version.Some? then y.version else Some("1.0"),
                    schema := y.schema);
      if y.keywords.Some? then d.(triggerKeywords := y.keywords) else d
  }

  // ---------------------------------------------------------------------------
  // parseSkillMd
  // ---------------------------------------------------------------------------

  const Opener: string := "---"
  const Closer: string := "\n---"

  /** A definition with only the instruction set. */
  function Fresh(instruction: string): SkillDefinition {
    SkillDefinition(None, None, None, None, None, None, Some(instruction), None, None)
  }

  /**
   * `parseSkillMd`: `None` (Java `null`) without the opening `---` or
   * without a later `\n---`; otherwise the trimmed text between them is
   * parsed line by line, the trimmed rest is the instruction, and
   * SnakeYAML's reading of the front matter overrides the line parser.
   */
  function ParseSkill(content: string, yaml: YamlLoader): Result<Option<SkillDefinition>, ParseError> {
    if !StartsWith(content, Opener) then Success(None)
    else
      var endYaml := IndexOfFrom(content, Closer, 3);
      if endYaml == -1 then Success(None)
      else
        var front := Trim(JavaTrim, content[3..endYaml]);
        match ApplyLines(Fresh(Trim(JavaTrim, content[endYaml + 4..])), JavaSplit(front, '\n'))
        case Failure(e) => Failure(e)
        case Success(def) => Success(Some(Override(def, yaml(front))))
  }

  /** One more line: the parse so far, then that line. */
  lemma ApplyLinesSnoc(def: SkillDefinition, lines: seq<string>, line: string)
    ensures ApplyLines(def, lines + [line]) ==
            match ApplyLines(def, lines)
            case Failure(e) => Failure(e)
            case Success(d) => ApplyLine(d, line)
  {
    assert (lines + [line])[..|lines|] == lines;
  }

  /** The front matter never sets the instruction, the code or the base path. */
  predicate SameFrame(d: SkillDefinition, def: SkillDefinition) {
    d.instruction == def.instruction && d.code == def.code && d.basePath == def.basePath
  }

  lemma AssignKeeps(def: SkillDefinition, key: string, value: string)
    ensures SameFrame(Assign(def, key, value), def)
  {
  }

  lemma ApplyLineKeeps(def: SkillDefinition, raw: string)
    ensures ApplyLine(def, raw).Success? ==> SameFrame(ApplyLine(def, raw).value, def)
  {
    var line := Trim(JavaTrim, raw);
    if line != "" && !StartsWith(line, "#") {
      var colon := IndexOf(line, ":");
      if colon > 0 {
        var value := Unquote(Trim(JavaTrim, line[colon + 1..]));
        if value.Some? {
          AssignKeeps(def, Trim(JavaTrim, line[..colon]), value.value);
        }
      }
    }
  }

  /** The line parser never touches the instruction, the code or the base path. */
  lemma {:induction false} ApplyLinesKeeps(def: SkillDefinition, lines: seq<string>)
    ensures ApplyLines(def, lines).Success? ==> SameFrame(ApplyLines(def, lines).value, def)
  {
    if lines != [] {
      var init := lines[..|lines| - 1];
      ApplyLinesKeeps(def, init);
      if ApplyLines(def, init).Success? {
        ApplyLineKeeps(ApplyLines(def, init).value, lines[|lines| - 1]);
      }
    }
  }

  /** Once a line throws, the lines after it are not read. */
  lemma {:induction false} FailureSticks(def: SkillDefinition, lines: seq<string>, n: nat)
    requires n <= |lines| && ApplyLines(def, lines[..n]).Failure?
    ensures ApplyLines(def, lines) == ApplyLines(def, lines[..n])
    decreases |lines| - n
  {
    if n < |lines| {
      assert lines[..n + 1] == lines[..n] + [lines[n]];
      ApplyLinesSnoc(def, lines[..n], lines[n]);
      FailureSticks(def, lines, n + 1);
    } else {
      assert lines[..n] == lines;
    }
  }

  /** The `for (String line : lines)` loop of `parseSkillMd` over a mutable definition. */
  method ParseLines(def0: SkillDefinition, lines: seq<string>) returns (r: Result<SkillDefinition, ParseError>)
    ensures r == ApplyLines(def0, lines)
  {
    var def := def0;
    var i := 0;
    while i < |lines|
      invariant 0 <= i <= |lines|
      invariant ApplyLines(def0, lines[..i]) == Success(def)
    {
      assert lines[..i + 1] == lines[..i] + [lines[i]];
      ApplyLinesSnoc(def0, lines[..i], lines[i]);
      var next := ApplyLine(def, lines[i]);
      if next.Failure? {
        FailureSticks(def0, lines, i + 1);
        return next;
      }
      def := next.value;
      i := i + 1;
    }
    assert lines[..i] == lines;
    r := Success(def);
  }

  /** `parseSkillMd`: the front matter is cut out and read line by line, then by SnakeYAML. */
  method ParseSkillMd(content: string, yaml: YamlLoader) returns (r: Result<Option<SkillDefinition>, ParseError>)
    ensures r == ParseSkill(content, yaml)
  {
    if !StartsWith(content, Opener) {
      return Success(None);
    }
    var endYaml := IndexOfFrom(content, Closer, 3);
    if endYaml == -1 {
      return Success(None);
    }
    r := ParseFrontMatter(content, endYaml, yaml);
  }

  /** The part of `parseSkillMd` after the closing `\n---` was found at `endYaml`. */
  method ParseFrontMatter(content: string, endYaml: int, yaml: YamlLoader)
    returns (r: Result<Option<SkillDefinition>, ParseError>)
    requires StartsWith(content, Opener)
    requires endYaml == IndexOfFrom(content, Closer, 3) && endYaml != -1
    ensures r == ParseSkill(content, yaml)
  {
    var front := Trim(JavaTrim, content[3..endYaml]);
    var body := Trim(JavaTrim, content[endYaml + 4..]);
    var parsed := ParseLines(Fresh(body), JavaSplit(front, '\n'));
    if parsed.Failure? {
      return Failure(parsed.error);
    }
    r := Success(Some(Override(parsed.value, yaml(front))));
  }

  /** Without the opening `---` there is no skill. */
  lemma MissingOpener(content: string, yaml: YamlLoader)
    requires !StartsWith(content, "---")
    ensures ParseSkill(content, yaml) == Success(None)
  {
  }

  /** Without a `\n---` from index 3 on there is no skill. */
  lemma MissingCloser(content: string, yaml: YamlLoader)
    requires StartsWith(content, "---")
    requires forall j :: 3 <= j ==> !OccursAt(content, "\n---", j)
    ensures ParseSkill(content, yaml) == Success(None)
  {
  }

  /**
   * A parsed skill's instruction is the trimmed text after the first
   * `\n---` found from index 3 on; its text fields come from SnakeYAML
   * when SnakeYAML reads the front matter.
   */
  lemma SplitAtCloser(content: string, yaml: YamlLoader, e: nat)
    requires StartsWith(content, "---")
    requires OccursAt(content, "\n---", e) && 3 <= e
    requires forall j :: 3 <= j < e ==> !OccursAt(content, "\n---", j)
    ensures var r := ParseSkill(content, yaml);
      var front := Trim(JavaTrim, content[3..e]);
      r.Success? ==>
        r.value.Some? && r.value.value.instruction == Some(Trim(JavaTrim, content[e + 4..])) &&
        (yaml(front).Some? ==> r.value.value.name == yaml(front).value.name)
  {
    FirstCloser(content, e);
    var front := Trim(JavaTrim, content[3..e]);
    var start := Fresh(Trim(JavaTrim, content[e + 4..]));
    var lines := JavaSplit(front, '\n');
    ParseSkillCut(content, yaml, e, front, start, lines);
    ApplyLinesKeeps(start, lines);
  }

  /** `parseSkillMd` once the closing `\n---` is found at `e`. */
  lemma ParseSkillCut(content: string, yaml: YamlLoader, e: int, front: string, start: SkillDefinition,
                      lines: seq<string>)
    requires StartsWith(content, Opener) && e == IndexOfFrom(content, Closer, 3) && e != -1
    requires front == Trim(JavaTrim, content[3..e]) && start == Fresh(Trim(JavaTrim, content[e + 4..]))
    requires lines == JavaSplit(front, '\n')
    ensures ParseSkill(content, yaml) == match ApplyLines(start, lines)
                                         case Failure(err) => Failure(err)
                                         case Success(def) => Success(Some(Override(def, yaml(front))))
  {
  }

  lemma FirstCloser(content: string, e: nat)
    requires OccursAt(content, "\n---", e) && 3 <= e
    requires forall j :: 3 <= j < e ==> !OccursAt(content, "\n---", j)
    ensures IndexOfFrom(content, Closer, 3) == e
  {
  }

  /** Ignored lines change nothing. */
  lemma {:induction false} IgnoredLinesKeep(def: SkillDefinition, lines: seq<string>)
    requires forall i :: 0 <= i < |lines| ==> Ignored(lines[i])
    ensures ApplyLines(def, lines) == Success(def)
  {
    if lines != [] {
      IgnoredLinesKeep(def, lines[..|lines| - 1]);
    }
  }

  /** Text that `trim()` leaves as it is: empty, or not starting or ending with a character up to U+0020. */
  predicate Untrimmed(s: string) {
    s == [] || (!IsTrimmed(JavaTrim, s[0]) && !IsTrimmed(JavaTrim, s[|s| - 1]))
  }

  lemma TrimUntrimmed(s: string)
    requires Untrimmed(s)
    ensures Trim(JavaTrim, s) == s
  {
  }

  /** A key the line parser reads as written: no colon, not a comment, nothing to trim. */
  predicate PlainKey(key: string) {
    key != [] && Untrimmed(key) && ':' !in key && key[0] != '#'
  }

  /** The first colon of `key + rest` is right after a colon-free key. */
  lemma ColonAfterKey(key: string, rest: string)
    requires key != [] && ':' !in key && rest != [] && rest[0] == ':'
    ensures IndexOf(key + rest, ":") == |key|
  {
    var line := key + rest;
    assert OccursAt(line, ":", |key|);
    forall j | 0 <= j < |key|
      ensures !OccursAt(line, ":", j)
    {
      assert line[j] == key[j];
    }
  }

  /** How a `key: value` line with a plain key and a value without surrounding blanks is cut up. */
  lemma KeyValueCut(key: string, value: string)
    requires PlainKey(key) && value != [] && Untrimmed(value)
    ensures var line := key + ": " + value;
      line[0] == key[0] && Trim(JavaTrim, line) == line && IndexOf(line, ":") == |key| &&
      Trim(JavaTrim, line[..|key|]) == key && Trim(JavaTrim, line[|key| + 1..]) == value
  {
    var line := key + ": " + value;
    assert line == key + (": " + value);
    assert line[..|key|] == key;
    assert line[|key| + 1..] == " " + value;
    assert line[0] == key[0] && line[|line| - 1] == value[|value| - 1];
    TrimUntrimmed(line);
    ColonAfterKey(key, ": " + value);
    TrimUntrimmed(key);
    TrimAfterBlank(value);
  }

  lemma TrimAfterBlank(value: string)
    requires Untrimmed(value)
    ensures Trim(JavaTrim, " " + value) == value
  {
    assert (" " + value)[1..] == value;
    TrimUntrimmed(value);
  }

  /** `applyLine` once the trimmed line, its first colon and the trimmed key and value are known. */
  lemma ApplyLineCut(def: SkillDefinition, raw: string, line: string, colon: int, key: string, value: string)
    requires line == Trim(JavaTrim, raw) && line != "" && line[0] != '#'
    requires colon == IndexOf(line, ":") && colon > 0
    requires key == Trim(JavaTrim, line[..colon]) && value == Trim(JavaTrim, line[colon + 1..])
    ensures ApplyLine(def, raw) == match Unquote(value)
                                   case None => Failure(LoneQuote(line))
                                   case Some(v) => Success(Assign(def, key, v))
  {
  }

  /** A line `key: value` with a plain key and an unquoted value assigns the value to the key. */
  lemma KeyValueLine(def: SkillDefinition, key: string, value: string)
    requires PlainKey(key)
    requires value != [] && Untrimmed(value) && value[0] != '"' && value[0] != '\''
    ensures ApplyLine(def, key + ": " + value) == Success(Assign(def, key, value))
  {
    KeyValueCut(key, value);
    PlainValue(value);
    ApplyKeyValue(def, key + ": " + value, key, value);
  }

  /** `applyLine` on a trimmed line whose first colon ends a key that is not a comment. */
  lemma ApplyKeyValue(def: SkillDefinition, line: string, key: string, value: string)
    requires line != "" && key != "" && line[0] == key[0] && key[0] != '#' && Trim(JavaTrim, line) == line
    requires IndexOf(line, ":") == |key|
    requires Trim(JavaTrim, line[..|key|]) == key && Trim(JavaTrim, line[|key| + 1..]) == value
    ensures ApplyLine(def, line) == match Unquote(value)
                                    case None => Failure(LoneQuote(line))
                                    case Some(v) => Success(Assign(def, key, v))
  {
    ApplyLineCut(def, line, line, |key|, key, value);
  }

  lemma PlainValue(value: string)
    requires value != [] && value[0] != '"' && value[0] != '\''
    ensures Unquote(value) == Some(value)
  {
    assert !StartsWith(value, "\"") && !StartsWith(value, "'");
  }

  /** A line whose first colon is at index 0 changes nothing. */
  lemma LeadingColonIgnored(def: SkillDefinition, raw: string)
    requires var line := Trim(JavaTrim, raw); |line| > 0 && line[0] == ':'
    ensures ApplyLine(def, raw) == Success(def)
  {
    var line := Trim(JavaTrim, raw);
    assert OccursAt(line, ":", 0);
  }

  /** A value that is one quote character makes the parse throw. */
  lemma LoneQuoteThrows(def: SkillDefinition, key: string, quote: char)
    requires PlainKey(key) && (quote == '"' || quote == '\'')
    ensures ApplyLine(def, key + ": " + [quote]) == Failure(LoneQuote(key + ": " + [quote]))
  {
    KeyValueCut(key, [quote]);
    LoneQuoteCannotBeCut(quote);
    ApplyKeyValue(def, key + ": " + [quote], key, [quote]);
  }

  lemma LoneQuoteCannotBeCut(quote: char)
    requires quote == '"' || quote == '\''
    ensures Unquote([quote]) == None
  {
    assert Quoted([quote]);
  }

  // ---------------------------------------------------------------------------
  // The code of a skill file
  // ---------------------------------------------------------------------------

  /** Java regex line terminators, which `.` does not match. */
  predicate IsLineTerminator(c: char) {
    c == '\n' || c == '\r' || c == '\U{85}' || c == '\U{2028}' || c == '\U{2029}'
  }

  const SkillsDir: string := "/skills/"
  const SkillFile: string := "/SKILL.md"

  /** The last `/`-free segment of `s` (all of `s` when it holds no `/`). */
  function LastSegment(s: string): (seg: string)
    ensures |seg| <= |s| && s[|s| - |seg|..] == seg
    ensures '/' !in seg
    ensures |seg| < |s| ==> s[|s| - |seg| - 1] == '/'
  {
    if s == [] || s[|s| - 1] == '/' then []
    else LastSegment(s[..|s| - 1]) + [s[|s| - 1]]
  }

  /** `s` up to and including its last line terminator (empty when it has none). */
  function UpToLastLineBreak(s: string): (r: string)
    ensures r <= s
    ensures forall i :: |r| <= i < |s| ==> !IsLineTerminator(s[i])
  {
    if s == [] || IsLineTerminator(s[|s| - 1]) then s
    else UpToLastLineBreak(s[..|s| - 1])
  }

  /**
   * `url.replaceAll(".*\/skills/([^/]+)/SKILL\\.md$", "$1")`: when the URL
   * ends with `/skills/<code>/SKILL.md` for a non-empty `/`-free code, the
   * match starts after the last line terminator before `/skills/` and is
   * replaced by the code; otherwise the URL is left as it is.
   */
  function SkillCode(url: string): (code: string)
  {
    if !EndsWith(url, SkillFile) then url
    else
      var dir := url[..|url| - |SkillFile|];
      var seg := LastSegment(dir);
      var pre := dir[..|dir| - |seg|];
      if seg != [] && EndsWith(pre, SkillsDir) then
        UpToLastLineBreak(pre[..|pre| - |SkillsDir|]) + seg
      else url
  }

  /** The directory name of `.../skills/<code>/SKILL.md` is the code. */
  lemma SkillCodeIsDirectory(prefix: string, code: string)
    requires code != [] && '/' !in code
    requires forall i :: 0 <= i < |prefix| ==> !IsLineTerminator(prefix[i])
    ensures SkillCode(prefix + SkillsDir + code + SkillFile) == code
  {
    var url := prefix + SkillsDir + code + SkillFile;
    assert url[|url| - |SkillFile|..] == SkillFile;
    var dir := url[..|url| - |SkillFile|];
    assert dir == prefix + SkillsDir + code;
    LastSegmentOf(prefix + SkillsDir, code);
    assert dir[..|dir| - |code|] == prefix + SkillsDir;
    assert (prefix + SkillsDir)[..|prefix|] == prefix;
    NoLineBreak(prefix);
  }

  lemma {:induction false} LastSegmentOf(pre: string, seg: string)
    requires seg != [] && '/' !in seg && |pre| > 0 && pre[|pre| - 1] == '/'
    ensures LastSegment(pre + seg) == seg
    decreases |seg|
  {
    var s := pre + seg;
    assert s[|s| - 1] == seg[|seg| - 1];
    assert s[..|s| - 1] == pre + seg[..|seg| - 1];
    if |seg| == 1 {
      assert pre + seg[..0] == pre;
    } else {
      LastSegmentOf(pre, seg[..|seg| - 1]);
    }
  }

  lemma {:induction false} NoLineBreak(s: string)
    requires forall i :: 0 <= i < |s| ==> !IsLineTerminator(s[i])
    ensures UpToLastLineBreak(s) == []
  {
    if s != [] {
      NoLineBreak(s[..|s| - 1]);
    }
  }

  // ---------------------------------------------------------------------------
  // Ordering by code (`Comparator.comparing(SkillDefinition::getCode)`)
  // ---------------------------------------------------------------------------

  /** `a.compareTo(b) < 0`: lexicographic by character, a proper prefix first. */
  predicate Precedes(a: string, b: string)
    decreases |a|
  {
    if a == [] then b != []
    else if b == [] then false
    else a[0] < b[0] || (a[0] == b[0] && Precedes(a[1..], b[1..]))
  }

  lemma {:induction false} PrecedesIrreflexive(a: string)
    ensures !Precedes(a, a)
    decreases |a|
  {
    if a != [] {
      PrecedesIrreflexive(a[1..]);
    }
  }

  lemma {:induction false} PrecedesTransitive(a: string, b: string, c: string)
    requires Precedes(a, b) && Precedes(b, c)
    ensures Precedes(a, c)
    decreases |a|
  {
    if a != [] && a[0] == b[0] && b[0] == c[0] {
      PrecedesTransitive(a[1..], b[1..], c[1..]);
    }
  }

  lemma {:induction false} PrecedesTotal(a: string, b: string)
    requires a != b
    ensures Precedes(a, b) || Precedes(b, a)
    decreases |a|
  {
    if a != [] && b != [] && a[0] == b[0] {
      assert a == [a[0]] + a[1..] && b == [b[0]] + b[1..];
      PrecedesTotal(a[1..], b[1..]);
    }
  }

  lemma PrecedesAsymmetric(a: string, b: string)
    ensures !(Precedes(a, b) && Precedes(b, a))
  {
    if Precedes(a, b) && Precedes(b, a) {
      PrecedesTransitive(a, b, a);
      PrecedesIrreflexive(a);
    }
  }

  /** The code that precedes every other code of the set. */
  predicate IsLeast(m: string, ks: set<string>) {
    m in ks && forall k :: k in ks && k != m ==> Precedes(m, k)
  }

  lemma {:induction false} LeastExists(ks: set<string>)
    requires ks != {}
    ensures exists m :: IsLeast(m, ks)
    decreases ks
  {
    var x :| x in ks;
    if ks == {x} {
      assert IsLeast(x, ks);
    } else {
      LeastExists(ks - {x});
      var y :| IsLeast(y, ks - {x});
      if Precedes(x, y) {
        forall k | k in ks && k != x
          ensures Precedes(x, k)
        {
          if k != y {
            PrecedesTransitive(x, y, k);
          }
        }
        assert IsLeast(x, ks);
      } else {
        PrecedesTotal(x, y);
        assert IsLeast(y, ks);
      }
    }
  }

  lemma LeastUnique(ks: set<string>)
    ensures forall m1, m2 :: IsLeast(m1, ks) && IsLeast(m2, ks) ==> m1 == m2
  {
    forall m1, m2 | IsLeast(m1, ks) && IsLeast(m2, ks)
      ensures m1 == m2
    {
      if m1 != m2 {
        PrecedesAsymmetric(m1, m2);
      }
    }
  }

  /** The codes in increasing order. */
  function SortedCodes(ks: set<string>): (r: seq<string>)
    ensures |r| == |ks|
    ensures forall c :: c in r <==> c in ks
    ensures forall i, j :: 0 <= i < j < |r| ==> Precedes(r[i], r[j])
    decreases ks
  {
    if ks == {} then []
    else
      LeastExists(ks);
      LeastUnique(ks);
      var m :| IsLeast(m, ks);
      [m] + SortedCodes(ks - {m})
  }

  // ---------------------------------------------------------------------------
  // The registry
  // ---------------------------------------------------------------------------

  /** A skill resource: its URL and its UTF-8 content. */
  datatype SkillFileEntry = SkillFileEntry(url: string, content: string)

  /** The registered form of a parsed definition: code and base path from the directory name. */
  function Registered(def: SkillDefinition, code: string): SkillDefinition {
    def.(code := Some(code), basePath := Some("skills/" + code))
  }

  /**
   * Loading the files in order: a file without front matter is skipped, a
   * parsed one is put under its code (replacing an earlier one), and a file
   * whose parse throws ends the loading, keeping what was registered.
   */
  function LoadAll(skills: map<string, SkillDefinition>, files: seq<SkillFileEntry>, yaml: YamlLoader)
    : map<string, SkillDefinition>
    decreases |files|
  {
    if files == [] then skills
    else
      var code := SkillCode(files[0].url);
      match ParseSkill(files[0].content, yaml)
      case Failure(_) => skills
      case Success(None) => LoadAll(skills, files[1..], yaml)
      case Success(Some(def)) => LoadAll(skills[code := Registered(def, code)], files[1..], yaml)
  }

  /** Every registered skill carries its own code and the base path `skills/<code>`. */
  ghost predicate WellRegistered(skills: map<string, SkillDefinition>) {
    forall c :: c in skills ==> skills[c].code == Some(c) && skills[c].basePath == Some("skills/" + c)
  }

  /** Loading keeps every skill registered under its own code and base path. */
  lemma {:induction false} LoadAllRegisters(skills: map<string, SkillDefinition>, files: seq<SkillFileEntry>,
                                            yaml: YamlLoader)
    requires WellRegistered(skills)
    ensures WellRegistered(LoadAll(skills, files, yaml))
    ensures skills.Keys <= LoadAll(skills, files, yaml).Keys
    decreases |files|
  {
    if files != [] {
      var code := SkillCode(files[0].url);
      match ParseSkill(files[0].content, yaml)
      case Failure(_) =>
      case Success(None) => LoadAllRegisters(skills, files[1..], yaml);
      case Success(Some(def)) =>
        var next := skills[code := Registered(def, code)];
        RegisterKeeps(skills, code, def);
        LoadAllRegisters(next, files[1..], yaml);
    }
  }

  /** Registering one definition under its code keeps the registry well registered. */
  lemma RegisterKeeps(skills: map<string, SkillDefinition>, code: string, def: SkillDefinition)
    requires WellRegistered(skills)
    ensures WellRegistered(skills[code := Registered(def, code)])
  {
    var next := skills[code := Registered(def, code)];
    forall c | c in next
      ensures next[c].code == Some(c) && next[c].basePath == Some("skills/" + c)
    {
      if c != code {
        assert next[c] == skills[c];
      }
    }
  }

  /** The definitions registered under `codes`, in that order. */
  function Values(skills: map<string, SkillDefinition>, codes: seq<string>): (r: seq<SkillDefinition>)
    requires forall i :: 0 <= i < |codes| ==> codes[i] in skills
    ensures |r| == |codes|
    ensures forall i :: 0 <= i < |codes| ==> r[i] == skills[codes[i]]
  {
    seq(|codes|, i requires 0 <= i < |codes| => skills[codes[i]])
  }

  lemma ValuesCoverKeys(skills: map<string, SkillDefinition>, codes: seq<string>)
    requires forall c :: c in codes <==> c in skills
    ensures forall i :: 0 <= i < |codes| ==> codes[i] in skills
    ensures forall c :: c in skills ==> skills[c] in Values(skills, codes)
  {
    forall c | c in skills
      ensures skills[c] in Values(skills, codes)
    {
      var i :| 0 <= i < |codes| && codes[i] == c;
      assert Values(skills, codes)[i] == skills[c];
    }
  }

  class Registry {
    /** `skills`: code to definition. */
    var skills: map<string, SkillDefinition>

    constructor()
      ensures skills == map[]
    {
      skills := map[];
    }

    /** `load`: read every skill file and register what parses. */
    method Load(files: seq<SkillFileEntry>, yaml: YamlLoader)
      modifies this
      ensures skills == LoadAll(old(skills), files, yaml)
    {
      var i := 0;
      while i < |files|
        invariant 0 <= i <= |files|
        invariant LoadAll(skills, files[i..], yaml) == LoadAll(old(skills), files, yaml)
      {
        assert files[i..][1..] == files[i + 1..];
        var code := SkillCode(files[i].url);
        var parsed := ParseSkillMd(files[i].content, yaml);
        if parsed.Failure? {
          return;
        }
        if parsed.value.Some? {
          skills := skills[code := Registered(parsed.value.value, code)];
        }
        i := i + 1;
      }
    }

    /** `list()`: every registered skill, in the order of the sorted codes. */
    function List(): (r: seq<SkillDefinition>)
      reads this
      ensures |r| == |skills|
      ensures forall i :: 0 <= i < |r| ==> SortedCodes(skills.Keys)[i] in skills &&
                                           r[i] == skills[SortedCodes(skills.Keys)[i]]
      ensures forall c :: c in skills ==> skills[c] in r
    {
      ValuesCoverKeys(skills, SortedCodes(skills.Keys));
      Values(skills, SortedCodes(skills.Keys))
    }

    /** `get(code)`: the skill registered under `code`, if any. */
    function Get(code: string): (r: Option<SkillDefinition>)
      reads this
      ensures r.Some? <==> code in skills
      ensures r.Some? ==> r.value == skills[code]
    {
      if code in skills then Some(skills[code]) else None
    }
  }

  /** The list of a registry whose skills carry their codes is sorted by code, strictly. */
  lemma ListSorted(r: Registry)
    requires WellRegistered(r.skills)
    ensures var l := r.List();
      forall i, j :: 0 <= i < j < |l| ==>
        l[i].code.Some? && l[j].code.Some? && Precedes(l[i].code.value, l[j].code.value)
  {
    var codes := SortedCodes(r.skills.Keys);
    var l := r.List();
    forall i, j | 0 <= i < j < |l|
      ensures l[i].code.Some? && l[j].code.Some? && Precedes(l[i].code.value, l[j].code.value)
    {
      assert l[i].code == Some(codes[i]) && l[j].code == Some(codes[j]);
    }
  }
}
