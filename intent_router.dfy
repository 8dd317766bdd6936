/**
 * The intent router: the registered skills are listed in a system prompt,
 * the model answers with a skill code, and the answer is cleaned of
 * Markdown backticks and matched, ignoring case, against the codes of the
 * fixed skill types. Anything that cannot be matched, and any failure of
 * the call, routes to chit-chat.
 */
module IntentRouter {
  import opened Common
  import opened Text
  import opened SkillRegistry

  // ---------------------------------------------------------------------------
  // The skill types
  // ---------------------------------------------------------------------------

  /** The `SkillType` enum, its constants in declaration order. */
  datatype SkillType = ChitChat | DataQuery | KnowledgeBase | ChartGeneration

  /** `values()` */
  const Types: seq<SkillType> := [ChitChat, DataQuery, KnowledgeBase, ChartGeneration]

  /** `getCode()` */
  function Code(t: SkillType): string {
    match t
    case ChitChat => "chit_chat"
    case DataQuery => "data_query"
    case KnowledgeBase => "knowledge_base"
    case ChartGeneration => "chart_generation"
  }

  /** `getName()` */
  function Name(t: SkillType): string {
    match t
    case ChitChat => "\U{95F2}\U{804A}"
    case DataQuery => "\U{6570}\U{636E}\U{67E5}\U{8BE2}"
    case KnowledgeBase => "\U{77E5}\U{8BC6}\U{95EE}\U{7B54}"
    case ChartGeneration => "\U{56FE}\U{8868}\U{751F}\U{6210}"
  }

  /** `name()`: the constant's identifier. */
  function ConstantName(t: SkillType): string {
    match t
    case ChitChat => "CHIT_CHAT"
    case DataQuery => "DATA_QUERY"
    case KnowledgeBase => "KNOWLEDGE_BASE"
    case ChartGeneration => "CHART_GENERATION"
  }

  /** `SkillType.valueOf(name)`; `None` is the `IllegalArgumentException`. */
  function ValueOf(name: string): (r: Option<SkillType>)
    ensures r.Some? ==> ConstantName(r.value) == name
    ensures r.None? ==> forall t: SkillType :: ConstantName(t) != name
  {
    if name == "CHIT_CHAT" then Some(ChitChat)
    else if name == "DATA_QUERY" then Some(DataQuery)
    else if name == "KNOWLEDGE_BASE" then Some(KnowledgeBase)
    else if name == "CHART_GENERATION" then Some(ChartGeneration)
    else None
  }

  /** Every type is listed by `values()`. */
  lemma TypesComplete(t: SkillType)
    ensures t in Types
  {
  }

  /** No two codes are equal ignoring case (their lengths differ). */
  lemma CodesDistinct(t: SkillType, u: SkillType)
    requires EqualsIgnoreCase(Code(t), Code(u))
    ensures t == u
  {
    assert |Upper(Code(t))| == |Code(t)| && |Upper(Code(u))| == |Code(u)|;
  }

  /** Each constant's identifier is its code in upper case. */
  lemma ConstantNameIsUpperCode(t: SkillType)
    ensures ConstantName(t) == Upper(Code(t))
  {
    var c, n := Code(t), ConstantName(t);
    assert |Upper(c)| == |n|;
    forall i | 0 <= i < |n|
      ensures Upper(c)[i] == n[i]
    {
      assert Upper(c)[i] == UpperChar(c[i]);
    }
  }

  // ---------------------------------------------------------------------------
  // parseIntent
  // ---------------------------------------------------------------------------

  /** `content.replace("`", "").trim()` */
  function Clean(content: string): string {
    Trim(JavaTrim, ReplaceAll(content, "`", ""))
  }

  /** The first type of `types` whose code equals `cleaned` ignoring case. */
  function FirstMatch(cleaned: string, types: seq<SkillType>): (r: Option<SkillType>)
    ensures r.Some? ==> r.value in types && EqualsIgnoreCase(cleaned, Code(r.value))
    ensures r.None? <==> forall t :: t in types ==> !EqualsIgnoreCase(cleaned, Code(t))
  {
    if types == [] then None
    else if EqualsIgnoreCase(cleaned, Code(types[0])) then Some(types[0])
    else FirstMatch(cleaned, types[1..])
  }

  /**
   * The decision of `parseIntent` on the cleaned answer: a registered skill
   * code that, in upper case, is a constant's identifier gives that
   * constant; otherwise the first type whose code equals the answer
   * ignoring case; otherwise chit-chat.
   */
  function Resolve(cleaned: string, registered: set<string>): SkillType {
    if cleaned in registered && ValueOf(Upper(cleaned)).Some? then ValueOf(Upper(cleaned)).value
    else
      match FirstMatch(cleaned, Types)
      case Some(t) => t
      case None => ChitChat
  }

  /** `parseIntent`: the answer cleaned, then resolved. */
  function Intent(content: string, registered: set<string>): SkillType {
    Resolve(Clean(content), registered)
  }

  /** `parseIntent` as written. */
  method ParseIntent(registry: Registry, content: string) returns (t: SkillType)
    ensures t == Intent(content, registry.skills.Keys)
  {
    var cleaned := Trim(JavaTrim, ReplaceAll(content, "`", ""));
    t := ResolveCleaned(registry, cleaned);
  }

  /** The registry lookup and `valueOf`, then the loop over `values()`. */
  method ResolveCleaned(registry: Registry, cleaned: string) returns (t: SkillType)
    ensures t == Resolve(cleaned, registry.skills.Keys)
  {
    if registry.Get(cleaned).Some? {
      var v := ValueOf(Upper(cleaned));
      if v.Some? {
        return v.value;
      }
    }
    var found := MatchCode(cleaned);
    t := if found.Some? then found.value else ChitChat;
  }

  /** The `for (SkillType type : SkillType.values())` loop of `parseIntent`. */
  method MatchCode(cleaned: string) returns (r: Option<SkillType>)
    ensures r == FirstMatch(cleaned, Types)
  {
    var i := 0;
    while i < |Types|
      invariant 0 <= i <= |Types|
      invariant FirstMatch(cleaned, Types[i..]) == FirstMatch(cleaned, Types)
    {
      assert Types[i..][1..] == Types[i + 1..];
      if EqualsIgnoreCase(cleaned, Code(Types[i])) {
        return Some(Types[i]);
      }
      i := i + 1;
    }
    return None;
  }

  /** The `valueOf` path and the loop agree: `valueOf` finds only what the loop finds. */
  lemma ConsistentPaths(cleaned: string)
    requires ValueOf(Upper(cleaned)).Some?
    ensures FirstMatch(cleaned, Types) == ValueOf(Upper(cleaned))
  {
    var v := ValueOf(Upper(cleaned)).value;
    ConstantNameIsUpperCode(v);
    assert EqualsIgnoreCase(cleaned, Code(v));
    var m := FirstMatch(cleaned, Types);
    TypesComplete(v);
    CodesDistinct(m.value, v);
  }

  /** The registry lookup never changes the routed type. */
  lemma RegistryIrrelevant(content: string, registered: set<string>)
    ensures Intent(content, registered) == Intent(content, {})
  {
    var cleaned := Clean(content);
    if ValueOf(Upper(cleaned)).Some? {
      ConsistentPaths(cleaned);
    }
  }

  /**
   * An answer that equals a type's code ignoring case, once cleaned, routes
   * to that type; an answer that equals no code routes to chit-chat.
   */
  lemma IntentMatchesCode(content: string, registered: set<string>)
    ensures forall t :: EqualsIgnoreCase(Clean(content), Code(t)) ==> Intent(content, registered) == t
    ensures (forall t :: !EqualsIgnoreCase(Clean(content), Code(t))) ==> Intent(content, registered) == ChitChat
  {
    RegistryIrrelevant(content, registered);
    var cleaned := Clean(content);
    forall t | EqualsIgnoreCase(cleaned, Code(t))
      ensures Intent(content, registered) == t
    {
      TypesComplete(t);
      var m := FirstMatch(cleaned, Types).value;
      CodesDistinct(m, t);
    }
  }

  /** The cleaned answer holds no backtick. */
  lemma CleanHasNoBacktick(content: string)
    ensures !Contains(Clean(content), "`")
  {
    var removed := ReplaceAll(content, "`", "");
    RemoveAllLeavesNone(content, "`");
    var i, j :| 0 <= i <= j <= |removed| && Clean(content) == removed[i..j];
    SliceKeepsAbsence(removed, "`", i, j);
  }

  /** A code wrapped in backticks, in any letter case, routes to its type. */
  lemma BacktickedCode(t: SkillType, s: string, registered: set<string>)
    requires EqualsIgnoreCase(s, Code(t))
    ensures Intent("`" + s + "`", registered) == t
  {
    CodeSpellingIsPlain(t, s);
    UnwrapBackticks(s);
    IntentMatchesCode("`" + s + "`", registered);
  }

  /** Any spelling of a code has no backtick and nothing to trim. */
  lemma CodeSpellingIsPlain(t: SkillType, s: string)
    requires EqualsIgnoreCase(s, Code(t))
    ensures s != [] && forall i :: 0 <= i < |s| ==> s[i] != '`' && s[i] > ' '
  {
    var c := Code(t);
    assert |Upper(s)| == |s| && |Upper(c)| == |c|;
    forall i | 0 <= i < |s|
      ensures s[i] != '`' && s[i] > ' '
    {
      assert Upper(s)[i] == UpperChar(s[i]) && Upper(c)[i] == UpperChar(c[i]);
    }
  }

  /** Cleaning a backtick-wrapped word without backticks or blanks gives the word. */
  lemma UnwrapBackticks(s: string)
    requires s != [] && forall i :: 0 <= i < |s| ==> s[i] != '`' && s[i] > ' '
    ensures Clean("`" + s + "`") == s
  {
    forall k | 0 <= k <= |s| - 1
      ensures !OccursAt(s, "`", k)
    {
      assert s[k..k + 1] == [s[k]];
    }
    assert !Contains(s, "`");
    var tick := "`";
    var w := tick + s;
    assert ReplaceAll(s, tick, "") == s;
    assert ReplaceAll(tick, tick, "") == "";
    RemoveCharAppend(tick, s, '`');
    assert ReplaceAll(w, tick, "") == s;
    RemoveCharAppend(w, tick, '`');
    assert ReplaceAll(w + tick, tick, "") == s;
    TrimUntrimmed(s);
  }

  // ---------------------------------------------------------------------------
  // The router prompt
  // ---------------------------------------------------------------------------

  const PromptHead: string :=
    "\U{4F60}\U{662F}\U{4E00}\U{4E2A}\U{667A}\U{80FD}\U{610F}\U{56FE}\U{8BC6}\U{522B}\U{52A9}\U{624B}\U{3002}" +
    "\U{8BF7}\U{5206}\U{6790}\U{7528}\U{6237}\U{7684}\U{8F93}\U{5165}\U{FF0C}\U{5E76}\U{5C06}\U{5176}\U{5206}" +
    "\U{7C7B}\U{4E3A}\U{4EE5}\U{4E0B}\U{7C7B}\U{522B}\U{4E4B}\U{4E00}\U{FF1A}\n\n"
  const KeywordsHead: string := "  (\U{89E6}\U{53D1}\U{8BCD}: "
  const ChitChatLine: string :=
    "- chit_chat: \U{666E}\U{901A}\U{95F2}\U{804A}\U{6216}\U{65E0}\U{6CD5}\U{5F52}\U{7C7B}\U{5230}\U{4E0A}\U{8FF0}" +
    "\U{610F}\U{56FE}\U{7684}\U{67E5}\U{8BE2}\n"
  const PromptTail: string :=
    "\n\U{53EA}\U{8FD4}\U{56DE}\U{7C7B}\U{522B}\U{4EE3}\U{7801}\U{FF08}\U{4F8B}\U{5982} 'data_query'\U{FF09}" +
    "\U{FF0C}\U{4E0D}\U{8981}\U{8FD4}\U{56DE}\U{4EFB}\U{4F55}\U{5176}\U{4ED6}\U{89E3}\U{91CA}\U{6216}\U{6587}" +
    "\U{5B57}\U{3002}"

  /** `StringBuilder.append` of a possibly `null` string. */
  function Appended(s: Option<string>): string {
    match s
    case Some(v) => v
    case None => "null"
  }

  /** The head of a skill's entry: `- <code>: `. */
  function EntryHead(skill: SkillDefinition): string {
    "- " + Appended(skill.code) + ": "
  }

  /** A skill's entry: code and description, then its trigger keywords when it has any. */
  function Entry(skill: SkillDefinition): string {
    var line := EntryHead(skill) + Appended(skill.description) + "\n";
    match skill.triggerKeywords
    case Some(keywords) =>
      if keywords != [] then line + KeywordsHead + Join(keywords, ", ") + ")\n" else line
    case None => line
  }

  /** The entries of the skills, in order. */
  function Entries(skills: seq<SkillDefinition>): string {
    if skills == [] then "" else Entries(skills[..|skills| - 1]) + Entry(skills[|skills| - 1])
  }

  /** `buildRouterPrompt` */
  function RouterPrompt(skills: seq<SkillDefinition>): string {
    PromptHead + Entries(skills) + ChitChatLine + PromptTail
  }

  /** `buildRouterPrompt` as written: a `StringBuilder` filled in a loop over the skills of `list()`. */
  method BuildRouterPrompt(skills: seq<SkillDefinition>) returns (prompt: string)
    ensures prompt == RouterPrompt(skills)
  {
    var sb := PromptHead;
    var i := 0;
    while i < |skills|
      invariant 0 <= i <= |skills|
      invariant sb == PromptHead + Entries(skills[..i])
    {
      assert skills[..i + 1][..i] == skills[..i];
      var skill := skills[i];
      var line := "- " + Appended(skill.code) + ": " + Appended(skill.description) + "\n";
      if skill.triggerKeywords.Some? && skill.triggerKeywords.value != [] {
        line := line + KeywordsHead + Join(skill.triggerKeywords.value, ", ") + ")\n";
      }
      assert line == Entry(skill);
      assert Entries(skills[..i + 1]) == Entries(skills[..i]) + line;
      AppendAssoc(PromptHead, Entries(skills[..i]), line);
      sb := sb + line;
      i := i + 1;
    }
    assert skills[..i] == skills;
    prompt := sb + ChitChatLine + PromptTail;
  }

  /** Every entry is part of the entries. */
  lemma {:induction false} EntriesContain(skills: seq<SkillDefinition>, i: int)
    requires 0 <= i < |skills|
    ensures Contains(Entries(skills), Entry(skills[i]))
  {
    var init := skills[..|skills| - 1];
    var last := skills[|skills| - 1];
    assert Entries(skills) == Entries(init) + Entry(last) + "";
    if i == |skills| - 1 {
      ContainsPiece(Entries(init), Entry(last), "");
    } else {
      assert skills[i] == init[i];
      EntriesContain(init, i);
      ContainsAppend(Entries(init), Entry(skills[i]), Entry(last));
    }
  }

  /** The prompt names every listed skill's code and always offers chit-chat. */
  lemma PromptListsSkills(skills: seq<SkillDefinition>)
    ensures forall i :: 0 <= i < |skills| ==> Contains(RouterPrompt(skills), EntryHead(skills[i]))
    ensures Contains(RouterPrompt(skills), ChitChatLine)
  {
    var p := RouterPrompt(skills);
    assert p == PromptHead + Entries(skills) + (ChitChatLine + PromptTail);
    forall i | 0 <= i < |skills|
      ensures Contains(p, EntryHead(skills[i]))
    {
      var e := Entry(skills[i]);
      EntriesContain(skills, i);
      ContainsPiece(EntryHead(skills[i]), Appended(skills[i].description) + "\n", "");
      assert Contains(e, EntryHead(skills[i])) by {
        assert e[..|EntryHead(skills[i])|] == EntryHead(skills[i]);
        assert OccursAt(e, EntryHead(skills[i]), 0);
      }
      ContainsPiece(PromptHead, Entries(skills), ChitChatLine + PromptTail);
      ContainsTrans(p, Entries(skills), e);
      ContainsTrans(p, e, EntryHead(skills[i]));
    }
    assert p == PromptHead + Entries(skills) + ChitChatLine + PromptTail;
    ContainsPiece(PromptHead + Entries(skills), ChitChatLine, PromptTail);
  }

  // ---------------------------------------------------------------------------
  // route
  // ---------------------------------------------------------------------------

  /**
   * The completion call with the system prompt and the user query: `None`
   * when it throws or returns no response, otherwise the content of each
   * choice (`None` where a choice's message or content is `null`).
   */
  type Chat = (string, string) -> Option<seq<Option<string>>>

  /** `route`: the trimmed content of the first choice is parsed; every failure falls back to chit-chat. */
  function Route(chat: Chat, registry: Registry, query: string): (t: SkillType)
    reads registry
    ensures var reply := chat(RouterPrompt(registry.List()), query);
      reply.None? || reply.value == [] || reply.value[0].None? ==> t == ChitChat
    ensures var reply := chat(RouterPrompt(registry.List()), query);
      reply.Some? && reply.value != [] && reply.value[0].Some? ==>
        t == Intent(Trim(JavaTrim, reply.value[0].value), registry.skills.Keys)
  {
    match chat(RouterPrompt(registry.List()), query)
    case None => ChitChat
    case Some(choices) =>
      if choices == [] then ChitChat
      else
        match choices[0]
        case None => ChitChat
        case Some(content) => Intent(Trim(JavaTrim, content), registry.skills.Keys)
  }
}
