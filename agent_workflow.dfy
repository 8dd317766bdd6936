// Model of AgentWorkflowService: the orchestration behind the chat endpoint.
// A question is routed to a skill; a data query is turned into a structured
// query request by the model, compiled by the safe query builder with the
// unrestricted "ALL" scope, executed and recorded in a conversation; a
// knowledge question is answered by retrieval and recorded the same way;
// a chart request gets a fixed placeholder; small talk goes to the
// multi-round chat. Conversations and messages live in a store whose ids
// are their positions.

module AgentWorkflow {
  import opened Common
  import opened Text
  import opened SafeQueryBuilder
  import opened SkillRegistry
  import opened IntentRouter
  import HiAgent
  import SqlPatterns

  // ---------------------------------------------------------------------------
  // generateQuerySpec
  // ---------------------------------------------------------------------------

  /** The system prompt used when no `data_query` skill supplies an instruction. */
  const FallbackPrompt: string :=
    "\U{4F60}\U{662F}\U{94F6}\U{884C}\U{6570}\U{636E}\U{67E5}\U{8BE2}\U{52A9}\U{624B}\U{3002}\U{8BF7}\U{5C06}\U{7528}\U{6237}\U{67E5}\U{8BE2}\U{9700}\U{6C42}\U{8F6C}\U{6362}\U{4E3A}\U{4E00}\U{4E2A}JSON\U{5BF9}\U{8C61}\U{FF0C}\U{5B57}\U{6BB5}\U{5982}\U{4E0B}\U{FF1A}\n" +
    "{\n" +
    "  \"table\": \"\U{8868}\U{540D}\U{FF08}\U{4F8B}\U{5982} deposit, loan, transaction\U{FF09}\",\n" +
    "  \"columns\": [\"\U{5217}1\", \"\U{5217}2\", \"\U{53EF}\U{4F7F}\U{7528}\U{805A}\U{5408}\U{51FD}\U{6570}\U{5982} SUM(amount) as total\"],\n" +
    "  \"filters\": [{\"column\":\"\U{5217}\U{540D}\",\"operator\":\"=|!=|>|<|>=|<=|LIKE|IN\",\"value\":\"\U{503C}\"}],\n" +
    "  \"groupBy\": [\"\U{5217}\U{540D}\"],\n" +
    "  \"orderBy\": [\"\U{5217}\U{540D} ASC|DESC\"],\n" +
    "  \"limit\": 50\n" +
    "}\n" +
    "\U{53EA}\U{8FD4}\U{56DE}\U{5408}\U{6CD5}JSON\U{FF0C}\U{52FF}\U{5305}\U{542B}\U{5176}\U{4ED6}\U{6587}\U{5B57}\U{3002}\n" +
    "\U{5982}\U{7528}\U{6237}\U{672A}\U{7ED9}\U{51FA}\U{660E}\U{786E}\U{5217}\U{4E0E}\U{6761}\U{4EF6}\U{FF0C}\U{8BF7}\U{5408}\U{7406}\U{8865}\U{5168}\U{9ED8}\U{8BA4}\U{5217}\U{4E0E}\U{9650}\U{5236}\U{6761}\U{4EF6}\U{3002}\n"

  /** The code of the skill whose instruction becomes the query prompt. */
  const DataQuerySkill: string := "data_query"

  /** The heading put between the instruction and the schema's JSON text. */
  const SchemaHeading: string := "\n\n## Dynamic Schema (Whitelist)\n"

  /** The registered instruction, followed by the schema when the skill has one. */
  function WithSchema(instruction: string, schema: Option<string>): string {
    if schema.Some? then instruction + SchemaHeading + schema.value else instruction
  }

  /**
   * The system prompt: the registered data-query instruction with its schema
   * appended, or the fallback when the skill or its instruction is missing.
   */
  function QueryPrompt(registry: Registry): (p: string)
    reads registry
    ensures DataQuerySkill !in registry.skills || registry.skills[DataQuerySkill].instruction.None? ==>
              p == FallbackPrompt
    ensures DataQuerySkill in registry.skills && registry.skills[DataQuerySkill].instruction.Some? ==>
              var skill := registry.skills[DataQuerySkill];
              skill.instruction.value <= p &&
              (skill.schema.None? ==> p == skill.instruction.value) &&
              (skill.schema.Some? ==> p[|skill.instruction.value|..] == SchemaHeading + skill.schema.value)
  {
    match registry.Get(DataQuerySkill)
    case Some(skill) => if skill.instruction.Some? then WithSchema(skill.instruction.value, skill.schema) else FallbackPrompt
    case None => FallbackPrompt
  }

  /**
   * The default request as written: table `deposit`, columns `["*"]`, limit
   * 50. The builder's column sanitiser does not accept "*", so this request
   * selects the constant 1 (see `WrittenFallbackSelectsOne`).
   */
  const WrittenFallbackQuery: QueryRequest := QueryRequest(Some("deposit"), Some(["*"]), None, None, None, Some(50))

  /**
   * The default request as intended: every column of `deposit`, 50 rows.
   * Leaving the column list out makes the builder write "*".
   */
  const FallbackQuery: QueryRequest := QueryRequest(Some("deposit"), None, None, None, None, Some(50))

  const JsonFence: string := "```json"

  /** A reply that starts with a fence loses every "```json" and "```", then is trimmed. */
  function StripFences(content: string): string {
    if StartsWith(content, HiAgent.Fence) then
      Trim(JavaTrim, ReplaceAll(ReplaceAll(content, JsonFence, ""), HiAgent.Fence, ""))
    else content
  }

  /** After stripping, a reply that started with a fence holds no fence at all; any other reply is kept. */
  lemma StripFencesRemovesFences(content: string)
    ensures StartsWith(content, HiAgent.Fence) ==> !Contains(StripFences(content), HiAgent.Fence)
    ensures !StartsWith(content, HiAgent.Fence) ==> StripFences(content) == content
  {
    if StartsWith(content, HiAgent.Fence) {
      var u := ReplaceAll(ReplaceAll(content, JsonFence, ""), HiAgent.Fence, "");
      assert IsRun(HiAgent.Fence);
      RemoveAllLeavesNone(ReplaceAll(content, JsonFence, ""), HiAgent.Fence);
      HiAgent.TrimKeepsNoFence(u);
    }
  }

  /** Removing the closing fence from a text without backquotes leaves the text. */
  lemma {:induction false} ClosingFenceRemoved(body: string)
    requires '`' !in body
    ensures ReplaceAll(body + HiAgent.Fence, HiAgent.Fence, "") == body
    decreases |body|
  {
    if body == [] {
      assert body + HiAgent.Fence == HiAgent.Fence;
      assert HiAgent.Fence[3..] == [];
    } else {
      var s := body + HiAgent.Fence;
      assert s[0] == body[0] && s[1..] == body[1..] + HiAgent.Fence;
      assert !StartsWith(s, HiAgent.Fence) by { assert s[..3][0] != HiAgent.Fence[0]; }
      RemoveAllKeepsHead(s, HiAgent.Fence);
      ClosingFenceRemoved(body[1..]);
      assert [body[0]] + body[1..] == body;
    }
  }

  /** A text without backquotes followed by a fence holds no "```json". */
  lemma NoJsonFenceAfterOpening(body: string)
    requires '`' !in body
    ensures !Contains(body + HiAgent.Fence, JsonFence)
  {
    var s := body + HiAgent.Fence;
    forall i | 0 <= i <= |s| - |JsonFence|
      ensures !OccursAt(s, JsonFence, i)
    {
      assert i < |body|;
      assert s[i..i + 7][0] == s[i] == body[i];
    }
  }

  /**
   * The usual fenced reply "```json" + body + "```", with a body free of
   * backquotes, is reduced to the trimmed body.
   */
  lemma FencedReplyUnwrapped(body: string)
    requires '`' !in body
    ensures StripFences(JsonFence + body + HiAgent.Fence) == Trim(JavaTrim, body)
  {
    var content := JsonFence + body + HiAgent.Fence;
    var tail := body + HiAgent.Fence;
    assert content == JsonFence + tail;
    assert StartsWith(content, HiAgent.Fence) by { assert content[..3] == HiAgent.Fence; }
    assert content[..7] == JsonFence && content[7..] == tail;
    NoJsonFenceAfterOpening(body);
    assert ReplaceAll(content, JsonFence, "") == tail;
    ClosingFenceRemoved(body);
  }

  /**
   * What `generateQuerySpec` returns: the request parsed from the model's
   * first choice (fences stripped), or the fallback request when the call,
   * the choice, its content or the parse fails.
   */
  function QuerySpec(chat: Chat, parse: HiAgent.Parser, prompt: string, query: string): (q: QueryRequest)
    ensures var reply := chat(prompt, query);
      reply.None? || reply.value == [] || reply.value[0].None? ==> q == WrittenFallbackQuery
    ensures var reply := chat(prompt, query);
      q == WrittenFallbackQuery ||
      (reply.Some? && reply.value != [] && reply.value[0].Some? &&
       parse(StripFences(reply.value[0].value)) == Some(q))
  {
    var reply := chat(prompt, query);
    if reply.None? || reply.value == [] || reply.value[0].None? then WrittenFallbackQuery
    else
      match parse(StripFences(reply.value[0].value))
      case Some(q) => q
      case None => WrittenFallbackQuery
  }

  /** The request `deposit` with limit 50 compiles to `<select list> FROM deposit LIMIT 50`. */
  lemma DepositQuerySql(columns: Option<seq<string>>)
    ensures Compile(QueryRequest(Some("deposit"), columns, None, None, None, Some(50)), Some("ALL")) ==
            Success("SELECT " + ColumnList(columns) + " FROM deposit LIMIT 50")
  {
    var req := QueryRequest(Some("deposit"), columns, None, None, None, Some(50));
    NoScopeCondition(Some("ALL"));
    assert IsWord("deposit");
    BareQuery(req, Some("ALL"));
    LimitFifty();
    FromDeposit("SELECT " + ColumnList(columns));
  }

  /** A limit of 50 is written as ` LIMIT 50`. */
  lemma LimitFifty()
    ensures LimitClause(Some(50)) == " LIMIT 50"
  {
    assert NatToString(50) == "50" by {
      assert NatToString(5) == "5";
    }
  }

  /** The FROM and LIMIT text of the deposit request, regrouped. */
  lemma FromDeposit(select: string)
    ensures select + " FROM " + "deposit" + " LIMIT 50" == select + " FROM deposit LIMIT 50"
  {
    AppendAssoc(select, " FROM ", "deposit");
    AppendAssoc(select, " FROM deposit", " LIMIT 50");
    assert " FROM deposit" + " LIMIT 50" == " FROM deposit LIMIT 50";
  }

  /** As written, the fallback request compiles to a read of the constant 1, not of every column. */
  lemma WrittenFallbackSelectsOne()
    ensures Compile(WrittenFallbackQuery, Some("ALL")) == Success("SELECT " + "1" + " FROM deposit LIMIT 50")
  {
    StarListIsOne("*");
    DepositQuerySql(Some(["*"]));
  }

  /** A column list holding only `*` is rewritten to the constant 1. */
  lemma StarListIsOne(star: string)
    requires star == "*"
    ensures ColumnList(Some([star])) == "1"
  {
    assert !IsWordChar(star[0]);
    SqlPatterns.ShortIsNotAggregate(star);
    assert SqlPatterns.SanitizeColumn(star) == "1";
    assert ProjectedItems([star]) == ["1"];
  }

  /** The intended fallback request compiles to a plain 50-row read of every column of `deposit`. */
  lemma FallbackQuerySql()
    ensures Compile(FallbackQuery, Some("ALL")) == Success("SELECT " + "*" + " FROM deposit LIMIT 50")
  {
    DepositQuerySql(None);
  }

  /** The "ALL" scope the workflow passes adds no branch condition: the SQL is the unscoped one. */
  lemma WorkflowQueryIsUnscoped(req: QueryRequest)
    ensures Compile(req, Some("ALL")) == Compile(req, None)
  {
    NoScopeCondition(Some("ALL"));
    NoScopeCondition(None);
  }

  // ---------------------------------------------------------------------------
  // Conversations and messages
  // ---------------------------------------------------------------------------

  datatype Conversation = Conversation(userId: Option<int>, moduleName: string, title: string, status: int, messageCount: int)

  datatype Message = Message(conversationId: nat, kind: string, content: Option<string>, queryText: Option<string>, intent: Option<string>)

  /** The conversation title: the query, cut to 50 characters plus "..." when longer. */
  function Title(query: string): (t: string)
    ensures |t| <= 53
    ensures |query| <= 50 ==> t == query
    ensures |query| > 50 ==> |t| == 53 && t[..50] == query[..50] && t[50..] == "..."
  {
    if |query| > 50 then query[..50] + "..." else query
  }

  /** The number of stored messages that belong to conversation `id`. */
  function CountOf(messages: seq<Message>, id: nat): (n: nat)
    ensures n <= |messages|
  {
    if messages == [] then 0
    else CountOf(messages[..|messages| - 1], id) + (if messages[|messages| - 1].conversationId == id then 1 else 0)
  }

  /** Every message belongs to a stored conversation, and each conversation counts its messages. */
  predicate Consistent(conversations: seq<Conversation>, messages: seq<Message>) {
    (forall m :: m in messages ==> m.conversationId < |conversations|) &&
    (forall i :: 0 <= i < |conversations| ==> conversations[i].messageCount == CountOf(messages, i))
  }

  /** Appending a message counts it for its own conversation only. */
  lemma CountOfSnoc(messages: seq<Message>, m: Message, id: nat)
    ensures CountOf(messages + [m], id) == CountOf(messages, id) + (if m.conversationId == id then 1 else 0)
  {
    assert (messages + [m])[..|messages|] == messages;
  }

  /** A conversation nobody refers to counts no message. */
  lemma {:induction false} CountOfAbsent(messages: seq<Message>, id: nat)
    requires forall m :: m in messages ==> m.conversationId != id
    ensures CountOf(messages, id) == 0
    decreases |messages|
  {
    if messages != [] {
      assert forall m :: m in messages[..|messages| - 1] ==> m in messages;
      CountOfAbsent(messages[..|messages| - 1], id);
      assert messages[|messages| - 1] in messages;
    }
  }

  /**
   * The conversation a data or knowledge turn writes to: the given one when
   * it exists (an unknown id throws), otherwise a new one with status 1, no
   * messages yet and the query's title, stored at the next position.
   */
  function Opened(conversations: seq<Conversation>, id: Option<nat>, userId: Option<int>, moduleName: string, query: string)
    : (r: Result<(nat, seq<Conversation>), WorkflowError>)
    ensures id.Some? ==> (r.Failure? <==> id.value >= |conversations|)
    ensures r.Failure? ==> r.error == ConversationMissing
    ensures r.Success? ==> r.value.0 < |r.value.1| && conversations <= r.value.1
    ensures id.Some? && r.Success? ==> r.value == (id.value, conversations)
    ensures id.None? ==> (r.Success? && r.value.0 == |conversations| &&
      r.value.1[r.value.0] == Conversation(userId, moduleName, Title(query), 1, 0))
  {
    match id
    case Some(i) => if i < |conversations| then Success((i, conversations)) else Failure(ConversationMissing)
    case None => Success((|conversations|, conversations + [Conversation(userId, moduleName, Title(query), 1, 0)]))
  }

  /** Opening a conversation keeps the store consistent. */
  lemma OpenedKeepsConsistent(conversations: seq<Conversation>, messages: seq<Message>, id: Option<nat>,
                              userId: Option<int>, moduleName: string, query: string)
    requires Consistent(conversations, messages)
    requires Opened(conversations, id, userId, moduleName, query).Success?
    ensures Consistent(Opened(conversations, id, userId, moduleName, query).value.1, messages)
  {
    if id.None? {
      var cs := Opened(conversations, id, userId, moduleName, query).value.1;
      CountOfAbsent(messages, |conversations|);
      forall i | 0 <= i < |cs|
        ensures cs[i].messageCount == CountOf(messages, i)
      {
        if i < |conversations| {
          assert cs[i] == conversations[i];
        }
      }
    }
  }

  // ---------------------------------------------------------------------------
  // Turns
  // ---------------------------------------------------------------------------

  /** Why `execute` throws. */
  datatype WorkflowError =
    | ConversationMissing        // findById found nothing
    | BuildFailed(BuildError)    // buildSql rejected the generated request
    | QueryFailed(string)        // the JDBC call failed
    | KnowledgeFailed(string)    // the knowledge service failed
    | ChatFailed(string)         // the multi-round chat failed
    | NullContent                // requireNonNull on the chat reply's content

  /** One retrieved document as the knowledge service lists it: id, title and file type. */
  datatype Source = Source(id: int, title: string, fileType: string)

  /**
   * The map `execute` returns; absent keys are `None`. The message is
   * `None` where the map holds a null message (a null knowledge answer).
   */
  datatype Reply = Reply(
    intent: string,
    intentName: string,
    kind: string,
    message: Option<string>,
    conversationId: Option<nat>,
    messageId: Option<nat>,
    sql: Option<string>,
    rowCount: Option<nat>,
    sources: Option<seq<Source>>)

  /**
   * The answer of a recorded turn (its text may be null), with the SQL and
   * row count of a data query and the sources of a knowledge answer.
   */
  datatype Answer = Answer(text: Option<string>, sql: Option<string>, rowCount: Option<nat>,
                           sources: Option<seq<Source>>)

  /** The `type` entry of the reply, also the module of a new conversation. */
  function Kind(t: SkillType): string {
    match t
    case DataQuery => "data"
    case KnowledgeBase => "knowledge"
    case ChartGeneration => "chart"
    case ChitChat => "text"
  }

  /**
   * A recorded turn in conversation `cid`: the user message is saved first;
   * if the answer fails the error propagates with that message kept; else
   * the assistant message is saved, the count grows by two and the reply
   * points at the assistant message.
   */
  function Turn(conversations: seq<Conversation>, messages: seq<Message>, cid: nat, query: string,
                t: SkillType, answer: Result<Answer, WorkflowError>)
    : (Result<Reply, WorkflowError>, seq<Conversation>, seq<Message>)
    requires cid < |conversations|
  {
    var user := Message(cid, "user", Some(query), None, None);
    match answer
    case Failure(e) => (Failure(e), conversations, messages + [user])
    case Success(a) =>
      var ai := Message(cid, "assistant", a.text, Some(query), Some(Code(t)));
      var c := conversations[cid];
      (Success(Reply(Code(t), Name(t), Kind(t), a.text, Some(cid), Some(|messages| + 1), a.sql, a.rowCount, a.sources)),
       conversations[cid := c.(messageCount := c.messageCount + 2)],
       messages + [user, ai])
  }

  /**
   * A turn keeps the history, adds one message (failure) or two (success)
   * to conversation `cid`, and the reply's message id names the stored
   * assistant message, whose text is the reply's message.
   */
  lemma TurnBookkeeping(conversations: seq<Conversation>, messages: seq<Message>, cid: nat, query: string,
                        t: SkillType, answer: Result<Answer, WorkflowError>)
    requires cid < |conversations|
    ensures var (r, cs, ms) := Turn(conversations, messages, cid, query, t, answer);
      |cs| == |conversations| && messages <= ms &&
      |ms| == |messages| + (if answer.Success? then 2 else 1) &&
      (forall k :: |messages| <= k < |ms| ==> ms[k].conversationId == cid) &&
      ms[|messages|] == Message(cid, "user", Some(query), None, None) &&
      (forall j :: 0 <= j < |cs| && j != cid ==> cs[j] == conversations[j]) &&
      (answer.Failure? ==> r == Failure(answer.error) && cs == conversations) &&
      (answer.Success? ==>
        r.Success? && r.value.messageId == Some(|messages| + 1) &&
        ms[|messages| + 1].kind == "assistant" && ms[|messages| + 1].content == r.value.message &&
        cs[cid].messageCount == conversations[cid].messageCount + 2)
  {
  }

  /** A successful turn keeps the store consistent. */
  lemma SuccessfulTurnKeepsConsistent(conversations: seq<Conversation>, messages: seq<Message>, cid: nat,
                                      query: string, t: SkillType, a: Answer)
    requires cid < |conversations| && Consistent(conversations, messages)
    ensures var (_, cs, ms) := Turn(conversations, messages, cid, query, t, Success(a));
      Consistent(cs, ms)
  {
    var (_, cs, ms) := Turn(conversations, messages, cid, query, t, Success(a));
    var user := Message(cid, "user", Some(query), None, None);
    var ai := Message(cid, "assistant", a.text, Some(query), Some(Code(t)));
    assert ms == messages + [user] + [ai];
    forall i | 0 <= i < |cs|
      ensures cs[i].messageCount == CountOf(ms, i)
    {
      CountOfSnoc(messages, user, i);
      CountOfSnoc(messages + [user], ai, i);
    }
  }

  /**
   * A failed turn leaves the saved user message uncounted: a consistent
   * store becomes inconsistent, since nothing rolls the first save back.
   */
  lemma FailedTurnLeavesMessageUncounted(conversations: seq<Conversation>, messages: seq<Message>, cid: nat,
                                         query: string, t: SkillType, e: WorkflowError)
    requires cid < |conversations| && Consistent(conversations, messages)
    ensures var (_, cs, ms) := Turn(conversations, messages, cid, query, t, Failure(e));
      CountOf(ms, cid) == cs[cid].messageCount + 1 && !Consistent(cs, ms)
  {
    CountOfSnoc(messages, Message(cid, "user", Some(query), None, None), cid);
  }

  // ---------------------------------------------------------------------------
  // The data-query answer
  // ---------------------------------------------------------------------------

  /** JDBC `queryForList`: rows or an error. */
  type Jdbc = string -> Result<seq<Row>, string>

  /** Jackson's `writeValueAsString` on a list of rows; `None` when it throws. */
  type Serializer = seq<Row> -> Option<string>

  const PreviewError: string := "[preview serialization error]"
  const AnswerHead: string := "\U{5DF2}\U{6267}\U{884C}\U{6570}\U{636E}\U{67E5}\U{8BE2}\U{FF0C}\U{8FD4}\U{56DE} "
  const AnswerMiddle: string := " \U{884C}\U{3002}\U{9884}\U{89C8}\U{FF1A}"

  /** The preview: the first five rows serialised, or the error text. */
  function Preview(serialize: Serializer, rows: seq<Row>): (p: string)
    ensures p == PreviewError || serialize(Take(rows, 5)) == Some(p)
    ensures serialize(Take(rows, 5)).None? ==> p == PreviewError
  {
    match serialize(Take(rows, 5))
    case Some(s) => s
    case None => PreviewError
  }

  /** The preview never covers more than five rows, and they are the first ones. */
  lemma PreviewIsFirstFive(rows: seq<Row>)
    ensures |Take(rows, 5)| <= 5 && Take(rows, 5) <= rows
    ensures |rows| <= 5 ==> Take(rows, 5) == rows
  {
  }

  function DataAnswerText(rowCount: nat, preview: string): string {
    AnswerHead + NatToString(rowCount) + AnswerMiddle + preview
  }

  /**
   * When the model gives no usable reply, the data branch runs the default
   * request as written, which selects the constant 1 from `deposit`.
   */
  lemma NoReplyRunsSelectOne(chat: Chat, parse: HiAgent.Parser, prompt: string, query: string, jdbc: Jdbc,
                             serialize: Serializer)
    requires chat(prompt, query).None?
    ensures var r := DataAnswer(QuerySpec(chat, parse, prompt, query), jdbc, serialize);
      r.Success? ==> r.value.sql == Some("SELECT " + "1" + " FROM deposit LIMIT 50")
  {
    WrittenFallbackSelectsOne();
    WorkflowQueryIsUnscoped(WrittenFallbackQuery);
  }

  /** The row count reads back from the answer text, right after its fixed head. */
  lemma RowCountReadsBack(rowCount: nat, preview: string)
    ensures var text := DataAnswerText(rowCount, preview);
      var k := |NatToString(rowCount)|;
      StartsWith(text, AnswerHead) && |AnswerHead| + k <= |text| &&
      AllDigits(text[|AnswerHead|..|AnswerHead| + k]) &&
      DigitsValue(text[|AnswerHead|..|AnswerHead| + k]) == rowCount
  {
    var digits := NatToString(rowCount);
    var text := DataAnswerText(rowCount, preview);
    assert text == AnswerHead + (digits + (AnswerMiddle + preview));
    assert text[..|AnswerHead|] == AnswerHead;
    assert text[|AnswerHead|..|AnswerHead| + |digits|] == digits;
    NatToStringRoundTrip(rowCount);
  }

  /** The data branch after the conversation is open: compile with "ALL", run, describe. */
  function DataAnswer(req: QueryRequest, jdbc: Jdbc, serialize: Serializer): (r: Result<Answer, WorkflowError>)
    ensures Compile(req, Some("ALL")).Failure? ==> r == Failure(BuildFailed(Compile(req, Some("ALL")).error))
    ensures Compile(req, Some("ALL")).Success? && jdbc(Compile(req, None).value).Failure? ==>
      r == Failure(QueryFailed(jdbc(Compile(req, None).value).error))
    ensures r.Success? ==>
      Compile(req, Some("ALL")).Success? && r.value.sql == Some(Compile(req, None).value) &&
      jdbc(r.value.sql.value).Success? && r.value.rowCount == Some(|jdbc(r.value.sql.value).value|) &&
      var rows := jdbc(r.value.sql.value).value;
      r.value.text == Some(DataAnswerText(|rows|, Preview(serialize, rows))) && r.value.sources.None?
  {
    WorkflowQueryIsUnscoped(req);
    match Compile(req, Some("ALL"))
    case Failure(e) => Failure(BuildFailed(e))
    case Success(sql) =>
      match jdbc(sql)
      case Failure(m) => Failure(QueryFailed(m))
      case Success(rows) =>
        Success(Answer(Some(DataAnswerText(|rows|, Preview(serialize, rows))), Some(sql), Some(|rows|), None))
  }

  // ---------------------------------------------------------------------------
  // The knowledge answer
  // ---------------------------------------------------------------------------

  /**
   * The map `knowledgeService.ask` returns. An absent key is `None`; the
   * `answer` entry may be present and null, which is `Some(None)`.
   */
  datatype RagResult = RagResult(answer: Option<Option<string>>, sources: Option<seq<Source>>)

  /** `knowledgeService.ask`: the result map, or the message of the exception it throws. */
  type Knowledge = (string, Option<int>) -> Result<RagResult, string>

  const NoKnowledge: string :=
    "\U{62B1}\U{6B49}\U{FF0C}\U{77E5}\U{8BC6}\U{5E93}\U{4E2D}\U{6682}\U{65F6}\U{6CA1}\U{6709}\U{76F8}\U{5173}\U{4FE1}\U{606F}"

  /**
   * The knowledge branch: the retrieved answer as it is (null included), or
   * the apology when the map has no `answer` entry; the sources pass through.
   */
  function KnowledgeAnswer(ask: Knowledge, query: string, userId: Option<int>): (r: Result<Answer, WorkflowError>)
    ensures ask(query, userId).Failure? <==> r.Failure?
    ensures ask(query, userId).Failure? ==> r == Failure(KnowledgeFailed(ask(query, userId).error))
    ensures r.Success? ==> r.value.sql.None? && r.value.rowCount.None?
    ensures r.Success? ==> r.value.sources == ask(query, userId).value.sources
    ensures r.Success? && ask(query, userId).value.answer.Some? ==> r.value.text == ask(query, userId).value.answer.value
    ensures r.Success? && ask(query, userId).value.answer.None? ==> r.value.text == Some(NoKnowledge)
  {
    match ask(query, userId)
    case Failure(m) => Failure(KnowledgeFailed(m))
    case Success(rag) =>
      Success(Answer(if rag.answer.Some? then rag.answer.value else Some(NoKnowledge), None, None, rag.sources))
  }

  /**
   * A null answer from the knowledge service is saved as an assistant
   * message without content and returned as a null message, with the
   * service's sources.
   */
  lemma NullKnowledgeAnswerKept(conversations: seq<Conversation>, messages: seq<Message>, cid: nat,
                                ask: Knowledge, query: string, userId: Option<int>, sources: Option<seq<Source>>)
    requires cid < |conversations|
    requires ask(query, userId) == Success(RagResult(Some(None), sources))
    ensures var (r, _, ms) := Turn(conversations, messages, cid, query, KnowledgeBase, KnowledgeAnswer(ask, query, userId));
      r.Success? && r.value.message.None? && r.value.sources == sources && r.value.kind == "knowledge" &&
      ms[|messages| + 1] == Message(cid, "assistant", None, Some(query), Some(Code(KnowledgeBase)))
  {
  }

  // ---------------------------------------------------------------------------
  // The chart and chat branches
  // ---------------------------------------------------------------------------

  const ChartMessage: string :=
    "\U{8BC6}\U{522B}\U{4E3A}\U{56FE}\U{8868}\U{751F}\U{6210}\U{610F}\U{56FE}\U{FF0C}\U{6B63}\U{5728}\U{5F00}\U{53D1}\U{56FE}\U{8868}\U{6A21}\U{5757}... (Mock: \U{5DF2}\U{751F}\U{6210}\U{997C}\U{56FE})"

  /** The message `multiRoundChat` returns: content (possibly null) and its ids. */
  datatype ChatMessage = ChatMessage(content: Option<string>, conversationId: nat, messageId: nat)

  /**
   * `HiAgentService.chat` on the system prompt of a conversation's module and
   * its recent history: the first choice's content (possibly null), or the
   * message of the exception the call throws.
   */
  type HistoryChat = (string, seq<Message>) -> Result<Option<string>, string>

  /** The reply of a chart request: the placeholder text and nothing else. */
  function ChartReply(): (r: Reply)
    ensures r.kind == Kind(ChartGeneration) && r.message == Some(ChartMessage)
    ensures r.conversationId.None? && r.messageId.None? && r.sql.None? && r.rowCount.None? && r.sources.None?
  {
    Reply(Code(ChartGeneration), Name(ChartGeneration), Kind(ChartGeneration), Some(ChartMessage), None, None, None, None, None)
  }

  /** The reply of small talk: the chat message's content and ids, or the failure. */
  function ChatReply(m: Result<ChatMessage, string>): (r: Result<Reply, WorkflowError>)
    ensures m.Failure? ==> r == Failure(ChatFailed(m.error))
    ensures m.Success? && m.value.content.None? ==> r == Failure(NullContent)
    ensures r.Success? ==>
      m.Success? && r.value.message == m.value.content && r.value.message.Some? &&
      r.value.kind == Kind(ChitChat) && r.value.sources.None? &&
      r.value.conversationId == Some(m.value.conversationId) && r.value.messageId == Some(m.value.messageId)
  {
    match m
    case Failure(e) => Failure(ChatFailed(e))
    case Success(msg) =>
      if msg.content.None? then Failure(NullContent)
      else Success(Reply(Code(ChitChat), Name(ChitChat), Kind(ChitChat), msg.content,
                         Some(msg.conversationId), Some(msg.messageId), None, None, None))
  }

  /** The messages of conversation `cid`, oldest first. */
  function MessagesOf(messages: seq<Message>, cid: nat): (r: seq<Message>)
    ensures |r| == CountOf(messages, cid)
    ensures forall m :: m in r ==> m in messages && m.conversationId == cid
  {
    if messages == [] then []
    else
      var last := messages[|messages| - 1];
      MessagesOf(messages[..|messages| - 1], cid) + (if last.conversationId == cid then [last] else [])
  }

  /** The history a chat turn sends: the last 20 messages of conversation `cid`, oldest first. */
  function Recent(messages: seq<Message>, cid: nat): (r: seq<Message>)
    ensures |r| == if CountOf(messages, cid) < 20 then CountOf(messages, cid) else 20
    ensures forall m :: m in r ==> m in messages && m.conversationId == cid
  {
    var h := MessagesOf(messages, cid);
    h[(if |h| < 20 then 0 else |h| - 20)..]
  }

  /** The message just saved to a conversation is the last one of the history sent with the turn. */
  lemma {:induction false} RecentEndsWithSaved(messages: seq<Message>, m: Message)
    ensures var h := Recent(messages + [m], m.conversationId); |h| > 0 && h[|h| - 1] == m
  {
    assert (messages + [m])[..|messages|] == messages;
    CountOfSnoc(messages, m, m.conversationId);
  }

  /**
   * `multiRoundChat(query, null, conversationId, userId)` as `execute` calls
   * it, one transaction: the conversation is found (an unknown id throws) or
   * created with the default module "deposit"; the user message is saved; the
   * model answers the conversation's last 20 messages; the assistant message
   * is saved and the count grows by two. An exception rolls everything back.
   * A null answer is stored and committed, and then `execute` throws on it.
   */
  function ChatTurn(conversations: seq<Conversation>, messages: seq<Message>, conversationId: Option<nat>,
                    userId: Option<int>, query: string, chat: HistoryChat)
    : (Result<Reply, WorkflowError>, seq<Conversation>, seq<Message>)
  {
    match Opened(conversations, conversationId, userId, "deposit", query)
    case Failure(e) => (Failure(e), conversations, messages)
    case Success((cid, cs)) =>
      var ms := messages + [Message(cid, "user", Some(query), None, None)];
      match chat(cs[cid].moduleName, Recent(ms, cid))
      case Failure(e) => (ChatReply(Failure(e)), conversations, messages)
      case Success(content) => Committed(cs, ms, cid, query, content)
  }

  /** The end of a chat turn: the answer is saved after the user message, and the turn is counted. */
  function Committed(conversations: seq<Conversation>, messages: seq<Message>, cid: nat, query: string,
                     content: Option<string>)
    : (Result<Reply, WorkflowError>, seq<Conversation>, seq<Message>)
    requires cid < |conversations|
  {
    var c := conversations[cid];
    (ChatReply(Success(ChatMessage(content, cid, |messages|))),
     conversations[cid := c.(messageCount := c.messageCount + 2)],
     messages + [Message(cid, "assistant", content, Some(query), None)])
  }

  /**
   * A chat turn that fails leaves the store as it was: an unknown id throws
   * before anything is saved, and a failed model call rolls the saves back.
   * The history the model is asked about ends with the user's message.
   */
  lemma ChatTurnRollsBack(conversations: seq<Conversation>, messages: seq<Message>, conversationId: Option<nat>,
                          userId: Option<int>, query: string, chat: HistoryChat)
    ensures var (r, cs, ms) := ChatTurn(conversations, messages, conversationId, userId, query, chat);
      var o := Opened(conversations, conversationId, userId, "deposit", query);
      (o.Failure? ==> r == Failure(ConversationMissing) && cs == conversations && ms == messages) &&
      (o.Success? ==>
        var user := Message(o.value.0, "user", Some(query), None, None);
        var sent := Recent(messages + [user], o.value.0);
        |sent| > 0 && sent[|sent| - 1] == user &&
        (chat(o.value.1[o.value.0].moduleName, sent).Failure? ==>
          r == Failure(ChatFailed(chat(o.value.1[o.value.0].moduleName, sent).error)) &&
          cs == conversations && ms == messages))
  {
    var o := Opened(conversations, conversationId, userId, "deposit", query);
    if o.Success? {
      RecentEndsWithSaved(messages, Message(o.value.0, "user", Some(query), None, None));
    }
  }

  /**
   * A chat turn whose model call answers commits the user message and the
   * answer to the opened conversation and counts both, changing no other
   * conversation; the reply points at the stored answer, and a null answer
   * fails after the commit.
   */
  lemma ChatTurnCommits(conversations: seq<Conversation>, messages: seq<Message>, conversationId: Option<nat>,
                        userId: Option<int>, query: string, chat: HistoryChat, cid: nat, existing: seq<Conversation>,
                        answer: Option<string>)
    requires Opened(conversations, conversationId, userId, "deposit", query) == Success((cid, existing))
    requires chat(existing[cid].moduleName, Recent(messages + [Message(cid, "user", Some(query), None, None)], cid)) ==
             Success(answer)
    ensures var (r, cs, ms) := ChatTurn(conversations, messages, conversationId, userId, query, chat);
      ms == messages + [Message(cid, "user", Some(query), None, None),
                        Message(cid, "assistant", answer, Some(query), None)] &&
      |cs| == |existing| && cs[cid].messageCount == existing[cid].messageCount + 2 &&
      (forall j :: 0 <= j < |cs| && j != cid ==> cs[j] == existing[j]) &&
      (answer.None? ==> r == Failure(NullContent)) &&
      (answer.Some? ==> r.Success? && r.value.message == answer &&
                        r.value.conversationId == Some(cid) && r.value.messageId == Some(|messages| + 1) &&
                        ms[|messages| + 1].content == answer)
  {
    var user := Message(cid, "user", Some(query), None, None);
    var ai := Message(cid, "assistant", answer, Some(query), None);
    var (r, cs, ms) := ChatTurn(conversations, messages, conversationId, userId, query, chat);
    assert ms == messages + [user] + [ai];
    assert r == ChatReply(Success(ChatMessage(answer, cid, |messages| + 1)));
  }

  /** Unlike a data or knowledge turn, a chat turn keeps a consistent store consistent whatever its outcome. */
  lemma ChatTurnKeepsConsistent(conversations: seq<Conversation>, messages: seq<Message>, conversationId: Option<nat>,
                                userId: Option<int>, query: string, chat: HistoryChat)
    requires Consistent(conversations, messages)
    ensures Consistent(ChatTurn(conversations, messages, conversationId, userId, query, chat).1,
                       ChatTurn(conversations, messages, conversationId, userId, query, chat).2)
  {
    var o := Opened(conversations, conversationId, userId, "deposit", query);
    if o.Success? {
      var (cid, cs0) := o.value;
      OpenedKeepsConsistent(conversations, messages, conversationId, userId, "deposit", query);
      var user := Message(cid, "user", Some(query), None, None);
      var answer := chat(cs0[cid].moduleName, Recent(messages + [user], cid));
      if answer.Success? {
        ChatTurnCommits(conversations, messages, conversationId, userId, query, chat, cid, cs0, answer.value);
        var (_, cs, ms) := ChatTurn(conversations, messages, conversationId, userId, query, chat);
        PairKeepsConsistent(cs0, messages, cid, user, Message(cid, "assistant", answer.value, Some(query), None), cs, ms);
      }
    }
  }

  /** Saving two messages of one conversation and counting both keeps the store consistent. */
  lemma PairKeepsConsistent(conversations: seq<Conversation>, messages: seq<Message>, cid: nat, first: Message,
                            second: Message, cs: seq<Conversation>, ms: seq<Message>)
    requires Consistent(conversations, messages) && cid < |conversations|
    requires first.conversationId == cid && second.conversationId == cid
    requires ms == messages + [first, second]
    requires |cs| == |conversations| && cs[cid].messageCount == conversations[cid].messageCount + 2
    requires forall j :: 0 <= j < |cs| && j != cid ==> cs[j] == conversations[j]
    ensures Consistent(cs, ms)
  {
    assert ms == messages + [first] + [second];
    forall i | 0 <= i < |cs|
      ensures cs[i].messageCount == CountOf(ms, i)
    {
      CountOfSnoc(messages, first, i);
      CountOfSnoc(messages + [first], second, i);
    }
  }

  // ---------------------------------------------------------------------------
  // The store and execute
  // ---------------------------------------------------------------------------

  /** The conversation and message repositories; an entity's id is its position. */
  class Store {
    var conversations: seq<Conversation>
    var messages: seq<Message>

    constructor()
      ensures conversations == [] && messages == []
    {
      conversations := [];
      messages := [];
    }

    /** Find the conversation by id, or create and save a new one. */
    method Open(id: Option<nat>, userId: Option<int>, moduleName: string, query: string)
      returns (r: Result<nat, WorkflowError>)
      modifies this
      ensures messages == old(messages)
      ensures var o := Opened(old(conversations), id, userId, moduleName, query);
        (o.Failure? ==> r == Failure(o.error) && conversations == old(conversations)) &&
        (o.Success? ==> r == Success(o.value.0) && conversations == o.value.1)
    {
      if id.Some? {
        if id.value < |conversations| {
          r := Success(id.value);
        } else {
          r := Failure(ConversationMissing);
        }
      } else {
        conversations := conversations + [Conversation(userId, moduleName, Title(query), 1, 0)];
        r := Success(|conversations| - 1);
      }
    }

    /** `messageRepository.save`: the message is stored at the next position. */
    method Save(m: Message) returns (id: nat)
      modifies this
      ensures id == |old(messages)| && messages == old(messages) + [m]
      ensures conversations == old(conversations)
    {
      id := |messages|;
      messages := messages + [m];
    }

    /** A transaction's rollback: the repositories return to the given contents. */
    method Restore(savedConversations: seq<Conversation>, savedMessages: seq<Message>)
      modifies this
      ensures conversations == savedConversations && messages == savedMessages
    {
      conversations := savedConversations;
      messages := savedMessages;
    }

    /** Count the two messages of a completed turn. */
    method CountTurn(cid: nat)
      requires cid < |conversations|
      modifies this
      ensures conversations == old(conversations[cid := conversations[cid].(messageCount := conversations[cid].messageCount + 2)])
      ensures messages == old(messages)
    {
      var c := conversations[cid];
      conversations := conversations[cid := c.(messageCount := c.messageCount + 2)];
    }
  }

  /** A recorded turn as the service performs it, save after save. */
  method RecordTurn(store: Store, cid: nat, query: string, t: SkillType, answer: Result<Answer, WorkflowError>)
    returns (r: Result<Reply, WorkflowError>)
    requires cid < |store.conversations|
    modifies store
    ensures (r, store.conversations, store.messages) == Turn(old(store.conversations), old(store.messages), cid, query, t, answer)
  {
    var _ := store.Save(Message(cid, "user", Some(query), None, None));
    if answer.Failure? {
      return Failure(answer.error);
    }
    var text := answer.value.text;
    var messageId := store.Save(Message(cid, "assistant", text, Some(query), Some(Code(t))));
    store.CountTurn(cid);
    assert store.messages == old(store.messages) + [Message(cid, "user", Some(query), None, None), Message(cid, "assistant", text, Some(query), Some(Code(t)))];
    r := Success(Reply(Code(t), Name(t), Kind(t), text, Some(cid), Some(messageId), answer.value.sql, answer.value.rowCount,
                       answer.value.sources));
  }

  /** The chit-chat branch of `execute`: the transactional `multiRoundChat`, save after save. */
  method RecordChat(store: Store, chat: HistoryChat, query: string, userId: Option<int>, conversationId: Option<nat>)
    returns (r: Result<Reply, WorkflowError>)
    modifies store
    ensures (r, store.conversations, store.messages) ==
            ChatTurn(old(store.conversations), old(store.messages), conversationId, userId, query, chat)
    ensures old(Consistent(store.conversations, store.messages)) ==> Consistent(store.conversations, store.messages)
  {
    if Consistent(store.conversations, store.messages) {
      ChatTurnKeepsConsistent(store.conversations, store.messages, conversationId, userId, query, chat);
    }
    var savedConversations, savedMessages := store.conversations, store.messages;
    var open := store.Open(conversationId, userId, "deposit", query);
    if open.Failure? {
      return Failure(open.error);
    }
    var cid := open.value;
    ghost var existing := store.conversations;
    assert Opened(savedConversations, conversationId, userId, "deposit", query) == Success((cid, existing));
    var user := Message(cid, "user", Some(query), None, None);
    var _ := store.Save(user);
    var answer := chat(store.conversations[cid].moduleName, Recent(store.messages, cid));
    ghost var turn := ChatTurn(savedConversations, savedMessages, conversationId, userId, query, chat);
    if answer.Failure? {
      assert turn == (ChatReply(Failure(answer.error)), savedConversations, savedMessages);
      store.Restore(savedConversations, savedMessages);
      return ChatReply(Failure(answer.error));
    }
    assert turn == Committed(store.conversations, store.messages, cid, query, answer.value);
    r := CommitChat(store, cid, query, answer.value);
  }

  /** The commit of a chat turn on the store. */
  method CommitChat(store: Store, cid: nat, query: string, content: Option<string>)
    returns (r: Result<Reply, WorkflowError>)
    requires cid < |store.conversations|
    modifies store
    ensures (r, store.conversations, store.messages) ==
            Committed(old(store.conversations), old(store.messages), cid, query, content)
  {
    var messageId := store.Save(Message(cid, "assistant", content, Some(query), None));
    store.CountTurn(cid);
    r := ChatReply(Success(ChatMessage(content, cid, messageId)));
  }

  /** The answer a recorded branch computes, after the user message is saved. */
  function BranchAnswer(t: SkillType, registry: Registry, specChat: Chat, parse: HiAgent.Parser, jdbc: Jdbc,
                        serialize: Serializer, ask: Knowledge, query: string, userId: Option<int>)
    : Result<Answer, WorkflowError>
    reads registry
  {
    if t == DataQuery then DataAnswer(QuerySpec(specChat, parse, QueryPrompt(registry), query), jdbc, serialize)
    else KnowledgeAnswer(ask, query, userId)
  }

  /**
   * The data and knowledge branches of `execute`: open the conversation,
   * then record the turn with the branch's answer.
   */
  method RecordedBranch(store: Store, t: SkillType, answer: Result<Answer, WorkflowError>,
                        query: string, userId: Option<int>, conversationId: Option<nat>)
    returns (r: Result<Reply, WorkflowError>)
    requires t == DataQuery || t == KnowledgeBase
    modifies store
    ensures var o := Opened(old(store.conversations), conversationId, userId, Kind(t), query);
      (o.Failure? ==> r == Failure(ConversationMissing) && store.conversations == old(store.conversations) && store.messages == old(store.messages)) &&
      (o.Success? ==> (r, store.conversations, store.messages) ==
                      Turn(o.value.1, old(store.messages), o.value.0, query, t, answer))
    ensures old(Consistent(store.conversations, store.messages)) && r.Success? ==>
      Consistent(store.conversations, store.messages)
  {
    ghost var conversations0 := store.conversations;
    ghost var messages0 := store.messages;
    var open := store.Open(conversationId, userId, Kind(t), query);
    if open.Failure? {
      return Failure(open.error);
    }
    var cid := open.value;
    ghost var conversations1 := store.conversations;
    r := RecordTurn(store, cid, query, t, answer);
    if Consistent(conversations0, messages0) && r.Success? {
      OpenedKeepsConsistent(conversations0, messages0, conversationId, userId, Kind(t), query);
      SuccessfulTurnKeepsConsistent(conversations1, messages0, cid, query, t, answer.value);
    }
  }

  /** The dispatch of `execute` on the routed skill type `t`. */
  method Dispatch(store: Store, t: SkillType, registry: Registry, specChat: Chat, parse: HiAgent.Parser,
                  jdbc: Jdbc, serialize: Serializer, ask: Knowledge, chat: HistoryChat,
                  query: string, userId: Option<int>, conversationId: Option<nat>)
    returns (r: Result<Reply, WorkflowError>)
    modifies store
    ensures r.Success? ==> r.value.intent == Code(t) && r.value.intentName == Name(t) && r.value.kind == Kind(t)
    ensures t == ChartGeneration ==>
      r == Success(ChartReply()) && store.conversations == old(store.conversations) && store.messages == old(store.messages)
    ensures t == ChitChat ==>
      (r, store.conversations, store.messages) ==
      ChatTurn(old(store.conversations), old(store.messages), conversationId, userId, query, chat)
    ensures (t == DataQuery || t == KnowledgeBase) ==>
      var o := Opened(old(store.conversations), conversationId, userId, Kind(t), query);
      (o.Failure? ==> r == Failure(ConversationMissing) &&
                      store.conversations == old(store.conversations) && store.messages == old(store.messages)) &&
      (o.Success? ==>
        (r, store.conversations, store.messages) ==
        Turn(o.value.1, old(store.messages), o.value.0, query, t,
             BranchAnswer(t, registry, specChat, parse, jdbc, serialize, ask, query, userId)))
    ensures old(Consistent(store.conversations, store.messages)) && r.Success? ==>
      Consistent(store.conversations, store.messages)
  {
    if t == ChartGeneration {
      return Success(ChartReply());
    } else if t == ChitChat {
      r := RecordChat(store, chat, query, userId, conversationId);
      return;
    }
    var answer := BranchAnswer(t, registry, specChat, parse, jdbc, serialize, ask, query, userId);
    r := RecordedBranch(store, t, answer, query, userId, conversationId);
  }

  /**
   * `execute`: route the query, then dispatch. Data and knowledge turns
   * open a conversation and record the turn; an unknown conversation id
   * throws before anything is saved; charts leave the store as it was;
   * small talk is a chat turn that commits both messages or nothing; every
   * reply carries the routed intent's code and name; a
   * consistent store stays consistent after a successful turn.
   */
  method Execute(store: Store, registry: Registry, routeChat: Chat, specChat: Chat, parse: HiAgent.Parser,
                 jdbc: Jdbc, serialize: Serializer, ask: Knowledge, chat: HistoryChat,
                 query: string, userId: Option<int>, conversationId: Option<nat>)
    returns (r: Result<Reply, WorkflowError>, t: SkillType)
    modifies store
    ensures t == Route(routeChat, registry, query)
    ensures r.Success? ==> r.value.intent == Code(t) && r.value.intentName == Name(t) && r.value.kind == Kind(t)
    ensures t == ChartGeneration ==>
      r == Success(ChartReply()) && store.conversations == old(store.conversations) && store.messages == old(store.messages)
    ensures t == ChitChat ==>
      (r, store.conversations, store.messages) ==
      ChatTurn(old(store.conversations), old(store.messages), conversationId, userId, query, chat)
    ensures (t == DataQuery || t == KnowledgeBase) ==>
      var o := Opened(old(store.conversations), conversationId, userId, Kind(t), query);
      (o.Failure? ==> r == Failure(ConversationMissing) &&
                      store.conversations == old(store.conversations) && store.messages == old(store.messages)) &&
      (o.Success? ==>
        (r, store.conversations, store.messages) ==
        Turn(o.value.1, old(store.messages), o.value.0, query, t,
             BranchAnswer(t, registry, specChat, parse, jdbc, serialize, ask, query, userId)))
    ensures old(Consistent(store.conversations, store.messages)) && r.Success? ==>
      Consistent(store.conversations, store.messages)
  {
    t := Route(routeChat, registry, query);
    r := Dispatch(store, t, registry, specChat, parse, jdbc, serialize, ask, chat, query, userId, conversationId);
  }
}
