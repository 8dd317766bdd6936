# Verified model of the natural-language-to-SQL pipeline of a banking BI platform

This project models, in Dafny, the core of a banking business-intelligence
platform. A user asks a question in Chinese or English. The platform routes it
to a skill, asks a language model for a structured query, compiles that query
into one safe SQL string restricted to the user's data scope, and runs it. When
the query fails it asks the model for a repaired one, at most ten times in all.
It masks sensitive columns in the rows it gets back and chooses a chart or a
table for them. Around this pipeline it keeps the skill registry, the
conversation records, the schema and data ingestion helpers, the pin panels of
the back end and the pinned board and knowledge base of the front end.

One Dafny module models each source file:

| module | file | models |
|---|---|---|
| `SafeQueryBuilder`, `SqlPatterns` | `safe_query_builder.dfy`, `sql_patterns.dfy` | `buildSql`: identifier and operator whitelists, value quoting, the scope condition, the clause shapes and the limit clamp; the column, ORDER BY and quoted-literal patterns as scanners with their grammars |
| `SqlLexer` | `sql_lexer.dfy` | how MySQL reads the compiled query (comments and quoted literals), the comment a `--` in an unquoted date expression opens, and the corrected value formatter |
| `DataMasking` | `data_masking.dfy` | the four maskers and the column-name rule chain of `smartMask` |
| `RepairLoop` | `repair_loop.dfy` | the bounded execute-and-repair loop, generic in its oracles |
| `HiAgent` | `hi_agent.dfy` | fence cleaning, preparing each attempt with `buildSql`, row masking and `determineVisualization` |
| `IntentRouter` | `intent_router.dfy` | the `SkillType` enum, `parseIntent`, `buildRouterPrompt` and `route` |
| `SkillRegistry` | `skill_registry.dfy` | `parseSkillMd`, the skill code taken from the path, `load`, `list` and `get` |
| `AgentWorkflow` | `agent_workflow.dfy` | `generateQuerySpec` and `execute`, with a conversation store |
| `DataManagement` | `data_management.dfy` | type mapping, role guessing, the INSERT statement, field lookup, the domain filter, CSV records, import arguments and `alterTable` |
| `DataUpload` | `data_upload.dfy` | the earlier `uploadData` (type inference, column names, CREATE TABLE, batch rows) and the `executeQuery` guard |
| `PanelItems` | `panel_items.dfy` | the earlier `PanelService` over a repository of pinned items |
| `Panels` | `panels.dfy` | the current `PanelService`: panel merge, create, pin, delete |
| `PinnedBoard` | `pinned_board.dfy` | the pinned-board handlers of the front-end `App` |
| `KnowledgeBase` | `knowledge_base.dfy` | tag parsing, the search filter and the document handlers of the knowledge-base page |
| `Common`, `Text` | `common.dfy`, `text.dfy` | shared datatypes (`Option`, `Result`, tagged values, rows as ordered key/value lists) and the Java and JavaScript string operations the code relies on |

Methods hold the loops of the source. Each is proved against a function that
specifies it, and lemmas about those functions state what the code promises.
Repositories that the code updates in place are classes with map fields. The
language model, JDBC, JSON, YAML, CSV and clock calls are function-typed or
plain parameters.

The data scope reaches the language model. When a query fails, the repair
prompt of `HiAgentService` (lines 340-362) carries the SQL that failed, and
that SQL holds the `branch = '<scope>'` condition. `HiAgent.PreparedIsScoped`
and `SafeQueryBuilder.ScopeIsNotEscaped` state what the code does.

## Model

| member | source | states |
|---|---|---|
| SqlPatterns.SpaceEnd | src/backend/src/main/java/com/bank/bi/util/SafeQueryBuilder.java:153 | the scanner stops at the first index that is not a regex whitespace character, and everything it skipped is whitespace |
| SqlPatterns.WordEnd | src/backend/src/main/java/com/bank/bi/util/SafeQueryBuilder.java:147 | the scanner stops at the first character outside `[a-zA-Z0-9_]`, and everything it skipped is inside it |
| SqlPatterns.ArgEnd | src/backend/src/main/java/com/bank/bi/util/SafeQueryBuilder.java:153 | the scanner stops at the first character outside `[a-zA-Z0-9_*]`, and everything it skipped is inside it |
| SqlPatterns.MatchAliasIff | src/backend/src/main/java/com/bank/bi/util/SafeQueryBuilder.java:153 | the alias scanner accepts exactly the empty text or whitespace, `as`, whitespace and a word |
| SqlPatterns.MatchAliasTailIff | src/backend/src/main/java/com/bank/bi/util/SafeQueryBuilder.java:153 | the alias scanner started at any index accepts exactly the suffixes of that shape |
| SqlPatterns.MatchAggregateIff | src/backend/src/main/java/com/bank/bi/util/SafeQueryBuilder.java:153 | the aggregate scanner accepts exactly SUM, COUNT, AVG, MAX or MIN, a parenthesised argument of word characters and stars, and an optional alias |
| SqlPatterns.SanitizeColumn | src/backend/src/main/java/com/bank/bi/util/SafeQueryBuilder.java:150-155 | a plain word or an aggregate column is kept verbatim; anything else becomes the literal 1 |
| SqlPatterns.MatchOrderItemIff | src/backend/src/main/java/com/bank/bi/util/SafeQueryBuilder.java:131 | the ORDER BY scanner accepts exactly a word, optionally followed by whitespace and ASC or DESC |
| SqlPatterns.EscapeReadsBack | src/backend/src/main/java/com/bank/bi/util/SafeQueryBuilder.java:182 | a text with every quote doubled, then a closing quote, is read by an SQL lexer as exactly that text, and the literal ends at the closing quote |
| SqlPatterns.QuoteReadsBack | src/backend/src/main/java/com/bank/bi/util/SafeQueryBuilder.java:182 | the quoted form of any text is one SQL string literal whose value is the original text, with nothing after it |
| SqlPatterns.FormatTextSafe | src/backend/src/main/java/com/bank/bi/util/SafeQueryBuilder.java:164-182 | a text is emitted unquoted only when its upper-cased trimmed form starts with a whitelisted date function and it uses only the safe characters, and then it holds no quote; every other text becomes a literal that reads back as the original |
| SqlPatterns.SafeHasNoQuote | src/backend/src/main/java/com/bank/bi/util/SafeQueryBuilder.java:176 | a text made of the safe expression characters holds no quote |
| SqlPatterns.FormatValue | src/backend/src/main/java/com/bank/bi/util/SafeQueryBuilder.java:161-183 | null gives NULL, a number its decimal text, and any other value the formatted text of its string form |
| SafeQueryBuilder.KeptConditionsSnoc | src/backend/src/main/java/com/bank/bi/util/SafeQueryBuilder.java:84-93 | one more filter adds its rendered condition exactly when its column and upper-cased operator pass the whitelists |
| SafeQueryBuilder.UserConditionsSpec | src/backend/src/main/java/com/bank/bi/util/SafeQueryBuilder.java:84-93 | the filter loop throws exactly when some filter has a valid column and a null operator; otherwise its conditions are the rendered whitelisted filters, in order |
| SafeQueryBuilder.ThrowPersists | src/backend/src/main/java/com/bank/bi/util/SafeQueryBuilder.java:85-87 | once a prefix of the filters throws, the whole loop throws with the same error |
| SafeQueryBuilder.ScopeConditions | src/backend/src/main/java/com/bank/bi/util/SafeQueryBuilder.java:96-112 | at most one scope condition, present exactly when the scope has text and is not ALL in any letter case |
| SafeQueryBuilder.NoScopeCondition | src/backend/src/main/java/com/bank/bi/util/SafeQueryBuilder.java:96 | a missing, blank or ALL scope adds no condition |
| SafeQueryBuilder.ProjectedItems | src/backend/src/main/java/com/bank/bi/util/SafeQueryBuilder.java:72-74 | each requested column is replaced by its sanitised form, position by position |
| SafeQueryBuilder.ColumnList | src/backend/src/main/java/com/bank/bi/util/SafeQueryBuilder.java:68-76 | a missing or empty column list selects `*`; otherwise the sanitised columns joined by commas |
| SafeQueryBuilder.WhereClause | src/backend/src/main/java/com/bank/bi/util/SafeQueryBuilder.java:114-116 | the WHERE clause is empty exactly when there are no conditions |
| SafeQueryBuilder.LimitValue | src/backend/src/main/java/com/bank/bi/util/SafeQueryBuilder.java:139 | the limit is always between 1 and 100: a missing or non-positive limit gives 100, a limit up to 100 is kept, a larger one is capped at 100 |
| SafeQueryBuilder.BuildSql | src/backend/src/main/java/com/bank/bi/util/SafeQueryBuilder.java:59-143 | the imperative builder returns exactly the compiled query or the error of the specification |
| SafeQueryBuilder.RenderConditions | src/backend/src/main/java/com/bank/bi/util/SafeQueryBuilder.java:83-93 | the filter loop returns the rendered conditions of the specification, or the null-operator error at the first valid column without an operator |
| SafeQueryBuilder.CompileFails | src/backend/src/main/java/com/bank/bi/util/SafeQueryBuilder.java:59-93 | compilation fails exactly when the table name is not a word or some filter has a valid column and a null operator, and it fails with the table error exactly when the name is invalid |
| SafeQueryBuilder.CompileShape | src/backend/src/main/java/com/bank/bi/util/SafeQueryBuilder.java:65-140 | every query produced starts with SELECT, names the table after FROM and ends with LIMIT and a limit between 1 and 100 |
| SafeQueryBuilder.SelectFromShape | src/backend/src/main/java/com/bank/bi/util/SafeQueryBuilder.java:65-78 | the head of the query is SELECT, the column list, FROM and the table |
| SafeQueryBuilder.AssembleSplit | src/backend/src/main/java/com/bank/bi/util/SafeQueryBuilder.java:65-140 | the query is the head, then WHERE, GROUP BY and ORDER BY, then the LIMIT clause |
| SafeQueryBuilder.CompileConditions | src/backend/src/main/java/com/bank/bi/util/SafeQueryBuilder.java:81-116 | the WHERE conditions are the kept user conditions followed by the scope condition; WHERE is absent exactly when both are absent; a scoped query's WHERE clause ends with the branch condition |
| SafeQueryBuilder.ScopeQuoteEndsLiteral | src/backend/src/main/java/com/bank/bi/util/SafeQueryBuilder.java:111 | a quote inside the scope closes the string literal early: the lexer reads the text before it and leaves the rest as SQL |
| SafeQueryBuilder.ScopeIsNotEscaped | src/backend/src/main/java/com/bank/bi/util/SafeQueryBuilder.java:111 | the scope `x'--` is pasted unescaped, and the literal it opens ends after `x`, leaving `--'` as SQL text |
| SafeQueryBuilder.GroupByKeepsIdentifiers | src/backend/src/main/java/com/bank/bi/util/SafeQueryBuilder.java:119-126 | GROUP BY appears exactly when some group item is a plain word, and then lists the plain words in order |
| SafeQueryBuilder.OrderByKeepsItems | src/backend/src/main/java/com/bank/bi/util/SafeQueryBuilder.java:129-136 | ORDER BY appears exactly when some item matches the ORDER BY pattern, and then lists the matching items in order |
| SafeQueryBuilder.Compile | src/backend/src/main/java/com/bank/bi/util/SafeQueryBuilder.java:59-143 | what `buildSql` returns or throws, as a function of the request and the data scope; its shape is stated by CompileFails, CompileShape and CompileConditions, and BuildSql is proved to compute it |
| SafeQueryBuilder.BareQuery | src/backend/src/main/java/com/bank/bi/util/SafeQueryBuilder.java:65-140 | a request with no filter, grouping or ordering, under a scope that adds no condition, compiles to its SELECT and FROM part followed by the LIMIT clause |
| SqlLexer.QuotedLiteralCloses | src/backend/src/main/java/com/bank/bi/util/SafeQueryBuilder.java:182 | a quoted value read as SQL is one literal that closes at its final quote |
| SqlLexer.ExpressionStaysCode | src/backend/src/main/java/com/bank/bi/util/SafeQueryBuilder.java:176 | text of the safe expression characters with no `--` in it leaves the lexer reading code |
| SqlLexer.ScopeConditionInCode | src/backend/src/main/java/com/bank/bi/util/SafeQueryBuilder.java:111 | the scope condition of a scope without a quote, read from code, ends in code: its literal closes |
| SqlLexer.CorrectionOnlyQuotesComments | src/backend/src/main/java/com/bank/bi/util/SafeQueryBuilder.java:164-182 | the corrected formatter writes a value differently exactly when `formatValue` would emit it unquoted although it holds `--` |
| SqlLexer.SafeValueInCode | src/backend/src/main/java/com/bank/bi/util/SafeQueryBuilder.java:161-183 | every value the corrected formatter writes leaves the lexer reading code |
| SqlLexer.CorrectedCompileAgrees | src/backend/src/main/java/com/bank/bi/util/SafeQueryBuilder.java:59-143 | the corrected compilation equals `buildSql` on every request none of whose values opens a comment |
| SqlLexer.CorrectedQueryIsCode | src/backend/src/main/java/com/bank/bi/util/SafeQueryBuilder.java:96-140 | with the corrected formatter and a scope without a quote, the whole query reads as code to its end, and the scope's `branch` condition starts where the lexer reads code |
| SqlLexer.CommentHidesScope | src/backend/src/main/java/com/bank/bi/util/SafeQueryBuilder.java:168-177 | as written, the filter value `NOW() --` is emitted unquoted and the text up to it ends inside a comment, so the `branch` condition and the LIMIT after it are comment; the corrected query reads as code |
| DataMasking.MaskName | src/backend/src/main/java/com/bank/bi/util/DataMaskingUtil.java:13-16 | text without a visible character is returned as is; any other name becomes its first character followed by two stars |
| DataMasking.MaskPhone | src/backend/src/main/java/com/bank/bi/util/DataMaskingUtil.java:21-23 | length is kept; blank or shorter-than-11 input is unchanged; any other input becomes its eleven-digit-run masking `MaskDigitRuns`, so every character stays or is a digit turned into a star |
| DataMasking.MaskPhoneElevenDigits | src/backend/src/main/java/com/bank/bi/util/DataMaskingUtil.java:19-23 | an 11-digit number keeps its first three and last four digits with four stars between |
| DataMasking.MaskPhoneExample | src/backend/src/main/java/com/bank/bi/util/DataMaskingUtil.java:19 | the documented example 13812345678 masks to 138****5678 |
| DataMasking.MaskDigitRuns | src/backend/src/main/java/com/bank/bi/util/DataMaskingUtil.java:23 | the replacement keeps the length, and every character stays or is a digit turned into a star |
| DataMasking.MaskSplitsAtNonDigit | src/backend/src/main/java/com/bank/bi/util/DataMaskingUtil.java:23 | no match spans a non-digit, so masking a text splits at every non-digit and masks each side on its own |
| DataMasking.DigitRunMasked | src/backend/src/main/java/com/bank/bi/util/DataMaskingUtil.java:23 | on a run of digits the matches are its consecutive blocks of eleven: the fourth to seventh digit of each block become `*`, the digits after the last whole block are kept |
| DataMasking.MaskPhoneInText | src/backend/src/main/java/com/bank/bi/util/DataMaskingUtil.java:21-23 | an eleven-digit number between two non-digits keeps its first three and last four digits, with `****` between, and the text on either side is masked on its own |
| DataMasking.MaskIdCard | src/backend/src/main/java/com/bank/bi/util/DataMaskingUtil.java:29-33 | length is kept; blank or shorter-than-15 input is unchanged; otherwise the first 3 and last 4 characters are kept and every other one is a star |
| DataMasking.MaskBankCard | src/backend/src/main/java/com/bank/bi/util/DataMaskingUtil.java:38-41 | length is kept; blank or shorter-than-10 input is unchanged; otherwise the first 4 and last 4 characters are kept and every other one is a star |
| DataMasking.MaskNameIdempotent | src/backend/src/main/java/com/bank/bi/util/DataMaskingUtil.java:13-16 | masking a masked name changes nothing |
| DataMasking.MaskIdCardIdempotent | src/backend/src/main/java/com/bank/bi/util/DataMaskingUtil.java:29-33 | masking a masked ID card number changes nothing |
| DataMasking.MaskBankCardIdempotent | src/backend/src/main/java/com/bank/bi/util/DataMaskingUtil.java:38-41 | masking a masked card number changes nothing |
| DataMasking.SmartMask | src/backend/src/main/java/com/bank/bi/util/DataMaskingUtil.java:46-67 | null and non-text values pass through; text gets the rule chosen by the first keyword group the lower-cased column name contains (name, phone, ID card, account), or none |
| DataMasking.RuleFor | src/backend/src/main/java/com/bank/bi/util/DataMaskingUtil.java:53-63 | the masking rule of a column name: the name, phone, identity-card and bank-card tests in that order on the lower-cased name, the first that holds wins; SmartMask and AccountNameIsName state the outcome |
| DataMasking.AccountNameIsName | src/backend/src/main/java/com/bank/bi/util/DataMaskingUtil.java:53-63 | a column called account_name gets the name rule, since the name test comes before the account test |
| RepairLoop.Attempt | src/backend/src/main/java/com/bank/bi/service/HiAgentService.java:328-395 | one pass of the loop: a successful execution returns that query and its rows; a failure at the tenth execution stops with the database message; a pass goes on only before the tenth execution, after a failure, with a query the preparation produced |
| RepairLoop.RunAttempt | src/backend/src/main/java/com/bank/bi/service/HiAgentService.java:328-395 | the loop body as statements computes exactly one pass of the specification |
| RepairLoop.RunFromStep | src/backend/src/main/java/com/bank/bi/service/HiAgentService.java:328-397 | the outcome from attempt k is the pass's own outcome when it stops, else the outcome from attempt k+1 with the repaired query |
| RepairLoop.ExecuteWithRepair | src/backend/src/main/java/com/bank/bi/service/HiAgentService.java:325-397 | the while loop returns exactly the outcome the specification gives from attempt 0 |
| RepairLoop.RunFromLength | src/backend/src/main/java/com/bank/bi/service/HiAgentService.java:325-328 | from attempt k at most 10-k queries are executed, at least one, and the first is the query handed in |
| RepairLoop.RunFromFailedBefore | src/backend/src/main/java/com/bank/bi/service/HiAgentService.java:329-339 | every executed query but the last was rejected by the database |
| RepairLoop.RunFromPrepared | src/backend/src/main/java/com/bank/bi/service/HiAgentService.java:393-394 | every query after the first is one the preparation of a model reply produced |
| RepairLoop.RunFromSuccess | src/backend/src/main/java/com/bank/bi/service/HiAgentService.java:330-331 | on success the returned query is the last one executed and the rows are what the database returned for it |
| RepairLoop.RunFromExhausted | src/backend/src/main/java/com/bank/bi/service/HiAgentService.java:336-338 | giving up after the retries means the executions reached the tenth and its database message is reported |
| RepairLoop.BeginSpec | src/backend/src/main/java/com/bank/bi/service/HiAgentService.java:312-338 | starting from the first reply: no query runs exactly when the first reply cannot be prepared; at most 10 queries run; all the above facts hold from attempt 0, and exhausting the retries means all ten executions failed |
| HiAgent.FirstKey | src/backend/src/main/java/com/bank/bi/service/HiAgentService.java:464-481 | the first key of an entry with the property, or none exactly when no entry has it |
| HiAgent.FirstKeySnoc | src/backend/src/main/java/com/bank/bi/service/HiAgentService.java:464-481 | one more entry changes the first key only when there was none and the new entry has the property |
| HiAgent.KeysAppend | src/backend/src/main/java/com/bank/bi/service/HiAgentService.java:464 | the keys of two rows together are the keys of each in turn |
| HiAgent.AxesNumericKeys | src/backend/src/main/java/com/bank/bi/service/HiAgentService.java:464-467 | the y-keys of the scan are exactly the keys of the numeric entries, in row order |
| HiAgent.AxesLabelKey | src/backend/src/main/java/com/bank/bi/service/HiAgentService.java:467-479 | the x-key of the scan is the first label-like text key if there is one, else the first text key, else none |
| HiAgent.ScanAxes | src/backend/src/main/java/com/bank/bi/service/HiAgentService.java:461-481 | the loop over the first row computes the same x-key and y-keys as the specification |
| HiAgent.Project | src/backend/src/main/java/com/bank/bi/service/HiAgentService.java:526-531 | a table row holds, for each header in order, the value the row maps that header to |
| HiAgent.ProjectRow | src/backend/src/main/java/com/bank/bi/service/HiAgentService.java:527-530 | the inner loop builds exactly that projection |
| HiAgent.BuildTable | src/backend/src/main/java/com/bank/bi/service/HiAgentService.java:522-536 | the table loop builds headers from the first row and one projected row per result row |
| HiAgent.DetermineVisualization | src/backend/src/main/java/com/bank/bi/service/HiAgentService.java:453-540 | the method returns exactly the visualisation of the specification |
| HiAgent.ChartChoice | src/backend/src/main/java/com/bank/bi/service/HiAgentService.java:484-519 | a non-empty result gets a chart exactly when there is a numeric column and a text key or a second numeric column; then the series is the data, the chart is a line chart exactly when the x-key names a date, time, month, year or day, the single-key form is used exactly for one y-key, and the keys are the label with all numeric keys, or the first numeric key with the others |
| HiAgent.TableShape | src/backend/src/main/java/com/bank/bi/service/HiAgentService.java:522-536 | a table has the first row's keys as headers, one row per result row, and each cell is that row's value for that header |
| HiAgent.Visualize | src/backend/src/main/java/com/bank/bi/service/HiAgentService.java:453-540 | what `determineVisualization` returns for a result; DetermineVisualization computes it, and ChartChoice and TableShape state which chart or table it is |
| HiAgent.CutAtFence | src/backend/src/main/java/com/bank/bi/service/HiAgentService.java:296-303 | the cut text is a prefix without a fence, and text without a fence is kept whole |
| HiAgent.TrimKeepsNoFence | src/backend/src/main/java/com/bank/bi/service/HiAgentService.java:305 | trimming text without a fence cannot create one |
| HiAgent.CleanFencesRemovesFences | src/backend/src/main/java/com/bank/bi/service/HiAgentService.java:291-305 | the cleaned reply never contains a code fence |
| HiAgent.CleanFencesPlain | src/backend/src/main/java/com/bank/bi/service/HiAgentService.java:291-305 | a reply without a fence is only trimmed |
| HiAgent.CleanFences | src/backend/src/main/java/com/bank/bi/service/HiAgentService.java:291-305 | the cleaning of the model's reply; CleanFencesRemovesFences and CleanFencesPlain state that no fence is left and that a plain reply is only trimmed |
| HiAgent.MaskRow | src/backend/src/main/java/com/bank/bi/service/HiAgentService.java:402-405 | a masked row keeps its keys and each value is masked by its own column name |
| HiAgent.MaskAll | src/backend/src/main/java/com/bank/bi/service/HiAgentService.java:400-407 | one masked row per result row, with the same keys and each value masked by its column name |
| HiAgent.MaskRows | src/backend/src/main/java/com/bank/bi/service/HiAgentService.java:400-408 | the nested masking loops compute exactly that |
| HiAgent.Prepare | src/backend/src/main/java/com/bank/bi/service/HiAgentService.java:294-320 | a prepared query is exactly what the compiler makes of the parsed request with the caller's scope, and a reply carrying the error marker is refused |
| HiAgent.PreparedIsScoped | src/backend/src/main/java/com/bank/bi/service/HiAgentService.java:316-394 | every query a reply is prepared into was compiled with the caller's scope |
| HiAgent.AnalyzeQuery | src/backend/src/main/java/com/bank/bi/service/HiAgentService.java:290-397 | the query part of the analysis returns exactly the outcome of preparing the first reply and running the loop |
| HiAgent.RunQueryScoped | src/backend/src/main/java/com/bank/bi/service/HiAgentService.java:312-397 | nothing is executed exactly when the first reply cannot be prepared, and every executed query was compiled with the caller's scope |
| HiAgent.Analyze | src/backend/src/main/java/com/bank/bi/service/HiAgentService.java:290-435 | the analysis returns exactly the specification's result |
| HiAgent.AnalyzeDataSpec | src/backend/src/main/java/com/bank/bi/service/HiAgentService.java:399-435 | failures of the query part are passed on; on success the SQL is the last executed query and is scoped, the data are the returned rows masked cell by cell, the summary is the first 20 masked rows, and the visualisation is chosen from the masked data |
| HiAgent.RunQuery | src/backend/src/main/java/com/bank/bi/service/HiAgentService.java:312-397 | the query part of `analyzeData` from the first reply on; RunQueryScoped states that nothing runs when the first reply cannot be prepared and that every query run carries the caller's scope |
| HiAgent.AnalyzeData | src/backend/src/main/java/com/bank/bi/service/HiAgentService.java:290-435 | `analyzeData` from the first reply on; Analyze computes it, and AnalyzeDataSpec states the SQL, the masked data, the summary and the visualisation it returns |
| IntentRouter.ValueOf | src/backend/src/main/java/com/bank/bi/service/agent/IntentRouter.java:97 | `SkillType.valueOf` finds the constant whose identifier is exactly the name, and fails exactly when no constant has it |
| IntentRouter.TypesComplete | src/backend/src/main/java/com/bank/bi/model/enums/SkillType.java:6-10 | the list of types holds every one of the four intents |
| IntentRouter.CodesDistinct | src/backend/src/main/java/com/bank/bi/model/enums/SkillType.java:7-10 | no two intents have codes equal ignoring case |
| IntentRouter.ConstantNameIsUpperCode | src/backend/src/main/java/com/bank/bi/model/enums/SkillType.java:7-10 | each constant's identifier is its code in upper case |
| IntentRouter.FirstMatch | src/backend/src/main/java/com/bank/bi/service/agent/IntentRouter.java:107-112 | the first intent whose code equals the answer ignoring case, and none exactly when no code does |
| IntentRouter.MatchCode | src/backend/src/main/java/com/bank/bi/service/agent/IntentRouter.java:107-112 | the loop over the enum values returns exactly that first match |
| IntentRouter.ParseIntent | src/backend/src/main/java/com/bank/bi/service/agent/IntentRouter.java:85-116 | the method returns exactly the intent the specification gives for the answer and the registered codes |
| IntentRouter.ResolveCleaned | src/backend/src/main/java/com/bank/bi/service/agent/IntentRouter.java:89-115 | the registry branch, the loop and the fallback give exactly the specified decision on the cleaned answer |
| IntentRouter.ConsistentPaths | src/backend/src/main/java/com/bank/bi/service/agent/IntentRouter.java:90-112 | when the upper-cased answer names a constant, the code loop picks that same constant, so both paths agree |
| IntentRouter.RegistryIrrelevant | src/backend/src/main/java/com/bank/bi/service/agent/IntentRouter.java:89-105 | which codes are registered never changes the parsed intent |
| IntentRouter.IntentMatchesCode | src/backend/src/main/java/com/bank/bi/service/agent/IntentRouter.java:85-116 | an answer whose cleaned form equals an intent's code ignoring case gives that intent; any other answer gives chit-chat |
| IntentRouter.CleanHasNoBacktick | src/backend/src/main/java/com/bank/bi/service/agent/IntentRouter.java:87 | the cleaned answer holds no backtick |
| IntentRouter.BacktickedCode | src/backend/src/main/java/com/bank/bi/service/agent/IntentRouter.java:86-87 | an intent code wrapped in backticks, in any letter case, is parsed as that intent |
| IntentRouter.CodeSpellingIsPlain | src/backend/src/main/java/com/bank/bi/model/enums/SkillType.java:7-10 | any spelling of a code is non-empty and holds no backtick or blank |
| IntentRouter.UnwrapBackticks | src/backend/src/main/java/com/bank/bi/service/agent/IntentRouter.java:87 | cleaning a backticked plain word gives the word |
| IntentRouter.BuildRouterPrompt | src/backend/src/main/java/com/bank/bi/service/agent/IntentRouter.java:66-83 | the StringBuilder loop produces exactly the specified prompt: the head, one entry per listed skill in order (code, description and any trigger keywords), the chit-chat line and the closing instruction |
| IntentRouter.EntriesContain | src/backend/src/main/java/com/bank/bi/service/agent/IntentRouter.java:71-76 | every listed skill's entry appears in the entries |
| IntentRouter.PromptListsSkills | src/backend/src/main/java/com/bank/bi/service/agent/IntentRouter.java:66-83 | the prompt names every listed skill's code and always offers chit-chat |
| IntentRouter.Route | src/backend/src/main/java/com/bank/bi/service/agent/IntentRouter.java:33-64 | no reply, no choice or a null content falls back to chit-chat; otherwise the intent is the one parsed from the trimmed content of the first choice |
| SkillRegistry.Unquote | src/backend/src/main/java/com/bank/bi/skill/SkillRegistry.java:97-101 | a value without matching surrounding quotes is kept; a quoted value loses its first and last character; a value that is a single quote character cannot be cut, which throws |
| SkillRegistry.LoneQuoteCannotBeCut | src/backend/src/main/java/com/bank/bi/skill/SkillRegistry.java:98-100 | a lone `"` or `'` counts as both starting and ending with the quote, and cutting it fails |
| SkillRegistry.TrimAll | src/backend/src/main/java/com/bank/bi/skill/SkillRegistry.java:113-114 | every keyword is trimmed, position by position |
| SkillRegistry.InlineList | src/backend/src/main/java/com/bank/bi/skill/SkillRegistry.java:112-120 | a keyword list is read exactly when the value starts with `[` and ends with `]` |
| SkillRegistry.AssignKeeps | src/backend/src/main/java/com/bank/bi/skill/SkillRegistry.java:103-125 | assigning a key never changes the code, the instruction or the base path |
| SkillRegistry.ApplyLineKeeps | src/backend/src/main/java/com/bank/bi/skill/SkillRegistry.java:88-131 | a parsed line never changes the code, the instruction or the base path |
| SkillRegistry.ApplyLinesKeeps | src/backend/src/main/java/com/bank/bi/skill/SkillRegistry.java:87-131 | nor does the whole line loop |
| SkillRegistry.ApplyLinesSnoc | src/backend/src/main/java/com/bank/bi/skill/SkillRegistry.java:88-131 | the line loop is the loop over all lines but the last, then the last line |
| SkillRegistry.FailureSticks | src/backend/src/main/java/com/bank/bi/skill/SkillRegistry.java:87-131 | once a prefix of the lines throws, the whole loop throws with that error |
| SkillRegistry.ParseLines | src/backend/src/main/java/com/bank/bi/skill/SkillRegistry.java:87-131 | the for loop over the lines returns exactly what the specification gives |
| SkillRegistry.IgnoredLinesKeep | src/backend/src/main/java/com/bank/bi/skill/SkillRegistry.java:89-90 | blank and comment lines leave the definition as it is |
| SkillRegistry.KeyValueLine | src/backend/src/main/java/com/bank/bi/skill/SkillRegistry.java:92-104 | a line `key: value` with a plain key and an unquoted trimmed value assigns that value to that key |
| SkillRegistry.ApplyLineCut | src/backend/src/main/java/com/bank/bi/skill/SkillRegistry.java:89-104 | a line with a colon after its first character splits there into the trimmed key and the trimmed value, which is unquoted and assigned, or the line throws when the value cannot be unquoted |
| SkillRegistry.ApplyLine | src/backend/src/main/java/com/bank/bi/skill/SkillRegistry.java:88-131 | one front-matter line applied to the definition; ApplyLineKeeps, KeyValueLine, ApplyLineCut and LoneQuoteThrows state its cases |
| SkillRegistry.LeadingColonIgnored | src/backend/src/main/java/com/bank/bi/skill/SkillRegistry.java:92-93 | a line whose colon is its first character is passed over |
| SkillRegistry.LoneQuoteThrows | src/backend/src/main/java/com/bank/bi/skill/SkillRegistry.java:95-100 | a line whose value is a lone quote character makes the parse throw |
| SkillRegistry.Override | src/backend/src/main/java/com/bank/bi/skill/SkillRegistry.java:134-151 | without a YAML map the line parser's result stands; with one, name, description and author are taken from it, version defaults to 1.0, and the instruction, code and base path are kept |
| SkillRegistry.ParseSkillMd | src/backend/src/main/java/com/bank/bi/skill/SkillRegistry.java:60-159 | the method returns exactly what the specification gives for the file content |
| SkillRegistry.ParseFrontMatter | src/backend/src/main/java/com/bank/bi/skill/SkillRegistry.java:77-158 | the part after the front matter is found computes the same result |
| SkillRegistry.MissingOpener | src/backend/src/main/java/com/bank/bi/skill/SkillRegistry.java:68-70 | a file that does not start with `---` gives no definition |
| SkillRegistry.MissingCloser | src/backend/src/main/java/com/bank/bi/skill/SkillRegistry.java:72-75 | a file with no later `\n---` gives no definition |
| SkillRegistry.FirstCloser | src/backend/src/main/java/com/bank/bi/skill/SkillRegistry.java:72 | the front matter ends at the first `\n---` from index 3 |
| SkillRegistry.SplitAtCloser | src/backend/src/main/java/com/bank/bi/skill/SkillRegistry.java:72-138 | with the closer at its first occurrence, a parsed file's instruction is the trimmed text after it, and its name is SnakeYAML's when the map loads |
| SkillRegistry.ParseSkillCut | src/backend/src/main/java/com/bank/bi/skill/SkillRegistry.java:72-158 | a file with front matter gives the line parse of the trimmed front matter over a definition holding the instruction, then the SnakeYAML override |
| SkillRegistry.ParseSkill | src/backend/src/main/java/com/bank/bi/skill/SkillRegistry.java:60-159 | `parseSkillMd` as a function of the file text and the YAML reader; ParseSkillMd computes it, MissingOpener, MissingCloser and ParseSkillCut state its cases |
| SkillRegistry.LastSegment | src/backend/src/main/java/com/bank/bi/skill/SkillRegistry.java:40 | the last `/`-free segment is a suffix and is preceded by a slash unless it is the whole text |
| SkillRegistry.UpToLastLineBreak | src/backend/src/main/java/com/bank/bi/skill/SkillRegistry.java:40 | the kept prefix is followed by no line terminator, which `.` cannot cross |
| SkillRegistry.SkillCodeIsDirectory | src/backend/src/main/java/com/bank/bi/skill/SkillRegistry.java:38-40 | the code of `.../skills/<code>/SKILL.md` is the directory name |
| SkillRegistry.SkillCode | src/backend/src/main/java/com/bank/bi/skill/SkillRegistry.java:38-40 | the skill code the path replacement leaves; SkillCodeIsDirectory states it is the directory name under `skills/` |
| SkillRegistry.PrecedesIrreflexive | src/backend/src/main/java/com/bank/bi/skill/SkillRegistry.java:163 | the code order compares no code below itself |
| SkillRegistry.PrecedesTransitive | src/backend/src/main/java/com/bank/bi/skill/SkillRegistry.java:163 | the code order is transitive |
| SkillRegistry.PrecedesTotal | src/backend/src/main/java/com/bank/bi/skill/SkillRegistry.java:163 | any two different codes are ordered one way |
| SkillRegistry.PrecedesAsymmetric | src/backend/src/main/java/com/bank/bi/skill/SkillRegistry.java:163 | no two codes are ordered both ways |
| SkillRegistry.LeastExists | src/backend/src/main/java/com/bank/bi/skill/SkillRegistry.java:161-164 | every non-empty set of codes has a least code |
| SkillRegistry.LeastUnique | src/backend/src/main/java/com/bank/bi/skill/SkillRegistry.java:161-164 | the least code of a set is unique |
| SkillRegistry.SortedCodes | src/backend/src/main/java/com/bank/bi/skill/SkillRegistry.java:161-164 | the sorted codes are exactly the codes, each once, in strictly increasing order |
| SkillRegistry.LoadAllRegisters | src/backend/src/main/java/com/bank/bi/skill/SkillRegistry.java:31-58 | loading keeps every skill registered under its own code with base path `skills/<code>`, and never drops an earlier code |
| SkillRegistry.LoadAll | src/backend/src/main/java/com/bank/bi/skill/SkillRegistry.java:31-58 | the registry after loading the files in order; LoadAllRegisters states that every skill stays under its own code and no earlier code is dropped |
| SkillRegistry.Values | src/backend/src/main/java/com/bank/bi/skill/SkillRegistry.java:162-164 | the listed definitions are those registered under the given codes, in order |
| SkillRegistry.ValuesCoverKeys | src/backend/src/main/java/com/bank/bi/skill/SkillRegistry.java:161-164 | listing the sorted codes reaches every registered skill |
| SkillRegistry.Registry.Load | src/backend/src/main/java/com/bank/bi/skill/SkillRegistry.java:30-58 | the loop over the skill files computes exactly the specified registry: skipped files without front matter, each parsed file put under its code, and a throwing file ending the load |
| SkillRegistry.Registry.List | src/backend/src/main/java/com/bank/bi/skill/SkillRegistry.java:161-165 | one definition per registered code, in sorted code order, and every registered skill is listed |
| SkillRegistry.ListSorted | src/backend/src/main/java/com/bank/bi/skill/SkillRegistry.java:161-165 | the list of a registry loaded as above is strictly sorted by code |
| SkillRegistry.Registry.Get | src/backend/src/main/java/com/bank/bi/skill/SkillRegistry.java:167-169 | a definition exactly when the code is registered, and then the registered one |
| AgentWorkflow.QueryPrompt | src/backend/src/main/java/com/bank/bi/service/agent/AgentWorkflowService.java:202-217 | with no registered `data_query` skill or a null instruction the prompt is the fixed fallback; otherwise it starts with the instruction, is exactly the instruction when the skill has no schema, and continues with the `## Dynamic Schema (Whitelist)` heading and the schema JSON when it has one |
| AgentWorkflow.StripFencesRemovesFences | src/backend/src/main/java/com/bank/bi/service/agent/AgentWorkflowService.java:250-253 | a reply that starts with a fence has every fence removed; any other reply is kept as it is |
| AgentWorkflow.ClosingFenceRemoved | src/backend/src/main/java/com/bank/bi/service/agent/AgentWorkflowService.java:252 | removing the fences from a body followed by a closing fence gives the body |
| AgentWorkflow.NoJsonFenceAfterOpening | src/backend/src/main/java/com/bank/bi/service/agent/AgentWorkflowService.java:252 | a body without backticks followed by a closing fence holds no json fence |
| AgentWorkflow.FencedReplyUnwrapped | src/backend/src/main/java/com/bank/bi/service/agent/AgentWorkflowService.java:250-253 | a body wrapped in a json fence and a closing fence is unwrapped to the trimmed body |
| AgentWorkflow.StripFences | src/backend/src/main/java/com/bank/bi/service/agent/AgentWorkflowService.java:250-253 | the fence stripping of the reply; StripFencesRemovesFences and FencedReplyUnwrapped state that no fence is left and a fenced reply is unwrapped |
| AgentWorkflow.QuerySpec | src/backend/src/main/java/com/bank/bi/service/agent/AgentWorkflowService.java:235-263 | no reply, no choice or a null content gives the default request as written (column `*` of `deposit`, limit 50); otherwise the request is that default or what the parser reads from the fence-stripped content of the first choice |
| AgentWorkflow.DepositQuerySql | src/backend/src/main/java/com/bank/bi/service/agent/AgentWorkflowService.java:258-261 | a deposit request with limit 50 and no filters compiles to its select list, FROM deposit and LIMIT 50 |
| AgentWorkflow.WrittenFallbackSelectsOne | src/backend/src/main/java/com/bank/bi/service/agent/AgentWorkflowService.java:258-261 | as written, the fallback request compiles to `SELECT 1 FROM deposit LIMIT 50` |
| AgentWorkflow.FallbackQuerySql | src/backend/src/main/java/com/bank/bi/service/agent/AgentWorkflowService.java:257-262 | the corrected fallback request compiles to `SELECT * FROM deposit LIMIT 50` |
| AgentWorkflow.NoReplyRunsSelectOne | src/backend/src/main/java/com/bank/bi/service/agent/AgentWorkflowService.java:235-263 | when the model gives no reply, a successful data answer ran `SELECT 1 FROM deposit LIMIT 50` |
| AgentWorkflow.WorkflowQueryIsUnscoped | src/backend/src/main/java/com/bank/bi/service/agent/AgentWorkflowService.java:90 | the ALL scope the workflow passes gives the same SQL as no scope at all |
| AgentWorkflow.Title | src/backend/src/main/java/com/bank/bi/service/agent/AgentWorkflowService.java:68 | a title is at most 53 characters; a query of at most 50 characters is its own title; a longer one gives exactly 53 characters, its first 50 characters followed by `...` |
| AgentWorkflow.CountOf | src/backend/src/main/java/com/bank/bi/service/agent/AgentWorkflowService.java:113 | a conversation's message count never exceeds the number of stored messages |
| AgentWorkflow.CountOfSnoc | src/backend/src/main/java/com/bank/bi/service/agent/AgentWorkflowService.java:87-111 | saving a message counts it for its own conversation and no other |
| AgentWorkflow.CountOfAbsent | src/backend/src/main/java/com/bank/bi/service/agent/AgentWorkflowService.java:75 | a conversation no message refers to counts zero messages |
| AgentWorkflow.Opened | src/backend/src/main/java/com/bank/bi/service/agent/AgentWorkflowService.java:63-142 | a given conversation id is found or the branch throws, and nothing changes; without one a new conversation is appended, holding the user, the module, the title, status 1 and count 0 |
| AgentWorkflow.OpenedKeepsConsistent | src/backend/src/main/java/com/bank/bi/service/agent/AgentWorkflowService.java:63-79 | opening or creating a conversation keeps every count equal to the number of stored messages |
| AgentWorkflow.TurnBookkeeping | src/backend/src/main/java/com/bank/bi/service/agent/AgentWorkflowService.java:81-167 | a turn keeps the history and other conversations, stores the user message first, adds one message when the answer fails and two when it succeeds; on success the reply's message id names the stored assistant message, whose content (null included) is the reply's message, and the count grows by two |
| AgentWorkflow.SuccessfulTurnKeepsConsistent | src/backend/src/main/java/com/bank/bi/service/agent/AgentWorkflowService.java:81-114 | a successful turn keeps every count equal to the number of stored messages |
| AgentWorkflow.FailedTurnLeavesMessageUncounted | src/backend/src/main/java/com/bank/bi/service/agent/AgentWorkflowService.java:87-113 | when the answer fails after the user message is saved, that message is stored but not counted |
| AgentWorkflow.Turn | src/backend/src/main/java/com/bank/bi/service/agent/AgentWorkflowService.java:81-114 | a recorded turn: the user message saved, then either the error with that message kept or the assistant message saved and the count raised by two; TurnBookkeeping states it |
| AgentWorkflow.MessagesOf | src/backend/src/main/java/com/bank/bi/service/HiAgentService.java:106-107 | the messages of one conversation in saving order: as many as it has, each a message of the store in that conversation |
| AgentWorkflow.Recent | src/backend/src/main/java/com/bank/bi/service/HiAgentService.java:119-127 | the history sent to the model: the last 20 messages of the conversation, or all when there are fewer, each of that conversation |
| AgentWorkflow.RecentEndsWithSaved | src/backend/src/main/java/com/bank/bi/service/HiAgentService.java:103-121 | the message just saved is the last one of the history sent |
| AgentWorkflow.ChatTurnRollsBack | src/backend/src/main/java/com/bank/bi/service/HiAgentService.java:83-157 | a chat turn that fails leaves the store as it was: an unknown conversation id throws before anything is saved, and a failed model call rolls the user message back; the history sent ends with the user message |
| AgentWorkflow.ChatTurnCommits | src/backend/src/main/java/com/bank/bi/service/HiAgentService.java:84-157 | a chat turn whose model call answers saves the user message and the answer to the opened conversation, raises its count by two and changes no other conversation; the reply is the stored answer, and a null answer fails after the commit |
| AgentWorkflow.ChatTurnKeepsConsistent | src/backend/src/main/java/com/bank/bi/service/HiAgentService.java:84-157 | a chat turn keeps a consistent store consistent whatever its outcome |
| AgentWorkflow.Preview | src/backend/src/main/java/com/bank/bi/service/agent/AgentWorkflowService.java:93-98 | the preview is the serialisation of the first five rows, or the error text when serialisation fails |
| AgentWorkflow.PreviewIsFirstFive | src/backend/src/main/java/com/bank/bi/service/agent/AgentWorkflowService.java:95 | the preview covers at most five rows, the first ones, and all rows when there are at most five |
| AgentWorkflow.RowCountReadsBack | src/backend/src/main/java/com/bank/bi/service/agent/AgentWorkflowService.java:100 | the row count can be read back as digits right after the fixed head of the answer |
| AgentWorkflow.DataAnswer | src/backend/src/main/java/com/bank/bi/service/agent/AgentWorkflowService.java:89-100 | a request the builder rejects fails with its error, and a query the database rejects with the database error; a successful answer carries the unscoped compiled SQL, which the database ran, the number of rows it returned, a text made of that count and the preview of the rows, and no sources |
| AgentWorkflow.KnowledgeAnswer | src/backend/src/main/java/com/bank/bi/service/agent/AgentWorkflowService.java:124-173 | the branch fails exactly when retrieval fails, with its message; otherwise the answer is the `answer` entry of the retrieved map as it is (a null answer stays null), the apology only when the map has no `answer` entry, the map's `sources` unchanged, and no SQL or row count |
| AgentWorkflow.NullKnowledgeAnswerKept | src/backend/src/main/java/com/bank/bi/service/agent/AgentWorkflowService.java:152-173 | a null knowledge answer is saved as an assistant message with null content and returned as a null message of type `knowledge`, with the service's sources |
| AgentWorkflow.ChartReply | src/backend/src/main/java/com/bank/bi/service/agent/AgentWorkflowService.java:176-180 | a chart request gets the fixed placeholder and no conversation id, message id, SQL, row count or sources |
| AgentWorkflow.ChatReply | src/backend/src/main/java/com/bank/bi/service/agent/AgentWorkflowService.java:182-195 | a failing chat fails; a null content fails; otherwise the reply carries the chat message's content and ids, and no sources |
| AgentWorkflow.Store.Open | src/backend/src/main/java/com/bank/bi/service/agent/AgentWorkflowService.java:63-79 | the repository step finds or creates the conversation exactly as specified |
| AgentWorkflow.Store.Save | src/backend/src/main/java/com/bank/bi/service/agent/AgentWorkflowService.java:87-111 | saving appends the message and returns its id |
| AgentWorkflow.Store.CountTurn | src/backend/src/main/java/com/bank/bi/service/agent/AgentWorkflowService.java:113-114 | the conversation's count grows by two and nothing else changes |
| AgentWorkflow.RecordTurn | src/backend/src/main/java/com/bank/bi/service/agent/AgentWorkflowService.java:81-114 | the statements of a turn produce exactly the specified reply, conversations and messages |
| AgentWorkflow.RecordChat | src/backend/src/main/java/com/bank/bi/service/HiAgentService.java:84-157 | the statements of the transactional chat turn leave exactly the reply and the store that ChatTurn gives, and keep a consistent store consistent |
| AgentWorkflow.CommitChat | src/backend/src/main/java/com/bank/bi/service/HiAgentService.java:153-157 | saving the answer and counting both messages produce exactly the specified reply and store |
| AgentWorkflow.Store.Restore | src/backend/src/main/java/com/bank/bi/service/HiAgentService.java:83 | the rollback of the transaction: both repositories hold again what they held |
| AgentWorkflow.RecordedBranch | src/backend/src/main/java/com/bank/bi/service/agent/AgentWorkflowService.java:61-174 | a recorded branch fails when the conversation is missing and changes nothing, and otherwise is the specified turn; a consistent store stays consistent after success |
| AgentWorkflow.Dispatch | src/backend/src/main/java/com/bank/bi/service/agent/AgentWorkflowService.java:55-198 | the reply carries the intent's code, name and type; a chart request answers the placeholder and leaves the store as it was; a chit-chat is the transactional chat turn `ChatTurn`; a data or knowledge request with an unknown conversation id fails and leaves the store as it was, otherwise it is a recorded turn with the branch's answer; a consistent store stays consistent after success |
| AgentWorkflow.Execute | src/backend/src/main/java/com/bank/bi/service/agent/AgentWorkflowService.java:51-199 | the intent is the router's, and the outcome and the new store are what Dispatch states for it |
| DataManagement.MapDataType | src/backend/src/main/java/com/bank/bi/service/DataManagementService.java:311-321 | the declared type, upper-cased, maps VARCHAR and STRING to VARCHAR with the given length or 255, INT and INTEGER to INT, DOUBLE, FLOAT and DECIMAL to DOUBLE, DATE to DATE, DATETIME to TIMESTAMP, and anything else to VARCHAR(255) |
| DataManagement.MappedTypeIsSql | src/backend/src/main/java/com/bank/bi/service/DataManagementService.java:311-321 | every mapped type is INT, DOUBLE, DATE, TIMESTAMP or a VARCHAR with a length |
| DataManagement.GuessRole | src/backend/src/main/java/com/bank/bi/service/DataManagementService.java:323-327 | a column is a metric exactly when its type is INT or DOUBLE ignoring case, a time exactly when it is DATE or DATETIME, and a dimension otherwise, null included |
| DataManagement.NumericAliasesAreDimensions | src/backend/src/main/java/com/bank/bi/service/DataManagementService.java:316-324 | INTEGER, FLOAT and DECIMAL columns are created as numeric SQL columns but registered as dimensions |
| DataManagement.Placeholders | src/backend/src/main/java/com/bank/bi/service/DataManagementService.java:334-335 | the placeholder list alternates `?` and `,`, starting and ending with `?` |
| DataManagement.PlaceholderCount | src/backend/src/main/java/com/bank/bi/service/DataManagementService.java:334-335 | it holds exactly one `?` per header |
| DataManagement.RepeatedIsPlaceholders | src/backend/src/main/java/com/bank/bi/service/DataManagementService.java:334-335 | appending `?,` once per header and cutting the last character gives that placeholder list |
| DataManagement.BuildInsertSql | src/backend/src/main/java/com/bank/bi/service/DataManagementService.java:329-338 | the StringBuilder loops produce exactly the specified INSERT statement |
| DataManagement.InsertMatchesHeaders | src/backend/src/main/java/com/bank/bi/service/DataManagementService.java:329-338 | for a non-empty header set the statement lists the headers comma-separated, which split back to the headers, and has one placeholder per header |
| DataManagement.GetString | src/backend/src/main/java/com/bank/bi/service/DataManagementService.java:293-298 | no value exactly when none of the keys is present |
| DataManagement.GetStringFirstPresent | src/backend/src/main/java/com/bank/bi/service/DataManagementService.java:294-296 | the value is the text of the first key present, in key order |
| DataManagement.ParseInt | src/backend/src/main/java/com/bank/bi/service/DataManagementService.java:305 | `Integer.parseInt` yields only values within the 32-bit range |
| DataManagement.ParseIntRoundTrip | src/backend/src/main/java/com/bank/bi/service/DataManagementService.java:305 | the decimal text of any 32-bit integer parses back to it |
| DataManagement.ParseIntSigned | src/backend/src/main/java/com/bank/bi/service/DataManagementService.java:305 | an optional `-` or `+` and a digit run read as their signed value when it fits in 32 bits, and throw when it does not |
| DataManagement.ParseIntRejects | src/backend/src/main/java/com/bank/bi/service/DataManagementService.java:305 | text that is not a sign and digits throws |
| DataManagement.Saturate | src/backend/src/main/java/com/bank/bi/service/DataManagementService.java:304 | the `(int)` cast of a large double clamps it to the 32-bit range and keeps values inside it |
| DataManagement.DecimalTruncates | src/backend/src/main/java/com/bank/bi/service/DataManagementService.java:304 | a decimal text is truncated to its whole part, clamped to the 32-bit range |
| DataManagement.GetInteger | src/backend/src/main/java/com/bank/bi/service/DataManagementService.java:300-309 | it fails exactly when reading the text fails, gives no value when no key is present, and any value it gives is within the 32-bit range; the lemmas below give the value of each form of text |
| DataManagement.GetIntegerTruncates | src/backend/src/main/java/com/bank/bi/service/DataManagementService.java:304 | a field holding `w.f` (`w` a non-empty digit run, `f` digits) reads as the value of `w` saturated to 32 bits |
| DataManagement.GetIntegerReadsInt | src/backend/src/main/java/com/bank/bi/service/DataManagementService.java:305 | a field holding the decimal text of a 32-bit integer reads as that integer |
| DataManagement.GetIntegerRejects | src/backend/src/main/java/com/bank/bi/service/DataManagementService.java:305-307 | a field without a point that is not a sign and digits reads as null |
| DataManagement.TablesByDomain | src/backend/src/main/java/com/bank/bi/service/DataManagementService.java:365-372 | a missing, empty or dashboard domain lists every table; otherwise the tables whose domain equals it ignoring case, each as often as in the catalogue, and no other |
| DataManagement.TablesByDomainKeepsOrder | src/backend/src/main/java/com/bank/bi/service/DataManagementService.java:365-372 | the tables of a domain keep the catalogue's order: the answer for two catalogues one after the other is the two answers one after the other |
| DataManagement.TablesByDomainIdempotent | src/backend/src/main/java/com/bank/bi/service/DataManagementService.java:365-372 | filtering the filtered list by the same domain changes nothing |
| DataManagement.Put | src/backend/src/main/java/com/bank/bi/service/DataManagementService.java:284 | putting a key grows the row by one exactly when the key is new |
| DataManagement.PutLookup | src/backend/src/main/java/com/bank/bi/service/DataManagementService.java:284 | after a put, the key reads the new value and every other key reads what it read before |
| DataManagement.PutKeys | src/backend/src/main/java/com/bank/bi/service/DataManagementService.java:284 | a put keeps the key order and appends a new key at the end |
| DataManagement.RecordKeys | src/backend/src/main/java/com/bank/bi/service/DataManagementService.java:282-285 | a record built from distinct headers has exactly the first n headers as keys |
| DataManagement.RecordLookup | src/backend/src/main/java/com/bank/bi/service/DataManagementService.java:282-285 | each of those headers reads the cell in its column |
| DataManagement.BuildRecord | src/backend/src/main/java/com/bank/bi/service/DataManagementService.java:282-285 | the inner loop builds exactly the record over the shorter of the header and the row |
| DataManagement.CsvRecords | src/backend/src/main/java/com/bank/bi/service/DataManagementService.java:268-289 | without a header there are no records; otherwise one record per row from the first data row on, the header row being skipped when it repeats the header |
| DataManagement.FirstRowIsHeader | src/backend/src/main/java/com/bank/bi/service/DataManagementService.java:269-279 | a file without a declared header takes its first row as header and yields one record fewer than it has rows |
| DataManagement.ParseCsv | src/backend/src/main/java/com/bank/bi/service/DataManagementService.java:268-289 | the loop over the rows returns exactly those records |
| DataManagement.LastIndexOf | src/backend/src/main/java/com/bank/bi/service/DataManagementService.java:85 | the last index of the character, or -1 when it does not occur |
| DataManagement.TableNameOf | src/backend/src/main/java/com/bank/bi/service/DataManagementService.java:84-85 | a table name exists exactly when the file name holds a dot, and it is a prefix of the file name |
| DataManagement.TableNameOfBase | src/backend/src/main/java/com/bank/bi/service/DataManagementService.java:85 | the table of `base.ext` is `base` when the extension has no dot |
| DataManagement.Cell | src/backend/src/main/java/com/bank/bi/service/DataManagementService.java:124-129 | a cell is null exactly when the value is null or blank text; otherwise it is the value |
| DataManagement.RowArgs | src/backend/src/main/java/com/bank/bi/service/DataManagementService.java:121-130 | one argument per header, in header order, each the cell of the row's value for that header |
| DataManagement.RowArgsOf | src/backend/src/main/java/com/bank/bi/service/DataManagementService.java:121-130 | the inner loop builds exactly the arguments `RowArgs` gives: one per header, in order, a blank string turned into null |
| DataManagement.BatchArgs | src/backend/src/main/java/com/bank/bi/service/DataManagementService.java:118-132 | one argument list per row, in row order |
| DataManagement.PlanImport | src/backend/src/main/java/com/bank/bi/service/DataManagementService.java:83-143 | a file name without a dot or a table not yet known fails; an empty file does nothing; otherwise the plan inserts into that table with the first row's keys, truncating exactly in overwrite mode (any case), one argument list per row |
| DataManagement.ImportArgsFollowHeaders | src/backend/src/main/java/com/bank/bi/service/DataManagementService.java:102-131 | every argument list has the first row's width, follows its header order and holds no blank text |
| DataManagement.OpOf | src/backend/src/main/java/com/bank/bi/service/DataManagementService.java:183-229 | the tests run in order: `新增` or add (any case) is an add; otherwise `修改` or modify is a modify; otherwise `删除` or delete is a delete; each exactly when so, and none exactly when the operation is null or spells none of the six |
| DataManagement.AlterSql | src/backend/src/main/java/com/bank/bi/service/DataManagementService.java:189-222 | a statement exists except for an add or a modify without a data type, where mapping the type throws |
| DataManagement.OneLinePerOperation | src/backend/src/main/java/com/bank/bi/service/DataManagementService.java:181-231 | the log gets exactly one line per column definition with a recognised operation |
| DataManagement.FailureIsLogged | src/backend/src/main/java/com/bank/bi/service/DataManagementService.java:201-228 | a failing statement logs the operation's failure line with the column name and leaves the column metadata unchanged |
| DataManagement.SuccessUpdatesMetadata | src/backend/src/main/java/com/bank/bi/service/DataManagementService.java:190-225 | a successful statement logs its success line; an add registers the column with the guessed role, a drop removes it, a modify keeps the set of columns |
| DataManagement.ColumnCatalog.AlterTable | src/backend/src/main/java/com/bank/bi/service/DataManagementService.java:181-231 | the loop over the definitions returns exactly the specified log and column metadata |
| DataUpload.Unquote | src/backend/src/backend/src/main/java/com/bank/bi/service/DataManagementService.java:82 | removing one leading and one trailing double quote never lengthens the value |
| DataUpload.DoubleChars | src/backend/src/backend/src/main/java/com/bank/bi/service/DataManagementService.java:85 | a value that fits the decimal pattern is made of digits and dots, with an optional leading minus |
| DataUpload.PatternsNest | src/backend/src/backend/src/main/java/com/bank/bi/service/DataManagementService.java:84-87 | every integer fits the decimal pattern, and no decimal fits the date pattern |
| DataUpload.FlagOnlyFalls | src/backend/src/backend/src/main/java/com/bank/bi/service/DataManagementService.java:75-88 | a type flag, once cleared by a sampled row, stays cleared |
| DataUpload.BlankColumnKeepsFlags | src/backend/src/backend/src/main/java/com/bank/bi/service/DataManagementService.java:79 | a column whose sampled cells are all blank keeps every flag |
| DataUpload.FlagFailsAt | src/backend/src/backend/src/main/java/com/bank/bi/service/DataManagementService.java:84-87 | one non-blank sampled cell that does not fit a pattern clears that flag |
| DataUpload.FlagIsEveryCell | src/backend/src/backend/src/main/java/com/bank/bi/service/DataManagementService.java:75-88 | a type flag after the sampled rows holds exactly when every one of those rows keeps it |
| DataUpload.Fits | src/backend/src/backend/src/main/java/com/bank/bi/service/DataManagementService.java:84-87 | the integer, decimal and date patterns; PatternsNest states that an integer fits the decimal pattern and a decimal never fits the date pattern |
| DataUpload.InferFlags | src/backend/src/backend/src/main/java/com/bank/bi/service/DataManagementService.java:61-89 | the flag arrays have one entry per header, and each flag says whether every non-blank cleaned cell of the first 1000 rows fits its pattern |
| DataUpload.SampleRow | src/backend/src/backend/src/main/java/com/bank/bi/service/DataManagementService.java:76-88 | scanning one more row updates every column's flags to cover that row |
| DataUpload.SampleCell | src/backend/src/backend/src/main/java/com/bank/bi/service/DataManagementService.java:78-87 | scanning one cell updates that column's three flags and no other entry |
| DataUpload.Narrow | src/backend/src/backend/src/main/java/com/bank/bi/service/DataManagementService.java:84-87 | one pattern test updates that flag for the cell and no other entry |
| DataUpload.TypePriority | src/backend/src/backend/src/main/java/com/bank/bi/service/DataManagementService.java:108-112 | a column is INT exactly when its integer flag holds, an all-blank sample gives INT, and a sampled cell fitting none of the patterns gives VARCHAR(1000) |
| DataUpload.InferredType | src/backend/src/backend/src/main/java/com/bank/bi/service/DataManagementService.java:108-112 | the column type chosen from the flags; TypePriority states INT, then DOUBLE, then DATE, then VARCHAR(1000), and when each is chosen |
| DataUpload.SafeColumnName | src/backend/src/backend/src/main/java/com/bank/bi/service/DataManagementService.java:102-106 | the column name is made of word characters, replaces every other character by an underscore, and gets the `col_` prefix exactly when the header starts with a digit |
| DataUpload.WordOrUnderscore | src/backend/src/backend/src/main/java/com/bank/bi/service/DataManagementService.java:103 | word characters are kept and any other character becomes a word character |
| DataUpload.SafeColumnNameIdempotent | src/backend/src/backend/src/main/java/com/bank/bi/service/DataManagementService.java:102-106 | making a safe name safe again changes nothing, and a word not starting with a digit is its own safe name |
| DataUpload.BareType | src/backend/src/backend/src/main/java/com/bank/bi/service/DataManagementService.java:120 | the stored type is a prefix of the SQL type without a parenthesis |
| DataUpload.Columns | src/backend/src/backend/src/main/java/com/bank/bi/service/DataManagementService.java:101-122 | one column of metadata per header |
| DataUpload.Definitions | src/backend/src/backend/src/main/java/com/bank/bi/service/DataManagementService.java:101-115 | one column definition per header |
| DataUpload.BuildCreateTableSql | src/backend/src/backend/src/main/java/com/bank/bi/service/DataManagementService.java:95-125 | the StringBuilder loop produces exactly the specified CREATE TABLE statement |
| DataUpload.RowArguments | src/backend/src/backend/src/main/java/com/bank/bi/service/DataManagementService.java:143-150 | one argument per cell |
| DataUpload.RowArgumentAt | src/backend/src/backend/src/main/java/com/bank/bi/service/DataManagementService.java:144-149 | each argument is the cleaned cell, and it is null exactly when the cell is blank |
| DataUpload.CellArgs | src/backend/src/backend/src/main/java/com/bank/bi/service/DataManagementService.java:142-150 | the inner loop builds exactly those arguments |
| DataUpload.BatchArgs | src/backend/src/backend/src/main/java/com/bank/bi/service/DataManagementService.java:137-153 | the loop over the rows builds exactly the specified batch |
| DataUpload.BatchNoLonger | src/backend/src/backend/src/main/java/com/bank/bi/service/DataManagementService.java:138-153 | the batch never has more rows than the file |
| DataUpload.BatchFull | src/backend/src/backend/src/main/java/com/bank/bi/service/DataManagementService.java:140 | every row reaches the batch exactly when every row has as many cells as there are headers |
| DataUpload.BatchMembers | src/backend/src/backend/src/main/java/com/bank/bi/service/DataManagementService.java:140-151 | every batch entry is the argument list of a row of the right width |
| DataUpload.HeaderAndData | src/backend/src/backend/src/main/java/com/bank/bi/service/DataManagementService.java:53-58 | a non-empty declared header is used with all rows; otherwise the first row is the header and the rest are the data |
| DataUpload.UploadData | src/backend/src/backend/src/main/java/com/bank/bi/service/DataManagementService.java:42-176 | the upload returns exactly the specified table, statements, batch and columns, or the empty-file error |
| DataUpload.UploadSpec | src/backend/src/backend/src/main/java/com/bank/bi/service/DataManagementService.java:42-176 | `uploadData` for a parsed file; UploadData computes it and RowCountIncludesSkipped states the row count it records |
| DataUpload.RowCountIncludesSkipped | src/backend/src/backend/src/main/java/com/bank/bi/service/DataManagementService.java:138-161 | the recorded row count is the number of data rows, which is at least the number inserted, and equal exactly when every data row has the header's width |
| DataUpload.GuardQuery | src/backend/src/backend/src/main/java/com/bank/bi/service/DataManagementService.java:188-201 | the guard's two tests as the code writes them: refuse unless the trimmed upper-cased text starts with SELECT or WITH, append ` LIMIT 100` unless that text contains LIMIT; what they guarantee is stated by DataUpload.GuardedQueryHasLimit |
| DataUpload.UpperContains | src/backend/src/backend/src/main/java/com/bank/bi/service/DataManagementService.java:190 | upper-casing keeps an occurrence, upper-cased |
| DataUpload.TrimmedOccurrence | src/backend/src/backend/src/main/java/com/bank/bi/service/DataManagementService.java:190-196 | a word found in the trimmed upper-cased text is found in the upper-cased text |
| DataUpload.ClauseHasLimit | src/backend/src/backend/src/main/java/com/bank/bi/service/DataManagementService.java:197 | the appended clause contains LIMIT |
| DataUpload.GuardedQueryHasLimit | src/backend/src/backend/src/main/java/com/bank/bi/service/DataManagementService.java:190-200 | every query the guard lets through contains LIMIT |
| PanelItems.DefaultsComplete | src/backend/src/backend/src/main/java/com/bank/bi/service/PanelService.java:33-52 | after the defaults every layout field is present, the owner is set, given values and the texts are kept, and applying the defaults again changes nothing |
| PanelItems.WithDefaults | src/backend/src/backend/src/main/java/com/bank/bi/service/PanelService.java:33-52 | the defaults of `addPanelItem`; DefaultsComplete states that every layout field is then present and that given fields are kept |
| PanelItems.Overlay | src/backend/src/backend/src/main/java/com/bank/bi/service/PanelService.java:73-91 | the copy of `updatePanelItem` keeps the item's id and owner; OverlayLaws states that each non-null field of the update overwrites and nothing else changes |
| PanelItems.OverlayLaws | src/backend/src/backend/src/main/java/com/bank/bi/service/PanelService.java:73-91 | an empty update changes nothing, repeating an update changes nothing more, a null field keeps its value and a non-null one overwrites it |
| PanelItems.Relaid | src/backend/src/backend/src/main/java/com/bank/bi/service/PanelService.java:125-129 | the layout copy keeps the id, the owner and the texts |
| PanelItems.LayoutKeepsOwnership | src/backend/src/backend/src/main/java/com/bank/bi/service/PanelService.java:120-132 | the layout update keeps the set of ids, every owner, id and text, and leaves other users' items unchanged |
| PanelItems.LayoutLastWins | src/backend/src/backend/src/main/java/com/bank/bi/service/PanelService.java:121-131 | the last layout entry for an owned item decides its four layout fields, nulls included |
| PanelItems.ApplyLayout | src/backend/src/backend/src/main/java/com/bank/bi/service/PanelService.java:120-132 | the layout list applied in order; LayoutKeepsOwnership and LayoutLastWins state that only the user's items change and the last entry for an id wins |
| PanelItems.PanelItemStore.AddPanelItem | src/backend/src/backend/src/main/java/com/bank/bi/service/PanelService.java:33-58 | the saved item is the request with the defaults, the row default being the owner's count, under a fresh id, and nothing else changes |
| PanelItems.PanelItemStore.UpdatePanelItem | src/backend/src/backend/src/main/java/com/bank/bi/service/PanelService.java:64-97 | a missing item or another user's item fails and changes nothing; otherwise the overlay replaces exactly that item |
| PanelItems.PanelItemStore.DeletePanelItem | src/backend/src/backend/src/main/java/com/bank/bi/service/PanelService.java:103-114 | a missing item or another user's item fails and changes nothing; otherwise exactly that item is removed |
| PanelItems.PanelItemStore.UpdateLayout | src/backend/src/backend/src/main/java/com/bank/bi/service/PanelService.java:119-135 | the loop gives exactly the specified layout update, and a null id leaves the items as they were |
| Panels.MergedKeepsPersonal | src/backend/src/main/java/com/bank/bi/service/PanelService.java:30-43 | the user's own panels come first, in order, and everything after them is a team panel |
| Panels.MergedCoversTeam | src/backend/src/main/java/com/bank/bi/service/PanelService.java:32-43 | every team panel's id is in the list |
| Panels.MergedDistinct | src/backend/src/main/java/com/bank/bi/service/PanelService.java:32-43 | when the user's own panels have distinct ids, so does the whole list |
| Panels.MergedOfNoPersonal | src/backend/src/main/java/com/bank/bi/service/PanelService.java:32-43 | with no own panels the list is the team panels, when their ids are distinct |
| Panels.Merged | src/backend/src/main/java/com/bank/bi/service/PanelService.java:30-43 | the merge of `getUserPanels`; MergedKeepsPersonal, MergedCoversTeam and MergedDistinct state what it holds |
| Panels.MergedOfStore | src/backend/src/main/java/com/bank/bi/service/PanelService.java:26-45 | with the personal and team lists drawn from the store, the merge holds exactly the stored panels the user owns or that are team panels |
| Panels.PanelStore.GetUserPanels | src/backend/src/main/java/com/bank/bi/service/PanelService.java:26-45 | given the stored panels the user owns and the stored team panels, the nested loops build exactly their merge, which holds exactly the stored panels the user owns or that are team panels |
| Panels.PanelStore.CreatePanel | src/backend/src/main/java/com/bank/bi/service/PanelService.java:47-56 | a new panel under a fresh id with the given name, owner and type and no items; nothing else changes |
| Panels.PanelStore.PinItem | src/backend/src/main/java/com/bank/bi/service/PanelService.java:58-82 | a missing panel fails and changes nothing; otherwise one new item on that panel under a fresh id carries the three texts |
| Panels.PanelStore.DeletePanel | src/backend/src/main/java/com/bank/bi/service/PanelService.java:84-94 | a missing panel fails and changes nothing; otherwise that panel and exactly its items are removed, whoever asks |
| Panels.PanelStore.DeleteItem | src/backend/src/main/java/com/bank/bi/service/PanelService.java:96-100 | exactly that item is removed, whoever asks, and an unknown id changes nothing |
| PinnedBoard.GridPosition | src/backend/src/App.tsx:167-170 | a slot lies in one of the two columns and below the top margin |
| PinnedBoard.GridPositionInjective | src/backend/src/App.tsx:203-213 | different indices get different slots |
| PinnedBoard.PinAppends | src/backend/src/App.tsx:160-175 | pinning keeps the cards and appends one card with the answer, the next free slot, the default size and its generator; an arranged board stays arranged |
| PinnedBoard.UnpinRemovesExactly | src/backend/src/App.tsx:177-178 | unpinning leaves no card with that id, keeps every other card in order, and repeating it changes nothing |
| PinnedBoard.MoveResizeLocal | src/backend/src/App.tsx:184-194 | moving changes only the matching cards' positions and resizing only their sizes; the two commute and repeating either changes nothing |
| PinnedBoard.AutoArrangeLaws | src/backend/src/App.tsx:203-213 | arranging keeps everything but the positions, gives distinct cards distinct slots, is idempotent, and agrees with pinning onto an arranged board |
| PinnedBoard.PersistRoundTrip | src/backend/src/App.tsx:120-145 | loading what was saved gives the board back exactly when each generator is the one rebuilt from its card, and saving what was loaded gives back what was saved |
| PinnedBoard.UnpinKeepsStorage | src/backend/src/App.tsx:139-182 | with distinct ids, unpinning keeps storage in step with a non-empty board and clears it when the last card goes |
| PinnedBoard.DuplicateIdsLeaveStaleStorage | src/backend/src/App.tsx:140-182 | two cards with one id, unpinned together, leave the stale list saved |
| PinnedBoard.Pin | src/backend/src/App.tsx:160-175 | `handlePin`; PinAppends states the card added and where it sits |
| PinnedBoard.Unpin | src/backend/src/App.tsx:177-178 | the list of `handleUnpin`; UnpinRemovesExactly states what is removed and what kept |
| PinnedBoard.UnpinBoard | src/backend/src/App.tsx:177-182 | `handleUnpin` with its storage effects; UnpinKeepsStorage and DuplicateIdsLeaveStaleStorage state them |
| PinnedBoard.Move | src/backend/src/App.tsx:184-188 | `handleUpdatePosition`; MoveResizeLocal states that only the matching cards' positions change |
| PinnedBoard.Resize | src/backend/src/App.tsx:190-194 | `handleUpdateSize`; MoveResizeLocal states that only the matching cards' sizes change |
| PinnedBoard.AutoArrange | src/backend/src/App.tsx:203-213 | `handleAutoArrange`; AutoArrangeLaws states that only positions change and every card gets its own slot |
| PinnedBoard.Strip | src/backend/src/App.tsx:139-145 | the saved form of the cards; PersistRoundTrip states that loading it gives the board back |
| PinnedBoard.Restore | src/backend/src/App.tsx:120-137 | the loaded cards; PersistRoundTrip states that they are the saved board |
| KnowledgeBase.LibraryLookup | src/components/KnowledgeBase.tsx:173-203 | writing a known library's list changes only that list, and an unknown library reads as the all-staff list and is never written |
| KnowledgeBase.TagListPieces | src/components/KnowledgeBase.tsx:226 | every piece of the split tag text is trimmed and comma-free, and every parsed tag is also non-empty |
| KnowledgeBase.TagListOfJoin | src/components/KnowledgeBase.tsx:245-261 | splitting the comma-joined pieces gives the pieces back |
| KnowledgeBase.ParseJoin | src/components/KnowledgeBase.tsx:245-261 | parsing the comma-joined tags gives back the non-empty ones |
| KnowledgeBase.EditedTagsRoundTrip | src/components/KnowledgeBase.tsx:245-296 | opening a document's clean tags for editing and saving them unchanged keeps them |
| KnowledgeBase.AddCommonTagAppends | src/components/KnowledgeBase.tsx:1049-1053 | adding a common tag already present changes nothing; otherwise the parsed tags gain that tag at the end |
| KnowledgeBase.RemoveTagDrops | src/components/KnowledgeBase.tsx:1075-1077 | removing a tag drops every copy of it and keeps the other parsed tags in order |
| KnowledgeBase.SearchFilter | src/components/KnowledgeBase.tsx:205-213 | a blank query shows the whole library; otherwise a document is shown exactly when its name, category or a tag contains the lower-cased query |
| KnowledgeBase.FileKind | src/components/KnowledgeBase.tsx:231 | the document type is never empty |
| KnowledgeBase.UploadLaws | src/components/KnowledgeBase.tsx:216-237 | a missing name or category changes nothing; otherwise the new document comes first, followed by the documents the search showed |
| KnowledgeBase.SaveEditLaws | src/components/KnowledgeBase.tsx:252-270 | with no document open nothing changes; otherwise the library becomes the shown documents with the open one's name, category and tags replaced |
| KnowledgeBase.SaveTagsLaws | src/components/KnowledgeBase.tsx:289-305 | with no document open nothing changes; otherwise the library becomes the shown documents with the open one's tags replaced |
| KnowledgeBase.DeleteLaws | src/components/KnowledgeBase.tsx:273-277 | the library keeps exactly the shown documents with another id |
| KnowledgeBase.HiddenNotVisible | src/components/KnowledgeBase.tsx:205-213 | a document the non-blank query does not match is not shown |
| KnowledgeBase.HiddenDroppedByDelete | src/components/KnowledgeBase.tsx:205-277 | deleting while a search hides a document removes that document from the library too |
| KnowledgeBase.HiddenDroppedByEdit | src/components/KnowledgeBase.tsx:205-270 | saving an edit while a search hides another document removes it from the library |
| KnowledgeBase.HiddenDroppedByRetag | src/components/KnowledgeBase.tsx:205-305 | saving tags while a search hides another document removes it from the library |
| KnowledgeBase.HiddenDroppedByUpload | src/components/KnowledgeBase.tsx:205-237 | uploading while a search hides a document removes it from the library |
| KnowledgeBase.DocsFor | src/components/KnowledgeBase.tsx:173-186 | `getDocsForLibrary`; LibraryLookup states the read and write of each library |
| KnowledgeBase.WithDocs | src/components/KnowledgeBase.tsx:188-203 | `setDocumentsByLibrary`; LibraryLookup states that only the active library changes |
| KnowledgeBase.TagList | src/components/KnowledgeBase.tsx:1050 | the trimmed pieces of a tag text; TagListPieces and TagListOfJoin state their shape and the round trip through joining |
| KnowledgeBase.ParseTags | src/components/KnowledgeBase.tsx:226 | the tags of a tag text; ParseJoin and EditedTagsRoundTrip state the round trip through joining |
| KnowledgeBase.AddCommonTag | src/components/KnowledgeBase.tsx:1049-1053 | the common-tag shortcut; AddCommonTagAppends states it |
| KnowledgeBase.RemoveTag | src/components/KnowledgeBase.tsx:1075-1077 | the tag-removal shortcut; RemoveTagDrops states it |
| KnowledgeBase.Visible | src/components/KnowledgeBase.tsx:205-213 | `currentDocs`; SearchFilter states which documents are shown |
| KnowledgeBase.Upload | src/components/KnowledgeBase.tsx:216-237 | `handleUpload`; UploadLaws states it |
| KnowledgeBase.SaveEdit | src/components/KnowledgeBase.tsx:252-270 | `handleSaveEdit`; SaveEditLaws states it |
| KnowledgeBase.SaveTags | src/components/KnowledgeBase.tsx:289-305 | `handleSaveTags`; SaveTagsLaws states it |
| KnowledgeBase.Delete | src/components/KnowledgeBase.tsx:273-277 | `handleDelete`; DeleteLaws states it |

## Left out

- External calls are parameters of the model: the language-model chat (`HiAgentService.chat`, the completion client of the router, `multiRoundChat`), JDBC execution, Jackson's `readValue` and `writeValueAsString`, `KnowledgeService.ask`, the Hutool CSV reader and SnakeYAML. Their timeouts, HTTP details and internal behaviour are not modelled.
- The JPA repositories are maps from id to entity, with ids from counters. Their query ordering is not modelled: `getUserPanels` takes the personal and team lists as given. Database constraint failures are not modelled either.
- Java `HashMap` iteration order is unspecified. Rows are ordered key/value lists, and "first" or "in order" means the list order.
- Numbers are unbounded integers. Floating-point values, `toFixed` file sizes and numeric precision are not modelled, and a value is only tagged as number, string, null or other.
- Strings are sequences of code points. Java counts UTF-16 units, which differs only for supplementary characters. Case mapping covers ASCII letters only.
- `UUID.randomUUID`, `Date.now`, `new Date()` and the generated ids are parameters. `createDataGenerator`'s random output is not modelled: a generator is identified by the category and the query it is built from.
- Logging, `recordAudit` and the `log.info` calls are not modelled.
- HiAgent.Analyze: the text of the analysis prompt and the model's answer are not modelled. The contract states which rows the prompt receives, not the prompt's wording.
- HiAgent.AnalyzeQuery: the schema description and the repair prompt's wording are opaque text passed to the model oracle.
- SafeQueryBuilder.CompileFails: a null element of `filters`, `columns` or `orderBy` makes `buildSql` throw a NullPointerException (at `f.getColumn()` on SafeQueryBuilder.java:86, `col.matches` on line 152 and `s.matches` on line 131). The model's lists hold no null elements, so these failures are not modelled.
- SqlPatterns.EscapeReadsBack: literals are read as standard SQL reads them, where `''` is the only escape. MySQL's default mode also takes a backslash as an escape, which this reading does not model.
- SqlPatterns.QuoteReadsBack: the same standard-SQL reading of literals; the backslash escape of MySQL's default mode is not modelled.
- SqlLexer.CorrectedQueryIsCode: the lexer takes `''` as the only escape in a literal, so a value holding a backslash is read as standard SQL reads it and not as MySQL's default mode does. The lexer also takes every `--` for a comment, where MySQL wants a blank after it.
- SkillRegistry.Override: only a front matter that SnakeYAML loads into a map is modelled. An entry of another type that makes the overriding code throw after some fields were already set is folded into the "loading failed" case. A `version` key present with a null value is read as absent, so the model gives `1.0` where `getOrDefault` gives null.
- SkillRegistry.ParseSkillMd: the `- ` list-item branch of the line parser has an empty body, so those lines change nothing; multi-line `trigger_keywords` lists are therefore never read by the manual parser. The `schema` object of a skill definition is carried as opaque JSON text.
- AgentWorkflow.QueryPrompt: the skill's schema is held as the JSON text `writeValueAsString` makes of it. A failure of that call, which the code logs before it keeps the prompt without the schema (AgentWorkflowService.java:211-216), is not modelled.
- AgentWorkflow.Store.CountTurn: `messageCount` is a Java `Integer` that each turn raises by two (AgentWorkflowService.java:113 and 166, HiAgentService.java:156). It wraps past 2^31 - 1; the model's count is unbounded.
- AgentWorkflow.ChatTurnCommits: the count is unbounded here too; the `Integer` wrap-around of HiAgentService.java:156 is not modelled.
- DataManagement.GetInteger: `Double.parseDouble` also accepts exponents, hexadecimal forms, `NaN`, `Infinity` and type suffixes. The model parses plain decimals only and gives null for those other forms.
- DataManagement.ParseInt: `Integer.parseInt` reads any Unicode decimal digit (`Character.digit(c, 10)`), such as the fullwidth `１００`. The model reads ASCII digits only and gives null for text with other digits. `ParseTruncated` is ASCII-only as `Double.parseDouble` is.
- AgentWorkflow.KnowledgeAnswer: the `answer` entry is a string or null, as `KnowledgeService.ask` puts it (KnowledgeService.java:232). A value of another type would make the `(String)` cast throw; that failure is not modelled. A document whose title or file type is null makes `Map.of` throw inside `ask`, which the model folds into the failure of the retrieval call.
- `parseDataFile`'s Excel branch, `importSchema`, `parseSchemaFile`, `createTable` and `updateColumn` of `DataManagementService` are not part of this model. They are file readers and thin JDBC wrappers.
- PanelItems.PanelItemStore.AddPanelItem: a request that already carries an existing id would be merged by JPA into that row. The model always saves under a fresh id.
- `handleClearAll` of the pinned board, and failures while parsing local storage in the board's loader, are not modelled. A failed parse only logs and leaves the board empty.
- PinnedBoard.PersistRoundTrip: the `Date` object a timestamp becomes on loading is modelled as the same millisecond number.
- React rendering, dialogs and `confirm` prompts are not modelled; a confirmed action is the handler's effect.

## Findings

| source | as written | input that shows it | evidently intended | confidence | as-written member | corrected member |
|---|---|---|---|---|---|---|
| src/backend/src/main/java/com/bank/bi/service/agent/AgentWorkflowService.java:258-261 | the fallback query requests the column `*`; `sanitizeColumn` (SafeQueryBuilder.java:150-155) accepts only identifiers and aggregates, so it turns `*` into `1` | any failure of the model call or of the JSON parse: the SQL becomes `SELECT 1 FROM deposit LIMIT 50` | a query over all columns of `deposit`: `SELECT * FROM deposit LIMIT 50` (a request with no columns gives `*`) | not executed | AgentWorkflow.WrittenFallbackSelectsOne | AgentWorkflow.FallbackQuerySql |
| src/backend/src/main/java/com/bank/bi/util/SafeQueryBuilder.java:168-177 | a value whose trimmed upper-case form starts with a date function and that uses only letters, digits, `_`, parentheses, `+`, `-` and blanks is emitted unquoted, and `--` is made of those characters | a filter value `NOW() --` under scope `B`: the query ends `d > NOW() -- AND branch = 'B' LIMIT 100`, and MySQL reads the branch condition and the LIMIT as a comment | the row-level scope condition and the LIMIT always apply; a value holding `--` is quoted like any other text | not executed | SqlLexer.CommentHidesScope | SqlLexer.CorrectedQueryIsCode |
