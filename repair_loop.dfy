/**
 * The execute-and-repair loop of `analyzeData`: a query is executed; when
 * the database rejects it, the model is asked for a corrected query
 * request, which is prepared into the next query, until one execution
 * succeeds, a repair cannot be obtained, or ten executions have failed.
 * The database, the model and the preparation of a reply are parameters.
 */
module RepairLoop {
  import opened Common

  /** `maxRetries`: the number of executions the loop allows. */
  const MaxRetries: nat := 10

  /** Why `analyzeData` gives up. */
  datatype AnalysisError<E> =
    | Unprepared(cause: E)
    | RepairCallFailed              // the repair call to the model throws
    | RetriesExhausted(msg: string) // the tenth execution fails

  /** What the repair request tells the model. */
  datatype RepairPrompt = RepairPrompt(schema: string, query: string, failedSql: string, error: string)

  /** The database: the result of running `sql` at attempt `k`, or the error message. */
  type Database = (nat, string) -> Result<seq<Row>, string>

  /** The repair call to the model at attempt `k`: its reply, or `None` when the call throws. */
  type RepairModel = (nat, RepairPrompt) -> Option<string>

  /** Turns a reply of the model into the next query to run, or says why it cannot. */
  type Preparer<E> = string -> Result<string, E>

  /** The query is one that `prep` can produce. */
  ghost predicate Prepared<E>(prep: Preparer<E>, q: string) {
    exists reply :: prep(reply) == Success(q)
  }

  /** How one pass of the loop body ends: the analysis stops, or the next query is to run. */
  datatype Step<E> = Stop(outcome: Result<(string, seq<Row>), AnalysisError<E>>) | Next(sql: string)

  /**
   * Attempt `k` runs `sql`: success stops the loop; a failure at the last
   * attempt stops it with the message; otherwise the repair reply is
   * prepared into the next query, and a failing call or preparation stops it.
   */
  function Attempt<E>(db: Database, model: RepairModel, prep: Preparer<E>, schema: string, query: string,
                      k: nat, sql: string): (s: Step<E>)
    ensures s.Next? ==> k + 1 < MaxRetries && db(k, sql).Failure? && Prepared(prep, s.sql)
    ensures s.Stop? && s.outcome.Success? ==> s.outcome.value.0 == sql && db(k, sql) == Success(s.outcome.value.1)
    ensures s.Stop? && s.outcome.Failure? && s.outcome.error.RetriesExhausted? ==>
              k + 1 >= MaxRetries && db(k, sql) == Failure(s.outcome.error.msg)
  {
    match db(k, sql)
    case Success(rows) => Stop(Success((sql, rows)))
    case Failure(msg) =>
      if k + 1 >= MaxRetries then Stop(Failure(RetriesExhausted(msg)))
      else match model(k + 1, RepairPrompt(schema, query, sql, msg))
        case None => Stop(Failure(RepairCallFailed))
        case Some(reply) =>
          match prep(reply)
          case Failure(e) => Stop(Failure(Unprepared(e)))
          case Success(next) => Next(next)
  }

  /** The queries executed, in order, and how the analysis ends. */
  datatype Trace<E> = Trace(executed: seq<string>, outcome: Result<(string, seq<Row>), AnalysisError<E>>)

  /**
   * The loop from attempt `k` on, with `sql` (built from `req`) to run
   * next. Between 1 and `MaxRetries - k` queries run, the first being `sql`
   * and every later one produced by `prep`; all but the last failed; a
   * success returns the rows of the last query; `RetriesExhausted` comes
   * only when the query of the last attempt failed with that message.
   */
  function RunFrom<E>(db: Database, model: RepairModel, prep: Preparer<E>, schema: string, query: string,
                      k: nat, sql: string): (t: Trace<E>)
    requires k < MaxRetries
    decreases MaxRetries - k
  {
    match Attempt(db, model, prep, schema, query, k, sql)
    case Stop(outcome) => Trace([sql], outcome)
    case Next(sql') =>
      var t := RunFrom(db, model, prep, schema, query, k + 1, sql');
      var executed := [sql] + t.executed;
      Trace(executed, t.outcome)
  }

  /** One pass of the loop body at attempt `k`. */
  method RunAttempt<E>(db: Database, model: RepairModel, prep: Preparer<E>, schema: string, query: string,
                    k: nat, sql: string) returns (step: Step<E>)
    ensures step == Attempt(db, model, prep, schema, query, k, sql)
  {
    var result := db(k, sql);
    if result.Success? {
      return Stop(Success((sql, result.value)));
    }
    if k + 1 >= MaxRetries {
      return Stop(Failure(RetriesExhausted(result.error)));
    }
    var repaired := model(k + 1, RepairPrompt(schema, query, sql, result.error));
    if repaired.None? {
      return Stop(Failure(RepairCallFailed));
    }
    var next := prep(repaired.value);
    if next.Failure? {
      return Stop(Failure(Unprepared(next.error)));
    }
    return Next(next.value);
  }

  /** `RunFrom` after one attempt: a stop ends the trace, a next query continues it. */
  lemma RunFromStep<E>(db: Database, model: RepairModel, prep: Preparer<E>, schema: string, query: string,
                       k: nat, sql: string, step: Step<E>)
    requires k < MaxRetries && step == Attempt(db, model, prep, schema, query, k, sql)
    ensures step.Stop? ==> RunFrom(db, model, prep, schema, query, k, sql).outcome == step.outcome
    ensures step.Next? ==>
      RunFrom(db, model, prep, schema, query, k, sql).outcome ==
      RunFrom(db, model, prep, schema, query, k + 1, step.sql).outcome
  {
  }

  method ExecuteWithRepair<E>(db: Database, model: RepairModel, prep: Preparer<E>, schema: string, query: string,
                              sql0: string)
    returns (outcome: Result<(string, seq<Row>), AnalysisError<E>>)
    ensures outcome == RunFrom(db, model, prep, schema, query, 0, sql0).outcome
  {
    ghost var total := RunFrom(db, model, prep, schema, query, 0, sql0).outcome;
    var sql := sql0;
    var retryCount := 0;
    var lastError := "";
    while retryCount < MaxRetries
      invariant retryCount <= MaxRetries
      invariant retryCount < MaxRetries ==> RunFrom(db, model, prep, schema, query, retryCount, sql).outcome == total
      invariant retryCount == MaxRetries ==> total == Failure(RetriesExhausted(lastError))
      decreases MaxRetries - retryCount
    {
      var step := RunAttempt(db, model, prep, schema, query, retryCount, sql);
      RunFromStep(db, model, prep, schema, query, retryCount, sql, step);
      match step
      case Stop(end) =>
        if end.Failure? && end.error.RetriesExhausted? {
          lastError := end.error.msg;
          retryCount := MaxRetries;
        } else {
          return end;
        }
      case Next(next) =>
        retryCount := retryCount + 1;
        sql := next;
    }
    outcome := Failure(RetriesExhausted(lastError));
  }


  lemma {:induction false} RunFromLength<E>(db: Database, model: RepairModel, prep: Preparer<E>, schema: string, query: string,
                      k: nat, sql: string)
    requires k < MaxRetries
    ensures var t := RunFrom(db, model, prep, schema, query, k, sql);
      1 <= |t.executed| <= MaxRetries - k && t.executed[0] == sql
    decreases MaxRetries - k
  {
    match Attempt(db, model, prep, schema, query, k, sql)
    case Stop(_) =>
    case Next(sql') =>
      RunFromLength(db, model, prep, schema, query, k + 1, sql');
  }

  lemma {:induction false} RunFromFailedBefore<E>(db: Database, model: RepairModel, prep: Preparer<E>, schema: string, query: string,
                      k: nat, sql: string)
    requires k < MaxRetries
    ensures var t := RunFrom(db, model, prep, schema, query, k, sql);
      forall i :: 0 <= i < |t.executed| - 1 ==> db(k + i, t.executed[i]).Failure?
    decreases MaxRetries - k
  {
    var executed := RunFrom(db, model, prep, schema, query, k, sql).executed;
    forall i | 0 <= i < |executed| - 1
      ensures db(k + i, executed[i]).Failure?
    {
      RunFromFailedAt(db, model, prep, schema, query, k, sql, i);
    }
  }

  /** The query at position `i` of the trace, when a later one follows, failed at attempt `k + i`. */
  lemma {:induction false} RunFromFailedAt<E>(db: Database, model: RepairModel, prep: Preparer<E>, schema: string, query: string,
                      k: nat, sql: string, i: nat)
    requires k < MaxRetries
    requires i + 1 < |RunFrom(db, model, prep, schema, query, k, sql).executed|
    ensures db(k + i, RunFrom(db, model, prep, schema, query, k, sql).executed[i]).Failure?
    decreases i
  {
    var step := Attempt(db, model, prep, schema, query, k, sql);
    assert step.Next?;
    if i > 0 {
      RunFromFailedAt(db, model, prep, schema, query, k + 1, step.sql, i - 1);
      assert k + i == (k + 1) + (i - 1);
    }
  }

  lemma {:induction false} RunFromPrepared<E>(db: Database, model: RepairModel, prep: Preparer<E>, schema: string, query: string,
                      k: nat, sql: string)
    requires k < MaxRetries
    ensures var t := RunFrom(db, model, prep, schema, query, k, sql);
      forall i :: 1 <= i < |t.executed| ==> Prepared(prep, t.executed[i])
    decreases MaxRetries - k
  {
    match Attempt(db, model, prep, schema, query, k, sql)
    case Stop(_) =>
    case Next(sql') =>
      RunFromPrepared(db, model, prep, schema, query, k + 1, sql');
      var t := RunFrom(db, model, prep, schema, query, k + 1, sql');
      var executed := [sql] + t.executed;
      RunFromLength(db, model, prep, schema, query, k + 1, sql');
      assert RunFrom(db, model, prep, schema, query, k, sql).executed == executed;
      forall i | 1 <= i < |executed|
        ensures Prepared(prep, executed[i])
      {
        assert executed[i] == t.executed[i - 1];
      }
  }

  lemma {:induction false} RunFromSuccess<E>(db: Database, model: RepairModel, prep: Preparer<E>, schema: string, query: string,
                      k: nat, sql: string)
    requires k < MaxRetries
    ensures var t := RunFrom(db, model, prep, schema, query, k, sql);
      t.outcome.Success? ==>
        t.outcome.value.0 == t.executed[|t.executed| - 1] &&
        db(k + |t.executed| - 1, t.executed[|t.executed| - 1]) == Success(t.outcome.value.1)
    decreases MaxRetries - k
  {
    match Attempt(db, model, prep, schema, query, k, sql)
    case Stop(_) =>
    case Next(sql') =>
      RunFromSuccess(db, model, prep, schema, query, k + 1, sql');
  }

  lemma {:induction false} RunFromExhausted<E>(db: Database, model: RepairModel, prep: Preparer<E>, schema: string, query: string,
                      k: nat, sql: string)
    requires k < MaxRetries
    ensures var t := RunFrom(db, model, prep, schema, query, k, sql);
      t.outcome.Failure? && t.outcome.error.RetriesExhausted? ==>
        k + |t.executed| == MaxRetries &&
        db(MaxRetries - 1, t.executed[|t.executed| - 1]) == Failure(t.outcome.error.msg)
    decreases MaxRetries - k
  {
    match Attempt(db, model, prep, schema, query, k, sql)
    case Stop(_) =>
    case Next(sql') =>
      RunFromExhausted(db, model, prep, schema, query, k + 1, sql');
  }

  /**
   * The whole query part: the first reply of the model is prepared, and
   * either the analysis stops without running anything or the loop starts
   * at attempt 0 with the prepared query.
   */
  function Begin<E>(db: Database, model: RepairModel, prep: Preparer<E>, schema: string, query: string,
                    first: Result<string, E>): Trace<E>
  {
    match first
    case Failure(e) => Trace([], Failure(Unprepared(e)))
    case Success(sql) => RunFrom(db, model, prep, schema, query, 0, sql)
  }

  /**
   * At most `MaxRetries` queries run; none when the first reply cannot be
   * prepared, else the first is the prepared one and every later one is
   * produced by `prep` from a repair reply; every query but the last
   * failed; the loop stops at the first success, whatever the number of
   * rows, and returns that query and its rows; `RetriesExhausted` comes
   * after exactly `MaxRetries` failed executions.
   */
  lemma BeginSpec<E>(db: Database, model: RepairModel, prep: Preparer<E>, schema: string, query: string,
                     first: Result<string, E>)
    ensures var t := Begin(db, model, prep, schema, query, first);
      |t.executed| <= MaxRetries &&
      (first.Failure? <==> t.executed == []) &&
      (first.Failure? ==> t.outcome == Failure(Unprepared(first.error))) &&
      (first.Success? ==> t.executed[0] == first.value)
    ensures var t := Begin(db, model, prep, schema, query, first);
      forall i :: 1 <= i < |t.executed| ==> Prepared(prep, t.executed[i])
    ensures var t := Begin(db, model, prep, schema, query, first);
      forall i :: 0 <= i < |t.executed| - 1 ==> db(i, t.executed[i]).Failure?
    ensures var t := Begin(db, model, prep, schema, query, first);
      t.outcome.Success? ==>
        t.executed != [] && t.outcome.value.0 == t.executed[|t.executed| - 1] &&
        db(|t.executed| - 1, t.executed[|t.executed| - 1]) == Success(t.outcome.value.1)
    ensures var t := Begin(db, model, prep, schema, query, first);
      t.outcome.Failure? && t.outcome.error.RetriesExhausted? ==>
        |t.executed| == MaxRetries && forall i :: 0 <= i < MaxRetries ==> db(i, t.executed[i]).Failure?
  {
    if first.Success? {
      var sql := first.value;
      RunFromLength(db, model, prep, schema, query, 0, sql);
      RunFromPrepared(db, model, prep, schema, query, 0, sql);
      RunFromFailedBefore(db, model, prep, schema, query, 0, sql);
      RunFromSuccess(db, model, prep, schema, query, 0, sql);
      RunFromExhausted(db, model, prep, schema, query, 0, sql);
    }
  }
}
