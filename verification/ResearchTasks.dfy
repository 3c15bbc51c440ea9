/** `ResearchTaskRuntime`: task rows, the counters of their jobs and the event log, changed together
    under a row lock. */
module ResearchTasks {
  import opened TaskDag
  import opened ResearchGraph
  import opened RollUp

  datatype Option<T> = None | Some(value: T)

  datatype Row = Row(job: Uuid, key: Option<string>, status: Status, retryCount: int, maxRetries: int,
                     tokensIn: int, tokensOut: int, error: Option<string>)
  datatype Counters = Counters(tokensUsed: int, completedTasks: int)

  datatype Kind = TaskCreated | TaskStarted | TaskCompleted(tokens: int) | TaskFailed | TaskRetried | TaskCancelled | TaskSkipped
  datatype Event = Event(kind: Kind, job: Uuid, task: Uuid)

  // `ids` lists the rows in the order of their creation.
  datatype Db = Db(ids: seq<Uuid>, rows: map<Uuid, Row>, jobs: map<Uuid, Counters>, log: seq<Event>)

  datatype Op = Create(id: Uuid, job: Uuid, key: Option<string>, maxRetries: int)
              | Start(id: Uuid) | Complete(id: Uuid, tokensIn: int, tokensOut: int) | Fail(id: Uuid, error: string)
              | Retry(id: Uuid) | Cancel(id: Uuid) | Skip(id: Uuid)

  datatype Error = NotFound | InvalidTransition | RetriesExhausted | ConstraintViolated
  datatype Outcome = Done(id: Uuid) | Refused(error: Error)

  // ---------------------------------------------------------------- what each operation does

  /** `_VALID_TRANSITIONS`. */
  function Allowed(current: Status): set<Status> {
    match current
    case Pending => {Running, Cancelled, Skipped, Blocked}
    case Blocked => {Pending, Cancelled}
    case Running => {Completed, Failed, Cancelled}
    case Failed => {Running, Cancelled}
    case Completed => {}
    case Cancelled => {}
    case Skipped => {}
  }

  function Target(op: Op): Status {
    match op
    case Create(_, _, _, _) => Pending
    case Start(_) => Running
    case Complete(_, _, _) => Completed
    case Fail(_, _) => Failed
    case Retry(_) => Running
    case Cancel(_) => Cancelled
    case Skip(_) => Skipped
  }

  function KindOf(op: Op): Kind {
    match op
    case Create(_, _, _, _) => TaskCreated
    case Start(_) => TaskStarted
    case Complete(_, i, o) => TaskCompleted(i + o)
    case Fail(_, _) => TaskFailed
    case Retry(_) => TaskRetried
    case Cancel(_) => TaskCancelled
    case Skip(_) => TaskSkipped
  }

  function Changed(row: Row, op: Op): Row {
    var moved := row.(status := Target(op));
    match op
    case Complete(_, i, o) => moved.(tokensIn := i, tokensOut := o)
    case Fail(_, error) => moved.(error := Some(error))
    case Retry(_) => moved.(retryCount := row.retryCount + 1, error := None)
    case _ => moved
  }

  function Refusal(db: Db, op: Op): Option<Error> {
    if op.id !in db.rows then Some(NotFound)
    else if op.Retry? && db.rows[op.id].retryCount >= db.rows[op.id].maxRetries then Some(RetriesExhausted)
    else if Target(op) !in Allowed(db.rows[op.id].status) then Some(InvalidTransition)
    else None
  }

  /** The first row with this task key. */
  function ByKey(ids: seq<Uuid>, rows: map<Uuid, Row>, key: string): Option<Uuid> {
    if ids == [] then None
    else if ids[0] in rows && rows[ids[0]].key == Some(key) then Some(ids[0])
    else ByKey(ids[1..], rows, key)
  }

  function AddTokens(jobs: map<Uuid, Counters>, job: Uuid, tokens: int): map<Uuid, Counters> {
    if job in jobs then jobs[job := Counters(jobs[job].tokensUsed + tokens, jobs[job].completedTasks + 1)] else jobs
  }

  function Existing(db: Db, key: Option<string>): Option<Uuid> {
    if key.Some? && key.value != "" then ByKey(db.ids, db.rows, key.value) else None
  }

  /** The unique and foreign-key constraints of `research_tasks`. */
  predicate Insertable(db: Db, op: Op)
    requires op.Create?
  {
    op.id !in db.rows && op.job in db.jobs && (op.key.Some? ==> ByKey(db.ids, db.rows, op.key.value).None?)
  }

  function NewRow(op: Op): Row
    requires op.Create?
  {
    Row(op.job, op.key, Pending, 0, op.maxRetries, 0, 0, None)
  }

  function OutcomeOf(db: Db, op: Op): Outcome {
    if op.Create? then
      if Existing(db, op.key).Some? then Done(Existing(db, op.key).value)
      else if Insertable(db, op) then Done(op.id) else Refused(ConstraintViolated)
    else if Refusal(db, op).Some? then Refused(Refusal(db, op).value) else Done(op.id)
  }

  predicate Takes(db: Db, op: Op) {
    if op.Create? then Existing(db, op.key).None? && Insertable(db, op) else Refusal(db, op).None?
  }

  function After(db: Db, op: Op): Db {
    if !Takes(db, op) then db
    else if op.Create? then
      Db(db.ids + [op.id], db.rows[op.id := NewRow(op)], db.jobs, db.log + [Event(TaskCreated, op.job, op.id)])
    else
      var job := db.rows[op.id].job;
      Db(db.ids, db.rows[op.id := Changed(db.rows[op.id], op)],
         if op.Complete? then AddTokens(db.jobs, job, op.tokensIn + op.tokensOut) else db.jobs,
         db.log + [Event(KindOf(op), job, op.id)])
  }

  function AfterAll(db: Db, ops: seq<Op>): Db {
    if ops == [] then db else After(AfterAll(db, ops[..|ops| - 1]), ops[|ops| - 1])
  }

  class TaskRuntime {
    var ids: seq<Uuid>
    var rows: map<Uuid, Row>
    var jobs: map<Uuid, Counters>
    var log: seq<Event>

    function View(): Db
      reads this
    {
      Db(ids, rows, jobs, log)
    }

    constructor (jobIds: set<Uuid>)
      ensures View() == Empty(jobIds)
    {
      ids, rows, log := [], map[], [];
      jobs := map j | j in jobIds :: Counters(0, 0);
    }

    method CreateTask(id: Uuid, job: Uuid, key: Option<string>, maxRetries: int) returns (o: Outcome)
      modifies this
      ensures View() == After(old(View()), Create(id, job, key, maxRetries))
      ensures o == OutcomeOf(old(View()), Create(id, job, key, maxRetries))
    {
      if key.Some? && key.value != "" {
        var existing := ByKey(ids, rows, key.value);
        if existing.Some? {
          return Done(existing.value);
        }
      }
      if id in rows || job !in jobs || (key.Some? && ByKey(ids, rows, key.value).Some?) {
        return Refused(ConstraintViolated);
      }
      rows := rows[id := Row(job, key, Pending, 0, maxRetries, 0, 0, None)];
      ids := ids + [id];
      log := log + [Event(TaskCreated, job, id)];
      o := Done(id);
    }

    method StartTask(id: Uuid) returns (o: Outcome)
      modifies this
      ensures View() == After(old(View()), Start(id)) && o == OutcomeOf(old(View()), Start(id))
    {
      if id !in rows {
        return Refused(NotFound);
      }
      var row := rows[id];
      if Running !in Allowed(row.status) {
        return Refused(InvalidTransition);
      }
      rows := rows[id := row.(status := Running)];
      log := log + [Event(TaskStarted, row.job, id)];
      o := Done(id);
    }

    method CompleteTask(id: Uuid, tokensIn: int, tokensOut: int) returns (o: Outcome)
      modifies this
      ensures View() == After(old(View()), Complete(id, tokensIn, tokensOut))
      ensures o == OutcomeOf(old(View()), Complete(id, tokensIn, tokensOut))
    {
      if id !in rows {
        return Refused(NotFound);
      }
      var row := rows[id];
      if Completed !in Allowed(row.status) {
        return Refused(InvalidTransition);
      }
      rows := rows[id := row.(status := Completed, tokensIn := tokensIn, tokensOut := tokensOut)];
      if row.job in jobs {
        var c := jobs[row.job];
        jobs := jobs[row.job := Counters(c.tokensUsed + (tokensIn + tokensOut), c.completedTasks + 1)];
      }
      log := log + [Event(TaskCompleted(tokensIn + tokensOut), row.job, id)];
      o := Done(id);
    }

    method FailTask(id: Uuid, error: string) returns (o: Outcome)
      modifies this
      ensures View() == After(old(View()), Fail(id, error)) && o == OutcomeOf(old(View()), Fail(id, error))
    {
      if id !in rows {
        return Refused(NotFound);
      }
      var row := rows[id];
      if Failed !in Allowed(row.status) {
        return Refused(InvalidTransition);
      }
      rows := rows[id := row.(status := Failed, error := Some(error))];
      log := log + [Event(TaskFailed, row.job, id)];
      o := Done(id);
    }

    method RetryTask(id: Uuid) returns (o: Outcome)
      modifies this
      ensures View() == After(old(View()), Retry(id)) && o == OutcomeOf(old(View()), Retry(id))
    {
      if id !in rows {
        return Refused(NotFound);
      }
      var row := rows[id];
      if row.retryCount >= row.maxRetries {
        return Refused(RetriesExhausted);
      }
      if Running !in Allowed(row.status) {
        return Refused(InvalidTransition);
      }
      rows := rows[id := row.(status := Running, retryCount := row.retryCount + 1, error := None)];
      log := log + [Event(TaskRetried, row.job, id)];
      o := Done(id);
    }

    method CancelTask(id: Uuid) returns (o: Outcome)
      modifies this
      ensures View() == After(old(View()), Cancel(id)) && o == OutcomeOf(old(View()), Cancel(id))
    {
      if id !in rows {
        return Refused(NotFound);
      }
      var row := rows[id];
      if Cancelled !in Allowed(row.status) {
        return Refused(InvalidTransition);
      }
      rows := rows[id := row.(status := Cancelled)];
      log := log + [Event(TaskCancelled, row.job, id)];
      o := Done(id);
    }

    method SkipTask(id: Uuid) returns (o: Outcome)
      modifies this
      ensures View() == After(old(View()), Skip(id)) && o == OutcomeOf(old(View()), Skip(id))
    {
      if id !in rows {
        return Refused(NotFound);
      }
      var row := rows[id];
      if Skipped !in Allowed(row.status) {
        return Refused(InvalidTransition);
      }
      rows := rows[id := row.(status := Skipped)];
      log := log + [Event(TaskSkipped, row.job, id)];
      o := Done(id);
    }
  }

  function Empty(jobIds: set<Uuid>): Db {
    Db([], map[], map j | j in jobIds :: Counters(0, 0), [])
  }

  // ---------------------------------------------------------------- what the log says

  ghost function StatusAfter(kind: Kind): Status {
    match kind
    case TaskCreated => Pending
    case TaskStarted => Running
    case TaskCompleted(_) => Completed
    case TaskFailed => Failed
    case TaskRetried => Running
    case TaskCancelled => Cancelled
    case TaskSkipped => Skipped
  }

  /** The status of a task after its last event. */
  ghost function Replay(log: seq<Event>, id: Uuid): Option<Status> {
    if log == [] then None
    else
      var n := |log| - 1;
      if log[n].task == id then Some(StatusAfter(log[n].kind)) else Replay(log[..n], id)
  }

  ghost function Retries(log: seq<Event>, id: Uuid): nat {
    if log == [] then 0
    else
      var n := |log| - 1;
      Retries(log[..n], id) + if log[n].task == id && log[n].kind.TaskRetried? then 1 else 0
  }

  /** Tokens in the completion events of a job. */
  ghost function TokensLogged(log: seq<Event>, job: Uuid): int {
    if log == [] then 0
    else
      var n := |log| - 1;
      TokensLogged(log[..n], job) + if log[n].job == job && log[n].kind.TaskCompleted? then log[n].kind.tokens else 0
  }

  lemma LogStep(log: seq<Event>, e: Event, id: Uuid)
    ensures var l := log + [e];
            && Replay(l, id) == (if e.task == id then Some(StatusAfter(e.kind)) else Replay(log, id))
            && Retries(l, id) == Retries(log, id) + (if e.task == id && e.kind.TaskRetried? then 1 else 0)
  {
    assert (log + [e])[..|log|] == log;
  }

  // ---------------------------------------------------------------- the counters

  ghost function Finished(rows: map<Uuid, Row>): map<Uuid, Entry> {
    map id | id in rows && rows[id].status == Completed :: Entry(rows[id].job, rows[id].tokensIn + rows[id].tokensOut)
  }

  // ---------------------------------------------------------------- the invariant

  ghost predicate MatchesLog(row: Row, log: seq<Event>, id: Uuid) {
    && Replay(log, id) == Some(row.status)
    && row.retryCount == Retries(log, id) <= (if row.maxRetries > 0 then row.maxRetries else 0)
  }

  ghost predicate CountersMatch(db: Db, job: Uuid)
    requires job in db.jobs
  {
    && Totals(db.ids, Finished(db.rows), job, db.jobs[job].tokensUsed, db.jobs[job].completedTasks)
    && db.jobs[job].tokensUsed == TokensLogged(db.log, job)
  }

  ghost predicate Tables(db: Db) {
    && NoDup(db.ids) && (forall id :: id in db.ids <==> id in db.rows)
    && (forall id :: id in db.rows ==> db.rows[id].job in db.jobs)
  }

  ghost predicate RowsMatch(db: Db) {
    && (forall id :: id in db.rows ==> MatchesLog(db.rows[id], db.log, id))
    && (forall id :: id !in db.rows ==> Replay(db.log, id) == None && Retries(db.log, id) == 0)
  }

  ghost predicate AllCountersMatch(db: Db) {
    forall job :: job in db.jobs ==> CountersMatch(db, job)
  }

  ghost predicate Inv(db: Db) {
    Tables(db) && RowsMatch(db) && AllCountersMatch(db)
  }

  lemma RowStep(row: Row, log: seq<Event>, op: Op)
    requires !op.Create? && MatchesLog(row, log, op.id) && Target(op) in Allowed(row.status)
    requires op.Retry? ==> row.retryCount < row.maxRetries
    ensures MatchesLog(Changed(row, op), log + [Event(KindOf(op), row.job, op.id)], op.id)
  {
    LogStep(log, Event(KindOf(op), row.job, op.id), op.id);
  }

  lemma OtherRowStep(row: Row, log: seq<Event>, e: Event, id: Uuid)
    requires MatchesLog(row, log, id) && e.task != id
    ensures MatchesLog(row, log + [e], id)
  {
    LogStep(log, e, id);
  }

  lemma RowsStep(db: Db, op: Op)
    requires RowsMatch(db)
    ensures RowsMatch(After(db, op))
  {
    if Takes(db, op) {
      var db' := After(db, op);
      var e := db'.log[|db.log|];
      assert db'.log == db.log + [e];
      forall id | id in db'.rows ensures MatchesLog(db'.rows[id], db'.log, id) {
        LogStep(db.log, e, id);
        if id != op.id {
          OtherRowStep(db.rows[id], db.log, e, id);
        } else if !op.Create? {
          RowStep(db.rows[id], db.log, op);
        }
      }
      forall id | id !in db'.rows
        ensures Replay(db'.log, id) == None && Retries(db'.log, id) == 0
      {
        LogStep(db.log, e, id);
      }
    }
  }

  lemma TokensLoggedStep(log: seq<Event>, e: Event, job: Uuid)
    ensures TokensLogged(log + [e], job) == TokensLogged(log, job) + if e.job == job && e.kind.TaskCompleted? then e.kind.tokens else 0
  {
    assert (log + [e])[..|log|] == log;
  }

  lemma CreateKeepsCounters(db: Db, op: Op, job: Uuid)
    requires op.Create? && Takes(db, op) && job in db.jobs && CountersMatch(db, job)
    ensures CountersMatch(After(db, op), job)
  {
    var c := db.jobs[job];
    TokensLoggedStep(db.log, Event(TaskCreated, op.job, op.id), job);
    NewRowAddsNothing(db.ids, Finished(db.rows), job, c.tokensUsed, c.completedTasks, op.id);
    assert Finished(After(db, op).rows) == Finished(db.rows);
  }

  lemma FinishedStep(rows: map<Uuid, Row>, op: Op)
    requires !op.Create? && op.id in rows && rows[op.id].status != Completed
    ensures Finished(rows[op.id := Changed(rows[op.id], op)])
            == if op.Complete? then Finished(rows)[op.id := Entry(rows[op.id].job, op.tokensIn + op.tokensOut)] else Finished(rows)
    ensures op.id !in Finished(rows)
  {
  }

  lemma ChangeKeepsCounters(db: Db, op: Op, job: Uuid)
    requires NoDup(db.ids) && op.id in db.ids
    requires !op.Create? && Takes(db, op) && job in db.jobs && CountersMatch(db, job)
    ensures CountersMatch(After(db, op), job)
  {
    var row, c := db.rows[op.id], db.jobs[job];
    TokensLoggedStep(db.log, Event(KindOf(op), row.job, op.id), job);
    FinishedStep(db.rows, op);
    if op.Complete? {
      FinishAddsOnce(db.ids, Finished(db.rows), job, c.tokensUsed, c.completedTasks, op.id,
                     Entry(row.job, op.tokensIn + op.tokensOut));
    }
  }

  lemma StepKeepsCounters(db: Db, op: Op, job: Uuid)
    requires NoDup(db.ids) && (forall id :: id in db.ids <==> id in db.rows)
    requires Takes(db, op) && job in db.jobs && CountersMatch(db, job)
    ensures CountersMatch(After(db, op), job)
  {
    if op.Create? { CreateKeepsCounters(db, op, job); } else { ChangeKeepsCounters(db, op, job); }
  }

  lemma TablesStep(db: Db, op: Op)
    requires Tables(db)
    ensures Tables(After(db, op))
  {
  }

  /** Every operation, taken or refused, keeps rows, job counters and event log in step. */
  lemma StepKeepsInv(db: Db, op: Op)
    requires Inv(db)
    ensures Inv(After(db, op))
  {
    TablesStep(db, op);
    RowsStep(db, op);
    if Takes(db, op) {
      forall job | job in After(db, op).jobs ensures CountersMatch(After(db, op), job) {
        StepKeepsCounters(db, op, job);
      }
    }
  }

  lemma {:induction false} RunKeepsInv(db: Db, ops: seq<Op>)
    requires Inv(db)
    ensures Inv(AfterAll(db, ops))
    decreases |ops|
  {
    if ops != [] {
      RunKeepsInv(db, ops[..|ops| - 1]);
      StepKeepsInv(AfterAll(db, ops[..|ops| - 1]), ops[|ops| - 1]);
    }
  }

  /** After any operations on empty tables: a job's counters are the sums over its completed tasks
      and over its completion events, and `retry_count` is the number of retried events and within
      `max_retries`. */
  lemma Accounting(jobIds: set<Uuid>, ops: seq<Op>)
    ensures var db := AfterAll(Empty(jobIds), ops);
            && (forall job :: job in db.jobs ==> CountersMatch(db, job))
            && (forall id :: id in db.rows ==>
                 && Replay(db.log, id) == Some(db.rows[id].status)
                 && db.rows[id].retryCount == Retries(db.log, id) <= (if db.rows[id].maxRetries > 0 then db.rows[id].maxRetries else 0))
  {
    RunKeepsInv(Empty(jobIds), ops);
  }

  // ---------------------------------------------------------------- how a task begins to run

  /** The step takes row id from `from` to running. */
  ghost predicate Begins(db: Db, op: Op, id: Uuid, from: Status) {
    id in db.rows && db.rows[id].status == from && id in After(db, op).rows && After(db, op).rows[id].status == Running
  }

  /** How often row id went from `from` to running. */
  ghost function Begun(db: Db, ops: seq<Op>, id: Uuid, from: Status): nat {
    if ops == [] then 0
    else
      var n := |ops| - 1;
      Begun(db, ops[..n], id, from) + if Begins(AfterAll(db, ops[..n]), ops[n], id, from) then 1 else 0
  }

  ghost predicate Hits(db: Db, op: Op, id: Uuid, from: Status) {
    !op.Create? && op.id == id && Takes(db, op) && db.rows[id].status == from
  }

  /** How often `retry` took row id in status `from`. */
  ghost function Retried(db: Db, ops: seq<Op>, id: Uuid, from: Status): nat {
    if ops == [] then 0
    else
      var n := |ops| - 1;
      Retried(db, ops[..n], id, from) + if ops[n].Retry? && Hits(AfterAll(db, ops[..n]), ops[n], id, from) then 1 else 0
  }

  /** How often `start` took row id in status `from`. */
  ghost function Started(db: Db, ops: seq<Op>, id: Uuid, from: Status): nat {
    if ops == [] then 0
    else
      var n := |ops| - 1;
      Started(db, ops[..n], id, from) + if ops[n].Start? && Hits(AfterAll(db, ops[..n]), ops[n], id, from) then 1 else 0
  }

  /** A row begins to run by a start or a retry of it, and only from pending or failed. */
  lemma BeginsByStartOrRetry(db: Db, op: Op, id: Uuid, from: Status)
    requires from != Running
    ensures Begins(db, op, id, from) <==> (op.Start? || op.Retry?) && Hits(db, op, id, from)
    ensures Begins(db, op, id, from) ==> from in {Pending, Failed}
  {
  }

  lemma {:induction false} BegunIsStartedOrRetried(db: Db, ops: seq<Op>, id: Uuid, from: Status)
    requires from != Running
    ensures Begun(db, ops, id, from) == Started(db, ops, id, from) + Retried(db, ops, id, from)
    decreases |ops|
  {
    if ops != [] {
      var n := |ops| - 1;
      BegunIsStartedOrRetried(db, ops[..n], id, from);
      BeginsByStartOrRetry(AfterAll(db, ops[..n]), ops[n], id, from);
    }
  }

  lemma RowStays(db: Db, op: Op, id: Uuid)
    requires id in db.rows
    ensures id in After(db, op).rows
    ensures After(db, op).rows[id].retryCount
            == db.rows[id].retryCount + if op.Retry? && (Hits(db, op, id, Pending) || Hits(db, op, id, Failed)) then 1 else 0
    ensures After(db, op).rows[id].status == Pending ==> db.rows[id].status == Pending
  {
  }

  lemma RowAppears(db: Db, op: Op, id: Uuid)
    requires id !in db.rows && id in After(db, op).rows
    ensures After(db, op).rows[id].retryCount == 0 && After(db, op).rows[id].status == Pending && op.Create?
  {
  }

  /** What the counts say of a row; before it exists there is nothing to count. */
  ghost predicate Counted(db: Db, ops: seq<Op>, id: Uuid) {
    var d := AfterAll(db, ops);
    var first, byRetry, again := Begun(db, ops, id, Pending), Retried(db, ops, id, Pending), Retried(db, ops, id, Failed);
    if id in d.rows then
      d.rows[id].retryCount == byRetry + again && first <= (if d.rows[id].status == Pending then 0 else 1)
    else first == byRetry == again == 0
  }

  lemma {:induction false} CountsHold(jobIds: set<Uuid>, ops: seq<Op>, id: Uuid)
    ensures Counted(Empty(jobIds), ops, id)
    decreases |ops|
  {
    if ops != [] {
      var n := |ops| - 1;
      CountsHold(jobIds, ops[..n], id);
      var d := AfterAll(Empty(jobIds), ops[..n]);
      BeginsByStartOrRetry(d, ops[n], id, Pending);
      if id in d.rows {
        RowStays(d, ops[n], id);
      } else if id in After(d, ops[n]).rows {
        RowAppears(d, ops[n], id);
      }
    }
  }

  /** A retry that is taken restarts a failed task exactly when the task was not pending. */
  lemma RetryRestartsIffNotPending(db: Db, id: Uuid)
    requires Takes(db, Retry(id))
    ensures id in db.rows && (db.rows[id].status == Failed <==> db.rows[id].status != Pending)
    ensures After(db, Retry(id)).rows[id].status == Running
  {
  }

  /** In any run from empty tables, `retry_count` is the number of failed runs that `retry` restarted
      exactly when `retry` never hit the task while it was pending. */
  lemma RetryCountIffNeverPending(jobIds: set<Uuid>, ops: seq<Op>, id: Uuid)
    requires id in AfterAll(Empty(jobIds), ops).rows
    ensures AfterAll(Empty(jobIds), ops).rows[id].retryCount == Retried(Empty(jobIds), ops, id, Failed)
            <==> Retried(Empty(jobIds), ops, id, Pending) == 0
  {
    CountsHold(jobIds, ops, id);
  }

  /** The same for all changes of the row from failed to running: a task leaves pending for running at
      most once, and the later runs are as many as `retry_count`, or more, exactly as the starts of the
      failed task compare with the retries of the pending one. */
  lemma RerunsAgainstRetryCount(jobIds: set<Uuid>, ops: seq<Op>, id: Uuid)
    requires id in AfterAll(Empty(jobIds), ops).rows
    ensures var e, count := Empty(jobIds), AfterAll(Empty(jobIds), ops).rows[id].retryCount;
            && Retried(e, ops, id, Pending) <= Begun(e, ops, id, Pending) <= 1
            && (Begun(e, ops, id, Failed) == count <==> Started(e, ops, id, Failed) == Retried(e, ops, id, Pending))
            && (Begun(e, ops, id, Failed) <= count <==> Started(e, ops, id, Failed) <= Retried(e, ops, id, Pending))
  {
    CountsHold(jobIds, ops, id);
    BegunIsStartedOrRetried(Empty(jobIds), ops, id, Failed);
    BegunIsStartedOrRetried(Empty(jobIds), ops, id, Pending);
  }

  /** From empty tables: a retry is counted although nothing failed. */
  lemma PendingCanBeRetried(job: Uuid, id: Uuid)
    ensures var ops := [Create(id, job, None, 1), Retry(id)];
            var db := AfterAll(Empty({job}), ops);
            && id in db.rows && db.rows[id].status == Running && db.rows[id].retryCount == 1
            && Retried(Empty({job}), ops, id, Pending) == 1 && Begun(Empty({job}), ops, id, Failed) == 0
  {
    var e, a, b := Empty({job}), Create(id, job, None, 1), Retry(id);
    AfterTwo(e, [], a, b);
    assert [] + [a, b] == [a, b];
    var d := After(e, a);
    assert d.rows[id] == Row(job, None, Pending, 0, 1, 0, 0, None);
    assert AfterAll(e, [a, b]) == After(d, b);
    CountsHold({job}, [a, b], id);
    BegunOfTwo(e, a, b, id);
  }

  lemma BegunOfTwo(db: Db, a: Op, b: Op, id: Uuid)
    requires id !in db.rows
    ensures Begun(db, [a, b], id, Failed) == if Begins(After(db, a), b, id, Failed) then 1 else 0
    ensures Retried(db, [a, b], id, Failed) == if b.Retry? && Hits(After(db, a), b, id, Failed) then 1 else 0
  {
    var one, two := [a], [a, b];
    assert two[..|two| - 1] == one && one[..|one| - 1] == [];
    assert AfterAll(db, one) == After(AfterAll(db, []), a);
    assert Begun(db, one, id, Failed) == Retried(db, one, id, Failed) == 0;
  }

  lemma AfterTwo(db: Db, ops: seq<Op>, a: Op, b: Op)
    ensures AfterAll(db, ops + [a, b]) == After(After(AfterAll(db, ops), a), b)
  {
    AfterAllStep(db, ops, a);
    AfterAllStep(db, ops + [a], b);
    assert ops + [a] + [b] == ops + [a, b];
  }

  lemma StartThenFail(db: Db, ops: seq<Op>, id: Uuid, error: string)
    requires id in AfterAll(db, ops).rows && AfterAll(db, ops).rows[id].status in {Pending, Failed}
    ensures var d, d' := AfterAll(db, ops), AfterAll(db, ops + [Start(id), Fail(id, error)]);
            && id in d'.rows && d'.rows[id] == d.rows[id].(status := Failed, error := Some(error))
    ensures forall from :: from != Running ==>
              Begun(db, ops + [Start(id), Fail(id, error)], id, from)
              == Begun(db, ops, id, from) + if AfterAll(db, ops).rows[id].status == from then 1 else 0
  {
    var all := ops + [Start(id), Fail(id, error)];
    AfterTwo(db, ops, Start(id), Fail(id, error));
    AfterAllStep(db, ops, Start(id));
    assert all[..|all| - 1] == ops + [Start(id)];
    assert (ops + [Start(id)])[..|ops|] == ops;
    forall from: Status | from != Running
      ensures Begun(db, all, id, from) == Begun(db, ops, id, from) + if AfterAll(db, ops).rows[id].status == from then 1 else 0
    {
      BeginsByStartOrRetry(AfterAll(db, ops), Start(id), id, from);
      BeginsByStartOrRetry(AfterAll(db, ops + [Start(id)]), Fail(id, error), id, from);
    }
  }

  /** So a task that allows no retries can still be started any number of times after a failure. */
  lemma {:induction false} NoRetriesManyRuns(n: nat) returns (ops: seq<Op>)
    ensures var db := AfterAll(Empty({1}), ops);
            && 7 in db.rows && db.rows[7].status == Failed && db.rows[7].maxRetries == db.rows[7].retryCount == 0
            && Begun(Empty({1}), ops, 7, Failed) == n
  {
    var before: seq<Op>;
    if n == 0 {
      before := [Create(7, 1, None, 0)];
      AfterAllStep(Empty({1}), [], before[0]);
      assert [] + [before[0]] == before;
      assert before[..0] == [];
    } else {
      before := NoRetriesManyRuns(n - 1);
    }
    ops := before + [Start(7), Fail(7, "")];
    StartThenFail(Empty({1}), before, 7, "");
  }

  lemma AfterAllStep(db: Db, ops: seq<Op>, op: Op)
    ensures AfterAll(db, ops + [op]) == After(AfterAll(db, ops), op)
  {
    assert (ops + [op])[..|ops|] == ops;
  }

  // ---------------------------------------------------------------- final states and the schedule

  ghost predicate IsFinal(s: Status) {
    s in {Completed, Cancelled, Skipped}
  }

  /** A finished row never changes again. */
  lemma {:induction false} FinalStays(db: Db, ops: seq<Op>, id: Uuid)
    requires id in db.rows && IsFinal(db.rows[id].status)
    ensures id in AfterAll(db, ops).rows && AfterAll(db, ops).rows[id] == db.rows[id]
    decreases |ops|
  {
    if ops != [] {
      FinalStays(db, ops[..|ops| - 1], id);
    }
  }

  ghost function StatusMap(db: Db): map<Uuid, Status> {
    map id | id in db.rows :: db.rows[id].status
  }

  /** Once a task is unblocked it stays so. */
  lemma UnblockedStays(deps: seq<Edge>, db: Db, ops: seq<Op>, x: Uuid)
    requires Unblocked(deps, StatusMap(db), x)
    ensures Unblocked(deps, StatusMap(AfterAll(db, ops)), x)
  {
    forall u | u in Ups(deps, x) ensures u in CompletedIds(StatusMap(AfterAll(db, ops))) {
      assert u in CompletedIds(StatusMap(db));
      FinalStays(db, ops, u);
    }
  }

  /** A cancelled or skipped upstream blocks its dependents for ever. */
  lemma DeadUpstreamBlocks(deps: seq<Edge>, db: Db, ops: seq<Op>, u: Uuid, x: Uuid)
    requires u in Ups(deps, x) && u in db.rows && db.rows[u].status in {Cancelled, Skipped}
    ensures !Unblocked(deps, StatusMap(AfterAll(db, ops)), x)
  {
    FinalStays(db, ops, u);
    assert u !in CompletedIds(StatusMap(AfterAll(db, ops)));
  }

  /** Every start in `ops` is of a task that is unblocked at that moment. */
  ghost predicate Scheduled(deps: seq<Edge>, db: Db, ops: seq<Op>)
    decreases |ops|
  {
    ops == []
    || (var n := |ops| - 1;
        Scheduled(deps, db, ops[..n]) && (ops[n].Start? ==> Unblocked(deps, StatusMap(AfterAll(db, ops[..n])), ops[n].id)))
  }

  ghost predicate AllCompleted(db: Db, nodes: set<Uuid>) {
    nodes <= CompletedIds(StatusMap(db))
  }

  ghost predicate NoneDead(db: Db, nodes: set<Uuid>) {
    forall x :: x in nodes ==> x in db.rows && db.rows[x].status in {Pending, Running, Failed, Completed}
  }

  /** Bring one unblocked task to completion. */
  lemma Finish(deps: seq<Edge>, db: Db, x: Uuid) returns (ops: seq<Op>)
    requires x in db.rows && db.rows[x].status in {Pending, Running, Failed} && Unblocked(deps, StatusMap(db), x)
    ensures Scheduled(deps, db, ops)
    ensures StatusMap(AfterAll(db, ops)) == StatusMap(db)[x := Completed]
  {
    if db.rows[x].status == Running {
      ops := [Complete(x, 0, 0)];
      assert ops[..0] == [];
    } else {
      ops := [Start(x), Complete(x, 0, 0)];
      AfterTwo(db, [], Start(x), Complete(x, 0, 0));
      assert [] + ops == ops;
      assert ops[..1] == [Start(x)] && [Start(x)][..0] == [];
    }
  }

  lemma {:induction false} ThenAll(deps: seq<Edge>, db: Db, a: seq<Op>, b: seq<Op>)
    requires Scheduled(deps, db, a) && Scheduled(deps, AfterAll(db, a), b)
    ensures Scheduled(deps, db, a + b) && AfterAll(db, a + b) == AfterAll(AfterAll(db, a), b)
    decreases |b|
  {
    if b == [] {
      assert a + b == a;
    } else {
      var n := |b| - 1;
      ThenAll(deps, db, a, b[..n]);
      assert (a + b)[..|a| + n] == a + b[..n];
      assert (a + b)[|a| + n] == b[n];
    }
  }

  /** As long as no task of an acyclic job was cancelled or skipped, the job can be run to its end,
      starting only unblocked tasks. */
  lemma {:induction false} CanFinish(deps: seq<Edge>, db: Db, nodes: set<Uuid>) returns (ops: seq<Op>)
    requires Final(nodes, deps) == nodes && NoneDead(db, nodes)
    ensures Scheduled(deps, db, ops) && AllCompleted(AfterAll(db, ops), nodes)
    decreases nodes - CompletedIds(StatusMap(db))
  {
    if AllCompleted(db, nodes) {
      return [];
    }
    var x := NeverStuck(nodes, deps, StatusMap(db), |nodes|);
    var first := Finish(deps, db, x);
    var db' := AfterAll(db, first);
    StatusOnly(db, db', x, nodes);
    var rest := CanFinish(deps, db', nodes);
    ThenAll(deps, db, first, rest);
    ops := first + rest;
  }

  lemma StatusOnly(db: Db, db': Db, x: Uuid, nodes: set<Uuid>)
    requires x in db.rows && NoneDead(db, nodes) && StatusMap(db') == StatusMap(db)[x := Completed]
    ensures NoneDead(db', nodes)
    ensures CompletedIds(StatusMap(db')) == CompletedIds(StatusMap(db)) + {x}
  {
    forall y | y in nodes ensures y in db'.rows && db'.rows[y].status in {Pending, Running, Failed, Completed} {
      assert y in StatusMap(db) && y in StatusMap(db');
      assert StatusMap(db')[y] == if y == x then Completed else StatusMap(db)[y];
    }
  }

  ghost predicate Finishable(deps: seq<Edge>, db: Db, nodes: set<Uuid>) {
    exists ops :: Scheduled(deps, db, ops) && AllCompleted(AfterAll(db, ops), nodes)
  }

  lemma DeadIsNotFinishable(deps: seq<Edge>, db: Db, nodes: set<Uuid>, x: Uuid)
    requires x in nodes && x in db.rows && db.rows[x].status in {Cancelled, Skipped}
    ensures !Finishable(deps, db, nodes)
  {
    forall ops ensures !AllCompleted(AfterAll(db, ops), nodes) {
      FinalStays(db, ops, x);
      assert x !in CompletedIds(StatusMap(AfterAll(db, ops)));
    }
  }

  lemma OthersAreAlive(jobIds: set<Uuid>, past: seq<Op>, x: Uuid)
    requires x in AfterAll(Empty(jobIds), past).rows
    ensures AfterAll(Empty(jobIds), past).rows[x].status != Blocked
  {
    var db := AfterAll(Empty(jobIds), past);
    RunKeepsInv(Empty(jobIds), past);
    assert MatchesLog(db.rows[x], db.log, x);
    NeverBlocked(db.log, x);
  }

  /** A schedule that finishes an acyclic job exists exactly when none of its tasks is cancelled or
      skipped. */
  lemma FinishableIffNoneDead(jobIds: set<Uuid>, past: seq<Op>, deps: seq<Edge>, nodes: set<Uuid>)
    requires Final(nodes, deps) == nodes
    requires forall x :: x in nodes ==> x in AfterAll(Empty(jobIds), past).rows
    ensures var db := AfterAll(Empty(jobIds), past);
            Finishable(deps, db, nodes) <==> forall x :: x in nodes ==> db.rows[x].status !in {Cancelled, Skipped}
  {
    var db := AfterAll(Empty(jobIds), past);
    if forall x :: x in nodes ==> db.rows[x].status !in {Cancelled, Skipped} {
      forall x | x in nodes ensures db.rows[x].status in {Pending, Running, Failed, Completed} {
        OthersAreAlive(jobIds, past, x);
      }
      var ops := CanFinish(deps, db, nodes);
      assert Scheduled(deps, db, ops) && AllCompleted(AfterAll(db, ops), nodes);
    } else {
      var x :| x in nodes && db.rows[x].status in {Cancelled, Skipped};
      DeadIsNotFinishable(deps, db, nodes, x);
    }
  }

  /** No operation ever blocks a row. */
  lemma {:induction false} NeverBlocked(log: seq<Event>, id: Uuid)
    ensures Replay(log, id) != Some(Blocked)
  {
    if log != [] {
      NeverBlocked(log[..|log| - 1], id);
    }
  }
}
