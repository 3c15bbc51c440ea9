/** `SophiaTurnRuntime`: conversation turns and the counters of their sessions. */
module SophiaTurns {
  import opened TaskDag
  import opened RollUp

  datatype Option<T> = None | Some(value: T)

  datatype Status = Running | AwaitingApproval | Completed | Interrupted | Cancelled | Failed
  datatype Turn = Turn(session: Uuid, key: Option<int>, status: Status, tokensIn: int, tokensOut: int)
  datatype Counters = Counters(tokensUsed: int, turnCount: int)

  // `ids` lists the turns in the order of their creation; keys are opaque.
  datatype Db = Db(ids: seq<Uuid>, turns: map<Uuid, Turn>, sessions: map<Uuid, Counters>)

  // `frozen`: the freeze gate is closed for the session.  `CancelSeen`: `cancel` as the cancellation
  // runtime calls it, on a turn that its own session has read before, when the status was `seen`: the
  // lock waits for the others, but the object is not read again.
  datatype Op = Start(id: Uuid, session: Uuid, key: Option<int>, frozen: bool)
              | Complete(id: Uuid, tokensIn: int, tokensOut: int)
              | Interrupt(id: Uuid) | AwaitApproval(id: Uuid) | ResumeAfterApproval(id: Uuid) | Cancel(id: Uuid) | Fail(id: Uuid)
              | CancelSeen(id: Uuid, seen: Status)

  datatype Error = NotFound | WrongStatus | FrozenSession | ConstraintViolated
  datatype Outcome = Done(id: Uuid) | Refused(error: Error)

  // ---------------------------------------------------------------- what each operation does

  /** The statuses from which an operation on an existing turn starts. */
  function From(op: Op): set<Status> {
    match op
    case Start(_, _, _, _) => {}
    case Complete(_, _, _) => {Running, AwaitingApproval}
    case Interrupt(_) => {Running, AwaitingApproval}
    case AwaitApproval(_) => {Running}
    case ResumeAfterApproval(_) => {AwaitingApproval}
    case Cancel(_) => {Running, Interrupted, AwaitingApproval}
    case Fail(_) => {Running, AwaitingApproval}
    case CancelSeen(_, _) => {Running, Interrupted, AwaitingApproval}
  }

  /** The status that the guard looks at. */
  function Guarded(db: Db, op: Op): Status
    requires op.id in db.turns
  {
    if op.CancelSeen? then op.seen else db.turns[op.id].status
  }

  function Target(op: Op): Status {
    match op
    case Start(_, _, _, _) => Running
    case Complete(_, _, _) => Completed
    case Interrupt(_) => Interrupted
    case AwaitApproval(_) => AwaitingApproval
    case ResumeAfterApproval(_) => Running
    case Cancel(_) => Cancelled
    case Fail(_) => Failed
    case CancelSeen(_, _) => Cancelled
  }

  function Changed(t: Turn, op: Op): Turn {
    if op.Complete? then t.(status := Completed, tokensIn := op.tokensIn, tokensOut := op.tokensOut) else t.(status := Target(op))
  }

  function ByKey(ids: seq<Uuid>, turns: map<Uuid, Turn>, key: Option<int>): Option<Uuid> {
    if key.None? || ids == [] then None
    else if ids[0] in turns && turns[ids[0]].key == key then Some(ids[0])
    else ByKey(ids[1..], turns, key)
  }

  function Charge(sessions: map<Uuid, Counters>, session: Uuid, tokens: int): map<Uuid, Counters> {
    if session in sessions
    then sessions[session := Counters(sessions[session].tokensUsed + tokens, sessions[session].turnCount + 1)] else sessions
  }

  function OutcomeOf(db: Db, op: Op): Outcome {
    if op.Start? then
      if ByKey(db.ids, db.turns, op.key).Some? then Done(ByKey(db.ids, db.turns, op.key).value)
      else if op.frozen then Refused(FrozenSession)
      else if op.id in db.turns || op.session !in db.sessions then Refused(ConstraintViolated)
      else Done(op.id)
    else if op.id !in db.turns then Refused(NotFound)
    else if Guarded(db, op) !in From(op) then Refused(WrongStatus)
    else Done(op.id)
  }

  predicate Takes(db: Db, op: Op) {
    if op.Start? then ByKey(db.ids, db.turns, op.key).None? && !op.frozen && op.id !in db.turns && op.session in db.sessions
    else op.id in db.turns && Guarded(db, op) in From(op)
  }

  function After(db: Db, op: Op): Db {
    if !Takes(db, op) then db
    else if op.Start? then Db(db.ids + [op.id], db.turns[op.id := Turn(op.session, op.key, Running, 0, 0)], db.sessions)
    else
      var t := db.turns[op.id];
      Db(db.ids, db.turns[op.id := Changed(t, op)],
         if op.Complete? then Charge(db.sessions, t.session, op.tokensIn + op.tokensOut) else db.sessions)
  }

  function AfterAll(db: Db, ops: seq<Op>): Db {
    if ops == [] then db else After(AfterAll(db, ops[..|ops| - 1]), ops[|ops| - 1])
  }

  function Empty(sessionIds: set<Uuid>): Db {
    Db([], map[], map s | s in sessionIds :: Counters(0, 0))
  }

  class SophiaTurnRuntime {
    var ids: seq<Uuid>
    var turns: map<Uuid, Turn>
    var sessions: map<Uuid, Counters>

    function View(): Db
      reads this
    {
      Db(ids, turns, sessions)
    }

    constructor (sessionIds: set<Uuid>)
      ensures View() == Empty(sessionIds)
    {
      ids, turns := [], map[];
      sessions := map s | s in sessionIds :: Counters(0, 0);
    }

    method StartTurn(id: Uuid, session: Uuid, key: Option<int>, frozen: bool) returns (o: Outcome)
      modifies this
      ensures View() == After(old(View()), Start(id, session, key, frozen))
      ensures o == OutcomeOf(old(View()), Start(id, session, key, frozen))
    {
      var existing := ByKey(ids, turns, key);
      if existing.Some? {
        return Done(existing.value);
      }
      if frozen {
        return Refused(FrozenSession);
      }
      if id in turns || session !in sessions {
        return Refused(ConstraintViolated);
      }
      ids, turns := ids + [id], turns[id := Turn(session, key, Running, 0, 0)];
      o := Done(id);
    }

    method CompleteTurn(id: Uuid, tokensIn: int, tokensOut: int) returns (o: Outcome)
      modifies this
      ensures View() == After(old(View()), Complete(id, tokensIn, tokensOut))
      ensures o == OutcomeOf(old(View()), Complete(id, tokensIn, tokensOut))
    {
      if id !in turns {
        return Refused(NotFound);
      }
      var t := turns[id];
      if t.status != Running && t.status != AwaitingApproval {
        return Refused(WrongStatus);
      }
      turns := turns[id := t.(status := Completed, tokensIn := tokensIn, tokensOut := tokensOut)];
      if t.session in sessions {
        var c := sessions[t.session];
        sessions := sessions[t.session := Counters(c.tokensUsed + (tokensIn + tokensOut), c.turnCount + 1)];
      }
      o := Done(id);
    }

    /** `interrupt`, `await_approval`, `resume_after_approval`, `cancel` and `fail`: a guarded change of
        status. */
    method MoveTurn(op: Op) returns (o: Outcome)
      requires !op.Start? && !op.Complete? && !op.CancelSeen?
      modifies this
      ensures View() == After(old(View()), op) && o == OutcomeOf(old(View()), op)
    {
      if op.id !in turns {
        return Refused(NotFound);
      }
      if turns[op.id].status !in From(op) {
        return Refused(WrongStatus);
      }
      turns := turns[op.id := turns[op.id].(status := Target(op))];
      o := Done(op.id);
    }

    /** The turn of `SophiaCancellationRuntime.cancel`, which has read `seen` before; nothing is done unless
        that could be cancelled. */
    method CancelSeenTurn(id: Uuid, seen: Status) returns (done: bool)
      modifies this
      ensures View() == After(old(View()), CancelSeen(id, seen))
      ensures done <==> Takes(old(View()), CancelSeen(id, seen))
    {
      if id !in turns || seen !in {Running, Interrupted, AwaitingApproval} {
        return false;
      }
      turns := turns[id := turns[id].(status := Cancelled)];
      done := true;
    }
  }

  // ---------------------------------------------------------------- the counters

  ghost function Finished(turns: map<Uuid, Turn>): map<Uuid, Entry> {
    map id | id in turns && turns[id].status == Completed :: Entry(turns[id].session, turns[id].tokensIn + turns[id].tokensOut)
  }

  ghost predicate Tables(db: Db) {
    && NoDup(db.ids) && (forall id :: id in db.ids <==> id in db.turns)
    && (forall id :: id in db.turns ==> db.turns[id].session in db.sessions)
  }

  /** The counters of a session, but for so many tokens and turns. */
  ghost predicate ChargedBut(db: Db, session: Uuid, tokens: int, count: int)
    requires session in db.sessions
  {
    Totals(db.ids, Finished(db.turns), session, db.sessions[session].tokensUsed - tokens, db.sessions[session].turnCount - count)
  }

  /** The counters are the sum and the number of the completed turns. */
  ghost predicate Charged(db: Db, session: Uuid)
    requires session in db.sessions
  {
    ChargedBut(db, session, 0, 0)
  }

  /** A cancellation reaches a turn of the session that has been completed since it was read. */
  ghost predicate Overwrites(db: Db, op: Op, session: Uuid) {
    op.CancelSeen? && Takes(db, op) && db.turns[op.id].status == Completed && db.turns[op.id].session == session
  }

  ghost function OverwrittenTurns(db: Db, ops: seq<Op>, session: Uuid): nat {
    if ops == [] then 0
    else
      var n := |ops| - 1;
      OverwrittenTurns(db, ops[..n], session) + if Overwrites(AfterAll(db, ops[..n]), ops[n], session) then 1 else 0
  }

  ghost function OverwrittenTokens(db: Db, ops: seq<Op>, session: Uuid): int {
    if ops == [] then 0
    else
      var n := |ops| - 1;
      OverwrittenTokens(db, ops[..n], session)
      + if Overwrites(AfterAll(db, ops[..n]), ops[n], session) then TokensOf(AfterAll(db, ops[..n]), ops[n].id) else 0
  }

  ghost function TokensOf(db: Db, id: Uuid): int {
    if id in db.turns then db.turns[id].tokensIn + db.turns[id].tokensOut else 0
  }

  lemma FinishedStep(turns: map<Uuid, Turn>, op: Op)
    requires !op.Start? && op.id in turns && turns[op.id].status != Completed
    ensures op.id !in Finished(turns)
    ensures Finished(turns[op.id := Changed(turns[op.id], op)])
            == if op.Complete? then Finished(turns)[op.id := Entry(turns[op.id].session, op.tokensIn + op.tokensOut)] else Finished(turns)
  {
  }

  lemma OverwrittenStep(turns: map<Uuid, Turn>, op: Op)
    requires op.CancelSeen? && op.id in turns && turns[op.id].status == Completed
    ensures op.id in Finished(turns)
    ensures Finished(turns)[op.id] == Entry(turns[op.id].session, turns[op.id].tokensIn + turns[op.id].tokensOut)
    ensures Finished(turns[op.id := Changed(turns[op.id], op)]) == Finished(turns) - {op.id}
  {
  }

  lemma StartKeepsCharged(db: Db, op: Op, s: Uuid, tokens: int, count: int)
    requires Tables(db) && s in db.sessions && ChargedBut(db, s, tokens, count) && op.Start? && Takes(db, op)
    ensures ChargedBut(After(db, op), s, tokens, count)
  {
    var c := db.sessions[s];
    NewRowAddsNothing(db.ids, Finished(db.turns), s, c.tokensUsed - tokens, c.turnCount - count, op.id);
    assert Finished(After(db, op).turns) == Finished(db.turns);
  }

  lemma MoveKeepsCharged(db: Db, op: Op, s: Uuid, tokens: int, count: int)
    requires Tables(db) && s in db.sessions && ChargedBut(db, s, tokens, count)
    requires !op.Start? && Takes(db, op) && db.turns[op.id].status != Completed
    ensures s in After(db, op).sessions && ChargedBut(After(db, op), s, tokens, count)
  {
    var c := db.sessions[s];
    FinishedStep(db.turns, op);
    if op.Complete? {
      FinishAddsOnce(db.ids, Finished(db.turns), s, c.tokensUsed - tokens, c.turnCount - count, op.id,
                     Entry(db.turns[op.id].session, op.tokensIn + op.tokensOut));
    }
  }

  lemma OverwriteUncharges(db: Db, op: Op, s: Uuid, tokens: int, count: int)
    requires Tables(db) && s in db.sessions && ChargedBut(db, s, tokens, count)
    requires op.CancelSeen? && Takes(db, op) && db.turns[op.id].status == Completed
    ensures var here := db.turns[op.id].session == s;
            ChargedBut(After(db, op), s, tokens + (if here then TokensOf(db, op.id) else 0), count + if here then 1 else 0)
  {
    var c := db.sessions[s];
    OverwrittenStep(db.turns, op);
    UnfinishTakesAway(db.ids, Finished(db.turns), s, c.tokensUsed - tokens, c.turnCount - count, op.id);
  }

  lemma StepKeepsTables(db: Db, op: Op)
    requires Tables(db)
    ensures Tables(After(db, op)) && After(db, op).sessions.Keys == db.sessions.Keys
  {
  }

  lemma StepCharges(db: Db, op: Op, s: Uuid, tokens: int, count: int)
    requires Tables(db) && s in db.sessions && ChargedBut(db, s, tokens, count)
    ensures s in After(db, op).sessions
    ensures ChargedBut(After(db, op), s, tokens + (if Overwrites(db, op, s) then TokensOf(db, op.id) else 0),
                       count + if Overwrites(db, op, s) then 1 else 0)
  {
    StepKeepsTables(db, op);
    if Takes(db, op) {
      if op.Start? {
        StartKeepsCharged(db, op, s, tokens, count);
      } else if db.turns[op.id].status != Completed {
        MoveKeepsCharged(db, op, s, tokens, count);
      } else {
        OverwriteUncharges(db, op, s, tokens, count);
      }
    }
  }

  lemma {:induction false} RunCharges(db: Db, ops: seq<Op>, s: Uuid)
    requires Tables(db) && s in db.sessions && Charged(db, s)
    ensures Tables(AfterAll(db, ops)) && s in AfterAll(db, ops).sessions
    ensures ChargedBut(AfterAll(db, ops), s, OverwrittenTokens(db, ops, s), OverwrittenTurns(db, ops, s))
    decreases |ops|
  {
    if ops != [] {
      var n := |ops| - 1;
      RunCharges(db, ops[..n], s);
      StepKeepsTables(AfterAll(db, ops[..n]), ops[n]);
      StepCharges(AfterAll(db, ops[..n]), ops[n], s, OverwrittenTokens(db, ops[..n], s), OverwrittenTurns(db, ops[..n], s));
    }
  }

  lemma {:induction false} NoTurnsNoTokens(db: Db, ops: seq<Op>, s: Uuid)
    requires OverwrittenTurns(db, ops, s) == 0
    ensures OverwrittenTokens(db, ops, s) == 0
    decreases |ops|
  {
    if ops != [] {
      NoTurnsNoTokens(db, ops[..|ops| - 1], s);
    }
  }

  /** Over any operations on any turns, a session's counters exceed the sum and the number of its completed
      turns by exactly the turns that were cancelled on an old copy after they had been completed. */
  lemma SessionAccounting(sessionIds: set<Uuid>, ops: seq<Op>, session: Uuid)
    requires session in sessionIds
    ensures session in AfterAll(Empty(sessionIds), ops).sessions
    ensures ChargedBut(AfterAll(Empty(sessionIds), ops), session,
                       OverwrittenTokens(Empty(sessionIds), ops, session), OverwrittenTurns(Empty(sessionIds), ops, session))
    ensures Charged(AfterAll(Empty(sessionIds), ops), session) <==> OverwrittenTurns(Empty(sessionIds), ops, session) == 0
  {
    RunCharges(Empty(sessionIds), ops, session);
    if OverwrittenTurns(Empty(sessionIds), ops, session) == 0 {
      NoTurnsNoTokens(Empty(sessionIds), ops, session);
    }
  }

  /** A cancellation of a copy on which the turn was not final. */
  ghost predicate CancelsOldCopy(op: Op, id: Uuid) {
    op.CancelSeen? && op.id == id && op.seen in {Running, Interrupted, AwaitingApproval}
  }

  ghost predicate SomeOldCopy(ops: seq<Op>, id: Uuid) {
    ops != [] && (CancelsOldCopy(ops[|ops| - 1], id) || SomeOldCopy(ops[..|ops| - 1], id))
  }

  /** What becomes of a completed, cancelled or failed turn: it is cancelled if a cancellation of an old
      copy reaches it, and unchanged otherwise. */
  lemma {:induction false} FinalThen(db: Db, ops: seq<Op>, id: Uuid)
    requires id in db.turns && db.turns[id].status in {Completed, Cancelled, Failed}
    ensures id in AfterAll(db, ops).turns
    ensures AfterAll(db, ops).turns[id] == if SomeOldCopy(ops, id) then db.turns[id].(status := Cancelled) else db.turns[id]
    decreases |ops|
  {
    if ops != [] {
      FinalThen(db, ops[..|ops| - 1], id);
    }
  }

  /** So a final turn changes exactly when a cancellation of an old copy reaches it and it was not
      cancelled already. */
  lemma FinalUnlessOldCopy(db: Db, ops: seq<Op>, id: Uuid)
    requires id in db.turns && db.turns[id].status in {Completed, Cancelled, Failed}
    ensures id in AfterAll(db, ops).turns
    ensures AfterAll(db, ops).turns[id] != db.turns[id] <==> SomeOldCopy(ops, id) && !db.turns[id].status.Cancelled?
  {
    FinalThen(db, ops, id);
  }

  ghost predicate SomeCancel(ops: seq<Op>, id: Uuid) {
    && ops != []
    && ((ops[|ops| - 1].Cancel? && ops[|ops| - 1].id == id) || CancelsOldCopy(ops[|ops| - 1], id) || SomeCancel(ops[..|ops| - 1], id))
  }

  /** An interrupted turn changes exactly when it is cancelled, on whatever copy. */
  lemma {:induction false} InterruptedUntilCancelled(db: Db, ops: seq<Op>, id: Uuid)
    requires id in db.turns && db.turns[id].status.Interrupted?
    ensures id in AfterAll(db, ops).turns
    ensures AfterAll(db, ops).turns[id] == if SomeCancel(ops, id) then db.turns[id].(status := Cancelled) else db.turns[id]
    decreases |ops|
  {
    if ops != [] {
      InterruptedUntilCancelled(db, ops[..|ops| - 1], id);
    }
  }

  lemma AfterThree(db: Db, a: Op, b: Op, c: Op)
    ensures AfterAll(db, [a, b]) == After(After(db, a), b)
    ensures AfterAll(db, [a, b, c]) == After(After(After(db, a), b), c)
  {
    var one, two, three := [a], [a, b], [a, b, c];
    assert one[..0] == [] && two[..1] == one && three[..2] == two;
    assert AfterAll(db, one) == After(db, a);
  }

  /** From empty tables: a turn that is completed between the two reads of a cancellation ends cancelled,
      and stays on the counters of its session. */
  lemma CompletedCanBeCancelled(session: Uuid, id: Uuid, tokensIn: int, tokensOut: int)
    ensures var ops := [Start(id, session, None, false), Complete(id, tokensIn, tokensOut), CancelSeen(id, Running)];
            var d := AfterAll(Empty({session}), ops);
            && id in d.turns && d.turns[id].status == Cancelled && session in d.sessions
            && d.sessions[session] == Counters(tokensIn + tokensOut, 1) && !Charged(d, session)
  {
    var e, a, b, c := Empty({session}), Start(id, session, None, false), Complete(id, tokensIn, tokensOut), CancelSeen(id, Running);
    AfterThree(e, a, b, c);
    assert ByKey(e.ids, e.turns, None).None?;
    assert After(e, a).turns == map[id := Turn(session, None, Running, 0, 0)];
    var d := After(After(After(e, a), b), c);
    assert d.turns == map[id := Turn(session, None, Cancelled, tokensIn, tokensOut)];
    assert Finished(d.turns) == map[];
    assert Owned(Finished(d.turns), session) == {};
  }

  // ---------------------------------------------------------------- turns that wait for an approval

  /** The step takes turn id from one status to another. */
  ghost predicate Moves(db: Db, op: Op, id: Uuid, from: Status, to: Status) {
    && id in db.turns && db.turns[id].status == from
    && id in After(db, op).turns && After(db, op).turns[id].status == to
  }

  ghost function Moved(db: Db, ops: seq<Op>, id: Uuid, from: Status, to: Status): nat {
    if ops == [] then 0
    else
      var n := |ops| - 1;
      Moved(db, ops[..n], id, from, to) + if Moves(AfterAll(db, ops[..n]), ops[n], id, from, to) then 1 else 0
  }

  /** `complete` reached the turn while it awaited its approval. */
  ghost predicate SkipsApproval(db: Db, op: Op, id: Uuid) {
    op.Complete? && op.id == id && id in db.turns && db.turns[id].status == AwaitingApproval
  }

  ghost predicate SomeSkip(db: Db, ops: seq<Op>, id: Uuid)
    decreases |ops|
  {
    ops != [] && (var n := |ops| - 1; SomeSkip(db, ops[..n], id) || SkipsApproval(AfterAll(db, ops[..n]), ops[n], id))
  }

  /** How often the turn began to wait, and how often it was resumed, against its status. */
  ghost predicate Waited(db: Db, ops: seq<Op>, id: Uuid) {
    var d := AfterAll(db, ops);
    var waits, resumes := Moved(db, ops, id, Running, AwaitingApproval), Moved(db, ops, id, AwaitingApproval, Running);
    var skips := Moved(db, ops, id, AwaitingApproval, Completed);
    && (SomeSkip(db, ops, id) <==> skips > 0)
    && if id !in d.turns then waits == resumes == skips == 0
       else match d.turns[id].status
            case Running => waits == resumes && skips == 0
            case AwaitingApproval => waits == resumes + 1 && skips == 0
            case Completed => waits == resumes + skips && skips <= 1
            case Cancelled => true
            case _ => skips == 0
  }

  lemma {:induction false} WaitsAreCounted(sessionIds: set<Uuid>, ops: seq<Op>, id: Uuid)
    ensures Waited(Empty(sessionIds), ops, id)
    decreases |ops|
  {
    if ops != [] {
      WaitsAreCounted(sessionIds, ops[..|ops| - 1], id);
      MoveOf(AfterAll(Empty(sessionIds), ops[..|ops| - 1]), ops[|ops| - 1], id);
    }
  }

  lemma MoveOf(db: Db, op: Op, id: Uuid)
    ensures Moves(db, op, id, AwaitingApproval, Completed) <==> SkipsApproval(db, op, id)
    ensures id !in db.turns && id in After(db, op).turns ==> After(db, op).turns[id].status == Running
    ensures id in db.turns ==> id in After(db, op).turns
    ensures id in db.turns && db.turns[id].status == Completed ==> After(db, op).turns[id].status in {Completed, Cancelled}
    ensures id in db.turns && db.turns[id].status in {Interrupted, Cancelled, Failed} ==>
              After(db, op).turns[id].status in {Interrupted, Cancelled, Failed}
  {
  }

  /** A completed turn was resumed as often as it waited for an approval exactly when `complete` never
      reached it while it waited; otherwise one of its approvals was never given. */
  lemma ApprovalSkippedIffCompletedAwaiting(sessionIds: set<Uuid>, ops: seq<Op>, id: Uuid)
    requires var d := AfterAll(Empty(sessionIds), ops); id in d.turns && d.turns[id].status == Completed
    ensures var e := Empty(sessionIds);
            var waits, resumes := Moved(e, ops, id, Running, AwaitingApproval), Moved(e, ops, id, AwaitingApproval, Running);
            && resumes <= waits <= resumes + 1
            && (waits == resumes <==> !SomeSkip(e, ops, id))
            && (Moved(e, ops, id, AwaitingApproval, Completed) == 1 <==> SomeSkip(e, ops, id))
  {
    WaitsAreCounted(sessionIds, ops, id);
  }

  /** From empty tables: a turn that waits for its approval is completed without it. */
  lemma ApprovalCanBeSkipped(session: Uuid, id: Uuid)
    ensures var ops := [Start(id, session, None, false), AwaitApproval(id), Complete(id, 0, 0)];
            var d := AfterAll(Empty({session}), ops);
            && id in d.turns && d.turns[id].status == Completed
            && SomeSkip(Empty({session}), ops, id)
  {
    var e, a, b, c := Empty({session}), Start(id, session, None, false), AwaitApproval(id), Complete(id, 0, 0);
    AfterThree(e, a, b, c);
    assert ByKey(e.ids, e.turns, None).None?;
    assert After(e, a).turns[id] == Turn(session, None, Running, 0, 0);
    assert AfterAll(e, [a, b]).turns[id].status == AwaitingApproval;
    assert [a, b, c][..2] == [a, b];
  }

  // ---------------------------------------------------------------- turn keys

  ghost predicate SameKeys(ids: seq<Uuid>, a: map<Uuid, Turn>, b: map<Uuid, Turn>) {
    forall x :: x in ids ==> x in a && x in b && a[x].key == b[x].key
  }

  lemma {:induction false} KeyStays(ids: seq<Uuid>, a: map<Uuid, Turn>, more: seq<Uuid>, b: map<Uuid, Turn>, key: Option<int>)
    requires SameKeys(ids, a, b) && ByKey(ids, a, key).Some?
    ensures ByKey(ids + more, b, key) == ByKey(ids, a, key)
    decreases |ids|
  {
    assert (ids + more)[0] == ids[0] && ids[0] in ids;
    if a[ids[0]].key != key {
      assert forall x :: x in ids[1..] ==> x in ids;
      KeyStays(ids[1..], a, more, b, key);
      assert (ids + more)[1..] == ids[1..] + more;
    }
  }

  lemma {:induction false} NewKeyIsFound(ids: seq<Uuid>, a: map<Uuid, Turn>, id: Uuid, b: map<Uuid, Turn>, key: Option<int>)
    requires key.Some? && SameKeys(ids, a, b) && ByKey(ids, a, key).None? && id in b && b[id].key == key
    ensures ByKey(ids + [id], b, key) == Some(id)
    decreases |ids|
  {
    if ids == [] {
      assert ids + [id] == [id];
    } else {
      assert (ids + [id])[0] == ids[0] && ids[0] in ids;
      assert forall x :: x in ids[1..] ==> x in ids;
      NewKeyIsFound(ids[1..], a, id, b, key);
      assert (ids + [id])[1..] == ids[1..] + [id];
    }
  }

  lemma {:induction false} KeyAnswersForever(db: Db, ops: seq<Op>, key: Option<int>, id: Uuid)
    requires Tables(db) && ByKey(db.ids, db.turns, key) == Some(id)
    ensures Tables(AfterAll(db, ops))
    ensures ByKey(AfterAll(db, ops).ids, AfterAll(db, ops).turns, key) == Some(id)
    decreases |ops|
  {
    if ops != [] {
      var before, op := AfterAll(db, ops[..|ops| - 1]), ops[|ops| - 1];
      KeyAnswersForever(db, ops[..|ops| - 1], key, id);
      var more: seq<Uuid> := if op.Start? && Takes(before, op) then [op.id] else [];
      assert before.ids + [] == before.ids;
      assert SameKeys(before.ids, before.turns, After(before, op).turns);
      KeyStays(before.ids, before.turns, more, After(before, op).turns, key);
    }
  }

  /** Starting is idempotent on the turn key: whatever happened since, the same key answers the first
      turn and changes nothing, even while the session is frozen. */
  lemma StartIsIdempotent(db: Db, first: Op, ops: seq<Op>, again: Op)
    requires Tables(db) && first.Start? && first.key.Some? && Takes(db, first)
    requires again.Start? && again.key == first.key
    ensures var d := AfterAll(After(db, first), ops);
            OutcomeOf(d, again) == Done(first.id) && After(d, again) == d
  {
    var db1 := After(db, first);
    assert SameKeys(db.ids, db.turns, db1.turns);
    NewKeyIsFound(db.ids, db.turns, first.id, db1.turns, first.key);
    KeyAnswersForever(db1, ops, first.key, first.id);
  }
}
