/** Approvals of workflows and every writer of an approval's status or a workflow's status: the gate,
    the expiry sweep, both escalations, the emergency override, the gate of AI executions, the rejecting
    rollback, and the runtime, recovery, rollback and snapshots of workflows. */
module Approvals {

  datatype Option<T> = None | Some(value: T)

  datatype WorkflowStatus = WfPending | Active | Paused | Completed | Failed | Cancelled
  datatype Status = Pending | Approved | Rejected | Expired | Escalated

  // Ids of approvals are their positions in the table; instants are aware.
  datatype Workflow = Workflow(status: WorkflowStatus, expiresAt: Option<int>)
  datatype Approval = Approval(workflow: int, kind: int, status: Status, expiresAt: Option<int>)

  // A journal of what was done.  The program reads back only the overrides; the rest is history.
  datatype Event = Requested(approval: nat) | Resolved(approval: nat, approved: bool) | WasEscalated(approval: nat)
                 | WasExpired(approval: nat) | Overridden(approval: nat, key: int)
                 | AiRequested(approval: nat) | AiResolved(approval: nat, approved: bool) | RolledBack(approval: nat)
                 | Moved(workflow: int)

  datatype Db = Db(workflows: map<int, Workflow>, approvals: seq<Approval>, events: seq<Event>)

  // `seen`: the status of the workflow as the writer read it, without a lock; others may have written since.
  datatype Op =
      Request(workflow: int, kind: int, expiresAt: Option<int>)
    | Resolve(approval: nat, approved: bool, now: int, later: int)
    | Escalate(approval: nat)
    | Expire(approval: nat, now: int)
    | Override(approval: nat, key: int)
    | ChainEscalate(approval: nat)
    | AiRequest(workflow: int, kind: int)
    | AiResolve(approval: nat, approved: bool)
    | RollbackReject(approval: nat, workflow: int, seen: WorkflowStatus)
    | StartWorkflow(workflow: int, expiresAt: Option<int>)
    | Transition(workflow: int, target: WorkflowStatus)
    | ResumeFailed(workflow: int, seen: WorkflowStatus)
    | ResumeFromCheckpoint(workflow: int, hasCheckpoint: bool)
    | Rollback(workflow: int, seen: WorkflowStatus)
    | RestoreSnapshot(workflow: int, status: WorkflowStatus)

  datatype Error = NotFound | WrongWorkflowStatus | AlreadyPending | NotResolvable | DeadlinePassed | NotEscalatable | NotOverridable
                 | ConstraintViolated

  // ---------------------------------------------------------------- what each operation does

  predicate Open(a: Approval) {
    a.status.Pending? || a.status.Escalated?
  }

  predicate Past(deadline: Option<int>, now: int) {
    deadline.Some? && deadline.value <= now
  }

  /** `is_terminal` and `is_valid_transition`. */
  predicate ValidTransition(current: WorkflowStatus, target: WorkflowStatus) {
    match current
    case WfPending => target in {Active, Cancelled}
    case Active => target in {Paused, Completed, Failed, Cancelled}
    case Paused => target in {Active, Cancelled}
    case _ => false
  }

  predicate HasOpen(approvals: seq<Approval>, workflow: int) {
    exists i :: 0 <= i < |approvals| && approvals[i].workflow == workflow && Open(approvals[i])
  }

  predicate HasOpenOfKind(approvals: seq<Approval>, workflow: int, kind: int) {
    exists i :: 0 <= i < |approvals| && approvals[i].workflow == workflow && approvals[i].kind == kind && Open(approvals[i])
  }

  /** What the partial unique index of `approvals` forbids a second time. */
  predicate HasPendingOfKind(approvals: seq<Approval>, workflow: int, kind: int) {
    exists i :: 0 <= i < |approvals| && approvals[i].workflow == workflow && approvals[i].kind == kind && approvals[i].status.Pending?
  }

  predicate Terminal(s: WorkflowStatus) {
    s in {Completed, Failed, Cancelled}
  }

  predicate KeyUsed(events: seq<Event>, key: int) {
    exists e :: e in events && e.Overridden? && e.key == key
  }

  function Refusal(db: Db, op: Op): Option<Error> {
    match op
    case Request(w, kind, _) =>
      if w !in db.workflows then Some(NotFound)
      else if !db.workflows[w].status.Active? then Some(WrongWorkflowStatus)
      else if HasOpenOfKind(db.approvals, w, kind) then Some(AlreadyPending)
      else None
    case Resolve(a, _, now, later) =>
      if a >= |db.approvals| then Some(NotFound)
      else
        var x := db.approvals[a];
        if !Open(x) then Some(NotResolvable)
        else if Past(x.expiresAt, now) then Some(DeadlinePassed)
        else if x.workflow !in db.workflows then Some(NotFound)
        else if !db.workflows[x.workflow].status.Paused? then Some(WrongWorkflowStatus)
        else if Past(db.workflows[x.workflow].expiresAt, later) then Some(DeadlinePassed)
        else None
    case Escalate(a) =>
      if a >= |db.approvals| then Some(NotFound) else if !db.approvals[a].status.Pending? then Some(NotEscalatable) else None
    case Expire(a, now) =>
      if a >= |db.approvals| || !Open(db.approvals[a]) || !Past(db.approvals[a].expiresAt, now) then Some(NotFound) else None
    case Override(a, _) =>
      if a >= |db.approvals| then Some(NotFound) else if !Open(db.approvals[a]) then Some(NotOverridable) else None
    case ChainEscalate(a) =>
      if a >= |db.approvals| then Some(NotFound) else if !Open(db.approvals[a]) then Some(NotEscalatable) else None
    case AiRequest(w, kind) =>
      if w !in db.workflows || HasPendingOfKind(db.approvals, w, kind) then Some(ConstraintViolated) else None
    case AiResolve(a, _) =>
      if a >= |db.approvals| then Some(NotFound) else if !Open(db.approvals[a]) then Some(NotResolvable) else None
    case RollbackReject(a, w, _) =>
      if a >= |db.approvals| || w !in db.workflows then Some(NotFound) else None
    case StartWorkflow(w, _) => if w in db.workflows then Some(ConstraintViolated) else None
    case Transition(w, target) =>
      if w !in db.workflows then Some(NotFound)
      else if !ValidTransition(db.workflows[w].status, target) then Some(WrongWorkflowStatus) else None
    case ResumeFailed(w, seen) =>
      if w !in db.workflows then Some(NotFound) else if !seen.Failed? then Some(WrongWorkflowStatus) else None
    case ResumeFromCheckpoint(w, hasCheckpoint) =>
      if !hasCheckpoint || w !in db.workflows then Some(NotFound)
      else if db.workflows[w].status in {Completed, Cancelled} then Some(WrongWorkflowStatus) else None
    case Rollback(w, seen) =>
      if w !in db.workflows then Some(NotFound) else if Terminal(seen) then Some(WrongWorkflowStatus) else None
    case RestoreSnapshot(w, _) =>
      if w !in db.workflows then Some(NotFound)
      else if db.workflows[w].status in {Completed, Cancelled} then Some(WrongWorkflowStatus) else None
  }

  /** A replay of an override key is answered from its first use and changes nothing. */
  predicate Replays(db: Db, op: Op) {
    op.Override? && KeyUsed(db.events, op.key)
  }

  predicate Takes(db: Db, op: Op) {
    !Replays(db, op) && Refusal(db, op).None?
  }

  function Move(db: Db, w: int, status: WorkflowStatus, e: Event): Db
    requires w in db.workflows
  {
    db.(workflows := db.workflows[w := db.workflows[w].(status := status)], events := db.events + [e])
  }

  function Settle(db: Db, a: nat, status: Status, e: Event): Db
    requires a < |db.approvals|
  {
    db.(approvals := db.approvals[a := db.approvals[a].(status := status)], events := db.events + [e])
  }

  /** The rollback coordinator: a workflow seen to have ended stays as it is. */
  function CancelUnlessEnded(workflows: map<int, Workflow>, w: int, seen: WorkflowStatus): map<int, Workflow>
    requires w in workflows
  {
    if Terminal(seen) then workflows else workflows[w := workflows[w].(status := Cancelled)]
  }

  function Done(db: Db, op: Op): Db
    requires Takes(db, op)
  {
    match op
    case Request(w, kind, expiresAt) =>
      Move(db.(approvals := db.approvals + [Approval(w, kind, Pending, expiresAt)]), w, Paused, Requested(|db.approvals|))
    case Resolve(a, approved, _, _) =>
      var db1 := Settle(db, a, if approved then Approved else Rejected, Resolved(a, approved));
      var w := db.approvals[a].workflow;
      db1.(workflows := db.workflows[w := db.workflows[w].(status := if approved then Active else Failed)])
    case Escalate(a) => Settle(db, a, Escalated, WasEscalated(a))
    case Expire(a, _) => Settle(db, a, Expired, WasExpired(a))
    case Override(a, key) => Settle(db, a, Approved, Overridden(a, key))
    case ChainEscalate(a) => Settle(db, a, Escalated, WasEscalated(a))
    case AiRequest(w, kind) =>
      Db(db.workflows, db.approvals + [Approval(w, kind, Pending, None)], db.events + [AiRequested(|db.approvals|)])
    case AiResolve(a, approved) => Settle(db, a, if approved then Approved else Rejected, AiResolved(a, approved))
    case RollbackReject(a, w, seen) =>
      Settle(db, a, Rejected, RolledBack(a)).(workflows := CancelUnlessEnded(db.workflows, w, seen))
    case StartWorkflow(w, expiresAt) => db.(workflows := db.workflows[w := Workflow(Active, expiresAt)], events := db.events + [Moved(w)])
    case Transition(w, target) => Move(db, w, target, Moved(w))
    case ResumeFailed(w, _) => Move(db, w, Active, Moved(w))
    case ResumeFromCheckpoint(w, _) => Move(db, w, Active, Moved(w))
    case Rollback(w, _) => Move(db, w, Cancelled, Moved(w))
    case RestoreSnapshot(w, status) => Move(db, w, status, Moved(w))
  }

  function After(db: Db, op: Op): Db {
    if Takes(db, op) then Done(db, op) else db
  }

  function AfterAll(db: Db, ops: seq<Op>): Db {
    if ops == [] then db else After(AfterAll(db, ops[..|ops| - 1]), ops[|ops| - 1])
  }

  const EMPTY := Db(map[], [], [])

  datatype OverrideRecord = OverrideRecord(key: int, approval: nat)

  class ApprovalTables {
    var workflows: map<int, Workflow>
    var approvals: seq<Approval>
    var events: seq<Event>

    function View(): Db
      reads this
    {
      Db(workflows, approvals, events)
    }

    /** `request_approval`. */
    method RequestApproval(w: int, kind: int, expiresAt: Option<int>) returns (error: Option<Error>)
      modifies this
      ensures error == Refusal(old(View()), Request(w, kind, expiresAt))
      ensures View() == After(old(View()), Request(w, kind, expiresAt))
    {
      if w !in workflows {
        return Some(NotFound);
      }
      if !workflows[w].status.Active? {
        return Some(WrongWorkflowStatus);
      }
      for i := 0 to |approvals|
        invariant forall j :: 0 <= j < i ==> !(approvals[j].workflow == w && approvals[j].kind == kind && Open(approvals[j]))
      {
        if approvals[i].workflow == w && approvals[i].kind == kind && Open(approvals[i]) {
          return Some(AlreadyPending);
        }
      }
      approvals := approvals + [Approval(w, kind, Pending, expiresAt)];
      workflows := workflows[w := workflows[w].(status := Paused)];
      events := events + [Requested(|approvals| - 1)];
      error := None;
    }

    /** `resolve`. */
    method ResolveApproval(a: nat, approved: bool, now: int, later: int) returns (error: Option<Error>)
      modifies this
      ensures error == Refusal(old(View()), Resolve(a, approved, now, later))
      ensures View() == After(old(View()), Resolve(a, approved, now, later))
    {
      if a >= |approvals| {
        return Some(NotFound);
      }
      var x := approvals[a];
      if !Open(x) {
        return Some(NotResolvable);
      }
      if x.expiresAt.Some? && x.expiresAt.value <= now {
        return Some(DeadlinePassed);
      }
      if x.workflow !in workflows {
        return Some(NotFound);
      }
      var workflow := workflows[x.workflow];
      if !workflow.status.Paused? {
        return Some(WrongWorkflowStatus);
      }
      if workflow.expiresAt.Some? && workflow.expiresAt.value <= later {
        return Some(DeadlinePassed);
      }
      approvals := approvals[a := x.(status := if approved then Approved else Rejected)];
      workflows := workflows[x.workflow := workflow.(status := if approved then Active else Failed)];
      events := events + [Resolved(a, approved)];
      error := None;
    }

    /** `has_pending_approval`. */
    method HasPendingApproval(w: int) returns (yes: bool)
      ensures yes <==> HasOpen(approvals, w)
    {
      for i := 0 to |approvals|
        invariant forall j :: 0 <= j < i ==> !(approvals[j].workflow == w && Open(approvals[j]))
      {
        if approvals[i].workflow == w && Open(approvals[i]) {
          return true;
        }
      }
      yes := false;
    }

    method EscalateApproval(a: nat) returns (error: Option<Error>)
      modifies this
      ensures error == Refusal(old(View()), Escalate(a))
      ensures View() == After(old(View()), Escalate(a))
    {
      if a >= |approvals| {
        return Some(NotFound);
      }
      if !approvals[a].status.Pending? {
        return Some(NotEscalatable);
      }
      approvals := approvals[a := approvals[a].(status := Escalated)];
      events := events + [WasEscalated(a)];
      error := None;
    }

    /** `EmergencyOverrideRuntime.apply`: a used key is answered with its first record. */
    method ApplyOverride(a: nat, key: int) returns (record: Option<OverrideRecord>)
      modifies this
      ensures View() == After(old(View()), Override(a, key))
      ensures KeyUsed(old(events), key) ==>
                && record.Some? && record.value.key == key && Overridden(record.value.approval, key) in old(events)
      ensures !KeyUsed(old(events), key) ==>
                record == if Refusal(old(View()), Override(a, key)).None? then Some(OverrideRecord(key, a)) else None
    {
      for i := 0 to |events|
        invariant forall j :: 0 <= j < i ==> !(events[j].Overridden? && events[j].key == key)
      {
        if events[i].Overridden? && events[i].key == key {
          assert events[i] in events;
          return Some(OverrideRecord(key, events[i].approval));
        }
      }
      if a >= |approvals| || !Open(approvals[a]) {
        return None;
      }
      approvals := approvals[a := approvals[a].(status := Approved)];
      events := events + [Overridden(a, key)];
      record := Some(OverrideRecord(key, a));
    }

    /** `EscalationChainRuntime.escalate`: escalated approvals may escalate again. */
    method EscalateStep(a: nat) returns (error: Option<Error>)
      modifies this
      ensures error == Refusal(old(View()), ChainEscalate(a))
      ensures View() == After(old(View()), ChainEscalate(a))
    {
      if a >= |approvals| {
        return Some(NotFound);
      }
      if !Open(approvals[a]) {
        return Some(NotEscalatable);
      }
      approvals := approvals[a := approvals[a].(status := Escalated)];
      events := events + [WasEscalated(a)];
      error := None;
    }

    /** `check_tool` of the AI gate, for a tool that needs approval: a bare insert, which only the
        constraints can refuse. */
    method RequestForTool(w: int, kind: int) returns (error: Option<Error>)
      modifies this
      ensures error == Refusal(old(View()), AiRequest(w, kind))
      ensures View() == After(old(View()), AiRequest(w, kind))
    {
      if w !in workflows || HasPendingOfKind(approvals, w, kind) {
        return Some(ConstraintViolated);
      }
      approvals := approvals + [Approval(w, kind, Pending, None)];
      events := events + [AiRequested(|approvals| - 1)];
      error := None;
    }

    /** `resolve` of the AI gate: neither deadline is looked at and the workflow is left alone. */
    method ResolveForTool(a: nat, approved: bool) returns (error: Option<Error>)
      modifies this
      ensures error == Refusal(old(View()), AiResolve(a, approved))
      ensures View() == After(old(View()), AiResolve(a, approved))
    {
      if a >= |approvals| {
        return Some(NotFound);
      }
      if !Open(approvals[a]) {
        return Some(NotResolvable);
      }
      approvals := approvals[a := approvals[a].(status := if approved then Approved else Rejected)];
      events := events + [AiResolved(a, approved)];
      error := None;
    }

    /** `rollback_on_rejection`: rejects whatever the status is, then cancels the workflow it is given
        unless it saw that it had ended. */
    method RollbackOnRejection(a: nat, w: int, seen: WorkflowStatus) returns (error: Option<Error>)
      modifies this
      ensures error == Refusal(old(View()), RollbackReject(a, w, seen))
      ensures View() == After(old(View()), RollbackReject(a, w, seen))
    {
      if a >= |approvals| || w !in workflows {
        return Some(NotFound);
      }
      approvals := approvals[a := approvals[a].(status := Rejected)];
      if seen !in {Completed, Failed, Cancelled} {
        workflows := workflows[w := workflows[w].(status := Cancelled)];
      }
      events := events + [RolledBack(a)];
      error := None;
    }

    /** One candidate of the sweep, looked at again under its row lock. */
    method ExpireCandidate(a: nat, now: int) returns (done: bool)
      modifies this
      ensures View() == After(old(View()), Expire(a, now)) && (done <==> Takes(old(View()), Expire(a, now)))
    {
      if a >= |approvals| || !Open(approvals[a]) {
        return false;
      }
      if approvals[a].expiresAt.None? || approvals[a].expiresAt.value > now {
        return false;
      }
      approvals := approvals[a := approvals[a].(status := Expired)];
      events := events + [WasExpired(a)];
      done := true;
    }

    /** `expire_pending`: the candidates are queried at one instant and looked at again one by one. */
    method ExpirePending(queried: int, clock: nat -> int) returns (expired: seq<nat>)
      requires forall n: nat :: queried <= clock(n)
      modifies this
      ensures View() == AfterAll(old(View()), Sweep(Candidates(old(approvals), queried), clock))
      ensures expired == Candidates(old(approvals), queried)
    {
      ghost var before := View();
      var candidates := Candidates(approvals, queried);
      CandidatesMeaning(approvals, queried);
      expired := [];
      for n := 0 to |candidates|
        invariant View() == AfterAll(before, Sweep(candidates, clock)[..n])
        invariant expired == candidates[..n]
      {
        var a := candidates[n];
        SweepTakes(before, candidates, clock, queried, n);
        SweepNext(before, candidates, clock, n);
        var done := ExpireCandidate(a, clock(n));
        if done {
          expired := expired + [a];
        }
      }
      assert Sweep(candidates, clock)[..|candidates|] == Sweep(candidates, clock);
      assert candidates[..|candidates|] == candidates;
    }
  }

  lemma SweepNext(db: Db, candidates: seq<nat>, clock: nat -> int, n: nat)
    requires n < |candidates| && Increasing(candidates)
    ensures var ops := Sweep(candidates, clock);
            AfterAll(db, ops[..n + 1]) == After(AfterAll(db, ops[..n]), Expire(candidates[n], clock(n)))
    ensures candidates[..n + 1] == candidates[..n] + [candidates[n]]
    ensures candidates[n] in candidates && candidates[n] !in candidates[..n]
  {
    var ops := Sweep(candidates, clock);
    assert ops[..n + 1] == ops[..n] + [Expire(candidates[n], clock(n))];
    AfterAllStep(db, ops[..n], ops[n]);
  }

  predicate Overdue(a: Approval, now: int) {
    Open(a) && a.expiresAt.Some? && a.expiresAt.value < now
  }

  /** `get_expired_pending`. */
  function Candidates(approvals: seq<Approval>, now: int): seq<nat> {
    if approvals == [] then []
    else
      var n := |approvals| - 1;
      Candidates(approvals[..n], now) + if Overdue(approvals[n], now) then [n] else []
  }

  function Sweep(candidates: seq<nat>, clock: nat -> int): seq<Op> {
    seq(|candidates|, n requires 0 <= n < |candidates| => Expire(candidates[n], clock(n)))
  }

  ghost predicate Increasing(s: seq<nat>) {
    forall i, j :: 0 <= i < j < |s| ==> s[i] < s[j]
  }

  lemma {:induction false} CandidatesMeaning(approvals: seq<Approval>, now: int)
    ensures forall a: nat :: a in Candidates(approvals, now) <==> a < |approvals| && Overdue(approvals[a], now)
    ensures Increasing(Candidates(approvals, now))
    decreases |approvals|
  {
    if approvals != [] {
      var n := |approvals| - 1;
      CandidatesMeaning(approvals[..n], now);
      var before := Candidates(approvals[..n], now);
      forall j | 0 <= j < |before| ensures before[j] < n {
        assert before[j] in before;
      }
    }
  }

  lemma AfterAllStep(db: Db, ops: seq<Op>, op: Op)
    ensures AfterAll(db, ops + [op]) == After(AfterAll(db, ops), op)
  {
    assert (ops + [op])[..|ops|] == ops;
  }

  // ---------------------------------------------------------------- approvals and paused workflows

  /** A workflow has at most one open approval, and only while it is paused. */
  ghost predicate Coupled(db: Db) {
    && (forall i, j :: 0 <= i < j < |db.approvals| && db.approvals[i].workflow == db.approvals[j].workflow ==>
          !Open(db.approvals[i]) || !Open(db.approvals[j]))
    && (forall i :: 0 <= i < |db.approvals| && Open(db.approvals[i]) ==> IsPaused(db, db.approvals[i].workflow))
  }

  ghost predicate IsPaused(db: Db, w: int) {
    w in db.workflows && db.workflows[w].status.Paused?
  }

  /** The workflow gate and the writers that work with it: expiry, both escalations and the override. */
  ghost predicate GateOp(op: Op) {
    op.Request? || op.Resolve? || op.Escalate? || op.Expire? || op.Override? || op.ChainEscalate?
  }

  ghost predicate OpenBeside(db: Db, w: int, a: int) {
    exists i :: 0 <= i < |db.approvals| && i != a && db.approvals[i].workflow == w && Open(db.approvals[i])
  }

  /** What must not happen behind the gate's back: a paused workflow with an open approval is moved, or
      an approval opened beside it or while the workflow is not paused. */
  ghost predicate Safe(db: Db, op: Op) {
    if !Takes(db, op) then true
    else match op
      case AiRequest(w, _) => IsPaused(db, w) && !HasOpen(db.approvals, w)
      case RollbackReject(a, w, seen) => IsPaused(db, w) && !Terminal(seen) ==> !OpenBeside(db, w, a)
      case Transition(w, _) => IsPaused(db, w) ==> !HasOpen(db.approvals, w)
      case ResumeFromCheckpoint(w, _) => IsPaused(db, w) ==> !HasOpen(db.approvals, w)
      case Rollback(w, _) => IsPaused(db, w) ==> !HasOpen(db.approvals, w)
      case ResumeFailed(w, _) => IsPaused(db, w) ==> !HasOpen(db.approvals, w)
      case RestoreSnapshot(w, status) => IsPaused(db, w) && !status.Paused? ==> !HasOpen(db.approvals, w)
      case _ => true
  }

  lemma UnsafeUncouples(db: Db, op: Op)
    requires Coupled(db) && !Safe(db, op)
    ensures !Coupled(After(db, op))
  {
    var db' := After(db, op);
    if op.AiRequest? {
      var n := |db.approvals|;
      assert Open(db'.approvals[n]) && db'.approvals[n].workflow == op.workflow;
      if IsPaused(db, op.workflow) {
        var i :| 0 <= i < n && db.approvals[i].workflow == op.workflow && Open(db.approvals[i]);
        assert db'.approvals[i] == db.approvals[i];
      }
    } else {
      var skip := if op.RollbackReject? then op.approval else -1;
      assert OpenBeside(db, op.workflow, skip);
      var i :| 0 <= i < |db.approvals| && i != skip && db.approvals[i].workflow == op.workflow && Open(db.approvals[i]);
      assert db'.approvals[i] == db.approvals[i];
    }
  }

  lemma SafeKeepsCoupled(db: Db, op: Op)
    requires Coupled(db) && Safe(db, op)
    ensures Coupled(After(db, op))
  {
  }

  /** Every operation of the gate, expiry, escalation and override keeps approvals and workflows
      coupled; every other writer does exactly when it is safe. */
  lemma CoupledIffSafe(db: Db, op: Op)
    requires Coupled(db)
    ensures Coupled(After(db, op)) <==> Safe(db, op)
    ensures GateOp(op) || op.AiResolve? || op.StartWorkflow? ==> Safe(db, op)
    ensures op.ResumeFailed? && op.workflow in db.workflows && op.seen == db.workflows[op.workflow].status ==> Safe(db, op)
  {
    if Safe(db, op) { SafeKeepsCoupled(db, op); } else { UnsafeUncouples(db, op); }
  }

  ghost predicate CoupledThroughout(db: Db, ops: seq<Op>)
    decreases |ops|
  {
    Coupled(AfterAll(db, ops)) && (ops != [] ==> CoupledThroughout(db, ops[..|ops| - 1]))
  }

  ghost predicate SafeThroughout(db: Db, ops: seq<Op>)
    decreases |ops|
  {
    ops == [] || (SafeThroughout(db, ops[..|ops| - 1]) && Safe(AfterAll(db, ops[..|ops| - 1]), ops[|ops| - 1]))
  }

  /** Over runs of all writers: approvals and workflows are coupled at every moment exactly when every
      operation was safe at its moment. */
  lemma {:induction false} RunIsCoupledIffSafe(db: Db, ops: seq<Op>)
    requires Coupled(db)
    ensures CoupledThroughout(db, ops) <==> SafeThroughout(db, ops)
    decreases |ops|
  {
    if ops != [] {
      var init := ops[..|ops| - 1];
      RunIsCoupledIffSafe(db, init);
      if CoupledThroughout(db, init) {
        CoupledIffSafe(AfterAll(db, init), ops[|ops| - 1]);
      }
    }
  }

  /** The gate's check for a pending approval of the same type cannot fail in a coupled state: an active
      workflow has none. */
  lemma SameTypeCheckNeverFails(db: Db, w: int, kind: int, expiresAt: Option<int>)
    requires Coupled(db)
    ensures Refusal(db, Request(w, kind, expiresAt)) != Some(AlreadyPending)
  {
  }

  /** The AI gate makes it fail, from the empty tables: its approval is pending on an active workflow. */
  lemma AiApprovalTripsTheCheck(w: int, kind: int)
    ensures var db := AfterAll(EMPTY, [StartWorkflow(w, None), AiRequest(w, kind)]);
            && Refusal(db, Request(w, kind, None)) == Some(AlreadyPending)
            && HasOpen(db.approvals, w) && !IsPaused(db, w)
  {
    AfterTwo(EMPTY, StartWorkflow(w, None), AiRequest(w, kind));
    var db := AfterAll(EMPTY, [StartWorkflow(w, None), AiRequest(w, kind)]);
    assert db.approvals[0] == Approval(w, kind, Pending, None);
  }

  lemma AfterTwo(db: Db, a: Op, b: Op)
    ensures AfterAll(db, [a, b]) == After(After(db, a), b)
  {
    AfterAllStep(db, [], a);
    AfterAllStep(db, [a], b);
    assert [] + [a] == [a] && [a] + [b] == [a, b];
  }

  /** So does the runtime: a workflow resumed while its approval is open may ask for another one. */
  lemma ResumeBreaksTheGate(db: Db, a: nat, kind: int)
    requires Coupled(db) && a < |db.approvals| && Open(db.approvals[a]) && kind != db.approvals[a].kind
    ensures var w := db.approvals[a].workflow;
            var db' := After(After(db, Transition(w, Active)), Request(w, kind, None));
            && |db'.approvals| == |db.approvals| + 1
            && Open(db'.approvals[a]) && Open(db'.approvals[|db.approvals|])
            && db'.approvals[a].workflow == db'.approvals[|db.approvals|].workflow == w
  {
    var w := db.approvals[a].workflow;
    assert IsPaused(db, w);
    forall i | 0 <= i < |db.approvals| && db.approvals[i].workflow == w && Open(db.approvals[i]) ensures i == a {}
  }

  // ---------------------------------------------------------------- what is final

  /** Step n of the run is a rejecting rollback of a, taken. */
  ghost predicate RollsBack(db: Db, ops: seq<Op>, a: nat, n: nat)
    requires n < |ops|
  {
    ops[n].RollbackReject? && ops[n].approval == a && Takes(AfterAll(db, ops[..n]), ops[n])
  }

  ghost predicate SomeRollback(db: Db, ops: seq<Op>, a: nat) {
    exists n :: 0 <= n < |ops| && RollsBack(db, ops, a, n)
  }

  lemma RollbackPrefix(db: Db, ops: seq<Op>, a: nat)
    requires ops != []
    ensures var k := |ops| - 1; SomeRollback(db, ops, a) <==> SomeRollback(db, ops[..k], a) || RollsBack(db, ops, a, k)
  {
    var k := |ops| - 1;
    forall n | 0 <= n < k ensures RollsBack(db, ops, a, n) <==> RollsBack(db, ops[..k], a, n) {
      assert ops[..k][..n] == ops[..n];
    }
  }

  /** What becomes of a settled approval in any run of all writers: it is rejected if a rejecting
      rollback reaches it, and unchanged otherwise. */
  lemma {:induction false} SettledThen(db: Db, ops: seq<Op>, a: nat)
    requires a < |db.approvals| && !Open(db.approvals[a])
    ensures a < |AfterAll(db, ops).approvals|
    ensures AfterAll(db, ops).approvals[a]
            == if SomeRollback(db, ops, a) then db.approvals[a].(status := Rejected) else db.approvals[a]
    decreases |ops|
  {
    if ops != [] {
      var k := |ops| - 1;
      SettledThen(db, ops[..k], a);
      RollbackPrefix(db, ops, a);
    }
  }

  /** A settled approval changes exactly when a rejecting rollback reaches it and it was not rejected. */
  lemma FinalUnlessRolledBack(db: Db, ops: seq<Op>, a: nat)
    requires a < |db.approvals| && !Open(db.approvals[a])
    ensures a < |AfterAll(db, ops).approvals|
    ensures AfterAll(db, ops).approvals[a] != db.approvals[a] <==> SomeRollback(db, ops, a) && !db.approvals[a].status.Rejected?
  {
    SettledThen(db, ops, a);
  }

  /** The tables once a workflow has started and waits for one approval. */
  function OneWaits(w: int, kind: int): Db {
    Db(map[w := Workflow(Paused, None)], [Approval(w, kind, Pending, None)], [Moved(w), Requested(0)])
  }

  lemma OneWaitsIsReachable(w: int, kind: int)
    ensures AfterAll(EMPTY, [StartWorkflow(w, None), Request(w, kind, None)]) == OneWaits(w, kind)
    ensures Coupled(OneWaits(w, kind))
  {
    AfterTwo(EMPTY, StartWorkflow(w, None), Request(w, kind, None));
    var db := After(EMPTY, StartWorkflow(w, None));
    assert db == Db(map[w := Workflow(Active, None)], [], [Moved(w)]);
    assert After(db, Request(w, kind, None)).workflows == map[w := Workflow(Paused, None)];
  }

  /** From the empty tables: an approval that was approved through the gate ends rejected. */
  lemma ApprovedCanBeRejected(w: int, kind: int)
    ensures var db := AfterAll(EMPTY, [StartWorkflow(w, None), Request(w, kind, None)]);
            var ops := [Resolve(0, true, 0, 0), RollbackReject(0, w, Active)];
            && |db.approvals| == 1
            && |After(db, ops[0]).approvals| == 1 && After(db, ops[0]).approvals[0].status == Approved
            && |AfterAll(db, ops).approvals| == 1 && AfterAll(db, ops).approvals[0].status == Rejected
  {
    OneWaitsIsReachable(w, kind);
    AfterTwo(OneWaits(w, kind), Resolve(0, true, 0, 0), RollbackReject(0, w, Active));
  }

  /** From the empty tables: a resumed workflow has an open approval, and an overridden one stays paused
      without any. */
  lemma ResumedAndOverridden(w: int, kind: int, key: int)
    ensures var db := AfterAll(EMPTY, [StartWorkflow(w, None), Request(w, kind, None)]);
            var resumed, overridden := After(db, Transition(w, Active)), After(db, Override(0, key));
            && Coupled(db) && IsPaused(db, w)
            && HasOpen(resumed.approvals, w) && w in resumed.workflows && resumed.workflows[w].status.Active?
            && !HasOpen(overridden.approvals, w) && IsPaused(overridden, w)
  {
    OneWaitsIsReachable(w, kind);
    var db := OneWaits(w, kind);
    var resumed := After(db, Transition(w, Active));
    assert resumed.approvals[0] == db.approvals[0];
    assert !KeyUsed(db.events, key);
  }

  /** The gate never resolves an approval, or touches a workflow, at or past its deadline. */
  lemma NeverResolvedAtItsDeadline(db: Db, a: nat, approved: bool, now: int, later: int)
    requires After(db, Resolve(a, approved, now, later)) != db
    ensures a < |db.approvals| && db.approvals[a].workflow in db.workflows
    ensures var x := db.approvals[a];
            var w := db.workflows[x.workflow];
            && (x.expiresAt.Some? ==> now < x.expiresAt.value)
            && (w.expiresAt.Some? ==> later < w.expiresAt.value)
            && After(db, Resolve(a, approved, now, later)).workflows[x.workflow].status == if approved then Active else Failed
  {
  }

  // ---------------------------------------------------------------- what the journal says

  ghost predicate About(e: Event, a: nat) {
    !e.Moved? && e.approval == a
  }

  ghost function StatusAfter(e: Event): Status
    requires !e.Moved?
  {
    match e
    case Requested(_) => Pending
    case Resolved(_, approved) => if approved then Approved else Rejected
    case WasEscalated(_) => Escalated
    case WasExpired(_) => Expired
    case Overridden(_, _) => Approved
    case AiRequested(_) => Pending
    case AiResolved(_, approved) => if approved then Approved else Rejected
    case RolledBack(_) => Rejected
  }

  ghost predicate Settles(e: Event) {
    e.Resolved? || e.WasExpired? || e.Overridden? || e.AiResolved? || e.RolledBack?
  }

  ghost function Replay(events: seq<Event>, a: nat): Option<Status> {
    if events == [] then None
    else if About(events[|events| - 1], a) then Some(StatusAfter(events[|events| - 1]))
    else Replay(events[..|events| - 1], a)
  }

  /** How often an approval was settled, by whatever writer. */
  ghost function Settlements(events: seq<Event>, a: nat): nat {
    if events == [] then 0
    else
      var e := events[|events| - 1];
      Settlements(events[..|events| - 1], a) + if About(e, a) && Settles(e) then 1 else 0
  }

  lemma LogStep(events: seq<Event>, e: Event, a: nat)
    ensures Replay(events + [e], a) == if About(e, a) then Some(StatusAfter(e)) else Replay(events, a)
    ensures Settlements(events + [e], a) == Settlements(events, a) + if About(e, a) && Settles(e) then 1 else 0
  {
    assert (events + [e])[..|events|] == events;
  }

  ghost predicate Settled(db: Db, a: nat) {
    a < |db.approvals| && !Open(db.approvals[a])
  }

  /** Steps of a run at which a rejecting rollback reached an approval that was settled already. */
  ghost function Resettlings(db: Db, ops: seq<Op>, a: nat): nat {
    if ops == [] then 0
    else
      var k := |ops| - 1;
      Resettlings(db, ops[..k], a) + if RollsBack(db, ops, a, k) && Settled(AfterAll(db, ops[..k]), a) then 1 else 0
  }

  /** The journal of approval a replays to its row, and counts its settlements and `again` more. */
  ghost predicate LoggedAt(db: Db, a: nat, again: nat) {
    && Replay(db.events, a) == (if a < |db.approvals| then Some(db.approvals[a].status) else None)
    && Settlements(db.events, a) == again + if Settled(db, a) then 1 else 0
  }

  lemma OtherRowStep(db: Db, op: Op, e: Event, a: nat)
    requires Takes(db, op) && Done(db, op).events == db.events + [e] && !About(e, a)
    ensures a < |db.approvals| <==> a < |Done(db, op).approvals|
    ensures a < |db.approvals| ==> Done(db, op).approvals[a] == db.approvals[a]
  {
    assert Done(db, op).events[|db.events|] == e;
  }

  lemma OwnRowStep(db: Db, op: Op, e: Event, a: nat)
    requires Takes(db, op) && Done(db, op).events == db.events + [e] && About(e, a)
    ensures a < |Done(db, op).approvals| && Done(db, op).approvals[a].status == StatusAfter(e)
    ensures Settles(e) <==> Settled(Done(db, op), a)
    ensures Settled(db, a) ==> op.RollbackReject? && op.approval == a
  {
    assert Done(db, op).events[|db.events|] == e;
  }

  lemma RowStep(db: Db, op: Op, a: nat, again: nat)
    requires Takes(db, op) && LoggedAt(db, a, again)
    ensures LoggedAt(Done(db, op), a, again + if op.RollbackReject? && op.approval == a && Settled(db, a) then 1 else 0)
  {
    var e := Done(db, op).events[|db.events|];
    assert Done(db, op).events == db.events + [e];
    LogStep(db.events, e, a);
    if About(e, a) { OwnRowStep(db, op, e, a); } else { OtherRowStep(db, op, e, a); }
  }

  lemma {:induction false} RunIsLogged(db: Db, ops: seq<Op>, a: nat)
    requires LoggedAt(db, a, 0)
    ensures LoggedAt(AfterAll(db, ops), a, Resettlings(db, ops, a))
    decreases |ops|
  {
    if ops != [] {
      var init, op := ops[..|ops| - 1], ops[|ops| - 1];
      RunIsLogged(db, init, a);
      if Takes(AfterAll(db, init), op) {
        RowStep(AfterAll(db, init), op, a, Resettlings(db, init, a));
      }
    }
  }

  /** An approval is settled twice only once it is settled. */
  lemma {:induction false} ResettledIsSettled(db: Db, ops: seq<Op>, a: nat)
    requires Resettlings(db, ops, a) > 0
    ensures Settled(AfterAll(db, ops), a)
    decreases |ops|
  {
    var k := |ops| - 1;
    if Settled(AfterAll(db, ops[..k]), a) {
      StaysSettled(AfterAll(db, ops[..k]), ops[k], a);
    } else {
      ResettledIsSettled(db, ops[..k], a);
    }
  }

  lemma StaysSettled(db: Db, op: Op, a: nat)
    requires Settled(db, a)
    ensures Settled(After(db, op), a)
  {
  }

  /** In every run of all writers from the empty tables the journal replays to the table, and an approval
      is settled at most once exactly when no rejecting rollback reached it settled. */
  lemma SettledOnceIffNotRolledBack(ops: seq<Op>, a: nat)
    ensures var db := AfterAll(EMPTY, ops);
            && (a < |db.approvals| ==> Replay(db.events, a) == Some(db.approvals[a].status))
            && (Settlements(db.events, a) <= 1 <==> Resettlings(EMPTY, ops, a) == 0)
  {
    RunIsLogged(EMPTY, ops, a);
    if Resettlings(EMPTY, ops, a) > 0 { ResettledIsSettled(EMPTY, ops, a); }
  }

  // ---------------------------------------------------------------- how a paused workflow becomes active

  /** Steps of a run that take w from paused to active. */
  ghost function Reactivations(db: Db, ops: seq<Op>, w: int): nat {
    if ops == [] then 0
    else
      var n := |ops| - 1;
      Reactivations(db, ops[..n], w)
      + if IsPaused(AfterAll(db, ops[..n]), w) && AfterAll(db, ops).workflows[w].status.Active? then 1 else 0
  }

  /** A move from paused to active that goes around every approval. */
  ghost predicate Bypasses(db: Db, op: Op, w: int) {
    && Takes(db, op) && IsPaused(db, w)
    && match op
       case Transition(x, target) => x == w && target.Active?
       case ResumeFromCheckpoint(x, _) => x == w
       case ResumeFailed(x, _) => x == w
       case RestoreSnapshot(x, status) => x == w && status.Active?
       case _ => false
  }

  ghost function BypassesOf(db: Db, ops: seq<Op>, w: int): nat {
    if ops == [] then 0
    else
      var n := |ops| - 1;
      BypassesOf(db, ops[..n], w) + if Bypasses(AfterAll(db, ops[..n]), ops[n], w) then 1 else 0
  }

  /** Approving resolutions of approvals of w. */
  ghost function Approvings(approvals: seq<Approval>, events: seq<Event>, w: int): nat {
    if events == [] then 0
    else
      var e := events[|events| - 1];
      Approvings(approvals, events[..|events| - 1], w)
      + if e.Resolved? && e.approved && e.approval < |approvals| && approvals[e.approval].workflow == w then 1 else 0
  }

  ghost predicate EventsInTable(db: Db) {
    forall i :: 0 <= i < |db.events| && !db.events[i].Moved? ==> db.events[i].approval < |db.approvals|
  }

  ghost predicate SameOwners(a: seq<Approval>, b: seq<Approval>) {
    |a| <= |b| && forall i :: 0 <= i < |a| ==> a[i].workflow == b[i].workflow
  }

  lemma {:induction false} ApprovingsGrow(a: seq<Approval>, b: seq<Approval>, events: seq<Event>, w: int)
    requires SameOwners(a, b) && forall i :: 0 <= i < |events| && !events[i].Moved? ==> events[i].approval < |a|
    ensures Approvings(b, events, w) == Approvings(a, events, w)
    decreases |events|
  {
    if events != [] {
      ApprovingsGrow(a, b, events[..|events| - 1], w);
    }
  }

  ghost function Approves(approvals: seq<Approval>, e: Event, w: int): nat {
    if e.Resolved? && e.approved && e.approval < |approvals| && approvals[e.approval].workflow == w then 1 else 0
  }

  lemma ApprovingsStep(approvals: seq<Approval>, events: seq<Event>, e: Event, w: int)
    ensures Approvings(approvals, events + [e], w) == Approvings(approvals, events, w) + Approves(approvals, e, w)
  {
    assert (events + [e])[..|events|] == events;
  }

  /** A step reactivates when its event is an approving resolution, or it is a bypass, and never both. */
  lemma EventOfStep(db: Db, op: Op, w: int)
    requires Takes(db, op)
    ensures var db' := Done(db, op);
            && |db'.events| == |db.events| + 1 && db'.events[..|db.events|] == db.events
            && (w in db.workflows ==> w in db'.workflows)
            && Approves(db'.approvals, db'.events[|db.events|], w) + (if Bypasses(db, op, w) then 1 else 0)
               == if IsPaused(db, w) && db'.workflows[w].status.Active? then 1 else 0
  {
  }

  lemma OwnersOfStep(db: Db, op: Op)
    requires Takes(db, op) && EventsInTable(db)
    ensures SameOwners(db.approvals, Done(db, op).approvals) && EventsInTable(Done(db, op))
  {
  }

  lemma ReactivationStep(db: Db, op: Op, w: int)
    requires EventsInTable(db)
    ensures var db' := After(db, op);
            && EventsInTable(db') && (w in db.workflows ==> w in db'.workflows)
            && Approvings(db'.approvals, db'.events, w) - Approvings(db.approvals, db.events, w)
               + (if Bypasses(db, op, w) then 1 else 0)
               == if IsPaused(db, w) && db'.workflows[w].status.Active? then 1 else 0
  {
    if Takes(db, op) {
      var db' := Done(db, op);
      EventOfStep(db, op, w);
      OwnersOfStep(db, op);
      var e := db'.events[|db.events|];
      assert db'.events == db.events + [e];
      ApprovingsGrow(db.approvals, db'.approvals, db.events, w);
      ApprovingsStep(db'.approvals, db.events, e, w);
    }
  }

  /** Over runs of all writers: however often a workflow goes from paused to active, it is once for
      each approving resolution of one of its approvals by the gate, and once for each bypass. */
  lemma {:induction false} ReactivationsAreApprovalsOrBypasses(db: Db, ops: seq<Op>, w: int)
    requires EventsInTable(db)
    ensures var d := AfterAll(db, ops);
            && EventsInTable(d)
            && Reactivations(db, ops, w)
               == Approvings(d.approvals, d.events, w) - Approvings(db.approvals, db.events, w) + BypassesOf(db, ops, w)
    decreases |ops|
  {
    if ops != [] {
      var n := |ops| - 1;
      ReactivationsAreApprovalsOrBypasses(db, ops[..n], w);
      ReactivationStep(AfterAll(db, ops[..n]), ops[n], w);
    }
  }

  /** Over any gate operations, resolutions of the AI gate and starts from a coupled state, approvals and
      workflows stay coupled. */
  lemma {:induction false} GateRunsStayCoupled(db: Db, ops: seq<Op>)
    requires Coupled(db) && forall i :: 0 <= i < |ops| ==> GateOp(ops[i]) || ops[i].AiResolve? || ops[i].StartWorkflow?
    ensures Coupled(AfterAll(db, ops))
    decreases |ops|
  {
    if ops != [] {
      var n := |ops| - 1;
      GateRunsStayCoupled(db, ops[..n]);
      CoupledIffSafe(AfterAll(db, ops[..n]), ops[n]);
    }
  }

  // ---------------------------------------------------------------- when a paused workflow can still resume

  /** Gate operations with clocks at or after `from`. */
  ghost predicate GateRun(ops: seq<Op>, from: int) {
    forall i :: 0 <= i < |ops| ==> GateOp(ops[i]) && (ops[i].Resolve? ==> ops[i].now >= from && ops[i].later >= from)
  }

  /** An open approval of w that is not past its deadline, on a workflow that is not past its own. */
  ghost predicate Resolvable(db: Db, w: int, from: int) {
    && w in db.workflows && !Past(db.workflows[w].expiresAt, from)
    && exists a :: 0 <= a < |db.approvals| && CanApprove(db.approvals[a], w, from)
  }

  ghost predicate CanApprove(x: Approval, w: int, from: int) {
    x.workflow == w && Open(x) && !Past(x.expiresAt, from)
  }

  ghost predicate Stranded(db: Db, w: int, from: int) {
    w in db.workflows && db.workflows[w].status in {Paused, Failed} && !Resolvable(db, w, from)
  }

  lemma TakenIsResolvable(db: Db, op: Op, from: int)
    requires op.Resolve? && Takes(db, op) && op.now >= from && op.later >= from
    ensures Resolvable(db, db.approvals[op.approval].workflow, from)
  {
    assert CanApprove(db.approvals[op.approval], db.approvals[op.approval].workflow, from);
  }

  lemma StrandedStep(db: Db, op: Op, w: int, from: int)
    requires Stranded(db, w, from) && GateRun([op], from)
    ensures Stranded(After(db, op), w, from)
  {
    assert GateOp([op][0]);
    if Takes(db, op) {
      var db' := After(db, op);
      if op.Resolve? && db.approvals[op.approval].workflow == w {
        TakenIsResolvable(db, op, from);
      }
      assert db'.workflows[w].expiresAt == db.workflows[w].expiresAt;
      forall a | 0 <= a < |db'.approvals| && CanApprove(db'.approvals[a], w, from)
        ensures a < |db.approvals| && CanApprove(db.approvals[a], w, from)
      {
      }
    }
  }

  lemma {:induction false} StrandedStays(db: Db, ops: seq<Op>, w: int, from: int)
    requires Stranded(db, w, from) && GateRun(ops, from)
    ensures Stranded(AfterAll(db, ops), w, from)
    decreases |ops|
  {
    if ops != [] {
      var n := |ops| - 1;
      StrandedStays(db, ops[..n], w, from);
      assert GateOp(ops[n]);
      StrandedStep(AfterAll(db, ops[..n]), ops[n], w, from);
    }
  }

  ghost predicate IsActive(db: Db, w: int) {
    w in db.workflows && db.workflows[w].status.Active?
  }

  lemma ApprovingResumes(db: Db, w: int, from: int, a: nat) returns (ops: seq<Op>)
    requires IsPaused(db, w) && !Past(db.workflows[w].expiresAt, from)
    requires a < |db.approvals| && CanApprove(db.approvals[a], w, from)
    ensures GateRun(ops, from) && IsActive(AfterAll(db, ops), w)
  {
    var op := Resolve(a, true, from, from);
    ops := [op];
    assert ops[..0] == [];
    assert AfterAll(db, ops) == After(AfterAll(db, ops[..0]), op);
  }

  /** Through the workflow gate, expiry, escalation and override alone, a paused workflow can become
      active again exactly when it has an open approval and neither deadline has passed. */
  lemma CanResumeIffResolvable(db: Db, w: int, from: int)
    requires IsPaused(db, w)
    ensures (exists ops :: GateRun(ops, from) && IsActive(AfterAll(db, ops), w)) <==> Resolvable(db, w, from)
  {
    if Resolvable(db, w, from) {
      var a :| 0 <= a < |db.approvals| && CanApprove(db.approvals[a], w, from);
      var ops := ApprovingResumes(db, w, from, a);
    } else {
      forall ops | GateRun(ops, from) ensures !IsActive(AfterAll(db, ops), w) {
        StrandedStays(db, ops, w, from);
      }
    }
  }

  /** An override approves the approval but leaves the workflow paused, and no gate operation, expiry,
      escalation or override will ever resume it; the same holds when the approval expires. */
  lemma OverrideStrandsTheWorkflow(db: Db, op: Op, ops: seq<Op>, from: int)
    requires Coupled(db) && (op.Override? || op.Expire?) && Takes(db, op) && GateRun(ops, from)
    ensures var w := db.approvals[op.approval].workflow;
            w in AfterAll(After(db, op), ops).workflows && !AfterAll(After(db, op), ops).workflows[w].status.Active?
  {
    var w, db' := db.approvals[op.approval].workflow, After(db, op);
    assert IsPaused(db, w);
    forall a | 0 <= a < |db'.approvals| ensures !CanApprove(db'.approvals[a], w, from) {
      if a != op.approval {
        assert db'.approvals[a] == db.approvals[a];
      }
    }
    StrandedStays(db', ops, w, from);
  }

  /** The same writers and the AI gate. */
  ghost predicate AiGateRun(ops: seq<Op>, from: int) {
    forall i :: 0 <= i < |ops| ==>
      && (GateOp(ops[i]) || ops[i].AiRequest? || ops[i].AiResolve?)
      && (ops[i].Resolve? ==> ops[i].now >= from && ops[i].later >= from)
  }

  ghost predicate Overrun(db: Db, w: int, from: int) {
    w in db.workflows && db.workflows[w].status in {Paused, Failed} && Past(db.workflows[w].expiresAt, from)
  }

  lemma {:induction false} OverrunStays(db: Db, ops: seq<Op>, w: int, from: int)
    requires Overrun(db, w, from) && AiGateRun(ops, from)
    ensures Overrun(AfterAll(db, ops), w, from)
    decreases |ops|
  {
    if ops != [] {
      var n := |ops| - 1;
      OverrunStays(db, ops[..n], w, from);
      assert GateOp(ops[n]) || ops[n].AiRequest? || ops[n].AiResolve?;
    }
  }

  /** What the partial unique index promises: one pending approval of a kind for a workflow. */
  ghost predicate PendingUnique(db: Db) {
    forall i, j :: 0 <= i < j < |db.approvals| && SameKind(db.approvals[i], db.approvals[j]) ==>
      !db.approvals[i].status.Pending? || !db.approvals[j].status.Pending?
  }

  predicate SameKind(x: Approval, y: Approval) {
    x.workflow == y.workflow && x.kind == y.kind
  }

  lemma PendingUniqueStep(db: Db, op: Op)
    requires PendingUnique(db)
    ensures PendingUnique(After(db, op))
  {
  }

  lemma {:induction false} PendingUniqueAlways(ops: seq<Op>)
    ensures PendingUnique(AfterAll(EMPTY, ops))
    decreases |ops|
  {
    if ops != [] {
      PendingUniqueAlways(ops[..|ops| - 1]);
      PendingUniqueStep(AfterAll(EMPTY, ops[..|ops| - 1]), ops[|ops| - 1]);
    }
  }

  lemma AskAndApprove(db: Db, w: int, kind: int, from: int)
    requires IsPaused(db, w) && !Past(db.workflows[w].expiresAt, from) && !HasPendingOfKind(db.approvals, w, kind)
    ensures IsActive(AfterAll(db, [AiRequest(w, kind), Resolve(|db.approvals|, true, from, from)]), w)
  {
    AfterTwo(db, AiRequest(w, kind), Resolve(|db.approvals|, true, from, from));
    assert Takes(db, AiRequest(w, kind));
  }

  lemma CloseAskAndApprove(db: Db, w: int, from: int, a: nat)
    requires PendingUnique(db) && IsPaused(db, w) && !Past(db.workflows[w].expiresAt, from)
    requires a < |db.approvals| && db.approvals[a].workflow == w && db.approvals[a].status.Pending?
    ensures var kind := db.approvals[a].kind;
            IsActive(AfterAll(db, [AiResolve(a, false), AiRequest(w, kind), Resolve(|db.approvals|, true, from, from)]), w)
  {
    var db', kind := After(db, AiResolve(a, false)), db.approvals[a].kind;
    forall i | 0 <= i < |db'.approvals| && db'.approvals[i].workflow == w && db'.approvals[i].kind == kind
      ensures !db'.approvals[i].status.Pending?
    {
      assert i != a ==> db'.approvals[i] == db.approvals[i] && SameKind(db.approvals[i], db.approvals[a]);
    }
    AskAndApprove(db', w, kind, from);
    var two := [AiRequest(w, kind), Resolve(|db.approvals|, true, from, from)];
    AfterConcat(db, [AiResolve(a, false)], two);
    AfterAllStep(db, [], AiResolve(a, false));
    assert [] + [AiResolve(a, false)] == [AiResolve(a, false)];
    assert [AiResolve(a, false)] + two == [AiResolve(a, false), AiRequest(w, kind), Resolve(|db.approvals|, true, from, from)];
  }

  lemma {:induction false} AfterConcat(db: Db, a: seq<Op>, b: seq<Op>)
    ensures AfterAll(db, a + b) == AfterAll(AfterAll(db, a), b)
    decreases |b|
  {
    if b == [] {
      assert a + b == a;
    } else {
      var n := |b| - 1;
      AfterConcat(db, a, b[..n]);
      assert a + b == (a + b[..n]) + [b[n]];
      AfterAllStep(db, a + b[..n], b[n]);
    }
  }

  /** With the AI gate beside them, only the workflow's own deadline strands it, whatever run of all writers
      has led there: a tool that asks for approval, of any kind, brings a new one, and the gate resolves it. */
  lemma AiGateCanResumeIffInTime(past: seq<Op>, w: int, kind: int, from: int)
    requires IsPaused(AfterAll(EMPTY, past), w)
    ensures var db := AfterAll(EMPTY, past);
            (exists ops :: AiGateRun(ops, from) && AsksOnlyFor(ops, kind) && IsActive(AfterAll(db, ops), w))
            <==> !Past(db.workflows[w].expiresAt, from)
  {
    var db := AfterAll(EMPTY, past);
    if Past(db.workflows[w].expiresAt, from) {
      forall ops | AiGateRun(ops, from) ensures !IsActive(AfterAll(db, ops), w) {
        OverrunStays(db, ops, w, from);
      }
    } else if HasPendingOfKind(db.approvals, w, kind) {
      PendingUniqueAlways(past);
      var a :| 0 <= a < |db.approvals| && db.approvals[a].workflow == w && db.approvals[a].kind == kind && db.approvals[a].status.Pending?;
      CloseAskAndApprove(db, w, from, a);
      var ops := [AiResolve(a, false), AiRequest(w, kind), Resolve(|db.approvals|, true, from, from)];
      assert AiGateRun(ops, from) && AsksOnlyFor(ops, kind);
    } else {
      AskAndApprove(db, w, kind, from);
      var ops := [AiRequest(w, kind), Resolve(|db.approvals|, true, from, from)];
      assert AiGateRun(ops, from) && AsksOnlyFor(ops, kind);
    }
  }

  ghost predicate AsksOnlyFor(ops: seq<Op>, kind: int) {
    forall i :: 0 <= i < |ops| && ops[i].AiRequest? ==> ops[i].kind == kind
  }

  /** A sweep leaves no approval open that was overdue when it began. */
  lemma {:induction false} SweepExpires(db: Db, candidates: seq<nat>, clock: nat -> int, queried: int, n: nat)
    requires n <= |candidates| && Increasing(candidates) && forall m: nat :: queried <= clock(m)
    requires forall c :: c in candidates ==> c < |db.approvals| && Overdue(db.approvals[c], queried)
    ensures var d := AfterAll(db, Sweep(candidates, clock)[..n]);
            && d.workflows == db.workflows && |d.approvals| == |db.approvals|
            && forall a: nat :: a < |db.approvals| ==>
                 d.approvals[a] == if a in candidates[..n] then db.approvals[a].(status := Expired) else db.approvals[a]
  {
    var ops := Sweep(candidates, clock);
    if n > 0 {
      SweepExpires(db, candidates, clock, queried, n - 1);
      SweepNext(db, candidates, clock, n - 1);
    }
  }

  lemma SweepTakes(db: Db, candidates: seq<nat>, clock: nat -> int, queried: int, n: nat)
    requires n < |candidates| && Increasing(candidates) && forall m: nat :: queried <= clock(m)
    requires forall c :: c in candidates ==> c < |db.approvals| && Overdue(db.approvals[c], queried)
    ensures Takes(AfterAll(db, Sweep(candidates, clock)[..n]), Expire(candidates[n], clock(n)))
  {
    SweepExpires(db, candidates, clock, queried, n);
    SweepNext(db, candidates, clock, n);
    assert queried <= clock(n);
  }

  /** What `expire_pending` does to the table: exactly the approvals open and overdue at the query
      become expired. */
  lemma SweepIsExact(db: Db, clock: nat -> int, queried: int)
    requires forall m: nat :: queried <= clock(m)
    ensures var d := AfterAll(db, Sweep(Candidates(db.approvals, queried), clock));
            && d.workflows == db.workflows && |d.approvals| == |db.approvals|
            && forall a: nat :: a < |db.approvals| ==>
                 d.approvals[a] == if Overdue(db.approvals[a], queried) then db.approvals[a].(status := Expired) else db.approvals[a]
  {
    var candidates := Candidates(db.approvals, queried);
    CandidatesMeaning(db.approvals, queried);
    SweepExpires(db, candidates, clock, queried, |candidates|);
    assert candidates[..|candidates|] == candidates;
    assert Sweep(candidates, clock)[..|candidates|] == Sweep(candidates, clock);
  }
}
