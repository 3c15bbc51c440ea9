/** The command outbox of a lead: commands are staged once, sent at least once, and settled only by a
    receipt or a review; and the loop that recovers the leads one after the other while others write. */
module SourceCommands {
  import opened Sorting

  datatype Option<T> = None | Some(value: T)

  // Identities, digests and destinations are opaque; instants are in microseconds.
  datatype Action = ScheduleCallback | SetDisposition | CancelWalkthrough | DraftOffer | Unsupported(name: int)
  datatype Payload = Payload(id: int, tenant: int, lead: int, property: int, expectedUpdatedAt: int,
                             action: Action, at: Option<int>, body: int)
  datatype State = Pending | Applied | RequiresReview
  datatype Problem = DestinationChanged | RetryBudgetExhausted | UnsupportedOperation | SourceRejected | UnconfirmedReceipt | Raised(name: int)
  datatype Receipt = Receipt(schemaVersion: int, persisted: bool, receiptId: int, lead: int, action: Action)
  datatype Command = Command(id: int, payload: Payload, action: Action, target: int, state: State,
                             attempts: nat, createdAt: int, problem: Option<Problem>, receipt: Option<Receipt>)

  // What the recovery of one command meets: the clock, and the answer of the source if it is asked.
  datatype Reply = Failure(name: int) | Response(status: int, receipt: Option<Receipt>)
  datatype Env = Env(now: int, reply: Reply)

  const SECOND := 1_000_000
  const DAY := 86_400 * SECOND
  const MAX_ATTEMPTS := 30
  const MAX_COMMANDS := 100

  // ---------------------------------------------------------------- one recovery pass over a lead

  predicate Success(status: int) {
    200 <= status <= 299
  }

  /** The receipt is for this very command. */
  predicate Confirms(reply: Reply, c: Command) {
    && reply.Response? && Success(reply.status) && reply.receipt.Some?
    && reply.receipt.value.schemaVersion == 1 && reply.receipt.value.persisted
    && reply.receipt.value.receiptId == c.id && reply.receipt.value.lead == c.payload.lead
    && reply.receipt.value.action == c.action
  }

  predicate Rejects(reply: Reply) {
    reply.Response? && reply.status in {400, 401, 403, 409, 422}
  }

  function Reviewed(c: Command, p: Problem): Command {
    c.(state := RequiresReview, problem := Some(p))
  }

  function Attempted(c: Command, reply: Reply): Command {
    var c1 := c.(attempts := c.attempts + 1);
    if c.action.Unsupported? then Reviewed(c1, UnsupportedOperation)
    else if Confirms(reply, c) then c1.(state := Applied, receipt := reply.receipt)
    else if Rejects(reply) then Reviewed(c1, SourceRejected)
    else if reply.Failure? then c1.(problem := Some(Raised(reply.name)))
    else c1.(problem := Some(UnconfirmedReceipt))
  }

  predicate Exhausted(c: Command, now: int) {
    now - c.createdAt > DAY || c.attempts >= MAX_ATTEMPTS
  }

  /** Pending, and neither misdirected nor exhausted: an attempt is due. */
  predicate Due(c: Command, now: int, target: int) {
    c.state.Pending? && c.target == target && !Exhausted(c, now)
  }

  /** How many of the first i commands are due. */
  function DueCount(cs: seq<Command>, env: nat -> Env, target: int, i: nat): nat
    requires i <= |cs|
  {
    if i == 0 then 0 else DueCount(cs, env, target, i - 1) + if Due(cs[i - 1], env(i - 1).now, target) then 1 else 0
  }

  /** A pass stops in front of the second due command. */
  predicate Reached(cs: seq<Command>, env: nat -> Env, target: int, i: nat)
    requires i < |cs|
  {
    DueCount(cs, env, target, i + 1) <= 1
  }

  /** Command i after the pass. */
  function Settled(cs: seq<Command>, env: nat -> Env, target: int, i: nat): Command
    requires i < |cs|
  {
    var c := cs[i];
    if !c.state.Pending? || !Reached(cs, env, target, i) then c
    else if c.target != target then Reviewed(c, DestinationChanged)
    else if Exhausted(c, env(i).now) then Reviewed(c, RetryBudgetExhausted)
    else Attempted(c, env(i).reply)
  }

  function Pass(cs: seq<Command>, env: nat -> Env, target: int): seq<Command> {
    seq(|cs|, i requires 0 <= i < |cs| => Settled(cs, env, target, i))
  }

  /** The positions whose payload is posted to the source. */
  ghost function Sent(cs: seq<Command>, env: nat -> Env, target: int): set<nat> {
    set i: nat | i < |cs| && Due(cs[i], env(i).now, target) && Reached(cs, env, target, i) && !cs[i].action.Unsupported?
  }

  lemma {:induction false} DueCountGrows(cs: seq<Command>, env: nat -> Env, target: int, i: nat, j: nat)
    requires i <= j <= |cs|
    ensures DueCount(cs, env, target, i) <= DueCount(cs, env, target, j)
    decreases j
  {
    if i < j {
      DueCountGrows(cs, env, target, i, j - 1);
    }
  }

  lemma NothingAfterSecondDue(cs: seq<Command>, env: nat -> Env, target: int, i: nat)
    requires i < |cs| && DueCount(cs, env, target, i + 1) > 1
    ensures forall j: nat :: i <= j < |cs| ==> !Reached(cs, env, target, j)
  {
    forall j: nat | i <= j < |cs| ensures !Reached(cs, env, target, j) {
      DueCountGrows(cs, env, target, i + 1, j + 1);
    }
  }

  /** The loop of `recover_commands` over the commands of one lead, which are changed in place. */
  method RecoverLead(a: array<Command>, env: nat -> Env, target: int) returns (ghost posts: seq<nat>)
    modifies a
    ensures a[..] == Pass(old(a[..]), env, target)
    ensures |posts| <= 1 && forall i :: i in posts <==> i in Sent(old(a[..]), env, target)
  {
    ghost var cs := a[..];
    var attemptsThisLead := 0;
    posts := [];
    var i := 0;
    while i < a.Length
      invariant i <= a.Length == |cs|
      invariant forall j :: i <= j < a.Length ==> a[j] == cs[j]
      invariant forall j :: 0 <= j < i ==> a[j] == Settled(cs, env, target, j)
      invariant attemptsThisLead == DueCount(cs, env, target, i) <= 1
      invariant |posts| <= attemptsThisLead
      invariant forall j :: j in posts <==> j in Sent(cs, env, target) && j < i
    {
      var c := a[i];
      if c.state.Pending? {
        if c.target != target {
          a[i] := Reviewed(c, DestinationChanged);
        } else if Exhausted(c, env(i).now) {
          a[i] := Reviewed(c, RetryBudgetExhausted);
        } else if attemptsThisLead >= 1 {
          break;
        } else {
          attemptsThisLead := attemptsThisLead + 1;
          if !c.action.Unsupported? {
            posts := posts + [i];
          }
          a[i] := Attempted(c, env(i).reply);
        }
      }
      i := i + 1;
    }
    if i < a.Length {
      NothingAfterSecondDue(cs, env, target, i);
    }
  }

  // ---------------------------------------------------------------- what a pass keeps

  /** Attempts still allowed, plus one for the review that ends them. */
  function Left(c: Command): nat {
    if c.state.Pending? && c.attempts <= MAX_ATTEMPTS then MAX_ATTEMPTS + 1 - c.attempts else 0
  }

  function Measure(cs: seq<Command>): nat {
    if cs == [] then 0 else Measure(cs[..|cs| - 1]) + Left(cs[|cs| - 1])
  }

  ghost predicate WithinBudget(cs: seq<Command>) {
    forall i :: 0 <= i < |cs| ==> cs[i].attempts <= MAX_ATTEMPTS
  }

  ghost predicate SameCommand(c: Command, d: Command) {
    d.id == c.id && d.payload == c.payload && d.action == c.action && d.target == c.target && d.createdAt == c.createdAt
  }

  ghost predicate SomePending(cs: seq<Command>) {
    exists i :: 0 <= i < |cs| && cs[i].state.Pending?
  }

  /** What a pass may do to one command: nothing if it is not pending; never exceed the budget; apply
      it exactly when it was posted and its own receipt came back; post nothing older than a day. */
  lemma SettledMeaning(cs: seq<Command>, env: nat -> Env, target: int, i: nat)
    requires i < |cs| && cs[i].attempts <= MAX_ATTEMPTS
    ensures var c, d := cs[i], Settled(cs, env, target, i);
            && SameCommand(c, d) && d.attempts <= MAX_ATTEMPTS
            && (!c.state.Pending? ==> d == c)
            && Left(d) <= Left(c)
            && (c.state.Pending? && Reached(cs, env, target, i) ==> Left(d) < Left(c))
            && (c.state.Pending? ==> (d.state.Applied? <==> i in Sent(cs, env, target) && Confirms(env(i).reply, c)))
            && (c.state.Pending? && d.state.Applied? ==> d.receipt == env(i).reply.receipt)
            && (i in Sent(cs, env, target) ==> c.target == target && c.attempts < 30 && env(i).now - c.createdAt <= 86_400_000_000)
            && d.attempts - c.attempts <= 1
            && (i in Sent(cs, env, target) ==> d.attempts == c.attempts + 1)
  {
  }

  /** At most one payload of a lead is posted in a pass. */
  lemma OnePostPerPass(cs: seq<Command>, env: nat -> Env, target: int, i: nat, j: nat)
    requires i in Sent(cs, env, target) && j in Sent(cs, env, target)
    ensures i == j
  {
    if i < j {
      DueCountGrows(cs, env, target, i + 1, j);
    } else if j < i {
      DueCountGrows(cs, env, target, j + 1, i);
    }
  }

  lemma {:induction false} NoneDueBefore(cs: seq<Command>, env: nat -> Env, target: int, i: nat)
    requires i <= |cs| && forall j :: 0 <= j < i ==> !cs[j].state.Pending?
    ensures DueCount(cs, env, target, i) == 0
  {
    if i > 0 {
      NoneDueBefore(cs, env, target, i - 1);
    }
  }

  lemma {:induction false} MeasureShrinks(cs: seq<Command>, ds: seq<Command>, first: nat)
    requires |cs| == |ds| && first < |cs| && forall i :: 0 <= i < |cs| ==> Left(ds[i]) <= Left(cs[i])
    requires Left(ds[first]) < Left(cs[first])
    ensures Measure(ds) < Measure(cs)
    decreases |cs|
  {
    var n := |cs| - 1;
    if first == n {
      MeasureMonotone(cs[..n], ds[..n]);
    } else {
      MeasureShrinks(cs[..n], ds[..n], first);
    }
  }

  lemma {:induction false} MeasureMonotone(cs: seq<Command>, ds: seq<Command>)
    requires |cs| == |ds| && forall i :: 0 <= i < |cs| ==> Left(ds[i]) <= Left(cs[i])
    ensures Measure(ds) <= Measure(cs)
    decreases |cs|
  {
    if cs != [] {
      var n := |cs| - 1;
      MeasureMonotone(cs[..n], ds[..n]);
    }
  }

  lemma {:induction false} FirstPending(cs: seq<Command>, n: nat) returns (first: nat)
    requires n <= |cs| && exists i :: 0 <= i < n && cs[i].state.Pending?
    ensures first < n && cs[first].state.Pending? && forall j :: 0 <= j < first ==> !cs[j].state.Pending?
  {
    if exists i :: 0 <= i < n - 1 && cs[i].state.Pending? {
      first := FirstPending(cs, n - 1);
    } else {
      first := n - 1;
    }
  }

  /** Every pass over a lead with a pending command uses up at least one of the attempts left. */
  lemma PassMakesProgress(cs: seq<Command>, env: nat -> Env, target: int)
    requires WithinBudget(cs)
    ensures WithinBudget(Pass(cs, env, target))
    ensures SomePending(cs) ==> Measure(Pass(cs, env, target)) < Measure(cs)
    ensures !SomePending(cs) ==> Pass(cs, env, target) == cs
  {
    forall i | 0 <= i < |cs|
      ensures Settled(cs, env, target, i).attempts <= MAX_ATTEMPTS && Left(Settled(cs, env, target, i)) <= Left(cs[i])
    {
      SettledMeaning(cs, env, target, i);
    }
    if SomePending(cs) {
      var first := FirstPending(cs, |cs|);
      NoneDueBefore(cs, env, target, first);
      SettledMeaning(cs, env, target, first);
      MeasureShrinks(cs, Pass(cs, env, target), first);
    }
  }

  // ---------------------------------------------------------------- many passes

  // A pass works on a copy and writes it back when it commits.  A crash, a cancellation or a failing
  // commit loses the copy; by then the payload may have been posted or not.
  datatype Fate = Committed | Lost(posted: bool)
  datatype Round = Round(env: nat -> Env, target: int, fate: Fate)

  function PassOf(cs: seq<Command>, r: Round): seq<Command> {
    if r.fate.Committed? then Pass(cs, r.env, r.target) else cs
  }

  /** The positions whose payload reaches the source in a pass that commits or is lost. */
  ghost function Posted(cs: seq<Command>, r: Round): set<nat> {
    if r.fate == Lost(false) then {} else Sent(cs, r.env, r.target)
  }

  /** The commands after n passes. */
  function Passes(cs: seq<Command>, rounds: nat -> Round, n: nat): seq<Command> {
    if n == 0 then cs else PassOf(Passes(cs, rounds, n - 1), rounds(n - 1))
  }

  ghost function CommittedPasses(rounds: nat -> Round, n: nat): nat {
    if n == 0 then 0 else CommittedPasses(rounds, n - 1) + if rounds(n - 1).fate.Committed? then 1 else 0
  }

  /** However the source answers, wherever commands are sent and whatever is lost, as many committed
      passes as the measure says leave nothing pending. */
  lemma {:induction false} PendingDrains(cs: seq<Command>, rounds: nat -> Round, n: nat)
    requires WithinBudget(cs)
    ensures var ds := Passes(cs, rounds, n);
            && |ds| == |cs| && WithinBudget(ds)
            && (SomePending(ds) ==> Measure(ds) + CommittedPasses(rounds, n) <= Measure(cs))
            && (Measure(cs) <= CommittedPasses(rounds, n) ==> !SomePending(ds))
  {
    if n > 0 {
      PendingDrains(cs, rounds, n - 1);
      PassMakesProgress(Passes(cs, rounds, n - 1), rounds(n - 1).env, rounds(n - 1).target);
    }
    if SomePending(Passes(cs, rounds, n)) {
      PendingMeasure(Passes(cs, rounds, n));
    }
  }

  lemma {:induction false} PendingMeasure(cs: seq<Command>)
    requires WithinBudget(cs) && SomePending(cs)
    ensures Measure(cs) > 0
    decreases |cs|
  {
    var n := |cs| - 1;
    if !cs[n].state.Pending? {
      PendingMeasure(cs[..n]);
    }
  }

  /** How often command i has been posted in the first n passes. */
  ghost function Posts(cs: seq<Command>, rounds: nat -> Round, n: nat, i: nat): nat {
    if n == 0 then 0
    else Posts(cs, rounds, n - 1, i) + if i in Posted(Passes(cs, rounds, n - 1), rounds(n - 1)) then 1 else 0
  }

  /** How many of those passes were lost. */
  ghost function LostPosts(cs: seq<Command>, rounds: nat -> Round, n: nat, i: nat): nat {
    if n == 0 then 0
    else LostPosts(cs, rounds, n - 1, i)
         + if rounds(n - 1).fate.Lost? && i in Posted(Passes(cs, rounds, n - 1), rounds(n - 1)) then 1 else 0
  }

  /** Posts in committed passes are attempts, and there are thirty at most; every further post was made
      by a pass that was lost. */
  lemma {:induction false} PostsAreBounded(cs: seq<Command>, rounds: nat -> Round, n: nat, i: nat)
    requires WithinBudget(cs) && i < |cs|
    ensures |Passes(cs, rounds, n)| == |cs|
    ensures Posts(cs, rounds, n, i) - LostPosts(cs, rounds, n, i) <= Passes(cs, rounds, n)[i].attempts - cs[i].attempts
    ensures Passes(cs, rounds, n)[i].attempts <= 30
    ensures Posts(cs, rounds, n, i) <= 30 + LostPosts(cs, rounds, n, i)
  {
    PendingDrains(cs, rounds, n);
    if n > 0 {
      PostsAreBounded(cs, rounds, n - 1, i);
      PendingDrains(cs, rounds, n - 1);
      SettledMeaning(Passes(cs, rounds, n - 1), rounds(n - 1).env, rounds(n - 1).target, i);
    }
  }

  /** Committed or lost, no pass posts a command that is a day old, was attempted thirty times, is
      settled, or is bound for elsewhere. */
  lemma PostsAreDue(cs: seq<Command>, rounds: nat -> Round, n: nat, i: nat)
    requires WithinBudget(cs) && i in Posted(Passes(cs, rounds, n), rounds(n))
    ensures i < |cs| && i < |Passes(cs, rounds, n)|
    ensures var c := Passes(cs, rounds, n)[i];
            && c.createdAt == cs[i].createdAt && rounds(n).env(i).now - cs[i].createdAt <= 86_400_000_000
            && c.state.Pending? && c.attempts < 30 && rounds(n).target == cs[i].target
  {
    PendingDrains(cs, rounds, n);
    PassesKeepIdentity(cs, rounds, n, i);
  }

  lemma {:induction false} PassesKeepIdentity(cs: seq<Command>, rounds: nat -> Round, n: nat, i: nat)
    requires WithinBudget(cs) && i < |cs|
    ensures |Passes(cs, rounds, n)| == |cs| && SameCommand(cs[i], Passes(cs, rounds, n)[i])
  {
    PendingDrains(cs, rounds, n);
    if n > 0 {
      PassesKeepIdentity(cs, rounds, n - 1, i);
      PendingDrains(cs, rounds, n - 1);
      SettledMeaning(Passes(cs, rounds, n - 1), rounds(n - 1).env, rounds(n - 1).target, i);
    }
  }

  /** A command as staging leaves it. */
  ghost predicate IsNew(c: Command) {
    c.state.Pending? && c.attempts == 0 && !c.action.Unsupported?
  }

  /** First `lost` passes that post and are lost, then passes whose posts fail. */
  function Unlucky(c: Command, lost: nat): nat -> Round {
    n => Round(i => Env(c.createdAt, Failure(0)), c.target, if n < lost then Lost(true) else Committed)
  }

  lemma {:induction false} UnluckyPasses(c: Command, lost: nat, n: nat)
    requires IsNew(c) && n <= lost + 30
    ensures var ds := Passes([c], Unlucky(c, lost), n);
            && |ds| == 1 && SameCommand(c, ds[0]) && ds[0].state.Pending?
            && ds[0].attempts == if n < lost then 0 else n - lost
    ensures Posts([c], Unlucky(c, lost), n, 0) == n
    ensures LostPosts([c], Unlucky(c, lost), n, 0) == if n < lost then n else lost
  {
    if n > 0 {
      UnluckyPasses(c, lost, n - 1);
      var ds, r := Passes([c], Unlucky(c, lost), n - 1), Unlucky(c, lost)(n - 1);
      OneDueIsSent(ds, r);
    }
  }

  lemma OneDueIsSent(ds: seq<Command>, r: Round)
    requires |ds| == 1 && Due(ds[0], r.env(0).now, r.target) && !ds[0].action.Unsupported? && r.env(0).reply.Failure?
    ensures 0 in Sent(ds, r.env, r.target)
    ensures Pass(ds, r.env, r.target) == [Attempted(ds[0], r.env(0).reply)]
  {
    assert DueCount(ds, r.env, r.target, 0) == 0;
    assert DueCount(ds, r.env, r.target, 1) == 1;
  }

  /** The bound is sharp: a new command and a run that posts it thirty times and once more for each
      lost pass, however many. */
  lemma PostsReachTheBound(c: Command, lost: nat) returns (rounds: nat -> Round)
    requires IsNew(c)
    ensures LostPosts([c], rounds, lost + 30, 0) == lost && CommittedPasses(rounds, lost + 30) == 30
    ensures Posts([c], rounds, lost + 30, 0) == 30 + lost
  {
    rounds := Unlucky(c, lost);
    UnluckyPasses(c, lost, lost + 30);
    UnluckyCommits(c, lost, lost + 30);
  }

  lemma {:induction false} UnluckyCommits(c: Command, lost: nat, n: nat)
    ensures CommittedPasses(Unlucky(c, lost), n) == if n < lost then 0 else n - lost
  {
    if n > 0 {
      UnluckyCommits(c, lost, n - 1);
    }
  }

  /** The source issues a receipt only for a command it has persisted. */
  ghost predicate Honest(env: nat -> Env, persisted: set<int>) {
    forall i: nat, c: Command :: Confirms(env(i).reply, c) ==> c.id in persisted
  }

  /** So against an honest source whatever ends up applied here has been persisted there. */
  lemma {:induction false} AppliedWasPersisted(cs: seq<Command>, rounds: nat -> Round, n: nat, i: nat, persisted: set<int>)
    requires WithinBudget(cs) && i < |cs| && !cs[i].state.Applied?
    requires forall m: nat :: Honest(rounds(m).env, persisted)
    ensures |Passes(cs, rounds, n)| == |cs| && Passes(cs, rounds, n)[i].id == cs[i].id
    ensures Passes(cs, rounds, n)[i].state.Applied? ==> cs[i].id in persisted
  {
    if n > 0 {
      AppliedWasPersisted(cs, rounds, n - 1, i, persisted);
      PendingDrains(cs, rounds, n - 1);
      SettledMeaning(Passes(cs, rounds, n - 1), rounds(n - 1).env, rounds(n - 1).target, i);
      assert Honest(rounds(n - 1).env, persisted);
    }
  }

  // ---------------------------------------------------------------- staging

  // The current evidence of a lead, as far as staging reads it; `appointment` is a confirmed one.
  datatype Evidence = Evidence(current: bool, revision: int, tenant: Option<int>, property: Option<int>,
                               updatedAt: Option<int>, appointment: Option<int>)
  datatype Request = Request(id: int, revision: int, action: Action, at: Option<int>, startsAt: int, body: int)

  datatype Refusal = NotCanonical | StaleEvidence | BadCallbackTime | StaleReservation | IdentitiesMissing
                   | ConflictingReplay | BudgetExhausted
  datatype Outcome = Staged(state: State, duplicate: bool) | Refused(refusal: Refusal)

  function Find(cs: seq<Command>, id: int): Option<Command> {
    if cs == [] then None else if cs[0].id == id then Some(cs[0]) else Find(cs[1..], id)
  }

  /** What is refused before the commands are looked at; a callback needs an aware future instant
      within ninety days. */
  function Unfit(external: Option<int>, ev: Evidence, rq: Request, now: int): Option<Refusal> {
    if external.None? then Some(NotCanonical)
    else if !ev.current || rq.revision != ev.revision then Some(StaleEvidence)
    else if rq.action.ScheduleCallback? && (rq.at.None? || !(0 < rq.at.value - now <= 90 * DAY)) then Some(BadCallbackTime)
    else if rq.action.CancelWalkthrough? && ev.appointment != Some(rq.startsAt) then Some(StaleReservation)
    else if ev.tenant.None? || ev.property.None? || ev.updatedAt.None? then Some(IdentitiesMissing)
    else None
  }

  function PayloadOf(external: Option<int>, ev: Evidence, rq: Request, now: int): Payload
    requires Unfit(external, ev, rq, now).None?
  {
    Payload(rq.id, ev.tenant.value, external.value, ev.property.value, ev.updatedAt.value, rq.action,
            if rq.action.ScheduleCallback? then rq.at else None, if rq.action.ScheduleCallback? then 0 else rq.body)
  }

  function NewCommand(p: Payload, target: int, now: int): Command {
    Command(p.id, p, p.action, target, Pending, 0, now, None, None)
  }

  function StageOutcome(cs: seq<Command>, target: int, external: Option<int>, ev: Evidence, rq: Request, now: int): Outcome {
    var unfit := Unfit(external, ev, rq, now);
    if unfit.Some? then Refused(unfit.value)
    else
      var payload, existing := PayloadOf(external, ev, rq, now), Find(cs, rq.id);
      if existing.Some? then
        if existing.value.payload != payload || existing.value.target != target then Refused(ConflictingReplay)
        else Staged(existing.value.state, true)
      else if |cs| >= MAX_COMMANDS then Refused(BudgetExhausted)
      else Staged(Pending, false)
  }

  function Stage(cs: seq<Command>, target: int, external: Option<int>, ev: Evidence, rq: Request, now: int): seq<Command> {
    if StageOutcome(cs, target, external, ev, rq, now) == Staged(Pending, false)
    then cs + [NewCommand(PayloadOf(external, ev, rq, now), target, now)] else cs
  }

  class SourceLead {
    const external: Option<int>
    var commands: seq<Command>

    constructor (external: Option<int>)
      ensures this.external == external && commands == []
    {
      this.external := external;
      commands := [];
    }

    method StageCommand(target: int, ev: Evidence, rq: Request, now: int) returns (o: Outcome)
      modifies this
      ensures o == StageOutcome(old(commands), target, external, ev, rq, now)
      ensures commands == Stage(old(commands), target, external, ev, rq, now)
    {
      var unfit := Unfit(external, ev, rq, now);
      if unfit.Some? {
        return Refused(unfit.value);
      }
      var payload := PayloadOf(external, ev, rq, now);
      var existing := Find(commands, rq.id);
      if existing.Some? {
        if existing.value.payload != payload || existing.value.target != target {
          return Refused(ConflictingReplay);
        }
        return Staged(existing.value.state, true);
      }
      if |commands| >= MAX_COMMANDS {
        return Refused(BudgetExhausted);
      }
      commands := commands + [NewCommand(payload, target, now)];
      o := Staged(Pending, false);
    }
  }

  ghost predicate DistinctIds(cs: seq<Command>) {
    forall i, j :: 0 <= i < j < |cs| ==> cs[i].id != cs[j].id
  }

  lemma {:induction false} FindMeaning(cs: seq<Command>, id: int)
    ensures Find(cs, id).None? <==> forall i :: 0 <= i < |cs| ==> cs[i].id != id
    ensures Find(cs, id).Some? ==> exists i :: 0 <= i < |cs| && cs[i].id == id && cs[i] == Find(cs, id).value
    decreases |cs|
  {
    if cs != [] {
      FindMeaning(cs[1..], id);
      if Find(cs[1..], id).Some? {
        var i :| 0 <= i < |cs| - 1 && cs[1..][i].id == id && cs[1..][i] == Find(cs[1..], id).value;
        assert cs[i + 1] == cs[1..][i];
      }
      forall i | 0 <= i < |cs| - 1 ensures cs[i + 1] == cs[1..][i] {}
    }
  }

  lemma FindAt(cs: seq<Command>, i: nat)
    requires DistinctIds(cs) && i < |cs|
    ensures Find(cs, cs[i].id) == Some(cs[i])
  {
    FindMeaning(cs, cs[i].id);
    var j :| 0 <= j < |cs| && cs[j].id == cs[i].id && cs[j] == Find(cs, cs[i].id).value;
  }

  /** Everything that holds of the commands of a lead in any run of staging and recovery. */
  ghost predicate Outbox(cs: seq<Command>) {
    && DistinctIds(cs) && |cs| <= MAX_COMMANDS && WithinBudget(cs)
    && forall i :: 0 <= i < |cs| ==> IsSound(cs[i])
  }

  /** The command's payload is its own, and if it is applied it holds the receipt that says so. */
  ghost predicate IsSound(c: Command) {
    && c.payload.id == c.id && c.payload.action == c.action
    && (c.state.Applied? ==>
          && c.receipt.Some? && c.receipt.value.persisted && c.receipt.value.receiptId == c.id
          && c.receipt.value.lead == c.payload.lead && c.receipt.value.action == c.action)
  }

  lemma StageKeepsOutbox(cs: seq<Command>, target: int, external: Option<int>, ev: Evidence, rq: Request, now: int)
    requires Outbox(cs)
    ensures Outbox(Stage(cs, target, external, ev, rq, now)) && cs <= Stage(cs, target, external, ev, rq, now)
  {
    FindMeaning(cs, rq.id);
  }

  lemma PassKeepsOutbox(cs: seq<Command>, env: nat -> Env, target: int)
    requires Outbox(cs)
    ensures Outbox(Pass(cs, env, target))
  {
    forall i | 0 <= i < |cs| ensures IsSound(Settled(cs, env, target, i)) && SameCommand(cs[i], Settled(cs, env, target, i)) {
      SettledMeaning(cs, env, target, i);
      assert IsSound(cs[i]);
    }
    PassMakesProgress(cs, env, target);
  }

  datatype Op = StageOp(target: int, external: Option<int>, ev: Evidence, rq: Request, now: int) | PassOp(round: Round)

  function AfterOp(cs: seq<Command>, op: Op): seq<Command> {
    match op
    case StageOp(target, external, ev, rq, now) => Stage(cs, target, external, ev, rq, now)
    case PassOp(round) => PassOf(cs, round)
  }

  function Run(cs: seq<Command>, ops: seq<Op>): seq<Command> {
    if ops == [] then cs else AfterOp(Run(cs, ops[..|ops| - 1]), ops[|ops| - 1])
  }

  /** Over any staging and recovery, each with its own destination, committed or lost. */
  lemma {:induction false} RunKeepsOutbox(cs: seq<Command>, ops: seq<Op>)
    requires Outbox(cs)
    ensures Outbox(Run(cs, ops)) && |cs| <= |Run(cs, ops)|
    ensures forall i :: 0 <= i < |cs| ==> SameCommand(cs[i], Run(cs, ops)[i])
    decreases |ops|
  {
    if ops != [] {
      var n := |ops| - 1;
      RunKeepsOutbox(cs, ops[..n]);
      var ds := Run(cs, ops[..n]);
      match ops[n]
      case StageOp(target, external, ev, rq, now) => StageKeepsOutbox(ds, target, external, ev, rq, now);
      case PassOp(r) =>
        PassKeepsOutbox(ds, r.env, r.target);
        forall i | 0 <= i < |cs| ensures SameCommand(ds[i], Settled(ds, r.env, r.target, i)) { SettledMeaning(ds, r.env, r.target, i); }
    }
  }

  /** Staging is idempotent for ever: whatever is staged and recovered after a command was accepted,
      and wherever that was sent, the same request for the same destination against the same evidence
      adds nothing and reports the state reached. */
  lemma RestagingChangesNothing(cs: seq<Command>, target: int, external: Option<int>, ev: Evidence, rq: Request,
                                now: int, ops: seq<Op>, later: int)
    requires Outbox(cs) && StageOutcome(cs, target, external, ev, rq, now).Staged?
    requires Unfit(external, ev, rq, later).None?
    ensures var ds := Run(Stage(cs, target, external, ev, rq, now), ops);
            && Stage(ds, target, external, ev, rq, later) == ds
            && StageOutcome(ds, target, external, ev, rq, later).Staged?
            && StageOutcome(ds, target, external, ev, rq, later).duplicate
  {
    var cs1 := Stage(cs, target, external, ev, rq, now);
    StageKeepsOutbox(cs, target, external, ev, rq, now);
    RunKeepsOutbox(cs1, ops);
    FindMeaning(cs, rq.id);
    var i :| 0 <= i < |cs1| && cs1[i].id == rq.id && cs1[i].payload == PayloadOf(external, ev, rq, now) && cs1[i].target == target;
    var ds := Run(cs1, ops);
    assert SameCommand(cs1[i], ds[i]);
    FindAt(ds, i);
  }

  // ---------------------------------------------------------------- the queue of leads

  // Leads of the source: staging refuses all others, and nothing takes the source identity from a lead.
  // A lead can be deleted at any moment.
  datatype Lead = Lead(id: int, external: int, updatedAt: int, deleted: bool, commands: seq<Command>)

  // The table, and what one call of `recover_commands` has still to visit.
  datatype Sys = Sys(leads: seq<Lead>, queue: seq<int>)

  // The call queries once and then locks one lead after the other; between its steps others stage
  // commands, delete leads, and write to them for their own reasons.
  datatype Event =
      Query(limit: nat)
    | Recover(round: Round, stamp: int)
    | StageFor(lead: int, target: int, ev: Evidence, rq: Request, now: int, stamp: int)
    | Delete(lead: int)
    | Touch(lead: int, stamp: int)

  function QueueKey(l: Lead): Key {
    Key(l.updatedAt, l.id)
  }

  predicate HasPending(cs: seq<Command>) {
    cs != [] && (cs[0].state.Pending? || HasPending(cs[1..]))
  }

  predicate Waits(l: Lead) {
    !l.deleted && HasPending(l.commands)
  }

  function Waiting(leads: seq<Lead>): seq<Lead> {
    if leads == [] then [] else (if Waits(leads[0]) then [leads[0]] else []) + Waiting(leads[1..])
  }

  function Queue(leads: seq<Lead>, limit: nat): seq<Lead> {
    var q := SortBy(Waiting(leads), QueueKey);
    if limit <= |q| then q[..limit] else q
  }

  function Ids(leads: seq<Lead>): seq<int> {
    if leads == [] then [] else [leads[0].id] + Ids(leads[1..])
  }

  /** `locked_source_lead`, which raises if there is none. */
  function Lookup(leads: seq<Lead>, id: int): Option<Lead> {
    if leads == [] then None else if leads[0].id == id && !leads[0].deleted then Some(leads[0]) else Lookup(leads[1..], id)
  }

  function Put(leads: seq<Lead>, l: Lead): seq<Lead> {
    if leads == [] then [] else (if leads[0].id == l.id then [l] else [leads[0]]) + Put(leads[1..], l)
  }

  /** What others do to a lead; a deleted lead is out of their reach too. */
  function Changed(l: Lead, e: Event): Lead {
    match e
    case StageFor(_, target, ev, rq, now, stamp) =>
      if IsNewlyStaged(l, e) then l.(commands := Stage(l.commands, target, Some(l.external), ev, rq, now), updatedAt := stamp) else l
    case Delete(_) => l.(deleted := true)
    case Touch(_, stamp) => l.(updatedAt := stamp)
    case _ => l
  }

  predicate IsNewlyStaged(l: Lead, e: Event) {
    e.StageFor? && StageOutcome(l.commands, e.target, Some(l.external), e.ev, e.rq, e.now) == Staged(Pending, false)
  }

  predicate ByOthers(e: Event) {
    e.StageFor? || e.Delete? || e.Touch?
  }

  function Interfere(leads: seq<Lead>, e: Event): seq<Lead>
    requires ByOthers(e)
  {
    var l := Lookup(leads, e.lead);
    if l.None? then leads else Put(leads, Changed(l.value, e))
  }

  function Recovered(l: Lead, r: Round, stamp: int): Lead {
    l.(commands := PassOf(l.commands, r), updatedAt := stamp)
  }

  function Step(s: Sys, e: Event): Sys {
    match e
    case Query(limit) => if s.queue == [] then s.(queue := Ids(Queue(s.leads, limit))) else s
    case Recover(r, stamp) =>
      if s.queue == [] then s
      else
        var l := Lookup(s.leads, s.queue[0]);
        if l.None? || r.fate.Lost? then s.(queue := []) else Sys(Put(s.leads, Recovered(l.value, r, stamp)), s.queue[1..])
    case _ => s.(leads := Interfere(s.leads, e))
  }

  function RunAll(s: Sys, es: seq<Event>): Sys
    decreases |es|
  {
    if es == [] then s else RunAll(Step(s, es[0]), es[1..])
  }

  datatype Kind = Commits | Raises | Loses | Stages | Deletes | Calls

  ghost predicate Is(s: Sys, e: Event, k: Kind) {
    match k
    case Commits => e.Recover? && s.queue != [] && Lookup(s.leads, s.queue[0]).Some? && e.round.fate.Committed?
    case Raises => e.Recover? && s.queue != [] && Lookup(s.leads, s.queue[0]).None?
    case Loses => e.Recover? && s.queue != [] && Lookup(s.leads, s.queue[0]).Some? && e.round.fate.Lost?
    case Stages => e.StageFor? && Lookup(s.leads, e.lead).Some? && IsNewlyStaged(Lookup(s.leads, e.lead).value, e)
    case Deletes => e.Delete? && Lookup(s.leads, e.lead).Some?
    case Calls => e.Query? && s.queue == [] && Step(s, e).queue != []
  }

  ghost function One(s: Sys, e: Event, k: Kind): nat {
    if Is(s, e, k) then 1 else 0
  }

  /** How many steps of a run are of a kind. */
  ghost function Count(s: Sys, es: seq<Event>, k: Kind): nat
    decreases |es|
  {
    if es == [] then 0 else One(s, es[0], k) + Count(Step(s, es[0]), es[1..], k)
  }

  // What one call meets: what others do before its n-th lead is locked, and how the pass over it goes.
  datatype World = World(meanwhile: nat -> seq<Event>, rounds: nat -> Round, stamps: nat -> int)

  ghost predicate OnlyOthers(es: seq<Event>) {
    es == [] || (ByOthers(es[0]) && OnlyOthers(es[1..]))
  }

  function InterfereAll(leads: seq<Lead>, es: seq<Event>): seq<Lead>
    requires OnlyOthers(es)
    decreases |es|
  {
    if es == [] then leads else InterfereAll(Interfere(leads, es[0]), es[1..])
  }

  /** The events of a call from its n-th lead on. */
  ghost function Rest(s: Sys, w: World, n: nat): seq<Event>
    requires forall m: nat :: OnlyOthers(w.meanwhile(m))
    decreases |s.queue|
  {
    if s.queue == [] then []
    else
      var e := Recover(w.rounds(n), w.stamps(n));
      w.meanwhile(n) + ([e] + Rest(Step(s.(leads := InterfereAll(s.leads, w.meanwhile(n))), e), w, n + 1))
  }

  lemma {:induction false} RunConcat(s: Sys, a: seq<Event>, b: seq<Event>, k: Kind)
    ensures RunAll(s, a + b) == RunAll(RunAll(s, a), b)
    ensures Count(s, a + b, k) == Count(s, a, k) + Count(RunAll(s, a), b, k)
    decreases |a|
  {
    if a == [] {
      assert a + b == b;
    } else {
      assert (a + b)[1..] == a[1..] + b;
      RunConcat(Step(s, a[0]), a[1..], b, k);
    }
  }

  lemma {:induction false} RunOfOthers(s: Sys, es: seq<Event>)
    requires OnlyOthers(es)
    ensures RunAll(s, es) == s.(leads := InterfereAll(s.leads, es)) && Count(s, es, Raises) == 0
    decreases |es|
  {
    if es != [] {
      RunOfOthers(Step(s, es[0]), es[1..]);
    }
  }

  lemma RestStep(s: Sys, w: World, n: nat)
    requires s.queue != [] && forall m: nat :: OnlyOthers(w.meanwhile(m))
    ensures var s1 := s.(leads := InterfereAll(s.leads, w.meanwhile(n)));
            var e := Recover(w.rounds(n), w.stamps(n));
            && RunAll(s, Rest(s, w, n)) == RunAll(Step(s1, e), Rest(Step(s1, e), w, n + 1))
            && Count(s, Rest(s, w, n), Raises)
               == One(s1, e, Raises) + Count(Step(s1, e), Rest(Step(s1, e), w, n + 1), Raises)
  {
    var s1 := s.(leads := InterfereAll(s.leads, w.meanwhile(n)));
    var e := Recover(w.rounds(n), w.stamps(n));
    var rest := Rest(Step(s1, e), w, n + 1);
    RunConcat(s, w.meanwhile(n), [e] + rest, Raises);
    RunOfOthers(s, w.meanwhile(n));
    assert ([e] + rest)[1..] == rest;
  }

  class LeadTable {
    var leads: seq<Lead>

    /** `recover_commands`; each lead is read again under its lock.  True: one was gone, and it raised. */
    method RecoverCommands(limit: nat, w: World) returns (raised: bool)
      requires 1 <= limit <= 20 && forall m: nat :: OnlyOthers(w.meanwhile(m))
      modifies this
      ensures var s := Step(Sys(old(leads), []), Query(limit));
              && Sys(leads, []) == RunAll(s, Rest(s, w, 0))
              && (raised <==> Count(s, Rest(s, w, 0), Raises) > 0)
    {
      var ids := Ids(Queue(leads, limit));
      ghost var s := Sys(leads, ids);
      ghost var here := s;
      var n := 0;
      while n < |ids|
        invariant n <= |ids| && here == Sys(leads, ids[n..])
        invariant RunAll(here, Rest(here, w, n)) == RunAll(s, Rest(s, w, 0))
        invariant Count(here, Rest(here, w, n), Raises) == Count(s, Rest(s, w, 0), Raises)
      {
        RestStep(here, w, n);
        leads := InterfereAll(leads, w.meanwhile(n));
        here := Step(Sys(leads, ids[n..]), Recover(w.rounds(n), w.stamps(n)));
        var l := Lookup(leads, ids[n]);
        if l.None? {
          return true;
        }
        var commands := RecoverCopy(l.value.commands, w.rounds(n));
        if w.rounds(n).fate.Lost? {
          return false;
        }
        leads := Put(leads, l.value.(commands := commands, updatedAt := w.stamps(n)));
        n := n + 1;
      }
      raised := false;
    }
  }

  /** The recovery of one lead works on a copy of its commands. */
  method RecoverCopy(commands: seq<Command>, r: Round) returns (recovered: seq<Command>)
    ensures recovered == Pass(commands, r.env, r.target)
  {
    var a := new Command[|commands|](i requires 0 <= i < |commands| => commands[i]);
    assert a[..] == commands;
    var posts := RecoverLead(a, r.env, r.target);
    recovered := a[..];
  }

  // ---------------------------------------------------------------- what every step keeps

  ghost predicate Other(x: Lead, s: seq<Lead>) {
    forall y :: y in s ==> y.id != x.id
  }

  ghost predicate Distinct(s: seq<Lead>) {
    s == [] || (Other(s[0], s[1..]) && Distinct(s[1..]))
  }

  ghost predicate AllBudgeted(s: seq<Lead>) {
    forall l :: l in s ==> WithinBudget(l.commands)
  }

  ghost predicate Unique(q: seq<int>) {
    q == [] || (q[0] !in q[1..] && Unique(q[1..]))
  }

  /** Ids are unique, budgets kept, and what waits in the queue is pending unless it was deleted. */
  ghost predicate Good(s: Sys) {
    && Distinct(s.leads) && AllBudgeted(s.leads) && Unique(s.queue)
    && forall l :: l in s.leads && l.id in s.queue && !l.deleted ==> HasPending(l.commands)
  }

  function Weight(l: Lead): nat {
    if l.deleted then 0 else Measure(l.commands)
  }

  /** The attempts that are left for the leads that are not deleted. */
  function LiveTotal(leads: seq<Lead>): nat {
    if leads == [] then 0 else Weight(leads[0]) + LiveTotal(leads[1..])
  }

  /** How many leads of the queue have been deleted. */
  function Gone(leads: seq<Lead>, queue: seq<int>): nat {
    if queue == [] then 0 else (if Lookup(leads, queue[0]).None? then 1 else 0) + Gone(leads, queue[1..])
  }

  lemma {:induction false} HasPendingMeaning(cs: seq<Command>)
    ensures HasPending(cs) <==> SomePending(cs)
    decreases |cs|
  {
    if cs != [] {
      HasPendingMeaning(cs[1..]);
      if SomePending(cs[1..]) {
        var i :| 0 <= i < |cs| - 1 && cs[1..][i].state.Pending?;
        assert cs[i + 1].state.Pending?;
      }
      if SomePending(cs) && !cs[0].state.Pending? {
        var i :| 0 <= i < |cs| && cs[i].state.Pending?;
        assert cs[1..][i - 1].state.Pending?;
      }
    }
  }

  lemma {:induction false} WaitingMeaning(leads: seq<Lead>)
    ensures forall l :: l in Waiting(leads) <==> l in leads && Waits(l)
    ensures Distinct(leads) ==> Distinct(Waiting(leads))
    decreases |leads|
  {
    if leads != [] {
      WaitingMeaning(leads[1..]);
      assert leads == [leads[0]] + leads[1..];
      var rest := Waiting(leads[1..]);
      assert ([leads[0]] + rest)[1..] == rest;
      assert [] + rest == rest;
    }
  }

  lemma {:induction false} InsertDistinct(x: Lead, s: seq<Lead>)
    requires Distinct(s) && Other(x, s)
    ensures Distinct(Insert(x, s, QueueKey)) && forall y :: y in Insert(x, s, QueueKey) <==> y == x || y in s
    decreases |s|
  {
    var r := Insert(x, s, QueueKey);
    if s == [] || QueueKey(x).Leq(QueueKey(s[0])) {
      assert r[1..] == s;
    } else {
      assert s == [s[0]] + s[1..];
      InsertDistinct(x, s[1..]);
      assert r[1..] == Insert(x, s[1..], QueueKey);
    }
  }

  lemma {:induction false} SortDistinct(s: seq<Lead>)
    requires Distinct(s)
    ensures Distinct(SortBy(s, QueueKey)) && forall y :: y in SortBy(s, QueueKey) <==> y in s
    decreases |s|
  {
    if s != [] {
      assert s == [s[0]] + s[1..];
      SortDistinct(s[1..]);
      InsertDistinct(s[0], SortBy(s[1..], QueueKey));
    }
  }

  lemma {:induction false} PrefixDistinct(s: seq<Lead>, n: nat)
    requires Distinct(s) && n <= |s|
    ensures Distinct(s[..n]) && forall y :: y in s[..n] ==> y in s
    decreases |s|
  {
    if n > 0 {
      PrefixDistinct(s[1..], n - 1);
      assert s[..n][1..] == s[1..][..n - 1];
    }
  }

  lemma {:induction false} IdsMeaning(q: seq<Lead>)
    requires Distinct(q)
    ensures Unique(Ids(q)) && |Ids(q)| == |q|
    ensures forall id :: id in Ids(q) <==> exists l :: l in q && l.id == id
    decreases |q|
  {
    if q != [] {
      IdsMeaning(q[1..]);
      assert q == [q[0]] + q[1..];
      assert Ids(q)[1..] == Ids(q[1..]);
    }
  }

  /** The queue: waiting leads, each once, and the longest untouched first. */
  lemma QueueMeaning(leads: seq<Lead>, limit: nat)
    requires Distinct(leads) && limit >= 1
    ensures var q := Queue(leads, limit);
            && Distinct(q) && (forall l :: l in q ==> l in leads && Waits(l))
            && (q == [] <==> forall l :: l in leads ==> !Waits(l))
  {
    WaitingMeaning(leads);
    var all := SortBy(Waiting(leads), QueueKey);
    SortDistinct(Waiting(leads));
    PrefixDistinct(all, if limit <= |all| then limit else |all|);
    assert all[..|all|] == all;
    if all != [] {
      assert all[0] in all;
    }
  }

  lemma {:induction false} LookupMeaning(leads: seq<Lead>, id: int)
    ensures Lookup(leads, id).Some? ==>
              var l := Lookup(leads, id).value; l in leads && l.id == id && !l.deleted
    ensures Lookup(leads, id).None? ==> forall l :: l in leads && l.id == id ==> l.deleted
    decreases |leads|
  {
    if leads != [] {
      LookupMeaning(leads[1..], id);
      assert leads == [leads[0]] + leads[1..];
    }
  }

  lemma {:induction false} PutMeaning(leads: seq<Lead>, l: Lead, l': Lead)
    requires Distinct(leads) && l in leads && l'.id == l.id
    ensures LiveTotal(Put(leads, l')) == LiveTotal(leads) - Weight(l) + Weight(l')
    ensures forall x :: x in Put(leads, l') <==> x == l' || (x in leads && x.id != l.id)
    ensures Distinct(Put(leads, l'))
    decreases |leads|
  {
    assert leads == [leads[0]] + leads[1..];
    var r := Put(leads, l');
    assert r[1..] == Put(leads[1..], l');
    if leads[0].id == l.id {
      assert l == leads[0];
      PutNothing(leads[1..], l');
      assert r == [l'] + leads[1..];
    } else {
      PutMeaning(leads[1..], l, l');
      assert r == [leads[0]] + Put(leads[1..], l');
    }
  }

  lemma {:induction false} PutNothing(leads: seq<Lead>, l: Lead)
    requires Other(l, leads)
    ensures Put(leads, l) == leads
    decreases |leads|
  {
    if leads != [] {
      assert leads[0] in leads;
      PutNothing(leads[1..], l);
      assert leads == [leads[0]] + leads[1..];
    }
  }

  /** Putting a lead back changes who can be found only if it was deleted. */
  lemma PutLookup(leads: seq<Lead>, l: Lead, l': Lead, id: int)
    requires Distinct(leads) && l in leads && l'.id == l.id && !l.deleted
    ensures Lookup(Put(leads, l'), id).None? <==> if id == l.id then l'.deleted else Lookup(leads, id).None?
  {
    PutMeaning(leads, l, l');
    LookupMeaning(leads, id);
    LookupMeaning(Put(leads, l'), id);
  }

  lemma {:induction false} GoneAfterPut(leads: seq<Lead>, l: Lead, l': Lead, queue: seq<int>)
    requires Distinct(leads) && l in leads && l'.id == l.id && !l.deleted && Unique(queue)
    ensures Gone(Put(leads, l'), queue) == Gone(leads, queue) + if l'.deleted && l.id in queue then 1 else 0
    decreases |queue|
  {
    if queue != [] {
      GoneAfterPut(leads, l, l', queue[1..]);
      PutLookup(leads, l, l', queue[0]);
      assert queue == [queue[0]] + queue[1..];
      LookupMeaning(leads, queue[0]);
    }
  }

  lemma {:induction false} NoneGone(leads: seq<Lead>, queue: seq<int>)
    requires forall id :: id in queue ==> exists l :: l in leads && l.id == id && !l.deleted
    ensures Gone(leads, queue) == 0
    decreases |queue|
  {
    if queue != [] {
      LookupMeaning(leads, queue[0]);
      assert queue[0] in queue;
      forall id | id in queue[1..] ensures id in queue {}
      NoneGone(leads, queue[1..]);
    }
  }

  /** What a step does to the books, as inequalities that add up over runs. */
  ghost predicate Balanced(s: Sys, e: Event) {
    && LiveTotal(Step(s, e).leads) + One(s, e, Commits) <= LiveTotal(s.leads) + 31 * One(s, e, Stages)
    && Gone(Step(s, e).leads, Step(s, e).queue) + One(s, e, Raises) <= Gone(s.leads, s.queue) + One(s, e, Deletes)
  }

  lemma StagingWeighs(l: Lead, e: Event)
    requires e.StageFor? && IsNewlyStaged(l, e) && WithinBudget(l.commands)
    ensures var cs := Changed(l, e).commands;
            Measure(cs) == Measure(l.commands) + 31 && WithinBudget(cs) && HasPending(cs)
  {
    var cs := Changed(l, e).commands;
    assert cs[..|l.commands|] == l.commands;
    assert cs[|l.commands|].state.Pending?;
    HasPendingMeaning(cs);
  }

  lemma ChangedMeaning(l: Lead, e: Event)
    requires ByOthers(e) && WithinBudget(l.commands)
    ensures var l' := Changed(l, e);
            && l'.id == l.id && WithinBudget(l'.commands) && (HasPending(l.commands) ==> HasPending(l'.commands))
            && Weight(l') <= Weight(l) + (if !l.deleted && IsNewlyStaged(l, e) then 31 else 0)
            && (l'.deleted <==> l.deleted || e.Delete?)
  {
    if IsNewlyStaged(l, e) { StagingWeighs(l, e); }
  }

  lemma PutGood(s: Sys, l: Lead, l': Lead)
    requires Good(s) && l in s.leads && l'.id == l.id && WithinBudget(l'.commands)
    requires l'.id in s.queue && !l'.deleted ==> HasPending(l'.commands)
    ensures Good(s.(leads := Put(s.leads, l')))
  {
    PutMeaning(s.leads, l, l');
  }

  lemma OthersKeepGood(s: Sys, e: Event)
    requires Good(s) && ByOthers(e)
    ensures Good(Step(s, e))
  {
    LookupMeaning(s.leads, e.lead);
    if Lookup(s.leads, e.lead).Some? {
      var l := Lookup(s.leads, e.lead).value;
      ChangedMeaning(l, e);
      PutGood(s, l, Changed(l, e));
    }
  }

  lemma PutTotal(leads: seq<Lead>, l: Lead, l': Lead)
    requires Distinct(leads) && l in leads && l'.id == l.id
    ensures LiveTotal(Put(leads, l')) == LiveTotal(leads) - Weight(l) + Weight(l')
  {
    PutMeaning(leads, l, l');
  }

  lemma ChangeWeighs(leads: seq<Lead>, l: Lead, e: Event)
    requires Distinct(leads) && l in leads && !l.deleted && WithinBudget(l.commands) && ByOthers(e)
    ensures LiveTotal(Put(leads, Changed(l, e))) <= LiveTotal(leads) + (if IsNewlyStaged(l, e) then 31 else 0)
  {
    ChangedMeaning(l, e);
    PutTotal(leads, l, Changed(l, e));
  }

  lemma OthersWeigh(leads: seq<Lead>, e: Event)
    requires Distinct(leads) && AllBudgeted(leads) && ByOthers(e)
    ensures LiveTotal(Interfere(leads, e)) <= LiveTotal(leads) + 31 * One(Sys(leads, []), e, Stages)
  {
    LookupMeaning(leads, e.lead);
    if Lookup(leads, e.lead).Some? {
      ChangeWeighs(leads, Lookup(leads, e.lead).value, e);
    }
  }

  lemma OthersDelete(leads: seq<Lead>, queue: seq<int>, e: Event)
    requires Distinct(leads) && AllBudgeted(leads) && Unique(queue) && ByOthers(e)
    ensures Gone(Interfere(leads, e), queue) <= Gone(leads, queue) + One(Sys(leads, []), e, Deletes)
  {
    LookupMeaning(leads, e.lead);
    if Lookup(leads, e.lead).Some? {
      var l := Lookup(leads, e.lead).value;
      ChangedMeaning(l, e);
      GoneAfterPut(leads, l, Changed(l, e), queue);
    }
  }

  lemma OthersBalance(s: Sys, e: Event)
    requires Distinct(s.leads) && AllBudgeted(s.leads) && Unique(s.queue) && ByOthers(e)
    ensures Balanced(s, e)
  {
    OthersWeigh(s.leads, e);
    OthersDelete(s.leads, s.queue, e);
    assert Step(s, e) == s.(leads := Interfere(s.leads, e));
  }

  /** A committed pass over a waiting lead. */
  lemma Served(leads: seq<Lead>, tail: seq<int>, l: Lead, l': Lead, r: Round, stamp: int)
    requires Good(Sys(leads, tail)) && l in leads && !l.deleted && HasPending(l.commands) && l.id !in tail
    requires r.fate.Committed? && l' == Recovered(l, r, stamp)
    ensures Good(Sys(Put(leads, l'), tail))
    ensures LiveTotal(Put(leads, l')) + 1 <= LiveTotal(leads) && Gone(Put(leads, l'), tail) == Gone(leads, tail)
  {
    HasPendingMeaning(l.commands);
    PassMakesProgress(l.commands, r.env, r.target);
    PutTotal(leads, l, l');
    PutGood(Sys(leads, tail), l, l');
    GoneAfterPut(leads, l, l', tail);
  }

  lemma RecoverStep(s: Sys, e: Event)
    requires Good(s) && e.Recover?
    ensures Good(Step(s, e)) && Balanced(s, e)
    ensures s.queue != [] && !Is(s, e, Commits) ==> Step(s, e) == s.(queue := [])
  {
    if s.queue != [] {
      var h, tail := s.queue[0], s.queue[1..];
      LookupMeaning(s.leads, h);
      if Is(s, e, Commits) {
        var l := Lookup(s.leads, h).value;
        assert s.queue == [h] + tail;
        Served(s.leads, tail, l, Recovered(l, e.round, e.stamp), e.round, e.stamp);
      }
    }
  }

  lemma QueryStep(s: Sys, e: Event)
    requires Good(s) && e.Query? && e.limit >= 1
    ensures Good(Step(s, e)) && Balanced(s, e)
    ensures s.queue == [] ==> (Is(s, e, Calls) <==> exists l :: l in s.leads && Waits(l))
    ensures s.queue == [] ==> Gone(s.leads, Step(s, e).queue) == 0
    ensures s.queue == [] && Is(s, e, Calls) ==> Lookup(s.leads, Step(s, e).queue[0]).Some?
  {
    if s.queue == [] {
      var q := Queue(s.leads, e.limit);
      QueueMeaning(s.leads, e.limit);
      IdsMeaning(q);
      NoneGone(s.leads, Ids(q));
      forall l | l in s.leads && l.id in Ids(q) ensures HasPending(l.commands) {
        var x :| x in q && x.id == l.id;
        SameIdSameLead(s.leads, x, l);
      }
    }
  }

  lemma {:induction false} SameIdSameLead(s: seq<Lead>, x: Lead, y: Lead)
    requires Distinct(s) && x in s && y in s && x.id == y.id
    ensures x == y
    decreases |s|
  {
    assert s == [s[0]] + s[1..];
    if x in s[1..] && y in s[1..] {
      SameIdSameLead(s[1..], x, y);
    }
  }

  // ---------------------------------------------------------------- progress of the whole outbox

  /** The recovery of the lead at the head of the queue uses up attempts exactly when the lead is still
      there and the pass commits; otherwise it changes nothing and ends the call. */
  lemma ProgressIffHeadIsServed(s: Sys, r: Round, stamp: int)
    requires Good(s) && s.queue != []
    ensures var s' := Step(s, Recover(r, stamp));
            && (LiveTotal(s'.leads) < LiveTotal(s.leads) <==> Lookup(s.leads, s.queue[0]).Some? && r.fate.Committed?)
            && (LiveTotal(s'.leads) == LiveTotal(s.leads) ==> s' == Sys(s.leads, []))
  {
    RecoverStep(s, Recover(r, stamp));
  }

  /** The head of a queue is there when it is queried, so it takes a deletion to make the call raise;
      the call ends there, nothing else is lost by it, and the next query leaves the lead out. */
  lemma OneDeletionOneRaise(s: Sys, limit: nat, next: nat, r: Round, stamp: int)
    requires Good(s) && s.queue == [] && limit >= 1 && next >= 1 && Is(s, Query(limit), Calls)
    ensures var s1 := Step(s, Query(limit));
            var h := s1.queue[0];
            var s2 := Step(s1, Delete(h));
            var s3 := Step(s2, Recover(r, stamp));
            && !Is(s1, Recover(r, stamp), Raises)
            && Is(s2, Recover(r, stamp), Raises) && s3 == Sys(s2.leads, [])
            && h !in Step(s3, Query(next)).queue
            && ((exists l :: l in s3.leads && Waits(l)) ==>
                  && Is(s3, Query(next), Calls)
                  && !Is(Step(s3, Query(next)), Recover(r, stamp), Raises))
  {
    var s1 := Step(s, Query(limit));
    var h := s1.queue[0];
    QueryStep(s, Query(limit));
    var s2 := Step(s1, Delete(h));
    OthersKeepGood(s1, Delete(h));
    LookupMeaning(s1.leads, h);
    var l := Lookup(s1.leads, h).value;
    PutLookup(s1.leads, l, Changed(l, Delete(h)), h);
    RecoverStep(s2, Recover(r, stamp));
    var s3 := Sys(s2.leads, []);
    QueryStep(s3, Query(next));
    QueueMeaning(s3.leads, next);
    IdsMeaning(Queue(s3.leads, next));
    LookupMeaning(s2.leads, h);
  }

  ghost predicate AsksForLeads(es: seq<Event>) {
    es == [] || ((es[0].Query? ==> es[0].limit >= 1) && AsksForLeads(es[1..]))
  }

  function InCall(s: Sys): nat {
    if s.queue == [] then 0 else 1
  }

  /** A call is over when it was served, raised, or lost a pass; one may be under way. */
  ghost predicate CallsBalance(s: Sys, e: Event) {
    One(s, e, Calls) + InCall(s) <= One(s, e, Commits) + One(s, e, Raises) + One(s, e, Loses) + InCall(Step(s, e))
  }

  lemma AnyStep(s: Sys, e: Event)
    requires Good(s) && (e.Query? ==> e.limit >= 1)
    ensures Good(Step(s, e)) && Balanced(s, e) && CallsBalance(s, e)
  {
    match e {
      case Query(_) => QueryStep(s, e);
      case Recover(_, _) => RecoverStep(s, e);
      case _ =>
        OthersKeepGood(s, e);
        OthersBalance(s, e);
    }
  }

  /** The books over any run, with every interleaving of the other writers: each committed pass uses up
      an attempt that was there or was staged since, each call that raises answers a deletion, and each
      call is served, raises, or loses a pass. */
  lemma {:induction false} BooksBalance(s: Sys, es: seq<Event>)
    requires Good(s) && AsksForLeads(es)
    ensures Good(RunAll(s, es)) && Books(s, es, RunAll(s, es))
    decreases |es|
  {
    if es != [] {
      AnyStep(s, es[0]);
      BooksBalance(Step(s, es[0]), es[1..]);
      BooksAdd(s, es[0], es[1..], RunAll(s, es));
      assert [es[0]] + es[1..] == es;
    }
  }

  ghost predicate Books(s: Sys, es: seq<Event>, s': Sys) {
    && LiveTotal(s'.leads) + Count(s, es, Commits) <= LiveTotal(s.leads) + 31 * Count(s, es, Stages)
    && Gone(s'.leads, s'.queue) + Count(s, es, Raises) <= Gone(s.leads, s.queue) + Count(s, es, Deletes)
    && Count(s, es, Calls) + InCall(s) <= Count(s, es, Commits) + Count(s, es, Raises) + Count(s, es, Loses) + InCall(s')
  }

  lemma BooksAdd(s: Sys, e: Event, es: seq<Event>, s': Sys)
    requires Balanced(s, e) && CallsBalance(s, e) && Books(Step(s, e), es, s')
    ensures Books(s, [e] + es, s')
  {
    forall k: Kind ensures Count(s, [e] + es, k) == One(s, e, k) + Count(Step(s, e), es, k) {
      assert ([e] + es)[1..] == es;
    }
  }

  ghost predicate Drained(s: Sys) {
    forall l :: l in s.leads ==> !Waits(l)
  }

  /** Between calls, a query comes back empty exactly when nothing is pending on a lead that is there. */
  lemma IdleIffDrained(s: Sys, limit: nat)
    requires Good(s) && s.queue == [] && limit >= 1
    ensures Is(s, Query(limit), Calls) <==> !Drained(s)
  {
    QueryStep(s, Query(limit));
  }

  /** So calls cannot go on finding work: their number is bounded by the attempts that were left, the
      commands staged, the leads deleted and the passes lost, and with enough committed passes nothing
      is pending any more. */
  lemma OutboxDrains(s: Sys, es: seq<Event>)
    requires Good(s) && s.queue == [] && AsksForLeads(es)
    ensures Count(s, es, Calls) <= LiveTotal(s.leads) + 31 * Count(s, es, Stages) + Count(s, es, Deletes) + Count(s, es, Loses) + 1
    ensures Count(s, es, Raises) <= Count(s, es, Deletes)
    ensures LiveTotal(s.leads) + 31 * Count(s, es, Stages) <= Count(s, es, Commits) ==> Drained(RunAll(s, es))
  {
    BooksBalance(s, es);
    var s' := RunAll(s, es);
    if !Drained(s') {
      var l :| l in s'.leads && Waits(l);
      HasPendingMeaning(l.commands);
      PendingMeasure(l.commands);
      TotalHoldsEach(s'.leads, l);
    }
  }

  lemma {:induction false} TotalHoldsEach(leads: seq<Lead>, l: Lead)
    requires l in leads
    ensures Weight(l) <= LiveTotal(leads)
    decreases |leads|
  {
    if l != leads[0] {
      assert leads == [leads[0]] + leads[1..];
      TotalHoldsEach(leads[1..], l);
    }
  }

  // ---------------------------------------------------------------- posts in the whole system

  ghost predicate Sound(s: Sys) {
    Good(s) && forall l :: l in s.leads ==> Outbox(l.commands)
  }

  /** The pass posts the command with this id. */
  ghost predicate PostsId(cs: seq<Command>, r: Round, id: int) {
    exists i :: i in Posted(cs, r) && i < |cs| && cs[i].id == id
  }

  /** The event posts this command of this lead. */
  ghost predicate IsPost(s: Sys, e: Event, lead: int, id: int) {
    && e.Recover? && s.queue != [] && s.queue[0] == lead
    && Lookup(s.leads, lead).Some? && PostsId(Lookup(s.leads, lead).value.commands, e.round, id)
  }

  ghost function PostCount(s: Sys, es: seq<Event>, lead: int, id: int): nat
    decreases |es|
  {
    if es == [] then 0 else (if IsPost(s, es[0], lead, id) then 1 else 0) + PostCount(Step(s, es[0]), es[1..], lead, id)
  }

  /** Those of passes that were lost. */
  ghost function LostPostCount(s: Sys, es: seq<Event>, lead: int, id: int): nat
    decreases |es|
  {
    if es == [] then 0
    else (if IsPost(s, es[0], lead, id) && es[0].round.fate.Lost? then 1 else 0) + LostPostCount(Step(s, es[0]), es[1..], lead, id)
  }

  function AttemptsIn(cs: seq<Command>, id: int): nat {
    var c := Find(cs, id);
    if c.Some? then c.value.attempts else 0
  }

  /** The attempts counted for a command, on whatever lead has that id. */
  function AttemptsOf(leads: seq<Lead>, lead: int, id: int): nat {
    if leads == [] then 0
    else (if leads[0].id == lead then AttemptsIn(leads[0].commands, id) else 0) + AttemptsOf(leads[1..], lead, id)
  }

  lemma AttemptsAt(cs: seq<Command>, i: nat)
    requires DistinctIds(cs) && i < |cs|
    ensures AttemptsIn(cs, cs[i].id) == cs[i].attempts
  {
    FindAt(cs, i);
  }

  /** A pass counts what it posts, if it commits, and forgets nothing. */
  lemma PassCounts(cs: seq<Command>, r: Round, id: int)
    requires Outbox(cs)
    ensures AttemptsIn(PassOf(cs, r), id) >= AttemptsIn(cs, id) + if r.fate.Committed? && PostsId(cs, r, id) then 1 else 0
  {
    if r.fate.Committed? && Find(cs, id).Some? {
      FindMeaning(cs, id);
      var i :| 0 <= i < |cs| && cs[i].id == id && cs[i] == Find(cs, id).value;
      PassKeepsOutbox(cs, r.env, r.target);
      SettledMeaning(cs, r.env, r.target, i);
      AttemptsAt(cs, i);
      AttemptsAt(Pass(cs, r.env, r.target), i);
    } else {
      FindMeaning(cs, id);
    }
  }

  lemma StagingKeepsAttempts(l: Lead, e: Event, id: int)
    requires Outbox(l.commands) && ByOthers(e)
    ensures AttemptsIn(Changed(l, e).commands, id) >= AttemptsIn(l.commands, id) && Outbox(Changed(l, e).commands)
  {
    if IsNewlyStaged(l, e) {
      var cs, cs' := l.commands, Changed(l, e).commands;
      StageKeepsOutbox(cs, e.target, Some(l.external), e.ev, e.rq, e.now);
      FindMeaning(cs, id);
      if Find(cs, id).Some? {
        var i :| 0 <= i < |cs| && cs[i].id == id && cs[i] == Find(cs, id).value;
        AttemptsAt(cs', i);
      }
    }
  }

  lemma {:induction false} PutAttempts(leads: seq<Lead>, l: Lead, l': Lead, lead: int, id: int)
    requires Distinct(leads) && l in leads && l'.id == l.id
    ensures AttemptsOf(Put(leads, l'), lead, id)
            == AttemptsOf(leads, lead, id) + if l.id == lead then AttemptsIn(l'.commands, id) - AttemptsIn(l.commands, id) else 0
    decreases |leads|
  {
    assert leads == [leads[0]] + leads[1..];
    assert Put(leads, l')[1..] == Put(leads[1..], l');
    if leads[0].id == l.id {
      assert l == leads[0];
      PutNothing(leads[1..], l');
    } else {
      PutAttempts(leads[1..], l, l', lead, id);
    }
  }

  lemma {:induction false} AttemptsWithinBudget(leads: seq<Lead>, lead: int, id: int)
    requires Distinct(leads) && forall l :: l in leads ==> WithinBudget(l.commands)
    ensures AttemptsOf(leads, lead, id) <= 30
    ensures (forall l :: l in leads ==> l.id != lead) ==> AttemptsOf(leads, lead, id) == 0
    decreases |leads|
  {
    if leads != [] {
      assert leads == [leads[0]] + leads[1..];
      AttemptsWithinBudget(leads[1..], lead, id);
      FindMeaning(leads[0].commands, id);
    }
  }

  /** A change of one lead that keeps it sound. */
  lemma PutSound(s: Sys, l: Lead, l': Lead)
    requires Sound(s) && l in s.leads && l'.id == l.id && Outbox(l'.commands)
    ensures forall x :: x in Put(s.leads, l') ==> Outbox(x.commands)
  {
    PutMeaning(s.leads, l, l');
  }

  lemma RecoverCounts(s: Sys, e: Event, lead: int, id: int)
    requires Sound(s) && e.Recover? && s.queue != []
    ensures forall x :: x in Step(s, e).leads ==> Outbox(x.commands)
    ensures AttemptsOf(Step(s, e).leads, lead, id)
            >= AttemptsOf(s.leads, lead, id) + if IsPost(s, e, lead, id) && e.round.fate.Committed? then 1 else 0
  {
    var h := s.queue[0];
    LookupMeaning(s.leads, h);
    if Is(s, e, Commits) {
      var l := Lookup(s.leads, h).value;
      var l' := Recovered(l, e.round, e.stamp);
      PassKeepsOutbox(l.commands, e.round.env, e.round.target);
      PutSound(s, l, l');
      PassCounts(l.commands, e.round, id);
      PutAttempts(s.leads, l, l', lead, id);
    }
  }

  lemma OthersCount(s: Sys, e: Event, lead: int, id: int)
    requires Sound(s) && ByOthers(e)
    ensures forall x :: x in Step(s, e).leads ==> Outbox(x.commands)
    ensures AttemptsOf(Step(s, e).leads, lead, id) >= AttemptsOf(s.leads, lead, id)
  {
    LookupMeaning(s.leads, e.lead);
    if Lookup(s.leads, e.lead).Some? {
      var l := Lookup(s.leads, e.lead).value;
      StagingKeepsAttempts(l, e, id);
      PutSound(s, l, Changed(l, e));
      PutAttempts(s.leads, l, Changed(l, e), lead, id);
    }
  }

  lemma StepCounts(s: Sys, e: Event, lead: int, id: int)
    requires Sound(s) && (e.Query? ==> e.limit >= 1)
    ensures Sound(Step(s, e))
    ensures AttemptsOf(Step(s, e).leads, lead, id)
            >= AttemptsOf(s.leads, lead, id) + if IsPost(s, e, lead, id) && !e.round.fate.Lost? then 1 else 0
  {
    AnyStep(s, e);
    match e {
      case Query(_) =>
      case Recover(_, _) => if s.queue != [] { RecoverCounts(s, e, lead, id); }
      case _ => OthersCount(s, e, lead, id);
    }
  }

  /** Over every interleaving of recovery with staging, deletion and other writes, for every command of
      every lead: committed posts are counted as attempts, of which there are thirty at most, whenever the
      command was staged; every further post was made by a pass that was lost. */
  lemma {:induction false} PostsAreBoundedThroughout(s: Sys, es: seq<Event>, lead: int, id: int)
    requires Sound(s) && AsksForLeads(es)
    ensures Sound(RunAll(s, es))
    ensures PostCount(s, es, lead, id) - LostPostCount(s, es, lead, id)
            <= AttemptsOf(RunAll(s, es).leads, lead, id) - AttemptsOf(s.leads, lead, id)
    ensures AttemptsOf(RunAll(s, es).leads, lead, id) <= 30
    ensures PostCount(s, es, lead, id) <= 30 + LostPostCount(s, es, lead, id)
    decreases |es|
  {
    if es == [] {
      AttemptsWithinBudget(s.leads, lead, id);
    } else {
      StepCounts(s, es[0], lead, id);
      PostsAreBoundedThroughout(Step(s, es[0]), es[1..], lead, id);
    }
  }
}
