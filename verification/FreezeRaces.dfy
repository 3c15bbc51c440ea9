/** Freezes under READ COMMITTED: `is_frozen` reads the log in three statements, `activate` appends to it
    in a fourth, and nothing locks what they have read. */
module FreezeRaces {
  import opened FreezeLog

  datatype Ask = Ask(key: int, scope: Scope, reason: int, actor: int, now: int)

  // How far a transaction is with `activate`.  `at1`, `at2`: which committed log its first and second
  // SELECT saw, as a position in the history.
  datatype Intent = NoIntent | Saw1(ask: Ask, at1: nat) | Saw2(ask: Ask, at1: nat, at2: nat) | Intends(ask: Ask, at1: nat)

  // `seen[i]`: the committed log at the first SELECT of the check behind own[i].
  datatype Tx = Tx(own: seq<Event>, seen: seq<nat>, intent: Intent)

  // All committed logs so far, one after each commit.
  datatype State = State(history: seq<seq<Event>>, open: map<int, Tx>)

  // Statements of the open transactions, in the order in which the database takes them.
  datatype Act =
      Begin(t: int)
    | SelectActivated(t: int, ask: Ask)
    | SelectKills(t: int)
    | SelectEnded(t: int)
    | AppendFreeze(t: int)
    | AppendEnd(t: int, key: int)
    | AppendKill(t: int, ask: Ask)
    | Commit(t: int)
    | Rollback(t: int)

  const START := State([[]], map[])

  function Committed(s: State): seq<Event> {
    if s.history == [] then [] else s.history[|s.history| - 1]
  }

  /** A statement reads what was committed before it began, and its own transaction. */
  function Visible(s: State, t: int): seq<Event>
    requires t in s.open
  {
    Committed(s) + s.open[t].own
  }

  ghost predicate Freezes(e: Event, scope: Scope) {
    e.Activated? && e.scope == scope
  }

  /** Every freeze of the scope in one log is named by a deactivation in another. */
  ghost predicate AllEnded(a: seq<Event>, scope: Scope, b: seq<Event>) {
    forall e :: e in a && Freezes(e, scope) ==> e.key in Ended(b)
  }

  /** What `is_frozen` makes of the logs that its three SELECTs saw. */
  ghost predicate Reads(log1: seq<Event>, log2: seq<Event>, log3: seq<Event>, scope: Scope) {
    Killed(log2, scope) || !AllEnded(log1, scope, log3)
  }

  function FreezeOf(ask: Ask): Event {
    Activated(ask.key, ask.scope, ask.reason, false, ask.actor, ask.now)
  }

  function KillOf(ask: Ask): Event {
    KillSwitch(ask.key, ask.scope, ask.reason, ask.actor, ask.now)
  }

  function WithEvent(s: State, t: int, e: Event, seen: nat): State
    requires t in s.open
  {
    s.(open := s.open[t := Tx(s.open[t].own + [e], s.open[t].seen + [seen], NoIntent)])
  }

  function WithIntent(s: State, t: int, i: Intent): State
    requires t in s.open
  {
    s.(open := s.open[t := s.open[t].(intent := i)])
  }

  /** A transaction inside `activate` does nothing else. */
  ghost predicate Enabled(s: State, a: Act) {
    match a
    case Begin(t) => t !in s.open
    case SelectKills(t) => t in s.open && s.open[t].intent.Saw1?
    case SelectEnded(t) => t in s.open && s.open[t].intent.Saw2? && s.open[t].intent.at1 < |s.history| && s.open[t].intent.at2 < |s.history|
    case AppendFreeze(t) => t in s.open && s.open[t].intent.Intends?
    case Rollback(t) => t in s.open
    case _ => a.t in s.open && s.open[a.t].intent.NoIntent?
  }

  ghost predicate AnswersFrozen(s: State, t: int)
    requires Enabled(s, SelectEnded(t))
  {
    var tx := s.open[t];
    Reads(s.history[tx.intent.at1] + tx.own, s.history[tx.intent.at2] + tx.own, Visible(s, t), tx.intent.ask.scope)
  }

  ghost function Step(s: State, a: Act): State {
    if !Enabled(s, a) || s.history == [] then s
    else
      var last := |s.history| - 1;
      match a
      case Begin(t) => s.(open := s.open[t := Tx([], [], NoIntent)])
      case SelectActivated(t, ask) => WithIntent(s, t, Saw1(ask, last))
      case SelectKills(t) => WithIntent(s, t, Saw2(s.open[t].intent.ask, s.open[t].intent.at1, last))
      case SelectEnded(t) =>
        WithIntent(s, t, if AnswersFrozen(s, t) then NoIntent else Intends(s.open[t].intent.ask, s.open[t].intent.at1))
      case AppendFreeze(t) => WithEvent(s, t, FreezeOf(s.open[t].intent.ask), s.open[t].intent.at1)
      case AppendEnd(t, key) => WithEvent(s, t, Deactivated(key), last)
      case AppendKill(t, ask) => WithEvent(s, t, KillOf(ask), last)
      case Commit(t) => State(s.history + [Visible(s, t)], s.open - {t})
      case Rollback(t) => s.(open := s.open - {t})
  }

  ghost function Run(acts: seq<Act>): State {
    if acts == [] then START else Step(Run(acts[..|acts| - 1]), acts[|acts| - 1])
  }

  // ---------------------------------------------------------------- what a check leaves behind

  ghost predicate AtMostOne(log: seq<Event>, scope: Scope) {
    forall j, k :: j in LiveKeys(log, scope) && k in LiveKeys(log, scope) ==> j == k
  }

  ghost predicate Growing(history: seq<seq<Event>>) {
    history != [] && forall i, j :: 0 <= i <= j < |history| ==> history[i] <= history[j]
  }

  /** The freezes of the scope that the check behind own event p could see have all ended by now. */
  ghost predicate WasClear(history: seq<seq<Event>>, tx: Tx, p: nat)
    requires history != [] && p < |tx.own| == |tx.seen|
  {
    && tx.seen[p] < |history|
    && (tx.own[p].Activated? ==>
          AllEnded(history[tx.seen[p]] + tx.own[..p], tx.own[p].scope, history[|history| - 1] + tx.own[..p]))
  }

  ghost predicate IntentInv(history: seq<seq<Event>>, tx: Tx)
    requires history != []
  {
    match tx.intent
    case NoIntent => true
    case Saw1(_, at1) => at1 < |history|
    case Saw2(_, at1, at2) => at1 <= at2 < |history|
    case Intends(ask, at1) => at1 < |history| && AllEnded(history[at1] + tx.own, ask.scope, history[|history| - 1] + tx.own)
  }

  ghost predicate TxInv(history: seq<seq<Event>>, tx: Tx)
    requires history != []
  {
    && |tx.own| == |tx.seen| && (forall p :: 0 <= p < |tx.own| ==> WasClear(history, tx, p))
    && IntentInv(history, tx)
  }

  ghost predicate Inv(s: State) {
    Growing(s.history) && forall t :: t in s.open ==> TxInv(s.history, s.open[t])
  }

  lemma EndedGrows(a: seq<Event>, b: seq<Event>)
    requires forall e :: e in a ==> e in b
    ensures Ended(a) <= Ended(b)
  {
  }

  lemma AllEndedGrows(a: seq<Event>, scope: Scope, b: seq<Event>, c: seq<Event>, own: seq<Event>)
    requires AllEnded(a, scope, b + own) && b <= c
    ensures AllEnded(a, scope, c + own)
  {
    assert c == b + c[|b|..];
    EndedGrows(b + own, c + own);
  }

  lemma TxInvGrows(history: seq<seq<Event>>, log: seq<Event>, tx: Tx)
    requires Growing(history) && TxInv(history, tx) && history[|history| - 1] <= log
    ensures TxInv(history + [log], tx)
  {
    var h, now := history + [log], history[|history| - 1];
    forall p | 0 <= p < |tx.own| ensures WasClear(h, tx, p) {
      assert WasClear(history, tx, p);
      if tx.own[p].Activated? {
        AllEndedGrows(history[tx.seen[p]] + tx.own[..p], tx.own[p].scope, now, log, tx.own[..p]);
      }
    }
    if tx.intent.Intends? {
      AllEndedGrows(history[tx.intent.at1] + tx.own, tx.intent.ask.scope, now, log, tx.own);
    }
  }

  lemma HistoryGrows(history: seq<seq<Event>>, log: seq<Event>)
    requires Growing(history) && history[|history| - 1] <= log
    ensures Growing(history + [log])
  {
  }

  lemma OwnGrows(history: seq<seq<Event>>, tx: Tx, e: Event, seen: nat)
    requires history != [] && TxInv(history, tx) && seen < |history|
    requires e.Activated? ==> AllEnded(history[seen] + tx.own, e.scope, history[|history| - 1] + tx.own)
    ensures TxInv(history, Tx(tx.own + [e], tx.seen + [seen], NoIntent))
  {
    var tx' := Tx(tx.own + [e], tx.seen + [seen], NoIntent);
    forall p | 0 <= p < |tx'.own| ensures WasClear(history, tx', p) {
      if p < |tx.own| {
        assert WasClear(history, tx, p);
        assert tx'.own[..p] == tx.own[..p];
      } else {
        assert tx'.own[..p] == tx.own;
      }
    }
  }

  lemma NewIntent(history: seq<seq<Event>>, tx: Tx, i: Intent)
    requires history != [] && TxInv(history, tx) && IntentInv(history, tx.(intent := i))
    ensures TxInv(history, tx.(intent := i))
  {
    forall p | 0 <= p < |tx.own| ensures WasClear(history, tx.(intent := i), p) {
      assert WasClear(history, tx, p);
    }
  }

  lemma OwnStepKeepsInv(s: State, a: Act)
    requires Inv(s) && Enabled(s, a) && !a.Begin? && !a.Commit? && !a.Rollback?
    ensures TxInv(s.history, Step(s, a).open[a.t])
  {
    var tx, last := s.open[a.t], |s.history| - 1;
    assert TxInv(s.history, tx);
    match a
    case SelectActivated(t, ask) => NewIntent(s.history, tx, Saw1(ask, last));
    case SelectKills(t) => NewIntent(s.history, tx, Saw2(tx.intent.ask, tx.intent.at1, last));
    case SelectEnded(t) => NewIntent(s.history, tx, Step(s, a).open[t].intent);
    case AppendFreeze(t) => OwnGrows(s.history, tx, FreezeOf(tx.intent.ask), tx.intent.at1);
    case AppendEnd(t, key) => OwnGrows(s.history, tx, Deactivated(key), last);
    case AppendKill(t, ask) => OwnGrows(s.history, tx, KillOf(ask), last);
  }

  lemma StepKeepsInv(s: State, a: Act)
    requires Inv(s)
    ensures Inv(Step(s, a))
  {
    if Enabled(s, a) {
      if a.Commit? {
        HistoryGrows(s.history, Visible(s, a.t));
        forall t | t in Step(s, a).open ensures TxInv(Step(s, a).history, s.open[t]) {
          TxInvGrows(s.history, Visible(s, a.t), s.open[t]);
        }
      } else if !a.Begin? && !a.Rollback? {
        OwnStepKeepsInv(s, a);
      }
    }
  }

  lemma {:induction false} RunKeepsInv(acts: seq<Act>)
    ensures Inv(Run(acts))
    decreases |acts|
  {
    if acts != [] {
      RunKeepsInv(acts[..|acts| - 1]);
      StepKeepsInv(Run(acts[..|acts| - 1]), acts[|acts| - 1]);
    }
  }

  // ---------------------------------------------------------------- what the three SELECTs answer

  lemma OneLogReads(log: seq<Event>, scope: Scope)
    ensures Reads(log, log, log, scope) <==> IsFrozen(log, scope)
  {
    if !AllEnded(log, scope, log) {
      var e :| e in log && Freezes(e, scope) && e.key !in Ended(log);
      assert e.key in LiveKeys(log, scope);
    }
  }

  lemma NotEndedIsFrozen(a: seq<Event>, scope: Scope, b: seq<Event>)
    requires !AllEnded(a, scope, b) && forall e :: e in a ==> e in b
    ensures IsFrozen(a, scope)
  {
    EndedGrows(a, b);
    OneLogReads(a, scope);
  }

  /** Some log that was committed from the first to the last SELECT, with the transaction's own events,
      gives the answer. */
  ghost predicate IsOfAMoment(history: seq<seq<Event>>, own: seq<Event>, from: nat, scope: Scope, frozen: bool) {
    exists h :: from <= h < |history| && (IsFrozen(history[h] + own, scope) <==> frozen)
  }

  /** A freeze or kill switch of the scope was committed after log `from`. */
  ghost predicate SomethingNew(history: seq<seq<Event>>, from: nat, scope: Scope)
    requires from < |history|
  {
    exists e :: e in history[|history| - 1] && e !in history[from] && (Freezes(e, scope) || (e.KillSwitch? && e.scope == scope))
  }

  lemma InLater(history: seq<seq<Event>>, own: seq<Event>, i: nat, j: nat)
    requires Growing(history) && i <= j < |history|
    ensures forall e :: e in history[i] + own ==> e in history[j] + own
  {
    assert history[j] == history[i] + history[j][|history[i]|..];
  }

  lemma NoNewKill(a: seq<Event>, b: seq<Event>, scope: Scope)
    requires !Killed(a, scope) && forall e :: e in b && e.KillSwitch? && e.scope == scope ==> e in a
    ensures !Killed(b, scope)
  {
  }

  /** When nothing new came, an open answer is right at the last moment. */
  lemma OpenAtTheEnd(history: seq<seq<Event>>, own: seq<Event>, at1: nat, at2: nat, scope: Scope)
    requires Growing(history) && at1 <= at2 < |history| && !SomethingNew(history, at1, scope)
    requires !Reads(history[at1] + own, history[at2] + own, history[|history| - 1] + own, scope)
    ensures !IsFrozen(history[|history| - 1] + own, scope)
  {
    var last := history[|history| - 1] + own;
    InLater(history, own, at1, at2);
    forall e | e in last && Freezes(e, scope) ensures e.key in Ended(last) {
      assert e in history[at1] + own;
    }
    NoNewKill(history[at2] + own, last, scope);
    OneLogReads(last, scope);
  }

  /** Exactly when the answer of `is_frozen` is that of some committed moment of its three SELECTs: always
      if it answers frozen; and if it answers open, unless the scope was frozen throughout, which takes
      a freeze or kill switch of the scope that is committed between the first and the last of them. */
  lemma AnswerIsOfAMomentIff(s: State, t: int)
    requires Inv(s) && Enabled(s, SelectEnded(t))
    ensures var i, own := s.open[t].intent, s.open[t].own;
            var throughout := forall h :: i.at1 <= h < |s.history| ==> IsFrozen(s.history[h] + own, i.ask.scope);
            && (AnswersFrozen(s, t) ==> IsOfAMoment(s.history, own, i.at1, i.ask.scope, true))
            && (IsOfAMoment(s.history, own, i.at1, i.ask.scope, AnswersFrozen(s, t)) <==> AnswersFrozen(s, t) || !throughout)
            && (!AnswersFrozen(s, t) && throughout ==> SomethingNew(s.history, i.at1, i.ask.scope))
  {
    var tx := s.open[t];
    var i, own, h := tx.intent, tx.own, s.history;
    assert TxInv(h, tx);
    if AnswersFrozen(s, t) {
      FrozenAnswerIsRight(h, own, i.at1, i.at2, i.ask.scope);
    } else if !SomethingNew(h, i.at1, i.ask.scope) {
      OpenAtTheEnd(h, own, i.at1, i.at2, i.ask.scope);
    }
  }

  lemma FrozenAnswerIsRight(history: seq<seq<Event>>, own: seq<Event>, at1: nat, at2: nat, scope: Scope)
    requires Growing(history) && at1 <= at2 < |history|
    requires Reads(history[at1] + own, history[at2] + own, history[|history| - 1] + own, scope)
    ensures IsOfAMoment(history, own, at1, scope, true)
  {
    if Killed(history[at2] + own, scope) {
      assert IsFrozen(history[at2] + own, scope);
    } else {
      InLater(history, own, at1, |history| - 1);
      NotEndedIsFrozen(history[at1] + own, scope, history[|history| - 1] + own);
    }
  }

  // ---------------------------------------------------------------- when two freezes are live at once

  /** Another freeze of the scope was committed after the first SELECT behind own activation p, and both
      stand. */
  ghost predicate Overtaken(s: State, t: int, scope: Scope, p: int, i: int)
    requires t in s.open
  {
    var own, seen, log := s.open[t].own, s.open[t].seen, Committed(s);
    && 0 <= p < |own| && p < |seen| && Freezes(own[p], scope)
    && seen[p] < |s.history| && |s.history[seen[p]]| <= i < |log| && Freezes(log[i], scope)
    && log[i].key != own[p].key
    && own[p].key !in Ended(Visible(s, t)) && log[i].key !in Ended(Visible(s, t))
  }

  ghost predicate Races(s: State, a: Act, scope: Scope) {
    a.Commit? && Enabled(s, a) && exists p, i :: Overtaken(s, a.t, scope, p, i)
  }

  lemma WhereLive(log: seq<Event>, scope: Scope, k: int) returns (i: nat)
    requires k in LiveKeys(log, scope)
    ensures i < |log| && Freezes(log[i], scope) && log[i].key == k && k !in Ended(log)
  {
    var e :| e in log && e.Activated? && e.scope == scope && e.key !in Ended(log) && e.key == k;
    i :| 0 <= i < |log| && log[i] == e;
  }

  lemma IsLive(log: seq<Event>, scope: Scope, i: nat)
    requires i < |log| && Freezes(log[i], scope) && log[i].key !in Ended(log)
    ensures log[i].key in LiveKeys(log, scope)
  {
    assert log[i] in log;
  }

  /** Two of a transaction's own freezes of a scope are never live together. */
  lemma OwnKeysDiffer(s: State, t: int, scope: Scope, p: nat, q: nat)
    requires Inv(s) && t in s.open && p < q < |s.open[t].own|
    requires Freezes(s.open[t].own[p], scope) && Freezes(s.open[t].own[q], scope)
    ensures s.open[t].own[p].key in Ended(Visible(s, t))
  {
    var tx := s.open[t];
    assert TxInv(s.history, tx) && WasClear(s.history, tx, q);
    assert tx.own[..q][p] == tx.own[p];
    assert tx.own[p] in s.history[tx.seen[q]] + tx.own[..q];
    EndedGrows(Committed(s) + tx.own[..q], Visible(s, t));
  }

  /** An own freeze and a live committed one mean that the committed one came in between. */
  lemma CommittedCameBetween(s: State, t: int, scope: Scope, i: nat, p: nat)
    requires Inv(s) && t in s.open && i < |Committed(s)| && p < |s.open[t].own|
    requires Freezes(Committed(s)[i], scope) && Freezes(s.open[t].own[p], scope)
    requires Committed(s)[i].key !in Ended(Visible(s, t))
    ensures p < |s.open[t].seen| && s.open[t].seen[p] < |s.history| && |s.history[s.open[t].seen[p]]| <= i
  {
    var tx := s.open[t];
    assert TxInv(s.history, tx) && WasClear(s.history, tx, p);
    var first := s.history[tx.seen[p]];
    assert first <= Committed(s);
    EndedGrows(Committed(s) + tx.own[..p], Visible(s, t));
    SeenEarly(first, tx.own[..p], scope, Committed(s) + tx.own[..p], Committed(s), i);
  }

  lemma SeenEarly(first: seq<Event>, own: seq<Event>, scope: Scope, b: seq<Event>, log: seq<Event>, i: nat)
    requires AllEnded(first + own, scope, b) && first <= log && i < |log| && Freezes(log[i], scope)
    ensures i < |first| ==> log[i].key in Ended(b)
  {
    if i < |first| {
      assert log[i] == first[i];
      assert first[i] in first + own;
    }
  }

  /** Two live keys after a commit are a race. */
  lemma TwoLiveAreARace(s: State, t: int, scope: Scope, j: int, k: int)
    requires Inv(s) && Enabled(s, Commit(t)) && AtMostOne(Committed(s), scope)
    requires j in LiveKeys(Visible(s, t), scope) && k in LiveKeys(Visible(s, t), scope) && j != k
    ensures Races(s, Commit(t), scope)
  {
    var log, n := Visible(s, t), |Committed(s)|;
    var x := WhereLive(log, scope, j);
    var y := WhereLive(log, scope, k);
    if x < n && y < n {
      EndedGrows(Committed(s), log);
      IsLive(Committed(s), scope, x);
      IsLive(Committed(s), scope, y);
    } else if x < n {
      CommittedCameBetween(s, t, scope, x, y - n);
      assert Overtaken(s, t, scope, y - n, x);
    } else if y < n {
      CommittedCameBetween(s, t, scope, y, x - n);
      assert Overtaken(s, t, scope, x - n, y);
    } else if x < y {
      OwnKeysDiffer(s, t, scope, x - n, y - n);
    } else {
      OwnKeysDiffer(s, t, scope, y - n, x - n);
    }
  }

  lemma RaceLeavesTwo(s: State, a: Act, scope: Scope)
    requires Inv(s) && Races(s, a, scope)
    ensures !AtMostOne(Committed(Step(s, a)), scope)
  {
    var p, i :| Overtaken(s, a.t, scope, p, i);
    var log := Visible(s, a.t);
    assert log[i] == Committed(s)[i] && log[|Committed(s)| + p] == s.open[a.t].own[p];
    IsLive(log, scope, i);
    IsLive(log, scope, |Committed(s)| + p);
  }

  /** A step leaves a scope with at most one live key exactly when it is not a racing commit. */
  lemma OneLiveIffNoRace(s: State, a: Act, scope: Scope)
    requires Inv(s) && AtMostOne(Committed(s), scope)
    ensures AtMostOne(Committed(Step(s, a)), scope) <==> !Races(s, a, scope)
  {
    if Races(s, a, scope) {
      RaceLeavesTwo(s, a, scope);
    } else if a.Commit? && Enabled(s, a) {
      forall j, k | j in LiveKeys(Visible(s, a.t), scope) && k in LiveKeys(Visible(s, a.t), scope) ensures j == k {
        if j != k { TwoLiveAreARace(s, a.t, scope, j, k); }
      }
    }
  }

  ghost predicate OneLiveThroughout(acts: seq<Act>, scope: Scope)
    decreases |acts|
  {
    AtMostOne(Committed(Run(acts)), scope) && (acts != [] ==> OneLiveThroughout(acts[..|acts| - 1], scope))
  }

  ghost predicate RaceFree(acts: seq<Act>, scope: Scope)
    decreases |acts|
  {
    acts == [] || (RaceFree(acts[..|acts| - 1], scope) && !Races(Run(acts[..|acts| - 1]), acts[|acts| - 1], scope))
  }

  /** Over every interleaving of any transactions: a scope has at most one live freeze at every moment
      exactly when no freeze of it is committed between the first SELECT behind another one and the
      commit of that other one while both stand. */
  lemma {:induction false} OneLiveThroughoutIffRaceFree(acts: seq<Act>, scope: Scope)
    ensures OneLiveThroughout(acts, scope) <==> RaceFree(acts, scope)
    decreases |acts|
  {
    if acts != [] {
      var init := acts[..|acts| - 1];
      OneLiveThroughoutIffRaceFree(init, scope);
      RunKeepsInv(init);
      if OneLiveThroughout(init, scope) {
        OneLiveIffNoRace(Run(init), acts[|acts| - 1], scope);
      }
    }
  }

  // ---------------------------------------------------------------- runs from the empty log

  lemma RunStep(acts: seq<Act>, a: Act)
    ensures Run(acts + [a]) == Step(Run(acts), a)
  {
    assert (acts + [a])[..|acts|] == acts;
  }

  lemma RunTwo(acts: seq<Act>, a: Act, b: Act)
    ensures Run(acts + [a] + [b]) == Step(Step(Run(acts), a), b)
  {
    RunStep(acts, a);
    RunStep(acts + [a], b);
  }

  ghost function Ask0(scope: Scope, key: int): Ask {
    Ask(key, scope, 0, 0, 0)
  }

  /** Transactions 1 and 2 are open. */
  ghost function Both(history: seq<seq<Event>>, x: Tx, y: Tx): State {
    State(history, map[1 := x, 2 := y])
  }

  lemma BothBegin() returns (acts: seq<Act>)
    ensures Run(acts) == Both([[]], Tx([], [], NoIntent), Tx([], [], NoIntent))
  {
    RunTwo([], Begin(1), Begin(2));
    acts := [] + [Begin(1)] + [Begin(2)];
  }

  /** On the empty log, nothing is frozen. */
  lemma EmptyReads(scope: Scope)
    ensures !Reads([] + [], [] + [], [] + [], scope)
  {
  }

  lemma FirstLooks(s: State, t: int, ask: Ask)
    requires s.history == [[]] && t in s.open && s.open[t] == Tx([], [], NoIntent)
    ensures Step(Step(Step(s, SelectActivated(t, ask)), SelectKills(t)), SelectEnded(t)) == WithIntent(s, t, Intends(ask, 0))
  {
    var s1 := Step(s, SelectActivated(t, ask));
    assert s1.open[t] == Tx([], [], Saw1(ask, 0));
    var s2 := Step(s1, SelectKills(t));
    assert s2.open[t] == Tx([], [], Saw2(ask, 0, 0));
    EmptyReads(ask.scope);
    assert !AnswersFrozen(s2, t);
    var s3 := Step(s2, SelectEnded(t));
    assert s3.open == WithIntent(s, t, Intends(ask, 0)).open;
  }

  lemma RunThree(acts: seq<Act>, a: Act, b: Act, c: Act)
    ensures Run(acts + [a] + [b] + [c]) == Step(Step(Step(Run(acts), a), b), c)
  {
    RunTwo(acts, a, b);
    RunStep(acts + [a] + [b], c);
  }

  /** Both look before either appends. */
  lemma BothLook(scope: Scope) returns (acts: seq<Act>)
    ensures Run(acts) == Both([[]], Tx([], [], Intends(Ask0(scope, 1), 0)), Tx([], [], Intends(Ask0(scope, 2), 0)))
  {
    acts := BothBegin();
    var k1, k2 := Ask0(scope, 1), Ask0(scope, 2);
    FirstLooks(Run(acts), 1, k1);
    RunThree(acts, SelectActivated(1, k1), SelectKills(1), SelectEnded(1));
    acts := acts + [SelectActivated(1, k1)] + [SelectKills(1)] + [SelectEnded(1)];
    FirstLooks(Run(acts), 2, k2);
    RunThree(acts, SelectActivated(2, k2), SelectKills(2), SelectEnded(2));
    acts := acts + [SelectActivated(2, k2)] + [SelectKills(2)] + [SelectEnded(2)];
  }

  lemma BothAppend(s: State, scope: Scope)
    requires s == Both([[]], Tx([], [], Intends(Ask0(scope, 1), 0)), Tx([], [], Intends(Ask0(scope, 2), 0)))
    ensures Step(Step(s, AppendFreeze(1)), AppendFreeze(2))
            == Both([[]], Tx([FreezeOf(Ask0(scope, 1))], [0], NoIntent), Tx([FreezeOf(Ask0(scope, 2))], [0], NoIntent))
  {
    var s1 := Step(s, AppendFreeze(1));
    assert s1.open[1] == Tx([FreezeOf(Ask0(scope, 1))], [0], NoIntent) && s1.open[2] == s.open[2];
    var s2 := Step(s1, AppendFreeze(2));
    assert s2.open[2] == Tx([FreezeOf(Ask0(scope, 2))], [0], NoIntent) && s2.open[1] == s1.open[1];
    assert s2.open.Keys == {1, 2};
  }

  lemma BothCommit(s: State, e: Event, f: Event)
    requires s == Both([[]], Tx([e], [0], NoIntent), Tx([f], [0], NoIntent))
    ensures Committed(Step(Step(s, Commit(1)), Commit(2))) == [e, f]
  {
    var s1 := Step(s, Commit(1));
    assert Visible(s, 1) == [e] && s1.history == [[], [e]] && s1.open[2] == s.open[2];
    assert Visible(s1, 2) == [e, f];
  }

  lemma BothLive(a: Event, b: Event, scope: Scope)
    requires Freezes(a, scope) && Freezes(b, scope)
    ensures LiveKeys([a, b], scope) == {a.key, b.key}
  {
    assert a in [a, b] && b in [a, b];
    assert Ended([a, b]) == {};
  }

  /** From the empty log, two transactions freeze one scope twice. */
  lemma TwoSessionsFreezeTwice(scope: Scope) returns (acts: seq<Act>)
    ensures LiveKeys(Committed(Run(acts)), scope) == {1, 2} && !RaceFree(acts, scope)
  {
    acts := BothLook(scope);
    BothAppend(Run(acts), scope);
    RunTwo(acts, AppendFreeze(1), AppendFreeze(2));
    acts := acts + [AppendFreeze(1)] + [AppendFreeze(2)];
    BothCommit(Run(acts), FreezeOf(Ask0(scope, 1)), FreezeOf(Ask0(scope, 2)));
    RunTwo(acts, Commit(1), Commit(2));
    acts := acts + [Commit(1)] + [Commit(2)];
    BothLive(FreezeOf(Ask0(scope, 1)), FreezeOf(Ask0(scope, 2)), scope);
    OneLiveThroughoutIffRaceFree(acts, scope);
  }

  // -- an open answer that was never true

  lemma FrozenOnce(scope: Scope) returns (acts: seq<Act>)
    ensures Run(acts) == State([[], [FreezeOf(Ask0(scope, 1))]], map[])
  {
    var ask := Ask0(scope, 1);
    acts := [] + [Begin(1)];
    RunStep([], Begin(1));
    var s := Run(acts);
    FirstLooks(s, 1, ask);
    RunThree(acts, SelectActivated(1, ask), SelectKills(1), SelectEnded(1));
    acts := acts + [SelectActivated(1, ask)] + [SelectKills(1)] + [SelectEnded(1)];
    var s1 := Run(acts);
    assert s1.open == map[1 := Tx([], [], Intends(ask, 0))];
    RunTwo(acts, AppendFreeze(1), Commit(1));
    var zero: seq<nat> := [0];
    assert [] + [FreezeOf(ask)] == [FreezeOf(ask)] && [] + zero == zero;
    assert Step(s1, AppendFreeze(1)).open[1] == Tx([FreezeOf(ask)], zero, NoIntent);
    assert Step(s1, AppendFreeze(1)).open == map[1 := Tx([FreezeOf(ask)], [0], NoIntent)];
    assert Visible(Step(s1, AppendFreeze(1)), 1) == [FreezeOf(ask)];
    acts := acts + [AppendFreeze(1)] + [Commit(1)];
  }

  lemma TwoSelects(s: State, ask: Ask)
    requires |s.history| == 2 && s.open == map[]
    ensures Step(Step(Step(s, Begin(2)), SelectActivated(2, ask)), SelectKills(2))
            == State(s.history, map[2 := Tx([], [], Saw2(ask, 1, 1))])
  {
    var s1 := Step(s, Begin(2));
    assert s1.open == map[2 := Tx([], [], NoIntent)];
    var s2 := Step(s1, SelectActivated(2, ask));
    assert s2.open == map[2 := Tx([], [], Saw1(ask, 1))];
  }

  lemma OneAppend(s: State, a: Act, x: Tx, y: Tx, e: Event)
    requires s.history != [] && s.open == map[2 := x, 3 := y] && y.intent.NoIntent?
    requires (a.AppendEnd? && a.t == 3 && e == Deactivated(a.key)) || (a.AppendKill? && a.t == 3 && e == KillOf(a.ask))
    ensures Step(s, a) == s.(open := map[2 := x, 3 := Tx(y.own + [e], y.seen + [|s.history| - 1], NoIntent)])
  {
    var s' := Step(s, a);
    assert s'.open[3] == Tx(y.own + [e], y.seen + [|s.history| - 1], NoIntent) && s'.open[2] == x;
    assert s'.open.Keys == {2, 3};
  }

  lemma ThirdCommits(s: State, x: Tx, y: Tx)
    requires s.history != [] && s.open == map[2 := x, 3 := y] && y.intent.NoIntent?
    ensures Step(s, Commit(3)) == State(s.history + [Committed(s) + y.own], map[2 := x])
  {
    assert Step(s, Commit(3)).open == map[2 := x];
  }

  lemma EndAndKill(s: State, key: int, ask: Ask, x: Tx)
    requires |s.history| == 2 && s.open == map[2 := x]
    ensures Step(Step(Step(Step(s, Begin(3)), AppendEnd(3, key)), AppendKill(3, ask)), Commit(3))
            == State(s.history + [s.history[1] + [Deactivated(key), KillOf(ask)]], map[2 := x])
  {
    var d, k, y := Deactivated(key), KillOf(ask), Tx([], [], NoIntent);
    var s1 := Step(s, Begin(3));
    assert s1 == s.(open := map[2 := x, 3 := y]);
    OneAppend(s1, AppendEnd(3, key), x, y, d);
    y := Tx(y.own + [d], y.seen + [|s.history| - 1], NoIntent);
    var s2 := s.(open := map[2 := x, 3 := y]);
    OneAppend(s2, AppendKill(3, ask), x, y, k);
    y := Tx(y.own + [k], y.seen + [|s.history| - 1], NoIntent);
    ThirdCommits(s.(open := map[2 := x, 3 := y]), x, y);
    assert y.own == [d, k];
  }

  lemma NeverOpen(s: State, f: Event, ask: Ask, scope: Scope)
    requires Freezes(f, scope) && ask.scope == scope
    requires s == State([[], [f], [f] + [Deactivated(f.key), KillOf(ask)]], map[2 := Tx([], [], Saw2(ask, 1, 1))])
    ensures Enabled(s, SelectEnded(2)) && !AnswersFrozen(s, 2)
    ensures forall h :: 1 <= h < |s.history| ==> IsFrozen(s.history[h] + [], scope)
  {
    var last := s.history[2];
    assert last[1] == Deactivated(f.key) && last[1] in last && last[2] == KillOf(ask) && last[2] in last;
    assert [f] + [] == [f] && last + [] == last && f in [f];
    assert f.key in Ended(last);
    assert Ended([f]) == {} && f.key in LiveKeys([f], scope);
    assert Killed(last, scope);
  }

  /** From the empty log: a freeze is ended and a kill switch thrown between the SELECTs of a check.  It
      answers open, although the scope was frozen in every log committed meanwhile. */
  lemma OpenAnswerNeverTrue(scope: Scope) returns (acts: seq<Act>)
    ensures var s := Run(acts);
            && Enabled(s, SelectEnded(2)) && !AnswersFrozen(s, 2) && s.open[2].intent.ask.scope == scope
            && !IsOfAMoment(s.history, s.open[2].own, s.open[2].intent.at1, scope, false)
  {
    var f, ask := FreezeOf(Ask0(scope, 1)), Ask0(scope, 2);
    acts := FrozenOnce(scope);
    TwoSelects(Run(acts), ask);
    RunThree(acts, Begin(2), SelectActivated(2, ask), SelectKills(2));
    acts := acts + [Begin(2)] + [SelectActivated(2, ask)] + [SelectKills(2)];
    EndAndKill(Run(acts), f.key, ask, Tx([], [], Saw2(ask, 1, 1)));
    RunThree(acts, Begin(3), AppendEnd(3, f.key), AppendKill(3, ask));
    acts := acts + [Begin(3)] + [AppendEnd(3, f.key)] + [AppendKill(3, ask)];
    RunStep(acts, Commit(3));
    acts := acts + [Commit(3)];
    NeverOpen(Run(acts), f, ask, scope);
  }
}
