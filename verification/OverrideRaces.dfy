/** Emergency overrides under READ COMMITTED: `apply` looks for its key in the log without a lock, and
    then locks the approval. */
module OverrideRaces {
  import opened Approvals

  // `seen`: how many events were committed when the key was looked for.
  datatype Use = Use(approval: nat, key: int, seen: nat)
  datatype Intent = NoIntent | Intends(key: int, seen: nat)
  datatype Tx = Tx(own: seq<Use>, intent: Intent)
  datatype State = State(db: Db, open: map<int, Tx>)

  // Statements of the open transactions; `Elsewhere` is any other writer of approvals, in one step.
  datatype Act =
      Begin(t: int)
    | LookForKey(t: int, key: int)
    | ApplyTo(t: int, approval: nat)
    | Commit(t: int)
    | Rollback(t: int)
    | Elsewhere(op: Op)

  const START := State(EMPTY, map[])

  predicate Uses(e: Event, key: int) {
    e.Overridden? && e.key == key
  }

  predicate KeyInOwn(own: seq<Use>, key: int) {
    exists p :: 0 <= p < |own| && own[p].key == key
  }

  predicate Holds(tx: Tx, a: nat) {
    exists p :: 0 <= p < |tx.own| && tx.own[p].approval == a
  }

  ghost predicate Locked(s: State, a: nat) {
    exists t :: t in s.open && Holds(s.open[t], a)
  }

  predicate Reaches(op: Op, a: nat) {
    match op
    case Resolve(x, _, _, _) => x == a
    case Escalate(x) => x == a
    case Expire(x, _) => x == a
    case ChainEscalate(x) => x == a
    case AiResolve(x, _) => x == a
    case RollbackReject(x, _, _) => x == a
    case _ => false
  }

  /** A writer waits for the row of an approval that another transaction has changed. */
  ghost predicate Enabled(s: State, a: Act) {
    match a
    case Begin(t) => t !in s.open
    case LookForKey(t, _) => t in s.open && s.open[t].intent.NoIntent?
    case ApplyTo(t, x) =>
      && t in s.open && s.open[t].intent.Intends?
      && forall u :: u in s.open && u != t ==> !Holds(s.open[u], x)
    case Commit(t) => t in s.open && s.open[t].intent.NoIntent?
    case Rollback(t) => t in s.open
    case Elsewhere(op) => !op.Override? && forall x: nat :: Reaches(op, x) ==> !Locked(s, x)
  }

  function Written(db: Db, own: seq<Use>): Db {
    if own == [] then db
    else
      var before, u := Written(db, own[..|own| - 1]), own[|own| - 1];
      if u.approval < |before.approvals| then Settle(before, u.approval, Approved, Overridden(u.approval, u.key)) else before
  }

  ghost function Step(s: State, a: Act): State {
    if !Enabled(s, a) then s
    else match a
      case Begin(t) => s.(open := s.open[t := Tx([], NoIntent)])
      case LookForKey(t, key) =>
        if KeyUsed(s.db.events, key) || KeyInOwn(s.open[t].own, key) then s
        else s.(open := s.open[t := s.open[t].(intent := Intends(key, |s.db.events|))])
      case ApplyTo(t, x) =>
        var tx := s.open[t];
        if x >= |s.db.approvals| || Holds(tx, x) || !Open(s.db.approvals[x]) then s.(open := s.open[t := tx.(intent := NoIntent)])
        else s.(open := s.open[t := Tx(tx.own + [Use(x, tx.intent.key, tx.intent.seen)], NoIntent)])
      case Commit(t) => State(Written(s.db, s.open[t].own), s.open - {t})
      case Rollback(t) => s.(open := s.open - {t})
      case Elsewhere(op) => s.(db := After(s.db, op))
  }

  ghost function Run(acts: seq<Act>): State {
    if acts == [] then START else Step(Run(acts[..|acts| - 1]), acts[|acts| - 1])
  }

  // ---------------------------------------------------------------- what holds in every run

  ghost predicate KeyFree(events: seq<Event>, own: seq<Use>, key: int, seen: nat) {
    seen <= |events| && !KeyUsed(events[..seen], key) && !KeyInOwn(own, key)
  }

  /** A transaction's uses: of different keys that were free when looked for, on different approvals
      that are still open. */
  ghost predicate TxInv(db: Db, tx: Tx) {
    && (forall p :: 0 <= p < |tx.own| ==> KeyFree(db.events, tx.own[..p], tx.own[p].key, tx.own[p].seen))
    && (forall p, q :: 0 <= p < q < |tx.own| ==> tx.own[p].approval != tx.own[q].approval)
    && (forall p :: 0 <= p < |tx.own| ==> tx.own[p].approval < |db.approvals| && Open(db.approvals[tx.own[p].approval]))
    && (tx.intent.Intends? ==> KeyFree(db.events, tx.own, tx.intent.key, tx.intent.seen))
  }

  ghost predicate Apart(s: State) {
    forall t, u, a: nat :: t in s.open && u in s.open && t != u && Holds(s.open[t], a) ==> !Holds(s.open[u], a)
  }

  ghost predicate OverridesSettled(db: Db) {
    forall i :: 0 <= i < |db.events| && db.events[i].Overridden? ==> Settled(db, db.events[i].approval)
  }

  ghost predicate OncePerApproval(db: Db) {
    forall i, j :: 0 <= i < j < |db.events| && db.events[i].Overridden? && db.events[j].Overridden? ==>
      db.events[i].approval != db.events[j].approval
  }

  ghost predicate Inv(s: State) {
    && (forall t :: t in s.open ==> TxInv(s.db, s.open[t]))
    && Apart(s) && OverridesSettled(s.db) && OncePerApproval(s.db)
  }

  /** More events, and the approvals of the transaction untouched. */
  ghost predicate Beyond(db: Db, db': Db, tx: Tx) {
    && db.events <= db'.events && |db.approvals| <= |db'.approvals|
    && forall p :: 0 <= p < |tx.own| && tx.own[p].approval < |db.approvals| ==>
         db'.approvals[tx.own[p].approval] == db.approvals[tx.own[p].approval]
  }

  lemma KeyFreeStays(events: seq<Event>, events': seq<Event>, own: seq<Use>, key: int, seen: nat)
    requires KeyFree(events, own, key, seen) && events <= events'
    ensures KeyFree(events', own, key, seen)
  {
    assert events'[..seen] == events[..seen];
  }

  lemma TxInvStays(db: Db, db': Db, tx: Tx)
    requires TxInv(db, tx) && Beyond(db, db', tx)
    ensures TxInv(db', tx)
  {
    forall p | 0 <= p < |tx.own| ensures KeyFree(db'.events, tx.own[..p], tx.own[p].key, tx.own[p].seen) {
      KeyFreeStays(db.events, db'.events, tx.own[..p], tx.own[p].key, tx.own[p].seen);
    }
    if tx.intent.Intends? {
      KeyFreeStays(db.events, db'.events, tx.own, tx.intent.key, tx.intent.seen);
    }
  }

  lemma OwnGrows(db: Db, tx: Tx, x: nat)
    requires TxInv(db, tx) && tx.intent.Intends? && x < |db.approvals| && Open(db.approvals[x]) && !Holds(tx, x)
    ensures TxInv(db, Tx(tx.own + [Use(x, tx.intent.key, tx.intent.seen)], NoIntent))
  {
    var own := tx.own + [Use(x, tx.intent.key, tx.intent.seen)];
    forall p | 0 <= p < |own| ensures KeyFree(db.events, own[..p], own[p].key, own[p].seen) {
      if p < |tx.own| {
        assert own[..p] == tx.own[..p] && KeyFree(db.events, tx.own[..p], tx.own[p].key, tx.own[p].seen);
      } else {
        assert own[..p] == tx.own;
      }
    }
  }

  ghost predicate InTable(db: Db, own: seq<Use>) {
    forall p :: 0 <= p < |own| ==> own[p].approval < |db.approvals|
  }

  /** What a commit writes to the log: one event for each use. */
  lemma {:induction false} WrittenEvents(db: Db, own: seq<Use>)
    requires InTable(db, own)
    ensures |Written(db, own).approvals| == |db.approvals| && |Written(db, own).events| == |db.events| + |own|
    decreases |own|
  {
    if own != [] {
      WrittenEvents(db, own[..|own| - 1]);
    }
  }

  lemma {:induction false} WrittenEvent(db: Db, own: seq<Use>, i: nat)
    requires InTable(db, own) && i < |db.events| + |own|
    ensures |Written(db, own).events| == |db.events| + |own|
    ensures Written(db, own).events[i]
            == if i < |db.events| then db.events[i] else Overridden(own[i - |db.events|].approval, own[i - |db.events|].key)
    decreases |own|
  {
    WrittenEvents(db, own);
    if own != [] {
      var n := |own| - 1;
      WrittenEvents(db, own[..n]);
      if i < |db.events| + n {
        WrittenEvent(db, own[..n], i);
      }
    }
  }

  lemma WrittenLog(db: Db, own: seq<Use>)
    requires InTable(db, own)
    ensures db.events <= Written(db, own).events
  {
    WrittenEvents(db, own);
    forall i: nat | i < |db.events| ensures Written(db, own).events[i] == db.events[i] {
      WrittenEvent(db, own, i);
    }
  }

  /** And to the table: the approvals of the uses, and no other. */
  lemma {:induction false} WrittenApproval(db: Db, own: seq<Use>, a: nat)
    requires InTable(db, own) && a < |db.approvals|
    ensures a < |Written(db, own).approvals|
    ensures Written(db, own).approvals[a]
            == if Holds(Tx(own, NoIntent), a) then db.approvals[a].(status := Approved) else db.approvals[a]
    decreases |own|
  {
    if own != [] {
      var n := |own| - 1;
      WrittenApproval(db, own[..n], a);
      WrittenEvents(db, own[..n]);
      HoldsMore(Tx(own[..n], NoIntent), own[n]);
      assert own[..n] + [own[n]] == own;
    }
  }

  lemma WrittenIsSettled(db: Db, own: seq<Use>, i: nat)
    requires InTable(db, own) && OverridesSettled(db) && i < |db.events| + |own|
    ensures |Written(db, own).events| == |db.events| + |own|
    ensures Written(db, own).events[i].Overridden? ==> Settled(Written(db, own), Written(db, own).events[i].approval)
  {
    WrittenEvent(db, own, i);
    WrittenEvents(db, own);
    if i < |db.events| {
      if db.events[i].Overridden? {
        assert Settled(db, db.events[i].approval);
        WrittenApproval(db, own, db.events[i].approval);
      }
    } else {
      var u := own[i - |db.events|];
      assert Holds(Tx(own, NoIntent), u.approval);
      WrittenApproval(db, own, u.approval);
    }
  }

  lemma WrittenDiffers(db: Db, tx: Tx, i: nat, j: nat)
    requires TxInv(db, tx) && OverridesSettled(db) && OncePerApproval(db) && i < j < |db.events| + |tx.own|
    ensures |Written(db, tx.own).events| == |db.events| + |tx.own|
    ensures var w := Written(db, tx.own);
            w.events[i].Overridden? && w.events[j].Overridden? ==> w.events[i].approval != w.events[j].approval
  {
    WrittenEvent(db, tx.own, i);
    WrittenEvent(db, tx.own, j);
    if i < |db.events| <= j && db.events[i].Overridden? {
      assert Settled(db, db.events[i].approval);
      assert Open(db.approvals[tx.own[j - |db.events|].approval]);
    }
  }

  lemma CommitKeepsOnce(db: Db, tx: Tx)
    requires TxInv(db, tx) && OverridesSettled(db) && OncePerApproval(db)
    ensures OverridesSettled(Written(db, tx.own)) && OncePerApproval(Written(db, tx.own))
  {
    var w := Written(db, tx.own);
    WrittenEvents(db, tx.own);
    forall i | 0 <= i < |w.events| && w.events[i].Overridden? ensures Settled(w, w.events[i].approval) {
      WrittenIsSettled(db, tx.own, i);
    }
    forall i, j | 0 <= i < j < |w.events| && w.events[i].Overridden? && w.events[j].Overridden?
      ensures w.events[i].approval != w.events[j].approval
    {
      WrittenDiffers(db, tx, i, j);
    }
  }

  lemma CommitKeepsOthers(s: State, t: int, u: int)
    requires Inv(s) && Enabled(s, Commit(t)) && u in s.open && u != t
    ensures TxInv(Written(s.db, s.open[t].own), s.open[u])
  {
    var own, tx := s.open[t].own, s.open[u];
    var w := Written(s.db, own);
    WrittenEvents(s.db, own);
    WrittenLog(s.db, own);
    forall p | 0 <= p < |tx.own| && tx.own[p].approval < |s.db.approvals|
      ensures w.approvals[tx.own[p].approval] == s.db.approvals[tx.own[p].approval]
    {
      assert Holds(tx, tx.own[p].approval);
      assert !Holds(s.open[t], tx.own[p].approval);
      assert !Holds(Tx(own, NoIntent), tx.own[p].approval);
      WrittenApproval(s.db, own, tx.own[p].approval);
    }
    TxInvStays(s.db, w, tx);
  }

  /** Another writer leaves the other approvals alone, opens none that is settled, and overrides none. */
  lemma ElsewhereMeaning(db: Db, op: Op)
    requires !op.Override?
    ensures var d := After(db, op);
            && db.events <= d.events && |db.approvals| <= |d.approvals|
            && (forall i :: |db.events| <= i < |d.events| ==> !d.events[i].Overridden?)
            && (forall a: nat :: a < |db.approvals| && !Reaches(op, a) ==> d.approvals[a] == db.approvals[a])
            && (forall a: nat :: Settled(db, a) ==> Settled(d, a))
  {
    forall a: nat | Settled(db, a) ensures Settled(After(db, op), a) {
      StaysSettled(db, op, a);
    }
  }

  lemma ElsewhereKeepsInv(s: State, op: Op)
    requires Inv(s) && Enabled(s, Elsewhere(op))
    ensures Inv(Step(s, Elsewhere(op)))
  {
    var d := After(s.db, op);
    ElsewhereMeaning(s.db, op);
    forall t | t in s.open ensures TxInv(d, s.open[t]) {
      var tx := s.open[t];
      forall p | 0 <= p < |tx.own| && tx.own[p].approval < |s.db.approvals|
        ensures d.approvals[tx.own[p].approval] == s.db.approvals[tx.own[p].approval]
      {
        assert Holds(tx, tx.own[p].approval);
        assert Locked(s, tx.own[p].approval);
      }
      TxInvStays(s.db, d, tx);
    }
    forall i | 0 <= i < |d.events| && d.events[i].Overridden? ensures i < |s.db.events| && d.events[i] == s.db.events[i] {}
  }

  lemma LookKeepsInv(s: State, t: int, key: int)
    requires Inv(s) && Enabled(s, LookForKey(t, key))
    ensures Inv(Step(s, LookForKey(t, key)))
  {
    var s' := Step(s, LookForKey(t, key));
    assert s.db.events[..|s.db.events|] == s.db.events;
    assert forall u, a: nat :: u in s'.open ==> (Holds(s'.open[u], a) <==> Holds(s.open[u], a));
    assert TxInv(s.db, s.open[t]);
  }

  lemma ApplyKeepsInv(s: State, t: int, x: nat)
    requires Inv(s) && Enabled(s, ApplyTo(t, x))
    ensures Inv(Step(s, ApplyTo(t, x)))
  {
    var s' := Step(s, ApplyTo(t, x));
    var tx := s.open[t];
    assert TxInv(s.db, tx);
    if x < |s.db.approvals| && !Holds(tx, x) && Open(s.db.approvals[x]) {
      OwnGrows(s.db, tx, x);
      HoldsMore(tx, Use(x, tx.intent.key, tx.intent.seen));
    } else {
      assert forall a: nat :: Holds(s'.open[t], a) <==> Holds(tx, a);
    }
  }

  lemma HoldsMore(tx: Tx, u: Use)
    ensures forall a: nat :: Holds(Tx(tx.own + [u], NoIntent), a) <==> Holds(tx, a) || u.approval == a
  {
    var more := Tx(tx.own + [u], NoIntent);
    forall a: nat ensures Holds(more, a) <==> Holds(tx, a) || u.approval == a {
      if Holds(tx, a) {
        var p :| 0 <= p < |tx.own| && tx.own[p].approval == a;
        assert more.own[p].approval == a;
      }
      assert more.own[|tx.own|] == u;
    }
  }

  lemma StepKeepsInv(s: State, a: Act)
    requires Inv(s)
    ensures Inv(Step(s, a))
  {
    if Enabled(s, a) {
      match a
      case Begin(t) =>
      case LookForKey(t, key) => LookKeepsInv(s, t, key);
      case ApplyTo(t, x) => ApplyKeepsInv(s, t, x);
      case Commit(t) =>
        CommitKeepsOnce(s.db, s.open[t]);
        forall u | u in s.open && u != t ensures TxInv(Written(s.db, s.open[t].own), s.open[u]) { CommitKeepsOthers(s, t, u); }
      case Rollback(t) =>
      case Elsewhere(op) => ElsewhereKeepsInv(s, op);
    }
  }

  lemma {:induction false} RunKeepsInv(acts: seq<Act>)
    ensures Inv(Run(acts))
    decreases |acts|
  {
    if acts != [] {
      RunKeepsInv(acts[..|acts| - 1]);
      StepKeepsInv(Run(acts[..|acts| - 1]), acts[|acts| - 1]);
    }
  }

  /** Whatever overlaps, the row lock lets each approval be overridden once at most. */
  lemma ApprovalIsOverriddenOnce(acts: seq<Act>)
    ensures OncePerApproval(Run(acts).db)
  {
    RunKeepsInv(acts);
  }

  // ---------------------------------------------------------------- when a key is used twice

  ghost predicate OnceOnly(events: seq<Event>, key: int) {
    forall i, j :: 0 <= i < j < |events| && Uses(events[i], key) ==> !Uses(events[j], key)
  }

  /** The key was used by a commit after use p looked for it. */
  ghost predicate Overtaken(s: State, t: int, key: int, p: int, i: int)
    requires t in s.open
  {
    var own := s.open[t].own;
    && 0 <= p < |own| && own[p].key == key
    && own[p].seen <= i < |s.db.events| && Uses(s.db.events[i], key)
  }

  ghost predicate Races(s: State, a: Act, key: int) {
    a.Commit? && Enabled(s, a) && exists p, i :: Overtaken(s, a.t, key, p, i)
  }

  lemma RaceUsesTwice(s: State, a: Act, key: int)
    requires Inv(s) && Races(s, a, key)
    ensures !OnceOnly(Step(s, a).db.events, key)
  {
    var p, i :| Overtaken(s, a.t, key, p, i);
    var own, n := s.open[a.t].own, |s.db.events|;
    assert TxInv(s.db, s.open[a.t]);
    WrittenEvent(s.db, own, i);
    WrittenEvent(s.db, own, n + p);
    assert Uses(Written(s.db, own).events[i], key) && Uses(Written(s.db, own).events[n + p], key);
  }

  lemma FreeBefore(events: seq<Event>, own: seq<Use>, key: int, seen: nat, i: nat)
    requires KeyFree(events, own, key, seen) && i < seen
    ensures !Uses(events[i], key)
  {
    assert events[..seen][i] in events[..seen];
  }

  lemma FreeOwn(own: seq<Use>, q: nat, i: nat, key: int)
    requires i < q < |own| && !KeyInOwn(own[..q], key)
    ensures own[i].key != key
  {
    assert own[..q][i] == own[i];
  }

  /** Without a race, a key that a transaction uses was used neither before nor twice in it. */
  lemma NoRaceNoRepeat(s: State, t: int, key: int, q: nat)
    requires Inv(s) && Enabled(s, Commit(t)) && !Races(s, Commit(t), key) && q < |s.open[t].own| && s.open[t].own[q].key == key
    ensures forall i :: 0 <= i < |s.db.events| ==> !Uses(s.db.events[i], key)
    ensures forall i :: 0 <= i < q ==> s.open[t].own[i].key != key
  {
    var own := s.open[t].own;
    assert KeyFree(s.db.events, own[..q], own[q].key, own[q].seen);
    forall i | 0 <= i < |s.db.events| ensures !Uses(s.db.events[i], key) {
      assert !Overtaken(s, t, key, q, i);
      if i < own[q].seen {
        FreeBefore(s.db.events, own[..q], key, own[q].seen, i);
      }
    }
    forall i | 0 <= i < q ensures own[i].key != key {
      FreeOwn(own, q, i, key);
    }
  }

  lemma NoRaceUsesOnce(s: State, t: int, key: int)
    requires Inv(s) && Enabled(s, Commit(t)) && !Races(s, Commit(t), key) && OnceOnly(s.db.events, key)
    ensures OnceOnly(Written(s.db, s.open[t].own).events, key)
  {
    var own, n := s.open[t].own, |s.db.events|;
    assert TxInv(s.db, s.open[t]);
    var events := Written(s.db, own).events;
    WrittenEvents(s.db, own);
    forall i, j | 0 <= i < j < |events| && Uses(events[i], key) ensures !Uses(events[j], key) {
      WrittenEvent(s.db, own, i);
      WrittenEvent(s.db, own, j);
      if j >= n && own[j - n].key == key {
        NoRaceNoRepeat(s, t, key, j - n);
      }
    }
  }

  lemma OnceIffNoRace(s: State, a: Act, key: int)
    requires Inv(s) && OnceOnly(s.db.events, key)
    ensures OnceOnly(Step(s, a).db.events, key) <==> !Races(s, a, key)
  {
    if Races(s, a, key) {
      RaceUsesTwice(s, a, key);
    } else if a.Commit? && Enabled(s, a) {
      NoRaceUsesOnce(s, a.t, key);
    } else if a.Elsewhere? && Enabled(s, a) {
      ElsewhereMeaning(s.db, a.op);
    }
  }

  lemma RaceStays(s: State, a: Act, key: int)
    requires Inv(s) && !OnceOnly(s.db.events, key)
    ensures !OnceOnly(Step(s, a).db.events, key)
  {
    var i, j :| 0 <= i < j < |s.db.events| && Uses(s.db.events[i], key) && Uses(s.db.events[j], key);
    if Enabled(s, a) && a.Commit? {
      assert TxInv(s.db, s.open[a.t]);
      WrittenLog(s.db, s.open[a.t].own);
    } else if Enabled(s, a) && a.Elsewhere? {
      ElsewhereMeaning(s.db, a.op);
    }
    var events := Step(s, a).db.events;
    assert s.db.events <= events;
    assert events[i] == s.db.events[i] && events[j] == s.db.events[j];
  }

  ghost predicate RaceFree(acts: seq<Act>, key: int)
    decreases |acts|
  {
    acts == [] || (RaceFree(acts[..|acts| - 1], key) && !Races(Run(acts[..|acts| - 1]), acts[|acts| - 1], key))
  }

  /** Over every interleaving of overrides and all other writers: a key is used once at most exactly
      when no use of it is committed between the look for the key and the commit of another use. */
  lemma {:induction false} KeyIsUsedOnceIffRaceFree(acts: seq<Act>, key: int)
    ensures OnceOnly(Run(acts).db.events, key) <==> RaceFree(acts, key)
    decreases |acts|
  {
    if acts != [] {
      var init, a := acts[..|acts| - 1], acts[|acts| - 1];
      KeyIsUsedOnceIffRaceFree(init, key);
      RunKeepsInv(init);
      if OnceOnly(Run(init).db.events, key) {
        OnceIffNoRace(Run(init), a, key);
      } else {
        RaceStays(Run(init), a, key);
      }
    }
  }

  // ---------------------------------------------------------------- two sessions and one key

  lemma RunStep(acts: seq<Act>, a: Act)
    ensures Run(acts + [a]) == Step(Run(acts), a)
  {
    assert (acts + [a])[..|acts|] == acts;
  }

  function Asked(w: int): Approval {
    Approval(w, 0, Pending, None)
  }

  /** Two workflows that wait for one approval each. */
  lemma TwoWait() returns (acts: seq<Act>, db: Db)
    ensures Run(acts) == State(db, map[])
    ensures db.approvals == [Asked(1), Asked(2)] && forall i :: 0 <= i < |db.events| ==> !db.events[i].Overridden?
  {
    acts := [];
    var ops := [StartWorkflow(1, None), StartWorkflow(2, None), AiRequest(1, 0), AiRequest(2, 0)];
    db := EMPTY;
    for n := 0 to |ops|
      invariant Run(acts) == State(db, map[])
      invariant forall i :: 0 <= i < |db.events| ==> !db.events[i].Overridden?
      invariant n <= 2 ==> db.approvals == []
      invariant n >= 1 ==> 1 in db.workflows
      invariant n >= 2 ==> 2 in db.workflows
      invariant n == 0 ==> db == EMPTY
      invariant n == 1 ==> 2 !in db.workflows
      invariant n == 3 ==> db.approvals == [Asked(1)]
      invariant n == 4 ==> db.approvals == [Asked(1), Asked(2)]
    {
      RunStep(acts, Elsewhere(ops[n]));
      acts := acts + [Elsewhere(ops[n])];
      db := After(db, ops[n]);
    }
  }

  ghost function BothOpen(db: Db, own1: seq<Use>, i1: Intent, own2: seq<Use>, i2: Intent): State {
    State(db, map[1 := Tx(own1, i1), 2 := Tx(own2, i2)])
  }

  lemma BothLook(db: Db, key: int)
    requires forall i :: 0 <= i < |db.events| ==> !db.events[i].Overridden?
    ensures var s := Step(Step(State(db, map[]), Begin(1)), Begin(2));
            Step(Step(s, LookForKey(1, key)), LookForKey(2, key))
            == BothOpen(db, [], Intends(key, |db.events|), [], Intends(key, |db.events|))
  {
    assert !KeyUsed(db.events, key);
    var s := Step(Step(State(db, map[]), Begin(1)), Begin(2));
    assert s == BothOpen(db, [], NoIntent, [], NoIntent);
    var s1 := Step(s, LookForKey(1, key));
    assert s1 == BothOpen(db, [], Intends(key, |db.events|), [], NoIntent);
  }

  lemma BothApply(db: Db, key: int)
    requires db.approvals == [Asked(1), Asked(2)]
    ensures var n := |db.events|;
            Step(Step(BothOpen(db, [], Intends(key, n), [], Intends(key, n)), ApplyTo(1, 0)), ApplyTo(2, 1))
            == BothOpen(db, [Use(0, key, n)], NoIntent, [Use(1, key, n)], NoIntent)
  {
    var n := |db.events|;
    var s := BothOpen(db, [], Intends(key, n), [], Intends(key, n));
    var s1 := Step(s, ApplyTo(1, 0));
    assert [] + [Use(0, key, n)] == [Use(0, key, n)];
    assert s1 == BothOpen(db, [Use(0, key, n)], NoIntent, [], Intends(key, n));
    assert !Holds(s1.open[1], 1);
    assert [] + [Use(1, key, n)] == [Use(1, key, n)];
  }

  lemma SecondCommitRaces(db: Db, key: int)
    requires db.approvals == [Asked(1), Asked(2)]
    ensures var s := BothOpen(db, [Use(0, key, |db.events|)], NoIntent, [Use(1, key, |db.events|)], NoIntent);
            Races(Step(s, Commit(1)), Commit(2), key)
  {
    var n, own := |db.events|, [Use(0, key, |db.events|)];
    var s1 := Step(BothOpen(db, own, NoIntent, [Use(1, key, n)], NoIntent), Commit(1));
    WrittenEvent(db, own, n);
    assert s1.open[2] == Tx([Use(1, key, n)], NoIntent);
    assert s1.db.events[n] == Overridden(0, key);
    assert Overtaken(s1, 2, key, 0, n);
  }

  lemma RunTwo(acts: seq<Act>, a: Act, b: Act)
    ensures Run(acts + [a] + [b]) == Step(Step(Run(acts), a), b)
  {
    RunStep(acts, a);
    RunStep(acts + [a], b);
  }

  /** From the empty tables, two transactions apply one override key to two approvals. */
  lemma TwoSessionsUseOneKey(key: int) returns (acts: seq<Act>)
    ensures !RaceFree(acts, key) && !OnceOnly(Run(acts).db.events, key)
  {
    var db: Db;
    acts, db := TwoWait();
    BothLook(db, key);
    BothApply(db, key);
    SecondCommitRaces(db, key);
    RunTwo(acts, Begin(1), Begin(2));
    acts := acts + [Begin(1)] + [Begin(2)];
    RunTwo(acts, LookForKey(1, key), LookForKey(2, key));
    acts := acts + [LookForKey(1, key)] + [LookForKey(2, key)];
    RunTwo(acts, ApplyTo(1, 0), ApplyTo(2, 1));
    acts := acts + [ApplyTo(1, 0)] + [ApplyTo(2, 1)];
    RunStep(acts, Commit(1));
    acts := acts + [Commit(1)];
    assert Races(Run(acts), Commit(2), key);
    assert (acts + [Commit(2)])[..|acts|] == acts;
    acts := acts + [Commit(2)];
    KeyIsUsedOnceIffRaceFree(acts, key);
  }
}
