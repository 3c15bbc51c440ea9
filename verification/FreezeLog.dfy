/** `FreezeRuntime` and the freeze gate of `GovernanceEngine`: freezes and kill switches kept only as
    events of an append-only log. */
module FreezeLog {
  import Policies

  datatype Scope = Global | Named(name: int)

  // Keys, reasons and actors are opaque.  `kill` is the `is_kill_switch` field of the payload.
  datatype Event = Activated(key: int, scope: Scope, reason: int, kill: bool, actor: int, at: int)
                 | Deactivated(key: int)
                 | KillSwitch(key: int, scope: Scope, reason: int, actor: int, at: int)
                 | Propagated(scope: Scope) | Audited(action: int) | Denied(action: int)

  datatype Spec = Spec(key: int, scope: Scope, reason: int, kill: bool, actor: int, at: int)

  datatype Op = Activate(key: int, scope: Scope, reason: int, actor: int, now: int) | Deactivate(key: int)
              | Kill(key: int, scope: Scope, reason: int, actor: int, now: int) | Check(scope: Scope)
              | Enforce(scope: Scope, action: int, evaluation: Policies.Evaluation)

  datatype Gate = Open | Frozen(scope: Scope)
  datatype Enforcement = Allowed(evaluation: Policies.Evaluation) | FrozenError(scope: Scope) | DeniedError | KeyError | TypeError

  // ---------------------------------------------------------------- reading the log

  ghost function Ended(log: seq<Event>): set<int> {
    set e | e in log && e.Deactivated? :: e.key
  }

  ghost predicate Killed(log: seq<Event>, scope: Scope) {
    exists e :: e in log && e.KillSwitch? && e.scope == scope
  }

  /** The freezes of a scope whose key occurs in no deactivation at all. */
  ghost function LiveKeys(log: seq<Event>, scope: Scope): set<int> {
    set e | e in log && e.Activated? && e.scope == scope && e.key !in Ended(log) :: e.key
  }

  ghost predicate IsFrozen(log: seq<Event>, scope: Scope) {
    Killed(log, scope) || LiveKeys(log, scope) != {}
  }

  /** What the documentation promises: a freeze is active unless a later deactivation ends it. */
  ghost function ActiveKeys(log: seq<Event>, scope: Scope): set<int> {
    if log == [] then {}
    else
      var before, e := ActiveKeys(log[..|log| - 1], scope), log[|log| - 1];
      if e.Activated? && e.scope == scope then before + {e.key}
      else if e.Deactivated? then before - {e.key}
      else before
  }

  ghost predicate FrozenInOrder(log: seq<Event>, scope: Scope) {
    Killed(log, scope) || ActiveKeys(log, scope) != {}
  }

  /** Event i is a freeze of the scope that no deactivation names. */
  ghost predicate LiveAt(log: seq<Event>, scope: Scope, i: int) {
    0 <= i < |log| && log[i].Activated? && log[i].scope == scope && log[i].key !in Ended(log)
  }

  ghost predicate IsLatestLive(log: seq<Event>, scope: Scope, i: int) {
    LiveAt(log, scope, i) && forall j :: i < j ==> !LiveAt(log, scope, j)
  }

  ghost function SpecOf(e: Event): Spec
    requires e.Activated?
  {
    Spec(e.key, e.scope, e.reason, e.kill, e.actor, e.at)
  }

  // ---------------------------------------------------------------- what each operation appends

  /** The scope whose freeze stops the caller: global first. */
  ghost function GateOf(log: seq<Event>, scope: Scope): Gate {
    if IsFrozen(log, Global) then Frozen(Global) else if IsFrozen(log, scope) then Frozen(scope) else Open
  }

  ghost function Appended(log: seq<Event>, op: Op): seq<Event> {
    match op
    case Activate(key, scope, reason, actor, now) =>
      if IsFrozen(log, scope) then [] else [Activated(key, scope, reason, false, actor, now)]
    case Deactivate(key) =>
      if exists e :: e in log && e.Activated? && e.key == key && e.kill then [] else [Deactivated(key)]
    case Kill(key, scope, reason, actor, now) => [KillSwitch(key, scope, reason, actor, now)]
    case Check(scope) => (match GateOf(log, scope) case Open => [] case Frozen(s) => [Propagated(s)])
    case Enforce(scope, action, e) =>
      match GateOf(log, scope)
      case Frozen(s) => [Propagated(s)]
      case Open => if e.Failed? || e.Crashed? then [] else if Forbids(e) then [Audited(action), Denied(action)] else [Audited(action)]
  }

  predicate Forbids(e: Policies.Evaluation) {
    e.Won? && e.winner.classification.Forbidden?
  }

  ghost function EnforcementOf(g: Gate, e: Policies.Evaluation): Enforcement {
    match g
    case Frozen(s) => FrozenError(s)
    case Open => if e.Failed? then KeyError else if e.Crashed? then TypeError else if Forbids(e) then DeniedError else Allowed(e)
  }

  ghost function LogAfter(ops: seq<Op>): seq<Event> {
    if ops == [] then []
    else
      var log := LogAfter(ops[..|ops| - 1]);
      log + Appended(log, ops[|ops| - 1])
  }

  class FreezeRuntime {
    var log: seq<Event>

    constructor ()
      ensures log == []
    {
      log := [];
    }

    method CheckFrozen(scope: Scope) returns (frozen: bool)
      ensures frozen <==> IsFrozen(log, scope)
    {
      var activated: map<int, Event> := map[];
      var deactivated: set<int> := {};
      for i := 0 to |log|
        invariant forall e :: e in log[..i] && e.KillSwitch? ==> e.scope != scope
      {
        if log[i].KillSwitch? && log[i].scope == scope {
          assert log[i] in log;
          return true;
        }
        assert log[..i + 1] == log[..i] + [log[i]];
      }
      assert log[..|log|] == log;
      for i := 0 to |log|
        invariant forall k :: k in activated <==> exists e :: e in log[..i] && e.Activated? && e.scope == scope && e.key == k
        invariant forall k :: k in deactivated <==> Deactivated(k) in log[..i]
      {
        assert log[..i + 1] == log[..i] + [log[i]];
        if log[i].Activated? && log[i].scope == scope {
          activated := activated[log[i].key := log[i]];
        }
        if log[i].Deactivated? {
          deactivated := deactivated + {log[i].key};
        }
      }
      frozen := exists k :: k in activated && k !in deactivated;
      FrozenByTables(log, scope, activated.Keys, deactivated);
    }

    /** `_get_spec`: the latest live freeze of the scope. */
    method GetSpec(scope: Scope) returns (spec: Spec, found: bool)
      ensures found <==> LiveKeys(log, scope) != {}
      ensures found ==> exists i :: IsLatestLive(log, scope, i) && spec == SpecOf(log[i])
    {
      var deactivated: set<int> := set e | e in log && e.Deactivated? :: e.key;
      var i := |log|;
      while i > 0
        invariant 0 <= i <= |log|
        invariant forall j :: i <= j < |log| ==> !LiveAt(log, scope, j)
      {
        i := i - 1;
        var e := log[i];
        if e.Activated? && e.scope == scope && e.key !in deactivated {
          assert LiveAt(log, scope, i) && e in log && e.key in LiveKeys(log, scope);
          assert IsLatestLive(log, scope, i);
          return Spec(e.key, scope, e.reason, e.kill, e.actor, e.at), true;
        }
      }
      forall k | k in LiveKeys(log, scope) ensures false {
        var e :| e in log && e.Activated? && e.scope == scope && e.key !in Ended(log) && e.key == k;
        var j :| 0 <= j < |log| && log[j] == e;
        assert LiveAt(log, scope, j);
      }
      spec, found := Spec(0, scope, 0, false, 0, 0), false;
    }

    method ActivateFreeze(key: int, scope: Scope, reason: int, actor: int, now: int) returns (spec: Spec, ghost fellBack: bool)
      modifies this
      ensures log == old(log) + Appended(old(log), Activate(key, scope, reason, actor, now))
      ensures fellBack <==> IsFrozen(old(log), scope) && LiveKeys(old(log), scope) == {}
      ensures fellBack ==> Killed(old(log), scope) && spec == Spec(key, scope, reason, true, actor, now)
      ensures !IsFrozen(old(log), scope) ==> spec == Spec(key, scope, reason, false, actor, now)
      ensures LiveKeys(old(log), scope) != {} ==> exists i :: IsLatestLive(old(log), scope, i) && spec == SpecOf(old(log)[i])
    {
      fellBack := false;
      var frozen := CheckFrozen(scope);
      if frozen {
        var found;
        spec, found := GetSpec(scope);
        if !found {
          fellBack := true;
          spec := Spec(key, scope, reason, true, actor, now);
        }
        return;
      }
      log := log + [Activated(key, scope, reason, false, actor, now)];
      spec := Spec(key, scope, reason, false, actor, now);
    }

    /** False stands for FreezeError. */
    method DeactivateFreeze(key: int) returns (ok: bool)
      modifies this
      ensures log == old(log) + Appended(old(log), Deactivate(key))
      ensures !ok <==> exists e :: e in old(log) && e.Activated? && e.key == key && e.kill
    {
      for i := 0 to |log|
        invariant forall e :: e in log[..i] && e.Activated? && e.key == key ==> !e.kill
      {
        if log[i].Activated? && log[i].key == key && log[i].kill {
          assert log[i] in log;
          return false;
        }
        assert log[..i + 1] == log[..i] + [log[i]];
      }
      assert log[..|log|] == log;
      log := log + [Deactivated(key)];
      ok := true;
    }

    method TriggerKillSwitch(key: int, scope: Scope, reason: int, actor: int, now: int) returns (spec: Spec)
      modifies this
      ensures log == old(log) + Appended(old(log), Kill(key, scope, reason, actor, now))
      ensures spec == Spec(key, scope, reason, true, actor, now)
    {
      log := log + [KillSwitch(key, scope, reason, actor, now)];
      spec := Spec(key, scope, reason, true, actor, now);
    }

    /** `check_freeze`. */
    method CheckFreeze(scope: Scope) returns (g: Gate)
      modifies this
      ensures g == GateOf(old(log), scope)
      ensures log == old(log) + Appended(old(log), Check(scope))
    {
      if scope != Global {
        var frozen := CheckFrozen(Global);
        if frozen {
          log := log + [Propagated(Global)];
          return Frozen(Global);
        }
      }
      var frozen := CheckFrozen(scope);
      if frozen {
        log := log + [Propagated(scope)];
        return Frozen(scope);
      }
      g := Open;
    }

    /** `enforce_action`: the freeze gate, then the evaluation of the active rows, then the audit record. */
    method EnforceAction(scope: Scope, action: int, rows: seq<Policies.Policy>, matches: int -> bool)
      returns (r: Enforcement, ghost e: Policies.Evaluation)
      modifies this
      ensures GateOf(old(log), scope).Open? ==> Policies.IsEvaluation(Policies.Rows, rows, matches, e)
      ensures log == old(log) + Appended(old(log), Enforce(scope, action, e))
      ensures r == EnforcementOf(GateOf(old(log), scope), e)
    {
      e := Policies.NoMatch;
      var g := CheckFreeze(scope);
      if g.Frozen? {
        return FrozenError(g.scope), e;
      }
      var evaluation := Policies.Evaluate(Policies.Rows, rows, matches);
      e := evaluation;
      if evaluation.Failed? {
        return KeyError, e;
      }
      if evaluation.Crashed? {
        return TypeError, e;
      }
      log := log + [Audited(action)];
      if evaluation.Won? && evaluation.winner.classification.Forbidden? {
        log := log + [Denied(action)];
        return DeniedError, e;
      }
      r := Allowed(evaluation);
    }
  }

  /** What an action meets when both scopes are open, in terms of the rows: TypeError, whatever the action
      is, exactly when some latest active policy inherits from an active key; otherwise it is denied
      exactly when some latest active policy that hits it forbids it and none of them is without a rank. */
  lemma EnforcedIff(log: seq<Event>, scope: Scope, action: int, rows: seq<Policies.Policy>, matches: int -> bool, e: Policies.Evaluation)
    requires Policies.Unique(rows) && Policies.IsEvaluation(Policies.Rows, rows, matches, e) && GateOf(log, scope).Open?
    ensures EnforcementOf(GateOf(log, scope), e).TypeError? <==> Policies.SomeHeir(rows)
    ensures var of := Policies.ByKey(rows).of;
            && (EnforcementOf(GateOf(log, scope), e).KeyError?
                <==> !Policies.SomeHeir(rows) && Policies.SomeHit(of, matches, Policies.RequiresApproval))
            && (EnforcementOf(GateOf(log, scope), e).DeniedError?
                <==> && !Policies.SomeHeir(rows) && Policies.SomeHit(of, matches, Policies.Forbidden)
                     && !Policies.SomeHit(of, matches, Policies.RequiresApproval))
    ensures Policies.SomeHeir(rows) ==> Appended(log, Enforce(scope, action, e)) == []
  {
    Policies.HeirsInherit(rows);
    if !Policies.SomeHeir(rows) {
      Policies.ChoiceIsVerdict(rows, matches, e);
      Policies.MostRestrictiveWins(Policies.ByKey(rows).of, matches, Policies.VerdictOf(e));
    }
  }

  lemma EmptyLogIsOpen(scope: Scope)
    ensures GateOf([], scope) == Open
  {
    assert LiveKeys([], Global) == {} && LiveKeys([], scope) == {};
  }

  /** From the empty tables: two policies are created, one inheriting from the other.  Every action on
      every scope then raises TypeError and leaves no audit record, even if the first one forbids them all. */
  lemma HeirStopsEnforcement(d: Policies.Draft, heir: Policies.Draft, scope: Scope, action: int, matches: int -> bool, e: Policies.Evaluation)
    requires heir.inheritedFrom == Policies.Some(1)
    requires Policies.IsEvaluation(Policies.Rows, Policies.AfterAll([Policies.Create(1, d), Policies.Create(2, heir)]), matches, e)
    ensures EnforcementOf(GateOf([], scope), e) == TypeError && Appended([], Enforce(scope, action, e)) == []
  {
    EmptyLogIsOpen(scope);
    Policies.HeirIsReachable(d, heir, matches, e);
  }

  lemma FrozenByTables(log: seq<Event>, scope: Scope, activated: set<int>, deactivated: set<int>)
    requires !Killed(log, scope)
    requires forall k :: k in activated <==> exists e :: e in log && e.Activated? && e.scope == scope && e.key == k
    requires forall k :: k in deactivated <==> Deactivated(k) in log
    ensures IsFrozen(log, scope) <==> exists k :: k in activated && k !in deactivated
  {
    forall k ensures k in deactivated <==> k in Ended(log) {
      if k in deactivated { assert Deactivated(k) in log && Deactivated(k).Deactivated?; }
    }
    forall k ensures k in LiveKeys(log, scope) <==> k in activated && k !in deactivated {}
  }

  // ---------------------------------------------------------------- one more event

  lemma OneMore(log: seq<Event>, e: Event, scope: Scope)
    ensures var l := log + [e];
            && Ended(l) == Ended(log) + (if e.Deactivated? then {e.key} else {})
            && (Killed(l, scope) <==> Killed(log, scope) || (e.KillSwitch? && e.scope == scope))
            && LiveKeys(l, scope) == (if e.Activated? && e.scope == scope && e.key !in Ended(log) then LiveKeys(log, scope) + {e.key}
                                      else if e.Deactivated? then LiveKeys(log, scope) - {e.key} else LiveKeys(log, scope))
            && ActiveKeys(l, scope) == (if e.Activated? && e.scope == scope then ActiveKeys(log, scope) + {e.key}
                                        else if e.Deactivated? then ActiveKeys(log, scope) - {e.key} else ActiveKeys(log, scope))
  {
    var l := log + [e];
    assert l[..|log|] == log;
    EndedMore(log, e);
    if Killed(log, scope) {
      var x :| x in log && x.KillSwitch? && x.scope == scope;
      assert x in l;
    }
    if e.KillSwitch? { assert e in l; }
    LiveMore(log, e, scope);
  }

  lemma EndedMore(log: seq<Event>, e: Event)
    ensures Ended(log + [e]) == Ended(log) + if e.Deactivated? then {e.key} else {}
  {
    assert forall x :: x in log + [e] <==> x in log || x == e;
  }

  lemma LiveMore(log: seq<Event>, e: Event, scope: Scope)
    ensures LiveKeys(log + [e], scope)
            == if e.Activated? && e.scope == scope && e.key !in Ended(log) then LiveKeys(log, scope) + {e.key}
               else if e.Deactivated? then LiveKeys(log, scope) - {e.key} else LiveKeys(log, scope)
  {
    EndedMore(log, e);
    assert forall x :: x in log + [e] <==> x in log || x == e;
  }

  lemma LogStep(ops: seq<Op>, op: Op)
    ensures LogAfter(ops + [op]) == LogAfter(ops) + Appended(LogAfter(ops), op)
  {
    assert (ops + [op])[..|ops|] == ops;
  }

  /** What an operation does to the freezes, whatever else it appends. */
  lemma Effect(log: seq<Event>, op: Op, scope: Scope)
    ensures var l := log + Appended(log, op);
            if op.Activate? && !IsFrozen(log, op.scope) then
              var e := Activated(op.key, op.scope, op.reason, false, op.actor, op.now); l == log + [e]
            else if op.Deactivate? && Appended(log, op) != [] then l == log + [Deactivated(op.key)]
            else if op.Kill? then l == log + [KillSwitch(op.key, op.scope, op.reason, op.actor, op.now)]
            else && Ended(l) == Ended(log) && (Killed(l, scope) <==> Killed(log, scope))
                 && LiveKeys(l, scope) == LiveKeys(log, scope) && ActiveKeys(l, scope) == ActiveKeys(log, scope)
  {
    var app := Appended(log, op);
    if |app| == 0 {
      assert log + app == log;
    } else if op.Check? || op.Enforce? {
      OneMore(log, app[0], scope);
      if |app| == 1 {
        assert log + app == log + [app[0]];
      } else {
        OneMore(log + [app[0]], app[1], scope);
        assert log + app == log + [app[0]] + [app[1]];
      }
    }
  }

  // ---------------------------------------------------------------- over every run

  lemma LastStep(init: seq<Op>, op: Op, scope: Scope)
    ensures var was, now := LiveKeys(LogAfter(init), scope), LiveKeys(LogAfter(init + [op]), scope);
            now <= was || (was == {} && op.Activate? && now <= {op.key})
  {
    var log := LogAfter(init);
    LogStep(init, op);
    Effect(log, op, scope);
    if |Appended(log, op)| == 1 {
      OneMore(log, Appended(log, op)[0], scope);
      assert log + Appended(log, op) == log + [Appended(log, op)[0]];
    }
  }

  /** While operations do not overlap, a scope has at most one live freeze key.  (FreezeRaces says when
      that is so if they do.) */
  lemma {:induction false} AtMostOneLive(ops: seq<Op>, scope: Scope, j: int, k: int)
    requires j in LiveKeys(LogAfter(ops), scope) && k in LiveKeys(LogAfter(ops), scope)
    ensures j == k
    decreases |ops|
  {
    var init, op := ops[..|ops| - 1], ops[|ops| - 1];
    assert ops == init + [op];
    LastStep(init, op, scope);
    if j in LiveKeys(LogAfter(init), scope) && k in LiveKeys(LogAfter(init), scope) {
      AtMostOneLive(init, scope, j, k);
    }
  }

  lemma NoMarkAppended(log: seq<Event>, op: Op)
    ensures forall e :: e in Appended(log, op) && e.Activated? ==> !e.kill
  {
  }

  lemma {:induction false} NoMarkInLog(ops: seq<Op>)
    ensures forall e :: e in LogAfter(ops) && e.Activated? ==> !e.kill
    decreases |ops|
  {
    if ops != [] {
      var init, op := ops[..|ops| - 1], ops[|ops| - 1];
      NoMarkInLog(init);
      NoMarkAppended(LogAfter(init), op);
      assert ops == init + [op];
      LogStep(init, op);
    }
  }

  /** Kill switches are events of their own, so no reachable log holds a freeze that `deactivate`
      refuses to end: it never raises. */
  lemma DeactivateNeverRaises(ops: seq<Op>, key: int)
    ensures forall e :: e in LogAfter(ops) && e.Activated? ==> !e.kill
    ensures Appended(LogAfter(ops), Deactivate(key)) == [Deactivated(key)]
  {
    NoMarkInLog(ops);
  }

  lemma {:induction false} LogGrows(ops: seq<Op>, more: seq<Op>)
    ensures LogAfter(ops) <= LogAfter(ops + more)
    decreases |more|
  {
    if more == [] {
      assert ops + more == ops;
    } else {
      var n := |more| - 1;
      LogGrows(ops, more[..n]);
      assert ops + more == (ops + more[..n]) + [more[n]];
      LogStep(ops + more[..n], more[n]);
    }
  }

  /** Once a kill switch is recorded, no operation ever opens its scope again, or any scope if it is
      the global one. */
  lemma KillIsForever(ops: seq<Op>, more: seq<Op>, killed: Scope, scope: Scope)
    requires Killed(LogAfter(ops), killed) && (killed == Global || killed == scope)
    ensures GateOf(LogAfter(ops + more), scope) != Open
  {
    LogGrows(ops, more);
    var e :| e in LogAfter(ops) && e.KillSwitch? && e.scope == killed;
    assert e in LogAfter(ops + more);
  }

  /** Activating a freeze on an open scope freezes it exactly when the key was never deactivated
      before, although the caller gets a spec either way. */
  lemma ActivationTakesEffectIff(log: seq<Event>, key: int, scope: Scope, reason: int, actor: int, now: int)
    requires !IsFrozen(log, scope)
    ensures IsFrozen(log + Appended(log, Activate(key, scope, reason, actor, now)), scope) <==> key !in Ended(log)
  {
    OneMore(log, Activated(key, scope, reason, false, actor, now), scope);
  }

  // ---------------------------------------------------------------- the documented order of events

  /** Operation n appends an activation of a key that was deactivated before. */
  ghost predicate ReusesKey(ops: seq<Op>, n: nat)
    requires n < |ops|
  {
    var log := LogAfter(ops[..n]);
    ops[n].Activate? && !IsFrozen(log, ops[n].scope) && ops[n].key in Ended(log)
  }

  ghost predicate Agrees(log: seq<Event>) {
    forall scope :: IsFrozen(log, scope) <==> FrozenInOrder(log, scope)
  }

  lemma {:induction false} OrderAgreesWithoutReuse(ops: seq<Op>, scope: Scope)
    requires forall n :: 0 <= n < |ops| ==> !ReusesKey(ops, n)
    ensures ActiveKeys(LogAfter(ops), scope) == LiveKeys(LogAfter(ops), scope)
    ensures ActiveKeys(LogAfter(ops), scope) !! Ended(LogAfter(ops))
    decreases |ops|
  {
    if ops != [] {
      var init, op := ops[..|ops| - 1], ops[|ops| - 1];
      var log := LogAfter(init);
      assert ops == init + [op];
      assert !ReusesKey(ops, |ops| - 1);
      forall n | 0 <= n < |init| ensures !ReusesKey(init, n) {
        assert init[..n] == ops[..n] && !ReusesKey(ops, n);
      }
      OrderAgreesWithoutReuse(init, scope);
      LogStep(init, op);
      Effect(log, op, scope);
      if |Appended(log, op)| == 1 {
        OneMore(log, Appended(log, op)[0], scope);
        assert log + Appended(log, op) == log + [Appended(log, op)[0]];
      }
    }
  }

  lemma ReuseDisagrees(ops: seq<Op>, n: nat)
    requires n < |ops| && ReusesKey(ops, n)
    ensures !Agrees(LogAfter(ops[..n + 1]))
  {
    var log, op := LogAfter(ops[..n]), ops[n];
    var e := Activated(op.key, op.scope, op.reason, false, op.actor, op.now);
    assert ops[..n + 1] == ops[..n] + [op];
    LogStep(ops[..n], op);
    OneMore(log, e, op.scope);
    assert op.key in ActiveKeys(log + [e], op.scope);
    assert FrozenInOrder(log + [e], op.scope) && !IsFrozen(log + [e], op.scope);
  }

  /** From the empty log: a freeze, its end, and the same key again.  The scope is frozen by the
      documentation and open by `is_frozen`. */
  lemma ReuseIsReachable(key: int, scope: Scope)
    ensures var ops := [Activate(key, scope, 0, 0, 0), Deactivate(key), Activate(key, scope, 0, 0, 0)];
            ReusesKey(ops, 2) && !Agrees(LogAfter(ops))
  {
    var a, d := Activate(key, scope, 0, 0, 0), Deactivate(key);
    var ops, two := [a, d, a], [a, d];
    FreezeAndEnd(key, scope);
    ClosedFreeze(Activated(key, scope, 0, false, 0, 0), scope);
    assert ops[..2] == two && ops[..3] == ops;
    ReuseDisagrees(ops, 2);
  }

  lemma FreezeAndEnd(key: int, scope: Scope)
    ensures LogAfter([Activate(key, scope, 0, 0, 0), Deactivate(key)])
            == [Activated(key, scope, 0, false, 0, 0), Deactivated(key)]
  {
    var a, d := Activate(key, scope, 0, 0, 0), Deactivate(key);
    assert LiveKeys([], scope) == {} && !IsFrozen([], scope);
    LogStep([], a);
    assert [] + [a] == [a];
    LogStep([a], d);
    assert [a] + [d] == [a, d];
  }

  lemma ClosedFreeze(e: Event, scope: Scope)
    requires e.Activated?
    ensures e.key in Ended([e, Deactivated(e.key)]) && !IsFrozen([e, Deactivated(e.key)], scope)
  {
    var log := [e, Deactivated(e.key)];
    assert log[1] in log && log[1].Deactivated?;
  }

  /** `is_frozen` gives the documented answer throughout a run exactly when no freeze key is activated
      again after being deactivated. */
  lemma AgreesIffNoReuse(ops: seq<Op>)
    ensures (forall m :: 0 <= m <= |ops| ==> Agrees(LogAfter(ops[..m])))
            <==> (forall n :: 0 <= n < |ops| ==> !ReusesKey(ops, n))
  {
    if forall n :: 0 <= n < |ops| ==> !ReusesKey(ops, n) {
      forall m | 0 <= m <= |ops| ensures Agrees(LogAfter(ops[..m])) {
        forall n | 0 <= n < m ensures !ReusesKey(ops[..m], n) {
          assert ops[..m][..n] == ops[..n] && !ReusesKey(ops, n);
        }
        forall scope ensures IsFrozen(LogAfter(ops[..m]), scope) <==> FrozenInOrder(LogAfter(ops[..m]), scope) {
          OrderAgreesWithoutReuse(ops[..m], scope);
        }
      }
    } else {
      var n :| 0 <= n < |ops| && ReusesKey(ops, n);
      ReuseDisagrees(ops, n);
      assert !Agrees(LogAfter(ops[..n + 1]));
    }
  }

  /** Even then it errs on one side only: what it calls frozen is frozen. */
  lemma {:induction false} FrozenIsFrozenInOrder(log: seq<Event>, scope: Scope)
    ensures LiveKeys(log, scope) <= ActiveKeys(log, scope)
    ensures IsFrozen(log, scope) ==> FrozenInOrder(log, scope)
    decreases |log|
  {
    if log != [] {
      var init, e := log[..|log| - 1], log[|log| - 1];
      assert log == init + [e];
      FrozenIsFrozenInOrder(init, scope);
      OneMore(init, e, scope);
    }
  }
}
