/** Governance policies: the versions of a key, and the evaluation of an action against the active
    ones, where the most restrictive match wins. */
module Policies {

  datatype Option<T> = None | Some(value: T)

  datatype Classification = Safe | Restricted | Privileged | Forbidden | RequiresApproval
  datatype Status = Active | Inactive | Superseded | Archived

  // Keys and patterns are opaque; an empty `inherited_from` is None.  `chain` is the length of the
  // escalation chain; `terms` stands for routing, approvers, risk tier and rules.
  datatype Policy = Policy(key: int, version: int, status: Status, classification: Classification,
                           patterns: seq<int>, inheritedFrom: Option<int>, chain: nat, terms: int)

  // What the evaluator is given: rows of the table, or the snapshots it was written for.
  datatype Form = Rows | Snapshots

  // A Python dict with its insertion order.
  datatype Table = Table(keys: seq<int>, of: map<int, Policy>)

  // KeyError (Failed): the rank table has no entry for `requires_approval`.  TypeError (Crashed):
  // `dataclasses.replace` does not take a row, and a step of a snapshot's chain cannot be subscripted.
  datatype Verdict = Classified(c: Classification) | KeyError | TypeError
  datatype Evaluation = NoMatch | Won(winner: Policy) | Failed | Crashed

  // ---------------------------------------------------------------- evaluation

  function Rank(c: Classification): int {
    match c
    case Safe => 0
    case Restricted => 1
    case Privileged => 2
    case Forbidden => 3
    case RequiresApproval => -1
  }

  predicate Matches(p: Policy, matches: int -> bool) {
    exists i :: 0 <= i < |p.patterns| && matches(p.patterns[i])
  }

  function Upsert(t: Table, p: Policy): Table {
    if p.key !in t.of then Table(t.keys + [p.key], t.of[p.key := p])
    else if p.version > t.of[p.key].version then Table(t.keys, t.of[p.key := p])
    else t
  }

  /** The latest active version of each key, in order of first appearance. */
  function ByKey(ps: seq<Policy>): Table {
    if ps == [] then Table([], map[])
    else
      var t, p := ByKey(ps[..|ps| - 1]), ps[|ps| - 1];
      if p.status.Active? then Upsert(t, p) else t
  }

  /** A policy without patterns of its own takes those of its parent. */
  function Resolved(of: map<int, Policy>, p: Policy): Policy {
    if p.inheritedFrom.Some? && p.inheritedFrom.value in of && p.patterns == []
    then p.(patterns := of[p.inheritedFrom.value].patterns) else p
  }

  function Matching(t: Table, matches: int -> bool, n: nat): seq<Policy>
    requires IsDict(t) && n <= |t.keys|
  {
    if n == 0 then []
    else
      var p := Resolved(t.of, t.of[t.keys[n - 1]]);
      Matching(t, matches, n - 1) + if Matches(p, matches) then [p] else []
  }

  ghost predicate HasUnranked(ms: seq<Policy>) {
    exists p :: p in ms && p.classification.RequiresApproval?
  }

  /** The first policy of the highest rank. */
  ghost predicate IsWinner(ms: seq<Policy>, p: Policy) {
    exists i :: && 0 <= i < |ms| && ms[i] == p
                && (forall j :: 0 <= j < |ms| ==> Rank(ms[j].classification) <= Rank(p.classification))
                && (forall j :: 0 <= j < i ==> Rank(ms[j].classification) < Rank(p.classification))
  }

  /** Resolution, match and maximum, which are the same for both forms. */
  ghost predicate IsChoice(ps: seq<Policy>, matches: int -> bool, r: Evaluation) {
    TableIsDict(ps);
    var t := ByKey(ps);
    var ms := Matching(t, matches, |t.keys|);
    if ms == [] then r == NoMatch
    else if HasUnranked(ms) then r == Failed
    else r.Won? && IsWinner(ms, r.winner)
  }

  function VerdictOf(r: Evaluation): Verdict {
    match r
    case NoMatch => Classified(Safe)
    case Won(p) => Classified(p.classification)
    case Failed => KeyError
    case Crashed => TypeError
  }

  /** Some policy of the table inherits from a key of the table. */
  ghost predicate Inherits(of: map<int, Policy>) {
    exists k :: k in of && Names(of, of[k])
  }

  predicate Names(of: map<int, Policy>, p: Policy) {
    p.inheritedFrom.Some? && p.inheritedFrom.value in of
  }

  /** What `evaluate` does with a list. */
  ghost predicate IsEvaluation(form: Form, ps: seq<Policy>, matches: int -> bool, r: Evaluation) {
    if form.Rows? && Inherits(ByKey(ps).of) then r == Crashed
    else if r.Crashed? then form.Snapshots? && exists w :: IsChoice(ps, matches, Won(w)) && w.chain > 0
    else IsChoice(ps, matches, r) && (form.Snapshots? && r.Won? ==> r.winner.chain == 0)
  }

  /** What `classify_action` does with a list: no chain is looked at. */
  ghost predicate IsClassification(form: Form, ps: seq<Policy>, matches: int -> bool, v: Verdict) {
    if form.Rows? && Inherits(ByKey(ps).of) then v == TypeError
    else exists r :: IsChoice(ps, matches, r) && v == VerdictOf(r)
  }

  ghost predicate IsDict(t: Table) {
    && (forall i, j :: 0 <= i < j < |t.keys| ==> t.keys[i] != t.keys[j])
    && (forall i :: 0 <= i < |t.keys| ==> t.keys[i] in t.of)
    && (forall k :: k in t.of ==> k in t.keys)
    && (forall k :: k in t.of ==> t.of[k].key == k)
  }

  lemma UpsertKeepsDict(t: Table, p: Policy)
    requires IsDict(t)
    ensures IsDict(Upsert(t, p))
  {
  }

  lemma {:induction false} TableIsDict(ps: seq<Policy>)
    ensures IsDict(ByKey(ps))
    decreases |ps|
  {
    if ps != [] {
      TableIsDict(ps[..|ps| - 1]);
      UpsertKeepsDict(ByKey(ps[..|ps| - 1]), ps[|ps| - 1]);
    }
  }

  /** `_resolve_inheritance` of the active policies, and the match: what both evaluations share. */
  method FindMatching(form: Form, ps: seq<Policy>, matches: int -> bool) returns (ms: seq<Policy>, crashed: bool)
    ensures crashed <==> form.Rows? && Inherits(ByKey(ps).of)
    ensures !crashed ==> IsDict(ByKey(ps)) && ms == Matching(ByKey(ps), matches, |ByKey(ps).keys|)
  {
    var keys: seq<int>, of: map<int, Policy> := [], map[];
    for n := 0 to |ps|
      invariant Table(keys, of) == ByKey(ps[..n])
    {
      assert ps[..n + 1] == ps[..n] + [ps[n]];
      var p := ps[n];
      if p.status.Active? {
        if p.key !in of {
          keys, of := keys + [p.key], of[p.key := p];
        } else if p.version > of[p.key].version {
          of := of[p.key := p];
        }
      }
    }
    assert ps[..|ps|] == ps;
    TableIsDict(ps);
    ms := [];
    for n := 0 to |keys|
      invariant ms == Matching(Table(keys, of), matches, n)
      invariant form.Rows? ==> forall j :: 0 <= j < n ==> !Names(of, of[keys[j]])
    {
      var p := of[keys[n]];
      if p.inheritedFrom.Some? && p.inheritedFrom.value in of {
        if form.Rows? {
          return [], true;
        }
        if p.patterns == [] {
          p := p.(patterns := of[p.inheritedFrom.value].patterns);
        }
      }
      if Matches(p, matches) {
        ms := ms + [p];
      }
    }
    crashed := false;
  }

  method Evaluate(form: Form, ps: seq<Policy>, matches: int -> bool) returns (r: Evaluation)
    ensures IsEvaluation(form, ps, matches, r)
  {
    var ms, crashed := FindMatching(form, ps, matches);
    if crashed {
      return Crashed;
    }
    if ms == [] {
      return NoMatch;
    }
    var best := 0;
    for n := 0 to |ms|
      invariant 0 <= best < |ms|
      invariant forall j :: 0 <= j < n ==> !ms[j].classification.RequiresApproval? && Rank(ms[j].classification) <= Rank(ms[best].classification)
      invariant forall j :: 0 <= j < best ==> Rank(ms[j].classification) < Rank(ms[best].classification)
      invariant best <= n
    {
      if ms[n].classification.RequiresApproval? {
        assert ms[n] in ms;
        return Failed;
      }
      if Rank(ms[n].classification) > Rank(ms[best].classification) {
        best := n;
      }
    }
    assert IsChoice(ps, matches, Won(ms[best]));
    if form.Snapshots? && ms[best].chain > 0 {
      return Crashed;
    }
    r := Won(ms[best]);
  }

  /** `classify_action`: the maximum over the classifications alone. */
  method ClassifyAction(form: Form, ps: seq<Policy>, matches: int -> bool) returns (v: Verdict)
    ensures IsClassification(form, ps, matches, v)
  {
    var ms, crashed := FindMatching(form, ps, matches);
    if crashed {
      return TypeError;
    }
    if ms == [] {
      assert IsChoice(ps, matches, NoMatch);
      return Classified(Safe);
    }
    ghost var at := 0;
    var best := ms[0].classification;
    for n := 0 to |ms|
      invariant 0 <= at < |ms| && ms[at].classification == best && at <= n
      invariant forall j :: 0 <= j < n ==> !ms[j].classification.RequiresApproval? && Rank(ms[j].classification) <= Rank(best)
      invariant forall j :: 0 <= j < at ==> Rank(ms[j].classification) < Rank(best)
    {
      if ms[n].classification.RequiresApproval? {
        assert ms[n] in ms;
        assert IsChoice(ps, matches, Failed);
        return KeyError;
      }
      if Rank(ms[n].classification) > Rank(best) {
        best, at := ms[n].classification, n;
      }
    }
    assert IsWinner(ms, ms[at]);
    assert IsChoice(ps, matches, Won(ms[at]));
    v := Classified(best);
  }

  // ---------------------------------------------------------------- what the list's order can change

  /** No two active policies with the same key and version, as the table's constraint has it. */
  ghost predicate Unique(ps: seq<Policy>) {
    forall p, q :: p in ps && q in ps && p.status.Active? && q.status.Active? && p.key == q.key && p.version == q.version ==> p == q
  }

  ghost predicate IsLatest(ps: seq<Policy>, p: Policy) {
    p in ps && p.status.Active? && forall q :: q in ps && q.status.Active? && q.key == p.key ==> q.version <= p.version
  }

  ghost predicate IsTableOf(ps: seq<Policy>, of: map<int, Policy>) {
    && (forall p :: p in ps && p.status.Active? ==> p.key in of)
    && (forall k :: k in of ==> of[k].key == k && IsLatest(ps, of[k]))
  }

  lemma {:induction false} TableMeaning(ps: seq<Policy>)
    ensures IsTableOf(ps, ByKey(ps).of)
    decreases |ps|
  {
    if ps != [] {
      var init, p := ps[..|ps| - 1], ps[|ps| - 1];
      assert ps == init + [p];
      TableMeaning(init);
      var of := ByKey(ps).of;
      forall k | k in of ensures of[k].key == k && IsLatest(ps, of[k]) {
        if k in ByKey(init).of {
          assert IsLatest(init, ByKey(init).of[k]);
        }
      }
    }
  }

  ghost predicate SameElements(ps: seq<Policy>, qs: seq<Policy>) {
    forall p :: p in ps <==> p in qs
  }

  lemma TablesAgree(ps: seq<Policy>, a: map<int, Policy>, qs: seq<Policy>, b: map<int, Policy>)
    requires IsTableOf(ps, a) && IsTableOf(qs, b) && Unique(ps) && SameElements(ps, qs)
    ensures a == b
  {
    forall k ensures k in a <==> k in b {
      if k in a { assert IsLatest(ps, a[k]); }
      if k in b { assert IsLatest(qs, b[k]); }
    }
    forall k | k in a ensures a[k] == b[k] {
      assert IsLatest(ps, a[k]) && IsLatest(qs, b[k]);
    }
  }

  lemma TableIsOrderFree(ps: seq<Policy>, qs: seq<Policy>)
    requires Unique(ps) && SameElements(ps, qs)
    ensures ByKey(ps).of == ByKey(qs).of
  {
    TableMeaning(ps);
    TableMeaning(qs);
    TablesAgree(ps, ByKey(ps).of, qs, ByKey(qs).of);
  }

  ghost predicate Hit(of: map<int, Policy>, matches: int -> bool, k: int) {
    k in of && Matches(Resolved(of, of[k]), matches)
  }

  /** The verdict in terms of the latest versions alone: the most restrictive hit, or safe. */
  ghost predicate IsVerdict(of: map<int, Policy>, matches: int -> bool, v: Verdict) {
    match v
    case TypeError => false
    case KeyError => exists k :: Hit(of, matches, k) && of[k].classification.RequiresApproval?
    case Classified(c) =>
      && (forall k :: Hit(of, matches, k) ==> !of[k].classification.RequiresApproval? && Rank(of[k].classification) <= Rank(c))
      && ((c == Safe && forall k :: !Hit(of, matches, k)) || exists k :: Hit(of, matches, k) && of[k].classification == c)
  }

  lemma {:induction false} MatchingMeaning(t: Table, matches: int -> bool, n: nat)
    requires IsDict(t) && n <= |t.keys|
    ensures forall p :: p in Matching(t, matches, n) <==>
              exists i :: 0 <= i < n && Hit(t.of, matches, t.keys[i]) && p == Resolved(t.of, t.of[t.keys[i]])
  {
    if n > 0 {
      MatchingMeaning(t, matches, n - 1);
      assert t.keys[n - 1] in t.keys;
      forall p ensures p in Matching(t, matches, n) <==>
              exists i :: 0 <= i < n && Hit(t.of, matches, t.keys[i]) && p == Resolved(t.of, t.of[t.keys[i]])
      {
        if p in Matching(t, matches, n) && p !in Matching(t, matches, n - 1) {
          assert Hit(t.of, matches, t.keys[n - 1]) && p == Resolved(t.of, t.of[t.keys[n - 1]]);
        }
      }
    }
  }

  lemma HitIsMatching(t: Table, matches: int -> bool, k: int)
    requires IsDict(t) && Hit(t.of, matches, k)
    ensures Resolved(t.of, t.of[k]) in Matching(t, matches, |t.keys|)
  {
    MatchingMeaning(t, matches, |t.keys|);
    var i :| 0 <= i < |t.keys| && t.keys[i] == k;
    assert Hit(t.of, matches, t.keys[i]);
  }

  lemma MatchingIsHit(t: Table, matches: int -> bool, p: Policy) returns (k: int)
    requires IsDict(t) && p in Matching(t, matches, |t.keys|)
    ensures Hit(t.of, matches, k) && p == Resolved(t.of, t.of[k])
  {
    MatchingMeaning(t, matches, |t.keys|);
    var i :| 0 <= i < |t.keys| && Hit(t.of, matches, t.keys[i]) && p == Resolved(t.of, t.of[t.keys[i]]);
    k := t.keys[i];
  }

  lemma ChoiceIsVerdict(ps: seq<Policy>, matches: int -> bool, r: Evaluation)
    requires IsChoice(ps, matches, r)
    ensures IsVerdict(ByKey(ps).of, matches, VerdictOf(r))
  {
    TableIsDict(ps);
    var t := ByKey(ps);
    var ms := Matching(t, matches, |t.keys|);
    forall k | Hit(t.of, matches, k) ensures Resolved(t.of, t.of[k]) in ms {
      HitIsMatching(t, matches, k);
    }
    if HasUnranked(ms) {
      var p :| p in ms && p.classification.RequiresApproval?;
      var k := MatchingIsHit(t, matches, p);
    } else if ms != [] {
      assert r.winner in ms;
      var k := MatchingIsHit(t, matches, r.winner);
      forall k | Hit(t.of, matches, k)
        ensures !t.of[k].classification.RequiresApproval? && Rank(t.of[k].classification) <= Rank(r.winner.classification)
      {
        var p := Resolved(t.of, t.of[k]);
        var j :| 0 <= j < |ms| && ms[j] == p;
      }
    }
  }

  /** `evaluate` and `classify_action`, when they do not raise TypeError, both give this verdict. */
  lemma EvaluationIsVerdict(form: Form, ps: seq<Policy>, matches: int -> bool, r: Evaluation, v: Verdict)
    requires IsEvaluation(form, ps, matches, r) && IsClassification(form, ps, matches, v)
    ensures !r.Crashed? ==> IsVerdict(ByKey(ps).of, matches, VerdictOf(r)) && v == VerdictOf(r)
    ensures !v.TypeError? ==> IsVerdict(ByKey(ps).of, matches, v)
  {
    if !(form.Rows? && Inherits(ByKey(ps).of)) {
      var c :| IsChoice(ps, matches, c) && v == VerdictOf(c);
      ChoiceIsVerdict(ps, matches, c);
      if !r.Crashed? {
        ChoiceIsVerdict(ps, matches, r);
        VerdictIsUnique(ByKey(ps).of, matches, v, VerdictOf(r));
      }
    }
  }

  /** A latest active policy of the list inherits from a key that is active in the list. */
  ghost predicate SomeHeir(ps: seq<Policy>) {
    exists p, q :: IsLatest(ps, p) && q in ps && q.status.Active? && p.inheritedFrom == Some(q.key)
  }

  lemma HeirsInherit(ps: seq<Policy>)
    requires Unique(ps)
    ensures SomeHeir(ps) <==> Inherits(ByKey(ps).of)
  {
    if p, q :| IsLatest(ps, p) && q in ps && q.status.Active? && p.inheritedFrom == Some(q.key) {
      TableMeaning(ps);
      LatestIsInTable(ps, ps, p);
      assert Names(ByKey(ps).of, ByKey(ps).of[p.key]);
    }
    if k :| k in ByKey(ps).of && Names(ByKey(ps).of, ByKey(ps).of[k]) {
      TableEntry(ps, k);
      TableEntry(ps, ByKey(ps).of[k].inheritedFrom.value);
    }
  }

  lemma TableEntry(ps: seq<Policy>, k: int)
    requires k in ByKey(ps).of
    ensures IsLatest(ps, ByKey(ps).of[k]) && ByKey(ps).of[k].key == k
  {
    TableMeaning(ps);
  }

  /** Given rows, `evaluate` and `classify_action` raise TypeError for every action alike, exactly when
      some latest active policy inherits from an active key. */
  lemma RowsCrashIffSomeHeir(ps: seq<Policy>, matches: int -> bool, r: Evaluation, v: Verdict)
    requires Unique(ps) && IsEvaluation(Rows, ps, matches, r) && IsClassification(Rows, ps, matches, v)
    ensures r.Crashed? <==> SomeHeir(ps)
    ensures v.TypeError? <==> SomeHeir(ps)
  {
    HeirsInherit(ps);
  }

  /** Given snapshots, only `evaluate` raises it, exactly when there is a winner and it has a chain. */
  lemma SnapshotsCrashIffChain(ps: seq<Policy>, matches: int -> bool, r: Evaluation, v: Verdict)
    requires IsEvaluation(Snapshots, ps, matches, r) && IsClassification(Snapshots, ps, matches, v)
    ensures r.Crashed? <==> exists w :: IsChoice(ps, matches, Won(w)) && w.chain > 0
    ensures !v.TypeError?
  {
    if !r.Crashed? {
      forall w | IsChoice(ps, matches, Won(w)) ensures w.chain == 0 {
        ChoiceIsUnique(ps, matches, r, Won(w));
      }
    }
  }

  lemma ChoiceIsUnique(ps: seq<Policy>, matches: int -> bool, r: Evaluation, s: Evaluation)
    requires IsChoice(ps, matches, r) && IsChoice(ps, matches, s)
    ensures r == s
  {
    TableIsDict(ps);
    var ms := Matching(ByKey(ps), matches, |ByKey(ps).keys|);
    if ms != [] && !HasUnranked(ms) {
      WinnerIsUnique(ms, r.winner, s.winner);
    }
  }

  lemma WinnerIsUnique(ms: seq<Policy>, p: Policy, q: Policy)
    requires IsWinner(ms, p) && IsWinner(ms, q)
    ensures p == q
  {
  }

  lemma VerdictIsUnique(of: map<int, Policy>, matches: int -> bool, v: Verdict, w: Verdict)
    requires IsVerdict(of, matches, v) && IsVerdict(of, matches, w)
    ensures v == w
  {
  }

  ghost predicate SomeHit(of: map<int, Policy>, matches: int -> bool, c: Classification) {
    exists k :: Hit(of, matches, k) && of[k].classification == c
  }

  /** What the ranks amount to: forbidden beats privileged beats restricted beats safe, and a hit that
      has no rank is an error. */
  lemma MostRestrictiveWins(of: map<int, Policy>, matches: int -> bool, v: Verdict)
    requires IsVerdict(of, matches, v)
    ensures v == if SomeHit(of, matches, RequiresApproval) then KeyError
                 else if SomeHit(of, matches, Forbidden) then Classified(Forbidden)
                 else if SomeHit(of, matches, Privileged) then Classified(Privileged)
                 else if SomeHit(of, matches, Restricted) then Classified(Restricted)
                 else Classified(Safe)
  {
    if v.Classified? && !(forall k :: !Hit(of, matches, k)) {
      assert v.c == Safe || SomeHit(of, matches, v.c);
    }
  }

  lemma ChoicesAgree(ps: seq<Policy>, qs: seq<Policy>, matches: int -> bool, r: Evaluation, s: Evaluation)
    requires Unique(ps) && SameElements(ps, qs)
    requires IsChoice(ps, matches, r) && IsChoice(qs, matches, s)
    ensures VerdictOf(r) == VerdictOf(s)
  {
    TableIsOrderFree(ps, qs);
    ChoiceIsVerdict(ps, matches, r);
    ChoiceIsVerdict(qs, matches, s);
    VerdictIsUnique(ByKey(ps).of, matches, VerdictOf(r), VerdictOf(s));
  }

  /** What `classify_action` answers, an error included, does not depend on the order in which the
      policies are listed, rows or snapshots. */
  lemma ClassificationIsOrderFree(form: Form, ps: seq<Policy>, qs: seq<Policy>, matches: int -> bool, v: Verdict, w: Verdict)
    requires Unique(ps) && SameElements(ps, qs)
    requires IsClassification(form, ps, matches, v) && IsClassification(form, qs, matches, w)
    ensures v == w
  {
    TableIsOrderFree(ps, qs);
    if !(form.Rows? && Inherits(ByKey(ps).of)) {
      var r :| IsChoice(ps, matches, r) && v == VerdictOf(r);
      var s :| IsChoice(qs, matches, s) && w == VerdictOf(s);
      ChoicesAgree(ps, qs, matches, r, s);
    }
  }

  /** The same for `evaluate` on rows, and on snapshots where it answers at all. */
  lemma VerdictIsOrderFree(form: Form, ps: seq<Policy>, qs: seq<Policy>, matches: int -> bool, r: Evaluation, s: Evaluation)
    requires Unique(ps) && SameElements(ps, qs)
    requires IsEvaluation(form, ps, matches, r) && IsEvaluation(form, qs, matches, s)
    requires form.Rows? || (!r.Crashed? && !s.Crashed?)
    ensures VerdictOf(r) == VerdictOf(s)
  {
    TableIsOrderFree(ps, qs);
    if !r.Crashed? && !s.Crashed? {
      ChoicesAgree(ps, qs, matches, r, s);
    }
  }

  /** How restrictive a verdict is; an error lets nothing through, and a TypeError nothing at all. */
  ghost function Strictness(v: Verdict): int {
    if v.TypeError? then 5 else if v.KeyError? then 4 else Rank(v.c)
  }

  /** The list qs is ps with one more active policy, under a key of its own. */
  ghost predicate Extends(ps: seq<Policy>, qs: seq<Policy>, p: Policy) {
    && Unique(qs) && p.status.Active? && (forall q :: q in ps ==> q.key != p.key)
    && forall q :: q in qs <==> q in ps || q == p
  }

  lemma TableGrows(ps: seq<Policy>, a: map<int, Policy>, qs: seq<Policy>, b: map<int, Policy>, p: Policy)
    requires Extends(ps, qs, p) && IsTableOf(ps, a) && IsTableOf(qs, b)
    ensures p.key !in a && b == a[p.key := p]
  {
    forall k | k in a ensures k != p.key {
      assert IsLatest(ps, a[k]);
    }
    assert p in qs;
    forall k ensures k in b <==> k in a || k == p.key {
      if k in a { assert IsLatest(ps, a[k]); }
      if k in b { assert IsLatest(qs, b[k]); }
    }
    forall k | k in b ensures b[k] == if k == p.key then p else a[k] {
      assert IsLatest(qs, b[k]);
      if k != p.key { assert IsLatest(ps, a[k]); }
    }
  }

  lemma HitsStay(of: map<int, Policy>, p: Policy, matches: int -> bool, k: int)
    requires Hit(of, matches, k) && p.key !in of
    ensures Hit(of[p.key := p], matches, k)
  {
    var r, r' := Resolved(of, of[k]), Resolved(of[p.key := p], of[k]);
    if of[k].patterns == [] {
      assert r.patterns != [];
    }
    assert r'.patterns == r.patterns;
  }

  lemma VerdictGrows(of: map<int, Policy>, p: Policy, matches: int -> bool, v: Verdict, w: Verdict)
    requires p.key !in of && IsVerdict(of, matches, v) && IsVerdict(of[p.key := p], matches, w)
    ensures Strictness(v) <= Strictness(w)
  {
    forall k | Hit(of, matches, k) ensures Hit(of[p.key := p], matches, k) && of[p.key := p][k] == of[k] {
      HitsStay(of, p, matches, k);
    }
  }

  lemma ChoiceGrows(ps: seq<Policy>, qs: seq<Policy>, p: Policy, matches: int -> bool, r: Evaluation, s: Evaluation)
    requires Extends(ps, qs, p) && IsChoice(ps, matches, r) && IsChoice(qs, matches, s)
    ensures Strictness(VerdictOf(r)) <= Strictness(VerdictOf(s))
  {
    ListGrows(ps, qs, p);
    ChoiceIsVerdict(ps, matches, r);
    ChoiceIsVerdict(qs, matches, s);
    VerdictGrows(ByKey(ps).of, p, matches, VerdictOf(r), VerdictOf(s));
  }

  lemma ListGrows(ps: seq<Policy>, qs: seq<Policy>, p: Policy)
    requires Extends(ps, qs, p)
    ensures p.key !in ByKey(ps).of && ByKey(qs).of == ByKey(ps).of[p.key := p]
  {
    TableMeaning(ps);
    TableMeaning(qs);
    TableGrows(ps, ByKey(ps).of, qs, ByKey(qs).of, p);
  }

  lemma InheritsGrows(of: map<int, Policy>, p: Policy)
    requires p.key !in of
    ensures Inherits(of[p.key := p])
            <==> Inherits(of) || Names(of[p.key := p], p) || exists k :: k in of && of[k].inheritedFrom == Some(p.key)
  {
    var of' := of[p.key := p];
    if Inherits(of) {
      var k :| k in of && Names(of, of[k]);
      assert Names(of', of'[k]);
    }
    if Names(of', p) { assert Names(of', of'[p.key]); }
    if k :| k in of && of[k].inheritedFrom == Some(p.key) {
      assert Names(of', of'[k]);
    }
    if Inherits(of') {
      var k :| k in of' && Names(of', of'[k]);
      assert k != p.key ==> of'[k] == of[k] && (Names(of, of[k]) || of[k].inheritedFrom == Some(p.key));
    }
  }

  /** Adding an active policy under a new key never makes an action less restricted, even when policies
      already present inherit from it. */
  lemma AddingNeverRelaxes(form: Form, ps: seq<Policy>, qs: seq<Policy>, p: Policy, matches: int -> bool, v: Verdict, w: Verdict)
    requires Extends(ps, qs, p) && IsClassification(form, ps, matches, v) && IsClassification(form, qs, matches, w)
    ensures Strictness(v) <= Strictness(w)
  {
    ListGrows(ps, qs, p);
    InheritsGrows(ByKey(ps).of, p);
    if !w.TypeError? {
      assert !(form.Rows? && Inherits(ByKey(qs).of));
      var r :| IsChoice(ps, matches, r) && v == VerdictOf(r);
      var s :| IsChoice(qs, matches, s) && w == VerdictOf(s);
      ChoiceGrows(ps, qs, p, matches, r, s);
    }
  }

  /** On rows it turns every answer into an error exactly when the new policy inherits from an active
      key, itself included, or a latest active policy already names the new key. */
  lemma AddingBreaksRowsIff(ps: seq<Policy>, qs: seq<Policy>, p: Policy, matches: int -> bool, r: Evaluation, s: Evaluation)
    requires Extends(ps, qs, p) && IsEvaluation(Rows, ps, matches, r) && IsEvaluation(Rows, qs, matches, s) && !r.Crashed?
    ensures s.Crashed? <==>
              || (exists q :: q in qs && q.status.Active? && p.inheritedFrom == Some(q.key))
              || (exists q :: IsLatest(ps, q) && q.inheritedFrom == Some(p.key))
  {
    var of := ByKey(ps).of;
    ListGrows(ps, qs, p);
    InheritsGrows(of, p);
    TableMeaning(ps);
    TableMeaning(qs);
    assert p in qs;
    NamesActive(qs, p);
    if q :| IsLatest(ps, q) && q.inheritedFrom == Some(p.key) {
      assert q in qs && p in qs;
      LatestIsInTable(ps, qs, q);
    }
    if k :| k in of && of[k].inheritedFrom == Some(p.key) {
      assert IsLatest(ps, of[k]);
    }
  }

  lemma NamesActive(qs: seq<Policy>, p: Policy)
    ensures Names(ByKey(qs).of, p) <==> exists q :: q in qs && q.status.Active? && p.inheritedFrom == Some(q.key)
  {
    TableMeaning(qs);
    var of := ByKey(qs).of;
    if Names(of, p) {
      assert IsLatest(qs, of[p.inheritedFrom.value]);
    }
  }

  lemma LatestIsInTable(ps: seq<Policy>, qs: seq<Policy>, q: Policy)
    requires Unique(qs) && (forall x :: x in ps ==> x in qs) && IsLatest(ps, q)
    ensures q.key in ByKey(ps).of && ByKey(ps).of[q.key] == q
  {
    TableMeaning(ps);
    assert IsLatest(ps, ByKey(ps).of[q.key]);
  }

  // ---------------------------------------------------------------- the winner

  /** Two different keys with the highest rank among the hits. */
  ghost predicate Tied(of: map<int, Policy>, matches: int -> bool, j: int, k: int) {
    && j != k && Hit(of, matches, j) && Hit(of, matches, k)
    && Tops(of, matches, j) && Tops(of, matches, k)
  }

  ghost predicate Tops(of: map<int, Policy>, matches: int -> bool, k: int)
    requires k in of
  {
    forall x :: Hit(of, matches, x) ==> Rank(of[x].classification) <= Rank(of[k].classification)
  }

  ghost predicate NoTie(of: map<int, Policy>, matches: int -> bool) {
    forall j, k :: !Tied(of, matches, j, k)
  }

  lemma {:induction false} MatchingFirst(t: Table, matches: int -> bool, n: nat)
    requires IsDict(t) && 1 <= n <= |t.keys| && Hit(t.of, matches, t.keys[0])
    ensures Matching(t, matches, n) != [] && Matching(t, matches, n)[0] == Resolved(t.of, t.of[t.keys[0]])
  {
    assert t.keys[0] in t.keys;
    if n > 1 {
      MatchingFirst(t, matches, n - 1);
    }
  }

  lemma {:induction false} FirstKeyStays(ps: seq<Policy>)
    requires ps != [] && ps[0].status.Active?
    ensures ByKey(ps).keys != [] && ByKey(ps).keys[0] == ps[0].key
    decreases |ps|
  {
    if |ps| > 1 {
      FirstKeyStays(ps[..|ps| - 1]);
    } else {
      assert ps[..0] == [];
    }
  }

  lemma WinnerTops(ps: seq<Policy>, matches: int -> bool, r: Evaluation) returns (k: int)
    requires IsChoice(ps, matches, r) && r.Won?
    ensures var of := ByKey(ps).of;
            Hit(of, matches, k) && Tops(of, matches, k) && r.winner == Resolved(of, of[k]) && r.winner.key == k
  {
    TableIsDict(ps);
    TableMeaning(ps);
    var t := ByKey(ps);
    var ms := Matching(t, matches, |t.keys|);
    assert r.winner in ms;
    k := MatchingIsHit(t, matches, r.winner);
    forall x | Hit(t.of, matches, x) ensures Rank(t.of[x].classification) <= Rank(t.of[k].classification) {
      HitIsMatching(t, matches, x);
      var j :| 0 <= j < |ms| && ms[j] == Resolved(t.of, t.of[x]);
    }
  }

  /** Without a tie the whole evaluation is the same for every order. */
  lemma WinnerIsOrderFree(ps: seq<Policy>, qs: seq<Policy>, matches: int -> bool, r: Evaluation, s: Evaluation)
    requires Unique(ps) && SameElements(ps, qs)
    requires IsChoice(ps, matches, r) && IsChoice(qs, matches, s) && r.Won?
    requires NoTie(ByKey(ps).of, matches)
    ensures r == s
  {
    ChoicesAgree(ps, qs, matches, r, s);
    TableIsOrderFree(ps, qs);
    var of := ByKey(ps).of;
    var j := WinnerTops(ps, matches, r);
    if s.Won? {
      var k := WinnerTops(qs, matches, s);
      assert !Tied(of, matches, j, k);
    } else {
      TableIsDict(qs);
      var t := ByKey(qs);
      HitIsMatching(t, matches, j);
    }
  }

  /** With one, whichever tied policy is listed first wins. */
  lemma TiedWinnerIsListedFirst(ps: seq<Policy>, qs: seq<Policy>, matches: int -> bool, k: int, s: Evaluation)
    requires Unique(ps) && k in ByKey(ps).of && Hit(ByKey(ps).of, matches, k) && Tops(ByKey(ps).of, matches, k)
    requires SameElements(ps, qs) && qs != [] && qs[0] == ByKey(ps).of[k]
    requires IsChoice(qs, matches, s) && s.Won?
    ensures s.winner.key == k
  {
    TableMeaning(ps);
    assert IsLatest(ps, qs[0]);
    TableIsOrderFree(ps, qs);
    FirstKeyStays(qs);
    TableIsDict(qs);
    var t := ByKey(qs);
    MatchingFirst(t, matches, |t.keys|);
    var ms := Matching(t, matches, |t.keys|);
    var i :| && 0 <= i < |ms| && ms[i] == s.winner
             && (forall j :: 0 <= j < |ms| ==> Rank(ms[j].classification) <= Rank(s.winner.classification))
             && (forall j :: 0 <= j < i ==> Rank(ms[j].classification) < Rank(s.winner.classification));
    var w := MatchingIsHit(t, matches, s.winner);
    assert i == 0;
  }

  lemma {:induction false} FirstOfHighestRank(ms: seq<Policy>) returns (i: nat)
    requires ms != []
    ensures i < |ms| && IsWinner(ms, ms[i])
    ensures forall j :: 0 <= j < |ms| ==> Rank(ms[j].classification) <= Rank(ms[i].classification)
    ensures forall j :: 0 <= j < i ==> Rank(ms[j].classification) < Rank(ms[i].classification)
    decreases |ms|
  {
    i := |ms| - 1;
    if |ms| > 1 {
      var b := FirstOfHighestRank(ms[..|ms| - 1]);
      if Rank(ms[b].classification) >= Rank(ms[i].classification) {
        i := b;
      }
    }
  }

  lemma EvaluationExists(ps: seq<Policy>, matches: int -> bool) returns (r: Evaluation)
    ensures IsChoice(ps, matches, r)
  {
    TableIsDict(ps);
    var ms := Matching(ByKey(ps), matches, |ByKey(ps).keys|);
    if ms == [] {
      r := NoMatch;
    } else if HasUnranked(ms) {
      r := Failed;
    } else {
      var i := FirstOfHighestRank(ms);
      r := Won(ms[i]);
    }
  }

  ghost predicate OrderFree(form: Form, ps: seq<Policy>, matches: int -> bool, r: Evaluation) {
    forall qs, s :: multiset(qs) == multiset(ps) && IsEvaluation(form, qs, matches, s) ==> s == r
  }

  lemma MoveToFront(ps: seq<Policy>, p: Policy) returns (qs: seq<Policy>)
    requires p in ps
    ensures qs != [] && qs[0] == p && multiset(qs) == multiset(ps)
  {
    var i :| 0 <= i < |ps| && ps[i] == p;
    assert ps == ps[..i] + [p] + ps[i + 1..];
    qs := [p] + (ps[..i] + ps[i + 1..]);
  }

  lemma SameMultiset(ps: seq<Policy>, qs: seq<Policy>)
    requires multiset(qs) == multiset(ps)
    ensures SameElements(ps, qs)
  {
    forall p ensures p in ps <==> p in qs {
      assert p in ps <==> p in multiset(ps);
      assert p in qs <==> p in multiset(qs);
    }
  }

  /** What becomes of a choice. */
  lemma EvaluationOfChoice(form: Form, ps: seq<Policy>, matches: int -> bool, c: Evaluation) returns (r: Evaluation)
    requires IsChoice(ps, matches, c) && !(form.Rows? && Inherits(ByKey(ps).of))
    ensures IsEvaluation(form, ps, matches, r)
    ensures r == if form.Snapshots? && c.Won? && c.winner.chain > 0 then Crashed else c
  {
    r := if form.Snapshots? && c.Won? && c.winner.chain > 0 then Crashed else c;
  }

  /** A row of the highest rank, listed first, wins. */
  lemma FrontWins(ps: seq<Policy>, matches: int -> bool, r: Evaluation, k: int) returns (qs: seq<Policy>, s: Evaluation)
    requires Unique(ps) && IsChoice(ps, matches, r) && r.Won?
    requires Hit(ByKey(ps).of, matches, k) && Tops(ByKey(ps).of, matches, k)
    ensures multiset(qs) == multiset(ps) && SameElements(ps, qs)
    ensures IsChoice(qs, matches, s) && s.Won? && s.winner.key == k
  {
    TableMeaning(ps);
    assert IsLatest(ps, ByKey(ps).of[k]);
    qs := MoveToFront(ps, ByKey(ps).of[k]);
    SameMultiset(ps, qs);
    s := EvaluationExists(qs, matches);
    ChoicesAgree(ps, qs, matches, r, s);
    if !s.Won? {
      TableIsOrderFree(ps, qs);
      TableIsDict(qs);
      HitIsMatching(ByKey(qs), matches, k);
    }
    TiedWinnerIsListedFirst(ps, qs, matches, k, s);
  }

  lemma TieBreaksOrder(form: Form, ps: seq<Policy>, matches: int -> bool, r: Evaluation, k: int)
    requires Unique(ps) && IsEvaluation(form, ps, matches, r) && r.Won? && r.winner.key != k
    requires Hit(ByKey(ps).of, matches, k) && Tops(ByKey(ps).of, matches, k)
    ensures !OrderFree(form, ps, matches, r)
  {
    var qs, c := FrontWins(ps, matches, r, k);
    TableIsOrderFree(ps, qs);
    var s := EvaluationOfChoice(form, qs, matches, c);
    assert s != r;
  }

  lemma NoTieIsOrderFree(form: Form, ps: seq<Policy>, matches: int -> bool, r: Evaluation)
    requires Unique(ps) && IsEvaluation(form, ps, matches, r) && r.Won? && NoTie(ByKey(ps).of, matches)
    ensures OrderFree(form, ps, matches, r)
  {
    forall qs, s | multiset(qs) == multiset(ps) && IsEvaluation(form, qs, matches, s) ensures s == r {
      SameMultiset(ps, qs);
      TableIsOrderFree(ps, qs);
      if s.Crashed? {
        var w :| IsChoice(qs, matches, Won(w)) && w.chain > 0;
        WinnerIsOrderFree(ps, qs, matches, r, Won(w));
      } else {
        WinnerIsOrderFree(ps, qs, matches, r, s);
      }
    }
  }

  /** The winner, and with it routing, approvers and the rest of the result, is the same for every
      order of the list exactly when no two keys tie for the highest rank; the query that lists the
      rows names no order. */
  lemma WinnerIsOrderFreeIffNoTie(form: Form, ps: seq<Policy>, matches: int -> bool, r: Evaluation)
    requires Unique(ps) && IsEvaluation(form, ps, matches, r) && r.Won?
    ensures OrderFree(form, ps, matches, r) <==> NoTie(ByKey(ps).of, matches)
  {
    if NoTie(ByKey(ps).of, matches) {
      NoTieIsOrderFree(form, ps, matches, r);
    } else {
      var j, k :| Tied(ByKey(ps).of, matches, j, k);
      TieBreaksOrder(form, ps, matches, r, if r.winner.key == j then k else j);
    }
  }

  /** Every order of the list raises, or none does. */
  ghost predicate CrashIsOrderFree(ps: seq<Policy>, matches: int -> bool, crashes: bool) {
    forall qs, s :: multiset(qs) == multiset(ps) && IsEvaluation(Snapshots, qs, matches, s) ==> (s.Crashed? <==> crashes)
  }

  ghost predicate TopsAgree(of: map<int, Policy>, matches: int -> bool, chained: bool) {
    forall k :: Hit(of, matches, k) && Tops(of, matches, k) ==> (of[k].chain > 0 <==> chained)
  }

  /** On snapshots even whether `evaluate` raises depends on the order, unless the policies of the highest
      rank all have a chain or all have none. */
  lemma CrashIsOrderFreeIffTopsAgree(ps: seq<Policy>, matches: int -> bool, w: Policy)
    requires Unique(ps) && IsChoice(ps, matches, Won(w))
    ensures CrashIsOrderFree(ps, matches, w.chain > 0) <==> TopsAgree(ByKey(ps).of, matches, w.chain > 0)
  {
    var of, chained := ByKey(ps).of, w.chain > 0;
    if TopsAgree(of, matches, chained) {
      forall qs, s | multiset(qs) == multiset(ps) && IsEvaluation(Snapshots, qs, matches, s) ensures s.Crashed? <==> chained {
        SameMultiset(ps, qs);
        WinnersAreTops(ps, qs, matches, w, s, chained);
      }
    } else {
      var k :| Hit(of, matches, k) && Tops(of, matches, k) && !(of[k].chain > 0 <==> chained);
      var qs, c := FrontWins(ps, matches, Won(w), k);
      TableIsOrderFree(ps, qs);
      var j := WinnerTops(qs, matches, c);
      var s := EvaluationOfChoice(Snapshots, qs, matches, c);
      assert !(s.Crashed? <==> chained);
    }
  }

  lemma WinnersAreTops(ps: seq<Policy>, qs: seq<Policy>, matches: int -> bool, w: Policy, s: Evaluation, chained: bool)
    requires Unique(ps) && SameElements(ps, qs) && IsChoice(ps, matches, Won(w))
    requires TopsAgree(ByKey(ps).of, matches, chained) && IsEvaluation(Snapshots, qs, matches, s)
    ensures s.Crashed? <==> chained
  {
    TableIsOrderFree(ps, qs);
    var j := WinnerTops(ps, matches, Won(w));
    if s.Crashed? {
      var x :| IsChoice(qs, matches, Won(x)) && x.chain > 0;
      var k := WinnerTops(qs, matches, Won(x));
    } else {
      TableIsDict(qs);
      HitIsMatching(ByKey(qs), matches, j);
      ChoicesAgree(ps, qs, matches, Won(w), s);
      var k := WinnerTops(qs, matches, s);
    }
  }

  // ---------------------------------------------------------------- the life of a key

  datatype Draft = Draft(classification: Classification, patterns: seq<int>, inheritedFrom: Option<int>, chain: nat, terms: int)
  datatype Op = Create(key: int, draft: Draft) | Supersede(key: int, draft: Draft) | Archive(key: int)

  function NewVersion(key: int, version: int, d: Draft): Policy {
    Policy(key, version, Active, d.classification, d.patterns, d.inheritedFrom, d.chain, d.terms)
  }

  /** `get_active_version`: the position of an active row of the key. */
  function ActiveAt(rows: seq<Policy>, key: int): Option<nat> {
    if rows == [] then None
    else
      var n := |rows| - 1;
      if rows[n].key == key && rows[n].status.Active? then Some(n) else ActiveAt(rows[..n], key)
  }

  function LatestVersion(rows: seq<Policy>, key: int): int {
    if rows == [] then 0
    else
      var n := |rows| - 1;
      var before := LatestVersion(rows[..n], key);
      if rows[n].key == key && rows[n].version > before then rows[n].version else before
  }

  function After(rows: seq<Policy>, op: Op): seq<Policy> {
    var at := ActiveAt(rows, op.key);
    match op
    case Create(key, d) => if at.Some? then rows else rows + [NewVersion(key, LatestVersion(rows, key) + 1, d)]
    case Supersede(key, d) =>
      if at.None? || at.value >= |rows| then rows
      else
        var current := rows[at.value];
        rows[at.value := current.(status := Superseded)] + [NewVersion(key, current.version + 1, d)]
    case Archive(key) =>
      if at.None? || at.value >= |rows| then rows else rows[at.value := rows[at.value].(status := Archived)]
  }

  function AfterAll(ops: seq<Op>): seq<Policy> {
    if ops == [] then [] else After(AfterAll(ops[..|ops| - 1]), ops[|ops| - 1])
  }

  class PolicyRuntime {
    var rows: seq<Policy>

    constructor ()
      ensures rows == []
    {
      rows := [];
    }

    method CreatePolicy(key: int, d: Draft) returns (ok: bool)
      modifies this
      ensures rows == After(old(rows), Create(key, d)) && (ok <==> ActiveAt(old(rows), key).None?)
    {
      if ActiveAt(rows, key).Some? {
        return false;
      }
      rows := rows + [NewVersion(key, LatestVersion(rows, key) + 1, d)];
      ok := true;
    }

    method SupersedePolicy(key: int, d: Draft) returns (ok: bool)
      modifies this
      ensures rows == After(old(rows), Supersede(key, d)) && (ok <==> ActiveAt(old(rows), key).Some?)
    {
      ActiveMeaning(rows, key);
      var at := ActiveAt(rows, key);
      if at.None? {
        return false;
      }
      var current := rows[at.value];
      rows := rows[at.value := current.(status := Superseded)];
      rows := rows + [NewVersion(key, current.version + 1, d)];
      ok := true;
    }

    method ArchivePolicy(key: int) returns (ok: bool)
      modifies this
      ensures rows == After(old(rows), Archive(key)) && (ok <==> ActiveAt(old(rows), key).Some?)
    {
      ActiveMeaning(rows, key);
      var at := ActiveAt(rows, key);
      if at.None? {
        return false;
      }
      rows := rows[at.value := rows[at.value].(status := Archived)];
      ok := true;
    }
  }

  lemma {:induction false} ActiveMeaning(rows: seq<Policy>, key: int)
    ensures var at := ActiveAt(rows, key);
            if at.None? then forall i :: 0 <= i < |rows| && rows[i].key == key ==> !rows[i].status.Active?
            else at.value < |rows| && rows[at.value].key == key && rows[at.value].status.Active?
    decreases |rows|
  {
    if rows != [] {
      ActiveMeaning(rows[..|rows| - 1], key);
    }
  }

  /** Rows of the key. */
  ghost function Count(rows: seq<Policy>, key: int): nat {
    if rows == [] then 0 else Count(rows[..|rows| - 1], key) + if rows[|rows| - 1].key == key then 1 else 0
  }

  ghost predicate Numbered(rows: seq<Policy>, i: nat)
    requires i < |rows|
  {
    rows[i].version == Count(rows[..i], rows[i].key) + 1
  }

  ghost predicate LastIfActive(rows: seq<Policy>, i: nat)
    requires i < |rows|
  {
    rows[i].status.Active? ==> rows[i].version == Count(rows, rows[i].key)
  }

  /** The versions of every key are 1, 2, ... in the order of the rows, and only the last may be active. */
  ghost predicate Versioned(rows: seq<Policy>) {
    forall i :: 0 <= i < |rows| ==> Numbered(rows, i) && LastIfActive(rows, i)
  }

  lemma {:induction false} CountGrows(rows: seq<Policy>, i: nat, j: nat, key: int)
    requires i <= j <= |rows|
    ensures Count(rows[..i], key) <= Count(rows[..j], key)
    ensures i < j && rows[i].key == key ==> Count(rows[..i], key) < Count(rows[..j], key)
    decreases j
  {
    if i < j {
      CountGrows(rows, i, j - 1, key);
      assert rows[..j][..j - 1] == rows[..j - 1];
    }
  }

  lemma {:induction false} LatestIsCount(rows: seq<Policy>, key: int)
    requires forall i :: 0 <= i < |rows| ==> Numbered(rows, i)
    ensures LatestVersion(rows, key) == Count(rows, key)
    decreases |rows|
  {
    if rows != [] {
      var n := |rows| - 1;
      var init := rows[..n];
      forall i | 0 <= i < n ensures Numbered(init, i) {
        assert init[..i] == rows[..i] && Numbered(rows, i);
      }
      LatestIsCount(init, key);
      assert Numbered(rows, n);
    }
  }

  lemma {:induction false} CountSameKeys(a: seq<Policy>, b: seq<Policy>, key: int)
    requires |a| == |b| && forall i :: 0 <= i < |a| ==> a[i].key == b[i].key
    ensures Count(a, key) == Count(b, key)
    decreases |a|
  {
    if a != [] {
      CountSameKeys(a[..|a| - 1], b[..|b| - 1], key);
    }
  }

  lemma Retire(rows: seq<Policy>, at: nat, status: Status)
    requires Versioned(rows) && at < |rows| && rows[at].status.Active? && !status.Active?
    ensures Versioned(rows[at := rows[at].(status := status)])
    ensures Count(rows[at := rows[at].(status := status)], rows[at].key) == rows[at].version
  {
    var r := rows[at := rows[at].(status := status)];
    forall i | 0 <= i < |r| ensures Numbered(r, i) && LastIfActive(r, i) {
      assert Numbered(rows, i) && LastIfActive(rows, i);
      CountSameKeys(r[..i], rows[..i], rows[i].key);
      CountSameKeys(r, rows, rows[i].key);
    }
    assert LastIfActive(rows, at);
    CountSameKeys(r, rows, rows[at].key);
  }

  lemma OneActive(rows: seq<Policy>, i: nat, j: nat)
    requires Versioned(rows) && i < |rows| && j < |rows|
    requires rows[i].key == rows[j].key && rows[i].status.Active? && rows[j].status.Active?
    ensures i == j
  {
    assert Numbered(rows, i) && LastIfActive(rows, i) && Numbered(rows, j) && LastIfActive(rows, j);
    if i < j { CountGrows(rows, i, j, rows[i].key); } else if j < i { CountGrows(rows, j, i, rows[i].key); }
  }

  lemma RetiredHasNoActive(rows: seq<Policy>, at: nat, status: Status)
    requires Versioned(rows) && at < |rows| && rows[at].status.Active? && !status.Active?
    ensures ActiveAt(rows[at := rows[at].(status := status)], rows[at].key).None?
  {
    var r := rows[at := rows[at].(status := status)];
    ActiveMeaning(r, rows[at].key);
    if ActiveAt(r, rows[at].key).Some? {
      OneActive(rows, at, ActiveAt(r, rows[at].key).value);
    }
  }

  lemma Add(rows: seq<Policy>, key: int, d: Draft)
    requires Versioned(rows) && ActiveAt(rows, key).None?
    ensures Versioned(rows + [NewVersion(key, Count(rows, key) + 1, d)])
  {
    var r := rows + [NewVersion(key, Count(rows, key) + 1, d)];
    ActiveMeaning(rows, key);
    assert r[..|rows|] == rows;
    forall i | 0 <= i < |r| ensures Numbered(r, i) && LastIfActive(r, i) {
      if i < |rows| {
        assert r[..i] == rows[..i] && Numbered(rows, i) && LastIfActive(rows, i);
      }
    }
  }

  lemma CreateKeepsVersions(rows: seq<Policy>, op: Op)
    requires Versioned(rows) && op.Create?
    ensures Versioned(After(rows, op))
  {
    LatestIsCount(rows, op.key);
    if ActiveAt(rows, op.key).None? {
      Add(rows, op.key, op.draft);
    }
  }

  lemma SupersedeKeepsVersions(rows: seq<Policy>, key: int, d: Draft, at: nat)
    requires Versioned(rows) && at < |rows| && rows[at].key == key && rows[at].status.Active?
    ensures Versioned(rows[at := rows[at].(status := Superseded)] + [NewVersion(key, rows[at].version + 1, d)])
  {
    Retire(rows, at, Superseded);
    RetiredHasNoActive(rows, at, Superseded);
    Add(rows[at := rows[at].(status := Superseded)], key, d);
  }

  lemma StepKeepsVersions(rows: seq<Policy>, op: Op)
    requires Versioned(rows)
    ensures Versioned(After(rows, op))
  {
    var at := ActiveAt(rows, op.key);
    ActiveMeaning(rows, op.key);
    match op
    case Create(_, _) => CreateKeepsVersions(rows, op);
    case Supersede(key, d) =>
      if at.Some? { SupersedeKeepsVersions(rows, key, d, at.value); }
    case Archive(_) =>
      if at.Some? { Retire(rows, at.value, Archived); }
  }

  /** Creating, superseding and archiving keep the versions of every key 1..n without gap or repeat,
      with at most one active version, which is n. */
  lemma {:induction false} VersionsAreConsecutive(ops: seq<Op>)
    ensures Versioned(AfterAll(ops))
    decreases |ops|
  {
    if ops != [] {
      VersionsAreConsecutive(ops[..|ops| - 1]);
      StepKeepsVersions(AfterAll(ops[..|ops| - 1]), ops[|ops| - 1]);
    }
  }

  /** So the evaluator's assumption holds of every reachable table: one active policy per key. */
  lemma ReachableTablesAreUnique(ops: seq<Op>, i: nat, j: nat)
    requires i < |AfterAll(ops)| && j < |AfterAll(ops)|
    requires AfterAll(ops)[i].key == AfterAll(ops)[j].key && AfterAll(ops)[i].status.Active? && AfterAll(ops)[j].status.Active?
    ensures i == j
  {
    VersionsAreConsecutive(ops);
    OneActive(AfterAll(ops), i, j);
  }

  lemma ReachableRowsAreUnique(ops: seq<Op>)
    ensures Unique(AfterAll(ops))
  {
    var rows := AfterAll(ops);
    forall p, q | p in rows && q in rows && p.status.Active? && q.status.Active? && p.key == q.key && p.version == q.version ensures p == q {
      var i :| 0 <= i < |rows| && rows[i] == p;
      var j :| 0 <= j < |rows| && rows[j] == q;
      ReachableTablesAreUnique(ops, i, j);
    }
  }

  /** Whatever the history of the policies and whatever the order in which the query returns the
      rows, an action is classified, or refused with an error, the same. */
  lemma ReachableClassificationIsOrderFree(ops: seq<Op>, qs: seq<Policy>, matches: int -> bool, r: Evaluation, s: Evaluation)
    requires SameElements(AfterAll(ops), qs)
    requires IsEvaluation(Rows, AfterAll(ops), matches, r) && IsEvaluation(Rows, qs, matches, s)
    ensures VerdictOf(r) == VerdictOf(s)
  {
    ReachableRowsAreUnique(ops);
    VerdictIsOrderFree(Rows, AfterAll(ops), qs, matches, r, s);
  }

  lemma AfterCreate(ops: seq<Op>, key: int, d: Draft)
    requires ActiveAt(AfterAll(ops), key).None? && LatestVersion(AfterAll(ops), key) == 0
    ensures AfterAll(ops + [Create(key, d)]) == AfterAll(ops) + [NewVersion(key, 1, d)]
  {
    assert (ops + [Create(key, d)])[..|ops|] == ops;
  }

  lemma TwoCreated(d: Draft, e: Draft)
    ensures AfterAll([Create(1, d), Create(2, e)]) == [NewVersion(1, 1, d), NewVersion(2, 1, e)]
  {
    AfterCreate([], 1, d);
    AfterCreate([Create(1, d)], 2, e);
    assert [] + [Create(1, d)] == [Create(1, d)];
    assert [Create(1, d)] + [Create(2, e)] == [Create(1, d), Create(2, e)];
  }

  /** From the empty table: create two restricted policies, both of which match.  Which of them decides
      routing and approvers depends on the order of the rows. */
  lemma TieIsReachable(d: Draft, e: Draft, matches: int -> bool) returns (r: Evaluation)
    requires Restricts(NewVersion(1, 1, d), matches) && Restricts(NewVersion(2, 1, e), matches)
    ensures var rows := AfterAll([Create(1, d), Create(2, e)]);
            IsEvaluation(Rows, rows, matches, r) && r.Won? && !OrderFree(Rows, rows, matches, r)
  {
    TwoCreated(d, e);
    r := TwoTie(NewVersion(1, 1, d), NewVersion(2, 1, e), matches);
  }

  /** From the empty table: create a policy, and one that inherits from it.  From then on every action
      whatever raises TypeError on rows, even where nothing matches it. */
  lemma HeirIsReachable(d: Draft, e: Draft, matches: int -> bool, r: Evaluation)
    requires e.inheritedFrom == Some(1)
    requires IsEvaluation(Rows, AfterAll([Create(1, d), Create(2, e)]), matches, r)
    ensures r == Crashed
  {
    TwoCreated(d, e);
    TwoTable(NewVersion(1, 1, d), NewVersion(2, 1, e));
    var of := ByKey(AfterAll([Create(1, d), Create(2, e)])).of;
    assert Names(of, of[2]);
  }

  /** From the empty table: create one policy with a chain.  Its snapshot raises TypeError for every
      action it matches, although its row does not. */
  lemma ChainIsReachable(d: Draft, matches: int -> bool, r: Evaluation, s: Evaluation)
    requires d.chain > 0 && Restricts(NewVersion(1, 1, d), matches)
    requires IsEvaluation(Snapshots, AfterAll([Create(1, d)]), matches, r) && IsEvaluation(Rows, AfterAll([Create(1, d)]), matches, s)
    ensures r == Crashed && s == Won(NewVersion(1, 1, d))
  {
    var p := NewVersion(1, 1, d);
    AfterCreate([], 1, d);
    assert [] + [Create(1, d)] == [Create(1, d)];
    OneTable(p);
    OneChoice(p, matches);
    if !r.Crashed? { ChoiceIsUnique([p], matches, r, Won(p)); }
    ChoiceIsUnique([p], matches, s, Won(p));
  }

  lemma OneTable(p: Policy)
    requires p.status.Active?
    ensures ByKey([p]) == Table([p.key], map[p.key := p])
  {
    var ps := [p];
    assert ps[..0] == [];
    assert ByKey(ps) == Table([] + [p.key], map[p.key := p]);
  }

  lemma OneChoice(p: Policy, matches: int -> bool)
    requires Restricts(p, matches)
    ensures IsChoice([p], matches, Won(p)) && !Inherits(ByKey([p]).of)
  {
    OneTable(p);
    var t := ByKey([p]);
    TableIsDict([p]);
    assert Resolved(t.of, p) == p && Matches(p, matches);
    assert Matching(t, matches, 0) == [];
    assert Matching(t, matches, 1) == [] + [p];
    var ms := [p];
    assert ms[0] == p && IsWinner(ms, p);
    assert Matching(t, matches, |t.keys|) == ms;
  }

  lemma TwoTable(p: Policy, q: Policy)
    requires p.status.Active? && q.status.Active? && p.key != q.key
    ensures ByKey([p, q]).of == map[p.key := p, q.key := q]
  {
    var ps, one := [p, q], [p];
    assert ps[..1] == one && one[..0] == [];
    assert ByKey(one) == Table([] + [p.key], map[p.key := p]);
    assert p.key in ByKey(one).of && q.key !in ByKey(one).of;
  }

  /** A policy that takes part in a tie on its own patterns. */
  ghost predicate Restricts(p: Policy, matches: int -> bool) {
    p.status.Active? && p.classification == Restricted && p.patterns != [] && p.inheritedFrom.None? && matches(p.patterns[0])
  }

  lemma TwoTied(of: map<int, Policy>, p: Policy, q: Policy, matches: int -> bool)
    requires of == map[p.key := p, q.key := q] && p.key != q.key && Restricts(p, matches) && Restricts(q, matches)
    ensures Tied(of, matches, p.key, q.key)
  {
    assert Resolved(of, p) == p && Resolved(of, q) == q;
    assert Matches(p, matches) && Matches(q, matches);
  }

  lemma HitWins(ps: seq<Policy>, matches: int -> bool, r: Evaluation, k: int)
    requires IsChoice(ps, matches, r) && Hit(ByKey(ps).of, matches, k)
    requires forall x :: x in ByKey(ps).of ==> !ByKey(ps).of[x].classification.RequiresApproval?
    ensures r.Won?
  {
    ChoiceIsVerdict(ps, matches, r);
    TableIsDict(ps);
    HitIsMatching(ByKey(ps), matches, k);
  }

  lemma TwoTie(p: Policy, q: Policy, matches: int -> bool) returns (r: Evaluation)
    requires p.key != q.key && Restricts(p, matches) && Restricts(q, matches)
    ensures IsEvaluation(Rows, [p, q], matches, r) && r.Won? && !OrderFree(Rows, [p, q], matches, r)
  {
    TwoTable(p, q);
    TwoTied(ByKey([p, q]).of, p, q, matches);
    r := EvaluationExists([p, q], matches);
    HitWins([p, q], matches, r, p.key);
    WinnerIsOrderFreeIffNoTie(Rows, [p, q], matches, r);
  }
}
