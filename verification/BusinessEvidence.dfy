/** `receive_business`: a receiver of advisory snapshots that may arrive in any order and more than
    once.  The main theorem says exactly when the order does not matter. */
module BusinessEvidence {
  import opened IsoTime

  datatype Option<T> = None | Some(value: T)

  // A property label as it stands in the snapshot: absent, a string, or something else.
  datatype Label = Missing | Text(value: string) | NotText
  datatype Snapshot = Snapshot(propertyId: string, address: Label, city: Label, state: Label, rest: string)

  // `wellFormed`: the snapshot passes the field checks and `revision` is its digest.
  // `boundLead`: the external lead id of the call that `partition` names, if it is not a lead partition.
  // `resolves`: the body resolves to this lead.
  datatype Delivery = Delivery(partition: string, leadId: string, boundLead: Option<string>, resolves: bool,
                               wellFormed: bool, snapshot: Snapshot, revision: string, observed: Utc)

  // The clock is read twice: `now` when the delivery is checked, and later for `weekAgo`, the instant
  // seven days before that second reading.
  datatype Clock = Clock(now: Utc, weekAgo: Utc)

  datatype Status = Applied | IgnoredOlder
  datatype Receipt = Receipt(partition: string, status: Status, recordedAt: string)
  datatype Evidence = Evidence(snapshot: Snapshot, revision: string, observedAt: string)
  datatype Lead = Lead(evidence: Option<Evidence>, receipts: map<(string, string), Receipt>,
                       address: Label, city: Label, state: Label)

  datatype Refusal = InvalidSnapshot | PartitionMismatch | BindingMismatch | UnboundLead | NoPartition
                   | BudgetExhausted | PropertyChanged | ConflictingSnapshots | InvalidLabel
  datatype Outcome = Recorded(receipt: Receipt) | Duplicate(receipt: Receipt) | Refused(refusal: Refusal)

  const SECOND := 1000000
  const WEEK := 7 * 86400 * SECOND
  const AHEAD := 60 * SECOND
  const RECEIPT_BUDGET := 5000

  // ---------------------------------------------------------------- specification

  ghost predicate IsClock(c: Clock) {
    Valid(c.now) && Valid(c.weekAgo) && Micros(c.weekAgo) >= Micros(c.now) - WEEK
  }

  /** No time passes between the two readings. */
  ghost predicate IsInstant(c: Clock) {
    IsClock(c) && Micros(c.weekAgo) == Micros(c.now) - WEEK
  }

  predicate InWindow(d: Delivery, c: Clock) {
    -AHEAD <= Micros(c.now) - Micros(d.observed) <= WEEK
  }

  predicate StartsWithLead(s: string) {
    |s| >= 5 && s[..5] == "lead:"
  }

  predicate GoodLabel(l: Label) {
    l.Missing? || (l.Text? && |l.value| <= 500)
  }

  predicate GoodLabels(s: Snapshot) {
    GoodLabel(s.address) && GoodLabel(s.city) && GoodLabel(s.state)
  }

  /** What is checked before the lead's own state is looked at. */
  function Checked(d: Delivery, c: Clock): Option<Refusal> {
    if !d.wellFormed || !InWindow(d, c) then Some(InvalidSnapshot) else Bound(d)
  }

  /** The checks after the validation of the snapshot. */
  function Bound(d: Delivery): Option<Refusal> {
    if StartsWithLead(d.partition) && d.partition != "lead:" + d.leadId then Some(PartitionMismatch)
    else if !StartsWithLead(d.partition) && d.boundLead != Some(d.leadId) then Some(BindingMismatch)
    else if !d.resolves then Some(UnboundLead)
    else if !(0 < |d.partition| <= 255) then Some(NoPartition)
    else None
  }

  /** The receipts of the last seven days, compared as strings. */
  function Retained(receipts: map<(string, string), Receipt>, c: Clock): map<(string, string), Receipt> {
    map k | k in receipts && !Less(receipts[k].recordedAt, Iso(c.weekAgo)) :: receipts[k]
  }

  // The digest of "partition:revision"; the revision has a fixed length, so the pair is determined.
  function ReceiptKey(d: Delivery): (string, string) {
    (d.partition, d.revision)
  }

  function EvidenceOf(d: Delivery): Evidence {
    Evidence(d.snapshot, d.revision, Iso(d.observed))
  }

  function Receive(lead: Lead, d: Delivery, c: Clock): (Outcome, Lead) {
    if Checked(d, c).Some? then (Refused(Checked(d, c).value), lead)
    else Process(lead, Retained(lead.receipts, c), d, Iso(d.observed))
  }

  /** What happens once the delivery itself is acceptable; `receipts` are those still retained. */
  function Process(lead: Lead, receipts: map<(string, string), Receipt>, d: Delivery, observed: string): (Outcome, Lead) {
    var key, current := ReceiptKey(d), lead.evidence;
    if key in receipts then (Duplicate(receipts[key]), lead)
    else if |receipts| >= RECEIPT_BUDGET then (Refused(BudgetExhausted), lead)
    else if current.Some? && current.value.snapshot.propertyId != d.snapshot.propertyId then (Refused(PropertyChanged), lead)
    else if current.Some? && current.value.observedAt == observed && current.value.revision != d.revision then
      (Refused(ConflictingSnapshots), lead)
    else if current.Some? && Less(observed, current.value.observedAt) then
      var receipt := Receipt(d.partition, IgnoredOlder, observed);
      (Recorded(receipt), lead.(receipts := receipts[key := receipt]))
    else if !GoodLabels(d.snapshot) then (Refused(InvalidLabel), lead)
    else
      var receipt := Receipt(d.partition, Applied, observed);
      (Recorded(receipt),
       Lead(Some(Evidence(d.snapshot, d.revision, observed)), receipts[key := receipt],
            d.snapshot.address, d.snapshot.city, d.snapshot.state))
  }

  /** The lead row; a refusal leaves it as it was, because nothing is committed. */
  class LeadRow {
    var evidence: Option<Evidence>
    var receipts: map<(string, string), Receipt>
    var address: Label
    var city: Label
    var state: Label

    function View(): Lead
      reads this
    {
      Lead(evidence, receipts, address, city, state)
    }

    constructor ()
      ensures View() == NEW_LEAD
    {
      evidence, receipts := None, map[];
      address, city, state := Missing, Missing, Missing;
    }

    method ReceiveBusiness(d: Delivery, c: Clock) returns (r: Outcome)
      modifies this
      ensures (r, View()) == Receive(old(View()), d, c)
    {
      var check := Checked(d, c);
      if check.Some? {
        return Refused(check.value);
      }
      var kept := Retained(receipts, c);
      var key := ReceiptKey(d);
      if key in kept {
        return Duplicate(kept[key]);
      }
      if |kept| >= RECEIPT_BUDGET {
        return Refused(BudgetExhausted);
      }
      if evidence.Some? && evidence.value.snapshot.propertyId != d.snapshot.propertyId {
        return Refused(PropertyChanged);
      }
      var observed := Iso(d.observed);
      if evidence.Some? && evidence.value.observedAt == observed && evidence.value.revision != d.revision {
        return Refused(ConflictingSnapshots);
      }
      var status := Applied;
      if evidence.Some? && Less(observed, evidence.value.observedAt) {
        status := IgnoredOlder;
      } else {
        if !GoodLabels(d.snapshot) {
          return Refused(InvalidLabel);
        }
        evidence := Some(Evidence(d.snapshot, d.revision, observed));
        address, city, state := d.snapshot.address, d.snapshot.city, d.snapshot.state;
      }
      var receipt := Receipt(d.partition, status, observed);
      receipts := kept[key := receipt];
      r := Recorded(receipt);
    }
  }

  const NEW_LEAD := Lead(None, map[], Missing, Missing, Missing)

  // ---------------------------------------------------------------- runs

  datatype Arrival = Arrival(delivery: Delivery, clock: Clock)

  function ReceiveAll(lead: Lead, run: seq<Arrival>): Lead
    decreases |run|
  {
    if run == [] then lead
    else
      var n := |run| - 1;
      Receive(ReceiveAll(lead, run[..n]), run[n].delivery, run[n].clock).1
  }

  ghost function Delivered(run: seq<Arrival>): set<Delivery> {
    set a | a in run :: a.delivery
  }

  /** The delivery is acceptable by itself at the time it arrives. */
  ghost predicate Acceptable(d: Delivery, c: Clock) {
    IsClock(c) && Valid(d.observed) && Checked(d, c).None? && GoodLabels(d.snapshot)
  }

  /** Deliveries about one property, within the receipt budget, with revisions that name snapshots. */
  ghost predicate Coherent(S: set<Delivery>) {
    && |S| <= RECEIPT_BUDGET
    && (forall d, e :: d in S && e in S ==> d.snapshot.propertyId == e.snapshot.propertyId)
    && (forall d, e :: d in S && e in S && d.revision == e.revision ==> d.snapshot == e.snapshot)
    && (forall d :: d in S ==> Valid(d.observed))
  }

  ghost predicate Latest(S: set<Delivery>, d: Delivery) {
    d in S && forall e :: e in S ==> Micros(e.observed) <= Micros(d.observed)
  }

  /** An earlier observation e under the same partition and revision whose receipt can still be held when
      d arrives, which may be a minute before its own time. */
  ghost predicate CanMask(e: Delivery, d: Delivery) {
    ReceiptKey(e) == ReceiptKey(d) && Micros(d.observed) - AHEAD - WEEK <= Micros(e.observed) < Micros(d.observed)
  }

  ghost predicate Unmasked(S: set<Delivery>, d: Delivery) {
    forall e :: e in S ==> !CanMask(e, d)
  }

  /** The condition: the latest observations agree on the revision, and one of them is the first
      observation of its partition and revision within a week and a minute. */
  ghost predicate OrderFree(S: set<Delivery>) {
    && LatestAgree(S)
    && (exists d :: Latest(S, d) && Unmasked(S, d))
  }

  // ---------------------------------------------------------------- invariant

  /** A receipt is that of a delivery seen, which is no later than `top`. */
  ghost predicate Receipted(seen: set<Delivery>, k: (string, string), r: Receipt, top: Delivery) {
    exists e :: e in seen && ReceiptKey(e) == k && r.recordedAt == Iso(e.observed) && Micros(e.observed) <= Micros(top.observed)
  }

  ghost predicate AllReceipted(seen: set<Delivery>, receipts: map<(string, string), Receipt>, top: Delivery) {
    forall k :: k in receipts ==> Receipted(seen, k, receipts[k], top)
  }

  /** After the deliveries `seen`, the evidence is that of `top`. */
  ghost predicate Holds(S: set<Delivery>, seen: set<Delivery>, lead: Lead, top: Delivery) {
    && seen <= S && top in seen
    && lead.evidence == Some(EvidenceOf(top))
    && AllReceipted(seen, lead.receipts, top)
    && (forall d :: d in seen && Latest(S, d) && Unmasked(S, d) ==> Micros(top.observed) == Micros(d.observed))
  }

  lemma {:induction false} KeyCount(S: set<Delivery>)
    ensures |set d | d in S :: ReceiptKey(d)| <= |S|
    decreases |S|
  {
    var keys := set d | d in S :: ReceiptKey(d);
    if S == {} {
      assert keys == {};
    } else {
      var x :| x in S;
      KeyCount(S - {x});
      var rest := set d | d in S - {x} :: ReceiptKey(d);
      assert keys == rest + {ReceiptKey(x)};
    }
  }

  lemma SmallerSubset<T>(a: set<T>, b: set<T>, x: T)
    requires a <= b && x in b && x !in a
    ensures |a| < |b|
  {
    assert b == a + (b - a);
    assert x in b - a;
  }

  ghost function Keys(S: set<Delivery>): set<(string, string)> {
    set d | d in S :: ReceiptKey(d)
  }

  /** The receipt budget is never the obstacle. */
  lemma BudgetSuffices(S: set<Delivery>, receipts: map<(string, string), Receipt>, d: Delivery, c: Clock)
    requires Coherent(S) && receipts.Keys <= Keys(S) && d in S
    requires ReceiptKey(d) !in Retained(receipts, c)
    ensures |Retained(receipts, c)| < RECEIPT_BUDGET
  {
    var kept := Retained(receipts, c);
    KeyCount(S);
    SmallerSubset(kept.Keys, Keys(S), ReceiptKey(d));
    assert |kept.Keys| == |kept|;
  }

  lemma ReceiptedKeys(S: set<Delivery>, seen: set<Delivery>, lead: Lead, top: Delivery)
    requires Holds(S, seen, lead, top)
    ensures lead.receipts.Keys <= Keys(S)
  {
    forall k | k in lead.receipts ensures k in Keys(S) {
      assert Receipted(seen, k, lead.receipts[k], top);
    }
  }

  lemma FirstArrival(S: set<Delivery>, d: Delivery, c: Clock)
    requires Coherent(S) && d in S && Acceptable(d, c)
    ensures Holds(S, {d}, Receive(NEW_LEAD, d, c).1, d)
  {
    assert Retained(map[], c) == map[];
    var lead := Receive(NEW_LEAD, d, c).1;
    assert lead.receipts == map[ReceiptKey(d) := Receipt(d.partition, Applied, Iso(d.observed))];
    NewReceipt({}, d, lead.receipts[ReceiptKey(d)], d);
    assert {} + {d} == {d};
  }

  lemma MoreSeen(seen: set<Delivery>, d: Delivery, k: (string, string), r: Receipt, top: Delivery, top': Delivery)
    requires Receipted(seen, k, r, top) && Micros(top.observed) <= Micros(top'.observed)
    ensures Receipted(seen + {d}, k, r, top')
  {
    var e :| e in seen && ReceiptKey(e) == k && r.recordedAt == Iso(e.observed) && Micros(e.observed) <= Micros(top.observed);
    assert e in seen + {d};
  }

  lemma NewReceipt(seen: set<Delivery>, d: Delivery, r: Receipt, top: Delivery)
    requires Micros(d.observed) <= Micros(top.observed) && r.recordedAt == Iso(d.observed)
    ensures Receipted(seen + {d}, ReceiptKey(d), r, top)
  {
    assert d in seen + {d};
  }

  /** Does d, arriving at a lead that holds the evidence of `top`, become the evidence? */
  ghost predicate Supersedes(d: Delivery, top: Delivery) {
    Micros(d.observed) > Micros(top.observed) || (Micros(d.observed) == Micros(top.observed) && d.revision == top.revision)
  }

  /** The receipts kept, and one for d. */
  ghost predicate Adds(kept: map<(string, string), Receipt>, d: Delivery, receipts: map<(string, string), Receipt>) {
    && receipts.Keys == kept.Keys + {ReceiptKey(d)} && receipts[ReceiptKey(d)].recordedAt == Iso(d.observed)
    && forall k :: k in kept && k != ReceiptKey(d) ==> receipts[k] == kept[k]
  }

  /** What an acceptable delivery does, in terms of instants. */
  ghost predicate Effect(lead: Lead, kept: map<(string, string), Receipt>, top: Delivery, d: Delivery, lead': Lead) {
    if ReceiptKey(d) in kept then lead' == lead
    else if Supersedes(d, top) then lead'.evidence == Some(EvidenceOf(d)) && Adds(kept, d, lead'.receipts)
    else if Micros(d.observed) == Micros(top.observed) then lead' == lead
    else lead'.evidence == lead.evidence && Adds(kept, d, lead'.receipts)
  }

  lemma ReceiveEffect(lead: Lead, top: Delivery, d: Delivery, c: Clock)
    requires lead.evidence == Some(EvidenceOf(top)) && Valid(top.observed) && Acceptable(d, c)
    requires top.snapshot.propertyId == d.snapshot.propertyId
    requires ReceiptKey(d) !in Retained(lead.receipts, c) ==> |Retained(lead.receipts, c)| < RECEIPT_BUDGET
    ensures Effect(lead, Retained(lead.receipts, c), top, d, Receive(lead, d, c).1)
  {
    IsoOrderIsTimeOrder(d.observed, top.observed);
  }

  /** The receipts after an arrival with that effect. */
  lemma EffectKeepsReceipts(seen: set<Delivery>, lead: Lead, c: Clock, top: Delivery, d: Delivery, lead': Lead, top': Delivery)
    requires AllReceipted(seen, lead.receipts, top)
    requires Effect(lead, Retained(lead.receipts, c), top, d, lead')
    requires top' == NextTop(Retained(lead.receipts, c), top, d)
    ensures AllReceipted(seen + {d}, lead'.receipts, top')
  {
    forall k | k in lead'.receipts ensures Receipted(seen + {d}, k, lead'.receipts[k], top') {
      if lead' == lead || k != ReceiptKey(d) {
        assert lead'.receipts[k] == lead.receipts[k];
        MoreSeen(seen, d, k, lead.receipts[k], top, top');
      } else {
        NewReceipt(seen, d, lead'.receipts[k], top');
      }
    }
  }

  ghost predicate LatestAgree(S: set<Delivery>) {
    forall x, y :: Latest(S, x) && Latest(S, y) ==> x.revision == y.revision
  }

  ghost function NextTop(kept: map<(string, string), Receipt>, top: Delivery, d: Delivery): Delivery {
    if ReceiptKey(d) !in kept && Supersedes(d, top) then d else top
  }

  /** A receipt that is retained when d arrives is recent enough to mask it. */
  lemma RetainedIsRecent(receipts: map<(string, string), Receipt>, d: Delivery, c: Clock, k: (string, string), e: Delivery)
    requires Acceptable(d, c) && k in Retained(receipts, c) && receipts[k].recordedAt == Iso(e.observed) && Valid(e.observed)
    ensures Micros(e.observed) >= Micros(d.observed) - AHEAD - WEEK
  {
    IsoOrderIsTimeOrder(e.observed, c.weekAgo);
  }

  lemma TopReached(S: set<Delivery>, seen: set<Delivery>, lead: Lead, top: Delivery, d: Delivery, c: Clock)
    requires Coherent(S) && Holds(S, seen, lead, top) && Latest(S, d) && Unmasked(S, d) && Acceptable(d, c) && LatestAgree(S)
    ensures Micros(NextTop(Retained(lead.receipts, c), top, d).observed) == Micros(d.observed)
  {
    var k := ReceiptKey(d);
    if k in Retained(lead.receipts, c) {
      assert Receipted(seen, k, lead.receipts[k], top);
      var e :| e in seen && ReceiptKey(e) == k && lead.receipts[k].recordedAt == Iso(e.observed) && Micros(e.observed) <= Micros(top.observed);
      RetainedIsRecent(lead.receipts, d, c, k, e);
      assert !CanMask(e, d);
    } else if Micros(d.observed) == Micros(top.observed) {
      assert Latest(S, top);
    }
  }

  lemma EffectKeepsTop(S: set<Delivery>, seen: set<Delivery>, lead: Lead, top: Delivery, d: Delivery, c: Clock)
    requires Coherent(S) && Holds(S, seen, lead, top) && d in S && Acceptable(d, c) && LatestAgree(S)
    ensures var top' := NextTop(Retained(lead.receipts, c), top, d);
            forall x :: x in seen + {d} && Latest(S, x) && Unmasked(S, x) ==> Micros(top'.observed) == Micros(x.observed)
  {
    var top' := NextTop(Retained(lead.receipts, c), top, d);
    forall x | x in seen + {d} && Latest(S, x) && Unmasked(S, x) ensures Micros(top'.observed) == Micros(x.observed) {
      if x in seen {
        assert Micros(top.observed) == Micros(x.observed);
      } else {
        TopReached(S, seen, lead, top, x, c);
      }
    }
  }

  lemma EffectKeepsHolds(S: set<Delivery>, seen: set<Delivery>, lead: Lead, top: Delivery, d: Delivery, c: Clock, lead': Lead)
    requires Coherent(S) && Holds(S, seen, lead, top) && d in S && Acceptable(d, c) && LatestAgree(S)
    requires Effect(lead, Retained(lead.receipts, c), top, d, lead')
    ensures Holds(S, seen + {d}, lead', NextTop(Retained(lead.receipts, c), top, d))
  {
    EffectKeepsReceipts(seen, lead, c, top, d, lead', NextTop(Retained(lead.receipts, c), top, d));
    EffectKeepsTop(S, seen, lead, top, d, c);
  }

  /** One more arrival keeps the invariant, possibly with a new `top`. */
  lemma NextArrival(S: set<Delivery>, seen: set<Delivery>, lead: Lead, top: Delivery, d: Delivery, c: Clock, lead': Lead)
    requires Coherent(S) && Holds(S, seen, lead, top) && d in S && Acceptable(d, c) && LatestAgree(S)
    requires lead' == Receive(lead, d, c).1
    ensures Holds(S, seen + {d}, lead', NextTop(Retained(lead.receipts, c), top, d))
  {
    if ReceiptKey(d) !in Retained(lead.receipts, c) {
      ReceiptedKeys(S, seen, lead, top);
      BudgetSuffices(S, lead.receipts, d, c);
    }
    ReceiveEffect(lead, top, d, c);
    EffectKeepsHolds(S, seen, lead, top, d, c, lead');
  }

  ghost predicate AllAcceptable(run: seq<Arrival>) {
    forall a :: a in run ==> Acceptable(a.delivery, a.clock)
  }

  lemma OneDelivered(a: Arrival)
    ensures Delivered([a]) == {a.delivery} && ReceiveAll(NEW_LEAD, [a]) == Receive(NEW_LEAD, a.delivery, a.clock).1
  {
    assert [a][..0] == [];
    assert a in [a];
  }

  lemma OneArrival(S: set<Delivery>, a: Arrival)
    requires Coherent(S) && a.delivery in S && Acceptable(a.delivery, a.clock)
    ensures Holds(S, Delivered([a]), ReceiveAll(NEW_LEAD, [a]), a.delivery)
  {
    FirstArrival(S, a.delivery, a.clock);
    OneDelivered(a);
  }

  lemma SnocHolds(S: set<Delivery>, init: seq<Arrival>, a: Arrival, t: Delivery) returns (top: Delivery)
    requires Coherent(S) && LatestAgree(S) && a.delivery in S && Acceptable(a.delivery, a.clock)
    requires Holds(S, Delivered(init), ReceiveAll(NEW_LEAD, init), t)
    ensures Holds(S, Delivered(init + [a]), ReceiveAll(NEW_LEAD, init + [a]), top)
  {
    var lead := ReceiveAll(NEW_LEAD, init);
    assert (init + [a])[..|init|] == init;
    NextArrival(S, Delivered(init), lead, t, a.delivery, a.clock, ReceiveAll(NEW_LEAD, init + [a]));
    DeliveredSnoc(init, a);
    top := NextTop(Retained(lead.receipts, a.clock), t, a.delivery);
  }

  lemma {:induction false} RunHolds(S: set<Delivery>, run: seq<Arrival>) returns (top: Delivery)
    requires Coherent(S) && LatestAgree(S) && run != [] && Delivered(run) <= S && AllAcceptable(run)
    ensures Holds(S, Delivered(run), ReceiveAll(NEW_LEAD, run), top)
    decreases |run|
  {
    var n := |run| - 1;
    var init, last := run[..n], run[n];
    assert run == init + [last];
    assert last in run;
    DeliveredSnoc(init, last);
    if n == 0 {
      assert run == [last];
      OneArrival(S, last);
      top := last.delivery;
    } else {
      var t := RunHolds(S, init);
      top := SnocHolds(S, init, last, t);
    }
  }

  lemma DeliveredSnoc(init: seq<Arrival>, last: Arrival)
    ensures Delivered(init + [last]) == Delivered(init) + {last.delivery}
  {
    var run := init + [last];
    assert run[|init|] == last;
    assert forall a :: a in run <==> a in init || a == last;
  }

  /** Sufficiency: under `OrderFree`, in whatever order and however often the deliveries arrive, at
      whatever times, the lead ends up with the evidence of the latest observation. */
  lemma LatestEvidenceWins(S: set<Delivery>, run: seq<Arrival>, d: Delivery)
    requires Coherent(S) && OrderFree(S) && Latest(S, d)
    requires Delivered(run) == S && AllAcceptable(run)
    ensures ReceiveAll(NEW_LEAD, run).evidence == Some(EvidenceOf(d))
  {
    assert d in Delivered(run);
    assert run != [];
    var top := RunHolds(S, run);
    var u :| Latest(S, u) && Unmasked(S, u);
    assert Micros(top.observed) == Micros(u.observed) == Micros(d.observed);
    assert Latest(S, top);
    assert top.revision == d.revision;
    IsoOrderIsTimeOrder(top.observed, d.observed);
  }

  // ---------------------------------------------------------------- necessity

  /** Each reading of the clock comes after those before it. */
  ghost predicate InTimeOrder(run: seq<Arrival>) {
    forall i, j :: 0 <= i < j < |run| ==> Micros(run[i].clock.weekAgo) + WEEK <= Micros(run[j].clock.now)
  }

  /** Every run of S, in any order, with any repetitions and at any times at which the deliveries are
      acceptable, ends in the evidence `e`. */
  ghost predicate SettlesAlways(S: set<Delivery>, e: Evidence) {
    forall run :: Delivered(run) == S && AllAcceptable(run) && InTimeOrder(run) ==> ReceiveAll(NEW_LEAD, run).evidence == Some(e)
  }

  /** Acceptable at the right time; a week before its own there still is a calendar. */
  ghost predicate Deliverable(d: Delivery) {
    d.wellFormed && Bound(d).None? && GoodLabels(d.snapshot) && Valid(d.observed) && d.observed.year >= 2
  }

  ghost predicate AllDeliverable(S: set<Delivery>) {
    forall d :: d in S ==> Deliverable(d)
  }

  lemma OwnClock(d: Delivery) returns (c: Clock)
    requires Deliverable(d)
    ensures IsInstant(c) && c.now == d.observed && Acceptable(d, c)
  {
    FromYearTwo(d.observed);
    var weekAgo := DaysBefore(d.observed, 7);
    c := Clock(d.observed, weekAgo);
  }

  /** The first moment at which d is acceptable. */
  lemma EarliestClock(d: Delivery) returns (c: Clock)
    requires Deliverable(d)
    ensures IsInstant(c) && Micros(c.now) == Micros(d.observed) - AHEAD
  {
    FromYearTwo(d.observed);
    var now := MinuteBefore(d.observed);
    var weekAgo := DaysBefore(now, 7);
    c := Clock(now, weekAgo);
  }

  // -- what arrives at one instant, at a lead that has seen older deliveries

  /** Deliveries arriving one after the other under one reading of the clock. */
  ghost function At(ds: seq<Delivery>, c: Clock): seq<Arrival> {
    seq(|ds|, i requires 0 <= i < |ds| => Arrival(ds[i], c))
  }

  ghost function Members(ds: seq<Delivery>): set<Delivery> {
    set d | d in ds
  }

  /** Every order of R at one instant ends in the evidence `e`. */
  ghost predicate SettlesFrom(start: Lead, R: set<Delivery>, c: Clock, e: Evidence) {
    forall ds: seq<Delivery> :: Members(ds) == R ==> ReceiveAll(start, At(ds, c)).evidence == Some(e)
  }

  lemma DeliveredAt(ds: seq<Delivery>, c: Clock)
    ensures Delivered(At(ds, c)) == Members(ds)
  {
    var run := At(ds, c);
    forall x ensures x in Delivered(run) <==> x in Members(ds) {
      if x in Delivered(run) {
        var a :| a in run && a.delivery == x;
      }
      if x in Members(ds) {
        var i :| 0 <= i < |ds| && ds[i] == x;
        assert run[i] == Arrival(x, c);
        assert run[i] in run;
      }
    }
  }

  lemma AtSnoc(start: Lead, ds: seq<Delivery>, d: Delivery, c: Clock)
    ensures ReceiveAll(start, At(ds + [d], c)) == Receive(ReceiveAll(start, At(ds, c)), d, c).1
  {
    assert At(ds + [d], c)[..|ds|] == At(ds, c);
  }

  lemma MembersSnoc(ds: seq<Delivery>, d: Delivery)
    ensures Members(ds + [d]) == Members(ds) + {d}
  {
    assert (ds + [d])[|ds|] == d;
    assert forall x :: x in ds + [d] <==> x in ds || x == d;
  }

  lemma MembersConcat(a: seq<Delivery>, b: seq<Delivery>)
    ensures Members(a + b) == Members(a) + Members(b)
  {
  }

  lemma ConcatSnoc(first: seq<Delivery>, init: seq<Delivery>, d: Delivery)
    ensures first + (init + [d]) == (first + init) + [d]
  {
  }

  lemma {:induction false} Listing(S: set<Delivery>) returns (ds: seq<Delivery>)
    ensures Members(ds) == S
    decreases S
  {
    if S == {} {
      ds := [];
    } else {
      var x :| x in S;
      var rest := Listing(S - {x});
      ds := rest + [x];
      MembersSnoc(rest, x);
    }
  }

  ghost predicate AllAcceptableAt(R: set<Delivery>, c: Clock) {
    IsInstant(c) && forall d :: d in R ==> Acceptable(d, c)
  }

  ghost predicate LongAgo(S: set<Delivery>, e: Evidence, c: Clock) {
    exists t :: t in S && e == EvidenceOf(t) && Micros(t.observed) < Micros(c.weekAgo)
  }

  /** All that the lead has seen is more than a week old. */
  ghost predicate SawOnlyOld(S: set<Delivery>, start: Lead, c: Clock) {
    && (start.evidence.Some? ==> LongAgo(S, start.evidence.value, c))
    && Retained(start.receipts, c) == map[] && start.receipts.Keys <= Keys(S)
  }

  lemma ProcessCases(lead: Lead, receipts: map<(string, string), Receipt>, d: Delivery, observed: string)
    ensures var lead' := Process(lead, receipts, d, observed).1;
            && (lead'.evidence == lead.evidence || lead'.evidence == Some(Evidence(d.snapshot, d.revision, observed)))
            && (ReceiptKey(d) in receipts ==> lead' == lead)
            && (lead' == lead || exists status :: lead'.receipts == receipts[ReceiptKey(d) := Receipt(d.partition, status, observed)])
  {
  }

  lemma EvidenceCases(lead: Lead, d: Delivery, c: Clock)
    ensures Receive(lead, d, c).1.evidence == lead.evidence || Receive(lead, d, c).1.evidence == Some(EvidenceOf(d))
    ensures ReceiptKey(d) in Retained(lead.receipts, c) ==> Receive(lead, d, c).1 == lead
    ensures Receive(lead, d, c).1.receipts.Keys <= lead.receipts.Keys + {ReceiptKey(d)}
  {
    ProcessCases(lead, Retained(lead.receipts, c), d, Iso(d.observed));
  }

  /** At one instant no receipt of an arrival is dropped again. */
  lemma RetainedStays(lead: Lead, d: Delivery, c: Clock)
    requires IsInstant(c) && Acceptable(d, c)
    ensures Retained(lead.receipts, c).Keys <= Retained(Receive(lead, d, c).1.receipts, c).Keys
  {
    IsoOrderIsTimeOrder(d.observed, c.weekAgo);
    ProcessCases(lead, Retained(lead.receipts, c), d, Iso(d.observed));
  }

  lemma LongAgoIsBefore(S: set<Delivery>, e: Evidence, d: Delivery, c: Clock)
    requires Coherent(S) && LongAgo(S, e, c) && IsInstant(c) && d in S && Acceptable(d, c)
    ensures e.snapshot.propertyId == d.snapshot.propertyId && e.observedAt != Iso(d.observed) && !Less(Iso(d.observed), e.observedAt)
  {
    var t :| t in S && e == EvidenceOf(t) && Micros(t.observed) < Micros(c.weekAgo);
    IsoOrderIsTimeOrder(d.observed, t.observed);
  }

  lemma FirstOfTheLatest(S: set<Delivery>, start: Lead, first: Delivery, c: Clock)
    requires Coherent(S) && SawOnlyOld(S, start, c) && IsInstant(c) && first in S && Acceptable(first, c)
    ensures Receive(start, first, c).1.evidence == Some(EvidenceOf(first))
  {
    if start.evidence.Some? {
      LongAgoIsBefore(S, start.evidence.value, first, c);
    }
  }

  /** Once the latest observation is the evidence under one revision, nothing displaces it. */
  lemma LatestStays(S: set<Delivery>, lead: Lead, first: Delivery, d: Delivery, c: Clock)
    requires Coherent(S) && Latest(S, first) && d in S && Acceptable(d, c)
    requires lead.evidence == Some(EvidenceOf(first))
    ensures Receive(lead, d, c).1.evidence == Some(EvidenceOf(first))
  {
    IsoOrderIsTimeOrder(d.observed, first.observed);
  }

  lemma {:induction false} LatestStaysAll(S: set<Delivery>, start: Lead, first: Delivery, ds: seq<Delivery>, c: Clock)
    requires Coherent(S) && SawOnlyOld(S, start, c) && Latest(S, first) && Acceptable(first, c)
    requires Members(ds) <= S && AllAcceptableAt(Members(ds), c)
    ensures ReceiveAll(start, At([first] + ds, c)).evidence == Some(EvidenceOf(first))
    decreases |ds|
  {
    if ds == [] {
      AtSnoc(start, [], first, c);
      assert [] + [first] == [first] && [first] + ds == [first] && At([], c) == [];
      FirstOfTheLatest(S, start, first, c);
    } else {
      var init, d := ds[..|ds| - 1], ds[|ds| - 1];
      assert ds == init + [d];
      MembersSnoc(init, d);
      LatestStaysAll(S, start, first, init, c);
      AtSnoc(start, [first] + init, d, c);
      ConcatSnoc([first], init, d);
      assert d in Members(ds);
      LatestStays(S, ReceiveAll(start, At([first] + init, c)), first, d, c);
    }
  }

  lemma SettledEvidence(start: Lead, R: set<Delivery>, c: Clock, e: Evidence, ds: seq<Delivery>, found: Option<Evidence>)
    requires SettlesFrom(start, R, c, e) && Members(ds) == R
    requires found == ReceiveAll(start, At(ds, c)).evidence
    ensures found == Some(e)
  {
  }

  /** If every order settles on one evidence, the latest observations agree on the revision. */
  lemma SettlingNeedsAgreement(S: set<Delivery>, start: Lead, R: set<Delivery>, c: Clock, d: Delivery, e: Delivery)
    requires Coherent(S) && SawOnlyOld(S, start, c) && R <= S && AllAcceptableAt(R, c) && Latest(S, e) && e in R
    requires SettlesFrom(start, R, c, EvidenceOf(d))
    ensures e.revision == d.revision
  {
    var ds := Listing(R);
    LatestStaysAll(S, start, e, ds, c);
    MembersConcat([e], ds);
    assert Members([e]) == {e};
    SettledEvidence(start, R, c, EvidenceOf(d), [e] + ds, Some(EvidenceOf(e)));
  }

  // -- when every latest observation is masked by an earlier one

  ghost predicate Older(S: set<Delivery>, e: Evidence, l: Delivery) {
    exists t :: t in S && e == EvidenceOf(t) && Micros(t.observed) < Micros(l.observed)
  }

  /** The evidence is earlier than the latest observation `l`, and the receipts of `keys` are in. */
  ghost predicate Stuck(S: set<Delivery>, lead: Lead, l: Delivery, keys: set<(string, string)>, c: Clock) {
    && IsInstant(c)
    && (lead.evidence.Some? ==> Older(S, lead.evidence.value, l))
    && keys <= Retained(lead.receipts, c).Keys
  }

  lemma StuckStays(S: set<Delivery>, lead: Lead, l: Delivery, keys: set<(string, string)>, d: Delivery, c: Clock, lead': Lead)
    requires Stuck(S, lead, l, keys, c) && Latest(S, l) && d in S && Acceptable(d, c)
    requires Latest(S, d) ==> ReceiptKey(d) in keys
    requires lead' == Receive(lead, d, c).1
    ensures Stuck(S, lead', l, keys, c)
  {
    RetainedStays(lead, d, c);
    EvidenceCases(lead, d, c);
    if !Latest(S, d) {
      assert Micros(d.observed) < Micros(l.observed);
      assert Older(S, EvidenceOf(d), l);
    }
  }

  lemma {:induction false} StuckStaysAll(S: set<Delivery>, start: Lead, first: seq<Delivery>, l: Delivery, keys: set<(string, string)>,
                                         ds: seq<Delivery>, c: Clock)
    requires Stuck(S, ReceiveAll(start, At(first, c)), l, keys, c) && Latest(S, l)
    requires Members(ds) <= S && AllAcceptableAt(Members(ds), c)
    requires forall d :: Latest(S, d) ==> ReceiptKey(d) in keys
    ensures Stuck(S, ReceiveAll(start, At(first + ds, c)), l, keys, c)
    decreases |ds|
  {
    if ds == [] {
      assert first + ds == first;
    } else {
      var init, d := ds[..|ds| - 1], ds[|ds| - 1];
      assert ds == init + [d];
      MembersSnoc(init, d);
      assert d in Members(ds);
      StuckStaysAll(S, start, first, l, keys, init, c);
      StuckSnoc(S, start, first + init, l, keys, d, c);
      ConcatSnoc(first, init, d);
    }
  }

  lemma StuckSnoc(S: set<Delivery>, start: Lead, init: seq<Delivery>, l: Delivery, keys: set<(string, string)>, d: Delivery, c: Clock)
    requires Stuck(S, ReceiveAll(start, At(init, c)), l, keys, c) && Latest(S, l)
    requires d in S && Acceptable(d, c) && (Latest(S, d) ==> ReceiptKey(d) in keys)
    ensures Stuck(S, ReceiveAll(start, At(init + [d], c)), l, keys, c)
  {
    AtSnoc(start, init, d, c);
    StuckStays(S, ReceiveAll(start, At(init, c)), l, keys, d, c, ReceiveAll(start, At(init + [d], c)));
  }

  /** No evidence that a masking observation could conflict with: it carries their revision, or is long gone. */
  ghost predicate Calm(S: set<Delivery>, lead: Lead, l: Delivery, c: Clock) {
    lead.evidence.Some? ==> lead.evidence.value.revision == l.revision || LongAgo(S, lead.evidence.value, c)
  }

  /** The masking observations are all accepted: they carry one revision, so never conflict. */
  ghost predicate Masking(S: set<Delivery>, seen: seq<Delivery>, lead: Lead, l: Delivery, c: Clock) {
    && Stuck(S, lead, l, Keys(Members(seen)), c)
    && Calm(S, lead, l, c)
    && lead.receipts.Keys <= Keys(S)
  }

  lemma NoConflict(S: set<Delivery>, lead: Lead, l: Delivery, m: Delivery, c: Clock)
    requires Coherent(S) && IsInstant(c) && Acceptable(m, c) && m.revision == l.revision && Calm(S, lead, l, c)
    ensures lead.evidence.Some? && lead.evidence.value.observedAt == Iso(m.observed) ==> lead.evidence.value.revision == m.revision
  {
    if lead.evidence.Some? && lead.evidence.value.revision != l.revision {
      var t :| t in S && lead.evidence.value == EvidenceOf(t) && Micros(t.observed) < Micros(c.weekAgo);
      IsoOrderIsTimeOrder(m.observed, t.observed);
    }
  }

  lemma MaskAccepted(S: set<Delivery>, lead: Lead, l: Delivery, m: Delivery, c: Clock)
    requires Coherent(S) && IsInstant(c) && lead.receipts.Keys <= Keys(S)
    requires m in S && Acceptable(m, c) && m.revision == l.revision
    requires Calm(S, lead, l, c) && (lead.evidence.Some? ==> Older(S, lead.evidence.value, l))
    ensures ReceiptKey(m) in Retained(Receive(lead, m, c).1.receipts, c)
  {
    NoConflict(S, lead, l, m, c);
    if ReceiptKey(m) !in Retained(lead.receipts, c) {
      BudgetSuffices(S, lead.receipts, m, c);
      MaskRecorded(S, lead, l, m, c);
      IsoOrderIsTimeOrder(m.observed, c.weekAgo);
    }
  }

  lemma MaskRecorded(S: set<Delivery>, lead: Lead, l: Delivery, m: Delivery, c: Clock)
    requires Coherent(S) && m in S && Acceptable(m, c) && ReceiptKey(m) !in Retained(lead.receipts, c)
    requires |Retained(lead.receipts, c)| < RECEIPT_BUDGET
    requires lead.evidence.Some? ==> Older(S, lead.evidence.value, l)
    requires lead.evidence.Some? && lead.evidence.value.observedAt == Iso(m.observed) ==> lead.evidence.value.revision == m.revision
    ensures var receipts := Receive(lead, m, c).1.receipts;
            ReceiptKey(m) in receipts && receipts[ReceiptKey(m)].recordedAt == Iso(m.observed)
  {
  }

  lemma KeysSnoc(seen: seq<Delivery>, m: Delivery)
    ensures Keys(Members(seen + [m])) == Keys(Members(seen)) + {ReceiptKey(m)}
  {
    MembersSnoc(seen, m);
  }

  lemma CalmStays(S: set<Delivery>, lead: Lead, l: Delivery, m: Delivery, c: Clock, lead': Lead)
    requires Calm(S, lead, l, c) && m.revision == l.revision && lead' == Receive(lead, m, c).1
    ensures Calm(S, lead', l, c)
    ensures lead'.receipts.Keys <= lead.receipts.Keys + {ReceiptKey(m)}
  {
    EvidenceCases(lead, m, c);
  }

  lemma MaskingStep(S: set<Delivery>, seen: seq<Delivery>, lead: Lead, l: Delivery, m: Delivery, c: Clock, lead': Lead)
    requires Coherent(S) && Masking(S, seen, lead, l, c) && Latest(S, l)
    requires m in S && Acceptable(m, c) && m.revision == l.revision && Micros(m.observed) < Micros(l.observed)
    requires lead' == Receive(lead, m, c).1
    ensures Masking(S, seen + [m], lead', l, c)
  {
    MaskAccepted(S, lead, l, m, c);
    StuckStays(S, lead, l, Keys(Members(seen)), m, c, lead');
    CalmStays(S, lead, l, m, c, lead');
    KeysSnoc(seen, m);
    MaskingFromParts(S, seen, lead', l, m, c);
  }

  lemma MaskingFromParts(S: set<Delivery>, seen: seq<Delivery>, lead': Lead, l: Delivery, m: Delivery, c: Clock)
    requires Stuck(S, lead', l, Keys(Members(seen)), c) && ReceiptKey(m) in Retained(lead'.receipts, c)
    requires Calm(S, lead', l, c) && lead'.receipts.Keys <= Keys(S)
    requires Keys(Members(seen + [m])) == Keys(Members(seen)) + {ReceiptKey(m)}
    ensures Masking(S, seen + [m], lead', l, c)
  {
  }

  ghost predicate Masks(S: set<Delivery>, m: Delivery) {
    m in S && exists t :: Latest(S, t) && CanMask(m, t)
  }

  /** Before the masking observations. */
  lemma StartIsMasking(S: set<Delivery>, start: Lead, l: Delivery, c: Clock)
    requires IsInstant(c) && SawOnlyOld(S, start, c) && Micros(c.weekAgo) < Micros(l.observed)
    ensures Masking(S, [], start, l, c)
  {
    assert Keys(Members([])) == {};
    if start.evidence.Some? {
      var t :| t in S && start.evidence.value == EvidenceOf(t) && Micros(t.observed) < Micros(c.weekAgo);
      assert Older(S, start.evidence.value, l);
    }
  }

  lemma {:induction false} MaskingRun(S: set<Delivery>, start: Lead, ms: seq<Delivery>, l: Delivery, c: Clock)
    requires Coherent(S) && LatestAgree(S) && SawOnlyOld(S, start, c) && Latest(S, l) && Micros(c.weekAgo) < Micros(l.observed)
    requires AllAcceptableAt(Members(ms), c)
    requires forall m :: m in ms ==> Masks(S, m)
    ensures Masking(S, ms, ReceiveAll(start, At(ms, c)), l, c)
    decreases |ms|
  {
    if ms == [] {
      assert At(ms, c) == [];
      StartIsMasking(S, start, l, c);
    } else {
      var n := |ms| - 1;
      assert ms == ms[..n] + [ms[n]];
      MembersSnoc(ms[..n], ms[n]);
      MaskingRun(S, start, ms[..n], l, c);
      AtSnoc(start, ms[..n], ms[n], c);
      assert Masks(S, ms[n]) && ms[n] in Members(ms);
      MaskingStep(S, ms[..n], ReceiveAll(start, At(ms[..n], c)), l, ms[n], c, ReceiveAll(start, At(ms, c)));
    }
  }

  lemma MaskedKeys(S: set<Delivery>, masks: set<Delivery>)
    requires masks == set m | m in S && Masks(S, m)
    requires forall d :: Latest(S, d) ==> !Unmasked(S, d)
    ensures forall d :: Latest(S, d) ==> ReceiptKey(d) in Keys(masks)
  {
    forall d | Latest(S, d) ensures ReceiptKey(d) in Keys(masks) {
      var e :| e in S && CanMask(e, d);
      assert Masks(S, e);
    }
  }

  lemma MaskedStart(S: set<Delivery>, start: Lead, R: set<Delivery>, c: Clock, l: Delivery)
    returns (ms: seq<Delivery>, keys: set<(string, string)>)
    requires Coherent(S) && LatestAgree(S) && SawOnlyOld(S, start, c) && AllAcceptableAt(R, c)
    requires Latest(S, l) && Micros(c.weekAgo) < Micros(l.observed) && (forall m :: Masks(S, m) ==> m in R)
    requires forall d :: Latest(S, d) ==> !Unmasked(S, d)
    ensures Members(ms) <= R && Stuck(S, ReceiveAll(start, At(ms, c)), l, keys, c)
    ensures forall d :: Latest(S, d) ==> ReceiptKey(d) in keys
  {
    var masks := set m | m in S && Masks(S, m);
    ms := Listing(masks);
    forall m | m in ms ensures Masks(S, m) {
      assert m in Members(ms);
    }
    MaskingRun(S, start, ms, l, c);
    MaskedKeys(S, masks);
    keys := Keys(masks);
  }

  lemma StuckToTheEnd(S: set<Delivery>, start: Lead, R: set<Delivery>, c: Clock, l: Delivery, ms: seq<Delivery>,
                      keys: set<(string, string)>, all: seq<Delivery>)
    requires R <= S && AllAcceptableAt(R, c) && Latest(S, l) && Members(ms) <= R && Members(all) == R
    requires Stuck(S, ReceiveAll(start, At(ms, c)), l, keys, c)
    requires forall d :: Latest(S, d) ==> ReceiptKey(d) in keys
    ensures Members(ms + all) == R
    ensures var e := ReceiveAll(start, At(ms + all, c)).evidence; e.Some? ==> Older(S, e.value, l)
  {
    StuckStaysAll(S, start, ms, l, keys, all, c);
    MembersConcat(ms, all);
  }

  /** If every latest observation is masked, some order never gets to it. */
  lemma MaskedOrder(S: set<Delivery>, start: Lead, R: set<Delivery>, c: Clock, l: Delivery) returns (ds: seq<Delivery>)
    requires Coherent(S) && LatestAgree(S) && SawOnlyOld(S, start, c) && R <= S && AllAcceptableAt(R, c)
    requires Latest(S, l) && Micros(c.weekAgo) < Micros(l.observed) && (forall m :: Masks(S, m) ==> m in R)
    requires forall d :: Latest(S, d) ==> !Unmasked(S, d)
    ensures Members(ds) == R
    ensures var e := ReceiveAll(start, At(ds, c)).evidence; e.Some? ==> Older(S, e.value, l)
  {
    var ms, keys := MaskedStart(S, start, R, c, l);
    var all := Listing(R);
    StuckToTheEnd(S, start, R, c, l, ms, keys, all);
    ds := ms + all;
  }

  lemma SettlingNeedsUnmasked(S: set<Delivery>, start: Lead, R: set<Delivery>, c: Clock, d: Delivery)
    requires Coherent(S) && LatestAgree(S) && SawOnlyOld(S, start, c) && R <= S && AllAcceptableAt(R, c)
    requires Latest(S, d) && Micros(c.weekAgo) < Micros(d.observed) && (forall m :: Masks(S, m) ==> m in R)
    requires SettlesFrom(start, R, c, EvidenceOf(d))
    ensures exists u :: Latest(S, u) && Unmasked(S, u)
  {
    if forall u :: Latest(S, u) ==> !Unmasked(S, u) {
      var ds := MaskedOrder(S, start, R, c, d);
      SettledEvidence(start, R, c, EvidenceOf(d), ds, ReceiveAll(start, At(ds, c)).evidence);
      NotOlder(S, d);
    }
  }

  lemma NotOlder(S: set<Delivery>, d: Delivery)
    requires Coherent(S) && d in S
    ensures !Older(S, EvidenceOf(d), d)
  {
    forall t | t in S && EvidenceOf(t) == EvidenceOf(d) ensures Micros(t.observed) == Micros(d.observed) {
      IsoOrderIsTimeOrder(t.observed, d.observed);
    }
  }

  // -- the deliveries before that instant

  /** A lead holds only what has been delivered to it. */
  ghost predicate Traces(D: set<Delivery>, lead: Lead) {
    && (lead.evidence.Some? ==> exists t :: t in D && lead.evidence.value == EvidenceOf(t))
    && (forall k :: k in lead.receipts ==> IsReceiptOf(D, k, lead.receipts[k]))
  }

  ghost predicate IsReceiptOf(D: set<Delivery>, k: (string, string), r: Receipt) {
    exists e :: e in D && ReceiptKey(e) == k && r.recordedAt == Iso(e.observed)
  }

  lemma TracesStep(D: set<Delivery>, lead: Lead, d: Delivery, c: Clock)
    requires Traces(D, lead) && d in D
    ensures Traces(D, Receive(lead, d, c).1)
  {
    ProcessCases(lead, Retained(lead.receipts, c), d, Iso(d.observed));
    var lead' := Receive(lead, d, c).1;
    if lead'.evidence != lead.evidence {
      assert lead'.evidence == Some(EvidenceOf(d));
    }
    forall k | k in lead'.receipts ensures IsReceiptOf(D, k, lead'.receipts[k]) {
      if k in lead.receipts && lead'.receipts[k] == lead.receipts[k] {
        assert IsReceiptOf(D, k, lead.receipts[k]);
      } else {
        assert k == ReceiptKey(d) && lead'.receipts[k].recordedAt == Iso(d.observed);
      }
    }
  }

  lemma {:induction false} RunTraces(D: set<Delivery>, run: seq<Arrival>)
    requires forall a :: a in run ==> a.delivery in D
    ensures Traces(D, ReceiveAll(NEW_LEAD, run))
    decreases |run|
  {
    if run != [] {
      var n := |run| - 1;
      RunTraces(D, run[..n]);
      TracesStep(D, ReceiveAll(NEW_LEAD, run[..n]), run[n].delivery, run[n].clock);
    }
  }

  lemma OldReceipt(S: set<Delivery>, D: set<Delivery>, k: (string, string), r: Receipt, c: Clock)
    requires D <= S && IsReceiptOf(D, k, r) && Valid(c.weekAgo)
    requires forall d :: d in D ==> Valid(d.observed) && Micros(d.observed) < Micros(c.weekAgo)
    ensures Less(r.recordedAt, Iso(c.weekAgo)) && k in Keys(S)
  {
    var e :| e in D && ReceiptKey(e) == k && r.recordedAt == Iso(e.observed);
    IsoOrderIsTimeOrder(e.observed, c.weekAgo);
  }

  lemma OldTraces(S: set<Delivery>, D: set<Delivery>, lead: Lead, c: Clock)
    requires Coherent(S) && D <= S && Traces(D, lead) && Valid(c.weekAgo)
    requires forall d :: d in D ==> Micros(d.observed) < Micros(c.weekAgo)
    ensures SawOnlyOld(S, lead, c)
  {
    forall k | k in lead.receipts ensures Less(lead.receipts[k].recordedAt, Iso(c.weekAgo)) && k in Keys(S) {
      OldReceipt(S, D, k, lead.receipts[k], c);
    }
  }

  lemma {:induction false} SomeLatest(D: set<Delivery>) returns (x: Delivery)
    requires D != {}
    ensures Latest(D, x)
    decreases D
  {
    var y :| y in D;
    if D == {y} {
      x := y;
    } else {
      assert D - {y} != {};
      var z := SomeLatest(D - {y});
      x := if Micros(z.observed) <= Micros(y.observed) then y else z;
    }
  }

  /** A run in the order of time, each arrival at one instant, none after `last`. */
  ghost predicate Timely(run: seq<Arrival>, last: int) {
    && AllAcceptable(run) && InTimeOrder(run)
    && forall a :: a in run ==> IsInstant(a.clock) && Micros(a.clock.now) <= last
  }

  ghost predicate UpTo(D: set<Delivery>, last: int) {
    forall d :: d in D ==> Micros(d.observed) <= last
  }

  lemma WithoutLatest(D: set<Delivery>, x: Delivery)
    requires AllDeliverable(D) && Latest(D, x)
    ensures AllDeliverable(D - {x}) && UpTo(D - {x}, Micros(x.observed)) && Deliverable(x)
  {
  }

  /** Deliveries can arrive in the order of their observations, each at its own time. */
  lemma {:induction false} TimedRun(D: set<Delivery>, last: int) returns (run: seq<Arrival>)
    requires AllDeliverable(D) && UpTo(D, last)
    ensures Delivered(run) == D && Timely(run, last)
    decreases D
  {
    if D == {} {
      run := [];
    } else {
      var x := SomeLatest(D);
      WithoutLatest(D, x);
      var init := TimedRun(D - {x}, Micros(x.observed));
      var c := OwnClock(x);
      run := init + [Arrival(x, c)];
      DeliveredSnoc(init, Arrival(x, c));
      TimelySnoc(init, Arrival(x, c), last);
    }
  }

  lemma TimelySnoc(init: seq<Arrival>, a: Arrival, last: int)
    requires Timely(init, Micros(a.clock.now)) && Acceptable(a.delivery, a.clock) && IsInstant(a.clock)
    requires Micros(a.clock.now) <= last
    ensures Timely(init + [a], last)
  {
    var run := init + [a];
    forall i | 0 <= i < |init| ensures Micros(run[i].clock.weekAgo) + WEEK <= Micros(a.clock.now) {
      assert init[i] in init;
    }
  }

  lemma AtIsConcat(init: seq<Delivery>, d: Delivery, c: Clock)
    ensures At(init + [d], c) == At(init, c) + [Arrival(d, c)]
  {
  }

  lemma {:induction false} ThenAt(past: seq<Arrival>, ds: seq<Delivery>, c: Clock)
    requires Timely(past, Micros(c.now)) && AllAcceptableAt(Members(ds), c)
    ensures Timely(past + At(ds, c), Micros(c.now))
    decreases |ds|
  {
    if ds == [] {
      assert past + At(ds, c) == past;
    } else {
      var init, d := ds[..|ds| - 1], ds[|ds| - 1];
      assert ds == init + [d];
      MembersSnoc(init, d);
      assert d in Members(ds);
      ThenAt(past, init, c);
      AtIsConcat(init, d, c);
      assert past + At(ds, c) == (past + At(init, c)) + [Arrival(d, c)];
      TimelySnoc(past + At(init, c), Arrival(d, c), Micros(c.now));
    }
  }

  lemma {:induction false} ReceiveConcat(start: Lead, a: seq<Arrival>, b: seq<Arrival>)
    ensures ReceiveAll(start, a + b) == ReceiveAll(ReceiveAll(start, a), b)
    decreases |b|
  {
    if b == [] {
      assert a + b == a;
    } else {
      var n := |b| - 1;
      ReceiveConcat(start, a, b[..n]);
      assert (a + b)[..|a| + n] == a + b[..n];
    }
  }

  lemma DeliveredConcat(a: seq<Arrival>, b: seq<Arrival>)
    ensures Delivered(a + b) == Delivered(a) + Delivered(b)
  {
    forall x ensures x in Delivered(a + b) <==> x in Delivered(a) || x in Delivered(b) {
      if y :| y in a && y.delivery == x { assert y in a + b; }
      if y :| y in b && y.delivery == x { assert y in a + b; }
    }
  }

  // -- the theorem

  ghost function Recent(S: set<Delivery>, c: Clock): set<Delivery> {
    set d | d in S && Micros(d.observed) >= Micros(c.weekAgo)
  }

  lemma RecentIsAcceptable(S: set<Delivery>, d: Delivery, c: Clock)
    requires AllDeliverable(S) && Latest(S, d) && IsInstant(c) && Micros(c.now) == Micros(d.observed) - AHEAD
    ensures AllAcceptableAt(Recent(S, c), c)
  {
    forall e | e in Recent(S, c) ensures Acceptable(e, c) {
      assert Deliverable(e) && InWindow(e, c);
    }
  }

  lemma MasksAreRecent(S: set<Delivery>, d: Delivery, c: Clock)
    requires Latest(S, d) && IsInstant(c) && Micros(c.now) == Micros(d.observed) - AHEAD
    ensures forall e :: Latest(S, e) || Masks(S, e) ==> e in Recent(S, c)
  {
    forall e | Masks(S, e) ensures e in Recent(S, c) {
      var t :| Latest(S, t) && CanMask(e, t);
    }
  }

  /** At the first moment of the latest observations: everything that can mask them is acceptable, and
      everything else has come and is more than a week old. */
  lemma TheMoment(S: set<Delivery>, d: Delivery) returns (c: Clock, past: seq<Arrival>)
    requires Coherent(S) && AllDeliverable(S) && Latest(S, d)
    ensures AllAcceptableAt(Recent(S, c), c) && Micros(c.weekAgo) < Micros(d.observed)
    ensures forall e :: Latest(S, e) || Masks(S, e) ==> e in Recent(S, c)
    ensures Delivered(past) == S - Recent(S, c) && Timely(past, Micros(c.now))
    ensures SawOnlyOld(S, ReceiveAll(NEW_LEAD, past), c)
  {
    c := EarliestClock(d);
    RecentIsAcceptable(S, d, c);
    MasksAreRecent(S, d, c);
    var D := S - Recent(S, c);
    past := TimedRun(D, Micros(c.now));
    PastIsOld(S, D, past, c);
  }

  lemma PastIsOld(S: set<Delivery>, D: set<Delivery>, past: seq<Arrival>, c: Clock)
    requires Coherent(S) && D <= S && Delivered(past) == D && Valid(c.weekAgo)
    requires forall d :: d in D ==> Micros(d.observed) < Micros(c.weekAgo)
    ensures SawOnlyOld(S, ReceiveAll(NEW_LEAD, past), c)
  {
    forall a | a in past ensures a.delivery in D {
      assert a.delivery in Delivered(past);
    }
    RunTraces(D, past);
    OldTraces(S, D, ReceiveAll(NEW_LEAD, past), c);
  }

  lemma AlwaysSettlesAtOnce(S: set<Delivery>, c: Clock, past: seq<Arrival>, e: Evidence)
    requires SettlesAlways(S, e) && AllAcceptableAt(Recent(S, c), c)
    requires Delivered(past) == S - Recent(S, c) && Timely(past, Micros(c.now))
    ensures SettlesFrom(ReceiveAll(NEW_LEAD, past), Recent(S, c), c, e)
  {
    forall ds: seq<Delivery> | Members(ds) == Recent(S, c)
      ensures ReceiveAll(ReceiveAll(NEW_LEAD, past), At(ds, c)).evidence == Some(e)
    {
      ThenAt(past, ds, c);
      DeliveredAt(ds, c);
      DeliveredConcat(past, At(ds, c));
      ReceiveConcat(NEW_LEAD, past, At(ds, c));
      assert Delivered(past + At(ds, c)) == S;
    }
  }

  lemma OrderFreeSettles(S: set<Delivery>, d: Delivery)
    requires Coherent(S) && OrderFree(S) && Latest(S, d)
    ensures SettlesAlways(S, EvidenceOf(d))
  {
    forall run | Delivered(run) == S && AllAcceptable(run) ensures ReceiveAll(NEW_LEAD, run).evidence == Some(EvidenceOf(d)) {
      LatestEvidenceWins(S, run, d);
    }
  }

  lemma SettlingNeedsOrderFree(S: set<Delivery>, d: Delivery)
    requires Coherent(S) && AllDeliverable(S) && Latest(S, d) && SettlesAlways(S, EvidenceOf(d))
    ensures OrderFree(S)
  {
    var c, past := TheMoment(S, d);
    var start, R := ReceiveAll(NEW_LEAD, past), Recent(S, c);
    AlwaysSettlesAtOnce(S, c, past, EvidenceOf(d));
    forall x, y | Latest(S, x) && Latest(S, y) ensures x.revision == y.revision {
      SettlingNeedsAgreement(S, start, R, c, d, x);
      SettlingNeedsAgreement(S, start, R, c, d, y);
    }
    SettlingNeedsUnmasked(S, start, R, c, d);
  }

  /** Confluence, exactly: a set of deliveries leaves the latest evidence in whatever order, with
      whatever repetitions and at whatever times it arrives if and only if the latest observations agree
      on the revision, and one of them has no earlier observation under its partition and revision
      whose receipt can still be held when it arrives: within a week and a minute. */
  lemma ConfluentIffOrderFree(S: set<Delivery>)
    requires Coherent(S) && AllDeliverable(S)
    ensures OrderFree(S) <==> exists d :: Latest(S, d) && SettlesAlways(S, EvidenceOf(d))
  {
    if OrderFree(S) {
      var d :| Latest(S, d) && Unmasked(S, d);
      OrderFreeSettles(S, d);
    }
    if d :| Latest(S, d) && SettlesAlways(S, EvidenceOf(d)) {
      SettlingNeedsOrderFree(S, d);
    }
  }

  /** The simplest failure: the later of two observations of one snapshot in one partition is a
      duplicate of the earlier one, but not the other way round. */
  lemma TwoOrdersDiffer(d: Delivery, e: Delivery, c: Clock)
    requires IsInstant(c) && Acceptable(d, c) && Acceptable(e, c)
    requires ReceiptKey(d) == ReceiptKey(e) && d.snapshot == e.snapshot && Micros(d.observed) < Micros(e.observed)
    ensures ReceiveAll(NEW_LEAD, At([d, e], c)).evidence == Some(EvidenceOf(d))
    ensures ReceiveAll(NEW_LEAD, At([e, d], c)).evidence == Some(EvidenceOf(e))
    ensures EvidenceOf(d) != EvidenceOf(e)
  {
    IsoOrderIsTimeOrder(d.observed, e.observed);
    ThenDuplicate(d, e, c);
    ThenDuplicate(e, d, c);
  }

  lemma ThenDuplicate(d: Delivery, e: Delivery, c: Clock)
    requires IsInstant(c) && Acceptable(d, c) && ReceiptKey(d) == ReceiptKey(e)
    ensures ReceiveAll(NEW_LEAD, At([d, e], c)).evidence == Some(EvidenceOf(d))
  {
    AtSnoc(NEW_LEAD, [], d, c);
    AtSnoc(NEW_LEAD, [d], e, c);
    assert [] + [d] == [d] && [d] + [e] == [d, e] && At([], c) == [];
    assert Retained(map[], c) == map[];
    var lead := Receive(NEW_LEAD, d, c).1;
    IsoOrderIsTimeOrder(d.observed, c.weekAgo);
    assert ReceiptKey(d) in Retained(lead.receipts, c);
    EvidenceCases(lead, e, c);
  }

  lemma PairIsCoherent(d: Delivery, e: Delivery)
    requires d.snapshot == e.snapshot && Valid(d.observed) && Valid(e.observed)
    ensures Coherent({d, e})
  {
    assert |{d, e}| <= 2;
  }

  lemma SameKeyIsNotOrderFree(d: Delivery, e: Delivery)
    requires CanMask(d, e)
    ensures !OrderFree({d, e})
  {
    forall x | Latest({d, e}, x) ensures !Unmasked({d, e}, x) {
      assert d in {d, e} && e in {d, e} && x == e && CanMask(d, e);
    }
  }

  lemma PairIsTimely(d: Delivery, e: Delivery, c: Clock)
    requires IsInstant(c) && Acceptable(d, c) && Acceptable(e, c)
    ensures Timely(At([d, e], c), Micros(c.now))
  {
    assert [] + At([d, e], c) == At([d, e], c);
    ThenAt([], [d, e], c);
  }

  lemma PairIsDeliverable(d: Delivery, e: Delivery, c: Clock)
    requires Acceptable(d, c) && Acceptable(e, c) && d.observed.year >= 2 && e.observed.year >= 2
    ensures AllDeliverable({d, e})
  {
  }

  lemma AWeekEarlier(e: Delivery, c: Clock) returns (d: Delivery)
    requires IsInstant(c) && Acceptable(e, c) && e.observed == c.now
    ensures d.observed == c.weekAgo && Acceptable(d, c) && ReceiptKey(d) == ReceiptKey(e) && d.snapshot == e.snapshot
    ensures Micros(d.observed) == Micros(e.observed) - WEEK
  {
    d := e.(observed := c.weekAgo);
  }

  /** And there are two such deliveries, for any partition. */
  lemma OrderMatters(partition: string, lead: string, labels: Snapshot) returns (d: Delivery, e: Delivery, c: Clock)
    requires 0 < |partition| <= 4 && GoodLabels(labels)
    ensures AllDeliverable({d, e}) && Coherent({d, e}) && !OrderFree({d, e})
    ensures Timely(At([d, e], c), Micros(c.now)) && Timely(At([e, d], c), Micros(c.now))
    ensures ReceiveAll(NEW_LEAD, At([d, e], c)).evidence == Some(EvidenceOf(d))
    ensures ReceiveAll(NEW_LEAD, At([e, d], c)).evidence == Some(EvidenceOf(e))
    ensures EvidenceOf(d) != EvidenceOf(e)
  {
    c := SomeClock(2025, 1);
    e := PlainDelivery(c, partition, lead, labels);
    d := AWeekEarlier(e, c);
    TwoOrdersDiffer(d, e, c);
    PairIsTimely(d, e, c);
    PairIsTimely(e, d, c);
    SameKeyIsNotOrderFree(d, e);
    PairIsCoherent(d, e);
    PairIsDeliverable(d, e, c);
  }

  /** The rule of thumb: if equal observation times mean equal revisions, and a partition sends each
      revision with one observation time, the order never matters. */
  lemma OneTimePerRevisionIsOrderFree(S: set<Delivery>, d: Delivery)
    requires Latest(S, d)
    requires forall x, y :: x in S && y in S && Micros(x.observed) == Micros(y.observed) ==> x.revision == y.revision
    requires forall x, y :: x in S && y in S && ReceiptKey(x) == ReceiptKey(y) ==> Micros(x.observed) == Micros(y.observed)
    ensures OrderFree(S)
  {
    assert Unmasked(S, d);
  }

  lemma WeekApart(now: Utc, weekAgo: Utc)
    requires weekAgo == now.(day := weekAgo.day) && now.day == weekAgo.day + 7
    ensures Micros(weekAgo) == Micros(now) - WEEK
  {
    assert DayNumber(now) == DayNumber(weekAgo) + 7;
  }

  lemma SomeClock(year: nat, day: nat) returns (c: Clock)
    requires 1 <= year <= 9999 && 1 <= day <= 20
    ensures IsInstant(c) && c.now.year == c.weekAgo.year == year
  {
    c := Clock(Utc(year, 1, day + 7, 0, 0, 0, 0), Utc(year, 1, day, 0, 0, 0, 0));
    WeekApart(c.now, c.weekAgo);
  }

  lemma PlainDelivery(c: Clock, partition: string, lead: string, labels: Snapshot) returns (d: Delivery)
    requires IsClock(c) && 0 < |partition| <= 4 && GoodLabels(labels)
    ensures Acceptable(d, c) && d.observed == c.now && d.wellFormed
  {
    d := Delivery(partition, lead, Some(lead), true, true, labels, lead, c.now);
  }

  /** The conditions can be met: there are acceptable deliveries, and each by itself meets them all. */
  lemma SomeDeliveryQualifies() returns (d: Delivery, c: Clock)
    ensures Acceptable(d, c) && Coherent({d}) && AllDeliverable({d}) && OrderFree({d})
  {
    c := SomeClock(2025, 1);
    d := PlainDelivery(c, "call", "lead", Snapshot("", Missing, Missing, Missing, ""));
    OneQualifies(d, c);
  }

  lemma OneQualifies(d: Delivery, c: Clock)
    requires Acceptable(d, c) && d.observed.year >= 2
    ensures Coherent({d}) && AllDeliverable({d}) && OrderFree({d})
  {
    assert Latest({d}, d) && Unmasked({d}, d);
  }

  // ---------------------------------------------------------------- receipts

  /** An accepted delivery leaves its own receipt and exactly those that are not older than a week at
      the second reading of the clock; its own may be, by as much as passed since the first. */
  lemma ReceiptsOfTheWeek(lead: Lead, d: Delivery, c: Clock)
    requires IsClock(c) && Valid(d.observed) && Receive(lead, d, c).0.Recorded?
    ensures var receipts := Receive(lead, d, c).1.receipts;
            && (forall k :: k in receipts <==>
                  k == ReceiptKey(d) || (k in lead.receipts && !Less(lead.receipts[k].recordedAt, Iso(c.weekAgo))))
            && (forall k :: k in receipts && (k != ReceiptKey(d) || IsInstant(c)) ==> !Less(receipts[k].recordedAt, Iso(c.weekAgo)))
  {
    IsoOrderIsTimeOrder(d.observed, c.weekAgo);
    assert InWindow(d, c);
  }

  lemma RetainedIsSmaller(receipts: map<(string, string), Receipt>, c: Clock)
    ensures |Retained(receipts, c)| <= |receipts|
  {
    var kept := Retained(receipts, c);
    SubsetSize(kept.Keys, receipts.Keys);
    assert |kept.Keys| == |kept| && |receipts.Keys| == |receipts|;
  }

  lemma SubsetSize<T>(a: set<T>, b: set<T>)
    requires a <= b
    ensures |a| <= |b|
  {
    assert b == a + (b - a);
  }

  lemma OneMoreReceipt(receipts: map<(string, string), Receipt>, k: (string, string), r: Receipt)
    requires k !in receipts
    ensures |receipts[k := r]| == |receipts| + 1
  {
    var m := receipts[k := r];
    assert m.Keys == receipts.Keys + {k};
    assert |m.Keys| == |m| && |receipts.Keys| == |receipts|;
  }

  /** In every run, whatever is delivered and whenever, a lead never holds more receipts than the budget. */
  lemma {:induction false} ReceiptBudgetHolds(run: seq<Arrival>)
    ensures |ReceiveAll(NEW_LEAD, run).receipts| <= RECEIPT_BUDGET
    decreases |run|
  {
    if run != [] {
      var n := |run| - 1;
      ReceiptBudgetHolds(run[..n]);
      BudgetStep(ReceiveAll(NEW_LEAD, run[..n]), run[n].delivery, run[n].clock);
    }
  }

  lemma BudgetStep(lead: Lead, d: Delivery, c: Clock)
    requires |lead.receipts| <= RECEIPT_BUDGET
    ensures |Receive(lead, d, c).1.receipts| <= RECEIPT_BUDGET
  {
    RetainedIsSmaller(lead.receipts, c);
    var kept := Retained(lead.receipts, c);
    if ReceiptKey(d) !in kept {
      OneMoreReceipt(kept, ReceiptKey(d), Receipt(d.partition, Applied, Iso(d.observed)));
      OneMoreReceipt(kept, ReceiptKey(d), Receipt(d.partition, IgnoredOlder, Iso(d.observed)));
    }
  }
}
