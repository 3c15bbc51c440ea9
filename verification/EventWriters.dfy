/** The writers of the event table: channel-scoped sequence numbers handed out under an advisory
    lock.  Every SQL statement of `append` is one atomic step, so any number of transactions may
    interleave between statements (READ COMMITTED: each statement sees what is committed when it
    starts, plus its own transaction's rows). */
module EventWriters {

  // `body` stands for event_type, payload, correlation_id and occurred_at.
  datatype Event = Event(id: string, channel: string, body: string)
  datatype Row = Row(event: Event, num: int)

  // Where a transaction stands between the statements of `append`.
  datatype Phase = Idle | Locked(event: Event) | Numbered(event: Event, num: int) | Aborted
  datatype Tx = Tx(locks: set<int>, own: seq<Row>, phase: Phase)
  datatype Db = Db(committed: seq<Row>, open: map<nat, Tx>)

  datatype Action =
    | Begin(t: nat)
    | Lock(t: nat, event: Event)   // pg_advisory_xact_lock
    | Number(t: nat)               // SELECT COALESCE(MAX(seq_num), 0) + 1
    | Insert(t: nat)               // flush of the new row
    | Commit(t: nat)
    | Rollback(t: nat)

  // ---------------------------------------------------------------- statements

  /** The rows of one channel, in the order of `rows`. */
  function Log(rows: seq<Row>, channel: string): seq<Row> {
    if rows == [] then []
    else
      var n := |rows| - 1;
      Log(rows[..n], channel) + if rows[n].event.channel == channel then [rows[n]] else []
  }

  /** COALESCE(MAX(seq_num), 0) over a channel. */
  function MaxNum(log: seq<Row>): int {
    if log == [] then 0
    else
      var n := |log| - 1;
      if n == 0 || MaxNum(log[..n]) < log[n].num then log[n].num else MaxNum(log[..n])
  }

  predicate SameKey(r: Row, s: Row) {
    r.event.id == s.event.id || (r.event.channel == s.event.channel && r.num == s.num)
  }

  /** A unique constraint of the table rejects the row. */
  predicate Violates(rows: seq<Row>, r: Row) {
    exists s :: s in rows && SameKey(r, s)
  }

  predicate Free(db: Db, t: nat, lock: int) {
    forall u :: u in db.open && u != t ==> lock !in db.open[u].locks
  }

  /** The statement can run now; a lock or an uncommitted duplicate held elsewhere makes it wait. */
  predicate Enabled(lockId: string -> int, db: Db, a: Action) {
    match a
    case Begin(t) => t !in db.open
    case Lock(t, e) => t in db.open && db.open[t].phase == Idle && Free(db, t, lockId(e.channel))
    case Number(t) => t in db.open && db.open[t].phase.Locked?
    case Insert(t) =>
      && t in db.open && db.open[t].phase.Numbered?
      && forall u :: u in db.open && u != t ==> !Violates(db.open[u].own, NewRow(db.open[t]))
    case Commit(t) => t in db.open && db.open[t].phase == Idle
    case Rollback(t) => t in db.open
  }

  function NewRow(tx: Tx): Row
    requires tx.phase.Numbered?
  {
    Row(tx.phase.event, tx.phase.num)
  }

  function Step(lockId: string -> int, db: Db, a: Action): Db
    requires Enabled(lockId, db, a)
  {
    match a
    case Begin(t) => db.(open := db.open[t := Tx({}, [], Idle)])
    case Lock(t, e) =>
      var tx := db.open[t];
      db.(open := db.open[t := tx.(locks := tx.locks + {lockId(e.channel)}, phase := Locked(e))])
    case Number(t) =>
      var tx := db.open[t];
      var e := tx.phase.event;
      db.(open := db.open[t := tx.(phase := Numbered(e, MaxNum(Log(db.committed + tx.own, e.channel)) + 1))])
    case Insert(t) =>
      var tx := db.open[t];
      if Violates(db.committed + tx.own, NewRow(tx)) then
        db.(open := db.open[t := tx.(phase := Aborted)])
      else
        db.(open := db.open[t := tx.(own := tx.own + [NewRow(tx)], phase := Idle)])
    case Commit(t) => Db(db.committed + db.open[t].own, db.open - {t})
    case Rollback(t) => db.(open := db.open - {t})
  }

  // ---------------------------------------------------------------- invariant

  /** Numbers run up by one from `first`. */
  ghost predicate Consecutive(log: seq<Row>, first: int) {
    forall i :: 0 <= i < |log| ==> log[i].num == first + i
  }

  ghost predicate DistinctIds(rows: seq<Row>) {
    forall i, j :: 0 <= i < j < |rows| ==> rows[i].event.id != rows[j].event.id
  }

  ghost predicate DisjointIds(a: seq<Row>, b: seq<Row>) {
    forall r, s :: r in a && s in b ==> r.event.id != s.event.id
  }

  /** The committed rows of every channel carry 1..n, in commit order. */
  ghost predicate Ordered(rows: seq<Row>) {
    DistinctIds(rows) && forall c :: Consecutive(Log(rows, c), 1)
  }

  ghost predicate TxInv(lockId: string -> int, committed: seq<Row>, tx: Tx) {
    && (forall c :: Consecutive(Log(tx.own, c), |Log(committed, c)| + 1))
    && (forall r :: r in tx.own ==> lockId(r.event.channel) in tx.locks)
    && DistinctIds(tx.own) && DisjointIds(committed, tx.own)
    && (tx.phase.Locked? || tx.phase.Numbered? ==> lockId(tx.phase.event.channel) in tx.locks)
    && (tx.phase.Numbered? ==>
          var c := tx.phase.event.channel;
          tx.phase.num == |Log(committed, c)| + |Log(tx.own, c)| + 1)
  }

  ghost predicate Apart(a: Tx, b: Tx) {
    a.locks !! b.locks && DisjointIds(a.own, b.own)
  }

  ghost predicate Inv(lockId: string -> int, db: Db) {
    && Ordered(db.committed)
    && (forall t :: t in db.open ==> TxInv(lockId, db.committed, db.open[t]))
    && (forall t, u :: t in db.open && u in db.open && t != u ==> Apart(db.open[t], db.open[u]))
  }

  // ---------------------------------------------------------------- logs

  lemma LogSnoc(rows: seq<Row>, r: Row, c: string)
    ensures Log(rows + [r], c) == Log(rows, c) + if r.event.channel == c then [r] else []
  {
    assert (rows + [r])[..|rows|] == rows;
  }

  lemma {:induction false} LogConcat(a: seq<Row>, b: seq<Row>, c: string)
    ensures Log(a + b, c) == Log(a, c) + Log(b, c)
    decreases |b|
  {
    if b == [] {
      assert a + b == a;
    } else {
      var n := |b| - 1;
      assert a + b == (a + b[..n]) + [b[n]];
      LogSnoc(a + b[..n], b[n], c);
      LogConcat(a, b[..n], c);
    }
  }

  lemma {:induction false} LogMembers(rows: seq<Row>, c: string)
    ensures forall r :: r in Log(rows, c) <==> r in rows && r.event.channel == c
  {
    if rows != [] {
      var n := |rows| - 1;
      LogMembers(rows[..n], c);
      assert rows == rows[..n] + [rows[n]];
    }
  }

  lemma {:induction false} MaxOfConsecutive(log: seq<Row>)
    requires Consecutive(log, 1)
    ensures MaxNum(log) == |log|
  {
    if log != [] {
      MaxOfConsecutive(log[..|log| - 1]);
    }
  }

  /** A transaction sees its channel numbered 1..n: the committed rows, then its own. */
  lemma VisibleIsConsecutive(lockId: string -> int, committed: seq<Row>, tx: Tx, c: string)
    requires Ordered(committed) && TxInv(lockId, committed, tx)
    ensures Consecutive(Log(committed + tx.own, c), 1)
    ensures |Log(committed + tx.own, c)| == |Log(committed, c)| + |Log(tx.own, c)|
  {
    LogConcat(committed, tx.own, c);
    assert Consecutive(Log(committed, c), 1);
    assert Consecutive(Log(tx.own, c), |Log(committed, c)| + 1);
  }

  // ---------------------------------------------------------------- preservation

  lemma NumberKeepsTx(lockId: string -> int, committed: seq<Row>, tx: Tx)
    requires Ordered(committed) && TxInv(lockId, committed, tx) && tx.phase.Locked?
    ensures var e := tx.phase.event;
            TxInv(lockId, committed, tx.(phase := Numbered(e, MaxNum(Log(committed + tx.own, e.channel)) + 1)))
  {
    VisibleIsConsecutive(lockId, committed, tx, tx.phase.event.channel);
    MaxOfConsecutive(Log(committed + tx.own, tx.phase.event.channel));
  }

  lemma InsertKeepsTx(lockId: string -> int, committed: seq<Row>, tx: Tx)
    requires Ordered(committed) && TxInv(lockId, committed, tx) && tx.phase.Numbered?
    requires !Violates(committed + tx.own, NewRow(tx))
    ensures TxInv(lockId, committed, tx.(own := tx.own + [NewRow(tx)], phase := Idle))
  {
    var r := NewRow(tx);
    forall s | s in committed + tx.own ensures s.event.id != r.event.id {
      assert !SameKey(r, s);
    }
    forall c ensures Consecutive(Log(tx.own + [r], c), |Log(committed, c)| + 1) {
      LogSnoc(tx.own, r, c);
      assert Consecutive(Log(tx.own, c), |Log(committed, c)| + 1);
    }
    assert forall s :: s in tx.own ==> s in committed + tx.own;
    assert forall s :: s in committed ==> s in committed + tx.own;
  }

  lemma CommitKeepsOrdered(lockId: string -> int, committed: seq<Row>, tx: Tx)
    requires Ordered(committed) && TxInv(lockId, committed, tx)
    ensures Ordered(committed + tx.own)
  {
    forall c ensures Consecutive(Log(committed + tx.own, c), 1) {
      VisibleIsConsecutive(lockId, committed, tx, c);
    }
    forall i, j | 0 <= i < j < |committed + tx.own|
      ensures (committed + tx.own)[i].event.id != (committed + tx.own)[j].event.id
    {
      if i < |committed| <= j {
        assert committed[i] in committed && tx.own[j - |committed|] in tx.own;
      }
    }
  }

  /** A commit elsewhere cannot touch a channel this transaction has locked. */
  lemma CommitKeepsOther(lockId: string -> int, committed: seq<Row>, tx: Tx, other: Tx)
    requires Ordered(committed) && TxInv(lockId, committed, tx) && TxInv(lockId, committed, other) && Apart(tx, other)
    ensures TxInv(lockId, committed + tx.own, other)
  {
    forall c ensures Log(other.own, c) != [] || (other.phase.Numbered? && other.phase.event.channel == c)
                     ==> Log(committed + tx.own, c) == Log(committed, c) {
      LogConcat(committed, tx.own, c);
      LogMembers(tx.own, c);
      LogMembers(other.own, c);
      if Log(other.own, c) != [] {
        assert Log(other.own, c)[0] in other.own;
        assert lockId(c) in other.locks;
      }
      if Log(tx.own, c) != [] {
        assert Log(tx.own, c)[0] in tx.own;
        assert lockId(c) in tx.locks;
      }
    }
    assert DisjointIds(committed + tx.own, other.own);
  }

  /** Replacing (or adding) one transaction keeps the invariant if the new one is fine by itself
      and apart from the others. */
  lemma ReplaceTx(lockId: string -> int, db: Db, t: nat, tx: Tx)
    requires Inv(lockId, db) && TxInv(lockId, db.committed, tx)
    requires forall u :: u in db.open && u != t ==> Apart(tx, db.open[u])
    ensures Inv(lockId, db.(open := db.open[t := tx]))
  {
    var db' := db.(open := db.open[t := tx]);
    forall u, v | u in db'.open && v in db'.open && u != v ensures Apart(db'.open[u], db'.open[v]) {
      if u == t {
        assert Apart(tx, db.open[v]);
      } else if v == t {
        assert Apart(tx, db.open[u]);
      } else {
        assert Apart(db.open[u], db.open[v]);
      }
    }
  }

  lemma LockKeepsInv(lockId: string -> int, db: Db, t: nat, e: Event)
    requires Inv(lockId, db) && Enabled(lockId, db, Lock(t, e))
    ensures Inv(lockId, Step(lockId, db, Lock(t, e)))
  {
    var tx := db.open[t];
    assert TxInv(lockId, db.committed, tx);
    var tx' := tx.(locks := tx.locks + {lockId(e.channel)}, phase := Locked(e));
    forall u | u in db.open && u != t ensures Apart(tx', db.open[u]) {
      assert Apart(tx, db.open[u]);
    }
    ReplaceTx(lockId, db, t, tx');
  }

  lemma NumberKeepsInv(lockId: string -> int, db: Db, t: nat)
    requires Inv(lockId, db) && Enabled(lockId, db, Number(t))
    ensures Inv(lockId, Step(lockId, db, Number(t)))
  {
    var tx := db.open[t];
    assert TxInv(lockId, db.committed, tx);
    NumberKeepsTx(lockId, db.committed, tx);
    var e := tx.phase.event;
    var tx' := tx.(phase := Numbered(e, MaxNum(Log(db.committed + tx.own, e.channel)) + 1));
    forall u | u in db.open && u != t ensures Apart(tx', db.open[u]) {
      assert Apart(tx, db.open[u]);
    }
    ReplaceTx(lockId, db, t, tx');
  }

  lemma NewRowApart(tx: Tx, other: Tx)
    requires tx.phase.Numbered? && Apart(tx, other) && !Violates(other.own, NewRow(tx))
    ensures Apart(tx.(own := tx.own + [NewRow(tx)], phase := Idle), other)
  {
    forall s | s in other.own ensures s.event.id != NewRow(tx).event.id {
      assert !SameKey(NewRow(tx), s);
    }
  }

  lemma InsertKeepsInv(lockId: string -> int, db: Db, t: nat)
    requires Inv(lockId, db) && Enabled(lockId, db, Insert(t))
    ensures Inv(lockId, Step(lockId, db, Insert(t)))
  {
    var tx := db.open[t];
    assert TxInv(lockId, db.committed, tx);
    var refused := Violates(db.committed + tx.own, NewRow(tx));
    var tx' := if refused then tx.(phase := Aborted) else tx.(own := tx.own + [NewRow(tx)], phase := Idle);
    if !refused {
      InsertKeepsTx(lockId, db.committed, tx);
    }
    forall u | u in db.open && u != t ensures Apart(tx', db.open[u]) {
      assert Apart(tx, db.open[u]);
      NewRowApart(tx, db.open[u]);
    }
    ReplaceTx(lockId, db, t, tx');
  }

  lemma CommitKeepsInv(lockId: string -> int, db: Db, t: nat)
    requires Inv(lockId, db) && Enabled(lockId, db, Commit(t))
    ensures Inv(lockId, Step(lockId, db, Commit(t)))
  {
    CommitKeepsOrdered(lockId, db.committed, db.open[t]);
    forall u | u in db.open && u != t ensures TxInv(lockId, db.committed + db.open[t].own, db.open[u]) {
      CommitKeepsOther(lockId, db.committed, db.open[t], db.open[u]);
    }
  }

  lemma RollbackKeepsInv(lockId: string -> int, db: Db, t: nat)
    requires Inv(lockId, db) && Enabled(lockId, db, Rollback(t))
    ensures Inv(lockId, Step(lockId, db, Rollback(t)))
  {
  }

  lemma BeginKeepsInv(lockId: string -> int, db: Db, t: nat)
    requires Inv(lockId, db) && Enabled(lockId, db, Begin(t))
    ensures Inv(lockId, Step(lockId, db, Begin(t)))
  {
    assert forall c :: Log([], c) == [];
    ReplaceTx(lockId, db, t, Tx({}, [], Idle));
  }

  /** Every statement of every transaction keeps the numbering intact. */
  lemma StepKeepsInv(lockId: string -> int, db: Db, a: Action)
    requires Inv(lockId, db) && Enabled(lockId, db, a)
    ensures Inv(lockId, Step(lockId, db, a))
  {
    match a
    case Begin(t) => BeginKeepsInv(lockId, db, t);
    case Lock(t, e) => LockKeepsInv(lockId, db, t, e);
    case Number(t) => NumberKeepsInv(lockId, db, t);
    case Insert(t) => InsertKeepsInv(lockId, db, t);
    case Commit(t) => CommitKeepsInv(lockId, db, t);
    case Rollback(t) => RollbackKeepsInv(lockId, db, t);
  }

  lemma OwnNumberIsNew(lockId: string -> int, committed: seq<Row>, tx: Tx, r: Row)
    requires Ordered(committed) && TxInv(lockId, committed, tx) && tx.phase.Numbered?
    requires r in committed + tx.own && r.event.channel == tx.phase.event.channel
    ensures r.num < tx.phase.num
  {
    var c := tx.phase.event.channel;
    VisibleIsConsecutive(lockId, committed, tx, c);
    LogMembers(committed + tx.own, c);
    assert r in Log(committed + tx.own, c);
  }

  /** An insert can only be refused, or be made to wait, because of a repeated event_id: no
      committed or uncommitted row of any transaction carries the new (channel, seq_num). */
  lemma InsertFailsOnlyOnEventId(lockId: string -> int, db: Db, t: nat, r: Row)
    requires Inv(lockId, db) && t in db.open && db.open[t].phase.Numbered?
    requires r in db.committed || exists u :: u in db.open && r in db.open[u].own
    ensures SameKey(NewRow(db.open[t]), r) <==> r.event.id == db.open[t].phase.event.id
  {
    var tx := db.open[t];
    assert TxInv(lockId, db.committed, tx);
    if r.event.channel == tx.phase.event.channel {
      // a row of another transaction would mean that both hold the channel's lock
      if r in db.committed + tx.own {
        OwnNumberIsNew(lockId, db.committed, tx, r);
      }
    }
  }
}
