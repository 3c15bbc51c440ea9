/** `EventStore`: writers and a paging reader running together, and the store's own two methods. */
module EventStore {
  import opened EventWriters
  import opened EventPaging

  // A reader pages through one channel: `cursor` is the id of the last event it received, `start`
  // the number its pending `fetch_after` has resolved that cursor to.
  datatype Reader = Reader(cursor: Option<string>, start: Option<int>, got: seq<Row>)
  datatype System = System(db: Db, reader: Reader)

  datatype Op = Write(action: Action) | Resolve | Select(limit: nat)

  predicate Possible(lockId: string -> int, s: System, op: Op) {
    match op
    case Write(a) => Enabled(lockId, s.db, a)
    case Resolve => s.reader.start.None?
    case Select(_) => s.reader.start.Some?
  }

  function ReaderResolve(log: seq<Row>, r: Reader): Reader {
    r.(start := Some(ResolveCursor(log, r.cursor)))
  }

  function ReaderSelect(log: seq<Row>, r: Reader, limit: nat): Reader
    requires r.start.Some?
  {
    Received(r, SelectPage(log, r.start.value, limit).0)
  }

  /** The client remembers the id of the last event of a page as its next cursor. */
  function Received(r: Reader, page: seq<Row>): Reader {
    Reader(if page == [] then r.cursor else Some(page[|page| - 1].event.id), None, r.got + page)
  }

  function Do(lockId: string -> int, channel: string, s: System, op: Op): System
    requires Possible(lockId, s, op)
  {
    match op
    case Write(a) => s.(db := Step(lockId, s.db, a))
    case Resolve => s.(reader := ReaderResolve(Log(s.db.committed, channel), s.reader))
    case Select(limit) => s.(reader := ReaderSelect(Log(s.db.committed, channel), s.reader, limit))
  }

  predicate PossibleRun(lockId: string -> int, channel: string, s: System, ops: seq<Op>)
    decreases |ops|
  {
    ops == [] || (Possible(lockId, s, ops[0]) && PossibleRun(lockId, channel, Do(lockId, channel, s, ops[0]), ops[1..]))
  }

  function DoAll(lockId: string -> int, channel: string, s: System, ops: seq<Op>): System
    requires PossibleRun(lockId, channel, s, ops)
    decreases |ops|
  {
    if ops == [] then s else DoAll(lockId, channel, Do(lockId, channel, s, ops[0]), ops[1..])
  }

  const EMPTY := System(Db([], map[]), Reader(None, None, []))

  // ---------------------------------------------------------------- invariant

  ghost predicate NamedRows(rows: seq<Row>) {
    forall r :: r in rows ==> r.event.id != ""
  }

  ghost predicate NamedTx(tx: Tx) {
    NamedRows(tx.own) && (tx.phase.Locked? || tx.phase.Numbered? ==> tx.phase.event.id != "")
  }

  ghost predicate Named(db: Db) {
    NamedRows(db.committed) && forall t :: t in db.open ==> NamedTx(db.open[t])
  }

  ghost predicate ReaderInv(log: seq<Row>, r: Reader) {
    && r.got <= log
    && r.cursor == (if r.got == [] then None else Some(r.got[|r.got| - 1].event.id))
    && (r.start.Some? ==> r.start.value == |r.got|)
  }

  /** Every event handed to a writer has a non-empty id. */
  ghost predicate NamedOps(ops: seq<Op>) {
    forall i :: 0 <= i < |ops| && ops[i].Write? && ops[i].action.Lock? ==> ops[i].action.event.id != ""
  }

  ghost predicate SystemInv(lockId: string -> int, channel: string, s: System) {
    Inv(lockId, s.db) && Named(s.db) && ReaderInv(Log(s.db.committed, channel), s.reader)
  }

  lemma StepKeepsNamed(lockId: string -> int, db: Db, a: Action)
    requires Named(db) && Enabled(lockId, db, a) && (a.Lock? ==> a.event.id != "")
    ensures Named(Step(lockId, db, a))
  {
    if !a.Begin? {
      assert NamedTx(db.open[a.t]);
    }
  }

  /** Commits only ever append to a channel. */
  lemma StepExtendsLog(lockId: string -> int, db: Db, a: Action, channel: string)
    requires Enabled(lockId, db, a)
    ensures Log(db.committed, channel) <= Log(Step(lockId, db, a).committed, channel)
  {
    if a.Commit? {
      LogConcat(db.committed, db.open[a.t].own, channel);
    }
  }

  lemma {:induction false} LogIsDistinct(rows: seq<Row>, c: string)
    requires DistinctIds(rows)
    ensures DistinctIds(Log(rows, c))
  {
    if rows != [] {
      var n := |rows| - 1;
      LogIsDistinct(rows[..n], c);
      LogMembers(rows[..n], c);
      forall r | r in Log(rows[..n], c) ensures r.event.id != rows[n].event.id {
        var i :| 0 <= i < n && rows[..n][i] == r;
        assert rows[i].event.id != rows[n].event.id;
      }
    }
  }

  lemma ChannelIsLog(rows: seq<Row>, c: string)
    requires Ordered(rows)
    ensures IsLog(Log(rows, c))
  {
    LogIsDistinct(rows, c);
    assert Consecutive(Log(rows, c), 1);
  }

  lemma ResolveKeepsReader(log: seq<Row>, r: Reader)
    requires IsLog(log) && NamedRows(log) && ReaderInv(log, r)
    ensures ReaderInv(log, ReaderResolve(log, r))
  {
    if r.got != [] {
      assert log[|r.got| - 1] == r.got[|r.got| - 1];
      CursorIsPosition(log, r.got);
    }
  }

  lemma SelectKeepsReader(log: seq<Row>, r: Reader, limit: nat)
    requires IsLog(log) && ReaderInv(log, r) && r.start.Some?
    ensures ReaderInv(log, ReaderSelect(log, r, limit))
  {
    PageExtends(log, r.got, limit);
    ReceivedKeepsReader(log, r, SelectPage(log, |r.got|, limit).0);
  }

  lemma ReceivedKeepsReader(log: seq<Row>, r: Reader, page: seq<Row>)
    requires ReaderInv(log, r) && r.got + page <= log
    ensures ReaderInv(log, Received(r, page))
  {
    if page == [] {
      assert r.got + page == r.got;
    } else {
      assert (r.got + page)[|r.got + page| - 1] == page[|page| - 1];
    }
  }

  lemma WriteKeepsReader(log: seq<Row>, longer: seq<Row>, r: Reader)
    requires ReaderInv(log, r) && log <= longer
    ensures ReaderInv(longer, r)
  {
  }

  lemma DoKeepsInv(lockId: string -> int, channel: string, s: System, op: Op)
    requires SystemInv(lockId, channel, s) && Possible(lockId, s, op) && NamedOps([op])
    ensures SystemInv(lockId, channel, Do(lockId, channel, s, op))
  {
    var log := Log(s.db.committed, channel);
    match op
    case Write(a) =>
      assert [op][0] == op;
      StepKeepsInv(lockId, s.db, a);
      StepKeepsNamed(lockId, s.db, a);
      StepExtendsLog(lockId, s.db, a, channel);
      WriteKeepsReader(log, Log(Step(lockId, s.db, a).committed, channel), s.reader);
    case Resolve =>
      ChannelIsLog(s.db.committed, channel);
      LogMembers(s.db.committed, channel);
      ResolveKeepsReader(log, s.reader);
    case Select(limit) =>
      ChannelIsLog(s.db.committed, channel);
      SelectKeepsReader(log, s.reader, limit);
  }

  lemma {:induction false} RunKeepsInv(lockId: string -> int, channel: string, s: System, ops: seq<Op>)
    requires SystemInv(lockId, channel, s) && PossibleRun(lockId, channel, s, ops) && NamedOps(ops)
    ensures SystemInv(lockId, channel, DoAll(lockId, channel, s, ops))
    decreases |ops|
  {
    if ops != [] {
      assert NamedOps([ops[0]]) && NamedOps(ops[1..]);
      DoKeepsInv(lockId, channel, s, ops[0]);
      RunKeepsInv(lockId, channel, Do(lockId, channel, s, ops[0]), ops[1..]);
    }
  }

  lemma {:induction false} RunKeepsNumbering(lockId: string -> int, channel: string, s: System, ops: seq<Op>)
    requires Inv(lockId, s.db) && PossibleRun(lockId, channel, s, ops)
    ensures Inv(lockId, DoAll(lockId, channel, s, ops).db)
    decreases |ops|
  {
    if ops != [] {
      if ops[0].Write? {
        StepKeepsInv(lockId, s.db, ops[0].action);
      }
      RunKeepsNumbering(lockId, channel, Do(lockId, channel, s, ops[0]), ops[1..]);
    }
  }

  lemma EmptyIsValid(lockId: string -> int, channel: string)
    ensures SystemInv(lockId, channel, EMPTY)
  {
    assert forall c :: Log([], c) == [];
  }

  // ---------------------------------------------------------------- what every run guarantees

  /** Under every interleaving of writing transactions, in every channel, the committed numbers are
      exactly 1..n and commit order is number order. */
  lemma ChannelsAreNumbered(lockId: string -> int, reader: string, ops: seq<Op>, channel: string, i: nat)
    requires PossibleRun(lockId, reader, EMPTY, ops)
    ensures var log := Log(DoAll(lockId, reader, EMPTY, ops).db.committed, channel);
            i < |log| ==> log[i].num == i + 1
  {
    EmptyIsValid(lockId, reader);
    RunKeepsNumbering(lockId, reader, EMPTY, ops);
    assert Consecutive(Log(DoAll(lockId, reader, EMPTY, ops).db.committed, channel), 1);
  }

  /** If no event id is empty, what a paging reader has received is, at every moment of every run, the
      start of the channel's committed log: each event once, in order, none skipped.  Its next page is
      exact: it says `has_more` exactly when committed events remain, and it makes progress while they do. */
  lemma PagingIsExact(lockId: string -> int, channel: string, ops: seq<Op>, limit: nat)
    requires PossibleRun(lockId, channel, EMPTY, ops) && NamedOps(ops)
    ensures var s := DoAll(lockId, channel, EMPTY, ops);
            var log := Log(s.db.committed, channel);
            && s.reader.got <= log
            && (s.reader.start.Some? ==>
                  var page := SelectPage(log, s.reader.start.value, limit);
                  && s.reader.got + page.0 <= log
                  && (page.1 <==> s.reader.got + page.0 != log)
                  && (limit > 0 && s.reader.got != log ==> page.0 != []))
  {
    EmptyIsValid(lockId, channel);
    RunKeepsInv(lockId, channel, EMPTY, ops);
    var s := DoAll(lockId, channel, EMPTY, ops);
    ChannelIsLog(s.db.committed, channel);
    PageExtends(Log(s.db.committed, channel), s.reader.got, limit);
  }

  /** Nothing is ever added to a channel at or below a number already committed there. */
  lemma {:induction false} NothingAppearsBehind(lockId: string -> int, channel: string, s: System, ops: seq<Op>)
    requires PossibleRun(lockId, channel, s, ops)
    ensures Log(s.db.committed, channel) <= Log(DoAll(lockId, channel, s, ops).db.committed, channel)
    decreases |ops|
  {
    if ops != [] {
      if ops[0].Write? {
        StepExtendsLog(lockId, s.db, ops[0].action, channel);
      }
      NothingAppearsBehind(lockId, channel, Do(lockId, channel, s, ops[0]), ops[1..]);
    }
  }

  // ---------------------------------------------------------------- the store's methods

  datatype Appended = Stored(row: Row) | Duplicate

  lemma NextNumber(lockId: string -> int, committed: seq<Row>, tx: Tx, c: string)
    requires Ordered(committed) && TxInv(lockId, committed, tx)
    ensures MaxNum(Log(committed + tx.own, c)) + 1 == |Log(committed + tx.own, c)| + 1
  {
    VisibleIsConsecutive(lockId, committed, tx, c);
    MaxOfConsecutive(Log(committed + tx.own, c));
  }

  ghost predicate NobodyElseHas(db: Db, t: nat, id: string) {
    forall u, s :: u in db.open && u != t && s in db.open[u].own ==> s.event.id != id
  }

  lemma InsertRuns(lockId: string -> int, db: Db, t: nat)
    requires Inv(lockId, db) && t in db.open && db.open[t].phase.Numbered?
    requires NobodyElseHas(db, t, db.open[t].phase.event.id)
    ensures Enabled(lockId, db, Insert(t))
  {
    forall u | u in db.open && u != t ensures !Violates(db.open[u].own, NewRow(db.open[t])) {
      forall s | s in db.open[u].own ensures !SameKey(NewRow(db.open[t]), s) {
        InsertFailsOnlyOnEventId(lockId, db, t, s);
      }
    }
  }

  ghost predicate HasId(rows: seq<Row>, id: string) {
    exists s :: s in rows && s.event.id == id
  }

  lemma InsertOutcome(lockId: string -> int, db: Db, t: nat)
    requires Inv(lockId, db) && Enabled(lockId, db, Insert(t))
    ensures var tx := db.open[t];
            Violates(db.committed + tx.own, NewRow(tx)) <==> HasId(db.committed + tx.own, tx.phase.event.id)
  {
    var tx := db.open[t];
    var rows := db.committed + tx.own;
    forall s | s in rows ensures SameKey(NewRow(tx), s) <==> s.event.id == tx.phase.event.id {
      InsertFailsOnlyOnEventId(lockId, db, t, s);
    }
    if HasId(rows, tx.phase.event.id) {
      var s :| s in rows && s.event.id == tx.phase.event.id;
      assert SameKey(NewRow(tx), s);
    }
  }

  ghost function WithTx(db: Db, t: nat, tx: Tx): Db {
    db.(open := db.open[t := tx])
  }

  function NumberedTx(lockId: string -> int, tx: Tx, e: Event, num: int): Tx {
    Tx(tx.locks + {lockId(e.channel)}, tx.own, Numbered(e, num))
  }

  lemma LockThenNumber(lockId: string -> int, db: Db, t: nat, e: Event, num: int)
    requires Enabled(lockId, db, Lock(t, e))
    requires MaxNum(Log(db.committed + db.open[t].own, e.channel)) + 1 == num
    ensures var db1 := Step(lockId, db, Lock(t, e));
            Enabled(lockId, db1, Number(t))
            && Step(lockId, db1, Number(t)) == WithTx(db, t, NumberedTx(lockId, db.open[t], e, num))
  {
  }

  lemma LockAndNumber(lockId: string -> int, db: Db, t: nat, e: Event)
    requires Inv(lockId, db) && Enabled(lockId, db, Lock(t, e))
    ensures var db1 := Step(lockId, db, Lock(t, e));
            && Enabled(lockId, db1, Number(t)) && Inv(lockId, Step(lockId, db1, Number(t)))
            && Step(lockId, db1, Number(t))
               == WithTx(db, t, NumberedTx(lockId, db.open[t], e, |Log(db.committed + db.open[t].own, e.channel)| + 1))
  {
    NextNumber(lockId, db.committed, db.open[t], e.channel);
    LockThenNumber(lockId, db, t, e, |Log(db.committed + db.open[t].own, e.channel)| + 1);
    var db1 := Step(lockId, db, Lock(t, e));
    StepKeepsInv(lockId, db, Lock(t, e));
    StepKeepsInv(lockId, db1, Number(t));
  }

  ghost function AfterInsert(committed: seq<Row>, tx: Tx): Tx
    requires tx.phase.Numbered?
  {
    if HasId(committed + tx.own, tx.phase.event.id) then tx.(phase := Aborted)
    else tx.(own := tx.own + [NewRow(tx)], phase := Idle)
  }

  lemma InsertResult(lockId: string -> int, db: Db, t: nat)
    requires Inv(lockId, db) && t in db.open && db.open[t].phase.Numbered?
    requires NobodyElseHas(db, t, db.open[t].phase.event.id)
    ensures Enabled(lockId, db, Insert(t)) && Inv(lockId, Step(lockId, db, Insert(t)))
    ensures var tx := db.open[t];
            Step(lockId, db, Insert(t)) == WithTx(db, t, AfterInsert(db.committed, tx))
  {
    InsertRuns(lockId, db, t);
    InsertOutcome(lockId, db, t);
    StepKeepsInv(lockId, db, Insert(t));
  }

  /** The transaction after `append`: the new row, or the aborted transaction. */
  ghost function AfterAppend(lockId: string -> int, committed: seq<Row>, tx: Tx, e: Event): Tx {
    var seen := committed + tx.own;
    if HasId(seen, e.id) then Tx(tx.locks + {lockId(e.channel)}, tx.own, Aborted)
    else Tx(tx.locks + {lockId(e.channel)}, tx.own + [Row(e, |Log(seen, e.channel)| + 1)], Idle)
  }

  /** Taking the lock and the number changes nothing else. */
  lemma NumberedFrame(lockId: string -> int, db: Db, t: nat, e: Event, num: int)
    requires t in db.open && NobodyElseHas(db, t, e.id)
    requires num == |Log(db.committed + db.open[t].own, e.channel)| + 1
    ensures var tx := NumberedTx(lockId, db.open[t], e, num);
            && NobodyElseHas(WithTx(db, t, tx), t, e.id)
            && AfterInsert(db.committed, tx) == AfterAppend(lockId, db.committed, db.open[t], e)
    ensures forall a, b :: WithTx(WithTx(db, t, a), t, b) == WithTx(db, t, b)
  {
    forall a: Tx, b: Tx ensures WithTx(WithTx(db, t, a), t, b) == WithTx(db, t, b) {
      assert db.open[t := a][t := b] == db.open[t := b];
    }
  }

  lemma InsertAfterNumber(lockId: string -> int, db: Db, t: nat, e: Event)
    requires t in db.open && NobodyElseHas(db, t, e.id)
    requires var num := |Log(db.committed + db.open[t].own, e.channel)| + 1;
             Inv(lockId, WithTx(db, t, NumberedTx(lockId, db.open[t], e, num)))
    ensures var num := |Log(db.committed + db.open[t].own, e.channel)| + 1;
            var db2 := WithTx(db, t, NumberedTx(lockId, db.open[t], e, num));
            && Enabled(lockId, db2, Insert(t)) && Inv(lockId, Step(lockId, db2, Insert(t)))
            && Step(lockId, db2, Insert(t)) == WithTx(db, t, AfterAppend(lockId, db.committed, db.open[t], e))
  {
    var num := |Log(db.committed + db.open[t].own, e.channel)| + 1;
    var db2 := WithTx(db, t, NumberedTx(lockId, db.open[t], e, num));
    NumberedFrame(lockId, db, t, e, num);
    InsertResult(lockId, db2, t);
  }

  /** The three statements of `append`, when nothing makes them wait. */
  lemma AppendRuns(lockId: string -> int, db: Db, t: nat, e: Event)
    requires Inv(lockId, db) && Enabled(lockId, db, Lock(t, e)) && NobodyElseHas(db, t, e.id)
    ensures var db1 := Step(lockId, db, Lock(t, e));
            Enabled(lockId, db1, Number(t)) &&
            var db2 := Step(lockId, db1, Number(t));
            && t in db2.open && Enabled(lockId, db2, Insert(t))
            && db2.open[t].phase == Numbered(e, |Log(db.committed + db.open[t].own, e.channel)| + 1)
            && Step(lockId, db2, Insert(t)) == WithTx(db, t, AfterAppend(lockId, db.committed, db.open[t], e))
            && Inv(lockId, Step(lockId, db2, Insert(t)))
  {
    LockAndNumber(lockId, db, t, e);
    InsertAfterNumber(lockId, db, t, e);
  }

  class EventStore {
    const lockId: string -> int
    var db: Db

    constructor (lockId: string -> int)
      ensures this.lockId == lockId && db == EMPTY.db && Inv(lockId, db)
    {
      this.lockId := lockId;
      db := Db([], map[]);
      EmptyIsValid(lockId, "");
    }

    /** `append`, when no other transaction makes it wait: the event gets the next number of its
        channel, and is refused exactly when its id is already visible. */
    method Append(t: nat, event: Event) returns (r: Appended)
      requires Inv(lockId, db) && Enabled(lockId, db, Lock(t, event)) && NobodyElseHas(db, t, event.id)
      modifies this
      ensures Inv(lockId, db)
      ensures db == WithTx(old(db), t, AfterAppend(lockId, old(db.committed), old(db.open[t]), event))
      ensures var seen := old(db.committed + db.open[t].own);
              && (r.Duplicate? <==> HasId(seen, event.id))
              && (r.Stored? ==> r.row == Row(event, |Log(seen, event.channel)| + 1))
    {
      AppendRuns(lockId, db, t, event);
      var locked := Step(lockId, db, Lock(t, event));
      var numbered := Step(lockId, locked, Number(t));
      var num := numbered.open[t].phase.num;
      db := Step(lockId, numbered, Insert(t));
      r := if db.open[t].phase.Aborted? then Duplicate else Stored(Row(event, num));
    }

    /** `fetch_after` with nothing committed between its two statements. */
    method FetchAfter(channel: string, fromEventId: Option<string>, limit: nat) returns (events: seq<Row>, hasMore: bool)
      requires Inv(lockId, db)
      ensures IsPageAfter(Log(db.committed, channel), fromEventId, limit, events, hasMore)
    {
      var log := Log(db.committed, channel);
      ChannelIsLog(db.committed, channel);
      FetchIsAfterCursor(log, fromEventId, limit);
      var start := ResolveCursor(log, fromEventId);
      var page := SelectPage(log, start, limit);
      events, hasMore := page.0, page.1;
    }
  }
}
