/** Totals that finished rows roll up into their owner, row by row. */
module RollUp {
  import opened TaskDag

  datatype Entry = Entry(owner: Uuid, tokens: int)

  /** Tokens of the finished rows of an owner, over the rows listed in `ids`. */
  ghost function Sum(ids: seq<Uuid>, done: map<Uuid, Entry>, owner: Uuid): int {
    if ids == [] then 0
    else
      var id := ids[|ids| - 1];
      Sum(ids[..|ids| - 1], done, owner) + if id in done && done[id].owner == owner then done[id].tokens else 0
  }

  ghost function Owned(done: map<Uuid, Entry>, owner: Uuid): set<Uuid> {
    set id | id in done && done[id].owner == owner
  }

  /** The counters of an owner are right. */
  ghost predicate Totals(ids: seq<Uuid>, done: map<Uuid, Entry>, owner: Uuid, tokens: int, count: int) {
    tokens == Sum(ids, done, owner) && count == |Owned(done, owner)|
  }

  lemma {:induction false} SumAfterFinish(ids: seq<Uuid>, done: map<Uuid, Entry>, owner: Uuid, id: Uuid, e: Entry)
    requires NoDup(ids) && id !in done
    ensures Sum(ids, done[id := e], owner) == Sum(ids, done, owner) + if id in ids && e.owner == owner then e.tokens else 0
    decreases |ids|
  {
    if ids != [] {
      var n := |ids| - 1;
      SumAfterFinish(ids[..n], done, owner, id, e);
      assert ids == ids[..n] + [ids[n]];
    }
  }

  /** Finishing one listed row adds exactly its tokens, and one, to its owner and nothing elsewhere. */
  lemma FinishAddsOnce(ids: seq<Uuid>, done: map<Uuid, Entry>, owner: Uuid, tokens: int, count: int, id: Uuid, e: Entry)
    requires NoDup(ids) && id in ids && id !in done && Totals(ids, done, owner, tokens, count)
    ensures Totals(ids, done[id := e], owner,
                   tokens + (if e.owner == owner then e.tokens else 0), count + if e.owner == owner then 1 else 0)
  {
    SumAfterFinish(ids, done, owner, id, e);
    assert Owned(done[id := e], owner) == Owned(done, owner) + if e.owner == owner then {id} else {};
    assert id !in Owned(done, owner);
  }

  /** A finished row that loses its entry takes away exactly what it added. */
  lemma UnfinishTakesAway(ids: seq<Uuid>, done: map<Uuid, Entry>, owner: Uuid, tokens: int, count: int, id: Uuid)
    requires NoDup(ids) && id in ids && id in done && Totals(ids, done, owner, tokens, count)
    ensures var e := done[id];
            Totals(ids, done - {id}, owner,
                   tokens - (if e.owner == owner then e.tokens else 0), count - if e.owner == owner then 1 else 0)
  {
    var rest, e := done - {id}, done[id];
    FinishAddsOnce(ids, rest, owner, Sum(ids, rest, owner), |Owned(rest, owner)|, id, e);
    assert rest[id := e] == done;
  }

  lemma NewRowAddsNothing(ids: seq<Uuid>, done: map<Uuid, Entry>, owner: Uuid, tokens: int, count: int, id: Uuid)
    requires id !in done && Totals(ids, done, owner, tokens, count)
    ensures Totals(ids + [id], done, owner, tokens, count)
  {
    assert (ids + [id])[..|ids|] == ids;
  }
}
