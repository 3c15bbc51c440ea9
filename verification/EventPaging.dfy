/** The two queries of `fetch_after`, over the committed log of one channel. */
module EventPaging {
  import opened Sorting
  import opened EventWriters

  datatype Option<T> = None | Some(value: T)

  /** The seq_num of an event of the channel, 0 when there is no such event. */
  function FindNum(log: seq<Row>, id: string): int {
    if log == [] then 0
    else
      var n := |log| - 1;
      if log[n].event.id == id then log[n].num else FindNum(log[..n], id)
  }

  /** First statement: an absent or empty cursor means the start. */
  function ResolveCursor(log: seq<Row>, cursor: Option<string>): int {
    if cursor.None? || cursor.value == "" then 0 else FindNum(log, cursor.value)
  }

  function Beyond(log: seq<Row>, start: int): seq<Row> {
    if log == [] then []
    else
      var n := |log| - 1;
      Beyond(log[..n], start) + if log[n].num > start then [log[n]] else []
  }

  function NumKey(r: Row): Key {
    Key(r.num, 0)
  }

  function Take(s: seq<Row>, n: nat): seq<Row> {
    if n < |s| then s[..n] else s
  }

  /** Second statement: ORDER BY seq_num ASC LIMIT limit + 1, then cut to `limit`. */
  function SelectPage(log: seq<Row>, start: int, limit: nat): (seq<Row>, bool) {
    var found := Take(SortBy(Beyond(log, start), NumKey), limit + 1);
    (Take(found, limit), |found| > limit)
  }

  ghost predicate IsLog(log: seq<Row>) {
    Consecutive(log, 1) && DistinctIds(log)
  }

  lemma {:induction false} NothingBeyond(log: seq<Row>, start: nat)
    requires Consecutive(log, 1) && |log| <= start
    ensures Beyond(log, start) == []
  {
    if log != [] {
      NothingBeyond(log[..|log| - 1], start);
    }
  }

  lemma {:induction false} BeyondOfConsecutive(log: seq<Row>, start: nat)
    requires Consecutive(log, 1) && start <= |log|
    ensures Beyond(log, start) == log[start..]
  {
    var n := |log| - 1;
    if start == |log| {
      NothingBeyond(log, start);
    } else {
      BeyondOfConsecutive(log[..n], start);
      assert log[start..] == log[..n][start..] + [log[n]];
    }
  }

  lemma {:induction false} FindNumAt(log: seq<Row>, k: nat)
    requires IsLog(log) && k < |log|
    ensures FindNum(log, log[k].event.id) == k + 1
  {
    var n := |log| - 1;
    if k < n {
      assert log[k].event.id != log[n].event.id;
      FindNumAt(log[..n], k);
    }
  }

  lemma {:induction false} FindNumAbsent(log: seq<Row>, id: string)
    requires forall k :: 0 <= k < |log| ==> log[k].event.id != id
    ensures FindNum(log, id) == 0
  {
    if log != [] {
      FindNumAbsent(log[..|log| - 1], id);
    }
  }

  lemma SuffixIsSorted(log: seq<Row>, start: nat)
    requires Consecutive(log, 1) && start <= |log|
    ensures SortedBy(log[start..], NumKey)
  {
    var rest := log[start..];
    forall i, j | 0 <= i < j < |rest| ensures NumKey(rest[i]).Leq(NumKey(rest[j])) {
      assert rest[i] == log[start + i] && rest[j] == log[start + j];
    }
  }

  /** One page: the next `limit` events of the channel, and an exact `has_more`. */
  lemma PageIsNext(log: seq<Row>, start: nat, limit: nat)
    requires IsLog(log) && start <= |log|
    ensures SelectPage(log, start, limit).0 == Take(log[start..], limit)
    ensures SelectPage(log, start, limit).1 <==> |log| - start > limit
  {
    BeyondOfConsecutive(log, start);
    SuffixIsSorted(log, start);
    SortOfSorted(log[start..], NumKey);
    TakeTake(log[start..], limit);
  }

  lemma TakeTake(s: seq<Row>, n: nat)
    ensures Take(Take(s, n + 1), n) == Take(s, n)
    ensures |Take(s, n + 1)| > n <==> |s| > n
  {
    if n + 1 < |s| {
      assert s[..n + 1][..n] == s[..n];
    }
  }

  /** A page appended to what a reader already has is again a prefix of the log. */
  lemma PageExtends(log: seq<Row>, got: seq<Row>, limit: nat)
    requires IsLog(log) && got <= log
    ensures var page := SelectPage(log, |got|, limit);
            && got + page.0 <= log
            && (page.1 <==> got + page.0 != log)
            && (limit > 0 && got != log ==> page.0 != [])
  {
    PageIsNext(log, |got|, limit);
    var rest := log[|got|..];
    assert log == got + rest;
    if limit < |rest| {
      assert got + rest[..limit] == log[..|got| + limit];
    }
  }

  /** The id of the last event received resolves to how many were received, exactly when it is not
      the empty string, which reads as no cursor. */
  lemma CursorIsPosition(log: seq<Row>, got: seq<Row>)
    requires IsLog(log) && got <= log && got != []
    ensures ResolveCursor(log, Some(got[|got| - 1].event.id)) == |got| <==> got[|got| - 1].event.id != ""
  {
    FindNumAt(log, |got| - 1);
  }

  ghost predicate NamesNothing(log: seq<Row>, cursor: Option<string>) {
    cursor.None? || cursor.value == "" || forall k :: 0 <= k < |log| ==> log[k].event.id != cursor.value
  }

  /** The page after the event the cursor names, or from the start when it names none. */
  ghost predicate IsPageAfter(log: seq<Row>, cursor: Option<string>, limit: nat, page: seq<Row>, hasMore: bool) {
    || (NamesNothing(log, cursor) && page == Take(log, limit) && (hasMore <==> |log| > limit))
    || (exists k :: 0 <= k < |log| && cursor == Some(log[k].event.id) && log[k].event.id != ""
          && page == Take(log[k + 1..], limit) && (hasMore <==> |log| - (k + 1) > limit))
  }

  lemma FetchFromStart(log: seq<Row>, cursor: Option<string>, limit: nat)
    requires IsLog(log) && NamesNothing(log, cursor)
    ensures var page := SelectPage(log, ResolveCursor(log, cursor), limit);
            page.0 == Take(log, limit) && (page.1 <==> |log| > limit)
  {
    if cursor.Some? && cursor.value != "" {
      FindNumAbsent(log, cursor.value);
    }
    PageIsNext(log, 0, limit);
    assert log[0..] == log;
  }

  lemma FetchIsAfterCursor(log: seq<Row>, cursor: Option<string>, limit: nat)
    requires IsLog(log)
    ensures var page := SelectPage(log, ResolveCursor(log, cursor), limit);
            IsPageAfter(log, cursor, limit, page.0, page.1)
  {
    if NamesNothing(log, cursor) {
      FetchFromStart(log, cursor, limit);
    } else {
      var k :| 0 <= k < |log| && log[k].event.id == cursor.value;
      FindNumAt(log, k);
      PageIsNext(log, k + 1, limit);
    }
  }

  /** An event whose id is the empty string cannot serve as a cursor: the reader starts over. */
  lemma EmptyIdRestarts(body: string)
    ensures var log := [Row(Event("", "calls", body), 1)];
            IsLog(log) && SelectPage(log, ResolveCursor(log, Some(log[0].event.id)), 1).0 == log
  {
    var log := [Row(Event("", "calls", body), 1)];
    PageIsNext(log, 0, 1);
  }
}
