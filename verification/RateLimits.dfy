/** Fixed-window request budgets: Redis counters that are incremented and, when new, given a time to
    live in one atomic script. */
module RateLimits {

  datatype Option<T> = None | Some(value: T)
  datatype Path = Path(text: string)

  // Keys are digests in the program; distinct inputs are taken to have distinct digests.
  datatype Key = RequestKey(path: Path, host: int, bucket: int) | AccountKey(account: int) | PeerKey(peer: int) | ProviderKey

  // Instants are in milliseconds.  A counter lives up to and including `expiresAt`.
  datatype Counter = Counter(count: nat, expiresAt: int)

  // `app` is the clock of the process, which names the bucket; `at` the clock of Redis.
  datatype Hit = Hit(key: Key, app: int, at: int)

  const BUCKET := 60_000
  const LOGIN_WINDOW := 300_000
  const ACCOUNT_LIMIT := 10
  const PEER_LIMIT := 60
  const PROVIDER_LIMIT := 6000
  // How far the two clocks may be apart.
  const SKEW := 30_000

  /** The time to live passed to the script. */
  function Ttl(k: Key): int {
    if k.RequestKey? then 120_000 else LOGIN_WINDOW
  }

  predicate EndsWith(s: string, t: string) {
    |t| <= |s| && s[|s| - |t|..] == t
  }

  predicate Contains(s: string, t: string) {
    |t| <= |s| && (s[..|t|] == t || (s != [] && Contains(s[1..], t)))
  }

  function PathLimit(path: Path): Option<nat> {
    if EndsWith(path.text, "/auth/login") || EndsWith(path.text, "/auth/refresh") then Some(10)
    else if Contains(path.text, "instantdm") then Some(60)
    else if Contains(path.text, "/curator/") then Some(20)
    else None
  }

  // ---------------------------------------------------------------- the counters

  predicate Alive(cs: map<Key, Counter>, k: Key, at: int) {
    k in cs && at <= cs[k].expiresAt
  }

  function Bump(cs: map<Key, Counter>, h: Hit): map<Key, Counter> {
    if Alive(cs, h.key, h.at) then cs[h.key := Counter(cs[h.key].count + 1, cs[h.key].expiresAt)]
    else cs[h.key := Counter(1, h.at + Ttl(h.key))]
  }

  /** The counters after a trace of hits. */
  function Counters(hits: seq<Hit>): map<Key, Counter> {
    if hits == [] then map[] else Bump(Counters(hits[..|hits| - 1]), hits[|hits| - 1])
  }

  /** What the script returned for the last hit. */
  function Returned(hits: seq<Hit>): nat
    requires hits != []
  {
    Bump(Counters(hits[..|hits| - 1]), hits[|hits| - 1])[hits[|hits| - 1].key].count
  }

  ghost predicate InOrder(hits: seq<Hit>) {
    forall i, j :: 0 <= i < j < |hits| ==> hits[i].at <= hits[j].at
  }

  datatype Verdict = Passed | Limited | Unavailable

  class Redis {
    var counters: map<Key, Counter>
    ghost var hits: seq<Hit>

    ghost predicate Valid()
      reads this
    {
      counters == Counters(hits)
    }

    constructor ()
      ensures Valid() && hits == []
    {
      counters, hits := map[], [];
    }

    /** INCR, and EXPIRE if the result is 1. */
    method Eval(key: Key, ttl: int, app: int, at: int) returns (n: nat)
      requires Valid() && ttl == Ttl(key)
      modifies this
      ensures Valid() && hits == old(hits) + [Hit(key, app, at)] && n == Returned(hits)
    {
      assert (hits + [Hit(key, app, at)])[..|hits|] == hits;
      if key in counters && at <= counters[key].expiresAt {
        counters := counters[key := Counter(counters[key].count + 1, counters[key].expiresAt)];
      } else {
        counters := counters[key := Counter(1, at + ttl)];
      }
      n := counters[key].count;
      hits := hits + [Hit(key, app, at)];
    }

    /** `RequestLimits.dispatch`; `up` says whether Redis answers. */
    method Dispatch(path: Path, host: int, options: bool, app: int, at: int, up: bool) returns (v: Verdict)
      requires Valid() && app >= 0
      modifies this
      ensures Valid()
      ensures options || PathLimit(path).None? ==> v.Passed? && hits == old(hits)
      ensures !options && PathLimit(path).Some? ==>
                if !up then v.Unavailable? && hits == old(hits)
                else && hits == old(hits) + [Hit(RequestKey(path, host, app / BUCKET), app, at)]
                     && v == if Returned(hits) <= PathLimit(path).value then Passed else Limited
    {
      var limit := PathLimit(path);
      if options || limit.None? {
        return Passed;
      }
      if !up {
        return Unavailable;
      }
      var count := Eval(RequestKey(path, host, app / BUCKET), 120_000, app, at);
      v := if count > limit.value then Limited else Passed;
    }

    /** `enforce_login_budget`: both counters are charged, also when the first is already over. */
    method EnforceLoginBudget(account: int, peer: int, app: int, at: int, later: int, up: bool, stillUp: bool) returns (v: Verdict)
      requires Valid()
      modifies this
      ensures Valid()
      ensures if !up then v.Unavailable? && hits == old(hits)
              else if !stillUp then v.Unavailable? && hits == old(hits) + [Hit(AccountKey(account), app, at)]
              else
                var first := old(hits) + [Hit(AccountKey(account), app, at)];
                && hits == first + [Hit(PeerKey(peer), app, later)]
                && v == if Returned(first) <= ACCOUNT_LIMIT && Returned(hits) <= PEER_LIMIT then Passed else Limited
    {
      if !up {
        return Unavailable;
      }
      var accountCount := Eval(AccountKey(account), LOGIN_WINDOW, app, at);
      if !stillUp {
        return Unavailable;
      }
      var peerCount := Eval(PeerKey(peer), LOGIN_WINDOW, app, later);
      v := if accountCount > ACCOUNT_LIMIT || peerCount > PEER_LIMIT then Limited else Passed;
    }

    /** `enforce_instantdm_budget`. */
    method EnforceProviderBudget(app: int, at: int, up: bool) returns (v: Verdict)
      requires Valid()
      modifies this
      ensures Valid()
      ensures if !up then v.Unavailable? && hits == old(hits)
              else && hits == old(hits) + [Hit(ProviderKey, app, at)]
                   && v == if Returned(hits) <= PROVIDER_LIMIT then Passed else Limited
    {
      if !up {
        return Unavailable;
      }
      var count := Eval(ProviderKey, LOGIN_WINDOW, app, at);
      v := if count > PROVIDER_LIMIT then Limited else Passed;
    }
  }

  // ---------------------------------------------------------------- one key, any window of its lifetime's length

  /** Hits of k admitted under the limit with Redis time in [from, from + Ttl(k)). */
  ghost function AdmittedIn(hits: seq<Hit>, k: Key, limit: nat, from: int): nat {
    if hits == [] then 0
    else
      var h := hits[|hits| - 1];
      AdmittedIn(hits[..|hits| - 1], k, limit, from)
      + if h.key == k && from <= h.at < from + Ttl(k) && Returned(hits) <= limit then 1 else 0
  }

  function Min(a: nat, b: nat): nat {
    if a <= b then a else b
  }

  function Less(n: nat): nat {
    if n == 0 then 0 else n - 1
  }

  /** What may have been admitted, by where the present lifetime of the counter began: the hit that
      began it is itself outside an interval that begins later. */
  ghost predicate WindowBound(c: Counter, ttl: int, limit: nat, from: int, admitted: nat) {
    var start := c.expiresAt - ttl;
    && c.count >= 1
    && if start < from then admitted <= Less(Min(c.count, limit))
       else if start < from + ttl then admitted <= Less(limit) + Min(c.count, limit)
       else admitted <= Less(limit) + limit
  }

  lemma InOrderPrefix(hits: seq<Hit>)
    requires InOrder(hits) && hits != []
    ensures InOrder(hits[..|hits| - 1])
    ensures forall h :: h in hits[..|hits| - 1] ==> h.at <= hits[|hits| - 1].at
  {
  }

  lemma {:induction false} StartsInPast(hits: seq<Hit>, k: Key)
    requires InOrder(hits) && k in Counters(hits)
    ensures hits != [] && Counters(hits)[k].expiresAt - Ttl(k) <= hits[|hits| - 1].at
    decreases |hits|
  {
    var init, h := hits[..|hits| - 1], hits[|hits| - 1];
    InOrderPrefix(hits);
    if k in Counters(init) {
      StartsInPast(init, k);
      assert init[|init| - 1] in init;
    }
  }

  lemma {:induction false} NoneBefore(hits: seq<Hit>, k: Key, limit: nat, from: int)
    requires InOrder(hits) && (hits != [] ==> hits[|hits| - 1].at < from)
    ensures AdmittedIn(hits, k, limit, from) == 0
    decreases |hits|
  {
    if hits != [] {
      InOrderPrefix(hits);
      NoneBefore(hits[..|hits| - 1], k, limit, from);
    }
  }

  lemma WindowStep(c: Counter, c': Counter, ttl: int, limit: nat, from: int, admitted: nat, at: int)
    requires ttl > 0 && WindowBound(c, ttl, limit, from, admitted) && c.expiresAt - ttl <= at
    requires c' == if at <= c.expiresAt then Counter(c.count + 1, c.expiresAt) else Counter(1, at + ttl)
    requires at < from ==> admitted == 0
    ensures WindowBound(c', ttl, limit, from, admitted + if from <= at < from + ttl && c'.count <= limit then 1 else 0)
  {
  }

  lemma OtherHit(init: seq<Hit>, h: Hit, k: Key, limit: nat, from: int)
    requires h.key != k
    ensures (k in Counters(init + [h]) <==> k in Counters(init)) && (k in Counters(init) ==> Counters(init + [h])[k] == Counters(init)[k])
    ensures AdmittedIn(init + [h], k, limit, from) == AdmittedIn(init, k, limit, from)
  {
    assert (init + [h])[..|init|] == init;
  }

  lemma OwnHit(init: seq<Hit>, h: Hit, k: Key, limit: nat, from: int)
    requires h.key == k
    ensures Counters(init + [h]) == Bump(Counters(init), h)
    ensures AdmittedIn(init + [h], k, limit, from)
            == AdmittedIn(init, k, limit, from) + if from <= h.at < from + Ttl(k) && Bump(Counters(init), h)[k].count <= limit then 1 else 0
  {
    assert (init + [h])[..|init|] == init;
  }

  lemma {:induction false} WindowInvariant(hits: seq<Hit>, k: Key, limit: nat, from: int)
    requires InOrder(hits)
    ensures if k in Counters(hits) then WindowBound(Counters(hits)[k], Ttl(k), limit, from, AdmittedIn(hits, k, limit, from))
            else AdmittedIn(hits, k, limit, from) == 0
    decreases |hits|
  {
    if hits != [] {
      var init, h := hits[..|hits| - 1], hits[|hits| - 1];
      assert hits == init + [h];
      InOrderPrefix(hits);
      WindowInvariant(init, k, limit, from);
      if h.key != k {
        OtherHit(init, h, k, limit, from);
      } else {
        OwnHit(init, h, k, limit, from);
        if h.at < from {
          NoneBefore(hits, k, limit, from);
        }
        if k in Counters(init) {
          StartsBefore(init, k, h.at);
          WindowStep(Counters(init)[k], Counters(hits)[k], Ttl(k), limit, from, AdmittedIn(init, k, limit, from), h.at);
        }
      }
    }
  }

  lemma StartsBefore(hits: seq<Hit>, k: Key, at: int)
    requires InOrder(hits) && k in Counters(hits) && forall h :: h in hits ==> h.at <= at
    ensures Counters(hits)[k].expiresAt - Ttl(k) <= at
  {
    StartsInPast(hits, k);
    assert hits[|hits| - 1] in hits;
  }

  /** Whatever the trace, a key with budget `limit` admits fewer than twice that in any half-open
      interval as long as its time to live: two lifetimes at most meet it, and the first of them had
      its first hit before. */
  lemma AtMostTwicePerLifetime(hits: seq<Hit>, k: Key, limit: nat, from: int)
    requires InOrder(hits)
    ensures AdmittedIn(hits, k, limit, from) <= if limit == 0 then 0 else 2 * limit - 1
  {
    WindowInvariant(hits, k, limit, from);
  }

  ghost function Burst(hits: seq<Hit>, h: Hit, n: nat): seq<Hit> {
    if n == 0 then hits else Burst(hits, h, n - 1) + [h]
  }

  /** The counter of k, and what was admitted of it. */
  ghost predicate Stands(hits: seq<Hit>, k: Key, limit: nat, from: int, c: Counter, n: nat) {
    k in Counters(hits) && Counters(hits)[k] == c && AdmittedIn(hits, k, limit, from) == n
  }

  lemma HitStands(hits: seq<Hit>, h: Hit, limit: nat, from: int, c: Counter, n: nat)
    requires Stands(hits, h.key, limit, from, c, n) && from <= h.at < from + Ttl(h.key)
    ensures var c' := if h.at <= c.expiresAt then Counter(c.count + 1, c.expiresAt) else Counter(1, h.at + Ttl(h.key));
            Stands(hits + [h], h.key, limit, from, c', n + if c'.count <= limit then 1 else 0)
  {
    OwnHit(hits, h, h.key, limit, from);
  }

  /** A burst on a counter that is alive is counted on, and admitted while it fits. */
  lemma {:induction false} BurstStands(hits: seq<Hit>, h: Hit, m: nat, limit: nat, from: int, c: Counter, n: nat)
    requires Stands(hits, h.key, limit, from, c, n) && from <= h.at < from + Ttl(h.key)
    requires h.at <= c.expiresAt && c.count + m <= limit
    ensures Stands(Burst(hits, h, m), h.key, limit, from, Counter(c.count + m, c.expiresAt), n + m)
  {
    if m > 0 {
      BurstStands(hits, h, m - 1, limit, from, c, n);
      HitStands(Burst(hits, h, m - 1), h, limit, from, Counter(c.count + (m - 1), c.expiresAt), n + (m - 1));
    }
  }

  ghost predicate Before(hits: seq<Hit>, at: int) {
    InOrder(hits) && forall x :: x in hits ==> x.at <= at
  }

  lemma HitInOrder(hits: seq<Hit>, h: Hit)
    requires Before(hits, h.at)
    ensures Before(hits + [h], h.at)
  {
    forall i | 0 <= i < |hits| ensures hits[i].at <= h.at { assert hits[i] in hits; }
  }

  lemma {:induction false} BurstInOrder(hits: seq<Hit>, h: Hit, n: nat)
    requires Before(hits, h.at)
    ensures Before(Burst(hits, h, n), h.at)
  {
    if n > 0 {
      BurstInOrder(hits, h, n - 1);
      HitInOrder(Burst(hits, h, n - 1), h);
    }
  }

  lemma FirstHit(h: Hit, limit: nat, from: int)
    requires h.at < from
    ensures Stands([h], h.key, limit, from, Counter(1, h.at + Ttl(h.key)), 0) && Before([h], h.at)
  {
    OwnHit([], h, h.key, limit, from);
    assert [] + [h] == [h];
  }

  /** The bound is sharp for every key: one hit, all but one of the budget at the last instant of its
      lifetime, and the whole budget right after. */
  lemma LifetimeBoundIsReached(k: Key, limit: nat) returns (hits: seq<Hit>)
    requires limit >= 1
    ensures InOrder(hits) && AdmittedIn(hits, k, limit, Ttl(k)) == 2 * limit - 1
  {
    var ttl := Ttl(k);
    var h0, h1, h2 := Hit(k, 0, 0), Hit(k, ttl, ttl), Hit(k, ttl + 1, ttl + 1);
    FirstHit(h0, limit, ttl);
    hits := Burst([h0], h1, limit - 1);
    BurstStands([h0], h1, limit - 1, limit, ttl, Counter(1, ttl), 0);
    BurstInOrder([h0], h1, limit - 1);
    HitStands(hits, h2, limit, ttl, Counter(limit, ttl), limit - 1);
    HitInOrder(hits, h2);
    hits := hits + [h2];
    BurstStands(hits, h2, limit - 1, limit, ttl, Counter(1, ttl + 1 + ttl), limit);
    BurstInOrder(hits, h2, limit - 1);
    hits := Burst(hits, h2, limit - 1);
  }

  // ---------------------------------------------------------------- one path and host, any minute

  /** Clocks agree within SKEW, and request keys are named after the process clock. */
  ghost predicate Bucketed(h: Hit) {
    && h.app >= 0 && -SKEW <= h.app - h.at <= SKEW
    && (h.key.RequestKey? ==> h.key.bucket == h.app / BUCKET)
  }

  ghost predicate Requests(hits: seq<Hit>) {
    InOrder(hits) && forall i :: 0 <= i < |hits| ==> Bucketed(hits[i])
  }

  ghost function AdmittedFor(hits: seq<Hit>, k: Key, limit: nat): nat {
    if hits == [] then 0
    else AdmittedFor(hits[..|hits| - 1], k, limit) + if hits[|hits| - 1].key == k && Returned(hits) <= limit then 1 else 0
  }

  /** Requests of a path and host admitted with process time in [from, from + one minute). */
  ghost function AdmittedInMinute(hits: seq<Hit>, path: Path, host: int, limit: nat, from: int): nat {
    if hits == [] then 0
    else
      var h := hits[|hits| - 1];
      AdmittedInMinute(hits[..|hits| - 1], path, host, limit, from)
      + if h.key.RequestKey? && h.key.path == path && h.key.host == host && from <= h.app < from + BUCKET && Returned(hits) <= limit
        then 1 else 0
  }

  /** Two minutes from any request of a bucket reach past every other one, whatever the clocks: the
      counter of a bucket is never restarted. */
  lemma {:induction false} BucketCounterLives(hits: seq<Hit>, k: Key)
    requires Requests(hits) && k.RequestKey?
    ensures k in Counters(hits) ==> Counters(hits)[k].expiresAt >= k.bucket * BUCKET - SKEW + 120_000
    decreases |hits|
  {
    if hits != [] {
      var init, h := hits[..|hits| - 1], hits[|hits| - 1];
      assert Bucketed(h);
      InOrderPrefix(hits);
      BucketCounterLives(init, k);
    }
  }

  lemma {:induction false} BucketBound(hits: seq<Hit>, k: Key, limit: nat)
    requires Requests(hits) && k.RequestKey?
    ensures AdmittedFor(hits, k, limit) <= (if k in Counters(hits) then Min(Counters(hits)[k].count, limit) else 0)
    decreases |hits|
  {
    if hits != [] {
      var init, h := hits[..|hits| - 1], hits[|hits| - 1];
      assert Bucketed(h);
      InOrderPrefix(hits);
      BucketBound(init, k, limit);
      if k in Counters(init) {
        BucketCounterLives(init, k);
        assert h.key == k ==> Alive(Counters(init), k, h.at);
      }
    }
  }

  lemma {:induction false} MinuteTouchesTwoBuckets(hits: seq<Hit>, path: Path, host: int, limit: nat, from: int)
    requires Requests(hits)
    ensures AdmittedInMinute(hits, path, host, limit, from)
            <= AdmittedFor(hits, RequestKey(path, host, from / BUCKET), limit)
               + AdmittedFor(hits, RequestKey(path, host, from / BUCKET + 1), limit)
    decreases |hits|
  {
    if hits != [] {
      InOrderPrefix(hits);
      assert Bucketed(hits[|hits| - 1]);
      MinuteTouchesTwoBuckets(hits[..|hits| - 1], path, host, limit, from);
    }
  }

  /** Whatever the trace, a path admits from one host at most twice its limit in any minute. */
  lemma AtMostTwicePerMinute(hits: seq<Hit>, path: Path, host: int, from: int)
    requires Requests(hits) && PathLimit(path).Some?
    ensures AdmittedInMinute(hits, path, host, PathLimit(path).value, from) <= 2 * PathLimit(path).value
  {
    var limit, b := PathLimit(path).value, from / BUCKET;
    MinuteTouchesTwoBuckets(hits, path, host, limit, from);
    BucketBound(hits, RequestKey(path, host, b), limit);
    BucketBound(hits, RequestKey(path, host, b + 1), limit);
  }

  // ---------------------------------------------------------------- the factor of two is real

  lemma {:induction false} BurstCounts(hits: seq<Hit>, h: Hit, n: nat, path: Path, host: int, limit: nat, from: int)
    requires h.key.RequestKey? && h.key.path == path && h.key.host == host && from <= h.app < from + BUCKET
    requires h.key !in Counters(hits) && n <= limit
    ensures var r := Burst(hits, h, n);
            && AdmittedInMinute(r, path, host, limit, from) == AdmittedInMinute(hits, path, host, limit, from) + n
            && (n > 0 ==> h.key in Counters(r) && Counters(r)[h.key] == Counter(n, h.at + Ttl(h.key)))
            && forall k :: k != h.key ==> (k in Counters(r) <==> k in Counters(hits))
  {
    if n > 0 {
      var before := Burst(hits, h, n - 1);
      BurstCounts(hits, h, n - 1, path, host, limit, from);
      assert Burst(hits, h, n)[..|before|] == before;
    }
  }

  lemma {:induction false} BurstIsTrace(hits: seq<Hit>, h: Hit, n: nat)
    requires Requests(hits) && Bucketed(h) && forall x :: x in hits ==> x.at <= h.at
    ensures Requests(Burst(hits, h, n)) && forall x :: x in Burst(hits, h, n) ==> x.at <= h.at
  {
    if n > 0 {
      BurstIsTrace(hits, h, n - 1);
      var before := Burst(hits, h, n - 1);
      forall i | 0 <= i < |before| ensures before[i].at <= h.at { assert before[i] in before; }
    }
  }

  /** A burst at the end of one bucket and one at the start of the next admit exactly twice the limit
      within a minute, so no smaller bound holds. */
  lemma TwiceIsReached(path: Path, host: int) returns (hits: seq<Hit>)
    requires PathLimit(path).Some?
    ensures Requests(hits) && AdmittedInMinute(hits, path, host, PathLimit(path).value, 59_999) == 2 * PathLimit(path).value
  {
    var limit := PathLimit(path).value;
    var h0, h1 := Hit(RequestKey(path, host, 0), 59_999, 59_999), Hit(RequestKey(path, host, 1), 60_000, 60_000);
    var first := Burst([], h0, limit);
    hits := Burst(first, h1, limit);
    BurstIsTrace([], h0, limit);
    BurstIsTrace(first, h1, limit);
    BurstCounts([], h0, limit, path, host, limit, 59_999);
    BurstCounts(first, h1, limit, path, host, limit, 59_999);
  }
}
