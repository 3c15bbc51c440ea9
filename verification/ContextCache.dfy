/** `ContextCacheRuntime`: a bounded in-process cache whose order of keys is the order of their last
    `set`, with expiry checked on reading. */
module ContextCache {

  datatype Option<T> = None | Some(value: T)
  datatype AssemblyKey = AssemblyKey(text: string)
  datatype Entry<T> = Entry(result: T, expiresAt: int)

  // A Python dict with its insertion order.
  datatype Store<T> = Store(keys: seq<AssemblyKey>, entries: map<AssemblyKey, Entry<T>>)

  datatype Op<T> = Set(key: AssemblyKey, result: T, now: int, ttl: int) | Get(key: AssemblyKey, now: int) | Invalidate(key: AssemblyKey) | Clear

  ghost predicate NoDup(s: seq<AssemblyKey>) {
    forall i, j :: 0 <= i < j < |s| ==> s[i] != s[j]
  }

  ghost predicate IsDict<T>(s: Store<T>) {
    NoDup(s.keys) && forall k :: k in s.keys <==> k in s.entries
  }

  function Without(keys: seq<AssemblyKey>, key: AssemblyKey): seq<AssemblyKey> {
    if keys == [] then []
    else if keys[0] == key then keys[1..]
    else [keys[0]] + Without(keys[1..], key)
  }

  function Delete<T>(s: Store<T>, key: AssemblyKey): Store<T> {
    Store(Without(s.keys, key), s.entries - {key})
  }

  function AfterSet<T>(s: Store<T>, maxSize: nat, key: AssemblyKey, result: T, now: int, ttl: int): Store<T> {
    var s1 := if key in s.entries then Delete(s, key) else s;
    var s2 := if |s1.keys| >= maxSize && s1.keys != [] then Delete(s1, s1.keys[0]) else s1;
    Store(s2.keys + [key], s2.entries[key := Entry(result, now + ttl)])
  }

  predicate Expired<T>(s: Store<T>, key: AssemblyKey, now: int) {
    key in s.entries && now > s.entries[key].expiresAt
  }

  function Lookup<T>(s: Store<T>, key: AssemblyKey, now: int): Option<T> {
    if key in s.entries && !Expired(s, key, now) then Some(s.entries[key].result) else None
  }

  function AfterGet<T>(s: Store<T>, key: AssemblyKey, now: int): Store<T> {
    if Expired(s, key, now) then Delete(s, key) else s
  }

  function Apply<T>(s: Store<T>, maxSize: nat, op: Op<T>): Store<T> {
    match op
    case Set(k, r, now, ttl) => AfterSet(s, maxSize, k, r, now, ttl)
    case Get(k, now) => AfterGet(s, k, now)
    case Invalidate(k) => Delete(s, k)
    case Clear => Store([], map[])
  }

  function ApplyAll<T>(maxSize: nat, ops: seq<Op<T>>): Store<T> {
    if ops == [] then Store([], map[])
    else Apply(ApplyAll(maxSize, ops[..|ops| - 1]), maxSize, ops[|ops| - 1])
  }

  class ContextCache<T(==)> {
    const maxSize: nat
    var keys: seq<AssemblyKey>
    var entries: map<AssemblyKey, Entry<T>>

    function View(): Store<T>
      reads this
    {
      Store(keys, entries)
    }

    constructor (maxSize: nat)
      requires maxSize >= 1
      ensures this.maxSize == maxSize && View() == Store([], map[])
    {
      this.maxSize := maxSize;
      keys, entries := [], map[];
    }

    method SetEntry(key: AssemblyKey, result: T, now: int, ttl: int)
      requires maxSize >= 1 && IsDict(View())
      modifies this
      ensures View() == AfterSet(old(View()), maxSize, key, result, now, ttl) && IsDict(View())
    {
      SetKeepsDict(View(), maxSize, key, result, now, ttl);
      if key in entries {
        keys, entries := Without(keys, key), entries - {key};
      }
      if |keys| >= maxSize {
        var oldest := keys[0];
        keys, entries := Without(keys, oldest), entries - {oldest};
      }
      keys, entries := keys + [key], entries[key := Entry(result, now + ttl)];
    }

    method GetEntry(key: AssemblyKey, now: int) returns (r: Option<T>)
      requires IsDict(View())
      modifies this
      ensures r == Lookup(old(View()), key, now)
      ensures View() == AfterGet(old(View()), key, now) && IsDict(View())
    {
      DeleteKeepsDict(View(), key);
      if key !in entries {
        return None;
      }
      if now > entries[key].expiresAt {
        keys, entries := Without(keys, key), entries - {key};
        return None;
      }
      r := Some(entries[key].result);
    }

    method InvalidateEntry(key: AssemblyKey)
      requires IsDict(View())
      modifies this
      ensures View() == Delete(old(View()), key) && IsDict(View())
    {
      DeleteKeepsDict(View(), key);
      keys, entries := Without(keys, key), entries - {key};
    }

    method ClearAll()
      modifies this
      ensures View() == Store([], map[]) && IsDict(View())
    {
      keys, entries := [], map[];
    }
  }

  // ---------------------------------------------------------------- dictionary order

  lemma {:induction false} WithoutKeeps(keys: seq<AssemblyKey>, key: AssemblyKey)
    requires NoDup(keys)
    ensures NoDup(Without(keys, key))
    ensures forall k :: k in Without(keys, key) <==> k in keys && k != key
    ensures |Without(keys, key)| == |keys| - if key in keys then 1 else 0
  {
    if keys != [] {
      assert keys == [keys[0]] + keys[1..];
      WithoutKeeps(keys[1..], key);
      assert keys[0] !in keys[1..];
    }
  }

  lemma DeleteKeepsDict<T>(s: Store<T>, key: AssemblyKey)
    requires IsDict(s)
    ensures IsDict(Delete(s, key))
    ensures |Delete(s, key).keys| == |s.keys| - if key in s.entries then 1 else 0
    ensures forall k :: k in Delete(s, key).entries <==> k in s.entries && k != key
  {
    WithoutKeeps(s.keys, key);
  }

  lemma DropKeepsDict<T>(s: Store<T>, key: AssemblyKey)
    requires IsDict(s)
    ensures var s1 := if key in s.entries then Delete(s, key) else s;
            && IsDict(s1) && |s1.keys| <= |s.keys| && key !in s1.entries
            && (forall k :: k in s1.entries ==> k in s.entries && s1.entries[k] == s.entries[k])
  {
    DeleteKeepsDict(s, key);
  }

  lemma EvictKeepsDict<T>(s: Store<T>, maxSize: nat)
    requires IsDict(s) && maxSize >= 1
    ensures |s.keys| >= maxSize ==> s.keys != []
    ensures var s2 := if |s.keys| >= maxSize && s.keys != [] then Delete(s, s.keys[0]) else s;
            && IsDict(s2) && (|s.keys| <= maxSize ==> |s2.keys| < maxSize)
            && (forall k :: k in s2.entries ==> k in s.entries && s2.entries[k] == s.entries[k])
  {
    if |s.keys| >= maxSize {
      assert s.keys[0] in s.keys;
      DeleteKeepsDict(s, s.keys[0]);
    }
  }

  /** The store after a `set`: bounded, holding the new entry, and every other entry except, when a
      new key meets a full store, the one at the front. */
  lemma SetKeepsDict<T>(s: Store<T>, maxSize: nat, key: AssemblyKey, result: T, now: int, ttl: int)
    requires IsDict(s) && maxSize >= 1
    ensures var s' := AfterSet(s, maxSize, key, result, now, ttl);
            && IsDict(s')
            && (|s.keys| <= maxSize ==> |s'.keys| <= maxSize)
            && key in s'.entries && s'.entries[key] == Entry(result, now + ttl)
            && (forall k :: k in s'.entries && k != key ==> k in s.entries && s'.entries[k] == s.entries[k])
    ensures var s1 := if key in s.entries then Delete(s, key) else s;
            IsDict(s1) && (|s1.keys| >= maxSize ==> s1.keys != [])
  {
    DropKeepsDict(s, key);
    EvictKeepsDict(if key in s.entries then Delete(s, key) else s, maxSize);
  }

  /** Re-setting a key that is present evicts nothing; setting a new one evicts at most the front. */
  lemma SetEvictsFrontOnly<T>(s: Store<T>, maxSize: nat, key: AssemblyKey, result: T, now: int, ttl: int, k: AssemblyKey)
    requires IsDict(s) && 1 <= maxSize && |s.keys| <= maxSize && k in s.entries && k != key
    ensures k !in AfterSet(s, maxSize, key, result, now, ttl).entries
            <==> key !in s.entries && |s.keys| == maxSize && k == s.keys[0]
  {
    DeleteKeepsDict(s, key);
    assert s.keys != [];
    DeleteKeepsDict(s, s.keys[0]);
  }

  // ---------------------------------------------------------------- oldest means: set longest ago

  /** Position of the last `set` of a key in a history, or -1. */
  ghost function LastSet<T>(ops: seq<Op<T>>, key: AssemblyKey): int {
    if ops == [] then -1
    else
      var n := |ops| - 1;
      if ops[n].Set? && ops[n].key == key then n else LastSet(ops[..n], key)
  }

  /** The keys stand in the order of their last `set`, and every one of them has been set. */
  ghost predicate ByLastSet<T>(keys: seq<AssemblyKey>, ops: seq<Op<T>>) {
    keys == []
    || (0 <= LastSet(ops, keys[0]) && SetBefore(keys[0], keys[1..], ops) && ByLastSet(keys[1..], ops))
  }

  ghost predicate SetBefore<T>(k: AssemblyKey, rest: seq<AssemblyKey>, ops: seq<Op<T>>) {
    forall x :: x in rest ==> LastSet(ops, k) < LastSet(ops, x)
  }

  lemma {:induction false} WithoutIsSubsequence<T>(keys: seq<AssemblyKey>, key: AssemblyKey, ops: seq<Op<T>>)
    requires ByLastSet(keys, ops)
    ensures ByLastSet(Without(keys, key), ops)
  {
    if keys != [] && keys[0] != key {
      WithoutIsSubsequence(keys[1..], key, ops);
      var w := Without(keys[1..], key);
      forall x | x in w ensures x in keys[1..] { WithoutMembers(keys[1..], key, x); }
      assert SetBefore(keys[0], w, ops);
      assert ([keys[0]] + w)[1..] == w;
    }
  }

  lemma {:induction false} WithoutMembers(keys: seq<AssemblyKey>, key: AssemblyKey, k: AssemblyKey)
    requires k in Without(keys, key)
    ensures k in keys
  {
    if keys[0] != key && k != keys[0] {
      WithoutMembers(keys[1..], key, k);
    }
  }

  lemma {:induction false} OpKeepsOrder<T>(ops: seq<Op<T>>, op: Op<T>, keys: seq<AssemblyKey>)
    requires ByLastSet(keys, ops)
    requires op.Set? ==> op.key !in keys
    ensures ByLastSet(if op.Set? then keys + [op.key] else keys, ops + [op])
  {
    assert (ops + [op])[..|ops|] == ops;
    var keys' := if op.Set? then keys + [op.key] else keys;
    if keys == [] {
      assert keys' == if op.Set? then [op.key] else [];
    } else {
      OpKeepsOrder(ops, op, keys[1..]);
      assert keys'[1..] == if op.Set? then keys[1..] + [op.key] else keys[1..];
      forall x | x in keys'[1..] ensures LastSet(ops + [op], keys[0]) < LastSet(ops + [op], x) {
        LastSetMeaning(ops, keys[0]);
        assert x in keys[1..] || x == op.key;
      }
    }
  }

  /** After any history the store is a bounded dictionary whose keys stand in the order of their last
      `set`; so the key a full store evicts is the one set longest ago. */
  lemma {:induction false} HistoryInvariant<T>(maxSize: nat, ops: seq<Op<T>>)
    requires maxSize >= 1
    ensures var s := ApplyAll(maxSize, ops);
            IsDict(s) && |s.keys| <= maxSize && ByLastSet(s.keys, ops)
    decreases |ops|
  {
    if ops != [] {
      var n := |ops| - 1;
      var init, op := ops[..n], ops[n];
      assert ops == init + [op];
      HistoryInvariant(maxSize, init);
      StepInvariant(maxSize, init, op, ApplyAll(maxSize, init));
    }
  }

  lemma StepInvariant<T>(maxSize: nat, init: seq<Op<T>>, op: Op<T>, s: Store<T>)
    requires maxSize >= 1 && IsDict(s) && |s.keys| <= maxSize && ByLastSet(s.keys, init)
    ensures var s' := Apply(s, maxSize, op);
            IsDict(s') && |s'.keys| <= maxSize && ByLastSet(s'.keys, init + [op])
  {
    match op
    case Set(k, r, now, ttl) =>
      SetKeepsDict(s, maxSize, k, r, now, ttl);
      DeleteKeepsDict(s, k);
      var s1 := if k in s.entries then Delete(s, k) else s;
      WithoutIsSubsequence(s.keys, k, init);
      var s2 := if |s1.keys| >= maxSize && s1.keys != [] then Delete(s1, s1.keys[0]) else s1;
      if |s1.keys| >= maxSize && s1.keys != [] {
        DeleteKeepsDict(s1, s1.keys[0]);
        WithoutIsSubsequence(s1.keys, s1.keys[0], init);
      }
      assert k !in s2.keys;
      OpKeepsOrder(init, op, s2.keys);
    case Get(k, now) =>
      DeleteKeepsDict(s, k);
      WithoutIsSubsequence(s.keys, k, init);
      OpKeepsOrder(init, op, Apply(s, maxSize, op).keys);
    case Invalidate(k) =>
      DeleteKeepsDict(s, k);
      WithoutIsSubsequence(s.keys, k, init);
      OpKeepsOrder(init, op, Apply(s, maxSize, op).keys);
    case Clear =>
  }

  lemma FrontIsOldest<T>(keys: seq<AssemblyKey>, k: AssemblyKey, ops: seq<Op<T>>)
    requires ByLastSet(keys, ops) && k in keys
    ensures k == keys[0] <==> forall x :: x in keys ==> LastSet(ops, k) <= LastSet(ops, x)
  {
    assert keys == [keys[0]] + keys[1..];
    assert keys[0] in keys;
    if k != keys[0] {
      assert k in keys[1..];
    }
  }

  /** The eviction rule in terms of the history alone. */
  lemma EvictsOldestSet<T>(maxSize: nat, ops: seq<Op<T>>, key: AssemblyKey, result: T, now: int, ttl: int, k: AssemblyKey)
    requires maxSize >= 1 && k != key && k in ApplyAll(maxSize, ops).entries
    ensures var s := ApplyAll(maxSize, ops);
            k !in AfterSet(s, maxSize, key, result, now, ttl).entries
            <==> && key !in s.entries && |s.entries| == maxSize
                 && forall x :: x in s.entries ==> LastSet(ops, k) <= LastSet(ops, x)
  {
    HistoryInvariant(maxSize, ops);
    var s := ApplyAll(maxSize, ops);
    SetEvictsFrontOnly(s, maxSize, key, result, now, ttl, k);
    DictSize(s);
    FrontIsOldest(s.keys, k, ops);
  }

  lemma {:induction false} KeyCount(keys: seq<AssemblyKey>)
    requires NoDup(keys)
    ensures |set k | k in keys| == |keys|
  {
    if keys != [] {
      var n := |keys| - 1;
      KeyCount(keys[..n]);
      assert keys == keys[..n] + [keys[n]];
      assert keys[n] !in keys[..n];
      assert (set k | k in keys) == (set k | k in keys[..n]) + {keys[n]};
    }
  }

  lemma DictSize<T>(s: Store<T>)
    requires IsDict(s)
    ensures |s.entries| == |s.keys|
  {
    KeyCount(s.keys);
    assert s.entries.Keys == set k | k in s.keys;
    assert |s.entries.Keys| == |s.entries|;
  }

  // ---------------------------------------------------------------- what is served, and how long

  ghost predicate HoldsLastSet<T>(s: Store<T>, ops: seq<Op<T>>) {
    forall k :: k in s.entries ==>
      var n := LastSet(ops, k);
      0 <= n < |ops| && ops[n].Set? && s.entries[k] == Entry(ops[n].result, ops[n].now + ops[n].ttl)
  }

  lemma {:induction false} LastSetMeaning<T>(ops: seq<Op<T>>, k: AssemblyKey)
    ensures -1 <= LastSet(ops, k) < |ops|
    ensures LastSet(ops, k) >= 0 ==> ops[LastSet(ops, k)].Set? && ops[LastSet(ops, k)].key == k
  {
    if ops != [] {
      LastSetMeaning(ops[..|ops| - 1], k);
    }
  }

  lemma {:induction false} EntriesAreLastSets<T>(maxSize: nat, ops: seq<Op<T>>)
    requires maxSize >= 1
    ensures HoldsLastSet(ApplyAll(maxSize, ops), ops)
    decreases |ops|
  {
    if ops != [] {
      var init, op := ops[..|ops| - 1], ops[|ops| - 1];
      assert ops == init + [op];
      EntriesAreLastSets(maxSize, init);
      HistoryInvariant(maxSize, init);
      LastSetStep(ApplyAll(maxSize, init), maxSize, init, op);
    }
  }

  lemma OtherEntriesStay<T>(s: Store<T>, maxSize: nat, op: Op<T>)
    requires IsDict(s) && maxSize >= 1
    ensures var s' := Apply(s, maxSize, op);
            forall k :: k in s'.entries && !(op.Set? && op.key == k) ==> k in s.entries && s'.entries[k] == s.entries[k]
    ensures op.Set? ==> Apply(s, maxSize, op).entries[op.key] == Entry(op.result, op.now + op.ttl)
  {
    if op.Set? {
      SetKeepsDict(s, maxSize, op.key, op.result, op.now, op.ttl);
    }
  }

  lemma LastSetStep<T>(s: Store<T>, maxSize: nat, init: seq<Op<T>>, op: Op<T>)
    requires IsDict(s) && maxSize >= 1 && HoldsLastSet(s, init)
    ensures HoldsLastSet(Apply(s, maxSize, op), init + [op])
  {
    var s', ops := Apply(s, maxSize, op), init + [op];
    OtherEntriesStay(s, maxSize, op);
    forall k | k in s'.entries
      ensures var n := LastSet(ops, k); 0 <= n < |ops| && ops[n].Set? && s'.entries[k] == Entry(ops[n].result, ops[n].now + ops[n].ttl)
    {
      assert ops[..|init|] == init;
      if !(op.Set? && op.key == k) {
        assert LastSet(ops, k) == LastSet(init, k);
      }
    }
  }

  /** `get` answers with the result that was set last, for as long as its time to live says and not a
      moment longer, while the key is neither evicted nor removed. */
  lemma ServedUntilItExpires<T>(maxSize: nat, ops: seq<Op<T>>, k: AssemblyKey, now: int)
    requires maxSize >= 1 && k in ApplyAll(maxSize, ops).entries
    ensures var n := LastSet(ops, k);
            && 0 <= n < |ops| && ops[n].Set? && ops[n].key == k
            && Lookup(ApplyAll(maxSize, ops), k, now) == if now <= ops[n].now + ops[n].ttl then Some(ops[n].result) else None
  {
    EntriesAreLastSets(maxSize, ops);
    LastSetMeaning(ops, k);
  }
}
