/** Python's `sorted(items, key=...)` for keys that are pairs of integers: a stable sort, and the
    proof that stability and sortedness leave only one possible result. */
module Sorting {

  datatype Key = Key(major: int, minor: int) {
    predicate Leq(other: Key) {
      major < other.major || (major == other.major && minor <= other.minor)
    }
  }

  ghost predicate SortedBy<T>(s: seq<T>, key: T -> Key) {
    forall i, j :: 0 <= i < j < |s| ==> key(s[i]).Leq(key(s[j]))
  }

  /** The entries of s with the given key, in their order in s. */
  ghost function Ties<T>(s: seq<T>, key: T -> Key, k: Key): seq<T> {
    if s == [] then []
    else if key(s[0]) == k then [s[0]] + Ties(s[1..], key, k)
    else Ties(s[1..], key, k)
  }

  /** Put x in front of the first entry that does not sort before it. */
  function Insert<T>(x: T, s: seq<T>, key: T -> Key): seq<T> {
    if s == [] || key(x).Leq(key(s[0])) then [x] + s
    else [s[0]] + Insert(x, s[1..], key)
  }

  function SortBy<T>(s: seq<T>, key: T -> Key): seq<T> {
    if s == [] then [] else Insert(s[0], SortBy(s[1..], key), key)
  }

  lemma ConsSorted<T>(h: T, s: seq<T>, key: T -> Key)
    requires SortedBy(s, key) && forall y :: y in s ==> key(h).Leq(key(y))
    ensures SortedBy([h] + s, key)
  {
  }

  lemma TailSorted<T>(s: seq<T>, key: T -> Key)
    requires s != [] && SortedBy(s, key)
    ensures SortedBy(s[1..], key) && forall y :: y in s[1..] ==> key(s[0]).Leq(key(y))
  {
  }

  lemma {:induction false} InsertSorted<T>(x: T, s: seq<T>, key: T -> Key)
    requires SortedBy(s, key)
    ensures SortedBy(Insert(x, s, key), key)
    ensures multiset(Insert(x, s, key)) == multiset{x} + multiset(s) && |Insert(x, s, key)| == |s| + 1
  {
    if s == [] {
    } else {
      TailSorted(s, key);
      assert s == [s[0]] + s[1..];
      if key(x).Leq(key(s[0])) {
        ConsSorted(x, s, key);
      } else {
        InsertSorted(x, s[1..], key);
        var r := Insert(x, s[1..], key);
        forall y | y in r ensures key(s[0]).Leq(key(y)) {
          assert y in multiset(r);
        }
        ConsSorted(s[0], r, key);
      }
    }
  }

  lemma {:induction false} SortIsSorted<T>(s: seq<T>, key: T -> Key)
    ensures SortedBy(SortBy(s, key), key)
    ensures multiset(SortBy(s, key)) == multiset(s)
    ensures |SortBy(s, key)| == |s|
    decreases |s|
  {
    if s != [] {
      SortIsSorted(s[1..], key);
      InsertSorted(s[0], SortBy(s[1..], key), key);
      assert s == [s[0]] + s[1..];
    }
  }

  lemma {:induction false} TiesOfSmaller<T>(s: seq<T>, key: T -> Key, k: Key)
    requires forall y :: y in s ==> key(y) != k
    ensures Ties(s, key, k) == []
  {
    if s != [] {
      TiesOfSmaller(s[1..], key, k);
    }
  }

  lemma {:induction false} InsertIsStable<T>(x: T, s: seq<T>, key: T -> Key, k: Key)
    ensures Ties(Insert(x, s, key), key, k) == (if key(x) == k then [x] else []) + Ties(s, key, k)
  {
    var r := Insert(x, s, key);
    if s == [] || key(x).Leq(key(s[0])) {
      assert r[1..] == s;
    } else {
      assert r[1..] == Insert(x, s[1..], key);
      InsertIsStable(x, s[1..], key, k);
    }
  }

  /** Entries with equal keys keep their order. */
  lemma {:induction false} SortIsStable<T>(s: seq<T>, key: T -> Key, k: Key)
    ensures Ties(SortBy(s, key), key, k) == Ties(s, key, k)
  {
    if s != [] {
      SortIsStable(s[1..], key, k);
      InsertIsStable(s[0], SortBy(s[1..], key), key, k);
    }
  }

  lemma {:induction false} TiesNonEmpty<T>(s: seq<T>, key: T -> Key, x: T)
    requires x in s
    ensures Ties(s, key, key(x)) != []
    ensures Ties(s, key, key(x))[0] in s
    decreases |s|
  {
    if key(s[0]) != key(x) {
      TiesNonEmpty(s[1..], key, x);
    }
  }

  lemma {:induction false} TiesInside<T>(s: seq<T>, key: T -> Key, k: Key)
    ensures forall y :: y in Ties(s, key, k) ==> y in s && key(y) == k
    decreases |s|
  {
    if s != [] {
      TiesInside(s[1..], key, k);
    }
  }

  /** A sorted sequence is determined by the order inside each group of equal keys: whatever
      algorithm a stable sort uses, its result is `SortBy`. */
  lemma {:induction false} StableSortIsUnique<T>(s: seq<T>, t: seq<T>, key: T -> Key)
    requires SortedBy(s, key) && SortedBy(t, key)
    requires forall k :: Ties(s, key, k) == Ties(t, key, k)
    ensures s == t
    decreases |s|
  {
    if s == [] {
      if t != [] {
        TiesNonEmpty(t, key, t[0]);
        assert false;
      }
    } else {
      TiesNonEmpty(s, key, s[0]);
      assert Ties(t, key, key(s[0])) != [];
      assert t != [];
      TiesInside(t, key, key(s[0]));
      TiesNonEmpty(t, key, t[0]);
      TiesInside(s, key, key(t[0]));
      TailSorted(s, key);
      TailSorted(t, key);
      assert Ties(t, key, key(s[0]))[0] in t && Ties(s, key, key(t[0]))[0] in s;
      assert key(s[0]) == key(t[0]);
      forall k ensures Ties(s[1..], key, k) == Ties(t[1..], key, k) {
        assert Ties(s, key, k) == Ties(t, key, k);
        if k == key(s[0]) {
          assert Ties(s, key, k)[1..] == Ties(s[1..], key, k);
          assert Ties(t, key, k)[1..] == Ties(t[1..], key, k);
        }
      }
      StableSortIsUnique(s[1..], t[1..], key);
      assert Ties(s, key, key(s[0]))[0] == s[0] && Ties(t, key, key(s[0]))[0] == t[0];
      assert s == [s[0]] + s[1..] && t == [t[0]] + t[1..];
    }
  }

  /** A sorted sequence is left alone. */
  lemma SortOfSorted<T>(s: seq<T>, key: T -> Key)
    requires SortedBy(s, key)
    ensures SortBy(s, key) == s
  {
    SortIsSorted(s, key);
    forall k ensures Ties(SortBy(s, key), key, k) == Ties(s, key, k) {
      SortIsStable(s, key, k);
    }
    StableSortIsUnique(SortBy(s, key), s, key);
  }
}
