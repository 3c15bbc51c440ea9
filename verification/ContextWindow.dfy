/** `ContextWindowRuntime`: a bounded window over context items, and what each truncation strategy
    really guarantees. */
module ContextWindow {
  import opened Sorting

  datatype Option<T> = None | Some(value: T)

  datatype Layer = SystemLayer | WorkflowLayer | TranscriptLayer | AiExecutionLayer | UserLayer

  // `createdAt` is in microseconds since the epoch; token counts are any integers.
  datatype Item = Item(layer: Layer, source: string, content: string,
                       tokens: int, priority: int, createdAt: Option<int>, metadata: string)

  datatype Strategy = TruncateOldest | TruncateLowestPriority | TruncateLargest | FailOnOverflow
  datatype Policy = Policy(strategy: Strategy, protectLayers: seq<Layer>, maxItems: Option<int>)

  datatype Window = Window(items: seq<Item>, totalTokens: int, tokenBudget: int,
                           truncated: bool, truncatedCount: nat, strategy: Strategy)
  datatype Built = Built(window: Window) | Overflow(total: int, budget: int)

  // ---------------------------------------------------------------- the pieces of the code

  /** `items[:n]`, where a negative n counts from the end. */
  function Slice(items: seq<Item>, n: int): seq<Item> {
    if n >= |items| then items
    else if n >= 0 then items[..n]
    else if |items| + n >= 0 then items[..|items| + n]
    else []
  }

  function Considered(items: seq<Item>, policy: Policy): seq<Item> {
    if policy.maxItems.Some? then Slice(items, policy.maxItems.value) else items
  }

  function PriorityTime(i: Item): Key {
    Key(i.priority, if i.createdAt.Some? then i.createdAt.value else 0)
  }

  function LeastImportantFirst(i: Item): Key {
    Key(-i.priority, 0)
  }

  function LargestFirst(i: Item): Key {
    Key(-i.tokens, 0)
  }

  function Tokens(items: seq<Item>): int {
    if items == [] then 0 else items[0].tokens + Tokens(items[1..])
  }

  /** The items whose layer is (or is not) protected. */
  function Select(items: seq<Item>, protect: seq<Layer>, isProtected: bool): seq<Item> {
    if items == [] then []
    else (if (items[0].layer in protect) == isProtected then [items[0]] else []) + Select(items[1..], protect, isProtected)
  }

  /** The unprotected items in the order in which they would be dropped. */
  function Candidates(items: seq<Item>, policy: Policy): seq<Item> {
    var loose := Select(items, policy.protectLayers, false);
    match policy.strategy
    case TruncateOldest => loose
    case TruncateLowestPriority => SortBy(loose, LeastImportantFirst)
    case TruncateLargest => SortBy(loose, LargestFirst)
    case FailOnOverflow => loose
  }

  /** `dropped` is the length of the shortest prefix of the candidates whose removal makes the rest
      fit, or all of them when none does. */
  ghost predicate ShortestDrop(fixed: int, candidates: seq<Item>, budget: int, dropped: nat) {
    && dropped <= |candidates|
    && (forall d :: 0 <= d < dropped ==> fixed + Tokens(candidates[d..]) > budget)
    && (dropped < |candidates| ==> fixed + Tokens(candidates[dropped..]) <= budget)
  }

  /** `_truncate`: `items` are already sorted by priority and time. */
  method Truncate(items: seq<Item>, budget: int, policy: Policy) returns (kept: seq<Item>, dropped: nat)
    ensures ShortestDrop(Tokens(Select(items, policy.protectLayers, true)), Candidates(items, policy), budget, dropped)
    ensures kept == SortBy(Select(items, policy.protectLayers, true) + Candidates(items, policy)[dropped..], PriorityTime)
  {
    var fixed := Select(items, policy.protectLayers, true);
    var candidates := Candidates(items, policy);
    var keptMutable := candidates;
    dropped := 0;
    var currentTotal := Tokens(fixed) + Tokens(keptMutable);
    while currentTotal > budget && keptMutable != []
      invariant dropped <= |candidates| && keptMutable == candidates[dropped..]
      invariant currentTotal == Tokens(fixed) + Tokens(keptMutable)
      invariant forall d :: 0 <= d < dropped ==> Tokens(fixed) + Tokens(candidates[d..]) > budget
      decreases |keptMutable|
    {
      var removed := keptMutable[0];
      keptMutable := keptMutable[1..];
      currentTotal := currentTotal - removed.tokens;
      dropped := dropped + 1;
    }
    kept := SortBy(fixed + keptMutable, PriorityTime);
  }

  /** What `build` returns, in terms of its arguments. */
  ghost predicate IsBuilt(items: seq<Item>, budget: int, policy: Policy, r: Built) {
    var sorted := SortBy(Considered(items, policy), PriorityTime);
    var fixed, candidates := Select(sorted, policy.protectLayers, true), Candidates(sorted, policy);
    if Tokens(Considered(items, policy)) <= budget then
      r == Built(Window(sorted, Tokens(sorted), budget, false, 0, policy.strategy))
    else if policy.strategy.FailOnOverflow? then
      r == Overflow(Tokens(Considered(items, policy)), budget)
    else
      && r.Built? && r.window.truncated && r.window.tokenBudget == budget && r.window.strategy == policy.strategy
      && ShortestDrop(Tokens(fixed), candidates, budget, r.window.truncatedCount)
      && r.window.items == SortBy(fixed + candidates[r.window.truncatedCount..], PriorityTime)
      && r.window.totalTokens == Tokens(r.window.items)
  }

  method Build(items: seq<Item>, budget: int, policy: Policy) returns (r: Built)
    ensures IsBuilt(items, budget, policy, r)
  {
    var considered := if policy.maxItems.Some? then Slice(items, policy.maxItems.value) else items;
    var sorted := SortBy(considered, PriorityTime);
    var total := Tokens(sorted);
    SortKeepsTokens(considered, PriorityTime);
    if total <= budget {
      return Built(Window(sorted, total, budget, false, 0, policy.strategy));
    }
    if policy.strategy.FailOnOverflow? {
      return Overflow(total, budget);
    }
    var kept, dropped := Truncate(sorted, budget, policy);
    r := Built(Window(kept, Tokens(kept), budget, true, dropped, policy.strategy));
  }

  // ---------------------------------------------------------------- sums and selections

  lemma {:induction false} TokensConcat(a: seq<Item>, b: seq<Item>)
    ensures Tokens(a + b) == Tokens(a) + Tokens(b)
    decreases |a|
  {
    if a == [] {
      assert a + b == b;
    } else {
      assert (a + b)[1..] == a[1..] + b;
      TokensConcat(a[1..], b);
    }
  }

  lemma {:induction false} InsertKeepsTokens(x: Item, s: seq<Item>, key: Item -> Key)
    ensures Tokens(Insert(x, s, key)) == x.tokens + Tokens(s)
    decreases |s|
  {
    var r := Insert(x, s, key);
    if s == [] || key(x).Leq(key(s[0])) {
      assert r[1..] == s;
    } else {
      InsertKeepsTokens(x, s[1..], key);
      assert r[1..] == Insert(x, s[1..], key);
    }
  }

  lemma {:induction false} SortKeepsTokens(s: seq<Item>, key: Item -> Key)
    ensures Tokens(SortBy(s, key)) == Tokens(s)
    decreases |s|
  {
    if s != [] {
      SortKeepsTokens(s[1..], key);
      InsertKeepsTokens(s[0], SortBy(s[1..], key), key);
    }
  }

  lemma {:induction false} SelectSplitsTokens(s: seq<Item>, protect: seq<Layer>)
    ensures Tokens(Select(s, protect, true)) + Tokens(Select(s, protect, false)) == Tokens(s)
    decreases |s|
  {
    if s != [] {
      SelectSplitsTokens(s[1..], protect);
      var mine := s[0].layer in protect;
      TokensConcat([s[0]], Select(s[1..], protect, mine));
      assert Select(s, protect, mine) == [s[0]] + Select(s[1..], protect, mine);
      assert Select(s, protect, !mine) == Select(s[1..], protect, !mine);
    }
  }

  lemma {:induction false} SelectSplits(s: seq<Item>, protect: seq<Layer>)
    ensures multiset(Select(s, protect, true)) + multiset(Select(s, protect, false)) == multiset(s)
    decreases |s|
  {
    if s != [] {
      SelectSplits(s[1..], protect);
      assert s == [s[0]] + s[1..];
      var mine := s[0].layer in protect;
      var rest := Select(s[1..], protect, mine);
      assert multiset([s[0]] + rest) == multiset{s[0]} + multiset(rest);
    }
  }

  lemma {:induction false} SelectMembers(s: seq<Item>, protect: seq<Layer>, isProtected: bool)
    ensures forall i :: i in Select(s, protect, isProtected) <==> i in s && (i.layer in protect) == isProtected
    decreases |s|
  {
    if s != [] {
      SelectMembers(s[1..], protect, isProtected);
      assert s == [s[0]] + s[1..];
    }
  }

  lemma CandidatesArePermutation(items: seq<Item>, policy: Policy)
    ensures multiset(Candidates(items, policy)) == multiset(Select(items, policy.protectLayers, false))
    ensures Tokens(Candidates(items, policy)) == Tokens(Select(items, policy.protectLayers, false))
    ensures |Candidates(items, policy)| == |Select(items, policy.protectLayers, false)|
  {
    var loose := Select(items, policy.protectLayers, false);
    match policy.strategy
    case TruncateLowestPriority =>
      SortIsSorted(loose, LeastImportantFirst);
      SortKeepsTokens(loose, LeastImportantFirst);
    case TruncateLargest =>
      SortIsSorted(loose, LargestFirst);
      SortKeepsTokens(loose, LargestFirst);
    case _ =>
  }

  // ---------------------------------------------------------------- dropping a prefix

  /** `fixed` and `order` split `all`; the window keeps `fixed` and `order` from position n on. */
  ghost predicate IsCut(all: seq<Item>, fixed: seq<Item>, order: seq<Item>) {
    && multiset(fixed) + multiset(order) == multiset(all)
    && Tokens(fixed) + Tokens(order) == Tokens(all)
  }

  lemma PrefixAndRest(order: seq<Item>, n: nat)
    requires n <= |order|
    ensures Tokens(order[..n]) + Tokens(order[n..]) == Tokens(order)
    ensures multiset(order[..n]) + multiset(order[n..]) == multiset(order)
  {
    assert order == order[..n] + order[n..];
    TokensConcat(order[..n], order[n..]);
  }

  lemma CutConserves(all: seq<Item>, fixed: seq<Item>, order: seq<Item>, n: nat, kept: seq<Item>)
    requires IsCut(all, fixed, order) && n <= |order|
    requires kept == SortBy(fixed + order[n..], PriorityTime)
    ensures multiset(kept) + multiset(order[..n]) == multiset(all)
    ensures multiset(fixed) <= multiset(kept) && multiset(order[..n]) <= multiset(order)
    ensures SortedBy(kept, PriorityTime)
    ensures Tokens(kept) == Tokens(all) - Tokens(order[..n]) == Tokens(fixed) + Tokens(order[n..])
  {
    PrefixAndRest(order, n);
    TokensConcat(fixed, order[n..]);
    SortIsSorted(fixed + order[n..], PriorityTime);
    SortKeepsTokens(fixed + order[n..], PriorityTime);
    assert multiset(fixed + order[n..]) == multiset(fixed) + multiset(order[n..]);
  }

  lemma {:induction false} RemoveOne(r: seq<Item>, x: Item) returns (rest: seq<Item>)
    requires x in r
    ensures multiset(rest) == multiset(r) - multiset{x} && |rest| == |r| - 1
    ensures Tokens(r) == x.tokens + Tokens(rest)
  {
    assert r == [r[0]] + r[1..];
    if r[0] == x {
      rest := r[1..];
    } else {
      var tail := RemoveOne(r[1..], x);
      rest := [r[0]] + tail;
      TokensConcat([r[0]], tail);
    }
  }

  lemma RemovalFits(h: Item, t: multiset<Item>, r: multiset<Item>, out: Item)
    requires r <= multiset{h} + t && out in r && (h in r ==> out == h)
    ensures r - multiset{out} <= t
  {
  }

  lemma NoHeavier(h: Item, t: seq<Item>, x: Item)
    requires SortedBy([h] + t, LargestFirst) && x in [h] + t
    ensures x.tokens <= h.tokens
  {
    var c := [h] + t;
    var i :| 0 <= i < |c| && c[i] == x;
    if i > 0 {
      assert LargestFirst(c[0]).Leq(LargestFirst(c[i]));
    }
  }

  /** Take out of r something no heavier than h, so that what is left fits into t. */
  lemma TakeOut(h: Item, t: seq<Item>, r: seq<Item>) returns (out: Item, rest: seq<Item>)
    requires SortedBy([h] + t, LargestFirst) && r != [] && multiset(r) <= multiset([h] + t)
    ensures Tokens(r) == out.tokens + Tokens(rest) && out.tokens <= h.tokens
    ensures multiset(rest) <= multiset(t) && |rest| == |r| - 1
  {
    assert multiset([h] + t) == multiset{h} + multiset(t);
    out := if h in r then h else r[0];
    assert out in multiset(r) && out in multiset([h] + t);
    assert h in r <==> h in multiset(r);
    NoHeavier(h, t, out);
    rest := RemoveOne(r, out);
    RemovalFits(h, multiset(t), multiset(r), out);
  }

  /** No m items weigh more than the m largest. */
  lemma {:induction false} LargestWeighMost(c: seq<Item>, r: seq<Item>)
    requires SortedBy(c, LargestFirst) && multiset(r) <= multiset(c)
    ensures |r| <= |c| && Tokens(r) <= Tokens(c[..|r|])
    decreases |c|
  {
    if c == [] {
      assert |multiset(r)| == |r|;
    } else if r != [] {
      assert c == [c[0]] + c[1..];
      var out, rest := TakeOut(c[0], c[1..], r);
      TailSorted(c, LargestFirst);
      LargestWeighMost(c[1..], rest);
      assert c[..|r|][1..] == c[1..][..|rest|];
    }
  }

  lemma SmallerRemovalIsNotEnough(all: seq<Item>, fixed: seq<Item>, order: seq<Item>, budget: int, n: nat, removed: seq<Item>)
    requires IsCut(all, fixed, order) && SortedBy(order, LargestFirst)
    requires ShortestDrop(Tokens(fixed), order, budget, n)
    requires multiset(removed) <= multiset(order) && |removed| < n
    ensures Tokens(all) - Tokens(removed) > budget
  {
    LargestWeighMost(order, removed);
    PrefixAndRest(order, |removed|);
  }

  /** Over budget with everything droppable dropped: then no choice of what to drop would have fit. */
  lemma AnyRemovalIsNotEnough(all: seq<Item>, fixed: seq<Item>, order: seq<Item>, budget: int, n: nat, removed: seq<Item>)
    requires IsCut(all, fixed, order) && SortedBy(order, LargestFirst)
    requires ShortestDrop(Tokens(fixed), order, budget, n) && Tokens(fixed) + Tokens(order[n..]) > budget
    requires multiset(removed) <= multiset(order)
    ensures Tokens(all) - Tokens(removed) > budget
  {
    LargestWeighMost(order, removed);
    PrefixAndRest(order, |removed|);
  }

  lemma {:induction false} TokensNonNegative(s: seq<Item>)
    requires forall i :: i in s ==> i.tokens >= 0
    ensures Tokens(s) >= 0
  {
    if s != [] {
      TokensNonNegative(s[1..]);
    }
  }

  // ---------------------------------------------------------------- what a window contains

  ghost predicate Truncated(items: seq<Item>, budget: int, policy: Policy, r: Built) {
    IsBuilt(items, budget, policy, r) && r.Built? && r.window.truncated
  }

  ghost function Sorted(items: seq<Item>, policy: Policy): seq<Item> {
    SortBy(Considered(items, policy), PriorityTime)
  }

  ghost function Protected(items: seq<Item>, policy: Policy): seq<Item> {
    Select(Sorted(items, policy), policy.protectLayers, true)
  }

  ghost function Unprotected(items: seq<Item>, policy: Policy): seq<Item> {
    Select(Sorted(items, policy), policy.protectLayers, false)
  }

  ghost function DropOrder(items: seq<Item>, policy: Policy): seq<Item> {
    Candidates(Sorted(items, policy), policy)
  }

  lemma BuildIsCut(items: seq<Item>, policy: Policy)
    ensures IsCut(Considered(items, policy), Protected(items, policy), DropOrder(items, policy))
    ensures multiset(DropOrder(items, policy)) == multiset(Unprotected(items, policy))
  {
    SortIsSorted(Considered(items, policy), PriorityTime);
    SortKeepsTokens(Considered(items, policy), PriorityTime);
    SelectSplits(Sorted(items, policy), policy.protectLayers);
    SelectSplitsTokens(Sorted(items, policy), policy.protectLayers);
    CandidatesArePermutation(Sorted(items, policy), policy);
  }

  /** Window and dropped items together are the input (cut to max_items), nothing else; every
      protected item is in the window; the window is sorted by priority and time. */
  lemma WindowConserves(items: seq<Item>, budget: int, policy: Policy, r: Built)
    requires Truncated(items, budget, policy, r)
    ensures r.window.truncatedCount <= |DropOrder(items, policy)|
    ensures var dropped := DropOrder(items, policy)[..r.window.truncatedCount];
            && multiset(r.window.items) + multiset(dropped) == multiset(Considered(items, policy))
            && multiset(Protected(items, policy)) <= multiset(r.window.items)
            && multiset(dropped) <= multiset(Unprotected(items, policy))
            && r.window.totalTokens == Tokens(Considered(items, policy)) - Tokens(dropped)
    ensures SortedBy(r.window.items, PriorityTime)
  {
    BuildIsCut(items, policy);
    CutConserves(Considered(items, policy), Protected(items, policy), DropOrder(items, policy),
                 r.window.truncatedCount, r.window.items);
  }

  /** Equal keys keep the order in which the code concatenates them: protected items first, then the
      kept candidates in drop order. */
  lemma WindowIsStable(items: seq<Item>, budget: int, policy: Policy, r: Built, k: Key)
    requires Truncated(items, budget, policy, r)
    ensures r.window.truncatedCount <= |DropOrder(items, policy)|
    ensures Ties(r.window.items, PriorityTime, k)
            == Ties(Protected(items, policy) + DropOrder(items, policy)[r.window.truncatedCount..], PriorityTime, k)
  {
    SortIsStable(Protected(items, policy) + DropOrder(items, policy)[r.window.truncatedCount..], PriorityTime, k);
  }

  // ---------------------------------------------------------------- what each strategy drops

  lemma CandidateOrder(items: seq<Item>, policy: Policy)
    ensures policy.strategy.TruncateLowestPriority? ==> SortedBy(Candidates(items, policy), LeastImportantFirst)
    ensures policy.strategy.TruncateLargest? ==> SortedBy(Candidates(items, policy), LargestFirst)
  {
    SortIsSorted(Select(items, policy.protectLayers, false), LeastImportantFirst);
    SortIsSorted(Select(items, policy.protectLayers, false), LargestFirst);
  }

  /** `truncate_lowest_priority` never keeps an unprotected item that is less important (has a larger
      priority number) than one it drops. */
  lemma LowestPriorityGoesFirst(items: seq<Item>, budget: int, policy: Policy, r: Built, i: nat, j: nat)
    requires Truncated(items, budget, policy, r) && policy.strategy.TruncateLowestPriority?
    requires i < r.window.truncatedCount <= j < |DropOrder(items, policy)|
    ensures DropOrder(items, policy)[j].priority <= DropOrder(items, policy)[i].priority
  {
    CandidateOrder(Sorted(items, policy), policy);
    var order := DropOrder(items, policy);
    assert LeastImportantFirst(order[i]).Leq(LeastImportantFirst(order[j]));
  }

  /** `truncate_largest` is optimal: every set of unprotected items smaller than the one it drops
      leaves the window over budget. */
  lemma LargestIsOptimal(items: seq<Item>, budget: int, policy: Policy, r: Built, removed: seq<Item>)
    requires Truncated(items, budget, policy, r) && policy.strategy.TruncateLargest?
    requires multiset(removed) <= multiset(Unprotected(items, policy)) && |removed| < r.window.truncatedCount
    ensures Tokens(Considered(items, policy)) - Tokens(removed) > budget
  {
    BuildIsCut(items, policy);
    CandidateOrder(Sorted(items, policy), policy);
    SmallerRemovalIsNotEnough(Considered(items, policy), Protected(items, policy), DropOrder(items, policy),
                              budget, r.window.truncatedCount, removed);
  }

  /** `truncate_largest` meets the budget exactly when some choice of unprotected items would. */
  lemma LargestFitsIffPossible(items: seq<Item>, budget: int, policy: Policy, r: Built)
    requires Truncated(items, budget, policy, r) && policy.strategy.TruncateLargest?
    ensures r.window.totalTokens <= budget
            <==> exists removed :: && multiset(removed) <= multiset(Unprotected(items, policy))
                                   && Tokens(Considered(items, policy)) - Tokens(removed) <= budget
  {
    var all, fixed, order, n := Considered(items, policy), Protected(items, policy), DropOrder(items, policy), r.window.truncatedCount;
    BuildIsCut(items, policy);
    CandidateOrder(Sorted(items, policy), policy);
    CutConserves(all, fixed, order, n, r.window.items);
    if r.window.totalTokens > budget {
      forall removed | multiset(removed) <= multiset(Unprotected(items, policy)) ensures Tokens(all) - Tokens(removed) > budget {
        AnyRemovalIsNotEnough(all, fixed, order, budget, n, removed);
      }
    }
  }

  lemma UnprotectedComeFromInput(items: seq<Item>, policy: Policy, n: nat)
    requires n <= |DropOrder(items, policy)|
    ensures forall i :: i in DropOrder(items, policy)[n..] ==> i in Considered(items, policy)
  {
    BuildIsCut(items, policy);
    var all, order := Considered(items, policy), DropOrder(items, policy);
    forall i | i in order[n..] ensures i in all {
      assert i in multiset(order);
      assert i in multiset(all);
    }
  }

  /** With real (non-negative) token counts every truncating strategy meets the budget exactly when
      the protected items alone do. */
  lemma FitsIffProtectedFit(items: seq<Item>, budget: int, policy: Policy, r: Built)
    requires Truncated(items, budget, policy, r)
    requires forall i :: i in Considered(items, policy) ==> i.tokens >= 0
    ensures r.window.totalTokens <= budget <==> Tokens(Protected(items, policy)) <= budget
  {
    var order, n := DropOrder(items, policy), r.window.truncatedCount;
    BuildIsCut(items, policy);
    CutConserves(Considered(items, policy), Protected(items, policy), order, n, r.window.items);
    UnprotectedComeFromInput(items, policy, n);
    TokensNonNegative(order[n..]);
    assert n == |order| ==> order[n..] == [];
  }

  // ---------------------------------------------------------------- truncate_oldest

  lemma {:induction false} SelectKeepsSorted(s: seq<Item>, protect: seq<Layer>, isProtected: bool, key: Item -> Key)
    requires SortedBy(s, key)
    ensures SortedBy(Select(s, protect, isProtected), key)
    decreases |s|
  {
    if s != [] {
      TailSorted(s, key);
      SelectKeepsSorted(s[1..], protect, isProtected, key);
      SelectMembers(s[1..], protect, isProtected);
      var rest := Select(s[1..], protect, isProtected);
      forall y | y in rest ensures key(s[0]).Leq(key(y)) {
        assert y in s[1..];
      }
      ConsSorted(s[0], rest, key);
    }
  }

  ghost function Time(i: Item): int {
    PriorityTime(i).minor
  }

  /** `truncate_oldest` drops by importance first, by age only among equals: a dropped item is at
      least as important as every kept one, and if equally important at least as old. */
  lemma OldestDropsByPriority(items: seq<Item>, budget: int, policy: Policy, r: Built, i: nat, j: nat)
    requires Truncated(items, budget, policy, r) && policy.strategy.TruncateOldest?
    requires i < r.window.truncatedCount <= j < |DropOrder(items, policy)|
    ensures PriorityTime(DropOrder(items, policy)[i]).Leq(PriorityTime(DropOrder(items, policy)[j]))
  {
    SortIsSorted(Considered(items, policy), PriorityTime);
    SelectKeepsSorted(Sorted(items, policy), policy.protectLayers, false, PriorityTime);
  }

  ghost predicate IsLoose(items: seq<Item>, policy: Policy, i: Item) {
    i in Considered(items, policy) && i.layer !in policy.protectLayers
  }

  /** Among the unprotected items of the input a more important one is never the younger. */
  ghost predicate PriorityFollowsAge(items: seq<Item>, policy: Policy) {
    forall x, y :: IsLoose(items, policy, x) && IsLoose(items, policy, y) && x.priority < y.priority ==> Time(x) <= Time(y)
  }

  ghost function DroppedBy(items: seq<Item>, policy: Policy, w: Window): multiset<Item> {
    multiset(Considered(items, policy)) - multiset(w.items)
  }

  /** No dropped item is younger than an unprotected one that is kept. */
  ghost predicate DropsOldest(items: seq<Item>, policy: Policy, w: Window) {
    forall x, y :: x in DroppedBy(items, policy, w) && y in w.items && y.layer !in policy.protectLayers ==> Time(x) <= Time(y)
  }

  lemma LooseAreOrdered(items: seq<Item>, policy: Policy)
    requires policy.strategy.TruncateOldest?
    ensures SortedBy(DropOrder(items, policy), PriorityTime)
    ensures forall i :: i in DropOrder(items, policy) <==> IsLoose(items, policy, i)
  {
    var sorted := Sorted(items, policy);
    SortIsSorted(Considered(items, policy), PriorityTime);
    SelectKeepsSorted(sorted, policy.protectLayers, false, PriorityTime);
    SelectMembers(sorted, policy.protectLayers, false);
    forall i ensures i in sorted <==> i in Considered(items, policy) {
      assert i in sorted <==> i in multiset(sorted);
    }
  }

  /** Dropped is what stands in front of the cut, kept what stands behind it. */
  lemma DroppedAndKept(items: seq<Item>, budget: int, policy: Policy, r: Built)
    requires Truncated(items, budget, policy, r)
    ensures r.window.truncatedCount <= |DropOrder(items, policy)|
    ensures var order, n := DropOrder(items, policy), r.window.truncatedCount;
            && (forall x :: x in DroppedBy(items, policy, r.window) <==> x in order[..n])
            && (forall y :: y in r.window.items && y.layer !in policy.protectLayers <==> y in order[n..])
  {
    var order, n := DropOrder(items, policy), r.window.truncatedCount;
    WindowConserves(items, budget, policy, r);
    assert DroppedBy(items, policy, r.window) == multiset(order[..n]);
    SelectMembers(Sorted(items, policy), policy.protectLayers, true);
    var kept := Protected(items, policy) + order[n..];
    SortIsSorted(kept, PriorityTime);
    forall y ensures y in r.window.items <==> y in kept {
      assert y in r.window.items <==> y in multiset(r.window.items);
    }
    forall y | y in order[n..] ensures y.layer !in policy.protectLayers {
      LooseIsUnprotected(items, policy, y);
    }
  }

  lemma LooseIsUnprotected(items: seq<Item>, policy: Policy, y: Item)
    requires y in DropOrder(items, policy)
    ensures y.layer !in policy.protectLayers
  {
    BuildIsCut(items, policy);
    assert y in multiset(DropOrder(items, policy));
    assert y in Unprotected(items, policy);
    SelectMembers(Sorted(items, policy), policy.protectLayers, false);
  }

  /** What `build` keeps whole it does not drop from. */
  lemma NothingDropped(items: seq<Item>, budget: int, policy: Policy, r: Built)
    requires IsBuilt(items, budget, policy, r) && r.Built? && !r.window.truncated
    ensures DroppedBy(items, policy, r.window) == multiset{}
  {
    SortIsSorted(Considered(items, policy), PriorityTime);
  }

  lemma AgreeingOrderDropsOldest(items: seq<Item>, budget: int, policy: Policy, r: Built)
    requires policy.strategy.TruncateOldest? && PriorityFollowsAge(items, policy)
    requires IsBuilt(items, budget, policy, r) && r.Built?
    ensures DropsOldest(items, policy, r.window)
  {
    if !r.window.truncated {
      NothingDropped(items, budget, policy, r);
    } else {
      DroppedAndKept(items, budget, policy, r);
      LooseAreOrdered(items, policy);
      var order, n := DropOrder(items, policy), r.window.truncatedCount;
      forall x, y | x in order[..n] && y in order[n..] ensures Time(x) <= Time(y) {
        var i :| 0 <= i < n && order[i] == x;
        var j :| n <= j < |order| && order[j] == y;
        assert PriorityTime(order[i]).Leq(PriorityTime(order[j]));
        assert IsLoose(items, policy, x) && IsLoose(items, policy, y);
      }
    }
  }

  /** For every length of the drop some budget makes `build` drop just that much. */
  lemma SomeBudgetDrops(items: seq<Item>, policy: Policy, n: nat) returns (budget: int, r: Built)
    requires policy.strategy.TruncateOldest? && 0 < n <= |DropOrder(items, policy)|
    requires forall i :: IsLoose(items, policy, i) ==> i.tokens > 0
    ensures Truncated(items, budget, policy, r) && r.window.truncatedCount == n
  {
    var fixed, order := Protected(items, policy), DropOrder(items, policy);
    LooseAreOrdered(items, policy);
    BuildIsCut(items, policy);
    budget := Tokens(fixed) + Tokens(order[n..]);
    forall d | 0 <= d < n ensures Tokens(fixed) + Tokens(order[d..]) > budget {
      SuffixesShrink(order, d, n);
    }
    assert order[0..] == order;
    var kept := SortBy(fixed + order[n..], PriorityTime);
    r := Built(Window(kept, Tokens(kept), budget, true, n, policy.strategy));
  }

  lemma InOrder(order: seq<Item>, i: nat, j: nat)
    requires SortedBy(order, PriorityTime) && i <= j < |order|
    ensures order[i].priority <= order[j].priority
  {
    assert i < j ==> PriorityTime(order[i]).Leq(PriorityTime(order[j]));
  }

  lemma ImportantComesFirst(order: seq<Item>, x: Item, y: Item) returns (i: nat, j: nat)
    requires SortedBy(order, PriorityTime) && x in order && y in order && x.priority < y.priority
    ensures i < j < |order| && order[i] == x && order[j] == y
  {
    i :| 0 <= i < |order| && order[i] == x;
    j :| 0 <= j < |order| && order[j] == y;
    if j <= i {
      InOrder(order, j, i);
    }
  }

  lemma CutBetween(order: seq<Item>, i: nat, j: nat)
    requires i < j < |order|
    ensures order[i] in order[..i + 1] && order[j] in order[i + 1..]
  {
    assert order[..i + 1][i] == order[i] && order[i + 1..][j - i - 1] == order[j];
  }

  lemma YoungerGoesFirst(items: seq<Item>, policy: Policy, x: Item, y: Item) returns (budget: int, r: Built)
    requires policy.strategy.TruncateOldest? && forall i :: IsLoose(items, policy, i) ==> i.tokens > 0
    requires IsLoose(items, policy, x) && IsLoose(items, policy, y) && x.priority < y.priority
    ensures Truncated(items, budget, policy, r)
    ensures x in DroppedBy(items, policy, r.window) && y in r.window.items
  {
    LooseAreOrdered(items, policy);
    var i, j := ImportantComesFirst(DropOrder(items, policy), x, y);
    budget, r := SomeBudgetDrops(items, policy, i + 1);
    DroppedAndKept(items, budget, policy, r);
    CutBetween(DropOrder(items, policy), i, j);
  }

  /** So the strategy's name holds exactly when importance never contradicts age: with positive token
      counts, what `build` drops under `truncate_oldest` is never younger than an unprotected item it
      keeps, under every budget, if and only if no unprotected item of the input is both more important
      and younger than another one. */
  lemma OldestIffPriorityFollowsAge(items: seq<Item>, policy: Policy)
    requires policy.strategy.TruncateOldest? && forall i :: IsLoose(items, policy, i) ==> i.tokens > 0
    ensures PriorityFollowsAge(items, policy)
            <==> forall budget, r :: IsBuilt(items, budget, policy, r) && r.Built? ==> DropsOldest(items, policy, r.window)
  {
    if PriorityFollowsAge(items, policy) {
      forall budget, r | IsBuilt(items, budget, policy, r) && r.Built? ensures DropsOldest(items, policy, r.window) {
        AgreeingOrderDropsOldest(items, budget, policy, r);
      }
    } else {
      var x, y :| IsLoose(items, policy, x) && IsLoose(items, policy, y) && x.priority < y.priority && Time(x) > Time(y);
      var budget, r := YoungerGoesFirst(items, policy, x, y);
      assert IsBuilt(items, budget, policy, r) && !DropsOldest(items, policy, r.window);
    }
  }

  lemma {:induction false} SuffixesShrink(order: seq<Item>, d: nat, e: nat)
    requires d < e <= |order| && forall i :: i in order ==> i.tokens > 0
    ensures Tokens(order[d..]) > Tokens(order[e..])
    decreases e - d
  {
    assert order[d..][0] == order[d] && order[d..][1..] == order[d + 1..];
    if d + 1 < e {
      SuffixesShrink(order, d + 1, e);
    }
  }

  lemma {:induction false} NothingProtected(s: seq<Item>, protect: seq<Layer>)
    requires forall i :: i in s ==> i.layer !in protect
    ensures Select(s, protect, false) == s && Select(s, protect, true) == []
  {
    if s != [] {
      NothingProtected(s[1..], protect);
      assert s == [s[0]] + s[1..];
    }
  }

  /** The strategy at work against its name: the newer but more important item goes, the older stays. */
  lemma OldestDropsTheNewest()
    ensures var older := Item(UserLayer, "a", "", 5, 1, Some(10), "");
            var newer := Item(UserLayer, "b", "", 5, 0, Some(20), "");
            forall r :: IsBuilt([older, newer], 5, Policy(TruncateOldest, [SystemLayer], None), r)
                        ==> r.Built? && r.window.items == [older]
  {
    var older := Item(UserLayer, "a", "", 5, 1, Some(10), "");
    var newer := Item(UserLayer, "b", "", 5, 0, Some(20), "");
    var policy := Policy(TruncateOldest, [SystemLayer], None);
    var items := [older, newer];
    assert items[1..] == [newer] && [newer][1..] == [];
    assert Insert(newer, [], PriorityTime) == [newer];
    assert SortBy([newer], PriorityTime) == [newer];
    assert !PriorityTime(older).Leq(PriorityTime(newer));
    assert Insert(older, [newer], PriorityTime) == [newer] + Insert(older, [], PriorityTime);
    assert SortBy(items, PriorityTime) == [newer, older];
    assert Sorted(items, policy) == [newer, older];
    assert [newer, older][1..] == [older] && [older][1..] == [];
    NothingProtected([newer, older], [SystemLayer]);
    assert Protected(items, policy) == [] && DropOrder(items, policy) == [newer, older];
    assert Tokens([older]) == 5 && Tokens([newer, older]) == 10;
    assert Tokens([newer]) == 5 && Tokens(items) == 10;
    forall r | IsBuilt(items, 5, policy, r) ensures r.Built? && r.window.items == [older] {
      var n := r.window.truncatedCount;
      assert [newer, older][0..] == [newer, older];
      assert [newer, older][2..] == [];
      assert n == 1;
      assert [] + [older] == [older];
    }
  }
}
