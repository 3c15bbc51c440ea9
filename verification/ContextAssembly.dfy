/** `ContextAssembler`: a cache in front of an idempotent table of snapshots, used by sessions whose
    rows count only once they commit. */
module ContextAssembly {
  import opened ContextWindow
  import Cache = ContextCache
  import opened Sorting

  type AssemblyKey = Cache.AssemblyKey

  datatype Input = Input(key: AssemblyKey, tokenBudget: int, layerFilter: Option<seq<Layer>>, strategy: Strategy)
  datatype Result = Result(snapshotId: int, key: AssemblyKey, window: Window, fromCache: bool)
  datatype Failure = WindowOverflow | BudgetExceeded | LayerNotAllowed | KeyConflict
  // Waits: the insert waits for a row of the same key that another session has not committed yet.
  datatype Outcome = Ok(result: Result) | Failed(failure: Failure) | Waits

  // A row of `context_snapshots`: enum members are stored as their string values.
  datatype StoredItem = StoredItem(layer: string, source: string, content: string, tokens: int, priority: int, metadata: string)
  datatype Row = Row(id: int, key: AssemblyKey, tokenBudget: int, items: seq<StoredItem>,
                     totalTokens: int, truncated: bool, truncatedCount: nat, strategy: string)

  // ---------------------------------------------------------------- storing and restoring

  function LayerValue(l: Layer): string {
    match l
    case SystemLayer => "system"
    case WorkflowLayer => "workflow"
    case TranscriptLayer => "transcript"
    case AiExecutionLayer => "ai_execution"
    case UserLayer => "user"
  }

  function ParseLayer(s: string): Option<Layer> {
    if s == "system" then Some(SystemLayer)
    else if s == "workflow" then Some(WorkflowLayer)
    else if s == "transcript" then Some(TranscriptLayer)
    else if s == "ai_execution" then Some(AiExecutionLayer)
    else if s == "user" then Some(UserLayer)
    else None
  }

  function StrategyValue(s: Strategy): string {
    match s
    case TruncateOldest => "truncate_oldest"
    case TruncateLowestPriority => "truncate_lowest_priority"
    case TruncateLargest => "truncate_largest"
    case FailOnOverflow => "fail_on_overflow"
  }

  function ParseStrategy(s: string): Option<Strategy> {
    if s == "truncate_oldest" then Some(TruncateOldest)
    else if s == "truncate_lowest_priority" then Some(TruncateLowestPriority)
    else if s == "truncate_largest" then Some(TruncateLargest)
    else if s == "fail_on_overflow" then Some(FailOnOverflow)
    else None
  }

  function StoreItem(i: Item): StoredItem {
    StoredItem(LayerValue(i.layer), i.source, i.content, i.tokens, i.priority, i.metadata)
  }

  function StoreItems(items: seq<Item>): seq<StoredItem> {
    if items == [] then [] else [StoreItem(items[0])] + StoreItems(items[1..])
  }

  function Persist(id: int, input: Input, w: Window): Row {
    Row(id, input.key, input.tokenBudget, StoreItems(w.items), w.totalTokens, w.truncated, w.truncatedCount, StrategyValue(w.strategy))
  }

  function RestoreItem(s: StoredItem): Option<Item> {
    var layer := ParseLayer(s.layer);
    if layer.Some? then Some(Item(layer.value, s.source, s.content, s.tokens, s.priority, None, s.metadata)) else None
  }

  /** None stands for the ValueError of an unknown enum value. */
  function RestoreItems(items: seq<StoredItem>): Option<seq<Item>> {
    if items == [] then Some([])
    else
      var first, rest := RestoreItem(items[0]), RestoreItems(items[1..]);
      if first.Some? && rest.Some? then Some([first.value] + rest.value) else None
  }

  function Restore(row: Row): Option<Window> {
    var items, strategy := RestoreItems(row.items), ParseStrategy(row.strategy);
    if items.Some? && strategy.Some?
    then Some(Window(items.value, row.totalTokens, row.tokenBudget, row.truncated, row.truncatedCount, strategy.value))
    else None
  }

  function StripItem(i: Item): Item {
    i.(createdAt := None)
  }

  function StripItems(items: seq<Item>): seq<Item> {
    if items == [] then [] else [StripItem(items[0])] + StripItems(items[1..])
  }

  /** What a snapshot keeps of a window: everything but the creation times of its items. */
  function Strip(w: Window): Window {
    w.(items := StripItems(w.items))
  }

  lemma LayerRoundTrip(l: Layer)
    ensures ParseLayer(LayerValue(l)) == Some(l)
  {
  }

  lemma StrategyRoundTrip(s: Strategy)
    ensures ParseStrategy(StrategyValue(s)) == Some(s)
  {
  }

  lemma {:induction false} ItemsRoundTrip(items: seq<Item>)
    ensures RestoreItems(StoreItems(items)) == Some(StripItems(items))
  {
    if items != [] {
      ItemsRoundTrip(items[1..]);
      LayerRoundTrip(items[0].layer);
      assert StoreItems(items)[1..] == StoreItems(items[1..]);
    }
  }

  /** A persisted window comes back unchanged but for the creation times. */
  lemma RestoreIsStrip(id: int, input: Input, w: Window)
    requires w.tokenBudget == input.tokenBudget
    ensures Restore(Persist(id, input, w)) == Some(Strip(w))
  {
    ItemsRoundTrip(w.items);
    StrategyRoundTrip(w.strategy);
  }

  lemma {:induction false} StripItemsTwice(items: seq<Item>)
    ensures StripItems(StripItems(items)) == StripItems(items)
  {
    if items != [] {
      StripItemsTwice(items[1..]);
      assert StripItems(items)[1..] == StripItems(items[1..]);
    }
  }

  lemma {:induction false} RestoredItemsAreStripped(items: seq<StoredItem>)
    requires RestoreItems(items).Some?
    ensures StripItems(RestoreItems(items).value) == RestoreItems(items).value
  {
    if items != [] {
      RestoredItemsAreStripped(items[1..]);
      var r := RestoreItems(items).value;
      assert r[1..] == RestoreItems(items[1..]).value;
    }
  }

  // ---------------------------------------------------------------- one call

  datatype Draft = Draft(session: int, row: Row)

  /** `rows` are committed; `drafts` are inserted by a session that has not ended yet. */
  datatype World = World(cache: Cache.Store<Result>, rows: map<AssemblyKey, Row>, drafts: map<AssemblyKey, Draft>)

  // How far a call has come before this step: it has found nothing in the cache, or in the table either.
  // What others have cached or committed since, it does not see.
  datatype Stage = AtCache | AtTable | AtInsert

  datatype Call = Call(session: int, input: Input, items: seq<Item>, policy: Option<Policy>,
                       readAt: int, storedAt: int, freshId: int, stage: Stage)

  const TTL := 300_000_000

  function Allowed(items: seq<Item>, filter: Option<seq<Layer>>): seq<Item> {
    if filter.None? then items
    else if items == [] then []
    else Single(items[0], filter.value) + Allowed(items[1..], filter)
  }

  function PolicyOf(c: Call): Policy {
    if c.policy.Some? then c.policy.value else Policy(c.input.strategy, [SystemLayer], None)
  }

  predicate LayersAllowed(items: seq<Item>, filter: Option<seq<Layer>>) {
    filter.Some? ==> forall i :: i in items ==> i.layer in filter.value
  }

  function CheckWindow(w: Window, input: Input): Option<Failure> {
    if w.totalTokens > input.tokenBudget then Some(BudgetExceeded)
    else if !LayersAllowed(w.items, input.layerFilter) then Some(LayerNotAllowed)
    else None
  }

  /** The row a call sees for its key: one of its own session, or a committed one. */
  function Visible(w: World, c: Call): Option<Row> {
    var key := c.input.key;
    if key in w.drafts && w.drafts[key].session == c.session then Some(w.drafts[key].row)
    else if key in w.rows && !c.stage.AtInsert? then Some(w.rows[key])
    else None
  }

  function Hit(cached: Result): Result {
    cached.(fromCache := true)
  }

  function Restored(row: Row): Option<Result> {
    var w := Restore(row);
    if w.Some? then Some(Result(row.id, row.key, w.value, true)) else None
  }

  /** `create` followed by `cache.set`. */
  ghost predicate Stores(w: World, maxSize: nat, c: Call, window: Window, o: Outcome, w': World) {
    var seen := Visible(w, c);
    if seen.Some? then
      && Restored(seen.value).Some?
      && o == Ok(Restored(seen.value).value)
      && w' == World(Cache.AfterSet(w.cache, maxSize, c.input.key, o.result, c.storedAt, TTL), w.rows, w.drafts)
    else if c.input.key in w.rows then
      o == Failed(KeyConflict) && w' == w
    else if c.input.key in w.drafts then
      o == Waits && w' == w
    else
      && o == Ok(Result(c.freshId, c.input.key, window, false))
      && w' == World(Cache.AfterSet(w.cache, maxSize, c.input.key, o.result, c.storedAt, TTL), w.rows,
                     w.drafts[c.input.key := Draft(c.session, Persist(c.freshId, c.input, window))])
  }

  ghost predicate Builds(c: Call, b: Built) {
    IsBuilt(Allowed(c.items, c.input.layerFilter), c.input.tokenBudget, PolicyOf(c), b)
  }

  /** What the cache answers a call that comes to it. */
  ghost function Answer(w: World, c: Call): Option<Result> {
    var r := Cache.Lookup(w.cache, c.input.key, c.readAt);
    if r.Some? then Some(r.value) else None
  }

  ghost function Looked(w: World, c: Call): World {
    if c.stage.AtCache? then w.(cache := Cache.AfterGet(w.cache, c.input.key, c.readAt)) else w
  }

  /** One call of `assemble`, where `b` is what the window runtime builds on a miss. */
  ghost predicate Assembles(w: World, maxSize: nat, c: Call, b: Built, o: Outcome, w': World) {
    var cached := if c.stage.AtCache? then Answer(w, c) else None;
    var w1 := Looked(w, c);
    if cached.Some? then o == Ok(Hit(cached.value)) && w' == w1
    else
      && Builds(c, b)
      && if b.Overflow? then o == Failed(WindowOverflow) && w' == w1
         else
           var failure := CheckWindow(b.window, c.input);
           if failure.Some? then o == Failed(failure.value) && w' == w1
           else Stores(w1, maxSize, c, b.window, o, w')
  }

  class ContextAssembler {
    const cache: Cache.ContextCache<Result>
    var rows: map<AssemblyKey, Row>
    var drafts: map<AssemblyKey, Draft>

    constructor (cache: Cache.ContextCache<Result>)
      ensures this.cache == cache && rows == map[] && drafts == map[]
    {
      this.cache := cache;
      rows, drafts := map[], map[];
    }

    ghost function View(): World
      reads this, cache
    {
      World(cache.View(), rows, drafts)
    }

    method Assemble(c: Call) returns (o: Outcome, ghost b: Built)
      requires WellKept(View(), cache.maxSize)
      modifies this, cache
      ensures Assembles(old(View()), cache.maxSize, c, b, o, View())
    {
      b := Overflow(0, 0);
      if c.stage.AtCache? {
        var cached := cache.GetEntry(c.input.key, c.readAt);
        if cached.Some? {
          o := Ok(Hit(cached.value));
          return;
        }
      }
      var filtered := Filter(c.items, c.input.layerFilter);
      var built := Build(filtered, c.input.tokenBudget, PolicyOf(c));
      b := built;
      if built.Overflow? {
        o := Failed(WindowOverflow);
        return;
      }
      var failure := CheckWindow(built.window, c.input);
      if failure.Some? {
        o := Failed(failure.value);
        return;
      }
      o := Create(c, built.window);
      if o.Ok? {
        cache.SetEntry(c.input.key, o.result, c.storedAt, TTL);
      }
    }

    /** Idempotent on the assembly key: the look and, if it found nothing, the insert. */
    method Create(c: Call, window: Window) returns (o: Outcome)
      requires RowsAreSound(rows, drafts)
      modifies this
      ensures var seen := Visible(old(View()), c);
              if seen.Some? then
                && Restored(seen.value).Some? && o == Ok(Restored(seen.value).value)
                && View() == old(View())
              else if c.input.key in old(rows) then
                o == Failed(KeyConflict) && View() == old(View())
              else if c.input.key in old(drafts) then
                o == Waits && View() == old(View())
              else
                && o == Ok(Result(c.freshId, c.input.key, window, false)) && rows == old(rows)
                && drafts == old(drafts)[c.input.key := Draft(c.session, Persist(c.freshId, c.input, window))]
    {
      var key := c.input.key;
      var seen := if key in drafts && drafts[key].session == c.session then Some(drafts[key].row)
                  else if key in rows && !c.stage.AtInsert? then Some(rows[key])
                  else None;
      if seen.Some? {
        assert RowIsSound(key, seen.value);
        return Ok(Restored(seen.value).value);
      }
      if key in rows {
        return Failed(KeyConflict);
      }
      if key in drafts {
        return Waits;
      }
      drafts := drafts[key := Draft(c.session, Persist(c.freshId, c.input, window))];
      o := Ok(Result(c.freshId, key, window, false));
    }
  }

  lemma Assoc<T>(a: seq<T>, b: seq<T>, c: seq<T>)
    ensures (a + b) + c == a + (b + c)
  {
  }

  function Single(i: Item, filter: seq<Layer>): seq<Item> {
    if i.layer in filter then [i] else []
  }

  lemma FilterStep(r: seq<Item>, items: seq<Item>, filter: seq<Layer>, n: nat)
    requires n < |items|
    ensures r + Single(items[n], filter) + Allowed(items[n + 1..], Some(filter)) == r + Allowed(items[n..], Some(filter))
  {
    assert items[n..][0] == items[n] && items[n..][1..] == items[n + 1..];
    Assoc(r, Single(items[n], filter), Allowed(items[n + 1..], Some(filter)));
  }

  lemma FilterEnds(r: seq<Item>, items: seq<Item>, filter: seq<Layer>, n: nat)
    requires n == |items|
    ensures r + Allowed(items[n..], Some(filter)) == r
  {
    assert items[n..] == [];
  }

  method Filter(items: seq<Item>, filter: Option<seq<Layer>>) returns (r: seq<Item>)
    ensures r == Allowed(items, filter)
  {
    if filter.None? {
      return items;
    }
    r := [];
    assert items[0..] == items;
    for n := 0 to |items|
      invariant r + Allowed(items[n..], Some(filter.value)) == Allowed(items, filter)
    {
      FilterStep(r, items, filter.value, n);
      r := r + Single(items[n], filter.value);
    }
    FilterEnds(r, items, filter.value, |items|);
  }

  // ---------------------------------------------------------------- the invariant

  ghost predicate Known(w: World, k: AssemblyKey) {
    k in w.rows || k in w.drafts
  }

  /** The row of a key, committed or not. */
  ghost function RowOf(w: World, k: AssemblyKey): Row
    requires Known(w, k)
  {
    if k in w.rows then w.rows[k] else w.drafts[k].row
  }

  /** A result shows the window of a row, within the budget the row was built for. */
  ghost predicate Shows(r: Result, row: Row) {
    && r.snapshotId == row.id && r.key == row.key
    && Restore(row) == Some(Strip(r.window))
    && r.window.totalTokens <= row.tokenBudget
  }

  ghost predicate RowIsSound(k: AssemblyKey, row: Row) {
    row.key == k && row.totalTokens <= row.tokenBudget && Restored(row).Some?
  }

  ghost predicate RowsAreSound(rows: map<AssemblyKey, Row>, drafts: map<AssemblyKey, Draft>) {
    && (forall k :: k in rows ==> RowIsSound(k, rows[k]))
    && (forall k :: k in drafts ==> RowIsSound(k, drafts[k].row))
  }

  ghost predicate WellKept(w: World, maxSize: nat) {
    && maxSize >= 1 && Cache.IsDict(w.cache) && |w.cache.keys| <= maxSize
    && (forall k :: k in w.rows ==> k !in w.drafts)
    && RowsAreSound(w.rows, w.drafts)
  }

  /** Cache and table agree: everything cached shows the row of its key. */
  ghost predicate Agree(w: World) {
    forall k :: k in w.cache.entries ==> Known(w, k) && Shows(w.cache.entries[k].result, RowOf(w, k))
  }

  // ---------------------------------------------------------------- one call keeps it

  lemma {:induction false} AllowedMembers(items: seq<Item>, filter: Option<seq<Layer>>)
    ensures LayersAllowed(Allowed(items, filter), filter)
    decreases |items|
  {
    if filter.Some? && items != [] {
      AllowedMembers(items[1..], filter);
    }
  }

  lemma MembersOf<T>(a: seq<T>, b: seq<T>)
    requires multiset(a) <= multiset(b)
    ensures forall i :: i in a ==> i in b
  {
    forall i | i in a ensures i in b {
      assert i in multiset(a);
    }
  }

  lemma WindowItemsAreConsidered(items: seq<Item>, budget: int, policy: Policy, b: Built)
    requires IsBuilt(items, budget, policy, b) && b.Built?
    ensures multiset(b.window.items) <= multiset(Considered(items, policy))
  {
    if b.window.truncated {
      WindowConserves(items, budget, policy, b);
    } else {
      SortIsSorted(Considered(items, policy), PriorityTime);
    }
  }

  lemma ConsideredMembers(items: seq<Item>, policy: Policy)
    ensures forall i :: i in Considered(items, policy) ==> i in items
  {
  }

  /** On what `assemble` builds, the guardrail's layer check can never fail: it fails exactly when the
      window is over budget. */
  lemma OnlyTheBudgetCanFail(c: Call, b: Built)
    requires Builds(c, b) && b.Built?
    ensures b.window.tokenBudget == c.input.tokenBudget
    ensures CheckWindow(b.window, c.input)
            == if b.window.totalTokens > c.input.tokenBudget then Some(BudgetExceeded) else None
  {
    var allowed, policy := Allowed(c.items, c.input.layerFilter), PolicyOf(c);
    AllowedMembers(c.items, c.input.layerFilter);
    WindowItemsAreConsidered(allowed, c.input.tokenBudget, policy, b);
    MembersOf(b.window.items, Considered(allowed, policy));
    ConsideredMembers(allowed, policy);
  }

  lemma PersistIsSound(id: int, input: Input, w: Window)
    requires w.tokenBudget == input.tokenBudget && w.totalTokens <= input.tokenBudget
    ensures RowIsSound(input.key, Persist(id, input, w))
    ensures Shows(Result(id, input.key, w, false), Persist(id, input, w))
  {
    RestoreIsStrip(id, input, w);
  }

  lemma RestoredShows(k: AssemblyKey, row: Row)
    requires RowIsSound(k, row)
    ensures Shows(Restored(row).value, row)
  {
    RestoredItemsAreStripped(row.items);
  }

  /** The rows a step leaves alone. */
  ghost predicate KeepsRow(w: World, w': World, k: AssemblyKey) {
    Known(w, k) ==> Known(w', k) && RowOf(w', k) == RowOf(w, k)
  }

  lemma CachedStaysAgreed(w: World, w': World)
    requires Agree(w) && w'.rows == w.rows && w'.drafts == w.drafts
    requires forall k :: k in w'.cache.entries ==> k in w.cache.entries && w'.cache.entries[k] == w.cache.entries[k]
    ensures Agree(w')
  {
    forall k | k in w'.cache.entries ensures Known(w', k) && Shows(w'.cache.entries[k].result, RowOf(w', k)) {
      assert k in w.cache.entries;
    }
  }

  lemma GetKeepsAll(w: World, maxSize: nat, key: AssemblyKey, now: int)
    requires WellKept(w, maxSize) && Agree(w)
    ensures var w1 := w.(cache := Cache.AfterGet(w.cache, key, now));
            WellKept(w1, maxSize) && Agree(w1)
  {
    Cache.DeleteKeepsDict(w.cache, key);
    CachedStaysAgreed(w, w.(cache := Cache.AfterGet(w.cache, key, now)));
  }

  lemma StoreKeepsRow(w: World, maxSize: nat, c: Call, window: Window, o: Outcome, w': World, k: AssemblyKey)
    requires Stores(w, maxSize, c, window, o, w')
    ensures KeepsRow(w, w', k)
  {
  }

  lemma AssembleKeepsRow(w: World, maxSize: nat, c: Call, b: Built, o: Outcome, w': World, k: AssemblyKey)
    requires Assembles(w, maxSize, c, b, o, w')
    ensures KeepsRow(w, w', k)
  {
    var w1 := Looked(w, c);
    if w'.drafts != w.drafts {
      StoreKeepsRow(w1, maxSize, c, b.window, o, w', k);
    }
  }

  lemma SeenIsRowOf(w: World, c: Call)
    requires (forall k :: k in w.rows ==> k !in w.drafts) && Visible(w, c).Some?
    ensures Known(w, c.input.key) && Visible(w, c).value == RowOf(w, c.input.key)
  {
  }

  lemma StoredResultShows(w: World, maxSize: nat, c: Call, window: Window, o: Outcome, w': World)
    requires RowsAreSound(w.rows, w.drafts) && (forall k :: k in w.rows ==> k !in w.drafts)
    requires Stores(w, maxSize, c, window, o, w') && o.Ok?
    requires window.tokenBudget == c.input.tokenBudget && window.totalTokens <= c.input.tokenBudget
    ensures Known(w', c.input.key) && Shows(o.result, RowOf(w', c.input.key))
    ensures RowsAreSound(w'.rows, w'.drafts)
  {
    if Visible(w, c).Some? {
      SeenIsRowOf(w, c);
      RestoredShows(c.input.key, RowOf(w, c.input.key));
    } else {
      PersistIsSound(c.freshId, c.input, window);
    }
  }

  lemma StoreKeepsAll(w: World, maxSize: nat, c: Call, window: Window, o: Outcome, w': World)
    requires WellKept(w, maxSize) && Agree(w) && Stores(w, maxSize, c, window, o, w')
    requires window.tokenBudget == c.input.tokenBudget && window.totalTokens <= c.input.tokenBudget
    ensures WellKept(w', maxSize) && Agree(w')
    ensures o.Ok? ==> Known(w', c.input.key) && Shows(o.result, RowOf(w', c.input.key))
  {
    if o.Ok? {
      StoredResultShows(w, maxSize, c, window, o, w');
      Cache.SetKeepsDict(w.cache, maxSize, c.input.key, o.result, c.storedAt, TTL);
      forall k ensures KeepsRow(w, w', k) { StoreKeepsRow(w, maxSize, c, window, o, w', k); }
      NewEntryAgrees(w, w', c.input.key, o.result);
    }
  }

  lemma NewEntryAgrees(w: World, w': World, key: AssemblyKey, r: Result)
    requires Agree(w) && (forall k :: KeepsRow(w, w', k))
    requires Known(w', key) && Shows(r, RowOf(w', key))
    requires forall k :: k in w'.cache.entries ==>
               if k == key then w'.cache.entries[k].result == r
               else k in w.cache.entries && w'.cache.entries[k] == w.cache.entries[k]
    ensures Agree(w')
  {
    forall k | k in w'.cache.entries ensures Known(w', k) && Shows(w'.cache.entries[k].result, RowOf(w', k)) {
      assert KeepsRow(w, w', k);
    }
  }

  lemma MissKeepsAll(w: World, maxSize: nat, c: Call, b: Built, o: Outcome, w': World)
    requires WellKept(w, maxSize) && Agree(w) && Builds(c, b) && b.Built?
    requires CheckWindow(b.window, c.input).None? && Stores(w, maxSize, c, b.window, o, w')
    ensures WellKept(w', maxSize) && Agree(w')
    ensures o.Ok? ==> Known(w', c.input.key) && Shows(o.result, RowOf(w', c.input.key))
  {
    OnlyTheBudgetCanFail(c, b);
    StoreKeepsAll(w, maxSize, c, b.window, o, w');
  }

  /** One call of `assemble`: agreement stays, and a result shows the row of its key. */
  lemma AssembleKeepsAll(w: World, maxSize: nat, c: Call, b: Built, o: Outcome, w': World)
    requires WellKept(w, maxSize) && Agree(w) && Assembles(w, maxSize, c, b, o, w')
    ensures WellKept(w', maxSize) && Agree(w')
    ensures o.Ok? ==> Known(w', c.input.key) && Shows(o.result, RowOf(w', c.input.key))
  {
    var w1 := Looked(w, c);
    GetKeepsAll(w, maxSize, c.input.key, c.readAt);
    if (!c.stage.AtCache? || Answer(w, c).None?) && b.Built? && CheckWindow(b.window, c.input).None? {
      MissKeepsAll(w1, maxSize, c, b, o, w');
    }
  }

  /** A call ends in the constraint error exactly when it found nothing in the table, has built a window, and
      another session has committed the key since. */
  lemma ConflictIffOvertaken(w: World, maxSize: nat, c: Call, b: Built, o: Outcome, w': World)
    requires WellKept(w, maxSize) && Assembles(w, maxSize, c, b, o, w')
    ensures o == Failed(KeyConflict)
            <==> c.stage.AtInsert? && c.input.key in w.rows && b.Built? && CheckWindow(b.window, c.input).None?
    ensures o == Failed(KeyConflict) ==> w' == w
  {
  }

  /** The budget of the caller holds exactly when the key is new or its row happens to fit it: a
      known key is served whatever the caller's budget, items and policy say. */
  lemma CallerBudgetIff(w: World, maxSize: nat, c: Call, b: Built, o: Outcome, w': World)
    requires WellKept(w, maxSize) && Agree(w) && Assembles(w, maxSize, c, b, o, w') && o.Ok?
    ensures o.result.window.totalTokens <= c.input.tokenBudget
            <==> !Known(w, c.input.key) || RowOf(w, c.input.key).totalTokens <= c.input.tokenBudget
  {
    AssembleKeepsAll(w, maxSize, c, b, o, w');
    AssembleKeepsRow(w, maxSize, c, b, o, w', c.input.key);
    if !Known(w, c.input.key) {
      OnlyTheBudgetCanFail(c, b);
    }
  }

  // ---------------------------------------------------------------- whole runs

  datatype Event = Asked(call: Call, built: Built, outcome: Outcome) | Committed(session: int) | RolledBack(session: int)
                 | Invalidated(key: AssemblyKey) | Cleared

  ghost function DraftsOf(w: World, session: int): set<AssemblyKey> {
    set k | k in w.drafts && w.drafts[k].session == session
  }

  ghost function Ended(w: World, session: int): map<AssemblyKey, Draft> {
    w.drafts - DraftsOf(w, session)
  }

  ghost function AfterCommit(w: World, session: int): World {
    World(w.cache, map k | k in w.rows.Keys + DraftsOf(w, session) :: if k in w.rows then w.rows[k] else w.drafts[k].row,
          Ended(w, session))
  }

  ghost function AfterRollback(w: World, session: int): World {
    World(w.cache, w.rows, Ended(w, session))
  }

  ghost predicate Next(w: World, maxSize: nat, e: Event, w': World) {
    match e
    case Asked(c, b, o) => Assembles(w, maxSize, c, b, o, w')
    case Committed(session) => w' == AfterCommit(w, session)
    case RolledBack(session) => w' == AfterRollback(w, session)
    case Invalidated(key) => w' == w.(cache := Cache.Delete(w.cache, key))
    case Cleared => w' == w.(cache := Cache.Store([], map[]))
  }

  /** A rollback is safe when none of the rows it takes back is in the cache. */
  ghost predicate Safe(w: World, session: int) {
    forall k :: k in DraftsOf(w, session) ==> k !in w.cache.entries
  }

  /** `assemble` fills the cache before its session commits, so a rollback can break the agreement of
      cache and table: it keeps it exactly when it is safe. */
  lemma RollbackAgreesIffSafe(w: World, maxSize: nat, session: int)
    requires WellKept(w, maxSize) && Agree(w)
    ensures WellKept(AfterRollback(w, session), maxSize)
    ensures Agree(AfterRollback(w, session)) <==> Safe(w, session)
  {
    var w' := AfterRollback(w, session);
    if Safe(w, session) {
      forall k | k in w'.cache.entries ensures Known(w', k) && Shows(w'.cache.entries[k].result, RowOf(w', k)) {
        assert Known(w, k) && Shows(w.cache.entries[k].result, RowOf(w, k));
        assert k !in DraftsOf(w, session);
      }
    } else {
      var k :| k in DraftsOf(w, session) && k in w.cache.entries;
      assert !Known(w', k);
    }
  }

  /** After an unsafe rollback every call for such a key, until the entry expires, returns a snapshot
      that no row has. */
  lemma UnsafeRollbackServesAGhost(w: World, maxSize: nat, session: int, c: Call, b: Built, o: Outcome, w': World)
    requires WellKept(w, maxSize) && Agree(w)
    requires c.input.key in DraftsOf(w, session) && c.input.key in w.cache.entries
    requires c.stage.AtCache? && c.readAt <= w.cache.entries[c.input.key].expiresAt
    requires Assembles(AfterRollback(w, session), maxSize, c, b, o, w')
    ensures o.Ok? && !Known(w', c.input.key) && w'.cache == w.cache
  {
  }

  lemma CommitKeepsRow(w: World, session: int, k: AssemblyKey)
    ensures KeepsRow(w, AfterCommit(w, session), k)
  {
    assert k in DraftsOf(w, session) <==> k in w.drafts && w.drafts[k].session == session;
  }

  lemma CommitKeepsAll(w: World, maxSize: nat, session: int)
    requires WellKept(w, maxSize) && Agree(w)
    ensures WellKept(AfterCommit(w, session), maxSize) && Agree(AfterCommit(w, session))
  {
    var w' := AfterCommit(w, session);
    forall k | k in w'.rows ensures RowIsSound(k, w'.rows[k]) && k !in w'.drafts {}
    forall k | k in w'.cache.entries ensures Known(w', k) && Shows(w'.cache.entries[k].result, RowOf(w', k)) {
      CommitKeepsRow(w, session, k);
    }
  }

  ghost predicate TakesBack(w: World, e: Event, k: AssemblyKey) {
    e.RolledBack? && k in DraftsOf(w, e.session)
  }

  lemma NextKeepsRow(w: World, maxSize: nat, e: Event, w': World, k: AssemblyKey)
    requires Next(w, maxSize, e, w') && !TakesBack(w, e, k)
    ensures KeepsRow(w, w', k)
  {
    match e
    case Asked(c, b, o) => AssembleKeepsRow(w, maxSize, c, b, o, w', k);
    case Committed(session) => CommitKeepsRow(w, session, k);
    case RolledBack(session) =>
    case Invalidated(key) =>
    case Cleared =>
  }

  lemma NextKeepsAll(w: World, maxSize: nat, e: Event, w': World)
    requires WellKept(w, maxSize) && Agree(w) && Next(w, maxSize, e, w')
    requires e.RolledBack? ==> Safe(w, e.session)
    ensures WellKept(w', maxSize) && Agree(w')
  {
    match e
    case Asked(c, b, o) => AssembleKeepsAll(w, maxSize, c, b, o, w');
    case Committed(session) => CommitKeepsAll(w, maxSize, session);
    case RolledBack(session) => RollbackAgreesIffSafe(w, maxSize, session);
    case Invalidated(key) =>
      Cache.DeleteKeepsDict(w.cache, key);
      CachedStaysAgreed(w, w');
    case Cleared => CachedStaysAgreed(w, w');
  }

  /** A run from an empty process and an empty table in which every rollback is safe. */
  ghost predicate IsRun(ws: seq<World>, maxSize: nat, es: seq<Event>) {
    && |ws| == |es| + 1 && maxSize >= 1
    && ws[0] == EMPTY
    && forall i :: 0 <= i < |es| ==> StepAt(ws, maxSize, es, i)
  }

  ghost predicate StepAt(ws: seq<World>, maxSize: nat, es: seq<Event>, i: nat)
    requires i < |es| < |ws|
  {
    Next(ws[i], maxSize, es[i], ws[i + 1]) && (es[i].RolledBack? ==> Safe(ws[i], es[i].session))
  }

  lemma {:induction false} RunKeepsAll(ws: seq<World>, maxSize: nat, es: seq<Event>, n: nat)
    requires IsRun(ws, maxSize, es) && n <= |es|
    ensures WellKept(ws[n], maxSize) && Agree(ws[n])
  {
    if n > 0 {
      RunKeepsAll(ws, maxSize, es, n - 1);
      assert StepAt(ws, maxSize, es, n - 1);
      NextKeepsAll(ws[n - 1], maxSize, es[n - 1], ws[n]);
    }
  }

  /** No event from i on, before j, takes the row of k back. */
  ghost predicate Untouched(ws: seq<World>, es: seq<Event>, i: nat, j: nat, k: AssemblyKey)
    requires j <= |es| <= |ws|
  {
    forall m :: i <= m < j ==> !TakesBack(ws[m], es[m], k)
  }

  lemma {:induction false} RowStays(ws: seq<World>, maxSize: nat, es: seq<Event>, i: nat, j: nat, k: AssemblyKey)
    requires IsRun(ws, maxSize, es) && i <= j <= |es| && Known(ws[i], k) && Untouched(ws, es, i, j, k)
    ensures Known(ws[j], k) && RowOf(ws[j], k) == RowOf(ws[i], k)
    decreases j - i
  {
    if i < j {
      RowStays(ws, maxSize, es, i, j - 1, k);
      assert StepAt(ws, maxSize, es, j - 1);
      NextKeepsRow(ws[j - 1], maxSize, es[j - 1], ws[j], k);
    }
  }

  lemma OutcomeShows(ws: seq<World>, maxSize: nat, es: seq<Event>, i: nat)
    requires IsRun(ws, maxSize, es) && i < |es| && es[i].Asked? && es[i].outcome.Ok?
    ensures Known(ws[i + 1], es[i].call.input.key)
    ensures Shows(es[i].outcome.result, RowOf(ws[i + 1], es[i].call.input.key))
  {
    RunKeepsAll(ws, maxSize, es, i);
    assert StepAt(ws, maxSize, es, i);
    var e := es[i];
    AssembleKeepsAll(ws[i], maxSize, e.call, e.built, e.outcome, ws[i + 1]);
  }

  /** One window per key: at any later moment, unless the row of the key was taken back meanwhile,
      every result handed out for the key still shows that row and is within the budget the row was
      built for. */
  lemma ResultsShowTheRow(ws: seq<World>, maxSize: nat, es: seq<Event>, i: nat, j: nat)
    requires IsRun(ws, maxSize, es) && i < j <= |es| && es[i].Asked? && es[i].outcome.Ok?
    requires Untouched(ws, es, i + 1, j, es[i].call.input.key)
    ensures Known(ws[j], es[i].call.input.key)
    ensures Shows(es[i].outcome.result, RowOf(ws[j], es[i].call.input.key))
  {
    OutcomeShows(ws, maxSize, es, i);
    RowStays(ws, maxSize, es, i + 1, j, es[i].call.input.key);
  }

  lemma ShownAlike(a: Result, b: Result, row: Row)
    requires Shows(a, row) && Shows(b, row)
    ensures a.snapshotId == b.snapshotId && Strip(a.window) == Strip(b.window)
  {
  }

  /** Two callers of one key get the same snapshot, whatever items, budget or policy they bring and
      whatever expired, was evicted or committed between them. */
  lemma SameKeySameWindow(ws: seq<World>, maxSize: nat, es: seq<Event>, i: nat, j: nat)
    requires IsRun(ws, maxSize, es) && i < j < |es|
    requires es[i].Asked? && es[i].outcome.Ok? && es[j].Asked? && es[j].outcome.Ok?
    requires es[i].call.input.key == es[j].call.input.key
    requires Untouched(ws, es, i + 1, j, es[i].call.input.key)
    ensures var a, b := es[i].outcome.result, es[j].outcome.result;
            a.snapshotId == b.snapshotId && Strip(a.window) == Strip(b.window)
  {
    var key := es[i].call.input.key;
    assert !TakesBack(ws[j], es[j], key);
    ResultsShowTheRow(ws, maxSize, es, i, j + 1);
    OutcomeShows(ws, maxSize, es, j);
    ShownAlike(es[i].outcome.result, es[j].outcome.result, RowOf(ws[j + 1], key));
  }

  /** A committed row is never taken back, so it is shown for ever. */
  lemma {:induction false} CommittedStays(ws: seq<World>, maxSize: nat, es: seq<Event>, i: nat, j: nat, k: AssemblyKey)
    requires IsRun(ws, maxSize, es) && i <= j <= |es| && k in ws[i].rows
    ensures k in ws[j].rows && ws[j].rows[k] == ws[i].rows[k]
    decreases j - i
  {
    if i < j {
      CommittedStays(ws, maxSize, es, i, j - 1, k);
      assert StepAt(ws, maxSize, es, j - 1);
    }
  }

  // ---------------------------------------------------------------- two runs from the empty process

  const EMPTY := World(Cache.Store([], map[]), map[], map[])

  function SmallCall(session: int, key: AssemblyKey, i: Item, strategy: Strategy, budget: int): Call {
    Call(session, Input(key, budget, None, strategy), [i], None, 0, 0, 1, AtCache)
  }

  function SmallWindow(i: Item, strategy: Strategy): Window {
    Window([i], i.tokens, i.tokens, false, 0, strategy)
  }

  /** The world after one session has asked for a window of one item that just fits. */
  function AfterOne(session: int, key: AssemblyKey, i: Item, strategy: Strategy): World {
    var w := SmallWindow(i, strategy);
    World(Cache.Store([key], map[key := Cache.Entry(Result(1, key, w, false), TTL)]), map[],
          map[key := Draft(session, Persist(1, Input(key, i.tokens, None, strategy), w))])
  }

  lemma SmallIsBuilt(i: Item, policy: Policy)
    requires policy.maxItems.None?
    ensures IsBuilt([i], i.tokens, policy, Built(SmallWindow(i, policy.strategy)))
  {
    assert [i][1..] == [] && SortBy([], PriorityTime) == [];
    assert SortBy([i], PriorityTime) == Insert(i, [], PriorityTime) == [i] + [];
    assert Tokens([i]) == i.tokens + Tokens([]);
  }

  /** The first call of all, in a session that has not committed yet. */
  lemma FirstCall(maxSize: nat, session: int, key: AssemblyKey, i: Item, strategy: Strategy)
    requires maxSize >= 1
    ensures Next(EMPTY, maxSize, Asked(SmallCall(session, key, i, strategy, i.tokens), Built(SmallWindow(i, strategy)),
                                       Ok(Result(1, key, SmallWindow(i, strategy), false))),
                 AfterOne(session, key, i, strategy))
  {
    var c, w := SmallCall(session, key, i, strategy, i.tokens), SmallWindow(i, strategy);
    SmallIsBuilt(i, PolicyOf(c));
    assert Cache.AfterSet(EMPTY.cache, maxSize, key, Result(1, key, w, false), 0, TTL)
           == Cache.Store([] + [key], map[key := Cache.Entry(Result(1, key, w, false), 0 + TTL)]);
  }

  /** From the empty process, two calls for one key: the second is served over its own budget. */
  lemma OverBudgetHitIsReachable(maxSize: nat, session: int, key: AssemblyKey, i: Item, strategy: Strategy, budget: int)
    requires maxSize >= 1 && budget < i.tokens
    ensures var w := AfterOne(session, key, i, strategy);
            var r := Result(1, key, SmallWindow(i, strategy), true);
            && Next(EMPTY, maxSize, Asked(SmallCall(session, key, i, strategy, i.tokens), Built(SmallWindow(i, strategy)),
                                          Ok(r.(fromCache := false))), w)
            && Next(w, maxSize, Asked(SmallCall(session, key, i, strategy, budget), Overflow(0, 0), Ok(r)), w)
            && r.window.totalTokens > budget
  {
    FirstCall(maxSize, session, key, i, strategy);
  }

  /** From the empty process, one call and a rollback of its session: the cache keeps a snapshot that
      the table does not have. */
  lemma UnsafeRollbackIsReachable(maxSize: nat, session: int, key: AssemblyKey, i: Item, strategy: Strategy)
    requires maxSize >= 1
    ensures var w := AfterOne(session, key, i, strategy);
            && Next(EMPTY, maxSize, Asked(SmallCall(session, key, i, strategy, i.tokens), Built(SmallWindow(i, strategy)),
                                          Ok(Result(1, key, SmallWindow(i, strategy), false))), w)
            && !Safe(w, session) && !Agree(AfterRollback(w, session))
  {
    FirstCall(maxSize, session, key, i, strategy);
    var w := AfterOne(session, key, i, strategy);
    assert key in DraftsOf(w, session) && key in w.cache.entries;
    assert !Known(AfterRollback(w, session), key);
  }

  /** Session 2 looks; session 1 has a draft, so the insert waits; session 1 commits; the insert fails. */
  lemma ConflictIsReachable(maxSize: nat, key: AssemblyKey, i: Item, strategy: Strategy)
    requires maxSize >= 1
    ensures var w := AfterOne(1, key, i, strategy);
            var c := SmallCall(2, key, i, strategy, i.tokens).(stage := AtInsert);
            && Next(w, maxSize, Asked(c, Built(SmallWindow(i, strategy)), Waits), w)
            && Next(w, maxSize, Committed(1), AfterCommit(w, 1))
            && Next(AfterCommit(w, 1), maxSize, Asked(c, Built(SmallWindow(i, strategy)), Failed(KeyConflict)), AfterCommit(w, 1))
  {
    var w := AfterOne(1, key, i, strategy);
    SmallIsBuilt(i, PolicyOf(SmallCall(2, key, i, strategy, i.tokens)));
    assert key in DraftsOf(w, 1);
  }
}
