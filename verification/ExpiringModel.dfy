/**
 What the operations of `ExpiringCache` do to the store, the counters and the books: every
 value that was ever inserted is still stored, was evicted, was handed back, or was dropped.
 Time is a parameter of every operation, and the eviction callback may panic.
 */
module ExpiringModel {
  import opened Basics

  /**
   `expired(v, now)` is `Expires::is_expired` asked at instant `now`; `callback` says whether
   an `on_evict` is configured; `panics(n)` whether its `n`th invocation panics.
   */
  datatype Setup = Setup(expired: (Value, nat) -> bool, callback: bool, panics: nat -> bool)

  type Pair = (Key, Value)

  datatype Ledger = Ledger(
    store: map<Key, Value>,
    hits: nat, misses: nat, evictions: nat, // the counters, as `cache_reset_metrics` leaves them
    inserted: multiset<Pair>,               // entries ever put into the store
    overwritten: seq<Pair>,                 // entries rewritten through a mutable reference,
    written: seq<Pair>,                     //   and what each was rewritten to
    evicted: seq<Pair>,                     // entries taken out and counted as evictions
    counted: nat,                           // evictions counted, across resets
    notified: seq<Pair>,                    // entries `on_evict` was called with
    handedBack: multiset<Pair>,             // live entries an overwriting `cache_set` returned
    dropped: multiset<Pair>)                // entries silently dropped by clear and reset

  const FRESH := Ledger(map[], 0, 0, 0, multiset{}, [], [], [], 0, [], multiset{}, multiset{})

  /** What the closure passed to a get-or-set does. */
  datatype Thunk = Yields(value: Value) | Fails(error: Error) | Panics

  /** What a `retain` predicate does when asked. */
  datatype Verdict = Stay | Go | Blow

  /** `order` is the iteration order of the map; `keep(n, k, v)` is asked about its `n`th entry. */
  datatype Op =
    | Get(k: Key)
    | GetMut(k: Key, left: Value)                    // the caller leaves `left` in the slot it got
    | GetOrSet(k: Key, f: Thunk, then_: Option<Value>) // or, with `None`, does not write to it
    | Set(k: Key, v: Value)
    | Remove(k: Key)
    | RemoveEntry(k: Key)
    | Evict(order: seq<Key>)
    | Retain(order: seq<Key>, keep: (nat, Key, Value) -> Verdict)
    | ClearWithOnEvict(order: seq<Key>)
    | Clear
    | Reset
    | ResetMetrics
    | Peek(k: Key)
    | Contains(k: Key)
    | Iter(order: seq<Key>)
    | GetStatus(k: Key)
    | PeekStatus(k: Key)

  datatype Answer =
    | Panicked
    | Unit
    | Found(value: Option<Value>)
    | Entry(entry: Option<Pair>)
    | Fetched(outcome: Outcome)
    | Count(count: nat)
    | Answer(yes: bool)
    | Entries(entries: map<Key, Value>)
    | Status(value: Option<Value>, expired: bool)

  /** The entries of a map. */
  function Contents(store: map<Key, Value>): multiset<Pair> {
    multiset(set k | k in store :: (k, store[k]))
  }

  // ---- Evicting -----------------------------------------------------------------------------

  function Keys(batch: seq<Pair>): set<Key> {
    if batch == [] then {} else {batch[0].0} + Keys(batch[1..])
  }

  /** Remove the entries, then count them. */
  function Taken(l: Ledger, batch: seq<Pair>): Ledger {
    l.(store := l.store - Keys(batch), evicted := l.evicted + batch,
       counted := l.counted + |batch|, evictions := l.evictions + |batch|)
  }

  /** Replace an expired entry, then count it. */
  function Replaced(l: Ledger, k: Key, v: Value): Ledger
    requires k in l.store
  {
    l.(store := l.store[k := v], inserted := l.inserted + multiset{(k, v)},
       evicted := l.evicted + [(k, l.store[k])], counted := l.counted + 1, evictions := l.evictions + 1)
  }

  /** Insert at a free key. */
  function Inserted(l: Ledger, k: Key, v: Value): Ledger {
    l.(store := l.store[k := v], inserted := l.inserted + multiset{(k, v)})
  }

  /** Overwrite a live entry and hand it back. */
  function Swapped(l: Ledger, k: Key, v: Value): Ledger
    requires k in l.store
  {
    Inserted(l, k, v).(handedBack := l.handedBack + multiset{(k, l.store[k])})
  }

  /** The caller writes through the reference it was given to the slot of `k`. */
  function Rewritten(l: Ledger, k: Key, v: Value): Ledger
    requires k in l.store
  {
    l.(store := l.store[k := v],
       overwritten := l.overwritten + [(k, l.store[k])], written := l.written + [(k, v)])
  }

  /** Call `on_evict` for each entry in turn, until one call panics. */
  function Notify(s: Setup, l: Ledger, batch: seq<Pair>): (Ledger, bool)
    decreases |batch|
  {
    if !s.callback || batch == [] then (l, false)
    else
      var called := l.(notified := l.notified + [batch[0]]);
      if s.panics(|l.notified|) then (called, true) else Notify(s, called, batch[1..])
  }

  /** Notify and answer, unless the callback panicked. */
  function Told(s: Setup, l: Ledger, batch: seq<Pair>, a: Answer): (Ledger, Answer) {
    var r := Notify(s, l, batch);
    (r.0, if r.1 then Panicked else a)
  }

  /** The verdict on one entry: an expired entry goes without asking. */
  function Judge(s: Setup, keep: (nat, Key, Value) -> Verdict, n: nat, k: Key, v: Value, now: nat): Verdict {
    if s.expired(v, now) then Go else keep(n, k, v)
  }

  /** The entries from position `n` on that must go, or `None` if `keep` panics. */
  function Doomed(s: Setup, store: map<Key, Value>, order: seq<Key>,
                  keep: (nat, Key, Value) -> Verdict, now: nat, n: nat): Option<seq<Pair>>
    requires n <= |order| && forall i :: 0 <= i < |order| ==> order[i] in store
    decreases |order| - n
  {
    if n == |order| then Some([])
    else
      var k := order[n];
      var verdict := Judge(s, keep, n, k, store[k], now);
      if verdict == Blow then None
      else
        match Doomed(s, store, order, keep, now, n + 1)
        case None => None
        case Some(rest) => Some(if verdict == Go then [(k, store[k])] + rest else rest)
  }

  function Sweep(s: Setup, l: Ledger, order: seq<Key>, keep: (nat, Key, Value) -> Verdict, now: nat,
                 counting: bool): (Ledger, Answer)
    requires forall i :: 0 <= i < |order| ==> order[i] in l.store
  {
    match Doomed(s, l.store, order, keep, now, 0)
    case None => (l, Panicked)
    case Some(batch) => Told(s, Taken(l, batch), batch, if counting then Count(|batch|) else Unit)
  }

  /** `order` lists every key of the map once. */
  ghost predicate IsOrder(order: seq<Key>, store: map<Key, Value>) {
    NoDup(order) && forall k :: k in order <==> k in store
  }

  ghost predicate Allowed(l: Ledger, op: Op) {
    op.Evict? || op.Retain? || op.ClearWithOnEvict? || op.Iter? ==> IsOrder(op.order, l.store)
  }

  function KeepAll(n: nat, k: Key, v: Value): Verdict { Stay }

  function KeepNone(n: nat, k: Key, v: Value): Verdict { Go }

  // ---- The operations -------------------------------------------------------------------------

  function Live(s: Setup, store: map<Key, Value>, k: Key, now: nat): Option<Value> {
    if k in store && !s.expired(store[k], now) then Some(store[k]) else None
  }

  function LiveEntries(s: Setup, store: map<Key, Value>, now: nat): map<Key, Value> {
    map k | k in store && !s.expired(store[k], now) :: store[k]
  }

  /** A lookup that removes what it finds expired; on a hit `left` says what stays in the slot. */
  function Lookup(s: Setup, l: Ledger, k: Key, now: nat, left: Option<Value>): (Ledger, Answer) {
    if k !in l.store then (l.(misses := l.misses + 1), Found(None))
    else if s.expired(l.store[k], now) then
      var batch := [(k, l.store[k])];
      Told(s, Taken(l.(misses := l.misses + 1), batch), batch, Found(None))
    else
      (Left(l.(hits := l.hits + 1), k, left), Found(Some(l.store[k])))
  }

  function Left(l: Ledger, k: Key, left: Option<Value>): Ledger
    requires k in l.store
  {
    if left.Some? then Rewritten(l, k, left.value) else l
  }

  /** A get-or-set up to its return. */
  function GetOrSetWith(s: Setup, l: Ledger, k: Key, f: Thunk, now: nat): (Ledger, Answer) {
    if Live(s, l.store, k, now).Some? then (l.(hits := l.hits + 1), Fetched(Keep(l.store[k])))
    else
      var m := l.(misses := l.misses + 1);
      match f
      case Panics => (m, Panicked)
      case Fails(e) => (m, Fetched(Skip(e)))
      case Yields(v) =>
        if k in l.store then Told(s, Replaced(m, k, v), [(k, l.store[k])], Fetched(Keep(v)))
        else (Inserted(m, k, v), Fetched(Keep(v)))
  }

  /** A get-or-set, and what its caller then does with the reference, if it gets one. */
  function GetOrSetThen(s: Setup, l: Ledger, k: Key, f: Thunk, then_: Option<Value>, now: nat): (Ledger, Answer) {
    var (r, a) := GetOrSetWith(s, l, k, f, now);
    (if a.Fetched? && a.outcome.Keep? && k in r.store then Left(r, k, then_) else r, a)
  }

  function SetTo(s: Setup, l: Ledger, k: Key, v: Value, now: nat): (Ledger, Answer) {
    if k !in l.store then (Inserted(l, k, v), Found(None))
    else if s.expired(l.store[k], now) then Told(s, Replaced(l, k, v), [(k, l.store[k])], Found(None))
    else (Swapped(l, k, v), Found(Some(l.store[k])))
  }

  function TakeOut(s: Setup, l: Ledger, k: Key, a: Answer): (Ledger, Answer)
    requires k in l.store
  {
    var batch := [(k, l.store[k])];
    Told(s, Taken(l, batch), batch, a)
  }

  function Emptied(l: Ledger): Ledger {
    l.(store := map[], dropped := l.dropped + Contents(l.store))
  }

  function Unmetered(l: Ledger): Ledger {
    l.(hits := 0, misses := 0, evictions := 0)
  }

  function StatusOf(s: Setup, l: Ledger, k: Key, now: nat): Answer {
    if k in l.store then Status(Some(l.store[k]), s.expired(l.store[k], now)) else Status(None, false)
  }

  function Apply(s: Setup, l: Ledger, op: Op, now: nat): (Ledger, Answer)
    requires Allowed(l, op)
  {
    match op
    case Get(k) => Lookup(s, l, k, now, None)
    case GetMut(k, left) => Lookup(s, l, k, now, Some(left))
    case GetOrSet(k, f, then_) => GetOrSetThen(s, l, k, f, then_, now)
    case Set(k, v) => SetTo(s, l, k, v, now)
    case Remove(k) =>
      if k in l.store then TakeOut(s, l, k, Found(Live(s, l.store, k, now))) else (l, Found(None))
    case RemoveEntry(k) =>
      if k in l.store then TakeOut(s, l, k, Entry(Some((k, l.store[k])))) else (l, Entry(None))
    case Evict(order) => Sweep(s, l, order, KeepAll, now, true)
    case Retain(order, keep) => Sweep(s, l, order, keep, now, true)
    case ClearWithOnEvict(order) => Sweep(s, l, order, KeepNone, now, false)
    case Clear => (Emptied(l), Unit)
    case Reset => (Unmetered(Emptied(l)), Unit)
    case ResetMetrics => (Unmetered(l), Unit)
    case Peek(k) => (l, Found(Live(s, l.store, k, now)))
    case Contains(k) => (l, Answer(Live(s, l.store, k, now).Some?))
    case Iter(_) => (l, Entries(LiveEntries(s, l.store, now)))
    case GetStatus(k) =>
      if Live(s, l.store, k, now).Some? then (l.(hits := l.hits + 1), StatusOf(s, l, k, now))
      else (l.(misses := l.misses + 1), StatusOf(s, l, k, now))
    case PeekStatus(k) => (l, StatusOf(s, l, k, now))
  }

  // ---- Accounts ---------------------------------------------------------------------------------

  /**
   The books balance, entry by entry: what was put in, by insertion or by rewriting, is what
   is stored, was evicted, was handed back, was dropped, or was rewritten. No entry is
   removed without being counted, or told of without having been evicted.
   */
  ghost predicate Balanced(l: Ledger) {
    && Conserved(l)
    && |l.written| == |l.overwritten|
    && (forall i :: 0 <= i < |l.written| ==> l.written[i].0 == l.overwritten[i].0)
    && l.counted == |l.evicted|
    && l.evictions <= l.counted
    && multiset(l.notified) <= multiset(l.evicted)
  }

  ghost predicate Conserved(l: Ledger) {
    l.inserted + multiset(l.written) == Went(l) + Contents(l.store)
  }

  /** Everything that left the store. */
  ghost function Went(l: Ledger): multiset<Pair> {
    multiset(l.evicted) + l.handedBack + l.dropped + multiset(l.overwritten)
  }

  /** With a callback that has not panicked, it was called once for every eviction, in order. */
  ghost predicate AllTold(s: Setup, l: Ledger) {
    s.callback && (forall n :: 0 <= n < |l.notified| ==> !s.panics(n)) ==> l.notified == l.evicted
  }
}
