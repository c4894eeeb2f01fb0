/**
 What a caller of `ExpiringCache` can tell afterwards, operation by operation: the answer, the
 map and the books, by whether the key was absent, live or stale. An answer is given unless
 the eviction callback panicked.
 */
module ExpiringOutcomes {
  import opened Basics
  import opened ExpiringModel
  import opened ExpiringAccounts
  import opened ExpiringRefinement

  /** `k` is in the map, and its value has expired. */
  predicate Stale(s: Setup, l: Ledger, k: Key, now: nat) {
    k in l.store && s.expired(l.store[k], now)
  }

  /** The operation answers `b`, or panics if the eviction callback panicked in it. */
  ghost predicate Answers(s: Setup, l: Ledger, r: Ledger, a: Answer, b: Answer) {
    a == if CallbackPanicked(s, l, r) then Panicked else b
  }

  /** Exactly the entries in `batch` were evicted, in that order, and counted. */
  ghost predicate Evicts(l: Ledger, r: Ledger, batch: seq<Pair>) {
    r.evicted == l.evicted + batch && r.counted == l.counted + |batch|
  }

  /** Nothing was evicted, told of, put in, written, handed back or dropped. */
  ghost predicate SameBooks(l: Ledger, r: Ledger) {
    && Evicts(l, r, []) && r.notified == l.notified
    && r.inserted == l.inserted && r.handedBack == l.handedBack && r.dropped == l.dropped
    && r.written == l.written && r.overwritten == l.overwritten
  }

  /** A notification changes neither map nor books, and answers or panics. */
  lemma ToldOutcome(s: Setup, l: Ledger, t: Ledger, batch: seq<Pair>, b: Answer)
    requires t.notified == l.notified && t.evicted == l.evicted + batch
    ensures var (r, a) := Told(s, t, batch, b);
      r == t.(notified := r.notified) && Answers(s, l, r, a, b)
  {
    ToldFrame(s, t, batch, b);
    ToldAnswers(s, t, batch, b);
  }

  lemma OneKey(k: Key, v: Value)
    ensures Keys([(k, v)]) == {k}
  {
    assert [(k, v)][1..] == [] && Keys([]) == {};
  }

  /** An operation panics exactly if the closure it was given panics or the callback does. */
  lemma PanicsExactly(s: Setup, l: Ledger, op: Op, now: nat)
    requires Allowed(l, op)
    ensures var (r, a) := Apply(s, l, op, now);
      a == Panicked <==> UserPanics(s, l, op, now) || CallbackPanicked(s, l, r)
  {
    if SweepOp(op) {
      SweepOpPanicsExactly(s, l, op, now);
    } else {
      match op
      case Get(_) => LookupOutcome(s, l, op, now);
      case GetMut(_, _) => LookupOutcome(s, l, op, now);
      case GetOrSet(k, f, then_) =>
        FetchOutcome(s, l, k, f, now);
        if then_.Some? {
          FetchThenOutcome(s, l, k, f, then_.value, now);
        }
      case Set(k, v) => SetOutcome(s, l, k, v, now);
      case Remove(_) => RemovalOutcome(s, l, op, now);
      case RemoveEntry(_) => RemovalOutcome(s, l, op, now);
      case _ =>
    }
  }

  lemma SweepOpPanicsExactly(s: Setup, l: Ledger, op: Op, now: nat)
    requires Allowed(l, op) && SweepOp(op)
    ensures var (r, a) := Apply(s, l, op, now);
      a == Panicked <==> UserPanics(s, l, op, now) || CallbackPanicked(s, l, r)
  {
    match op
    case Evict(order) =>
      NeverBlows(s, l.store, order, KeepAll, now, 0);
      SweepReports(s, l, order, KeepAll, now);
    case Retain(order, keep) =>
      if Doomed(s, l.store, order, keep, now, 0).Some? {
        SweepReports(s, l, order, keep, now);
      }
    case ClearWithOnEvict(order) => ClearWithOutcome(s, l, order, now);
  }

  /** A lookup answers the live value, and evicts a stale entry, and only that. */
  lemma LookupOutcome(s: Setup, l: Ledger, op: Op, now: nat)
    requires op.Get? || op.GetMut?
    ensures var k, (r, a) := op.k, Apply(s, l, op, now);
      if Stale(s, l, k, now) then
        r.store == l.store - {k} && Evicts(l, r, [(k, l.store[k])]) && Answers(s, l, r, a, Found(None))
      else if k in l.store then
        && a == Found(Some(l.store[k])) && Evicts(l, r, []) && r.notified == l.notified
        && r.store == if op.GetMut? then l.store[k := op.left] else l.store
      else
        a == Found(None) && r.store == l.store && SameBooks(l, r)
  {
    var k := op.k;
    if Stale(s, l, k, now) {
      var m, batch := l.(misses := l.misses + 1), [(k, l.store[k])];
      OneKey(k, l.store[k]);
      ToldOutcome(s, l, Taken(m, batch), batch, Found(None));
    }
  }

  /**
   A removal takes the entry out and counts it, stale or live. `cache_remove` answers only a
   live value; `cache_remove_entry` answers the entry regardless of expiry: the answer is an
   entry exactly if that entry was evicted.
   */
  lemma RemovalOutcome(s: Setup, l: Ledger, op: Op, now: nat)
    requires op.Remove? || op.RemoveEntry?
    ensures var k, (r, a) := op.k, Apply(s, l, op, now);
      && r.store == l.store - {k}
      && Evicts(l, r, if k in l.store then [(k, l.store[k])] else [])
      && (op.Remove? ==>
           Answers(s, l, r, a, Found(if k in l.store && !Stale(s, l, k, now) then Some(l.store[k]) else None)))
      && (op.RemoveEntry? && CallbackPanicked(s, l, r) ==> a == Panicked)
      && (op.RemoveEntry? && !CallbackPanicked(s, l, r) ==>
           && a.Entry?
           && (a.entry == None <==> r.evicted == l.evicted)
           && (forall p :: a.entry == Some(p) <==> r.evicted == l.evicted + [p]))
  {
    var k := op.k;
    var (r, a) := Apply(s, l, op, now);
    if k in l.store {
      var batch := [(k, l.store[k])];
      OneKey(k, l.store[k]);
      var b := if op.Remove? then Found(Live(s, l.store, k, now)) else Entry(Some((k, l.store[k])));
      ToldOutcome(s, l, Taken(l, batch), batch, b);
      forall p | r.evicted == l.evicted + [p] ensures p == (k, l.store[k]) {
        assert r.evicted[|l.evicted|] == p;
      }
    } else {
      assert forall p :: |l.evicted + [p]| > |l.evicted|;
    }
  }

  /** `cache_set` puts the value in; a stale value it replaces is evicted, a live one is
      handed back. */
  lemma SetOutcome(s: Setup, l: Ledger, k: Key, v: Value, now: nat)
    ensures var (r, a) := Apply(s, l, Set(k, v), now);
      && r.store == l.store[k := v] && r.inserted == l.inserted + multiset{(k, v)}
      && r.dropped == l.dropped && r.written == l.written && r.overwritten == l.overwritten
      && if Stale(s, l, k, now) then
           && Evicts(l, r, [(k, l.store[k])]) && r.handedBack == l.handedBack
           && Answers(s, l, r, a, Found(None))
         else if k in l.store then
           && Evicts(l, r, []) && r.handedBack == l.handedBack + multiset{(k, l.store[k])}
           && a == Found(Some(l.store[k]))
         else
           Evicts(l, r, []) && r.handedBack == l.handedBack && a == Found(None)
  {
    if Stale(s, l, k, now) {
      ToldOutcome(s, l, Replaced(l, k, v), [(k, l.store[k])], Found(None));
    }
  }

  /** A get-or-set that finds a live value, or whose `f` yields none, leaves books and entries
      alone; one whose `f` yields a value puts it in, evicting a stale one. */
  lemma FetchOutcome(s: Setup, l: Ledger, k: Key, f: Thunk, now: nat)
    ensures var (r, a) := Apply(s, l, GetOrSet(k, f, None), now);
      if k in l.store && !Stale(s, l, k, now) then
        r.store == l.store && SameBooks(l, r) && a == Fetched(Keep(l.store[k]))
      else
        match f
        case Panics => r.store == l.store && SameBooks(l, r) && a == Panicked
        case Fails(e) => r.store == l.store && SameBooks(l, r) && a == Fetched(Skip(e))
        case Yields(v) =>
          && r.store == l.store[k := v] && r.inserted == l.inserted + multiset{(k, v)}
          && Evicts(l, r, if k in l.store then [(k, l.store[k])] else [])
          && r.handedBack == l.handedBack && r.dropped == l.dropped
          && Answers(s, l, r, a, Fetched(Keep(v)))
  {
    if Stale(s, l, k, now) && f.Yields? {
      var t := Replaced(l.(misses := l.misses + 1), k, f.value);
      ToldOutcome(s, l, t, [(k, l.store[k])], Fetched(Keep(f.value)));
    }
  }

  /** The caller's write through the reference changes its slot only, and happens exactly if
      the operation returned a reference. */
  lemma FetchThenOutcome(s: Setup, l: Ledger, k: Key, f: Thunk, w: Value, now: nat)
    ensures var (r, a) := Apply(s, l, GetOrSet(k, f, None), now);
      var (t, b) := Apply(s, l, GetOrSet(k, f, Some(w)), now);
      && a == b && t.evicted == r.evicted && t.notified == r.notified && t.inserted == r.inserted
      && t.store == if a.Fetched? && a.outcome.Keep? then r.store[k := w] else r.store
  {
    FetchOutcome(s, l, k, f, now);
  }

  /** It reports how many entries are gone, all of them evicted. */
  ghost predicate Reports(s: Setup, l: Ledger, r: Ledger, a: Answer) {
    && |r.evicted| + |r.store| == |l.evicted| + |l.store|
    && if CallbackPanicked(s, l, r) then a == Panicked else a.Count? && a.count + |r.store| == |l.store|
  }

  lemma SweepReports(s: Setup, l: Ledger, order: seq<Key>, keep: (nat, Key, Value) -> Verdict, now: nat)
    requires IsOrder(order, l.store) && Doomed(s, l.store, order, keep, now, 0).Some?
    ensures var (r, a) := Sweep(s, l, order, keep, now, true); Reports(s, l, r, a)
  {
    var batch := Doomed(s, l.store, order, keep, now, 0).value;
    SweepCounts(s, l, order, keep, now);
    ToldOutcome(s, l, Taken(l, batch), batch, Count(|batch|));
  }

  /** The `i`th entry is still there, unchanged, exactly if it is live and `keep` keeps it. */
  ghost predicate StaysIff(s: Setup, l: Ledger, r: Ledger, order: seq<Key>,
                           keep: (nat, Key, Value) -> Verdict, now: nat, i: nat)
    requires i < |order| && order[i] in l.store
  {
    var k := order[i];
    && (k in r.store <==> !Stale(s, l, k, now) && keep(i, k, l.store[k]) == Stay)
    && (k in r.store ==> r.store[k] == l.store[k])
  }

  lemma SweepStays(s: Setup, l: Ledger, order: seq<Key>, keep: (nat, Key, Value) -> Verdict, now: nat, i: nat)
    requires IsOrder(order, l.store) && Doomed(s, l.store, order, keep, now, 0).Some? && i < |order|
    ensures StaysIff(s, l, Sweep(s, l, order, keep, now, true).0, order, keep, now, i)
  {
    SweepIsExact(s, l, order, keep, now, true, i);
  }

  /** A sweep that completes its selection leaves exactly the live entries `keep` keeps. */
  lemma {:induction false} RetainOutcome(s: Setup, l: Ledger, order: seq<Key>,
                                         keep: (nat, Key, Value) -> Verdict, now: nat)
    requires IsOrder(order, l.store)
    requires forall j :: 0 <= j < |order| && !s.expired(l.store[order[j]], now) ==>
      keep(j, order[j], l.store[order[j]]) != Blow
    ensures var (r, a) := Apply(s, l, Retain(order, keep), now);
      && Reports(s, l, r, a)
      && forall i :: 0 <= i < |order| ==> StaysIff(s, l, r, order, keep, now, i)
  {
    NoBlow(s, l.store, order, keep, now, 0);
    SweepReports(s, l, order, keep, now);
    var r := Sweep(s, l, order, keep, now, true).0;
    forall i | 0 <= i < |order| ensures StaysIff(s, l, r, order, keep, now, i) {
      SweepStays(s, l, order, keep, now, i);
    }
  }

  lemma {:induction false} NoBlow(s: Setup, store: map<Key, Value>, order: seq<Key>,
                                  keep: (nat, Key, Value) -> Verdict, now: nat, n: nat)
    requires n <= |order| && forall j :: 0 <= j < |order| ==> order[j] in store
    requires forall j :: 0 <= j < |order| && !s.expired(store[order[j]], now) ==>
      keep(j, order[j], store[order[j]]) != Blow
    ensures Doomed(s, store, order, keep, now, n).Some?
    decreases |order| - n
  {
    if n < |order| {
      NoBlow(s, store, order, keep, now, n + 1);
    }
  }

  /** `evict` removes what is stale, reports how much that was, and keeps the rest. */
  lemma EvictOutcome(s: Setup, l: Ledger, order: seq<Key>, now: nat)
    requires IsOrder(order, l.store)
    ensures var (r, a) := Apply(s, l, Evict(order), now);
      && (forall k :: k in r.store <==> k in l.store && !Stale(s, l, k, now))
      && (forall k :: k in r.store ==> r.store[k] == l.store[k])
      && Reports(s, l, r, a)
  {
    EvictLeavesTheLive(s, l, order, now);
    NeverBlows(s, l.store, order, KeepAll, now, 0);
    SweepReports(s, l, order, KeepAll, now);
  }

  /** Clearing with notification evicts every entry, stale or live. */
  lemma ClearWithOutcome(s: Setup, l: Ledger, order: seq<Key>, now: nat)
    requires IsOrder(order, l.store)
    ensures var (r, a) := Apply(s, l, ClearWithOnEvict(order), now);
      && r.store == map[] && |r.evicted| == |l.evicted| + |l.store| && r.dropped == l.dropped
      && (forall k :: k in l.store ==> (k, l.store[k]) in r.evicted[|l.evicted|..])
      && Answers(s, l, r, a, Unit)
  {
    NeverBlows(s, l.store, order, KeepNone, now, 0);
    var batch := Doomed(s, l.store, order, KeepNone, now, 0).value;
    var r := Apply(s, l, ClearWithOnEvict(order), now).0;
    AllDoomed(s, l, order, now);
    ToldOutcome(s, l, Taken(l, batch), batch, Unit);
    assert r.evicted[|l.evicted|..] == batch;
  }

  /** A sweep that keeps nothing selects every entry. */
  lemma AllDoomed(s: Setup, l: Ledger, order: seq<Key>, now: nat)
    requires IsOrder(order, l.store) && Doomed(s, l.store, order, KeepNone, now, 0).Some?
    ensures var batch := Doomed(s, l.store, order, KeepNone, now, 0).value;
      && l.store - Keys(batch) == map[] && |batch| == |l.store|
      && forall k :: k in l.store ==> (k, l.store[k]) in batch
  {
    var batch := Doomed(s, l.store, order, KeepNone, now, 0).value;
    DoomedFrom(s, l.store, order, KeepNone, now, 0);
    TakenSize(l.store, batch);
    forall k | k in l.store ensures k in Keys(batch) && (k, l.store[k]) in batch {
      var i :| 0 <= i < |order| && order[i] == k;
      DoomedIffJudged(s, l.store, order, KeepNone, now, 0, i);
      KeysMembers(batch, k);
      var j :| 0 <= j < |batch| && batch[j].0 == k;
      assert batch[j] == (k, l.store[k]);
    }
    assert l.store - Keys(batch) == map[];
  }

  /** Clearing drops every entry without a word; resetting also restarts the counters. */
  lemma ClearOutcome(s: Setup, l: Ledger, op: Op, now: nat)
    requires op.Clear? || op.Reset? || op.ResetMetrics?
    ensures var (r, a) := Apply(s, l, op, now);
      && a == Unit && Evicts(l, r, []) && r.notified == l.notified && r.inserted == l.inserted
      && (op.ResetMetrics? ==> r.store == l.store && r.dropped == l.dropped)
      && (!op.ResetMetrics? ==> r.store == map[] && r.dropped == l.dropped + Contents(l.store))
      && (op.Clear? ==> r.hits == l.hits && r.misses == l.misses && r.evictions == l.evictions)
      && (!op.Clear? ==> r.hits == r.misses == r.evictions == 0)
  {
  }

  /**
   Reads change nothing but the counters. A status read shows what the map holds, stale or
   live, and says which, where `cache_peek` shows only what is live.
   */
  lemma ReadOutcome(s: Setup, l: Ledger, op: Op, now: nat)
    requires op.Peek? || op.Contains? || op.GetStatus? || op.PeekStatus?
    ensures var k, (r, a) := op.k, Apply(s, l, op, now);
      && r.store == l.store && SameBooks(l, r) && (!op.GetStatus? ==> r == l)
      && match op
         case Peek(_) => a == Found(if k in l.store && !Stale(s, l, k, now) then Some(l.store[k]) else None)
         case Contains(_) => a == Answer(k in l.store && !Stale(s, l, k, now))
         case _ =>
           && a.Status? && (a.expired <==> Stale(s, l, k, now))
           && a.value == if k in l.store then Some(l.store[k]) else None
  {
  }
}
