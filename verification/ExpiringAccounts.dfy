/**
 Conservation and panic safety of `ExpiringCache`, over every operation and every run.
 */
module ExpiringAccounts {
  import opened Basics
  import opened ExpiringModel

  // ---- Batches ------------------------------------------------------------------------------

  /** `batch` lists entries of `store`, each once. */
  ghost predicate From(batch: seq<Pair>, store: map<Key, Value>) {
    && (forall i :: 0 <= i < |batch| ==> batch[i].0 in store && store[batch[i].0] == batch[i].1)
    && (forall i, j :: 0 <= i < j < |batch| ==> batch[i].0 != batch[j].0)
  }

  lemma {:induction false} KeysMembers(batch: seq<Pair>, k: Key)
    ensures k in Keys(batch) <==> exists i :: 0 <= i < |batch| && batch[i].0 == k
  {
    if batch != [] {
      var tail := batch[1..];
      KeysMembers(tail, k);
      assert forall i :: 0 <= i < |tail| ==> tail[i] == batch[i + 1];
      if exists i :: 0 <= i < |batch| && batch[i].0 == k {
        var i :| 0 <= i < |batch| && batch[i].0 == k;
        assert i > 0 ==> tail[i - 1].0 == k;
      }
    }
  }

  lemma RemoveSize(store: map<Key, Value>, k: Key)
    requires k in store
    ensures |store - {k}| == |store| - 1
  {
    assert (store - {k}).Keys == store.Keys - {k};
  }

  // ---- Entries as multisets -------------------------------------------------------------------

  lemma InsertEntry(store: map<Key, Value>, k: Key, v: Value)
    requires k !in store
    ensures Contents(store[k := v]) == Contents(store) + multiset{(k, v)}
  {
    var more := store[k := v];
    var was, is_ := set j | j in store :: (j, store[j]), set j | j in more :: (j, more[j]);
    forall j | j in more ensures (j, more[j]) in was + {(k, v)} {
      assert j in store || j == k;
    }
    forall j | j in store ensures (j, store[j]) in is_ {
      assert j in more && more[j] == store[j];
    }
    assert k in more && (k, more[k]) in is_;
    assert is_ == was + {(k, v)};
  }

  lemma RemoveEntry(store: map<Key, Value>, k: Key)
    requires k in store
    ensures Contents(store) == Contents(store - {k}) + multiset{(k, store[k])}
  {
    assert (store - {k})[k := store[k]] == store;
    InsertEntry(store - {k}, k, store[k]);
  }

  lemma ReplaceEntry(store: map<Key, Value>, k: Key, v: Value)
    requires k in store
    ensures Contents(store[k := v]) + multiset{(k, store[k])} == Contents(store) + multiset{(k, v)}
  {
    assert (store - {k})[k := v] == store[k := v];
    InsertEntry(store - {k}, k, v);
    RemoveEntry(store, k);
  }

  lemma {:induction false} TakenEntries(store: map<Key, Value>, batch: seq<Pair>)
    requires From(batch, store)
    ensures Contents(store) == Contents(store - Keys(batch)) + multiset(batch)
    decreases |batch|
  {
    if batch == [] {
      assert store - Keys(batch) == store;
    } else {
      var p, tail := batch[0], batch[1..];
      TakenFirst(store, batch);
      RemoveEntry(store, p.0);
      TakenEntries(store - {p.0}, tail);
      Regroup(Contents(store), Contents(store - {p.0}), Contents(store - {p.0} - Keys(tail)), p, tail);
    }
  }

  /** A batch is taken one entry at a time. */
  lemma TakenFirst(store: map<Key, Value>, batch: seq<Pair>)
    requires From(batch, store) && batch != []
    ensures batch == [batch[0]] + batch[1..]
    ensures batch[0].0 in store && store[batch[0].0] == batch[0].1 && From(batch[1..], store - {batch[0].0})
    ensures store - Keys(batch) == store - {batch[0].0} - Keys(batch[1..])
  {
    var tail := batch[1..];
    assert forall i :: 0 <= i < |tail| ==> tail[i] == batch[i + 1];
  }

  lemma Regroup(all: multiset<Pair>, rest: multiset<Pair>, kept: multiset<Pair>, p: Pair, tail: seq<Pair>)
    requires all == rest + multiset{p} && rest == kept + multiset(tail)
    ensures all == kept + multiset([p] + tail)
  {
  }

  lemma {:induction false} ContentsSize(store: map<Key, Value>)
    ensures |Contents(store)| == |store|
  {
    if k :| k in store {
      RemoveSize(store, k);
      RemoveEntry(store, k);
      ContentsSize(store - {k});
    } else {
      assert store == map[] && Contents(store) == multiset{};
    }
  }

  lemma TakenSize(store: map<Key, Value>, batch: seq<Pair>)
    requires From(batch, store)
    ensures |store - Keys(batch)| == |store| - |batch|
  {
    TakenEntries(store, batch);
    ContentsSize(store);
    ContentsSize(store - Keys(batch));
    assert |multiset(batch)| == |batch|;
  }

  lemma TakenBalances(l: Ledger, batch: seq<Pair>)
    requires Balanced(l) && From(batch, l.store)
    ensures Balanced(Taken(l, batch))
  {
    var r := Taken(l, batch);
    TakenEntries(l.store, batch);
    Exchange(l, r, multiset{}, multiset(batch));
  }

  /** The store traded `gone` for `come`, and both were booked. */
  lemma Exchange(l: Ledger, r: Ledger, come: multiset<Pair>, gone: multiset<Pair>)
    requires Conserved(l)
    requires Contents(r.store) + gone == Contents(l.store) + come
    requires r.inserted + multiset(r.written) == l.inserted + multiset(l.written) + come
    requires Went(r) == Went(l) + gone
    ensures Conserved(r)
  {
    var was, is_ := Contents(l.store), Contents(r.store);
    forall p ensures (r.inserted + multiset(r.written))[p] == (Went(r) + is_)[p] {
      assert (is_ + gone)[p] == (was + come)[p];
    }
  }

  lemma InsertedBalances(l: Ledger, k: Key, v: Value)
    requires Balanced(l) && k !in l.store
    ensures Balanced(Inserted(l, k, v))
  {
    InsertEntry(l.store, k, v);
    Exchange(l, Inserted(l, k, v), multiset{(k, v)}, multiset{});
  }

  lemma SwappedBalances(l: Ledger, k: Key, v: Value)
    requires Balanced(l) && k in l.store
    ensures Balanced(Swapped(l, k, v))
  {
    ReplaceEntry(l.store, k, v);
    Exchange(l, Swapped(l, k, v), multiset{(k, v)}, multiset{(k, l.store[k])});
  }

  lemma RewrittenBalances(l: Ledger, k: Key, v: Value)
    requires Balanced(l) && k in l.store
    ensures Balanced(Rewritten(l, k, v))
  {
    ReplaceEntry(l.store, k, v);
    Exchange(l, Rewritten(l, k, v), multiset{(k, v)}, multiset{(k, l.store[k])});
  }

  lemma ReplacedBalances(l: Ledger, k: Key, v: Value)
    requires Balanced(l) && k in l.store
    ensures Balanced(Replaced(l, k, v))
  {
    ReplaceEntry(l.store, k, v);
    Exchange(l, Replaced(l, k, v), multiset{(k, v)}, multiset{(k, l.store[k])});
  }

  /** `Notify` calls back for a prefix of the batch: all of it, unless a call panics. */
  lemma {:induction false} NotifyPrefix(s: Setup, l: Ledger, batch: seq<Pair>) returns (j: nat)
    ensures j <= |batch|
    ensures Notify(s, l, batch).0 == l.(notified := l.notified + batch[..j])
    ensures !s.callback ==> j == 0 && !Notify(s, l, batch).1
    ensures s.callback && !Notify(s, l, batch).1 ==> j == |batch|
    ensures Notify(s, l, batch).1 <==> 0 < j && s.panics(|l.notified| + j - 1)
    ensures forall n :: |l.notified| <= n < |l.notified| + j - 1 ==> !s.panics(n)
    decreases |batch|
  {
    if !s.callback || batch == [] {
      j := 0;
      assert l.notified + batch[..j] == l.notified;
    } else {
      var called := l.(notified := l.notified + [batch[0]]);
      if s.panics(|l.notified|) {
        j := 1;
      } else {
        var i := NotifyPrefix(s, called, batch[1..]);
        j := i + 1;
        assert called.notified + batch[1..][..i] == l.notified + batch[..j];
      }
    }
  }

  lemma PrefixCounts(older: seq<Pair>, batch: seq<Pair>, j: nat, told: seq<Pair>)
    requires j <= |batch| && multiset(told) <= multiset(older)
    ensures multiset(told + batch[..j]) <= multiset(older + batch)
  {
    assert older + batch == (older + batch[..j]) + batch[j..];
  }

  /** Notifying entries that have just been counted keeps the books. */
  lemma ToldBalances(s: Setup, l: Ledger, older: seq<Pair>, batch: seq<Pair>, a: Answer)
    requires Balanced(l) && l.evicted == older + batch && multiset(l.notified) <= multiset(older)
    requires AllTold(s, l.(evicted := older))
    ensures var r := Told(s, l, batch, a).0; Balanced(r) && AllTold(s, r)
  {
    var j := NotifyPrefix(s, l, batch);
    var r := Notify(s, l, batch).0;
    PrefixCounts(older, batch, j, l.notified);
    if s.callback && forall n :: 0 <= n < |r.notified| ==> !s.panics(n) {
      assert forall n :: 0 <= n < |l.notified| ==> !s.panics(n);
      assert batch[..|batch|] == batch;
    }
  }

  /** A whole eviction: out of the store, counted, notified. */
  lemma EvictionBalances(s: Setup, l: Ledger, batch: seq<Pair>, a: Answer)
    requires Balanced(l) && AllTold(s, l) && From(batch, l.store)
    ensures var r := Told(s, Taken(l, batch), batch, a).0; Balanced(r) && AllTold(s, r)
  {
    TakenBalances(l, batch);
    ToldBalances(s, Taken(l, batch), l.evicted, batch, a);
  }

  lemma ReplacementBalances(s: Setup, l: Ledger, k: Key, v: Value, a: Answer)
    requires Balanced(l) && AllTold(s, l) && k in l.store
    ensures var r := Told(s, Replaced(l, k, v), [(k, l.store[k])], a).0; Balanced(r) && AllTold(s, r)
  {
    ReplacedBalances(l, k, v);
    ToldBalances(s, Replaced(l, k, v), l.evicted, [(k, l.store[k])], a);
  }

  /** What a sweep selects is in the store, at or after its position in the order. */
  lemma {:induction false} DoomedEntries(s: Setup, store: map<Key, Value>, order: seq<Key>,
                                         keep: (nat, Key, Value) -> Verdict, now: nat, n: nat)
    requires n <= |order| && IsOrder(order, store) && Doomed(s, store, order, keep, now, n).Some?
    ensures var batch := Doomed(s, store, order, keep, now, n).value;
      forall j :: 0 <= j < |batch| ==>
        batch[j].0 in order[n..] && batch[j].0 in store && store[batch[j].0] == batch[j].1
    decreases |order| - n
  {
    if n < |order| {
      DoomedEntries(s, store, order, keep, now, n + 1);
      assert order[n..] == [order[n]] + order[n + 1..];
    }
  }

  /** It is selected once. */
  lemma {:induction false} DoomedFrom(s: Setup, store: map<Key, Value>, order: seq<Key>,
                                      keep: (nat, Key, Value) -> Verdict, now: nat, n: nat)
    requires n <= |order| && IsOrder(order, store) && Doomed(s, store, order, keep, now, n).Some?
    ensures From(Doomed(s, store, order, keep, now, n).value, store)
    decreases |order| - n
  {
    DoomedEntries(s, store, order, keep, now, n);
    if n < |order| {
      DoomedFrom(s, store, order, keep, now, n + 1);
      DoomedEntries(s, store, order, keep, now, n + 1);
      assert order[n] !in order[n + 1..];
    }
  }

  /** It is selected exactly if it is judged to go. */
  lemma {:induction false} DoomedIffJudged(s: Setup, store: map<Key, Value>, order: seq<Key>,
                                           keep: (nat, Key, Value) -> Verdict, now: nat, n: nat, i: nat)
    requires n <= i < |order| && IsOrder(order, store) && Doomed(s, store, order, keep, now, n).Some?
    ensures order[i] in Keys(Doomed(s, store, order, keep, now, n).value)
       <==> Judge(s, keep, i, order[i], store[order[i]], now) == Go
    ensures Judge(s, keep, i, order[i], store[order[i]], now) != Blow
    decreases |order| - n
  {
    var rest := Doomed(s, store, order, keep, now, n + 1).value;
    assert Judge(s, keep, n, order[n], store[order[n]], now) == Go ==>
      Doomed(s, store, order, keep, now, n).value[1..] == rest;
    if i == n {
      DoomedEntries(s, store, order, keep, now, n + 1);
      assert order[n] !in order[n + 1..];
      KeysMembers(rest, order[n]);
    } else {
      DoomedIffJudged(s, store, order, keep, now, n + 1, i);
    }
  }

  // ---- Every operation ------------------------------------------------------------------------

  lemma ApplyBalances(s: Setup, l: Ledger, op: Op, now: nat)
    requires Balanced(l) && AllTold(s, l) && Allowed(l, op)
    ensures var r := Apply(s, l, op, now).0; Balanced(r) && AllTold(s, r)
  {
    if KeyOp(op) {
      KeyOpBalances(s, l, op, now);
    } else if SweepOp(op) {
      SweepOpBalances(s, l, op, now);
    } else {
      OtherOpBalances(s, l, op, now);
    }
  }

  lemma OtherOpBalances(s: Setup, l: Ledger, op: Op, now: nat)
    requires Balanced(l) && AllTold(s, l) && Allowed(l, op) && !KeyOp(op) && !SweepOp(op)
    ensures var r := Apply(s, l, op, now).0; Balanced(r) && AllTold(s, r)
  {
    if op.Clear? || op.Reset? {
      EmptiedBalances(l);
    }
  }

  lemma EmptiedBalances(l: Ledger)
    requires Balanced(l)
    ensures Balanced(Emptied(l))
  {
    assert Contents(map[]) == multiset{};
    Exchange(l, Emptied(l), multiset{}, Contents(l.store));
  }

  /** The operations on one key that may evict it. */
  predicate KeyOp(op: Op) {
    op.Get? || op.GetMut? || op.GetOrSet? || op.Set? || op.Remove? || op.RemoveEntry?
  }

  predicate SweepOp(op: Op) {
    op.Evict? || op.Retain? || op.ClearWithOnEvict?
  }

  lemma KeyOpBalances(s: Setup, l: Ledger, op: Op, now: nat)
    requires Balanced(l) && AllTold(s, l) && KeyOp(op)
    ensures var r := Apply(s, l, op, now).0; Balanced(r) && AllTold(s, r)
  {
    match op
    case Get(k) => LookupBalances(s, l, k, now, None);
    case GetMut(k, left) => LookupBalances(s, l, k, now, Some(left));
    case GetOrSet(k, f, then_) =>
      GetOrSetBalances(s, l, k, f, now);
      LeftBalances(s, GetOrSetWith(s, l, k, f, now).0, k, then_);
    case Set(k, v) => SetBalances(s, l, k, v, now);
    case Remove(k) =>
      if k in l.store {
        EvictionBalances(s, l, [(k, l.store[k])], Found(Live(s, l.store, k, now)));
      }
    case RemoveEntry(k) =>
      if k in l.store {
        EvictionBalances(s, l, [(k, l.store[k])], Entry(Some((k, l.store[k]))));
      }
  }

  lemma SweepOpBalances(s: Setup, l: Ledger, op: Op, now: nat)
    requires Balanced(l) && AllTold(s, l) && Allowed(l, op) && SweepOp(op)
    ensures var r := Apply(s, l, op, now).0; Balanced(r) && AllTold(s, r)
  {
    var keep := match op
      case Evict(_) => KeepAll
      case Retain(_, keep) => keep
      case _ => KeepNone;
    SweepBalances(s, l, op.order, keep, now, !op.ClearWithOnEvict?);
  }

  lemma GetOrSetBalances(s: Setup, l: Ledger, k: Key, f: Thunk, now: nat)
    requires Balanced(l) && AllTold(s, l)
    ensures var r := GetOrSetWith(s, l, k, f, now).0; Balanced(r) && AllTold(s, r)
  {
    var m := l.(misses := l.misses + 1);
    if Live(s, l.store, k, now).None? && f.Yields? {
      if k in l.store {
        assert GetOrSetWith(s, l, k, f, now).0
            == Told(s, Replaced(m, k, f.value), [(k, l.store[k])], Fetched(Keep(f.value))).0;
        ReplacementBalances(s, m, k, f.value, Fetched(Keep(f.value)));
      } else {
        InsertedBalances(m, k, f.value);
      }
    }
  }

  lemma LeftBalances(s: Setup, l: Ledger, k: Key, left: Option<Value>)
    requires Balanced(l) && AllTold(s, l)
    ensures k in l.store ==> Balanced(Left(l, k, left)) && AllTold(s, Left(l, k, left))
  {
    if k in l.store && left.Some? {
      RewrittenBalances(l, k, left.value);
    }
  }

  lemma SetBalances(s: Setup, l: Ledger, k: Key, v: Value, now: nat)
    requires Balanced(l) && AllTold(s, l)
    ensures var r := SetTo(s, l, k, v, now).0; Balanced(r) && AllTold(s, r)
  {
    if k !in l.store {
      InsertedBalances(l, k, v);
    } else if s.expired(l.store[k], now) {
      ReplacementBalances(s, l, k, v, Found(None));
    } else {
      SwappedBalances(l, k, v);
    }
  }

  lemma LookupBalances(s: Setup, l: Ledger, k: Key, now: nat, left: Option<Value>)
    requires Balanced(l) && AllTold(s, l)
    ensures var r := Lookup(s, l, k, now, left).0; Balanced(r) && AllTold(s, r)
  {
    if k in l.store {
      if s.expired(l.store[k], now) {
        var m, batch := l.(misses := l.misses + 1), [(k, l.store[k])];
        assert Lookup(s, l, k, now, left).0 == Told(s, Taken(m, batch), batch, Found(None)).0;
        EvictionBalances(s, m, batch, Found(None));
      } else {
        LeftBalances(s, l.(hits := l.hits + 1), k, left);
      }
    }
  }

  lemma SweepBalances(s: Setup, l: Ledger, order: seq<Key>, keep: (nat, Key, Value) -> Verdict, now: nat,
                      counting: bool)
    requires Balanced(l) && AllTold(s, l) && IsOrder(order, l.store)
    ensures var r := Sweep(s, l, order, keep, now, counting).0; Balanced(r) && AllTold(s, r)
  {
    if Doomed(s, l.store, order, keep, now, 0).Some? {
      DoomedFrom(s, l.store, order, keep, now, 0);
      var batch := Doomed(s, l.store, order, keep, now, 0).value;
      EvictionBalances(s, l, batch, if counting then Count(|batch|) else Unit);
    }
  }

  // ---- Every run --------------------------------------------------------------------------------

  /** A cache life: operations, each at an instant. */
  type Life = seq<(Op, nat)>

  ghost function Run(s: Setup, life: Life): Option<Ledger> {
    if life == [] then Some(FRESH)
    else
      match Run(s, life[..|life| - 1])
      case None => None
      case Some(l) =>
        var (op, now) := life[|life| - 1];
        if Allowed(l, op) then Some(Apply(s, l, op, now).0) else None
  }

  /**
   Conservation: in every life, panics included, the entries ever inserted, each as last
   rewritten by the holder of a mutable reference, are exactly those still stored, those
   counted as evicted, those handed back live and those dropped by clear or reset, as
   multisets and hence in number; and a configured callback that never panics is called
   exactly once per counted eviction, with that entry, in that order.
   */
  lemma {:induction false} Conservation(s: Setup, life: Life)
    requires Run(s, life).Some?
    ensures var l := Run(s, life).value;
      && l.inserted + multiset(l.written)
         == multiset(l.evicted) + l.handedBack + l.dropped + multiset(l.overwritten) + Contents(l.store)
      && |l.inserted| == |l.store| + l.counted + |l.handedBack| + |l.dropped|
      && Balanced(l) && AllTold(s, l)
      && (s.callback && (forall n :: !s.panics(n)) ==> l.notified == l.evicted && |l.notified| == l.counted)
  {
    if life != [] {
      Conservation(s, life[..|life| - 1]);
      var l := Run(s, life[..|life| - 1]).value;
      ApplyBalances(s, l, life[|life| - 1].0, life[|life| - 1].1);
    }
    BalancedCounts(Run(s, life).value);
  }

  lemma BalancedCounts(l: Ledger)
    requires Balanced(l)
    ensures |l.inserted| == |l.store| + l.counted + |l.handedBack| + |l.dropped|
  {
    assert |l.inserted + multiset(l.written)| == |Went(l) + Contents(l.store)|;
    ContentsSize(l.store);
  }

  // ---- What sweeps and lookups clear out ----------------------------------------------------------

  /** Told or not, only the list of notified entries changes. */
  lemma ToldFrame(s: Setup, l: Ledger, batch: seq<Pair>, a: Answer)
    ensures Told(s, l, batch, a).0 == l.(notified := Told(s, l, batch, a).0.notified)
  {
    var j := NotifyPrefix(s, l, batch);
  }

  /**
   A sweep whose selection does not panic leaves exactly the entries judged to stay, values
   unchanged, and evicts exactly the rest, whether or not the callback then panics.
   */
  lemma SweepIsExact(s: Setup, l: Ledger, order: seq<Key>, keep: (nat, Key, Value) -> Verdict, now: nat,
                     counting: bool, i: nat)
    requires IsOrder(order, l.store) && Doomed(s, l.store, order, keep, now, 0).Some? && i < |order|
    ensures var r := Sweep(s, l, order, keep, now, counting).0;
      && (order[i] in r.store <==> Judge(s, keep, i, order[i], l.store[order[i]], now) == Stay)
      && (order[i] in r.store ==> r.store[order[i]] == l.store[order[i]])
  {
    var batch := Doomed(s, l.store, order, keep, now, 0).value;
    DoomedIffJudged(s, l.store, order, keep, now, 0, i);
    ToldFrame(s, Taken(l, batch), batch, if counting then Count(|batch|) else Unit);
  }

  /** It reports, and counts as evicted, as many entries as are missing afterwards. */
  lemma SweepCounts(s: Setup, l: Ledger, order: seq<Key>, keep: (nat, Key, Value) -> Verdict, now: nat)
    requires IsOrder(order, l.store) && Doomed(s, l.store, order, keep, now, 0).Some?
    ensures var (r, a) := Sweep(s, l, order, keep, now, true);
      && |r.evicted| - |l.evicted| == |l.store| - |r.store|
      && (a == Panicked || (a.Count? && a.count + |r.store| == |l.store|))
  {
    var batch := Doomed(s, l.store, order, keep, now, 0).value;
    DoomedFrom(s, l.store, order, keep, now, 0);
    TakenSize(l.store, batch);
    ToldFrame(s, Taken(l, batch), batch, Count(|batch|));
  }

  /** `evict` removes every expired entry and nothing else: what is left is what is live. */
  lemma EvictLeavesTheLive(s: Setup, l: Ledger, order: seq<Key>, now: nat)
    requires IsOrder(order, l.store)
    ensures Apply(s, l, Evict(order), now).0.store == LiveEntries(s, l.store, now)
  {
    NeverBlows(s, l.store, order, KeepAll, now, 0);
    var batch := Doomed(s, l.store, order, KeepAll, now, 0).value;
    ToldFrame(s, Taken(l, batch), batch, Count(|batch|));
    forall k | k in l.store
      ensures k in Apply(s, l, Evict(order), now).0.store <==> !s.expired(l.store[k], now)
    {
      var i :| 0 <= i < |order| && order[i] == k;
      SweepIsExact(s, l, order, KeepAll, now, true, i);
    }
  }

  /** A lookup never leaves an expired entry at its key behind, even if the callback panics. */
  lemma LookupClearsExpired(s: Setup, l: Ledger, op: Op, now: nat)
    requires op.Get? || op.GetMut?
    ensures var r := Apply(s, l, op, now).0;
      op.k in r.store <==> op.k in l.store && !s.expired(l.store[op.k], now)
  {
    var k := op.k;
    if k in l.store && s.expired(l.store[k], now) {
      var batch := [(k, l.store[k])];
      assert k in Keys(batch);
      ToldFrame(s, Taken(l.(misses := l.misses + 1), batch), batch, Found(None));
    }
  }

  // ---- Every entry is accounted for -----------------------------------------------------------------

  /** `op` itself puts `v` at `k`. */
  predicate Puts(op: Op, k: Key, v: Value) {
    || (op.Set? && op.k == k && op.v == v)
    || (op.GetOrSet? && op.k == k && op.f.Yields? && (op.f.value == v || op.then_ == Some(v)))
  }

  /** The caller of `op` leaves `v` at `k` through a mutable reference. */
  predicate Leaves(op: Op, k: Key, v: Value) {
    || (op.GetMut? && op.k == k && op.left == v)
    || (op.GetOrSet? && op.k == k && op.then_ == Some(v))
  }

  /** `p` was in the store and has left its slot, which is empty or has what `op` put there. */
  ghost predicate Gone(l: Ledger, r: Ledger, op: Op, p: Pair) {
    && p.0 in l.store && l.store[p.0] == p.1
    && (p.0 in r.store ==> Puts(op, p.0, r.store[p.0]))
  }

  /**
   What `op` evicts was in the store and is out of it, each entry once; what left the store
   was evicted, unless `op` clears; everything else is where it was.
   */
  ghost predicate Accounted(l: Ledger, r: Ledger, op: Op) {
    && l.evicted <= r.evicted && r.counted - l.counted == |r.evicted| - |l.evicted|
    && (forall j :: |l.evicted| <= j < |r.evicted| ==> Gone(l, r, op, r.evicted[j]))
    && (forall i, j :: |l.evicted| <= i < j < |r.evicted| ==> r.evicted[i].0 != r.evicted[j].0)
    && (forall k :: k in l.store && k !in r.store ==>
         op.Clear? || op.Reset? || (k, l.store[k]) in r.evicted[|l.evicted|..])
    && (forall k :: k in r.store ==>
         || (k in l.store && r.store[k] == l.store[k])
         || Puts(op, k, r.store[k]) || Leaves(op, k, r.store[k]))
  }

  lemma TakenAccounted(l: Ledger, m: Ledger, batch: seq<Pair>, op: Op)
    requires From(batch, l.store) && m == l.(misses := m.misses)
    ensures Accounted(l, Taken(m, batch), op)
  {
    var r := Taken(m, batch);
    forall k ensures k in Keys(batch) <==> exists i :: 0 <= i < |batch| && batch[i].0 == k {
      KeysMembers(batch, k);
    }
    assert r.evicted[|l.evicted|..] == batch;
    forall j | |l.evicted| <= j < |r.evicted| ensures Gone(l, r, op, r.evicted[j]) {
      assert r.evicted[j] == batch[j - |l.evicted|];
    }
    forall k | k in l.store && k !in r.store ensures (k, l.store[k]) in batch {
      var i :| 0 <= i < |batch| && batch[i].0 == k;
      assert batch[i] == (k, l.store[k]);
    }
  }

  lemma ReplacedAccounted(l: Ledger, m: Ledger, k: Key, v: Value, op: Op)
    requires k in l.store && Puts(op, k, v) && m == l.(misses := m.misses)
    ensures Accounted(l, Replaced(m, k, v), op)
  {
  }

  /** Notifying touches neither the store nor what is evicted. */
  lemma ToldAccounted(s: Setup, l: Ledger, t: Ledger, batch: seq<Pair>, a: Answer, op: Op)
    requires Accounted(l, t, op)
    ensures Accounted(l, Told(s, t, batch, a).0, op)
  {
    ToldFrame(s, t, batch, a);
    var r := Told(s, t, batch, a).0;
    forall j | |l.evicted| <= j < |r.evicted| ensures Gone(l, r, op, r.evicted[j]) {
      assert Gone(l, t, op, t.evicted[j]);
    }
  }

  /**
   Whatever operation, panicking or not: the entries it evicts are out of their slots, and
   no entry leaves the store without being counted among the evicted, except by a clear.
   */
  lemma EveryEntryAccounted(s: Setup, l: Ledger, op: Op, now: nat)
    requires Allowed(l, op)
    ensures Accounted(l, Apply(s, l, op, now).0, op)
  {
    if KeyOp(op) {
      KeyOpAccounted(s, l, op, now);
    } else if SweepOp(op) {
      SweepOpAccounted(s, l, op, now);
    }
  }

  lemma SweepOpAccounted(s: Setup, l: Ledger, op: Op, now: nat)
    requires Allowed(l, op) && SweepOp(op)
    ensures Accounted(l, Apply(s, l, op, now).0, op)
  {
    match op
    case Evict(order) => SweepAccounted(s, l, order, KeepAll, now, true, op);
    case Retain(order, keep) => SweepAccounted(s, l, order, keep, now, true, op);
    case ClearWithOnEvict(order) => SweepAccounted(s, l, order, KeepNone, now, false, op);
  }

  lemma KeyOpAccounted(s: Setup, l: Ledger, op: Op, now: nat)
    requires KeyOp(op)
    ensures Accounted(l, Apply(s, l, op, now).0, op)
  {
    match op
    case Get(k) => LookupAccounted(s, l, op, None, now);
    case GetMut(k, left) => LookupAccounted(s, l, op, Some(left), now);
    case GetOrSet(k, f, then_) => GetOrSetAccounted(s, l, op, now);
    case Set(k, v) =>
      if k in l.store {
        ReplacedAccounted(l, l, k, v, op);
        ToldAccounted(s, l, Replaced(l, k, v), [(k, l.store[k])], Found(None), op);
      }
    case Remove(k) =>
      if k in l.store {
        TakenAccounted(l, l, [(k, l.store[k])], op);
        ToldAccounted(s, l, Taken(l, [(k, l.store[k])]), [(k, l.store[k])], Found(Live(s, l.store, k, now)), op);
      }
    case RemoveEntry(k) =>
      if k in l.store {
        TakenAccounted(l, l, [(k, l.store[k])], op);
        ToldAccounted(s, l, Taken(l, [(k, l.store[k])]), [(k, l.store[k])], Entry(Some((k, l.store[k]))), op);
      }
  }

  lemma LookupAccounted(s: Setup, l: Ledger, op: Op, left: Option<Value>, now: nat)
    requires (op.Get? && left.None?) || (op.GetMut? && left == Some(op.left))
    ensures Accounted(l, Lookup(s, l, op.k, now, left).0, op)
  {
    var k := op.k;
    if k in l.store && s.expired(l.store[k], now) {
      var batch, m := [(k, l.store[k])], l.(misses := l.misses + 1);
      assert Lookup(s, l, k, now, left).0 == Told(s, Taken(m, batch), batch, Found(None)).0;
      TakenAccounted(l, m, batch, op);
      ToldAccounted(s, l, Taken(m, batch), batch, Found(None), op);
    } else {
      NothingGone(l, Lookup(s, l, k, now, left).0, op);
    }
  }

  lemma NothingGone(l: Ledger, r: Ledger, op: Op)
    requires r.evicted == l.evicted && r.counted == l.counted
    requires forall k :: k in l.store ==> k in r.store
    requires forall k :: k in r.store ==>
      (k in l.store && r.store[k] == l.store[k]) || Leaves(op, k, r.store[k])
    ensures Accounted(l, r, op)
  {
  }

  lemma GetOrSetAccounted(s: Setup, l: Ledger, op: Op, now: nat)
    requires op.GetOrSet?
    ensures Accounted(l, GetOrSetThen(s, l, op.k, op.f, op.then_, now).0, op)
  {
    var k := op.k;
    if k in l.store && op.f.Yields? && s.expired(l.store[k], now) {
      var m := l.(misses := l.misses + 1);
      ReplacedAccounted(l, m, k, op.f.value, op);
      ToldAccounted(s, l, Replaced(m, k, op.f.value), [(k, l.store[k])], Fetched(Keep(op.f.value)), op);
    }
    LeftAccounted(l, GetOrSetWith(s, l, k, op.f, now).0, op);
  }

  /** The caller's write to its slot changes nothing else. */
  lemma LeftAccounted(l: Ledger, r: Ledger, op: Op)
    requires op.GetOrSet? && Accounted(l, r, op)
    requires |l.evicted| < |r.evicted| ==> op.f.Yields?
    ensures op.k in r.store ==> Accounted(l, Left(r, op.k, op.then_), op)
  {
    if op.k in r.store {
      var t := Left(r, op.k, op.then_);
      forall j | |l.evicted| <= j < |t.evicted| ensures Gone(l, t, op, t.evicted[j]) {
        assert Gone(l, r, op, r.evicted[j]);
      }
    }
  }

  lemma SweepAccounted(s: Setup, l: Ledger, order: seq<Key>, keep: (nat, Key, Value) -> Verdict, now: nat,
                       counting: bool, op: Op)
    requires IsOrder(order, l.store)
    ensures Accounted(l, Sweep(s, l, order, keep, now, counting).0, op)
  {
    if Doomed(s, l.store, order, keep, now, 0).Some? {
      var batch := Doomed(s, l.store, order, keep, now, 0).value;
      DoomedFrom(s, l.store, order, keep, now, 0);
      TakenAccounted(l, l, batch, op);
      ToldAccounted(s, l, Taken(l, batch), batch, if counting then Count(|batch|) else Unit, op);
    }
  }

  // ---- Metrics ------------------------------------------------------------------------------------

  /** The operations that record a hit or a miss; peeks, `contains` and iteration record none. */
  predicate Metered(op: Op) {
    op.Get? || op.GetMut? || op.GetOrSet? || op.GetStatus?
  }

  /** Metered lookups since the last metrics reset that found, or did not find, a live value. */
  ghost function Lookups(s: Setup, life: Life, found: bool): nat {
    if life == [] || Run(s, life).None? then 0
    else
      var before := life[..|life| - 1];
      var (op, now) := life[|life| - 1];
      if op.Reset? || op.ResetMetrics? then 0
      else
        Lookups(s, before, found)
        + if Metered(op) && Live(s, Run(s, before).value.store, op.k, now).Some? == found then 1 else 0
  }

  /** Evictions since the last metrics reset. */
  ghost function RecentEvictions(s: Setup, life: Life): int {
    if life == [] || Run(s, life).None? then 0
    else
      var before := life[..|life| - 1];
      var (op, now) := life[|life| - 1];
      if op.Reset? || op.ResetMetrics? then 0
      else RecentEvictions(s, before) + |Run(s, life).value.evicted| - |Run(s, before).value.evicted|
  }

  /** The counters moved as if `op` found its key live, or did not. */
  ghost predicate Meters(s: Setup, l: Ledger, r: Ledger, op: Op, now: nat) {
    var live := Metered(op) && Live(s, l.store, op.k, now).Some?;
    && r.hits == l.hits + (if live then 1 else 0)
    && r.misses == l.misses + (if Metered(op) && !live then 1 else 0)
    && r.evictions - l.evictions == |r.evicted| - |l.evicted|
  }

  /** What one operation adds to the counters. */
  lemma ApplyMeters(s: Setup, l: Ledger, op: Op, now: nat)
    requires Allowed(l, op) && !op.Reset? && !op.ResetMetrics?
    ensures Meters(s, l, Apply(s, l, op, now).0, op, now)
  {
    if KeyOp(op) {
      KeyOpMeters(s, l, op, now);
    } else if SweepOp(op) {
      SweepOpMeters(s, l, op, now);
    }
  }

  lemma SweepOpMeters(s: Setup, l: Ledger, op: Op, now: nat)
    requires Allowed(l, op) && SweepOp(op)
    ensures Meters(s, l, Apply(s, l, op, now).0, op, now)
  {
    match op
    case Evict(order) => SweepMeters(s, l, order, KeepAll, now, true);
    case Retain(order, keep) => SweepMeters(s, l, order, keep, now, true);
    case ClearWithOnEvict(order) => SweepMeters(s, l, order, KeepNone, now, false);
  }

  lemma KeyOpMeters(s: Setup, l: Ledger, op: Op, now: nat)
    requires KeyOp(op)
    ensures Meters(s, l, Apply(s, l, op, now).0, op, now)
  {
    match op
    case Get(k) => LookupMeters(s, l, op, None, now);
    case GetMut(k, left) => LookupMeters(s, l, op, Some(left), now);
    case GetOrSet(k, f, then_) => FetchMeters(s, l, k, f, then_, now);
    case Set(k, v) =>
      if k in l.store {
        ToldFrame(s, Replaced(l, k, v), [(k, l.store[k])], Found(None));
      }
    case Remove(k) =>
      if k in l.store {
        ToldFrame(s, Taken(l, [(k, l.store[k])]), [(k, l.store[k])], Found(Live(s, l.store, k, now)));
      }
    case RemoveEntry(k) =>
      if k in l.store {
        ToldFrame(s, Taken(l, [(k, l.store[k])]), [(k, l.store[k])], Entry(Some((k, l.store[k]))));
      }
  }

  lemma LookupMeters(s: Setup, l: Ledger, op: Op, left: Option<Value>, now: nat)
    requires op.Get? || op.GetMut?
    ensures Meters(s, l, Lookup(s, l, op.k, now, left).0, op, now)
  {
    var k := op.k;
    if k in l.store {
      var batch := [(k, l.store[k])];
      ToldFrame(s, Taken(l.(misses := l.misses + 1), batch), batch, Found(None));
    }
  }

  lemma SweepMeters(s: Setup, l: Ledger, order: seq<Key>, keep: (nat, Key, Value) -> Verdict, now: nat,
                    counting: bool)
    requires IsOrder(order, l.store)
    ensures var r := Sweep(s, l, order, keep, now, counting).0;
      && r.hits == l.hits && r.misses == l.misses
      && r.evictions - l.evictions == |r.evicted| - |l.evicted|
  {
    match Doomed(s, l.store, order, keep, now, 0)
    case None =>
    case Some(batch) => ToldFrame(s, Taken(l, batch), batch, if counting then Count(|batch|) else Unit);
  }

  lemma FetchMeters(s: Setup, l: Ledger, k: Key, f: Thunk, then_: Option<Value>, now: nat)
    ensures Meters(s, l, GetOrSetThen(s, l, k, f, then_, now).0, GetOrSet(k, f, then_), now)
  {
    if k in l.store && f.Yields? {
      ToldFrame(s, Replaced(l.(misses := l.misses + 1), k, f.value), [(k, l.store[k])], Fetched(Keep(f.value)));
    }
  }

  /** In every life the counters say what happened since they were last reset. */
  lemma {:induction false} MetricsAreExact(s: Setup, life: Life)
    requires Run(s, life).Some?
    ensures var l := Run(s, life).value;
      && l.hits == Lookups(s, life, true) && l.misses == Lookups(s, life, false)
      && l.evictions == RecentEvictions(s, life)
  {
    if life != [] {
      var before := life[..|life| - 1];
      var (op, now) := life[|life| - 1];
      MetricsAreExact(s, before);
      if !op.Reset? && !op.ResetMetrics? {
        ApplyMeters(s, Run(s, before).value, op, now);
      }
    }
  }

  // ---- Panic safety -------------------------------------------------------------------------------

  /**
   A panic in `f` or `keep`: nothing was taken, replaced, counted or notified. At most a miss
   was recorded.
   */
  ghost predicate Untouched(l: Ledger, r: Ledger) {
    r == l.(misses := r.misses)
  }

  /**
   A panic in the callback: what it was told of, up to the entry it panicked on, is an
   initial part of what this very operation has already evicted and counted.
   */
  ghost predicate CutShort(s: Setup, l: Ledger, r: Ledger) {
    && l.evicted < r.evicted && l.notified < r.notified
    && r.notified[|l.notified|..] <= r.evicted[|l.evicted|..]
    && r.counted - l.counted == |r.evicted| - |l.evicted|
    && s.panics(|r.notified| - 1)
  }

  /**
   Panic safety: whichever user code panics, at whatever point, the books balance as they
   stand. A panic in `f` or `keep` has left every entry in place. When the callback panics,
   every entry it was told of was in the store, is out of its slot and is counted, and so is
   every other entry the operation removed.
   */
  lemma PanicSafety(s: Setup, l: Ledger, op: Op, now: nat)
    requires Balanced(l) && AllTold(s, l) && Allowed(l, op) && Apply(s, l, op, now).1 == Panicked
    ensures var r := Apply(s, l, op, now).0;
      && Balanced(r) && Accounted(l, r, op)
      && (forall j :: |l.notified| <= j < |r.notified| ==> Gone(l, r, op, r.notified[j]))
      && if UserPanics(s, l, op, now) then Untouched(l, r) else CutShort(s, l, r)
  {
    ApplyBalances(s, l, op, now);
    EveryEntryAccounted(s, l, op, now);
    if SweepOp(op) {
      SweepOpPanics(s, l, op, now);
    } else {
      KeyOpPanics(s, l, op, now);
    }
    var r := Apply(s, l, op, now).0;
    forall j | |l.notified| <= j < |r.notified| ensures Gone(l, r, op, r.notified[j]) {
      assert r.notified[|l.notified|..][j - |l.notified|] == r.evicted[|l.evicted|..][j - |l.notified|];
    }
  }

  lemma KeyOpPanics(s: Setup, l: Ledger, op: Op, now: nat)
    requires !SweepOp(op) && Allowed(l, op) && Apply(s, l, op, now).1 == Panicked
    ensures var r := Apply(s, l, op, now).0;
      if UserPanics(s, l, op, now) then Untouched(l, r) else CutShort(s, l, r)
  {
    match op
    case Get(k) => PanicTold(s, l, [(k, l.store[k])], l.(misses := l.misses + 1), Found(None));
    case GetMut(k, left) => PanicTold(s, l, [(k, l.store[k])], l.(misses := l.misses + 1), Found(None));
    case GetOrSet(k, f, _) =>
      if f.Yields? {
        var t := Replaced(l.(misses := l.misses + 1), k, f.value);
        ToldPanics(s, t, [(k, l.store[k])], Fetched(Keep(f.value)), l);
      }
    case Set(k, v) => ToldPanics(s, Replaced(l, k, v), [(k, l.store[k])], Found(None), l);
    case Remove(k) => PanicTold(s, l, [(k, l.store[k])], l, Found(Live(s, l.store, k, now)));
    case RemoveEntry(k) => PanicTold(s, l, [(k, l.store[k])], l, Entry(Some((k, l.store[k]))));
  }

  lemma SweepOpPanics(s: Setup, l: Ledger, op: Op, now: nat)
    requires SweepOp(op) && Allowed(l, op) && Apply(s, l, op, now).1 == Panicked
    ensures var r := Apply(s, l, op, now).0;
      if UserPanics(s, l, op, now) then Untouched(l, r) else CutShort(s, l, r)
  {
    match op
    case Evict(order) =>
      NeverBlows(s, l.store, order, KeepAll, now, 0);
      SweepPanics(s, l, order, KeepAll, now, true);
    case Retain(order, keep) => SweepPanics(s, l, order, keep, now, true);
    case ClearWithOnEvict(order) =>
      NeverBlows(s, l.store, order, KeepNone, now, 0);
      SweepPanics(s, l, order, KeepNone, now, false);
  }

  /** The closure given to the operation is called, and panics. */
  predicate UserPanics(s: Setup, l: Ledger, op: Op, now: nat)
    requires Allowed(l, op)
  {
    match op
    case GetOrSet(k, f, _) => f.Panics? && Live(s, l.store, k, now).None?
    case Retain(order, keep) => Doomed(s, l.store, order, keep, now, 0).None?
    case _ => false
  }

  lemma {:induction false} NeverBlows(s: Setup, store: map<Key, Value>, order: seq<Key>,
                                      keep: (nat, Key, Value) -> Verdict, now: nat, n: nat)
    requires n <= |order| && forall i :: 0 <= i < |order| ==> order[i] in store
    requires forall i, k, v :: keep(i, k, v) != Blow
    ensures Doomed(s, store, order, keep, now, n).Some?
    decreases |order| - n
  {
    if n < |order| {
      NeverBlows(s, store, order, keep, now, n + 1);
    }
  }

  /** A callback panicked while being told of `batch`, all of it already evicted. */
  lemma ToldPanics(s: Setup, t: Ledger, batch: seq<Pair>, a: Answer, l: Ledger)
    requires t.evicted == l.evicted + batch && t.notified == l.notified && batch != []
    requires t.counted == l.counted + |batch|
    requires Told(s, t, batch, a).1 == Panicked && a != Panicked
    ensures CutShort(s, l, Told(s, t, batch, a).0)
  {
    var j := NotifyPrefix(s, t, batch);
    var r := Told(s, t, batch, a).0;
    assert r.notified[|l.notified|..] == batch[..j];
    assert r.evicted[|l.evicted|..] == batch;
  }

  lemma PanicTold(s: Setup, l: Ledger, batch: seq<Pair>, m: Ledger, a: Answer)
    requires m == l.(misses := m.misses) && batch != []
    requires Told(s, Taken(m, batch), batch, a).1 == Panicked && a != Panicked
    ensures CutShort(s, l, Told(s, Taken(m, batch), batch, a).0)
  {
    ToldPanics(s, Taken(m, batch), batch, a, l);
  }

  lemma SweepPanics(s: Setup, l: Ledger, order: seq<Key>, keep: (nat, Key, Value) -> Verdict, now: nat,
                    counting: bool)
    requires IsOrder(order, l.store) && Sweep(s, l, order, keep, now, counting).1 == Panicked
    ensures var r := Sweep(s, l, order, keep, now, counting).0;
      if Doomed(s, l.store, order, keep, now, 0).None? then r == l else CutShort(s, l, r)
  {
    if Doomed(s, l.store, order, keep, now, 0).Some? {
      var batch := Doomed(s, l.store, order, keep, now, 0).value;
      PanicTold(s, l, batch, l, if counting then Count(|batch|) else Unit);
    }
  }
}
