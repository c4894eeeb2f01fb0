/**
 `ExpiringCache`: a map whose values report their own expiry, swept lazily. User code runs
 in three places: `f` of a get-or-set, `keep` of a `retain`, and the eviction callback, and
 wherever it runs the books already balance, so a panic there finds nothing half-done.
 */
module ExpiringCache {
  import opened Basics
  import opened ExpiringModel
  import opened ExpiringAccounts

  // ---- The two-pass selection --------------------------------------------------------------------

  /** The entries from position `n` on whose flag is set. */
  function Selected(store: map<Key, Value>, order: seq<Key>, flags: seq<bool>, n: nat): seq<Pair>
    requires n <= |order| == |flags| && forall i :: 0 <= i < |order| ==> order[i] in store
    decreases |order| - n
  {
    if n == |order| then []
    else
      var rest := Selected(store, order, flags, n + 1);
      if flags[n] then [(order[n], store[order[n]])] + rest else rest
  }

  lemma {:induction false} FlagsDecide(s: Setup, store: map<Key, Value>, order: seq<Key>,
                                       keep: (nat, Key, Value) -> Verdict, now: nat, flags: seq<bool>, n: nat)
    requires n <= |order| == |flags| && forall i :: 0 <= i < |order| ==> order[i] in store
    requires forall i :: 0 <= i < |order| ==>
      && Judge(s, keep, i, order[i], store[order[i]], now) != Blow
      && (flags[i] <==> Judge(s, keep, i, order[i], store[order[i]], now) == Go)
    ensures Doomed(s, store, order, keep, now, n) == Some(Selected(store, order, flags, n))
    decreases |order| - n
  {
    if n < |order| {
      FlagsDecide(s, store, order, keep, now, flags, n + 1);
    }
  }

  lemma {:induction false} OneBlowIsEnough(s: Setup, store: map<Key, Value>, order: seq<Key>,
                                           keep: (nat, Key, Value) -> Verdict, now: nat, n: nat, m: nat)
    requires n <= m < |order| && forall i :: 0 <= i < |order| ==> order[i] in store
    requires Judge(s, keep, m, order[m], store[order[m]], now) == Blow
    ensures Doomed(s, store, order, keep, now, n) == None
    decreases |order| - n
  {
    if n < m {
      OneBlowIsEnough(s, store, order, keep, now, n + 1, m);
    }
  }

  lemma {:induction false} NoFlagNoEntry(store: map<Key, Value>, order: seq<Key>, flags: seq<bool>, n: nat)
    requires n <= |order| == |flags| && forall i :: 0 <= i < |order| ==> order[i] in store
    requires true !in flags
    ensures Selected(store, order, flags, n) == []
    decreases |order| - n
  {
    if n < |order| {
      assert flags[n] in flags;
      NoFlagNoEntry(store, order, flags, n + 1);
    }
  }

  lemma {:induction false} AppendKeys(batch: seq<Pair>, p: Pair)
    ensures Keys(batch + [p]) == Keys(batch) + {p.0}
    decreases |batch|
  {
    if batch == [] {
      assert ([] + [p])[1..] == [];
    } else {
      AppendKeys(batch[1..], p);
      assert (batch + [p])[1..] == batch[1..] + [p];
    }
  }

  /** The first pass: a decision for every entry, in iteration order, or a panic. */
  method Decide(s: Setup, store: map<Key, Value>, order: seq<Key>,
                keep: (nat, Key, Value) -> Verdict, now: nat) returns (flags: Option<seq<bool>>)
    requires forall i :: 0 <= i < |order| ==> order[i] in store
    ensures flags.None? ==> Doomed(s, store, order, keep, now, 0) == None
    ensures flags.Some? ==>
      && |flags.value| == |order|
      && Doomed(s, store, order, keep, now, 0) == Some(Selected(store, order, flags.value, 0))
  {
    var f: seq<bool> := [];
    for n := 0 to |order|
      invariant |f| == n
      invariant forall i :: 0 <= i < n ==>
        && Judge(s, keep, i, order[i], store[order[i]], now) != Blow
        && (f[i] <==> Judge(s, keep, i, order[i], store[order[i]], now) == Go)
    {
      var verdict := Judge(s, keep, n, order[n], store[order[n]], now);
      if verdict == Blow {
        OneBlowIsEnough(s, store, order, keep, now, 0, n);
        return None;
      }
      f := f + [verdict == Go];
    }
    FlagsDecide(s, store, order, keep, now, f, 0);
    flags := Some(f);
  }

  /** The second pass: remove by the recorded decisions. */
  method Extract(store: map<Key, Value>, order: seq<Key>, flags: seq<bool>)
    returns (removed: seq<Pair>, rest: map<Key, Value>)
    requires |order| == |flags| && forall i :: 0 <= i < |order| ==> order[i] in store
    ensures removed == Selected(store, order, flags, 0) && rest == store - Keys(removed)
  {
    rest, removed := store, [];
    for n := 0 to |order|
      invariant removed + Selected(store, order, flags, n) == Selected(store, order, flags, 0)
      invariant rest == store - Keys(removed)
    {
      if flags[n] {
        var p := (order[n], store[order[n]]);
        AppendKeys(removed, p);
        assert removed + Selected(store, order, flags, n) == (removed + [p]) + Selected(store, order, flags, n + 1);
        removed := removed + [p];
        rest := rest - {order[n]};
      }
    }
    assert removed + [] == removed;
  }

  /**
   `take_doomed`: the selection pass only reads, so a panicking `keep` leaves the map alone;
   the removal pass runs no user code.
   */
  method TakeDoomed(s: Setup, store: map<Key, Value>, order: seq<Key>,
                    keep: (nat, Key, Value) -> Verdict, now: nat)
    returns (removed: Option<seq<Pair>>, rest: map<Key, Value>)
    requires IsOrder(order, store)
    ensures removed == Doomed(s, store, order, keep, now, 0)
    ensures rest == if removed.Some? then store - Keys(removed.value) else store
  {
    var flags := Decide(s, store, order, keep, now);
    if flags.None? {
      return None, store;
    }
    if true !in flags.value {
      NoFlagNoEntry(store, order, flags.value, 0);
      return Some([]), store;
    }
    var out, left := Extract(store, order, flags.value);
    return Some(out), left;
  }

  // ---- The cache -------------------------------------------------------------------------------

  /**
   Since the books were as in `before`, which balanced, `p`, then stored, has been evicted and
   counted. Its slot is empty and nothing has been inserted, or it holds the one entry that has.
   */
  ghost predicate Departed(before: Ledger, l: Ledger, p: Pair) {
    && Balanced(before) && p.0 in before.store && before.store[p.0] == p.1
    && before.evicted <= l.evicted && p in l.evicted[|before.evicted|..]
    && l.inserted == before.inserted + if p.0 in l.store then multiset{(p.0, l.store[p.0])} else multiset{}
  }

  class ExpiringCache {
    const setup: Setup
    var store: map<Key, Value>
    var hits: nat
    var misses: nat
    var evictions: nat

    /** How often the callback has been invoked. */
    var calls: nat

    /** The same with the books that the source does not keep. */
    ghost var view: Ledger

    ghost predicate Matches()
      reads this
    {
      && view.store == store && view.hits == hits && view.misses == misses
      && view.evictions == evictions && |view.notified| == calls
    }

    ghost predicate Valid()
      reads this
    {
      Matches() && Balanced(view)
    }

    constructor (setup: Setup)
      ensures Valid() && view == FRESH && this.setup == setup
    {
      this.setup := setup;
      store, hits, misses, evictions, calls := map[], 0, 0, 0, 0;
      view := FRESH;
    }

    /**
     One invocation of `on_evict`, which may panic. It may only be made with balanced books,
     for an entry that has been evicted and counted and that nobody was told of yet, and that
     has left its slot since the operation began with the books as in `before`.
     */
    method OnEvict(k: Key, v: Value, ghost before: Ledger) returns (panicked: bool)
      requires Valid() && multiset(view.notified + [(k, v)]) <= multiset(view.evicted)
      requires Departed(before, view, (k, v))
      modifies this
      ensures Valid() && view == old(view).(notified := old(view).notified + [(k, v)])
      ensures panicked == setup.panics(|old(view).notified|)
    {
      panicked := setup.panics(calls);
      calls := calls + 1;
      view := view.(notified := view.notified + [(k, v)]);
    }

    /** Invokes the callback, if there is one, for the entry evicted last. */
    method Tell(k: Key, v: Value, ghost before: Ledger) returns (panicked: bool)
      requires Valid() && view.evicted == before.evicted + [(k, v)] && Departed(before, view, (k, v))
      requires multiset(view.notified) <= multiset(before.evicted)
      modifies this
      ensures Valid() && (view, panicked) == Notify(setup, old(view), [(k, v)])
    {
      panicked := false;
      if setup.callback {
        PrefixCounts(before.evicted, [(k, v)], 1, view.notified);
        assert [(k, v)][..1] == [(k, v)];
        panicked := OnEvict(k, v, before);
      }
    }

    /** Remove, then count, then notify: how a single entry leaves. */
    method EvictEntry(k: Key) returns (v: Value, panicked: bool)
      requires Valid() && k in store
      modifies this
      ensures v == old(view).store[k]
      ensures Valid() && (view, panicked) == Notify(setup, Taken(old(view), [(k, v)]), [(k, v)])
    {
      ghost var before := view;
      OneEviction(view, k);
      v := store[k];
      store := store - {k};
      evictions := evictions + 1;
      view := Taken(view, [(k, v)]);
      assert view.evicted[|before.evicted|..] == [(k, v)];
      panicked := Tell(k, v, before);
    }

    /** Replace, then count, then notify: how an expired entry is overwritten. */
    method ReplaceEntry(k: Key, v: Value) returns (panicked: bool)
      requires Valid() && k in store
      modifies this
      ensures Valid()
      ensures (view, panicked) == Notify(setup, Replaced(old(view), k, v), [(k, old(view).store[k])])
    {
      ghost var before := view;
      ReplacedBalances(view, k, v);
      var old_ := store[k];
      store := store[k := v];
      evictions := evictions + 1;
      view := Replaced(view, k, v);
      assert view.evicted[|before.evicted|..] == [(k, old_)];
      panicked := Tell(k, old_, before);
    }

    method Hit()
      requires Valid()
      modifies this
      ensures Valid() && view == old(view).(hits := old(view).hits + 1)
    {
      hits := hits + 1;
      view := view.(hits := hits);
    }

    method Miss()
      requires Valid()
      modifies this
      ensures Valid() && view == old(view).(misses := old(view).misses + 1)
    {
      misses := misses + 1;
      view := view.(misses := misses);
    }

    method Get(k: Key, now: nat) returns (a: Answer)
      requires Valid()
      modifies this
      ensures Valid() && (view, a) == Lookup(setup, old(view), k, now, None)
    {
      if k !in store {
        Miss();
        return Found(None);
      }
      var expired := setup.expired(store[k], now);
      if expired {
        a := Expel(k);
      } else {
        Hit();
        a := Found(Some(store[k]));
      }
    }

    /** The lookup found an expired entry: a miss, and the entry leaves. */
    method Expel(k: Key) returns (a: Answer)
      requires Valid() && k in store
      modifies this
      ensures Valid()
      ensures var batch := [(k, old(view).store[k])];
        (view, a) == Told(setup, Taken(old(view).(misses := old(view).misses + 1), batch), batch, Found(None))
    {
      Miss();
      var _, panicked := EvictEntry(k);
      a := if panicked then Panicked else Found(None);
    }

    /** The caller writes through the mutable reference it was given. */
    method Leave(k: Key, left: Value)
      requires Valid() && k in store
      modifies this
      ensures Valid() && view == Rewritten(old(view), k, left)
    {
      RewrittenBalances(view, k, left);
      store := store[k := left];
      view := Rewritten(view, k, left);
    }

    /** On a hit the caller gets a mutable reference; `left` is what it leaves behind. */
    method GetMut(k: Key, now: nat, left: Value) returns (a: Answer)
      requires Valid()
      modifies this
      ensures Valid() && (view, a) == Lookup(setup, old(view), k, now, Some(left))
    {
      if k !in store {
        Miss();
        return Found(None);
      }
      var expired := setup.expired(store[k], now);
      if expired {
        a := Expel(k);
      } else {
        Hit();
        a := Found(Some(store[k]));
        Leave(k, left);
      }
    }

    /**
     Both get-or-set forms, and what the caller does with the reference it gets: `then_`, if
     any, is what it leaves in the slot.
     */
    method GetOrSet(k: Key, f: Thunk, then_: Option<Value>, now: nat) returns (a: Answer)
      requires Valid()
      modifies this
      ensures Valid() && (view, a) == GetOrSetThen(setup, old(view), k, f, then_, now)
    {
      a := Fetch(k, f, now);
      if a.Fetched? && a.outcome.Keep? && k in store && then_.Some? {
        Leave(k, then_.value);
      }
    }

    /** Up to the return: `f` runs before anything is replaced, counted or notified. */
    method Fetch(k: Key, f: Thunk, now: nat) returns (a: Answer)
      requires Valid()
      modifies this
      ensures Valid() && (view, a) == GetOrSetWith(setup, old(view), k, f, now)
    {
      if k in store {
        if !setup.expired(store[k], now) {
          Hit();
          return Fetched(Keep(store[k]));
        }
        Miss();
        match f
        case Panics => a := Panicked;
        case Fails(error) => a := Fetched(Skip(error));
        case Yields(v) =>
          var panicked := ReplaceEntry(k, v);
          a := if panicked then Panicked else Fetched(Keep(v));
      } else {
        Miss();
        match f
        case Panics => a := Panicked;
        case Fails(error) => a := Fetched(Skip(error));
        case Yields(v) =>
          InsertedBalances(view, k, v);
          store := store[k := v];
          view := Inserted(view, k, v);
          a := Fetched(Keep(v));
      }
    }

    method Set(k: Key, v: Value, now: nat) returns (a: Answer)
      requires Valid()
      modifies this
      ensures Valid() && (view, a) == SetTo(setup, old(view), k, v, now)
    {
      if k in store {
        var old_ := store[k];
        if setup.expired(old_, now) {
          var panicked := ReplaceEntry(k, v);
          a := if panicked then Panicked else Found(None);
        } else {
          SwappedBalances(view, k, v);
          store := store[k := v];
          view := Swapped(view, k, v);
          a := Found(Some(old_));
        }
      } else {
        InsertedBalances(view, k, v);
        store := store[k := v];
        view := Inserted(view, k, v);
        a := Found(None);
      }
    }

    /** Returns the removed value only if it was live when it was taken out. */
    method Remove(k: Key, now: nat) returns (a: Answer)
      requires Valid()
      modifies this
      ensures Valid() && (view, a) == Apply(setup, old(view), Op.Remove(k), now)
    {
      if k !in store {
        return Found(None);
      }
      var expired := setup.expired(store[k], now);
      var v, panicked := EvictEntry(k);
      a := if panicked then Panicked else if expired then Found(None) else Found(Some(v));
    }

    method RemoveEntry(k: Key, now: nat) returns (a: Answer)
      requires Valid()
      modifies this
      ensures Valid() && (view, a) == Apply(setup, old(view), Op.RemoveEntry(k), now)
    {
      if k !in store {
        return Entry(None);
      }
      var v, panicked := EvictEntry(k);
      a := if panicked then Panicked else Entry(Some((k, v)));
    }

    /** Count a whole batch that is already out of the store, then notify entry by entry. */
    method NotifyEvicted(removed: seq<Pair>) returns (panicked: bool)
      requires Balanced(view) && From(removed, view.store)
      requires store == view.store - Keys(removed)
      requires view.hits == hits && view.misses == misses && view.evictions == evictions
      requires |view.notified| == calls
      modifies this
      ensures Valid()
      ensures (view, panicked) == Notify(setup, Taken(old(view), removed), removed)
    {
      ghost var before := view;
      if removed != [] {
        evictions := evictions + |removed|;
      }
      TakenBalances(view, removed);
      view := Taken(view, removed);
      panicked := TellAll(removed, before);
    }

    /** Notifies entry by entry; the first panic ends it. */
    method TellAll(removed: seq<Pair>, ghost before: Ledger) returns (panicked: bool)
      requires Valid() && Balanced(before) && From(removed, before.store) && view == Taken(before, removed)
      modifies this
      ensures Valid() && (view, panicked) == Notify(setup, old(view), removed)
    {
      panicked := false;
      if setup.callback {
        ghost var start := view;
        assert removed[0..] == removed;
        assert start.notified + removed[..0] == start.notified;
        for i := 0 to |removed|
          invariant Valid() && view == start.(notified := start.notified + removed[..i])
          invariant Notify(setup, start, removed) == Notify(setup, view, removed[i..])
        {
          TellNext(before, view, removed, i);
          NotifyOne(setup, view, removed, i);
          panicked := OnEvict(removed[i].0, removed[i].1, before);
          if panicked {
            return;
          }
        }
      }
    }

    method Retain(order: seq<Key>, keep: (nat, Key, Value) -> Verdict, now: nat) returns (a: Answer)
      requires Valid() && IsOrder(order, view.store)
      modifies this
      ensures Valid() && (view, a) == Apply(setup, old(view), Op.Retain(order, keep), now)
    {
      var removed, rest := TakeDoomed(setup, store, order, keep, now);
      match removed
      case None => a := Panicked;
      case Some(batch) =>
        DoomedFrom(setup, store, order, keep, now, 0);
        store := rest;
        var panicked := NotifyEvicted(batch);
        a := if panicked then Panicked else Count(|batch|);
    }

    method Evict(order: seq<Key>, now: nat) returns (a: Answer)
      requires Valid() && IsOrder(order, view.store)
      modifies this
      ensures Valid() && (view, a) == Apply(setup, old(view), Op.Evict(order), now)
    {
      a := Retain(order, KeepAll, now);
    }

    /** Drains the map, then counts and notifies every entry, expired or not. */
    method ClearWithOnEvict(order: seq<Key>, now: nat) returns (a: Answer)
      requires Valid() && IsOrder(order, view.store)
      modifies this
      ensures Valid() && (view, a) == Apply(setup, old(view), Op.ClearWithOnEvict(order), now)
    {
      var all := store;
      var entries := seq(|order|, i requires 0 <= i < |order| => (order[i], all[order[i]]));
      DrainSweeps(setup, view, order, entries, now);
      store := map[];
      var panicked := NotifyEvicted(entries);
      a := if panicked then Panicked else Unit;
    }

    method Clear()
      requires Valid()
      modifies this
      ensures Valid() && view == Emptied(old(view))
    {
      view := Emptied(view);
      store := map[];
    }

    method ResetMetrics()
      requires Valid()
      modifies this
      ensures Valid() && view == Unmetered(old(view))
    {
      hits, misses, evictions := 0, 0, 0;
      view := Unmetered(view);
    }

    method Reset()
      requires Valid()
      modifies this
      ensures Valid() && view == Unmetered(Emptied(old(view)))
    {
      Clear();
      ResetMetrics();
    }

    method Peek(k: Key, now: nat) returns (r: Option<Value>)
      requires Valid()
      ensures r == Live(setup, view.store, k, now)
    {
      if k in store && !setup.expired(store[k], now) {
        r := Some(store[k]);
      } else {
        r := None;
      }
    }

    method Contains(k: Key, now: nat) returns (r: bool)
      requires Valid()
      ensures r <==> Live(setup, view.store, k, now).Some?
    {
      var v := Peek(k, now);
      r := v.Some?;
    }

    /** The live entries, collected from an iteration over the map in the given order. */
    method Iter(order: seq<Key>, now: nat) returns (entries: map<Key, Value>)
      requires Valid() && IsOrder(order, store)
      ensures entries == LiveEntries(setup, view.store, now)
    {
      entries := map[];
      for n := 0 to |order|
        invariant forall k :: k in entries <==> k in order[..n] && !setup.expired(store[k], now)
        invariant forall k :: k in entries ==> entries[k] == store[k]
      {
        assert order[..n + 1] == order[..n] + [order[n]];
        if !setup.expired(store[order[n]], now) {
          entries := entries[order[n] := store[order[n]]];
        }
      }
      assert order[..|order|] == order;
    }

    /** Shows an expired entry without removing it, for `result_fallback`. */
    method GetStatus(k: Key, now: nat) returns (a: Answer)
      requires Valid()
      modifies this
      ensures Valid() && (view, a) == Apply(setup, old(view), Op.GetStatus(k), now)
    {
      if k in store {
        var expired := setup.expired(store[k], now);
        if expired {
          Miss();
          a := Status(Some(store[k]), true);
        } else {
          Hit();
          a := Status(Some(store[k]), false);
        }
      } else {
        Miss();
        a := Status(None, false);
      }
    }

    method PeekStatus(k: Key, now: nat) returns (a: Answer)
      requires Valid()
      ensures a == StatusOf(setup, view, k, now)
    {
      if k in store {
        a := Status(Some(store[k]), setup.expired(store[k], now));
      } else {
        a := Status(None, false);
      }
    }
  }

  lemma OneEviction(l: Ledger, k: Key)
    requires Balanced(l) && k in l.store
    ensures Keys([(k, l.store[k])]) == {k}
    ensures Balanced(Taken(l, [(k, l.store[k])]))
  {
    assert [(k, l.store[k])][1..] == [];
    TakenBalances(l, [(k, l.store[k])]);
  }

  /** In the middle of notifying a batch, the next entry is one that may be told of. */
  lemma TellNext(before: Ledger, l: Ledger, removed: seq<Pair>, i: nat)
    requires Balanced(before) && From(removed, before.store) && i < |removed|
    requires l == Taken(before, removed).(notified := before.notified + removed[..i])
    ensures Departed(before, l, removed[i])
    ensures multiset(l.notified + [removed[i]]) <= multiset(l.evicted)
    ensures before.notified + removed[..i + 1] == l.notified + [removed[i]]
  {
    BatchDeparts(before, l, removed, i);
    assert removed[..i + 1] == removed[..i] + [removed[i]];
    assert before.notified + removed[..i + 1] == l.notified + [removed[i]];
    PrefixCounts(before.evicted, removed, i + 1, before.notified);
  }

  lemma BatchDeparts(before: Ledger, l: Ledger, removed: seq<Pair>, i: nat)
    requires Balanced(before) && From(removed, before.store) && i < |removed|
    requires l.evicted == before.evicted + removed && l.store == before.store - Keys(removed)
    requires l.inserted == before.inserted
    ensures Departed(before, l, removed[i])
  {
    assert l.evicted[|before.evicted|..] == removed;
    KeysMembers(removed, removed[i].0);
    assert removed[i].0 in Keys(removed);
  }

  /** Notifying from position `i` on starts with that entry. */
  lemma NotifyOne(s: Setup, l: Ledger, batch: seq<Pair>, i: nat)
    requires i < |batch| && s.callback
    ensures var called := l.(notified := l.notified + [batch[i]]);
      Notify(s, l, batch[i..]) ==
        if s.panics(|l.notified|) then (called, true) else Notify(s, called, batch[i + 1..])
  {
    assert batch[i..][1..] == batch[i + 1..];
  }

  lemma {:induction false} DrainAll(s: Setup, store: map<Key, Value>, order: seq<Key>,
                                    entries: seq<Pair>, now: nat, n: nat)
    requires n <= |order| == |entries| && forall i :: 0 <= i < |order| ==> order[i] in store
    requires forall i :: 0 <= i < |order| ==> entries[i] == (order[i], store[order[i]])
    ensures Doomed(s, store, order, KeepNone, now, n) == Some(entries[n..])
    decreases |order| - n
  {
    if n < |order| {
      DrainAll(s, store, order, entries, now, n + 1);
      assert entries[n..] == [entries[n]] + entries[n + 1..];
    }
  }

  lemma {:induction false} DrainSweeps(s: Setup, l: Ledger, order: seq<Key>, entries: seq<Pair>, now: nat)
    requires IsOrder(order, l.store) && |entries| == |order|
    requires forall i :: 0 <= i < |order| ==> entries[i] == (order[i], l.store[order[i]])
    ensures Apply(s, l, Op.ClearWithOnEvict(order), now) == Told(s, Taken(l, entries), entries, Unit)
    ensures From(entries, l.store) && l.store - Keys(entries) == map[]
  {
    DrainCovers(s, l.store, order, entries, now);
    assert Apply(s, l, Op.ClearWithOnEvict(order), now) == Sweep(s, l, order, KeepNone, now, false);
  }

  /** Draining takes every entry, and is what a sweep that keeps nothing would select. */
  lemma {:induction false} DrainCovers(s: Setup, store: map<Key, Value>, order: seq<Key>, entries: seq<Pair>, now: nat)
    requires IsOrder(order, store) && |entries| == |order|
    requires forall i :: 0 <= i < |order| ==> entries[i] == (order[i], store[order[i]])
    ensures Doomed(s, store, order, KeepNone, now, 0) == Some(entries)
    ensures From(entries, store) && store - Keys(entries) == map[]
  {
    DrainAll(s, store, order, entries, now, 0);
    assert entries[0..] == entries;
    forall k | k in store ensures k in Keys(entries) {
      var i :| 0 <= i < |order| && order[i] == k;
      KeysMembers(entries, k);
      assert entries[i].0 == k;
    }
  }
}
