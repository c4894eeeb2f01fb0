/**
 `ExpiringCache` is a store the `#[cached]` protocol can run on: with `expires = true` and
 `result_fallback = true`, the calls the emitted code makes do to the map what the protocol's
 steps do to its store, and time does nothing but expire entries.
 */
module StoreContract {
  import opened Basics
  import opened ExpiringModel
  import A = ExpiringAccounts
  import L = CallLog
  import O = ExpiringOutcomes
  import P = CachedProtocol
  import R = ExpiringRefinement

  /** The map as the protocol sees it at instant `now`. */
  function Seen(s: Setup, store: map<Key, Value>, now: nat): map<Key, L.Entry> {
    map k | k in store :: L.Entry(store[k], !s.expired(store[k], now))
  }

  /** `cache_set` writes the value; it may be expired from the start. A panicking eviction
      callback makes no difference to the map. */
  lemma SetIsWrite(s: Setup, l: Ledger, k: Key, v: Value, now: nat)
    ensures var r := Apply(s, l, Set(k, v), now).0;
      Seen(s, r.store, now) == Seen(s, l.store, now)[k := L.Entry(v, !s.expired(v, now))]
  {
    SetStores(s, l, k, v, now);
    SeenWrite(s, l.store, k, v, now);
  }

  lemma SetStores(s: Setup, l: Ledger, k: Key, v: Value, now: nat)
    ensures SetTo(s, l, k, v, now).0.store == l.store[k := v]
  {
    if k in l.store && s.expired(l.store[k], now) {
      A.ToldFrame(s, Replaced(l, k, v), [(k, l.store[k])], Found(None));
    }
  }

  lemma SeenWrite(s: Setup, store: map<Key, Value>, k: Key, v: Value, now: nat)
    ensures Seen(s, store[k := v], now) == Seen(s, store, now)[k := L.Entry(v, !s.expired(v, now))]
  {
  }

  // ---- The emitted sections -------------------------------------------------------------------

  /** The lookup section: an expiry-status read under `result_fallback`, else `cache_get`,
      which removes what it finds expired. A forced call and a prime do not look. */
  function LookUp(c: P.Config, s: Setup, l: Ledger, call: L.Call, now: nat): (Ledger, Option<Value>, bool) {
    if !L.Unforced(call) then (l, None, false)
    else if c.resultFallback then
      var (m, a) := Apply(s, l, GetStatus(call.key), now);
      (m, if a.expired then None else a.value, false)
    else
      var (m, a) := Apply(s, l, Get(call.key), now);
      (m, if a == Panicked then None else a.value, a == Panicked)
  }

  /** It hits exactly on a live entry, and at most removes an expired one at its key. */
  lemma LookUpMeans(c: P.Config, s: Setup, l: Ledger, call: L.Call, now: nat)
    ensures var (m, hit, panicked) := LookUp(c, s, l, call, now);
      var seen := Seen(s, l.store, now);
      && (hit.Some? <==> L.Unforced(call) && L.Live(seen, call.key))
      && (hit.Some? ==> hit == L.Stored(seen, call.key) && m.store == l.store)
      && (m.store == l.store
          || (call.key in l.store && !L.Live(seen, call.key) && m.store == l.store - {call.key}))
      && (panicked ==> hit.None? && m.store != l.store)
  {
    var k := call.key;
    if k in l.store && s.expired(l.store[k], now) {
      var batch, m := [(k, l.store[k])], l.(misses := l.misses + 1);
      A.ToldFrame(s, Taken(m, batch), batch, Found(None));
      assert Keys(batch) == {k} by {
        assert batch[1..] == [] && Keys([]) == {};
      }
      assert k !in l.store - {k};
    }
  }

  /** The final lock section. Under `result_fallback` an ordinary call whose body failed peeks
      at what its key holds, expired or not, and stores and returns that. */
  function FinalSection(c: P.Config, s: Setup, l: Ledger, call: L.Call, o: Outcome, now: nat): (Ledger, Outcome, bool) {
    var fallback :=
      if c.resultFallback && call.kind == L.Ordinary && o.Skip? then Apply(s, l, PeekStatus(call.key), now).1.value
      else None;
    var r := if fallback.Some? then Keep(fallback.value) else o;
    match r
    case Keep(v) =>
      var (m, a) := Apply(s, l, Set(call.key, v), now);
      (m, r, a == Panicked)
    case Skip(_) => (l, r, false)
  }

  /** It settles on what the protocol's commit settles on, and leaves what that leaves, except
      that a value already expired when it is stored is expired from the start. */
  lemma FinalSectionIsCommit(c: P.Config, p: P.State, t: P.Thread, o: Outcome, s: Setup, l: Ledger, now: nat)
    requires p.store == Seen(s, l.store, now)
    ensures var (m, r, panicked) := FinalSection(c, s, l, t.call, o, now);
      && r == P.Settled(c, p, t, o)
      && Seen(s, m.store, now) ==
         (match r
          case Keep(v) => p.store[t.call.key := L.Entry(v, !s.expired(v, now))]
          case Skip(_) => p.store)
      && (panicked ==> r.Keep?)
  {
    var r := FinalSection(c, s, l, t.call, o, now).1;
    if r.Keep? {
      SetIsWrite(s, l, t.call.key, r.value, now);
    }
  }

  /** Either section is unwound exactly if the eviction callback panics in it. */
  lemma LookUpPanics(c: P.Config, s: Setup, l: Ledger, call: L.Call, now: nat)
    ensures var (m, _, panicked) := LookUp(c, s, l, call, now);
      panicked <==> R.CallbackPanicked(s, l, m)
  {
    if L.Unforced(call) && !c.resultFallback {
      O.LookupOutcome(s, l, Get(call.key), now);
    }
  }

  lemma FinalSectionPanics(c: P.Config, s: Setup, l: Ledger, call: L.Call, o: Outcome, now: nat)
    ensures var (m, _, panicked) := FinalSection(c, s, l, call, o, now);
      panicked <==> R.CallbackPanicked(s, l, m)
  {
    var r := FinalSection(c, s, l, call, o, now).1;
    if r.Keep? {
      O.SetOutcome(s, l, call.key, r.value, now);
      O.PanicsExactly(s, l, Set(call.key, r.value), now);
    }
  }
}
