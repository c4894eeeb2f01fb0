/**
 `#[cached(expires = true)]` as a whole: the emitted calls over an `ExpiringCache`, with its
 clock, its counters, its callback and its panics, and with users sweeping and inspecting it
 at any time. Every such run is a run of the protocol over an abstract store, so what holds
 of every run of the protocol holds here.
 */
module ExpiringCalls {
  import opened Basics
  import M = ExpiringModel
  import A = ExpiringAccounts
  import L = CallLog
  import P = CachedProtocol
  import H = CachedHistory
  import K = CachedLocks
  import R = ExpiringRefinement
  import S = StoreContract
  import T = Tally

  // ---- The system -------------------------------------------------------------------------------

  datatype State = State(threads: seq<P.Thread>, writer: Option<nat>, readers: set<nat>,
                         owners: map<nat, nat>, ledger: M.Ledger, now: nat, log: seq<L.Event>)

  const INITIAL := State([], None, {}, map[], M.FRESH, 0, [])

  datatype Action =
    | Spawn(call: L.Call)
    | Step(thread: nat)
    | Return(thread: nat, outcome: Outcome)
    | Abandon(thread: nat)
    | Maintain(op: M.Op) // a user reads, removes, sweeps or clears
    | Tick(elapsed: nat)

  /** Everything the cache offers that puts no value into the map. */
  predicate Maintenance(op: M.Op) {
    !op.Set? && !op.GetOrSet? && !op.GetMut?
  }

  /** The calls, with the map as the protocol would see it. */
  function Shell(s: M.Setup, r: State): P.State {
    P.State(r.threads, r.writer, r.readers, r.owners, S.Seen(s, r.ledger.store, r.now), r.log)
  }

  /** Thread `i` goes to `pc`, taking and releasing locks. */
  function Moved(c: P.Config, s: M.Setup, r: State, i: nat, pc: P.Pc): State
    requires c.buckets > 0 && i < |r.threads|
  {
    var p := P.Move(c, Shell(s, r), i, pc);
    r.(threads := p.threads, writer := p.writer, readers := p.readers, owners := p.owners)
  }

  /** The keys in some order. */
  ghost function Listed(keys: set<Key>): (r: seq<Key>)
    ensures NoDup(r) && forall k :: k in r <==> k in keys
  {
    if keys == {} then []
    else
      var k :| k in keys;
      var rest := Listed(keys - {k});
      PrependMembers(k, rest);
      [k] + rest
  }

  /** The removals of `keys`, one event each. */
  ghost function Removals(keys: seq<Key>): (r: seq<L.Event>)
    ensures |r| == |keys| && forall j :: 0 <= j < |r| ==> r[j] == L.Removed(keys[j])
  {
    seq(|keys|, j requires 0 <= j < |keys| => L.Removed(keys[j]))
  }

  /** The ledger becomes `m`; what left the map is on record. */
  ghost function Kept(r: State, m: M.Ledger): State {
    r.(ledger := m, log := r.log + Removals(Listed(r.ledger.store.Keys - m.store.Keys)))
  }

  /** The lookup, on the cache. A panicking eviction callback unwinds the call. */
  ghost function Look(c: P.Config, s: M.Setup, r: State, i: nat): State
    requires c.buckets > 0 && i < |r.threads|
  {
    var t := r.threads[i];
    var (m, hit, panicked) := S.LookUp(c, s, r.ledger, t.call, r.now);
    var k := Kept(r, m);
    if panicked then Moved(c, s, k, i, P.Dropped)
    else if hit.Some? then
      Moved(c, s, k, i, P.Done).(log := k.log + [L.Answered(i, t.call, Keep(hit.value), true)])
    else Missed(c, s, k, i)
  }

  /** The call goes on to its body, or to its second lookup. */
  function Missed(c: P.Config, s: M.Setup, r: State, i: nat): State
    requires c.buckets > 0 && i < |r.threads|
  {
    var d := Moved(c, s, r, i, P.NextPc(c, r.threads[i], false));
    if r.threads[i].call.kind == L.Ordinary then d.(log := r.log + [L.Looked(i, r.threads[i].call)]) else d
  }

  /** The final section, on the cache. */
  function Finish(c: P.Config, s: M.Setup, r: State, i: nat): State
    requires c.buckets > 0 && i < |r.threads| && r.threads[i].pc.Storing?
  {
    var t := r.threads[i];
    var (m, o, panicked) := S.FinalSection(c, s, r.ledger, t.call, t.pc.outcome, r.now);
    var d := Moved(c, s, r, i, if panicked then P.Dropped else P.Done);
    var wrote := if o.Keep? then [L.Wrote(i, t.call, o.value, t.pc.outcome.Keep?, 0)] else [];
    var answered := if panicked then [] else [L.Answered(i, t.call, o, false)];
    d.(ledger := m, log := r.log + wrote + answered)
  }

  predicate CanStep(c: P.Config, s: M.Setup, r: State, i: nat)
    requires c.buckets > 0
  {
    && i < |r.threads| && r.threads[i].pc != P.Running && !P.Over(r.threads[i])
    && P.LocksFree(c, Shell(s, r), i, P.NextPc(c, r.threads[i], false))
  }

  ghost predicate Enabled(c: P.Config, s: M.Setup, r: State, a: Action)
    requires c.buckets > 0
  {
    match a
    case Spawn(_) => true
    case Step(i) => CanStep(c, s, r, i)
    case Return(i, _) => i < |r.threads| && r.threads[i].pc == P.Running
    case Abandon(i) => i < |r.threads| && !P.Over(r.threads[i])
    case Maintain(op) => Maintenance(op) && M.Allowed(r.ledger, op)
    case Tick(_) => true
  }

  ghost function Next(c: P.Config, s: M.Setup, r: State, a: Action): State
    requires c.buckets > 0 && Enabled(c, s, r, a)
  {
    match a
    case Spawn(call) => r.(threads := r.threads + [P.Thread(call, P.Enter)])
    case Step(i) =>
      if r.threads[i].pc.Storing? then Finish(c, s, r, i)
      else if r.threads[i].pc.Looking? && !r.threads[i].call.kind.Inspector? then Look(c, s, r, i)
      else Moved(c, s, r, i, P.NextPc(c, r.threads[i], false))
    case Return(i, o) =>
      Moved(c, s, r, i, P.ReturnPc(c, r.threads[i], o)).(log := r.log + [L.Ran(i, r.threads[i].call, o)])
    case Abandon(i) => Moved(c, s, r, i, P.Dropped)
    case Maintain(op) => Kept(r, M.Apply(s, r.ledger, op, r.now).0)
    case Tick(d) => r.(now := r.now + d)
  }

  ghost function Run(c: P.Config, s: M.Setup, actions: seq<Action>): Option<State>
    requires c.buckets > 0
  {
    if actions == [] then Some(INITIAL)
    else
      match Run(c, s, actions[..|actions| - 1])
      case None => None
      case Some(r) =>
        var a := actions[|actions| - 1];
        if Enabled(c, s, r, a) then Some(Next(c, s, r, a)) else None
  }

  // ---- The log, without what only the protocol records ------------------------------------------

  function Bare(e: L.Event): L.Event {
    if e.Wrote? then e.(since := 0) else e
  }

  /** Without expiries, and without the positions in writes. */
  function Bared(log: seq<L.Event>): seq<L.Event> {
    if log == [] then []
    else
      var past, e := log[..|log| - 1], log[|log| - 1];
      if e.Expired? then Bared(past) else Bared(past) + [Bare(e)]
  }

  lemma BaredGrown(log: seq<L.Event>, e: L.Event)
    ensures Bared(log + [e]) == if e.Expired? then Bared(log) else Bared(log) + [Bare(e)]
  {
    assert (log + [e])[..|log|] == log;
  }

  lemma {:induction false} BaredGood(log: seq<L.Event>, k: Key)
    ensures L.LastGood(Bared(log), k) == L.LastGood(log, k)
  {
    if log != [] {
      var past, e := log[..|log| - 1], log[|log| - 1];
      BaredGood(past, k);
      if !e.Expired? {
        L.Grown(Bared(past), Bare(e), k);
      }
    }
  }

  /** Every event of the bared log comes from an event of the log, with the same past. */
  lemma {:induction false} BaredAt(log: seq<L.Event>, m: nat) returns (n: nat)
    requires m < |Bared(log)|
    ensures n < |log| && Bare(log[n]) == Bared(log)[m] && Bared(log[..n]) == Bared(log)[..m]
  {
    var past, e := log[..|log| - 1], log[|log| - 1];
    if m < |Bared(past)| {
      n := BaredAt(past, m);
      assert past[..n] == log[..n];
    } else {
      n := |past|;
    }
  }

  lemma {:induction false} BaredFrom(log: seq<L.Event>, n: nat)
    requires n < |log| && !log[n].Expired?
    ensures Bare(log[n]) in Bared(log)
  {
    if n < |log| - 1 {
      BaredFrom(log[..|log| - 1], n);
    }
  }

  // ---- Simulation -----------------------------------------------------------------------------------

  /** The protocol state `p` shows what `r` does: same calls and locks, same store, same log. */
  ghost predicate Sim(s: M.Setup, r: State, p: P.State) {
    && p.threads == r.threads && p.writer == r.writer && p.readers == r.readers && p.owners == r.owners
    && p.store == S.Seen(s, r.ledger.store, r.now)
    && Bared(p.log) == r.log
  }

  function Members(keys: seq<Key>): set<Key> {
    set k | k in keys
  }

  lemma RemoveOne(c: P.Config, p: P.State, k: Key) returns (q: P.State)
    requires c.buckets > 0 && P.Reachable(c, p) && k in p.store
    ensures P.Reachable(c, q) && q == p.(store := p.store - {k}, log := q.log)
    ensures Bared(q.log) == Bared(p.log) + [L.Removed(k)]
  {
    q := P.Do(c, p, P.Evict(k));
    BaredGrown(p.log, L.Removed(k));
  }

  /** Removing entries one by one. */
  lemma {:induction false} RemoveEach(c: P.Config, p: P.State, keys: seq<Key>) returns (q: P.State)
    requires c.buckets > 0 && P.Reachable(c, p) && NoDup(keys) && Members(keys) <= p.store.Keys
    ensures P.Reachable(c, q) && q == p.(store := p.store - Members(keys), log := q.log)
    ensures Bared(q.log) == Bared(p.log) + Removals(keys)
    decreases |keys|
  {
    if keys == [] {
      q := p;
      assert p.store - Members(keys) == p.store;
    } else {
      var k, first := keys[|keys| - 1], keys[..|keys| - 1];
      assert keys == first + [k];
      OneMoreKey(p.store, first, k);
      var q' := RemoveEach(c, p, first);
      q := RemoveOne(c, q', k);
    }
  }

  lemma OneMoreKey(store: map<Key, L.Entry>, first: seq<Key>, k: Key)
    requires NoDup(first + [k]) && Members(first + [k]) <= store.Keys
    ensures NoDup(first) && Members(first) <= store.Keys && k in store - Members(first)
    ensures store - Members(first + [k]) == (store - Members(first)) - {k}
    ensures Removals(first + [k]) == Removals(first) + [L.Removed(k)]
  {
    var all := first + [k];
    assert forall j :: 0 <= j < |first| ==> first[j] == all[j] && all[j] != all[|first|];
    assert Members(all) == Members(first) + {k};
  }

  /** The environment takes out of the map what the cache has taken out. */
  lemma KeptSim(c: P.Config, s: M.Setup, r: State, p: P.State, m: M.Ledger) returns (q: P.State)
    requires c.buckets > 0 && P.Reachable(c, p) && Sim(s, r, p)
    requires forall k :: k in m.store ==> k in r.ledger.store && m.store[k] == r.ledger.store[k]
    ensures P.Reachable(c, q) && Sim(s, Kept(r, m), q)
  {
    var gone := r.ledger.store.Keys - m.store.Keys;
    assert Members(Listed(gone)) == gone;
    q := RemoveEach(c, p, Listed(gone));
    assert m.store == r.ledger.store - gone;
  }

  lemma MovedSim(c: P.Config, s: M.Setup, r: State, p: P.State, i: nat, pc: P.Pc)
    requires c.buckets > 0 && Sim(s, r, p) && i < |r.threads|
    ensures Sim(s, Moved(c, s, r, i, pc), P.Move(c, p, i, pc))
  {
  }

  /** Both logs grow by the same event. */
  lemma LoggedSim(s: M.Setup, r: State, p: P.State, e: L.Event)
    requires Sim(s, r, p) && !e.Expired?
    ensures Sim(s, r.(log := r.log + [Bare(e)]), p.(log := p.log + [e]))
  {
    BaredGrown(p.log, e);
  }

  lemma StepEnabled(c: P.Config, s: M.Setup, r: State, p: P.State, i: nat)
    requires c.buckets > 0 && Sim(s, r, p) && CanStep(c, s, r, i)
    ensures P.Enabled(c, p, P.Step(i))
  {
  }

  lemma LookSim(c: P.Config, s: M.Setup, r: State, p: P.State, i: nat) returns (q: P.State)
    requires c.buckets > 0 && P.Reachable(c, p) && Sim(s, r, p) && CanStep(c, s, r, i)
    requires r.threads[i].pc.Looking? && !r.threads[i].call.kind.Inspector?
    ensures P.Reachable(c, q) && Sim(s, Look(c, s, r, i), q)
  {
    var t := r.threads[i];
    var (m, hit, panicked) := S.LookUp(c, s, r.ledger, t.call, r.now);
    S.LookUpMeans(c, s, r.ledger, t.call, r.now);
    var k := Kept(r, m);
    var p' := KeptSim(c, s, r, p, m);
    if panicked {
      q := P.Do(c, p', P.Abandon(i));
      MovedSim(c, s, k, p', i, P.Dropped);
    } else {
      StepEnabled(c, s, k, p', i);
      q := P.Do(c, p', P.Step(i));
      if hit.Some? {
        MovedSim(c, s, k, p', i, P.Done);
        LoggedSim(s, Moved(c, s, k, i, P.Done), P.Move(c, p', i, P.Done),
                  L.Answered(i, t.call, Keep(hit.value), true));
      } else {
        MovedSim(c, s, k, p', i, P.NextPc(c, t, false));
        LoggedSim(s, Moved(c, s, k, i, P.NextPc(c, t, false)), P.Move(c, p', i, P.NextPc(c, t, false)),
                  L.Looked(i, t.call));
      }
    }
  }

  /** The same up to the entry at `k`, which the protocol has stored live: a value already
      expired when it is stored is stored and then expired. */
  lemma ExpireStored(c: P.Config, s: M.Setup, r: State, p: P.State, k: Key) returns (q: P.State)
    requires c.buckets > 0 && P.Reachable(c, p) && k in r.ledger.store
    requires Sim(s, r, p.(store := S.Seen(s, r.ledger.store, r.now)))
    requires p.store == S.Seen(s, r.ledger.store, r.now)[k := L.Entry(r.ledger.store[k], true)]
    ensures P.Reachable(c, q) && Sim(s, r, q)
  {
    if s.expired(r.ledger.store[k], r.now) {
      q := P.Do(c, p, P.Expire(k));
      BaredGrown(p.log, L.Expired(k));
    } else {
      q := p;
    }
  }

  /** The final section when there is a value to store: written and answered, or, when the
      eviction callback panics, written only. */
  lemma FinishStores(c: P.Config, s: M.Setup, r: State, p: P.State, i: nat) returns (q: P.State)
    requires c.buckets > 0 && P.Reachable(c, p) && Sim(s, r, p) && CanStep(c, s, r, i)
    requires r.threads[i].pc.Storing?
    requires S.FinalSection(c, s, r.ledger, r.threads[i].call, r.threads[i].pc.outcome, r.now).1.Keep?
    ensures P.Reachable(c, q) && Sim(s, Finish(c, s, r, i), q)
  {
    var t := r.threads[i];
    var (m, o, panicked) := S.FinalSection(c, s, r.ledger, t.call, t.pc.outcome, r.now);
    S.FinalSectionIsCommit(c, p, t, t.pc.outcome, s, r.ledger, r.now);
    StoresAt(s, m.store, r.now, t.call.key, o.value, p.store);
    if panicked {
      q := FinishUnwinds(c, s, r, p, i, o.value, m);
    } else {
      StepEnabled(c, s, r, p, i);
      q := FinishAnswers(c, s, r, p, i, o.value, m);
    }
  }

  /** `m` is the ledger once `v` has been stored for thread `i`. */
  ghost predicate Storable(c: P.Config, s: M.Setup, r: State, p: P.State, i: nat, v: Value, m: M.Ledger) {
    && i < |r.threads| && r.threads[i].pc.Storing? && r.threads == p.threads
    && P.Settled(c, p, p.threads[i], p.threads[i].pc.outcome) == Keep(v)
    && var k := r.threads[i].call.key;
       k in m.store && m.store[k] == v
       && p.store[k := L.Entry(v, true)] == S.Seen(s, m.store, r.now)[k := L.Entry(v, true)]
  }

  lemma FinishUnwinds(c: P.Config, s: M.Setup, r: State, p: P.State, i: nat, v: Value, m: M.Ledger)
    returns (q: P.State)
    requires c.buckets > 0 && P.Reachable(c, p) && Sim(s, r, p) && Storable(c, s, r, p, i, v, m)
    ensures P.Reachable(c, q) && Sim(s, Stores(c, s, r, i, v, m, P.Dropped), q)
  {
    StoreSim(c, s, r, p, i, v, m, P.Dropped);
    q := P.Do(c, p, P.Unwind(i));
    q := ExpireStored(c, s, Stores(c, s, r, i, v, m, P.Dropped), q, r.threads[i].call.key);
  }

  lemma FinishAnswers(c: P.Config, s: M.Setup, r: State, p: P.State, i: nat, v: Value, m: M.Ledger)
    returns (q: P.State)
    requires c.buckets > 0 && P.Reachable(c, p) && Sim(s, r, p) && Storable(c, s, r, p, i, v, m)
    requires P.Enabled(c, p, P.Step(i))
    ensures var w := Stores(c, s, r, i, v, m, P.Done);
      P.Reachable(c, q) && Sim(s, w.(log := w.log + [L.Answered(i, r.threads[i].call, Keep(v), false)]), q)
  {
    var a := L.Answered(i, r.threads[i].call, Keep(v), false);
    var w := Stores(c, s, r, i, v, m, P.Done);
    StoreSim(c, s, r, p, i, v, m, P.Done);
    var d := P.Store(c, p, i, v, P.Done);
    LoggedSim(s, w, d.(store := S.Seen(s, m.store, r.now)), a);
    q := P.Do(c, p, P.Step(i));
    assert q == P.Answer(d, i, Keep(v), false);
    q := ExpireStored(c, s, w.(log := w.log + [a]), q, r.threads[i].call.key);
  }

  /** The write of a final section, before the call answers. */
  function Stores(c: P.Config, s: M.Setup, r: State, i: nat, v: Value, m: M.Ledger, pc: P.Pc): State
    requires c.buckets > 0 && i < |r.threads| && r.threads[i].pc.Storing?
  {
    var t := r.threads[i];
    Moved(c, s, r, i, pc).(ledger := m, log := r.log + [L.Wrote(i, t.call, v, t.pc.outcome.Keep?, 0)])
  }

  lemma StoreSim(c: P.Config, s: M.Setup, r: State, p: P.State, i: nat, v: Value, m: M.Ledger, pc: P.Pc)
    requires c.buckets > 0 && Sim(s, r, p) && i < |r.threads| && r.threads[i].pc.Storing?
    ensures var w, q := Stores(c, s, r, i, v, m, pc), P.Store(c, p, i, v, pc);
      Sim(s, w, q.(store := S.Seen(s, m.store, r.now)))
  {
    var t := r.threads[i];
    MovedSim(c, s, r, p, i, pc);
    BaredGrown(p.log, L.Wrote(i, t.call, v, t.pc.outcome.Keep?, |p.log|));
  }

  lemma StoresAt(s: M.Setup, store: map<Key, Value>, now: nat, k: Key, v: Value, was: map<Key, L.Entry>)
    requires S.Seen(s, store, now) == was[k := L.Entry(v, !s.expired(v, now))]
    ensures k in store && store[k] == v
    ensures was[k := L.Entry(v, true)] == S.Seen(s, store, now)[k := L.Entry(v, true)]
  {
    assert k in S.Seen(s, store, now) && S.Seen(s, store, now)[k].value == v;
  }

  lemma FinishSim(c: P.Config, s: M.Setup, r: State, p: P.State, i: nat) returns (q: P.State)
    requires c.buckets > 0 && P.Reachable(c, p) && Sim(s, r, p) && CanStep(c, s, r, i)
    requires r.threads[i].pc.Storing?
    ensures P.Reachable(c, q) && Sim(s, Finish(c, s, r, i), q)
  {
    var t := r.threads[i];
    var (m, o, panicked) := S.FinalSection(c, s, r.ledger, t.call, t.pc.outcome, r.now);
    if o.Keep? {
      q := FinishStores(c, s, r, p, i);
    } else {
      S.FinalSectionIsCommit(c, p, t, t.pc.outcome, s, r.ledger, r.now);
      StepEnabled(c, s, r, p, i);
      q := P.Do(c, p, P.Step(i));
      BaredGrown(p.log, L.Answered(i, t.call, o, false));
    }
  }

  /** Maintenance leaves what it leaves of the map as it was. */
  lemma MaintainSim(c: P.Config, s: M.Setup, r: State, p: P.State, op: M.Op) returns (q: P.State)
    requires c.buckets > 0 && P.Reachable(c, p) && Sim(s, r, p) && Maintenance(op) && M.Allowed(r.ledger, op)
    ensures P.Reachable(c, q) && Sim(s, Kept(r, M.Apply(s, r.ledger, op, r.now).0), q)
  {
    A.EveryEntryAccounted(s, r.ledger, op, r.now);
    q := KeptSim(c, s, r, p, M.Apply(s, r.ledger, op, r.now).0);
  }

  /** Every entry in `due` is expired, one step each; the rest of the store stays. */
  lemma {:induction false} ExpireEach(c: P.Config, p: P.State, due: set<Key>) returns (q: P.State)
    requires c.buckets > 0 && P.Reachable(c, p) && forall k :: k in due ==> L.Live(p.store, k)
    ensures P.Reachable(c, q) && q == p.(store := q.store, log := q.log) && Bared(q.log) == Bared(p.log)
    ensures q.store == Expiring(p.store, due)
    decreases |due|
  {
    if due == {} {
      q := p;
    } else {
      var k :| k in due;
      var q' := ExpireEach(c, p, due - {k});
      q := P.Do(c, q', P.Expire(k));
      BaredGrown(q'.log, L.Expired(k));
    }
  }

  /** Time does nothing but expire entries. */
  lemma TickSim(c: P.Config, s: M.Setup, r: State, p: P.State, d: nat) returns (q: P.State)
    requires c.buckets > 0 && P.Reachable(c, p) && Sim(s, r, p)
    requires forall v :: s.expired(v, r.now) ==> s.expired(v, r.now + d)
    ensures P.Reachable(c, q) && Sim(s, r.(now := r.now + d), q)
  {
    var due := Due(s, r.ledger.store, r.now, r.now + d);
    SeenLater(s, r.ledger.store, r.now, r.now + d);
    q := ExpireEach(c, p, due);
  }

  /** The keys whose values expire between `t` and `u`. */
  function Due(s: M.Setup, store: map<Key, Value>, t: nat, u: nat): set<Key> {
    set k | k in store && !s.expired(store[k], t) && s.expired(store[k], u)
  }

  lemma SeenLater(s: M.Setup, store: map<Key, Value>, t: nat, u: nat)
    requires forall v :: s.expired(v, t) ==> s.expired(v, u)
    ensures var seen, due := S.Seen(s, store, t), Due(s, store, t, u);
      && (forall k :: k in due ==> L.Live(seen, k))
      && S.Seen(s, store, u) == Expiring(seen, due)
  {
  }

  /** The store with the entries in `due` expired. */
  function Expiring(store: map<Key, L.Entry>, due: set<Key>): map<Key, L.Entry> {
    map k | k in store :: if k in due then store[k].(live := false) else store[k]
  }

  lemma NextSim(c: P.Config, s: M.Setup, r: State, p: P.State, a: Action) returns (q: P.State)
    requires c.buckets > 0 && R.Monotone(s) && P.Reachable(c, p) && Sim(s, r, p) && Enabled(c, s, r, a)
    ensures P.Reachable(c, q) && Sim(s, Next(c, s, r, a), q)
  {
    match a
    case Spawn(call) => q := P.Do(c, p, P.Spawn(call));
    case Step(i) =>
      if r.threads[i].pc.Storing? {
        q := FinishSim(c, s, r, p, i);
      } else if r.threads[i].pc.Looking? && !r.threads[i].call.kind.Inspector? {
        q := LookSim(c, s, r, p, i);
      } else {
        StepEnabled(c, s, r, p, i);
        q := P.Do(c, p, P.Step(i));
        MovedSim(c, s, r, p, i, P.NextPc(c, r.threads[i], false));
      }
    case Return(i, o) =>
      q := P.Do(c, p, P.Return(i, o));
      var pc, e := P.ReturnPc(c, r.threads[i], o), L.Ran(i, r.threads[i].call, o);
      MovedSim(c, s, r, p, i, pc);
      LoggedSim(s, Moved(c, s, r, i, pc), P.Move(c, p, i, pc), e);
    case Abandon(i) =>
      q := P.Do(c, p, P.Abandon(i));
      MovedSim(c, s, r, p, i, P.Dropped);
    case Maintain(op) => q := MaintainSim(c, s, r, p, op);
    case Tick(d) => q := TickSim(c, s, r, p, d);
  }

  /**
   The emitted calls over an `ExpiringCache` do nothing that the protocol over an abstract
   store does not do: every run shows as a run of the protocol, with the same calls and locks,
   the same log, and for store the map as seen at the current instant.
   */
  lemma {:induction false} CacheRefinesProtocol(c: P.Config, s: M.Setup, actions: seq<Action>) returns (p: P.State)
    requires c.buckets > 0 && R.Monotone(s) && Run(c, s, actions).Some?
    ensures P.Reachable(c, p) && Sim(s, Run(c, s, actions).value, p)
  {
    if actions == [] {
      p := P.INITIAL;
      assert P.Run(c, P.INITIAL, []) == Some(p);
    } else {
      var before := actions[..|actions| - 1];
      var p' := CacheRefinesProtocol(c, s, before);
      p := NextSim(c, s, Run(c, s, before).value, p', actions[|actions| - 1]);
    }
  }

  // ---- What holds of every run ------------------------------------------------------------------------

  /**
   Single flight: under `by_key` and `default`, an unforced call that is in its body or about
   to store finds no live value at its key in the map, however time passes and whatever is
   swept: nobody else has stored one since it looked.
   */
  lemma StoresFindNothingLive(c: P.Config, s: M.Setup, actions: seq<Action>, i: nat)
    requires c.buckets > 0 && c.mode != P.Disabled && R.Monotone(s) && Run(c, s, actions).Some?
    requires var r := Run(c, s, actions).value;
      && i < |r.threads| && L.Unforced(r.threads[i].call)
      && (r.threads[i].pc.Running? || r.threads[i].pc.Returned? || r.threads[i].pc.Storing?)
    ensures var r := Run(c, s, actions).value;
      M.Live(s, r.ledger.store, r.threads[i].call.key, r.now) == None
  {
    var p := CacheRefinesProtocol(c, s, actions);
    H.ReachableHistory(c, p);
    assert H.ThreadInv(c, p, i, p.threads[i]);
  }

  /**
   Lookups serve what is live, in every mode: an unforced call whose key holds a live value at
   the instant it looks returns that value and leaves the map alone; otherwise it does not
   return.
   */
  lemma LookupServesTheLive(c: P.Config, s: M.Setup, r: State, i: nat)
    requires c.buckets > 0 && CanStep(c, s, r, i) && r.threads[i].pc.Looking? && L.Unforced(r.threads[i].call)
    ensures var call, next := r.threads[i].call, Next(c, s, r, Step(i));
      match M.Live(s, r.ledger.store, call.key, r.now)
      case Some(v) =>
        && next.threads[i].pc == P.Done && next.ledger.store == r.ledger.store
        && next.log == r.log + [L.Answered(i, call, Keep(v), true)]
      case None =>
        next.threads[i].pc != P.Done && forall n :: |r.log| <= n < |next.log| ==> !next.log[n].Answered?
  {
    var t := r.threads[i];
    var (m, hit, panicked) := S.LookUp(c, s, r.ledger, t.call, r.now);
    S.LookUpMeans(c, s, r.ledger, t.call, r.now);
    assert L.Live(S.Seen(s, r.ledger.store, r.now), t.call.key)
      <==> M.Live(s, r.ledger.store, t.call.key, r.now).Some?;
    if hit.Some? {
      assert Listed(r.ledger.store.Keys - m.store.Keys) == [] by {
        assert r.ledger.store.Keys - m.store.Keys == {};
      }
      assert Kept(r, m).log == r.log;
    }
  }

  /** A step in which the eviction callback panics ends the call without an answer, and no
      other step does. */
  lemma UnwoundCallsDoNotReturn(c: P.Config, s: M.Setup, r: State, i: nat)
    requires c.buckets > 0 && CanStep(c, s, r, i)
    ensures var next := Next(c, s, r, Step(i));
      && (next.threads[i].pc == P.Dropped <==> R.CallbackPanicked(s, r.ledger, next.ledger))
      && (next.threads[i].pc == P.Dropped ==> forall n :: |r.log| <= n < |next.log| ==> !next.log[n].Answered?)
  {
    var t := r.threads[i];
    if t.pc.Storing? {
      S.FinalSectionPanics(c, s, r.ledger, t.call, t.pc.outcome, r.now);
    } else if t.pc.Looking? && !t.call.kind.Inspector? {
      S.LookUpPanics(c, s, r.ledger, t.call, r.now);
    }
  }

  /** Every call that returns a value it did not find cached has just stored it. */
  lemma AnswersAreStored(c: P.Config, s: M.Setup, actions: seq<Action>, n: nat)
    requires c.buckets > 0 && R.Monotone(s) && Run(c, s, actions).Some?
    requires var log := Run(c, s, actions).value.log;
      n < |log| && log[n].Answered? && !log[n].cached && log[n].outcome.Keep?
    ensures var log := Run(c, s, actions).value.log;
      n > 0 && L.WroteFor(log[n - 1], log[n].id, log[n].call, log[n].outcome.value)
  {
    var log := Run(c, s, actions).value.log;
    var p := CacheRefinesProtocol(c, s, actions);
    var j := BaredAt(p.log, n);
    H.AnswersAreStored(c, p, j);
    var past := p.log[..j];
    assert past[|past| - 1] == p.log[j - 1];
    assert Bared(past)[|Bared(past)| - 1] == Bare(p.log[j - 1]);
    assert log[..n] == Bared(past);
  }

  /** Thread `i` can move: take its next step, or come back from its body. */
  predicate CanMove(c: P.Config, s: M.Setup, r: State, i: nat)
    requires c.buckets > 0
  {
    CanStep(c, s, r, i) || (i < |r.threads| && r.threads[i].pc == P.Running)
  }

  /** Deadlock freedom: while a call is unfinished, some call can move. */
  lemma SomeoneCanMove(c: P.Config, s: M.Setup, actions: seq<Action>) returns (i: nat)
    requires c.buckets > 0 && R.Monotone(s) && Run(c, s, actions).Some?
    requires var r := Run(c, s, actions).value;
      exists j :: 0 <= j < |r.threads| && !P.Over(r.threads[j])
    ensures CanMove(c, s, Run(c, s, actions).value, i)
  {
    var p := CacheRefinesProtocol(c, s, actions);
    K.ReachableLocks(c, p);
    i := K.SomeoneCanMove(c, p);
    MovesHere(c, s, Run(c, s, actions).value, p, i);
  }

  /** A lookup needs no further lock, whether or not it hits. */
  lemma MovesHere(c: P.Config, s: M.Setup, r: State, p: P.State, i: nat)
    requires c.buckets > 0 && Sim(s, r, p) && K.LockInv(c, p) && K.CanMove(c, p, i)
    ensures CanMove(c, s, r, i)
  {
    assert K.PcOk(c, p.threads[i]);
  }

  /**
   Whatever the scheduler does, a sequence of moves of existing calls comes to an end: every
   one lowers the protocol's rank of the calls.
   */
  lemma MoveDropsRank(c: P.Config, s: M.Setup, actions: seq<Action>, a: Action)
    requires c.buckets > 0 && R.Monotone(s) && Run(c, s, actions).Some?
    requires Enabled(c, s, Run(c, s, actions).value, a) && (a.Step? || a.Return? || a.Abandon?)
    ensures var r := Run(c, s, actions).value;
      K.TotalRank(Next(c, s, r, a).threads) < K.TotalRank(r.threads)
  {
    var r := Run(c, s, actions).value;
    var i := a.thread;
    var p := CacheRefinesProtocol(c, s, actions);
    K.ReachableLocks(c, p);
    assert K.PcOk(c, r.threads[i]);
    var pc := GoesTo(c, s, r, a);
    T.TotalDrops(r.threads, K.Rank, i, r.threads[i].(pc := pc));
  }

  /** A move takes one call, and no other, to a point of lower rank. */
  lemma GoesTo(c: P.Config, s: M.Setup, r: State, a: Action) returns (pc: P.Pc)
    requires c.buckets > 0 && Enabled(c, s, r, a) && (a.Step? || a.Return? || a.Abandon?)
    requires K.PcOk(c, r.threads[a.thread])
    ensures Next(c, s, r, a).threads == r.threads[a.thread := r.threads[a.thread].(pc := pc)]
    ensures K.Rank(r.threads[a.thread].(pc := pc)) < K.Rank(r.threads[a.thread])
  {
    var i := a.thread;
    var t := r.threads[i];
    match a
    case Step(_) =>
      if t.pc.Storing? {
        pc := if S.FinalSection(c, s, r.ledger, t.call, t.pc.outcome, r.now).2 then P.Dropped else P.Done;
      } else if t.pc.Looking? && !t.call.kind.Inspector? {
        pc := LooksTo(c, s, r, i);
      } else {
        pc := P.NextPc(c, t, false);
      }
    case Return(_, o) => pc := P.ReturnPc(c, t, o);
    case Abandon(_) => pc := P.Dropped;
  }

  lemma LooksTo(c: P.Config, s: M.Setup, r: State, i: nat) returns (pc: P.Pc)
    requires c.buckets > 0 && i < |r.threads| && r.threads[i].pc.Looking? && !r.threads[i].call.kind.Inspector?
    ensures Look(c, s, r, i).threads == r.threads[i := r.threads[i].(pc := pc)]
    ensures K.Rank(r.threads[i].(pc := pc)) < K.Rank(r.threads[i])
  {
    var t := r.threads[i];
    var (m, hit, panicked) := S.LookUp(c, s, r.ledger, t.call, r.now);
    pc := if panicked then P.Dropped else if hit.Some? then P.Done else P.NextPc(c, t, false);
  }

  /** At any moment the map holds, at every key, the last value computed for it and not
      removed since, however many bodies have failed and put values back. */
  lemma FailuresNeverRegress(c: P.Config, s: M.Setup, actions: seq<Action>, k: Key)
    requires c.buckets > 0 && R.Monotone(s) && Run(c, s, actions).Some?
    ensures var r := Run(c, s, actions).value;
      L.LastGood(r.log, k) == if k in r.ledger.store then Some(r.ledger.store[k]) else None
  {
    var p := CacheRefinesProtocol(c, s, actions);
    H.FailuresNeverRegress(c, p, k);
    BaredGood(p.log, k);
  }

  /** Under `result_fallback`, once a value is stored for a key and until the key is removed
      from the map, no ordinary call for it returns an error, expired or not. */
  lemma NoErrorAfterSuccess(c: P.Config, s: M.Setup, actions: seq<Action>, m: nat, n: nat)
    requires c.buckets > 0 && c.resultFallback && R.Monotone(s) && Run(c, s, actions).Some?
    requires var log := Run(c, s, actions).value.log;
      && m < n < |log| && log[m].Wrote? && log[m].computed
      && log[n].Answered? && log[n].call.kind == L.Ordinary && log[n].call.key == log[m].call.key
      && L.Removed(log[m].call.key) !in log[m..n]
    ensures Run(c, s, actions).value.log[n].outcome.Keep?
  {
    var log := Run(c, s, actions).value.log;
    var k := log[m].call.key;
    var p := CacheRefinesProtocol(c, s, actions);
    var j := BaredAt(p.log, n);
    H.ReachableHistory(c, p);
    assert H.Justified(c, p.log[..j], p.log[j]);
    assert log[..n][m..] == log[m..n];
    L.GoodPersists(log[..n], m, k);
    BaredGood(p.log[..j], k);
  }

  /** If every completed body run gave `f` of its key, every call returned `f` of its key and
      the map holds nothing but payloads of `f`, whatever expired, was swept or panicked. */
  lemma MemoizationIsTransparent(c: P.Config, s: M.Setup, actions: seq<Action>, f: Key -> Outcome)
    requires c.buckets > 0 && R.Monotone(s) && Run(c, s, actions).Some?
    requires forall e :: e in Run(c, s, actions).value.log && e.Ran? ==> e.outcome == f(e.call.key)
    ensures var r := Run(c, s, actions).value;
      && (forall e :: e in r.log && e.Answered? ==> e.outcome == f(e.call.key))
      && (forall k :: k in r.ledger.store ==> Keep(r.ledger.store[k]) == f(k))
  {
    var r := Run(c, s, actions).value;
    var p := CacheRefinesProtocol(c, s, actions);
    forall n | 0 <= n < |p.log| && p.log[n].Ran? ensures p.log[n].outcome == f(p.log[n].call.key) {
      BaredFrom(p.log, n);
    }
    H.MemoizationIsTransparent(c, p, f);
    forall e | e in r.log && e.Answered? ensures e.outcome == f(e.call.key) {
      var m :| 0 <= m < |r.log| && r.log[m] == e;
      var n := BaredAt(p.log, m);
    }
    forall k | k in r.ledger.store ensures Keep(r.ledger.store[k]) == f(k) {
      assert k in p.store;
    }
  }
}
