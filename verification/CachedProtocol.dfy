/**
 The code `#[cached]` emits, as a transition system. Each call is a thread with a program
 counter; the shared state is the store, the cache lock, the bucket locks of `by_key`, and
 a log of what happened. Any number of calls, over any keys, interleave step by step.
 */
module CachedProtocol {
  import opened Basics
  import opened CallLog

  /** `sync_writes`. */
  datatype Mode = Disabled | Default | ByKey

  /** The attribute arguments that shape the emitted code. `hash` is the per-static hasher. */
  datatype Config = Config(mode: Mode, unsyncReads: bool, resultFallback: bool,
                           buckets: nat, hash: Key -> nat)

  /** `KeyedCache::bucket_for`. */
  function BucketFor(c: Config, k: Key): nat
    requires c.buckets > 0
  {
    c.hash(k) % c.buckets
  }

  datatype Pc =
    | Enter                        // nothing held
    | Keyed                        // bucket lock held, about to take the cache lock
    | Looking(shared: bool)        // cache lock held, about to look the key up
    | Recheck                      // optimistic read missed, about to take the write lock
    | Running                      // in the function body
    | Returned(outcome: Outcome)   // body finished, about to lock for the store
    | KeyedStore(outcome: Outcome) // prime under `by_key`: bucket held, cache lock not yet
    | Storing(outcome: Outcome)    // write lock held, about to store and return
    | Done                         // returned
    | Dropped                      // unwound or cancelled without returning

  datatype Thread = Thread(call: Call, pc: Pc)

  datatype State = State(threads: seq<Thread>, writer: Option<nat>, readers: set<nat>,
                         owners: map<nat, nat>, store: map<Key, Entry>, log: seq<Event>)

  const INITIAL := State([], None, {}, map[], map[], [])

  datatype Action =
    | Spawn(call: Call)
    | Step(thread: nat)
    | Return(thread: nat, outcome: Outcome) // the body returns
    | Abandon(thread: nat)                  // a panic unwinds, or an async call is dropped
    | Unwind(thread: nat)                   // the store's eviction callback panics after the write
    | Expire(k: Key)                        // the environment: an entry expires
    | Evict(k: Key)                         // the environment: an entry is removed

  // ---- Guards: which locks a thread's current scope holds --------------------------------

  datatype Guard = NoGuard | Read | Write

  function CacheGuard(c: Config, t: Thread): Guard {
    match t.pc
    case Looking(shared) => if shared then Read else Write
    case Storing(_) => Write
    case Running => if c.mode == Default && t.call.kind == Ordinary then Write else NoGuard
    case _ => NoGuard
  }

  predicate BucketGuard(c: Config, t: Thread) {
    && c.mode == ByKey
    && match t.call.kind
       case Ordinary => t.pc.Keyed? || t.pc.Looking? || t.pc.Running? || t.pc.Returned? || t.pc.Storing?
       case Prime => t.pc.KeyedStore? || t.pc.Storing?
       case Inspector(_) => false
  }

  // ---- Transitions -------------------------------------------------------------------------

  /** The guarded lookup succeeds: `force_refresh` skips it, an expired entry is a miss. */
  predicate Hit(s: State, t: Thread) {
    t.call.kind == Ordinary && !t.call.forced && Live(s.store, t.call.key)
  }

  /** Where a step takes a thread that is neither in its body nor done. */
  function NextPc(c: Config, t: Thread, hit: bool): Pc {
    match t.pc
    case Enter =>
      (match t.call.kind
       case Ordinary =>
         if c.mode == ByKey then Keyed else Looking(c.unsyncReads && !c.resultFallback)
       case Prime => Running
       case Inspector(exclusive) => Looking(!exclusive))
    case Keyed => Looking(c.unsyncReads)
    case Looking(shared) =>
      if t.call.kind.Inspector? || hit then Done
      else if c.mode == Default && shared then Recheck
      else Running
    case Recheck => Looking(false)
    case Returned(o) => if c.mode == ByKey && t.call.kind == Prime then KeyedStore(o) else Storing(o)
    case KeyedStore(o) => Storing(o)
    case _ => Done
  }

  /** Every lock the thread newly takes in going to `pc` is available. */
  predicate LocksFree(c: Config, s: State, i: nat, pc: Pc)
    requires c.buckets > 0 && i < |s.threads|
  {
    var t := s.threads[i];
    var t' := t.(pc := pc);
    && (CacheGuard(c, t') == Write && CacheGuard(c, t) != Write ==> s.writer == None && s.readers == {})
    && (CacheGuard(c, t') == Read && CacheGuard(c, t) != Read ==> s.writer == None)
    && (BucketGuard(c, t') && !BucketGuard(c, t) ==> BucketFor(c, t.call.key) !in s.owners)
  }

  /** The call is over. */
  predicate Over(t: Thread) {
    t.pc == Done || t.pc == Dropped
  }

  predicate CanStep(c: Config, s: State, i: nat)
    requires c.buckets > 0
  {
    && i < |s.threads| && s.threads[i].pc != Running && !Over(s.threads[i])
    && LocksFree(c, s, i, NextPc(c, s.threads[i], Hit(s, s.threads[i])))
  }

  /** Thread `i` goes to `pc`, taking and releasing locks as its guards come and go. */
  function Move(c: Config, s: State, i: nat, pc: Pc): State
    requires c.buckets > 0 && i < |s.threads|
  {
    var t := s.threads[i].(pc := pc);
    var b := BucketFor(c, t.call.key);
    s.(threads := s.threads[i := t],
       writer := if CacheGuard(c, t) == Write then Some(i)
                 else if s.writer == Some(i) then None else s.writer,
       readers := if CacheGuard(c, t) == Read then s.readers + {i} else s.readers - {i},
       owners := if BucketGuard(c, t) then s.owners[b := i]
                 else if b in s.owners && s.owners[b] == i then s.owners - {b} else s.owners)
  }

  /** What the final lock section returns: under `result_fallback`, an error gives way to the
      value stored at the key, even an expired one, read under this same lock. */
  function Settled(c: Config, s: State, t: Thread, o: Outcome): Outcome {
    if c.resultFallback && t.call.kind == Ordinary && o.Skip? && t.call.key in s.store
    then Keep(s.store[t.call.key].value)
    else o
  }

  /** Thread `i` stores `v` under the write lock and goes to `pc`. */
  function Store(c: Config, s: State, i: nat, v: Value, pc: Pc): State
    requires c.buckets > 0 && i < |s.threads| && s.threads[i].pc.Storing?
  {
    var t := s.threads[i];
    Move(c, s, i, pc).(store := s.store[t.call.key := Entry(v, true)],
                       log := s.log + [Wrote(i, t.call, v, t.pc.outcome.Keep?, |s.log|)])
  }

  /** Thread `i` returns `o`. */
  function Answer(s: State, i: nat, o: Outcome, cached: bool): State
    requires i < |s.threads|
  {
    s.(log := s.log + [Answered(i, s.threads[i].call, o, cached)])
  }

  /** Store a payload and return. */
  function Commit(c: Config, s: State, i: nat): State
    requires c.buckets > 0 && i < |s.threads| && s.threads[i].pc.Storing?
  {
    var r := Settled(c, s, s.threads[i], s.threads[i].pc.outcome);
    match r
    case Keep(v) => Answer(Store(c, s, i, v, Done), i, r, false)
    case Skip(_) => Answer(Move(c, s, i, Done), i, r, false)
  }

  function StepThread(c: Config, s: State, i: nat): State
    requires c.buckets > 0 && CanStep(c, s, i)
  {
    var t := s.threads[i];
    if t.pc.Storing? then Commit(c, s, i)
    else if t.pc.Looking? && Hit(s, t) then
      Answer(Move(c, s, i, Done), i, Keep(s.store[t.call.key].value), true)
    else if t.pc.Looking? && t.call.kind == Ordinary then
      Move(c, s, i, NextPc(c, t, false)).(log := s.log + [Looked(i, t.call)])
    else Move(c, s, i, NextPc(c, t, false))
  }

  /** Under `Default` the write lock is still held when the body returns. */
  function ReturnPc(c: Config, t: Thread, o: Outcome): Pc {
    if c.mode == Default && t.call.kind == Ordinary then Storing(o) else Returned(o)
  }

  predicate Enabled(c: Config, s: State, a: Action)
    requires c.buckets > 0
  {
    match a
    case Spawn(_) => true
    case Step(i) => CanStep(c, s, i)
    case Return(i, _) => i < |s.threads| && s.threads[i].pc == Running
    case Abandon(i) => i < |s.threads| && !Over(s.threads[i])
    case Unwind(i) =>
      && i < |s.threads| && s.threads[i].pc.Storing?
      && Settled(c, s, s.threads[i], s.threads[i].pc.outcome).Keep?
    case Expire(k) => Live(s.store, k)
    case Evict(k) => k in s.store
  }

  function Next(c: Config, s: State, a: Action): State
    requires c.buckets > 0 && Enabled(c, s, a)
  {
    match a
    case Spawn(call) => s.(threads := s.threads + [Thread(call, Enter)])
    case Step(i) => StepThread(c, s, i)
    case Return(i, o) =>
      Move(c, s, i, ReturnPc(c, s.threads[i], o)).(log := s.log + [Ran(i, s.threads[i].call, o)])
    case Abandon(i) => Move(c, s, i, Dropped)
    case Unwind(i) => Store(c, s, i, Settled(c, s, s.threads[i], s.threads[i].pc.outcome).value, Dropped)
    case Expire(k) =>
      s.(store := s.store[k := s.store[k].(live := false)], log := s.log + [Expired(k)])
    case Evict(k) => s.(store := s.store - {k}, log := s.log + [Removed(k)])
  }

  /** The state after `actions`, or `None` when one of them is not enabled where it stands. */
  function Run(c: Config, s: State, actions: seq<Action>): Option<State>
    requires c.buckets > 0
  {
    if actions == [] then Some(s)
    else
      match Run(c, s, actions[..|actions| - 1])
      case None => None
      case Some(r) =>
        var a := actions[|actions| - 1];
        if Enabled(c, r, a) then Some(Next(c, r, a)) else None
  }

  /** `s` can be reached by some interleaving of calls and environment steps. */
  ghost predicate Reachable(c: Config, s: State)
    requires c.buckets > 0
  {
    exists actions :: Run(c, INITIAL, actions) == Some(s)
  }

  lemma ReachableNext(c: Config, s: State, a: Action)
    requires c.buckets > 0 && Reachable(c, s) && Enabled(c, s, a)
    ensures Reachable(c, Next(c, s, a))
  {
    var actions :| Run(c, INITIAL, actions) == Some(s);
    var more := actions + [a];
    assert more[..|more| - 1] == actions;
    assert Run(c, INITIAL, more) == Some(Next(c, s, a));
  }

  lemma Do(c: Config, s: State, a: Action) returns (r: State)
    requires c.buckets > 0 && Reachable(c, s) && Enabled(c, s, a)
    ensures Reachable(c, r) && r == Next(c, s, a)
  {
    ReachableNext(c, s, a);
    r := Next(c, s, a);
  }
}
