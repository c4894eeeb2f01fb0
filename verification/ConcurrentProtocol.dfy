/**
 The code `#[concurrent_cached]` emits over a store that synchronises itself: a lookup, the
 body, and a store, each atomic, with nothing held in between. The get-or-set defaults of
 `ConcurrentCached` have the same shape. Under `result_fallback` the value to fall back to
 is a snapshot taken by the lookup, before the body runs.
 */
module ConcurrentProtocol {
  import opened Basics
  import opened CallLog

  datatype Config = Config(resultFallback: bool)

  /** `since` is the length of the log when the snapshot was taken. */
  datatype Pc =
    | Enter
    | Running(snapshot: Option<Value>, since: nat)
    | Returned(snapshot: Option<Value>, since: nat, outcome: Outcome)
    | Done    // returned
    | Dropped // unwound or cancelled without returning

  datatype Thread = Thread(call: Call, pc: Pc)

  datatype State = State(threads: seq<Thread>, store: map<Key, Entry>, log: seq<Event>)

  const INITIAL := State([], map[], [])

  datatype Action =
    | Spawn(call: Call)
    | Step(thread: nat)
    | Return(thread: nat, outcome: Outcome)
    | Abandon(thread: nat)
    | Unwind(thread: nat) // the store's eviction callback panics after the write
    | Expire(k: Key)
    | Evict(k: Key)

  /** The lookup answers: never for a prime or under `force_refresh`, nor for an expired entry. */
  predicate Hit(s: State, t: Thread) {
    t.call.kind == Ordinary && !t.call.forced && Live(s.store, t.call.key)
  }

  /** What the lookup remembers in case the body fails, expired entries included. */
  function Snapshot(c: Config, s: State, t: Thread): Option<Value> {
    if c.resultFallback && t.call.kind == Ordinary then Stored(s.store, t.call.key) else None
  }

  function Settled(o: Outcome, snapshot: Option<Value>): Outcome {
    if o.Skip? && snapshot.Some? then Keep(snapshot.value) else o
  }

  function At(s: State, i: nat, pc: Pc): State
    requires i < |s.threads|
  {
    s.(threads := s.threads[i := s.threads[i].(pc := pc)])
  }

  /** Thread `i` stores `v` and goes to `pc`. */
  function Store(s: State, i: nat, v: Value, pc: Pc): State
    requires i < |s.threads| && s.threads[i].pc.Returned?
  {
    var t := s.threads[i];
    At(s, i, pc).(store := s.store[t.call.key := Entry(v, true)],
                  log := s.log + [Wrote(i, t.call, v, t.pc.outcome.Keep?, t.pc.since)])
  }

  /** Thread `i` returns `o`. */
  function Answer(s: State, i: nat, o: Outcome, cached: bool): State
    requires i < |s.threads|
  {
    s.(log := s.log + [Answered(i, s.threads[i].call, o, cached)])
  }

  function StepThread(c: Config, s: State, i: nat): State
    requires i < |s.threads| && (s.threads[i].pc.Enter? || s.threads[i].pc.Returned?)
  {
    var t := s.threads[i];
    if t.pc.Returned? then
      var r := Settled(t.pc.outcome, t.pc.snapshot);
      (match r
       case Keep(v) => Answer(Store(s, i, v, Done), i, r, false)
       case Skip(_) => Answer(At(s, i, Done), i, r, false))
    else if Hit(s, t) then Answer(At(s, i, Done), i, Keep(s.store[t.call.key].value), true)
    else At(s, i, Running(Snapshot(c, s, t), |s.log|)).(log := s.log + [Looked(i, t.call)])
  }

  predicate Enabled(s: State, a: Action) {
    match a
    case Spawn(call) => !call.kind.Inspector?
    case Step(i) => i < |s.threads| && (s.threads[i].pc.Enter? || s.threads[i].pc.Returned?)
    case Return(i, _) => i < |s.threads| && s.threads[i].pc.Running?
    case Abandon(i) => i < |s.threads| && !s.threads[i].pc.Done? && !s.threads[i].pc.Dropped?
    case Unwind(i) =>
      && i < |s.threads| && s.threads[i].pc.Returned?
      && Settled(s.threads[i].pc.outcome, s.threads[i].pc.snapshot).Keep?
    case Expire(k) => Live(s.store, k)
    case Evict(k) => k in s.store
  }

  function Next(c: Config, s: State, a: Action): State
    requires Enabled(s, a)
  {
    match a
    case Spawn(call) => s.(threads := s.threads + [Thread(call, Enter)])
    case Step(i) => StepThread(c, s, i)
    case Return(i, o) =>
      var pc := s.threads[i].pc;
      At(s, i, Returned(pc.snapshot, pc.since, o)).(log := s.log + [Ran(i, s.threads[i].call, o)])
    case Abandon(i) => At(s, i, Dropped)
    case Unwind(i) =>
      Store(s, i, Settled(s.threads[i].pc.outcome, s.threads[i].pc.snapshot).value, Dropped)
    case Expire(k) =>
      s.(store := s.store[k := s.store[k].(live := false)], log := s.log + [Expired(k)])
    case Evict(k) => s.(store := s.store - {k}, log := s.log + [Removed(k)])
  }

  function Run(c: Config, actions: seq<Action>): Option<State> {
    if actions == [] then Some(INITIAL)
    else
      match Run(c, actions[..|actions| - 1])
      case None => None
      case Some(r) =>
        var a := actions[|actions| - 1];
        if Enabled(r, a) then Some(Next(c, r, a)) else None
  }

  ghost predicate Reachable(c: Config, s: State) {
    exists actions :: Run(c, actions) == Some(s)
  }

  lemma ReachableNext(c: Config, s: State, a: Action)
    requires Reachable(c, s) && Enabled(s, a)
    ensures Reachable(c, Next(c, s, a))
  {
    var actions :| Run(c, actions) == Some(s);
    var more := actions + [a];
    assert more[..|more| - 1] == actions;
    assert Run(c, more) == Some(Next(c, s, a));
  }
}
