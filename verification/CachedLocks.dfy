/**
 Locking in the `#[cached]` protocol: who excludes whom, and why nobody waits forever.
 */
module CachedLocks {
  import opened Basics
  import opened CallLog
  import opened Tally
  import opened CachedProtocol

  /** Program points each kind of call can be at. */
  ghost predicate PcOk(c: Config, t: Thread) {
    match t.call.kind
    case Ordinary => !t.pc.KeyedStore? && (c.mode == Default ==> !t.pc.Returned?)
    case Prime => !t.pc.Keyed? && !t.pc.Looking? && !t.pc.Recheck?
    case Inspector(_) => t.pc.Enter? || t.pc.Looking? || Over(t)
  }

  /** The lock words say exactly what the threads' guards say. */
  ghost predicate LockInv(c: Config, s: State)
    requires c.buckets > 0
  {
    && (forall i :: 0 <= i < |s.threads| ==> PcOk(c, s.threads[i]))
    && CacheLockInv(c, s) && BucketInv(c, s)
  }

  ghost predicate CacheLockInv(c: Config, s: State)
    requires c.buckets > 0
  {
    && (forall i :: 0 <= i < |s.threads| ==>
         (CacheGuard(c, s.threads[i]) == Write <==> s.writer == Some(i))
         && (CacheGuard(c, s.threads[i]) == Read <==> i in s.readers))
    && (s.writer.Some? ==> s.writer.value < |s.threads| && s.readers == {})
    && (forall i :: i in s.readers ==> i < |s.threads|)
  }

  ghost predicate BucketInv(c: Config, s: State)
    requires c.buckets > 0
  {
    && (forall i :: 0 <= i < |s.threads| && BucketGuard(c, s.threads[i]) ==>
         Owns(c, s, i))
    && (forall b :: b in s.owners ==>
         && s.owners[b] < |s.threads|
         && BucketGuard(c, s.threads[s.owners[b]])
         && BucketFor(c, s.threads[s.owners[b]].call.key) == b)
  }

  ghost predicate Owns(c: Config, s: State, i: nat)
    requires c.buckets > 0 && i < |s.threads|
  {
    var b := BucketFor(c, s.threads[i].call.key);
    b in s.owners && s.owners[b] == i
  }

  lemma MoveKeepsLocks(c: Config, s: State, i: nat, pc: Pc)
    requires c.buckets > 0 && LockInv(c, s) && i < |s.threads|
    requires LocksFree(c, s, i, pc) && PcOk(c, s.threads[i].(pc := pc))
    ensures LockInv(c, Move(c, s, i, pc))
  {
    MoveKeepsCacheLock(c, s, i, pc);
    MoveKeepsBuckets(c, s, i, pc);
  }

  lemma MoveKeepsCacheLock(c: Config, s: State, i: nat, pc: Pc)
    requires c.buckets > 0 && CacheLockInv(c, s) && i < |s.threads| && LocksFree(c, s, i, pc)
    ensures CacheLockInv(c, Move(c, s, i, pc))
  {
    var r := Move(c, s, i, pc);
    assert forall j :: 0 <= j < |s.threads| && j != i ==> r.threads[j] == s.threads[j];
  }

  lemma MoveKeepsBuckets(c: Config, s: State, i: nat, pc: Pc)
    requires c.buckets > 0 && BucketInv(c, s) && i < |s.threads| && LocksFree(c, s, i, pc)
    ensures BucketInv(c, Move(c, s, i, pc))
  {
    var r := Move(c, s, i, pc);
    assert forall j :: 0 <= j < |s.threads| && j != i ==> r.threads[j] == s.threads[j];
    forall j | 0 <= j < |r.threads| && BucketGuard(c, r.threads[j]) ensures Owns(c, r, j) {
      if j != i {
        assert Owns(c, s, j);
      }
    }
  }

  lemma SpawnKeepsLocks(c: Config, s: State, call: Call)
    requires c.buckets > 0 && LockInv(c, s)
    ensures LockInv(c, Next(c, s, Spawn(call)))
  {
    var r := Next(c, s, Spawn(call));
    forall j | 0 <= j < |r.threads| && BucketGuard(c, r.threads[j]) ensures Owns(c, r, j) {
      assert Owns(c, s, j);
    }
  }

  lemma StepKeepsLocks(c: Config, s: State, i: nat)
    requires c.buckets > 0 && LockInv(c, s) && CanStep(c, s, i)
    ensures LockInv(c, StepThread(c, s, i))
  {
    var t := s.threads[i];
    MoveKeepsLocks(c, s, i, NextPc(c, t, Hit(s, t)));
    SameLocks(c, Move(c, s, i, NextPc(c, t, Hit(s, t))), StepThread(c, s, i));
  }

  lemma NextKeepsLocks(c: Config, s: State, a: Action)
    requires c.buckets > 0 && LockInv(c, s) && Enabled(c, s, a)
    ensures LockInv(c, Next(c, s, a))
  {
    match a
    case Spawn(call) => SpawnKeepsLocks(c, s, call);
    case Step(i) => StepKeepsLocks(c, s, i);
    case Return(i, o) =>
      MoveKeepsLocks(c, s, i, ReturnPc(c, s.threads[i], o));
      SameLocks(c, Move(c, s, i, ReturnPc(c, s.threads[i], o)), Next(c, s, a));
    case Abandon(i) => MoveKeepsLocks(c, s, i, Dropped);
    case Unwind(i) =>
      MoveKeepsLocks(c, s, i, Dropped);
      SameLocks(c, Move(c, s, i, Dropped), Next(c, s, a));
    case Expire(k) => SameLocks(c, s, Next(c, s, a));
    case Evict(k) => SameLocks(c, s, Next(c, s, a));
  }

  lemma SameLocks(c: Config, s: State, r: State)
    requires c.buckets > 0 && LockInv(c, s)
    requires r == s.(store := r.store, log := r.log)
    ensures LockInv(c, r)
  {
    assert forall i :: 0 <= i < |s.threads| && Owns(c, s, i) ==> Owns(c, r, i);
  }

  lemma {:induction false} RunKeepsLocks(c: Config, s: State, actions: seq<Action>)
    requires c.buckets > 0 && LockInv(c, s) && Run(c, s, actions).Some?
    ensures LockInv(c, Run(c, s, actions).value)
  {
    if actions != [] {
      var before := actions[..|actions| - 1];
      RunKeepsLocks(c, s, before);
      NextKeepsLocks(c, Run(c, s, before).value, actions[|actions| - 1]);
    }
  }

  lemma ReachableLocks(c: Config, s: State)
    requires c.buckets > 0 && Reachable(c, s)
    ensures LockInv(c, s)
  {
    var actions :| Run(c, INITIAL, actions) == Some(s);
    RunKeepsLocks(c, INITIAL, actions);
  }

  // ---- Mutual exclusion ----------------------------------------------------------------

  /**
   Bodies of ordinary calls never overlap: under `by_key` when their keys share a bucket,
   under `default` at all. Under `by_key`, nor do a body and a prime's store for its bucket.
   */
  lemma BodiesExclude(c: Config, s: State, i: nat, j: nat)
    requires c.buckets > 0 && Reachable(c, s) && i < |s.threads| && j < |s.threads| && i != j
    requires s.threads[i].call.kind == Ordinary && s.threads[i].pc == Running
    ensures c.mode == ByKey && s.threads[j].call.kind == Ordinary && s.threads[j].pc == Running ==>
      BucketFor(c, s.threads[i].call.key) != BucketFor(c, s.threads[j].call.key)
    ensures c.mode == ByKey && s.threads[j].pc.Storing? ==>
      BucketFor(c, s.threads[i].call.key) != BucketFor(c, s.threads[j].call.key)
    ensures c.mode == Default ==> !s.threads[j].pc.Storing? && !s.threads[j].pc.Looking?
    ensures c.mode == Default && s.threads[j].call.kind == Ordinary ==> s.threads[j].pc != Running
  {
    ReachableLocks(c, s);
    assert BucketGuard(c, s.threads[i]) ==> Owns(c, s, i);
    assert BucketGuard(c, s.threads[j]) ==> Owns(c, s, j);
  }

  /**
   And no more than that is excluded: bodies for keys that the hash puts into different
   buckets, or with `sync_writes` unset for any keys, do overlap.
   */
  lemma BodiesMayOverlap(c: Config, k: Key, l: Key)
    requires c.buckets > 0
    requires c.mode == Disabled || (c.mode == ByKey && c.hash(k) % c.buckets != c.hash(l) % c.buckets)
    ensures exists s ::
      && Reachable(c, s) && |s.threads| == 2
      && s.threads[0] == Thread(Call(Ordinary, k, false), Running)
      && s.threads[1] == Thread(Call(Ordinary, l, false), Running)
  {
    assert Run(c, INITIAL, []) == Some(INITIAL);
    var s1 := Do(c, INITIAL, Spawn(Call(Ordinary, k, false)));
    var s2 := Do(c, s1, Spawn(Call(Ordinary, l, false)));
    var s3 := ToBody(c, s2, 0);
    var s4 := ToBody(c, s3, 1);
  }

  /** With nothing stored and no lock in its way, a call gets to its body. */
  lemma ToBody(c: Config, s: State, i: nat) returns (r: State)
    requires c.buckets > 0 && c.mode != Default && Reachable(c, s)
    requires s.writer == None && s.readers == {} && s.store == map[]
    requires i < |s.threads| && s.threads[i].call.kind == Ordinary && s.threads[i].pc == Enter
    requires c.mode == ByKey ==> BucketFor(c, s.threads[i].call.key) !in s.owners
    ensures Reachable(c, r) && r.threads == s.threads[i := s.threads[i].(pc := Running)]
    ensures r.writer == None && r.readers == {} && r.store == map[]
    ensures r.owners == if c.mode == ByKey then s.owners[BucketFor(c, s.threads[i].call.key) := i] else r.owners
  {
    if c.mode == ByKey {
      var k := Do(c, s, Step(i));
      r := ThroughLookup(c, k, i);
    } else {
      r := ThroughLookup(c, s, i);
    }
  }

  lemma {:induction false} ThroughLookup(c: Config, s: State, i: nat) returns (r: State)
    requires c.buckets > 0 && c.mode != Default && Reachable(c, s)
    requires s.writer == None && s.readers == {} && s.store == map[]
    requires i < |s.threads| && s.threads[i].call.kind == Ordinary
    requires s.threads[i].pc == if c.mode == ByKey then Keyed else Enter
    requires c.mode == ByKey ==> Owns(c, s, i)
    ensures Reachable(c, r) && r.threads == s.threads[i := s.threads[i].(pc := Running)]
    ensures r.writer == None && r.readers == {} && r.store == map[]
    ensures c.mode == ByKey ==> r.owners == s.owners
  {
    var m := Do(c, s, Step(i));
    r := Do(c, m, Step(i));
    assert r.readers == {};
    assert c.mode == ByKey ==> r.owners == s.owners;
  }

  /** With `unsync_reads` lookups share the lock. */
  lemma LookupsMayOverlap(c: Config, k: Key, l: Key)
    requires c.buckets > 0 && c.unsyncReads && !c.resultFallback && c.mode != ByKey
    ensures exists s ::
      && Reachable(c, s) && |s.threads| == 2
      && s.threads[0] == Thread(Call(Ordinary, k, false), Looking(true))
      && s.threads[1] == Thread(Call(Ordinary, l, false), Looking(true))
  {
    assert Run(c, INITIAL, []) == Some(INITIAL);
    var s1 := Do(c, INITIAL, Spawn(Call(Ordinary, k, false)));
    var s2 := Do(c, s1, Spawn(Call(Ordinary, l, false)));
    var s3 := Do(c, s2, Step(0));
    var s4 := Do(c, s3, Step(1));
  }

  // ---- Progress --------------------------------------------------------------------------

  predicate Finished(s: State) {
    forall i :: 0 <= i < |s.threads| ==> Over(s.threads[i])
  }

  /** Thread `i` can move: take its next step, or come back from its body. */
  predicate CanMove(c: Config, s: State, i: nat)
    requires c.buckets > 0
  {
    CanStep(c, s, i) || (i < |s.threads| && s.threads[i].pc == Running)
  }

  /**
   Deadlock freedom: while a call is unfinished, some call can move. A holder of the cache
   lock never waits; with the cache lock free, a holder of a bucket lock never waits.
   */
  lemma SomeoneCanMove(c: Config, s: State) returns (i: nat)
    requires c.buckets > 0 && LockInv(c, s) && !Finished(s)
    ensures CanMove(c, s, i)
  {
    if s.writer.Some? {
      i := s.writer.value;
    } else if s.readers != {} {
      i :| i in s.readers;
      assert CacheGuard(c, s.threads[i]) == Read;
    } else if s.owners != map[] {
      var b :| b in s.owners;
      i := s.owners[b];
      assert BucketGuard(c, s.threads[i]);
    } else {
      i :| 0 <= i < |s.threads| && !Over(s.threads[i]);
    }
  }

  /** Steps a thread still has before it, at most. */
  function Rank(t: Thread): nat {
    match t.pc
    case Enter => 9
    case Keyed => 8
    case Looking(shared) => if shared then 7 else 5
    case Recheck => 6
    case Running => 4
    case Returned(_) => 3
    case KeyedStore(_) => 2
    case Storing(_) => 1
    case Done => 0
    case Dropped => 0
  }

  /** Steps all calls together still have before them, at most. */
  function TotalRank(ts: seq<Thread>): nat {
    Total(ts, Rank)
  }

  /** A move of an existing call, as opposed to a new call or the environment. */
  predicate Moves(a: Action) {
    a.Step? || a.Return? || a.Abandon? || a.Unwind?
  }

  lemma MoveDropsRank(c: Config, s: State, a: Action)
    requires c.buckets > 0 && LockInv(c, s) && Enabled(c, s, a) && Moves(a)
    ensures TotalRank(Next(c, s, a).threads) < TotalRank(s.threads)
  {
    var i := a.thread;
    assert PcOk(c, s.threads[i]);
    assert Next(c, s, a).threads == s.threads[i := Next(c, s, a).threads[i]];
    TotalDrops(s.threads, Rank, i, Next(c, s, a).threads[i]);
  }

  /** Every schedule of moves from `s` is at most `TotalRank` long. */
  lemma {:induction false} SchedulesAreShort(c: Config, s: State, actions: seq<Action>)
    requires c.buckets > 0 && LockInv(c, s) && Run(c, s, actions).Some?
    requires forall a :: a in actions ==> Moves(a)
    ensures |actions| + TotalRank(Run(c, s, actions).value.threads) <= TotalRank(s.threads)
  {
    if actions != [] {
      var before := actions[..|actions| - 1];
      SchedulesAreShort(c, s, before);
      RunKeepsLocks(c, s, before);
      MoveDropsRank(c, Run(c, s, before).value, actions[|actions| - 1]);
    }
  }

  /**
   Whatever the scheduler does from a reachable state, it runs out of moves after boundedly
   many, and when it has, every call has finished and every lock is free.
   */
  lemma EveryCallFinishes(c: Config, s: State, actions: seq<Action>)
    requires c.buckets > 0 && Reachable(c, s) && Run(c, s, actions).Some?
    requires forall a :: a in actions ==> Moves(a)
    ensures |actions| <= TotalRank(s.threads)
    ensures var r := Run(c, s, actions).value;
      (forall i :: !CanMove(c, r, i)) ==>
        Finished(r) && r.writer == None && r.readers == {} && r.owners == map[]
  {
    ReachableLocks(c, s);
    SchedulesAreShort(c, s, actions);
    RunKeepsLocks(c, s, actions);
    if (forall i :: !CanMove(c, Run(c, s, actions).value, i)) {
      StuckMeansFinished(c, Run(c, s, actions).value);
    }
  }

  lemma StuckMeansFinished(c: Config, s: State)
    requires c.buckets > 0 && LockInv(c, s) && forall i :: !CanMove(c, s, i)
    ensures Finished(s) && s.writer == None && s.readers == {} && s.owners == map[]
  {
    if !Finished(s) {
      var i := SomeoneCanMove(c, s);
    }
  }
}
