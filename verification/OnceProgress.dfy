/**
 Progress of the `#[once]` protocol: nobody waits forever, and every call comes to an end.
 */
module OnceProgress {
  import opened Basics
  import opened Tally
  import opened OnceProtocol
  import opened OnceHistory

  predicate Finished(s: State) {
    forall i :: 0 <= i < |s.threads| ==> Over(s.threads[i])
  }

  /** Thread `i` can move: take its next step, or come back from its body. */
  predicate CanMove(c: Config, s: State, i: nat) {
    CanStep(c, s, i) || (i < |s.threads| && s.threads[i].pc == Running)
  }

  /**
   Deadlock freedom: while a call is unfinished, some call can move. The holder of the write
   lock never waits, nor does a reader: it gives the read lock up before it asks for the
   write lock.
   */
  lemma SomeoneCanMove(c: Config, s: State) returns (i: nat)
    requires LockInv(c, s) && !Finished(s)
    ensures CanMove(c, s, i)
  {
    if s.writer.Some? {
      i := s.writer.value;
      assert HoldsWrite(c, s.threads[i]);
    } else if s.readers != {} {
      i :| i in s.readers;
      assert HoldsRead(s.threads[i]);
    } else {
      i :| 0 <= i < |s.threads| && !Over(s.threads[i]);
    }
  }

  /** With `sync_writes` bodies of ordinary calls never overlap. */
  lemma BodiesExclude(c: Config, s: State, i: nat, j: nat)
    requires c.sync && Reachable(c, s) && i < |s.threads| && j < |s.threads| && i != j
    requires s.threads[i].call.kind == Ordinary && s.threads[i].pc == Running
    ensures s.threads[j].call.kind == Ordinary ==> s.threads[j].pc != Running
    ensures !s.threads[j].pc.Looking? && !s.threads[j].pc.Storing?
  {
    ReachableInv(c, s);
    assert HoldsWrite(c, s.threads[i]);
  }

  /** Without it they do, and lookups always may: nobody holds the lock for longer than that. */
  lemma BodiesMayOverlap(c: Config)
    ensures !c.sync ==> exists s ::
      && Reachable(c, s) && |s.threads| == 2
      && s.threads[0].pc == Running && s.threads[1].pc == Running
      && s.threads[0].call == s.threads[1].call == Call(Ordinary, false)
    ensures exists s ::
      && Reachable(c, s) && |s.threads| == 2
      && s.threads[0].pc == Looking(true) && s.threads[1].pc == Looking(true)
  {
    var s := BothLook(c);
    if !c.sync {
      var s1 := Do(c, s, Step(0));
      var s2 := Do(c, s1, Step(1));
    }
  }

  lemma {:induction false} BothLook(c: Config) returns (s: State)
    ensures Reachable(c, s) && |s.threads| == 2 && s.cell == None && s.writer == None
    ensures s.threads[0].pc == Looking(true) && s.threads[1].pc == Looking(true)
    ensures s.threads[0].call == s.threads[1].call == Call(Ordinary, false)
  {
    assert Run(c, INITIAL, []) == Some(INITIAL);
    var s1 := Do(c, INITIAL, Spawn(Call(Ordinary, false)));
    var s2 := Do(c, s1, Spawn(Call(Ordinary, false)));
    var s3 := Do(c, s2, Step(0));
    var s4 := Do(c, s3, Step(1));
    var s5 := Do(c, s4, Step(0));
    s := Do(c, s5, Step(1));
  }

  /** Steps a thread still has before it, at most. */
  function Rank(t: Thread): nat {
    match t.pc
    case Enter => 8
    case Opening => 7
    case Looking(shared) => if shared then 6 else 4
    case Recheck => 5
    case Running => 3
    case Returned(_) => 2
    case Storing(_) => 1
    case Done => 0
    case Dropped => 0
  }

  /** Steps all calls together still have before them, at most. */
  function TotalRank(ts: seq<Thread>): nat {
    Total(ts, Rank)
  }

  /** A move of an existing call, as opposed to a new call, the clock or an expiry. */
  predicate Moves(a: Action) {
    a.Step? || a.Return? || a.Abandon?
  }

  lemma MoveDropsRank(c: Config, s: State, a: Action)
    requires Enabled(c, s, a) && Moves(a)
    ensures TotalRank(Next(c, s, a).threads) < TotalRank(s.threads)
  {
    var i := a.thread;
    var t := Next(c, s, a).threads[i];
    assert Next(c, s, a).threads == s.threads[i := t];
    TotalDrops(s.threads, Rank, i, t);
  }

  /** Every schedule of moves from `s` is at most `TotalRank` long. */
  lemma {:induction false} SchedulesAreShort(c: Config, s: State, actions: seq<Action>)
    requires Run(c, s, actions).Some? && forall a :: a in actions ==> Moves(a)
    ensures |actions| + TotalRank(Run(c, s, actions).value.threads) <= TotalRank(s.threads)
  {
    if actions != [] {
      var before := actions[..|actions| - 1];
      SchedulesAreShort(c, s, before);
      MoveDropsRank(c, Run(c, s, before).value, actions[|actions| - 1]);
    }
  }

  lemma {:induction false} RunStaysReachable(c: Config, s: State, actions: seq<Action>)
    requires Reachable(c, s) && Run(c, s, actions).Some?
    ensures Reachable(c, Run(c, s, actions).value)
  {
    if actions != [] {
      var before := actions[..|actions| - 1];
      RunStaysReachable(c, s, before);
      ReachableNext(c, Run(c, s, before).value, actions[|actions| - 1]);
    }
  }

  /**
   Whatever the scheduler does from a reachable state, it runs out of moves after boundedly
   many, and when it has, every call has finished and the lock is free.
   */
  lemma EveryCallFinishes(c: Config, s: State, actions: seq<Action>)
    requires Reachable(c, s) && Run(c, s, actions).Some? && forall a :: a in actions ==> Moves(a)
    ensures |actions| <= TotalRank(s.threads)
    ensures var r := Run(c, s, actions).value;
      (forall i :: !CanMove(c, r, i)) ==> Finished(r) && r.writer == None && r.readers == {}
  {
    SchedulesAreShort(c, s, actions);
    RunStaysReachable(c, s, actions);
    var r := Run(c, s, actions).value;
    ReachableInv(c, r);
    if forall i :: !CanMove(c, r, i) {
      StuckMeansFinished(c, r);
    }
  }

  lemma StuckMeansFinished(c: Config, s: State)
    requires LockInv(c, s) && forall i :: !CanMove(c, s, i)
    ensures Finished(s) && s.writer == None && s.readers == {}
  {
    if !Finished(s) {
      var i := SomeoneCanMove(c, s);
    }
  }
}
