/**
 What a `#[concurrent_cached]` call that misses returns is determined by two moments of its
 own: what its key held when it looked, and what its body returned. In particular, when it
 returns an error.
 */
module ConcurrentErrors {
  import opened Basics
  import opened CallLog
  import opened ConcurrentProtocol
  import opened ConcurrentHistory

  // ---- The invariant -------------------------------------------------------------------------

  /** Both events are lookups, or both body runs, of the same call. */
  predicate SameStage(d: Event, e: Event) {
    (d.Looked? && e.Looked? && d.id == e.id) || (d.Ran? && e.Ran? && d.id == e.id)
  }

  /** No call looks twice or runs its body twice. */
  ghost predicate EachOnce(log: seq<Event>) {
    forall a, b :: 0 <= a < b < |log| ==> !SameStage(log[a], log[b])
  }

  /** The call of a lookup or a body run has got beyond it. */
  predicate Beyond(s: State, e: Event) {
    && (e.Looked? ==> e.id < |s.threads| && !s.threads[e.id].pc.Enter?)
    && (e.Ran? ==> e.id < |s.threads| && !s.threads[e.id].pc.Enter? && !s.threads[e.id].pc.Running?)
  }

  /** What a lookup at position `a` remembers: under `result_fallback`, what the key held. */
  function Remembered(c: Config, log: seq<Event>, a: nat): Option<Value>
    requires a < |log| && log[a].Looked?
  {
    if c.resultFallback && log[a].call.kind == Ordinary then Contents(log[..a], log[a].call.key) else None
  }

  /** Thread `i` looked at position `a` and remembers `snapshot` from there. */
  ghost predicate LookedAt(c: Config, log: seq<Event>, i: nat, call: Call, snapshot: Option<Value>, a: nat) {
    a < |log| && log[a] == Looked(i, call) && snapshot == Remembered(c, log, a)
  }

  ghost predicate ThreadOk(c: Config, log: seq<Event>, i: nat, t: Thread) {
    match t.pc
    case Running(snapshot, since) => LookedAt(c, log, i, t.call, snapshot, since)
    case Returned(snapshot, since, o) =>
      LookedAt(c, log, i, t.call, snapshot, since) && Ran(i, t.call, o) in log
    case _ => true
  }

  /** The answer `e` is what the call's body returned, or what its lookup remembers instead. */
  ghost predicate Settles(c: Config, log: seq<Event>, e: Event)
    requires e.Answered?
  {
    exists a, b ::
      && 0 <= a < |log| && 0 <= b < |log| && log[a] == Looked(e.id, e.call)
      && log[b].Ran? && log[b].id == e.id && e.outcome == Settled(log[b].outcome, Remembered(c, log, a))
  }

  ghost predicate AnswersOk(c: Config, log: seq<Event>) {
    forall n :: 0 <= n < |log| && log[n].Answered? && !log[n].cached ==> Settles(c, log[..n], log[n])
  }

  ghost predicate StageInv(c: Config, s: State) {
    && EachOnce(s.log) && AnswersOk(c, s.log)
    && (forall a :: 0 <= a < |s.log| ==> Beyond(s, s.log[a]))
    && (forall i :: 0 <= i < |s.threads| ==> ThreadOk(c, s.log, i, s.threads[i]))
  }

  // ---- Every action keeps it -------------------------------------------------------------------

  lemma LookedAtGrows(c: Config, log: seq<Event>, e: Event, i: nat, t: Thread)
    requires ThreadOk(c, log, i, t)
    ensures ThreadOk(c, log + [e], i, t)
  {
    if t.pc.Running? || t.pc.Returned? {
      assert (log + [e])[..t.pc.since] == log[..t.pc.since];
    }
  }

  lemma AnswersOkGrows(c: Config, log: seq<Event>, e: Event)
    requires AnswersOk(c, log) && (e.Answered? && !e.cached ==> Settles(c, log, e))
    ensures AnswersOk(c, log + [e])
  {
    var more := log + [e];
    forall n | 0 <= n < |more| && more[n].Answered? && !more[n].cached ensures Settles(c, more[..n], more[n]) {
      assert more[..n] == if n < |log| then log[..n] else log;
    }
  }

  /** Thread `i` ends. */
  lemma StageMoves(c: Config, s: State, i: nat, pc: Pc)
    requires StageInv(c, s) && i < |s.threads| && (pc == Done || pc == Dropped)
    ensures StageInv(c, At(s, i, pc))
  {
    var r := At(s, i, pc);
    forall a | 0 <= a < |r.log| ensures Beyond(r, r.log[a]) {
      assert Beyond(s, s.log[a]);
    }
  }

  /** An event is logged that is neither a lookup nor a body run. */
  lemma StageLogs(c: Config, s: State, r: State, e: Event)
    requires StageInv(c, s) && !e.Looked? && !e.Ran? && (e.Answered? && !e.cached ==> Settles(c, s.log, e))
    requires r.log == s.log + [e] && r.threads == s.threads
    ensures StageInv(c, r)
  {
    AnswersOkGrows(c, s.log, e);
    forall a | 0 <= a < |r.log| ensures Beyond(r, r.log[a]) {
      assert a < |s.log| ==> Beyond(s, s.log[a]);
    }
    forall i | 0 <= i < |r.threads| ensures ThreadOk(c, r.log, i, r.threads[i]) {
      LookedAtGrows(c, s.log, e, i, s.threads[i]);
    }
  }

  /** Thread `i` looks, or comes back from its body, for the first time. */
  lemma StageReached(c: Config, s: State, i: nat, e: Event, pc: Pc)
    requires StageInv(c, s) && i < |s.threads|
    requires (e == Looked(i, s.threads[i].call) && s.threads[i].pc.Enter? && pc.Running?)
          || (e.Ran? && e.id == i && s.threads[i].pc.Running? && pc.Returned?)
    requires ThreadOk(c, s.log + [e], i, s.threads[i].(pc := pc))
    ensures StageInv(c, At(s, i, pc).(log := s.log + [e]))
  {
    var r := At(s, i, pc).(log := s.log + [e]);
    AnswersOkGrows(c, s.log, e);
    forall a | 0 <= a < |r.log| ensures Beyond(r, r.log[a]) {
      assert a < |s.log| ==> Beyond(s, s.log[a]);
    }
    forall j | 0 <= j < |r.threads| ensures ThreadOk(c, r.log, j, r.threads[j]) {
      if j != i {
        LookedAtGrows(c, s.log, e, j, s.threads[j]);
      }
    }
  }

  /** The committing call answers what its body returned or its lookup remembers. */
  lemma CommitSettles(c: Config, s: State, i: nat, log: seq<Event>)
    requires StageInv(c, s) && i < |s.threads| && s.threads[i].pc.Returned?
    requires |s.log| <= |log| && s.log == log[..|s.log|]
    ensures var t := s.threads[i];
      Settles(c, log, Answered(i, t.call, Settled(t.pc.outcome, t.pc.snapshot), false))
  {
    var t := s.threads[i];
    assert ThreadOk(c, s.log, i, t);
    var b :| 0 <= b < |s.log| && s.log[b] == Ran(i, t.call, t.pc.outcome);
    var a := t.pc.since;
    assert log[a] == s.log[a] && log[b] == s.log[b] && log[..a] == s.log[..a];
  }

  lemma StoreStages(c: Config, s: State, i: nat, v: Value, pc: Pc)
    requires StageInv(c, s) && i < |s.threads| && s.threads[i].pc.Returned? && (pc == Done || pc == Dropped)
    ensures StageInv(c, Store(s, i, v, pc))
  {
    var t := s.threads[i];
    StageMoves(c, s, i, pc);
    StageLogs(c, At(s, i, pc), Store(s, i, v, pc), Wrote(i, t.call, v, t.pc.outcome.Keep?, t.pc.since));
  }

  lemma StepStages(c: Config, s: State, i: nat)
    requires Inv(c, s) && StageInv(c, s) && Enabled(s, Step(i))
    ensures StageInv(c, StepThread(c, s, i))
  {
    var t := s.threads[i];
    if t.pc.Returned? {
      var r := Settled(t.pc.outcome, t.pc.snapshot);
      var m := if r.Keep? then Store(s, i, r.value, Done) else At(s, i, Done);
      if r.Keep? {
        StoreStages(c, s, i, r.value, Done);
      } else {
        StageMoves(c, s, i, Done);
      }
      CommitSettles(c, s, i, m.log);
      StageLogs(c, m, StepThread(c, s, i), Answered(i, t.call, r, false));
    } else if Hit(s, t) {
      StageMoves(c, s, i, Done);
      StageLogs(c, At(s, i, Done), StepThread(c, s, i),
                Answered(i, t.call, Keep(s.store[t.call.key].value), true));
    } else {
      var e := Looked(i, t.call);
      assert Stored(s.store, t.call.key) == Contents(s.log, t.call.key);
      assert (s.log + [e])[..|s.log|] == s.log;
      StageReached(c, s, i, e, Running(Snapshot(c, s, t), |s.log|));
    }
  }

  lemma NextStages(c: Config, s: State, a: Action)
    requires Inv(c, s) && StageInv(c, s) && Enabled(s, a)
    ensures StageInv(c, Next(c, s, a))
  {
    var r := Next(c, s, a);
    match a
    case Spawn(_) =>
      forall n | 0 <= n < |r.log| ensures Beyond(r, r.log[n]) {
        assert Beyond(s, s.log[n]);
      }
    case Step(i) => StepStages(c, s, i);
    case Return(i, o) =>
      var t := s.threads[i];
      var e := Ran(i, t.call, o);
      assert ThreadOk(c, s.log, i, t);
      LookedAtGrows(c, s.log, e, i, t);
      StageReached(c, s, i, e, Returned(t.pc.snapshot, t.pc.since, o));
    case Abandon(i) => StageMoves(c, s, i, Dropped);
    case Unwind(i) =>
      StoreStages(c, s, i, Settled(s.threads[i].pc.outcome, s.threads[i].pc.snapshot).value, Dropped);
    case Expire(k) => StageLogs(c, s, r, Expired(k));
    case Evict(k) => StageLogs(c, s, r, Removed(k));
  }

  lemma {:induction false} RunStages(c: Config, actions: seq<Action>)
    requires Run(c, actions).Some?
    ensures StageInv(c, Run(c, actions).value)
  {
    if actions != [] {
      var before := actions[..|actions| - 1];
      RunStages(c, before);
      RunKeeps(c, before);
      NextStages(c, Run(c, before).value, actions[|actions| - 1]);
    }
  }

  lemma ReachableStages(c: Config, s: State)
    requires Reachable(c, s)
    ensures StageInv(c, s)
  {
    var actions :| Run(c, actions) == Some(s);
    RunStages(c, actions);
  }

  // ---- What a call returns -----------------------------------------------------------------------

  /** A call that answers from its body has looked, once, and run its body, once, before. */
  lemma OwnStages(c: Config, s: State, n: nat) returns (a: nat, b: nat)
    requires Reachable(c, s) && n < |s.log| && s.log[n].Answered? && !s.log[n].cached
    ensures a < n && b < n && s.log[a].Looked? && s.log[b].Ran?
    ensures s.log[a].id == s.log[n].id && s.log[b].id == s.log[n].id && s.log[a].call == s.log[n].call
    ensures s.log[n].outcome == Settled(s.log[b].outcome, Remembered(c, s.log, a))
    ensures forall m :: 0 <= m < |s.log| && SameStage(s.log[m], s.log[a]) ==> m == a
    ensures forall m :: 0 <= m < |s.log| && SameStage(s.log[m], s.log[b]) ==> m == b
  {
    ReachableStages(c, s);
    var past, e := s.log[..n], s.log[n];
    assert Settles(c, past, e);
    a, b :| 0 <= a < |past| && 0 <= b < |past| && past[a] == Looked(e.id, e.call)
      && past[b].Ran? && past[b].id == e.id && e.outcome == Settled(past[b].outcome, Remembered(c, past, a));
    assert past[a] == s.log[a] && past[b] == s.log[b] && past[..a] == s.log[..a];
  }

  /**
   When a call returns an error: exactly when its own body failed and, under `result_fallback`,
   an ordinary call's key held nothing when that call looked, whatever was stored since.
   Positions `a` and `b` are the call's lookup and its body run.
   */
  lemma ErrsIff(c: Config, s: State, n: nat, a: nat, b: nat)
    requires Reachable(c, s) && n < |s.log| && s.log[n].Answered? && !s.log[n].cached
    requires a < |s.log| && s.log[a].Looked? && s.log[a].id == s.log[n].id
    requires b < |s.log| && s.log[b].Ran? && s.log[b].id == s.log[n].id
    ensures a < n && b < n
    ensures s.log[n].outcome.Skip? <==>
      && s.log[b].outcome.Skip?
      && !(c.resultFallback && s.log[n].call.kind == Ordinary && Contents(s.log[..a], s.log[n].call.key).Some?)
  {
    var a', b' := OwnStages(c, s, n);
    assert SameStage(s.log[a], s.log[a']) && SameStage(s.log[b], s.log[b']);
  }

  /** So, unlike a `#[cached]` call, one that looked too early errs although a value for its
      key has been stored in the meantime and is still there. */
  lemma ErrsDespiteSuccess(k: Key, v: Value, error: Error)
    ensures exists s, n ::
      && Reachable(Config(true), s) && 0 <= n < |s.log|
      && s.log[n] == Answered(1, Call(Ordinary, k, false), Skip(error), false)
      && LastGood(s.log[..n], k) == Some(v) && Stored(s.store, k) == Some(v)
  {
    var c, call := Config(true), Call(Ordinary, k, false);
    assert Run(c, []) == Some(INITIAL);
    var s1 := Do(c, INITIAL, Spawn(call));
    var s2 := Do(c, s1, Spawn(call));
    var s3 := Do(c, s2, Step(0));
    var s4 := Do(c, s3, Step(1));
    var s := LateFailure(s4, k, v, error);
  }

  /** Of two calls that found nothing, the first succeeds and then the second fails. */
  lemma LateFailure(t: State, k: Key, v: Value, error: Error) returns (s: State)
    requires Reachable(Config(true), t) && |t.threads| == 2
    requires forall i :: 0 <= i < 2 ==>
      t.threads[i].call == Call(Ordinary, k, false) && t.threads[i].pc.Running? && t.threads[i].pc.snapshot == None
    ensures Reachable(Config(true), s) && Stored(s.store, k) == Some(v) && s.log != []
    ensures s.log[|s.log| - 1] == Answered(1, Call(Ordinary, k, false), Skip(error), false)
    ensures LastGood(s.log[..|s.log| - 1], k) == Some(v)
  {
    var c, call := Config(true), Call(Ordinary, k, false);
    var s1 := Do(c, t, Return(0, Keep(v)));
    var s2 := Do(c, s1, Step(0));
    var s3 := Do(c, s2, Return(1, Skip(error)));
    s := Do(c, s3, Step(1));
    var w := Wrote(0, call, v, true, t.threads[0].pc.since);
    var tail := [Answered(0, call, Keep(v), false), Ran(1, call, Skip(error))];
    assert s.log[..|s.log| - 1] == s1.log + [w] + tail;
    LastGoodTail(s1.log, w, tail, k);
  }
}
