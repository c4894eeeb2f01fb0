/**
 What every run of the `#[cached]` protocol can have in its log: where stored and returned
 values come from, when a store may happen, and what a failing body can and cannot do.
 */
module CachedHistory {
  import opened Basics
  import opened CallLog
  import opened Tally
  import opened CachedProtocol
  import opened CachedLocks

  // ---- What justifies an event --------------------------------------------------------------

  /** What must have happened before event `e` for it to be possible. */
  ghost predicate Justified(c: Config, past: seq<Event>, e: Event) {
    match e
    case Looked(_, call) => Unforced(call) ==> !LiveIn(past, call.key)
    case Ran(id, call, _) => call.kind == Ordinary ==> Looked(id, call) in past
    case Wrote(id, call, v, computed, _) =>
      && (computed ==> Ran(id, call, Keep(v)) in past)
      && (!computed ==> c.resultFallback && LastGood(past, call.key) == Some(v))
      && (c.mode != Disabled && Unforced(call) ==> !LiveIn(past, call.key))
    case Answered(id, call, o, cached) =>
      && (cached ==> Unforced(call) && o.Keep? && LiveIn(past, call.key)
                     && LastGood(past, call.key) == Some(o.value))
      && (!cached ==> Ran(id, call, o) in past || FellBack(c, past, id, call, o))
      && (!cached && o.Keep? ==> past != [] && WroteFor(past[|past| - 1], id, call, o.value))
      && (!cached && o.Skip? && c.resultFallback && call.kind == Ordinary ==>
           LastGood(past, call.key) == None)
    case _ => true
  }

  /** The body failed and the call returns the value stored at its key instead. */
  ghost predicate FellBack(c: Config, past: seq<Event>, id: nat, call: Call, o: Outcome) {
    && c.resultFallback && call.kind == Ordinary
    && o.Keep? && LastGood(past, call.key) == Some(o.value)
    && exists error :: Ran(id, call, Skip(error)) in past
  }

  ghost predicate AllJustified(c: Config, log: seq<Event>) {
    forall n :: 0 <= n < |log| ==> Justified(c, log[..n], log[n])
  }

  lemma Append(c: Config, log: seq<Event>, e: Event)
    requires AllJustified(c, log) && Justified(c, log, e)
    ensures AllJustified(c, log + [e])
  {
    EachGrown(log, e, (past, x) => Justified(c, past, x));
  }

  // ---- The invariant ---------------------------------------------------------------------

  /** The store is what the log says it is: its contents are the last computed values. */
  ghost predicate StoreInv(s: State) {
    && (forall k :: Stored(s.store, k) == LastGood(s.log, k))
    && (forall k :: Live(s.store, k) <==> LiveIn(s.log, k))
  }

  /** A call that has left its body carries what the body produced. */
  ghost predicate CarriesResult(s: State, i: nat, t: Thread) {
    t.pc.Returned? || t.pc.KeyedStore? || t.pc.Storing? ==> Ran(i, t.call, t.pc.outcome) in s.log
  }

  /** A call past a failed lookup, under a lock, will find its key as it left it: absent. */
  ghost predicate StillMissing(c: Config, s: State, t: Thread) {
    (&& c.mode != Disabled && Unforced(t.call)
     && (t.pc.Running? || t.pc.Returned? || t.pc.Storing?))
    ==> !Live(s.store, t.call.key)
  }

  /** An ordinary call in its body has looked. */
  ghost predicate HasLooked(s: State, i: nat, t: Thread) {
    t.call.kind == Ordinary && t.pc == Running ==> Looked(i, t.call) in s.log
  }

  ghost predicate ThreadInv(c: Config, s: State, i: nat, t: Thread) {
    CarriesResult(s, i, t) && StillMissing(c, s, t) && HasLooked(s, i, t)
  }

  ghost predicate HistoryInv(c: Config, s: State)
    requires c.buckets > 0
  {
    && LockInv(c, s) && StoreInv(s) && AllJustified(c, s.log)
    && (forall i :: 0 <= i < |s.threads| ==> ThreadInv(c, s, i, s.threads[i]))
  }

  // ---- Every action keeps it ---------------------------------------------------------------

  /** A step that leaves store and log alone. */
  lemma QuietMove(c: Config, s: State, i: nat, pc: Pc)
    requires c.buckets > 0 && HistoryInv(c, s) && i < |s.threads|
    requires LockInv(c, Move(c, s, i, pc)) && ThreadInv(c, s, i, s.threads[i].(pc := pc))
    ensures HistoryInv(c, Move(c, s, i, pc))
  {
    var r := Move(c, s, i, pc);
    forall j | 0 <= j < |r.threads| ensures ThreadInv(c, r, j, r.threads[j]) {
      assert ThreadInv(c, s, j, s.threads[j]);
    }
  }

  /** An event is appended; what the threads rely on is still there. */
  lemma LogGrows(c: Config, s: State, e: Event)
    requires c.buckets > 0 && HistoryInv(c, s) && Justified(c, s.log, e)
    requires e.Ran? || e.Answered? || e.Looked?
    ensures HistoryInv(c, s.(log := s.log + [e]))
  {
    var r := s.(log := s.log + [e]);
    SameLocks(c, s, r);
    Append(c, s.log, e);
    forall k ensures Stored(r.store, k) == LastGood(r.log, k) && (Live(r.store, k) <==> LiveIn(r.log, k)) {
      Grown(s.log, e, k);
    }
    forall j | 0 <= j < |r.threads| ensures ThreadInv(c, r, j, r.threads[j]) {
      assert ThreadInv(c, s, j, s.threads[j]);
    }
  }

  /** An entry expires or is removed. */
  lemma StoreShrinks(c: Config, s: State, a: Action)
    requires c.buckets > 0 && HistoryInv(c, s) && Enabled(c, s, a) && (a.Expire? || a.Evict?)
    ensures HistoryInv(c, Next(c, s, a))
  {
    var r := Next(c, s, a);
    var e := r.log[|s.log|];
    assert r.log == s.log + [e];
    SameLocks(c, s, r);
    Append(c, s.log, e);
    forall k ensures Stored(r.store, k) == LastGood(r.log, k) && (Live(r.store, k) <==> LiveIn(r.log, k)) {
      Grown(s.log, e, k);
      assert Stored(s.store, k) == LastGood(s.log, k);
      assert Live(s.store, k) <==> LiveIn(s.log, k);
    }
    forall j | 0 <= j < |r.threads| ensures ThreadInv(c, r, j, r.threads[j]) {
      assert ThreadInv(c, s, j, s.threads[j]);
    }
  }

  /** Thread `i`, holding the write lock and its bucket, writes `v` at its key. */
  lemma WriteKeeps(c: Config, s: State, i: nat, v: Value, pc: Pc)
    requires c.buckets > 0 && HistoryInv(c, s) && i < |s.threads| && s.threads[i].pc.Storing?
    requires pc == Done || pc == Dropped
    requires Settled(c, s, s.threads[i], s.threads[i].pc.outcome) == Keep(v)
    ensures HistoryInv(c, Store(c, s, i, v, pc))
  {
    var t := s.threads[i];
    var r := Store(c, s, i, v, pc);
    var e := Wrote(i, t.call, v, t.pc.outcome.Keep?, |s.log|);
    StoreJustified(c, s, i, v);
    MoveKeepsLocks(c, s, i, pc);
    SameLocks(c, Move(c, s, i, pc), r);
    Append(c, s.log, e);
    forall k ensures Stored(r.store, k) == LastGood(r.log, k) && (Live(r.store, k) <==> LiveIn(r.log, k)) {
      Grown(s.log, e, k);
      assert Stored(s.store, k) == LastGood(s.log, k);
      assert Live(s.store, k) <==> LiveIn(s.log, k);
    }
    forall j | 0 <= j < |r.threads| ensures ThreadInv(c, r, j, r.threads[j]) {
      assert ThreadInv(c, s, j, s.threads[j]);
      if j != i {
        OthersAreElsewhere(c, s, i, j);
      }
    }
  }

  /** While `i` stores, no other call that relies on the same key being absent is in flight. */
  lemma OthersAreElsewhere(c: Config, s: State, i: nat, j: nat)
    requires c.buckets > 0 && LockInv(c, s) && i < |s.threads| && j < |s.threads| && i != j
    requires s.threads[i].pc.Storing?
    ensures c.mode != Disabled && s.threads[j].call.kind == Ordinary
      && (s.threads[j].pc.Running? || s.threads[j].pc.Returned? || s.threads[j].pc.Storing?)
      ==> s.threads[j].call.key != s.threads[i].call.key
  {
    assert PcOk(c, s.threads[i]) && PcOk(c, s.threads[j]);
    assert BucketGuard(c, s.threads[i]) ==> Owns(c, s, i);
    assert BucketGuard(c, s.threads[j]) ==> Owns(c, s, j);
  }

  /** The committing call settles on `v`: it writes `v`, then answers it. */
  lemma StoreKeeps(c: Config, s: State, i: nat, v: Value)
    requires c.buckets > 0 && HistoryInv(c, s) && i < |s.threads| && s.threads[i].pc.Storing?
    requires Settled(c, s, s.threads[i], s.threads[i].pc.outcome) == Keep(v)
    ensures HistoryInv(c, Commit(c, s, i))
  {
    StoreJustified(c, s, i, v);
    WriteKeeps(c, s, i, v, Done);
    LogGrows(c, Store(c, s, i, v, Done), Answered(i, s.threads[i].call, Keep(v), false));
  }

  lemma StoreJustified(c: Config, s: State, i: nat, v: Value)
    requires c.buckets > 0 && HistoryInv(c, s) && i < |s.threads| && s.threads[i].pc.Storing?
    requires Settled(c, s, s.threads[i], s.threads[i].pc.outcome) == Keep(v)
    ensures var t := s.threads[i];
      var e := Wrote(i, t.call, v, t.pc.outcome.Keep?, |s.log|);
      && Justified(c, s.log, e) && (t.pc.outcome.Skip? ==> t.call.key in s.store)
      && Justified(c, s.log + [e], Answered(i, t.call, Keep(v), false))
  {
    var t := s.threads[i];
    var o := t.pc.outcome;
    var e := Wrote(i, t.call, v, o.Keep?, |s.log|);
    assert ThreadInv(c, s, i, t);
    assert Stored(s.store, t.call.key) == LastGood(s.log, t.call.key);
    assert Live(s.store, t.call.key) <==> LiveIn(s.log, t.call.key);
    Grown(s.log, e, t.call.key);
    assert Ran(i, t.call, o) in s.log + [e];
    assert o.Skip? ==> o == Skip(o.error);
  }

  lemma CommitKeeps(c: Config, s: State, i: nat)
    requires c.buckets > 0 && HistoryInv(c, s) && i < |s.threads| && s.threads[i].pc.Storing?
    ensures HistoryInv(c, Commit(c, s, i))
  {
    var t := s.threads[i];
    var o := t.pc.outcome;
    var r := Settled(c, s, t, o);
    var d := Move(c, s, i, Done);
    assert ThreadInv(c, s, i, t);
    assert Stored(s.store, t.call.key) == LastGood(s.log, t.call.key);
    match r
    case Keep(v) => StoreKeeps(c, s, i, v);
    case Skip(_) =>
      MoveKeepsLocks(c, s, i, Done);
      QuietMove(c, s, i, Done);
      LogGrows(c, d, Answered(i, t.call, r, false));
  }

  lemma StepKeepsHistory(c: Config, s: State, i: nat)
    requires c.buckets > 0 && HistoryInv(c, s) && CanStep(c, s, i)
    ensures HistoryInv(c, StepThread(c, s, i))
  {
    var t := s.threads[i];
    assert PcOk(c, t) && ThreadInv(c, s, i, t);
    if t.pc.Storing? {
      CommitKeeps(c, s, i);
    } else if t.pc.Looking? && Hit(s, t) {
      MoveKeepsLocks(c, s, i, Done);
      QuietMove(c, s, i, Done);
      assert Stored(s.store, t.call.key) == LastGood(s.log, t.call.key);
      LogGrows(c, Move(c, s, i, Done), Answered(i, t.call, Keep(s.store[t.call.key].value), true));
    } else if t.pc.Looking? && t.call.kind == Ordinary {
      MissKeeps(c, s, i);
    } else {
      MoveKeepsLocks(c, s, i, NextPc(c, t, false));
      QuietMove(c, s, i, NextPc(c, t, false));
    }
  }

  /** A lookup that does not hit. */
  lemma {:induction false} MissKeeps(c: Config, s: State, i: nat)
    requires c.buckets > 0 && HistoryInv(c, s) && CanStep(c, s, i)
    requires s.threads[i].pc.Looking? && s.threads[i].call.kind == Ordinary && !Hit(s, s.threads[i])
    ensures HistoryInv(c, StepThread(c, s, i))
  {
    var t := s.threads[i];
    var e := Looked(i, t.call);
    var m := s.(log := s.log + [e]);
    assert Live(s.store, t.call.key) <==> LiveIn(s.log, t.call.key);
    LogGrows(c, s, e);
    assert e in m.log;
    PastLookup(c, m, i);
    assert StepThread(c, s, i) == Move(c, m, i, NextPc(c, t, false));
  }

  lemma {:induction false} PastLookup(c: Config, s: State, i: nat)
    requires c.buckets > 0 && HistoryInv(c, s) && CanStep(c, s, i) && Looked(i, s.threads[i].call) in s.log
    requires s.threads[i].pc.Looking? && s.threads[i].call.kind == Ordinary && !Hit(s, s.threads[i])
    ensures HistoryInv(c, Move(c, s, i, NextPc(c, s.threads[i], false)))
  {
    var t := s.threads[i];
    assert PcOk(c, t) && ThreadInv(c, s, i, t);
    MoveKeepsLocks(c, s, i, NextPc(c, t, false));
    QuietMove(c, s, i, NextPc(c, t, false));
  }

  lemma ReturnKeepsHistory(c: Config, s: State, i: nat, o: Outcome)
    requires c.buckets > 0 && HistoryInv(c, s) && Enabled(c, s, Return(i, o))
    ensures HistoryInv(c, Next(c, s, Return(i, o)))
  {
    var e := Ran(i, s.threads[i].call, o);
    var m := s.(log := s.log + [e]);
    assert ThreadInv(c, s, i, s.threads[i]);
    LogGrows(c, s, e);
    LeaveBody(c, m, i, o);
    assert Next(c, s, Return(i, o)) == Move(c, m, i, ReturnPc(c, s.threads[i], o));
  }

  lemma LeaveBody(c: Config, s: State, i: nat, o: Outcome)
    requires c.buckets > 0 && HistoryInv(c, s) && Enabled(c, s, Return(i, o))
    requires Ran(i, s.threads[i].call, o) in s.log
    ensures HistoryInv(c, Move(c, s, i, ReturnPc(c, s.threads[i], o)))
  {
    var t := s.threads[i];
    assert PcOk(c, t) && ThreadInv(c, s, i, t);
    MoveKeepsLocks(c, s, i, ReturnPc(c, t, o));
    QuietMove(c, s, i, ReturnPc(c, t, o));
  }

  lemma NextKeepsHistory(c: Config, s: State, a: Action)
    requires c.buckets > 0 && HistoryInv(c, s) && Enabled(c, s, a)
    ensures HistoryInv(c, Next(c, s, a))
  {
    match a
    case Spawn(call) =>
      SpawnKeepsLocks(c, s, call);
      var r := Next(c, s, a);
      forall j | 0 <= j < |r.threads| ensures ThreadInv(c, r, j, r.threads[j]) {
        assert j < |s.threads| ==> ThreadInv(c, s, j, s.threads[j]);
      }
    case Step(i) => StepKeepsHistory(c, s, i);
    case Return(i, o) => ReturnKeepsHistory(c, s, i, o);
    case Abandon(i) =>
      MoveKeepsLocks(c, s, i, Dropped);
      QuietMove(c, s, i, Dropped);
    case Unwind(i) => WriteKeeps(c, s, i, Settled(c, s, s.threads[i], s.threads[i].pc.outcome).value, Dropped);
    case Expire(k) => StoreShrinks(c, s, a);
    case Evict(k) => StoreShrinks(c, s, a);
  }

  lemma {:induction false} RunKeepsHistory(c: Config, actions: seq<Action>)
    requires c.buckets > 0 && Run(c, INITIAL, actions).Some?
    ensures HistoryInv(c, Run(c, INITIAL, actions).value)
  {
    if actions != [] {
      var before := actions[..|actions| - 1];
      RunKeepsHistory(c, before);
      NextKeepsHistory(c, Run(c, INITIAL, before).value, actions[|actions| - 1]);
    }
  }

  lemma ReachableHistory(c: Config, s: State)
    requires c.buckets > 0 && Reachable(c, s)
    ensures HistoryInv(c, s)
  {
    var actions :| Run(c, INITIAL, actions) == Some(s);
    RunKeepsHistory(c, actions);
  }

  // ---- Answers ---------------------------------------------------------------------------------

  /** Calls that are done have returned once; all others, and inspectors, not at all. */
  ghost predicate AnswerInv(s: State) {
    forall i: nat :: Count(s.log, Answerer, i) == AnswersDue(s, i)
  }

  function AnswersDue(s: State, i: nat): nat {
    if i < |s.threads| && s.threads[i].pc == Done && !s.threads[i].call.kind.Inspector? then 1 else 0
  }

  lemma {:induction false} NextKeepsAnswers(c: Config, s: State, a: Action)
    requires c.buckets > 0 && LockInv(c, s) && AnswerInv(s) && Enabled(c, s, a)
    ensures AnswerInv(Next(c, s, a))
  {
    var r := Next(c, s, a);
    forall i: nat ensures Count(r.log, Answerer, i) == AnswersDue(r, i) {
      assert Count(s.log, Answerer, i) == AnswersDue(s, i);
      if a.Step? {
        StepAnswers(c, s, a.thread, i);
      } else {
        OtherAnswers(c, s, a, i);
      }
    }
  }

  lemma {:induction false} StepAnswers(c: Config, s: State, i: nat, j: nat)
    requires c.buckets > 0 && CanStep(c, s, i) && PcOk(c, s.threads[i])
    requires Count(s.log, Answerer, j) == AnswersDue(s, j)
    ensures var r := StepThread(c, s, i); Count(r.log, Answerer, j) == AnswersDue(r, j)
  {
    var t := s.threads[i];
    if t.pc.Storing? {
      CommitAnswers(c, s, i, j);
    } else if t.pc.Looking? && Hit(s, t) {
      CountGrown(s.log, Answered(i, t.call, Keep(s.store[t.call.key].value), true), Answerer, j);
    } else if t.pc.Looking? && t.call.kind == Ordinary {
      CountGrown(s.log, Looked(i, t.call), Answerer, j);
    }
  }

  lemma {:induction false} CommitAnswers(c: Config, s: State, i: nat, j: nat)
    requires c.buckets > 0 && i < |s.threads| && s.threads[i].pc.Storing? && PcOk(c, s.threads[i])
    requires Count(s.log, Answerer, j) == AnswersDue(s, j)
    ensures var r := Commit(c, s, i); Count(r.log, Answerer, j) == AnswersDue(r, j)
  {
    var t := s.threads[i];
    match Settled(c, s, t, t.pc.outcome)
    case Keep(v) =>
      CountGrown(s.log, Wrote(i, t.call, v, t.pc.outcome.Keep?, |s.log|), Answerer, j);
      LastAnswer(s, Store(c, s, i, v, Done), i, Keep(v), j);
    case Skip(e) => LastAnswer(s, Move(c, s, i, Done), i, Skip(e), j);
  }

  /** A call that has just finished answers. */
  lemma {:induction false} LastAnswer(s: State, d: State, i: nat, o: Outcome, j: nat)
    requires i < |s.threads| && !Over(s.threads[i]) && !s.threads[i].call.kind.Inspector?
    requires d.threads == s.threads[i := s.threads[i].(pc := Done)]
    requires Count(d.log, Answerer, j) == Count(s.log, Answerer, j) == AnswersDue(s, j)
    ensures var r := Answer(d, i, o, false); Count(r.log, Answerer, j) == AnswersDue(r, j)
  {
    CountGrown(d.log, Answered(i, d.threads[i].call, o, false), Answerer, j);
  }

  /** Only steps answer. */
  lemma {:induction false} OtherAnswers(c: Config, s: State, a: Action, j: nat)
    requires c.buckets > 0 && Enabled(c, s, a) && !a.Step? && Count(s.log, Answerer, j) == AnswersDue(s, j)
    ensures var r := Next(c, s, a); Count(r.log, Answerer, j) == AnswersDue(r, j)
  {
    var r := Next(c, s, a);
    if |r.log| > |s.log| {
      assert r.log == s.log + [r.log[|s.log|]];
      CountGrown(s.log, r.log[|s.log|], Answerer, j);
    }
  }

  lemma {:induction false} RunKeepsAnswers(c: Config, actions: seq<Action>)
    requires c.buckets > 0 && Run(c, INITIAL, actions).Some?
    ensures AnswerInv(Run(c, INITIAL, actions).value)
  {
    if actions != [] {
      var before := actions[..|actions| - 1];
      RunKeepsAnswers(c, before);
      RunKeepsLocks(c, INITIAL, before);
      NextKeepsAnswers(c, Run(c, INITIAL, before).value, actions[|actions| - 1]);
    }
  }

  /** A call that runs to its end returns exactly once; an abandoned one never does. */
  lemma EachCallAnswersOnce(c: Config, s: State, i: nat)
    requires c.buckets > 0 && Reachable(c, s) && i < |s.threads| && !s.threads[i].call.kind.Inspector?
    ensures Count(s.log, Answerer, i) == if s.threads[i].pc == Done then 1 else 0
  {
    var actions :| Run(c, INITIAL, actions) == Some(s);
    RunKeepsAnswers(c, actions);
  }

  /**
   Where each answer comes from: a cached one is the live, last computed value at the key and
   never goes to a forced call or a prime; any other is what the call's own body produced, or,
   if that failed under `result_fallback`, the last computed value at the key.
   */
  lemma AnswersExplained(c: Config, s: State, n: nat)
    requires c.buckets > 0 && Reachable(c, s) && n < |s.log| && s.log[n].Answered?
    ensures var past, e := s.log[..n], s.log[n];
      if e.cached then
        Unforced(e.call) && LiveIn(past, e.call.key)
        && e.outcome.Keep? && LastGood(past, e.call.key) == Some(e.outcome.value)
      else
        Ran(e.id, e.call, e.outcome) in past || FellBack(c, past, e.id, e.call, e.outcome)
  {
    ReachableHistory(c, s);
    assert Justified(c, s.log[..n], s.log[n]);
  }

  /**
   Lookups serve what is live, in every mode: an unforced call whose lookup does not answer
   has found no live entry at its key, and no ordinary call runs its body without a lookup of
   its own before.
   */
  lemma LookupsServeTheLive(c: Config, s: State, n: nat)
    requires c.buckets > 0 && Reachable(c, s) && n < |s.log|
    ensures s.log[n].Looked? && Unforced(s.log[n].call) ==> !LiveIn(s.log[..n], s.log[n].call.key)
    ensures s.log[n].Ran? && s.log[n].call.kind == Ordinary ==>
      exists m :: 0 <= m < n && s.log[m] == Looked(s.log[n].id, s.log[n].call)
  {
    ReachableHistory(c, s);
    assert Justified(c, s.log[..n], s.log[n]);
    if s.log[n].Ran? && s.log[n].call.kind == Ordinary {
      var m :| 0 <= m < n && s.log[..n][m] == Looked(s.log[n].id, s.log[n].call);
      assert s.log[m] == s.log[..n][m];
    }
  }

  /** Every call that returns a value it did not find cached, ordinary, forced or prime, in
      every mode, has just stored that value for its key. */
  lemma AnswersAreStored(c: Config, s: State, n: nat)
    requires c.buckets > 0 && Reachable(c, s) && n < |s.log|
    requires s.log[n].Answered? && !s.log[n].cached && s.log[n].outcome.Keep?
    ensures n > 0 && WroteFor(s.log[n - 1], s.log[n].id, s.log[n].call, s.log[n].outcome.value)
  {
    ReachableHistory(c, s);
    assert Justified(c, s.log[..n], s.log[n]);
  }

  // ---- Single flight -------------------------------------------------------------------------

  /** How often an unforced ordinary call stored a value for `k`. */
  function Stores(log: seq<Event>, k: Key): nat {
    if log == [] then 0
    else
      var e := log[|log| - 1];
      Stores(log[..|log| - 1], k) + (if e.Wrote? && e.call.key == k && Unforced(e.call) then 1 else 0)
  }

  /** How often `k` left the store: it expired, or a live entry was removed. */
  function Departures(log: seq<Event>, k: Key): nat {
    if log == [] then 0
    else
      var past, e := log[..|log| - 1], log[|log| - 1];
      Departures(past, k) + (if (e == Expired(k) || e == Removed(k)) && LiveIn(past, k) then 1 else 0)
  }

  lemma {:induction false} CountStores(c: Config, log: seq<Event>, k: Key)
    requires c.mode != Disabled && AllJustified(c, log)
    ensures Stores(log, k) <= Departures(log, k) + (if LiveIn(log, k) then 1 else 0)
  {
    if log != [] {
      var past, e := log[..|log| - 1], log[|log| - 1];
      assert forall n :: 0 <= n < |past| ==> past[n] == log[n] && past[..n] == log[..n];
      assert Justified(c, past, e);
      CountStores(c, past, k);
    }
  }

  /**
   Under `by_key` and `default`, in every run: an unforced call that stores finds no live
   entry at its key, so for each key such stores number at most one more than the times the
   key left the store, whatever primes and forced calls do in between.
   */
  lemma SingleFlight(c: Config, s: State, k: Key)
    requires c.buckets > 0 && c.mode != Disabled && Reachable(c, s)
    ensures forall n :: 0 <= n < |s.log| && s.log[n].Wrote? && Unforced(s.log[n].call) ==>
      !LiveIn(s.log[..n], s.log[n].call.key)
    ensures Stores(s.log, k) <= 1 + Departures(s.log, k)
  {
    ReachableHistory(c, s);
    CountStores(c, s.log, k);
    assert forall n :: 0 <= n < |s.log| ==> Justified(c, s.log[..n], s.log[n]);
  }

  // ---- Provenance and meaning -----------------------------------------------------------------

  lemma {:induction false} GoodIsProduced(c: Config, log: seq<Event>, k: Key)
    requires AllJustified(c, log) && LastGood(log, k).Some?
    ensures Produced(log, k, Keep(LastGood(log, k).value))
  {
    var past, e := log[..|log| - 1], log[|log| - 1];
    assert forall n :: 0 <= n < |past| ==> past[n] == log[n] && past[..n] == log[..n];
    assert Justified(c, past, e);
    if e.Wrote? && e.call.key == k && e.computed {
      RanProduces(past, e.id, e.call, Keep(e.value));
    } else {
      GoodIsProduced(c, past, k);
    }
    ProducedGrows(past, log, k, Keep(LastGood(log, k).value));
  }

  /** In every run and mode, what is stored for a key or returned for it was produced by a
      body run for that key that completed earlier. */
  lemma Provenance(c: Config, s: State, n: nat)
    requires c.buckets > 0 && Reachable(c, s) && n < |s.log|
    ensures s.log[n].Wrote? ==> Produced(s.log[..n], s.log[n].call.key, Keep(s.log[n].value))
    ensures s.log[n].Answered? ==> Produced(s.log[..n], s.log[n].call.key, s.log[n].outcome)
  {
    ReachableHistory(c, s);
    var past, e := s.log[..n], s.log[n];
    assert Justified(c, past, e);
    EachPrefix(s.log, n, (past, x) => Justified(c, past, x));
    if e.Wrote? || e.Answered? {
      if LastGood(past, e.call.key).Some? {
        GoodIsProduced(c, past, e.call.key);
      }
      forall o | Ran(e.id, e.call, o) in past ensures Produced(past, e.call.key, o) {
        RanProduces(past, e.id, e.call, o);
      }
    }
  }

  /**
   Memoization preserves meaning: if every completed body run gave `f` of its key, then every
   call returned `f` of its key and the store holds nothing but payloads of `f`, in every
   mode, under every interleaving, whatever was evicted or expired.
   */
  lemma MemoizationIsTransparent(c: Config, s: State, f: Key -> Outcome)
    requires c.buckets > 0 && Reachable(c, s)
    requires forall n :: 0 <= n < |s.log| && s.log[n].Ran? ==> s.log[n].outcome == f(s.log[n].call.key)
    ensures forall n :: 0 <= n < |s.log| && s.log[n].Answered? ==>
      s.log[n].outcome == f(s.log[n].call.key)
    ensures forall k :: k in s.store ==> Keep(s.store[k].value) == f(k)
  {
    forall n | 0 <= n < |s.log| && s.log[n].Answered?
      ensures s.log[n].outcome == f(s.log[n].call.key)
    {
      Provenance(c, s, n);
      ProducedGrows(s.log[..n], s.log, s.log[n].call.key, s.log[n].outcome);
    }
    ReachableHistory(c, s);
    forall k | k in s.store ensures Keep(s.store[k].value) == f(k) {
      assert Stored(s.store, k) == LastGood(s.log, k);
      GoodIsProduced(c, s.log, k);
    }
  }

  // ---- Stale on error ---------------------------------------------------------------------------

  /** A failing body leaves the store as it was, value for value: at any moment the value at a
      key is the last one computed for it, no matter how many values were put back since. */
  lemma FailuresNeverRegress(c: Config, s: State, k: Key)
    requires c.buckets > 0 && Reachable(c, s)
    ensures Stored(s.store, k) == LastGood(s.log, k)
    ensures Live(s.store, k) <==> LiveIn(s.log, k)
  {
    ReachableHistory(c, s);
  }

  /** Under `result_fallback`, once a value is stored for `k` and until `k` is removed, no
      ordinary call for `k` returns an error. */
  lemma NoErrorAfterSuccess(c: Config, s: State, p: nat, n: nat)
    requires c.buckets > 0 && c.resultFallback && Reachable(c, s) && p < n < |s.log|
    requires s.log[p].Wrote? && s.log[p].computed
    requires s.log[n].Answered? && s.log[n].call.kind == Ordinary && s.log[n].call.key == s.log[p].call.key
    requires Removed(s.log[p].call.key) !in s.log[p..n]
    ensures s.log[n].outcome.Keep?
  {
    ReachableHistory(c, s);
    assert Justified(c, s.log[..n], s.log[n]);
    assert s.log[..n][p..] == s.log[p..n];
    GoodPersists(s.log[..n], p, s.log[p].call.key);
  }
}
