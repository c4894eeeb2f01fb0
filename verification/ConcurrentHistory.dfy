/**
 What every run of the `#[concurrent_cached]` protocol can have in its log. A pre-body
 snapshot keeps provenance and meaning, but it can undo a newer store; the last section
 shows such a run and says exactly which runs are free of it.
 */
module ConcurrentHistory {
  import opened Basics
  import opened CallLog
  import opened Tally
  import opened ConcurrentProtocol

  /** The body failed and the call put its snapshot back and returned it. */
  ghost predicate FellBack(past: seq<Event>, id: nat, call: Call, o: Outcome) {
    && o.Keep? && past != [] && past[|past| - 1].Wrote?
    && past[|past| - 1] == Wrote(id, call, o.value, false, past[|past| - 1].since)
    && exists error :: Ran(id, call, Skip(error)) in past
  }

  ghost predicate Justified(c: Config, past: seq<Event>, e: Event) {
    match e
    case Looked(_, call) => Unforced(call) ==> !LiveIn(past, call.key)
    case Ran(id, call, _) => Looked(id, call) in past
    case Wrote(id, call, v, computed, since) =>
      && Produced(past, call.key, Keep(v))
      && (computed ==> Ran(id, call, Keep(v)) in past)
      && (!computed ==>
           && c.resultFallback && call.kind == Ordinary
           && since <= |past| && Contents(past[..since], call.key) == Some(v))
    case Answered(id, call, o, cached) =>
      && Produced(past, call.key, o)
      && (cached ==>
           && call.kind == Ordinary && !call.forced && LiveIn(past, call.key)
           && o.Keep? && Contents(past, call.key) == Some(o.value))
      && (!cached ==> Ran(id, call, o) in past || FellBack(past, id, call, o))
      && (!cached && o.Keep? ==> past != [] && WroteFor(past[|past| - 1], id, call, o.value))
    case _ => true
  }

  ghost predicate AllJustified(c: Config, log: seq<Event>) {
    forall n :: 0 <= n < |log| ==> Justified(c, log[..n], log[n])
  }

  ghost predicate ThreadInv(c: Config, s: State, i: nat, t: Thread) {
    match t.pc
    case Running(snapshot, since) =>
      SnapshotOk(c, s.log, t.call, snapshot, since) && Looked(i, t.call) in s.log
    case Returned(snapshot, since, o) =>
      SnapshotOk(c, s.log, t.call, snapshot, since) && Ran(i, t.call, o) in s.log
    case _ => true
  }

  /** A snapshot is what the key held when it was taken. */
  ghost predicate SnapshotOk(c: Config, log: seq<Event>, call: Call, snapshot: Option<Value>, since: nat) {
    snapshot.Some? ==>
      && c.resultFallback && call.kind == Ordinary
      && since <= |log| && Contents(log[..since], call.key) == snapshot
      && Produced(log, call.key, Keep(snapshot.value))
  }

  ghost predicate Inv(c: Config, s: State) {
    && AllJustified(c, s.log)
    && (forall k :: Stored(s.store, k) == Contents(s.log, k))
    && (forall k :: Live(s.store, k) <==> LiveIn(s.log, k))
    && (forall i :: 0 <= i < |s.threads| ==> ThreadInv(c, s, i, s.threads[i]))
  }

  lemma {:induction false} ContentsProduced(c: Config, log: seq<Event>, k: Key)
    requires AllJustified(c, log) && Contents(log, k).Some?
    ensures Produced(log, k, Keep(Contents(log, k).value))
  {
    var past, e := log[..|log| - 1], log[|log| - 1];
    Prefix(c, log, |log| - 1);
    if !(e.Wrote? && e.call.key == k) {
      ContentsProduced(c, past, k);
    }
    ProducedGrows(past, log, k, Keep(Contents(log, k).value));
  }

  lemma Prefix(c: Config, log: seq<Event>, n: nat)
    requires AllJustified(c, log) && n < |log|
    ensures AllJustified(c, log[..n]) && Justified(c, log[..n], log[n])
  {
    EachPrefix(log, n, (past, x) => Justified(c, past, x));
  }

  lemma AppendJustified(c: Config, log: seq<Event>, e: Event)
    requires AllJustified(c, log) && Justified(c, log, e)
    ensures AllJustified(c, log + [e])
  {
    EachGrown(log, e, (past, x) => Justified(c, past, x));
  }

  lemma ThreadGrows(c: Config, s: State, r: State, e: Event, i: nat)
    requires i < |s.threads| && ThreadInv(c, s, i, s.threads[i])
    requires r.log == s.log + [e] && r.threads == s.threads
    ensures ThreadInv(c, r, i, r.threads[i])
  {
    assert r.log[..|s.log|] == s.log;
    var pc := r.threads[i].pc;
    if (pc.Running? || pc.Returned?) && pc.snapshot.Some? {
      assert r.log[..pc.since] == s.log[..pc.since];
      ProducedGrows(s.log, r.log, r.threads[i].call.key, Keep(pc.snapshot.value));
    }
  }

  /** The invariant survives appending a justified event that the store agrees with. */
  lemma Grow(c: Config, s: State, r: State, e: Event)
    requires Inv(c, s) && Justified(c, s.log, e)
    requires r.log == s.log + [e] && r.threads == s.threads
    requires forall k ::
      Stored(r.store, k) ==
      if e.Wrote? && e.call.key == k then Some(e.value)
      else if e == Removed(k) then None
      else Stored(s.store, k)
    requires forall k ::
      Live(r.store, k) <==>
      if e.Wrote? && e.call.key == k then true
      else if e == Removed(k) || e == Expired(k) then false
      else Live(s.store, k)
    ensures Inv(c, r)
  {
    AppendJustified(c, s.log, e);
    forall k ensures Stored(r.store, k) == Contents(r.log, k) {
      assert Stored(s.store, k) == Contents(s.log, k);
      Grown(s.log, e, k);
    }
    forall k ensures Live(r.store, k) <==> LiveIn(r.log, k) {
      assert Live(s.store, k) <==> LiveIn(s.log, k);
      Grown(s.log, e, k);
    }
    forall i | 0 <= i < |r.threads| ensures ThreadInv(c, r, i, r.threads[i]) {
      ThreadGrows(c, s, r, e, i);
    }
  }

  lemma MoveKeeps(c: Config, s: State, i: nat, pc: Pc)
    requires Inv(c, s) && i < |s.threads| && ThreadInv(c, s, i, s.threads[i].(pc := pc))
    ensures Inv(c, At(s, i, pc))
  {
    var r := At(s, i, pc);
    forall j | 0 <= j < |r.threads| ensures ThreadInv(c, r, j, r.threads[j]) {
      assert ThreadInv(c, s, j, s.threads[j]);
    }
  }

  /** What a call that has left its body settles on was produced for its key. */
  lemma SettledProduced(c: Config, s: State, i: nat)
    requires Inv(c, s) && i < |s.threads| && s.threads[i].pc.Returned?
    ensures var t := s.threads[i]; Produced(s.log, t.call.key, Settled(t.pc.outcome, t.pc.snapshot))
  {
    var t := s.threads[i];
    assert ThreadInv(c, s, i, t);
    if Settled(t.pc.outcome, t.pc.snapshot) == t.pc.outcome {
      RanProduces(s.log, i, t.call, t.pc.outcome);
    }
  }

  lemma StoreKeeps(c: Config, s: State, i: nat, v: Value, pc: Pc)
    requires Inv(c, s) && i < |s.threads| && s.threads[i].pc.Returned?
    requires Settled(s.threads[i].pc.outcome, s.threads[i].pc.snapshot) == Keep(v) && (pc == Done || pc == Dropped)
    ensures Inv(c, Store(s, i, v, pc))
  {
    var t := s.threads[i];
    assert ThreadInv(c, s, i, t);
    SettledProduced(c, s, i);
    MoveKeeps(c, s, i, pc);
    Grow(c, At(s, i, pc), Store(s, i, v, pc), Wrote(i, t.call, v, t.pc.outcome.Keep?, t.pc.since));
  }

  /** Having written `v`, the call may answer it. */
  lemma {:induction false} StoreAnswers(c: Config, s: State, i: nat, v: Value)
    requires Inv(c, s) && i < |s.threads| && s.threads[i].pc.Returned?
    requires Settled(s.threads[i].pc.outcome, s.threads[i].pc.snapshot) == Keep(v)
    ensures Justified(c, Store(s, i, v, Done).log, Answered(i, s.threads[i].call, Keep(v), false))
  {
    var t := s.threads[i];
    var o := t.pc.outcome;
    var w := Wrote(i, t.call, v, o.Keep?, t.pc.since);
    var log := s.log + [w];
    assert ThreadInv(c, s, i, t);
    SettledProduced(c, s, i);
    assert log[..|s.log|] == s.log && log[|log| - 1] == w;
    ProducedGrows(s.log, log, t.call.key, Keep(v));
    assert Ran(i, t.call, o) in log;
    assert o.Skip? ==> Ran(i, t.call, Skip(o.error)) in log;
  }

  lemma {:induction false} CommitKeeps(c: Config, s: State, i: nat)
    requires Inv(c, s) && i < |s.threads| && s.threads[i].pc.Returned?
    ensures Inv(c, StepThread(c, s, i))
  {
    var t := s.threads[i];
    var r := Settled(t.pc.outcome, t.pc.snapshot);
    var a := Answered(i, t.call, r, false);
    match r
    case Keep(v) =>
      var m := Store(s, i, v, Done);
      StoreKeeps(c, s, i, v, Done);
      StoreAnswers(c, s, i, v);
      Grow(c, m, Answer(m, i, r, false), a);
    case Skip(_) =>
      assert ThreadInv(c, s, i, t);
      SettledProduced(c, s, i);
      MoveKeeps(c, s, i, Done);
      Grow(c, At(s, i, Done), StepThread(c, s, i), a);
  }

  /** A lookup that does not hit. */
  lemma {:induction false} MissKeeps(c: Config, s: State, i: nat)
    requires Inv(c, s) && i < |s.threads| && s.threads[i].pc.Enter? && !Hit(s, s.threads[i])
    requires var k := s.threads[i].call.key;
      Stored(s.store, k).Some? ==> Produced(s.log, k, Keep(Stored(s.store, k).value))
    ensures Inv(c, StepThread(c, s, i))
  {
    var t := s.threads[i];
    var k, e := t.call.key, Looked(i, t.call);
    var m := s.(log := s.log + [e]);
    assert Stored(s.store, k) == Contents(s.log, k) && (Live(s.store, k) <==> LiveIn(s.log, k));
    Grow(c, s, m, e);
    assert m.log[..|s.log|] == s.log && e in m.log;
    if Stored(s.store, k).Some? {
      ProducedGrows(s.log, m.log, k, Keep(s.store[k].value));
    }
    MoveKeeps(c, m, i, Running(Snapshot(c, s, t), |s.log|));
  }

  lemma NextKeeps(c: Config, s: State, a: Action)
    requires Inv(c, s) && Enabled(s, a)
    ensures Inv(c, Next(c, s, a))
  {
    var r := Next(c, s, a);
    match a
    case Spawn(call) =>
      forall j | 0 <= j < |r.threads| ensures ThreadInv(c, r, j, r.threads[j]) {
        assert j < |s.threads| ==> ThreadInv(c, s, j, s.threads[j]);
      }
    case Step(i) =>
      var t := s.threads[i];
      var k := t.call.key;
      assert Stored(s.store, k) == Contents(s.log, k);
      if t.pc.Returned? {
        CommitKeeps(c, s, i);
      } else if Hit(s, t) {
        MoveKeeps(c, s, i, Done);
        ContentsProduced(c, s.log, k);
        Grow(c, At(s, i, Done), r, Answered(i, t.call, Keep(s.store[k].value), true));
      } else {
        if Stored(s.store, k).Some? {
          ContentsProduced(c, s.log, k);
        }
        MissKeeps(c, s, i);
      }
    case Return(i, o) =>
      var t := s.threads[i];
      var m := s.(log := s.log + [Ran(i, t.call, o)]);
      assert ThreadInv(c, s, i, t);
      Grow(c, s, m, Ran(i, t.call, o));
      assert ThreadInv(c, m, i, t);
      MoveKeeps(c, m, i, Returned(t.pc.snapshot, t.pc.since, o));
    case Abandon(i) => MoveKeeps(c, s, i, Dropped);
    case Unwind(i) =>
      var t := s.threads[i];
      StoreKeeps(c, s, i, Settled(t.pc.outcome, t.pc.snapshot).value, Dropped);
    case Expire(k) => Grow(c, s, r, Expired(k));
    case Evict(k) => Grow(c, s, r, Removed(k));
  }

  lemma {:induction false} RunKeeps(c: Config, actions: seq<Action>)
    requires Run(c, actions).Some?
    ensures Inv(c, Run(c, actions).value)
  {
    if actions != [] {
      var before := actions[..|actions| - 1];
      RunKeeps(c, before);
      NextKeeps(c, Run(c, before).value, actions[|actions| - 1]);
    }
  }

  lemma ReachableInv(c: Config, s: State)
    requires Reachable(c, s)
    ensures Inv(c, s)
  {
    var actions :| Run(c, actions) == Some(s);
    RunKeeps(c, actions);
  }

  // ---- Answers ---------------------------------------------------------------------------------

  /** Calls that are done have returned once; all others not at all. */
  ghost predicate AnswerInv(s: State) {
    forall i: nat :: Count(s.log, Answerer, i) == AnswersDue(s, i)
  }

  function AnswersDue(s: State, i: nat): nat {
    if i < |s.threads| && s.threads[i].pc == Done then 1 else 0
  }

  lemma {:induction false} NextKeepsAnswers(c: Config, s: State, a: Action)
    requires AnswerInv(s) && Enabled(s, a)
    ensures AnswerInv(Next(c, s, a))
  {
    var r := Next(c, s, a);
    forall i: nat ensures Count(r.log, Answerer, i) == AnswersDue(r, i) {
      assert Count(s.log, Answerer, i) == AnswersDue(s, i);
      if a.Step? {
        StepAnswers(c, s, a.thread, i);
      } else if |r.log| > |s.log| {
        assert r.log == s.log + [r.log[|s.log|]];
        CountGrown(s.log, r.log[|s.log|], Answerer, i);
      }
    }
  }

  lemma {:induction false} StepAnswers(c: Config, s: State, i: nat, j: nat)
    requires Enabled(s, Step(i)) && Count(s.log, Answerer, j) == AnswersDue(s, j)
    ensures var r := StepThread(c, s, i); Count(r.log, Answerer, j) == AnswersDue(r, j)
  {
    var t := s.threads[i];
    if t.pc.Returned? {
      var r := Settled(t.pc.outcome, t.pc.snapshot);
      var w := if r.Keep? then [Wrote(i, t.call, r.value, t.pc.outcome.Keep?, t.pc.since)] else [];
      if r.Keep? {
        CountGrown(s.log, w[0], Answerer, j);
      }
      CountGrown(s.log + w, Answered(i, t.call, r, false), Answerer, j);
      assert r.Skip? ==> s.log + w == s.log;
    } else if Hit(s, t) {
      CountGrown(s.log, Answered(i, t.call, Keep(s.store[t.call.key].value), true), Answerer, j);
    } else {
      CountGrown(s.log, Looked(i, t.call), Answerer, j);
    }
  }

  lemma {:induction false} RunKeepsAnswers(c: Config, actions: seq<Action>)
    requires Run(c, actions).Some?
    ensures AnswerInv(Run(c, actions).value)
  {
    if actions != [] {
      RunKeepsAnswers(c, actions[..|actions| - 1]);
      NextKeepsAnswers(c, Run(c, actions[..|actions| - 1]).value, actions[|actions| - 1]);
    }
  }

  /** A call that runs to its end returns exactly once; an abandoned one never does. */
  lemma EachCallAnswersOnce(c: Config, s: State, i: nat)
    requires Reachable(c, s) && i < |s.threads|
    ensures Count(s.log, Answerer, i) == if s.threads[i].pc == Done then 1 else 0
  {
    var actions :| Run(c, actions) == Some(s);
    RunKeepsAnswers(c, actions);
  }

  /**
   Where each answer comes from: a cached one is the live value at the key and never goes to a
   forced call; any other is what the call's own body produced or, if that failed, its own
   snapshot, just put back.
   */
  lemma AnswersExplained(c: Config, s: State, n: nat)
    requires Reachable(c, s) && n < |s.log| && s.log[n].Answered?
    ensures var past, e := s.log[..n], s.log[n];
      if e.cached then
        && e.call.kind == Ordinary && !e.call.forced && LiveIn(past, e.call.key)
        && e.outcome.Keep? && Contents(past, e.call.key) == Some(e.outcome.value)
      else
        Ran(e.id, e.call, e.outcome) in past || FellBack(past, e.id, e.call, e.outcome)
  {
    ReachableInv(c, s);
    Prefix(c, s.log, n);
  }

  /**
   Lookups serve what is live: an unforced call whose lookup does not answer has found no live
   entry at its key, and no call runs its body without having got past its lookup.
   */
  lemma LookupsServeTheLive(c: Config, s: State, n: nat)
    requires Reachable(c, s) && n < |s.log|
    ensures s.log[n].Looked? && Unforced(s.log[n].call) ==> !LiveIn(s.log[..n], s.log[n].call.key)
    ensures s.log[n].Ran? ==> exists m :: 0 <= m < n && s.log[m] == Looked(s.log[n].id, s.log[n].call)
  {
    EventsAreJustified(c, s, n);
    if s.log[n].Ran? {
      var m :| 0 <= m < n && s.log[..n][m] == Looked(s.log[n].id, s.log[n].call);
      assert s.log[m] == s.log[..n][m];
    }
  }

  /** Every call that returns a value it did not find cached has just stored it. */
  lemma AnswersAreStored(c: Config, s: State, n: nat)
    requires Reachable(c, s) && n < |s.log|
    requires s.log[n].Answered? && !s.log[n].cached && s.log[n].outcome.Keep?
    ensures n > 0 && WroteFor(s.log[n - 1], s.log[n].id, s.log[n].call, s.log[n].outcome.value)
  {
    EventsAreJustified(c, s, n);
    assert n > 0 ==> s.log[..n][n - 1] == s.log[n - 1];
  }

  /** Every event of a run is justified by the events before it. */
  lemma {:induction false} EventsAreJustified(c: Config, s: State, n: nat)
    requires Reachable(c, s) && n < |s.log|
    ensures Justified(c, s.log[..n], s.log[n])
  {
    ReachableInv(c, s);
  }

  /** At any moment the store holds what was last written and not removed since, live unless
      expired since. */
  lemma StoreIsLastWritten(c: Config, s: State, k: Key)
    requires Reachable(c, s)
    ensures Stored(s.store, k) == Contents(s.log, k) && (Live(s.store, k) <==> LiveIn(s.log, k))
  {
    ReachableInv(c, s);
  }

  // ---- Provenance and meaning ----------------------------------------------------------------

  /** Despite the race, every value stored or returned for a key was produced by a body run
      for that key that completed earlier. */
  lemma Provenance(c: Config, s: State, n: nat)
    requires Reachable(c, s) && n < |s.log|
    ensures s.log[n].Wrote? ==> Produced(s.log[..n], s.log[n].call.key, Keep(s.log[n].value))
    ensures s.log[n].Answered? ==> Produced(s.log[..n], s.log[n].call.key, s.log[n].outcome)
  {
    ReachableInv(c, s);
    Prefix(c, s.log, n);
  }

  /** If every completed body run gave `f` of its key, every call returned `f` of its key and
      the store holds nothing but payloads of `f`. */
  lemma MemoizationIsTransparent(c: Config, s: State, f: Key -> Outcome)
    requires Reachable(c, s)
    requires forall n :: 0 <= n < |s.log| && s.log[n].Ran? ==> s.log[n].outcome == f(s.log[n].call.key)
    ensures forall n :: 0 <= n < |s.log| && s.log[n].Answered? ==>
      s.log[n].outcome == f(s.log[n].call.key)
    ensures forall k :: k in s.store ==> Keep(s.store[k].value) == f(k)
  {
    ReachableInv(c, s);
    forall n | 0 <= n < |s.log| && s.log[n].Answered?
      ensures s.log[n].outcome == f(s.log[n].call.key)
    {
      Provenance(c, s, n);
      ProducedGrows(s.log[..n], s.log, s.log[n].call.key, s.log[n].outcome);
    }
    forall k | k in s.store ensures Keep(s.store[k].value) == f(k) {
      assert Stored(s.store, k) == Contents(s.log, k);
      ContentsProduced(c, s.log, k);
    }
  }

  // ---- The race ---------------------------------------------------------------------------------

  predicate Changes(e: Event, k: Key) {
    (e.Wrote? && e.call.key == k) || e == Removed(k)
  }

  /** Between `since` and `n` the last thing that happened to `k` was its removal, or a write
      of something other than `v`. */
  ghost predicate Disturbed(log: seq<Event>, since: nat, n: nat, k: Key, v: Value)
    requires n <= |log|
  {
    exists m ::
      && since <= m < n && Changes(log[m], k) && !(log[m].Wrote? && log[m].value == v)
      && forall j :: m < j < n ==> !Changes(log[j], k)
  }

  lemma {:induction false} DisturbedIff(log: seq<Event>, since: nat, n: nat, k: Key, v: Value)
    requires since <= n <= |log| && Contents(log[..since], k) == Some(v)
    ensures Contents(log[..n], k) == Some(v) <==> !Disturbed(log, since, n, k, v)
    decreases n
  {
    if since < n {
      DisturbedIff(log, since, n - 1, k, v);
      assert log[..n][..n - 1] == log[..n - 1];
      if !Changes(log[n - 1], k) {
        if Disturbed(log, since, n - 1, k, v) {
          var m :| since <= m < n - 1 && Changes(log[m], k) && !(log[m].Wrote? && log[m].value == v)
            && forall j :: m < j < n - 1 ==> !Changes(log[j], k);
          assert forall j :: m < j < n ==> !Changes(log[j], k);
        }
        if Disturbed(log, since, n, k, v) {
          var m :| since <= m < n && Changes(log[m], k) && !(log[m].Wrote? && log[m].value == v)
            && forall j :: m < j < n ==> !Changes(log[j], k);
          assert m < n - 1;
        }
      }
    }
  }

  /** No value for `k` was put back after its key had been disturbed. */
  ghost predicate RaceFree(log: seq<Event>, k: Key) {
    forall n :: 0 <= n < |log| && log[n].Wrote? && log[n].call.key == k && !log[n].computed ==>
      !Disturbed(log, log[n].since, n, k, log[n].value)
  }

  /** At every moment of the run the value at `k` was the last one computed for it. */
  ghost predicate NeverRegressed(log: seq<Event>, k: Key) {
    forall n :: 0 <= n <= |log| ==> Contents(log[..n], k) == LastGood(log[..n], k)
  }

  /**
   Exactly when the snapshot form keeps the law that `#[cached]` keeps always: a key never
   goes back to an older value if and only if no put-back was disturbed between its snapshot
   and its write.
   */
  lemma RegressesOnlyByRace(c: Config, s: State, k: Key)
    requires Reachable(c, s)
    ensures NeverRegressed(s.log, k) <==> RaceFree(s.log, k)
  {
    ReachableInv(c, s);
    if RaceFree(s.log, k) {
      forall n | 0 <= n <= |s.log| ensures Contents(s.log[..n], k) == LastGood(s.log[..n], k) {
        RaceFreeKeeps(c, s.log, k, n);
      }
    }
    if NeverRegressed(s.log, k) {
      forall n | 0 <= n < |s.log| && s.log[n].Wrote? && s.log[n].call.key == k && !s.log[n].computed
        ensures !Disturbed(s.log, s.log[n].since, n, k, s.log[n].value)
      {
        PutBackKeeps(c, s.log, k, n);
      }
    }
  }

  /** A put-back after which the key still holds its last computed value was not disturbed. */
  lemma PutBackKeeps(c: Config, log: seq<Event>, k: Key, n: nat)
    requires AllJustified(c, log) && n < |log|
    requires log[n].Wrote? && log[n].call.key == k && !log[n].computed
    requires Contents(log[..n], k) == LastGood(log[..n], k)
    requires Contents(log[..n + 1], k) == LastGood(log[..n + 1], k)
    ensures !Disturbed(log, log[n].since, n, k, log[n].value)
  {
    Prefix(c, log, n);
    assert log[..n][..log[n].since] == log[..log[n].since];
    assert log[..n + 1][..n] == log[..n];
    DisturbedIff(log, log[n].since, n, k, log[n].value);
  }

  /** A put-back that was not disturbed puts back what is there. */
  lemma {:induction false} UndisturbedPutBack(c: Config, log: seq<Event>, k: Key, n: nat)
    requires AllJustified(c, log) && RaceFree(log, k) && n < |log|
    requires log[n].Wrote? && log[n].call.key == k && !log[n].computed
    ensures Contents(log[..n], k) == Some(log[n].value)
  {
    var e := log[n];
    Prefix(c, log, n);
    assert log[..n][..e.since] == log[..e.since];
    DisturbedIff(log, e.since, n, k, e.value);
  }

  lemma {:induction false} RaceFreeKeeps(c: Config, log: seq<Event>, k: Key, n: nat)
    requires AllJustified(c, log) && RaceFree(log, k) && n <= |log|
    ensures Contents(log[..n], k) == LastGood(log[..n], k)
  {
    if n > 0 {
      var past, e := log[..n - 1], log[n - 1];
      assert log[..n] == past + [e];
      RaceFreeKeeps(c, log, k, n - 1);
      if e.Wrote? && e.call.key == k && !e.computed {
        UndisturbedPutBack(c, log, k, n - 1);
      }
      StillGood(past, e, k);
    }
  }

  /** One more event, which puts back at most what is there. */
  lemma StillGood(past: seq<Event>, e: Event, k: Key)
    requires Contents(past, k) == LastGood(past, k)
    requires e.Wrote? && e.call.key == k && !e.computed ==> Contents(past, k) == Some(e.value)
    ensures Contents(past + [e], k) == LastGood(past + [e], k)
  {
    Grown(past, e, k);
  }

  // ---- Schedules without the race -------------------------------------------------------------------

  /** The call is between its lookup and its store. */
  predicate InFlight(t: Thread, k: Key) {
    t.call.key == k && (t.pc.Running? || t.pc.Returned?)
  }

  predicate AtMostOne(s: State, k: Key) {
    forall i, j :: 0 <= i < |s.threads| && 0 <= j < |s.threads| && InFlight(s.threads[i], k) && InFlight(s.threads[j], k)
      ==> i == j
  }

  predicate Idle(s: State, k: Key) {
    forall i :: 0 <= i < |s.threads| ==> !InFlight(s.threads[i], k)
  }

  /** Throughout the run at most one call for `k` is in flight, and `k` is removed only when
      none is. */
  ghost predicate OneAtATime(c: Config, actions: seq<Action>, k: Key)
    requires Run(c, actions).Some?
  {
    && AtMostOne(Run(c, actions).value, k)
    && (actions != [] ==>
         var before := actions[..|actions| - 1];
         && OneAtATime(c, before, k)
         && (actions[|actions| - 1] == Evict(k) ==> Idle(Run(c, before).value, k)))
  }

  /** The snapshots in flight for `k` are what `k` holds now. */
  ghost predicate SnapshotsCurrent(c: Config, s: State, k: Key) {
    forall i :: 0 <= i < |s.threads| && InFlight(s.threads[i], k) && s.threads[i].pc.snapshot.Some? ==>
      s.threads[i].pc.snapshot == Stored(s.store, k)
  }

  lemma NeverRegressedGrows(log: seq<Event>, e: Event, k: Key)
    requires NeverRegressed(log, k)
    requires e.Wrote? && e.call.key == k && !e.computed ==> Contents(log, k) == Some(e.value)
    ensures NeverRegressed(log + [e], k)
  {
    var more := log + [e];
    forall n | 0 <= n <= |more| ensures Contents(more[..n], k) == LastGood(more[..n], k) {
      if n <= |log| {
        assert more[..n] == log[..n];
      } else {
        assert log[..|log|] == log && more[..n] == more;
        Grown(log, e, k);
      }
    }
  }

  lemma StoreStaysCurrent(c: Config, s: State, i: nat, v: Value, pc: Pc, k: Key)
    requires Inv(c, s) && i < |s.threads| && s.threads[i].pc.Returned? && (pc == Done || pc == Dropped)
    requires Settled(s.threads[i].pc.outcome, s.threads[i].pc.snapshot) == Keep(v)
    requires AtMostOne(s, k) && SnapshotsCurrent(c, s, k) && NeverRegressed(s.log, k)
    ensures var r := Store(s, i, v, pc); SnapshotsCurrent(c, r, k) && NeverRegressed(r.log, k)
  {
    var t := s.threads[i];
    assert Stored(s.store, k) == Contents(s.log, k);
    NeverRegressedGrows(s.log, Wrote(i, t.call, v, t.pc.outcome.Keep?, t.pc.since), k);
  }

  lemma NextStaysCurrent(c: Config, s: State, a: Action, k: Key)
    requires Inv(c, s) && Enabled(s, a) && AtMostOne(s, k) && (a == Evict(k) ==> Idle(s, k))
    requires SnapshotsCurrent(c, s, k) && NeverRegressed(s.log, k)
    ensures var r := Next(c, s, a); SnapshotsCurrent(c, r, k) && NeverRegressed(r.log, k)
  {
    match a
    case Spawn(_) =>
    case Step(i) =>
      var t := s.threads[i];
      if t.pc.Returned? {
        var r := Settled(t.pc.outcome, t.pc.snapshot);
        var m := if r.Keep? then Store(s, i, r.value, Done) else At(s, i, Done);
        if r.Keep? {
          StoreStaysCurrent(c, s, i, r.value, Done, k);
        }
        NeverRegressedGrows(m.log, Answered(i, t.call, r, false), k);
      } else if Hit(s, t) {
        NeverRegressedGrows(s.log, Answered(i, t.call, Keep(s.store[t.call.key].value), true), k);
      } else {
        NeverRegressedGrows(s.log, Looked(i, t.call), k);
      }
    case Return(i, o) => NeverRegressedGrows(s.log, Ran(i, s.threads[i].call, o), k);
    case Abandon(_) =>
    case Unwind(i) =>
      StoreStaysCurrent(c, s, i, Settled(s.threads[i].pc.outcome, s.threads[i].pc.snapshot).value, Dropped, k);
    case Expire(j) => NeverRegressedGrows(s.log, Expired(j), k);
    case Evict(j) => NeverRegressedGrows(s.log, Removed(j), k);
  }

  /**
   A condition on the schedule that rules the race out: if calls for `k` are run one at a
   time, as a caller's own lock per key would make them, and `k` is not removed under a
   running call, then `k` always holds the last value computed for it.
   */
  lemma {:induction false} OneAtATimeNeverRegresses(c: Config, actions: seq<Action>, k: Key)
    requires Run(c, actions).Some? && OneAtATime(c, actions, k)
    ensures var s := Run(c, actions).value; NeverRegressed(s.log, k) && SnapshotsCurrent(c, s, k)
  {
    if actions != [] {
      var before := actions[..|actions| - 1];
      OneAtATimeNeverRegresses(c, before, k);
      RunKeeps(c, before);
      NextStaysCurrent(c, Run(c, before).value, actions[|actions| - 1], k);
    }
  }

  /** Both halves of that condition are needed: a removal under a call that then fails is
      undone by it, even if it is the only call in flight. */
  lemma RemovalUndoneHappens(k: Key, old_: Value, error: Error)
    ensures exists s :: Reachable(Config(true), s) && Stored(s.store, k) == Some(old_) && LastGood(s.log, k) == None
  {
    var c, call := Config(true), Call(Ordinary, k, false);
    var t := FirstStore(k, old_);
    var s1 := Do(c, t, Spawn(call));
    var s2 := Do(c, s1, Step(1));
    var s3 := Do(c, s2, Evict(k));
    var s4 := Do(c, s3, Return(1, Skip(error)));
    var s := Do(c, s4, Step(1));
    Grown(s2.log, Removed(k), k);
    Grown(s3.log, Ran(1, call, Skip(error)), k);
    var w := Wrote(1, call, old_, false, s4.threads[1].pc.since);
    Grown(s4.log, w, k);
    Grown(s4.log + [w], Answered(1, call, Keep(old_), false), k);
    assert Stored(s.store, k) == Some(old_);
  }

  /**
   The documented race does happen: a refresh stores `new`, and a slower refresh that fails
   puts the older `old` back over it.
   */
  lemma StaleOverwriteHappens(k: Key, old_: Value, new_: Value, error: Error)
    requires old_ != new_
    ensures exists s ::
      && Reachable(Config(true), s)
      && Stored(s.store, k) == Some(old_) && LastGood(s.log, k) == Some(new_)
  {
    var c, call := Config(true), Call(Ordinary, k, false);
    var t := FirstStore(k, old_);
    var s1 := Do(c, t, Spawn(call));
    var s2 := Do(c, s1, Step(1));
    var s3 := Do(c, s2, Spawn(call));
    var s4 := Do(c, s3, Step(2));
    assert s4.threads[1].pc.snapshot == s4.threads[2].pc.snapshot == Some(old_);
    var s := Overtake(s4, k, old_, new_, error);
  }

  /** One call stores `old_` and the entry expires. */
  lemma FirstStore(k: Key, old_: Value) returns (s: State)
    ensures Reachable(Config(true), s)
    ensures s.store == map[k := Entry(old_, false)] && |s.threads| == 1
  {
    var c, call := Config(true), Call(Ordinary, k, false);
    assert Run(c, []) == Some(INITIAL);
    var s1 := Do(c, INITIAL, Spawn(call));
    var s2 := Do(c, s1, Step(0));
    var s3 := Do(c, s2, Return(0, Keep(old_)));
    var s4 := Do(c, s3, Step(0));
    s := Do(c, s4, Expire(k));
  }

  /** Of two calls refreshing the same entry, one succeeds, and then the other fails. */
  lemma Overtake(t: State, k: Key, old_: Value, new_: Value, error: Error) returns (s: State)
    requires Reachable(Config(true), t) && |t.threads| == 3 && old_ != new_
    requires forall i :: 1 <= i < 3 ==>
      && t.threads[i].call == Call(Ordinary, k, false)
      && t.threads[i].pc.Running? && t.threads[i].pc.snapshot == Some(old_)
    ensures Reachable(Config(true), s)
    ensures Stored(s.store, k) == Some(old_) && LastGood(s.log, k) == Some(new_)
  {
    var c, call := Config(true), Call(Ordinary, k, false);
    var s1 := Do(c, t, Return(2, Keep(new_)));
    var s2 := Do(c, s1, Step(2));
    var s3 := Do(c, s2, Return(1, Skip(error)));
    s := Do(c, s3, Step(1));
    var w := Wrote(2, call, new_, true, t.threads[2].pc.since);
    var tail := [Answered(2, call, Keep(new_), false), Ran(1, call, Skip(error)),
                 Wrote(1, call, old_, false, t.threads[1].pc.since), Answered(1, call, Keep(old_), false)];
    assert s.log == s1.log + [w] + tail;
    LastGoodTail(s1.log, w, tail, k);
  }

  lemma Do(c: Config, s: State, a: Action) returns (r: State)
    requires Reachable(c, s) && Enabled(s, a)
    ensures Reachable(c, r) && r == Next(c, s, a)
  {
    ReachableNext(c, s, a);
    r := Next(c, s, a);
  }

  /** Events that neither compute a value for `k` nor remove it leave `LastGood` alone. */
  lemma {:induction false} LastGoodTail(log: seq<Event>, w: Event, tail: seq<Event>, k: Key)
    requires w.Wrote? && w.call.key == k && w.computed
    requires forall j :: 0 <= j < |tail| ==>
      tail[j] != Removed(k) && !(tail[j].Wrote? && tail[j].call.key == k && tail[j].computed)
    ensures LastGood(log + [w] + tail, k) == Some(w.value)
  {
    var all := log + [w] + tail;
    if tail == [] {
      assert all == log + [w];
    } else {
      var n := |tail| - 1;
      LastGoodTail(log, w, tail[..n], k);
      assert all[..|all| - 1] == log + [w] + tail[..n];
      assert all[|all| - 1] == tail[n];
    }
  }
}
