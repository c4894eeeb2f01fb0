/**
 What every run of the `#[once]` protocol can have in its log: how far apart stores are,
 how old a cached answer can be, and when the cell is written at most once.
 */
module OnceHistory {
  import opened Basics
  import opened Tally
  import opened OnceProtocol

  predicate Unforced(call: Call) {
    call.kind == Ordinary && !call.forced
  }

  /** What was written last: instant and value. */
  function Newest(log: seq<Event>): Option<(nat, Value)> {
    if log == [] then None
    else
      var e := log[|log| - 1];
      if e.Wrote? then Some((e.stamp, e.value)) else Newest(log[..|log| - 1])
  }

  /** Whether the value written last has reported itself expired. */
  predicate HasExpired(log: seq<Event>) {
    log != [] &&
    var e := log[|log| - 1];
    e.Expired? || (!e.Wrote? && HasExpired(log[..|log| - 1]))
  }

  /** At instant `t` the cell may be written by a call that looked and missed. */
  ghost predicate Vacant(c: Config, log: seq<Event>, t: nat) {
    match Newest(log)
    case None => true
    case Some(w) =>
      match c.expiry
      case Never => false
      case Ttl(ttl) => w.0 + ttl <= t
      case PerValue => HasExpired(log)
  }

  ghost predicate Justified(c: Config, past: seq<Event>, e: Event) {
    match e
    case Ran(id, call, o) =>
      c.sync && c.expiry == Never && Unforced(call) ==>
        forall m :: 0 <= m < |past| && Won(past[m]) ==> LostAfter(past, m)
    case Wrote(id, call, stamp, v) =>
      && Ran(id, call, Keep(v)) in past
      && (Newest(past).Some? ==> Newest(past).value.0 <= stamp)
      && (c.sync && Unforced(call) ==> Vacant(c, past, stamp))
    case Answered(id, call, now, o, cached) =>
      && (cached ==> CachedOk(c, past, call, now, o))
      && (!cached ==> Ran(id, call, o) in past)
      && (!cached && c.sync && c.expiry == Never && Unforced(call) ==>
           match Newest(past) case None => o.Skip? case Some(w) => o == Keep(w.1))
    case _ => true
  }

  /** The body of an unforced call succeeded. */
  predicate Won(e: Event) {
    e.Ran? && Unforced(e.call) && e.outcome.Keep?
  }

  /** The call whose body ran at position `m` was later abandoned at its store. */
  ghost predicate LostAfter(log: seq<Event>, m: nat)
    requires m < |log| && log[m].Ran?
  {
    exists j :: m < j < |log| && log[j] == Lost(log[m].id)
  }

  lemma LostAfterGrows(log: seq<Event>, more: seq<Event>, m: nat)
    requires m < |log| <= |more| && log == more[..|log|] && log[m].Ran? && LostAfter(log, m)
    ensures LostAfter(more, m)
  {
    var j :| m < j < |log| && log[j] == Lost(log[m].id);
    assert more[j] == log[j] && more[m] == log[m];
  }

  /** A cached answer is the value written last, unexpired as of the call's own entry. */
  ghost predicate CachedOk(c: Config, past: seq<Event>, call: Call, now: nat, o: Outcome) {
    && Unforced(call) && Newest(past).Some? && o == Keep(Newest(past).value.1)
    && (c.expiry.Ttl? ==> Since(now, Newest(past).value.0) < c.expiry.ttl)
    && (c.expiry.PerValue? ==> !HasExpired(past))
  }

  ghost predicate AllJustified(c: Config, log: seq<Event>) {
    forall n :: 0 <= n < |log| ==> Justified(c, log[..n], log[n])
  }

  lemma Append(c: Config, log: seq<Event>, e: Event)
    requires AllJustified(c, log) && Justified(c, log, e)
    ensures AllJustified(c, log + [e])
    ensures Newest(log + [e]) == if e.Wrote? then Some((e.stamp, e.value)) else Newest(log)
    ensures HasExpired(log + [e]) == (e.Expired? || (!e.Wrote? && HasExpired(log)))
  {
    assert (log + [e])[..|log|] == log;
    EachGrown(log, e, (past, x) => Justified(c, past, x));
  }

  // ---- The invariant ---------------------------------------------------------------------

  ghost predicate LockInv(c: Config, s: State) {
    && (forall i :: 0 <= i < |s.threads| ==>
         (HoldsWrite(c, s.threads[i]) <==> s.writer == Some(i))
         && (HoldsRead(s.threads[i]) <==> i in s.readers))
    && (s.writer.Some? ==> s.writer.value < |s.threads| && s.readers == {})
    && (forall i :: i in s.readers ==> i < |s.threads|)
  }

  /** The cell is what the log says was written last; its stamp is not in the future. */
  ghost predicate CellInv(s: State) {
    match s.cell
    case None => Newest(s.log) == None
    case Some(x) =>
      && Newest(s.log) == Some((x.stamp, x.value)) && x.stamp <= s.clock
      && x.expired == HasExpired(s.log)
  }

  ghost predicate ThreadInv(c: Config, s: State, i: nat, t: Thread) {
    && t.now <= s.clock
    && (t.pc.Returned? || t.pc.Storing? ==> Ran(i, t.call, t.pc.outcome) in s.log)
    && (t.call.kind == Prime ==> !t.pc.Looking? && !t.pc.Opening? && !t.pc.Recheck?)
    && (t.call.kind == Ordinary && c.sync ==> !t.pc.Returned?)
    && (c.sync && Unforced(t.call) && (t.pc.Running? || t.pc.Storing?) ==> Vacant(c, s.log, s.clock))
  }

  /** Without expiry a successful body run is followed by its store before any other runs,
      unless it is lost at its store. */
  ghost predicate WonInv(c: Config, s: State) {
    c.sync && c.expiry == Never && s.cell.None? ==>
      forall m :: 0 <= m < |s.log| && Won(s.log[m]) ==> Pending(s, m)
  }

  ghost predicate Pending(s: State, m: nat)
    requires m < |s.log| && s.log[m].Ran?
  {
    || (s.log[m].id < |s.threads| && s.threads[s.log[m].id].pc == Storing(s.log[m].outcome))
    || LostAfter(s.log, m)
  }

  /** A step that loses no pending store, except by recording its loss. */
  lemma WonKept(c: Config, s: State, r: State)
    requires WonInv(c, s) && (r.cell.None? ==> s.cell.None?)
    requires |s.log| <= |r.log| && s.log == r.log[..|s.log|]
    requires forall m :: |s.log| <= m < |r.log| && Won(r.log[m]) ==> Pending(r, m)
    requires |s.threads| <= |r.threads|
    requires forall j :: 0 <= j < |s.threads| && s.threads[j].pc.Storing? && s.threads[j].pc.outcome.Keep? ==>
      r.threads[j].pc == s.threads[j].pc || (|s.log| < |r.log| && r.log[|s.log|] == Lost(j))
    ensures WonInv(c, r)
  {
    if c.sync && c.expiry == Never && r.cell.None? {
      forall m | 0 <= m < |r.log| && Won(r.log[m]) ensures Pending(r, m) {
        if m < |s.log| {
          assert r.log[m] == s.log[m];
          if LostAfter(s.log, m) {
            LostAfterGrows(s.log, r.log, m);
          }
        }
      }
    }
  }

  ghost predicate Inv(c: Config, s: State) {
    && LockInv(c, s) && CellInv(s) && AllJustified(c, s.log) && WonInv(c, s)
    && (forall i :: 0 <= i < |s.threads| ==> ThreadInv(c, s, i, s.threads[i]))
  }

  // ---- Every action keeps it ---------------------------------------------------------------

  lemma MoveKeepsLocks(c: Config, s: State, i: nat, t: Thread)
    requires LockInv(c, s) && i < |s.threads| && LocksFree(c, s, i, t.pc)
    requires t.call == s.threads[i].call
    ensures LockInv(c, Move(c, s, i, t))
  {
    var r := Move(c, s, i, t);
    assert forall j :: 0 <= j < |s.threads| && j != i ==> r.threads[j] == s.threads[j];
  }

  /** A move that leaves cell and log alone, and does not abandon a store. */
  lemma QuietMove(c: Config, s: State, i: nat, t: Thread)
    requires Inv(c, s) && i < |s.threads| && LocksFree(c, s, i, t.pc) && t.call == s.threads[i].call
    requires ThreadInv(c, s, i, t) && !s.threads[i].pc.Storing?
    ensures Inv(c, Move(c, s, i, t))
  {
    var r := Move(c, s, i, t);
    MoveKeepsLocks(c, s, i, t);
    WonKept(c, s, r);
    forall j | 0 <= j < |r.threads| ensures ThreadInv(c, r, j, r.threads[j]) {
      assert ThreadInv(c, s, j, s.threads[j]);
    }
  }

  /** A call is abandoned at its store. */
  lemma {:induction false} LostKeeps(c: Config, s: State, i: nat)
    requires Inv(c, s) && i < |s.threads| && s.threads[i].pc.Storing?
    ensures Inv(c, Next(c, s, Abandon(i)))
  {
    var r := Next(c, s, Abandon(i));
    MoveKeepsLocks(c, s, i, s.threads[i].(pc := Dropped));
    Append(c, s.log, Lost(i));
    LostKeepsWon(c, s, i);
    SameLocks(c, Move(c, s, i, s.threads[i].(pc := Dropped)), r);
    assert r.log == s.log + [Lost(i)] && CellInv(r);
    forall j | 0 <= j < |r.threads| ensures ThreadInv(c, r, j, r.threads[j]) {
      assert r.threads[j] == if j == i then s.threads[j].(pc := Dropped) else s.threads[j];
      LostKeepsThread(c, s, r, Lost(i), j);
    }
  }

  lemma LostKeepsWon(c: Config, s: State, i: nat)
    requires WonInv(c, s) && i < |s.threads| && s.threads[i].pc.Storing?
    ensures WonInv(c, Next(c, s, Abandon(i)))
  {
    WonKept(c, s, Next(c, s, Abandon(i)));
  }

  lemma SameLocks(c: Config, s: State, r: State)
    requires LockInv(c, s) && r.threads == s.threads && r.writer == s.writer && r.readers == s.readers
    ensures LockInv(c, r)
  {
  }

  /** What a thread relies on survives a log entry that is no write, if the thread stays. */
  lemma {:induction false} LostKeepsThread(c: Config, s: State, r: State, e: Event, j: nat)
    requires j < |s.threads| && j < |r.threads| && ThreadInv(c, s, j, s.threads[j])
    requires r.threads[j] == s.threads[j] || r.threads[j] == s.threads[j].(pc := Dropped)
    requires r.clock == s.clock && r.log == s.log + [e]
    requires Newest(r.log) == Newest(s.log) && HasExpired(r.log) == HasExpired(s.log)
    ensures ThreadInv(c, r, j, r.threads[j])
  {
    var t := s.threads[j];
    assert Vacant(c, s.log, s.clock) ==> Vacant(c, r.log, r.clock);
    if t.pc.Returned? || t.pc.Storing? {
      assert Ran(j, t.call, t.pc.outcome) in s.log ==> Ran(j, t.call, t.pc.outcome) in r.log;
    }
  }

  /** An event that is neither a body run nor a write nor an expiry is logged. */
  lemma {:induction false} LogGrows(c: Config, s: State, e: Event)
    requires Inv(c, s) && !e.Ran? && !e.Wrote? && !e.Expired? && Justified(c, s.log, e)
    ensures Inv(c, s.(log := s.log + [e]))
  {
    var r := s.(log := s.log + [e]);
    Append(c, s.log, e);
    forall j | 0 <= j < |r.threads| ensures ThreadInv(c, r, j, r.threads[j]) {
      LostKeepsThread(c, s, r, e, j);
    }
    WonKept(c, s, r);
  }

  /** Thread `i` logs an event and goes on. */
  lemma {:induction false} LoggedMove(c: Config, s: State, i: nat, e: Event, t: Thread)
    requires Inv(c, s) && i < |s.threads| && LocksFree(c, s, i, t.pc) && t.call == s.threads[i].call
    requires !e.Ran? && !e.Wrote? && !e.Expired? && Justified(c, s.log, e)
    requires ThreadInv(c, s.(log := s.log + [e]), i, t) && !s.threads[i].pc.Storing?
    ensures Inv(c, Move(c, s, i, t).(log := s.log + [e]))
  {
    var m := s.(log := s.log + [e]);
    LogGrows(c, s, e);
    QuietMove(c, m, i, t);
    assert Move(c, m, i, t) == Move(c, s, i, t).(log := s.log + [e]);
  }

  /** An unforced body under `sync_writes` and no expiry can only return if all before it
      failed or were lost. */
  lemma RanIsJustified(c: Config, s: State, i: nat, o: Outcome)
    requires Inv(c, s) && Enabled(c, s, Return(i, o))
    ensures Justified(c, s.log, Ran(i, s.threads[i].call, o))
  {
    var t := s.threads[i];
    assert ThreadInv(c, s, i, t);
    if c.sync && c.expiry == Never && Unforced(t.call) {
      assert HoldsWrite(c, t);
      forall m | 0 <= m < |s.log| && Won(s.log[m]) ensures LostAfter(s.log, m) {
        assert Pending(s, m);
      }
    }
  }

  lemma ReturnKeepsWon(c: Config, s: State, i: nat, o: Outcome)
    requires Inv(c, s) && Enabled(c, s, Return(i, o))
    ensures WonInv(c, Next(c, s, Return(i, o)))
  {
    if c.sync {
      WonKept(c, s, Next(c, s, Return(i, o)));
    }
  }

  /** The body of thread `i` returns. */
  lemma ReturnKeeps(c: Config, s: State, i: nat, o: Outcome)
    requires Inv(c, s) && Enabled(c, s, Return(i, o))
    ensures Inv(c, Next(c, s, Return(i, o)))
  {
    var t := s.threads[i];
    var r := Next(c, s, Return(i, o));
    assert ThreadInv(c, s, i, t);
    RanIsJustified(c, s, i, o);
    ReturnKeepsWon(c, s, i, o);
    Append(c, s.log, Ran(i, t.call, o));
    MoveKeepsLocks(c, s, i, t.(pc := ReturnPc(c, t, o)));
    forall j | 0 <= j < |r.threads| ensures ThreadInv(c, r, j, r.threads[j]) {
      ReturnKeepsThread(c, s, i, o, j);
    }
  }

  lemma ReturnKeepsThread(c: Config, s: State, i: nat, o: Outcome, j: nat)
    requires Enabled(c, s, Return(i, o)) && j < |s.threads|
    requires ThreadInv(c, s, i, s.threads[i]) && ThreadInv(c, s, j, s.threads[j])
    requires Newest(s.log + [Ran(i, s.threads[i].call, o)]) == Newest(s.log)
    requires HasExpired(s.log + [Ran(i, s.threads[i].call, o)]) == HasExpired(s.log)
    ensures var r := Next(c, s, Return(i, o)); ThreadInv(c, r, j, r.threads[j])
  {
    assert Ran(i, s.threads[i].call, o) in Next(c, s, Return(i, o)).log;
  }

  /** Thread `i` writes its payload under the write lock. */
  lemma WriteKeeps(c: Config, s: State, i: nat)
    requires Inv(c, s) && i < |s.threads| && s.threads[i].pc.Storing? && s.threads[i].pc.outcome.Keep?
    ensures var t := s.threads[i];
      var v := t.pc.outcome.value;
      Inv(c, Move(c, s, i, t.(pc := Done))
               .(cell := Some(Cell(s.clock, v, false)), log := s.log + [Wrote(i, t.call, s.clock, v)]))
  {
    var t := s.threads[i];
    var v := t.pc.outcome.value;
    var d := Move(c, s, i, t.(pc := Done));
    var r := d.(cell := Some(Cell(s.clock, v, false)), log := s.log + [Wrote(i, t.call, s.clock, v)]);
    assert ThreadInv(c, s, i, t);
    Append(c, s.log, Wrote(i, t.call, s.clock, v));
    MoveKeepsLocks(c, s, i, t.(pc := Done));
    forall j | 0 <= j < |r.threads| ensures ThreadInv(c, r, j, r.threads[j]) {
      assert ThreadInv(c, s, j, s.threads[j]);
      assert HoldsWrite(c, t);
      assert j != i ==> !HoldsWrite(c, s.threads[j]);
    }
  }

  lemma CommitKeeps(c: Config, s: State, i: nat)
    requires Inv(c, s) && i < |s.threads| && s.threads[i].pc.Storing?
    ensures Inv(c, Commit(c, s, i))
  {
    if s.threads[i].pc.outcome.Keep? {
      CommitKeep(c, s, i);
    } else {
      CommitSkip(c, s, i);
    }
  }

  lemma CommitKeep(c: Config, s: State, i: nat)
    requires Inv(c, s) && i < |s.threads| && s.threads[i].pc.Storing? && s.threads[i].pc.outcome.Keep?
    ensures Inv(c, Commit(c, s, i))
  {
    var t := s.threads[i];
    var v := t.pc.outcome.value;
    var e := Answered(i, t.call, t.now, t.pc.outcome, false);
    var w := Wrote(i, t.call, s.clock, v);
    assert ThreadInv(c, s, i, t);
    WriteKeeps(c, s, i);
    var m := Move(c, s, i, t.(pc := Done)).(cell := Some(Cell(s.clock, v, false)), log := s.log + [w]);
    assert Ran(i, t.call, t.pc.outcome) in m.log;
    LogGrows(c, m, e);
    assert m.log + [e] == s.log + [w, e];
  }

  lemma CommitSkip(c: Config, s: State, i: nat)
    requires Inv(c, s) && i < |s.threads| && s.threads[i].pc.Storing? && s.threads[i].pc.outcome.Skip?
    ensures Inv(c, Commit(c, s, i))
  {
    var t := s.threads[i];
    var e := Answered(i, t.call, t.now, t.pc.outcome, false);
    assert ThreadInv(c, s, i, t);
    LogGrows(c, s, e);
    SkipMove(c, s.(log := s.log + [e]), i);
  }

  /** A store that had nothing to store. */
  lemma SkipMove(c: Config, s: State, i: nat)
    requires Inv(c, s) && i < |s.threads| && s.threads[i].pc.Storing? && s.threads[i].pc.outcome.Skip?
    ensures Inv(c, Move(c, s, i, s.threads[i].(pc := Done)))
  {
    var t := s.threads[i];
    var r := Move(c, s, i, t.(pc := Done));
    MoveKeepsLocks(c, s, i, t.(pc := Done));
    WonKept(c, s, r);
    forall j | 0 <= j < |r.threads| ensures ThreadInv(c, r, j, r.threads[j]) {
      assert ThreadInv(c, s, j, s.threads[j]);
    }
  }

  lemma StepKeeps(c: Config, s: State, i: nat)
    requires Inv(c, s) && CanStep(c, s, i)
    ensures Inv(c, StepThread(c, s, i))
  {
    var t := s.threads[i];
    assert ThreadInv(c, s, i, t);
    if t.pc.Storing? {
      CommitKeeps(c, s, i);
    } else if t.pc.Looking? && Hit(c, s, t) {
      QuietMove(c, s, i, t.(pc := Done));
      LogGrows(c, Move(c, s, i, t.(pc := Done)),
                  Answered(i, t.call, t.now, Keep(s.cell.value.value), true));
    } else if t.pc.Enter? {
      LoggedMove(c, s, i, Entered(i, t.call, s.clock), t.(now := s.clock, pc := NextPc(c, t, false)));
    } else if t.pc.Looking? {
      Append(c, s.log, Looked(i, t.call, t.now));
      LoggedMove(c, s, i, Looked(i, t.call, t.now), t.(pc := NextPc(c, t, false)));
    } else {
      QuietMove(c, s, i, t.(pc := NextPc(c, t, false)));
    }
  }

  lemma {:induction false} TickKeeps(c: Config, s: State, d: nat)
    requires Inv(c, s)
    ensures Inv(c, Next(c, s, Tick(d)))
  {
    var e := Ticked(s.clock + d);
    var m := s.(log := s.log + [e]);
    LogGrows(c, s, e);
    var r := m.(clock := s.clock + d);
    SameLocks(c, m, r);
    WonKept(c, m, r);
    assert Next(c, s, Tick(d)) == r && CellInv(r);
    forall j | 0 <= j < |r.threads| ensures ThreadInv(c, r, j, r.threads[j]) {
      LaterKeepsThread(c, m, r, j);
    }
  }

  lemma {:induction false} LaterKeepsThread(c: Config, s: State, r: State, j: nat)
    requires j < |s.threads| && ThreadInv(c, s, j, s.threads[j]) && r == s.(clock := r.clock) && s.clock <= r.clock
    ensures ThreadInv(c, r, j, r.threads[j])
  {
    assert Vacant(c, s.log, s.clock) ==> Vacant(c, s.log, r.clock);
  }

  lemma NextKeeps(c: Config, s: State, a: Action)
    requires Inv(c, s) && Enabled(c, s, a)
    ensures Inv(c, Next(c, s, a))
  {
    var r := Next(c, s, a);
    match a
    case Spawn(call) =>
      forall j | 0 <= j < |r.threads| ensures ThreadInv(c, r, j, r.threads[j]) {
        assert j < |s.threads| ==> ThreadInv(c, s, j, s.threads[j]);
      }
    case Step(i) => StepKeeps(c, s, i);
    case Return(i, o) => ReturnKeeps(c, s, i, o);
    case Abandon(i) =>
      assert ThreadInv(c, s, i, s.threads[i]);
      if s.threads[i].pc.Storing? {
        LostKeeps(c, s, i);
      } else {
        QuietMove(c, s, i, s.threads[i].(pc := Dropped));
      }
    case Tick(d) => TickKeeps(c, s, d);
    case Expire =>
      Append(c, s.log, Expired);
      forall j | 0 <= j < |r.threads| ensures ThreadInv(c, r, j, r.threads[j]) {
        assert ThreadInv(c, s, j, s.threads[j]);
      }
  }

  lemma {:induction false} RunKeeps(c: Config, actions: seq<Action>)
    requires Run(c, INITIAL, actions).Some?
    ensures Inv(c, Run(c, INITIAL, actions).value)
  {
    if actions != [] {
      var before := actions[..|actions| - 1];
      RunKeeps(c, before);
      NextKeeps(c, Run(c, INITIAL, before).value, actions[|actions| - 1]);
    }
  }

  lemma ReachableInv(c: Config, s: State)
    requires Reachable(c, s)
    ensures Inv(c, s)
  {
    var actions :| Run(c, INITIAL, actions) == Some(s);
    RunKeeps(c, actions);
  }

  // ---- Answers ---------------------------------------------------------------------------------

  /** The call that an answer belongs to. */
  function Answerer(e: Event): Option<nat> {
    if e.Answered? then Some(e.id) else None
  }

  /** Calls that are done have returned once; all others not at all. */
  ghost predicate AnswerInv(s: State) {
    forall i: nat :: Count(s.log, Answerer, i) == AnswersDue(s, i)
  }

  function AnswersDue(s: State, i: nat): nat {
    if i < |s.threads| && s.threads[i].pc == Done then 1 else 0
  }

  lemma {:induction false} NextKeepsAnswers(c: Config, s: State, a: Action)
    requires AnswerInv(s) && Enabled(c, s, a)
    ensures AnswerInv(Next(c, s, a))
  {
    var r := Next(c, s, a);
    forall i: nat ensures Count(r.log, Answerer, i) == AnswersDue(r, i) {
      assert Count(s.log, Answerer, i) == AnswersDue(s, i);
      if a.Step? {
        StepAnswers(c, s, a.thread, i);
      } else if |r.log| > |s.log| {
        assert r.log == s.log + [r.log[|s.log|]];
        CountGrown(s.log, r.log[|s.log|], Answerer, i);
      }
    }
  }

  lemma {:induction false} CommitAnswers(c: Config, s: State, i: nat, j: nat)
    requires i < |s.threads| && s.threads[i].pc.Storing? && Count(s.log, Answerer, j) == AnswersDue(s, j)
    ensures var r := Commit(c, s, i); Count(r.log, Answerer, j) == AnswersDue(r, j)
  {
    var t := s.threads[i];
    var a := Answered(i, t.call, t.now, t.pc.outcome, false);
    match t.pc.outcome
    case Keep(v) =>
      var w := Wrote(i, t.call, s.clock, v);
      CountGrown(s.log, w, Answerer, j);
      CountGrown(s.log + [w], a, Answerer, j);
      assert s.log + [w] + [a] == Commit(c, s, i).log;
    case Skip(_) => CountGrown(s.log, a, Answerer, j);
  }

  lemma {:induction false} StepAnswers(c: Config, s: State, i: nat, j: nat)
    requires CanStep(c, s, i) && Count(s.log, Answerer, j) == AnswersDue(s, j)
    ensures var r := StepThread(c, s, i); Count(r.log, Answerer, j) == AnswersDue(r, j)
  {
    var t := s.threads[i];
    if t.pc.Storing? {
      CommitAnswers(c, s, i, j);
    } else if t.pc.Looking? && Hit(c, s, t) {
      CountGrown(s.log, Answered(i, t.call, t.now, Keep(s.cell.value.value), true), Answerer, j);
    } else if t.pc.Enter? {
      CountGrown(s.log, Entered(i, t.call, s.clock), Answerer, j);
    } else if t.pc.Looking? {
      CountGrown(s.log, Looked(i, t.call, t.now), Answerer, j);
    }
  }

  lemma {:induction false} RunKeepsAnswers(c: Config, actions: seq<Action>)
    requires Run(c, INITIAL, actions).Some?
    ensures AnswerInv(Run(c, INITIAL, actions).value)
  {
    if actions != [] {
      RunKeepsAnswers(c, actions[..|actions| - 1]);
      NextKeepsAnswers(c, Run(c, INITIAL, actions[..|actions| - 1]).value, actions[|actions| - 1]);
    }
  }

  /** A call that runs to its end returns exactly once; an abandoned one never does. */
  lemma EachCallAnswersOnce(c: Config, s: State, i: nat)
    requires Reachable(c, s) && i < |s.threads|
    ensures Count(s.log, Answerer, i) == if s.threads[i].pc == Done then 1 else 0
  {
    var actions :| Run(c, INITIAL, actions) == Some(s);
    RunKeepsAnswers(c, actions);
  }

  // ---- TTL ---------------------------------------------------------------------------------

  /** Reading the past of a position: the newest write is one of the writes, and the latest. */
  lemma {:induction false} NewestCovers(c: Config, log: seq<Event>, p: nat)
    requires AllJustified(c, log) && p < |log| && log[p].Wrote?
    ensures Newest(log).Some? && log[p].stamp <= Newest(log).value.0
  {
    var past, e := log[..|log| - 1], log[|log| - 1];
    assert forall n :: 0 <= n < |past| ==> past[n] == log[n] && past[..n] == log[..n];
    if p < |past| {
      NewestCovers(c, past, p);
      assert Justified(c, past, e);
    }
  }

  lemma PrefixJustified(c: Config, log: seq<Event>, n: nat)
    requires AllJustified(c, log) && n < |log|
    ensures AllJustified(c, log[..n]) && Justified(c, log[..n], log[n])
  {
    EachPrefix(log, n, (past, x) => Justified(c, past, x));
  }

  /** Every event of a run is justified by the events before it. */
  lemma Explained(c: Config, s: State, n: nat)
    requires Reachable(c, s) && n < |s.log|
    ensures AllJustified(c, s.log[..n]) && Justified(c, s.log[..n], s.log[n])
  {
    ReachableInv(c, s);
    PrefixJustified(c, s.log, n);
  }

  /**
   TTL spacing: with `sync_writes` and a TTL, in every run, a store by an unforced call comes
   at least the TTL after every earlier store, including stores by primes and forced calls.
   */
  lemma TtlSpacing(c: Config, s: State, p: nat, q: nat)
    requires c.sync && c.expiry.Ttl? && Reachable(c, s) && p < q < |s.log|
    requires s.log[p].Wrote? && s.log[q].Wrote? && Unforced(s.log[q].call)
    ensures s.log[q].stamp >= s.log[p].stamp + c.expiry.ttl
  {
    Explained(c, s, q);
    NewestCovers(c, s.log[..q], p);
  }

  /** A cached answer is the value written last before it, and its age at the caller's own
      entry instant, counted as zero if it was written later, is below the TTL. */
  lemma CachedAnswersAreYoung(c: Config, s: State, n: nat)
    requires Reachable(c, s) && n < |s.log| && s.log[n].Answered? && s.log[n].cached
    ensures Unforced(s.log[n].call)
    ensures exists p ::
      && 0 <= p < n && s.log[p].Wrote?
      && (forall m :: p < m < n ==> !s.log[m].Wrote?)
      && s.log[n].outcome == Keep(s.log[p].value)
      && (c.expiry.Ttl? ==> s.log[n].now < s.log[p].stamp + c.expiry.ttl && c.expiry.ttl > 0)
  {
    Explained(c, s, n);
    var p := NewestAt(s.log[..n]);
    assert s.log[..n][p] == s.log[p];
    assert forall m :: p < m < n ==> s.log[m] == s.log[..n][m];
  }

  lemma {:induction false} NewestAt(log: seq<Event>) returns (p: nat)
    requires Newest(log).Some?
    ensures p < |log| && log[p].Wrote? && Newest(log) == Some((log[p].stamp, log[p].value))
    ensures forall m :: p < m < |log| ==> !log[m].Wrote?
  {
    if log[|log| - 1].Wrote? {
      p := |log| - 1;
    } else {
      p := NewestAt(log[..|log| - 1]);
      assert forall m :: p < m < |log| - 1 ==> log[m] == log[..|log| - 1][m];
    }
  }

  // ---- Write once --------------------------------------------------------------------------

  /**
   Write-once register: with `sync_writes` and no expiry, in every run, an unforced call
   stores only into an empty cell; so if all calls are unforced there is at most one store.
   */
  lemma WriteOnce(c: Config, s: State, p: nat, q: nat)
    requires c.sync && c.expiry == Never && Reachable(c, s) && p < q < |s.log|
    requires s.log[p].Wrote? && s.log[q].Wrote?
    ensures !Unforced(s.log[q].call)
  {
    Explained(c, s, q);
    NewestCovers(c, s.log[..q], p);
  }

  /** Every unforced call that answers after a store returns the value stored last. */
  lemma LaterCallsReturnIt(c: Config, s: State, p: nat, n: nat)
    requires c.sync && c.expiry == Never && Reachable(c, s) && p < n < |s.log|
    requires s.log[p].Wrote? && s.log[n].Answered? && Unforced(s.log[n].call)
    ensures Newest(s.log[..n]).Some? && s.log[n].outcome == Keep(Newest(s.log[..n]).value.1)
    ensures (forall m :: p < m < n ==> !s.log[m].Wrote?) ==> s.log[n].outcome == Keep(s.log[p].value)
  {
    Explained(c, s, n);
    NewestCovers(c, s.log[..n], p);
    if forall m :: p < m < n ==> !s.log[m].Wrote? {
      NewestIsLast(s.log[..n], p);
    }
  }

  lemma NewestIsLast(log: seq<Event>, p: nat)
    requires p < |log| && log[p].Wrote? && forall m :: p < m < |log| ==> !log[m].Wrote?
    ensures Newest(log) == Some((log[p].stamp, log[p].value))
  {
    if p < |log| - 1 {
      NewestIsLast(log[..|log| - 1], p);
    }
  }

  /** Double-checked locking works: once a body of an unforced call has succeeded, no body of
      an unforced call completes again, unless the first call was abandoned at its store. */
  lemma OneSuccessfulRun(c: Config, s: State, p: nat, q: nat)
    requires c.sync && c.expiry == Never && Reachable(c, s) && p < q < |s.log|
    requires s.log[p].Ran? && s.log[q].Ran? && Unforced(s.log[p].call) && Unforced(s.log[q].call)
    ensures s.log[p].outcome.Keep? ==> exists m :: p < m < q && s.log[m] == Lost(s.log[p].id)
  {
    Explained(c, s, q);
    var past := s.log[..q];
    assert past[p] == s.log[p];
    if s.log[p].outcome.Keep? {
      assert Won(past[p]);
      var m :| p < m < |past| && past[m] == Lost(past[p].id);
      assert s.log[m] == past[m];
    }
  }

  /** That exception is real: if the first call is abandoned at its store, a second unforced
      body runs and succeeds. */
  lemma {:induction false} SecondRunHappens(v: Value)
    ensures exists s, p, q ::
      && Reachable(Config(true, Never), s)
      && 0 <= p < q < |s.log| && Won(s.log[p]) && Won(s.log[q])
  {
    var s, p, q := TwoRuns(v);
  }

  lemma {:induction false} TwoRuns(v: Value) returns (s: State, p: nat, q: nat)
    ensures Reachable(Config(true, Never), s)
    ensures p < q < |s.log| && Won(s.log[p]) && Won(s.log[q])
  {
    var s1 := FirstRun(v);
    p := |s1.log| - 2;
    s := RunBody(s1, v);
    q := |s.log| - 1;
    assert s.log[p] == s1.log[p];
  }

  /** A first call's body succeeds, and the call is abandoned. */
  lemma {:induction false} FirstRun(v: Value) returns (s: State)
    ensures Reachable(Config(true, Never), s) && s.writer == None && s.readers == {} && s.cell == None
    ensures |s.log| >= 2 && Won(s.log[|s.log| - 2])
  {
    var c := Config(true, Never);
    assert Run(c, INITIAL, []) == Some(INITIAL);
    var s1 := RunBody(INITIAL, v);
    assert Won(s1.log[|s1.log| - 1]);
    s := Do(c, s1, Abandon(0));
    assert s.log == s1.log + [Lost(0)];
  }

  lemma Do(c: Config, s: State, a: Action) returns (r: State)
    requires Reachable(c, s) && Enabled(c, s, a)
    ensures Reachable(c, r) && r == Next(c, s, a)
  {
    ReachableNext(c, s, a);
    r := Next(c, s, a);
  }

  /** With nothing stored and nobody in the way, a new call runs its body, which succeeds. */
  lemma {:induction false} RunBody(s: State, v: Value) returns (r: State)
    requires Reachable(Config(true, Never), s) && s.writer == None && s.readers == {} && s.cell == None
    ensures Reachable(Config(true, Never), r) && r.cell == None && |r.threads| == |s.threads| + 1
    ensures r.threads[|s.threads|].pc == Storing(Keep(v)) && r.writer == Some(|s.threads|) && r.readers == {}
    ensures |s.log| < |r.log| && s.log <= r.log
    ensures r.log[|r.log| - 1] == Ran(|s.threads|, Call(Ordinary, false), Keep(v))
  {
    var c, i := Config(true, Never), |s.threads|;
    var s1 := OptimisticMiss(s);
    var s2 := Do(c, s1, Step(i));
    var s3 := Do(c, s2, Step(i));
    r := Do(c, s3, Return(i, Keep(v)));
  }

  /** Such a call gets past its optimistic read. */
  lemma {:induction false} OptimisticMiss(s: State) returns (r: State)
    requires Reachable(Config(true, Never), s) && s.writer == None && s.readers == {} && s.cell == None
    ensures Reachable(Config(true, Never), r) && r.cell == None && |r.threads| == |s.threads| + 1
    ensures r.threads[|s.threads|].pc == Recheck && r.threads[|s.threads|].call == Call(Ordinary, false)
    ensures r.writer == None && r.readers == {} && s.log <= r.log
  {
    var c, i := Config(true, Never), |s.threads|;
    var s1 := Do(c, s, Spawn(Call(Ordinary, false)));
    var s2 := Do(c, s1, Step(i));
    var s3 := Do(c, s2, Step(i));
    r := Do(c, s3, Step(i));
    assert r.readers == {};
  }

  // ---- Meaning -----------------------------------------------------------------------------

  lemma {:induction false} NewestIsProduced(c: Config, log: seq<Event>)
    requires AllJustified(c, log) && Newest(log).Some?
    ensures exists m :: 0 <= m < |log| && log[m].Ran? && log[m].outcome == Keep(Newest(log).value.1)
  {
    var past, e := log[..|log| - 1], log[|log| - 1];
    PrefixJustified(c, log, |log| - 1);
    if e.Wrote? {
      var m :| 0 <= m < |past| && past[m] == Ran(e.id, e.call, Keep(e.value));
      assert log[m].Ran?;
    } else {
      NewestIsProduced(c, past);
      var m :| 0 <= m < |past| && past[m].Ran? && past[m].outcome == Keep(Newest(past).value.1);
      assert log[m].Ran?;
    }
  }

  /** In every mode, every answer is the outcome of a body run that completed earlier. */
  lemma Provenance(c: Config, s: State, n: nat)
    requires Reachable(c, s) && n < |s.log| && s.log[n].Answered?
    ensures exists m :: 0 <= m < n && s.log[m].Ran? && s.log[m].outcome == s.log[n].outcome
  {
    Explained(c, s, n);
    var past, e := s.log[..n], s.log[n];
    if e.cached {
      NewestIsProduced(c, past);
      var m :| 0 <= m < n && past[m].Ran? && past[m].outcome == Keep(Newest(past).value.1);
      assert s.log[m].Ran?;
    } else {
      var m :| 0 <= m < n && past[m] == Ran(e.id, e.call, e.outcome);
      assert s.log[m].Ran?;
    }
  }

  /** If every completed body run gave `o`, whatever its arguments, every call returned `o`. */
  lemma MemoizationIsTransparent(c: Config, s: State, o: Outcome)
    requires Reachable(c, s)
    requires forall n :: 0 <= n < |s.log| && s.log[n].Ran? ==> s.log[n].outcome == o
    ensures forall n :: 0 <= n < |s.log| && s.log[n].Answered? ==> s.log[n].outcome == o
    ensures s.cell.Some? ==> Keep(s.cell.value.value) == o
  {
    forall n | 0 <= n < |s.log| && s.log[n].Answered? ensures s.log[n].outcome == o {
      Provenance(c, s, n);
    }
    ReachableInv(c, s);
    if s.cell.Some? {
      NewestIsProduced(c, s.log);
    }
  }
}
