/**
 What the `#[once]` protocol owes its callers in every configuration: instants are read off
 the clock, a lookup serves a value that is fresh at the call's entry, and a computed value is
 stored before it is returned.
 */
module OnceLookups {
  import opened Basics
  import opened Tally
  import opened OnceProtocol
  import opened OnceHistory

  /** The clock, as the log tells it. */
  function ClockAt(log: seq<Event>): nat {
    if log == [] then 0
    else if log[|log| - 1].Ticked? then log[|log| - 1].now
    else ClockAt(log[..|log| - 1])
  }

  /** For a call that entered at `now`, there is a value that has not expired. */
  ghost predicate FreshIn(c: Config, log: seq<Event>, now: nat) {
    match Newest(log)
    case None => false
    case Some(w) =>
      match c.expiry
      case Never => true
      case Ttl(ttl) => now < w.0 + ttl && ttl > 0
      case PerValue => !HasExpired(log)
  }

  ghost predicate HasLooked(past: seq<Event>, id: nat, call: Call) {
    exists now :: Looked(id, call, now) in past
  }

  ghost predicate Truthful(c: Config, past: seq<Event>, e: Event) {
    match e
    case Entered(_, _, now) => now == ClockAt(past)
    case Ticked(now) => ClockAt(past) <= now
    case Looked(id, call, now) => Entered(id, call, now) in past && (Unforced(call) ==> !FreshIn(c, past, now))
    case Ran(id, call, _) => call.kind == Ordinary ==> HasLooked(past, id, call)
    case Wrote(_, _, stamp, _) => stamp == ClockAt(past)
    case Answered(id, call, now, o, cached) =>
      && Entered(id, call, now) in past
      && (!cached && o.Keep? ==> past != [] && past[|past| - 1] == Wrote(id, call, ClockAt(past), o.value))
    case _ => true
  }

  ghost predicate AllTruthful(c: Config, log: seq<Event>) {
    forall n :: 0 <= n < |log| ==> Truthful(c, log[..n], log[n])
  }

  ghost predicate ThreadOk(log: seq<Event>, i: nat, t: Thread) {
    && (!t.pc.Enter? && !Over(t) ==> Entered(i, t.call, t.now) in log)
    && (t.pc == Running && t.call.kind == Ordinary ==> HasLooked(log, i, t.call))
  }

  ghost predicate TruthInv(c: Config, s: State) {
    && AllTruthful(c, s.log) && s.clock == ClockAt(s.log)
    && (forall i :: 0 <= i < |s.threads| ==> ThreadOk(s.log, i, s.threads[i]))
  }

  // ---- Every action keeps it -------------------------------------------------------------------

  lemma Append(c: Config, log: seq<Event>, e: Event)
    requires AllTruthful(c, log) && Truthful(c, log, e)
    ensures AllTruthful(c, log + [e])
    ensures ClockAt(log + [e]) == if e.Ticked? then e.now else ClockAt(log)
  {
    assert (log + [e])[..|log|] == log;
    EachGrown(log, e, (past, x) => Truthful(c, past, x));
  }

  lemma HasLookedGrows(log: seq<Event>, e: Event, i: nat, call: Call)
    requires HasLooked(log, i, call)
    ensures HasLooked(log + [e], i, call)
  {
    var now :| Looked(i, call, now) in log;
    assert Looked(i, call, now) in log + [e];
  }

  lemma ThreadOkGrows(log: seq<Event>, e: Event, i: nat, t: Thread)
    requires ThreadOk(log, i, t)
    ensures ThreadOk(log + [e], i, t)
  {
    if t.pc == Running && t.call.kind == Ordinary {
      HasLookedGrows(log, e, i, t.call);
    }
  }

  /** At most one thread moves, and one event is logged. */
  lemma {:induction false} Logged(c: Config, s: State, r: State, e: Event, i: nat)
    requires TruthInv(c, s) && Truthful(c, s.log, e) && r.log == s.log + [e]
    requires r.clock == if e.Ticked? then e.now else s.clock
    requires |r.threads| == |s.threads| && forall j :: 0 <= j < |s.threads| && j != i ==> r.threads[j] == s.threads[j]
    requires i < |r.threads| ==> ThreadOk(r.log, i, r.threads[i])
    ensures TruthInv(c, r)
  {
    Append(c, s.log, e);
    forall j | 0 <= j < |r.threads| ensures ThreadOk(r.log, j, r.threads[j]) {
      if j != i {
        ThreadOkGrows(s.log, e, j, s.threads[j]);
      }
    }
  }

  /** A thread moves, and nothing is logged. */
  lemma Moved(c: Config, s: State, i: nat, t: Thread)
    requires TruthInv(c, s) && i < |s.threads| && ThreadOk(s.log, i, t)
    ensures TruthInv(c, Move(c, s, i, t))
  {
  }

  lemma {:induction false} CommitTruth(c: Config, s: State, i: nat)
    requires TruthInv(c, s) && i < |s.threads| && s.threads[i].pc.Storing?
    ensures TruthInv(c, Commit(c, s, i))
  {
    var t := s.threads[i];
    var d := Move(c, s, i, t.(pc := Done));
    var a := Answered(i, t.call, t.now, t.pc.outcome, false);
    assert ThreadOk(s.log, i, t);
    match t.pc.outcome
    case Keep(v) =>
      var w := Wrote(i, t.call, s.clock, v);
      var m := d.(log := s.log + [w]);
      Logged(c, s, m, w, i);
      assert Entered(i, t.call, t.now) in m.log && m.log[|m.log| - 1] == w;
      Logged(c, m, Commit(c, s, i), a, i);
    case Skip(_) => Logged(c, s, Commit(c, s, i), a, i);
  }

  /** A lookup that does not answer has found nothing fresh. */
  lemma MissIsTruthful(c: Config, s: State, i: nat)
    requires Inv(c, s) && TruthInv(c, s) && i < |s.threads| && s.threads[i].pc.Looking? && !Hit(c, s, s.threads[i])
    ensures Truthful(c, s.log, Looked(i, s.threads[i].call, s.threads[i].now))
  {
    assert ThreadOk(s.log, i, s.threads[i]);
  }

  lemma {:induction false} StepTruth(c: Config, s: State, i: nat)
    requires Inv(c, s) && TruthInv(c, s) && CanStep(c, s, i)
    ensures TruthInv(c, StepThread(c, s, i))
  {
    var t := s.threads[i];
    var r := StepThread(c, s, i);
    assert ThreadOk(s.log, i, t) && ThreadInv(c, s, i, t);
    if t.pc.Storing? {
      CommitTruth(c, s, i);
    } else if t.pc.Looking? && Hit(c, s, t) {
      Logged(c, s, r, Answered(i, t.call, t.now, Keep(s.cell.value.value), true), i);
    } else if t.pc.Enter? {
      var e := Entered(i, t.call, s.clock);
      assert e in s.log + [e];
      Logged(c, s, r, e, i);
    } else if t.pc.Looking? {
      var e := Looked(i, t.call, t.now);
      MissIsTruthful(c, s, i);
      assert e in s.log + [e];
      Logged(c, s, r, e, i);
    } else {
      Moved(c, s, i, t.(pc := NextPc(c, t, false)));
    }
  }

  lemma {:induction false} NextTruth(c: Config, s: State, a: Action)
    requires Inv(c, s) && TruthInv(c, s) && Enabled(c, s, a)
    ensures TruthInv(c, Next(c, s, a))
  {
    var r := Next(c, s, a);
    match a
    case Spawn(_) =>
    case Step(i) => StepTruth(c, s, i);
    case Return(i, o) =>
      assert ThreadOk(s.log, i, s.threads[i]);
      Logged(c, s, r, Ran(i, s.threads[i].call, o), i);
    case Abandon(i) =>
      if s.threads[i].pc.Storing? {
        Logged(c, s, r, Lost(i), i);
      } else {
        Moved(c, s, i, s.threads[i].(pc := Dropped));
      }
    case Tick(d) => Logged(c, s, r, Ticked(s.clock + d), |s.threads|);
    case Expire => Logged(c, s, r, Expired, |s.threads|);
  }

  lemma {:induction false} RunTruth(c: Config, actions: seq<Action>)
    requires Run(c, INITIAL, actions).Some?
    ensures TruthInv(c, Run(c, INITIAL, actions).value)
  {
    if actions != [] {
      var before := actions[..|actions| - 1];
      RunTruth(c, before);
      RunKeeps(c, before);
      NextTruth(c, Run(c, INITIAL, before).value, actions[|actions| - 1]);
    }
  }

  lemma EventsAreTruthful(c: Config, s: State, n: nat)
    requires Reachable(c, s) && n < |s.log|
    ensures Truthful(c, s.log[..n], s.log[n])
  {
    var actions :| Run(c, INITIAL, actions) == Some(s);
    RunTruth(c, actions);
  }

  // ---- What every run owes its callers ----------------------------------------------------------

  /**
   Lookups serve what is fresh, with and without `sync_writes`: an unforced call whose lookup
   does not answer has found no value, or one expired at the instant the call entered; and no
   ordinary call runs its body without a lookup of its own before.
   */
  lemma LookupsServeTheFresh(c: Config, s: State, n: nat)
    requires Reachable(c, s) && n < |s.log|
    ensures s.log[n].Looked? && Unforced(s.log[n].call) ==> !FreshIn(c, s.log[..n], s.log[n].now)
    ensures s.log[n].Ran? && s.log[n].call.kind == Ordinary ==>
      exists m :: 0 <= m < n && s.log[m].Looked? && s.log[m].id == s.log[n].id && s.log[m].call == s.log[n].call
  {
    EventsAreTruthful(c, s, n);
    if s.log[n].Ran? && s.log[n].call.kind == Ordinary {
      var past := s.log[..n];
      var now :| Looked(s.log[n].id, s.log[n].call, now) in past;
      var m :| 0 <= m < n && past[m] == Looked(s.log[n].id, s.log[n].call, now);
      assert s.log[m] == past[m];
    }
  }

  /** Where each answer comes from: a cached one is the value written last, fresh at the call's
      entry, and never goes to a forced call or a prime; any other is what the call's own body
      returned. */
  lemma AnswersExplained(c: Config, s: State, n: nat)
    requires Reachable(c, s) && n < |s.log| && s.log[n].Answered?
    ensures var past, e := s.log[..n], s.log[n];
      if e.cached then
        && Unforced(e.call) && FreshIn(c, past, e.now)
        && e.outcome == Keep(Newest(past).value.1)
      else
        Ran(e.id, e.call, e.outcome) in past
  {
    Explained(c, s, n);
  }

  /** At any moment the cell holds what was written last, with its stamp, expired if it has
      reported so since. */
  lemma CellIsLastWritten(c: Config, s: State)
    requires Reachable(c, s)
    ensures match s.cell
            case None => Newest(s.log) == None
            case Some(x) => Newest(s.log) == Some((x.stamp, x.value)) && (x.expired <==> HasExpired(s.log))
  {
    ReachableInv(c, s);
  }

  /** Every call that returns a value it did not find cached, ordinary, forced or prime, in
      every configuration, has just stored that value, stamped with the instant of the store. */
  lemma AnswersAreStored(c: Config, s: State, n: nat)
    requires Reachable(c, s) && n < |s.log|
    requires s.log[n].Answered? && !s.log[n].cached && s.log[n].outcome.Keep?
    ensures n > 0
    ensures s.log[n - 1] == Wrote(s.log[n].id, s.log[n].call, ClockAt(s.log[..n]), s.log[n].outcome.value)
  {
    EventsAreTruthful(c, s, n);
  }

  /** The instant a call judges expiry by is what the clock showed when it entered; a stamp is
      what the clock showed at the store; and the clock does not go back. */
  lemma InstantsAreTheClock(c: Config, s: State, n: nat)
    requires Reachable(c, s) && n < |s.log|
    ensures s.log[n].Entered? ==> s.log[n].now == ClockAt(s.log[..n])
    ensures s.log[n].Wrote? ==> s.log[n].stamp == ClockAt(s.log[..n])
    ensures s.log[n].Ticked? ==> ClockAt(s.log[..n]) <= s.log[n].now
    ensures s.log[n].Answered? || s.log[n].Looked? ==>
      exists m :: 0 <= m < n && s.log[m] == Entered(s.log[n].id, s.log[n].call, s.log[n].now)
  {
    EventsAreTruthful(c, s, n);
    if s.log[n].Answered? || s.log[n].Looked? {
      var past, e := s.log[..n], Entered(s.log[n].id, s.log[n].call, s.log[n].now);
      var m :| 0 <= m < n && past[m] == e;
      assert s.log[m] == past[m];
    }
  }
}
