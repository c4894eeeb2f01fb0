/**
 The code `#[once]` emits: one shared cell for all arguments, an optimistic read, and,
 with `sync_writes`, a re-check under the write lock. Time is a clock that never goes back.
 */
module OnceProtocol {
  import opened Basics

  /** No expiry, a TTL, or values that report their own expiry (`expires = true`). */
  datatype Expiry = Never | Ttl(ttl: nat) | PerValue

  /** `sync` is `sync_writes = true`. */
  datatype Config = Config(sync: bool, expiry: Expiry)

  datatype Kind = Ordinary | Prime

  datatype Call = Call(kind: Kind, forced: bool)

  datatype Pc =
    | Enter                      // about to read the clock
    | Opening                    // clock read, about to take the read lock
    | Looking(shared: bool)      // lock held, about to inspect the cell
    | Recheck                    // optimistic read missed, about to take the write lock
    | Running
    | Returned(outcome: Outcome) // body finished without the lock
    | Storing(outcome: Outcome)  // write lock held, about to store and return
    | Done                       // returned
    | Dropped                    // unwound or cancelled without returning

  /** `now` is the instant read on entry. */
  datatype Thread = Thread(call: Call, now: nat, pc: Pc)

  datatype Cell = Cell(stamp: nat, value: Value, expired: bool)

  datatype Event =
    | Entered(id: nat, call: Call, now: nat)                                // read the clock
    | Looked(id: nat, call: Call, now: nat)                                 // and goes on
    | Ran(id: nat, call: Call, outcome: Outcome)
    | Wrote(id: nat, call: Call, stamp: nat, value: Value)
    | Answered(id: nat, call: Call, now: nat, outcome: Outcome, cached: bool)
    | Expired
    | Lost(id: nat)    // the call was abandoned at its store
    | Ticked(now: nat) // the clock advanced

  datatype State = State(threads: seq<Thread>, writer: Option<nat>, readers: set<nat>,
                         cell: Option<Cell>, clock: nat, log: seq<Event>)

  const INITIAL := State([], None, {}, None, 0, [])

  datatype Action =
    | Spawn(call: Call)
    | Step(thread: nat)
    | Return(thread: nat, outcome: Outcome)
    | Abandon(thread: nat) // the body or a `clone` panics, or an async call is dropped
    | Tick(elapsed: nat)
    | Expire               // the stored value starts reporting that it has expired

  /** `Instant::saturating_duration_since`. */
  function Since(now: nat, then_: nat): nat {
    if now < then_ then 0 else now - then_
  }

  /** The hit condition: unexpired by the instant the call entered at. */
  predicate Fresh(c: Config, now: nat, cell: Cell) {
    match c.expiry
    case Never => true
    case Ttl(ttl) => Since(now, cell.stamp) < ttl
    case PerValue => !cell.expired
  }

  predicate Hit(c: Config, s: State, t: Thread) {
    !t.call.forced && s.cell.Some? && Fresh(c, t.now, s.cell.value)
  }

  // ---- Guards ----------------------------------------------------------------------------

  predicate HoldsWrite(c: Config, t: Thread) {
    match t.pc
    case Looking(shared) => !shared
    case Running => c.sync && t.call.kind == Ordinary
    case Storing(_) => true
    case _ => false
  }

  predicate HoldsRead(t: Thread) {
    t.pc == Looking(true)
  }

  // ---- Transitions -------------------------------------------------------------------------

  function NextPc(c: Config, t: Thread, hit: bool): Pc {
    match t.pc
    case Enter => if t.call.kind == Prime then Running else Opening
    case Opening => Looking(true)
    case Looking(shared) => if hit then Done else if c.sync && shared then Recheck else Running
    case Recheck => Looking(false)
    case Returned(o) => Storing(o)
    case _ => Done
  }

  predicate LocksFree(c: Config, s: State, i: nat, pc: Pc)
    requires i < |s.threads|
  {
    var t := s.threads[i];
    var t' := t.(pc := pc);
    && (HoldsWrite(c, t') && !HoldsWrite(c, t) ==> s.writer == None && s.readers == {})
    && (HoldsRead(t') && !HoldsRead(t) ==> s.writer == None)
  }

  /** The call is over. */
  predicate Over(t: Thread) {
    t.pc == Done || t.pc == Dropped
  }

  predicate CanStep(c: Config, s: State, i: nat) {
    && i < |s.threads| && s.threads[i].pc != Running && !Over(s.threads[i])
    && LocksFree(c, s, i, NextPc(c, s.threads[i], Hit(c, s, s.threads[i])))
  }

  function Move(c: Config, s: State, i: nat, t: Thread): State
    requires i < |s.threads|
  {
    s.(threads := s.threads[i := t],
       writer := if HoldsWrite(c, t) then Some(i) else if s.writer == Some(i) then None else s.writer,
       readers := if HoldsRead(t) then s.readers + {i} else s.readers - {i})
  }

  /** Store a payload, stamped with the current instant, and return. */
  function Commit(c: Config, s: State, i: nat): State
    requires i < |s.threads| && s.threads[i].pc.Storing?
  {
    var t := s.threads[i];
    var o := t.pc.outcome;
    var d := Move(c, s, i, t.(pc := Done));
    match o
    case Keep(v) =>
      d.(cell := Some(Cell(s.clock, v, false)),
         log := s.log + [Wrote(i, t.call, s.clock, v), Answered(i, t.call, t.now, o, false)])
    case Skip(_) =>
      d.(log := s.log + [Answered(i, t.call, t.now, o, false)])
  }

  function StepThread(c: Config, s: State, i: nat): State
    requires CanStep(c, s, i)
  {
    var t := s.threads[i];
    if t.pc.Storing? then Commit(c, s, i)
    else if t.pc.Looking? && Hit(c, s, t) then
      Move(c, s, i, t.(pc := Done))
        .(log := s.log + [Answered(i, t.call, t.now, Keep(s.cell.value.value), true)])
    else if t.pc.Enter? then
      Move(c, s, i, t.(now := s.clock, pc := NextPc(c, t, false))).(log := s.log + [Entered(i, t.call, s.clock)])
    else if t.pc.Looking? then
      Move(c, s, i, t.(pc := NextPc(c, t, false))).(log := s.log + [Looked(i, t.call, t.now)])
    else Move(c, s, i, t.(pc := NextPc(c, t, false)))
  }

  function ReturnPc(c: Config, t: Thread, o: Outcome): Pc {
    if c.sync && t.call.kind == Ordinary then Storing(o) else Returned(o)
  }

  predicate Enabled(c: Config, s: State, a: Action) {
    match a
    case Spawn(_) => true
    case Step(i) => CanStep(c, s, i)
    case Return(i, _) => i < |s.threads| && s.threads[i].pc == Running
    case Abandon(i) => i < |s.threads| && !Over(s.threads[i])
    case Tick(_) => true
    case Expire => s.cell.Some?
  }

  function Next(c: Config, s: State, a: Action): State
    requires Enabled(c, s, a)
  {
    match a
    case Spawn(call) => s.(threads := s.threads + [Thread(call, 0, Enter)])
    case Step(i) => StepThread(c, s, i)
    case Return(i, o) =>
      var t := s.threads[i];
      Move(c, s, i, t.(pc := ReturnPc(c, t, o))).(log := s.log + [Ran(i, t.call, o)])
    case Abandon(i) =>
      var d := Move(c, s, i, s.threads[i].(pc := Dropped));
      if s.threads[i].pc.Storing? then d.(log := s.log + [Lost(i)]) else d
    case Tick(d) => s.(clock := s.clock + d, log := s.log + [Ticked(s.clock + d)])
    case Expire => s.(cell := Some(s.cell.value.(expired := true)), log := s.log + [Expired])
  }

  /** The state after `actions`, or `None` when one of them is not enabled where it stands. */
  function Run(c: Config, s: State, actions: seq<Action>): Option<State> {
    if actions == [] then Some(s)
    else
      match Run(c, s, actions[..|actions| - 1])
      case None => None
      case Some(r) =>
        var a := actions[|actions| - 1];
        if Enabled(c, r, a) then Some(Next(c, r, a)) else None
  }

  ghost predicate Reachable(c: Config, s: State) {
    exists actions :: Run(c, INITIAL, actions) == Some(s)
  }

  lemma ReachableNext(c: Config, s: State, a: Action)
    requires Reachable(c, s) && Enabled(c, s, a)
    ensures Reachable(c, Next(c, s, a))
  {
    var actions :| Run(c, INITIAL, actions) == Some(s);
    var more := actions + [a];
    assert more[..|more| - 1] == actions;
    assert Run(c, INITIAL, more) == Some(Next(c, s, a));
  }
}
