/**
 The calls of a cached function with a keyed store, and the log of what they and the
 environment did. Reading the log tells what the store must hold.
 */
module CallLog {
  import opened Basics

  /** The cached function, its prime companion, or a user inspecting the static. */
  datatype Kind = Ordinary | Prime | Inspector(exclusive: bool)

  /** `forced` is the value of the `force_refresh` predicate for this call. */
  datatype Call = Call(kind: Kind, key: Key, forced: bool)

  /** A stored value; `live` is false once it has expired but is still in the store. */
  datatype Entry = Entry(value: Value, live: bool)

  /** A value that is not `computed` was put back; it was read when the log was `since` long. */
  datatype Event =
    | Looked(id: nat, call: Call)                                          // and goes on to its body
    | Ran(id: nat, call: Call, outcome: Outcome)                           // a body completed
    | Wrote(id: nat, call: Call, value: Value, computed: bool, since: nat)
    | Answered(id: nat, call: Call, outcome: Outcome, cached: bool)        // the call returned
    | Expired(key: Key)
    | Removed(key: Key)

  predicate Unforced(call: Call) {
    call.kind == Ordinary && !call.forced
  }

  /** The call that an answer belongs to. */
  function Answerer(e: Event): Option<nat> {
    if e.Answered? then Some(e.id) else None
  }

  // ---- The store -----------------------------------------------------------------------------

  function Stored(store: map<Key, Entry>, k: Key): Option<Value> {
    if k in store then Some(store[k].value) else None
  }

  predicate Live(store: map<Key, Entry>, k: Key) {
    k in store && store[k].live
  }

  // ---- Reading the log -------------------------------------------------------------------------

  /** The value at `k` according to the log: the last one written, unless removed since. */
  function Contents(log: seq<Event>, k: Key): Option<Value> {
    if log == [] then None
    else
      var e := log[|log| - 1];
      if e.Wrote? && e.call.key == k then Some(e.value)
      else if e == Removed(k) then None
      else Contents(log[..|log| - 1], k)
  }

  /** The value most recently computed and stored for `k`, unless `k` was removed since.
      Values merely put back are not looked at. */
  function LastGood(log: seq<Event>, k: Key): Option<Value> {
    if log == [] then None
    else
      var e := log[|log| - 1];
      if e.Wrote? && e.call.key == k && e.computed then Some(e.value)
      else if e == Removed(k) then None
      else LastGood(log[..|log| - 1], k)
  }

  /** Whether `k` holds an unexpired entry. */
  predicate LiveIn(log: seq<Event>, k: Key) {
    log != [] &&
    var e := log[|log| - 1];
    if e.Wrote? && e.call.key == k then true
    else if e == Removed(k) || e == Expired(k) then false
    else LiveIn(log[..|log| - 1], k)
  }

  /** `w` is the write, by call `id`, of what it then answers. */
  predicate WroteFor(w: Event, id: nat, call: Call, v: Value) {
    w.Wrote? && w.id == id && w.call == call && w.value == v
  }

  /** Some body run for `k` completed with `o` within `log`. */
  ghost predicate Produced(log: seq<Event>, k: Key, o: Outcome) {
    exists n :: 0 <= n < |log| && log[n].Ran? && log[n].call.key == k && log[n].outcome == o
  }

  /** Reading a log that grew by one event. */
  lemma Grown(log: seq<Event>, e: Event, k: Key)
    ensures LastGood(log + [e], k) ==
      if e.Wrote? && e.call.key == k && e.computed then Some(e.value)
      else if e == Removed(k) then None
      else LastGood(log, k)
    ensures Contents(log + [e], k) ==
      if e.Wrote? && e.call.key == k then Some(e.value)
      else if e == Removed(k) then None
      else Contents(log, k)
    ensures LiveIn(log + [e], k) <==>
      if e.Wrote? && e.call.key == k then true
      else if e == Removed(k) || e == Expired(k) then false
      else LiveIn(log, k)
  {
    assert (log + [e])[..|log|] == log;
  }

  lemma ProducedGrows(past: seq<Event>, log: seq<Event>, k: Key, o: Outcome)
    requires Produced(past, k, o) && |past| <= |log| && past == log[..|past|]
    ensures Produced(log, k, o)
  {
    var n :| 0 <= n < |past| && past[n].Ran? && past[n].call.key == k && past[n].outcome == o;
    assert log[n] == past[n];
  }

  lemma RanProduces(log: seq<Event>, id: nat, call: Call, o: Outcome)
    requires Ran(id, call, o) in log
    ensures Produced(log, call.key, o)
  {
    var n :| 0 <= n < |log| && log[n] == Ran(id, call, o);
  }

  /** With a value once stored for `k` and never removed since, `LastGood` finds one. */
  lemma {:induction false} GoodPersists(log: seq<Event>, p: nat, k: Key)
    requires p < |log| && log[p].Wrote? && log[p].call.key == k && log[p].computed
    requires Removed(k) !in log[p..]
    ensures LastGood(log, k).Some?
  {
    var past := log[..|log| - 1];
    if p < |past| {
      assert log[|log| - 1] in log[p..];
      assert past[p..] == log[p..|log| - 1];
      GoodPersists(past, p, k);
    }
  }
}
