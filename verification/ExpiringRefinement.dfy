/**
 Laziness is unobservable: `ExpiringCache` leaves expired entries in its map until something
 touches them, yet it answers like a cache that drops each entry the moment it expires.
 */
module ExpiringRefinement {
  import opened Basics
  import opened ExpiringModel
  import opened ExpiringAccounts

  // ---- The eager cache ------------------------------------------------------------------------

  /** A plain map in which nothing is ever expired; sweeps have nothing to do. */
  type Eager = map<Key, Value>

  function Held(e: Eager, k: Key): Option<Value> {
    if k in e then Some(e[k]) else None
  }

  /** The verdict of `keep` on the entry at `k`, asked at its position in the order. */
  ghost predicate Verdicts(e: Eager, order: seq<Key>, keep: (nat, Key, Value) -> Verdict, k: Key, v: Verdict)
    requires k in e
  {
    exists i :: 0 <= i < |order| && order[i] == k && keep(i, k, e[k]) == v
  }

  ghost function EagerApply(e: Eager, op: Op): (Eager, Answer) {
    match op
    case Get(k) => (e, Found(Held(e, k)))
    case GetMut(k, left) => (if k in e then e[k := left] else e, Found(Held(e, k)))
    case GetOrSet(k, f, then_) =>
      if k in e then (if then_.Some? then e[k := then_.value] else e, Fetched(Keep(e[k])))
      else (match f
            case Panics => (e, Panicked)
            case Fails(error) => (e, Fetched(Skip(error)))
            case Yields(v) => (e[k := if then_.Some? then then_.value else v], Fetched(Keep(v))))
    case Set(k, v) => (e[k := v], Found(Held(e, k)))
    case Remove(k) => (e - {k}, Found(Held(e, k)))
    case RemoveEntry(k) => (e - {k}, Entry(if k in e then Some((k, e[k])) else None))
    case Evict(_) => (e, Unit)
    case Retain(order, keep) =>
      if exists k :: k in e && Verdicts(e, order, keep, k, Blow) then (e, Panicked)
      else (map k | k in e && !Verdicts(e, order, keep, k, Go) :: e[k], Unit)
    case ClearWithOnEvict(_) => (map[], Unit)
    case Clear => (map[], Unit)
    case Reset => (map[], Unit)
    case ResetMetrics => (e, Unit)
    case Peek(k) => (e, Found(Held(e, k)))
    case Contains(k) => (e, Answer(k in e))
    case Iter(_) => (e, Entries(e))
    case GetStatus(k) => (e, Status(Held(e, k), false))
    case PeekStatus(k) => (e, Status(Held(e, k), false))
  }

  /**
   What a caller who cares only for live values sees of an answer: how many entries a sweep
   removed, and the expired entries that `cache_remove_entry` and the expiry-status reads
   show on purpose, are looked away from.
   */
  function Observed(s: Setup, a: Answer, now: nat): Answer {
    match a
    case Count(_) => Unit
    case Status(_, expired) => if expired then Status(None, false) else a
    case Entry(Some(p)) => if s.expired(p.1, now) then Entry(None) else a
    case _ => a
  }

  // ---- Assumptions ------------------------------------------------------------------------------

  /** What has expired stays expired. */
  ghost predicate Monotone(s: Setup) {
    forall v, t, u :: t <= u && s.expired(v, t) ==> s.expired(v, u)
  }

  /** The clock does not go back. */
  ghost predicate InOrder(life: Life) {
    forall m, n :: 0 <= m < n < |life| ==> life[m].1 <= life[n].1
  }

  // ---- One operation ------------------------------------------------------------------------------

  /** The eviction callback was called during the operation and its last call panicked. */
  ghost predicate CallbackPanicked(s: Setup, l: Ledger, r: Ledger) {
    |l.notified| < |r.notified| && s.panics(|r.notified| - 1)
  }

  ghost predicate Unwinds(s: Setup, l: Ledger, op: Op, now: nat)
    requires Allowed(l, op)
  {
    CallbackPanicked(s, l, Apply(s, l, op, now).0)
  }

  /** The operation as its caller completes it: unwound, it never gets a reference to write to. */
  ghost function Completed(s: Setup, l: Ledger, op: Op, now: nat): Op
    requires Allowed(l, op)
  {
    if op.GetOrSet? && Unwinds(s, l, op, now) then op.(then_ := None) else op
  }

  /** Notifying leaves the store alone, and a panicking call, and nothing else, keeps the
      answer back. */
  lemma ToldAnswers(s: Setup, l: Ledger, batch: seq<Pair>, a: Answer)
    ensures var (r, b) := Told(s, l, batch, a);
      r.store == l.store && b == if CallbackPanicked(s, l, r) then Panicked else a
  {
    var j := NotifyPrefix(s, l, batch);
  }

  /** The lazy and the eager cache hold the same live entries. */
  ghost predicate Agree(s: Setup, store: map<Key, Value>, e: Eager, now: nat) {
    LiveEntries(s, store, now) == LiveEntries(s, e, now)
  }

  /** One step: same answer to a live reader unless the callback panicked, same live entries. */
  ghost predicate Matches(s: Setup, l: Ledger, e: Eager, op: Op, now: nat)
    requires Allowed(l, op)
  {
    var (r, a) := Apply(s, l, op, now);
    var (e', b) := EagerApply(e, Completed(s, l, op, now));
    && (if CallbackPanicked(s, l, r) then a == Panicked else Observed(s, a, now) == b)
    && Agree(s, r.store, e', now)
  }

  lemma SweepMatches(s: Setup, l: Ledger, e: Eager, order: seq<Key>,
                     keep: (nat, Key, Value) -> Verdict, now: nat, counting: bool)
    requires e == LiveEntries(s, l.store, now) && IsOrder(order, l.store)
    ensures var (r, a) := Sweep(s, l, order, keep, now, counting);
      var blows := exists k :: k in e && Verdicts(e, order, keep, k, Blow);
      && (blows ==> a == Panicked && r == l && !CallbackPanicked(s, l, r))
      && (!blows ==>
           && (if CallbackPanicked(s, l, r) then a == Panicked else if counting then a.Count? else a == Unit)
           && LiveEntries(s, r.store, now) == map k | k in e && !Verdicts(e, order, keep, k, Go) :: e[k])
  {
    match Doomed(s, l.store, order, keep, now, 0)
    case None =>
      var i := Blows(s, l.store, order, keep, now, 0);
      assert Verdicts(e, order, keep, order[i], Blow);
    case Some(batch) =>
      ToldAnswers(s, Taken(l, batch), batch, if counting then Count(|batch|) else Unit);
      forall k | k in l.store
        ensures k in Keys(batch) <==> s.expired(l.store[k], now) || Verdicts(e, order, keep, k, Go)
        ensures k in e ==> !Verdicts(e, order, keep, k, Blow)
      {
        SelectedIff(s, l.store, e, order, keep, now, k);
      }
  }

  /** A sweep selects what has expired and what `keep` rejects, and `keep` panics on none. */
  lemma SelectedIff(s: Setup, store: map<Key, Value>, e: Eager, order: seq<Key>,
                    keep: (nat, Key, Value) -> Verdict, now: nat, k: Key)
    requires e == LiveEntries(s, store, now) && IsOrder(order, store) && k in store
    requires Doomed(s, store, order, keep, now, 0).Some?
    ensures k in Keys(Doomed(s, store, order, keep, now, 0).value)
       <==> s.expired(store[k], now) || Verdicts(e, order, keep, k, Go)
    ensures k in e ==> !Verdicts(e, order, keep, k, Blow)
  {
    var i :| 0 <= i < |order| && order[i] == k;
    DoomedIffJudged(s, store, order, keep, now, 0, i);
    assert forall j :: 0 <= j < |order| && order[j] == k ==> j == i;
  }

  /** A selection that failed was asked about a live entry on which `keep` panics. */
  lemma {:induction false} Blows(s: Setup, store: map<Key, Value>, order: seq<Key>,
                                 keep: (nat, Key, Value) -> Verdict, now: nat, n: nat) returns (i: nat)
    requires n <= |order| && IsOrder(order, store) && Doomed(s, store, order, keep, now, n).None?
    ensures n <= i < |order| && !s.expired(store[order[i]], now) && keep(i, order[i], store[order[i]]) == Blow
    decreases |order| - n
  {
    if Judge(s, keep, n, order[n], store[order[n]], now) == Blow {
      i := n;
    } else {
      i := Blows(s, store, order, keep, now, n + 1);
    }
  }

  lemma EvictMatches(s: Setup, l: Ledger, e: Eager, order: seq<Key>, now: nat)
    requires e == LiveEntries(s, l.store, now) && IsOrder(order, l.store)
    ensures Matches(s, l, e, Evict(order), now)
  {
    SweepMatches(s, l, e, order, KeepAll, now, true);
  }

  lemma RetainMatches(s: Setup, l: Ledger, e: Eager, order: seq<Key>,
                      keep: (nat, Key, Value) -> Verdict, now: nat)
    requires e == LiveEntries(s, l.store, now) && IsOrder(order, l.store)
    ensures Matches(s, l, e, Retain(order, keep), now)
  {
    SweepMatches(s, l, e, order, keep, now, true);
    StillLive(s, EagerApply(e, Retain(order, keep)).0, now);
  }

  lemma ClearMatches(s: Setup, l: Ledger, e: Eager, order: seq<Key>, now: nat)
    requires e == LiveEntries(s, l.store, now) && IsOrder(order, l.store)
    ensures Matches(s, l, e, ClearWithOnEvict(order), now)
  {
    SweepMatches(s, l, e, order, KeepNone, now, false);
    forall k | k in e ensures Verdicts(e, order, KeepNone, k, Go) {
      var i :| 0 <= i < |order| && order[i] == k;
    }
  }

  lemma LookupMatches(s: Setup, l: Ledger, e: Eager, op: Op, now: nat)
    requires e == LiveEntries(s, l.store, now) && (op.Get? || op.GetMut?)
    ensures Matches(s, l, e, op, now)
  {
    var k := op.k;
    if k in l.store {
      OneTaken(s, l.(misses := l.misses + 1), k, Found(None));
    }
  }

  lemma RemovalMatches(s: Setup, l: Ledger, e: Eager, op: Op, now: nat)
    requires e == LiveEntries(s, l.store, now) && (op.Remove? || op.RemoveEntry?)
    ensures Matches(s, l, e, op, now)
  {
    var k := op.k;
    if k in l.store {
      OneTaken(s, l, k, if op.Remove? then Found(Live(s, l.store, k, now)) else Entry(Some((k, l.store[k]))));
    }
  }

  /** Taking one entry out, with the callback told, removes that key and no other. */
  lemma OneTaken(s: Setup, l: Ledger, k: Key, a: Answer)
    requires k in l.store
    ensures var (r, b) := TakeOut(s, l, k, a);
      r.store == l.store - {k} && b == if CallbackPanicked(s, l, r) then Panicked else a
  {
    var batch := [(k, l.store[k])];
    assert Keys(batch) == {k} by {
      assert batch[1..] == [] && Keys([]) == {};
    }
    ToldAnswers(s, Taken(l, batch), batch, a);
  }

  lemma SetMatches(s: Setup, l: Ledger, e: Eager, k: Key, v: Value, now: nat)
    requires e == LiveEntries(s, l.store, now)
    ensures Matches(s, l, e, Set(k, v), now)
  {
    var (r, a) := SetTo(s, l, k, v, now);
    assert r.store == l.store[k := v] && a == (if CallbackPanicked(s, l, r) then Panicked else Found(Held(e, k))) by {
      if k in l.store && s.expired(l.store[k], now) {
        ToldAnswers(s, Replaced(l, k, v), [(k, l.store[k])], Found(None));
      }
    }
    StillLive(s, e, now);
    AgreeOnWrite(s, l.store, e, k, v, now);
  }

  /** Nothing in a map of live entries is expired. */
  lemma StillLive(s: Setup, e: Eager, now: nat)
    requires forall k :: k in e ==> !s.expired(e[k], now)
    ensures LiveEntries(s, e, now) == e
  {
  }

  /** A get-or-set up to its return. */
  lemma FetchMatches(s: Setup, l: Ledger, e: Eager, k: Key, f: Thunk, now: nat)
    requires e == LiveEntries(s, l.store, now)
    ensures var (r, a) := GetOrSetWith(s, l, k, f, now);
      var (e', b) := EagerApply(e, GetOrSet(k, f, None));
      && a == (if CallbackPanicked(s, l, r) then Panicked else b)
      && Agree(s, r.store, e', now)
      && (a.Fetched? && a.outcome.Keep? ==> k in r.store)
  {
    if k in l.store && f.Yields? {
      ToldAnswers(s, Replaced(l.(misses := l.misses + 1), k, f.value), [(k, l.store[k])], Fetched(Keep(f.value)));
    }
  }

  lemma GetOrSetMatches(s: Setup, l: Ledger, e: Eager, k: Key, f: Thunk, then_: Option<Value>, now: nat)
    requires e == LiveEntries(s, l.store, now)
    ensures Matches(s, l, e, GetOrSet(k, f, then_), now)
  {
    FetchMatches(s, l, e, k, f, now);
    var (r, a) := GetOrSetWith(s, l, k, f, now);
    if a.Fetched? && a.outcome.Keep? && then_.Some? {
      var e' := EagerApply(e, GetOrSet(k, f, None)).0;
      AgreeOnWrite(s, r.store, e', k, then_.value, now);
      assert EagerApply(e, GetOrSet(k, f, then_)).0 == e'[k := then_.value];
    }
  }

  lemma AgreeOnWrite(s: Setup, store: map<Key, Value>, e: Eager, k: Key, v: Value, now: nat)
    requires Agree(s, store, e, now)
    ensures Agree(s, store[k := v], e[k := v], now)
  {
    var a, b := LiveEntries(s, store, now), LiveEntries(s, e, now);
    var a', b' := LiveEntries(s, store[k := v], now), LiveEntries(s, e[k := v], now);
    forall j ensures j in a' <==> j in b' {
      assert j in a <==> j in b;
    }
    forall j | j in a' ensures a'[j] == b'[j] {
      assert j != k ==> a[j] == b[j];
    }
  }

  /**
   One operation on caches that hold the same live entries: they still do, and the answers
   are alike unless the eviction callback panicked in this very operation. A panic in `f` or
   `keep` is an answer like any other.
   */
  lemma StepMatches(s: Setup, l: Ledger, e: Eager, op: Op, now: nat)
    requires e == LiveEntries(s, l.store, now) && Allowed(l, op)
    ensures Matches(s, l, e, op, now)
  {
    match op
    case Get(_) => LookupMatches(s, l, e, op, now);
    case GetMut(_, _) => LookupMatches(s, l, e, op, now);
    case GetOrSet(k, f, then_) => GetOrSetMatches(s, l, e, k, f, then_, now);
    case Set(k, v) => SetMatches(s, l, e, k, v, now);
    case Remove(_) => RemovalMatches(s, l, e, op, now);
    case RemoveEntry(_) => RemovalMatches(s, l, e, op, now);
    case Evict(order) => EvictMatches(s, l, e, order, now);
    case Retain(order, keep) => RetainMatches(s, l, e, order, keep, now);
    case ClearWithOnEvict(order) => ClearMatches(s, l, e, order, now);
    case _ =>
  }

  // ---- Every life -----------------------------------------------------------------------------------

  /** The eager cache drops what has expired by `now`, then performs the operation. */
  ghost function EagerRun(s: Setup, life: Life): Eager
    requires Run(s, life).Some?
  {
    if life == [] then map[]
    else
      var before := life[..|life| - 1];
      var (op, now) := life[|life| - 1];
      EagerApply(LiveEntries(s, EagerRun(s, before), now), Completed(s, Run(s, before).value, op, now)).0
  }

  /** The eager cache's answer to the `n`th operation. */
  ghost function EagerAnswer(s: Setup, life: Life, n: nat): Answer
    requires n < |life| && Run(s, life[..n]).Some?
  {
    EagerApply(LiveEntries(s, EagerRun(s, life[..n]), life[n].1), life[n].0).1
  }

  /** As the answer to the `n`th operation, `a` is what the eager cache answers, to a live
      reader, or the eviction callback panicked in that operation. */
  ghost predicate AnswersEagerly(s: Setup, life: Life, n: nat, a: Answer)
    requires n < |life| && Run(s, life[..n]).Some? && Allowed(Run(s, life[..n]).value, life[n].0)
  {
    if Unwinds(s, Run(s, life[..n]).value, life[n].0, life[n].1) then a == Panicked
    else Observed(s, a, life[n].1) == EagerAnswer(s, life, n)
  }

  /** Agreement at one instant is agreement at every later one. */
  lemma AgreeLater(s: Setup, store: map<Key, Value>, e: Eager, t: nat, u: nat)
    requires Monotone(s) && Agree(s, store, e, t) && t <= u
    ensures Agree(s, store, e, u)
  {
    assert LiveEntries(s, store, u) == LiveEntries(s, LiveEntries(s, store, t), u);
    assert LiveEntries(s, e, u) == LiveEntries(s, LiveEntries(s, e, t), u);
  }

  lemma {:induction false} LivesAgree(s: Setup, life: Life, now: nat)
    requires Monotone(s) && InOrder(life) && Run(s, life).Some?
    requires life != [] ==> life[|life| - 1].1 <= now
    ensures Agree(s, Run(s, life).value.store, EagerRun(s, life), now)
  {
    if life != [] {
      var before := life[..|life| - 1];
      var (op, t) := life[|life| - 1];
      LivesAgree(s, before, t);
      StepMatches(s, Run(s, before).value, LiveEntries(s, EagerRun(s, before), t), op, t);
      AgreeLater(s, Run(s, life).value.store, EagerRun(s, life), t, now);
    }
  }

  /**
   Lazy refines eager: in every life with a clock that does not go back and values that stay
   expired once expired, every operation answers a live reader as the eager cache does,
   however many sweeps the life contains and wherever, and whatever panicked before; only an
   operation in which the eviction callback itself panics answers nothing. Even then both
   caches go on with the same live entries.
   */
  lemma LazyRefinesEager(s: Setup, life: Life, n: nat)
    requires Monotone(s) && InOrder(life) && n < |life|
    requires Run(s, life[..n]).Some? && Allowed(Run(s, life[..n]).value, life[n].0)
    ensures Agree(s, Run(s, life[..n]).value.store, EagerRun(s, life[..n]), life[n].1)
    ensures AnswersEagerly(s, life, n, Apply(s, Run(s, life[..n]).value, life[n].0, life[n].1).1)
  {
    var before, now := life[..n], life[n].1;
    assert forall m :: 0 <= m < n ==> before[m] == life[m];
    LivesAgree(s, before, now);
    StepMatches(s, Run(s, before).value, LiveEntries(s, EagerRun(s, before), now), life[n].0, now);
  }
}
