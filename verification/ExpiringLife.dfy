/**
 Whole lives of an `ExpiringCache` object: any sequence of calls to its methods does to it
 what the model says, so what is proved of every life in the model holds of the object.
 */
module ExpiringLife {
  import opened Basics
  import opened ExpiringModel
  import A = ExpiringAccounts
  import R = ExpiringRefinement
  import C = ExpiringCache

  /** One operation, by the method that implements it. */
  method Perform(cache: C.ExpiringCache, op: Op, now: nat) returns (a: Answer)
    requires cache.Valid() && Allowed(cache.view, op)
    modifies cache
    ensures cache.Valid() && (cache.view, a) == Apply(cache.setup, old(cache.view), op, now)
  {
    if A.KeyOp(op) {
      a := PerformOnKey(cache, op, now);
    } else if A.SweepOp(op) {
      a := PerformSweep(cache, op, now);
    } else {
      a := PerformOther(cache, op, now);
    }
  }

  method PerformOnKey(cache: C.ExpiringCache, op: Op, now: nat) returns (a: Answer)
    requires cache.Valid() && A.KeyOp(op)
    modifies cache
    ensures cache.Valid() && (cache.view, a) == Apply(cache.setup, old(cache.view), op, now)
  {
    match op
    case Get(k) => a := cache.Get(k, now);
    case GetMut(k, left) => a := cache.GetMut(k, now, left);
    case GetOrSet(k, f, then_) => a := cache.GetOrSet(k, f, then_, now);
    case Set(k, v) => a := cache.Set(k, v, now);
    case Remove(k) => a := cache.Remove(k, now);
    case RemoveEntry(k) => a := cache.RemoveEntry(k, now);
  }

  method PerformSweep(cache: C.ExpiringCache, op: Op, now: nat) returns (a: Answer)
    requires cache.Valid() && A.SweepOp(op) && Allowed(cache.view, op)
    modifies cache
    ensures cache.Valid() && (cache.view, a) == Apply(cache.setup, old(cache.view), op, now)
  {
    match op
    case Evict(order) => a := cache.Evict(order, now);
    case Retain(order, keep) => a := cache.Retain(order, keep, now);
    case ClearWithOnEvict(order) => a := cache.ClearWithOnEvict(order, now);
  }

  method PerformOther(cache: C.ExpiringCache, op: Op, now: nat) returns (a: Answer)
    requires cache.Valid() && !A.KeyOp(op) && !A.SweepOp(op) && Allowed(cache.view, op)
    modifies cache
    ensures cache.Valid() && (cache.view, a) == Apply(cache.setup, old(cache.view), op, now)
  {
    match op
    case Clear =>
      cache.Clear();
      a := Unit;
    case Reset =>
      cache.Reset();
      a := Unit;
    case ResetMetrics =>
      cache.ResetMetrics();
      a := Unit;
    case Peek(k) =>
      var v := cache.Peek(k, now);
      a := Found(v);
    case Contains(k) =>
      var yes := cache.Contains(k, now);
      a := Answer(yes);
    case Iter(order) =>
      var entries := cache.Iter(order, now);
      a := Entries(entries);
    case GetStatus(k) => a := cache.GetStatus(k, now);
    case PeekStatus(k) => a := cache.PeekStatus(k, now);
  }

  lemma {:induction false} PrefixRuns(s: Setup, life: A.Life, n: nat)
    requires n <= |life| && A.Run(s, life).Some?
    ensures A.Run(s, life[..n]).Some?
    ensures n < |life| ==> Allowed(A.Run(s, life[..n]).value, life[n].0)
    decreases |life|
  {
    if n == |life| {
      assert life[..n] == life;
    } else if n < |life| - 1 {
      PrefixRuns(s, life[..|life| - 1], n);
      assert life[..|life| - 1][..n] == life[..n];
    }
  }

  /** The answers to the operations of a life. */
  ghost function AnswersTo(s: Setup, life: A.Life): (r: seq<Answer>)
    requires A.Run(s, life).Some?
    ensures |r| == |life|
  {
    if life == [] then []
    else
      var before := life[..|life| - 1];
      AnswersTo(s, before) + [Apply(s, A.Run(s, before).value, life[|life| - 1].0, life[|life| - 1].1).1]
  }

  lemma {:induction false} OneMore(s: Setup, life: A.Life, n: nat)
    requires n < |life| && A.Run(s, life).Some?
    ensures A.Run(s, life[..n]).Some? && A.Run(s, life[..n + 1]).Some?
    ensures var l, (op, now) := A.Run(s, life[..n]).value, life[n];
      && Allowed(l, op)
      && A.Run(s, life[..n + 1]).value == Apply(s, l, op, now).0
      && AnswersTo(s, life[..n + 1]) == AnswersTo(s, life[..n]) + [Apply(s, l, op, now).1]
  {
    PrefixRuns(s, life, n);
    PrefixRuns(s, life, n + 1);
    assert life[..n + 1][..n] == life[..n];
  }

  lemma {:induction false} AnswersPrefix(s: Setup, life: A.Life, n: nat)
    requires n <= |life| && A.Run(s, life).Some?
    ensures A.Run(s, life[..n]).Some? && AnswersTo(s, life[..n]) == AnswersTo(s, life)[..n]
    decreases |life|
  {
    if n == |life| {
      assert life[..n] == life;
    } else {
      var before := life[..|life| - 1];
      AnswersPrefix(s, before, n);
      assert before[..n] == life[..n];
    }
  }

  lemma {:induction false} AnswersAt(s: Setup, life: A.Life, n: nat)
    requires n < |life| && A.Run(s, life).Some?
    ensures A.Run(s, life[..n]).Some? && Allowed(A.Run(s, life[..n]).value, life[n].0)
    ensures AnswersTo(s, life)[n] == Apply(s, A.Run(s, life[..n]).value, life[n].0, life[n].1).1
  {
    OneMore(s, life, n);
    AnswersPrefix(s, life, n + 1);
    assert AnswersTo(s, life)[n] == AnswersTo(s, life)[..n + 1][n];
  }

  method Live(s: Setup, life: A.Life) returns (cache: C.ExpiringCache, answers: seq<Answer>)
    requires A.Run(s, life).Some?
    ensures fresh(cache) && cache.Valid() && cache.setup == s
    ensures Some(cache.view) == A.Run(s, life) && answers == AnswersTo(s, life)
  {
    cache := new C.ExpiringCache(s);
    answers := [];
    assert life[..0] == [];
    for n := 0 to |life|
      invariant fresh(cache) && cache.Valid() && cache.setup == s
      invariant Some(cache.view) == A.Run(s, life[..n]) && answers == AnswersTo(s, life[..n])
    {
      OneMore(s, life, n);
      var a := Perform(cache, life[n].0, life[n].1);
      answers := answers + [a];
    }
    assert life[..|life|] == life;
  }

  ghost predicate Eagerly(s: Setup, life: A.Life, n: nat, a: Answer)
    requires n < |life| && A.Run(s, life).Some?
  {
    PrefixRuns(s, life, n);
    R.AnswersEagerly(s, life, n, a)
  }

  /**
   A new cache that lives through `life`: its map, counters and books are those of the model,
   every entry is conserved and every counter exact, and to a live reader it answers as the
   eager cache does, panics of the eviction callback aside.
   */
  method LiveThrough(s: Setup, life: A.Life) returns (cache: C.ExpiringCache, answers: seq<Answer>)
    requires A.Run(s, life).Some?
    ensures fresh(cache) && cache.Valid() && cache.setup == s && Some(cache.view) == A.Run(s, life)
    ensures Balanced(cache.view) && AllTold(s, cache.view)
    ensures cache.hits == A.Lookups(s, life, true) && cache.misses == A.Lookups(s, life, false)
    ensures cache.evictions == A.RecentEvictions(s, life)
    ensures |answers| == |life|
    ensures R.Monotone(s) && R.InOrder(life) ==>
      forall n :: 0 <= n < |life| ==> Eagerly(s, life, n, answers[n])
  {
    cache, answers := Live(s, life);
    A.Conservation(s, life);
    A.MetricsAreExact(s, life);
    if R.Monotone(s) && R.InOrder(life) {
      forall n | 0 <= n < |life| ensures Eagerly(s, life, n, answers[n]) {
        AnswersAt(s, life, n);
        R.LazyRefinesEager(s, life, n);
      }
    }
  }
}
