/**
 Adding up: the events of a growing log that concern one call, and the steps that all calls
 together still have before them.
 */
module Tally {
  import opened Basics

  /** How many events of `log` are about call `i`, where `who` says which call an event is about. */
  function Count<E>(log: seq<E>, who: E -> Option<nat>, i: nat): nat {
    CountTo(log, who, i, |log|)
  }

  /** The same among the first `n` events. */
  function CountTo<E>(log: seq<E>, who: E -> Option<nat>, i: nat, n: nat): nat
    requires n <= |log|
  {
    if n == 0 then 0 else CountTo(log, who, i, n - 1) + if who(log[n - 1]) == Some(i) then 1 else 0
  }

  lemma {:induction false} CountPrefix<E>(log: seq<E>, e: E, who: E -> Option<nat>, i: nat, n: nat)
    requires n <= |log|
    ensures CountTo(log + [e], who, i, n) == CountTo(log, who, i, n)
  {
    if n > 0 {
      CountPrefix(log, e, who, i, n - 1);
    }
  }

  lemma {:induction false} CountGrown<E>(log: seq<E>, e: E, who: E -> Option<nat>, i: nat)
    ensures Count(log + [e], who, i) == Count(log, who, i) + if who(e) == Some(i) then 1 else 0
  {
    CountPrefix(log, e, who, i, |log|);
  }

  /** The sum of the ranks of all of `ts`. */
  function Total<T>(ts: seq<T>, rank: T -> nat): nat {
    TotalTo(ts, rank, |ts|)
  }

  function TotalTo<T>(ts: seq<T>, rank: T -> nat, n: nat): nat
    requires n <= |ts|
  {
    if n == 0 then 0 else TotalTo(ts, rank, n - 1) + rank(ts[n - 1])
  }

  /** Replacing one element changes the sum by the difference of its ranks. */
  lemma {:induction false} TotalChanges<T>(ts: seq<T>, rank: T -> nat, i: nat, t: T, n: nat)
    requires i < |ts| && n <= |ts|
    ensures TotalTo(ts[i := t], rank, n)
         == TotalTo(ts, rank, n) + if i < n then rank(t) - rank(ts[i]) else 0
  {
    if n > 0 {
      TotalChanges(ts, rank, i, t, n - 1);
    }
  }

  lemma TotalDrops<T>(ts: seq<T>, rank: T -> nat, i: nat, t: T)
    requires i < |ts| && rank(t) < rank(ts[i])
    ensures Total(ts[i := t], rank) < Total(ts, rank)
  {
    TotalChanges(ts, rank, i, t, |ts|);
  }

  /** Every event of `log` satisfies `ok`, given the events before it. */
  ghost predicate Each<E(!new)>(log: seq<E>, ok: (seq<E>, E) -> bool) {
    forall n :: 0 <= n < |log| ==> ok(log[..n], log[n])
  }

  lemma EachGrown<E(!new)>(log: seq<E>, e: E, ok: (seq<E>, E) -> bool)
    requires Each(log, ok) && ok(log, e)
    ensures Each(log + [e], ok)
  {
    var more := log + [e];
    forall n | 0 <= n < |more| ensures ok(more[..n], more[n]) {
      assert more[..n] == if n < |log| then log[..n] else log;
    }
  }

  lemma EachPrefix<E(!new)>(log: seq<E>, n: nat, ok: (seq<E>, E) -> bool)
    requires Each(log, ok) && n < |log|
    ensures Each(log[..n], ok) && ok(log[..n], log[n])
  {
    assert forall m :: 0 <= m < n ==> log[..n][m] == log[m] && log[..n][..m] == log[..m];
  }
}
