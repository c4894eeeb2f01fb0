/**
 Vocabulary shared by every module: optional values, sequence surgery, and the
 uninterpreted key, value and error types of a cached function.
 */
module Basics {

  datatype Option<+T> = None | Some(value: T)

  /** The cache key type. */
  type Key(==, !new)

  /** The type of a stored value: the payload of `Ok`/`Some`, or the plain return value. */
  type Value(==, !new)

  /** What a body returns when there is nothing to store: `Err(e)` or `None`. */
  type Error(==, !new)

  /**
   What one run of a function body produced. `Keep(v)` is `Ok(v)`, `Some(v)` or a plain
   `v`: the shapes whose payload is stored. `Skip(e)` is `Err(e)` or `None`.
   */
  datatype Outcome = Keep(value: Value) | Skip(error: Error)

  ghost predicate NoDup<T>(s: seq<T>) {
    forall a, b :: 0 <= a < b < |s| ==> s[a] != s[b]
  }

  /** `s` without its element at position `p`. */
  function Cut<T>(s: seq<T>, p: nat): (r: seq<T>)
    requires p < |s|
    ensures |r| == |s| - 1
    ensures forall a :: 0 <= a < |r| ==> r[a] == if a < p then s[a] else s[a + 1]
  {
    s[..p] + s[p + 1..]
  }

  /** The position of the first `x` in `s`. */
  function IndexOf<T(==)>(s: seq<T>, x: T): (p: nat)
    requires x in s
    ensures p < |s| && s[p] == x
  {
    if s[0] == x then 0 else 1 + IndexOf(s[1..], x)
  }

  /** In a sequence without duplicates, cutting out `x` removes `x` and nothing else. */
  lemma CutMembers<T>(s: seq<T>, x: T)
    requires NoDup(s) && x in s
    ensures NoDup(Cut(s, IndexOf(s, x)))
    ensures forall y :: y in Cut(s, IndexOf(s, x)) <==> y in s && y != x
  {
    var p := IndexOf(s, x);
    var r := Cut(s, p);
    forall y | y in s && y != x ensures y in r {
      var a :| 0 <= a < |s| && s[a] == y;
      assert r[if a < p then a else a - 1] == y;
    }
  }

  /** Putting a new element in front keeps a sequence free of duplicates. */
  lemma PrependMembers<T>(x: T, s: seq<T>)
    requires NoDup(s) && x !in s
    ensures NoDup([x] + s)
    ensures forall y :: y in [x] + s <==> y == x || y in s
  {
    var r := [x] + s;
    assert forall a :: 0 < a < |r| ==> r[a] == s[a - 1];
  }
}
