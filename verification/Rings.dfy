/**
 The link surgery of `LRUList`: cyclic doubly linked rings threaded through one vector of
 cells, and what `unlink` and `link_after` do to the ring they touch and to every other.
 */
module Rings {
  import opened Basics

  datatype Cell<T> = Cell(value: Option<T>, next: nat, prev: nat)

  /** Walking `a` steps from sentinel `s` along ring `r`, wrapping to `s` after the last. */
  function At(s: nat, r: seq<nat>, a: nat): nat {
    if 1 <= a <= |r| then r[a - 1] else s
  }

  ghost predicate Bounded<T>(cells: seq<Cell<T>>, s: nat, r: seq<nat>) {
    s < |cells| && forall a :: 0 <= a < |r| ==> r[a] < |cells|
  }

  /** `next` and `prev` are mutually inverse along the cycle sentinel, `r[0]`, .., sentinel. */
  ghost predicate Ring<T>(cells: seq<Cell<T>>, s: nat, r: seq<nat>) {
    && Bounded(cells, s, r)
    && forall a :: 0 <= a <= |r| ==>
      cells[At(s, r, a)].next == At(s, r, a + 1) && cells[At(s, r, a + 1)].prev == At(s, r, a)
  }

  /** Links stay inside the vector. */
  ghost predicate Closed<T>(cells: seq<Cell<T>>) {
    forall i :: 0 <= i < |cells| ==> cells[i].next < |cells| && cells[i].prev < |cells|
  }

  function Unlinked<T>(cells: seq<Cell<T>>, i: nat): (r: seq<Cell<T>>)
    requires Closed(cells) && i < |cells|
    ensures Closed(r) && SameValues(cells, r)
  {
    var prev, next := cells[i].prev, cells[i].next;
    var c := cells[prev := cells[prev].(next := next)];
    c[next := c[next].(prev := prev)]
  }

  function LinkedAfter<T>(cells: seq<Cell<T>>, i: nat, prev: nat): (r: seq<Cell<T>>)
    requires Closed(cells) && i < |cells| && prev < |cells|
    ensures Closed(r) && SameValues(cells, r)
  {
    var next := cells[prev].next;
    var c := cells[i := cells[i].(prev := prev, next := next)];
    var d := c[prev := c[prev].(next := i)];
    d[next := d[next].(prev := i)]
  }

  /** Same length and same values: only links differ. */
  ghost predicate SameValues<T>(c: seq<Cell<T>>, d: seq<Cell<T>>) {
    |c| == |d| && forall i :: 0 <= i < |c| ==> c[i].value == d[i].value
  }

  /** Outside the ring, cells are untouched. */
  ghost predicate SameOutside<T>(c: seq<Cell<T>>, d: seq<Cell<T>>, s: nat, r: seq<nat>) {
    |c| == |d| && forall i :: 0 <= i < |c| && i != s && i !in r ==> c[i] == d[i]
  }

  /** `unlink` closes the ring around the removed cell, wherever in the ring it is. */
  lemma UnlinkRing<T>(cells: seq<Cell<T>>, s: nat, r: seq<nat>, p: nat)
    requires Closed(cells) && Ring(cells, s, r) && NoDup(r) && s !in r && p < |r|
    ensures var d := Unlinked(cells, r[p]);
      Ring(d, s, Cut(r, p)) && SameOutside(cells, d, s, r)
  {
    var d := Unlinked(cells, r[p]);
    var q := Cut(r, p);
    forall a | 0 <= a <= |q|
      ensures d[At(s, q, a)].next == At(s, q, a + 1) && d[At(s, q, a + 1)].prev == At(s, q, a)
    {
      UnlinkLink(cells, s, r, p, a);
    }
    assert At(s, r, p + 1) == r[p];
    assert cells[r[p]].next == At(s, r, p + 2) && cells[r[p]].prev == At(s, r, p);
  }

  /** The link from position `a` once the cell at position `p` has been unlinked. */
  lemma {:induction false} UnlinkLink<T>(cells: seq<Cell<T>>, s: nat, r: seq<nat>, p: nat, a: nat)
    requires Closed(cells) && Ring(cells, s, r) && NoDup(r) && s !in r && p < |r| && a < |r|
    ensures var d, q := Unlinked(cells, r[p]), Cut(r, p);
      At(s, q, a) < |d| && At(s, q, a + 1) < |d|
      && d[At(s, q, a)].next == At(s, q, a + 1) && d[At(s, q, a + 1)].prev == At(s, q, a)
  {
    var d, q := Unlinked(cells, r[p]), Cut(r, p);
    assert At(s, r, p + 1) == r[p];
    assert cells[r[p]].next == At(s, r, p + 2) && cells[r[p]].prev == At(s, r, p);
    if a == p {
      assert At(s, q, a) == At(s, r, p) && At(s, q, a + 1) == At(s, r, p + 2);
    } else {
      var b := if a < p then a else a + 1;
      assert At(s, q, a) == At(s, r, b) && At(s, q, a + 1) == At(s, r, b + 1);
      LinkElsewhere(cells, s, r, p, b);
    }
  }

  /** Unlinking the cell at position `p` leaves the other links of the ring alone. */
  lemma {:induction false} LinkElsewhere<T>(cells: seq<Cell<T>>, s: nat, r: seq<nat>, p: nat, b: nat)
    requires Closed(cells) && Ring(cells, s, r) && NoDup(r) && s !in r && p < |r|
    requires b <= |r| && b != p && b != p + 1
    ensures var d := Unlinked(cells, r[p]);
      d[At(s, r, b)].next == At(s, r, b + 1) && d[At(s, r, b + 1)].prev == At(s, r, b)
  {
    assert At(s, r, p + 1) == r[p];
    assert cells[r[p]].next == At(s, r, p + 2) && cells[r[p]].prev == At(s, r, p);
    assert cells[At(s, r, b)].next == At(s, r, b + 1) && cells[At(s, r, b + 1)].prev == At(s, r, b);
    Distinct(s, r, b, p);
    Distinct(s, r, b + 1, p + 2);
  }

  /** Two different walks shorter than the ring end at different cells. */
  lemma Distinct(s: nat, r: seq<nat>, a: nat, b: nat)
    requires NoDup(r) && s !in r && a <= |r| + 1 && b <= |r| + 1
    ensures At(s, r, a) == At(s, r, b) <==>
      a == b || (a == 0 && b == |r| + 1) || (a == |r| + 1 && b == 0)
  {
  }

  /** `link_after` the sentinel puts a foreign cell at the head of the ring. */
  lemma {:induction false} LinkRing<T>(cells: seq<Cell<T>>, s: nat, r: seq<nat>, i: nat)
    requires Closed(cells) && Ring(cells, s, r) && NoDup(r) && s !in r
    requires i < |cells| && i != s && i !in r
    ensures var d := LinkedAfter(cells, i, s);
      Ring(d, s, [i] + r) && SameOutside(cells, d, s, [i] + r)
  {
    var d := LinkedAfter(cells, i, s);
    var q := [i] + r;
    assert At(s, r, 0) == s;
    assert cells[s].next == At(s, r, 1);
    forall a | 0 <= a <= |q|
      ensures d[At(s, q, a)].next == At(s, q, a + 1) && d[At(s, q, a + 1)].prev == At(s, q, a)
    {
      if a >= 2 {
        assert At(s, q, a) == At(s, r, a - 1) && At(s, q, a + 1) == At(s, r, a);
        assert cells[At(s, r, a - 1)].next == At(s, r, a);
        assert cells[At(s, r, a)].prev == At(s, r, a - 1);
        Distinct(s, r, a - 1, 0);
        Distinct(s, r, a, 1);
      }
    }
    forall j | 0 <= j < |cells| && j != s && j !in q ensures cells[j] == d[j] {
      assert r != [] ==> r[0] == q[1];
    }
  }

  /** A ring survives any change outside it, and growth of the vector. */
  lemma RingFrame<T>(c: seq<Cell<T>>, d: seq<Cell<T>>, s: nat, r: seq<nat>)
    requires Ring(c, s, r) && |c| <= |d|
    requires c[s].next == d[s].next && c[s].prev == d[s].prev
    requires forall i :: i in r ==> c[i].next == d[i].next && c[i].prev == d[i].prev
    ensures Ring(d, s, r)
  {
    forall a | 0 <= a <= |r|
      ensures d[At(s, r, a)].next == At(s, r, a + 1) && d[At(s, r, a + 1)].prev == At(s, r, a)
    {
      assert c[At(s, r, a)].next == At(s, r, a + 1) && c[At(s, r, a + 1)].prev == At(s, r, a);
    }
  }

  /** The links determine the ring. */
  lemma {:induction false} RingPrefix<T>(cells: seq<Cell<T>>, s: nat, a: seq<nat>, b: seq<nat>, n: nat)
    requires Ring(cells, s, a) && Ring(cells, s, b) && s !in a && s !in b && n <= |a|
    ensures n <= |b| && a[..n] == b[..n]
  {
    if n > 0 {
      RingPrefix(cells, s, a, b, n - 1);
      assert At(s, a, n - 1) == At(s, b, n - 1) by {
        assert n > 1 ==> a[..n - 1][n - 2] == b[..n - 1][n - 2];
      }
      assert cells[At(s, a, n - 1)].next == At(s, a, n) && cells[At(s, b, n - 1)].next == At(s, b, n);
      assert a[n - 1] in a;
      assert a[..n] == a[..n - 1] + [a[n - 1]];
      assert n <= |b|;
      assert b[..n] == b[..n - 1] + [b[n - 1]];
    }
  }

  lemma RingUnique<T>(cells: seq<Cell<T>>, s: nat, a: seq<nat>, b: seq<nat>)
    requires Ring(cells, s, a) && Ring(cells, s, b) && s !in a && s !in b
    ensures a == b
  {
    RingPrefix(cells, s, a, b, |a|);
    RingPrefix(cells, s, b, a, |b|);
    assert a[..|a|] == a && b[..|b|] == b;
  }
}
