/**
 `LRUList`: one vector of cells holding two interleaved rings. Cell 0 heads the ring of
 vacant cells and cell 1 the ring of occupied cells.
 */
module LruList {
  import opened Basics
  import opened Rings
  import M = LruModel

  /** The ghost rings `order` and `vacant` describe the links and the values of `cells`. */
  ghost predicate Represents<T>(cells: seq<Cell<T>>, order: seq<nat>, vacant: seq<nat>) {
    && |cells| == 2 + |order| + |vacant|
    && Threaded(cells, order, vacant)
    && (forall i :: i in order || i in vacant <==> 2 <= i < |cells|)
    && (forall i :: 0 <= i < |cells| ==> (cells[i].value.Some? <==> i in order))
  }

  /** Two disjoint rings, `next` and `prev` mutually inverse along each. */
  ghost predicate Threaded<T>(cells: seq<Cell<T>>, order: seq<nat>, vacant: seq<nat>) {
    && Closed(cells)
    && Ring(cells, M.FREE, vacant) && Ring(cells, M.OCCUPIED, order)
    && NoDup(order) && NoDup(vacant)
    && (forall i :: i in order ==> i !in vacant)
    && (forall i :: i in order || i in vacant ==> 2 <= i)
  }

  /** The same with slot `i` taken out of both rings, half-way through an operation. */
  ghost predicate Detached<T>(cells: seq<Cell<T>>, order: seq<nat>, vacant: seq<nat>, i: nat) {
    && |cells| == 3 + |order| + |vacant|
    && Threaded(cells, order, vacant)
    && i !in order && i !in vacant && 2 <= i < |cells|
    && (forall j :: j in order || j in vacant || j == i <==> 2 <= j < |cells|)
    && (forall j :: 0 <= j < |cells| && j != i ==> (cells[j].value.Some? <==> j in order))
  }

  lemma DetachOccupied<T>(cells: seq<Cell<T>>, order: seq<nat>, vacant: seq<nat>, i: nat)
    requires Represents(cells, order, vacant) && i in order
    ensures Detached(Unlinked(cells, i), Cut(order, IndexOf(order, i)), vacant, i)
  {
    CutMembers(order, i);
    UnlinkRing(cells, M.OCCUPIED, order, IndexOf(order, i));
    RingFrame(cells, Unlinked(cells, i), M.FREE, vacant);
  }

  lemma DetachVacant<T>(cells: seq<Cell<T>>, order: seq<nat>, vacant: seq<nat>, i: nat)
    requires Represents(cells, order, vacant) && i in vacant
    ensures Detached(Unlinked(cells, i), order, Cut(vacant, IndexOf(vacant, i)), i)
  {
    CutMembers(vacant, i);
    UnlinkRing(cells, M.FREE, vacant, IndexOf(vacant, i));
    RingFrame(cells, Unlinked(cells, i), M.OCCUPIED, order);
  }

  lemma AttachAny<T>(cells: seq<Cell<T>>, order: seq<nat>, vacant: seq<nat>, i: nat)
    requires Detached(cells, order, vacant, i)
    ensures Threaded(LinkedAfter(cells, i, M.OCCUPIED), [i] + order, vacant)
  {
    PrependMembers(i, order);
    LinkRing(cells, M.OCCUPIED, order, i);
    RingFrame(cells, LinkedAfter(cells, i, M.OCCUPIED), M.FREE, vacant);
  }

  lemma AttachOccupied<T>(cells: seq<Cell<T>>, order: seq<nat>, vacant: seq<nat>, i: nat)
    requires Detached(cells, order, vacant, i) && cells[i].value.Some?
    ensures Represents(LinkedAfter(cells, i, M.OCCUPIED), [i] + order, vacant)
  {
    PrependMembers(i, order);
    AttachAny(cells, order, vacant, i);
  }

  lemma AttachVacant<T>(cells: seq<Cell<T>>, order: seq<nat>, vacant: seq<nat>, i: nat)
    requires Detached(cells, order, vacant, i)
    ensures Represents(Emptied(LinkedAfter(cells, i, M.FREE), i), order, [i] + vacant)
  {
    PrependMembers(i, vacant);
    var d := LinkedAfter(cells, i, M.FREE);
    LinkRing(cells, M.FREE, vacant, i);
    RingFrame(cells, d, M.OCCUPIED, order);
    RingFrame(d, Emptied(d, i), M.OCCUPIED, order);
    RingFrame(d, Emptied(d, i), M.FREE, [i] + vacant);
  }

  // ---- The operations on cells, in the source's order of writes ------------------------

  /** `Option::take` on one cell. */
  function Emptied<T>(cells: seq<Cell<T>>, i: nat): seq<Cell<T>>
    requires i < |cells|
  {
    cells[i := cells[i].(value := None)]
  }

  function Filled<T>(cells: seq<Cell<T>>, i: nat, v: T): seq<Cell<T>>
    requires i < |cells|
  {
    cells[i := cells[i].(value := Some(v))]
  }

  function Promoted<T>(cells: seq<Cell<T>>, i: nat): (r: seq<Cell<T>>)
    requires Closed(cells) && 2 <= |cells| && i < |cells|
    ensures SameValues(cells, r)
  {
    LinkedAfter(Unlinked(cells, i), i, M.OCCUPIED)
  }

  function Vacated<T>(cells: seq<Cell<T>>, i: nat): (r: seq<Cell<T>>)
    requires Closed(cells) && 2 <= |cells| && i < |cells|
    ensures SameValues(Emptied(cells, i), r)
  {
    Emptied(LinkedAfter(Unlinked(cells, i), i, M.FREE), i)
  }

  /** Cell 0 made to point at a cell, appending one if the free ring is empty. */
  function Stocked<T>(cells: seq<Cell<T>>): (r: seq<Cell<T>>)
    requires Closed(cells) && 2 <= |cells|
    ensures Closed(r) && 2 <= |r|
  {
    if cells[M.FREE].next == M.FREE then
      (cells + [Cell(None, M.FREE, M.FREE)])[M.FREE := cells[M.FREE].(next := |cells|)]
    else
      cells
  }

  function Pushed<T>(cells: seq<Cell<T>>, v: T): seq<Cell<T>>
    requires Closed(cells) && 2 <= |cells|
  {
    var c := Stocked(cells);
    var i := c[M.FREE].next;
    LinkedAfter(Unlinked(Filled(c, i, v), i), i, M.OCCUPIED)
  }

  // ---- What they mean -------------------------------------------------------------------

  /** The value in each occupied slot. */
  ghost function Values<T>(cells: seq<Cell<T>>, order: seq<nat>): map<nat, T>
    requires forall i :: i in order ==> i < |cells| && cells[i].value.Some?
  {
    map i | i in order :: cells[i].value.value
  }

  /** What a vector of cells means as a list. */
  ghost function Meaning<T>(cells: seq<Cell<T>>, order: seq<nat>, vacant: seq<nat>): M.Slab<T>
    requires Represents(cells, order, vacant)
  {
    M.Slab(order, vacant, Values(cells, order))
  }

  /** `cells` is a sound representation of `s`. */
  ghost predicate Means<T>(cells: seq<Cell<T>>, s: M.Slab<T>) {
    Represents(cells, s.order, s.vacant) && Meaning(cells, s.order, s.vacant) == s
  }

  lemma MeansValues<T>(cells: seq<Cell<T>>, s: M.Slab<T>)
    requires Represents(cells, s.order, s.vacant)
    requires forall i :: i in s.vals <==> i in s.order
    requires forall i :: i in s.order ==> cells[i].value == Some(s.vals[i])
    ensures Means(cells, s)
  {
  }

  /** Promoting any occupied slot, the head and a sole entry included, moves it to the head. */
  lemma PromotedMeans<T>(cells: seq<Cell<T>>, s: M.Slab<T>, i: nat)
    requires Means(cells, s) && i in s.order
    ensures Means(Promoted(cells, i), M.Apply(s, M.MoveToFront(i)))
  {
    DetachOccupied(cells, s.order, s.vacant, i);
    CutMembers(s.order, i);
    AttachOccupied(Unlinked(cells, i), Cut(s.order, IndexOf(s.order, i)), s.vacant, i);
    var r := M.Apply(s, M.MoveToFront(i));
    assert forall j :: j in r.order <==> j in s.order;
    MeansValues(Promoted(cells, i), r);
  }

  /** The cells represent some list. */
  ghost predicate Sound<T>(cells: seq<Cell<T>>) {
    exists order, vacant :: Represents(cells, order, vacant)
  }

  /** No list is represented by cells in which a slot of the occupied ring is empty or another
      cell is filled. */
  lemma Unsound<T>(cells: seq<Cell<T>>, order: seq<nat>, vacant: seq<nat>, i: nat)
    requires Threaded(cells, order, vacant) && i < |cells| && cells[i].value.Some? != (i in order)
    ensures !Sound(cells)
  {
    forall o, v ensures !Represents(cells, o, v) {
      if Represents(cells, o, v) {
        RingUnique(cells, M.OCCUPIED, order, o);
      }
    }
  }

  /** A sentinel leads to itself if its ring is empty, and never to the other sentinel. */
  lemma HeadOf<T>(cells: seq<Cell<T>>, order: seq<nat>, vacant: seq<nat>)
    requires Represents(cells, order, vacant)
    ensures order == [] <==> cells[M.OCCUPIED].next == M.OCCUPIED
    ensures vacant == [] <==> cells[M.FREE].next == M.FREE
    ensures cells[M.OCCUPIED].next != M.FREE && cells[M.FREE].next != M.OCCUPIED
  {
    assert cells[At(M.OCCUPIED, order, 0)].next == At(M.OCCUPIED, order, 1);
    assert cells[At(M.FREE, vacant, 0)].next == At(M.FREE, vacant, 1);
    assert order != [] ==> order[0] in order;
    assert vacant != [] ==> vacant[0] in vacant;
  }

  /** Promoting a sentinel: harmless for the sentinel of an empty list, and for no other. */
  lemma PromotedSentinel<T>(cells: seq<Cell<T>>, s: M.Slab<T>, i: nat)
    requires Means(cells, s) && i < 2
    ensures Sound(Promoted(cells, i)) <==> i == M.OCCUPIED && s.order == []
    ensures i == M.OCCUPIED && s.order == [] ==> Promoted(cells, i) == cells
  {
    var c := Promoted(cells, i);
    assert c[M.OCCUPIED].next == i;
    assert s.order != [] ==> s.order[0] in s.order && c[s.order[0]].value.Some?;
    if i == M.OCCUPIED && s.order == [] {
      EmptyRing(cells, M.OCCUPIED);
      assert c == cells;
    } else {
      forall order, vacant ensures !Represents(c, order, vacant) {
        if Represents(c, order, vacant) {
          HeadOf(c, order, vacant);
        }
      }
    }
  }

  /** Removing a sentinel: harmless for the sentinel of an empty free ring, and for no other. */
  lemma VacatedSentinel<T>(cells: seq<Cell<T>>, s: M.Slab<T>, i: nat)
    requires Means(cells, s) && i < 2
    ensures Sound(Vacated(cells, i)) <==> i == M.FREE && s.vacant == []
    ensures i == M.FREE && s.vacant == [] ==> Vacated(cells, i) == cells
  {
    var c := Vacated(cells, i);
    assert c[M.FREE].next == i;
    if i == M.FREE && s.vacant == [] {
      EmptyRing(cells, M.FREE);
      assert c == cells;
    } else {
      forall order, vacant ensures !Represents(c, order, vacant) {
        if Represents(c, order, vacant) {
          HeadOf(c, order, vacant);
          if i == M.FREE {
            FreeSentinelApart(cells, s);
            RingUnique(c, M.OCCUPIED, s.order, order);
          }
        }
      }
    }
  }

  /** Removing the free sentinel does not touch the occupied ring. */
  lemma FreeSentinelApart<T>(cells: seq<Cell<T>>, s: M.Slab<T>)
    requires Means(cells, s)
    ensures Ring(Vacated(cells, M.FREE), M.OCCUPIED, s.order)
  {
    var n := |s.vacant|;
    assert cells[At(M.FREE, s.vacant, 0)].next == At(M.FREE, s.vacant, 1);
    assert cells[At(M.FREE, s.vacant, n + 1)].prev == At(M.FREE, s.vacant, n);
    RingFrame(cells, Vacated(cells, M.FREE), M.OCCUPIED, s.order);
  }

  /** The vacant slot `i` of `s` heads the occupied ring, with no value. */
  ghost predicate Astray<T>(cells: seq<Cell<T>>, s: M.Slab<T>, i: nat) {
    && i in s.vacant && i < |cells| && cells[i].value.None?
    && Threaded(cells, [i] + s.order, Cut(s.vacant, IndexOf(s.vacant, i)))
  }

  lemma PromotedAstray<T>(cells: seq<Cell<T>>, s: M.Slab<T>, i: nat)
    requires Means(cells, s) && i in s.vacant
    ensures Astray(Promoted(cells, i), s, i)
  {
    DetachVacant(cells, s.order, s.vacant, i);
    AttachAny(Unlinked(cells, i), s.order, Cut(s.vacant, IndexOf(s.vacant, i)), i);
  }

  lemma VacatedMeans<T>(cells: seq<Cell<T>>, s: M.Slab<T>, i: nat)
    requires Means(cells, s) && i in s.order
    ensures Means(Vacated(cells, i), M.Apply(s, M.Remove(i)))
  {
    DetachOccupied(cells, s.order, s.vacant, i);
    CutMembers(s.order, i);
    AttachVacant(Unlinked(cells, i), Cut(s.order, IndexOf(s.order, i)), s.vacant, i);
    var r := M.Apply(s, M.Remove(i));
    assert forall j :: j in r.order <==> j in s.order && j != i;
    MeansValues(Vacated(cells, i), r);
  }

  /** Slot `i` brought to the head of the reuse order. */
  function Requeued<T>(s: M.Slab<T>, i: nat): M.Slab<T>
    requires i in s.vacant
  {
    s.(vacant := [i] + Cut(s.vacant, IndexOf(s.vacant, i)))
  }

  /** `remove` on a vacant slot, up to the point where it panics. */
  lemma RevacatedMeans<T>(cells: seq<Cell<T>>, s: M.Slab<T>, i: nat)
    requires Means(cells, s) && i in s.vacant
    ensures Means(Vacated(cells, i), Requeued(s, i))
  {
    DetachVacant(cells, s.order, s.vacant, i);
    AttachVacant(Unlinked(cells, i), s.order, Cut(s.vacant, IndexOf(s.vacant, i)), i);
  }

  /** `push_front` fills the next slot and puts it at the head. */
  lemma PushedMeans<T>(cells: seq<Cell<T>>, s: M.Slab<T>, v: T)
    requires Means(cells, s)
    ensures Stocked(cells)[M.FREE].next == M.NextSlot(s)
    ensures Means(Pushed(cells, v), M.Apply(s, M.PushFront(v)))
  {
    if s.vacant == [] {
      Grow(cells, s.order, v);
      HeadAdded(cells, s, Pushed(cells, v), |cells|, [], v);
    } else {
      Reuse(cells, s.order, s.vacant, v);
      HeadAdded(cells, s, Pushed(cells, v), s.vacant[0], s.vacant[1..], v);
    }
  }

  /** `after` has `v` in a new head slot `i` and is otherwise as before. */
  ghost predicate FillsHead<T>(cells: seq<Cell<T>>, after: seq<Cell<T>>, order: seq<nat>, i: nat, v: T) {
    && i < |after| && after[i].value == Some(v) && i !in order
    && forall j :: j in order ==> j < |cells| && j < |after| && after[j].value == cells[j].value
  }

  lemma HeadAdded<T>(cells: seq<Cell<T>>, s: M.Slab<T>, after: seq<Cell<T>>, i: nat, vacant: seq<nat>, v: T)
    requires Means(cells, s) && Represents(after, [i] + s.order, vacant)
    requires FillsHead(cells, after, s.order, i, v)
    ensures Means(after, M.Slab([i] + s.order, vacant, s.vals[i := v]))
  {
    var r := M.Slab([i] + s.order, vacant, s.vals[i := v]);
    assert forall j :: j in r.order <==> j in s.order || j == i;
    assert forall j :: j in s.order ==> cells[j].value == Some(s.vals[j]);
    MeansValues(after, r);
  }

  lemma Reuse<T>(cells: seq<Cell<T>>, order: seq<nat>, vacant: seq<nat>, v: T)
    requires Represents(cells, order, vacant) && vacant != []
    ensures Stocked(cells)[M.FREE].next == vacant[0]
    ensures Represents(Pushed(cells, v), [vacant[0]] + order, vacant[1..])
    ensures FillsHead(cells, Pushed(cells, v), order, vacant[0], v)
  {
    ReuseLinks(cells, order, vacant, v);
    SameFilled(cells, Pushed(cells, v), order, vacant[0], v);
  }

  lemma SameFilled<T>(cells: seq<Cell<T>>, after: seq<Cell<T>>, order: seq<nat>, i: nat, v: T)
    requires i < |cells| && i !in order && SameValues(Filled(cells, i, v), after)
    requires forall j :: j in order ==> j < |cells|
    ensures FillsHead(cells, after, order, i, v)
  {
  }

  lemma ReuseLinks<T>(cells: seq<Cell<T>>, order: seq<nat>, vacant: seq<nat>, v: T)
    requires Represents(cells, order, vacant) && vacant != []
    ensures Stocked(cells)[M.FREE].next == vacant[0]
    ensures Represents(Pushed(cells, v), [vacant[0]] + order, vacant[1..])
    ensures SameValues(Filled(cells, vacant[0], v), Pushed(cells, v))
  {
    var i := vacant[0];
    assert cells[At(M.FREE, vacant, 0)].next == At(M.FREE, vacant, 1) == i;
    assert cells[i].next == At(M.FREE, vacant, 2) && cells[i].prev == M.FREE;
    Distinct(M.FREE, vacant, 1, 2);
    DetachVacant(cells, order, vacant, i);
    assert Cut(vacant, 0) == vacant[1..];
    FillDetached(cells, order, vacant[1..], i, v);
    AttachOccupied(Unlinked(Filled(cells, i, v), i), order, vacant[1..], i);
  }

  lemma FillDetached<T>(cells: seq<Cell<T>>, order: seq<nat>, vacant: seq<nat>, i: nat, v: T)
    requires Closed(cells) && i < |cells| && cells[i].prev != i && cells[i].next != i
    requires Detached(Unlinked(cells, i), order, vacant, i)
    ensures Unlinked(Filled(cells, i, v), i) == Filled(Unlinked(cells, i), i, v)
    ensures Detached(Unlinked(Filled(cells, i, v), i), order, vacant, i)
  {
    var c := Unlinked(cells, i);
    RingFrame(c, Filled(c, i, v), M.OCCUPIED, order);
    RingFrame(c, Filled(c, i, v), M.FREE, vacant);
  }

  /**
   Pushing when no slot is vacant. Once the new cell is appended, cell 0 points to it while
   cell 0's `prev` does not; unlinking the new cell repairs cell 0 in both directions.
   */
  lemma Grow<T>(cells: seq<Cell<T>>, order: seq<nat>, v: T)
    requires Represents(cells, order, [])
    ensures Stocked(cells)[M.FREE].next == |cells|
    ensures Represents(Pushed(cells, v), [|cells|] + order, [])
    ensures FillsHead(cells, Pushed(cells, v), order, |cells|, v)
  {
    EmptyRing(cells, M.FREE);
    var d := cells + [Cell(Some(v), M.FREE, M.FREE)];
    assert Unlinked(Filled(Stocked(cells), |cells|, v), |cells|) == d;
    RingFrame(cells, d, M.OCCUPIED, order);
    RingFrame(cells, d, M.FREE, []);
    AttachOccupied(d, order, [], |cells|);
  }

  lemma EmptyRing<T>(cells: seq<Cell<T>>, s: nat)
    requires Ring(cells, s, [])
    ensures cells[s].next == cells[s].prev == s
  {
    var none: seq<nat> := [];
    assert At(s, none, 0) == s == At(s, none, 1);
  }

  /** The values in list order. */
  function InOrder<T>(s: M.Slab<T>): (r: seq<T>)
    requires forall i :: i in s.order ==> i in s.vals
    ensures |r| == |s.order| && forall a :: 0 <= a < |r| ==> r[a] == s.vals[s.order[a]]
  {
    seq(|s.order|, a requires 0 <= a < |s.order| => s.vals[s.order[a]])
  }

  /** What a forward walk relies on: the occupied ring, and the values along it. */
  ghost predicate Walkable<T>(cells: seq<Cell<T>>, order: seq<nat>, walk: seq<T>) {
    && Ring(cells, M.OCCUPIED, order) && |walk| == |order|
    && (forall a :: 0 <= a < |order| ==>
         order[a] != M.OCCUPIED && cells[order[a]].value == Some(walk[a]))
  }

  lemma MeansWalkable<T>(cells: seq<Cell<T>>, s: M.Slab<T>)
    requires Means(cells, s)
    ensures NoDup(s.order) && Walkable(cells, s.order, InOrder(s))
  {
  }

  /** One step of a walk. */
  lemma WalkOn<T>(cells: seq<Cell<T>>, order: seq<nat>, walk: seq<T>, a: nat)
    requires Walkable(cells, order, walk) && a <= |order|
    ensures At(M.OCCUPIED, order, a) < |cells|
    ensures cells[At(M.OCCUPIED, order, a)].next == if a < |order| then order[a] else M.OCCUPIED
  {
    assert cells[At(M.OCCUPIED, order, a)].next == At(M.OCCUPIED, order, a + 1);
  }

  datatype Outcome<T> = Returned(value: T) | Panicked

  class LRUList<T> {
    var values: seq<Cell<T>>

    /** The occupied slots, most recent first; the vacant slots, next to reuse first; the values. */
    ghost var view: M.Slab<T>

    ghost predicate Valid()
      reads this
    {
      Means(values, view)
    }

    constructor ()
      ensures Valid() && view == M.Slab([], [], map[])
    {
      values := [Cell(None, 0, 0), Cell(None, 1, 1)];
      view := M.Slab([], [], map[]);
    }

    method Unlink(index: nat)
      requires Closed(values) && index < |values|
      modifies this`values
      ensures values == Unlinked(old(values), index)
    {
      var prev := values[index].prev;
      var next := values[index].next;
      values := values[prev := values[prev].(next := next)];
      values := values[next := values[next].(prev := prev)];
    }

    method LinkAfter(index: nat, prev: nat)
      requires Closed(values) && index < |values| && prev < |values|
      modifies this`values
      ensures values == LinkedAfter(old(values), index, prev)
    {
      var next := values[prev].next;
      values := values[index := values[index].(prev := prev)];
      values := values[index := values[index].(next := next)];
      values := values[prev := values[prev].(next := index)];
      values := values[next := values[next].(prev := index)];
    }

    /**
     Promotes an occupied slot; the current head and a sole entry are no exceptions. The source
     does not check its index: an index out of range panics at once, a vacant slot is promoted
     without a value, and a sentinel is relinked, and unless it was the sentinel of an empty
     list, what is left represents no list.
     */
    method MoveToFront(index: nat) returns (panicked: bool)
      requires Valid()
      modifies this
      ensures panicked <==> index >= |old(values)|
      ensures panicked ==> Valid() && view == old(view)
      ensures index in old(view).order ==> Valid() && view == M.Apply(old(view), M.MoveToFront(index))
      ensures index in old(view).vacant ==> Astray(values, view, index)
      ensures !panicked && index !in old(view).order ==>
        view == old(view) && values == Promoted(old(values), index)
      ensures !panicked ==>
        (Sound(values) <==> index in old(view).order || (index == M.OCCUPIED && old(view).order == []))
      ensures Sound(values) ==> Valid()
    {
      if index >= |values| {
        return true;
      }
      panicked := false;
      ghost var s := view;
      if index in s.order {
        PromotedMeans(values, s, index);
        view := M.Apply(s, M.MoveToFront(index));
      } else if index < 2 {
        PromotedSentinel(values, s, index);
      } else {
        PromotedAstray(values, s, index);
        Unsound(Promoted(values, index), [index] + s.order, Cut(s.vacant, IndexOf(s.vacant, index)), index);
      }
      Unlink(index);
      LinkAfter(index, M.OCCUPIED);
    }

    /** Stores `value` in the next vacant slot, growing the vector only when there is none. */
    method PushFront(value: T) returns (index: nat)
      requires Valid()
      modifies this
      ensures index == M.NextSlot(old(view))
      ensures Valid() && view == M.Apply(old(view), M.PushFront(value))
    {
      PushedMeans(values, view, value);
      if values[M.FREE].next == M.FREE {
        values := values + [Cell(None, M.FREE, M.FREE)];
        values := values[M.FREE := values[M.FREE].(next := |values| - 1)];
      }
      index := values[M.FREE].next;
      values := Filled(values, index, value);
      Unlink(index);
      LinkAfter(index, M.OCCUPIED);
      view := M.Apply(view, M.PushFront(value));
    }

    /**
     Frees `index` and returns its value. A vacant slot makes the source panic after it has
     relinked the slot; the list it leaves behind is intact, with that slot next for reuse. So
     does a sentinel, but then, unless it was the sentinel of an empty free ring, what is left
     represents no list. An index out of range panics at once.
     */
    method Remove(index: nat) returns (r: Outcome<T>)
      requires Valid()
      modifies this
      ensures r.Panicked? <==> index !in old(view).order
      ensures index in old(view).order ==>
        Valid() && r == Returned(old(view).vals[index]) && view == M.Apply(old(view), M.Remove(index))
      ensures index in old(view).vacant ==>
        && Valid() && view == Requeued(old(view), index) && M.NextSlot(view) == index
        && view.order == old(view).order && view.vals == old(view).vals
      ensures index >= |old(values)| ==> Valid() && view == old(view)
      ensures index < 2 ==>
        && view == old(view) && values == Vacated(old(values), index)
        && (Sound(values) <==> index == M.FREE && old(view).vacant == [])
      ensures Sound(values) ==> Valid()
    {
      if index >= |values| {
        return Panicked;
      }
      ghost var s := view;
      if index in s.order {
        VacatedMeans(values, s, index);
        view := M.Apply(s, M.Remove(index));
      } else if index < 2 {
        VacatedSentinel(values, s, index);
      } else {
        RevacatedMeans(values, s, index);
        view := Requeued(s, index);
      }
      Unlink(index);
      LinkAfter(index, M.FREE);
      var taken := values[index].value;
      values := Emptied(values, index);
      r := match taken case Some(v) => Returned(v) case None => Panicked;
    }

    /** The least recently used slot, or the sentinel when the list is empty. */
    method Back() returns (index: nat)
      requires Valid()
      ensures index == if view.order == [] then M.OCCUPIED else M.Last(view.order)
    {
      assert values[At(M.OCCUPIED, view.order, |view.order| + 1)].prev == At(M.OCCUPIED, view.order, |view.order|);
      index := values[M.OCCUPIED].prev;
    }

    method Get(index: nat) returns (r: Outcome<T>)
      requires Valid()
      ensures r == if index in view.order then Returned(view.vals[index]) else Panicked
    {
      if index >= |values| {
        return Panicked;
      }
      r := match values[index].value case Some(v) => Returned(v) case None => Panicked;
    }

    /** Replaces the value of an occupied slot. A vacant slot or a sentinel is filled as well:
        the rings are as before, but what is left represents no list. */
    method Set(index: nat, value: T) returns (r: Outcome<Option<T>>)
      requires Valid()
      modifies this
      ensures r.Panicked? <==> index >= |old(values)|
      ensures r.Panicked? ==> Valid() && view == old(view)
      ensures index in old(view).order ==>
        && Valid() && view == M.Apply(old(view), M.Set(index, value))
        && r == Returned(Some(old(view).vals[index]))
      ensures index < |old(values)| && index !in old(view).order ==>
        && view == old(view) && r == Returned(None) && values == Filled(old(values), index, value)
        && Threaded(values, view.order, view.vacant) && !Sound(values)
    {
      if index >= |values| {
        return Panicked;
      }
      r := Returned(values[index].value);
      values := values[index := values[index].(value := Some(value))];
      RingFrame(old(values), values, M.OCCUPIED, view.order);
      RingFrame(old(values), values, M.FREE, view.vacant);
      if index in view.order {
        view := M.Apply(view, M.Set(index, value));
      } else {
        Unsound(values, view.order, view.vacant, index);
      }
    }

    method Clear()
      modifies this
      ensures Valid() && view == M.Slab([], [], map[])
    {
      values := [];
      values := values + [Cell(None, 0, 0)];
      values := values + [Cell(None, 1, 1)];
      view := M.Slab([], [], map[]);
    }

    /** Appends every value to `out`, most recent first, and leaves a fresh list. */
    method DrainInto(out: seq<T>) returns (out': seq<T>)
      requires Valid()
      modifies this
      ensures out' == out + InOrder(old(view))
      ensures Valid() && view == M.Apply(old(view), M.Clear)
    {
      MeansWalkable(values, view);
      out' := DrainWalk(out, view.order, InOrder(view));
      Clear();
    }

    /** The walk of a drain: the cells already passed are vacant although still linked. */
    method DrainWalk(out: seq<T>, ghost order: seq<nat>, ghost walk: seq<T>) returns (out': seq<T>)
      requires NoDup(order) && Walkable(values, order, walk)
      modifies this`values
      ensures out' == out + walk
    {
      ghost var done := 0;
      out' := out;
      WalkOn(values, order, walk, 0);
      var index := values[M.OCCUPIED].next;
      while index != M.OCCUPIED
        invariant 0 <= done <= |order| && index == At(M.OCCUPIED, order, done + 1)
        invariant Ring(values, M.OCCUPIED, order)
        invariant forall a :: done <= a < |order| ==> values[order[a]].value == Some(walk[a])
        invariant out' == out + walk[..done]
        decreases |order| - done
      {
        assert index == order[done];
        assert values[At(M.OCCUPIED, order, done + 1)].next == At(M.OCCUPIED, order, done + 2);
        var next := values[index].next;
        ghost var before := values;
        match values[index].value {
          case Some(value) =>
            values := Emptied(values, index);
            out' := out' + [value];
          case None =>
        }
        RingFrame(before, values, M.OCCUPIED, order);
        assert walk[..done + 1] == walk[..done] + [walk[done]];
        index := next;
        done := done + 1;
      }
      assert walk[..done] == walk;
    }
  }

  /** `iter_indices`: the occupied slots, most recent first. */
  class IndexIterator<T> {
    const list: LRUList<T>
    var index: nat
    ghost const order: seq<nat>
    ghost const walk: seq<T>
    ghost var yielded: nat

    ghost predicate Valid()
      reads this, list
    {
      && Walkable(list.values, order, walk)
      && yielded <= |order| && index == At(M.OCCUPIED, order, yielded)
    }

    constructor (list: LRUList<T>)
      requires list.Valid()
      ensures Valid() && this.list == list && yielded == 0
      ensures order == list.view.order && walk == InOrder(list.view)
    {
      MeansWalkable(list.values, list.view);
      this.list := list;
      index, yielded := M.OCCUPIED, 0;
      order, walk := list.view.order, InOrder(list.view);
    }

    /** Yields the next slot; once exhausted it stays exhausted. */
    method Next() returns (r: Option<nat>)
      requires Valid()
      modifies this
      ensures Valid()
      ensures old(yielded) < |order| ==> r == Some(order[old(yielded)]) && yielded == old(yielded) + 1
      ensures old(yielded) == |order| ==> r == None && yielded == old(yielded)
    {
      WalkOn(list.values, order, walk, yielded);
      var next := list.values[index].next;
      if next == M.OCCUPIED {
        r := None;
      } else {
        index := next;
        yielded := yielded + 1;
        r := Some(next);
      }
    }
  }

  /** `iter`: the values, most recent first. */
  class ValueIterator<T> {
    const list: LRUList<T>
    var index: nat
    ghost const order: seq<nat>
    ghost const walk: seq<T>
    ghost var yielded: nat

    ghost predicate Valid()
      reads this, list
    {
      && Walkable(list.values, order, walk)
      && yielded <= |order| && index == At(M.OCCUPIED, order, yielded)
    }

    constructor (list: LRUList<T>)
      requires list.Valid()
      ensures Valid() && this.list == list && yielded == 0
      ensures order == list.view.order && walk == InOrder(list.view)
    {
      MeansWalkable(list.values, list.view);
      this.list := list;
      index, yielded := M.OCCUPIED, 0;
      order, walk := list.view.order, InOrder(list.view);
    }

    /** Yields the value in the next slot; once exhausted it stays exhausted. */
    method Next() returns (r: Option<T>)
      requires Valid()
      modifies this
      ensures Valid()
      ensures old(yielded) < |walk| ==> r == Some(walk[old(yielded)]) && yielded == old(yielded) + 1
      ensures old(yielded) == |walk| ==> r == None && yielded == old(yielded)
    {
      WalkOn(list.values, order, walk, yielded);
      var next := list.values[index].next;
      if next == M.OCCUPIED {
        r := None;
      } else {
        var value := list.values[next].value;
        index := next;
        yielded := yielded + 1;
        r := value;
      }
    }
  }

  /** Exhausting `iter_indices` terminates with exactly the list order. */
  method CollectIndices<T>(list: LRUList<T>) returns (slots: seq<nat>)
    requires list.Valid()
    ensures slots == list.view.order
  {
    slots := [];
    var it := new IndexIterator(list);
    var slot := it.Next();
    while slot.Some?
      invariant it.Valid() && fresh(it)
      invariant slot.Some? ==> it.yielded == |slots| + 1 && slot.value == it.order[|slots|]
      invariant slot.None? ==> it.yielded == |slots| == |it.order|
      invariant |slots| <= |it.order| && slots == it.order[..|slots|]
      decreases |it.order| - |slots|
    {
      assert it.order[..|slots| + 1] == it.order[..|slots|] + [slot.value];
      slots := slots + [slot.value];
      slot := it.Next();
    }
  }

  /** Exhausting `iter` terminates with the values of those slots, one for one. */
  method CollectValues<T>(list: LRUList<T>) returns (vals: seq<T>)
    requires list.Valid()
    ensures vals == InOrder(list.view)
  {
    vals := [];
    var it := new ValueIterator(list);
    var value := it.Next();
    while value.Some?
      invariant it.Valid() && fresh(it)
      invariant value.Some? ==> it.yielded == |vals| + 1 && value.value == it.walk[|vals|]
      invariant value.None? ==> it.yielded == |vals| == |it.walk|
      invariant |vals| <= |it.walk| && vals == it.walk[..|vals|]
      decreases |it.walk| - |vals|
    {
      assert it.walk[..|vals| + 1] == it.walk[..|vals|] + [value.value];
      vals := vals + [value.value];
      value := it.Next();
    }
  }

  /** One operation, by the method that implements it. */
  method Perform<T>(list: LRUList<T>, op: M.Op<T>)
    requires list.Valid() && M.Allowed(list.view, op)
    modifies list
    ensures list.Valid() && list.view == M.Apply(old(list.view), op)
  {
    match op
    case PushFront(v) => var _ := list.PushFront(v);
    case MoveToFront(i) => var _ := list.MoveToFront(i);
    case Remove(i) => var _ := list.Remove(i);
    case Set(i, v) => var _ := list.Set(i, v);
    case Clear => list.Clear();
  }

  /**
   A new list after any sequence of operations: it means what the model says, its vector is
   as long as the peak number of entries required, and its back is the slot touched least
   recently.
   */
  method Replay<T>(ops: seq<M.Op<T>>) returns (list: LRUList<T>, back: nat)
    requires M.Run(ops).Some?
    ensures fresh(list) && list.Valid() && Some(list.view) == M.Run(ops)
    ensures |list.values| == 2 + M.Peak(ops)
    ensures list.view.order == [] <==> back == M.OCCUPIED
    ensures list.view.order != [] ==> back in list.view.order && forall i :: i in list.view.order && i != back ==>
      back in M.Touched(ops) && i in M.Touched(ops) && M.Touched(ops)[back] < M.Touched(ops)[i]
  {
    list := new LRUList();
    assert ops[..0] == [];
    for n := 0 to |ops|
      invariant fresh(list) && list.Valid() && M.Run(ops[..n]) == Some(list.view)
    {
      M.RunPrefix(ops, n);
      Perform(list, ops[n]);
    }
    assert ops[..|ops|] == ops;
    M.SlabBound(ops);
    back := list.Back();
    assert list.view.order != [] ==> back in list.view.order && 2 <= back;
    forall i | i in list.view.order && i != back
      ensures back in M.Touched(ops) && i in M.Touched(ops) && M.Touched(ops)[back] < M.Touched(ops)[i]
    {
      M.BackIsLeastRecent(ops, i);
    }
  }

  /** After any sequence of operations, reading a slot gives the value it was last given, or
      panics if it was never given one or has been freed since. */
  method ReplayGet<T>(ops: seq<M.Op<T>>, i: nat) returns (r: Outcome<T>)
    requires M.Run(ops).Some?
    ensures r == match M.LastGiven(ops, i) case Some(v) => Returned(v) case None => Panicked
  {
    var list, _ := Replay(ops);
    M.ValuesAreLastGiven(ops, i);
    r := list.Get(i);
  }

  /**
   The removal pass of a sweep over collected slots: no slot is ever found vacant, and what
   is left is the list without the chosen slots, every survivor in its slot and its place.
   */
  method Sweep<T>(list: LRUList<T>, slots: seq<nat>) returns (removed: seq<T>)
    requires list.Valid() && NoDup(slots) && forall i :: i in slots ==> i in list.view.order
    modifies list
    ensures list.Valid()
    ensures list.view.order == M.Without(old(list.view.order), M.Elems(slots))
    ensures list.view.vals == old(list.view.vals) - M.Elems(slots)
    ensures removed == M.Picked(old(list.view), slots)
  {
    ghost var s := list.view;
    SlabWellFormed(list.values, s);
    ghost var picked := M.Picked(s, slots);
    M.SweepStart(s, slots);
    removed := [];
    for k := 0 to |slots|
      invariant list.Valid() && M.SweptSoFar(s, list.view, slots, k)
      invariant removed == picked[..k]
    {
      var r := SweepOne(list, slots, k, s);
      assert picked[..k + 1] == picked[..k] + [picked[k]];
      removed := removed + [r];
    }
    M.SweepEnd(s, list.view, slots);
  }

  /** One removal of a sweep that began at `s`. */
  method SweepOne<T>(list: LRUList<T>, slots: seq<nat>, k: nat, ghost s: M.Slab<T>) returns (r: T)
    requires list.Valid() && NoDup(slots) && k < |slots|
    requires M.WellFormed(s) && forall i :: i in slots ==> i in s.order
    requires M.SweptSoFar(s, list.view, slots, k)
    modifies list
    ensures list.Valid() && M.SweptSoFar(s, list.view, slots, k + 1)
    ensures r == M.Picked(s, slots)[k]
  {
    SlabWellFormed(list.values, list.view);
    M.SweepNext(s, list.view, slots, k);
    var taken := list.Remove(slots[k]);
    r := taken.value;
  }

  lemma SlabWellFormed<T>(cells: seq<Cell<T>>, s: M.Slab<T>)
    requires Means(cells, s)
    ensures M.WellFormed(s)
  {
  }
}
