/**
 What `LRUList` means, free of links: the occupied slots in recency order, the vacant
 slots in reuse order, and the value in each occupied slot. The operations are functions
 on that meaning, and the theorems are about every sequence of operations.
 */
module LruModel {
  import opened Basics

  /** The sentinel cells of the free ring and of the occupied ring. */
  const FREE: nat := 0
  const OCCUPIED: nat := 1

  /** `order` runs from most to least recently used; `vacant` is the reuse order. */
  datatype Slab<T> = Slab(order: seq<nat>, vacant: seq<nat>, vals: map<nat, T>)

  datatype Op<T> =
    | PushFront(value: T)
    | MoveToFront(slot: nat)
    | Remove(slot: nat)
    | Set(slot: nat, value: T)
    | Clear

  /** Slots are numbered from 2 without gaps, and each is occupied or vacant, never both. */
  ghost predicate WellFormed<T>(s: Slab<T>) {
    && NoDup(s.order) && NoDup(s.vacant)
    && (forall i :: i in s.order ==> i !in s.vacant)
    && (forall i :: i in s.order || i in s.vacant <==> 2 <= i < 2 + |s.order| + |s.vacant|)
    && (forall i :: i in s.vals <==> i in s.order)
  }

  /** The slot `push_front` will return. */
  function NextSlot<T>(s: Slab<T>): nat {
    if s.vacant == [] then 2 + |s.order| else s.vacant[0]
  }

  /** An operation that names a slot names an occupied one. */
  predicate Allowed<T>(s: Slab<T>, op: Op<T>) {
    match op
    case MoveToFront(i) => i in s.order
    case Remove(i) => i in s.order
    case Set(i, _) => i in s.order
    case _ => true
  }

  function Apply<T>(s: Slab<T>, op: Op<T>): Slab<T>
    requires Allowed(s, op)
  {
    match op
    case PushFront(v) =>
      var i := NextSlot(s);
      Slab([i] + s.order, if s.vacant == [] then [] else s.vacant[1..], s.vals[i := v])
    case MoveToFront(i) =>
      s.(order := [i] + Cut(s.order, IndexOf(s.order, i)))
    case Remove(i) =>
      Slab(Cut(s.order, IndexOf(s.order, i)), [i] + s.vacant, s.vals - {i})
    case Set(i, v) =>
      s.(vals := s.vals[i := v])
    case Clear =>
      Slab([], [], map[])
  }

  /** The list after `ops` from `s`, or `None` if some operation was not allowed. */
  function RunFrom<T>(s: Slab<T>, ops: seq<Op<T>>): Option<Slab<T>> {
    if ops == [] then Some(s)
    else
      match RunFrom(s, Before(ops))
      case None => None
      case Some(r) => if Allowed(r, Last(ops)) then Some(Apply(r, Last(ops))) else None
  }

  /** The list after `ops` on a fresh list. */
  function Run<T>(ops: seq<Op<T>>): Option<Slab<T>> {
    RunFrom(Slab([], [], map[]), ops)
  }

  function Last<T>(s: seq<T>): T
    requires s != []
  {
    s[|s| - 1]
  }

  function Before<T>(s: seq<T>): seq<T>
    requires s != []
  {
    s[..|s| - 1]
  }

  /** Every allowed operation keeps the slots an exact partition. */
  lemma ApplyWellFormed<T>(s: Slab<T>, op: Op<T>)
    requires WellFormed(s) && Allowed(s, op)
    ensures WellFormed(Apply(s, op))
  {
    match op
    case PushFront(v) => PushWellFormed(s, v);
    case MoveToFront(i) => MoveWellFormed(s, i);
    case Remove(i) => RemoveWellFormed(s, i);
    case Set(i, v) =>
    case Clear =>
  }

  lemma {:induction false} PushWellFormed<T>(s: Slab<T>, v: T)
    requires WellFormed(s)
    ensures WellFormed(Apply(s, PushFront(v)))
  {
    PrependMembers(NextSlot(s), s.order);
    if s.vacant != [] {
      assert s.vacant == [s.vacant[0]] + s.vacant[1..];
    }
  }

  lemma {:induction false} MoveWellFormed<T>(s: Slab<T>, i: nat)
    requires WellFormed(s) && i in s.order
    ensures WellFormed(Apply(s, MoveToFront(i)))
  {
    CutMembers(s.order, i);
    PrependMembers(i, Cut(s.order, IndexOf(s.order, i)));
  }

  lemma {:induction false} RemoveWellFormed<T>(s: Slab<T>, i: nat)
    requires WellFormed(s) && i in s.order
    ensures WellFormed(Apply(s, Remove(i)))
  {
    CutMembers(s.order, i);
    PrependMembers(i, s.vacant);
  }

  lemma {:induction false} RunWellFormed<T>(s: Slab<T>, ops: seq<Op<T>>)
    requires WellFormed(s) && RunFrom(s, ops).Some?
    ensures WellFormed(RunFrom(s, ops).value)
  {
    if ops != [] {
      RunWellFormed(s, Before(ops));
      ApplyWellFormed(RunFrom(s, Before(ops)).value, Last(ops));
    }
  }

  /** A run that is allowed was allowed at every point. */
  lemma {:induction false} RunPrefix<T>(ops: seq<Op<T>>, n: nat)
    requires Run(ops).Some? && n < |ops|
    ensures Run(ops[..n]).Some? && Allowed(Run(ops[..n]).value, ops[n])
    ensures Run(ops[..n + 1]) == Some(Apply(Run(ops[..n]).value, ops[n]))
  {
    if n < |ops| - 1 {
      RunPrefix(Before(ops), n);
      assert Before(ops)[..n] == ops[..n] && Before(ops)[..n + 1] == ops[..n + 1];
    } else {
      assert ops[..n + 1] == ops;
    }
  }

  // ---- True recency and reuse order -------------------------------------------------

  /** The slot an operation touches: the one it pushes to, or the one it moves. */
  function Touches<T>(s: Slab<T>, op: Op<T>): Option<nat> {
    match op
    case PushFront(_) => Some(NextSlot(s))
    case MoveToFront(i) => Some(i)
    case _ => None
  }

  /** For each slot, the time (position in `ops`) at which it was last pushed or moved. */
  function Touched<T>(ops: seq<Op<T>>): map<nat, nat> {
    if ops == [] then map[]
    else
      match Run(Before(ops))
      case None => map[]
      case Some(s) =>
        match Touches(s, Last(ops))
        case Some(i) => Touched(Before(ops))[i := |ops| - 1]
        case None => Touched(Before(ops))
  }

  /** For each slot, the time at which it was last removed. */
  function Freed<T>(ops: seq<Op<T>>): map<nat, nat> {
    if ops == [] then map[]
    else if Last(ops).Remove? then Freed(Before(ops))[Last(ops).slot := |ops| - 1]
    else Freed(Before(ops))
  }

  /** The slots in `s` have times before `now`, strictly decreasing along `s`. */
  ghost predicate NewestFirst(s: seq<nat>, times: map<nat, nat>, now: nat) {
    && (forall a :: 0 <= a < |s| ==> s[a] in times && times[s[a]] < now)
    && (forall a, b :: 0 <= a < b < |s| ==> times[s[a]] > times[s[b]])
  }

  lemma NewestFirstPrepend(i: nat, s: seq<nat>, times: map<nat, nat>, now: nat)
    requires NewestFirst(s, times, now) && i !in s
    ensures NewestFirst([i] + s, times[i := now], now + 1)
  {
    var r := [i] + s;
    assert forall a :: 0 < a < |r| ==> r[a] == s[a - 1] && r[a] in s;
  }

  lemma NewestFirstCut(s: seq<nat>, p: nat, times: map<nat, nat>, now: nat)
    requires NewestFirst(s, times, now) && p < |s|
    ensures NewestFirst(Cut(s, p), times, now)
  {
  }

  /**
   True recency: after every run the list is strictly ordered by time of last touch, so
   its last element, which `back` returns, is the least recently touched entry.
   */
  lemma {:induction false} Recency<T>(ops: seq<Op<T>>)
    requires Run(ops).Some?
    ensures NewestFirst(Run(ops).value.order, Touched(ops), |ops|)
  {
    if ops != [] {
      Recency(Before(ops));
      RunWellFormed(Slab([], [], map[]), Before(ops));
      RecencyStep(Run(Before(ops)).value, Last(ops), Touched(Before(ops)), |ops| - 1);
    }
  }

  /** An operation at time `now` keeps the list ordered by time of last touch. */
  lemma RecencyStep<T>(s: Slab<T>, op: Op<T>, times: map<nat, nat>, now: nat)
    requires WellFormed(s) && Allowed(s, op) && NewestFirst(s.order, times, now)
    ensures NewestFirst(Apply(s, op).order,
                        match Touches(s, op) case Some(i) => times[i := now] case None => times,
                        now + 1)
  {
    match op
    case PushFront(_) => NewestFirstPrepend(NextSlot(s), s.order, times, now);
    case MoveToFront(i) =>
      CutMembers(s.order, i);
      NewestFirstCut(s.order, IndexOf(s.order, i), times, now);
      NewestFirstPrepend(i, Cut(s.order, IndexOf(s.order, i)), times, now);
    case Remove(i) => NewestFirstCut(s.order, IndexOf(s.order, i), times, now);
    case _ =>
  }

  /** The back of a non-empty list was touched strictly before every other entry. */
  lemma BackIsLeastRecent<T>(ops: seq<Op<T>>, i: nat)
    requires Run(ops).Some? && i in Run(ops).value.order
    requires i != Last(Run(ops).value.order)
    ensures var back := Last(Run(ops).value.order);
      back in Touched(ops) && i in Touched(ops) && Touched(ops)[back] < Touched(ops)[i]
  {
    Recency(ops);
    var order := Run(ops).value.order;
    var a :| 0 <= a < |order| && order[a] == i;
  }

  /** Vacant slots are kept latest-freed first. */
  lemma {:induction false} ReuseOrder<T>(ops: seq<Op<T>>)
    requires Run(ops).Some?
    ensures NewestFirst(Run(ops).value.vacant, Freed(ops), |ops|)
  {
    if ops != [] {
      ReuseOrder(Before(ops));
      RunWellFormed(Slab([], [], map[]), Before(ops));
      var s := Run(Before(ops)).value;
      match Last(ops)
      case Remove(i) => NewestFirstPrepend(i, s.vacant, Freed(Before(ops)), |ops| - 1);
      case _ =>
    }
  }

  /** The slot a push reuses was freed after every other vacant slot. */
  lemma PushReusesLastFreed<T>(ops: seq<Op<T>>, i: nat)
    requires Run(ops).Some? && i in Run(ops).value.vacant
    ensures var next := NextSlot(Run(ops).value);
      && next in Run(ops).value.vacant && next in Freed(ops) && i in Freed(ops)
      && (i != next ==> Freed(ops)[i] < Freed(ops)[next])
  {
    ReuseOrder(ops);
    var vacant := Run(ops).value.vacant;
    var a :| 0 <= a < |vacant| && vacant[a] == i;
  }

  // ---- Values -------------------------------------------------------------------------

  /** The value last given to slot `i`, by the push that got the slot or by a later `set`
      naming it, unless the slot was freed since. */
  function LastGiven<T>(ops: seq<Op<T>>, i: nat): Option<T> {
    if ops == [] then None
    else
      match Run(Before(ops))
      case None => None
      case Some(s) =>
        var earlier := LastGiven(Before(ops), i);
        match Last(ops)
        case PushFront(v) => if NextSlot(s) == i then Some(v) else earlier
        case Set(j, v) => if j == i then Some(v) else earlier
        case Remove(j) => if j == i then None else earlier
        case Clear => None
        case MoveToFront(_) => earlier
  }

  /** After every run the occupied slots are those given a value and not freed since, and each
      holds the value it was last given. */
  lemma {:induction false} ValuesAreLastGiven<T>(ops: seq<Op<T>>, i: nat)
    requires Run(ops).Some?
    ensures var s := Run(ops).value;
      && (i in s.order <==> LastGiven(ops, i).Some?)
      && (i in s.order ==> i in s.vals && LastGiven(ops, i) == Some(s.vals[i]))
  {
    if ops != [] {
      var s := Run(Before(ops)).value;
      ValuesAreLastGiven(Before(ops), i);
      RunWellFormed(Slab([], [], map[]), Before(ops));
      match Last(ops)
      case PushFront(_) => PrependMembers(NextSlot(s), s.order);
      case MoveToFront(j) =>
        CutMembers(s.order, j);
        assert i in Apply(s, Last(ops)).order <==> i in s.order;
      case Remove(j) => CutMembers(s.order, j);
      case _ =>
    }
  }

  // ---- Slab bound -------------------------------------------------------------------

  /** The largest number of entries live at once since the last `clear` or drain. */
  function Peak<T>(ops: seq<Op<T>>): int {
    if ops == [] || Last(ops).Clear? then 0
    else
      match Run(ops)
      case None => 0
      case Some(s) => var p := Peak(Before(ops)); if p < |s.order| then |s.order| else p
  }

  /** The slab never holds more cells than were needed at the peak, nor fewer. */
  lemma {:induction false} SlabBound<T>(ops: seq<Op<T>>)
    requires Run(ops).Some?
    ensures |Run(ops).value.order| + |Run(ops).value.vacant| == Peak(ops)
  {
    if ops != [] {
      SlabBound(Before(ops));
    }
  }

  // ---- Sweeping by collected slots ----------------------------------------------------

  /** `s` without the elements in `drop`, in the original order. */
  function Without(s: seq<nat>, drop: set<nat>): seq<nat> {
    if s == [] then []
    else if s[0] in drop then Without(s[1..], drop)
    else [s[0]] + Without(s[1..], drop)
  }

  function Elems(s: seq<nat>): set<nat> {
    set i | i in s
  }

  function Removals<T>(slots: seq<nat>): (ops: seq<Op<T>>)
    ensures |ops| == |slots| && forall j :: 0 <= j < |ops| ==> ops[j] == Remove(slots[j])
  {
    seq(|slots|, j requires 0 <= j < |slots| => Remove(slots[j]))
  }

  /**
   Replaying collected slots: removing any duplicate-free choice of occupied slots, in any
   order, meets an occupied slot every time, leaves every other value in its slot, and
   leaves exactly the slots not chosen, in their original order.
   */
  lemma SweepBySlots<T>(s: Slab<T>, slots: seq<nat>)
    requires WellFormed(s) && NoDup(slots) && forall i :: i in slots ==> i in s.order
    ensures RunFrom(s, Removals(slots)).Some?
    ensures var r := RunFrom(s, Removals(slots)).value;
      r.order == Without(s.order, Elems(slots)) && r.vals == s.vals - Elems(slots)
  {
    SweepRun(s, slots, |slots|);
    assert slots[..|slots|] == slots;
    SweepEnd(s, RunFrom(s, Removals(slots)).value, slots);
  }

  lemma {:induction false} SweepRun<T>(s: Slab<T>, slots: seq<nat>, k: nat)
    requires WellFormed(s) && NoDup(slots) && k <= |slots|
    requires forall i :: i in slots ==> i in s.order
    ensures var r := RunFrom(s, Removals(slots[..k]));
      r.Some? && WellFormed(r.value) && SweptSoFar(s, r.value, slots, k)
  {
    if k == 0 {
      SweepStart(s, slots);
    } else {
      SweepRun(s, slots, k - 1);
      var mid := RunFrom(s, Removals(slots[..k - 1])).value;
      SweepNext(s, mid, slots, k - 1);
      ApplyWellFormed(mid, Remove(slots[k - 1]));
      RunRemovals(s, slots, k);
    }
  }

  lemma SweepStart<T>(s: Slab<T>, slots: seq<nat>)
    ensures SweptSoFar(s, s, slots, 0)
  {
    WithoutNothing(s.order);
    assert Elems(slots[..0]) == {};
  }

  lemma SweepEnd<T>(s: Slab<T>, r: Slab<T>, slots: seq<nat>)
    requires SweptSoFar(s, r, slots, |slots|)
    ensures r.order == Without(s.order, Elems(slots)) && r.vals == s.vals - Elems(slots)
  {
    assert slots[..|slots|] == slots;
  }

  /** The `k`th removal comes after the ones before it. */
  lemma RunRemovals<T>(s: Slab<T>, slots: seq<nat>, k: nat)
    requires 0 < k <= |slots| && RunFrom(s, Removals(slots[..k - 1])).Some?
    requires slots[k - 1] in RunFrom(s, Removals(slots[..k - 1])).value.order
    ensures RunFrom(s, Removals(slots[..k]))
         == Some(Apply(RunFrom(s, Removals(slots[..k - 1])).value, Remove(slots[k - 1])))
  {
    var all := Removals<T>(slots[..k]);
    assert Before(all) == Removals<T>(slots[..k - 1]);
    assert Last(all) == Remove(slots[k - 1]);
  }

  /** The values in `slots`, which are all occupied. */
  ghost function Picked<T>(s: Slab<T>, slots: seq<nat>): (r: seq<T>)
    requires WellFormed(s) && forall i :: i in slots ==> i in s.order
    ensures |r| == |slots| && forall j :: 0 <= j < |r| ==> r[j] == s.vals[slots[j]]
  {
    seq(|slots|, j requires 0 <= j < |slots| => s.vals[slots[j]])
  }

  /** How far a sweep over `slots` has come after `k` removals. */
  ghost predicate SweptSoFar<T>(s: Slab<T>, mid: Slab<T>, slots: seq<nat>, k: nat)
    requires k <= |slots|
  {
    mid.order == Without(s.order, Elems(slots[..k])) && mid.vals == s.vals - Elems(slots[..k])
  }

  /** In the middle of a sweep the next chosen slot is still occupied, its value untouched. */
  lemma SweepNext<T>(s: Slab<T>, mid: Slab<T>, slots: seq<nat>, k: nat)
    requires WellFormed(s) && WellFormed(mid) && NoDup(slots) && k < |slots| && slots[k] in s.order
    requires SweptSoFar(s, mid, slots, k)
    ensures slots[k] in mid.order && SweptSoFar(s, Apply(mid, Remove(slots[k])), slots, k + 1)
    ensures slots[k] in mid.vals && mid.vals[slots[k]] == s.vals[slots[k]]
  {
    var gone := Elems(slots[..k]);
    assert slots[k] !in gone;
    assert Elems(slots[..k + 1]) == gone + {slots[k]};
    WithoutMembers(s.order, gone);
    SweepStep(s, mid, gone, slots[k]);
  }

  lemma SweepStep<T>(s: Slab<T>, mid: Slab<T>, gone: set<nat>, i: nat)
    requires WellFormed(mid) && i in mid.order
    requires mid.order == Without(s.order, gone) && mid.vals == s.vals - gone
    ensures var r := Apply(mid, Remove(i));
      r.order == Without(s.order, gone + {i}) && r.vals == s.vals - (gone + {i})
  {
    WithoutCut(s.order, gone, i);
  }

  lemma {:induction false} WithoutNothing(s: seq<nat>)
    ensures Without(s, {}) == s
  {
    if s != [] {
      WithoutNothing(s[1..]);
    }
  }

  lemma {:induction false} WithoutMembers(s: seq<nat>, drop: set<nat>)
    ensures forall i :: i in Without(s, drop) <==> i in s && i !in drop
  {
    if s != [] {
      WithoutMembers(s[1..], drop);
      assert s == [s[0]] + s[1..];
    }
  }

  /** Cutting one more slot out of a filtered list is filtering by one more slot. */
  lemma {:induction false} WithoutCut(s: seq<nat>, drop: set<nat>, i: nat)
    requires i in Without(s, drop) && NoDup(Without(s, drop))
    ensures Cut(Without(s, drop), IndexOf(Without(s, drop), i)) == Without(s, drop + {i})
  {
    if s[0] in drop {
      WithoutCut(s[1..], drop, i);
    } else {
      var rest := Without(s[1..], drop);
      ConsNoDup(s[0], rest);
      CutCons(s[0], rest, i);
      if s[0] == i {
        WithoutAbsent(s[1..], drop, i);
      } else {
        WithoutCut(s[1..], drop, i);
      }
    }
  }

  lemma ConsNoDup(x: nat, rest: seq<nat>)
    requires NoDup([x] + rest)
    ensures NoDup(rest) && x !in rest
  {
    var w := [x] + rest;
    assert forall a :: 0 <= a < |rest| ==> rest[a] == w[a + 1];
    assert forall a :: 0 < a < |w| ==> w[0] != w[a];
  }

  lemma {:induction false} CutCons(x: nat, rest: seq<nat>, i: nat)
    requires x !in rest && i in [x] + rest
    ensures i == x <==> i !in rest
    ensures Cut([x] + rest, IndexOf([x] + rest, i))
         == if i == x then rest else [x] + Cut(rest, IndexOf(rest, i))
  {
    var w := [x] + rest;
    assert w[1..] == rest;
    if i == x {
      assert IndexOf(w, i) == 0;
    } else {
      var p := IndexOf(rest, i);
      assert IndexOf(w, i) == p + 1;
      CutPrepend(x, rest, p);
    }
  }

  lemma {:induction false} CutPrepend(x: nat, rest: seq<nat>, p: nat)
    requires p < |rest|
    ensures Cut([x] + rest, p + 1) == [x] + Cut(rest, p)
  {
  }

  lemma {:induction false} WithoutAbsent(s: seq<nat>, drop: set<nat>, i: nat)
    requires i !in Without(s, drop)
    ensures Without(s, drop + {i}) == Without(s, drop)
  {
    if s != [] {
      assert s[0] !in drop ==> Without(s, drop)[0] == s[0];
      assert forall j :: j in Without(s[1..], drop) ==> j in Without(s, drop);
      WithoutAbsent(s[1..], drop, i);
    }
  }
}
