/**
 * Drag-and-drop reordering shared by the album list, the album's photo list and the
 * portfolio image list: remove the dragged entry at its index, insert it at the target's
 * index in the shortened list, then write `order_index = position` for every entry.
 */
module Reorder {
  import opened Wrappers

  /** `splice(i, 1)`: the list without its entry at `i`. */
  function RemoveAt<T>(s: seq<T>, i: nat): (r: seq<T>)
    requires i < |s|
    ensures |r| == |s| - 1
  {
    s[..i] + s[i + 1..]
  }

  /** `splice(i, 0, x)`: the list with `x` inserted before position `i`. */
  function InsertAt<T>(s: seq<T>, i: nat, x: T): (r: seq<T>)
    requires i <= |s|
    ensures |r| == |s| + 1
  {
    s[..i] + [x] + s[i..]
  }

  /**
   * The two splices. The result is a permutation of the input, the moved entry sits at
   * `to`, and removing it from the result gives the input without it: every other entry
   * keeps its relative order.
   */
  function Move<T>(s: seq<T>, from: nat, to: nat): (r: seq<T>)
    requires from < |s| && to < |s|
    ensures |r| == |s|
    ensures r[to] == s[from]
    ensures RemoveAt(r, to) == RemoveAt(s, from)
    ensures multiset(r) == multiset(s)
  {
    var rest := RemoveAt(s, from);
    var r := InsertAt(rest, to, s[from]);
    assert r[..to] == rest[..to] && r[to + 1..] == rest[to..];
    assert rest[..to] + rest[to..] == rest;
    assert s == s[..from] + [s[from]] + s[from + 1..];
    assert r == rest[..to] + [s[from]] + rest[to..];
    assert multiset(r) == multiset(rest[..to]) + multiset([s[from]]) + multiset(rest[to..]);
    assert multiset(rest) == multiset(rest[..to]) + multiset(rest[to..]);
    assert multiset(rest) == multiset(s[..from]) + multiset(s[from + 1..]);
    assert multiset(s) == multiset(s[..from]) + multiset([s[from]]) + multiset(s[from + 1..]);
    assert multiset(r) == multiset(rest) + multiset([s[from]]);
    assert multiset(s) == multiset(rest) + multiset([s[from]]);
    r
  }

  /** Where each position of the result comes from. */
  lemma MoveAt<T>(s: seq<T>, from: nat, to: nat, k: nat)
    requires from < |s| && to < |s| && k < |s|
    ensures Move(s, from, to)[k] ==
      if k == to then s[from]
      else if from <= k < to then s[k + 1]
      else if to < k <= from then s[k - 1]
      else s[k]
  {
    var r := Move(s, from, to);
    var rest := RemoveAt(s, from);
    if k < to {
      assert r[k] == RemoveAt(r, to)[k] == rest[k];
    } else if k > to {
      assert r[k] == RemoveAt(r, to)[k - 1] == rest[k - 1];
    }
  }

  /** Mapping commutes with the move. */
  lemma {:induction false} MoveMap<T, U>(s: seq<T>, f: T -> U, from: nat, to: nat)
    requires from < |s| && to < |s|
    ensures Map(Move(s, from, to), f) == Move(Map(s, f), from, to)
  {
    var l := Map(Move(s, from, to), f);
    var r := Move(Map(s, f), from, to);
    forall k | 0 <= k < |s| ensures l[k] == r[k] {
      MoveAt(s, from, to, k);
      MoveAt(Map(s, f), from, to, k);
    }
  }

  function Map<T, U>(s: seq<T>, f: T -> U): (r: seq<U>)
    ensures |r| == |s| && forall i :: 0 <= i < |s| ==> r[i] == f(s[i])
  {
    seq(|s|, i requires 0 <= i < |s| => f(s[i]))
  }

  /** `findIndex(x => key(x) == id)`: the first entry with that id. */
  function FindIndex<T>(s: seq<T>, key: T -> string, id: string): (r: Option<nat>)
    ensures r.Some? ==> r.value < |s| && key(s[r.value]) == id
    ensures r.Some? ==> forall j :: 0 <= j < r.value ==> key(s[j]) != id
    ensures r.None? ==> forall j :: 0 <= j < |s| ==> key(s[j]) != id
  {
    if s == [] then None
    else if key(s[0]) == id then Some(0)
    else
      match FindIndex(s[1..], key, id)
      case None => None
      case Some(j) => Some(j + 1)
  }

  /** One `update({ order_index })` sent for the entry with this id. */
  datatype OrderWrite = OrderWrite(id: string, orderIndex: nat)

  /** The index writes for a list: every entry gets its position. */
  function OrderWrites<T>(s: seq<T>, key: T -> string): (w: seq<OrderWrite>)
    ensures |w| == |s|
    ensures forall i :: 0 <= i < |s| ==> w[i].id == key(s[i]) && w[i].orderIndex == i
  {
    seq(|s|, i requires 0 <= i < |s| => OrderWrite(key(s[i]), i))
  }

  /** The result of a drop: only the drag id is cleared; nothing at all; or a new order. */
  datatype DropOutcome<T> = ClearDragOnly | Ignored | Reordered(list: seq<T>, writes: seq<OrderWrite>)

  /** No drag in progress (or an empty id), or a drop onto the dragged entry itself. */
  predicate NoMove(dragged: Option<string>, target: string) {
    dragged.None? || dragged.value == "" || dragged.value == target
  }

  /**
   * A drop of the dragged entry onto the entry `target`. Without a drag, or onto
   * itself, only the drag id is cleared; an id missing from the list changes nothing;
   * otherwise the dragged entry is moved to the target's index and the list is re-indexed.
   */
  function Drop<T>(s: seq<T>, key: T -> string, dragged: Option<string>, target: string): (r: DropOutcome<T>)
    ensures r.ClearDragOnly? <==> NoMove(dragged, target)
    ensures r.Ignored? <==>
      (!NoMove(dragged, target) &&
       (FindIndex(s, key, dragged.value).None? || FindIndex(s, key, target).None?))
    ensures r.Reordered? ==>
      var from := FindIndex(s, key, dragged.value).value;
      var to := FindIndex(s, key, target).value;
      && |r.list| == |s|
      && multiset(r.list) == multiset(s)
      && r.list[to] == s[from]
      && key(r.list[to]) == dragged.value
      && RemoveAt(r.list, to) == RemoveAt(s, from)
      && r.writes == OrderWrites(r.list, key)
  {
    if NoMove(dragged, target) then ClearDragOnly
    else
      match (FindIndex(s, key, dragged.value), FindIndex(s, key, target))
      case (Some(from), Some(to)) =>
        var list := Move(s, from, to);
        Reordered(list, OrderWrites(list, key))
      case _ => Ignored
  }

  /**
   * After a reorder the written indices are exactly `0..n-1`, one per entry, and the ids
   * written are the list's ids, each as often as before the move.
   */
  lemma {:induction false} ReorderWritesDense<T>(s: seq<T>, key: T -> string, dragged: Option<string>, target: string)
    requires Drop(s, key, dragged, target).Reordered?
    ensures var w := Drop(s, key, dragged, target).writes;
      && |w| == |s|
      && (forall i :: 0 <= i < |w| ==> w[i].orderIndex == i)
      && multiset(Map(w, (x: OrderWrite) => x.id)) == multiset(Map(s, key))
  {
    var from := FindIndex(s, key, dragged.value).value;
    var to := FindIndex(s, key, target).value;
    var list := Move(s, from, to);
    var w := OrderWrites(list, key);
    assert Map(w, (x: OrderWrite) => x.id) == Map(list, key);
    MoveMap(s, key, from, to);
  }
}
