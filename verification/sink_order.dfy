/**
 * Enumerations of a sink set.
 *
 * A `std::set<device_net*>` is iterated in ascending pointer order. Handles
 * stand for addresses, so that is ascending handle order, which `Enumerate`
 * produces. Operations that walk a sink set nonetheless take the iteration
 * order as an argument and only require it to be SOME enumeration of the set
 * (every element exactly once), so their properties hold for any order.
 */
module SinkOrder {

  /** `order` lists every element of `s` exactly once and nothing else. */
  predicate IsEnumeration(order: seq<nat>, s: set<nat>)
  {
    && (forall i :: 0 <= i < |order| ==> order[i] in s)
    && (forall x :: x in s ==> x in order)
    && (forall i, j :: 0 <= i < j < |order| ==> order[i] != order[j])
  }

  /** `m` is the least element of `s`. */
  predicate IsLeast(m: nat, s: set<nat>)
  {
    m in s && forall y :: y in s ==> m <= y
  }

  lemma {:induction false} MinExists(s: set<nat>)
    requires s != {}
    ensures exists m :: IsLeast(m, s)
  {
    var x :| x in s;
    if s == {x} {
      assert IsLeast(x, s);
    } else {
      var t := s - {x};
      MinExists(t);
      var m :| IsLeast(m, t);
      var least := if x < m then x else m;
      forall y | y in s
        ensures least <= y
      {
        if y != x {
          assert y in t;
        }
      }
      assert IsLeast(least, s);
    }
  }

  /** The least element of a non-empty set. */
  function Min(s: set<nat>): (m: nat)
    requires s != {}
    ensures IsLeast(m, s)
  {
    MinExists(s);
    var m :| IsLeast(m, s);
    m
  }

  /** Strictly ascending. */
  predicate Ascending(order: seq<nat>)
  {
    forall i, j :: 0 <= i < j < |order| ==> order[i] < order[j]
  }

  /** Putting the least element in front of an ascending walk of the rest walks the whole set. */
  lemma LeastInFront(m: nat, s: set<nat>, rest: seq<nat>)
    requires IsLeast(m, s)
    requires IsEnumeration(rest, s - {m}) && Ascending(rest)
    ensures IsEnumeration([m] + rest, s) && Ascending([m] + rest)
  {
  }

  /** The elements of `s` in ascending order: one possible iteration order. */
  function Enumerate(s: set<nat>): (order: seq<nat>)
    ensures IsEnumeration(order, s)
    ensures Ascending(order)
    decreases |s|
  {
    if s == {} then []
    else
      var m := Min(s);
      var rest := Enumerate(s - {m});
      LeastInFront(m, s, rest);
      [m] + rest
  }

  /** Removing the first element of an enumeration enumerates the rest of the set. */
  lemma DropFirst(order: seq<nat>, s: set<nat>)
    requires IsEnumeration(order, s)
    requires |order| > 0
    ensures IsEnumeration(order[1..], s - {order[0]})
  {
  }

  /** Removing position `k` of an enumeration enumerates the rest of the set. */
  lemma DropAt(order: seq<nat>, s: set<nat>, k: nat)
    requires IsEnumeration(order, s)
    requires k < |order|
    ensures IsEnumeration(order[..k] + order[k + 1..], s - {order[k]})
  {
  }

  /** Two enumerations of the same set have the same length: the set's size. */
  lemma {:induction false} EnumerationLength(order: seq<nat>, s: set<nat>)
    requires IsEnumeration(order, s)
    ensures |order| == |s|
    decreases |order|
  {
    if |order| > 0 {
      DropFirst(order, s);
      EnumerationLength(order[1..], s - {order[0]});
    } else {
      assert forall x :: x in s ==> false;
      assert s == {};
    }
  }
}
