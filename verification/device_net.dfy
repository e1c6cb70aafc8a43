/**
 * The `device_net` connectivity record: one node of a signal graph.
 *
 * A net carries a net name, a signal name, one non-owning source pointer
 * and a set of non-owning sink pointers. Pointers are modelled as handles
 * (`NetId`); a possibly-null pointer is an `Option<NetId>`. The accessors
 * `get_net_name`, `get_signal_name`, `get_source` and `get_sink_set` are the
 * datatype's fields `name`, `signal`, `source` and `sinks`.
 */
module DeviceNet {
  import opened Wrappers
  import opened SinkOrder

  /** The address of a net object. There is no null handle. */
  type NetId = nat

  datatype Net = Net(
    name: string,
    signal: string,
    source: Option<NetId>,
    sinks: set<NetId>)

  /**
   * The two-argument constructor. The source member is never initialised, so
   * the caller supplies the value it happens to hold as `indeterminate`; the
   * contract promises nothing about it.
   */
  function Create(name: string, signal: string, indeterminate: Option<NetId>): (n: Net)
    ensures n.name == name && n.signal == signal
    ensures n.sinks == {}
  {
    Net(name, signal, indeterminate, {})
  }

  /**
   * The copy constructor: only the two names are copied. The copy starts with
   * no sinks, whatever `other` was wired to, and an uninitialised source.
   */
  function Copy(other: Net, indeterminate: Option<NetId>): (n: Net)
    ensures n.name == other.name && n.signal == other.signal
    ensures n.sinks == {}
    ensures other.sinks != {} ==> n != other
  {
    Net(other.name, other.signal, indeterminate, {})
  }

  /** Changes the net name and nothing else. */
  function SetNetName(n: Net, name: string): (r: Net)
    ensures r.name == name
    ensures r.signal == n.signal && r.source == n.source && r.sinks == n.sinks
  {
    n.(name := name)
  }

  /** Changes the signal name and nothing else. */
  function SetSignalName(n: Net, signal: string): (r: Net)
    ensures r.signal == signal
    ensures r.name == n.name && r.source == n.source && r.sinks == n.sinks
  {
    n.(signal := signal)
  }

  /** Replaces the source, whatever it was; no other field changes. */
  function SetSource(n: Net, source: NetId): (r: Net)
    ensures r.source == Some(source)
    ensures r.name == n.name && r.signal == n.signal && r.sinks == n.sinks
  {
    n.(source := Some(source))
  }

  /** Inserts a sink into the set; nothing else changes. */
  function AddSink(n: Net, sink: NetId): (r: Net)
    ensures r.sinks == n.sinks + {sink}
    ensures sink in r.sinks && n.sinks <= r.sinks
    ensures |r.sinks| == if sink in n.sinks then |n.sinks| else |n.sinks| + 1
    ensures r.name == n.name && r.signal == n.signal && r.source == n.source
  {
    assert sink in n.sinks ==> n.sinks + {sink} == n.sinks;
    assert sink !in n.sinks ==> |n.sinks + {sink}| == |n.sinks| + 1;
    n.(sinks := n.sinks + {sink})
  }

  /** Adding the same sink twice is the same as adding it once. */
  lemma AddSinkIdempotent(n: Net, sink: NetId)
    ensures AddSink(AddSink(n, sink), sink) == AddSink(n, sink)
    ensures |AddSink(AddSink(n, sink), sink).sinks| == |AddSink(n, sink).sinks|
  {
  }

  /** The order in which sinks are added does not matter. */
  lemma AddSinkCommutes(n: Net, a: NetId, b: NetId)
    ensures AddSink(AddSink(n, a), b) == AddSink(AddSink(n, b), a)
  {
  }

  /** Of two `set_source` calls the last one wins. */
  lemma SetSourceLastWins(n: Net, first: NetId, second: NetId)
    ensures SetSource(SetSource(n, first), second) == SetSource(n, second)
  {
  }

  /** Setting a name twice keeps only the second value, for both names. */
  lemma SetNameLastWins(n: Net, first: string, second: string)
    ensures SetNetName(SetNetName(n, first), second) == SetNetName(n, second)
    ensures SetSignalName(SetSignalName(n, first), second) == SetSignalName(n, second)
  {
  }

  // ----- equal -------------------------------------------------------------

  /** Structural equality: both names, the source pointer, and the sink sets as sets. */
  predicate StructurallyEqual(a: Net, b: Net)
  {
    && a.name == b.name
    && a.signal == b.signal
    && a.source == b.source
    && a.sinks == b.sinks
  }

  /** A subset of a finite set with the same size is the whole set. */
  lemma SubsetOfSameSize(a: set<NetId>, b: set<NetId>)
    requires a <= b && |a| == |b|
    ensures a == b
  {
    assert a + b == b;
    assert a * b == a;
    assert |b - a| == 0;
    assert b - a == {};
  }

  /**
   * `device_net::equal`: compare the names, the source pointer and the sink
   * counts, then look every sink of `a` up in `b`'s sink set, walking `a`'s
   * sinks in the set's iteration order `order`.
   */
  method Equal(a: Net, b: Net, order: seq<NetId>) returns (r: bool)
    requires IsEnumeration(order, a.sinks)
    ensures r <==> StructurallyEqual(a, b)
  {
    if a.name != b.name || a.signal != b.signal || a.source != b.source
      || |a.sinks| != |b.sinks|
    {
      return false;
    }
    var i := 0;
    while i < |order|
      invariant 0 <= i <= |order|
      invariant forall j :: 0 <= j < i ==> order[j] in b.sinks
    {
      if order[i] !in b.sinks {
        assert order[i] in a.sinks;
        return false;
      }
      i := i + 1;
    }
    assert a.sinks <= b.sinks by {
      forall x | x in a.sinks
        ensures x in b.sinks
      {
        var k :| 0 <= k < |order| && order[k] == x;
      }
    }
    SubsetOfSameSize(a.sinks, b.sinks);
    return true;
  }

  /** Since every field is compared, structural equality is equality of the records. */
  lemma StructurallyEqualIsRecordEquality(a: Net, b: Net)
    ensures StructurallyEqual(a, b) <==> a == b
  {
  }

  lemma EqualReflexive(a: Net)
    ensures StructurallyEqual(a, a)
  {
  }

  lemma EqualSymmetric(a: Net, b: Net)
    ensures StructurallyEqual(a, b) <==> StructurallyEqual(b, a)
  {
  }

  lemma EqualTransitive(a: Net, b: Net, c: Net)
    requires StructurallyEqual(a, b) && StructurallyEqual(b, c)
    ensures StructurallyEqual(a, c)
  {
  }

  /** Changing any one field of a net makes it unequal to the original. */
  lemma SingleEditBreaksEquality(n: Net, name: string, signal: string, source: NetId, sink: NetId)
    ensures name != n.name ==> !StructurallyEqual(n, SetNetName(n, name))
    ensures signal != n.signal ==> !StructurallyEqual(n, SetSignalName(n, signal))
    ensures n.source != Some(source) ==> !StructurallyEqual(n, SetSource(n, source))
    ensures sink !in n.sinks ==> !StructurallyEqual(n, AddSink(n, sink))
  {
  }
}
