/**
 * Net objects at addresses.
 *
 * A `Store` maps each live handle to the net object stored there. The
 * mutating members of `device_net` change the one object they are called on
 * and no other; the pointer arguments of `set_source` and `add_sink` are
 * dereferenced (to log the net's name) and must therefore be live. Identity
 * equality (`operator==`, `operator!=`) compares addresses only.
 */
module NetStore {
  import opened Wrappers
  import opened DeviceNet

  type Store = map<NetId, Net>

  /** Constructs a net at the fresh address `id`; the rest of the store is untouched. */
  function Construct(store: Store, id: NetId, name: string, signal: string,
                     indeterminate: Option<NetId>): (r: Store)
    requires id !in store
    ensures r.Keys == store.Keys + {id}
    ensures r[id].name == name && r[id].signal == signal && r[id].sinks == {}
    ensures forall k :: k in store ==> r[k] == store[k]
  {
    store[id := Create(name, signal, indeterminate)]
  }

  /** Copy-constructs the net at `other` into the fresh address `id`. */
  function CopyConstruct(store: Store, id: NetId, other: NetId,
                         indeterminate: Option<NetId>): (r: Store)
    requires id !in store && other in store
    ensures r.Keys == store.Keys + {id}
    ensures r[id].name == store[other].name && r[id].signal == store[other].signal
    ensures r[id].sinks == {}
    ensures forall k :: k in store ==> r[k] == store[k]
  {
    store[id := Copy(store[other], indeterminate)]
  }

  /** `self->set_net_name(name)`: only the name of the object at `self` changes. */
  function SetNetNameAt(store: Store, self: NetId, name: string): (r: Store)
    requires self in store
    ensures r.Keys == store.Keys
    ensures r[self].name == name
    ensures r[self].signal == store[self].signal
    ensures r[self].source == store[self].source && r[self].sinks == store[self].sinks
    ensures forall k :: k in store && k != self ==> r[k] == store[k]
  {
    store[self := SetNetName(store[self], name)]
  }

  /** `self->set_signal_name(signal)`: only the signal name of the object at `self` changes. */
  function SetSignalNameAt(store: Store, self: NetId, signal: string): (r: Store)
    requires self in store
    ensures r.Keys == store.Keys
    ensures r[self].signal == signal
    ensures r[self].name == store[self].name
    ensures r[self].source == store[self].source && r[self].sinks == store[self].sinks
    ensures forall k :: k in store && k != self ==> r[k] == store[k]
  {
    store[self := SetSignalName(store[self], signal)]
  }

  /**
   * `self->set_source(source)`: the source pointer of `self` is overwritten.
   * The source's own sink set is not touched, so the wiring stays one-sided.
   */
  function SetSourceAt(store: Store, self: NetId, source: NetId): (r: Store)
    requires self in store
    requires source in store
    ensures r.Keys == store.Keys
    ensures r[self].source == Some(source)
    ensures r[self].name == store[self].name && r[self].signal == store[self].signal
    ensures r[self].sinks == store[self].sinks
    ensures forall k :: k in store && k != self ==> r[k] == store[k]
  {
    store[self := SetSource(store[self], source)]
  }

  /**
   * `self->add_sink(sink)`: `sink` joins the sink set of `self`. The sink's
   * own source is not touched.
   */
  function AddSinkAt(store: Store, self: NetId, sink: NetId): (r: Store)
    requires self in store
    requires sink in store
    ensures r.Keys == store.Keys
    ensures r[self].sinks == store[self].sinks + {sink}
    ensures r[self].name == store[self].name && r[self].signal == store[self].signal
    ensures r[self].source == store[self].source
    ensures forall k :: k in store && k != self ==> r[k] == store[k]
  {
    store[self := AddSink(store[self], sink)]
  }

  /** `operator==`: the same object. */
  predicate Same(a: NetId, b: NetId)
  {
    a == b
  }

  /** `operator!=`: the negation of `operator==`. */
  predicate NotSame(a: NetId, b: NetId)
  {
    !Same(a, b)
  }

  /**
   * Identity and structure are different equalities: the same object is always
   * structurally equal to itself, but two distinct objects with identical
   * fields are `!=` while `equal` holds.
   */
  lemma IdentityVersusStructure(store: Store, a: NetId, b: NetId)
    requires a in store && b in store
    ensures Same(a, b) ==> StructurallyEqual(store[a], store[b])
    ensures Same(a, b) <==> !NotSame(a, b)
    ensures a != b && store[a] == store[b] ==> NotSame(a, b) && StructurallyEqual(store[a], store[b])
  {
  }

  /**
   * Twins: two nets built at different addresses from the same names are
   * always `!=`. They are `equal` exactly when their uninitialised sources
   * happen to hold the same value, since `equal` compares the source pointers.
   */
  lemma TwinScenario(x1: NetId, x2: NetId, p1: Option<NetId>, p2: Option<NetId>)
    requires x1 != x2
    ensures
      var s := Construct(Construct(map[], x1, "n", "s", p1), x2, "n", "s", p2);
      && x1 in s && x2 in s
      && (StructurallyEqual(s[x1], s[x2]) <==> p1 == p2)
      && NotSame(x1, x2)
  {
  }

  /**
   * Wiring three nets A, B, C at addresses 0, 1, 2: A drives B and C. Both
   * sides of each edge are set by separate calls. A's own source is still
   * whatever its constructor left. Adding B to A's sinks again adds nothing.
   */
  lemma FanOutScenario(pa: Option<NetId>)
    ensures
      var s0 := Construct(Construct(Construct(map[], 0, "A", "sig", pa), 1, "B", "sig", None), 2, "C", "sig", None);
      var s4 := AddSinkAt(SetSourceAt(AddSinkAt(SetSourceAt(s0, 1, 0), 0, 1), 2, 0), 0, 2);
      && s4[0].sinks == {1, 2}
      && s4[1].source == Some(0) && s4[2].source == Some(0)
      && s4[0].source == pa
      && AddSinkAt(s4, 0, 1)[0].sinks == {1, 2}
  {
  }

  /** Calling `add_sink` twice with the same net leaves the store as one call does. */
  lemma AddSinkAtIdempotent(store: Store, self: NetId, sink: NetId)
    requires self in store && sink in store
    ensures AddSinkAt(AddSinkAt(store, self, sink), self, sink) == AddSinkAt(store, self, sink)
  {
    DeviceNet.AddSinkIdempotent(store[self], sink);
  }
}
