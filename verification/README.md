# device_net: a verified model of the net connectivity record

This project models `device_net`, one net of a device's signal graph. A net
has a net name and a signal name. It holds one non-owning pointer to the net
that drives it (its source) and a `std::set` of non-owning pointers to the
nets it drives (its sinks). The model is written in Dafny and covers these
parts:

- the constructors and the copy constructor;
- the name, signal, source and sink accessors and mutators;
- two equalities: `operator==`/`operator!=` compare object identity, and
  `equal` compares structure;
- the three text renderings and the `fmt` formatter for net pointers.

Layout:

- `wrappers.dfy`: `Option`, standing for a possibly-null pointer.
- `sink_order.dfy` (`SinkOrder`): enumerations of a sink set. The set is
  iterated in pointer-address order. Handles stand for addresses, so that is
  ascending handle order, which `Enumerate` produces. Every operation that
  walks a sink set still takes an `order` argument that need only visit each
  element exactly once, so its properties hold for any order.
- `device_net.dfy` (`DeviceNet`): the `Net` record and its value-level
  operations. It also holds `Equal`, the loop of `device_net::equal`, which is
  proved to compute `StructurallyEqual`.
- `net_store.dfy` (`NetStore`): net objects at addresses. A
  `Store = map<NetId, Net>` maps each address to its object. A mutator called
  through a handle changes that one object. Identity equality compares
  handles: `Same` is `operator==` and `NotSame` is `operator!=`.
- `text.dfy` (`Text`): splitting text into lines, used to read renderings
  back.
- `net_render.dfy` (`NetRender`): the renderings and their properties.
  `StreamOut` is `operator<<`, `ToString` is `to_string`,
  `ToFormattedString` is `to_formatted_string`, and `FormatPointer` is the
  `fmt::formatter<device_net*>` `format` member.

Pointers are handles (`NetId = nat`). A null pointer is `None`. The getters
`get_net_name`, `get_signal_name`, `get_source` and `get_sink_set` are the
record's fields `name`, `signal`, `source` and `sinks`.

C++ members and the Dafny functions that model them:

| C++ | Dafny (value level) | Dafny (object at an address) |
|---|---|---|
| `device_net(net_name, signal_name)` | `DeviceNet.Create` | `NetStore.Construct` |
| `device_net(const device_net&)` | `DeviceNet.Copy` | `NetStore.CopyConstruct` |
| `set_net_name` | `DeviceNet.SetNetName` | `NetStore.SetNetNameAt` |
| `set_signal_name` | `DeviceNet.SetSignalName` | `NetStore.SetSignalNameAt` |
| `set_source` | `DeviceNet.SetSource` | `NetStore.SetSourceAt` |
| `add_sink` | `DeviceNet.AddSink` | `NetStore.AddSinkAt` |
| `equal` | `DeviceNet.Equal` (spec: `DeviceNet.StructurallyEqual`) | |
| `operator==` / `operator!=` | | `NetStore.Same` / `NetStore.NotSame` |
| `operator<<` / `to_string` / `to_formatted_string` | | `NetRender.StreamOut` / `NetRender.ToString` / `NetRender.ToFormattedString` |
| `fmt::formatter<device_net*>::format` | | `NetRender.FormatPointer` |

Three details of the code shape the model:

- The constructors leave `source_` uninitialised, so a new net is not known
  to be undriven. `Create` and `Copy` take that indeterminate value as an
  argument and promise nothing about it.
- `set_source` and `add_sink` dereference their argument to log its name, so
  the argument must be a live handle.
- A missing source is printed as `null` by `operator<<` and as nothing by
  `to_string`. `to_formatted_string` and the formatter print a net through
  `to_string`, so they too print nothing for a missing source. The formatter
  prints `device_net: null` only when the net pointer itself is null.

## Model

| member | source | states |
|---|---|---|
| DeviceNet.Create | Device_Modeling/src/device_spec/device_net.h:35-39 | a new net has the given net and signal names and no sinks; nothing is promised about the uninitialised source |
| DeviceNet.Copy | Device_Modeling/src/device_spec/device_net.h:45-49 | a copy has the original's two names and an empty sink set, so it differs from any original that has sinks |
| DeviceNet.SetNetName | Device_Modeling/src/device_spec/device_net.h:61-65 | the net name becomes the argument; signal, source and sinks are unchanged |
| DeviceNet.SetSignalName | Device_Modeling/src/device_spec/device_net.h:77-81 | the signal name becomes the argument; net name, source and sinks are unchanged |
| DeviceNet.SetSource | Device_Modeling/src/device_spec/device_net.h:93-97 | the source becomes the argument, whatever it was before; names and sinks are unchanged |
| DeviceNet.AddSink | Device_Modeling/src/device_spec/device_net.h:109-113 | the sinks become the old sinks plus the argument; nothing is removed; the count grows by one exactly when the sink is new; other fields are unchanged |
| DeviceNet.AddSinkIdempotent | Device_Modeling/src/device_spec/device_net.h:109-113 | adding the same sink twice gives the same net, and the same sink count, as adding it once |
| DeviceNet.AddSinkCommutes | Device_Modeling/src/device_spec/device_net.h:109-113 | the order in which two sinks are added does not matter |
| DeviceNet.SetSourceLastWins | Device_Modeling/src/device_spec/device_net.h:93-97 | of two set_source calls only the last one has an effect |
| DeviceNet.SetNameLastWins | Device_Modeling/src/device_spec/device_net.h:61-81 | of two calls to the same name setter only the last one has an effect |
| DeviceNet.Equal | Device_Modeling/src/device_spec/device_net.h:130-149 | for every iteration order of the sink set, the size check followed by the membership loop returns true exactly when names, signal names and source pointers match and the sink sets are equal as sets |
| DeviceNet.SubsetOfSameSize | Device_Modeling/src/device_spec/device_net.h:135-146 | a subset with the same size as the set is the whole set, which is why the loop only checks one direction |
| DeviceNet.StructurallyEqualIsRecordEquality | Device_Modeling/src/device_spec/device_net.h:130-149 | equal compares every field, so it holds exactly when the two records are identical values |
| DeviceNet.EqualReflexive | Device_Modeling/src/device_spec/device_net.h:130-149 | equal holds of a net and itself |
| DeviceNet.EqualSymmetric | Device_Modeling/src/device_spec/device_net.h:130-149 | equal does not depend on the order of its operands |
| DeviceNet.EqualTransitive | Device_Modeling/src/device_spec/device_net.h:130-149 | equal is transitive |
| DeviceNet.SingleEditBreaksEquality | Device_Modeling/src/device_spec/device_net.h:130-149 | a net is no longer equal to itself after any single change: a new name, a new signal name, a different source, or a new sink |
| NetStore.Construct | Device_Modeling/src/device_spec/device_net.h:35-39 | building a net at a fresh address adds exactly that address, with the given names and no sinks, and leaves every other object alone |
| NetStore.CopyConstruct | Device_Modeling/src/device_spec/device_net.h:45-49 | copy-constructing at a fresh address copies the other net's names only; the copy has no sinks; every other object is untouched |
| NetStore.SetNetNameAt | Device_Modeling/src/device_spec/device_net.h:61-65 | renaming one object changes only that object's net name; the addresses and all other objects are unchanged |
| NetStore.SetSignalNameAt | Device_Modeling/src/device_spec/device_net.h:77-81 | changing one object's signal name changes nothing else in the store |
| NetStore.SetSourceAt | Device_Modeling/src/device_spec/device_net.h:93-97 | the source pointer must be live because it is dereferenced; only the target's source changes; the new source's own sinks are not updated |
| NetStore.AddSinkAt | Device_Modeling/src/device_spec/device_net.h:109-113 | the sink pointer must be live because it is dereferenced; only the target's sink set grows; the sink's own source is not updated |
| NetStore.IdentityVersusStructure | Device_Modeling/src/device_spec/device_net.h:120-159 | operator!= is the negation of operator==; the same object is always equal to itself; two distinct objects with identical fields are != and yet equal |
| NetStore.TwinScenario | Device_Modeling/src/device_spec/device_net.h:120-149 | two nets built at different addresses from the same names are always !=; they are equal exactly when their uninitialised sources happen to hold the same pointer value, because equal compares the source pointers |
| NetStore.FanOutScenario | Device_Modeling/src/device_spec/device_net.h:93-113 | nets A, B and C are built at addresses 0, 1 and 2, and A is wired to B and to C in both directions; afterwards A's sinks are exactly {B, C}, B and C have A as source, and A's source is whatever its constructor left; adding B again leaves A's sinks at {B, C} |
| NetStore.AddSinkAtIdempotent | Device_Modeling/src/device_spec/device_net.h:109-113 | calling add_sink twice with the same net leaves the whole store as one call does |
| SinkOrder.Enumerate | Device_Modeling/src/device_spec/device_net.h:222 | every set of handles has an ascending, duplicate-free enumeration; handles stand for addresses, so this is the order in which std::set<device_net*> iterates |
| SinkOrder.EnumerationLength | Device_Modeling/src/device_spec/device_net.h:135 | every iteration order of a set is as long as the set's size |
| NetRender.RenderingIsFourLines | Device_Modeling/src/device_spec/device_net.h:167-208 | when no printed name contains a newline, operator<< and to_string are exactly four lines: the net name, the signal name, the source (the source's name, or "null" and nothing respectively), and the sink names, each followed by a space |
| NetRender.ReadHeaderRoundTrip | Device_Modeling/src/device_spec/device_net.h:167-208 | the net name and the signal name can be read back from either rendering's first two lines |
| NetRender.StreamOutMatchesToStringIffDriven | Device_Modeling/src/device_spec/device_net.h:167-208 | operator<< and to_string produce the same text exactly when the net has a source; without one, operator<< is four characters longer |
| NetRender.UndrivenIsolatedRendering | Device_Modeling/src/device_spec/device_net.h:167-217 | an undriven net without sinks renders with only the sentinel after "Source: " and nothing after "Sinks: "; to_formatted_string prefixes "device_net: " |
| NetRender.FormatPointerCases | Device_Modeling/src/device_spec/device_net.h:233-240 | the formatter prints a live pointer as "device_net: " followed by to_string, and a null pointer as "device_net: null" |
| NetRender.SinkIsListed | Device_Modeling/src/device_spec/device_net.h:203-206 | the i-th sink of the walk appears in the listing at the width of the names before it, followed by a space |
| NetRender.EverySinkListed | Device_Modeling/src/device_spec/device_net.h:180-183 | both operator<< and to_string list every sink of the net, its name followed by a space, inside the trailing sink listing rather than in the header lines |
| NetRender.FormattedStringWrapsToString | Device_Modeling/src/device_spec/device_net.h:214-217 | to_formatted_string starts with "device_net: ", stripping that prefix gives to_string back, and its first line is "device_net: Net Name: " followed by the net name |
| NetRender.AscendingOrderRenders | Device_Modeling/src/device_spec/device_net.h:203-206 | ascending handle order, which is std::set's own address order, is a valid walk of the sink set, so every net whose pointers are live can be rendered |
| NetRender.SinkNamesWidthIndependentOfOrder | Device_Modeling/src/device_spec/device_net.h:203-206 | two iteration orders of the same sink set give listings of the same width |
| NetRender.RenderingLengthIndependentOfOrder | Device_Modeling/src/device_spec/device_net.h:167-208 | the length of both renderings does not depend on the sink set's iteration order |
| NetRender.SourceNameFollowsRename | Device_Modeling/src/device_spec/device_net.h:197-200 | a rendering reads the source's name through the pointer: after the source net is renamed, a net it drives prints the new name, although the driven net's own record is unchanged |

## Left out

- Logging: the `spdlog::info` calls in the constructors and mutators are a diagnostic side channel with no effect on state.
- The concrete iteration order of `std::set<device_net*>` is raw pointer order. With handles standing for addresses this is ascending handle order (`Enumerate`), but operations that walk a sink set accept any enumeration of it. No property depends on which enumeration is used, except the exact text of the sink listing.
- DeviceNet.Create: the uninitialised `source_` is modelled as a value the caller supplies. Reading it in C++ is undefined behaviour. The model states nothing about it instead of claiming "no source".
- Null or dangling pointers passed to `set_source` and `add_sink`, or reached while rendering, are undefined behaviour in C++. They are excluded by preconditions: the argument, the source and every sink must be live handles in the store.
- Memory ownership and object lifetime are not modelled. Neither are `device_block` or graph-wide invariants (unique names, acyclicity, source/sink symmetry). None of these is enforced by `device_net`.
- The `fmt::formatter` `parse` member returns `ctx.begin()`, so it consumes no format specification; it has no model. Only its `format` member is modelled, as `FormatPointer`.
