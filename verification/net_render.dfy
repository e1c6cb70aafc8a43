/**
 * Text renderings of a net: `operator<<`, `to_string` and
 * `to_formatted_string`, plus the `fmt` formatter for net pointers.
 *
 * Every rendering writes four lines, "Net Name: ", "Signal Name: ",
 * "Source: " and "Sinks: ", the last listing each sink's name followed by a
 * space in the sink set's iteration order. The source's and the sinks' names
 * are read through their pointers, so they are looked up in the store at
 * rendering time. `operator<<` writes "null" for a missing source,
 * `to_string` writes nothing.
 */
module NetRender {
  import opened Wrappers
  import opened SinkOrder
  import opened DeviceNet
  import opened NetStore
  import opened Text

  /** Every pointer the rendering dereferences is live, and `order` walks the sink set. */
  predicate Renderable(store: Store, n: Net, order: seq<NetId>)
  {
    && IsEnumeration(order, n.sinks)
    && (n.source.Some? ==> n.source.value in store)
    && (forall s :: s in n.sinks ==> s in store)
  }

  /** Each listed net's name followed by one space. */
  function SinkNames(store: Store, order: seq<NetId>): string
    requires forall i :: 0 <= i < |order| ==> order[i] in store
  {
    if |order| == 0 then ""
    else store[order[0]].name + " " + SinkNames(store, order[1..])
  }

  /** The source's name, or `absent` when the source pointer is null. */
  function SourceText(store: Store, n: Net, absent: string): string
    requires n.source.Some? ==> n.source.value in store
  {
    match n.source
    case Some(p) => store[p].name
    case None => absent
  }

  /** The common shape of `operator<<` and `to_string`. */
  function Render(store: Store, n: Net, order: seq<NetId>, absent: string): string
    requires Renderable(store, n, order)
  {
    "Net Name: " + n.name + "\n"
      + ("Signal Name: " + n.signal + "\n"
      + ("Source: " + SourceText(store, n, absent) + "\n"
      + ("Sinks: " + SinkNames(store, order))))
  }

  /** `operator<<(os, dn)`: a null source is written as "null". */
  function StreamOut(store: Store, n: Net, order: seq<NetId>): string
    requires Renderable(store, n, order)
  {
    Render(store, n, order, "null")
  }

  /** `device_net::to_string`: a null source is written as nothing. */
  function ToString(store: Store, n: Net, order: seq<NetId>): string
    requires Renderable(store, n, order)
  {
    Render(store, n, order, "")
  }

  /** `device_net::to_formatted_string`. */
  function ToFormattedString(store: Store, n: Net, order: seq<NetId>): string
    requires Renderable(store, n, order)
  {
    "device_net: " + ToString(store, n, order)
  }

  /** The `fmt::formatter<device_net*>` specialisation. */
  function FormatPointer(store: Store, p: Option<NetId>, order: seq<NetId>): string
    requires p.Some? ==> p.value in store && Renderable(store, store[p.value], order)
  {
    match p
    case Some(id) => ToFormattedString(store, store[id], order)
    case None => "device_net: null"
  }

  // ----- properties ---------------------------------------------------------

  /** The listing of a concatenation is the concatenation of the listings. */
  lemma {:induction false} SinkNamesAppend(store: Store, a: seq<NetId>, b: seq<NetId>)
    requires forall i :: 0 <= i < |a| ==> a[i] in store
    requires forall i :: 0 <= i < |b| ==> b[i] in store
    ensures SinkNames(store, a + b) == SinkNames(store, a) + SinkNames(store, b)
  {
    if |a| > 0 {
      assert (a + b)[1..] == a[1..] + b;
      SinkNamesAppend(store, a[1..], b);
    } else {
      assert a + b == b;
    }
  }

  /** The sink listing has no newline when no sink name has one. */
  lemma {:induction false} SinkNamesSingleLine(store: Store, order: seq<NetId>)
    requires forall i :: 0 <= i < |order| ==> order[i] in store
    requires forall i :: 0 <= i < |order| ==> '\n' !in store[order[i]].name
    ensures '\n' !in SinkNames(store, order)
  {
    if |order| > 0 {
      SinkNamesSingleLine(store, order[1..]);
    }
  }

  /** No name the rendering prints contains a newline. */
  predicate NewlineFree(store: Store, n: Net)
    requires n.source.Some? ==> n.source.value in store
    requires forall s :: s in n.sinks ==> s in store
  {
    && '\n' !in n.name
    && '\n' !in n.signal
    && (n.source.Some? ==> '\n' !in store[n.source.value].name)
    && (forall s :: s in n.sinks ==> '\n' !in store[s].name)
  }

  lemma RenderLines(store: Store, n: Net, order: seq<NetId>, absent: string)
    requires Renderable(store, n, order)
    requires NewlineFree(store, n) && '\n' !in absent
    ensures SplitLines(Render(store, n, order, absent))
         == ["Net Name: " + n.name,
             "Signal Name: " + n.signal,
             "Source: " + SourceText(store, n, absent),
             "Sinks: " + SinkNames(store, order)]
  {
    var l0 := "Net Name: " + n.name;
    var l1 := "Signal Name: " + n.signal;
    var l2 := "Source: " + SourceText(store, n, absent);
    var l3 := "Sinks: " + SinkNames(store, order);
    SinkNamesSingleLine(store, order);
    SplitFirstLine(l0, l1 + "\n" + (l2 + "\n" + l3));
    SplitFirstLine(l1, l2 + "\n" + l3);
    SplitFirstLine(l2, l3);
    SplitSingleLine(l3);
  }

  /**
   * When no printed name contains a newline, both renderings are exactly four
   * lines: the net name, the signal name, the source ("null" or nothing when
   * there is none) and the sink listing.
   */
  lemma RenderingIsFourLines(store: Store, n: Net, order: seq<NetId>)
    requires Renderable(store, n, order)
    requires NewlineFree(store, n)
    ensures SplitLines(StreamOut(store, n, order))
         == ["Net Name: " + n.name,
             "Signal Name: " + n.signal,
             "Source: " + (if n.source.Some? then store[n.source.value].name else "null"),
             "Sinks: " + SinkNames(store, order)]
    ensures SplitLines(ToString(store, n, order))
         == ["Net Name: " + n.name,
             "Signal Name: " + n.signal,
             "Source: " + (if n.source.Some? then store[n.source.value].name else ""),
             "Sinks: " + SinkNames(store, order)]
  {
    RenderLines(store, n, order, "null");
    RenderLines(store, n, order, "");
  }

  /** Reads the net name and signal name back from the first two lines of a rendering. */
  function ReadHeader(s: string): Option<(string, string)>
  {
    var lines := SplitLines(s);
    if |lines| >= 2 && StartsWith(lines[0], "Net Name: ") && StartsWith(lines[1], "Signal Name: ")
    then Some((lines[0][|"Net Name: "|..], lines[1][|"Signal Name: "|..]))
    else None
  }

  /** Both renderings give back the net name and the signal name they were made from. */
  lemma ReadHeaderRoundTrip(store: Store, n: Net, order: seq<NetId>)
    requires Renderable(store, n, order)
    requires '\n' !in n.name && '\n' !in n.signal
    ensures ReadHeader(ToString(store, n, order)) == Some((n.name, n.signal))
    ensures ReadHeader(StreamOut(store, n, order)) == Some((n.name, n.signal))
  {
    var l0 := "Net Name: " + n.name;
    var l1 := "Signal Name: " + n.signal;
    forall absent: string
      ensures ReadHeader(Render(store, n, order, absent)) == Some((n.name, n.signal))
    {
      var rest := "Source: " + SourceText(store, n, absent) + "\n" + ("Sinks: " + SinkNames(store, order));
      SplitFirstLine(l0, l1 + "\n" + rest);
      SplitFirstLine(l1, rest);
      var lines := SplitLines(Render(store, n, order, absent));
      assert lines[0] == l0 && lines[1] == l1;
      assert l0[..|"Net Name: "|] == "Net Name: ";
      assert l1[..|"Signal Name: "|] == "Signal Name: ";
      assert l0[|"Net Name: "|..] == n.name;
      assert l1[|"Signal Name: "|..] == n.signal;
    }
  }

  /**
   * `operator<<` and `to_string` print the same text exactly when the net has a
   * source; an undriven net is printed with "null" by one and nothing by the other.
   */
  lemma StreamOutMatchesToStringIffDriven(store: Store, n: Net, order: seq<NetId>)
    requires Renderable(store, n, order)
    ensures StreamOut(store, n, order) == ToString(store, n, order) <==> n.source.Some?
    ensures n.source.None? ==> |StreamOut(store, n, order)| == |ToString(store, n, order)| + 4
  {
  }

  /** An undriven net without sinks: the source slot holds only the sentinel, the sink list is empty. */
  lemma UndrivenIsolatedRendering(store: Store, n: Net)
    requires n.source.None? && n.sinks == {}
    ensures Renderable(store, n, [])
    ensures StreamOut(store, n, [])
         == "Net Name: " + n.name + "\n" + "Signal Name: " + n.signal + "\n" + "Source: null" + "\n" + "Sinks: "
    ensures ToString(store, n, [])
         == "Net Name: " + n.name + "\n" + "Signal Name: " + n.signal + "\n" + "Source: " + "\n" + "Sinks: "
    ensures ToFormattedString(store, n, [])
         == "device_net: " + "Net Name: " + n.name + "\n" + "Signal Name: " + n.signal + "\n" + "Source: " + "\n" + "Sinks: "
  {
    assert SinkNames(store, []) == "";
    assert SourceText(store, n, "null") == "null";
    assert SourceText(store, n, "") == "";
  }

  /** The formatter prints a live pointer like `to_formatted_string` and a null one as "device_net: null". */
  lemma FormatPointerCases(store: Store, p: Option<NetId>, order: seq<NetId>)
    requires p.Some? ==> p.value in store && Renderable(store, store[p.value], order)
    ensures p.None? ==> FormatPointer(store, p, order) == "device_net: null"
    ensures p.Some? ==> FormatPointer(store, p, order)
                        == "device_net: " + ToString(store, store[p.value], order)
  {
  }

  /** The position at which the `i`-th listed sink's name starts within the listing. */
  function SinkOffset(store: Store, order: seq<NetId>, i: nat): nat
    requires i <= |order|
    requires forall j :: 0 <= j < |order| ==> order[j] in store
  {
    |SinkNames(store, order[..i])|
  }

  /** Every sink of the walk appears in the listing, its name followed by a space. */
  lemma SinkIsListed(store: Store, order: seq<NetId>, i: nat)
    requires i < |order|
    requires forall j :: 0 <= j < |order| ==> order[j] in store
    ensures var k := SinkOffset(store, order, i);
            var w := |store[order[i]].name| + 1;
            && k + w <= |SinkNames(store, order)|
            && SinkNames(store, order)[k .. k + w] == store[order[i]].name + " "
  {
    var front := order[..i];
    var back := order[i..];
    assert order == front + back;
    SinkNamesAppend(store, front, back);
    assert back[1..] == order[i + 1..];
  }

  /** `word` occurs in `text` starting at position `k`. */
  predicate OccursAt(text: string, word: string, k: int)
  {
    0 <= k && k + |word| <= |text| && text[k .. k + |word|] == word
  }

  /** Each sink appears, its name followed by a space, inside the sink listing at the end of a rendering. */
  lemma SinkInRendering(store: Store, n: Net, order: seq<NetId>, absent: string, s: NetId)
    requires Renderable(store, n, order)
    requires s in n.sinks
    ensures var r := Render(store, n, order, absent);
            exists k :: |r| - |SinkNames(store, order)| <= k && OccursAt(r, store[s].name + " ", k)
  {
    var i :| 0 <= i < |order| && order[i] == s;
    SinkIsListed(store, order, i);
    var r := Render(store, n, order, absent);
    var names := SinkNames(store, order);
    var head := |r| - |names|;
    assert r == r[..head] + names;
    var off := SinkOffset(store, order, i);
    var w := |store[s].name| + 1;
    assert r[head + off .. head + off + w] == names[off .. off + w];
    assert OccursAt(r, store[s].name + " ", head + off);
  }

  /**
   * Both `operator<<` and `to_string` list every sink of the net, its name
   * followed by a space, in the trailing sink listing (never inside the
   * header lines).
   */
  lemma EverySinkListed(store: Store, n: Net, order: seq<NetId>, s: NetId)
    requires Renderable(store, n, order)
    requires s in n.sinks
    ensures var r := ToString(store, n, order);
            exists k :: |r| - |SinkNames(store, order)| <= k && OccursAt(r, store[s].name + " ", k)
    ensures var r := StreamOut(store, n, order);
            exists k :: |r| - |SinkNames(store, order)| <= k && OccursAt(r, store[s].name + " ", k)
  {
    SinkInRendering(store, n, order, "", s);
    SinkInRendering(store, n, order, "null", s);
    assert ToString(store, n, order) == Render(store, n, order, "");
    assert StreamOut(store, n, order) == Render(store, n, order, "null");
  }

  /**
   * `to_formatted_string` is `to_string` behind the prefix "device_net: ": the
   * prefix can be stripped to give `to_string` back, and its first line names
   * the net.
   */
  lemma FormattedStringWrapsToString(store: Store, n: Net, order: seq<NetId>)
    requires Renderable(store, n, order)
    requires '\n' !in n.name
    ensures var f := ToFormattedString(store, n, order);
            && StartsWith(f, "device_net: ")
            && f[|"device_net: "|..] == ToString(store, n, order)
            && SplitLines(f)[0] == "device_net: Net Name: " + n.name
  {
    var f := ToFormattedString(store, n, order);
    var rest := "Signal Name: " + n.signal + "\n"
      + ("Source: " + SourceText(store, n, "") + "\n" + ("Sinks: " + SinkNames(store, order)));
    assert f == ("device_net: " + ("Net Name: " + n.name)) + "\n" + rest;
    SplitFirstLine("device_net: " + ("Net Name: " + n.name), rest);
    assert "device_net: " + ("Net Name: " + n.name) == "device_net: Net Name: " + n.name;
  }

  /**
   * Handles stand for addresses, so ascending handle order is the order in
   * which `std::set<device_net*>` iterates; with it, every net whose pointers
   * are live can be rendered.
   */
  lemma AscendingOrderRenders(store: Store, n: Net)
    requires n.source.Some? ==> n.source.value in store
    requires forall s :: s in n.sinks ==> s in store
    ensures Renderable(store, n, Enumerate(n.sinks))
  {
  }

  /** Taking the sink at position `k` out of a walk shortens the listing by its name and a space. */
  lemma SinkNamesWithout(store: Store, o: seq<NetId>, k: nat)
    requires k < |o|
    requires forall i :: 0 <= i < |o| ==> o[i] in store
    ensures |SinkNames(store, o)|
         == |SinkNames(store, o[..k] + o[k + 1..])| + |store[o[k]].name| + 1
  {
    var tail := [o[k]] + o[k + 1..];
    assert o == o[..k] + tail;
    SinkNamesAppend(store, o[..k], tail);
    SinkNamesAppend(store, o[..k], o[k + 1..]);
    assert tail[1..] == o[k + 1..];
  }

  /** Two walks of the same set list names of the same total width. */
  lemma {:induction false} SinkNamesWidthIndependentOfOrder(store: Store, o1: seq<NetId>, o2: seq<NetId>, s: set<NetId>)
    requires IsEnumeration(o1, s) && IsEnumeration(o2, s)
    requires forall x :: x in s ==> x in store
    ensures |SinkNames(store, o1)| == |SinkNames(store, o2)|
    decreases |o1|
  {
    if |o1| == 0 {
      EnumerationLength(o1, s);
      EnumerationLength(o2, s);
      assert o2 == [];
    } else {
      var x := o1[0];
      var k :| 0 <= k < |o2| && o2[k] == x;
      DropFirst(o1, s);
      DropAt(o2, s, k);
      SinkNamesWidthIndependentOfOrder(store, o1[1..], o2[..k] + o2[k + 1..], s - {x});
      SinkNamesWithout(store, o2, k);
    }
  }

  /**
   * The rendered text's length does not depend on the set's iteration order,
   * which the model leaves open.
   */
  lemma RenderingLengthIndependentOfOrder(store: Store, n: Net, o1: seq<NetId>, o2: seq<NetId>)
    requires Renderable(store, n, o1) && Renderable(store, n, o2)
    ensures |ToString(store, n, o1)| == |ToString(store, n, o2)|
    ensures |StreamOut(store, n, o1)| == |StreamOut(store, n, o2)|
  {
    SinkNamesWidthIndependentOfOrder(store, o1, o2, n.sinks);
  }

  /**
   * Renderings follow pointers: after the source net is renamed, a net driven
   * by it prints the new name, although the driven net itself did not change.
   */
  lemma SourceNameFollowsRename(store: Store, a: NetId, b: NetId, name: string, absent: string)
    requires a in store && b in store
    requires store[b].source == Some(a)
    ensures var after := SetNetNameAt(store, a, name);
            SourceText(after, after[b], absent) == name
    ensures a != b ==> SetNetNameAt(store, a, name)[b] == store[b]
  {
  }
}
