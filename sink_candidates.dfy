/**
 * How the auto video sink picks its candidates: the registry filter, the
 * rank ordering, the child's pretty name, the per-candidate probe and the
 * lookup of a candidate by caps. Everything here is a pure function of its
 * inputs.
 */
module SinkCandidates {
  import opened Wrappers
  import C = GstCaps

  /** A guint. */
  type Uint32 = x: int | 0 <= x < 0x1_0000_0000

  /** GST_RANK_MARGINAL: the lowest rank that takes part in autoplugging. */
  const GST_RANK_MARGINAL: Uint32 := 64

  /** A registry entry: its name, whether it is an element factory, the factory's klass string and its rank. */
  datatype PluginFeature = PluginFeature(name: string, isElementFactory: bool, klass: string, rank: Uint32)

  // ---------------------------------------------------------------------
  // The registry filter
  // ---------------------------------------------------------------------

  /** `needle` occurs in `haystack` starting at offset `i`. */
  ghost predicate OccursAt(needle: string, haystack: string, i: int) {
    0 <= i && i + |needle| <= |haystack| && haystack[i..i + |needle|] == needle
  }

  /** strstr (haystack, needle) != NULL, scanning offsets from the left. */
  function HasSubstring(haystack: string, needle: string): (found: bool)
    ensures found <==> exists i :: OccursAt(needle, haystack, i)
    decreases |haystack|
  {
    if needle <= haystack then
      assert OccursAt(needle, haystack, 0);
      true
    else if haystack == [] then
      false
    else
      var rest := HasSubstring(haystack[1..], needle);
      ShiftOccurrence(needle, haystack);
      rest
  }

  /** An occurrence past offset 0 is an occurrence in the tail, one offset earlier. */
  lemma ShiftOccurrence(needle: string, haystack: string)
    requires haystack != [] && !(needle <= haystack)
    ensures (exists i :: OccursAt(needle, haystack, i)) <==> (exists i :: OccursAt(needle, haystack[1..], i))
  {
    if i :| OccursAt(needle, haystack, i) {
      assert i != 0;
      assert haystack[1..][i - 1..i - 1 + |needle|] == haystack[i..i + |needle|];
      assert OccursAt(needle, haystack[1..], i - 1);
    }
    if i :| OccursAt(needle, haystack[1..], i) {
      assert haystack[1..][i..i + |needle|] == haystack[i + 1..i + 1 + |needle|];
      assert OccursAt(needle, haystack, i + 1);
    }
  }

  /**
   * _factory_filter: a feature is a candidate iff it is an element factory,
   * its klass mentions both "Sink" and "Video", and its rank is at least
   * MARGINAL.
   */
  function FactoryFilter(f: PluginFeature): (accepted: bool)
    ensures accepted <==>
              && f.isElementFactory
              && (exists i :: OccursAt("Sink", f.klass, i))
              && (exists j :: OccursAt("Video", f.klass, j))
              && f.rank >= GST_RANK_MARGINAL
  {
    if !f.isElementFactory then false
    else if !(HasSubstring(f.klass, "Sink") && HasSubstring(f.klass, "Video")) then false
    else if f.rank < GST_RANK_MARGINAL then false
    else true
  }

  /** gst_registry_feature_filter: the features that pass the filter, in registry order. */
  function FilterFeatures(registry: seq<PluginFeature>): (candidates: seq<PluginFeature>)
    ensures forall f :: f in candidates <==> f in registry && FactoryFilter(f)
    ensures |candidates| <= |registry|
  {
    if registry == [] then []
    else
      var rest := FilterFeatures(registry[1..]);
      assert forall f :: f in registry <==> f == registry[0] || f in registry[1..];
      if FactoryFilter(registry[0]) then [registry[0]] + rest else rest
  }

  // ---------------------------------------------------------------------
  // Ordering
  // ---------------------------------------------------------------------

  /**
   * The sign of strcmp (a, b). Characters compare by code point, which for
   * UTF-8 text is the order strcmp gives its bytes; a proper prefix sorts
   * first because the terminating NUL is smaller than any character.
   */
  function StrCmp(a: string, b: string): (r: int)
    ensures -1 <= r <= 1
    ensures r == 0 <==> a == b
  {
    if a == [] && b == [] then 0
    else if a == [] then -1
    else if b == [] then 1
    else if a[0] < b[0] then -1
    else if a[0] > b[0] then 1
    else
      var r := StrCmp(a[1..], b[1..]);
      assert a == [a[0]] + a[1..] && b == [b[0]] + b[1..];
      r
  }

  /** Swapping the arguments of strcmp negates its sign. */
  lemma {:induction false} StrCmpAntisymmetric(a: string, b: string)
    ensures StrCmp(b, a) == -StrCmp(a, b)
    decreases |a|
  {
    if a != [] && b != [] && a[0] == b[0] {
      StrCmpAntisymmetric(a[1..], b[1..]);
    }
  }

  /** strcmp orders strings transitively. */
  lemma {:induction false} StrCmpTransitive(a: string, b: string, c: string)
    requires StrCmp(a, b) < 0 && StrCmp(b, c) < 0
    ensures StrCmp(a, c) < 0
    decreases |a|
  {
    if a != [] && b != [] && c != [] && a[0] == b[0] && b[0] == c[0] {
      StrCmpTransitive(a[1..], b[1..], c[1..]);
    }
  }

  /** A guint stored in a gint: values from 2^31 up become negative. */
  function ToInt32(u: Uint32): (i: int)
    ensures -0x8000_0000 <= i < 0x8000_0000
    ensures (i - u) % 0x1_0000_0000 == 0
  {
    if u < 0x8000_0000 then u else u - 0x1_0000_0000
  }

  /**
   * _factories_compare_ranks as written: the guint rank difference, wrapped
   * modulo 2^32, is stored in a gint; only if that is 0 do the names decide.
   */
  function CompareRanksAsWritten(f1: PluginFeature, f2: PluginFeature): (r: int)
    ensures r == 0 <==> f1.rank == f2.rank && f1.name == f2.name
  {
    var diff := ToInt32((f2.rank - f1.rank) % 0x1_0000_0000);
    if diff != 0 then diff else StrCmp(f2.name, f1.name)
  }

  /**
   * The comparator the sort is meant to use: a negative result puts `f1`
   * first. Higher rank first, then the name that strcmp orders last first.
   */
  function CompareRanks(f1: PluginFeature, f2: PluginFeature): (r: int)
  {
    if f1.rank != f2.rank then f2.rank - f1.rank else StrCmp(f2.name, f1.name)
  }

  /** What the intended comparator means: rank descending, then name descending. */
  lemma CompareRanksOrder(f1: PluginFeature, f2: PluginFeature)
    ensures CompareRanks(f1, f2) < 0 <==> f1.rank > f2.rank || (f1.rank == f2.rank && StrCmp(f1.name, f2.name) > 0)
    ensures CompareRanks(f1, f2) == 0 <==> f1.rank == f2.rank && f1.name == f2.name
  {
    StrCmpAntisymmetric(f1.name, f2.name);
  }

  /** The intended comparator is antisymmetric. */
  lemma CompareRanksAntisymmetric(f1: PluginFeature, f2: PluginFeature)
    ensures CompareRanks(f1, f2) < 0 <==> CompareRanks(f2, f1) > 0
  {
    StrCmpAntisymmetric(f1.name, f2.name);
  }

  /** The intended comparator is transitive. */
  lemma CompareRanksTransitive(f1: PluginFeature, f2: PluginFeature, f3: PluginFeature)
    requires CompareRanks(f1, f2) <= 0 && CompareRanks(f2, f3) <= 0
    ensures CompareRanks(f1, f3) <= 0
  {
    if f1.rank == f2.rank == f3.rank && f1.name != f2.name && f2.name != f3.name {
      StrCmpAntisymmetric(f1.name, f2.name);
      StrCmpAntisymmetric(f2.name, f3.name);
      StrCmpAntisymmetric(f1.name, f3.name);
      StrCmpTransitive(f3.name, f2.name, f1.name);
    }
  }

  /** While two ranks are less than 2^31 apart, the wrapped difference has the right value. */
  lemma AsWrittenAgreesOnCloseRanks(f1: PluginFeature, f2: PluginFeature)
    requires -0x8000_0000 <= f2.rank - f1.rank < 0x8000_0000
    ensures CompareRanksAsWritten(f1, f2) == CompareRanks(f1, f2)
  {
    var d := f2.rank - f1.rank;
    if d < 0 {
      assert d % 0x1_0000_0000 == d + 0x1_0000_0000;
    } else {
      assert d % 0x1_0000_0000 == d;
    }
  }

  /**
   * From 2^31 apart the wrapped difference has the wrong sign: the factory
   * with the LOWER rank compares as the one to put first.
   */
  lemma RankWrapInvertsOrder(f1: PluginFeature, f2: PluginFeature)
    requires f2.rank - f1.rank >= 0x8000_0000
    ensures CompareRanks(f1, f2) > 0
    ensures CompareRanksAsWritten(f1, f2) < 0
  {
    var d := f2.rank - f1.rank;
    assert d % 0x1_0000_0000 == d;
    assert ToInt32(d) == d - 0x1_0000_0000;
  }

  /** Every element before a later one compares as not after it. */
  ghost predicate SortedByRank(s: seq<PluginFeature>) {
    forall i, j :: 0 <= i < j < |s| ==> CompareRanks(s[i], s[j]) <= 0
  }

  /** Insert `f` into a sorted list in front of the first element it does not follow. */
  function InsertByRank(f: PluginFeature, s: seq<PluginFeature>): (r: seq<PluginFeature>)
    requires SortedByRank(s)
    ensures SortedByRank(r)
    ensures multiset(r) == multiset(s) + multiset{f}
  {
    if s == [] || CompareRanks(f, s[0]) <= 0 then
      InsertFrontSorted(f, s);
      [f] + s
    else
      var rest := InsertByRank(f, s[1..]);
      CompareRanksAntisymmetric(f, s[0]);
      assert s == [s[0]] + s[1..];
      forall x | x in multiset(rest)
        ensures CompareRanks(s[0], x) <= 0
      {
        if x != f {
          assert x in multiset(s[1..]);
          var k :| 0 <= k < |s[1..]| && s[1..][k] == x;
          assert s[k + 1] == x;
        }
      }
      ConsSorted(s[0], rest);
      [s[0]] + rest
  }

  /** An element not after the head of a sorted list is not after any of it. */
  lemma InsertFrontSorted(f: PluginFeature, s: seq<PluginFeature>)
    requires SortedByRank(s)
    requires s == [] || CompareRanks(f, s[0]) <= 0
    ensures SortedByRank([f] + s)
  {
    forall x | x in multiset(s)
      ensures CompareRanks(f, x) <= 0
    {
      var k :| 0 <= k < |s| && s[k] == x;
      if k > 0 {
        CompareRanksTransitive(f, s[0], s[k]);
      }
    }
    ConsSorted(f, s);
  }

  /** Putting an element not after any element of a sorted list in front keeps it sorted. */
  lemma ConsSorted(f: PluginFeature, s: seq<PluginFeature>)
    requires SortedByRank(s)
    requires forall x | x in multiset(s) :: CompareRanks(f, x) <= 0
    ensures SortedByRank([f] + s)
  {
    var r := [f] + s;
    forall i, j | 0 <= i < j < |r|
      ensures CompareRanks(r[i], r[j]) <= 0
    {
      if i == 0 {
        assert r[j] == s[j - 1];
        assert r[j] in multiset(s);
      } else {
        assert r[i] == s[i - 1] && r[j] == s[j - 1];
      }
    }
  }

  /**
   * g_list_sort with the intended comparator. The sort GLib runs is a merge
   * sort; any sort gives the same list here (SortedPermutationUnique), so an
   * insertion sort stands in for it.
   */
  function SortByRank(s: seq<PluginFeature>): (r: seq<PluginFeature>)
    ensures SortedByRank(r)
    ensures multiset(r) == multiset(s)
  {
    if s == [] then []
    else
      assert s == [s[0]] + s[1..];
      InsertByRank(s[0], SortByRank(s[1..]))
  }

  /** No two entries share a name (the registry's own rule for feature names). */
  ghost predicate NamesDistinct(s: seq<PluginFeature>) {
    forall i, j :: 0 <= i < j < |s| ==> s[i].name != s[j].name
  }

  /**
   * The order is total and deterministic on features with distinct names:
   * two sorted permutations of the same list are the same list.
   */
  lemma {:induction false} SortedPermutationUnique(a: seq<PluginFeature>, b: seq<PluginFeature>)
    requires SortedByRank(a) && SortedByRank(b)
    requires multiset(a) == multiset(b)
    requires NamesDistinct(a)
    ensures a == b
  {
    if a == [] {
      assert |b| == |multiset(b)| == 0;
    } else {
      assert |b| == |multiset(b)| == |a|;
      SortedHeadsAgree(a, b);
      TailsPermutation(a, b);
      assert SortedByRank(a[1..]) && SortedByRank(b[1..]) && NamesDistinct(a[1..]);
      SortedPermutationUnique(a[1..], b[1..]);
      assert a == [a[0]] + a[1..] && b == [b[0]] + b[1..];
    }
  }

  /** Dropping the same head from two permutations of each other leaves permutations. */
  lemma TailsPermutation(a: seq<PluginFeature>, b: seq<PluginFeature>)
    requires a != [] && b != [] && a[0] == b[0]
    requires multiset(a) == multiset(b)
    ensures multiset(a[1..]) == multiset(b[1..])
  {
    assert a == [a[0]] + a[1..] && b == [b[0]] + b[1..];
    assert multiset(a[1..]) == multiset(a) - multiset{a[0]};
    assert multiset(b[1..]) == multiset(b) - multiset{b[0]};
  }

  /** Two sorted permutations of a list with distinct names start with the same element. */
  lemma SortedHeadsAgree(a: seq<PluginFeature>, b: seq<PluginFeature>)
    requires a != [] && b != []
    requires SortedByRank(a) && SortedByRank(b)
    requires multiset(a) == multiset(b)
    requires NamesDistinct(a)
    ensures a[0] == b[0]
  {
    assert a[0] in multiset(b) && b[0] in multiset(a);
    SortedHeadFirst(b, a[0]);
    SortedHeadFirst(a, b[0]);
    CompareRanksAntisymmetric(a[0], b[0]);
    CompareRanksOrder(a[0], b[0]);
    var m :| 0 <= m < |a| && a[m] == b[0];
    assert a[m].name == a[0].name;
  }

  /** The head of a sorted list is not after any of its elements. */
  lemma SortedHeadFirst(s: seq<PluginFeature>, x: PluginFeature)
    requires SortedByRank(s) && x in multiset(s)
    ensures CompareRanks(s[0], x) <= 0
  {
    var k :| 0 <= k < |s| && s[k] == x;
    if k == 0 {
      CompareRanksOrder(x, x);
    }
  }

  // ---------------------------------------------------------------------
  // The child's pretty name
  // ---------------------------------------------------------------------

  /** A trailing "sink" is cut off, then a leading "gst". */
  function Marker(factoryName: string): (marker: string)
    ensures |marker| <= |factoryName|
    ensures exists k :: 0 <= k <= 3 && OccursAt(marker, factoryName, k)
  {
    var noSuffix := if |factoryName| >= 4 && factoryName[|factoryName| - 4..] == "sink"
                    then factoryName[..|factoryName| - 4] else factoryName;
    if |noSuffix| >= 3 && noSuffix[..3] == "gst" then
      assert factoryName[3..3 + |noSuffix[3..]|] == noSuffix[3..];
      assert OccursAt(noSuffix[3..], factoryName, 3);
      noSuffix[3..]
    else
      assert factoryName[0..|noSuffix|] == noSuffix;
      assert OccursAt(noSuffix, factoryName, 0);
      noSuffix
  }

  /** The name _create_element_with_pretty_name gives the element: "<bin>-actual-sink-<marker>". */
  function ChildName(binName: string, factoryName: string): (name: string)
    ensures |name| == |binName| + 13 + |Marker(factoryName)|
    ensures name[..|binName|] == binName && name[|binName|..|binName| + 13] == "-actual-sink-"
    ensures name[|binName| + 13..] == Marker(factoryName)
  {
    binName + "-actual-sink-" + Marker(factoryName)
  }

  /** The decoration is stripped from both ends: "gst" + m + "sink" names its child after m. */
  lemma MarkerStripsDecoration(binName: string, m: string)
    ensures Marker("gst" + m + "sink") == m
    ensures ChildName(binName, "gst" + m + "sink") == binName + "-actual-sink-" + m
  {
    var n := "gst" + m + "sink";
    assert n[|n| - 4..] == "sink";
    assert n[..|n| - 4] == "gst" + m;
    assert ("gst" + m)[..3] == "gst";
    assert ("gst" + m)[3..] == m;
  }

  /** Only the "sink" suffix is stripped from a name that does not start with "gst": "cluttersink" gives "clutter". */
  lemma MarkerStripsSinkSuffix(m: string)
    requires !(|m| >= 3 && m[..3] == "gst")
    ensures Marker(m + "sink") == m
  {
    var n := m + "sink";
    assert n[|n| - 4..] == "sink";
    assert n[..|n| - 4] == m;
  }

  /** Only the "gst" prefix is stripped from a name that does not end in "sink". */
  lemma MarkerStripsGstPrefix(m: string)
    requires var n := "gst" + m; !(|n| >= 4 && n[|n| - 4..] == "sink")
    ensures Marker("gst" + m) == m
  {
    var n := "gst" + m;
    assert n[..3] == "gst";
    assert n[3..] == m;
  }

  /** A name with neither decoration is used unchanged. */
  lemma MarkerKeepsPlainName(name: string)
    requires !(|name| >= 4 && name[|name| - 4..] == "sink")
    requires !(|name| >= 3 && name[..3] == "gst")
    ensures Marker(name) == name
  {
  }

  // ---------------------------------------------------------------------
  // Probing one candidate
  // ---------------------------------------------------------------------

  /** An element instance, by identity. */
  type ElementId = nat

  /**
   * What probing one factory reports: the element it created (None when
   * gst_element_factory_create fails), whether that element has a
   * ClutterTexture "texture" property, and the caps its sink pad accepts
   * once in READY (None when going to READY fails or there is no caps).
   */
  datatype Probe = Probe(element: Option<ElementId>, clutterSink: bool, caps: Option<C.Caps>)

  /** An entry of the bin's candidate list. */
  datatype SinkElement = SinkElement(factoryName: string, elementName: string, element: ElementId, caps: C.Caps)

  /** A probed element ends up in the list exactly when it is a Clutter sink with caps. */
  predicate Kept(p: Probe) {
    p.element.Some? && p.clutterSink && p.caps.Some?
  }

  /** The net reference count after a sequence of ref (+1) and unref (-1) operations. */
  function RefCount(ops: seq<int>): int {
    if ops == [] then 0 else RefCount(ops[..|ops| - 1]) + ops[|ops| - 1]
  }

  /** No operation in the sequence acts on an object whose count already reached zero. */
  ghost predicate NoUseAfterFree(ops: seq<int>) {
    forall k :: 1 <= k < |ops| ==> RefCount(ops[..k]) > 0
  }

  /**
   * The reference operations discovery performs on a created element, as
   * written: the floating reference from the factory (+1), then an unref
   * when it is no Clutter sink, two unrefs when its caps are missing (one in
   * _sink_element_create, one more in _sinks_discover), and gst_object_ref_sink
   * (no change) when it is kept.
   */
  function ProbeRefOpsAsWritten(p: Probe): (ops: seq<int>)
    requires p.element.Some?
  {
    if !p.clutterSink then [1, -1]
    else if p.caps.None? then [1, -1, -1]
    else [1, 0]
  }

  /** As written, a Clutter sink without caps is unreferenced once after it has been freed. */
  lemma CapsFailureUnrefsTwice(p: Probe)
    requires p.element.Some? && p.clutterSink && p.caps.None?
    ensures !NoUseAfterFree(ProbeRefOpsAsWritten(p))
    ensures RefCount(ProbeRefOpsAsWritten(p)) == -1
  {
    var ops := ProbeRefOpsAsWritten(p);
    assert ops[..2] == [1, -1];
    assert [1, -1][..1] == [1] && [1][..0] == [];
    assert RefCount(ops[..2]) == 0;
  }

  /** The reference operations with the second unref of a caps failure dropped. */
  function ProbeRefOps(p: Probe): (ops: seq<int>)
    requires p.element.Some?
    ensures NoUseAfterFree(ops)
    ensures RefCount(ops) == if Kept(p) then 1 else 0
  {
    var ops := if !p.clutterSink || p.caps.None? then [1, -1] else [1, 0];
    assert ops[..1] == [1];
    ops
  }

  /**
   * The entries one pass of _sinks_discover appends, for the factories in
   * the order they are tried; the element of each is named by ChildName.
   */
  function Discovered(binName: string, factories: seq<PluginFeature>, probe: PluginFeature -> Probe): (entries: seq<SinkElement>)
    ensures |entries| <= |factories|
  {
    if factories == [] then []
    else
      var last := factories[|factories| - 1];
      var init := Discovered(binName, factories[..|factories| - 1], probe);
      if Kept(probe(last)) then init + [KeptEntry(binName, last, probe(last))] else init
  }

  /** Trying one more factory appends its entry when it is kept. */
  lemma DiscoveredStep(binName: string, factories: seq<PluginFeature>, i: nat, probe: PluginFeature -> Probe)
    requires i < |factories|
    ensures Discovered(binName, factories[..i + 1], probe)
            == Discovered(binName, factories[..i], probe)
               + if Kept(probe(factories[i])) then [KeptEntry(binName, factories[i], probe(factories[i]))] else []
  {
    assert factories[..i + 1][..i] == factories[..i];
  }

  /** Every entry comes from a kept factory. */
  lemma {:induction false} DiscoveredFromKeptFactory(binName: string, factories: seq<PluginFeature>, probe: PluginFeature -> Probe, e: SinkElement)
    requires e in Discovered(binName, factories, probe)
    ensures exists f :: f in factories && Kept(probe(f)) && e == KeptEntry(binName, f, probe(f))
  {
    var init := factories[..|factories| - 1];
    var last := factories[|factories| - 1];
    if e in Discovered(binName, init, probe) {
      DiscoveredFromKeptFactory(binName, init, probe, e);
      var f :| f in init && Kept(probe(f)) && e == KeptEntry(binName, f, probe(f));
      assert f in factories;
    } else {
      assert e == KeptEntry(binName, last, probe(last));
    }
  }

  /** The list entry for a kept probe. */
  function KeptEntry(binName: string, f: PluginFeature, p: Probe): SinkElement
    requires Kept(p)
  {
    SinkElement(f.name, ChildName(binName, f.name), p.element.value, p.caps.value)
  }

  /** A kept factory always yields an entry. */
  lemma {:induction false} KeptFactoryDiscovered(binName: string, factories: seq<PluginFeature>, probe: PluginFeature -> Probe, f: PluginFeature)
    requires f in factories && Kept(probe(f))
    ensures KeptEntry(binName, f, probe(f)) in Discovered(binName, factories, probe)
  {
    var init := factories[..|factories| - 1];
    if f != factories[|factories| - 1] {
      assert factories == init + [factories[|factories| - 1]];
      assert f in init;
      KeptFactoryDiscovered(binName, init, probe, f);
    }
  }

  // ---------------------------------------------------------------------
  // Caps of the candidates
  // ---------------------------------------------------------------------

  /** The caps of the candidates merged in list order, starting from empty caps. */
  function UnionCaps(sinks: seq<SinkElement>): C.Caps {
    if sinks == [] then C.EMPTY
    else C.Merge(UnionCaps(sinks[..|sinks| - 1]), sinks[|sinks| - 1].caps)
  }

  /** The union is empty exactly when every candidate's caps are. */
  lemma {:induction false} UnionCapsEmpty(sinks: seq<SinkElement>)
    ensures C.IsEmpty(UnionCaps(sinks)) <==> forall j :: 0 <= j < |sinks| ==> C.IsEmpty(sinks[j].caps)
  {
    if sinks != [] {
      var init := sinks[..|sinks| - 1];
      UnionCapsEmpty(init);
      assert forall j :: 0 <= j < |init| ==> init[j] == sinks[j];
    }
  }

  /** Merging one more entry's caps extends the union. */
  lemma UnionCapsStep(sinks: seq<SinkElement>, se: SinkElement)
    ensures UnionCaps(sinks + [se]) == C.Merge(UnionCaps(sinks), se.caps)
  {
    assert (sinks + [se])[..|sinks|] == sinks;
  }

  /** Caps meet the union exactly when they meet some candidate's caps. */
  lemma {:induction false} UnionMeetsSomeCandidate(c: C.Caps, sinks: seq<SinkElement>)
    ensures !C.IsEmpty(C.Intersect(c, UnionCaps(sinks))) <==>
            exists j :: 0 <= j < |sinks| && !C.IsEmpty(C.Intersect(c, sinks[j].caps))
  {
    if sinks != [] {
      var init := sinks[..|sinks| - 1];
      UnionMeetsSomeCandidate(c, init);
      C.IntersectMerge(c, UnionCaps(init), sinks[|sinks| - 1].caps);
      if j :| 0 <= j < |sinks| - 1 && !C.IsEmpty(C.Intersect(c, init[j].caps)) {
        assert init[j] == sinks[j];
      }
      if j :| 0 <= j < |sinks| && !C.IsEmpty(C.Intersect(c, sinks[j].caps)) {
        if j < |sinks| - 1 {
          assert init[j] == sinks[j];
        }
      }
    } else {
      assert C.Intersect(c, C.EMPTY) == C.EMPTY;
    }
  }

  /** The index of the first candidate whose caps meet `caps`, or |sinks| when none does. */
  function FirstMatching(sinks: seq<SinkElement>, caps: C.Caps): (i: nat)
    ensures i <= |sinks|
    ensures forall j :: 0 <= j < i ==> C.IsEmpty(C.Intersect(caps, sinks[j].caps))
    ensures i < |sinks| ==> !C.IsEmpty(C.Intersect(caps, sinks[i].caps))
  {
    if sinks == [] then 0
    else if !C.IsEmpty(C.Intersect(caps, sinks[0].caps)) then 0
    else
      var i := FirstMatching(sinks[1..], caps);
      assert forall j :: 1 <= j < i + 1 ==> sinks[j] == sinks[1..][j - 1];
      i + 1
  }

  /**
   * _sinks_find_sink_by_caps: the element of the first candidate whose caps
   * meet the request, None exactly when no candidate's do.
   */
  function FindSinkByCaps(sinks: seq<SinkElement>, caps: C.Caps): (element: Option<ElementId>)
    ensures element.None? <==> forall j :: 0 <= j < |sinks| ==> C.IsEmpty(C.Intersect(caps, sinks[j].caps))
    ensures element.Some? ==>
              exists i :: && 0 <= i < |sinks|
                          && sinks[i].element == element.value
                          && !C.IsEmpty(C.Intersect(caps, sinks[i].caps))
                          && forall j :: 0 <= j < i ==> C.IsEmpty(C.Intersect(caps, sinks[j].caps))
  {
    var i := FirstMatching(sinks, caps);
    if i < |sinks| then Some(sinks[i].element) else None
  }

  /** get_caps: the discovered caps, or the template's ANY before any were found. */
  function GetCaps(videoCaps: Option<C.Caps>): (caps: C.Caps)
    ensures videoCaps.None? ==> caps == C.Any
    ensures videoCaps.Some? ==> caps == videoCaps.value
  {
    if videoCaps.Some? then videoCaps.value else C.Any
  }

  /** accept_caps: the offered caps meet what get_caps answers. */
  function AcceptCaps(videoCaps: Option<C.Caps>, caps: C.Caps): (accepted: bool)
    ensures videoCaps.None? ==> (accepted <==> !C.IsEmpty(caps))
    ensures videoCaps.Some? ==> (accepted <==> !C.IsEmpty(C.Intersect(caps, videoCaps.value)))
  {
    !C.IsEmpty(C.Intersect(caps, GetCaps(videoCaps)))
  }

  /**
   * Once discovery has published the union of the candidates' caps, the
   * bin accepts exactly the caps for which some candidate can be found.
   */
  lemma AcceptIffSinkFound(sinks: seq<SinkElement>, caps: C.Caps)
    requires !C.IsEmpty(UnionCaps(sinks))
    ensures AcceptCaps(Some(UnionCaps(sinks)), caps) <==> FindSinkByCaps(sinks, caps).Some?
  {
    UnionMeetsSomeCandidate(caps, sinks);
  }
}
