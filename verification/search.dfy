/**
 * The search panel: a query is matched against the layout's key slots,
 * macros and input listeners; the results can be stepped through, jumped
 * to, and the matching keys of the active layer are highlighted.
 */
module Search {
  import opened Wrappers
  import opened Json
  import opened Text
  import opened Seqs
  import Store

  datatype MatchKind = KeyMatch | MacroMatch | ListenerMatch

  /** `SearchResult`; its `metadata` dict as an ordered list of pairs. */
  datatype SearchResult = SearchResult(
    kind: MatchKind,
    labelText: string,
    layerIndex: int,
    keyIndex: int,
    metadata: seq<(string, string)>)

  /** `str(d.get(key, ""))` on a slot, macro or listener dict. */
  function TextOf(d: Json, key: string): string {
    match Field(d, key)
    case Some(v) => PyStr(v)
    case None => ""
  }

  // ---------------------------------------------------------------------
  // _find_keys

  /** The needle occurs in the lower-cased value or in the lower-cased text of the parameters. */
  predicate SlotMatches(slot: Json, needle: string) {
    Contains(Lower(TextOf(slot, "value")), needle) || Contains(Lower(TextOf(slot, "params")), needle)
  }

  /**
   * The slot test for one needle, as a function value: the results below
   * are stated for any slot test `matches`, and a search uses this one.
   */
  function Matcher(needle: string): Json -> bool {
    slot => SlotMatches(slot, needle)
  }

  /** `10` to the power `e`. */
  function TenTo(e: nat): (r: nat)
    ensures r >= 1
  {
    if e == 0 then 1 else 10 * TenTo(e - 1)
  }

  /** `f"{n:0{width}d}"`: the decimal digits of `n`, with zeros in front up to `width` characters. */
  function ZeroPadded(n: nat, width: nat): string
    decreases width
  {
    if width <= 1 then NatToString(n)
    else (if n < TenTo(width - 1) then "0" else "") + ZeroPadded(n, width - 1)
  }

  /** `k` zero digits. */
  function Zeros(k: nat): (r: string)
    ensures |r| == k && forall i :: 0 <= i < k ==> r[i] == '0'
  {
    seq(k, _ => '0')
  }

  /** A number below `10^e` (`e >= 1`) has at most `e` digits, and one at or above it more. */
  lemma {:induction false} DigitCount(n: nat, e: nat)
    requires e >= 1
    ensures |NatToString(n)| <= e <==> n < TenTo(e)
    decreases e
  {
    if e > 1 && n >= 10 {
      DigitCount(n / 10, e - 1);
      assert |NatToString(n)| == |NatToString(n / 10)| + 1;
      assert n < TenTo(e) <==> n / 10 < TenTo(e - 1);
    }
  }

  /** Zero padding puts exactly enough zeros in front of the digits to reach the width. */
  lemma {:induction false} ZeroPaddedDigits(n: nat, width: nat)
    ensures var digits := NatToString(n);
      ZeroPadded(n, width) == Zeros(if |digits| < width then width - |digits| else 0) + digits
    decreases width
  {
    var digits := NatToString(n);
    if width > 1 {
      ZeroPaddedDigits(n, width - 1);
      DigitCount(n, width - 1);
      if n < TenTo(width - 1) {
        assert "0" + Zeros(width - 1 - |digits|) == Zeros(width - |digits|);
      }
    }
  }

  /** The label of a key result: its key number, its layer's name and its value, or a dash for none. */
  function KeyLabel(keyIndex: nat, layerName: string, value: string): string {
    "Key #" + ZeroPadded(keyIndex, 2) + " · " + layerName + " · " + (if value == "" then "—" else value)
  }

  /** The result for slot `keyIndex` of the layer at `layerIndex`. */
  function KeyResult(layerIndex: nat, keyIndex: nat, record: Store.LayerRecord): SearchResult
    requires keyIndex < |record.slots|
  {
    SearchResult(KeyMatch, KeyLabel(keyIndex, record.name, TextOf(record.slots[keyIndex], "value")), layerIndex, keyIndex, [])
  }

  /** The results added by the slot at `keyIndex`: its result when it matches, else none. */
  function SlotHit(layerIndex: nat, record: Store.LayerRecord, keyIndex: nat, matches: Json -> bool): seq<SearchResult>
    requires keyIndex < |record.slots|
  {
    if matches(record.slots[keyIndex]) then [KeyResult(layerIndex, keyIndex, record)] else []
  }

  /** The results of the first `count` slots of one layer: one per matching slot, in key order. */
  function SlotHits(layerIndex: nat, record: Store.LayerRecord, count: nat, matches: Json -> bool): seq<SearchResult>
    requires count <= |record.slots|
    decreases count
  {
    if count == 0 then []
    else SlotHits(layerIndex, record, count - 1, matches) + SlotHit(layerIndex, record, count - 1, matches)
  }

  /** The key results of the first `count` layers, layer after layer. */
  function KeyHits(layers: seq<Store.LayerRecord>, count: nat, matches: Json -> bool): seq<SearchResult>
    requires count <= |layers|
    decreases count
  {
    if count == 0 then []
    else KeyHits(layers, count - 1, matches) + SlotHits(count - 1, layers[count - 1], |layers[count - 1].slots|, matches)
  }

  /** `a` comes before `b` in layer order, then key order. */
  predicate Before(a: SearchResult, b: SearchResult) {
    a.layerIndex < b.layerIndex || (a.layerIndex == b.layerIndex && a.keyIndex < b.keyIndex)
  }

  /** Results in strictly increasing (layer, key) order. */
  predicate Ordered(r: seq<SearchResult>) {
    forall k, m :: 0 <= k < m < |r| ==> Before(r[k], r[m])
  }

  /** `r` holds results of matching slots of `record` below `bound`, with strictly increasing keys. */
  predicate SlotResults(r: seq<SearchResult>, layerIndex: nat, record: Store.LayerRecord, bound: nat, matches: Json -> bool) {
    && (forall k :: 0 <= k < |r| ==>
          && 0 <= r[k].keyIndex < bound && r[k].keyIndex < |record.slots|
          && matches(record.slots[r[k].keyIndex])
          && r[k] == KeyResult(layerIndex, r[k].keyIndex, record))
    && (forall k, m :: 0 <= k < m < |r| ==> r[k].keyIndex < r[m].keyIndex)
  }

  /** Each result of a layer is the result of a matching slot below `count`, in strictly increasing key order. */
  lemma {:induction false} SlotHitsSound(layerIndex: nat, record: Store.LayerRecord, count: nat, matches: Json -> bool)
    requires count <= |record.slots|
    ensures SlotResults(SlotHits(layerIndex, record, count, matches), layerIndex, record, count, matches)
    decreases count
  {
    if count > 0 {
      var n := count - 1;
      SlotHitsSound(layerIndex, record, n, matches);
      SlotResultsSnoc(SlotHits(layerIndex, record, n, matches), layerIndex, record, n, matches);
    }
  }

  /** The step of `SlotHitsSound`: the results below `n`, then those of slot `n`. */
  lemma SlotResultsSnoc(prev: seq<SearchResult>, layerIndex: nat, record: Store.LayerRecord, n: nat, matches: Json -> bool)
    requires n < |record.slots|
    requires SlotResults(prev, layerIndex, record, n, matches)
    ensures SlotResults(prev + SlotHit(layerIndex, record, n, matches), layerIndex, record, n + 1, matches)
  {
    var tail := SlotHit(layerIndex, record, n, matches);
    var r := prev + tail;
    forall k | 0 <= k < |r|
      ensures 0 <= r[k].keyIndex < n + 1 && r[k].keyIndex < |record.slots|
      ensures matches(record.slots[r[k].keyIndex])
      ensures r[k] == KeyResult(layerIndex, r[k].keyIndex, record)
    {
      if k < |prev| {
        assert r[k] == prev[k];
      } else {
        assert r[k] == tail[0];
      }
    }
    forall k, m | 0 <= k < m < |r|
      ensures r[k].keyIndex < r[m].keyIndex
    {
      if m < |prev| {
        assert r[k] == prev[k] && r[m] == prev[m];
      } else {
        assert r[k] == prev[k] && r[m] == tail[0];
      }
    }
  }

  /** Every matching slot below `count` has its result. */
  lemma {:induction false} SlotHitsComplete(layerIndex: nat, record: Store.LayerRecord, count: nat, matches: Json -> bool, i: nat)
    requires count <= |record.slots| && i < count && matches(record.slots[i])
    ensures KeyResult(layerIndex, i, record) in SlotHits(layerIndex, record, count, matches)
    decreases count
  {
    var prev := SlotHits(layerIndex, record, count - 1, matches);
    var tail := SlotHit(layerIndex, record, count - 1, matches);
    assert SlotHits(layerIndex, record, count, matches) == prev + tail;
    if i < count - 1 {
      SlotHitsComplete(layerIndex, record, count - 1, matches, i);
    } else {
      assert tail == [KeyResult(layerIndex, i, record)];
    }
  }

  /**
   * `r` holds results of matching slots of the layers below `bound`, each
   * naming a real layer and slot, ordered by layer and then by key.
   */
  predicate KeyResults(r: seq<SearchResult>, layers: seq<Store.LayerRecord>, bound: nat, matches: Json -> bool) {
    && (forall k :: 0 <= k < |r| ==>
          && 0 <= r[k].layerIndex < bound && r[k].layerIndex < |layers|
          && 0 <= r[k].keyIndex < |layers[r[k].layerIndex].slots|
          && matches(layers[r[k].layerIndex].slots[r[k].keyIndex])
          && r[k] == KeyResult(r[k].layerIndex, r[k].keyIndex, layers[r[k].layerIndex]))
    && Ordered(r)
  }

  /** The key results are results of matching slots, ordered by layer and then by key. */
  lemma {:induction false} KeyHitsSound(layers: seq<Store.LayerRecord>, count: nat, matches: Json -> bool)
    requires count <= |layers|
    ensures KeyResults(KeyHits(layers, count, matches), layers, count, matches)
    decreases count
  {
    if count > 0 {
      var n := count - 1;
      KeyHitsSound(layers, n, matches);
      SlotHitsSound(n, layers[n], |layers[n].slots|, matches);
      KeyResultsConcat(layers, n, KeyHits(layers, n, matches), SlotHits(n, layers[n], |layers[n].slots|, matches), matches);
    }
  }

  /** The step of `KeyHitsSound`: the results of the layers below `n`, then those of layer `n`. */
  lemma KeyResultsConcat(layers: seq<Store.LayerRecord>, n: nat, a: seq<SearchResult>, b: seq<SearchResult>, matches: Json -> bool)
    requires n < |layers|
    requires KeyResults(a, layers, n, matches)
    requires SlotResults(b, n, layers[n], |layers[n].slots|, matches)
    ensures KeyResults(a + b, layers, n + 1, matches)
  {
    var r := a + b;
    forall k | 0 <= k < |r|
      ensures 0 <= r[k].layerIndex < n + 1 && r[k].layerIndex < |layers|
      ensures 0 <= r[k].keyIndex < |layers[r[k].layerIndex].slots|
      ensures matches(layers[r[k].layerIndex].slots[r[k].keyIndex])
      ensures r[k] == KeyResult(r[k].layerIndex, r[k].keyIndex, layers[r[k].layerIndex])
    {
      if k < |a| {
        assert r[k] == a[k];
      } else {
        assert r[k] == b[k - |a|];
      }
    }
    forall k, m | 0 <= k < m < |r|
      ensures Before(r[k], r[m])
    {
      if m < |a| {
        assert r[k] == a[k] && r[m] == a[m];
      } else if k >= |a| {
        assert r[k] == b[k - |a|] && r[m] == b[m - |a|];
      } else {
        assert r[k] == a[k] && r[m] == b[m - |a|];
      }
    }
  }

  /** Every matching slot of the first `count` layers has its result. */
  lemma {:induction false} KeyHitsComplete(layers: seq<Store.LayerRecord>, count: nat, matches: Json -> bool, layerIndex: nat, keyIndex: nat)
    requires count <= |layers| && layerIndex < count && keyIndex < |layers[layerIndex].slots|
    requires matches(layers[layerIndex].slots[keyIndex])
    ensures KeyResult(layerIndex, keyIndex, layers[layerIndex]) in KeyHits(layers, count, matches)
    decreases count
  {
    if layerIndex < count - 1 {
      KeyHitsComplete(layers, count - 1, matches, layerIndex, keyIndex);
    } else {
      SlotHitsComplete(layerIndex, layers[layerIndex], |layers[layerIndex].slots|, matches, keyIndex);
    }
  }

  /**
   * The `_find_keys` loops: layers in order, and the slots of each layer in
   * order; a search runs it with `Matcher(needle)`.
   */
  method FindKeys(layers: seq<Store.LayerRecord>, matches: Json -> bool) returns (found: seq<SearchResult>)
    ensures found == KeyHits(layers, |layers|, matches)
  {
    found := [];
    var layerIndex := 0;
    while layerIndex < |layers|
      invariant 0 <= layerIndex <= |layers|
      invariant found == KeyHits(layers, layerIndex, matches)
    {
      var hits := FindSlots(layerIndex, layers[layerIndex], matches);
      KeyHitsNext(layers, layerIndex, matches);
      found := found + hits;
      layerIndex := layerIndex + 1;
    }
  }

  /** One more layer adds its slots' results at the end. */
  lemma KeyHitsNext(layers: seq<Store.LayerRecord>, n: nat, matches: Json -> bool)
    requires n < |layers|
    ensures KeyHits(layers, n + 1, matches) == KeyHits(layers, n, matches) + SlotHits(n, layers[n], |layers[n].slots|, matches)
  {
  }

  /** One more slot adds its result, if it matches, at the end. */
  lemma SlotHitsNext(layerIndex: nat, record: Store.LayerRecord, n: nat, matches: Json -> bool)
    requires n < |record.slots|
    ensures SlotHits(layerIndex, record, n + 1, matches)
      == SlotHits(layerIndex, record, n, matches) + if matches(record.slots[n]) then [KeyResult(layerIndex, n, record)] else []
  {
  }

  /** The inner loop of `_find_keys`: the matching slots of one layer, in key order. */
  method FindSlots(layerIndex: nat, record: Store.LayerRecord, matches: Json -> bool) returns (hits: seq<SearchResult>)
    ensures hits == SlotHits(layerIndex, record, |record.slots|, matches)
  {
    hits := [];
    var keyIndex := 0;
    while keyIndex < |record.slots|
      invariant 0 <= keyIndex <= |record.slots|
      invariant hits == SlotHits(layerIndex, record, keyIndex, matches)
    {
      SlotHitsNext(layerIndex, record, keyIndex, matches);
      if matches(record.slots[keyIndex]) {
        hits := hits + [KeyResult(layerIndex, keyIndex, record)];
      }
      keyIndex := keyIndex + 1;
    }
  }

  // ---------------------------------------------------------------------
  // _find_macros / _find_listeners

  /** The two named catalogues searched after the keys. */
  datatype Catalogue = Macros | Listeners

  function KindOf(c: Catalogue): MatchKind {
    match c
    case Macros => MacroMatch
    case Listeners => ListenerMatch
  }

  /** The field naming an entry: a macro's "name", a listener's "code". */
  function NameKey(c: Catalogue): string {
    match c
    case Macros => "name"
    case Listeners => "code"
  }

  function Title(c: Catalogue): string {
    match c
    case Macros => "Macro"
    case Listeners => "Listener"
  }

  /** The metadata key naming the entry. */
  function Tag(c: Catalogue): string {
    match c
    case Macros => "macro"
    case Listeners => "listener"
  }

  /**
   * `_reference_location`: the first key referencing the entry, else the
   * current selection with negative indices raised to 0.
   */
  function ReferenceLocation(keys: seq<(int, int)>, selection: (int, int)): (r: (int, int))
    ensures keys != [] ==> r == keys[0]
    ensures keys == [] ==> r.0 >= 0 && r.1 >= 0 && (selection.0 >= 0 ==> r.0 == selection.0) && (selection.1 >= 0 ==> r.1 == selection.1)
  {
    if keys != [] then keys[0]
    else (if selection.0 > 0 then selection.0 else 0, if selection.1 > 0 then selection.1 else 0)
  }

  /**
   * The result for one macro or listener: none without a name or when the
   * needle is in neither its name nor its description; else one located at
   * its first reference.
   */
  function NamedHit(c: Catalogue, item: Json, needle: string, refs: string -> seq<(int, int)>, selection: (int, int))
    : (r: Option<SearchResult>)
    ensures r.Some? ==> r.value.kind == KindOf(c) && r.value.metadata == [(Tag(c), TextOf(item, NameKey(c)))]
    ensures r.Some? <==>
      TextOf(item, NameKey(c)) != "" && Contains(Lower(TextOf(item, NameKey(c)) + " " + TextOf(item, "description")), needle)
  {
    var name := TextOf(item, NameKey(c));
    if name == "" then None
    else if !Contains(Lower(name + " " + TextOf(item, "description")), needle) then None
    else
      var location := ReferenceLocation(refs(name), selection);
      Some(SearchResult(KindOf(c), Title(c) + " · " + name, location.0, location.1, [(Tag(c), name)]))
  }

  /** The per-entry test of one catalogue's search, as a function value. */
  function NamedMatcher(c: Catalogue, needle: string, refs: string -> seq<(int, int)>, selection: (int, int))
    : Json -> Option<SearchResult>
  {
    item => NamedHit(c, item, needle, refs, selection)
  }

  /** The results `hit` gives the first `count` entries, in entry order. */
  function Collected(items: seq<Json>, count: nat, hit: Json -> Option<SearchResult>): (r: seq<SearchResult>)
    requires count <= |items|
    ensures |r| <= count
    decreases count
  {
    if count == 0 then []
    else
      Collected(items, count - 1, hit)
      + match hit(items[count - 1])
        case Some(found) => [found]
        case None => []
  }

  /** One more entry adds its result, if it has one, at the end. */
  lemma CollectedNext(items: seq<Json>, n: nat, hit: Json -> Option<SearchResult>)
    requires n < |items|
    ensures Collected(items, n + 1, hit) == Collected(items, n, hit) + if hit(items[n]).Some? then [hit(items[n]).value] else []
  {
  }

  /** The collected results are exactly the results of the entries that have one, in entry order. */
  lemma {:induction false} CollectedExact(items: seq<Json>, count: nat, hit: Json -> Option<SearchResult>)
    requires count <= |items|
    ensures var r := Collected(items, count, hit);
      && (forall k :: 0 <= k < |r| ==> exists i :: 0 <= i < count && hit(items[i]) == Some(r[k]))
      && (forall i :: 0 <= i < count && hit(items[i]).Some? ==> hit(items[i]).value in r)
    decreases count
  {
    if count > 0 {
      CollectedExact(items, count - 1, hit);
      var prev := Collected(items, count - 1, hit);
      var r := Collected(items, count, hit);
      forall k | 0 <= k < |r|
        ensures exists i :: 0 <= i < count && hit(items[i]) == Some(r[k])
      {
        if k < |prev| {
          assert r[k] == prev[k];
          var i :| 0 <= i < count - 1 && hit(items[i]) == Some(prev[k]);
        } else {
          assert hit(items[count - 1]) == Some(r[k]);
        }
      }
    }
  }

  /** A catalogue's results, in catalogue order. */
  function NamedHits(c: Catalogue, items: seq<Json>, needle: string, refs: string -> seq<(int, int)>, selection: (int, int))
    : seq<SearchResult>
  {
    Collected(items, |items|, NamedMatcher(c, needle, refs, selection))
  }

  /** Every result of a catalogue's search is of that catalogue's kind and names its entry in the metadata. */
  lemma NamedHitsKind(c: Catalogue, items: seq<Json>, needle: string, refs: string -> seq<(int, int)>, selection: (int, int))
    ensures var r := NamedHits(c, items, needle, refs, selection);
      forall k :: 0 <= k < |r| ==> r[k].kind == KindOf(c) && |r[k].metadata| == 1 && r[k].metadata[0].0 == Tag(c)
  {
    var hit := NamedMatcher(c, needle, refs, selection);
    var r := NamedHits(c, items, needle, refs, selection);
    CollectedExact(items, |items|, hit);
    forall k | 0 <= k < |r|
      ensures r[k].kind == KindOf(c) && |r[k].metadata| == 1 && r[k].metadata[0].0 == Tag(c)
    {
      var i :| 0 <= i < |items| && hit(items[i]) == Some(r[k]);
      assert NamedHit(c, items[i], needle, refs, selection) == Some(r[k]);
    }
  }

  /**
   * The `_find_macros` / `_find_listeners` loop; a search runs it with
   * `NamedMatcher`, whose `NamedHit` skips unnamed and non-matching entries.
   */
  method FindNamed(items: seq<Json>, hit: Json -> Option<SearchResult>) returns (found: seq<SearchResult>)
    ensures found == Collected(items, |items|, hit)
  {
    found := [];
    var i := 0;
    while i < |items|
      invariant 0 <= i <= |items|
      invariant found == Collected(items, i, hit)
    {
      var item := items[i];
      CollectedNext(items, i, hit);
      i := i + 1;
      match hit(item)
      case Some(result) =>
        found := found + [result];
      case None =>
    }
  }

  // ---------------------------------------------------------------------
  // _build_results

  /**
   * What a search reads from the store: the layers, the macros and
   * listeners with the keys referencing each (as layer and key indices),
   * and the current selection (layer and key index).
   */
  datatype Source = Source(
    layers: seq<Store.LayerRecord>,
    macros: seq<Json>,
    listeners: seq<Json>,
    macroRefs: string -> seq<(int, int)>,
    listenerRefs: string -> seq<(int, int)>,
    selection: (int, int))

  /** The query stripped and lower-cased. */
  function Needle(query: string): (r: string)
    ensures |r| == |Strip(query)|
  {
    Lower(Strip(query))
  }

  /** `_build_results`: nothing for a blank query; else the key, macro and listener results, in that order. */
  function BuildResults(query: string, src: Source): seq<SearchResult> {
    var needle := Needle(query);
    if needle == [] then []
    else
      KeyHits(src.layers, |src.layers|, Matcher(needle))
      + NamedHits(Macros, src.macros, needle, src.macroRefs, src.selection)
      + NamedHits(Listeners, src.listeners, needle, src.listenerRefs, src.selection)
  }

  /** The group a result is listed in: keys first, then macros, then listeners. */
  function Group(kind: MatchKind): nat {
    match kind
    case KeyMatch => 0
    case MacroMatch => 1
    case ListenerMatch => 2
  }

  /** A blank query finds nothing, and the results list every key match before every macro match, and those before every listener match. */
  lemma BuildResultsGrouped(query: string, src: Source)
    ensures Strip(query) == [] ==> BuildResults(query, src) == []
    ensures var r := BuildResults(query, src);
      forall k, m :: 0 <= k < m < |r| ==> Group(r[k].kind) <= Group(r[m].kind)
  {
    var needle := Needle(query);
    if needle != [] {
      var keys := KeyHits(src.layers, |src.layers|, Matcher(needle));
      var macros := NamedHits(Macros, src.macros, needle, src.macroRefs, src.selection);
      var listeners := NamedHits(Listeners, src.listeners, needle, src.listenerRefs, src.selection);
      KeyHitsSound(src.layers, |src.layers|, Matcher(needle));
      NamedHitsKind(Macros, src.macros, needle, src.macroRefs, src.selection);
      NamedHitsKind(Listeners, src.listeners, needle, src.listenerRefs, src.selection);
      GroupedConcat(keys, macros, listeners);
    }
  }

  /** The step of `BuildResultsGrouped`: three runs of one kind each, concatenated in group order. */
  lemma GroupedConcat(keys: seq<SearchResult>, macros: seq<SearchResult>, listeners: seq<SearchResult>)
    requires forall k :: 0 <= k < |keys| ==> keys[k].kind == KeyMatch
    requires forall k :: 0 <= k < |macros| ==> macros[k].kind == MacroMatch
    requires forall k :: 0 <= k < |listeners| ==> listeners[k].kind == ListenerMatch
    ensures var r := keys + macros + listeners;
      forall k, m :: 0 <= k < m < |r| ==> Group(r[k].kind) <= Group(r[m].kind)
  {
    var r := keys + macros + listeners;
    forall k | 0 <= k < |r|
      ensures Group(r[k].kind) == if k < |keys| then 0 else if k < |keys| + |macros| then 1 else 2
    {
      if k < |keys| {
        assert r[k] == keys[k];
      } else if k < |keys| + |macros| {
        assert r[k] == macros[k - |keys|];
      } else {
        assert r[k] == listeners[k - |keys| - |macros|];
      }
    }
  }

  // ---------------------------------------------------------------------
  // _broadcast_highlights

  /** The layer highlights are shown for: the selected one, or the first when none is. */
  function ActiveLayer(selection: (int, int)): nat {
    if selection.0 > 0 then selection.0 else 0
  }

  /** `r` is a key result on `layer` for the key `x`. */
  predicate Highlighted(r: SearchResult, layer: int, x: int) {
    r.kind == KeyMatch && r.layerIndex == layer && r.keyIndex == x
  }

  /** The key indices of the key results on `layer`, in result order. */
  function HighlightIndices(results: seq<SearchResult>, layer: int): seq<int>
    decreases |results|
  {
    if results == [] then []
    else
      var n := |results| - 1;
      HighlightIndices(results[..n], layer)
      + if Highlighted(results[n], layer, results[n].keyIndex) then [results[n].keyIndex] else []
  }

  /** Highlighting two lists of results highlights the first's keys, then the second's. */
  lemma {:induction false} HighlightConcat(a: seq<SearchResult>, b: seq<SearchResult>, layer: int)
    ensures HighlightIndices(a + b, layer) == HighlightIndices(a, layer) + HighlightIndices(b, layer)
    decreases |b|
  {
    if b == [] {
      assert a + b == a;
    } else {
      var n := |b| - 1;
      HighlightConcat(a, b[..n], layer);
      assert (a + b)[..|a + b| - 1] == a + b[..n];
      assert (a + b)[|a + b| - 1] == b[n];
      ConcatAssoc(HighlightIndices(a, layer), HighlightIndices(b[..n], layer),
        if Highlighted(b[n], layer, b[n].keyIndex) then [b[n].keyIndex] else []);
    }
  }

  /** Results that are not key matches highlight nothing. */
  lemma {:induction false} HighlightNone(results: seq<SearchResult>, layer: int)
    requires forall k :: 0 <= k < |results| ==> results[k].kind != KeyMatch
    ensures HighlightIndices(results, layer) == []
    decreases |results|
  {
    if results != [] {
      var n := |results| - 1;
      assert forall k :: 0 <= k < n ==> results[..n][k] == results[k];
      HighlightNone(results[..n], layer);
    }
  }

  /** A key is highlighted exactly when some key result on the layer names it. */
  lemma {:induction false} HighlightMember(results: seq<SearchResult>, layer: int, x: int)
    ensures x in HighlightIndices(results, layer) <==> exists k :: 0 <= k < |results| && Highlighted(results[k], layer, x)
    decreases |results|
  {
    if results != [] {
      var n := |results| - 1;
      var prefix := results[..n];
      var tail := if Highlighted(results[n], layer, results[n].keyIndex) then [results[n].keyIndex] else [];
      assert HighlightIndices(results, layer) == HighlightIndices(prefix, layer) + tail;
      HighlightMember(prefix, layer, x);
      if x in HighlightIndices(prefix, layer) {
        var k :| 0 <= k < |prefix| && Highlighted(prefix[k], layer, x);
        assert results[k] == prefix[k];
      } else if x in tail {
        assert Highlighted(results[n], layer, x);
      }
      if exists k :: 0 <= k < |results| && Highlighted(results[k], layer, x) {
        var k :| 0 <= k < |results| && Highlighted(results[k], layer, x);
        if k < n {
          assert prefix[k] == results[k];
        }
      }
    }
  }

  /** When the results are ordered by layer and key, the highlighted keys increase strictly. */
  lemma {:induction false} HighlightIncreasing(results: seq<SearchResult>, layer: int)
    requires Ordered(results)
    ensures var h := HighlightIndices(results, layer);
      forall i, j :: 0 <= i < j < |h| ==> h[i] < h[j]
    decreases |results|
  {
    if results != [] {
      var n := |results| - 1;
      var prefix := results[..n];
      assert Ordered(prefix) by {
        forall k, m | 0 <= k < m < |prefix|
          ensures Before(prefix[k], prefix[m])
        {
          assert prefix[k] == results[k] && prefix[m] == results[m];
        }
      }
      HighlightIncreasing(prefix, layer);
      var hp := HighlightIndices(prefix, layer);
      if Highlighted(results[n], layer, results[n].keyIndex) {
        forall i | 0 <= i < |hp|
          ensures hp[i] < results[n].keyIndex
        {
          HighlightMember(prefix, layer, hp[i]);
          var k :| 0 <= k < |prefix| && Highlighted(prefix[k], layer, hp[i]);
          assert Before(results[k], results[n]);
        }
      }
    }
  }

  /** A key is highlighted among the key results exactly when the layer has that slot and it matches. */
  lemma KeyHighlights(layers: seq<Store.LayerRecord>, matches: Json -> bool, layer: nat, x: int)
    ensures x in HighlightIndices(KeyHits(layers, |layers|, matches), layer) <==>
      layer < |layers| && 0 <= x < |layers[layer].slots| && matches(layers[layer].slots[x])
  {
    var keys := KeyHits(layers, |layers|, matches);
    KeyHitsSound(layers, |layers|, matches);
    HighlightMember(keys, layer, x);
    if exists k :: 0 <= k < |keys| && Highlighted(keys[k], layer, x) {
      var k :| 0 <= k < |keys| && Highlighted(keys[k], layer, x);
      assert 0 <= keys[k].keyIndex < |layers[keys[k].layerIndex].slots|;
    }
    if layer < |layers| && 0 <= x < |layers[layer].slots| && matches(layers[layer].slots[x]) {
      KeyHitsComplete(layers, |layers|, matches, layer, x);
      var k :| 0 <= k < |keys| && keys[k] == KeyResult(layer, x, layers[layer]);
      assert Highlighted(keys[k], layer, x);
    }
  }

  /** Only the key results of a search are highlighted. */
  lemma SearchHighlightsKeys(query: string, src: Source)
    requires Needle(query) != []
    ensures var layer := ActiveLayer(src.selection);
      HighlightIndices(BuildResults(query, src), layer) == HighlightIndices(KeyHits(src.layers, |src.layers|, Matcher(Needle(query))), layer)
  {
    var needle := Needle(query);
    var layer := ActiveLayer(src.selection);
    var keys := KeyHits(src.layers, |src.layers|, Matcher(needle));
    var macros := NamedHits(Macros, src.macros, needle, src.macroRefs, src.selection);
    var listeners := NamedHits(Listeners, src.listeners, needle, src.listenerRefs, src.selection);
    NamedHitsKind(Macros, src.macros, needle, src.macroRefs, src.selection);
    NamedHitsKind(Listeners, src.listeners, needle, src.listenerRefs, src.selection);
    assert BuildResults(query, src) == keys + macros + listeners;
    HighlightConcat(keys + macros, listeners, layer);
    HighlightConcat(keys, macros, layer);
    HighlightNone(macros, layer);
    HighlightNone(listeners, layer);
  }

  /**
   * For a non-blank query, the highlighted keys are exactly the matching
   * slots of the active layer, in increasing key order.
   */
  lemma HighlightsOfSearch(query: string, src: Source)
    requires Needle(query) != []
    ensures var layer := ActiveLayer(src.selection);
      var h := HighlightIndices(BuildResults(query, src), layer);
      && (forall i, j :: 0 <= i < j < |h| ==> h[i] < h[j])
      && (forall x :: x in h <==>
            layer < |src.layers| && 0 <= x < |src.layers[layer].slots| && SlotMatches(src.layers[layer].slots[x], Needle(query)))
  {
    var needle := Needle(query);
    var layer := ActiveLayer(src.selection);
    var keys := KeyHits(src.layers, |src.layers|, Matcher(needle));
    SearchHighlightsKeys(query, src);
    KeyHitsSound(src.layers, |src.layers|, Matcher(needle));
    HighlightIncreasing(keys, layer);
    forall x
      ensures x in HighlightIndices(keys, layer) <==>
        layer < |src.layers| && 0 <= x < |src.layers[layer].slots| && SlotMatches(src.layers[layer].slots[x], needle)
    {
      KeyHighlights(src.layers, Matcher(needle), layer, x);
    }
  }

  // ---------------------------------------------------------------------
  // SearchPanel

  /** The messages the panel posts. */
  datatype PanelMessage =
    | Highlights(layerIndex: int, indices: seq<int>)
    | JumpRequested(layerIndex: int, keyIndex: int, jumpType: MatchKind, metadata: seq<(string, string)>)
    | PanelClosed

  /** `metadata.setdefault(key, value)`. */
  function SetDefault(metadata: seq<(string, string)>, key: string, value: string): (r: seq<(string, string)>)
    ensures key in KeysOf(r)
    ensures key in KeysOf(metadata) ==> r == metadata
  {
    if key in KeysOf(metadata) then metadata
    else
      KeysOfSnoc(metadata + [(key, value)]);
      assert (metadata + [(key, value)])[..|metadata|] == metadata;
      metadata + [(key, value)]
  }

  /** The metadata a jump carries: a macro or listener jump always names its entry's key. */
  function JumpMetadata(result: SearchResult): (r: seq<(string, string)>)
    ensures result.kind == MacroMatch ==> "macro" in KeysOf(r)
    ensures result.kind == ListenerMatch ==> "listener" in KeysOf(r)
  {
    match result.kind
    case MacroMatch => SetDefault(result.metadata, "macro", "")
    case ListenerMatch => SetDefault(result.metadata, "listener", "")
    case KeyMatch => result.metadata
  }

  /** The request `_jump` posts for a result. */
  function JumpMessage(target: SearchResult): (m: PanelMessage)
    ensures m.JumpRequested? && m.layerIndex == target.layerIndex && m.keyIndex == target.keyIndex && m.jumpType == target.kind
  {
    JumpRequested(target.layerIndex, target.keyIndex, target.kind, JumpMetadata(target))
  }

  /** `max(0, min(index, n - 1))`. */
  function Clamp(index: int, n: nat): (r: nat)
    requires n > 0
    ensures r < n
    ensures 0 <= index < n ==> r == index
    ensures index < 0 ==> r == 0
    ensures index >= n ==> r == n - 1
  {
    if index < 0 then 0 else if index >= n then n - 1 else index
  }

  /**
   * The panel's state: its results, the cursor (-1 before any jump), whether
   * it is open, its status line, and the log of messages it posted.
   */
  class SearchPanel {
    var results: seq<SearchResult>
    var cursor: int
    var visible: bool
    var status: string
    var posted: seq<PanelMessage>

    /** The cursor is -1 or the index of a result. */
    ghost predicate Valid()
      reads this
    {
      -1 <= cursor < |results|
    }

    constructor ()
      ensures Valid()
      ensures results == [] && cursor == -1 && !visible && status == "" && posted == []
    {
      results := [];
      cursor := -1;
      visible := false;
      status := "";
      posted := [];
    }

    /** `open`: an empty search, with no highlights. */
    method Open(selection: (int, int))
      modifies this
      ensures Valid()
      ensures visible && results == [] && cursor == -1 && status == "Type to search…"
      ensures posted == old(posted) + [Highlights(ActiveLayer(selection), [])]
    {
      visible := true;
      status := "Type to search…";
      results := [];
      cursor := -1;
      posted := posted + [Highlights(ActiveLayer(selection), [])];
    }

    /** `close`: nothing when already closed; else the results go, highlights are cleared and the closing is announced. */
    method Close(selection: (int, int))
      requires Valid()
      modifies this
      ensures Valid()
      ensures !visible
      ensures !old(visible) ==> results == old(results) && cursor == old(cursor) && posted == old(posted)
      ensures old(visible) ==>
        results == [] && cursor == -1 && posted == old(posted) + [Highlights(ActiveLayer(selection), []), PanelClosed]
      ensures status == old(status)
    {
      if !visible {
        return;
      }
      visible := false;
      results := [];
      cursor := -1;
      posted := posted + [Highlights(ActiveLayer(selection), []), PanelClosed];
    }

    /** `_handle_input_changed`: a new query replaces the results, resets the cursor and highlights the matches. */
    method InputChanged(query: string, src: Source)
      modifies this
      ensures Valid()
      ensures results == BuildResults(query, src) && cursor == -1
      ensures status == NatToString(|results|) + " match(es)"
      ensures posted == old(posted) + [Highlights(ActiveLayer(src.selection), HighlightIndices(results, ActiveLayer(src.selection)))]
      ensures visible == old(visible)
    {
      results := BuildResults(query, src);
      cursor := -1;
      status := NatToString(|results|) + " match(es)";
      var layer := ActiveLayer(src.selection);
      posted := posted + [Highlights(layer, HighlightIndices(results, layer))];
    }

    /** `_jump`: nothing without results; else the index, clamped to the results, becomes the cursor and is jumped to. */
    method Jump(index: int)
      requires Valid()
      modifies this
      ensures Valid()
      ensures results == old(results) && visible == old(visible)
      ensures old(results) == [] ==> cursor == old(cursor) && status == old(status) && posted == old(posted)
      ensures old(results) != [] ==>
        var target := results[Clamp(index, |results|)];
        && cursor == Clamp(index, |results|)
        && posted == old(posted) + [JumpMessage(target)]
        && status == "Jumped to " + target.labelText
    {
      if results == [] {
        return;
      }
      var i := if index < 0 then 0 else if index > |results| - 1 then |results| - 1 else index;
      cursor := i;
      var target := results[i];
      posted := posted + [JumpMessage(target)];
      status := "Jumped to " + target.labelText;
    }

    /** `action_jump` (Enter): jump to the cursor, or to the first result before any jump. */
    method ActionJump()
      requires Valid()
      modifies this
      ensures Valid()
      ensures results == old(results) && visible == old(visible)
      ensures old(results) == [] ==> cursor == old(cursor) && posted == old(posted)
      ensures old(results) != [] ==>
        && cursor == (if old(cursor) >= 0 then old(cursor) else 0)
        && posted == old(posted) + [JumpMessage(results[cursor])]
        && status == "Jumped to " + results[cursor].labelText
    {
      Jump(if cursor >= 0 then cursor else 0);
    }

    /** `next_result` (F3 / Shift+F3): nothing without results; else the cursor moves by `delta`, wrapping around. */
    method NextResult(delta: int)
      requires Valid()
      modifies this
      ensures Valid()
      ensures results == old(results) && visible == old(visible)
      ensures old(results) == [] ==> cursor == old(cursor) && posted == old(posted)
      ensures old(results) != [] ==>
        && cursor == Wrapped(old(cursor), delta, |results|)
        && posted == old(posted) + [JumpMessage(results[cursor])]
        && status == "Jumped to " + results[cursor].labelText
    {
      if results == [] {
        return;
      }
      cursor := (cursor + delta) % |results|;
      Jump(cursor);
    }
  }

  /** `(cursor + delta) % n` with Python's modulo, which for a positive `n` lies in `0..n`. */
  function Wrapped(cursor: int, delta: int, n: nat): (r: nat)
    requires n > 0
    ensures r < n
  {
    (cursor + delta) % n
  }

  /** Stepping forward and then back returns to the same result. */
  lemma ForwardThenBack(cursor: int, n: nat)
    requires n > 0 && 0 <= cursor < n
    ensures Wrapped(Wrapped(cursor, 1, n), -1, n) == cursor
  {
    if cursor < n - 1 {
      assert Wrapped(cursor, 1, n) == cursor + 1;
    } else {
      assert Wrapped(cursor, 1, n) == 0;
    }
  }

  /** Stepping forward from the last result wraps to the first, and back from the first to the last. */
  lemma WrapsAtEnds(n: nat)
    requires n > 0
    ensures Wrapped(n - 1, 1, n) == 0
    ensures Wrapped(0, -1, n) == n - 1
  {
  }

  /**
   * Before any jump the cursor is -1: stepping forward lands on the first
   * result, but stepping back lands on the second-to-last one (the last
   * one when there is only one result).
   */
  lemma SteppingFromNoCursor(n: nat)
    requires n > 0
    ensures Wrapped(-1, 1, n) == 0
    ensures n >= 2 ==> Wrapped(-1, -1, n) == n - 2
    ensures n == 1 ==> Wrapped(-1, -1, n) == 0
  {
  }
}
