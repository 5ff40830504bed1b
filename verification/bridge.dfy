/**
 * The editor's feature-bundle bridge: previewing and applying the home-row
 * mods bundle to the store's layout, placing the bundle's layers as one block
 * next to a target layer, and summarising what the bundle adds.
 */
module Bridge {
  import opened Wrappers
  import opened Json
  import opened Text
  import opened Seqs
  import opened Layout

  /**
   * `FeatureDiff`. The added macro and hold-tap names are built by iterating
   * a set, so only their members are meaningful: they are sets here.
   */
  datatype FeatureDiff = FeatureDiff(
    feature: string,
    targetLayer: string,
    layersAdded: seq<string>,
    macrosAdded: set<string>,
    holdTapsAdded: set<string>,
    combosAdded: int,
    listenersAdded: int,
    layerOrder: seq<string>)

  /** Every count is zero and every added collection is empty. */
  predicate NoChanges(d: FeatureDiff) {
    d.layersAdded == [] && d.macrosAdded == {} && d.holdTapsAdded == {} && d.combosAdded == 0 && d.listenersAdded == 0
  }

  /** One summary token, `f"+{count}{unit}"`. */
  function Token(count: int, unit: string): (r: string)
    requires forall i :: 0 <= i < |unit| ==> IsAlpha(unit[i])
    ensures IsWord(r) && r[0] == '+'
  {
    var r := "+" + IntToString(count) + unit;
    assert forall i :: 0 <= i < |r| ==> r[i] == '+' || r[i] == '-' || IsDigit(r[i]) || IsAlpha(r[i]);
    NoSpaceAll(r);
    r
  }

  /** Every part is a word starting with `+`. */
  predicate AllTokens(parts: seq<string>) {
    forall k :: 0 <= k < |parts| ==> IsWord(parts[k]) && parts[k][0] == '+'
  }

  lemma AllTokensConcat(a: seq<string>, b: seq<string>)
    requires AllTokens(a) && AllTokens(b)
    ensures AllTokens(a + b)
  {
    forall k | 0 <= k < |a + b|
      ensures IsWord((a + b)[k]) && (a + b)[k][0] == '+'
    {
      if k < |a| {
        assert (a + b)[k] == a[k];
      } else {
        assert (a + b)[k] == b[k - |a|];
      }
    }
  }

  /** One token when `present`, none otherwise. */
  function TokenIf(present: bool, count: int, unit: string): (r: seq<string>)
    requires forall i :: 0 <= i < |unit| ==> IsAlpha(unit[i])
    ensures (r == []) == !present && AllTokens(r)
  {
    if present then [Token(count, unit)] else []
  }

  /** The tokens `summary` joins: layers, macros, hold-taps, combos, listeners, each only when non-zero. */
  function Parts(d: FeatureDiff): (r: seq<string>)
    ensures r == [] <==> NoChanges(d)
  {
    TokenIf(d.layersAdded != [], |d.layersAdded|, "L")
    + TokenIf(d.macrosAdded != {}, |d.macrosAdded|, "M")
    + TokenIf(d.holdTapsAdded != {}, |d.holdTapsAdded|, "HT")
    + TokenIf(d.combosAdded != 0, d.combosAdded, "C")
    + TokenIf(d.listenersAdded != 0, d.listenersAdded, "IL")
  }

  /** `FeatureDiff.summary`. */
  function Summary(d: FeatureDiff): string {
    var parts := Parts(d);
    if parts != [] then Join(" ", parts) else "No changes"
  }

  /**
   * The summary reads "No changes" exactly when nothing is added; otherwise
   * it splits on spaces back into its tokens.
   */
  lemma SummaryReadsBack(d: FeatureDiff)
    ensures Summary(d) == "No changes" <==> NoChanges(d)
    ensures !NoChanges(d) ==> Split(Summary(d)) == Parts(d)
  {
    var parts := Parts(d);
    if parts != [] {
      PartsAreTokens(d);
      JoinStartsWithFirst(parts);
      SplitJoin(parts);
    }
  }

  /** Every summary part is a `+` token. */
  lemma PartsAreTokens(d: FeatureDiff)
    ensures AllTokens(Parts(d))
  {
    var l := TokenIf(d.layersAdded != [], |d.layersAdded|, "L");
    var m := TokenIf(d.macrosAdded != {}, |d.macrosAdded|, "M");
    var h := TokenIf(d.holdTapsAdded != {}, |d.holdTapsAdded|, "HT");
    var c := TokenIf(d.combosAdded != 0, d.combosAdded, "C");
    var i := TokenIf(d.listenersAdded != 0, d.listenersAdded, "IL");
    AllTokensConcat(l, m);
    AllTokensConcat(l + m, h);
    AllTokensConcat(l + m + h, c);
    AllTokensConcat(l + m + h + c, i);
  }

  // ---------------------------------------------------------------------
  // _names

  /** `_names`: the string "name" values of the mapping items. */
  function NameSet(items: seq<Json>): (r: set<string>)
    decreases |items|
  {
    if items == [] then {}
    else
      var n := |items| - 1;
      NameSet(items[..n]) + match StrField(items[n], "name") case Some(s) => {s} case None => {}
  }

  /** A name is collected exactly when some mapping item carries it as a string "name". */
  lemma {:induction false} NameSetMembers(items: seq<Json>, s: string)
    ensures s in NameSet(items) <==> exists i :: 0 <= i < |items| && StrField(items[i], "name") == Some(s)
    decreases |items|
  {
    if items != [] {
      var n := |items| - 1;
      NameSetMembers(items[..n], s);
      assert forall i :: 0 <= i < n ==> items[..n][i] == items[i];
    }
  }

  /** The `_names` loop. */
  method CollectNames(items: seq<Json>) returns (names: set<string>)
    ensures names == NameSet(items)
  {
    names := {};
    var i := 0;
    while i < |items|
      invariant 0 <= i <= |items|
      invariant names == NameSet(items[..i])
    {
      assert items[..i + 1][..i] == items[..i];
      var value := StrField(items[i], "name");
      if value.Some? {
        names := names + {value.value};
      }
      i := i + 1;
    }
    assert items[..i] == items;
  }

  // ---------------------------------------------------------------------
  // _reorder_layers

  datatype BridgeError =
    | Unavailable                  // ValueError: the variant has no home-row layers
    | UnknownTarget(name: string)  // ValueError: the target is not a layer of the layout
    | TargetRemoved(name: string)  // ValueError: the target is one of the bundle's own layers
    | MissingLayer(name: string)   // KeyError: an ordered name with no layer paired to it

  /** The layout after `_reorder_layers`, as far as it got, and the error it raised, if any. */
  datatype Reordered = Reordered(layout: Payload, error: Option<BridgeError>)

  /** Where the block goes: just after the target among the remaining names, or just before it. */
  function BlockAt(names: seq<string>, componentNames: seq<string>, target: string, after: bool): (at: nat)
    requires target in Without(names, componentNames)
    ensures at <= |Without(names, componentNames)|
  {
    IndexOf(Without(names, componentNames), target) + if after then 1 else 0
  }

  /** `updated_order`: the names other than the bundle's, with the bundle's names spliced in as one block. */
  function PlacedOrder(names: seq<string>, componentNames: seq<string>, target: string, after: bool)
    : Result<seq<string>, BridgeError>
  {
    if target !in names then Err(UnknownTarget(target))
    else if target !in Without(names, componentNames) then Err(TargetRemoved(target))
    else
      var sanitized := Without(names, componentNames);
      var at := BlockAt(names, componentNames, target, after);
      Ok(sanitized[..at] + componentNames + sanitized[at..])
  }

  /** Placing fails exactly when the target is not a layer name or is one of the bundle's. */
  lemma PlacedOrderErrors(names: seq<string>, componentNames: seq<string>, target: string, after: bool)
    ensures PlacedOrder(names, componentNames, target, after).Err? <==> target !in names || target in componentNames
    ensures PlacedOrder(names, componentNames, target, after) == Err(UnknownTarget(target)) <==> target !in names
  {
    if target in names && target !in componentNames {
      assert names[IndexOf(names, target)] == target;
    }
  }

  /**
   * A placed order holds the bundle's names as one block, directly after
   * the target (or directly before it); removing the block leaves the other
   * names in their old relative order.
   */
  lemma PlacedOrderBlock(names: seq<string>, componentNames: seq<string>, target: string, after: bool)
    requires PlacedOrder(names, componentNames, target, after).Ok?
    ensures var order := PlacedOrder(names, componentNames, target, after).value;
      var at := BlockAt(names, componentNames, target, after);
      var c := |componentNames|;
      && |order| == |Without(names, componentNames)| + c
      && order[at..at + c] == componentNames
      && order[..at] + order[at + c..] == Without(names, componentNames)
      && (after ==> 0 < at && order[at - 1] == target)
      && (!after ==> at + c < |order| && order[at + c] == target)
  {
    var sanitized := Without(names, componentNames);
    var at := BlockAt(names, componentNames, target, after);
    SpliceShape(sanitized, componentNames, at);
    var t := IndexOf(sanitized, target);
    assert sanitized[t] == target;
  }

  /** The placed order holds the names plus the bundle's; with no repeats on either side, it has none. */
  lemma PlacedOrderMembers(names: seq<string>, componentNames: seq<string>, target: string, after: bool)
    requires PlacedOrder(names, componentNames, target, after).Ok?
    ensures var order := PlacedOrder(names, componentNames, target, after).value;
      && (forall x :: x in order <==> x in names || x in componentNames)
      && (NoDup(names) && NoDup(componentNames) ==> NoDup(order))
  {
    var sanitized := Without(names, componentNames);
    var at := BlockAt(names, componentNames, target, after);
    SpliceMembers(sanitized, componentNames, at);
    if NoDup(names) && NoDup(componentNames) {
      WithoutNoDup(names, componentNames);
      SpliceNoDup(sanitized, componentNames, at);
    }
  }

  /** `_reorder_layers`: `layer_names` is reassigned before `layers` is rebuilt, so a missing layer leaves the new order in place. */
  function Reorder(layout: Payload, componentNames: seq<string>, target: string, after: bool): Reordered {
    var names := SectionOr(layout.layerNames);
    match PlacedOrder(names, componentNames, target, after)
    case Err(err) => Reordered(layout, Some(err))
    case Ok(order) =>
      var byName := ZipIndex(names, SectionOr(layout.layers));
      var placed := layout.(layerNames := Some(order));
      match FirstUnfiled(order, byName)
      case Some(name) => Reordered(placed, Some(MissingLayer(name)))
      case None => Reordered(placed.(layers := Some(Rebuilt(order, byName))), None)
  }

  /**
   * After a successful reorder each layer entry is the old layer paired with
   * its name; with distinct names, that is the layer at the name's old place.
   */
  lemma ReorderPairs(layout: Payload, componentNames: seq<string>, target: string, after: bool)
    requires Reorder(layout, componentNames, target, after).error.None?
    ensures var names := SectionOr(layout.layerNames);
      var layers := SectionOr(layout.layers);
      var r := Reorder(layout, componentNames, target, after).layout;
      && PlacedOrder(names, componentNames, target, after).Ok?
      && r.layerNames == Some(PlacedOrder(names, componentNames, target, after).value)
      && r.layers.Some? && |r.layers.value| == |r.layerNames.value|
      && (NoDup(names) ==>
            forall i, j ::
              (0 <= i < |r.layerNames.value| && 0 <= j < |names| && j < |layers| && r.layerNames.value[i] == names[j])
              ==> r.layers.value[i] == layers[j])
  {
    var names := SectionOr(layout.layerNames);
    var layers := SectionOr(layout.layers);
    var k := if |names| <= |layers| then |names| else |layers|;
    if NoDup(names) {
      forall j | 0 <= j < |names| && j < |layers|
        ensures ZipIndex(names, layers)[names[j]] == layers[j]
      {
        ZippedPairs(names, layers, k, j);
      }
    }
  }

  /** With a layer for every name and the bundle's names already among them, a valid target always reorders. */
  lemma ReorderSucceeds(layout: Payload, componentNames: seq<string>, target: string, after: bool)
    requires |SectionOr(layout.layerNames)| <= |SectionOr(layout.layers)|
    requires forall k :: 0 <= k < |componentNames| ==> componentNames[k] in SectionOr(layout.layerNames)
    requires target in SectionOr(layout.layerNames) && target !in componentNames
    ensures Reorder(layout, componentNames, target, after).error.None?
  {
    var names := SectionOr(layout.layerNames);
    assert names[..|names|] == names;
    PlacedOrderErrors(names, componentNames, target, after);
    PlacedOrderMembers(names, componentNames, target, after);
  }

  /** A missing layer is found only after `layer_names` was replaced; `layers` is left as it was. */
  lemma ReorderMissing(layout: Payload, componentNames: seq<string>, target: string, after: bool)
    requires Reorder(layout, componentNames, target, after).error.Some?
    requires Reorder(layout, componentNames, target, after).error.value.MissingLayer?
    ensures var r := Reorder(layout, componentNames, target, after);
      var order := PlacedOrder(SectionOr(layout.layerNames), componentNames, target, after);
      var names := SectionOr(layout.layerNames);
      var paired := if |names| <= |SectionOr(layout.layers)| then |names| else |SectionOr(layout.layers)|;
      && order.Ok? && r.layout == layout.(layerNames := Some(order.value))
      && r.error.value.name in order.value
      && r.error.value.name !in names[..paired]
  {
  }

  /** `_reorder_layers` on the caller's layout dict. */
  method ReorderLayers(layout: Payload, componentNames: seq<string>, target: string, after: bool) returns (r: Reordered)
    ensures r == Reorder(layout, componentNames, target, after)
  {
    var names := SectionOr(layout.layerNames);
    if target !in names {
      return Reordered(layout, Some(UnknownTarget(target)));
    }
    var sanitized := Without(names, componentNames);
    if target !in sanitized {
      return Reordered(layout, Some(TargetRemoved(target)));
    }
    var at := IndexOf(sanitized, target) + if after then 1 else 0;
    var order := sanitized[..at] + componentNames + sanitized[at..];
    var byName := ZipIndex(names, SectionOr(layout.layers));
    var placed := layout.(layerNames := Some(order));
    var missing := FirstUnfiled(order, byName);
    if missing.Some? {
      return Reordered(placed, Some(MissingLayer(missing.value)));
    }
    r := Reordered(placed.(layers := Some(Rebuilt(order, byName))), None);
  }

  // ---------------------------------------------------------------------
  // _build_diff

  /** `_build_diff`: new layer names in bundle order, new macro and hold-tap names, and the growth of the counted sections. */
  function BuildDiff(original: Payload, mutated: Payload, componentNames: seq<string>, target: string): FeatureDiff {
    FeatureDiff(
      "hrm",
      target,
      Without(componentNames, SectionOr(original.layerNames)),
      NameSet(SectionOr(mutated.macros)) - NameSet(SectionOr(original.macros)),
      NameSet(SectionOr(mutated.holdTaps)) - NameSet(SectionOr(original.holdTaps)),
      |SectionOr(mutated.combos)| - |SectionOr(original.combos)|,
      |SectionOr(mutated.inputListeners)| - |SectionOr(original.inputListeners)|,
      SectionOr(mutated.layerNames))
  }

  /**
   * The layers added are the bundle's names the original order lacks, in
   * bundle order; the diff of a layout against itself, for a bundle whose
   * layers it already holds, is empty and summarised as "No changes".
   */
  lemma BuildDiffAdded(original: Payload, mutated: Payload, componentNames: seq<string>, target: string)
    ensures var d := BuildDiff(original, mutated, componentNames, target);
      && (forall x :: x in d.layersAdded <==> x in componentNames && x !in SectionOr(original.layerNames))
      && |d.layersAdded| <= |componentNames|
    ensures (forall k :: 0 <= k < |componentNames| ==> componentNames[k] in SectionOr(original.layerNames)) ==>
      Summary(BuildDiff(original, original, componentNames, target)) == "No changes"
  {
    var d := BuildDiff(original, original, componentNames, target);
    if forall k :: 0 <= k < |componentNames| ==> componentNames[k] in SectionOr(original.layerNames) {
      WithoutAll(componentNames, SectionOr(original.layerNames));
      assert d.layersAdded == [];
      SummaryReadsBack(d);
    }
  }

  // ---------------------------------------------------------------------
  // Preview and apply

  /** The bundle `_home_row_components` makes: the variant's layers and nothing else. */
  function HomeRowComponents(layers: OrderedMap<Layer>): Components {
    Components([], [], [], [], [], layers)
  }

  /**
   * `_apply_home_row_mods`: merge the bundle into a copy of the payload,
   * place its layers, and diff; a dry run hands back the original payload.
   * `merge` stands for `merge_components`, which is not part of this model.
   */
  function HomeRowMods(
    payload: Payload, layers: OrderedMap<Layer>, merge: (Payload, Components) -> Payload,
    target: string, after: bool, dryRun: bool): Result<(Payload, FeatureDiff), BridgeError>
  {
    if layers == [] then Err(Unavailable)
    else
      var names := KeysOf(layers);
      var placed := Reorder(merge(payload, HomeRowComponents(layers)), names, target, after);
      if placed.error.Some? then Err(placed.error.value)
      else Ok((if dryRun then payload else placed.layout, BuildDiff(payload, placed.layout, names, target)))
  }

  /** A dry run fails or succeeds as the real run does, reports the same diff, and returns the payload untouched. */
  lemma DryRunMatchesApply(
    payload: Payload, layers: OrderedMap<Layer>, merge: (Payload, Components) -> Payload, target: string, after: bool)
    ensures var dry := HomeRowMods(payload, layers, merge, target, after, true);
      var wet := HomeRowMods(payload, layers, merge, target, after, false);
      && (dry.Ok? <==> wet.Ok?)
      && (dry.Err? ==> dry.error == wet.error)
      && (dry.Ok? ==> dry.value.0 == payload && dry.value.1 == wet.value.1)
      && (wet.Ok? ==> wet.value.1.layerOrder == SectionOr(wet.value.0.layerNames))
  {
  }

  /**
   * `BuilderBridge`. The store it wraps is represented by the payload it
   * exports; `build_hrm_layers` and `merge_components` are not part of this
   * model and come in as functions.
   */
  class BuilderBridge {
    var payload: Payload
    const variant: string
    const homeRowLayers: string -> OrderedMap<Layer>
    const merge: (Payload, Components) -> Payload

    /** `variant or "windows"`. */
    constructor(payload: Payload, variant: string, homeRowLayers: string -> OrderedMap<Layer>, merge: (Payload, Components) -> Payload)
      ensures this.payload == payload && this.homeRowLayers == homeRowLayers && this.merge == merge
      ensures this.variant == if variant == "" then "windows" else variant
    {
      this.payload := payload;
      this.variant := if variant == "" then "windows" else variant;
      this.homeRowLayers := homeRowLayers;
      this.merge := merge;
    }

    /** `preview_home_row_mods`: the diff of a dry run; the store is not touched. */
    method PreviewHomeRowMods(target: string, after: bool) returns (r: Result<FeatureDiff, BridgeError>)
      ensures var run := HomeRowMods(payload, homeRowLayers(variant), merge, target, after, true);
        && (r.Ok? <==> run.Ok?)
        && (r.Err? ==> r.error == run.error)
        && (r.Ok? ==> r.value == run.value.1)
    {
      var run := HomeRowMods(payload, homeRowLayers(variant), merge, target, after, true);
      if run.Err? {
        return Err(run.error);
      }
      r := Ok(run.value.1);
    }

    /** `apply_home_row_mods`: the store takes the merged payload only when the diff reports a change. */
    method ApplyHomeRowMods(target: string, after: bool) returns (r: Result<FeatureDiff, BridgeError>)
      modifies this`payload
      ensures var run := HomeRowMods(old(payload), homeRowLayers(variant), merge, target, after, false);
        && (r.Ok? <==> run.Ok?)
        && (r.Err? ==> r.error == run.error && payload == old(payload))
        && (r.Ok? ==>
              (&& r.value == run.value.1
               && payload == if NoChanges(run.value.1) then old(payload) else run.value.0))
    {
      var run := HomeRowMods(payload, homeRowLayers(variant), merge, target, after, false);
      if run.Err? {
        return Err(run.error);
      }
      var (mutated, diff) := run.value;
      if !NoChanges(diff) {
        payload := mutated;
      }
      r := Ok(diff);
    }
  }
}
