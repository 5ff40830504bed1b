/**
 * `LayoutBuilder`: the mutable bookkeeping of a layout under construction.
 * It keeps an ordered list of layer names, a name-to-layer mapping and the
 * macro, hold-tap, combo and input-listener lists, and merges layers and
 * feature bundles into them. Its layer order never holds a name twice.
 */
module Builder {
  import opened Wrappers
  import opened Json
  import opened Seqs
  import opened Layout
  import opened Merge

  /** The builder's `_Sections`. */
  datatype Sections = Sections(
    layerNames: seq<string>,
    layers: map<string, Layer>,
    macros: seq<Json>,
    holdTaps: seq<Json>,
    combos: seq<Json>,
    inputListeners: seq<Json>)

  datatype BuilderError =
    | NoProvider                          // ValueError: no home-row provider configured
    | UnknownTarget(name: string)         // ValueError: the target layer is not in the order
    | SectionsFailed(sectionError: SectionError) // raised by the section merge
    | LayersFailed(layerError: LayerMergeError) // KeyError for a missing layer, ValueError for anchors
    | MissingLayerData(names: seq<string>) // KeyError from `build`, listing every name without data

  /** The sections after an operation, with the error it raised, if any. */
  datatype Outcome = Outcome(sections: Sections, error: Option<BuilderError>)

  // ---------------------------------------------------------------------
  // add_layers

  /** The position of the first name the mapping lacks (the length when there is none). */
  function FirstMissingIndex(order: seq<string>, layers: OrderedMap<Layer>): (k: nat)
    ensures k <= |order|
    ensures forall i :: 0 <= i < k ==> order[i] in KeysOf(layers)
    ensures k < |order| ==> order[k] !in KeysOf(layers)
  {
    if order == [] || order[0] !in KeysOf(layers) then 0
    else 1 + FirstMissingIndex(order[1..], layers)
  }

  /**
   * `add_layers`: nothing for an empty mapping; two anchors refused; each
   * ordered name's layer written in turn until one is missing; then the
   * names inserted into the order.
   */
  function LayersAdded(s: Sections, layers: OrderedMap<Layer>, after: Option<string>, before: Option<string>,
                       explicitOrder: Option<seq<string>>): Outcome
  {
    if layers == [] then Outcome(s, None)
    else if after.Some? && before.Some? then Outcome(s, Some(LayersFailed(BadAnchor(BothAnchors))))
    else
      var order := DesiredOrder(layers, explicitOrder);
      var k := FirstMissingIndex(order, layers);
      var written := WriteLayers(s.layers, order[..k], layers, None);
      if k < |order| then Outcome(s.(layers := written), Some(LayersFailed(LayerMissing(order[k]))))
      else
        match InsertNames(s.layerNames, order, after, before)
        case Err(err) => Outcome(s.(layers := written), Some(LayersFailed(BadAnchor(err))))
        case Ok(names) => Outcome(s.(layerNames := names, layers := written), None)
  }

  /** The write loop of `add_layers`: layers are stored in order until a name is missing from the mapping. */
  method WriteUntilMissing(byName: map<string, Layer>, order: seq<string>, layers: OrderedMap<Layer>)
    returns (written: map<string, Layer>, k: nat)
    ensures k == FirstMissingIndex(order, layers)
    ensures written == WriteLayers(byName, order[..k], layers, None)
  {
    written := byName;
    k := 0;
    while k < |order|
      invariant 0 <= k <= FirstMissingIndex(order, layers)
      invariant written == WriteLayers(byName, order[..k], layers, None)
    {
      var name := order[k];
      if name !in KeysOf(layers) {
        return;
      }
      WriteLayersStep(byName, order, layers, None, k);
      written := written[name := ComponentLayer(layers, name, None)];
      k := k + 1;
    }
  }

  /**
   * What `add_layers` promises: an empty mapping or two anchors change
   * nothing; a missing name leaves the order alone but keeps the layers
   * written before it (the call is not all-or-nothing); success writes every
   * ordered layer, adds exactly the ordered names to the order, and keeps the
   * order free of repeats. Only the layers and the order ever change.
   */
  lemma LayersAddedEffect(s: Sections, layers: OrderedMap<Layer>, after: Option<string>, before: Option<string>,
                          explicitOrder: Option<seq<string>>)
    ensures var o := LayersAdded(s, layers, after, before, explicitOrder);
      && o.sections.macros == s.macros && o.sections.holdTaps == s.holdTaps
      && o.sections.combos == s.combos && o.sections.inputListeners == s.inputListeners
      && (layers == [] ==> o == Outcome(s, None))
      && (layers != [] && after.Some? && before.Some? ==> o.sections == s && o.error.Some?)
    ensures var o := LayersAdded(s, layers, after, before, explicitOrder);
      var order := DesiredOrder(layers, explicitOrder);
      o.error.Some? && o.error.value.LayersFailed? && o.error.value.layerError.LayerMissing? ==>
        && o.sections.layerNames == s.layerNames
        && o.error.value.layerError.name in order && o.error.value.layerError.name !in KeysOf(layers)
        && forall i :: 0 <= i < FirstMissingIndex(order, layers) ==>
             order[i] in o.sections.layers && o.sections.layers[order[i]] == ComponentLayer(layers, order[i], None)
    ensures var o := LayersAdded(s, layers, after, before, explicitOrder);
      var order := DesiredOrder(layers, explicitOrder);
      layers != [] && o.error.None? ==>
        && (forall n :: n in order ==> n in o.sections.layers && o.sections.layers[n] == ComponentLayer(layers, n, None))
        && (forall x :: x in o.sections.layerNames <==> x in s.layerNames || x in order)
        && (NoDup(s.layerNames) ==> NoDup(o.sections.layerNames))
  {
    if layers != [] && !(after.Some? && before.Some?) {
      var order := DesiredOrder(layers, explicitOrder);
      var k := FirstMissingIndex(order, layers);
      assert forall i :: 0 <= i < k ==> order[..k][i] == order[i];
      if k == |order| {
        assert order[..k] == order;
        var r := InsertNames(s.layerNames, order, after, before);
        if r.Ok? {
          InsertNamesMembers(s.layerNames, order, after, before);
        }
      }
    }
  }

  // ---------------------------------------------------------------------
  // add_macros

  /** The names of the named macros in `ms`. */
  function MacroNames(ms: seq<Json>): set<string> {
    set m | m in ms && MacroName(m).Ok? :: MacroName(m).value
  }

  /** `[macro for macro in existing if macro_name(macro) not in names]`; a macro without a readable name raises. */
  function WithoutNamed(existing: seq<Json>, names: set<string>): (r: Result<seq<Json>, MacroError>)
    ensures r.Ok? <==> forall i :: 0 <= i < |existing| ==> MacroName(existing[i]).Ok?
    ensures r.Ok? ==> forall i :: 0 <= i < |r.value| ==>
      r.value[i] in existing && MacroName(r.value[i]).Ok? && MacroName(r.value[i]).value !in names
    ensures r.Ok? ==> forall i :: 0 <= i < |existing| && MacroName(existing[i]).value !in names ==> existing[i] in r.value
  {
    if existing == [] then Ok([])
    else
      match MacroName(existing[0])
      case Err(err) => Err(err)
      case Ok(n) =>
        match WithoutNamed(existing[1..], names)
        case Err(err) => Err(err)
        case Ok(rest) =>
          assert forall i :: 1 <= i < |existing| ==> existing[i] == existing[1..][i - 1];
          Ok(if n in names then rest else [existing[0]] + rest)
  }

  /**
   * `add_macros`: nothing for an empty list. Appending merges the new macros
   * into the existing list. Prepending puts the merged new macros first,
   * followed by the existing macros whose names are not among them.
   */
  function MacrosAdded(existing: seq<Json>, macros: seq<Json>, prepend: bool): Result<seq<Json>, MacroError> {
    if macros == [] then Ok(existing)
    else if prepend then
      match MergeMacros([], macros, [], None)
      case Err(err) => Err(err)
      case Ok(leading) =>
        match WithoutNamed(existing, MacroNames(leading))
        case Err(err) => Err(err)
        case Ok(trailing) => Ok(leading + trailing)
    else MergeMacros(existing, macros, [], None)
  }

  /** Filtering a list whose macros all have distinct names keeps them distinct. */
  lemma {:induction false} WithoutNamedClean(existing: seq<Json>, names: set<string>)
    requires Clean(existing)
    ensures WithoutNamed(existing, names).Ok?
    ensures Clean(WithoutNamed(existing, names).value)
    decreases |existing|
  {
    if existing != [] {
      var tail := existing[1..];
      CleanTail(existing);
      WithoutNamedClean(tail, names);
      var rest := WithoutNamed(tail, names).value;
      var n := MacroName(existing[0]).value;
      if n !in names {
        HeadNameFresh(existing);
        forall j | 0 <= j < |rest|
          ensures MacroName(existing[0]) != MacroName(rest[j])
        {
          assert rest[j] in tail;
        }
        CleanConcat([existing[0]], rest);
      }
    }
  }

  /** In a clean list no later macro shares the first one's name. */
  lemma HeadNameFresh(macros: seq<Json>)
    requires Clean(macros) && macros != []
    ensures forall m :: m in macros[1..] ==> MacroName(m) != MacroName(macros[0])
  {
    forall m | m in macros[1..]
      ensures MacroName(m) != MacroName(macros[0])
    {
      var p :| 0 <= p < |macros[1..]| && macros[1..][p] == m;
      assert macros[p + 1] == m;
    }
  }

  /** A clean list stays clean without its first macro. */
  lemma CleanTail(macros: seq<Json>)
    requires Clean(macros) && macros != []
    ensures Clean(macros[1..])
  {
    var tail := macros[1..];
    forall i, j | 0 <= i < j < |tail|
      ensures MacroName(tail[i]) != MacroName(tail[j])
    {
      assert tail[i] == macros[i + 1] && tail[j] == macros[j + 1];
    }
    forall i | 0 <= i < |tail|
      ensures MacroName(tail[i]).Ok?
    {
      assert tail[i] == macros[i + 1];
    }
  }

  /** Two clean lists with no name in common concatenate to a clean list. */
  lemma CleanConcat(a: seq<Json>, b: seq<Json>)
    requires Clean(a) && Clean(b)
    requires forall i, j :: 0 <= i < |a| && 0 <= j < |b| ==> MacroName(a[i]) != MacroName(b[j])
    ensures Clean(a + b)
  {
    var r := a + b;
    forall i, j | 0 <= i < j < |r|
      ensures MacroName(r[i]) != MacroName(r[j])
    {
      if i >= |a| {
        assert r[i] == b[i - |a|] && r[j] == b[j - |a|];
      } else if j >= |a| {
        assert r[j] == b[j - |a|];
      }
    }
  }

  /**
   * Prepending yields the deduplicated incoming macros first, then existing
   * macros of other names; when the existing list had no two macros of a
   * name, neither does the result.
   */
  lemma PrependMacros(existing: seq<Json>, macros: seq<Json>)
    requires macros != [] && MacrosAdded(existing, macros, true).Ok?
    ensures var r := MacrosAdded(existing, macros, true).value;
      var leading := MergeMacros([], macros, [], None).value;
      && MergeMacros([], macros, [], None).Ok?
      && r[..|leading|] == leading
      && Clean(leading)
      && (forall i :: |leading| <= i < |r| ==> r[i] in existing && MacroName(r[i]).value !in MacroNames(leading))
      && (Clean(existing) ==> Clean(r))
  {
    var leading := MergeMacros([], macros, [], None).value;
    MergeIsClean([], macros);
    var trailing := WithoutNamed(existing, MacroNames(leading)).value;
    var r := leading + trailing;
    assert MacrosAdded(existing, macros, true) == Ok(r);
    assert forall i :: |leading| <= i < |r| ==> r[i] == trailing[i - |leading|];
    if Clean(existing) {
      KeptAfterClean(leading, existing);
    }
  }

  /** Clean incoming macros followed by the clean existing ones they do not name form a clean list. */
  lemma KeptAfterClean(leading: seq<Json>, existing: seq<Json>)
    requires Clean(leading) && Clean(existing)
    ensures WithoutNamed(existing, MacroNames(leading)).Ok?
    ensures Clean(leading + WithoutNamed(existing, MacroNames(leading)).value)
  {
    WithoutNamedClean(existing, MacroNames(leading));
    var trailing := WithoutNamed(existing, MacroNames(leading)).value;
    forall i, j | 0 <= i < |leading| && 0 <= j < |trailing|
      ensures MacroName(leading[i]) != MacroName(trailing[j])
    {
      assert MacroName(leading[i]).value in MacroNames(leading);
    }
    CleanConcat(leading, trailing);
  }

  // ---------------------------------------------------------------------
  // Feature bundles

  /** The four sections `_merge_feature_components` hands to the section merge. */
  function SectionsView(s: Sections): Payload {
    Payload(None, None, Some(s.macros), Some(s.holdTaps), Some(s.combos), Some(s.inputListeners))
  }

  /**
   * `_merge_feature_components`: the section merge on views of the
   * builder's own lists (so partial merges stick), then the layers in the
   * bundle's own order.
   */
  function FeatureComponentsMerged(s: Sections, c: Components, after: Option<string>, before: Option<string>): Outcome {
    var m := SectionsMerged(SectionsView(s), c, None, None);
    var s1 := s.(macros := SectionOr(m.payload.macros), holdTaps := SectionOr(m.payload.holdTaps),
                 combos := SectionOr(m.payload.combos), inputListeners := SectionOr(m.payload.inputListeners));
    if m.error.Some? then Outcome(s1, Some(SectionsFailed(m.error.value)))
    else
      var lm := LayersMerged(s1.layerNames, s1.layers, c, after, before, Some(KeysOf(c.layers)), None);
      Outcome(s1.(layerNames := lm.names, layers := lm.byName),
              if lm.error.Some? then Some(LayersFailed(lm.error.value)) else None)
  }

  /** `add_home_row_mods`: provider and target checked first, then the bundle merged at `insert_after or target_layer`. */
  function HomeRowModsAdded(s: Sections, variant: string, configured: Option<string -> Components>,
                            featureProvider: Option<string -> Components>, target: string,
                            insertAfter: Option<string>, positionBefore: bool): Outcome
  {
    var provider := if featureProvider.Some? then featureProvider else configured;
    if provider.None? then Outcome(s, Some(NoProvider))
    else if target !in s.layerNames then Outcome(s, Some(UnknownTarget(target)))
    else
      var components := provider.value(variant);
      var anchor := if insertAfter.Some? && insertAfter.value != "" then insertAfter.value else target;
      if positionBefore then FeatureComponentsMerged(s, components, None, Some(anchor))
      else FeatureComponentsMerged(s, components, Some(anchor), None)
  }

  /** A feature merge never breaks the no-repeat rule of the layer order. */
  lemma FeatureComponentsKeepNoDup(s: Sections, c: Components, after: Option<string>, before: Option<string>)
    requires NoDup(s.layerNames)
    ensures NoDup(FeatureComponentsMerged(s, c, after, before).sections.layerNames)
  {
    var m := SectionsMerged(SectionsView(s), c, None, None);
    if m.error.None? && c.layers != [] {
      var lm := LayersMerged(s.layerNames, s.layers, c, after, before, Some(KeysOf(c.layers)), None);
      if lm.error.None? {
        LayersMergedConsistent(s.layerNames, s.layers, c, after, before, Some(KeysOf(c.layers)), None);
      }
    }
  }

  /** Home-row modifiers are refused, with nothing changed, when no provider is configured or the target layer is unknown. */
  lemma HomeRowModsChecks(s: Sections, variant: string, configured: Option<string -> Components>,
                          featureProvider: Option<string -> Components>, target: string,
                          insertAfter: Option<string>, positionBefore: bool)
    ensures var o := HomeRowModsAdded(s, variant, configured, featureProvider, target, insertAfter, positionBefore);
      && (featureProvider.None? && configured.None? ==> o == Outcome(s, Some(NoProvider)))
      && ((featureProvider.Some? || configured.Some?) && target !in s.layerNames ==> o == Outcome(s, Some(UnknownTarget(target))))
  {
  }

  /**
   * When the bundle's sections merge and its layers are not the anchor, the
   * bundle's layers go, as one block in the bundle's order, right after (or
   * before) `insert_after`, or the target layer when no anchor is given.
   */
  lemma HomeRowModsPlacement(s: Sections, variant: string, provider: string -> Components,
                             featureProvider: Option<string -> Components>, target: string,
                             insertAfter: Option<string>, positionBefore: bool)
    requires featureProvider.None? || featureProvider == Some(provider)
    requires target in s.layerNames
    requires var c := provider(variant);
      var anchor := if insertAfter.Some? && insertAfter.value != "" then insertAfter.value else target;
      && SectionsMerged(SectionsView(s), c, None, None).error.None?
      && c.layers != [] && anchor in s.layerNames && anchor !in KeysOf(c.layers)
    ensures var o := HomeRowModsAdded(s, variant, Some(provider), featureProvider, target, insertAfter, positionBefore);
      var c := provider(variant);
      var anchor := if insertAfter.Some? && insertAfter.value != "" then insertAfter.value else target;
      var filtered := Filtered(s.layerNames, KeysOf(c.layers));
      && anchor in filtered
      && o.error.None?
      && o.sections.layerNames ==
           filtered[..SplicePoint(s.layerNames, KeysOf(c.layers), anchor, positionBefore)]
           + Dedup(KeysOf(c.layers))
           + filtered[SplicePoint(s.layerNames, KeysOf(c.layers), anchor, positionBefore)..]
  {
    var c := provider(variant);
    var anchor := if insertAfter.Some? && insertAfter.value != "" then insertAfter.value else target;
    var after := if positionBefore then None else Some(anchor);
    var before := if positionBefore then Some(anchor) else None;
    assert HomeRowModsAdded(s, variant, Some(provider), featureProvider, target, insertAfter, positionBefore)
      == FeatureComponentsMerged(s, c, after, before);
    var m := SectionsMerged(SectionsView(s), c, None, None);
    var s1 := s.(macros := SectionOr(m.payload.macros), holdTaps := SectionOr(m.payload.holdTaps),
                 combos := SectionOr(m.payload.combos), inputListeners := SectionOr(m.payload.inputListeners));
    OwnOrderMerged(s1.layerNames, s1.layers, c, after, before, None);
    InsertNamesAnchored(s.layerNames, KeysOf(c.layers), anchor, positionBefore);
  }

  // ---------------------------------------------------------------------
  // build

  /** The ordered names that have no layer data. */
  function MissingLayers(names: seq<string>, layers: map<string, Layer>): (r: seq<string>)
    ensures forall x :: x in r <==> x in names && x !in layers
    ensures |r| <= |names|
  {
    if names == [] then []
    else (if names[0] in layers then [] else [names[0]]) + MissingLayers(names[1..], layers)
  }

  // ---------------------------------------------------------------------
  // The builder

  class LayoutBuilder {
    const metadataKey: string
    const variant: string
    const resolveRefs: bool
    var sections: Sections
    var homeRowProvider: Option<string -> Components>

    /** The layer order never holds a name twice. */
    predicate Valid()
      reads this
    {
      NoDup(sections.layerNames)
    }

    /** Every name in the order has layer data, so `build` can proceed. */
    predicate Complete()
      reads this
    {
      forall n :: n in sections.layerNames ==> n in sections.layers
    }

    constructor (metadataKey: string, variant: string, layerNames: seq<string>, resolveRefs: bool,
                 homeRowProvider: Option<string -> Components>)
      ensures this.metadataKey == metadataKey && this.variant == variant && this.resolveRefs == resolveRefs
      ensures this.homeRowProvider == homeRowProvider
      ensures sections == Sections(Dedup(layerNames), map[], [], [], [], [])
      ensures Valid()
    {
      this.metadataKey := metadataKey;
      this.variant := variant;
      this.resolveRefs := resolveRefs;
      var names := UniqueSequence(layerNames);
      DedupIsFirstOccurrences(layerNames);
      sections := Sections(names, map[], [], [], [], []);
      this.homeRowProvider := homeRowProvider;
    }

    method SetLayerOrder(layerNames: seq<string>)
      modifies this
      ensures sections == old(sections).(layerNames := Dedup(layerNames))
      ensures homeRowProvider == old(homeRowProvider)
      ensures Valid()
    {
      var names := UniqueSequence(layerNames);
      DedupIsFirstOccurrences(layerNames);
      sections := sections.(layerNames := names);
    }

    method AddLayers(layers: OrderedMap<Layer>, after: Option<string>, before: Option<string>,
                     explicitOrder: Option<seq<string>>) returns (err: Option<BuilderError>)
      modifies this
      ensures Outcome(sections, err) == LayersAdded(old(sections), layers, after, before, explicitOrder)
      ensures homeRowProvider == old(homeRowProvider)
      ensures old(Valid()) ==> Valid()
    {
      LayersAddedEffect(sections, layers, after, before, explicitOrder);
      if layers == [] {
        return None;
      }
      if after.Some? && before.Some? {
        return Some(LayersFailed(BadAnchor(BothAnchors)));
      }
      var order := DesiredOrder(layers, explicitOrder);
      var written, k := WriteUntilMissing(sections.layers, order, layers);
      sections := sections.(layers := written);
      if k < |order| {
        return Some(LayersFailed(LayerMissing(order[k])));
      }
      var names := InsertLayerNames(sections.layerNames, order, after, before);
      if names.Err? {
        return Some(LayersFailed(BadAnchor(names.error)));
      }
      sections := sections.(layerNames := names.value);
      err := None;
    }

    method UpdateLayer(name: string, data: Layer)
      modifies this
      ensures sections == old(sections).(
        layerNames := if name in old(sections.layerNames) then old(sections.layerNames) else old(sections.layerNames) + [name],
        layers := old(sections.layers)[name := data])
      ensures homeRowProvider == old(homeRowProvider)
      ensures old(Valid()) ==> Valid()
      ensures old(Complete()) ==> Complete()
      ensures name in sections.layerNames && sections.layers[name] == data
    {
      if name !in sections.layerNames {
        sections := sections.(layerNames := sections.layerNames + [name]);
      }
      sections := sections.(layers := sections.layers[name := data]);
    }

    method AddMacros(macros: seq<Json>, prepend: bool) returns (err: Option<MacroError>)
      modifies this
      ensures var r := MacrosAdded(old(sections.macros), macros, prepend);
        && (r.Ok? ==> sections == old(sections).(macros := r.value) && err.None?)
        && (r.Err? ==> sections == old(sections) && err == Some(r.error))
      ensures homeRowProvider == old(homeRowProvider)
    {
      if macros == [] {
        return None;
      }
      if prepend {
        var leading := MergeMacrosInPlace([], macros, [], None);
        if leading.Err? {
          return Some(leading.error);
        }
        var trailing := WithoutNamed(sections.macros, MacroNames(leading.value));
        if trailing.Err? {
          return Some(trailing.error);
        }
        sections := sections.(macros := leading.value + trailing.value);
        return None;
      }
      var merged := MergeMacrosInPlace(sections.macros, macros, [], None);
      if merged.Err? {
        return Some(merged.error);
      }
      sections := sections.(macros := merged.value);
      err := None;
    }

    method AddHoldTaps(holdTaps: seq<Json>)
      modifies this
      ensures sections == old(sections).(holdTaps := old(sections.holdTaps) + holdTaps)
      ensures homeRowProvider == old(homeRowProvider)
    {
      sections := sections.(holdTaps := sections.holdTaps + holdTaps);
    }

    method AddCombos(combos: seq<Json>)
      modifies this
      ensures sections == old(sections).(combos := old(sections.combos) + combos)
      ensures homeRowProvider == old(homeRowProvider)
    {
      sections := sections.(combos := sections.combos + combos);
    }

    method AddInputListeners(listeners: seq<Json>)
      modifies this
      ensures sections == old(sections).(inputListeners := old(sections.inputListeners) + listeners)
      ensures homeRowProvider == old(homeRowProvider)
    {
      sections := sections.(inputListeners := sections.inputListeners + listeners);
    }

    method SetHomeRowProvider(provider: string -> Components)
      modifies this
      ensures homeRowProvider == Some(provider) && sections == old(sections)
    {
      homeRowProvider := Some(provider);
    }

    /** `_merge_feature_components`. */
    method MergeFeatureComponents(c: Components, after: Option<string>, before: Option<string>)
      returns (err: Option<BuilderError>)
      modifies this
      ensures Outcome(sections, err) == FeatureComponentsMerged(old(sections), c, after, before)
      ensures homeRowProvider == old(homeRowProvider)
      ensures old(Valid()) ==> Valid()
    {
      if Valid() {
        FeatureComponentsKeepNoDup(sections, c, after, before);
      }
      var m := MergeSectionsExceptLayers(SectionsView(sections), c, None, None);
      sections := sections.(macros := SectionOr(m.payload.macros), holdTaps := SectionOr(m.payload.holdTaps),
                            combos := SectionOr(m.payload.combos), inputListeners := SectionOr(m.payload.inputListeners));
      if m.error.Some? {
        return Some(SectionsFailed(m.error.value));
      }
      var lm := MergeLayersWithOrder(sections.layerNames, sections.layers, c, after, before, Some(KeysOf(c.layers)), None);
      sections := sections.(layerNames := lm.names, layers := lm.byName);
      err := if lm.error.Some? then Some(LayersFailed(lm.error.value)) else None;
    }

    method AddHomeRowMods(target: string, insertAfter: Option<string>, positionBefore: bool,
                          featureProvider: Option<string -> Components>) returns (err: Option<BuilderError>)
      modifies this
      ensures Outcome(sections, err) ==
        HomeRowModsAdded(old(sections), variant, old(homeRowProvider), featureProvider, target, insertAfter, positionBefore)
      ensures homeRowProvider == old(homeRowProvider)
      ensures old(Valid()) ==> Valid()
    {
      var provider := if featureProvider.Some? then featureProvider else homeRowProvider;
      if provider.None? {
        return Some(NoProvider);
      }
      if target !in sections.layerNames {
        return Some(UnknownTarget(target));
      }
      var components := provider.value(variant);
      var anchor := if insertAfter.Some? && insertAfter.value != "" then insertAfter.value else target;
      if positionBefore {
        err := MergeFeatureComponents(components, None, Some(anchor));
      } else {
        err := MergeFeatureComponents(components, Some(anchor), None);
      }
    }

    /** `build`, up to the hand-off to the layout composer: the sections it composes, or every name lacking data. */
    method Build() returns (r: Result<Sections, BuilderError>)
      ensures r.Ok? <==> Complete()
      ensures r.Ok? ==> r.value == sections
      ensures r.Err? ==> r.error == MissingLayerData(MissingLayers(sections.layerNames, sections.layers))
    {
      var missing := MissingLayers(sections.layerNames, sections.layers);
      if missing != [] {
        assert missing[0] in missing;
        return Err(MissingLayerData(missing));
      }
      r := Ok(sections);
    }
  }
}
