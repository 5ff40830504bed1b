/**
 * `apply_feature`: the older merge of a feature bundle into a layout payload.
 * Feature macros are filed by name over the existing ones, the hold-tap,
 * combo and input-listener sections are extended verbatim, and the bundle's
 * layers are filed by name, new names joining the end of `layer_names`.
 */
module Features {
  import opened Wrappers
  import opened Json
  import opened Seqs
  import opened Layout

  datatype FeatureError =
    | MissingSection(key: string)     // KeyError from `_ensure_section`
    | UnnamedMacro                    // KeyError: a feature macro whose "name" is not a string
    | MissingLayerData(name: string)  // KeyError: an ordered layer name with no layer filed under it

  /** The payload as `apply_feature` leaves it, with the error it raised, if any. */
  datatype Applied = Applied(layout: Payload, error: Option<FeatureError>)

  /** `_ensure_section`: an absent (or null) section raises, naming its key. */
  function EnsureSection(key: string, section: Option<seq<Json>>): (r: Result<seq<Json>, FeatureError>)
    ensures r.Ok? <==> section.Some?
    ensures r.Ok? ==> r.value == section.value
    ensures r.Err? ==> r.error == MissingSection(key)
  {
    match section
    case None => Err(MissingSection(key))
    case Some(s) => Ok(s)
  }

  // ---------------------------------------------------------------------
  // Macros

  /** `macro.get("name")` when `"name" in macro`: any value may serve as an existing macro's name. */
  function NameOf(m: Json): Option<Json> {
    Field(m, "name")
  }

  /** `macro_order` as first built: the names of the existing macros that have one, repeats included. */
  function ExistingOrder(existing: seq<Json>): (r: seq<Json>)
    ensures |r| <= |existing|
    decreases |existing|
  {
    if existing == [] then []
    else
      var n := |existing| - 1;
      var rest := ExistingOrder(existing[..n]);
      match NameOf(existing[n])
      case Some(name) => rest + [name]
      case None => rest
  }

  /** Every listed name is filed, every filed name is listed, and each macro is filed under its own name. */
  ghost predicate Covers(order: seq<Json>, index: map<Json, Json>) {
    && (forall n :: n in order <==> n in index)
    && (forall n :: n in index ==> NameOf(index[n]) == Some(n))
  }

  /** `macros_by_name` as first built: a dict comprehension, so the last existing macro under a name wins. */
  function ExistingIndex(existing: seq<Json>): (r: map<Json, Json>)
    ensures Covers(ExistingOrder(existing), r)
    decreases |existing|
  {
    if existing == [] then map[]
    else
      var n := |existing| - 1;
      var rest := ExistingIndex(existing[..n]);
      match NameOf(existing[n])
      case Some(name) => rest[name := existing[n]]
      case None => rest
  }

  /** `_set_macro`: a macro must carry a string name; it is filed under it, and a new name joins the order. */
  function SetMacro(order: seq<Json>, index: map<Json, Json>, m: Json): (r: Result<(seq<Json>, map<Json, Json>), FeatureError>)
    ensures r.Ok? <==> StrField(m, "name").Some?
    ensures r.Err? ==> r.error == UnnamedMacro
    ensures r.Ok? && Covers(order, index) ==> Covers(r.value.0, r.value.1)
  {
    match StrField(m, "name")
    case None => Err(UnnamedMacro)
    case Some(s) =>
      var name := JStr(s);
      Ok((if name in order then order else order + [name], index[name := m]))
  }

  /** `_set_macro` on each macro in turn; the first unnamed one stops the loop. */
  function SetAll(order: seq<Json>, index: map<Json, Json>, ms: seq<Json>): (r: Result<(seq<Json>, map<Json, Json>), FeatureError>)
    ensures r.Ok? <==> forall k :: 0 <= k < |ms| ==> StrField(ms[k], "name").Some?
    ensures r.Err? ==> r.error == UnnamedMacro
    ensures r.Ok? && Covers(order, index) ==> Covers(r.value.0, r.value.1)
    decreases |ms|
  {
    if ms == [] then Ok((order, index))
    else
      var n := |ms| - 1;
      assert forall k :: 0 <= k < n ==> ms[..n][k] == ms[k];
      match SetAll(order, index, ms[..n])
      case Err(err) => Err(err)
      case Ok((o, ix)) => SetMacro(o, ix, ms[n])
  }

  /** `components.macros` followed by `components.macro_overrides.values()`. */
  function FeatureMacros(c: Components): (r: seq<Json>)
    ensures |r| == |c.macros| + |c.macroOverrides|
    ensures forall k :: 0 <= k < |c.macros| ==> r[k] == c.macros[k]
    ensures forall j :: 0 <= j < |c.macroOverrides| ==> r[|c.macros| + j] == c.macroOverrides[j].1
  {
    c.macros + seq(|c.macroOverrides|, j requires 0 <= j < |c.macroOverrides| => c.macroOverrides[j].1)
  }

  /** Every macro carries a string name. */
  predicate AllNamed(ms: seq<Json>) {
    forall k :: 0 <= k < |ms| ==> StrField(ms[k], "name").Some?
  }

  /** The names the macros are filed under. */
  function FeatureNames(ms: seq<Json>): (r: seq<Json>)
    requires AllNamed(ms)
    ensures |r| == |ms|
  {
    seq(|ms|, k requires 0 <= k < |ms| => JStr(StrField(ms[k], "name").value))
  }

  /** The macros section `apply_feature` writes back, or the error raised before writing it. */
  function MacrosApplied(existing: seq<Json>, c: Components): (r: Result<seq<Json>, FeatureError>)
    ensures r.Ok? <==> AllNamed(FeatureMacros(c))
    ensures r.Err? ==> r.error == UnnamedMacro
  {
    match SetAll(ExistingOrder(existing), ExistingIndex(existing), FeatureMacros(c))
    case Err(err) => Err(err)
    case Ok((order, index)) => Ok(seq(|order|, i requires 0 <= i < |order| => index[order[i]]))
  }

  /** The names of a list with one more macro. */
  lemma FeatureNamesSnoc(ms: seq<Json>, prefix: seq<Json>)
    requires ms != [] && prefix == ms[..|ms| - 1] && AllNamed(ms)
    ensures AllNamed(prefix)
    ensures FeatureNames(ms) == FeatureNames(prefix) + [JStr(StrField(ms[|ms| - 1], "name").value)]
  {
    assert forall k :: 0 <= k < |prefix| ==> prefix[k] == ms[k];
  }

  /** Filing named macros lists the starting order, then each new name in the order the macros first mention it. */
  lemma {:induction false} SetAllOrder(order: seq<Json>, index: map<Json, Json>, ms: seq<Json>)
    requires AllNamed(ms)
    ensures SetAll(order, index, ms).Ok?
    ensures SetAll(order, index, ms).value.0 == AppendNew(order, FeatureNames(ms))
    decreases |ms|
  {
    if ms != [] {
      var n := |ms| - 1;
      FeatureNamesSnoc(ms, ms[..n]);
      SetAllOrder(order, index, ms[..n]);
      AppendNewSnoc(order, FeatureNames(ms[..n]), JStr(StrField(ms[n], "name").value));
    }
  }

  /** A macro no later macro shares its name with is the one filed under that name: later macros win. */
  lemma {:induction false} SetAllLastWins(order: seq<Json>, index: map<Json, Json>, ms: seq<Json>, k: nat)
    requires AllNamed(ms) && k < |ms|
    requires forall m :: k < m < |ms| ==> StrField(ms[m], "name") != StrField(ms[k], "name")
    ensures SetAll(order, index, ms).Ok?
    ensures var filed := SetAll(order, index, ms).value.1;
      var name := JStr(StrField(ms[k], "name").value);
      name in filed && filed[name] == ms[k]
    decreases |ms|
  {
    var n := |ms| - 1;
    var prefix := ms[..n];
    if k < n {
      assert prefix[k] == ms[k];
      forall m | k < m < n
        ensures StrField(prefix[m], "name") != StrField(prefix[k], "name")
      {
        assert prefix[m] == ms[m];
      }
      SetAllLastWins(order, index, prefix, k);
    }
  }

  /** A name no macro mentions keeps what it was filed with. */
  lemma {:induction false} SetAllKeeps(order: seq<Json>, index: map<Json, Json>, ms: seq<Json>, x: Json)
    requires AllNamed(ms) && x in index && x !in FeatureNames(ms)
    ensures SetAll(order, index, ms).Ok?
    ensures x in SetAll(order, index, ms).value.1 && SetAll(order, index, ms).value.1[x] == index[x]
    decreases |ms|
  {
    if ms != [] {
      var n := |ms| - 1;
      FeatureNamesSnoc(ms, ms[..n]);
      SetAllKeeps(order, index, ms[..n], x);
    }
  }

  /** Among the existing macros, the last one under a name is the one filed under it. */
  lemma {:induction false} ExistingIndexLastWins(existing: seq<Json>, j: nat)
    requires j < |existing| && NameOf(existing[j]).Some?
    requires forall m :: j < m < |existing| ==> NameOf(existing[m]) != NameOf(existing[j])
    ensures NameOf(existing[j]).value in ExistingIndex(existing)
    ensures ExistingIndex(existing)[NameOf(existing[j]).value] == existing[j]
    decreases |existing|
  {
    var n := |existing| - 1;
    var prefix := existing[..n];
    if j < n {
      assert prefix[j] == existing[j];
      forall m | j < m < n
        ensures NameOf(prefix[m]) != NameOf(prefix[j])
      {
        assert prefix[m] == existing[m];
      }
      ExistingIndexLastWins(prefix, j);
      assert NameOf(existing[n]) != NameOf(existing[j]);
    }
  }

  /** The macro names `apply_feature` lists: the existing ones (repeats kept), then each new feature name. */
  function AppliedOrder(existing: seq<Json>, c: Components): seq<Json>
    requires AllNamed(FeatureMacros(c))
  {
    AppendNew(ExistingOrder(existing), FeatureNames(FeatureMacros(c)))
  }

  /**
   * With every feature macro named, the written macros follow the applied
   * order one for one, each carrying the name it is listed under: existing
   * names keep their places, new names come after them, and macros without a
   * name are gone.
   */
  lemma MacrosAppliedNames(existing: seq<Json>, c: Components)
    requires AllNamed(FeatureMacros(c))
    ensures MacrosApplied(existing, c).Ok?
    ensures var r := MacrosApplied(existing, c).value;
      var order := AppliedOrder(existing, c);
      && ExistingOrder(existing) == order[..|ExistingOrder(existing)|]
      && |r| == |order|
      && forall i :: 0 <= i < |r| ==> NameOf(r[i]) == Some(order[i])
  {
    SetAllOrder(ExistingOrder(existing), ExistingIndex(existing), FeatureMacros(c));
  }

  /** The last feature macro under a name replaces every listed macro of that name. */
  lemma MacrosAppliedFeatureWins(existing: seq<Json>, c: Components, k: nat)
    requires AllNamed(FeatureMacros(c)) && k < |FeatureMacros(c)|
    requires var ms := FeatureMacros(c);
      forall m :: k < m < |ms| ==> StrField(ms[m], "name") != StrField(ms[k], "name")
    ensures MacrosApplied(existing, c).Ok?
    ensures |MacrosApplied(existing, c).value| == |AppliedOrder(existing, c)|
    ensures var ms := FeatureMacros(c);
      var r := MacrosApplied(existing, c).value;
      var order := AppliedOrder(existing, c);
      && JStr(StrField(ms[k], "name").value) in order
      && forall i :: 0 <= i < |order| && order[i] == JStr(StrField(ms[k], "name").value) ==> r[i] == ms[k]
  {
    var ms := FeatureMacros(c);
    SetAllOrder(ExistingOrder(existing), ExistingIndex(existing), ms);
    SetAllLastWins(ExistingOrder(existing), ExistingIndex(existing), ms, k);
    assert FeatureNames(ms)[k] == JStr(StrField(ms[k], "name").value);
  }

  /** The last override under a name wins over every feature macro and every existing macro of that name. */
  lemma OverrideWins(existing: seq<Json>, c: Components, j: nat)
    requires AllNamed(FeatureMacros(c)) && j < |c.macroOverrides|
    requires forall m :: j < m < |c.macroOverrides| ==>
      StrField(c.macroOverrides[m].1, "name") != StrField(c.macroOverrides[j].1, "name")
    ensures MacrosApplied(existing, c).Ok?
    ensures |MacrosApplied(existing, c).value| == |AppliedOrder(existing, c)|
    ensures var name := StrField(c.macroOverrides[j].1, "name");
      var r := MacrosApplied(existing, c).value;
      var order := AppliedOrder(existing, c);
      && name.Some? && JStr(name.value) in order
      && forall i :: 0 <= i < |order| && order[i] == JStr(name.value) ==> r[i] == c.macroOverrides[j].1
  {
    var ms := FeatureMacros(c);
    var k := |c.macros| + j;
    assert ms[k] == c.macroOverrides[j].1;
    forall m | k < m < |ms|
      ensures StrField(ms[m], "name") != StrField(ms[k], "name")
    {
      assert ms[m] == c.macroOverrides[m - |c.macros|].1;
    }
    MacrosAppliedFeatureWins(existing, c, k);
  }

  /** An existing macro no feature macro renames stays, at every place its name is listed, as the last existing one of that name. */
  lemma MacrosAppliedKeepsExisting(existing: seq<Json>, c: Components, j: nat)
    requires AllNamed(FeatureMacros(c)) && j < |existing| && NameOf(existing[j]).Some?
    requires forall m :: j < m < |existing| ==> NameOf(existing[m]) != NameOf(existing[j])
    requires NameOf(existing[j]).value !in FeatureNames(FeatureMacros(c))
    ensures MacrosApplied(existing, c).Ok?
    ensures |MacrosApplied(existing, c).value| == |AppliedOrder(existing, c)|
    ensures var name := NameOf(existing[j]).value;
      var r := MacrosApplied(existing, c).value;
      var order := AppliedOrder(existing, c);
      && name in order
      && forall i :: 0 <= i < |order| && order[i] == name ==> r[i] == existing[j]
  {
    var ms := FeatureMacros(c);
    var name := NameOf(existing[j]).value;
    SetAllOrder(ExistingOrder(existing), ExistingIndex(existing), ms);
    ExistingIndexLastWins(existing, j);
    SetAllKeeps(ExistingOrder(existing), ExistingIndex(existing), ms, name);
  }

  // ---------------------------------------------------------------------
  // Layers

  /** The keys that have no entry in `index`, in order. */
  function NotIndexed(keys: seq<string>, index: map<string, Layer>): (r: seq<string>)
    ensures forall x :: x in r <==> x in keys && x !in index
    ensures NoDup(keys) ==> NoDup(r)
    decreases |keys|
  {
    if keys == [] then []
    else
      var n := |keys| - 1;
      assert keys == keys[..n] + [keys[n]];
      assert NoDup(keys) ==> NoDup(keys[..n]) && keys[n] !in keys[..n];
      NotIndexed(keys[..n], index) + if keys[n] in index then [] else [keys[n]]
  }

  /** The loop over `components.layers.items()`: a name without a layer joins the order; every bundle layer is filed. */
  function FileLayers(names: seq<string>, index: map<string, Layer>, items: seq<(string, Layer)>): (r: (seq<string>, map<string, Layer>))
    ensures |names| <= |r.0| && r.0[..|names|] == names
    ensures forall x :: x in index ==> x in r.1
    ensures forall j :: 0 <= j < |items| ==> items[j].0 in r.1
    ensures forall x :: x in r.1 ==> x in index || x in KeysOf(items)
    decreases |items|
  {
    if items == [] then (names, index)
    else
      var n := |items| - 1;
      KeysOfSnoc(items);
      FileOne(FileLayers(names, index, items[..n]), items[n])
  }

  /** One pass of that loop. */
  function FileOne(acc: (seq<string>, map<string, Layer>), item: (string, Layer)): (r: (seq<string>, map<string, Layer>))
    ensures |acc.0| <= |r.0| && r.0[..|acc.0|] == acc.0
    ensures r.1 == acc.1[item.0 := item.1]
  {
    (if item.0 in acc.1 then acc.0 else acc.0 + [item.0], acc.1[item.0 := item.1])
  }

  /** The keys without a layer, with one more key. */
  lemma NotIndexedSnoc(keys: seq<string>, x: string, index: map<string, Layer>)
    ensures NotIndexed(keys + [x], index) == NotIndexed(keys, index) + if x in index then [] else [x]
  {
    PrefixStep(keys + [x], |keys|);
    assert (keys + [x])[..|keys|] == keys;
  }

  /** The order gains exactly the bundle's names that had no layer, in the bundle's order. */
  lemma {:induction false} FileLayersOrder(names: seq<string>, index: map<string, Layer>, items: seq<(string, Layer)>)
    requires DistinctKeys(items)
    ensures FileLayers(names, index, items).0 == names + NotIndexed(KeysOf(items), index)
    decreases |items|
  {
    if items != [] {
      var n := |items| - 1;
      var prefix := items[..n];
      KeysOfSnoc(items);
      assert DistinctKeys(prefix);
      FileLayersOrder(names, index, prefix);
      var prev := FileLayers(names, index, prefix);
      var name := items[n].0;
      assert name !in KeysOf(prefix);
      assert name in prev.1 <==> name in index;
      NotIndexedSnoc(KeysOf(prefix), name, index);
      ConcatAssoc(names, NotIndexed(KeysOf(prefix), index), if name in index then [] else [name]);
    }
  }

  /** Every bundle layer is filed under its name; every other name keeps its layer. */
  lemma {:induction false} FileLayersFiled(names: seq<string>, index: map<string, Layer>, items: seq<(string, Layer)>)
    requires DistinctKeys(items)
    ensures var filed := FileLayers(names, index, items).1;
      forall j :: 0 <= j < |items| ==> filed[items[j].0] == items[j].1
    ensures var filed := FileLayers(names, index, items).1;
      forall x :: x in index && x !in KeysOf(items) ==> filed[x] == index[x]
    decreases |items|
  {
    if items != [] {
      var n := |items| - 1;
      var prefix := items[..n];
      KeysOfSnoc(items);
      assert DistinctKeys(prefix);
      FileLayersFiled(names, index, prefix);
      var prev := FileLayers(names, index, prefix).1;
      var filed := FileLayers(names, index, items).1;
      assert filed == prev[items[n].0 := items[n].1];
      forall j | 0 <= j < |items|
        ensures filed[items[j].0] == items[j].1
      {
        if j < n {
          assert prefix[j] == items[j];
        }
      }
      forall x | x in index && x !in KeysOf(items)
        ensures filed[x] == index[x]
      {
        assert x !in KeysOf(prefix);
      }
    }
  }

  /**
   * The layer half of `apply_feature`: `setdefault` supplies empty lists;
   * `layer_names` is extended in place before the rebuild, which raises on
   * the first name with no layer and otherwise replaces `layers`.
   */
  function LayersApplied(p: Payload, c: Components): Applied {
    var names := SectionOr(p.layerNames);
    var layers := SectionOr(p.layers);
    var (order, filed) := FileLayers(names, ZipIndex(names, layers), c.layers);
    var q := p.(layerNames := Some(order), layers := Some(layers));
    match FirstUnfiled(order, filed)
    case Some(name) => Applied(q, Some(MissingLayerData(name)))
    case None => Applied(q.(layers := Some(Rebuilt(order, filed))), None)
  }

  /** `apply_feature`: the payload after the merge, as far as it got, and the error that stopped it. */
  function FeatureApplied(p: Payload, c: Components): Applied {
    match EnsureSection("macros", p.macros)
    case Err(err) => Applied(p, Some(err))
    case Ok(existing) =>
      match MacrosApplied(existing, c)
      case Err(err) => Applied(p, Some(err))
      case Ok(macros) =>
        var p1 := p.(macros := Some(macros));
        match EnsureSection("holdTaps", p1.holdTaps)
        case Err(err) => Applied(p1, Some(err))
        case Ok(holdTaps) =>
          var p2 := p1.(holdTaps := Some(holdTaps + c.holdTaps));
          match EnsureSection("combos", p2.combos)
          case Err(err) => Applied(p2, Some(err))
          case Ok(combos) =>
            var p3 := p2.(combos := Some(combos + c.combos));
            match EnsureSection("inputListeners", p3.inputListeners)
            case Err(err) => Applied(p3, Some(err))
            case Ok(listeners) => LayersApplied(p3.(inputListeners := Some(listeners + c.inputListeners)), c)
  }

  /**
   * A missing macros section or an unnamed feature macro raises before
   * anything is written; a later missing section raises after the macros
   * (and the sections before it) were written, with the layers untouched.
   * Success needs every section and named feature macros, and then holds the
   * merged macros and each section extended verbatim.
   */
  lemma FeatureAppliedSections(p: Payload, c: Components)
    ensures p.macros.None? ==> FeatureApplied(p, c) == Applied(p, Some(MissingSection("macros")))
    ensures p.macros.Some? && !AllNamed(FeatureMacros(c)) ==> FeatureApplied(p, c) == Applied(p, Some(UnnamedMacro))
    ensures var r := FeatureApplied(p, c);
      r.error.Some? && r.error.value.MissingSection? && r.error.value.key != "macros" ==>
        (&& p.macros.Some? && AllNamed(FeatureMacros(c))
         && r.layout.macros == Some(MacrosApplied(p.macros.value, c).value)
         && r.layout.layerNames == p.layerNames && r.layout.layers == p.layers)
    ensures var r := FeatureApplied(p, c);
      r.error.None? ==>
        (&& p.macros.Some? && AllNamed(FeatureMacros(c))
         && p.holdTaps.Some? && p.combos.Some? && p.inputListeners.Some?
         && r.layout.macros == Some(MacrosApplied(p.macros.value, c).value)
         && r.layout.holdTaps == Some(p.holdTaps.value + c.holdTaps)
         && r.layout.combos == Some(p.combos.value + c.combos)
         && r.layout.inputListeners == Some(p.inputListeners.value + c.inputListeners))
  {
  }

  /** Once every section is there, `apply_feature` ends with the layer half on the payload as the sections left it. */
  lemma FeatureAppliedLayers(p: Payload, c: Components)
    requires p.macros.Some? && AllNamed(FeatureMacros(c))
    requires p.holdTaps.Some? && p.combos.Some? && p.inputListeners.Some?
    ensures FeatureApplied(p, c) == LayersApplied(p.(
      macros := Some(MacrosApplied(p.macros.value, c).value),
      holdTaps := Some(p.holdTaps.value + c.holdTaps),
      combos := Some(p.combos.value + c.combos),
      inputListeners := Some(p.inputListeners.value + c.inputListeners)), c)
  {
  }

  /**
   * After the layer half succeeds, `layer_names` has gained the bundle's
   * names that had no layer, in the bundle's order, and `layers` lines up
   * with it one for one, holding the bundle's layer wherever the bundle
   * names one.
   */
  lemma LayersAppliedAligned(p: Payload, c: Components)
    requires LayersApplied(p, c).error.None?
    ensures var names := SectionOr(p.layerNames);
      var r := LayersApplied(p, c).layout;
      && r.layerNames == Some(names + NotIndexed(KeysOf(c.layers), ZipIndex(names, SectionOr(p.layers))))
      && r.layers.Some? && |r.layers.value| == |r.layerNames.value|
      && forall i, j :: 0 <= i < |r.layerNames.value| && 0 <= j < |c.layers| && r.layerNames.value[i] == c.layers[j].0 ==>
           r.layers.value[i] == c.layers[j].1
  {
    var names := SectionOr(p.layerNames);
    var index := ZipIndex(names, SectionOr(p.layers));
    FileLayersOrder(names, index, c.layers);
    FileLayersFiled(names, index, c.layers);
  }

  /** With distinct names, a paired name the bundle does not mention keeps its old layer at its old place. */
  lemma LayersAppliedKeeps(p: Payload, c: Components, i: nat)
    requires LayersApplied(p, c).error.None?
    requires NoDup(SectionOr(p.layerNames))
    requires i < |SectionOr(p.layerNames)| && i < |SectionOr(p.layers)|
    requires SectionOr(p.layerNames)[i] !in KeysOf(c.layers)
    ensures var r := LayersApplied(p, c).layout;
      && r.layerNames.Some? && r.layers.Some? && i < |r.layerNames.value| && i < |r.layers.value|
      && r.layerNames.value[i] == SectionOr(p.layerNames)[i]
      && r.layers.value[i] == SectionOr(p.layers)[i]
  {
    var names := SectionOr(p.layerNames);
    var layers := SectionOr(p.layers);
    var index := ZipIndex(names, layers);
    var k := if |names| <= |layers| then |names| else |layers|;
    ZippedPairs(names, layers, k, i);
    FileLayersOrder(names, index, c.layers);
    FileLayersFiled(names, index, c.layers);
  }

  /**
   * When there are at least as many layers as names, the layer half cannot
   * raise, and distinct names stay distinct.
   */
  lemma LayersAppliedComplete(p: Payload, c: Components)
    requires |SectionOr(p.layerNames)| <= |SectionOr(p.layers)|
    ensures LayersApplied(p, c).error.None?
    ensures NoDup(SectionOr(p.layerNames)) ==> NoDup(LayersApplied(p, c).layout.layerNames.value)
  {
    var names := SectionOr(p.layerNames);
    var index := ZipIndex(names, SectionOr(p.layers));
    ZipIndexComplete(names, SectionOr(p.layers));
    FileLayersOrder(names, index, c.layers);
    FileLayersAllFiled(names, index, c.layers);
    var filing := FileLayers(names, index, c.layers);
    assert FirstUnfiled(filing.0, filing.1).None?;
    if NoDup(names) {
      var added := NotIndexed(KeysOf(c.layers), index);
      assert NoDup(KeysOf(c.layers));
      NoDupConcat(names, added);
    }
  }

  /** With at least as many layers as names, every name is paired with a layer. */
  lemma ZipIndexComplete(names: seq<string>, layers: seq<Layer>)
    requires |names| <= |layers|
    ensures forall i :: 0 <= i < |names| ==> names[i] in ZipIndex(names, layers)
  {
    PrefixWhole(names);
  }

  /** When every old name had a layer, every listed name has one afterwards. */
  lemma FileLayersAllFiled(names: seq<string>, index: map<string, Layer>, items: seq<(string, Layer)>)
    requires DistinctKeys(items)
    requires forall i :: 0 <= i < |names| ==> names[i] in index
    ensures var filing := FileLayers(names, index, items);
      forall i :: 0 <= i < |filing.0| ==> filing.0[i] in filing.1
  {
    FileLayersOrder(names, index, items);
    var filing := FileLayers(names, index, items);
    var added := NotIndexed(KeysOf(items), index);
    forall i | 0 <= i < |filing.0|
      ensures filing.0[i] in filing.1
    {
      if i < |names| {
        assert filing.0[..|names|][i] == names[i];
      } else {
        var x := added[i - |names|];
        assert filing.0[i] == x;
        assert x in added;
        assert x in KeysOf(items);
        var j: int :| 0 <= j < |KeysOf(items)| && KeysOf(items)[j] == x;
        assert items[j].0 == x;
      }
    }
  }

  /**
   * The layer half raises only for a name beyond the layers it was paired
   * with; by then `layer_names` is already extended and `layers` is left as
   * it was.
   */
  lemma LayersAppliedMissing(p: Payload, c: Components)
    requires LayersApplied(p, c).error.Some?
    ensures var names := SectionOr(p.layerNames);
      var layers := SectionOr(p.layers);
      var r := LayersApplied(p, c);
      && r.error.value.MissingLayerData?
      && |layers| < |names| && r.error.value.name in names[|layers|..]
      && r.layout.layerNames == Some(names + NotIndexed(KeysOf(c.layers), ZipIndex(names, layers)))
      && r.layout.layers == Some(layers)
  {
    var names := SectionOr(p.layerNames);
    var layers := SectionOr(p.layers);
    var index := ZipIndex(names, layers);
    FileLayersOrder(names, index, c.layers);
    var filing := FileLayers(names, index, c.layers);
    var name := FirstUnfiled(filing.0, filing.1).value;
    assert LayersApplied(p, c).error == Some(MissingLayerData(name));
    FileLayersUnfiled(names, index, c.layers, name);
    ZipIndexMissing(names, layers, name);
  }

  /** A listed name left without a layer is an old name that had none. */
  lemma FileLayersUnfiled(names: seq<string>, index: map<string, Layer>, items: seq<(string, Layer)>, name: string)
    requires DistinctKeys(items)
    requires name in FileLayers(names, index, items).0 && name !in FileLayers(names, index, items).1
    ensures name in names && name !in index
  {
    FileLayersOrder(names, index, items);
    assert name !in KeysOf(items);
    assert name !in NotIndexed(KeysOf(items), index);
  }

  /** An old name with no layer paired with it lies beyond the paired layers. */
  lemma ZipIndexMissing(names: seq<string>, layers: seq<Layer>, name: string)
    requires name in names && name !in ZipIndex(names, layers)
    ensures |layers| < |names| && name in names[|layers|..]
  {
    var k := if |names| <= |layers| then |names| else |layers|;
    var i :| 0 <= i < |names| && names[i] == name;
    assert names[k..][i - k] == name;
  }

  // ---------------------------------------------------------------------
  // The in-place procedure

  /** The `_set_macro` loops over the feature macros. */
  method SetMacros(order0: seq<Json>, index0: map<Json, Json>, ms: seq<Json>)
    returns (r: Result<(seq<Json>, map<Json, Json>), FeatureError>)
    ensures r == SetAll(order0, index0, ms)
  {
    var order, index := order0, index0;
    var i := 0;
    while i < |ms|
      invariant 0 <= i <= |ms|
      invariant SetAll(order0, index0, ms[..i]) == Ok((order, index))
    {
      assert ms[..i + 1][..i] == ms[..i];
      var name := StrField(ms[i], "name");
      if name.None? {
        assert !AllNamed(ms);
        return Err(UnnamedMacro);
      }
      var key := JStr(name.value);
      if key !in order {
        order := order + [key];
      }
      index := index[key := ms[i]];
      i := i + 1;
    }
    assert ms[..i] == ms;
    r := Ok((order, index));
  }

  /** The loop over `components.layers.items()`, extending the order and filing each layer. */
  method FileComponentLayers(names: seq<string>, index: map<string, Layer>, items: seq<(string, Layer)>)
    returns (order: seq<string>, filed: map<string, Layer>)
    ensures (order, filed) == FileLayers(names, index, items)
  {
    order, filed := names, index;
    var i := 0;
    while i < |items|
      invariant 0 <= i <= |items|
      invariant FileLayers(names, index, items[..i]) == (order, filed)
    {
      assert items[..i + 1][..i] == items[..i];
      var (name, layer) := items[i];
      if name !in filed {
        order := order + [name];
      }
      filed := filed[name := layer];
      i := i + 1;
    }
    assert items[..i] == items;
  }

  /** `apply_feature` on the caller's layout dict: the payload it leaves, and the error it raised, if any. */
  method ApplyFeature(p: Payload, c: Components) returns (r: Applied)
    ensures r == FeatureApplied(p, c)
  {
    var existing := EnsureSection("macros", p.macros);
    if existing.Err? {
      return Applied(p, Some(existing.error));
    }
    var filing := SetMacros(ExistingOrder(existing.value), ExistingIndex(existing.value), FeatureMacros(c));
    if filing.Err? {
      return Applied(p, Some(filing.error));
    }
    var (order, index) := filing.value;
    var layout := p.(macros := Some(seq(|order|, i requires 0 <= i < |order| => index[order[i]])));
    assert layout.macros == Some(MacrosApplied(existing.value, c).value);
    var holdTaps := EnsureSection("holdTaps", layout.holdTaps);
    if holdTaps.Err? {
      return Applied(layout, Some(holdTaps.error));
    }
    layout := layout.(holdTaps := Some(holdTaps.value + c.holdTaps));
    var combos := EnsureSection("combos", layout.combos);
    if combos.Err? {
      return Applied(layout, Some(combos.error));
    }
    layout := layout.(combos := Some(combos.value + c.combos));
    var listeners := EnsureSection("inputListeners", layout.inputListeners);
    if listeners.Err? {
      return Applied(layout, Some(listeners.error));
    }
    layout := layout.(inputListeners := Some(listeners.value + c.inputListeners));
    var names := SectionOr(layout.layerNames);
    var layers := SectionOr(layout.layers);
    var layerNames, filed := FileComponentLayers(names, ZipIndex(names, layers), c.layers);
    layout := layout.(layerNames := Some(layerNames), layers := Some(layers));
    var missing := FirstUnfiled(layerNames, filed);
    if missing.Some? {
      return Applied(layout, Some(MissingLayerData(missing.value)));
    }
    r := Applied(layout.(layers := Some(Rebuilt(layerNames, filed))), None);
  }
}
