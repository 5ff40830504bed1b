/**
 * The layout payload (the dict the firmware format serialises) and the
 * feature bundle `LayoutFeatureComponents` that merges are applied from.
 */
module Layout {
  import opened Wrappers
  import opened Json
  import opened Seqs

  /** One layer's key slots, one binding dict per physical key. */
  type Layer = seq<Json>

  /**
   * The sections of a layout payload this core reads and writes. A section
   * is `None` when the key is absent from the dict; other keys of the payload
   * (title, metadata) pass through untouched and are not represented.
   */
  datatype Payload = Payload(
    layerNames: Option<seq<string>>,
    layers: Option<seq<Layer>>,
    macros: Option<seq<Json>>,
    holdTaps: Option<seq<Json>>,
    combos: Option<seq<Json>>,
    inputListeners: Option<seq<Json>>)

  /** A reusable bundle of layout pieces; dict-valued fields keep their key order. */
  datatype Components = Components(
    macros: seq<Json>,
    macroOverrides: OrderedMap<Json>,
    holdTaps: seq<Json>,
    combos: seq<Json>,
    inputListeners: seq<Json>,
    layers: OrderedMap<Layer>)

  /** `payload.get(key, [])` for a list section. */
  function SectionOr<T>(section: Option<seq<T>>): seq<T> {
    match section
    case Some(s) => s
    case None => []
  }

  /** The first `k` pairs of `zip(layer_names, layers)` as a dict: a later pair overwrites an earlier one. */
  function Zipped(names: seq<string>, layers: seq<Layer>, k: nat): (r: map<string, Layer>)
    requires k <= |names| && k <= |layers|
    ensures forall n :: n in r <==> n in names[..k]
    decreases k
  {
    if k == 0 then map[]
    else
      assert names[..k] == names[..k - 1] + [names[k - 1]];
      Zipped(names, layers, k - 1)[names[k - 1] := layers[k - 1]]
  }

  /** `layers_by_name`: the layers paired with names, the surplus of the longer list ignored. */
  function ZipIndex(names: seq<string>, layers: seq<Layer>): map<string, Layer> {
    Zipped(names, layers, if |names| <= |layers| then |names| else |layers|)
  }

  /** With distinct names, each paired name finds the layer it is paired with. */
  lemma {:induction false} ZippedPairs(names: seq<string>, layers: seq<Layer>, k: nat, i: nat)
    requires k <= |names| && k <= |layers| && NoDup(names) && i < k
    ensures Zipped(names, layers, k)[names[i]] == layers[i]
    decreases k
  {
    if i < k - 1 {
      ZippedPairs(names, layers, k - 1, i);
    }
  }

  /** The first ordered name with no layer filed under it. */
  function FirstUnfiled(names: seq<string>, filed: map<string, Layer>): (r: Option<string>)
    ensures r.None? <==> forall i :: 0 <= i < |names| ==> names[i] in filed
    ensures r.Some? ==> r.value in names && r.value !in filed
  {
    if names == [] then None
    else if names[0] !in filed then Some(names[0])
    else FirstUnfiled(names[1..], filed)
  }

  /** The name found is the first without a layer: every name before it has one. */
  lemma {:induction false} FirstUnfiledAt(names: seq<string>, filed: map<string, Layer>, i: nat)
    requires i < |names| && names[i] !in filed
    requires forall j :: 0 <= j < i ==> names[j] in filed
    ensures FirstUnfiled(names, filed) == Some(names[i])
    decreases i
  {
    if i > 0 {
      FirstUnfiledAt(names[1..], filed, i - 1);
    }
  }

  /** Every name before the one found has a layer. */
  lemma {:induction false} FirstUnfiledIsFirst(names: seq<string>, filed: map<string, Layer>)
    requires FirstUnfiled(names, filed).Some?
    ensures forall j :: 0 <= j < IndexOf(names, FirstUnfiled(names, filed).value) ==> names[j] in filed
    decreases |names|
  {
    var name := FirstUnfiled(names, filed).value;
    if names[0] in filed {
      var rest := names[1..];
      FirstUnfiledIsFirst(rest, filed);
      var k := IndexOf(rest, name);
      assert names[..1 + k] == [names[0]] + rest[..k];
      IndexOfUnique(names, name, 1 + k);
    }
  }

  /** `[layers_by_name[name] for name in layer_names]`. */
  function Rebuilt(names: seq<string>, filed: map<string, Layer>): (r: seq<Layer>)
    requires forall i :: 0 <= i < |names| ==> names[i] in filed
    ensures |r| == |names|
  {
    seq(|names|, i requires 0 <= i < |names| => filed[names[i]])
  }
}
