/**
 * Shared steps of layout composition: putting generated layers in order and
 * resolving layer references against the positions of the layer names.
 */
module Common {
  import opened Wrappers
  import opened Json
  import opened Seqs
  import opened Layout

  /** KeyError from `assemble_layers`: an ordered name has no generated layer in this variant. */
  datatype AssembleError = NoLayerData(name: string, variant: string)

  /** `assemble_layers`: the generated layers in `layer_names` order, or the first name without one. */
  function Assembled(names: seq<string>, generated: map<string, Layer>, variant: string): Result<seq<Layer>, AssembleError> {
    match FirstUnfiled(names, generated)
    case Some(name) => Err(NoLayerData(name, variant))
    case None => Ok(Rebuilt(names, generated))
  }

  /**
   * Assembly succeeds exactly when every name has a generated layer, and then
   * holds one layer per name, the one generated under it; otherwise it
   * reports a name without one, every name before which has one.
   */
  lemma AssembledEffect(names: seq<string>, generated: map<string, Layer>, variant: string)
    ensures Assembled(names, generated, variant).Ok? <==> forall i :: 0 <= i < |names| ==> names[i] in generated
    ensures var r := Assembled(names, generated, variant);
      r.Ok? ==> |r.value| == |names| && forall i :: 0 <= i < |names| ==> r.value[i] == generated[names[i]]
    ensures var r := Assembled(names, generated, variant);
      r.Err? ==>
        (&& r.error.variant == variant
         && r.error.name in names && r.error.name !in generated
         && forall j :: 0 <= j < IndexOf(names, r.error.name) ==> names[j] in generated)
  {
    if FirstUnfiled(names, generated).Some? {
      FirstUnfiledIsFirst(names, generated);
    }
  }

  /** The `assemble_layers` loop. */
  method AssembleLayers(names: seq<string>, generated: map<string, Layer>, variant: string)
    returns (r: Result<seq<Layer>, AssembleError>)
    ensures r == Assembled(names, generated, variant)
  {
    var ordered: seq<Layer> := [];
    var i := 0;
    while i < |names|
      invariant 0 <= i <= |names|
      invariant forall j :: 0 <= j < i ==> names[j] in generated
      invariant ordered == Rebuilt(names[..i], generated)
    {
      if names[i] !in generated {
        FirstUnfiledAt(names, generated, i);
        return Err(NoLayerData(names[i], variant));
      }
      ordered := ordered + [generated[names[i]]];
      i := i + 1;
    }
    assert names[..i] == names;
    r := Ok(ordered);
  }

  // ---------------------------------------------------------------------
  // resolve_referenced_fields

  /** `layer_indices`: each name's position in the order; a repeated name keeps its last position. */
  function LayerIndices(names: seq<string>): (r: map<string, nat>)
    ensures forall n :: n in r <==> n in names
    ensures forall n :: n in r ==> r[n] < |names| && names[r[n]] == n
    ensures forall n, j :: n in r && r[n] < j < |names| ==> names[j] != n
    decreases |names|
  {
    if names == [] then map[]
    else
      var k := |names| - 1;
      assert names == names[..k] + [names[k]];
      LayerIndices(names[..k])[names[k] := k]
  }

  /** With no repeated names, each name maps to its own position. */
  lemma LayerIndicesDistinct(names: seq<string>)
    requires NoDup(names)
    ensures forall i :: 0 <= i < |names| ==> LayerIndices(names)[names[i]] == i
  {
  }

  /** KeyError from `resolve_referenced_fields`: a requested field the layout lacks. */
  datatype ResolveError = MissingField(field: string)

  /** The layout after `resolve_referenced_fields`, as far as it got, with the error it raised, if any. */
  datatype Resolved = Resolved(layout: map<string, Json>, error: Option<ResolveError>)

  /** `resolve_layer_refs`, which is not part of this model, comes in as a function of a value and the index map. */
  type Resolver = (Json, map<string, nat>) -> Json

  /** Each requested field in turn is replaced by its resolved value; a missing field stops the loop. */
  function ResolveFields(layout: map<string, Json>, fields: seq<string>, indices: map<string, nat>, resolve: Resolver)
    : (r: Resolved)
    ensures r.layout.Keys == layout.Keys
    decreases |fields|
  {
    if fields == [] then Resolved(layout, None)
    else
      var n := |fields| - 1;
      var prev := ResolveFields(layout, fields[..n], indices, resolve);
      if prev.error.Some? then prev
      else if fields[n] !in prev.layout then Resolved(prev.layout, Some(MissingField(fields[n])))
      else Resolved(prev.layout[fields[n] := resolve(prev.layout[fields[n]], indices)], None)
  }

  /** A field that is not requested keeps its value. */
  lemma {:induction false} ResolveFieldsKeeps(layout: map<string, Json>, fields: seq<string>, indices: map<string, nat>, resolve: Resolver, k: string)
    requires k in layout && k !in fields
    ensures k in ResolveFields(layout, fields, indices, resolve).layout
    ensures ResolveFields(layout, fields, indices, resolve).layout[k] == layout[k]
    decreases |fields|
  {
    if fields != [] {
      var n := |fields| - 1;
      assert fields == fields[..n] + [fields[n]];
      ResolveFieldsKeeps(layout, fields[..n], indices, resolve, k);
    }
  }

  /**
   * Resolution fails exactly when a requested field is missing, naming one;
   * when each field is requested once and all are there, each holds its
   * resolved old value.
   */
  lemma {:induction false} ResolveFieldsEffect(layout: map<string, Json>, fields: seq<string>, indices: map<string, nat>, resolve: Resolver)
    ensures var r := ResolveFields(layout, fields, indices, resolve);
      r.error.None? <==> forall i :: 0 <= i < |fields| ==> fields[i] in layout
    ensures var r := ResolveFields(layout, fields, indices, resolve);
      r.error.Some? ==> r.error.value.field in fields && r.error.value.field !in layout
    ensures var r := ResolveFields(layout, fields, indices, resolve);
      r.error.None? && NoDup(fields) ==> forall i :: 0 <= i < |fields| ==> r.layout[fields[i]] == resolve(layout[fields[i]], indices)
    decreases |fields|
  {
    if fields != [] {
      var n := |fields| - 1;
      var prefix := fields[..n];
      ResolveFieldsEffect(layout, prefix, indices, resolve);
      assert forall i :: 0 <= i < n ==> prefix[i] == fields[i];
      assert fields == prefix + [fields[n]];
      if NoDup(fields) && fields[n] in layout {
        assert NoDup(prefix);
        assert fields[n] !in prefix;
        ResolveFieldsKeeps(layout, prefix, indices, resolve, fields[n]);
      }
    }
  }

  /** `resolve_referenced_fields` on the caller's layout dict. */
  method ResolveReferencedFields(layout: map<string, Json>, names: seq<string>, fields: seq<string>, resolve: Resolver)
    returns (r: Resolved)
    ensures r == ResolveFields(layout, fields, LayerIndices(names), resolve)
  {
    r := ResolveEach(layout, fields, LayerIndices(names), resolve);
  }

  /** The `for field in fields` loop of `resolve_referenced_fields`. */
  method ResolveEach(layout: map<string, Json>, fields: seq<string>, indices: map<string, nat>, resolve: Resolver)
    returns (r: Resolved)
    ensures r == ResolveFields(layout, fields, indices, resolve)
  {
    var current := layout;
    var i := 0;
    while i < |fields|
      invariant 0 <= i <= |fields|
      invariant ResolveFields(layout, fields[..i], indices, resolve) == Resolved(current, None)
    {
      assert fields[..i + 1][..i] == fields[..i];
      ResolveStep(layout, fields[..i + 1], indices, resolve);
      if fields[i] !in current {
        ResolveStops(layout, fields, indices, resolve, i + 1);
        return Resolved(current, Some(MissingField(fields[i])));
      }
      current := current[fields[i] := resolve(current[fields[i]], indices)];
      i := i + 1;
    }
    assert fields[..i] == fields;
    r := Resolved(current, None);
  }

  /** One more field, after a prefix that went through. */
  lemma ResolveStep(layout: map<string, Json>, fields: seq<string>, indices: map<string, nat>, resolve: Resolver)
    requires fields != []
    requires ResolveFields(layout, fields[..|fields| - 1], indices, resolve).error.None?
    ensures var prev := ResolveFields(layout, fields[..|fields| - 1], indices, resolve).layout;
      var f := fields[|fields| - 1];
      ResolveFields(layout, fields, indices, resolve)
        == if f in prev then Resolved(prev[f := resolve(prev[f], indices)], None) else Resolved(prev, Some(MissingField(f)))
  {
  }

  /** Once a prefix of the fields stops with an error, so do all the fields, with the same outcome. */
  lemma {:induction false} ResolveStops(layout: map<string, Json>, fields: seq<string>, indices: map<string, nat>, resolve: Resolver, i: nat)
    requires i <= |fields| && ResolveFields(layout, fields[..i], indices, resolve).error.Some?
    ensures ResolveFields(layout, fields, indices, resolve) == ResolveFields(layout, fields[..i], indices, resolve)
    decreases |fields| - i
  {
    if i < |fields| {
      assert fields[..i + 1][..i] == fields[..i];
      ResolveStops(layout, fields, indices, resolve, i + 1);
    } else {
      assert fields[..i] == fields;
    }
  }
}
