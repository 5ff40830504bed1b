/**
 * Materialisation of spec items: items that can turn themselves into a model
 * or a dict do so, plain values pass through, and named sequences pick each
 * entry from the overrides before the definitions.
 */
module Primitives {
  import opened Wrappers
  import opened Json

  /**
   * An item as materialisation sees it: what its `to_model()` and
   * `to_dict()` return, when it has them, and its own value. Python's `None`
   * as a definition or an override is the absent item (`Option.None`); an
   * `Item` stands for any other object, and its `value` is never meant to be
   * `JNull`.
   */
  datatype Item = Item(toModel: Option<Json>, toDict: Option<Json>, value: Json)

  /** `_materialize_item`: the item's dict when it has `to_dict`, else a copy of the item. */
  function MaterializeItem(item: Item): (r: Json)
    ensures item.toDict.None? ==> r == item.value
  {
    match item.toDict
    case Some(d) => d
    case None => item.value
  }

  /** One item of `materialize_sequence`: `to_model()` first, then `to_dict()`, else the item itself. */
  function Materialize(item: Item): (r: Json)
    ensures item.toModel.Some? ==> r == item.toModel.value
    ensures item.toModel.None? ==> r == MaterializeItem(item)
  {
    if item.toModel.Some? then item.toModel.value else MaterializeItem(item)
  }

  /** `materialize_sequence`: one result per item, in order. */
  method MaterializeSequence(items: seq<Item>) returns (result: seq<Json>)
    ensures |result| == |items|
    ensures forall i :: 0 <= i < |items| ==> result[i] == Materialize(items[i])
  {
    result := [];
    var i := 0;
    while i < |items|
      invariant 0 <= i <= |items|
      invariant |result| == i
      invariant forall j :: 0 <= j < i ==> result[j] == Materialize(items[j])
    {
      var item := items[i];
      if item.toModel.Some? {
        result := result + [item.toModel.value];
      } else if item.toDict.Some? {
        result := result + [MaterializeItem(item)];
      } else {
        result := result + [item.value];
      }
      i := i + 1;
    }
  }

  /** KeyError from `materialize_named_sequence`. */
  datatype MaterializeError = UnknownDefinition(name: string)

  /**
   * `overrides.get(name, definitions.get(name))`: an override, even one set
   * to `None`, shadows the definition. `None` stands for Python's `None`.
   */
  function Chosen(definitions: map<string, Option<Item>>, overrides: map<string, Option<Item>>, name: string): Option<Item> {
    if name in overrides then overrides[name]
    else if name in definitions then definitions[name]
    else None
  }

  /** The first name in `order` that resolves to nothing, if any. */
  function FirstUnknown(definitions: map<string, Option<Item>>, overrides: map<string, Option<Item>>, order: seq<string>)
    : (r: Option<nat>)
    ensures r.None? <==> forall i :: 0 <= i < |order| ==> Chosen(definitions, overrides, order[i]).Some?
    ensures r.Some? ==> r.value < |order| && Chosen(definitions, overrides, order[r.value]).None?
    ensures r.Some? ==> forall j :: 0 <= j < r.value ==> Chosen(definitions, overrides, order[j]).Some?
  {
    if order == [] then None
    else if Chosen(definitions, overrides, order[0]).None? then Some(0)
    else
      match FirstUnknown(definitions, overrides, order[1..])
      case None => None
      case Some(k) => Some(k + 1)
  }

  /**
   * `materialize_named_sequence`: the materialised entry of each name in
   * `order`, or the first name that has none. An absent `overrides` is the
   * empty map.
   */
  function NamedSequence(definitions: map<string, Option<Item>>, order: seq<string>, overrides: map<string, Option<Item>>)
    : Result<seq<Json>, MaterializeError>
  {
    match FirstUnknown(definitions, overrides, order)
    case Some(k) => Err(UnknownDefinition(order[k]))
    case None => Ok(seq(|order|, i requires 0 <= i < |order| => Materialize(Chosen(definitions, overrides, order[i]).value)))
  }

  /**
   * A named sequence has one entry per name, in order, each from the
   * override when one is given and from the definition otherwise; it fails
   * exactly when some name is neither defined nor overridden, or is set to
   * `None`, and then names the first such name.
   */
  lemma NamedSequenceEffect(definitions: map<string, Option<Item>>, order: seq<string>, overrides: map<string, Option<Item>>)
    ensures var r := NamedSequence(definitions, order, overrides);
      r.Ok? <==> forall i :: 0 <= i < |order| ==> Chosen(definitions, overrides, order[i]).Some?
    ensures var r := NamedSequence(definitions, order, overrides);
      r.Ok? ==>
        (&& |r.value| == |order|
         && (forall i :: 0 <= i < |order| && order[i] in overrides ==>
               r.value[i] == Materialize(overrides[order[i]].value))
         && (forall i :: 0 <= i < |order| && order[i] !in overrides ==>
               order[i] in definitions && r.value[i] == Materialize(definitions[order[i]].value)))
    ensures var r := NamedSequence(definitions, order, overrides);
      r.Err? ==>
        exists k :: 0 <= k < |order| && order[k] == r.error.name
          && Chosen(definitions, overrides, order[k]).None?
          && forall j :: 0 <= j < k ==> Chosen(definitions, overrides, order[j]).Some?
  {
    var r := NamedSequence(definitions, order, overrides);
    if r.Err? {
      var k := FirstUnknown(definitions, overrides, order).value;
      assert order[k] == r.error.name;
    }
  }

  /** An override set to `None` makes the name fail even when it is defined. */
  lemma NoneOverrideFails(definitions: map<string, Option<Item>>, order: seq<string>, overrides: map<string, Option<Item>>, i: nat)
    requires i < |order| && order[i] in overrides && overrides[order[i]].None?
    ensures NamedSequence(definitions, order, overrides).Err?
  {
    assert Chosen(definitions, overrides, order[i]).None?;
  }

  /** The `materialize_named_sequence` loop. */
  method MaterializeNamedSequence(definitions: map<string, Option<Item>>, order: seq<string>, overrides: map<string, Option<Item>>)
    returns (r: Result<seq<Json>, MaterializeError>)
    ensures r == NamedSequence(definitions, order, overrides)
  {
    var resolved: seq<Json> := [];
    var i := 0;
    while i < |order|
      invariant 0 <= i <= |order|
      invariant |resolved| == i
      invariant forall j :: 0 <= j < i ==> Chosen(definitions, overrides, order[j]).Some?
      invariant forall j :: 0 <= j < i ==> resolved[j] == Materialize(Chosen(definitions, overrides, order[j]).value)
    {
      var name := order[i];
      var value := if name in overrides then overrides[name] else if name in definitions then definitions[name] else None;
      if value.None? {
        FirstUnknownAt(definitions, overrides, order, i);
        return Err(UnknownDefinition(name));
      }
      resolved := resolved + [Materialize(value.value)];
      i := i + 1;
    }
    assert FirstUnknown(definitions, overrides, order).None?;
    assert resolved == seq(|order|, j requires 0 <= j < |order| => Materialize(Chosen(definitions, overrides, order[j]).value));
    r := Ok(resolved);
  }

  /** A name that resolves to nothing after names that all resolve is the first unknown one. */
  lemma {:induction false} FirstUnknownAt(definitions: map<string, Option<Item>>, overrides: map<string, Option<Item>>, order: seq<string>, i: nat)
    requires i < |order| && Chosen(definitions, overrides, order[i]).None?
    requires forall j :: 0 <= j < i ==> Chosen(definitions, overrides, order[j]).Some?
    ensures FirstUnknown(definitions, overrides, order) == Some(i)
    decreases i
  {
    if i > 0 {
      FirstUnknownAt(definitions, overrides, order[1..], i - 1);
    }
  }
}
